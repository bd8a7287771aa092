/** The BSON values a record property can hold, reduced to what the filter and
    upsert logic of MyMongoDb distinguishes. */
module Bson {

  /** A MongoDB ObjectId: 12 bytes, read here as one 96-bit number. */
  type ObjectId = n: nat | n < 0x1_0000_0000_0000_0000_0000_0000

  /** ObjectId.Empty, the all-zero id that means "not yet assigned". */
  const EmptyId: ObjectId := 0

  /** C#'s 32-bit int; the store never computes with it, it only compares. */
  type Int32 = x: int | -0x8000_0000 <= x < 0x8000_0000

  /** What PropertyInfo.GetValue can return for a property of a record:
      C# null, or a boxed value of one of the property types the model knows. */
  datatype Value =
    | Null
    | Oid(id: ObjectId)
    | Int(n: Int32)
    | Str(s: string)
    | Date(ticks: int)
    | Array(items: seq<Value>)
}
