/** Record types as the store sees them through reflection: an ordered list of
    named, typed properties (the order of Type.GetProperties), and the
    MongoIdentity base class whose first property names the identity field. */
module Records {
  import opened Wrappers
  import opened Bson

  /** The C# value types a property can have: never null unless wrapped in Nullable<>. */
  datatype StructKind = ObjectIdKind | IntKind | DateTimeKind

  /** The C# reference types a property can have: always possibly null. */
  datatype RefKind = StringKind | ListKind

  /** The declared type of a property (PropertyInfo.PropertyType). */
  datatype PropType =
    | Struct(skind: StructKind)
    | NullableStruct(nkind: StructKind)
    | Reference(rkind: RefKind)

  /** typeof(ObjectId): the one property type whose empty value the full filter skips. */
  const ObjectIdType: PropType := Struct(ObjectIdKind)

  datatype Property = Property(name: string, ptype: PropType)

  /** typeof(T): the type's name (also its collection's name) and its properties. */
  datatype RecordType = RecordType(name: string, props: seq<Property>)

  predicate OfKind(k: StructKind, v: Value) {
    match k
    case ObjectIdKind => v.Oid?
    case IntKind => v.Int?
    case DateTimeKind => v.Date?
  }

  /** Whether a property of type `pt` can hold `v` (what a C# object of the type allows). */
  predicate Admits(pt: PropType, v: Value) {
    match pt
    case Struct(k) => OfKind(k, v)
    case NullableStruct(k) => v.Null? || OfKind(k, v)
    case Reference(StringKind) => v.Null? || v.Str?
    case Reference(ListKind) => v.Null? || v.Array?
  }

  /** Assumed of every record type: no two properties share a name. (A property
      hidden with `new` would break this; GetProperty then throws
      AmbiguousMatchException, which the model does not cover.) */
  predicate DistinctNames(props: seq<Property>) {
    forall i, j :: 0 <= i < j < |props| ==> props[i].name != props[j].name
  }

  /** `vals` are the property values of an object of type `t`, in property order. */
  predicate Conforms(t: RecordType, vals: seq<Value>) {
    |vals| == |t.props| &&
    forall i :: 0 <= i < |vals| ==> Admits(t.props[i].ptype, vals[i])
  }

  /** The abstract base class MongoIdentity: one property, MongoId, of type ObjectId. */
  const MongoIdentity: RecordType := RecordType("MongoIdentity", [Property("MongoId", ObjectIdType)])

  /** typeof(MongoIdentity).GetProperties().First().Name, i.e. "MongoId". */
  const IdentityName: string := MongoIdentity.props[0].name

  /** The first property named `name`, if any (what GetProperty(name) finds
      when names are distinct). */
  function IndexOfName(props: seq<Property>, name: string): (r: Option<nat>)
    ensures r.Some? <==> exists i :: 0 <= i < |props| && props[i].name == name
    ensures r.Some? ==> r.value < |props| && props[r.value].name == name
    ensures r.Some? ==> forall j :: 0 <= j < r.value ==> props[j].name != name
  {
    if |props| == 0 then None
    else if props[0].name == name then Some(0)
    else match IndexOfName(props[1..], name)
      case None => None
      case Some(i) => Some(i + 1)
  }

  /** With distinct names, looking a property's name up finds that very property. */
  lemma IndexOfOwnName(props: seq<Property>, i: nat)
    requires DistinctNames(props) && i < |props|
    ensures IndexOfName(props, props[i].name) == Some(i)
  {
    var r := IndexOfName(props, props[i].name);
    assert r.Some?;
  }

  /** The identity trait, checked by name as
      typeof(T).GetProperties().Select(p => p.Name).Contains(IdentityName) does:
      a property named MongoId qualifies whatever its type and whether or not
      the type derives from MongoIdentity. */
  predicate HasIdentity(t: RecordType): (r: bool)
    ensures r <==> IndexOfName(t.props, IdentityName).Some?
  {
    exists i :: 0 <= i < |t.props| && t.props[i].name == IdentityName
  }

  /** Position of the MongoId property (typeof(T).GetProperty("MongoId")). */
  function IdentityIndex(t: RecordType): (i: nat)
    requires HasIdentity(t)
    ensures i < |t.props| && t.props[i].name == IdentityName
  {
    IndexOfName(t.props, IdentityName).value
  }

  /** The value a freshly constructed object holds (`new T()` with no initialiser):
      default(ObjectId) is ObjectId.Empty, default(int) is 0, default(DateTime) is
      DateTime.MinValue (tick 0); every nullable property is null. */
  function DefaultValue(pt: PropType): (v: Value)
    ensures Admits(pt, v)
    ensures v.Null? <==> !pt.Struct?
  {
    match pt
    case Struct(ObjectIdKind) => Oid(EmptyId)
    case Struct(IntKind) => Int(0)
    case Struct(DateTimeKind) => Date(0)
    case _ => Null
  }

  function DefaultInstance(t: RecordType): (vals: seq<Value>)
    ensures Conforms(t, vals)
    ensures forall i :: 0 <= i < |vals| ==> vals[i] == DefaultValue(t.props[i].ptype)
  {
    seq(|t.props|, i requires 0 <= i < |t.props| => DefaultValue(t.props[i].ptype))
  }

  /** A caller-owned record object. Its property values change in place: by the
      caller between calls, and by the store only in Update's id back-fill. */
  class Item {
    var values: seq<Value>

    constructor (values: seq<Value>)
      ensures this.values == values
    {
      this.values := values;
    }
  }
}
