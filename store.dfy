/** MyMongoDb: the generic store. Each driver round trip is reduced to the request
    the store sends (returned as `sent`) and the driver's reply (a parameter), so
    what is modelled is the store's own dispatch, guards, exception handling and
    id back-fill. */
module Store {
  import opened Wrappers
  import opened Bson
  import opened Records
  import opened Filters

  /** The IMongoDatabase handle the store is constructed with. */
  datatype Database = Database(name: string)

  /** _database.GetCollection<T>(typeof(T).Name). */
  datatype Collection = Collection(database: Database, name: string)

  /** A round trip the store asks the driver to make. ReplaceOne carries the
      replacement document as the driver serialises it, that is, the item's
      values before Update's id back-fill. */
  datatype Request =
    | InsertOne(collection: Collection, doc: Item)
    | InsertMany(collection: Collection, docs: seq<Item?>)
    | Find(collection: Collection, filter: Filter)
    | ReplaceOne(collection: Collection, filter: Filter, replacement: seq<Value>, isUpsert: bool)
    | DeleteOne(collection: Collection, filter: Filter)

  /** How the driver answers: normally, or by throwing (duplicate key, lost
      connection, ...); the store catches every exception. */
  datatype InsertReply = Inserted | InsertThrew
  datatype FindReply = Found(docs: seq<seq<Value>>) | FindThrew
  datatype ReplaceReply = ReplaceThrew | Replaced(acknowledged: bool, upsertedId: Option<Value>)
  datatype DeleteReply = DeleteThrew | Deleted(acknowledged: bool, deletedCount: nat)

  /** Update's result and the item's property values afterwards. */
  datatype Reconciled = Reconciled(ok: bool, values: seq<Value>)

  /** What Update does with ReplaceOne's reply. It succeeds iff the write is
      acknowledged and any UpsertedId can be written back: it must be an ObjectId
      (AsObjectId throws otherwise) that the MongoId property can hold (SetValue
      throws otherwise). Only the MongoId property ever changes, only on success,
      and only to the upserted id. */
  function AfterReplace(t: RecordType, vals: seq<Value>, reply: ReplaceReply): (r: Reconciled)
    requires HasIdentity(t) && Conforms(t, vals)
    ensures Conforms(t, r.values)
    ensures forall j :: 0 <= j < |vals| && j != IdentityIndex(t) ==> r.values[j] == vals[j]
    ensures r.ok <==>
      reply.Replaced? && reply.acknowledged &&
      (reply.upsertedId.Some? ==>
        reply.upsertedId.value.Oid? && Admits(t.props[IdentityIndex(t)].ptype, reply.upsertedId.value))
    ensures r.values != vals ==>
      r.ok && reply.Replaced? && reply.upsertedId == Some(r.values[IdentityIndex(t)])
    ensures r.ok && reply.Replaced? && reply.upsertedId.Some? ==>
      r.values == vals[IdentityIndex(t) := reply.upsertedId.value]
  {
    match reply
    case ReplaceThrew => Reconciled(false, vals)
    case Replaced(acknowledged, upsertedId) =>
      if !acknowledged then Reconciled(false, vals)
      else match upsertedId
        case None => Reconciled(true, vals)
        case Some(Oid(id)) =>
          var idx := IdentityIndex(t);
          if Admits(t.props[idx].ptype, Oid(id)) then Reconciled(true, vals[idx := Oid(id)])
          else Reconciled(false, vals)
        case Some(_) => Reconciled(false, vals)
  }

  /** After an acknowledged upsert that inserted, the item carries the new id,
      whatever it is (ObjectId.Empty included) and whether MongoId is ObjectId or
      ObjectId?: its identity filter targets the new document. For an
      ObjectId-typed MongoId and a non-empty id, a full-equality Read with the
      item now constrains MongoId to that id. */
  lemma UpsertBackfillsIdentity(t: RecordType, vals: seq<Value>, id: ObjectId)
    requires HasIdentity(t) && Conforms(t, vals) && DistinctNames(t.props)
    requires Admits(t.props[IdentityIndex(t)].ptype, Oid(id))
    ensures AfterReplace(t, vals, Replaced(true, Some(Oid(id)))).ok
    ensures IdentityFilter(t, AfterReplace(t, vals, Replaced(true, Some(Oid(id)))).values) ==
      Success(IdEq(Oid(id)))
    ensures t.props[IdentityIndex(t)].ptype == ObjectIdType && id != EmptyId ==>
      FieldEq(IdentityName, Oid(id)) in
        Predicates(t.props, AfterReplace(t, vals, Replaced(true, Some(Oid(id)))).values)
  {
    var idx := IdentityIndex(t);
    var after := AfterReplace(t, vals, Replaced(true, Some(Oid(id))));
    assert after.values[idx] == Oid(id);
    IndexOfOwnName(t.props, idx);
    PredicateMembership(t.props, after.values, IdentityName, Oid(id));
  }

  class MyMongoDb {
    const database: Database

    constructor (database: Database)
      ensures this.database == database
    {
      this.database := database;
    }

    /** The collection named after the record type. */
    function CollectionOf(t: RecordType): (c: Collection)
      ensures c.database == database && c.name == t.name
    {
      Collection(database, t.name)
    }

    /** One collection per type name: two record types share a collection iff
        they have the same name. */
    lemma CollectionPerTypeName(t: RecordType, u: RecordType)
      ensures CollectionOf(t) == CollectionOf(u) <==> t.name == u.name
    {
    }

    /** GetFilter(filter, idOnly). Identity-only mode: the MongoId check, then
        _id == the item's MongoId. Full-equality mode: the foreach over the
        properties. A null object throws at its first GetValue, so a null object
        of a type without properties gets the Empty filter. */
    method GetFilter(t: RecordType, item: Item?, idOnly: bool) returns (r: Result<Filter, FilterError>)
      requires item != null ==> |item.values| == |t.props|
      ensures idOnly && item != null ==> r == IdentityFilter(t, item.values)
      ensures idOnly && item == null ==>
        r == if HasIdentity(t) then Failure(NullTarget) else Failure(MissingIdentity(t.name))
      ensures !idOnly && item != null ==> r == Success(FullFilter(t.props, item.values))
      ensures !idOnly && item == null ==>
        r == if |t.props| == 0 then Success(Empty) else Failure(NullTarget)
    {
      if idOnly {
        if !HasIdentity(t) {
          return Failure(MissingIdentity(t.name));
        }
        if item == null {
          return Failure(NullTarget);
        }
        return Success(IdEq(item.values[IdentityIndex(t)]));
      }
      if item == null {
        r := if |t.props| == 0 then Success(Empty) else Failure(NullTarget);
        return;
      }
      var props, vals := t.props, item.values;
      var filterList: seq<FieldEq> := [];
      for i := 0 to |props|
        invariant filterList == Predicates(props[..i], vals[..i])
      {
        assert props[..i + 1][..i] == props[..i] && vals[..i + 1][..i] == vals[..i];
        var value := vals[i];
        if value != Null {
          if props[i].ptype == ObjectIdType && value == Oid(EmptyId) {
            continue;
          }
          filterList := filterList + [FieldEq(props[i].name, value)];
        }
      }
      assert props[..|props|] == props && vals[..|vals|] == vals;
      r := if |filterList| > 0 then Success(And(filterList)) else Success(Empty);
    }

    /** Create: one InsertOne; any exception (a duplicate id, a lost connection)
        gives false. A null item fails the driver's argument check before any
        round trip. */
    method Create(t: RecordType, item: Item?, reply: InsertReply) returns (ok: bool, sent: Option<Request>)
      ensures item == null ==> !ok && sent == None
      ensures item != null ==> sent == Some(InsertOne(CollectionOf(t), item))
      ensures ok <==> item != null && reply.Inserted?
    {
      if item == null {
        return false, None;
      }
      sent := Some(InsertOne(CollectionOf(t), item));
      ok := reply.Inserted?;
    }

    /** CreateMany: a null element makes it fail before any insert; otherwise one
        InsertMany, whose exception gives false. */
    method CreateMany(t: RecordType, items: seq<Item?>, reply: InsertReply) returns (ok: bool, sent: Option<Request>)
      ensures null in items ==> !ok && sent == None
      ensures null !in items ==> sent == Some(InsertMany(CollectionOf(t), items))
      ensures ok <==> null !in items && reply.Inserted?
    {
      if null in items {
        return false, None;
      }
      sent := Some(InsertMany(CollectionOf(t), items));
      ok := reply.Inserted?;
    }

    /** Read: Find with Empty when no filter object is given, else with the
        full-equality filter built from it; null when the driver throws. */
    method Read(t: RecordType, filter: Item?, reply: FindReply) returns (result: Option<seq<seq<Value>>>, sent: Request)
      requires filter != null ==> |filter.values| == |t.props|
      ensures sent.Find? && sent.collection == CollectionOf(t)
      ensures filter == null ==> sent.filter == Empty
      ensures filter != null ==> sent.filter == FullFilter(t.props, filter.values)
      ensures result.None? <==> reply.FindThrew?
      ensures result.Some? ==> result.value == reply.docs
    {
      if filter == null {
        sent := Find(CollectionOf(t), Empty);
      } else {
        var f := GetFilter(t, filter, false);
        sent := Find(CollectionOf(t), f.value);
      }
      result := if reply.Found? then Some(reply.docs) else None;
    }

    /** Update: fails without a round trip when the type has no MongoId property
        or the item is null; otherwise an upserting ReplaceOne on _id, whose reply
        AfterReplace turns into the result and the item's new values. */
    method Update(t: RecordType, item: Item?, reply: ReplaceReply) returns (ok: bool, sent: Option<Request>)
      requires item != null ==> Conforms(t, item.values)
      modifies item
      ensures item != null ==> Conforms(t, item.values)
      ensures !HasIdentity(t) || item == null ==> !ok && sent == None
      ensures !HasIdentity(t) && item != null ==> item.values == old(item.values)
      ensures HasIdentity(t) && item != null ==>
        sent == Some(ReplaceOne(CollectionOf(t), IdEq(old(item.values)[IdentityIndex(t)]), old(item.values), true)) &&
        Reconciled(ok, item.values) == AfterReplace(t, old(item.values), reply)
    {
      if !HasIdentity(t) {
        return false, None;
      }
      var filter := GetFilter(t, item, true);
      if filter.Failure? {
        return false, None;
      }
      sent := Some(ReplaceOne(CollectionOf(t), filter.value, item.values, true));
      match reply {
        case ReplaceThrew =>
          ok := false;
        case Replaced(acknowledged, upsertedId) =>
          if !acknowledged {
            return false, sent;
          }
          if upsertedId.Some? {
            if !upsertedId.value.Oid? {
              return false, sent;
            }
            var idx := IdentityIndex(t);
            if !Admits(t.props[idx].ptype, upsertedId.value) {
              return false, sent;
            }
            item.values := item.values[idx := upsertedId.value];
          }
          ok := acknowledged;
      }
    }

    /** Delete: DeleteOne on _id == the item's MongoId. It succeeds iff the
        write is acknowledged, however many documents were deleted. */
    method Delete(t: RecordType, item: Item?, reply: DeleteReply) returns (ok: bool, sent: Option<Request>)
      requires item != null ==> |item.values| == |t.props|
      ensures item == null || !HasIdentity(t) ==> !ok && sent == None
      ensures item != null && HasIdentity(t) ==>
        sent == Some(DeleteOne(CollectionOf(t), IdEq(item.values[IdentityIndex(t)])))
      ensures ok <==> sent.Some? && reply.Deleted? && reply.acknowledged
    {
      var filter := GetFilter(t, item, true);
      if filter.Failure? {
        return false, None;
      }
      sent := Some(DeleteOne(CollectionOf(t), filter.value));
      ok := reply.Deleted? && reply.acknowledged;
    }
  }
}
