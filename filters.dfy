/** The filters MyMongoDb.GetFilter builds, as data, with the meaning an
    equality filter has on a stored document of the same type. */
module Filters {
  import opened Wrappers
  import opened Bson
  import opened Records

  /** Builders<T>.Filter.Eq(prop.Name, value). */
  datatype FieldEq = FieldEq(field: string, value: Value)

  /** Builders<T>.Filter.Empty (match every document), Builders<T>.Filter.And over
      a list of field equalities, or Builders<T>.Filter.Eq("_id", id). */
  datatype Filter = Empty | And(preds: seq<FieldEq>) | IdEq(id: Value)

  /** Why GetFilter throws: the type lacks the identity property (MongoException),
      or the object to read from is null (GetValue on null). */
  datatype FilterError = MissingIdentity(typeName: string) | NullTarget

  /** The full-equality filter's test for one property: the value is not null,
      and it is not ObjectId.Empty in a property whose type is exactly ObjectId. */
  predicate Contributes(p: Property, v: Value): (r: bool)
    ensures v == DefaultValue(p.ptype) ==>
      (r <==> p.ptype == Struct(IntKind) || p.ptype == Struct(DateTimeKind))
  {
    v != Null && !(p.ptype == ObjectIdType && v == Oid(EmptyId))
  }

  /** filterList after the foreach over the properties, in property order. */
  function Predicates(props: seq<Property>, vals: seq<Value>): (r: seq<FieldEq>)
    requires |props| == |vals|
    ensures |r| <= |props|
    ensures forall k :: 0 <= k < |r| ==> r[k].value != Null
  {
    if |props| == 0 then []
    else
      var n := |props| - 1;
      Predicates(props[..n], vals[..n]) +
        (if Contributes(props[n], vals[n]) then [FieldEq(props[n].name, vals[n])] else [])
  }

  /** The positions of the properties that contribute, ascending. */
  function Contributing(props: seq<Property>, vals: seq<Value>): (c: seq<nat>)
    requires |props| == |vals|
    ensures forall k :: 0 <= k < |c| ==> c[k] < |props| && Contributes(props[c[k]], vals[c[k]])
    ensures forall k, l :: 0 <= k < l < |c| ==> c[k] < c[l]
    ensures forall i :: 0 <= i < |props| && Contributes(props[i], vals[i]) ==> i in c
  {
    if |props| == 0 then []
    else
      var n := |props| - 1;
      Contributing(props[..n], vals[..n]) + (if Contributes(props[n], vals[n]) then [n] else [])
  }

  /** The k-th predicate is the equality for the k-th contributing property:
      together with Contributing's contract, exactly one Eq(name, value) per
      contributing property, in declaration order, and nothing else. */
  lemma {:induction false} PredicatesFollowContributing(props: seq<Property>, vals: seq<Value>)
    requires |props| == |vals|
    ensures |Predicates(props, vals)| == |Contributing(props, vals)|
    ensures forall k :: 0 <= k < |Predicates(props, vals)| ==>
      Predicates(props, vals)[k] ==
        FieldEq(props[Contributing(props, vals)[k]].name, vals[Contributing(props, vals)[k]])
  {
    if |props| > 0 {
      var n := |props| - 1;
      var ps, vs := props[..n], vals[..n];
      PredicatesFollowContributing(ps, vs);
      var pre, cpre := Predicates(ps, vs), Contributing(ps, vs);
      var preds, c := Predicates(props, vals), Contributing(props, vals);
      if Contributes(props[n], vals[n]) {
        assert preds == pre + [FieldEq(props[n].name, vals[n])];
        assert c == cpre + [n];
      } else {
        assert preds == pre && c == cpre;
      }
      forall k | 0 <= k < |preds|
        ensures preds[k] == FieldEq(props[c[k]].name, vals[c[k]])
      {
        if k < |pre| {
          assert preds[k] == pre[k] && c[k] == cpre[k];
          assert ps[cpre[k]] == props[cpre[k]] && vs[cpre[k]] == vals[cpre[k]];
        }
      }
    }
  }

  /** An equality is in the filter list iff some property contributes exactly it. */
  lemma {:induction false} PredicateMembership(props: seq<Property>, vals: seq<Value>, name: string, v: Value)
    requires |props| == |vals|
    ensures FieldEq(name, v) in Predicates(props, vals) <==>
      exists i :: 0 <= i < |props| && Contributes(props[i], vals[i]) && props[i].name == name && vals[i] == v
  {
    var preds, c := Predicates(props, vals), Contributing(props, vals);
    PredicatesFollowContributing(props, vals);
    if FieldEq(name, v) in preds {
      var k :| 0 <= k < |preds| && preds[k] == FieldEq(name, v);
      assert Contributes(props[c[k]], vals[c[k]]);
    }
    if exists i :: 0 <= i < |props| && Contributes(props[i], vals[i]) && props[i].name == name && vals[i] == v {
      var i :| 0 <= i < |props| && Contributes(props[i], vals[i]) && props[i].name == name && vals[i] == v;
      var k :| 0 <= k < |c| && c[k] == i;
      assert preds[k] == FieldEq(name, v);
    }
  }

  /** GetFilter's full-equality mode: And(filterList) when the list is non-empty,
      otherwise the match-all Empty filter, never an And of nothing. */
  function FullFilter(props: seq<Property>, vals: seq<Value>): (r: Filter)
    requires |props| == |vals|
    ensures r.Empty? || (r.And? && |r.preds| > 0)
  {
    var preds := Predicates(props, vals);
    if |preds| > 0 then And(preds) else Empty
  }

  /** The full filter is the match-all filter exactly when no property contributes. */
  lemma FullFilterEmptyIff(props: seq<Property>, vals: seq<Value>)
    requires |props| == |vals|
    ensures FullFilter(props, vals) == Empty <==>
      forall i :: 0 <= i < |props| ==> !Contributes(props[i], vals[i])
  {
    PredicatesFollowContributing(props, vals);
    var c := Contributing(props, vals);
    if |c| > 0 {
      assert Contributes(props[c[0]], vals[c[0]]);
    }
  }

  /** GetFilter's identity-only mode: fails when the type has no property named
      MongoId, else the single predicate _id == that property's value, with no
      exception for ObjectId.Empty. */
  function IdentityFilter(t: RecordType, vals: seq<Value>): (r: Result<Filter, FilterError>)
    requires |vals| == |t.props|
    ensures r.Success? <==> HasIdentity(t)
    ensures r.Failure? ==> r.error == MissingIdentity(t.name)
    ensures r.Success? ==>
      r.value.IdEq? &&
      exists i :: 0 <= i < |t.props| && t.props[i].name == IdentityName && r.value.id == vals[i]
  {
    if !HasIdentity(t) then Failure(MissingIdentity(t.name))
    else Success(IdEq(vals[IdentityIndex(t)]))
  }

  /** The value of the property named `name` in a document of the type. */
  function Lookup(props: seq<Property>, doc: seq<Value>, name: string): Option<Value>
    requires |doc| == |props|
  {
    match IndexOfName(props, name)
    case None => None
    case Some(i) => Some(doc[i])
  }

  /** What a filter selects among documents of type `t`: equality of top-level
      fields; Empty selects all; _id is the MongoId property. */
  predicate Matches(t: RecordType, f: Filter, doc: seq<Value>)
    requires |doc| == |t.props|
  {
    match f
    case Empty => true
    case And(ps) => forall k :: 0 <= k < |ps| ==> Lookup(t.props, doc, ps[k].field) == Some(ps[k].value)
    case IdEq(v) => Lookup(t.props, doc, IdentityName) == Some(v)
  }

  /** The full filter built from a probe object selects exactly the documents that
      agree with the probe on every property the probe contributes. */
  lemma FullFilterMatches(t: RecordType, probe: seq<Value>, doc: seq<Value>)
    requires DistinctNames(t.props) && |probe| == |t.props| && |doc| == |t.props|
    ensures Matches(t, FullFilter(t.props, probe), doc) <==>
      forall i :: 0 <= i < |doc| && Contributes(t.props[i], probe[i]) ==> doc[i] == probe[i]
  {
    var props := t.props;
    var preds, c := Predicates(props, probe), Contributing(props, probe);
    PredicatesFollowContributing(props, probe);
    forall k | 0 <= k < |c|
      ensures Lookup(props, doc, preds[k].field) == Some(doc[c[k]])
    {
      IndexOfOwnName(props, c[k]);
    }
    if Matches(t, FullFilter(props, probe), doc) {
      forall i | 0 <= i < |doc| && Contributes(props[i], probe[i])
        ensures doc[i] == probe[i]
      {
        var k :| 0 <= k < |c| && c[k] == i;
        assert Lookup(props, doc, preds[k].field) == Some(preds[k].value);
      }
    }
  }

  /** An all-null probe (and, more generally, one where nothing contributes)
      yields the match-all filter: it selects every document, never none. */
  lemma AllNullMatchesEverything(t: RecordType, probe: seq<Value>, doc: seq<Value>)
    requires |probe| == |t.props| && |doc| == |t.props|
    requires forall i :: 0 <= i < |probe| ==> probe[i] == Null
    ensures FullFilter(t.props, probe) == Empty
    ensures Matches(t, FullFilter(t.props, probe), doc)
  {
    FullFilterEmptyIff(t.props, probe);
  }

  /** A property typed ObjectId holding an id contributes to the full filter iff
      the id is not ObjectId.Empty. */
  lemma {:induction false} ObjectIdFieldFiltered(props: seq<Property>, vals: seq<Value>, i: nat)
    requires |props| == |vals| && DistinctNames(props) && i < |props|
    requires props[i].ptype == ObjectIdType && vals[i].Oid?
    ensures (exists p :: p in Predicates(props, vals) && p.field == props[i].name) <==>
      vals[i] != Oid(EmptyId)
  {
    var preds := Predicates(props, vals);
    if vals[i] != Oid(EmptyId) {
      PredicateMembership(props, vals, props[i].name, vals[i]);
      assert FieldEq(props[i].name, vals[i]) in preds;
    } else if p :| p in preds && p.field == props[i].name {
      PredicateMembership(props, vals, p.field, p.value);
    }
  }

  /** A property of type ObjectId? (Nullable<ObjectId>) is not typeof(ObjectId),
      so an ObjectId.Empty held in it does enter the full filter. */
  lemma {:induction false} NullableEmptyObjectIdFiltered(props: seq<Property>, vals: seq<Value>, i: nat)
    requires |props| == |vals| && i < |props|
    requires props[i].ptype == NullableStruct(ObjectIdKind) && vals[i] == Oid(EmptyId)
    ensures FieldEq(props[i].name, Oid(EmptyId)) in Predicates(props, vals)
  {
    PredicateMembership(props, vals, props[i].name, Oid(EmptyId));
  }

  /** No property of the type is a plain int or DateTime, whose default value is
      never null. */
  predicate NoPlainValueFields(t: RecordType) {
    forall i :: 0 <= i < |t.props| && t.props[i].ptype.Struct? ==> t.props[i].ptype == ObjectIdType
  }

  /** `new T()` used as a filter matches everything exactly when T has no plain
      int or DateTime property: a boxed non-nullable value is never null, so such
      a property always contributes. */
  lemma DefaultProbeMatchesAllIff(t: RecordType)
    ensures FullFilter(t.props, DefaultInstance(t)) == Empty <==> NoPlainValueFields(t)
  {
    var d := DefaultInstance(t);
    FullFilterEmptyIff(t.props, d);
    if !NoPlainValueFields(t) {
      var i :| 0 <= i < |t.props| && t.props[i].ptype.Struct? && t.props[i].ptype != ObjectIdType;
      assert Contributes(t.props[i], d[i]);
    }
  }

  /** A probe that sets one property of a fresh object (as `new OrgTest { Name = n }`
      does) selects exactly the documents holding that value there. */
  lemma SingleFieldProbeMatches(t: RecordType, i: nat, v: Value, doc: seq<Value>)
    requires DistinctNames(t.props) && NoPlainValueFields(t)
    requires i < |t.props| && |doc| == |t.props| && Contributes(t.props[i], v)
    ensures Matches(t, FullFilter(t.props, DefaultInstance(t)[i := v]), doc) <==> doc[i] == v
  {
    var probe := DefaultInstance(t)[i := v];
    FullFilterMatches(t, probe, doc);
    forall j | 0 <= j < |probe| && j != i
      ensures !Contributes(t.props[j], probe[j])
    {
    }
  }

  /** Filtering with `new T { MongoId = id }` over a collection whose ids are
      distinct selects exactly the one document with that id. */
  lemma ByIdSelectsOne(t: RecordType, coll: seq<seq<Value>>, k: nat, id: ObjectId)
    requires DistinctNames(t.props) && NoPlainValueFields(t) && HasIdentity(t)
    requires t.props[IdentityIndex(t)].ptype == ObjectIdType
    requires forall j :: 0 <= j < |coll| ==> |coll[j]| == |t.props|
    requires forall j, l :: 0 <= j < l < |coll| ==> coll[j][IdentityIndex(t)] != coll[l][IdentityIndex(t)]
    requires k < |coll| && coll[k][IdentityIndex(t)] == Oid(id) && id != EmptyId
    ensures forall j :: 0 <= j < |coll| ==>
      (Matches(t, FullFilter(t.props, DefaultInstance(t)[IdentityIndex(t) := Oid(id)]), coll[j]) <==> j == k)
  {
    var idx := IdentityIndex(t);
    forall j | 0 <= j < |coll|
      ensures Matches(t, FullFilter(t.props, DefaultInstance(t)[idx := Oid(id)]), coll[j]) <==> j == k
    {
      SingleFieldProbeMatches(t, idx, Oid(id), coll[j]);
      if j < k || k < j {
        assert coll[j][idx] != coll[k][idx];
      }
    }
  }
}
