/** What saving a value writes, and what it does to the output pass's shared
    `visited` set (reflection.h, the `save` overloads and OutStreamVisitor).

    `Save(v, vis)` is the specification of one `save(v, stream)` call made on a
    fresh sub-stream while the pass has already written the owned objects in
    `vis`: it gives the document the sub-stream then holds and the new visited
    set, or the exception thrown. */
module Saving {
  import opened Wrappers
  import opened Json
  import opened Schema

  datatype Saved = Saved(doc: Json, visited: set<Id>)

  /** An owned node: `{"meta":"val","addr":A,"val":V}`, V being the pointee's
      `{"type":..., "val":...}` document. */
  function OwnedNode(addr: Id, val: Json): Json
  {
    JObj(map["meta" := JStr("val"), "addr" := JNum(addr), "val" := val])
  }

  /** A weak reference: `{"meta":"ref","val":A}`. */
  function RefNode(addr: Id): Json
  {
    JObj(map["meta" := JStr("ref"), "val" := JNum(addr)])
  }

  /** A component written by value: `{"type":Name,"val":{fields}}`. */
  function TypedNode(name: string, fields: Json): Json
  {
    JObj(map["type" := JStr(name), "val" := fields])
  }

  /** A sub-stream's document after a run of keyed writes: it stays null until
      the first write makes it an object. */
  function ObjectDoc(m: map<string, Json>): Json
  {
    if m == map[] then JNull else JObj(m)
  }

  /** A sub-stream's document after a run of appends: null until the first
      append makes it an array. */
  function ArrayDoc(s: seq<Json>): Json
  {
    if s == [] then JNull else JArr(s)
  }

  /** `save(v, stream)` on a fresh sub-stream: the visited set only grows,
      and the only exception is a pointee owned twice. */
  function Save(v: Value, vis: set<Id>): (r: Result<Saved, Error>)
    requires Shaped(v)
    ensures r.Ok? ==> vis <= r.value.visited
    ensures r.Err? ==> r.error.MultipleStrongReference?
    decreases v, ChildCount(v) + 1
  {
    match v
    case VBool(b) => Ok(Saved(JBool(b), vis))
    case VInt(i) => Ok(Saved(JNum(i), vis))
    case VStr(s) => Ok(Saved(JStr(s), vis))
    case VNullBox => Ok(Saved(JNull, vis))
    case VBox(id, o) =>
      if id in vis then Err(MultipleStrongReference(id))
      else
        (match SaveObj(o, vis)
         case Err(e) => Err(e)
         case Ok(s) => Ok(Saved(OwnedNode(id, s.doc), s.visited + {id})))
    case VNullPtr => Ok(Saved(JNull, vis))
    case VPtr(t) => Ok(Saved(RefNode(t), vis))
    case VInline(o) => SaveObj(o, vis)
    case VVec(_) => SaveItems(v, 0, vis, [])
    case VMap(_) => SaveEntries(v, 0, vis, [])
  }

  /** `save(const T&, stream)`: the fields, then "type" and "val". */
  function SaveObj(o: Obj, vis: set<Id>): (r: Result<Saved, Error>)
    requires ShapedObj(o)
    ensures r.Ok? ==> vis <= r.value.visited
    ensures r.Err? ==> r.error.MultipleStrongReference?
    decreases o, |o.vals| + 1
  {
    match SaveFields(o, 0, vis, map[])
    case Err(e) => Err(e)
    case Ok(s) => Ok(Saved(TypedNode(o.info.name, s.doc), s.visited))
  }

  /** OutStreamVisitor from field `i` on: every field is written under its name. */
  function SaveFields(o: Obj, i: nat, vis: set<Id>, acc: map<string, Json>): (r: Result<Saved, Error>)
    requires ShapedObj(o) && i <= |o.vals|
    ensures r.Ok? ==> vis <= r.value.visited
    ensures r.Err? ==> r.error.MultipleStrongReference?
    decreases o, |o.vals| - i
  {
    if i == |o.vals| then Ok(Saved(ObjectDoc(acc), vis))
    else
      match Save(o.vals[i], vis)
      case Err(e) => Err(e)
      case Ok(s) => SaveFields(o, i + 1, s.visited, acc[o.info.fields[i].name := s.doc])
  }

  /** The vector saver from item `i` on: one appended element per item. */
  function SaveItems(v: Value, i: nat, vis: set<Id>, acc: seq<Json>): (r: Result<Saved, Error>)
    requires v.VVec? && Shaped(v) && i <= |v.items|
    ensures r.Ok? ==> vis <= r.value.visited
    ensures r.Err? ==> r.error.MultipleStrongReference?
    decreases v, |v.items| - i
  {
    if i == |v.items| then Ok(Saved(ArrayDoc(acc), vis))
    else
      match Save(v.items[i], vis)
      case Err(e) => Err(e)
      case Ok(s) => SaveItems(v, i + 1, s.visited, acc + [s.doc])
  }

  /** The map saver from entry `i` on: one `{"key":K,"val":V}` element per
      entry, the key saved before the value. */
  function SaveEntries(v: Value, i: nat, vis: set<Id>, acc: seq<Json>): (r: Result<Saved, Error>)
    requires v.VMap? && Shaped(v) && i <= |v.entries|
    ensures r.Ok? ==> vis <= r.value.visited
    ensures r.Err? ==> r.error.MultipleStrongReference?
    decreases v, |v.entries| - i
  {
    if i == |v.entries| then Ok(Saved(ArrayDoc(acc), vis))
    else
      match Save(v.entries[i].key, vis)
      case Err(e) => Err(e)
      case Ok(k) =>
        match Save(v.entries[i].val, k.visited)
        case Err(e) => Err(e)
        case Ok(s) =>
          SaveEntries(v, i + 1, s.visited, acc + [JObj(map["key" := k.doc, "val" := s.doc])])
  }

  // ---------------------------------------------------------------------
  // Ownership: the identities the boxes of a value hold

  /** Every box in `v` contributes its pointee's identity once. */
  function Owners(v: Value): multiset<Id>
    decreases v, ChildCount(v) + 1
  {
    match v
    case VBox(id, o) => multiset{id} + OwnersObj(o)
    case VInline(o) => OwnersObj(o)
    case VVec(_) => OwnersItems(v, 0)
    case VMap(_) => OwnersEntries(v, 0)
    case _ => multiset{}
  }

  function OwnersObj(o: Obj): multiset<Id>
    decreases o, |o.vals| + 1
  {
    OwnersVals(o, 0)
  }

  function OwnersVals(o: Obj, i: nat): multiset<Id>
    decreases o, |o.vals| - i
  {
    if i >= |o.vals| then multiset{} else Owners(o.vals[i]) + OwnersVals(o, i + 1)
  }

  function OwnersItems(v: Value, i: nat): multiset<Id>
    requires v.VVec?
    decreases v, |v.items| - i
  {
    if i >= |v.items| then multiset{} else Owners(v.items[i]) + OwnersItems(v, i + 1)
  }

  function OwnersEntries(v: Value, i: nat): multiset<Id>
    requires v.VMap?
    decreases v, |v.entries| - i
  {
    if i >= |v.entries| then multiset{}
    else Owners(v.entries[i].key) + Owners(v.entries[i].val) + OwnersEntries(v, i + 1)
  }

  function IdSet(m: multiset<Id>): set<Id>
  {
    set x | x in m
  }

  /** Ownership is exclusive: no identity is owned twice, and none of them was
      written earlier in the pass. */
  predicate Exclusive(m: multiset<Id>, vis: set<Id>)
  {
    (forall x :: x in m ==> m[x] == 1) && (forall x :: x in m ==> x !in vis)
  }

  /** No box holds, somewhere below it, a box with its own identity. Every
      finite object graph has this; only an unrolled ownership cycle lacks it. */
  predicate NoSelfNesting(v: Value)
    decreases v, 0
  {
    match v
    case VBox(id, o) => id !in OwnersObj(o) && NoSelfNestingObj(o)
    case VInline(o) => NoSelfNestingObj(o)
    case VVec(items) => forall i :: 0 <= i < |items| ==> NoSelfNesting(items[i])
    case VMap(es) => forall i :: 0 <= i < |es| ==> NoSelfNesting(es[i].key) && NoSelfNesting(es[i].val)
    case _ => true
  }

  predicate NoSelfNestingObj(o: Obj)
    decreases o, 1
  {
    forall i :: 0 <= i < |o.vals| ==> NoSelfNesting(o.vals[i])
  }
}

module SaveOwnership {
  import opened Wrappers
  import opened Json
  import opened Schema
  import opened Saving

  /** Exclusivity of a combined run of boxes splits at the point where the
      first part has been written. */
  lemma ExclusiveSplit(a: multiset<Id>, b: multiset<Id>, vis: set<Id>)
    ensures Exclusive(a + b, vis) <==> Exclusive(a, vis) && Exclusive(b, vis + IdSet(a))
  {
    if Exclusive(a + b, vis) {
      forall x | x in a ensures a[x] == 1 && x !in vis {
        assert x in a + b;
      }
      forall x | x in b ensures b[x] == 1 && x !in vis + IdSet(a) {
        assert x in a + b;
      }
    }
    if Exclusive(a, vis) && Exclusive(b, vis + IdSet(a)) {
      forall x | x in a + b ensures (a + b)[x] == 1 && x !in vis {
        if x in a {
          assert x in IdSet(a);
        }
      }
    }
  }

  /** Saving succeeds exactly when no pointee is owned twice and none was
      already written in this pass; a successful save adds every owned
      identity, and nothing else, to the visited set. */
  lemma {:induction false} SaveExclusive(v: Value, vis: set<Id>)
    requires Shaped(v) && NoSelfNesting(v)
    ensures Save(v, vis).Ok? <==> Exclusive(Owners(v), vis)
    ensures Save(v, vis).Ok? ==> Save(v, vis).value.visited == vis + IdSet(Owners(v))
    decreases v, ChildCount(v) + 1
  {
    match v
    case VBox(id, o) =>
      SaveObjExclusive(o, vis);
      ExclusiveSplit(multiset{id}, OwnersObj(o), vis);
      assert IdSet(multiset{id}) == {id};
      if Save(v, vis).Ok? {
        assert IdSet(Owners(v)) == {id} + IdSet(OwnersObj(o));
      }
    case VInline(o) => SaveObjExclusive(o, vis);
    case VVec(_) => SaveItemsExclusive(v, 0, vis, []);
    case VMap(_) => SaveEntriesExclusive(v, 0, vis, []);
    case _ => assert IdSet(Owners(v)) == {};
  }

  lemma {:induction false} SaveObjExclusive(o: Obj, vis: set<Id>)
    requires ShapedObj(o) && NoSelfNestingObj(o)
    ensures SaveObj(o, vis).Ok? <==> Exclusive(OwnersObj(o), vis)
    ensures SaveObj(o, vis).Ok? ==> SaveObj(o, vis).value.visited == vis + IdSet(OwnersObj(o))
    decreases o, |o.vals| + 1
  {
    SaveFieldsExclusive(o, 0, vis, map[]);
  }

  lemma {:induction false} SaveFieldsExclusive(o: Obj, i: nat, vis: set<Id>, acc: map<string, Json>)
    requires ShapedObj(o) && NoSelfNestingObj(o) && i <= |o.vals|
    ensures SaveFields(o, i, vis, acc).Ok? <==> Exclusive(OwnersVals(o, i), vis)
    ensures SaveFields(o, i, vis, acc).Ok? ==>
      SaveFields(o, i, vis, acc).value.visited == vis + IdSet(OwnersVals(o, i))
    decreases o, |o.vals| - i
  {
    if i == |o.vals| {
      assert IdSet(OwnersVals(o, i)) == {};
    } else {
      var a, b := Owners(o.vals[i]), OwnersVals(o, i + 1);
      SaveExclusive(o.vals[i], vis);
      ExclusiveSplit(a, b, vis);
      match Save(o.vals[i], vis)
      case Err(_) =>
      case Ok(s) =>
        SaveFieldsExclusive(o, i + 1, s.visited, acc[o.info.fields[i].name := s.doc]);
        assert IdSet(a + b) == IdSet(a) + IdSet(b);
    }
  }

  lemma {:induction false} SaveItemsExclusive(v: Value, i: nat, vis: set<Id>, acc: seq<Json>)
    requires v.VVec? && Shaped(v) && NoSelfNesting(v) && i <= |v.items|
    ensures SaveItems(v, i, vis, acc).Ok? <==> Exclusive(OwnersItems(v, i), vis)
    ensures SaveItems(v, i, vis, acc).Ok? ==>
      SaveItems(v, i, vis, acc).value.visited == vis + IdSet(OwnersItems(v, i))
    decreases v, |v.items| - i
  {
    if i == |v.items| {
      assert IdSet(OwnersItems(v, i)) == {};
    } else {
      var a, b := Owners(v.items[i]), OwnersItems(v, i + 1);
      SaveExclusive(v.items[i], vis);
      ExclusiveSplit(a, b, vis);
      match Save(v.items[i], vis)
      case Err(_) =>
      case Ok(s) =>
        SaveItemsExclusive(v, i + 1, s.visited, acc + [s.doc]);
        assert IdSet(a + b) == IdSet(a) + IdSet(b);
    }
  }

  lemma {:induction false} SaveEntriesExclusive(v: Value, i: nat, vis: set<Id>, acc: seq<Json>)
    requires v.VMap? && Shaped(v) && NoSelfNesting(v) && i <= |v.entries|
    ensures SaveEntries(v, i, vis, acc).Ok? <==> Exclusive(OwnersEntries(v, i), vis)
    ensures SaveEntries(v, i, vis, acc).Ok? ==>
      SaveEntries(v, i, vis, acc).value.visited == vis + IdSet(OwnersEntries(v, i))
    decreases v, |v.entries| - i
  {
    if i == |v.entries| {
      assert IdSet(OwnersEntries(v, i)) == {};
    } else {
      var e := v.entries[i];
      var a, b, c := Owners(e.key), Owners(e.val), OwnersEntries(v, i + 1);
      assert OwnersEntries(v, i) == a + (b + c);
      SaveExclusive(e.key, vis);
      ExclusiveSplit(a, b + c, vis);
      match Save(e.key, vis)
      case Err(_) =>
      case Ok(k) =>
        SaveExclusive(e.val, k.visited);
        ExclusiveSplit(b, c, k.visited);
        match Save(e.val, k.visited)
        case Err(_) =>
        case Ok(s) =>
          SaveEntriesExclusive(v, i + 1, s.visited, acc + [JObj(map["key" := k.doc, "val" := s.doc])]);
          assert IdSet(a + (b + c)) == IdSet(a) + IdSet(b) + IdSet(c);
    }
  }

  // ---- single save calls ----

  /** A null owning or weak pointer writes JSON null and leaves the visited
      set alone. */
  lemma NullSavesNull(vis: set<Id>)
    ensures Save(VNullBox, vis) == Ok(Saved(JNull, vis))
    ensures Save(VNullPtr, vis) == Ok(Saved(JNull, vis))
  {
  }

  /** A weak pointer writes a reference node and neither consults nor changes
      the visited set, whatever the set holds. */
  lemma PtrSavesRef(t: Id, vis: set<Id>)
    ensures Save(VPtr(t), vis) == Ok(Saved(RefNode(t), vis))
    ensures Save(VPtr(t), vis).value.doc == JObj(map["meta" := JStr("ref"), "val" := JNum(t)])
  {
  }

  /** An owning pointer whose pointee was already written throws; otherwise
      the pointee's fields are written first and its identity joins the
      visited set after them. */
  lemma BoxSave(id: Id, o: Obj, vis: set<Id>)
    requires ShapedObj(o)
    ensures id in vis ==> Save(VBox(id, o), vis) == Err(MultipleStrongReference(id))
    ensures id !in vis && SaveObj(o, vis).Ok? ==>
      var s := SaveObj(o, vis).value;
      Save(VBox(id, o), vis) == Ok(Saved(OwnedNode(id, s.doc), s.visited + {id})) &&
      s.doc == TypedNode(o.info.name, SaveFields(o, 0, vis, map[]).value.doc)
    ensures id !in vis && SaveObj(o, vis).Err? ==> Save(VBox(id, o), vis) == Err(SaveObj(o, vis).error)
  {
  }

  /** The visited set is shared by every sub-stream of the pass: the same
      pointee owned by two sibling elements of a vector is caught at the
      second one, although neither element's own subtree repeats it. */
  lemma DuplicateOwnerAcrossSiblings(info: TypeInfo)
    requires info.fields == []
    ensures Save(VVec([VBox(1, Obj(info, [])), VBox(1, Obj(info, []))]), {}) == Err(MultipleStrongReference(1))
  {
    var o := Obj(info, []);
    var v := VVec([VBox(1, o), VBox(1, o)]);
    assert ObjectDoc(map[]) == JNull;
    assert SaveFields(o, 0, {}, map[]) == Ok(Saved(JNull, {}));
    assert SaveObj(o, {}) == Ok(Saved(TypedNode(info.name, JNull), {}));
    var first := OwnedNode(1, TypedNode(info.name, JNull));
    assert {} + {1} == {1};
    assert Save(VBox(1, o), {}) == Ok(Saved(first, {1}));
    assert SaveItems(v, 0, {}, []) == SaveItems(v, 1, {1}, [first]);
    assert Save(VBox(1, o), {1}) == Err(MultipleStrongReference(1));
    assert SaveItems(v, 1, {1}, [first]) == Err(MultipleStrongReference(1));
  }
}

