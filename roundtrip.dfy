/** The round trip of the persistence layer: loading what a save wrote gives
    back the same object graph, with every owned instance at a new identity,
    one-to-one, and every weak pointer aimed at the new identity of its
    target. */
module RoundTrip {
  import opened Wrappers
  import opened Json
  import opened Schema
  import opened Saving
  import opened SaveOwnership
  import opened Loading
  import opened LoadFacts

  // ---------------------------------------------------------------------
  // Which graphs survive a round trip

  predicate ScalarKind(k: Kind)
  {
    k.KBool? || k.KInt? || k.KStr?
  }

  /** The slot's current value does not leak into the result: containers
      are empty (the loaders append to them), and a component held by value
      has empty containers in turn. */
  predicate Blank(k: Kind, cur: Value)
    decreases k
  {
    match k
    case KVec(_) => cur.VVec? ==> cur.items == []
    case KMap(_, _) => cur.VMap? ==> cur.entries == []
    case KFixed(info) =>
      (cur.VInline? && cur.obj.info == info && |cur.obj.vals| == |info.fields|) ==>
        forall m :: 0 <= m < |info.fields| ==> Blank(info.fields[m].kind, cur.obj.vals[m])
    case _ => true
  }

  /** A static type whose values can be written and read back: map keys are
      scalars, and every component type involved is well formed. */
  predicate WfKind(k: Kind)
    decreases k, 1
  {
    match k
    case KFixed(info) => WfInfo(info)
    case KVec(e) => WfKind(e)
    case KMap(kk, vk) => ScalarKind(kk) && WfKind(vk)
    case _ => true
  }

  /** A component type: distinct attribute names, and every attribute starts
      out blank. */
  predicate WfInfo(info: TypeInfo)
    decreases info, 0
  {
    (forall a, b :: 0 <= a < b < |info.fields| ==> info.fields[a].name != info.fields[b].name) &&
    (forall m :: 0 <= m < |info.fields| ==>
      WfKind(info.fields[m].kind) && Blank(info.fields[m].kind, info.fields[m].init))
  }

  /** Every registered type is filed under its own name and well formed. */
  predicate WfRegistry(reg: map<string, TypeInfo>)
  {
    forall n :: n in reg ==> reg[n].name == n && WfInfo(reg[n])
  }

  /** Every box's dynamic type is the registered one of its name, addresses
      fit in 64 bits, and no map holds a key twice. */
  predicate Fits(reg: map<string, TypeInfo>, v: Value)
    decreases v, 0
  {
    match v
    case VBox(id, o) => id < U64_BOUND && o.info.name in reg && reg[o.info.name] == o.info && FitsObj(reg, o)
    case VPtr(t) => t < U64_BOUND
    case VInline(o) => FitsObj(reg, o)
    case VVec(items) => forall i :: 0 <= i < |items| ==> Fits(reg, items[i])
    case VMap(es) => DistinctKeys(es) && forall i :: 0 <= i < |es| ==> Fits(reg, es[i].key) && Fits(reg, es[i].val)
    case _ => true
  }

  predicate FitsObj(reg: map<string, TypeInfo>, o: Obj)
    decreases o, 1
  {
    forall i :: 0 <= i < |o.vals| ==> Fits(reg, o.vals[i])
  }

  /** Every weak pointer aims at an instance the loader has already
      constructed when it reaches the pointer: one in `known`, an enclosing
      box, or a box met earlier in field, element and key-before-value
      order. */
  predicate WeakBack(v: Value, known: set<Id>)
    decreases v, ChildCount(v) + 1
  {
    match v
    case VPtr(t) => t in known
    case VBox(id, o) => WeakBackVals(o, 0, known + {id})
    case VInline(o) => WeakBackVals(o, 0, known)
    case VVec(_) => WeakBackItems(v, 0, known)
    case VMap(_) => WeakBackEntries(v, 0, known)
    case _ => true
  }

  predicate WeakBackVals(o: Obj, i: nat, known: set<Id>)
    decreases o, |o.vals| - i
  {
    i >= |o.vals| ||
    (WeakBack(o.vals[i], known) && WeakBackVals(o, i + 1, known + IdSet(Owners(o.vals[i]))))
  }

  predicate WeakBackItems(v: Value, i: nat, known: set<Id>)
    requires v.VVec?
    decreases v, |v.items| - i
  {
    i >= |v.items| ||
    (WeakBack(v.items[i], known) && WeakBackItems(v, i + 1, known + IdSet(Owners(v.items[i]))))
  }

  predicate WeakBackEntries(v: Value, i: nat, known: set<Id>)
    requires v.VMap?
    decreases v, |v.entries| - i
  {
    i >= |v.entries| ||
    (var e := v.entries[i];
     var afterKey := known + IdSet(Owners(e.key));
     WeakBack(e.key, known) && WeakBack(e.val, afterKey) &&
     WeakBackEntries(v, i + 1, afterKey + IdSet(Owners(e.val))))
  }

  /** All conditions on a value of static type `k`, relative to the
      addresses `known` already recorded in the pass. */
  predicate Ready(reg: map<string, TypeInfo>, k: Kind, v: Value, known: set<Id>)
  {
    HasKind(v, k) && Shaped(v) && Fits(reg, v) && NoSelfNesting(v) &&
    Exclusive(Owners(v), known) && WeakBack(v, known)
  }

  // ---------------------------------------------------------------------
  // Identities

  /** Every identity a value mentions: its boxes and its weak targets. */
  function Ids(v: Value): set<Id>
    decreases v, 0
  {
    match v
    case VBox(id, o) => {id} + IdsObj(o)
    case VPtr(t) => {t}
    case VInline(o) => IdsObj(o)
    case VVec(items) => set i, x | 0 <= i < |items| && x in Ids(items[i]) :: x
    case VMap(es) =>
      (set i, x | 0 <= i < |es| && x in Ids(es[i].key) :: x) +
      (set i, x | 0 <= i < |es| && x in Ids(es[i].val) :: x)
    case _ => {}
  }

  function IdsObj(o: Obj): set<Id>
    decreases o, 1
  {
    set i, x | 0 <= i < |o.vals| && x in Ids(o.vals[i]) :: x
  }

  function Ren(s: map<Id, Id>, x: Id): Id
  {
    if x in s then s[x] else x
  }

  /** `v` with every identity `x` replaced by `s[x]`. */
  function Rename(v: Value, s: map<Id, Id>): Value
    decreases v, 0
  {
    match v
    case VBox(id, o) => VBox(Ren(s, id), RenameObj(o, s))
    case VPtr(t) => VPtr(Ren(s, t))
    case VInline(o) => VInline(RenameObj(o, s))
    case VVec(items) => VVec(seq(|items|, i requires 0 <= i < |items| => Rename(items[i], s)))
    case VMap(es) =>
      VMap(seq(|es|, i requires 0 <= i < |es| => Entry(Rename(es[i].key, s), Rename(es[i].val, s))))
    case _ => v
  }

  function RenameObj(o: Obj, s: map<Id, Id>): Obj
    decreases o, 1
  {
    Obj(o.info, seq(|o.vals|, i requires 0 <= i < |o.vals| => Rename(o.vals[i], s)))
  }

  /** `t` agrees with `s` wherever `s` is defined. */
  predicate Sub(s: map<Id, Id>, t: map<Id, Id>)
  {
    forall x :: x in s ==> x in t && t[x] == s[x]
  }

  predicate Injective(s: map<nat, Id>)
  {
    forall a, b :: a in s && b in s && a != b ==> s[a] != s[b]
  }

  /** The address map is one-to-one and every instance in it was constructed
      before the allocator's current position. */
  predicate Good(ctx: Ctx)
  {
    Injective(ctx.addrs) && forall a :: a in ctx.addrs ==> ctx.addrs[a] < ctx.next
  }

  /** Renaming only looks at the identities a value mentions. */
  lemma {:induction false} RenameMono(v: Value, s: map<Id, Id>, t: map<Id, Id>)
    requires Ids(v) <= s.Keys && Sub(s, t)
    ensures Rename(v, s) == Rename(v, t)
    decreases v, 0
  {
    match v
    case VBox(id, o) => RenameObjMono(o, s, t);
    case VInline(o) => RenameObjMono(o, s, t);
    case VVec(items) =>
      forall i | 0 <= i < |items| ensures Rename(items[i], s) == Rename(items[i], t) {
        assert Ids(items[i]) <= Ids(v);
        RenameMono(items[i], s, t);
      }
    case VMap(es) =>
      forall i | 0 <= i < |es|
        ensures Rename(es[i].key, s) == Rename(es[i].key, t) && Rename(es[i].val, s) == Rename(es[i].val, t)
      {
        assert Ids(es[i].key) <= Ids(v) && Ids(es[i].val) <= Ids(v);
        RenameMono(es[i].key, s, t);
        RenameMono(es[i].val, s, t);
      }
    case _ =>
  }

  lemma {:induction false} RenameObjMono(o: Obj, s: map<Id, Id>, t: map<Id, Id>)
    requires IdsObj(o) <= s.Keys && Sub(s, t)
    ensures RenameObj(o, s) == RenameObj(o, t)
    decreases o, 1
  {
    forall i | 0 <= i < |o.vals| ensures Rename(o.vals[i], s) == Rename(o.vals[i], t) {
      assert Ids(o.vals[i]) <= IdsObj(o);
      RenameMono(o.vals[i], s, t);
    }
  }

  // ---------------------------------------------------------------------
  // The shape of what the container and field savers write

  lemma {:induction false} SaveItemsShape(v: Value, i: nat, vis: set<Id>, acc: seq<Json>)
    requires v.VVec? && Shaped(v) && i <= |v.items|
    ensures SaveItems(v, i, vis, acc).Ok? ==>
      var d := SaveItems(v, i, vis, acc).value.doc;
      Size(d) == |acc| + |v.items| - i &&
      (|acc| + |v.items| - i > 0 ==> d.JArr? && d.items[..|acc|] == acc)
    decreases |v.items| - i
  {
    if i < |v.items| {
      match Save(v.items[i], vis)
      case Err(_) =>
      case Ok(s) =>
        SaveItemsShape(v, i + 1, s.visited, acc + [s.doc]);
        var r := SaveItems(v, i + 1, s.visited, acc + [s.doc]);
        if r.Ok? {
          assert r.value.doc.items[..|acc|] == r.value.doc.items[..|acc| + 1][..|acc|];
        }
    }
  }

  lemma {:induction false} SaveEntriesShape(v: Value, i: nat, vis: set<Id>, acc: seq<Json>)
    requires v.VMap? && Shaped(v) && i <= |v.entries|
    ensures SaveEntries(v, i, vis, acc).Ok? ==>
      var d := SaveEntries(v, i, vis, acc).value.doc;
      Size(d) == |acc| + |v.entries| - i &&
      (|acc| + |v.entries| - i > 0 ==> d.JArr? && d.items[..|acc|] == acc)
    decreases |v.entries| - i
  {
    if i < |v.entries| {
      match Save(v.entries[i].key, vis)
      case Err(_) =>
      case Ok(k) =>
        match Save(v.entries[i].val, k.visited)
        case Err(_) =>
        case Ok(s) =>
          var acc' := acc + [JObj(map["key" := k.doc, "val" := s.doc])];
          SaveEntriesShape(v, i + 1, s.visited, acc');
          var r := SaveEntries(v, i + 1, s.visited, acc');
          if r.Ok? {
            assert r.value.doc.items[..|acc|] == r.value.doc.items[..|acc| + 1][..|acc|];
          }
    }
  }

  /** The saved field object names every remaining field, and keeps what was
      written earlier under names no remaining field reuses. */
  lemma {:induction false} SaveFieldsShape(o: Obj, i: nat, vis: set<Id>, acc: map<string, Json>)
    requires ShapedObj(o) && i <= |o.vals|
    ensures SaveFields(o, i, vis, acc).Ok? ==>
      var d := SaveFields(o, i, vis, acc).value.doc;
      (forall m :: i <= m < |o.vals| ==> d.JObj? && o.info.fields[m].name in d.fields) &&
      (forall key :: key in acc && (forall m :: i <= m < |o.vals| ==> o.info.fields[m].name != key) ==>
        d.JObj? && key in d.fields && d.fields[key] == acc[key])
    decreases |o.vals| - i
  {
    if i < |o.vals| {
      match Save(o.vals[i], vis)
      case Err(_) =>
      case Ok(s) =>
        var name := o.info.fields[i].name;
        var acc' := acc[name := s.doc];
        SaveFieldsShape(o, i + 1, s.visited, acc');
        var r := SaveFields(o, i + 1, s.visited, acc');
        assert SaveFields(o, i, vis, acc) == r;
        if r.Ok? {
          var d := r.value.doc;
          if forall m :: i + 1 <= m < |o.vals| ==> o.info.fields[m].name != name {
            assert name in acc';
            assert d.JObj? && name in d.fields;
          } else {
            var m :| i + 1 <= m < |o.vals| && o.info.fields[m].name == name;
            assert d.JObj? && o.info.fields[m].name in d.fields;
          }
          forall key | key in acc && (forall m :: i <= m < |o.vals| ==> o.info.fields[m].name != key)
            ensures d.JObj? && key in d.fields && d.fields[key] == acc[key]
          {
            assert key != name && key in acc' && acc'[key] == acc[key];
          }
        }
    }
  }

  // ---------------------------------------------------------------------
  // Helpers

  lemma DefaultBlank(k: Kind)
    requires WfKind(k)
    ensures Blank(k, DefaultOf(k))
  {
  }

  lemma IdSetUnion(a: multiset<Id>, b: multiset<Id>)
    ensures IdSet(a + b) == IdSet(a) + IdSet(b)
  {
  }

  /** Assigning a key the map does not hold appends it. */
  lemma {:induction false} AssignFresh(es: seq<Entry>, key: Value, val: Value)
    requires forall m :: 0 <= m < |es| ==> es[m].key != key
    ensures Assign(es, key, val) == es + [Entry(key, val)]
    decreases |es|
  {
    if es != [] {
      AssignFresh(es[1..], key, val);
      assert es == [es[0]] + es[1..];
    }
  }

  /** `ctx2` is a successor state of `ctx` that recorded exactly the
      addresses `added`, kept the old records, and stayed one-to-one. */
  predicate Step(ctx: Ctx, ctx2: Ctx, added: set<Id>)
  {
    Good(ctx2) && Sub(ctx.addrs, ctx2.addrs) && ctx2.addrs.Keys == ctx.addrs.Keys + added
  }

  lemma StepCompose(c0: Ctx, c1: Ctx, c2: Ctx, a: set<Id>, b: set<Id>)
    requires Step(c0, c1, a) && Step(c1, c2, b)
    ensures Step(c0, c2, a + b)
  {
  }

  /** The first `n` loaded values are the renamed originals. */
  predicate RenamedUpTo(orig: seq<Value>, got: seq<Value>, n: nat, s: map<Id, Id>)
  {
    n <= |orig| && n <= |got| &&
    forall m :: 0 <= m < n ==> got[m] == Rename(orig[m], s) && Ids(orig[m]) <= s.Keys
  }

  /** A renamed prefix stays renamed under an extension of the map, and
      grows by one renamed value. */
  lemma RenamedExtend(orig: seq<Value>, got: seq<Value>, n: nat, s: map<Id, Id>, t: map<Id, Id>, x: Value)
    requires RenamedUpTo(orig, got, n, s) && n < |orig| && n < |got| && Sub(s, t)
    requires got[n] == x && x == Rename(orig[n], t) && Ids(orig[n]) <= t.Keys
    ensures RenamedUpTo(orig, got, n + 1, t)
  {
    forall m | 0 <= m < n ensures got[m] == Rename(orig[m], t) {
      RenameMono(orig[m], s, t);
    }
  }

  lemma RenamedMono(orig: seq<Value>, got: seq<Value>, n: nat, s: map<Id, Id>, t: map<Id, Id>)
    requires RenamedUpTo(orig, got, n, s) && Sub(s, t)
    ensures RenamedUpTo(orig, got, n, t)
  {
    forall m | 0 <= m < n ensures got[m] == Rename(orig[m], t) {
      RenameMono(orig[m], s, t);
    }
  }

  // ---- one step of each saver and loader ----

  lemma SaveItemsNext(v: Value, i: nat, vis: set<Id>, accJ: seq<Json>, d: Json, visEnd: set<Id>, s: Saved)
    requires v.VVec? && Shaped(v) && i < |v.items| && |accJ| == i
    requires SaveItems(v, i, vis, accJ) == Ok(Saved(d, visEnd)) && Save(v.items[i], vis) == Ok(s)
    ensures SaveItems(v, i + 1, s.visited, accJ + [s.doc]) == Ok(Saved(d, visEnd))
    ensures d.JArr? && i < |d.items| && d.items[i] == s.doc
  {
    SaveItemsShape(v, i + 1, s.visited, accJ + [s.doc]);
    assert d.items[..i + 1][i] == s.doc;
  }

  lemma LoadItemsNext(reg: map<string, TypeInfo>, e: Kind, d: Json, i: nat, acc: seq<Value>, ctx: Ctx, x: Loaded)
    requires d.JArr? && i < |d.items| && Load(reg, e, d.items[i], DefaultOf(e), ctx) == Ok(x)
    ensures LoadItems(reg, e, d, i, acc, ctx) == LoadItems(reg, e, d, i + 1, acc + [x.val], x.ctx)
  {
  }

  lemma SaveEntriesNext(v: Value, i: nat, vis: set<Id>, accJ: seq<Json>, d: Json, visEnd: set<Id>,
                        sk: Saved, sv: Saved)
    requires v.VMap? && Shaped(v) && i < |v.entries| && |accJ| == i
    requires SaveEntries(v, i, vis, accJ) == Ok(Saved(d, visEnd))
    requires Save(v.entries[i].key, vis) == Ok(sk) && Save(v.entries[i].val, sk.visited) == Ok(sv)
    ensures var pair := JObj(map["key" := sk.doc, "val" := sv.doc]);
      SaveEntries(v, i + 1, sv.visited, accJ + [pair]) == Ok(Saved(d, visEnd)) &&
      d.JArr? && i < |d.items| && d.items[i] == pair
  {
    var pair := JObj(map["key" := sk.doc, "val" := sv.doc]);
    SaveEntriesShape(v, i + 1, sv.visited, accJ + [pair]);
    assert d.items[..i + 1][i] == pair;
  }

  lemma LoadEntriesNext(reg: map<string, TypeInfo>, kk: Kind, vk: Kind, d: Json, i: nat, acc: seq<Entry>,
                        ctx: Ctx, kd: Json, vd: Json, xk: Loaded, xv: Loaded)
    requires d.JArr? && i < |d.items| && d.items[i] == JObj(map["key" := kd, "val" := vd])
    requires Load(reg, kk, kd, DefaultOf(kk), ctx) == Ok(xk)
    requires Load(reg, vk, vd, DefaultOf(vk), xk.ctx) == Ok(xv)
    ensures LoadEntries(reg, kk, vk, d, i, acc, ctx)
         == LoadEntries(reg, kk, vk, d, i + 1, Assign(acc, xk.val, xv.val), xv.ctx)
  {
    var pair := d.items[i];
    assert Contains(pair, "key") && pair.fields["key"] == kd;
    assert Contains(pair, "val") && pair.fields["val"] == vd;
  }

  lemma SaveFieldsNext(o: Obj, i: nat, vis: set<Id>, acc: map<string, Json>, d: Json, visEnd: set<Id>, s: Saved)
    requires ShapedObj(o) && WfInfo(o.info) && i < |o.vals|
    requires SaveFields(o, i, vis, acc) == Ok(Saved(d, visEnd)) && Save(o.vals[i], vis) == Ok(s)
    ensures SaveFields(o, i + 1, s.visited, acc[o.info.fields[i].name := s.doc]) == Ok(Saved(d, visEnd))
    ensures Contains(d, o.info.fields[i].name) && d.fields[o.info.fields[i].name] == s.doc
  {
    var name := o.info.fields[i].name;
    var acc' := acc[name := s.doc];
    assert SaveFields(o, i, vis, acc) == SaveFields(o, i + 1, s.visited, acc');
    SaveFieldsShape(o, i + 1, s.visited, acc');
    assert |o.info.fields| == |o.vals|;
    assert forall m :: i + 1 <= m < |o.vals| ==> o.info.fields[m].name != name;
    assert name in acc' && acc'[name] == s.doc;
  }

  lemma LoadFieldsNext(reg: map<string, TypeInfo>, fields: seq<FieldDecl>, d: Json, i: nat, vals: seq<Value>,
                       ctx: Ctx, x: Loaded)
    requires |vals| == |fields| && i < |fields| && Contains(d, fields[i].name)
    requires Load(reg, fields[i].kind, d.fields[fields[i].name], vals[i], ctx) == Ok(x)
    ensures LoadFields(reg, fields, d, i, vals, ctx) == LoadFields(reg, fields, d, i + 1, vals[i := x.val], x.ctx)
  {
  }

  // ---------------------------------------------------------------------
  // The round trip, by induction along save and load together

  /** What a successful round trip of `v` from state `ctx` leaves. */
  predicate Restored(l: Result<Loaded, Error>, v: Value, ctx: Ctx)
  {
    l.Ok? && Step(ctx, l.value.ctx, IdSet(Owners(v))) &&
    Ids(v) <= l.value.ctx.addrs.Keys && l.value.val == Rename(v, l.value.ctx.addrs)
  }

  lemma {:induction false} RoundTripValue(reg: map<string, TypeInfo>, k: Kind, v: Value, cur: Value,
                                          vis: set<Id>, ctx: Ctx)
    requires WfRegistry(reg) && WfKind(k) && Blank(k, cur)
    requires Ready(reg, k, v, ctx.addrs.Keys) && vis <= ctx.addrs.Keys && Good(ctx)
    ensures Save(v, vis).Ok?
    ensures Restored(Load(reg, k, Save(v, vis).value.doc, cur, ctx), v, ctx)
    decreases v, ChildCount(v) + 2
  {
    match v
    case VBox(id, o) => BoxRoundTrip(reg, id, o, vis, ctx);
    case VInline(o) => InlineRoundTrip(reg, k, v, cur, vis, ctx);
    case VVec(items) => VecRoundTrip(reg, k, v, cur, vis, ctx);
    case VMap(es) => MapRoundTrip(reg, k, v, cur, vis, ctx);
    case VPtr(t) =>
      assert IdSet(Owners(v)) == {};
      assert Meta(RefNode(t)) == Some("ref");
    case _ => assert IdSet(Owners(v)) == {};
  }

  lemma {:induction false} InlineRoundTrip(reg: map<string, TypeInfo>, k: Kind, v: Value, cur: Value,
                                           vis: set<Id>, ctx: Ctx)
    requires v.VInline? && WfRegistry(reg) && WfKind(k) && Blank(k, cur)
    requires Ready(reg, k, v, ctx.addrs.Keys) && vis <= ctx.addrs.Keys && Good(ctx)
    ensures Save(v, vis).Ok?
    ensures Restored(Load(reg, k, Save(v, vis).value.doc, cur, ctx), v, ctx)
    decreases v, ChildCount(v) + 1
  {
    var o := v.obj;
    var info := k.info;
    var base := if cur.VInline? && cur.obj.info == info && |cur.obj.vals| == |info.fields|
                then cur.obj else DefaultObj(info);
    ObjRoundTrip(reg, o, vis, ctx, base);
    assert Owners(v) == OwnersObj(o) && Ids(v) == IdsObj(o);
  }

  lemma {:induction false} VecRoundTrip(reg: map<string, TypeInfo>, k: Kind, v: Value, cur: Value,
                                        vis: set<Id>, ctx: Ctx)
    requires v.VVec? && WfRegistry(reg) && WfKind(k) && Blank(k, cur)
    requires Ready(reg, k, v, ctx.addrs.Keys) && vis <= ctx.addrs.Keys && Good(ctx)
    ensures Save(v, vis).Ok?
    ensures Restored(Load(reg, k, Save(v, vis).value.doc, cur, ctx), v, ctx)
    decreases v, ChildCount(v) + 1
  {
    var items := v.items;
    SaveExclusive(v, vis);
    SaveItemsExclusive(v, 0, vis, []);
    var d := SaveItems(v, 0, vis, []).value;
    assert Save(v, vis) == SaveItems(v, 0, vis, []);
    assert Owners(v) == OwnersItems(v, 0);
    ItemsRoundTrip(reg, k.elem, v, 0, vis, [], d.doc, d.visited, ctx, []);
    var l := LoadItems(reg, k.elem, d.doc, 0, [], ctx).value;
    assert Load(reg, k, d.doc, cur, ctx) == Ok(l);
    VecRenamed(v, l.val.items, l.ctx.addrs);
  }

  /** A loaded vector whose items are the renamed originals is the renamed vector. */
  lemma VecRenamed(v: Value, got: seq<Value>, s: map<Id, Id>)
    requires v.VVec? && |got| == |v.items| && RenamedUpTo(v.items, got, |got|, s)
    ensures VVec(got) == Rename(v, s) && Ids(v) <= s.Keys
  {
    forall x | x in Ids(v) ensures x in s {
      var m :| 0 <= m < |v.items| && x in Ids(v.items[m]);
    }
  }

  lemma {:induction false} MapRoundTrip(reg: map<string, TypeInfo>, k: Kind, v: Value, cur: Value,
                                        vis: set<Id>, ctx: Ctx)
    requires v.VMap? && WfRegistry(reg) && WfKind(k) && Blank(k, cur)
    requires Ready(reg, k, v, ctx.addrs.Keys) && vis <= ctx.addrs.Keys && Good(ctx)
    ensures Save(v, vis).Ok?
    ensures Restored(Load(reg, k, Save(v, vis).value.doc, cur, ctx), v, ctx)
    decreases v, ChildCount(v) + 1
  {
    var es := v.entries;
    SaveExclusive(v, vis);
    SaveEntriesExclusive(v, 0, vis, []);
    var d := SaveEntries(v, 0, vis, []).value;
    assert Save(v, vis) == SaveEntries(v, 0, vis, []);
    assert Owners(v) == OwnersEntries(v, 0);
    EntriesRoundTrip(reg, k.key, k.val, v, 0, vis, [], d.doc, d.visited, ctx, []);
    var l := LoadEntries(reg, k.key, k.val, d.doc, 0, [], ctx).value;
    assert Load(reg, k, d.doc, cur, ctx) == Ok(l);
    MapRenamed(k, v, l.val.entries, l.ctx.addrs);
  }

  /** A loaded map whose entries are the renamed originals is the renamed map. */
  lemma MapRenamed(k: Kind, v: Value, got: seq<Entry>, s: map<Id, Id>)
    requires k.KMap? && ScalarKind(k.key) && HasKind(v, k)
    requires |got| == |v.entries| && EntriesUpTo(v.entries, got, |got|, s)
    ensures VMap(got) == Rename(v, s) && Ids(v) <= s.Keys
  {
    var es := v.entries;
    forall m | 0 <= m < |es| ensures Rename(es[m].key, s) == es[m].key && Ids(es[m].key) == {} {
      ScalarUnnamed(k.key, es[m].key, s);
    }
    MapEntriesRenamed(es, got, s);
    MapIdsCovered(es, got, s);
  }

  lemma MapEntriesRenamed(es: seq<Entry>, got: seq<Entry>, s: map<Id, Id>)
    requires |got| == |es| && EntriesUpTo(es, got, |got|, s)
    requires forall m :: 0 <= m < |es| ==> Rename(es[m].key, s) == es[m].key
    ensures VMap(got) == Rename(VMap(es), s)
  {
    var r := seq(|es|, i requires 0 <= i < |es| => Entry(Rename(es[i].key, s), Rename(es[i].val, s)));
    assert Rename(VMap(es), s) == VMap(r);
    forall m | 0 <= m < |es| ensures got[m] == r[m] {
      assert got[m] == Entry(es[m].key, Rename(es[m].val, s));
    }
    assert got == r;
  }

  lemma MapIdsCovered(es: seq<Entry>, got: seq<Entry>, s: map<Id, Id>)
    requires |got| == |es| && EntriesUpTo(es, got, |got|, s)
    requires forall m :: 0 <= m < |es| ==> Ids(es[m].key) == {}
    ensures Ids(VMap(es)) <= s.Keys
  {
    forall x | x in Ids(VMap(es)) ensures x in s {
      if m :| 0 <= m < |es| && x in Ids(es[m].key) {
        assert false;
      }
      var m :| 0 <= m < |es| && x in Ids(es[m].val);
    }
  }

  /** A scalar mentions no identity, so renaming leaves it alone. */
  lemma ScalarUnnamed(k: Kind, x: Value, s: map<Id, Id>)
    requires ScalarKind(k) && HasKind(x, k)
    ensures Rename(x, s) == x && Ids(x) == {}
  {
  }

  lemma {:induction false} BoxRoundTrip(reg: map<string, TypeInfo>, id: Id, o: Obj, vis: set<Id>, ctx: Ctx)
    requires WfRegistry(reg) && Ready(reg, KBox, VBox(id, o), ctx.addrs.Keys) && vis <= ctx.addrs.Keys && Good(ctx)
    ensures Save(VBox(id, o), vis).Ok?
    ensures Restored(Load(reg, KBox, Save(VBox(id, o), vis).value.doc, VNullBox, ctx), VBox(id, o), ctx)
    decreases VBox(id, o), 0
  {
    var ctx1 := Ctx(ctx.addrs[id := ctx.next], ctx.next + 1);
    BoxReady(reg, id, o, vis, ctx);
    ObjRoundTrip(reg, o, vis, ctx1, DefaultObj(o.info));
    var s := SaveObj(o, vis).value;
    var l := LoadFixed(reg, o.info, s.doc, DefaultObj(o.info), ctx1).value;
    BoxFinish(reg, id, o, vis, ctx, s, l);
  }

  /** Before the fields of a box are loaded, its address is recorded under
      the next fresh instance; the fields are then ready to load. */
  lemma BoxReady(reg: map<string, TypeInfo>, id: Id, o: Obj, vis: set<Id>, ctx: Ctx)
    requires WfRegistry(reg) && Ready(reg, KBox, VBox(id, o), ctx.addrs.Keys) && vis <= ctx.addrs.Keys && Good(ctx)
    ensures var ctx1 := Ctx(ctx.addrs[id := ctx.next], ctx.next + 1);
      Good(ctx1) && ctx1.addrs.Keys == ctx.addrs.Keys + {id} && id !in vis &&
      WfInfo(o.info) && Typed(o) && ShapedObj(o) && FitsObj(reg, o) && NoSelfNestingObj(o) &&
      Exclusive(OwnersObj(o), ctx1.addrs.Keys) && WeakBackVals(o, 0, ctx1.addrs.Keys) &&
      vis <= ctx1.addrs.Keys &&
      DefaultObj(o.info).info == o.info && |DefaultObj(o.info).vals| == |o.info.fields| &&
      forall m :: 0 <= m < |o.info.fields| ==> Blank(o.info.fields[m].kind, DefaultObj(o.info).vals[m])
  {
    ExclusiveSplit(multiset{id}, OwnersObj(o), ctx.addrs.Keys);
    assert IdSet(multiset{id}) == {id};
    var ctx1 := Ctx(ctx.addrs[id := ctx.next], ctx.next + 1);
    assert ctx1.addrs.Keys == ctx.addrs.Keys + {id};
    assert WfInfo(o.info);
  }

  /** The box node `{"meta": "val", "addr": id, "val": fields}` loads as a
      fresh instance holding the loaded fields. */
  lemma BoxFinish(reg: map<string, TypeInfo>, id: Id, o: Obj, vis: set<Id>, ctx: Ctx, s: Saved, l: LoadedObj)
    requires WfRegistry(reg) && Ready(reg, KBox, VBox(id, o), ctx.addrs.Keys) && vis <= ctx.addrs.Keys && Good(ctx)
    requires id !in vis && SaveObj(o, vis) == Ok(s)
    requires var ctx1 := Ctx(ctx.addrs[id := ctx.next], ctx.next + 1);
      LoadFixed(reg, o.info, s.doc, DefaultObj(o.info), ctx1) == Ok(l) &&
      Step(ctx1, l.ctx, IdSet(OwnersObj(o))) && IdsObj(o) <= l.ctx.addrs.Keys && l.obj == RenameObj(o, l.ctx.addrs) &&
      Good(ctx1) && ctx1.addrs.Keys == ctx.addrs.Keys + {id}
    ensures Save(VBox(id, o), vis).Ok?
    ensures Restored(Load(reg, KBox, Save(VBox(id, o), vis).value.doc, VNullBox, ctx), VBox(id, o), ctx)
  {
    var v := VBox(id, o);
    var ctx1 := Ctx(ctx.addrs[id := ctx.next], ctx.next + 1);
    var j := OwnedNode(id, s.doc);
    assert Save(v, vis).value.doc == j;
    SaveObjTyped(o, vis);
    assert o.info.name in reg && reg[o.info.name] == o.info;
    LoadFacts.OwnedNodeLoads(reg, id, s.doc, ctx);
    assert LoadBox(reg, j, ctx) == Ok(Loaded(VBox(ctx.next, l.obj), l.ctx));
    IdSetUnion(multiset{id}, OwnersObj(o));
    assert IdSet(multiset{id}) == {id};
    assert Step(ctx, ctx1, {id});
    StepCompose(ctx, ctx1, l.ctx, {id}, IdSet(OwnersObj(o)));
  }

  /** A saved component is tagged with its type name. */
  lemma SaveObjTyped(o: Obj, vis: set<Id>)
    requires ShapedObj(o) && SaveObj(o, vis).Ok?
    ensures StringAt(SaveObj(o, vis).value.doc, "type") == Some(o.info.name)
  {
  }

  lemma {:induction false} ObjRoundTrip(reg: map<string, TypeInfo>, o: Obj, vis: set<Id>, ctx: Ctx, base: Obj)
    requires WfRegistry(reg) && WfInfo(o.info) && Typed(o) && ShapedObj(o) && FitsObj(reg, o)
    requires NoSelfNestingObj(o) && Exclusive(OwnersObj(o), ctx.addrs.Keys) && WeakBackVals(o, 0, ctx.addrs.Keys)
    requires vis <= ctx.addrs.Keys && Good(ctx)
    requires base.info == o.info && |base.vals| == |o.info.fields|
    requires forall m :: 0 <= m < |o.info.fields| ==> Blank(o.info.fields[m].kind, base.vals[m])
    ensures SaveObj(o, vis).Ok?
    ensures var l := LoadFixed(reg, o.info, SaveObj(o, vis).value.doc, base, ctx);
      l.Ok? && Step(ctx, l.value.ctx, IdSet(OwnersObj(o))) &&
      IdsObj(o) <= l.value.ctx.addrs.Keys &&
      l.value.obj == RenameObj(o, l.value.ctx.addrs)
    decreases o, |o.vals| + 1
  {
    SaveObjExclusive(o, vis);
    SaveFieldsExclusive(o, 0, vis, map[]);
    var s := SaveFields(o, 0, vis, map[]).value;
    FieldsRoundTrip(reg, o, 0, vis, map[], s.doc, s.visited, ctx, base.vals);
    var j := TypedNode(o.info.name, s.doc);
    assert StringAt(j, "type") == Some(o.info.name);
    var l := LoadFields(reg, o.info.fields, s.doc, 0, base.vals, ctx).value;
    assert LoadFixed(reg, o.info, j, base, ctx) == Ok(LoadedObj(Obj(base.info, l.0), l.1));
    assert Obj(base.info, l.0) == RenameObj(o, l.1.addrs);
    forall x | x in IdsObj(o) ensures x in l.1.addrs {
      var i :| 0 <= i < |o.vals| && x in Ids(o.vals[i]);
    }
  }

  // ---- fields ----

  /** What holds before field `i` of `o` is saved and loaded. */
  predicate FieldsPre(reg: map<string, TypeInfo>, o: Obj, i: nat, vis: set<Id>, acc: map<string, Json>,
                      d: Json, visEnd: set<Id>, ctx: Ctx, vals: seq<Value>)
  {
    WfRegistry(reg) && WfInfo(o.info) && Typed(o) && ShapedObj(o) && FitsObj(reg, o) && NoSelfNestingObj(o) &&
    i <= |o.vals| && |vals| == |o.vals| &&
    SaveFields(o, i, vis, acc) == Ok(Saved(d, visEnd)) &&
    Exclusive(OwnersVals(o, i), ctx.addrs.Keys) && WeakBackVals(o, i, ctx.addrs.Keys) &&
    vis <= ctx.addrs.Keys && Good(ctx) &&
    RenamedUpTo(o.vals, vals, i, ctx.addrs) &&
    forall m :: i <= m < |o.vals| ==> Blank(o.info.fields[m].kind, vals[m])
  }

  lemma FieldReady(reg: map<string, TypeInfo>, o: Obj, i: nat, vis: set<Id>, acc: map<string, Json>,
                   d: Json, visEnd: set<Id>, ctx: Ctx, vals: seq<Value>)
    requires FieldsPre(reg, o, i, vis, acc, d, visEnd, ctx, vals) && i < |o.vals|
    ensures WfKind(o.info.fields[i].kind) && Blank(o.info.fields[i].kind, vals[i])
    ensures Ready(reg, o.info.fields[i].kind, o.vals[i], ctx.addrs.Keys)
  {
    ExclusiveSplit(Owners(o.vals[i]), OwnersVals(o, i + 1), ctx.addrs.Keys);
  }

  /** Field `i` restored, the state is ready for field `i + 1`. */
  lemma FieldAdvance(reg: map<string, TypeInfo>, o: Obj, i: nat, vis: set<Id>, acc: map<string, Json>,
                     d: Json, visEnd: set<Id>, ctx: Ctx, vals: seq<Value>, s: Saved, r: Loaded)
    requires FieldsPre(reg, o, i, vis, acc, d, visEnd, ctx, vals) && i < |o.vals|
    requires Save(o.vals[i], vis) == Ok(s)
    requires Load(reg, o.info.fields[i].kind, s.doc, vals[i], ctx) == Ok(r)
    requires Step(ctx, r.ctx, IdSet(Owners(o.vals[i]))) && Ids(o.vals[i]) <= r.ctx.addrs.Keys
    requires r.val == Rename(o.vals[i], r.ctx.addrs)
    ensures FieldsPre(reg, o, i + 1, s.visited, acc[o.info.fields[i].name := s.doc], d, visEnd, r.ctx, vals[i := r.val])
    ensures LoadFields(reg, o.info.fields, d, i, vals, ctx)
         == LoadFields(reg, o.info.fields, d, i + 1, vals[i := r.val], r.ctx)
    ensures IdSet(OwnersVals(o, i)) == IdSet(Owners(o.vals[i])) + IdSet(OwnersVals(o, i + 1))
  {
    var a, b := Owners(o.vals[i]), OwnersVals(o, i + 1);
    ExclusiveSplit(a, b, ctx.addrs.Keys);
    SaveExclusive(o.vals[i], vis);
    SaveFieldsNext(o, i, vis, acc, d, visEnd, s);
    LoadFieldsNext(reg, o.info.fields, d, i, vals, ctx, r);
    var vals' := vals[i := r.val];
    assert RenamedUpTo(o.vals, vals', i, ctx.addrs) by {
      forall m | 0 <= m < i ensures vals'[m] == vals[m] { }
    }
    RenamedExtend(o.vals, vals', i, ctx.addrs, r.ctx.addrs, r.val);
    IdSetUnion(a, b);
  }

  lemma {:induction false} FieldsRoundTrip(reg: map<string, TypeInfo>, o: Obj, i: nat, vis: set<Id>,
                                           acc: map<string, Json>, d: Json, visEnd: set<Id>,
                                           ctx: Ctx, vals: seq<Value>)
    requires FieldsPre(reg, o, i, vis, acc, d, visEnd, ctx, vals)
    ensures var l := LoadFields(reg, o.info.fields, d, i, vals, ctx);
      l.Ok? && Step(ctx, l.value.1, IdSet(OwnersVals(o, i))) &&
      |l.value.0| == |o.vals| && RenamedUpTo(o.vals, l.value.0, |o.vals|, l.value.1.addrs)
    decreases o, |o.vals| - i
  {
    if i == |o.vals| {
      assert IdSet(OwnersVals(o, i)) == {};
    } else {
      var f := o.info.fields[i];
      FieldReady(reg, o, i, vis, acc, d, visEnd, ctx, vals);
      RoundTripValue(reg, f.kind, o.vals[i], vals[i], vis, ctx);
      var s := Save(o.vals[i], vis).value;
      var r := Load(reg, f.kind, s.doc, vals[i], ctx).value;
      FieldAdvance(reg, o, i, vis, acc, d, visEnd, ctx, vals, s, r);
      FieldsRoundTrip(reg, o, i + 1, s.visited, acc[f.name := s.doc], d, visEnd, r.ctx, vals[i := r.val]);
      var t := LoadFields(reg, o.info.fields, d, i + 1, vals[i := r.val], r.ctx).value;
      StepCompose(ctx, r.ctx, t.1, IdSet(Owners(o.vals[i])), IdSet(OwnersVals(o, i + 1)));
    }
  }

  // ---- vector items ----

  predicate ItemsPre(reg: map<string, TypeInfo>, e: Kind, v: Value, i: nat, vis: set<Id>, accJ: seq<Json>,
                     d: Json, visEnd: set<Id>, ctx: Ctx, acc: seq<Value>)
  {
    WfRegistry(reg) && WfKind(e) && v.VVec? && HasKind(v, KVec(e)) && Shaped(v) && Fits(reg, v) &&
    NoSelfNesting(v) && i <= |v.items| && |accJ| == i && |acc| == i &&
    SaveItems(v, i, vis, accJ) == Ok(Saved(d, visEnd)) &&
    Exclusive(OwnersItems(v, i), ctx.addrs.Keys) && WeakBackItems(v, i, ctx.addrs.Keys) &&
    vis <= ctx.addrs.Keys && Good(ctx) &&
    RenamedUpTo(v.items, acc, i, ctx.addrs)
  }

  lemma ItemReady(reg: map<string, TypeInfo>, e: Kind, v: Value, i: nat, vis: set<Id>, accJ: seq<Json>,
                  d: Json, visEnd: set<Id>, ctx: Ctx, acc: seq<Value>)
    requires ItemsPre(reg, e, v, i, vis, accJ, d, visEnd, ctx, acc) && i < |v.items|
    ensures Blank(e, DefaultOf(e)) && Ready(reg, e, v.items[i], ctx.addrs.Keys)
  {
    ExclusiveSplit(Owners(v.items[i]), OwnersItems(v, i + 1), ctx.addrs.Keys);
    DefaultBlank(e);
  }

  lemma ItemAdvance(reg: map<string, TypeInfo>, e: Kind, v: Value, i: nat, vis: set<Id>, accJ: seq<Json>,
                    d: Json, visEnd: set<Id>, ctx: Ctx, acc: seq<Value>, s: Saved, r: Loaded)
    requires ItemsPre(reg, e, v, i, vis, accJ, d, visEnd, ctx, acc) && i < |v.items|
    requires Save(v.items[i], vis) == Ok(s)
    requires Load(reg, e, s.doc, DefaultOf(e), ctx) == Ok(r)
    requires Step(ctx, r.ctx, IdSet(Owners(v.items[i]))) && Ids(v.items[i]) <= r.ctx.addrs.Keys
    requires r.val == Rename(v.items[i], r.ctx.addrs)
    ensures ItemsPre(reg, e, v, i + 1, s.visited, accJ + [s.doc], d, visEnd, r.ctx, acc + [r.val])
    ensures LoadItems(reg, e, d, i, acc, ctx) == LoadItems(reg, e, d, i + 1, acc + [r.val], r.ctx)
    ensures IdSet(OwnersItems(v, i)) == IdSet(Owners(v.items[i])) + IdSet(OwnersItems(v, i + 1))
  {
    var a, b := Owners(v.items[i]), OwnersItems(v, i + 1);
    ExclusiveSplit(a, b, ctx.addrs.Keys);
    SaveExclusive(v.items[i], vis);
    SaveItemsNext(v, i, vis, accJ, d, visEnd, s);
    LoadItemsNext(reg, e, d, i, acc, ctx, r);
    var acc' := acc + [r.val];
    assert RenamedUpTo(v.items, acc', i, ctx.addrs) by {
      forall m | 0 <= m < i ensures acc'[m] == acc[m] { }
    }
    RenamedExtend(v.items, acc', i, ctx.addrs, r.ctx.addrs, r.val);
    IdSetUnion(a, b);
  }

  lemma {:induction false} ItemsRoundTrip(reg: map<string, TypeInfo>, e: Kind, v: Value, i: nat, vis: set<Id>,
                                          accJ: seq<Json>, d: Json, visEnd: set<Id>, ctx: Ctx, acc: seq<Value>)
    requires ItemsPre(reg, e, v, i, vis, accJ, d, visEnd, ctx, acc)
    ensures var l := LoadItems(reg, e, d, i, acc, ctx);
      l.Ok? && Step(ctx, l.value.ctx, IdSet(OwnersItems(v, i))) &&
      l.value.val.VVec? && |l.value.val.items| == |v.items| &&
      RenamedUpTo(v.items, l.value.val.items, |v.items|, l.value.ctx.addrs)
    decreases v, |v.items| - i
  {
    if i == |v.items| {
      SaveItemsShape(v, i, vis, accJ);
      assert IdSet(OwnersItems(v, i)) == {};
    } else {
      ItemReady(reg, e, v, i, vis, accJ, d, visEnd, ctx, acc);
      RoundTripValue(reg, e, v.items[i], DefaultOf(e), vis, ctx);
      var s := Save(v.items[i], vis).value;
      var r := Load(reg, e, s.doc, DefaultOf(e), ctx).value;
      ItemAdvance(reg, e, v, i, vis, accJ, d, visEnd, ctx, acc, s, r);
      ItemsRoundTrip(reg, e, v, i + 1, s.visited, accJ + [s.doc], d, visEnd, r.ctx, acc + [r.val]);
      var t := LoadItems(reg, e, d, i + 1, acc + [r.val], r.ctx).value;
      StepCompose(ctx, r.ctx, t.ctx, IdSet(Owners(v.items[i])), IdSet(OwnersItems(v, i + 1)));
    }
  }

  // ---- map entries ----

  /** The first `n` loaded entries carry the original keys and the renamed
      values. */
  predicate EntriesUpTo(orig: seq<Entry>, got: seq<Entry>, n: nat, s: map<Id, Id>)
  {
    n <= |orig| && n <= |got| &&
    forall m :: 0 <= m < n ==>
      got[m] == Entry(orig[m].key, Rename(orig[m].val, s)) && Ids(orig[m].val) <= s.Keys
  }

  lemma EntriesExtend(orig: seq<Entry>, got: seq<Entry>, n: nat, s: map<Id, Id>, t: map<Id, Id>, x: Value)
    requires EntriesUpTo(orig, got, n, s) && n < |orig| && n < |got| && Sub(s, t)
    requires got[n] == Entry(orig[n].key, x) && x == Rename(orig[n].val, t) && Ids(orig[n].val) <= t.Keys
    ensures EntriesUpTo(orig, got, n + 1, t)
  {
    forall m | 0 <= m < n ensures Rename(orig[m].val, s) == Rename(orig[m].val, t) {
      RenameMono(orig[m].val, s, t);
    }
  }

  predicate EntriesPre(reg: map<string, TypeInfo>, kk: Kind, vk: Kind, v: Value, i: nat, vis: set<Id>,
                       accJ: seq<Json>, d: Json, visEnd: set<Id>, ctx: Ctx, acc: seq<Entry>)
  {
    WfRegistry(reg) && WfKind(KMap(kk, vk)) && v.VMap? && HasKind(v, KMap(kk, vk)) &&
    Shaped(v) && Fits(reg, v) && NoSelfNesting(v) &&
    i <= |v.entries| && |accJ| == i && |acc| == i &&
    SaveEntries(v, i, vis, accJ) == Ok(Saved(d, visEnd)) &&
    Exclusive(OwnersEntries(v, i), ctx.addrs.Keys) && WeakBackEntries(v, i, ctx.addrs.Keys) &&
    vis <= ctx.addrs.Keys && Good(ctx) &&
    EntriesUpTo(v.entries, acc, i, ctx.addrs)
  }

  /** The key of entry `i` is a scalar: it saves without touching the
      visited set and loads back as itself, and the value is ready. */
  lemma EntryReady(reg: map<string, TypeInfo>, kk: Kind, vk: Kind, v: Value, i: nat, vis: set<Id>,
                   accJ: seq<Json>, d: Json, visEnd: set<Id>, ctx: Ctx, acc: seq<Entry>)
    requires EntriesPre(reg, kk, vk, v, i, vis, accJ, d, visEnd, ctx, acc) && i < |v.entries|
    ensures Save(v.entries[i].key, vis).Ok? && Save(v.entries[i].key, vis).value.visited == vis
    ensures Load(reg, kk, Save(v.entries[i].key, vis).value.doc, DefaultOf(kk), ctx)
         == Ok(Loaded(v.entries[i].key, ctx))
    ensures Blank(vk, DefaultOf(vk)) && Ready(reg, vk, v.entries[i].val, ctx.addrs.Keys)
  {
    var en := v.entries[i];
    assert HasKind(en.key, kk) && HasKind(en.val, vk);
    ScalarRoundTrip(reg, kk, en.key, vis, ctx);
    var a, b, c := Owners(en.key), Owners(en.val), OwnersEntries(v, i + 1);
    assert OwnersEntries(v, i) == b + c;
    assert ctx.addrs.Keys + IdSet(a) == ctx.addrs.Keys;
    ExclusiveSplit(b, c, ctx.addrs.Keys);
    DefaultBlank(vk);
  }

  /** A scalar is written as itself, owns nothing, and reads back unchanged. */
  lemma ScalarRoundTrip(reg: map<string, TypeInfo>, k: Kind, x: Value, vis: set<Id>, ctx: Ctx)
    requires ScalarKind(k) && HasKind(x, k)
    ensures Save(x, vis).Ok? && Save(x, vis).value.visited == vis
    ensures Load(reg, k, Save(x, vis).value.doc, DefaultOf(k), ctx) == Ok(Loaded(x, ctx))
    ensures Owners(x) == multiset{} && IdSet(Owners(x)) == {}
  {
  }

  /** Entry `i` of a map without repeated keys is appended, never merged. */
  lemma EntryAccumulate(v: Value, i: nat, acc: seq<Entry>, s: map<Id, Id>, t: map<Id, Id>, x: Value)
    requires v.VMap? && DistinctKeys(v.entries) && i < |v.entries| && |acc| == i
    requires EntriesUpTo(v.entries, acc, i, s) && Sub(s, t)
    requires x == Rename(v.entries[i].val, t) && Ids(v.entries[i].val) <= t.Keys
    ensures Assign(acc, v.entries[i].key, x) == acc + [Entry(v.entries[i].key, x)]
    ensures EntriesUpTo(v.entries, acc + [Entry(v.entries[i].key, x)], i + 1, t)
  {
    var key := v.entries[i].key;
    forall m | 0 <= m < |acc| ensures acc[m].key != key {
      assert acc[m].key == v.entries[m].key;
    }
    AssignFresh(acc, key, x);
    var acc' := acc + [Entry(key, x)];
    assert EntriesUpTo(v.entries, acc', i, s) by {
      forall m | 0 <= m < i ensures acc'[m] == acc[m] { }
    }
    EntriesExtend(v.entries, acc', i, s, t, x);
  }

  lemma EntryAdvance(reg: map<string, TypeInfo>, kk: Kind, vk: Kind, v: Value, i: nat, vis: set<Id>,
                     accJ: seq<Json>, d: Json, visEnd: set<Id>, ctx: Ctx, acc: seq<Entry>,
                     sk: Saved, sv: Saved, rv: Loaded)
    requires EntriesPre(reg, kk, vk, v, i, vis, accJ, d, visEnd, ctx, acc) && i < |v.entries|
    requires Save(v.entries[i].key, vis) == Ok(sk) && sk.visited == vis
    requires Load(reg, kk, sk.doc, DefaultOf(kk), ctx) == Ok(Loaded(v.entries[i].key, ctx))
    requires Save(v.entries[i].val, vis) == Ok(sv)
    requires Load(reg, vk, sv.doc, DefaultOf(vk), ctx) == Ok(rv)
    requires Step(ctx, rv.ctx, IdSet(Owners(v.entries[i].val))) && Ids(v.entries[i].val) <= rv.ctx.addrs.Keys
    requires rv.val == Rename(v.entries[i].val, rv.ctx.addrs)
    ensures EntriesPre(reg, kk, vk, v, i + 1, sv.visited, accJ + [JObj(map["key" := sk.doc, "val" := sv.doc])],
                       d, visEnd, rv.ctx, acc + [Entry(v.entries[i].key, rv.val)])
    ensures LoadEntries(reg, kk, vk, d, i, acc, ctx)
         == LoadEntries(reg, kk, vk, d, i + 1, acc + [Entry(v.entries[i].key, rv.val)], rv.ctx)
    ensures IdSet(OwnersEntries(v, i)) == IdSet(Owners(v.entries[i].val)) + IdSet(OwnersEntries(v, i + 1))
  {
    var en := v.entries[i];
    assert HasKind(en.key, kk);
    ScalarRoundTrip(reg, kk, en.key, vis, ctx);
    var a, b, c := Owners(en.key), Owners(en.val), OwnersEntries(v, i + 1);
    assert OwnersEntries(v, i) == b + c;
    assert ctx.addrs.Keys + IdSet(a) == ctx.addrs.Keys;
    ExclusiveSplit(b, c, ctx.addrs.Keys);
    SaveExclusive(en.val, vis);
    SaveEntriesNext(v, i, vis, accJ, d, visEnd, sk, sv);
    LoadEntriesNext(reg, kk, vk, d, i, acc, ctx, sk.doc, sv.doc, Loaded(en.key, ctx), rv);
    EntryAccumulate(v, i, acc, ctx.addrs, rv.ctx.addrs, rv.val);
    IdSetUnion(b, c);
  }

  /** One map entry: its key and value save and load back, and the pass
      moves on to entry `i + 1` with the entry appended. */
  lemma {:induction false} EntryStep(reg: map<string, TypeInfo>, kk: Kind, vk: Kind, v: Value, i: nat,
                                     vis: set<Id>, accJ: seq<Json>, d: Json, visEnd: set<Id>,
                                     ctx: Ctx, acc: seq<Entry>)
    requires EntriesPre(reg, kk, vk, v, i, vis, accJ, d, visEnd, ctx, acc) && i < |v.entries|
    ensures Save(v.entries[i].key, vis).Ok? && Save(v.entries[i].val, vis).Ok?
    ensures Load(reg, vk, Save(v.entries[i].val, vis).value.doc, DefaultOf(vk), ctx).Ok?
    ensures var sk := Save(v.entries[i].key, vis).value;
      var sv := Save(v.entries[i].val, vis).value;
      var rv := Load(reg, vk, sv.doc, DefaultOf(vk), ctx).value;
      EntriesPre(reg, kk, vk, v, i + 1, sv.visited, accJ + [JObj(map["key" := sk.doc, "val" := sv.doc])],
                 d, visEnd, rv.ctx, acc + [Entry(v.entries[i].key, rv.val)]) &&
      LoadEntries(reg, kk, vk, d, i, acc, ctx)
        == LoadEntries(reg, kk, vk, d, i + 1, acc + [Entry(v.entries[i].key, rv.val)], rv.ctx) &&
      Step(ctx, rv.ctx, IdSet(Owners(v.entries[i].val))) &&
      IdSet(OwnersEntries(v, i)) == IdSet(Owners(v.entries[i].val)) + IdSet(OwnersEntries(v, i + 1))
    decreases v, |v.entries| - i, 0
  {
    var en := v.entries[i];
    EntryReady(reg, kk, vk, v, i, vis, accJ, d, visEnd, ctx, acc);
    RoundTripValue(reg, vk, en.val, DefaultOf(vk), vis, ctx);
    var sk := Save(en.key, vis).value;
    var sv := Save(en.val, vis).value;
    var rv := Load(reg, vk, sv.doc, DefaultOf(vk), ctx).value;
    EntryAdvance(reg, kk, vk, v, i, vis, accJ, d, visEnd, ctx, acc, sk, sv, rv);
  }

  /** Past the last entry the map loader stops with what it has. */
  lemma EntriesDone(reg: map<string, TypeInfo>, kk: Kind, vk: Kind, v: Value, i: nat,
                    vis: set<Id>, accJ: seq<Json>, d: Json, visEnd: set<Id>,
                    ctx: Ctx, acc: seq<Entry>)
    requires EntriesPre(reg, kk, vk, v, i, vis, accJ, d, visEnd, ctx, acc) && i == |v.entries|
    ensures var l := LoadEntries(reg, kk, vk, d, i, acc, ctx);
      l.Ok? && Step(ctx, l.value.ctx, IdSet(OwnersEntries(v, i))) &&
      l.value.val.VMap? && |l.value.val.entries| == |v.entries| &&
      EntriesUpTo(v.entries, l.value.val.entries, |v.entries|, l.value.ctx.addrs)
  {
    SaveEntriesShape(v, i, vis, accJ);
    assert IdSet(OwnersEntries(v, i)) == {};
    assert LoadEntries(reg, kk, vk, d, i, acc, ctx) == Ok(Loaded(VMap(acc), ctx));
  }

  lemma {:induction false} EntriesRoundTrip(reg: map<string, TypeInfo>, kk: Kind, vk: Kind, v: Value, i: nat,
                                            vis: set<Id>, accJ: seq<Json>, d: Json, visEnd: set<Id>,
                                            ctx: Ctx, acc: seq<Entry>)
    requires EntriesPre(reg, kk, vk, v, i, vis, accJ, d, visEnd, ctx, acc)
    ensures var l := LoadEntries(reg, kk, vk, d, i, acc, ctx);
      l.Ok? && Step(ctx, l.value.ctx, IdSet(OwnersEntries(v, i))) &&
      l.value.val.VMap? && |l.value.val.entries| == |v.entries| &&
      EntriesUpTo(v.entries, l.value.val.entries, |v.entries|, l.value.ctx.addrs)
    decreases v, |v.entries| - i, 1
  {
    if i == |v.entries| {
      EntriesDone(reg, kk, vk, v, i, vis, accJ, d, visEnd, ctx, acc);
    } else {
      var en := v.entries[i];
      EntryStep(reg, kk, vk, v, i, vis, accJ, d, visEnd, ctx, acc);
      var sk := Save(en.key, vis).value;
      var sv := Save(en.val, vis).value;
      var rv := Load(reg, vk, sv.doc, DefaultOf(vk), ctx).value;
      var acc' := acc + [Entry(en.key, rv.val)];
      EntriesRoundTrip(reg, kk, vk, v, i + 1, sv.visited, accJ + [JObj(map["key" := sk.doc, "val" := sv.doc])],
                       d, visEnd, rv.ctx, acc');
      var t := LoadEntries(reg, kk, vk, d, i + 1, acc', rv.ctx).value;
      StepCompose(ctx, rv.ctx, t.ctx, IdSet(Owners(en.val)), IdSet(OwnersEntries(v, i + 1)));
    }
  }

  // ---------------------------------------------------------------------
  // The round trip from an empty stream

  /** Saving a well-formed object graph into a fresh document and loading
      it back with an allocator that starts at `first` succeeds, and yields
      the same graph with every instance identity renamed one-to-one: the
      address map records exactly the boxes the graph owns, the new
      instances are numbered from `first` on, and every weak pointer aims
      at the instance that the same address names. */
  lemma SaveLoadRoundTrip(reg: map<string, TypeInfo>, k: Kind, v: Value, first: Id)
    requires WfRegistry(reg) && WfKind(k) && Ready(reg, k, v, {})
    ensures Save(v, {}).Ok?
    ensures var l := Load(reg, k, Save(v, {}).value.doc, DefaultOf(k), Ctx(map[], first));
      l.Ok? && Injective(l.value.ctx.addrs) &&
      l.value.ctx.addrs.Keys == IdSet(Owners(v)) && Ids(v) <= l.value.ctx.addrs.Keys &&
      (forall a :: a in l.value.ctx.addrs ==> first <= l.value.ctx.addrs[a] < l.value.ctx.next) &&
      l.value.val == Rename(v, l.value.ctx.addrs)
  {
    var ctx := Ctx(map[], first);
    assert ctx.addrs.Keys == {};
    DefaultBlank(k);
    RoundTripValue(reg, k, v, DefaultOf(k), {}, ctx);
    LoadExtends(reg, k, Save(v, {}).value.doc, DefaultOf(k), ctx);
  }
}
