/** Properties of loading (module Loading): how the address map and the
    allocator evolve, what a container load does to what the slot already
    holds, and the error each malformed node raises. */
module LoadFacts {
  import opened Wrappers
  import opened Json
  import opened Schema
  import opened Loading
  import Saving

  /** `d` is a later state of the same pass as `c`: no address is forgotten,
      and every address maps either to what it mapped to before or to an
      instance constructed since. */
  predicate Extends(c: Ctx, d: Ctx)
  {
    c.next <= d.next &&
    (forall a :: a in c.addrs ==> a in d.addrs) &&
    (forall a :: a in d.addrs ==>
      (a in c.addrs && d.addrs[a] == c.addrs[a]) || c.next <= d.addrs[a] < d.next)
  }

  lemma ExtendsTrans(c: Ctx, d: Ctx, e: Ctx)
    requires Extends(c, d) && Extends(d, e)
    ensures Extends(c, e)
  {
  }

  lemma {:induction false} LoadExtends(reg: map<string, TypeInfo>, k: Kind, j: Json, cur: Value, ctx: Ctx)
    ensures Load(reg, k, j, cur, ctx).Ok? ==> Extends(ctx, Load(reg, k, j, cur, ctx).value.ctx)
    decreases j, Size(j) + 2
  {
    match k
    case KBox => LoadBoxExtends(reg, j, ctx);
    case KFixed(info) =>
      var base := if cur.VInline? && cur.obj.info == info && |cur.obj.vals| == |info.fields|
                  then cur.obj else DefaultObj(info);
      LoadFixedExtends(reg, info, j, base, ctx);
    case KVec(e) => LoadItemsExtends(reg, e, j, 0, if cur.VVec? then cur.items else [], ctx);
    case KMap(kk, vk) => LoadEntriesExtends(reg, kk, vk, j, 0, if cur.VMap? then cur.entries else [], ctx);
    case _ =>
  }

  /** A loaded box receives the next identity, the allocator moves past it,
      and its address stays recorded once the load ends. */
  lemma {:induction false} LoadBoxExtends(reg: map<string, TypeInfo>, j: Json, ctx: Ctx)
    ensures LoadBox(reg, j, ctx).Ok? ==> Extends(ctx, LoadBox(reg, j, ctx).value.ctx)
    ensures LoadBox(reg, j, ctx).Ok? && !j.JNull? ==>
      LoadBox(reg, j, ctx).value.val.VBox? &&
      LoadBox(reg, j, ctx).value.val.id == ctx.next &&
      ctx.next < LoadBox(reg, j, ctx).value.ctx.next
    ensures LoadBox(reg, j, ctx).Ok? && !j.JNull? ==>
      At(j, "addr").Some? && GetU64(At(j, "addr").value).Some? &&
      GetU64(At(j, "addr").value).value in LoadBox(reg, j, ctx).value.ctx.addrs
    decreases j, 0
  {
    if !j.JNull? && Meta(j) == Some("val") && "val" in j.fields {
      var val := j.fields["val"];
      match StringAt(val, "type")
      case None =>
      case Some(name) =>
        if name in reg {
          var info := reg[name];
          match At(j, "addr")
          case None =>
          case Some(a) =>
            match GetU64(a)
            case None =>
            case Some(addr) =>
              var ctx1 := Ctx(ctx.addrs[addr := ctx.next], ctx.next + 1);
              assert Extends(ctx, ctx1) && addr in ctx1.addrs;
              LoadFixedExtends(reg, info, val, DefaultObj(info), ctx1);
              if LoadFixed(reg, info, val, DefaultObj(info), ctx1).Ok? {
                ExtendsTrans(ctx, ctx1, LoadFixed(reg, info, val, DefaultObj(info), ctx1).value.ctx);
              }
        }
    }
  }

  lemma {:induction false} LoadFixedExtends(reg: map<string, TypeInfo>, info: TypeInfo, j: Json, o: Obj, ctx: Ctx)
    requires |o.vals| == |info.fields|
    ensures LoadFixed(reg, info, j, o, ctx).Ok? ==> Extends(ctx, LoadFixed(reg, info, j, o, ctx).value.ctx)
    decreases j, 0
  {
    if StringAt(j, "type") == Some(info.name) && "val" in j.fields {
      LoadFieldsExtends(reg, info.fields, j.fields["val"], 0, o.vals, ctx);
    }
  }

  lemma {:induction false} LoadFieldsExtends(reg: map<string, TypeInfo>, fields: seq<FieldDecl>, s: Json, i: nat,
                                             vals: seq<Value>, ctx: Ctx)
    requires |vals| == |fields| && i <= |fields|
    ensures LoadFields(reg, fields, s, i, vals, ctx).Ok? ==>
      Extends(ctx, LoadFields(reg, fields, s, i, vals, ctx).value.1)
    decreases s, |fields| - i
  {
    if i < |fields| {
      if !Contains(s, fields[i].name) {
        LoadFieldsExtends(reg, fields, s, i + 1, vals, ctx);
      } else {
        var x := s.fields[fields[i].name];
        LoadExtends(reg, fields[i].kind, x, vals[i], ctx);
        var r := Load(reg, fields[i].kind, x, vals[i], ctx);
        if r.Ok? {
          LoadFieldsExtends(reg, fields, s, i + 1, vals[i := r.value.val], r.value.ctx);
          var t := LoadFields(reg, fields, s, i + 1, vals[i := r.value.val], r.value.ctx);
          if t.Ok? { ExtendsTrans(ctx, r.value.ctx, t.value.1); }
        }
      }
    }
  }

  lemma {:induction false} LoadItemsExtends(reg: map<string, TypeInfo>, e: Kind, j: Json, i: nat, acc: seq<Value>, ctx: Ctx)
    ensures LoadItems(reg, e, j, i, acc, ctx).Ok? ==> Extends(ctx, LoadItems(reg, e, j, i, acc, ctx).value.ctx)
    decreases j, Size(j) - i
  {
    if i < Size(j) && j.JArr? {
      LoadExtends(reg, e, j.items[i], DefaultOf(e), ctx);
      var r := Load(reg, e, j.items[i], DefaultOf(e), ctx);
      if r.Ok? {
        LoadItemsExtends(reg, e, j, i + 1, acc + [r.value.val], r.value.ctx);
        var t := LoadItems(reg, e, j, i + 1, acc + [r.value.val], r.value.ctx);
        if t.Ok? { ExtendsTrans(ctx, r.value.ctx, t.value.ctx); }
      }
    }
  }

  lemma {:induction false} LoadEntriesExtends(reg: map<string, TypeInfo>, kk: Kind, vk: Kind, j: Json, i: nat,
                                              acc: seq<Entry>, ctx: Ctx)
    ensures LoadEntries(reg, kk, vk, j, i, acc, ctx).Ok? ==>
      Extends(ctx, LoadEntries(reg, kk, vk, j, i, acc, ctx).value.ctx)
    decreases j, Size(j) - i
  {
    if i < Size(j) && j.JArr? {
      var pair := j.items[i];
      if Contains(pair, "key") {
        LoadExtends(reg, kk, pair.fields["key"], DefaultOf(kk), ctx);
        var k := Load(reg, kk, pair.fields["key"], DefaultOf(kk), ctx);
        if k.Ok? && Contains(pair, "val") {
          LoadExtends(reg, vk, pair.fields["val"], DefaultOf(vk), k.value.ctx);
          var v := Load(reg, vk, pair.fields["val"], DefaultOf(vk), k.value.ctx);
          if v.Ok? {
            ExtendsTrans(ctx, k.value.ctx, v.value.ctx);
            var acc' := Assign(acc, k.value.val, v.value.val);
            LoadEntriesExtends(reg, kk, vk, j, i + 1, acc', v.value.ctx);
            var t := LoadEntries(reg, kk, vk, j, i + 1, acc', v.value.ctx);
            if t.Ok? { ExtendsTrans(ctx, v.value.ctx, t.value.ctx); }
          }
        }
      }
    }
  }

  // ---- the slot's previous contents ----

  /** InStreamVisitor leaves a field alone when the document does not name
      it: such a field keeps the value the instance already held. */
  lemma {:induction false} AbsentFieldsUnchanged(reg: map<string, TypeInfo>, fields: seq<FieldDecl>, s: Json, i: nat,
                                                 vals: seq<Value>, ctx: Ctx)
    requires |vals| == |fields| && i <= |fields|
    ensures LoadFields(reg, fields, s, i, vals, ctx).Ok? ==>
      |LoadFields(reg, fields, s, i, vals, ctx).value.0| == |fields| &&
      forall n :: 0 <= n < |fields| && (n < i || !Contains(s, fields[n].name)) ==>
        LoadFields(reg, fields, s, i, vals, ctx).value.0[n] == vals[n]
    decreases |fields| - i
  {
    if i < |fields| {
      if !Contains(s, fields[i].name) {
        AbsentFieldsUnchanged(reg, fields, s, i + 1, vals, ctx);
      } else {
        var r := Load(reg, fields[i].kind, s.fields[fields[i].name], vals[i], ctx);
        if r.Ok? {
          AbsentFieldsUnchanged(reg, fields, s, i + 1, vals[i := r.value.val], r.value.ctx);
        }
      }
    }
  }

  /** Loading a component by value keeps its type and every field the
      document does not mention. */
  lemma FixedKeepsAbsentFields(reg: map<string, TypeInfo>, info: TypeInfo, j: Json, o: Obj, ctx: Ctx)
    requires |o.vals| == |info.fields|
    ensures LoadFixed(reg, info, j, o, ctx).Ok? ==>
      var r := LoadFixed(reg, info, j, o, ctx).value.obj;
      r.info == o.info && |r.vals| == |o.vals| &&
      forall n :: 0 <= n < |info.fields| && !Contains(j.fields["val"], info.fields[n].name) ==>
        r.vals[n] == o.vals[n]
  {
    if StringAt(j, "type") == Some(info.name) && "val" in j.fields {
      AbsentFieldsUnchanged(reg, info.fields, j.fields["val"], 0, o.vals, ctx);
    }
  }

  /** `load(std::vector<T>&)` from index `i` appends one element per
      remaining document element after what the vector held. */
  lemma {:induction false} ItemsAppend(reg: map<string, TypeInfo>, e: Kind, j: Json, i: nat, acc: seq<Value>, ctx: Ctx)
    requires i <= Size(j)
    ensures LoadItems(reg, e, j, i, acc, ctx).Ok? ==>
      var r := LoadItems(reg, e, j, i, acc, ctx).value.val;
      r.VVec? && |r.items| == |acc| + Size(j) - i && r.items[..|acc|] == acc
    decreases Size(j) - i
  {
    if i < Size(j) && j.JArr? {
      var r := Load(reg, e, j.items[i], DefaultOf(e), ctx);
      if r.Ok? {
        ItemsAppend(reg, e, j, i + 1, acc + [r.value.val], r.value.ctx);
        var t := LoadItems(reg, e, j, i + 1, acc + [r.value.val], r.value.ctx);
        if t.Ok? {
          assert t.value.val.items[..|acc|] == t.value.val.items[..|acc| + 1][..|acc|];
        }
      }
    }
  }

  /** Loading into a vector that already holds elements keeps them in front:
      `load` appends, it does not replace. */
  lemma VectorLoadAppends(reg: map<string, TypeInfo>, e: Kind, j: Json, items: seq<Value>, ctx: Ctx)
    ensures Load(reg, KVec(e), j, VVec(items), ctx).Ok? ==>
      var r := Load(reg, KVec(e), j, VVec(items), ctx).value.val;
      r.VVec? && |r.items| == |items| + Size(j) && r.items[..|items|] == items
  {
    ItemsAppend(reg, e, j, 0, items, ctx);
  }

  // ---- map assignment ----

  function Keys(es: seq<Entry>): set<Value>
  {
    set i | 0 <= i < |es| :: es[i].key
  }

  predicate DistinctKeys(es: seq<Entry>)
  {
    forall a, b :: 0 <= a < b < |es| ==> es[a].key != es[b].key
  }

  /** What `map[key] = val` does to a map: `map.find(key)` then finds
      `val`, every other key still finds what it found, the key set gains
      just `key`, a map with distinct keys keeps them distinct, and the map
      grows by one entry exactly when the key is new. */
  ghost predicate AssignFacts(es: seq<Entry>, key: Value, val: Value)
  {
    var r := Assign(es, key, val);
    Lookup(r, key) == Some(val) &&
    (forall other :: other != key ==> Lookup(r, other) == Lookup(es, other)) &&
    Keys(r) == Keys(es) + {key} &&
    (DistinctKeys(es) ==> DistinctKeys(r)) &&
    |r| == if key in Keys(es) then |es| else |es| + 1
  }

  lemma {:induction false} AssignLookup(es: seq<Entry>, key: Value, val: Value)
    ensures Lookup(Assign(es, key, val), key) == Some(val)
    ensures forall other :: other != key ==> Lookup(Assign(es, key, val), other) == Lookup(es, other)
    ensures Keys(Assign(es, key, val)) == Keys(es) + {key}
    ensures DistinctKeys(es) ==> DistinctKeys(Assign(es, key, val))
    ensures |Assign(es, key, val)| == if key in Keys(es) then |es| else |es| + 1
    decreases |es|
  {
    if es == [] {
    } else if es[0].key == key {
      AssignHit(es, key, val);
    } else {
      AssignLookup(es[1..], key, val);
      AssignMiss(es, key, val);
    }
  }

  /** The first entry has the key: it is overwritten in place. */
  lemma AssignHit(es: seq<Entry>, key: Value, val: Value)
    requires es != [] && es[0].key == key
    ensures AssignFacts(es, key, val)
  {
    var rest := es[1..];
    assert es == [es[0]] + rest;
    KeysCons(es[0], rest);
    DistinctCons(es[0], rest);
    KeysCons(Entry(key, val), rest);
    DistinctCons(Entry(key, val), rest);
  }

  /** The first entry has another key: the assignment happens in the rest. */
  lemma AssignMiss(es: seq<Entry>, key: Value, val: Value)
    requires es != [] && es[0].key != key && AssignFacts(es[1..], key, val)
    ensures AssignFacts(es, key, val)
  {
    var rest := es[1..];
    var tail := Assign(rest, key, val);
    assert es == [es[0]] + rest;
    assert Assign(es, key, val) == [es[0]] + tail;
    KeysCons(es[0], rest);
    KeysCons(es[0], tail);
    DistinctCons(es[0], rest);
    DistinctCons(es[0], tail);
    ConsLookup(es[0], tail, key);
    forall other | other != key
      ensures Lookup([es[0]] + tail, other) == Lookup(es, other)
    {
      ConsLookup(es[0], tail, other);
      ConsLookup(es[0], rest, other);
    }
  }

  /** `find` on a map with one entry in front. */
  lemma ConsLookup(e: Entry, rest: seq<Entry>, x: Value)
    ensures Lookup([e] + rest, x) == if e.key == x then Some(e.val) else Lookup(rest, x)
  {
    assert ([e] + rest)[0] == e && ([e] + rest)[1..] == rest;
  }

  lemma KeysCons(e: Entry, rest: seq<Entry>)
    ensures Keys([e] + rest) == {e.key} + Keys(rest)
  {
    var r := [e] + rest;
    assert r[0].key == e.key;
    forall x | x in Keys(r) ensures x in {e.key} + Keys(rest) {
      var i :| 0 <= i < |r| && r[i].key == x;
      if i > 0 { assert rest[i - 1].key == x; }
    }
    forall x | x in Keys(rest) ensures x in Keys(r) {
      var i :| 0 <= i < |rest| && rest[i].key == x;
      assert r[i + 1].key == x;
    }
  }

  lemma DistinctCons(e: Entry, rest: seq<Entry>)
    ensures DistinctKeys([e] + rest) <==> e.key !in Keys(rest) && DistinctKeys(rest)
  {
    var r := [e] + rest;
    if DistinctKeys(r) {
      forall a, b | 0 <= a < b < |rest| ensures rest[a].key != rest[b].key {
        assert rest[a] == r[a + 1] && rest[b] == r[b + 1];
      }
      forall i | 0 <= i < |rest| ensures rest[i].key != e.key {
        assert r[0] == e && rest[i] == r[i + 1];
      }
    }
    if e.key !in Keys(rest) && DistinctKeys(rest) {
      forall a, b | 0 <= a < b < |r| ensures r[a].key != r[b].key {
        assert r[b] == rest[b - 1];
        assert rest[b - 1].key in Keys(rest);
        if a > 0 { assert r[a] == rest[a - 1]; }
      }
    }
  }

  // ---- error cases ----

  /** A null document loads as a null owning or weak pointer, and touches
      nothing. */
  lemma NullLoadsNull(reg: map<string, TypeInfo>, cur: Value, ctx: Ctx)
    ensures Load(reg, KBox, JNull, cur, ctx) == Ok(Loaded(VNullBox, ctx))
    ensures Load(reg, KPtr, JNull, cur, ctx) == Ok(Loaded(VNullPtr, ctx))
  {
  }

  /** An owning slot rejects a reference node, a weak slot rejects an owned
      node, and both reject any other meta tag. */
  lemma MetaMismatch(reg: map<string, TypeInfo>, j: Json, ctx: Ctx)
    requires StringAt(j, "meta").Some?
    ensures StringAt(j, "meta") == Some("ref") ==> LoadBox(reg, j, ctx) == Err(RefInOwningSlot)
    ensures StringAt(j, "meta") == Some("val") ==> LoadPtr(j, ctx) == Err(ValInWeakSlot)
    ensures StringAt(j, "meta") != Some("ref") && StringAt(j, "meta") != Some("val") ==>
      LoadBox(reg, j, ctx) == Err(UnrecognizedMeta(StringAt(j, "meta").value)) &&
      LoadPtr(j, ctx) == Err(UnrecognizedMeta(StringAt(j, "meta").value))
  {
  }

  /** A weak reference resolves exactly when its address has been recorded
      in this pass, to the instance recorded there; resolving records
      nothing. */
  lemma PtrResolution(j: Json, ctx: Ctx, addr: nat)
    requires j == JObj(map["meta" := JStr("ref"), "val" := JNum(addr)]) && addr < U64_BOUND
    ensures LoadPtr(j, ctx).Ok? <==> addr in ctx.addrs
    ensures addr in ctx.addrs ==> LoadPtr(j, ctx) == Ok(Loaded(VPtr(ctx.addrs[addr]), ctx))
    ensures addr !in ctx.addrs ==> LoadPtr(j, ctx) == Err(UnresolvedReference(addr))
  {
  }

  /** A document naming a type that is not registered fails with that name. */
  lemma UnknownTypeRejected(reg: map<string, TypeInfo>, name: string, addr: nat, fields: Json, ctx: Ctx)
    requires name !in reg
    ensures LoadBox(reg, JObj(map["meta" := JStr("val"), "addr" := JNum(addr),
                                  "val" := JObj(map["type" := JStr(name), "val" := fields])]), ctx)
            == Err(UnknownType(name))
  {
  }

  /** A component loaded by value must carry its static type's name. */
  lemma FixedTypeMismatch(reg: map<string, TypeInfo>, info: TypeInfo, name: string, fields: Json, o: Obj, ctx: Ctx)
    requires |o.vals| == |info.fields| && name != info.name
    ensures LoadFixed(reg, info, JObj(map["type" := JStr(name), "val" := fields]), o, ctx)
            == Err(TypeMismatch(info.name, name))
  {
  }

  // ---- scenarios ----

  /** Two pairs with one key: the map keeps the later value. */
  lemma DuplicateKeyLaterWins(reg: map<string, TypeInfo>, ctx: Ctx)
    ensures Load(reg, KMap(KInt, KStr),
                 JArr([JObj(map["key" := JNum(1), "val" := JStr("a")]),
                       JObj(map["key" := JNum(1), "val" := JStr("b")])]),
                 VMap([]), ctx)
            == Ok(Loaded(VMap([Entry(VInt(1), VStr("b"))]), ctx))
  {
    var p0 := JObj(map["key" := JNum(1), "val" := JStr("a")]);
    var p1 := JObj(map["key" := JNum(1), "val" := JStr("b")]);
    var j := JArr([p0, p1]);
    assert Load(reg, KInt, JNum(1), DefaultOf(KInt), ctx) == Ok(Loaded(VInt(1), ctx));
    assert Load(reg, KStr, JStr("a"), DefaultOf(KStr), ctx) == Ok(Loaded(VStr("a"), ctx));
    assert Load(reg, KStr, JStr("b"), DefaultOf(KStr), ctx) == Ok(Loaded(VStr("b"), ctx));
    assert Assign([], VInt(1), VStr("a")) == [Entry(VInt(1), VStr("a"))];
    assert Assign([Entry(VInt(1), VStr("a"))], VInt(1), VStr("b")) == [Entry(VInt(1), VStr("b"))];
    assert LoadEntries(reg, KInt, KStr, j, 2, [Entry(VInt(1), VStr("b"))], ctx)
        == Ok(Loaded(VMap([Entry(VInt(1), VStr("b"))]), ctx));
    assert j.items[1] == p1 && p1.fields["key"] == JNum(1) && p1.fields["val"] == JStr("b");
    assert LoadEntries(reg, KInt, KStr, j, 1, [Entry(VInt(1), VStr("a"))], ctx)
        == LoadEntries(reg, KInt, KStr, j, 2, [Entry(VInt(1), VStr("b"))], ctx);
    assert j.items[0] == p0 && p0.fields["key"] == JNum(1) && p0.fields["val"] == JStr("a");
    assert LoadEntries(reg, KInt, KStr, j, 0, [], ctx)
        == LoadEntries(reg, KInt, KStr, j, 1, [Entry(VInt(1), VStr("a"))], ctx);
  }

  /** An object holding a weak pointer to itself loads: its address is
      recorded before its fields are read. */
  lemma SelfReferenceResolves(ctx: Ctx)
    ensures var node := TypeInfo(0, "Node", [FieldDecl("self", KPtr, VNullPtr)]);
      Load(map["Node" := node], KBox,
           Saving.OwnedNode(7, Saving.TypedNode("Node", JObj(map["self" := Saving.RefNode(7)]))),
           VNullBox, ctx)
      == Ok(Loaded(VBox(ctx.next, Obj(node, [VPtr(ctx.next)])), Ctx(ctx.addrs[7 := ctx.next], ctx.next + 1)))
  {
    var node := TypeInfo(0, "Node", [FieldDecl("self", KPtr, VNullPtr)]);
    var fs := JObj(map["self" := Saving.RefNode(7)]);
    var val := Saving.TypedNode("Node", fs);
    var j := Saving.OwnedNode(7, val);
    var ctx1 := Ctx(ctx.addrs[7 := ctx.next], ctx.next + 1);
    assert StringAt(val, "type") == Some("Node");
    OwnedNodeLoads(map["Node" := node], 7, val, ctx);
    SelfFieldResolves(ctx1, ctx.next);
  }

  /** A well-formed owned node of a registered type constructs the next
      instance, records its address, and then loads the type's fields into
      a default instance. */
  lemma OwnedNodeLoads(reg: map<string, TypeInfo>, addr: nat, val: Json, ctx: Ctx)
    requires addr < U64_BOUND
    requires StringAt(val, "type").Some? && StringAt(val, "type").value in reg
    ensures var info := reg[StringAt(val, "type").value];
      var ctx1 := Ctx(ctx.addrs[addr := ctx.next], ctx.next + 1);
      LoadBox(reg, Saving.OwnedNode(addr, val), ctx)
      == match LoadFixed(reg, info, val, DefaultObj(info), ctx1)
         case Err(e) => Err(e)
         case Ok(r) => Ok(Loaded(VBox(ctx.next, r.obj), r.ctx))
  {
    var j := Saving.OwnedNode(addr, val);
    assert Meta(j) == Some("val") && j.fields["val"] == val;
    assert At(j, "addr") == Some(JNum(addr)) && GetU64(JNum(addr)) == Some(addr);
  }

  /** The body of the self-referencing box: its one weak field resolves to
      the instance recorded under address 7. */
  lemma SelfFieldResolves(ctx1: Ctx, n: Id)
    requires 7 in ctx1.addrs && ctx1.addrs[7] == n
    ensures var node := TypeInfo(0, "Node", [FieldDecl("self", KPtr, VNullPtr)]);
      LoadFixed(map["Node" := node], node, Saving.TypedNode("Node", JObj(map["self" := Saving.RefNode(7)])),
                DefaultObj(node), ctx1)
      == Ok(LoadedObj(Obj(node, [VPtr(n)]), ctx1))
  {
    var node := TypeInfo(0, "Node", [FieldDecl("self", KPtr, VNullPtr)]);
    var reg := map["Node" := node];
    var fs := JObj(map["self" := Saving.RefNode(7)]);
    var val := Saving.TypedNode("Node", fs);
    assert StringAt(val, "type") == Some("Node") && val.fields["val"] == fs;
    assert DefaultObj(node).vals == [VNullPtr];
    assert Meta(Saving.RefNode(7)) == Some("ref");
    assert LoadPtr(Saving.RefNode(7), ctx1) == Ok(Loaded(VPtr(n), ctx1));
    assert Contains(fs, "self") && fs.fields["self"] == Saving.RefNode(7);
    assert LoadFields(reg, node.fields, fs, 1, [VPtr(n)], ctx1) == Ok(([VPtr(n)], ctx1));
    assert node.fields[0].name == "self" && node.fields[0].kind == KPtr;
    assert Load(reg, KPtr, fs.fields["self"], VNullPtr, ctx1) == Ok(Loaded(VPtr(n), ctx1));
    assert [VNullPtr][0 := VPtr(n)] == [VPtr(n)];
    assert LoadFields(reg, node.fields, fs, 0, [VNullPtr], ctx1) == Ok(([VPtr(n)], ctx1));
  }

  /** Fields load in declaration order, so a weak pointer declared before
      the box owning its target cannot be resolved. */
  lemma ForwardReferenceFails(ctx: Ctx)
    requires 5 !in ctx.addrs
    ensures var leaf := TypeInfo(1, "Leaf", []);
      var pair := TypeInfo(2, "Pair", [FieldDecl("weak", KPtr, VNullPtr), FieldDecl("strong", KBox, VNullBox)]);
      Load(map["Leaf" := leaf, "Pair" := pair], KFixed(pair),
           Saving.TypedNode("Pair", JObj(map["weak" := Saving.RefNode(5),
                                             "strong" := Saving.OwnedNode(5, Saving.TypedNode("Leaf", JNull))])),
           VInline(DefaultObj(pair)), ctx)
      == Err(UnresolvedReference(5))
  {
    var leaf := TypeInfo(1, "Leaf", []);
    var pair := TypeInfo(2, "Pair", [FieldDecl("weak", KPtr, VNullPtr), FieldDecl("strong", KBox, VNullBox)]);
    var reg := map["Leaf" := leaf, "Pair" := pair];
    var fs := JObj(map["weak" := Saving.RefNode(5),
                       "strong" := Saving.OwnedNode(5, Saving.TypedNode("Leaf", JNull))]);
    assert LoadPtr(Saving.RefNode(5), ctx) == Err(UnresolvedReference(5));
    assert Contains(fs, "weak") && fs.fields["weak"] == Saving.RefNode(5);
    assert LoadFields(reg, pair.fields, fs, 0, DefaultObj(pair).vals, ctx) == Err(UnresolvedReference(5));
    assert StringAt(Saving.TypedNode("Pair", fs), "type") == Some("Pair");
  }
}
