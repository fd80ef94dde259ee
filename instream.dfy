/** InObjectStream and the load overloads as imperative code: a stream views
    one JSON node, and all sub-streams of one pass share a single `State`
    object holding the address map. Every method is proved to do what the
    specification in module Loading says. */
module InStream {
  import opened Wrappers
  import opened Json
  import J = Json
  import opened Schema
  import opened Loading
  import opened Registry

  /** InObjectStream::State: address -> instance, plus the allocator that
      stands in for `info->ctor()` handing out new instances. */
  class LoadState {
    var addrs: map<nat, Id>
    var next: Id

    constructor(first: Id)
      ensures addrs == map[] && next == first
    {
      addrs := map[];
      next := first;
    }

    function Ctx(): Ctx
      reads this
    {
      Loading.Ctx(addrs, next)
    }

    /** A new instance: the next identity. */
    method Allocate() returns (id: Id)
      modifies this
      ensures id == old(next) && next == old(next) + 1 && addrs == old(addrs)
    {
      id := next;
      next := next + 1;
    }
  }

  class InObjectStream {
    const data: Json
    const state: LoadState

    /** `InObjectStream(data)`: a root stream with its own state. */
    constructor Root(data: Json, first: Id)
      ensures this.data == data && fresh(state) && state.addrs == map[] && state.next == first
    {
      this.data := data;
      state := new LoadState(first);
    }

    /** `InObjectStream(data, s)`: a stream sharing the state `s`. */
    constructor Sharing(data: Json, st: LoadState)
      ensures this.data == data && state == st
    {
      this.data := data;
      state := st;
    }

    /** `sub(key)`: the member `key`; `at` throws when there is none. */
    method SubKey(key: string) returns (r: Result<InObjectStream, Error>)
      ensures r.Ok? <==> J.Contains(data, key)
      ensures r.Ok? ==> fresh(r.value) && r.value.data == data.fields[key] && r.value.state == state
      ensures r.Err? ==> r.error == Malformed
    {
      var j := At(data, key);
      if j.None? {
        return Err(Malformed);
      }
      var s := new InObjectStream.Sharing(j.value, state);
      r := Ok(s);
    }

    /** `sub(index)`: the element `index`; `at` throws when there is none. */
    method SubIndex(i: nat) returns (r: Result<InObjectStream, Error>)
      ensures r.Ok? <==> (data.JArr? && i < |data.items|)
      ensures r.Ok? ==> fresh(r.value) && r.value.data == data.items[i] && r.value.state == state
      ensures r.Err? ==> r.error == Malformed
    {
      var j := AtIndex(data, i);
      if j.None? {
        return Err(Malformed);
      }
      var s := new InObjectStream.Sharing(j.value, state);
      r := Ok(s);
    }

    /** `contains(key)`: true exactly when `sub(key)` would not throw. */
    predicate Contains(key: string): (r: bool)
      ensures r <==> At(data, key).Some?
    {
      J.Contains(data, key)
    }

    /** `getJson()`: the viewed node. */
    function GetJson(): (r: Json)
      ensures r == data
    {
      data
    }

    /** `has(addr)`: whether the pass has recorded an instance at `addr`. */
    predicate Has(addr: nat): (r: bool)
      reads state
      ensures r <==> addr in state.addrs
    {
      addr in state.addrs
    }

    /** `fetchByAddr(addr)`: `at` throws for an unrecorded address. */
    method FetchByAddr(addr: nat) returns (r: Option<Id>)
      ensures r.Some? <==> addr in state.addrs
      ensures r.Some? <==> Has(addr)
      ensures r.Some? ==> r.value == state.addrs[addr]
    {
      if addr in state.addrs {
        r := Some(state.addrs[addr]);
      } else {
        r := None;
      }
    }

    /** `add(addr, v)`: records (or re-records) the instance at `addr`. */
    method Add(addr: nat, id: Id)
      modifies state
      ensures state.addrs == old(state.addrs)[addr := id] && state.next == old(state.next)
    {
      state.addrs := state.addrs[addr := id];
    }

    /** `size()`: the element count the vector and map loaders iterate to. */
    function Size(): (r: nat)
      ensures data.JNull? ==> r == 0
      ensures data.JArr? ==> r == |data.items|
      ensures data.JObj? ==> r == |data.fields|
      ensures !(data.JNull? || data.JArr? || data.JObj?) ==> r == 1
    {
      J.Size(data)
    }
  }

  /** A load call ended as its specification says: on success the slot holds
      the specified value and the shared state is the specified one; on
      failure the same exception was raised. */
  predicate LoadedAs(spec: Result<Loaded, Error>, r: Result<Value, Error>, ctx: Ctx)
  {
    match spec
    case Ok(l) => r == Ok(l.val) && ctx == l.ctx
    case Err(e) => r == Err(e)
  }

  predicate LoadedObjAs(spec: Result<LoadedObj, Error>, r: Result<Obj, Error>, ctx: Ctx)
  {
    match spec
    case Ok(l) => r == Ok(l.obj) && ctx == l.ctx
    case Err(e) => r == Err(e)
  }

  /** `load(slot, stream)` for a slot of static type `k` holding `cur`. */
  method LoadValue(types: Types, k: Kind, cur: Value, input: InObjectStream) returns (r: Result<Value, Error>)
    requires types.Valid()
    modifies input.state
    ensures LoadedAs(Load(types.byName, k, input.data, cur, old(input.state.Ctx())), r, input.state.Ctx())
    decreases input.data, 2
  {
    var data := input.GetJson();
    match k
    case KBool =>
      var b := GetBool(data);
      r := if b.Some? then Ok(VBool(b.value)) else Err(Malformed);
    case KInt =>
      var n := GetInt(data);
      r := if n.Some? then Ok(VInt(n.value)) else Err(Malformed);
    case KStr =>
      var x := GetString(data);
      r := if x.Some? then Ok(VStr(x.value)) else Err(Malformed);
    case KBox => r := LoadBoxFrom(types, input);
    case KPtr => r := LoadPtrFrom(input);
    case KFixed(info) =>
      var base := if cur.VInline? && cur.obj.info == info && |cur.obj.vals| == |info.fields|
                  then cur.obj else DefaultObj(info);
      var o := LoadComponent(types, info, base, input);
      r := if o.Ok? then Ok(VInline(o.value)) else Err(o.error);
    case KVec(e) => r := LoadVector(types, e, if cur.VVec? then cur.items else [], input);
    case KMap(kk, vk) => r := LoadMap(types, kk, vk, if cur.VMap? then cur.entries else [], input);
  }

  /** `load(Box<T>&, stream)`. */
  method LoadBoxFrom(types: Types, input: InObjectStream) returns (r: Result<Value, Error>)
    requires types.Valid()
    modifies input.state
    ensures LoadedAs(LoadBox(types.byName, input.data, old(input.state.Ctx())), r, input.state.Ctx())
    decreases input.data, 1
  {
    var data := input.GetJson();
    if data.JNull? {
      return Ok(VNullBox);
    }
    var meta := StringAt(data, "meta");
    if meta.None? {
      return Err(Malformed);
    }
    if meta.value == "ref" {
      return Err(RefInOwningSlot);
    } else if meta.value != "val" {
      return Err(UnrecognizedMeta(meta.value));
    }
    var val := input.SubKey("val");
    if val.Err? {
      return Err(val.error);
    }
    var name := StringAt(val.value.data, "type");
    if name.None? {
      return Err(Malformed);
    }
    var info := types.GetTypeByName(name.value);
    if info.Err? {
      return Err(info.error);
    }
    var addr := At(data, "addr");
    if addr.None? || GetU64(addr.value).None? {
      return Err(Malformed);
    }
    var a := GetU64(addr.value).value;
    // `info->ctor()`, then `stream.add(addr, value.get())`
    var id := input.state.Allocate();
    input.Add(a, id);
    assert input.state.Ctx() == Ctx(old(input.state.addrs)[a := id], id + 1);
    var sub := input.SubKey("val");
    var o := LoadComponent(types, info.value, DefaultObj(info.value), sub.value);
    match o
    case Err(e) => r := Err(e);
    case Ok(x) => r := Ok(VBox(id, x));
  }

  /** `load(T*&, stream)`: resolves a reference through the address map. */
  method LoadPtrFrom(input: InObjectStream) returns (r: Result<Value, Error>)
    ensures LoadedAs(LoadPtr(input.data, input.state.Ctx()), r, input.state.Ctx())
  {
    var data := input.GetJson();
    if data.JNull? {
      return Ok(VNullPtr);
    }
    var meta := StringAt(data, "meta");
    if meta.None? {
      return Err(Malformed);
    }
    if meta.value == "ref" {
      var val := At(data, "val");
      if val.None? || GetU64(val.value).None? {
        return Err(Malformed);
      }
      var a := GetU64(val.value).value;
      if input.Has(a) {
        var target := input.FetchByAddr(a);
        r := Ok(VPtr(target.value));
      } else {
        r := Err(UnresolvedReference(a));
      }
    } else if meta.value == "val" {
      r := Err(ValInWeakSlot);
    } else {
      r := Err(UnrecognizedMeta(meta.value));
    }
  }

  /** `load(T&, stream)` for the type `info`, through the loader closure. */
  method LoadComponent(types: Types, info: TypeInfo, o: Obj, input: InObjectStream) returns (r: Result<Obj, Error>)
    requires types.Valid() && |o.vals| == |info.fields|
    modifies input.state
    ensures LoadedObjAs(LoadFixed(types.byName, info, input.data, o, old(input.state.Ctx())), r, input.state.Ctx())
    decreases input.data, 1
  {
    var name := StringAt(input.GetJson(), "type");
    if name.None? {
      return Err(Malformed);
    }
    if name.value != info.name {
      return Err(TypeMismatch(info.name, name.value));
    }
    var s := input.SubKey("val");
    if s.Err? {
      return Err(s.error);
    }
    var vals := VisitFields(types, info.fields, o.vals, s.value);
    match vals
    case Err(e) => r := Err(e);
    case Ok(v) => r := Ok(Obj(o.info, v));
  }

  /** InStreamVisitor over the declared fields: a field present in the
      document is loaded in place, an absent one left alone. */
  method VisitFields(types: Types, fields: seq<FieldDecl>, vals: seq<Value>, input: InObjectStream)
    returns (r: Result<seq<Value>, Error>)
    requires types.Valid() && |vals| == |fields|
    modifies input.state
    ensures match LoadFields(types.byName, fields, input.data, 0, vals, old(input.state.Ctx()))
      case Ok(l) => r == Ok(l.0) && input.state.Ctx() == l.1
      case Err(e) => r == Err(e)
    decreases input.data, 0
  {
    var cur := vals;
    var i := 0;
    while i < |fields|
      invariant 0 <= i <= |fields| && |cur| == |fields|
      invariant LoadFields(types.byName, fields, input.data, 0, vals, old(input.state.Ctx()))
             == LoadFields(types.byName, fields, input.data, i, cur, input.state.Ctx())
    {
      if input.Contains(fields[i].name) {
        var sub := input.SubKey(fields[i].name);
        var x := LoadValue(types, fields[i].kind, cur[i], sub.value);
        if x.Err? {
          return Err(x.error);
        }
        cur := cur[i := x.value];
      }
      i := i + 1;
    }
    r := Ok(cur);
  }

  /** `load(std::vector<T>&, stream)`: each element is loaded into a fresh
      `T` and appended. */
  method LoadVector(types: Types, e: Kind, items: seq<Value>, input: InObjectStream) returns (r: Result<Value, Error>)
    requires types.Valid()
    modifies input.state
    ensures LoadedAs(LoadItems(types.byName, e, input.data, 0, items, old(input.state.Ctx())), r, input.state.Ctx())
    decreases input.data, 1
  {
    var acc := items;
    var i := 0;
    while i < input.Size()
      invariant 0 <= i <= input.Size()
      invariant LoadItems(types.byName, e, input.data, 0, items, old(input.state.Ctx()))
             == LoadItems(types.byName, e, input.data, i, acc, input.state.Ctx())
    {
      var sub := input.SubIndex(i);
      if sub.Err? {
        return Err(sub.error);
      }
      var x := LoadValue(types, e, DefaultOf(e), sub.value);
      if x.Err? {
        return Err(x.error);
      }
      acc := acc + [x.value];
      i := i + 1;
    }
    r := Ok(VVec(acc));
  }

  /** `load(std::map<K, V>&, stream)` and the unordered_map overload: each
      pair is loaded into fresh temporaries, key first, then assigned. */
  method LoadMap(types: Types, kk: Kind, vk: Kind, entries: seq<Entry>, input: InObjectStream)
    returns (r: Result<Value, Error>)
    requires types.Valid()
    modifies input.state
    ensures LoadedAs(LoadEntries(types.byName, kk, vk, input.data, 0, entries, old(input.state.Ctx())),
                     r, input.state.Ctx())
    decreases input.data, 1
  {
    var acc := entries;
    var i := 0;
    while i < input.Size()
      invariant 0 <= i <= input.Size()
      invariant LoadEntries(types.byName, kk, vk, input.data, 0, entries, old(input.state.Ctx()))
             == LoadEntries(types.byName, kk, vk, input.data, i, acc, input.state.Ctx())
    {
      ghost var c0 := input.state.Ctx();
      var pair := input.SubIndex(i);
      if pair.Err? {
        return Err(pair.error);
      }
      var keyIn := pair.value.SubKey("key");
      if keyIn.Err? {
        return Err(keyIn.error);
      }
      var key := LoadValue(types, kk, DefaultOf(kk), keyIn.value);
      if key.Err? {
        return Err(key.error);
      }
      var valIn := pair.value.SubKey("val");
      if valIn.Err? {
        return Err(valIn.error);
      }
      ghost var c1 := input.state.Ctx();
      var val := LoadValue(types, vk, DefaultOf(vk), valIn.value);
      if val.Err? {
        return Err(val.error);
      }
      EntryLoadStep(types.byName, kk, vk, input.data, i, acc, c0, key.value, c1, val.value, input.state.Ctx());
      acc := Assign(acc, key.value, val.value);
      i := i + 1;
    }
    r := Ok(VMap(acc));
  }

  /** One pair of the map loader: with both halves loaded, the loader
      continues at the next pair with the assignment made. */
  lemma EntryLoadStep(reg: map<string, TypeInfo>, kk: Kind, vk: Kind, j: Json, i: nat, acc: seq<Entry>,
                      c0: Ctx, key: Value, c1: Ctx, val: Value, c2: Ctx)
    requires j.JArr? && i < |j.items| && J.Contains(j.items[i], "key") && J.Contains(j.items[i], "val")
    requires Load(reg, kk, j.items[i].fields["key"], DefaultOf(kk), c0) == Ok(Loaded(key, c1))
    requires Load(reg, vk, j.items[i].fields["val"], DefaultOf(vk), c1) == Ok(Loaded(val, c2))
    ensures LoadEntries(reg, kk, vk, j, i, acc, c0) == LoadEntries(reg, kk, vk, j, i + 1, Assign(acc, key, val), c2)
  {
  }
}
