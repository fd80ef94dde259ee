/** OutObjectStream and the save overloads as imperative code: a stream owns
    a JSON document it writes into, and all sub-streams of one pass share a
    single `State` object holding the visited set. Every method is proved to
    do what the specification in module Saving says. */
module OutStream {
  import opened Wrappers
  import opened Json
  import opened Schema
  import opened Saving

  /** OutObjectStream::State: the owned objects written so far in this pass. */
  class OutState {
    var visited: set<Id>

    constructor()
      ensures visited == {}
    {
      visited := {};
    }
  }

  class OutObjectStream {
    var data: Json
    const state: OutState

    /** A root stream: empty document, its own fresh state. */
    constructor()
      ensures data == JNull && fresh(state) && state.visited == {}
    {
      data := JNull;
      state := new OutState();
    }

    /** The stream `sub()` creates: empty, sharing the state `st`. */
    constructor Sharing(st: OutState)
      ensures data == JNull && state == st
    {
      data := JNull;
      state := st;
    }

    /** `sub()`: an empty stream sharing this stream's state. */
    method Sub() returns (s: OutObjectStream)
      ensures fresh(s) && s.data == JNull && s.state == state
    {
      s := new OutObjectStream.Sharing(state);
    }

    /** `write(key, x)` for every keyed overload; throws unless the document
        is null or an object. */
    method Write(key: string, j: Json) returns (ok: bool)
      modifies this
      ensures ok == (old(data).JNull? || old(data).JObj?)
      ensures data == if ok then Put(old(data), key, j).value else old(data)
    {
      var r := Put(data, key, j);
      ok := r.Some?;
      if ok {
        data := r.value;
      }
    }

    /** `write(value)` and `write(nullptr)`: replace the whole document. */
    method WriteValue(j: Json)
      modifies this
      ensures data == j
    {
      data := j;
    }

    /** `append(stream)` / `append(nullptr)`: throws unless the document is
        null or an array. */
    method Append(j: Json) returns (ok: bool)
      modifies this
      ensures ok == (old(data).JNull? || old(data).JArr?)
      ensures data == if ok then PushBack(old(data), j).value else old(data)
    {
      var r := PushBack(data, j);
      ok := r.Some?;
      if ok {
        data := r.value;
      }
    }

    /** `hasSerialized(p)`: whether the pass has already written `p`. */
    predicate HasSerialized(id: Id): (r: bool)
      reads state
      ensures r <==> id in state.visited
    {
      id in state.visited
    }

    /** `addSerialized(p)`: marks `p` as written for the rest of the pass. */
    method AddSerialized(id: Id)
      modifies state
      ensures state.visited == old(state.visited) + {id}
      ensures HasSerialized(id)
    {
      state.visited := state.visited + {id};
    }

    /** `toJson()`: the document written so far. */
    function ToJson(): (r: Json)
      reads this
      ensures r == data
    {
      data
    }
  }

  /** A save call ended as its specification says: on success the stream holds
      the specified document and the shared set the specified visited set; on
      failure the same exception was raised. */
  predicate SavedAs(spec: Result<Saved, Error>, data: Json, visited: set<Id>, err: Option<Error>)
  {
    match spec
    case Ok(r) => err == None && data == r.doc && visited == r.visited
    case Err(e) => err == Some(e)
  }

  /** `save(v, stream)` into a fresh sub-stream, dispatched on the value's shape. */
  method SaveValue(v: Value, s: OutObjectStream) returns (err: Option<Error>)
    requires Shaped(v) && s.data == JNull
    modifies s, s.state
    ensures SavedAs(Save(v, old(s.state.visited)), s.data, s.state.visited, err)
    decreases v, ChildCount(v) + 1
  {
    match v
    case VBool(b) => s.WriteValue(JBool(b)); err := None;
    case VInt(i) => s.WriteValue(JNum(i)); err := None;
    case VStr(x) => s.WriteValue(JStr(x)); err := None;
    case VNullBox => s.WriteValue(JNull); err := None;
    case VBox(id, o) => err := SaveBox(id, o, s);
    case VNullPtr => s.WriteValue(JNull); err := None;
    case VPtr(t) => SavePtr(t, s); err := None;
    case VInline(o) => err := SaveComponent(o, s);
    case VVec(_) => err := SaveVector(v, s);
    case VMap(_) => err := SaveMap(v, s);
  }

  /** `save(const T*, stream)` for a non-null pointer: never consults or changes
      the visited set. */
  method SavePtr(t: Id, s: OutObjectStream)
    requires s.data == JNull
    modifies s
    ensures s.data == RefNode(t)
  {
    var _ := s.Write("meta", JStr("ref"));
    var _ := s.Write("val", JNum(t));
  }

  /** `save(const Box<T>&, stream)` for a non-null box. */
  method SaveBox(id: Id, o: Obj, s: OutObjectStream) returns (err: Option<Error>)
    requires ShapedObj(o) && s.data == JNull
    modifies s, s.state
    ensures SavedAs(Save(VBox(id, o), old(s.state.visited)), s.data, s.state.visited, err)
    decreases o, |o.vals| + 2
  {
    if s.HasSerialized(id) {
      return Some(MultipleStrongReference(id));
    }
    var sub := s.Sub();
    err := SaveComponent(o, sub);
    if err.Some? {
      return;
    }
    var _ := s.Write("meta", JStr("val"));
    var _ := s.Write("addr", JNum(id));
    var _ := s.Write("val", sub.data);
    s.AddSerialized(id);
  }

  /** `save(const T&, stream)`, reached directly or through the saver closure
      of the pointee's TypeInfo. */
  method SaveComponent(o: Obj, s: OutObjectStream) returns (err: Option<Error>)
    requires ShapedObj(o) && s.data == JNull
    modifies s, s.state
    ensures SavedAs(SaveObj(o, old(s.state.visited)), s.data, s.state.visited, err)
    decreases o, |o.vals| + 1
  {
    var sub := s.Sub();
    err := VisitFields(o, sub);
    if err.Some? {
      return;
    }
    var _ := s.Write("type", JStr(o.info.name));
    var _ := s.Write("val", sub.data);
  }

  /** OutStreamVisitor over the declared fields: each field is saved into its
      own sub-stream and written under its name. */
  method VisitFields(o: Obj, s: OutObjectStream) returns (err: Option<Error>)
    requires ShapedObj(o) && s.data == JNull
    modifies s, s.state
    ensures SavedAs(SaveFields(o, 0, old(s.state.visited), map[]), s.data, s.state.visited, err)
    decreases o, |o.vals|
  {
    ghost var acc: map<string, Json> := map[];
    var i := 0;
    while i < |o.vals|
      invariant 0 <= i <= |o.vals|
      invariant s.data == ObjectDoc(acc)
      invariant SaveFields(o, 0, old(s.state.visited), map[]) == SaveFields(o, i, s.state.visited, acc)
    {
      var sub := s.Sub();
      var e := SaveValue(o.vals[i], sub);
      if e.Some? {
        return e;
      }
      var _ := s.Write(o.info.fields[i].name, sub.data);
      acc := acc[o.info.fields[i].name := sub.data];
      i := i + 1;
    }
    err := None;
  }

  /** `save(const std::vector<T>&, stream)`: one appended element per item. */
  method SaveVector(v: Value, s: OutObjectStream) returns (err: Option<Error>)
    requires v.VVec? && Shaped(v) && s.data == JNull
    modifies s, s.state
    ensures SavedAs(SaveItems(v, 0, old(s.state.visited), []), s.data, s.state.visited, err)
    decreases v, ChildCount(v)
  {
    ghost var acc: seq<Json> := [];
    var i := 0;
    while i < |v.items|
      invariant 0 <= i <= |v.items|
      invariant s.data == ArrayDoc(acc)
      invariant SaveItems(v, 0, old(s.state.visited), []) == SaveItems(v, i, s.state.visited, acc)
    {
      var sub := s.Sub();
      var e := SaveValue(v.items[i], sub);
      if e.Some? {
        return e;
      }
      var _ := s.Append(sub.data);
      acc := acc + [sub.data];
      i := i + 1;
    }
    err := None;
  }

  /** `save(const std::map<K, V>&, stream)` and the unordered_map overload:
      one `{"key":K,"val":V}` element per entry, in iteration order. */
  method SaveMap(v: Value, s: OutObjectStream) returns (err: Option<Error>)
    requires v.VMap? && Shaped(v) && s.data == JNull
    modifies s, s.state
    ensures SavedAs(SaveEntries(v, 0, old(s.state.visited), []), s.data, s.state.visited, err)
    decreases v, ChildCount(v)
  {
    ghost var acc: seq<Json> := [];
    var i := 0;
    while i < |v.entries|
      invariant 0 <= i <= |v.entries|
      invariant s.data == ArrayDoc(acc)
      invariant SaveEntries(v, 0, old(s.state.visited), []) == SaveEntries(v, i, s.state.visited, acc)
    {
      var pair := s.Sub();
      var key := pair.Sub();
      var val := pair.Sub();
      var e := SaveValue(v.entries[i].key, key);
      if e.Some? {
        return e;
      }
      e := SaveValue(v.entries[i].val, val);
      if e.Some? {
        return e;
      }
      var _ := pair.Write("key", key.data);
      var _ := pair.Write("val", val.data);
      var _ := s.Append(pair.data);
      acc := acc + [pair.data];
      i := i + 1;
    }
    err := None;
  }
}
