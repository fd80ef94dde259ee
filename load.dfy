/** What loading a document into a slot produces, and what it does to the
    input pass's shared address map (reflection.h, the `load` overloads and
    InStreamVisitor).

    `Load(reg, k, j, cur, ctx)` is the specification of `load(slot, stream)`
    where the slot has static type `k` and currently holds `cur`, the stream
    views `j`, the registry maps names to types as `reg` does, and the pass has
    so far recorded the addresses in `ctx.addrs`. `ctx.next` is the identity
    the next constructed instance receives, standing in for the allocator. */
module Loading {
  import opened Wrappers
  import opened Json
  import opened Schema

  /** InObjectStream::State (address -> instance), plus the allocator. */
  datatype Ctx = Ctx(addrs: map<nat, Id>, next: Id)

  datatype Loaded = Loaded(val: Value, ctx: Ctx)

  datatype LoadedObj = LoadedObj(obj: Obj, ctx: Ctx)

  /** `data.at("meta").get<std::string>()`: present exactly on an object
      whose "meta" member is a string. */
  function Meta(j: Json): (r: Option<string>)
    ensures r.Some? <==> (j.JObj? && "meta" in j.fields && j.fields["meta"].JStr?)
    ensures r.Some? ==> r.value == j.fields["meta"].s
  {
    StringAt(j, "meta")
  }

  /** The outermost constructor a value of static type `k` has. */
  predicate OfKind(v: Value, k: Kind)
  {
    match k
    case KBool => v.VBool?
    case KInt => v.VInt?
    case KStr => v.VStr?
    case KBox => v.VNullBox? || v.VBox?
    case KPtr => v.VNullPtr? || v.VPtr?
    case KFixed(info) => v.VInline? && v.obj.info == info
    case KVec(_) => v.VVec?
    case KMap(_, _) => v.VMap?
  }

  /** `load(slot, stream)`: a successful load leaves a value of the slot's
      static type. */
  function Load(reg: map<string, TypeInfo>, k: Kind, j: Json, cur: Value, ctx: Ctx): (r: Result<Loaded, Error>)
    ensures r.Ok? ==> OfKind(r.value.val, k)
    decreases j, Size(j) + 2
  {
    match k
    case KBool =>
      (match GetBool(j)
       case Some(b) => Ok(Loaded(VBool(b), ctx))
       case None => Err(Malformed))
    case KInt =>
      (match GetInt(j)
       case Some(n) => Ok(Loaded(VInt(n), ctx))
       case None => Err(Malformed))
    case KStr =>
      (match GetString(j)
       case Some(s) => Ok(Loaded(VStr(s), ctx))
       case None => Err(Malformed))
    case KBox => LoadBox(reg, j, ctx)
    case KPtr => LoadPtr(j, ctx)
    case KFixed(info) =>
      // Static typing makes `cur` an instance of `info`; the fallback is never taken.
      var base := if cur.VInline? && cur.obj.info == info && |cur.obj.vals| == |info.fields|
                  then cur.obj else DefaultObj(info);
      (match LoadFixed(reg, info, j, base, ctx)
       case Err(e) => Err(e)
       case Ok(r) => Ok(Loaded(VInline(r.obj), r.ctx)))
    case KVec(e) => LoadItems(reg, e, j, 0, if cur.VVec? then cur.items else [], ctx)
    case KMap(kk, vk) => LoadEntries(reg, kk, vk, j, 0, if cur.VMap? then cur.entries else [], ctx)
  }

  /** `load(Box<T>&, stream)`. */
  function LoadBox(reg: map<string, TypeInfo>, j: Json, ctx: Ctx): (r: Result<Loaded, Error>)
    ensures r.Ok? ==> (r.value.val.VNullBox? || r.value.val.VBox?)
    decreases j, 0
  {
    if j.JNull? then Ok(Loaded(VNullBox, ctx))
    else
      match Meta(j)
      case None => Err(Malformed)
      case Some(meta) =>
        if meta == "ref" then Err(RefInOwningSlot)
        else if meta != "val" then Err(UnrecognizedMeta(meta))
        else if "val" !in j.fields then Err(Malformed)
        else
          var val := j.fields["val"];
          match StringAt(val, "type")
          case None => Err(Malformed)
          case Some(name) =>
            if name !in reg then Err(UnknownType(name))
            else
              var info := reg[name];
              match At(j, "addr")
              case None => Err(Malformed)
              case Some(a) =>
                match GetU64(a)
                case None => Err(Malformed)
                case Some(addr) =>
                  // construct, record addr -> instance, then load the fields
                  var id := ctx.next;
                  var ctx1 := Ctx(ctx.addrs[addr := id], ctx.next + 1);
                  match LoadFixed(reg, info, val, DefaultObj(info), ctx1)
                  case Err(e) => Err(e)
                  case Ok(r) => Ok(Loaded(VBox(id, r.obj), r.ctx))
  }

  /** `load(T*&, stream)`. */
  function LoadPtr(j: Json, ctx: Ctx): (r: Result<Loaded, Error>)
    ensures r.Ok? ==> r.value.ctx == ctx
    ensures r.Ok? ==> r.value.val.VNullPtr? || (r.value.val.VPtr? && r.value.val.target in ctx.addrs.Values)
  {
    if j.JNull? then Ok(Loaded(VNullPtr, ctx))
    else
      match Meta(j)
      case None => Err(Malformed)
      case Some(meta) =>
        if meta == "ref" then
          (match At(j, "val")
           case None => Err(Malformed)
           case Some(a) =>
             match GetU64(a)
             case None => Err(Malformed)
             case Some(addr) =>
               if addr in ctx.addrs then Ok(Loaded(VPtr(ctx.addrs[addr]), ctx))
               else Err(UnresolvedReference(addr)))
        else if meta == "val" then Err(ValInWeakSlot)
        else Err(UnrecognizedMeta(meta))
  }

  /** `load(T&, stream)` for the type `info`, into the instance `o`. */
  function LoadFixed(reg: map<string, TypeInfo>, info: TypeInfo, j: Json, o: Obj, ctx: Ctx): (r: Result<LoadedObj, Error>)
    requires |o.vals| == |info.fields|
    ensures r.Ok? ==> r.value.obj.info == o.info && |r.value.obj.vals| == |o.vals|
    decreases j, 0
  {
    match StringAt(j, "type")
    case None => Err(Malformed)
    case Some(name) =>
      if name != info.name then Err(TypeMismatch(info.name, name))
      else if "val" !in j.fields then Err(Malformed)
      else
        match LoadFields(reg, info.fields, j.fields["val"], 0, o.vals, ctx)
        case Err(e) => Err(e)
        case Ok(r) => Ok(LoadedObj(Obj(o.info, r.0), r.1))
  }

  /** InStreamVisitor from field `i` on: a field is loaded in place when its
      name is present, and left as it is otherwise. */
  function LoadFields(reg: map<string, TypeInfo>, fields: seq<FieldDecl>, s: Json, i: nat,
                      vals: seq<Value>, ctx: Ctx): (r: Result<(seq<Value>, Ctx), Error>)
    requires |vals| == |fields| && i <= |fields|
    ensures r.Ok? ==> |r.value.0| == |vals|
    decreases s, |fields| - i
  {
    if i == |fields| then Ok((vals, ctx))
    else if !Contains(s, fields[i].name) then LoadFields(reg, fields, s, i + 1, vals, ctx)
    else
      match Load(reg, fields[i].kind, s.fields[fields[i].name], vals[i], ctx)
      case Err(e) => Err(e)
      case Ok(r) => LoadFields(reg, fields, s, i + 1, vals[i := r.val], r.ctx)
  }

  /** `load(std::vector<T>&, stream)` from index `i` on: each element is loaded
      into a fresh `T` and appended to what the vector already holds. */
  function LoadItems(reg: map<string, TypeInfo>, e: Kind, j: Json, i: nat, acc: seq<Value>, ctx: Ctx): (r: Result<Loaded, Error>)
    ensures r.Ok? ==> r.value.val.VVec?
    decreases j, Size(j) - i
  {
    if i >= Size(j) then Ok(Loaded(VVec(acc), ctx))
    else if !j.JArr? then Err(Malformed)
    else
      match Load(reg, e, j.items[i], DefaultOf(e), ctx)
      case Err(err) => Err(err)
      case Ok(r) => LoadItems(reg, e, j, i + 1, acc + [r.val], r.ctx)
  }

  /** `map[key] = val`: overwrite the entry with that key where it is, or add
      one at the end. */
  function Assign(es: seq<Entry>, key: Value, val: Value): (r: seq<Entry>)
    ensures |es| <= |r| <= |es| + 1
  {
    if es == [] then [Entry(key, val)]
    else if es[0].key == key then [Entry(key, val)] + es[1..]
    else [es[0]] + Assign(es[1..], key, val)
  }

  /** `map.find(key)`. */
  function Lookup(es: seq<Entry>, key: Value): Option<Value>
  {
    if es == [] then None
    else if es[0].key == key then Some(es[0].val)
    else Lookup(es[1..], key)
  }

  /** `load(std::map<K, V>&, stream)` and the unordered_map overload, from
      index `i` on: each `{"key","val"}` pair is loaded into fresh temporaries,
      key first, and assigned into the map. */
  function LoadEntries(reg: map<string, TypeInfo>, kk: Kind, vk: Kind, j: Json, i: nat,
                       acc: seq<Entry>, ctx: Ctx): (r: Result<Loaded, Error>)
    ensures r.Ok? ==> r.value.val.VMap?
    decreases j, Size(j) - i
  {
    if i >= Size(j) then Ok(Loaded(VMap(acc), ctx))
    else if !j.JArr? then Err(Malformed)
    else
      var pair := j.items[i];
      if !Contains(pair, "key") then Err(Malformed)
      else
        match Load(reg, kk, pair.fields["key"], DefaultOf(kk), ctx)
        case Err(err) => Err(err)
        case Ok(k) =>
          if !Contains(pair, "val") then Err(Malformed)
          else
            match Load(reg, vk, pair.fields["val"], DefaultOf(vk), k.ctx)
            case Err(err) => Err(err)
            case Ok(v) => LoadEntries(reg, kk, vk, j, i + 1, Assign(acc, k.val, v.val), v.ctx)
  }
}
