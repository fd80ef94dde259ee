/** Dispatch on a component's dynamic type (reflection.h): `typeof`,
    ComponentVisitor and the `match(x).with<U>(f)...` chain. A callback is
    named by a number; what it does is outside the model, which records only
    which one runs. */
module Dispatch {
  import opened Wrappers
  import opened Schema

  type Callback = nat

  /** `typeof(Component*)`: null for a null pointer, else the dynamic type. */
  function TypeOf(c: Option<Obj>): (r: Option<TypeInfo>)
    ensures r.None? <==> c.None?
    ensures r.Some? ==> r.value == c.value.info
  {
    match c
    case None => None
    case Some(o) => Some(o.info)
  }

  /** ComponentVisitor: one callback per registered dynamic type. */
  class ComponentVisitor {
    var handlers: map<TypeInfo, Callback>

    constructor()
      ensures handlers == map[]
    {
      handlers := map[];
    }

    /** `visit(const std::function<void(T*)>&)`: installs, or replaces, the
        callback for `T`. */
    method On(t: TypeInfo, f: Callback)
      modifies this
      ensures handlers == old(handlers)[t := f]
    {
      handlers := handlers[t := f];
    }

    /** `visit(Component*)` and `visit(Box<T>&)`: nothing for null; the
        callback of the dynamic type otherwise, and `at` throws when there
        is none. */
    method Visit(c: Option<Obj>) returns (r: Result<Option<Callback>, Error>)
      ensures c.None? ==> r == Ok(None)
      ensures c.Some? && c.value.info in handlers ==> r == Ok(Some(handlers[c.value.info]))
      ensures c.Some? && c.value.info !in handlers ==> r == Err(NoHandler(c.value.info.name))
    {
      match TypeOf(c)
      case None => r := Ok(None);
      case Some(t) =>
        if t in handlers {
          r := Ok(Some(handlers[t]));
        } else {
          r := Err(NoHandler(t.name));
        }
    }
  }

  /** One `with<U>(f)` arm. */
  datatype Arm = Arm(u: TypeInfo, f: Callback)

  /** The callback a chain of arms runs on `c`, given what has run so far. */
  function RunArms(c: Option<Obj>, arms: seq<Arm>, fired: Option<Callback>): Option<Callback>
    decreases |arms|
  {
    if arms == [] then fired
    else if fired.None? && c.Some? && arms[0].u == c.value.info then RunArms(c, arms[1..], Some(arms[0].f))
    else RunArms(c, arms[1..], fired)
  }

  /** An unmatched chain runs the first arm naming the dynamic type, and
      no arm at all exactly when none names it or the value is null. */
  lemma {:induction false} RunArmsFirst(c: Option<Obj>, arms: seq<Arm>)
    ensures RunArms(c, arms, None).Some? <==>
      c.Some? && exists i :: 0 <= i < |arms| && arms[i].u == c.value.info
    ensures forall i :: (0 <= i < |arms| && c.Some? && arms[i].u == c.value.info &&
                         (forall k :: 0 <= k < i ==> arms[k].u != c.value.info))
                        ==> RunArms(c, arms, None) == Some(arms[i].f)
    decreases |arms|
  {
    if arms != [] {
      if c.Some? && arms[0].u == c.value.info {
        RunArmsDone(c, arms[1..], arms[0].f);
      } else {
        RunArmsFirst(c, arms[1..]);
        if c.Some? {
          forall i | 0 <= i < |arms[1..]| && arms[1..][i].u == c.value.info
            ensures arms[i + 1].u == c.value.info { }
          forall i | 1 <= i < |arms| && arms[i].u == c.value.info
            ensures arms[1..][i - 1].u == c.value.info { }
        }
      }
    }
  }

  /** Once an arm has run, the rest of the chain does nothing. */
  lemma {:induction false} RunArmsDone(c: Option<Obj>, arms: seq<Arm>, f: Callback)
    ensures RunArms(c, arms, Some(f)) == Some(f)
    decreases |arms|
  {
    if arms != [] {
      RunArmsDone(c, arms[1..], f);
    }
  }

  /** `detail::Match`: the value and whether an arm has run. */
  class Match {
    const value: Option<Obj>
    var fired: Option<Callback>

    /** `match(trait)`. */
    constructor(value: Option<Obj>)
      ensures this.value == value && fired == None
    {
      this.value := value;
      fired := None;
    }

    predicate Matched()
      reads this
    {
      fired.Some?
    }

    /** `with<U>(func)`: runs `func` when no arm has run yet and the value is
        a non-null `U`. */
    method With(u: TypeInfo, f: Callback)
      modifies this
      ensures fired == RunArms(value, [Arm(u, f)], old(fired))
      ensures old(Matched()) ==> fired == old(fired)
      ensures !old(Matched()) ==> (Matched() <==> value.Some? && value.value.info == u)
    {
      if fired.None? && TypeOf(value) == Some(u) {
        fired := Some(f);
      }
    }
  }

  /** A whole chain `match(c).with(arms[0])...with(arms[n-1])`. */
  method MatchChain(c: Option<Obj>, arms: seq<Arm>) returns (fired: Option<Callback>)
    ensures fired == RunArms(c, arms, None)
  {
    var m := new Match(c);
    var i := 0;
    while i < |arms|
      invariant 0 <= i <= |arms|
      invariant RunArms(c, arms, None) == RunArms(c, arms[i..], m.fired)
    {
      assert arms[i..] == [arms[i]] + arms[i + 1..];
      m.With(arms[i].u, arms[i].f);
      i := i + 1;
    }
    fired := m.fired;
  }
}
