/** src/hooks/useStaticRefCurrentGetter.js: `getCurrent(ref, initialize)` fills the slot
    `ref.current` from `initialize()` when the slot is falsy and returns the slot. */
module RefCurrentGetter {

  /** The JavaScript values the slot and `initialize()` can hold, as far as the
      truthiness test tells them apart; objects are told apart by an identity. */
  datatype JsValue =
    | Undefined
    | Null
    | Boolean(b: bool)
    | Number(n: real)
    | Text(s: string)
    | Object(identity: nat)

  /** The falsy values among those represented, as the ToBoolean conversion of the
      ECMAScript standard lists them: undefined, null, false, zero and the empty string. */
  const FalsyValues: set<JsValue> := {Undefined, Null, Boolean(false), Number(0.0), Text("")}

  /** JavaScript truthiness, the value of `!!v`; `!ref.current` is its negation. */
  predicate Truthy(v: JsValue)
    ensures !Truthy(v) <==> v in FalsyValues
  {
    match v
    case Undefined => false
    case Null => false
    case Boolean(b) => b
    case Number(n) => n != 0.0
    case Text(s) => s != ""
    case Object(_) => true
  }

  /** A React ref object: one mutable slot, `current`. */
  class Ref {
    var current: JsValue

    constructor (initial: JsValue)
      ensures current == initial
    {
      current := initial;
    }
  }

  /** The `initialize` callback: its k-th call (counting from 0) returns `produce(k)`, so a
      factory that builds a new object on every call is covered; `calls` counts the calls. */
  class Initializer {
    const produce: nat -> JsValue
    var calls: nat

    constructor (produce: nat -> JsValue)
      ensures this.produce == produce && calls == 0
    {
      this.produce := produce;
      calls := 0;
    }

    method Invoke() returns (v: JsValue)
      modifies this
      ensures v == produce(old(calls)) && calls == old(calls) + 1
    {
      v := produce(calls);
      calls := calls + 1;
    }
  }

  /** What `getCurrent` reads and writes, as a value: the slot and the number of
      `initialize` calls made so far. */
  datatype Cache = Cache(current: JsValue, calls: nat)

  /** One `getCurrent` call on a cache state: the state after it and the value returned. */
  function Get(c: Cache, produce: nat -> JsValue): (r: (Cache, JsValue))
    ensures r.1 == r.0.current
    ensures Truthy(c.current) ==> r == (c, c.current)
    ensures !Truthy(c.current) ==> r.0.calls == c.calls + 1 && r.1 == produce(c.calls)
  {
    var next := if Truthy(c.current) then c else Cache(produce(c.calls), c.calls + 1);
    (next, next.current)
  }

  /** `n` calls of `getCurrent` in a row: the final state and the values returned, in
      order. Each call runs `initialize` at most once. */
  function Run(c: Cache, produce: nat -> JsValue, n: nat): (r: (Cache, seq<JsValue>))
    ensures |r.1| == n
    ensures c.calls <= r.0.calls <= c.calls + n
    decreases n
  {
    if n == 0 then (c, [])
    else
      var (next, v) := Get(c, produce);
      var (last, vs) := Run(next, produce, n - 1);
      (last, [v] + vs)
  }

  /** `getCurrent(ref, initialize)`. */
  method GetCurrent(ref: Ref, initialize: Initializer) returns (v: JsValue)
    modifies ref, initialize
    ensures v == ref.current
    ensures Truthy(old(ref.current)) ==>
      v == old(ref.current) && initialize.calls == old(initialize.calls)
    ensures !Truthy(old(ref.current)) ==>
      v == initialize.produce(old(initialize.calls)) && initialize.calls == old(initialize.calls) + 1
    ensures (Cache(ref.current, initialize.calls), v) ==
            Get(Cache(old(ref.current), old(initialize.calls)), initialize.produce)
  {
    if !Truthy(ref.current) {
      ref.current := initialize.Invoke();
    }
    return ref.current;
  }

  /** Two calls in a row, as a caller of the getter makes them: once a call has returned
      a truthy value the next one returns the same value and `initialize` has run at most
      once; after a falsy first result both calls have run it. */
  method GetCurrentTwice(ref: Ref, initialize: Initializer) returns (first: JsValue, second: JsValue)
    modifies ref, initialize
    ensures Truthy(first) ==> second == first
    ensures Truthy(first) ==>
      initialize.calls == old(initialize.calls) + (if Truthy(old(ref.current)) then 0 else 1)
    ensures !Truthy(first) ==> initialize.calls == old(initialize.calls) + 2
  {
    first := GetCurrent(ref, initialize);
    second := GetCurrent(ref, initialize);
  }

  /** Idempotence of one call: once a call has returned a truthy value, the next call
      returns the same value and leaves the state as it is. */
  lemma GetIdempotent(c: Cache, produce: nat -> JsValue)
    requires Truthy(Get(c, produce).1)
    ensures Get(Get(c, produce).0, produce) == Get(c, produce)
  {
  }

  /** A truthy slot is never replaced: every later call returns it and `initialize` is
      not called. */
  lemma {:induction false} RunOnTruthy(c: Cache, produce: nat -> JsValue, n: nat)
    requires Truthy(c.current)
    ensures Run(c, produce, n).0 == c
    ensures forall i :: 0 <= i < n ==> Run(c, produce, n).1[i] == c.current
  {
    if n > 0 {
      RunOnTruthy(c, produce, n - 1);
    }
  }

  /** Initialize-once: when a call returns a truthy value, any number of calls from the
      same state return that value, and `initialize` has run exactly once if the slot was
      falsy and not at all otherwise. */
  lemma {:induction false} InitializeAtMostOnce(c: Cache, produce: nat -> JsValue, n: nat)
    requires n >= 1
    requires Truthy(Get(c, produce).1)
    ensures Run(c, produce, n).0.calls == c.calls + (if Truthy(c.current) then 0 else 1)
    ensures forall i :: 0 <= i < n ==> Run(c, produce, n).1[i] == Get(c, produce).1
  {
    var (next, v) := Get(c, produce);
    RunOnTruthy(next, produce, n - 1);
  }

  /** The guard tests truthiness, not "already initialised": while `initialize` keeps
      returning falsy values, every call runs it again. */
  lemma {:induction false} FalsyRetries(c: Cache, produce: nat -> JsValue, n: nat)
    requires !Truthy(c.current)
    requires forall k :: c.calls <= k < c.calls + n ==> !Truthy(produce(k))
    ensures Run(c, produce, n).0.calls == c.calls + n
    ensures forall i :: 0 <= i < n ==> Run(c, produce, n).1[i] == produce(c.calls + i)
    decreases n
  {
    if n > 0 {
      var next := Get(c, produce).0;
      assert next == Cache(produce(c.calls), c.calls + 1);
      FalsyRetries(next, produce, n - 1);
    }
  }
}
