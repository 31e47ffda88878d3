/** A reading is one observation of one metric; `Accept` merges a newer
    observation of the same metric into a stored one. */
module Readings {

  /** The kind of a metric. The source declares it as a plain `int`, names
      only the values 1 and 2, and so admits every other value as well
      (the zero value of a freshly declared reading among them). */
  newtype MetricType = int

  /** A monotonous series: new values are added to the stored one. */
  const Counter: MetricType := 1

  /** An instantaneous value: a new value replaces the stored one. */
  const Instant: MetricType := 2

  /** The two kinds `Accept` reacts to. */
  predicate Known(t: MetricType)
  {
    t == Counter || t == Instant
  }

  /** One reading. `Value` is a 64-bit float in the source and a real here. */
  datatype Reading = Reading(Key: string, Value: real, Time: string, Type: MetricType)
  {
    /** The stored reading `this` updated with `incoming`. The receiver is a
        value, so the source's copy-then-adjust leaves it untouched. */
    function Accept(incoming: Reading): (result: Reading)
      ensures result.Key == Key && result.Type == Type
      ensures incoming.Type == Counter ==>
                result.Value == Value + incoming.Value && result.Time == incoming.Time
      ensures incoming.Type == Instant ==>
                result.Value == incoming.Value && result.Time == incoming.Time
      ensures !Known(incoming.Type) ==> result == this
    {
      if incoming.Type == Counter then
        this.(Value := Value + incoming.Value, Time := incoming.Time)
      else if incoming.Type == Instant then
        this.(Value := incoming.Value, Time := incoming.Time)
      else
        this
    }
  }

  /** The left fold of `Accept` over `rs`, whose first reading is taken
      verbatim: what a table stores after seeing `rs` for one key. */
  function Folded(rs: seq<Reading>): (r: Reading)
    requires rs != []
  {
    if |rs| == 1 then rs[0] else Folded(rs[..|rs| - 1]).Accept(rs[|rs| - 1])
  }

  /** The sum of the values of the counter readings in `rs`. */
  function CounterSum(rs: seq<Reading>): (r: real)
  {
    if rs == [] then 0.0
    else CounterSum(rs[..|rs| - 1]) + (if rs[|rs| - 1].Type == Counter then rs[|rs| - 1].Value else 0.0)
  }

  /** A fold keeps the key and the type of its first reading, whatever follows. */
  lemma {:induction false} FoldedIdentity(rs: seq<Reading>)
    requires rs != []
    ensures Folded(rs).Key == rs[0].Key && Folded(rs).Type == rs[0].Type
  {
    if |rs| > 1 {
      FoldedIdentity(rs[..|rs| - 1]);
    }
  }

  /** Readings of a type other than Counter and Instant are ignored: a fold
      over such readings alone returns the first reading unchanged. */
  lemma {:induction false} FoldedIgnoresUnknown(rs: seq<Reading>)
    requires rs != []
    requires forall i :: 1 <= i < |rs| ==> !Known(rs[i].Type)
    ensures Folded(rs) == rs[0]
  {
    if |rs| > 1 {
      FoldedIgnoresUnknown(rs[..|rs| - 1]);
    }
  }

  /** Without any instant reading after the first, the stored value is the
      first value plus every later counter value. */
  lemma {:induction false} FoldedValueAccumulates(rs: seq<Reading>)
    requires rs != []
    requires forall i :: 1 <= i < |rs| ==> rs[i].Type != Instant
    ensures Folded(rs).Value == rs[0].Value + CounterSum(rs[1..])
  {
    if |rs| > 1 {
      var front := rs[..|rs| - 1];
      FoldedValueAccumulates(front);
      assert rs[1..][..|rs| - 2] == front[1..];
    }
  }

  /** An instant reading resets the accumulation: after the last instant
      reading `rs[k]`, the stored value is its value plus every later counter
      value, whatever was accumulated before it. */
  lemma {:induction false} FoldedValueAfterInstant(rs: seq<Reading>, k: nat)
    requires 1 <= k < |rs| && rs[k].Type == Instant
    requires forall i :: k < i < |rs| ==> rs[i].Type != Instant
    ensures Folded(rs).Value == rs[k].Value + CounterSum(rs[k + 1..])
  {
    if k < |rs| - 1 {
      var front := rs[..|rs| - 1];
      FoldedValueAfterInstant(front, k);
      assert rs[k + 1..][..|rs| - k - 2] == front[k + 1..];
    } else {
      assert rs[k + 1..] == [];
    }
  }

  /** The stored time is the time of the last Counter or Instant reading
      after the first one. */
  lemma {:induction false} FoldedTime(rs: seq<Reading>, k: nat)
    requires 1 <= k < |rs| && Known(rs[k].Type)
    requires forall i :: k < i < |rs| ==> !Known(rs[i].Type)
    ensures Folded(rs).Time == rs[k].Time
  {
    if k < |rs| - 1 {
      FoldedTime(rs[..|rs| - 1], k);
    }
  }
}
