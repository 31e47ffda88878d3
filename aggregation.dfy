/** The aggregation table: the latest merged reading per key, written by a
    single consumer loop and read by the HTTP handler. */
module Aggregation {
  import opened Readings
  import opened Exposition

  /** The table after its consumer receives `reading`. */
  function Update(lines: map<string, Reading>, reading: Reading): (r: map<string, Reading>)
    ensures reading.Key !in lines ==> reading.Key in r && r[reading.Key] == reading
    ensures reading.Key in lines ==>
              reading.Key in r && r[reading.Key] == lines[reading.Key].Accept(reading)
    ensures forall k :: k in lines && k != reading.Key ==> k in r && r[k] == lines[k]
    ensures r.Keys == lines.Keys + {reading.Key}
  {
    if reading.Key in lines then lines[reading.Key := lines[reading.Key].Accept(reading)]
    else lines[reading.Key := reading]
  }

  /** The table after receiving `submitted`, in order, starting empty. */
  function Table(submitted: seq<Reading>): (r: map<string, Reading>)
  {
    if submitted == [] then map[]
    else Update(Table(submitted[..|submitted| - 1]), submitted[|submitted| - 1])
  }

  /** The submissions for `key`, in the order they were submitted. */
  function ForKey(submitted: seq<Reading>, key: string): (r: seq<Reading>)
    ensures forall i :: 0 <= i < |r| ==> r[i].Key == key
  {
    if submitted == [] then []
    else
      var front := ForKey(submitted[..|submitted| - 1], key);
      if submitted[|submitted| - 1].Key == key then front + [submitted[|submitted| - 1]] else front
  }

  /** The fold property: a key is in the table exactly when something was
      submitted for it, and then it holds the left fold of `Accept` over
      the submissions for that key, the first one taken verbatim. */
  lemma {:induction false} TableIsFold(submitted: seq<Reading>, key: string)
    ensures key in Table(submitted) <==> ForKey(submitted, key) != []
    ensures key in Table(submitted) ==> Table(submitted)[key] == Folded(ForKey(submitted, key))
  {
    if submitted != [] {
      var front := submitted[..|submitted| - 1];
      var last := submitted[|submitted| - 1];
      TableIsFold(front, key);
      if last.Key == key {
        var rs := ForKey(submitted, key);
        assert rs == ForKey(front, key) + [last];
        assert rs[..|rs| - 1] == ForKey(front, key);
      }
    }
  }

  /** Every stored reading carries the key it is stored under. */
  lemma {:induction false} StoredUnderOwnKey(submitted: seq<Reading>, key: string)
    requires key in Table(submitted)
    ensures Table(submitted)[key].Key == key
  {
    TableIsFold(submitted, key);
    FoldedIdentity(ForKey(submitted, key));
  }

  /** No key is ever removed, whatever is submitted later. */
  lemma {:induction false} TableGrows(submitted: seq<Reading>, later: seq<Reading>)
    ensures Table(submitted).Keys <= Table(submitted + later).Keys
  {
    if later != [] {
      TableGrows(submitted, later[..|later| - 1]);
      assert (submitted + later)[..|submitted + later| - 1] == submitted + later[..|later| - 1];
    } else {
      assert submitted + later == submitted;
    }
  }

  /** The table; `submitted` records, as ghost state, everything its
      consumer has received. */
  class MetricsHolder {
    var lines: map<string, Reading>
    ghost var submitted: seq<Reading>

    ghost predicate Valid()
      reads this
    {
      lines == Table(submitted)
    }

    /** `NewMetrics`: an empty table. */
    constructor ()
      ensures Valid() && submitted == [] && lines == map[]
    {
      lines := map[];
      submitted := [];
    }

    /** One turn of the consumer loop: a new key gets the reading verbatim,
        a known key gets the stored reading's `Accept` of it. */
    method Receive(reading: Reading)
      requires Valid()
      modifies this
      ensures Valid() && submitted == old(submitted) + [reading]
      ensures lines == Update(old(lines), reading)
    {
      if reading.Key in lines {
        var val := lines[reading.Key];
        lines := lines[reading.Key := val.Accept(reading)];
      } else {
        lines := lines[reading.Key := reading];
      }
      submitted := submitted + [reading];
      assert submitted[..|submitted| - 1] == old(submitted);
    }

    /** The consumer loop, up to the closing of its channel: receives every
        reading of `inbox` in order. */
    method Consume(inbox: seq<Reading>)
      requires Valid()
      modifies this
      ensures Valid() && submitted == old(submitted) + inbox
    {
      var i := 0;
      while i < |inbox|
        invariant 0 <= i <= |inbox|
        invariant Valid() && submitted == old(submitted) + inbox[..i]
      {
        Receive(inbox[i]);
        assert inbox[..i + 1] == inbox[..i] + [inbox[i]];
        i := i + 1;
      }
      assert inbox[..i] == inbox;
    }

    /** The HTTP handler body: one `key value` line per entry, visiting the
        table in `order`, with `format` standing for `%f`. */
    method Handle(order: seq<string>, format: real -> string) returns (body: string)
      requires Enumerates(order, lines.Keys)
      ensures forall i :: 0 <= i < |order| ==> order[i] in lines
      ensures body == Body(lines, order, format)
    {
      assert forall i :: 0 <= i < |order| ==> order[i] in order;
      body := "";
      var i := 0;
      while i < |order|
        invariant 0 <= i <= |order|
        invariant body == Body(lines, order[..i], format)
      {
        var k := order[i];
        var v := lines[k];
        body := body + k + " " + format(v.Value) + "\n";
        assert order[..i + 1][..i] == order[..i];
        i := i + 1;
      }
      assert order[..i] == order;
    }
  }
}
