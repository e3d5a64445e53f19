/** The event pattern matcher: one index into the pattern, moved by each event. */
module Cep {

  /** The index after one event and whether the event completed the pattern. */
  function Step(p: seq<string>, idx: nat, event: string): (r: (nat, bool))
    requires p != [] && idx < |p|
    ensures r.0 < |p|
  {
    if p[idx] == event then
      if idx + 1 == |p| then (0, true) else (idx + 1, false)
    else if p[0] == event && |p| > 1 then (1, false)
    else (0, false)
  }

  /** The index after a stream of events. */
  function Idx(p: seq<string>, ev: seq<string>): (k: nat)
    requires p != []
    ensures k < |p|
  {
    if ev == [] then 0 else Step(p, Idx(p, ev[..|ev| - 1]), ev[|ev| - 1]).0
  }

  /** The last event of the stream is reported as a match. */
  predicate Reports(p: seq<string>, ev: seq<string>)
    requires p != []
  {
    ev != [] && Step(p, Idx(p, ev[..|ev| - 1]), ev[|ev| - 1]).1
  }

  predicate EndsWith(ev: seq<string>, p: seq<string>) {
    |p| <= |ev| && ev[|ev| - |p|..] == p
  }

  class CEPStateMachine {
    const pattern: seq<string>
    var idx: nat
    ghost var seen: seq<string>

    ghost predicate Valid()
      reads this
    {
      if pattern == [] then idx == 0 else idx == Idx(pattern, seen)
    }

    constructor (pattern: seq<string>)
      ensures Valid() && this.pattern == pattern && seen == []
    {
      this.pattern := pattern;
      idx := 0;
      seen := [];
    }

    method Next(event: string) returns (matched: bool)
      requires Valid()
      modifies this
      ensures Valid() && seen == old(seen) + [event]
      ensures matched <==> pattern != [] && Reports(pattern, seen)
    {
      seen := seen + [event];
      if |pattern| == 0 {
        return false;
      }
      assert seen[..|seen| - 1] == old(seen);
      if pattern[idx] == event {
        idx := idx + 1;
        if idx == |pattern| {
          idx := 0;
          return true;
        }
        return false;
      }
      idx := 0;
      if pattern[0] == event {
        // A pattern of one symbol never gets here: idx was 0 and the event differs.
        idx := 1;
      }
      return false;
    }
  }

  // ---------- what a report means ----------

  lemma IdxUnfold(p: seq<string>, ev: seq<string>)
    requires p != []
    ensures Idx(p, ev) == if ev == [] then 0 else Step(p, Idx(p, ev[..|ev| - 1]), ev[|ev| - 1]).0
  {
  }

  /** The index counts the events at the end of the stream that match so far. */
  lemma {:induction false} IdxMeaning(p: seq<string>, ev: seq<string>)
    requires p != []
    ensures EndsWith(ev, p[..Idx(p, ev)])
  {
    hide Idx;
    IdxUnfold(p, ev);
    if ev != [] {
      var front := ev[..|ev| - 1];
      IdxMeaning(p, front);
      StepMeaning(p, Idx(p, front), front, ev[|ev| - 1]);
      assert ev == front + [ev[|ev| - 1]];
    }
  }

  lemma StepMeaning(p: seq<string>, k: nat, front: seq<string>, e: string)
    requires k < |p| && EndsWith(front, p[..k])
    ensures EndsWith(front + [e], p[..Step(p, k, e).0])
    ensures Step(p, k, e).1 ==> EndsWith(front + [e], p)
  {
    var ev := front + [e];
    assert p[..k + 1] == p[..k] + [p[k]] && p[..|p|] == p;
    assert ev[|ev| - 1 - k..] == front[|front| - k..] + [e];
    assert ev[|ev| - 1..] == [e] && p[..1] == [p[0]];
  }

  /** Only true occurrences are reported. */
  lemma ReportsAreOccurrences(p: seq<string>, ev: seq<string>)
    requires p != [] && Reports(p, ev)
    ensures EndsWith(ev, p)
  {
    hide Idx;
    var front := ev[..|ev| - 1];
    IdxMeaning(p, front);
    StepMeaning(p, Idx(p, front), front, ev[|ev| - 1]);
    assert ev == front + [ev[|ev| - 1]];
  }

  lemma {:induction false} IdxBound(p: seq<string>, ev: seq<string>, t: nat)
    requires p != [] && t <= |ev| && Idx(p, ev[..t]) == 0
    ensures Idx(p, ev) <= |ev| - t
    decreases |ev|
  {
    if t < |ev| {
      var front := ev[..|ev| - 1];
      assert front[..t] == ev[..t];
      IdxBound(p, front, t);
    } else {
      assert ev[..t] == ev;
    }
  }

  /** Reported matches do not overlap. */
  lemma ReportsAreDisjoint(p: seq<string>, ev: seq<string>, t: nat)
    requires p != [] && t < |ev| && Reports(p, ev[..t]) && Reports(p, ev)
    ensures |ev| - t >= |p|
  {
    var front := ev[..|ev| - 1];
    assert front[..t] == ev[..t];
    IdxBound(p, front, t);
  }

  // ---------- when every occurrence is reported ----------

  /** When the first symbol does not recur, an occurrence is followed symbol by symbol. */
  lemma {:induction false} Progress(p: seq<string>, ev: seq<string>, k: nat)
    requires p != [] && p[0] !in p[1..] && 1 <= k < |p| && EndsWith(ev, p[..k])
    ensures Idx(p, ev) == k
  {
    var front := ev[..|ev| - 1];
    var last := ev[|ev| - 1];
    assert last == ev[|ev| - k..][k - 1] == p[k - 1];
    if k == 1 {
      var i := Idx(p, front);
      assert i > 0 ==> p[i] in p[1..] by {
        assert i > 0 ==> p[1..][i - 1] == p[i];
      }
    } else {
      assert front[|front| - (k - 1)..] == ev[|ev| - k..][..k - 1] == p[..k][..k - 1] == p[..k - 1];
      Progress(p, front, k - 1);
    }
  }

  lemma UniqueFirstReports(p: seq<string>, ev: seq<string>)
    requires p != [] && p[0] !in p[1..] && EndsWith(ev, p)
    ensures Reports(p, ev)
  {
    var n := |p|;
    var front := ev[..|ev| - 1];
    assert ev[|ev| - 1] == ev[|ev| - n..][n - 1] == p[n - 1];
    if n > 1 {
      assert front[|front| - (n - 1)..] == ev[|ev| - n..][..n - 1] == p[..n - 1];
      Progress(p, front, n - 1);
    }
  }

  lemma {:induction false} IdxBack(p: seq<string>, ev: seq<string>)
    requires p != []
    ensures Idx(p, ev) <= |ev|
    ensures Idx(p, ev) >= 1 ==> Idx(p, ev[..|ev| - Idx(p, ev) + 1]) == 1
  {
    hide Idx, EndsWith;
    IdxLength(p, ev);
    IdxUnfold(p, ev);
    var k := Idx(p, ev);
    if k == 1 {
      assert ev[..|ev|] == ev;
    } else if k > 1 {
      var front := ev[..|ev| - 1];
      IdxBack(p, front);
      assert front[..|ev| - k + 1] == ev[..|ev| - k + 1];
    }
  }

  lemma IdxLength(p: seq<string>, ev: seq<string>)
    requires p != []
    ensures Idx(p, ev) <= |ev|
  {
    IdxMeaning(p, ev);
    hide Idx;
  }

  lemma {:induction false} OwnPrefix(p: seq<string>, m: nat)
    requires p != [] && m <= |p|
    ensures Idx(p, p[..m]) == if m == |p| then 0 else m
  {
    if m > 0 {
      assert p[..m][..m - 1] == p[..m - 1];
      OwnPrefix(p, m - 1);
    }
  }

  /** If the first symbol recurs at j, the pattern after its own first j symbols is missed. */
  lemma RecurringFirstMisses(p: seq<string>, j: nat)
    requires 1 <= j < |p| && p[j] == p[0]
    ensures EndsWith(p[..j] + p, p) && !Reports(p, p[..j] + p)
  {
    hide Idx;
    var ev := p[..j] + p;
    var front := ev[..|ev| - 1];
    assert ev[|ev| - |p|..] == p;
    assert front[..j + 1] == p[..j + 1];
    OwnPrefix(p, j + 1);
    IdxBack(p, front);
  }

  /** The matcher reports exactly every contiguous occurrence, in every stream,
      if and only if the first symbol does not recur in the pattern. */
  lemma ExactIffFirstIsUnique(p: seq<string>)
    requires p != []
    ensures (forall ev :: Reports(p, ev) <==> EndsWith(ev, p)) <==> p[0] !in p[1..]
  {
    forall ev ensures Reports(p, ev) ==> EndsWith(ev, p) {
      if Reports(p, ev) { ReportsAreOccurrences(p, ev); }
    }
    if p[0] !in p[1..] {
      forall ev ensures EndsWith(ev, p) ==> Reports(p, ev) {
        if EndsWith(ev, p) { UniqueFirstReports(p, ev); }
      }
    } else {
      var i :| 0 <= i < |p[1..]| && p[1..][i] == p[0];
      RecurringFirstMisses(p, i + 1);
    }
  }
}
