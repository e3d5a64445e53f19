/** Session windows: maximal runs of records no further apart than the gap. */
module Sessions {
  import opened Streams
  import opened Windows

  /** Splitting a sorted batch wherever two neighbours are more than gap apart. */
  function Split(s: seq<Timed>, gap: int): (r: seq<seq<Timed>>)
    ensures |r| == 0 <==> s == []
  {
    if s == [] then []
    else if |s| == 1 then [s]
    else
      var n := |s| - 1;
      var front := Split(s[..n], gap);
      if s[n].at - s[n - 1].at > gap then front + [[s[n]]]
      else front[|front| - 1 := front[|front| - 1] + [s[n]]]
  }

  function Flatten<T>(ss: seq<seq<T>>): seq<T> {
    if ss == [] then [] else Flatten(ss[..|ss| - 1]) + ss[|ss| - 1]
  }

  function Records(s: seq<Timed>): (r: seq<Record>)
    ensures |r| == |s|
  {
    seq(|s|, i requires 0 <= i < |s| => s[i].rec)
  }

  function Strip(ss: seq<seq<Timed>>): (r: seq<seq<Record>>)
    ensures |r| == |ss|
  {
    seq(|ss|, i requires 0 <= i < |ss| => Records(ss[i]))
  }

  /** Sorts its input in place and cuts it into sessions. */
  method SessionWindows(a: array<Timed>, gap: int) returns (out: seq<seq<Record>>)
    modifies a
    ensures multiset(a[..]) == old(multiset(a[..])) && ByTime(a[..])
    ensures out == Strip(Split(a[..], gap))
  {
    if a.Length == 0 {
      return [];
    }
    SortInPlace(a);
    out := Cut(a[..], gap);
  }

  method Cut(s: seq<Timed>, gap: int) returns (out: seq<seq<Record>>)
    requires s != []
    ensures out == Strip(Split(s, gap))
  {
    hide Split, Strip, Records;
    out := [];
    var current := [s[0].rec];
    var last := s[0].at;
    ghost var done, open := [], [s[0]];
    CutStart(s);
    SplitOne(s, gap);
    for i := 1 to |s|
      invariant last == s[i - 1].at
      invariant out == Strip(done) && current == Records(open)
      invariant Split(s[..i], gap) == done + [open]
    {
      SplitStep(s, gap, i, done, open);
      if s[i].at - last > gap {
        StripSnoc(done, open);
        out := out + [current];
        current := [];
        done, open := done + [open], [];
        NoRecords();
      }
      RecordsSnoc(open, s[i]);
      current := current + [s[i].rec];
      open := open + [s[i]];
      last := s[i].at;
    }
    assert s[..|s|] == s;
    StripSnoc(done, open);
    out := out + [current];
  }

  lemma CutStart(s: seq<Timed>)
    requires s != []
    ensures Strip([]) == [] && Records([s[0]]) == [s[0].rec]
  {
  }

  lemma NoRecords()
    ensures Records([]) == []
  {
  }

  lemma SplitOne(s: seq<Timed>, gap: int)
    requires s != []
    ensures Split(s[..1], gap) == [] + [[s[0]]]
  {
    assert s[..1] == [s[0]];
  }

  lemma SplitStep(s: seq<Timed>, gap: int, i: nat, done: seq<seq<Timed>>, open: seq<Timed>)
    requires 0 < i < |s| && Split(s[..i], gap) == done + [open]
    ensures Split(s[..i + 1], gap) ==
            if s[i].at - s[i - 1].at > gap then done + [open] + [[] + [s[i]]] else done + [open + [s[i]]]
  {
    var t := s[..i + 1];
    assert t[..i] == s[..i];
    assert [] + [s[i]] == [s[i]];
    var front := done + [open];
    assert front[|front| - 1 := open + [s[i]]] == done + [open + [s[i]]];
  }

  lemma StripSnoc(ss: seq<seq<Timed>>, g: seq<Timed>)
    ensures Strip(ss + [g]) == Strip(ss) + [Records(g)]
  {
    hide Records;
  }

  lemma RecordsSnoc(g: seq<Timed>, x: Timed)
    ensures Records(g + [x]) == Records(g) + [x.rec]
  {
  }

  // ---------- the sessions are the sorted input ----------

  lemma FlattenSnoc<T>(ss: seq<seq<T>>, x: seq<T>)
    ensures Flatten(ss + [x]) == Flatten(ss) + x
  {
    assert (ss + [x])[..|ss|] == ss;
  }

  /** Put end to end, the sessions are the sorted input. */
  lemma {:induction false} SplitFlatten(s: seq<Timed>, gap: int)
    ensures Flatten(Split(s, gap)) == s
  {
    if |s| == 1 {
      FlattenSnoc([], s);
    } else if |s| > 1 {
      var n := |s| - 1;
      SplitFlatten(s[..n], gap);
      assert s == s[..n] + [s[n]];
      FlattenSnoc(Split(s[..n], gap), [s[n]]);
      GrowLast(Split(s[..n], gap), s[n]);
      hide Flatten;
    }
  }

  lemma GrowLast(ss: seq<seq<Timed>>, x: Timed)
    requires ss != []
    ensures Flatten(ss[|ss| - 1 := ss[|ss| - 1] + [x]]) == Flatten(ss) + [x]
  {
    var k := |ss| - 1;
    assert ss == ss[..k] + [ss[k]];
    FlattenSnoc(ss[..k], ss[k]);
    assert ss[k := ss[k] + [x]] == ss[..k] + [ss[k] + [x]];
    FlattenSnoc(ss[..k], ss[k] + [x]);
  }

  // ---------- who shares a session ----------

  /** Position i of the sorted input lies in session k. */
  ghost predicate InSession(ss: seq<seq<Timed>>, k: int, i: int) {
    0 <= k < |ss| && |Flatten(ss[..k])| <= i < |Flatten(ss[..k + 1])|
  }

  /** How many breaks lie at or before position i. */
  function Breaks(s: seq<Timed>, gap: int, i: nat): nat
    requires i < |s|
  {
    if i == 0 then 0 else Breaks(s, gap, i - 1) + (if s[i].at - s[i - 1].at > gap then 1 else 0)
  }

  lemma {:induction false} BreaksPrefix(s: seq<Timed>, n: nat, gap: int, i: nat)
    requires i < n <= |s|
    ensures Breaks(s[..n], gap, i) == Breaks(s, gap, i)
  {
    if i > 0 {
      BreaksPrefix(s, n, gap, i - 1);
    }
  }

  lemma {:induction false} SplitSize(s: seq<Timed>, gap: int)
    requires s != []
    ensures |Split(s, gap)| == Breaks(s, gap, |s| - 1) + 1
  {
    if |s| > 1 {
      SplitSize(s[..|s| - 1], gap);
      BreaksPrefix(s, |s| - 1, gap, |s| - 2);
    }
  }

  /** A position's session is numbered by the breaks before it. */
  lemma {:induction false} SessionNumber(s: seq<Timed>, gap: int, i: nat)
    requires i < |s|
    ensures InSession(Split(s, gap), Breaks(s, gap, i), i)
  {
    hide Split, Flatten;
    var n := |s| - 1;
    var r := Split(s, gap);
    SplitFlatten(s, gap);
    SplitSize(s, gap);
    if i < n {
      SessionNumber(s[..n], gap, i);
      BreaksPrefix(s, n, gap, i);
      SplitExtends(s, gap);
      Widen(Split(s[..n], gap), r, Breaks(s, gap, i), i);
    } else {
      LastSession(s, gap);
    }
  }

  lemma SplitExtends(s: seq<Timed>, gap: int)
    requires |s| > 1
    ensures var front, r := Split(s[..|s| - 1], gap), Split(s, gap);
            && 0 < |front| <= |r|
            && (forall j :: 0 <= j < |front| - 1 ==> r[j] == front[j])
            && front[|front| - 1] <= r[|front| - 1]
  {
  }

  /** Extending the last session or adding one keeps earlier positions in place. */
  lemma Widen(front: seq<seq<Timed>>, r: seq<seq<Timed>>, k: int, i: int)
    requires InSession(front, k, i) && |front| <= |r|
    requires forall j :: 0 <= j < |front| - 1 ==> r[j] == front[j]
    requires front[|front| - 1] <= r[|front| - 1]
    ensures InSession(r, k, i)
  {
    assert r[..k] == front[..k];
    assert front[..k + 1] == front[..k] + [front[k]] && r[..k + 1] == r[..k] + [r[k]];
    FlattenSnoc(front[..k], front[k]);
    FlattenSnoc(r[..k], r[k]);
  }

  lemma LastSession(s: seq<Timed>, gap: int)
    requires s != []
    ensures InSession(Split(s, gap), |Split(s, gap)| - 1, |s| - 1)
  {
    var r := Split(s, gap);
    var k := |r| - 1;
    SplitFlatten(s, gap);
    assert r[..k + 1] == r && r == r[..k] + [r[k]];
    FlattenSnoc(r[..k], r[k]);
    assert r[k] != [];
  }

  lemma {:induction false} FlattenMonotone(ss: seq<seq<Timed>>, k: nat, m: nat)
    requires k <= m <= |ss|
    ensures |Flatten(ss[..k])| <= |Flatten(ss[..m])|
    decreases m
  {
    if k < m {
      FlattenMonotone(ss, k, m - 1);
      assert ss[..m] == ss[..m - 1] + [ss[m - 1]];
      FlattenSnoc(ss[..m - 1], ss[m - 1]);
    }
  }

  /** No position is in two sessions. */
  lemma OneSession(ss: seq<seq<Timed>>, k: int, m: int, i: int)
    requires InSession(ss, k, i) && InSession(ss, m, i)
    ensures k == m
  {
    if k < m {
      FlattenMonotone(ss, k + 1, m);
    } else if m < k {
      FlattenMonotone(ss, m + 1, k);
    }
  }

  ghost predicate SameSession(ss: seq<seq<Timed>>, i: int, j: int) {
    exists k :: InSession(ss, k, i) && InSession(ss, k, j)
  }

  /** A chain of times of records, each within gap of the one before. */
  ghost predicate Chain(s: seq<Timed>, gap: int, c: seq<int>) {
    && c != []
    && (forall k :: 0 <= k < |c| ==> exists x :: x in s && x.at == c[k])
    && (forall k :: 0 < k < |c| ==> -gap <= c[k] - c[k - 1] <= gap)
  }

  ghost predicate Linked(s: seq<Timed>, gap: int, a: int, b: int) {
    exists c :: Chain(s, gap, c) && c[0] == a && c[|c| - 1] == b
  }

  lemma {:induction false} BreaksMonotone(s: seq<Timed>, gap: int, i: nat, j: nat)
    requires i <= j < |s|
    ensures Breaks(s, gap, i) <= Breaks(s, gap, j)
    ensures Breaks(s, gap, i) == Breaks(s, gap, j) <==>
            forall m :: i < m <= j ==> s[m].at - s[m - 1].at <= gap
  {
    if i < j {
      BreaksMonotone(s, gap, i, j - 1);
    }
  }

  lemma LinkUp(s: seq<Timed>, gap: int, i: nat, j: nat)
    requires ByTime(s) && gap >= 0 && i <= j < |s|
    requires forall m :: i < m <= j ==> s[m].at - s[m - 1].at <= gap
    ensures Linked(s, gap, s[i].at, s[j].at) && Linked(s, gap, s[j].at, s[i].at)
  {
    var up := ChainUp(s, gap, i, j);
    var down := ChainDown(s, gap, i, j);
    hide Chain;
  }

  lemma {:induction false} ChainUp(s: seq<Timed>, gap: int, i: nat, j: nat) returns (c: seq<int>)
    requires ByTime(s) && gap >= 0 && i <= j < |s|
    requires forall m :: i < m <= j ==> s[m].at - s[m - 1].at <= gap
    ensures Chain(s, gap, c) && c[0] == s[i].at && c[|c| - 1] == s[j].at
    decreases j
  {
    if i == j {
      c := [s[i].at];
    } else {
      c := ChainUp(s, gap, i, j - 1);
      ChainGrows(s, gap, c, s[j]);
      c := c + [s[j].at];
    }
  }

  lemma {:induction false} ChainDown(s: seq<Timed>, gap: int, i: nat, j: nat) returns (c: seq<int>)
    requires ByTime(s) && gap >= 0 && i <= j < |s|
    requires forall m :: i < m <= j ==> s[m].at - s[m - 1].at <= gap
    ensures Chain(s, gap, c) && c[0] == s[j].at && c[|c| - 1] == s[i].at
    decreases j
  {
    if i == j {
      c := [s[i].at];
    } else {
      c := ChainDown(s, gap, i, j - 1);
      ChainGrows(s, gap, c, s[j]);
      c := [s[j].at] + c;
    }
  }

  lemma ChainGrows(s: seq<Timed>, gap: int, c: seq<int>, x: Timed)
    requires Chain(s, gap, c) && x in s
    ensures -gap <= x.at - c[|c| - 1] <= gap ==> Chain(s, gap, c + [x.at])
    ensures -gap <= x.at - c[0] <= gap ==> Chain(s, gap, [x.at] + c)
  {
  }

  /** No chain crosses a break. */
  lemma {:induction false} NoCrossing(s: seq<Timed>, gap: int, m: nat, c: seq<int>, n: nat)
    requires ByTime(s) && 0 < m < |s| && s[m].at - s[m - 1].at > gap && gap >= 0
    requires Chain(s, gap, c) && n < |c|
    ensures c[0] <= s[m - 1].at <==> c[n] <= s[m - 1].at
  {
    if n > 0 {
      NoCrossing(s, gap, m, c, n - 1);
      assert forall x :: x in s ==> x.at <= s[m - 1].at || x.at >= s[m].at;
    }
  }

  /** Two records share a session exactly when a chain of records, each within
      the gap of the one before, joins them. */
  lemma SessionsAreChains(s: seq<Timed>, gap: int, i: nat, j: nat)
    requires ByTime(s) && gap >= 0 && i < |s| && j < |s|
    ensures SameSession(Split(s, gap), i, j) <==> Linked(s, gap, s[i].at, s[j].at)
  {
    hide Split, Chain, Linked, Breaks, InSession, SameSession, ByTime;
    var lo, hi := if i <= j then i else j, if i <= j then j else i;
    SharedNumber(s, gap, i, j);
    BreaksMonotone(s, gap, lo, hi);
    if Breaks(s, gap, i) == Breaks(s, gap, j) {
      LinkUp(s, gap, lo, hi);
    } else {
      var m :| lo < m <= hi && s[m].at - s[m - 1].at > gap;
      Separated(s, gap, i, j, m);
    }
  }

  lemma SharedNumber(s: seq<Timed>, gap: int, i: nat, j: nat)
    requires i < |s| && j < |s|
    ensures SameSession(Split(s, gap), i, j) <==> Breaks(s, gap, i) == Breaks(s, gap, j)
  {
    hide Split, Breaks, InSession;
    var r := Split(s, gap);
    SessionNumber(s, gap, i);
    SessionNumber(s, gap, j);
    forall k | InSession(r, k, i) && InSession(r, k, j) ensures Breaks(s, gap, i) == Breaks(s, gap, j) {
      OneSession(r, k, Breaks(s, gap, i), i);
      OneSession(r, k, Breaks(s, gap, j), j);
    }
  }

  lemma Separated(s: seq<Timed>, gap: int, i: nat, j: nat, m: nat)
    requires ByTime(s) && gap >= 0 && i < |s| && j < |s| && (i < m <= j || j < m <= i)
    requires s[m].at - s[m - 1].at > gap
    ensures !Linked(s, gap, s[i].at, s[j].at)
  {
    forall c | Chain(s, gap, c) && c[0] == s[i].at ensures c[|c| - 1] != s[j].at {
      NoCrossing(s, gap, m, c, |c| - 1);
    }
  }

  /** With a negative gap every record is a session of its own. */
  lemma {:induction false} NegativeGap(s: seq<Timed>, gap: int)
    requires ByTime(s) && gap < 0
    ensures |Split(s, gap)| == |s| && forall i :: 0 <= i < |s| ==> Split(s, gap)[i] == [s[i]]
  {
    if |s| > 1 {
      NegativeGap(s[..|s| - 1], gap);
    }
  }
}
