/** Tumbling and sliding windows over a batch of timed records. */
module Windows {
  import opened Order
  import opened Streams

  // ---------- sorting ----------

  ghost predicate ByTime(s: seq<Timed>) {
    forall i, j :: 0 <= i < j < |s| ==> s[i].at <= s[j].at
  }

  function InsertByTime(s: seq<Timed>, x: Timed): (r: seq<Timed>)
    ensures multiset(r) == multiset(s) + multiset{x}
  {
    if s == [] || x.at < s[0].at then [x] + s else
      assert s == [s[0]] + s[1..];
      [s[0]] + InsertByTime(s[1..], x)
  }

  lemma {:induction false} InsertSorted(s: seq<Timed>, x: Timed)
    requires ByTime(s)
    ensures ByTime(InsertByTime(s, x))
  {
    if s != [] && s[0].at <= x.at {
      InsertSorted(s[1..], x);
      var t := InsertByTime(s[1..], x);
      forall i | 0 <= i < |t| ensures s[0].at <= t[i].at {
        assert t[i] in multiset(t);
        assert t[i] == x || t[i] in s[1..];
      }
    }
  }

  function SortedByTime(s: seq<Timed>): (r: seq<Timed>)
    ensures multiset(r) == multiset(s) && ByTime(r)
  {
    if s == [] then [] else
      assert s == s[..|s| - 1] + [s[|s| - 1]];
      var front := SortedByTime(s[..|s| - 1]);
      InsertSorted(front, s[|s| - 1]);
      InsertByTime(front, s[|s| - 1])
  }

  /** sort.Slice in place. It need not be stable, so callers learn only this much. */
  method SortInPlace(a: array<Timed>)
    modifies a
    ensures ByTime(a[..]) && multiset(a[..]) == old(multiset(a[..]))
  {
    var s := SortedByTime(a[..]);
    assert |s| == a.Length by {
      assert |multiset(s)| == |multiset(a[..])|;
    }
    forall i | 0 <= i < a.Length {
      a[i] := s[i];
    }
    assert a[..] == s;
  }

  // ---------- selecting by time ----------

  /** The records whose time lies in [lo, hi), in order. */
  function Select(s: seq<Timed>, lo: int, hi: int): seq<Record> {
    if s == [] then [] else
      var front := Select(s[..|s| - 1], lo, hi);
      var x := s[|s| - 1];
      if lo <= x.at < hi then front + [x.rec] else front
  }

  lemma {:induction false} SelectConcat(a: seq<Timed>, b: seq<Timed>, lo: int, hi: int)
    ensures Select(a + b, lo, hi) == Select(a, lo, hi) + Select(b, lo, hi)
  {
    if b == [] {
      assert a + b == a;
    } else {
      SelectConcat(a, b[..|b| - 1], lo, hi);
      assert (a + b)[..|a + b| - 1] == a + b[..|b| - 1];
    }
  }

  lemma SelectSnoc(s: seq<Timed>, x: Timed, lo: int, hi: int)
    ensures Select(s + [x], lo, hi) == Select(s, lo, hi) + (if lo <= x.at < hi then [x.rec] else [])
  {
    assert (s + [x])[..|s|] == s;
  }

  lemma {:induction false} SelectNone(s: seq<Timed>, lo: int, hi: int)
    ensures Select(s, lo, hi) == [] <==> forall x :: x in s ==> !(lo <= x.at < hi)
  {
    if s != [] {
      SelectNone(s[..|s| - 1], lo, hi);
      assert s == s[..|s| - 1] + [s[|s| - 1]];
      assert s[|s| - 1] in s;
    }
  }

  /** recs are the records of s whose time lies in [lo, hi), every one of them and no
      other, in the order of s. */
  ghost predicate HoldsSpan(s: seq<Timed>, lo: int, hi: int, recs: seq<Record>) {
    exists picked: seq<Timed> ::
      && Picks(s, (x: Timed) => lo <= x.at < hi, picked)
      && |recs| == |picked| && forall j :: 0 <= j < |recs| ==> recs[j] == picked[j].rec
  }

  lemma {:induction false} SelectHolds(s: seq<Timed>, lo: int, hi: int)
    ensures HoldsSpan(s, lo, hi, Select(s, lo, hi))
  {
    hide Picks;
    var inside := (x: Timed) => lo <= x.at < hi;
    if s == [] {
      PicksNone(inside);
    } else {
      var front, x := s[..|s| - 1], s[|s| - 1];
      SelectHolds(front, lo, hi);
      var picked: seq<Timed> :| Picks(front, inside, picked) && |Select(front, lo, hi)| == |picked|
                    && forall j :: 0 <= j < |picked| ==> Select(front, lo, hi)[j] == picked[j].rec;
      PicksSnoc(front, inside, picked, x);
      assert s == front + [x];
      var picked' := if inside(x) then picked + [x] else picked;
      assert Picks(s, inside, picked') && |Select(s, lo, hi)| == |picked'|;
      assert forall j :: 0 <= j < |picked'| ==> Select(s, lo, hi)[j] == picked'[j].rec;
    }
  }

  /** Reordering the input reorders the selection and changes nothing else. */
  lemma {:induction false} SelectPermutation(a: seq<Timed>, b: seq<Timed>, lo: int, hi: int)
    requires multiset(a) == multiset(b)
    ensures multiset(Select(a, lo, hi)) == multiset(Select(b, lo, hi))
    decreases |a|
  {
    hide Select;
    if a == [] {
      assert |multiset(b)| == 0;
    } else {
      var n := |a| - 1;
      assert a[n] in multiset(b);
      var i :| 0 <= i < |b| && b[i] == a[n];
      SelectRemove(a, n, lo, hi);
      SelectRemove(b, i, lo, hi);
      var front, rest := a[..n] + a[n + 1..], b[..i] + b[i + 1..];
      assert multiset(front) == multiset(a) - multiset{a[n]};
      assert multiset(rest) == multiset(b) - multiset{a[n]};
      SelectPermutation(front, rest, lo, hi);
    }
  }

  lemma SelectRemove(b: seq<Timed>, i: nat, lo: int, hi: int)
    requires i < |b|
    ensures multiset(b) == multiset(b[..i] + b[i + 1..]) + multiset{b[i]}
    ensures multiset(Select(b, lo, hi)) ==
            multiset(Select(b[..i] + b[i + 1..], lo, hi))
            + (if lo <= b[i].at < hi then multiset{b[i].rec} else multiset{})
  {
    var x := b[i];
    assert b == b[..i] + ([x] + b[i + 1..]);
    SelectConcat(b[..i], [x] + b[i + 1..], lo, hi);
    SelectConcat([x], b[i + 1..], lo, hi);
    SelectConcat(b[..i], b[i + 1..], lo, hi);
    assert [x][..0] == [];
  }

  // ---------- tumbling and sliding windows ----------

  /** time.Truncate: down to a multiple of d since the zero time. */
  function Truncate(t: int, d: int): int {
    if d <= 0 then t else t - t % d
  }

  lemma TruncateMultiple(t: int, d: int)
    requires d > 0
    ensures Truncate(t, d) % d == 0 && Truncate(t, d) <= t < Truncate(t, d) + d
  {
    var q := t / d;
    assert t == q * d + t % d;
    assert Truncate(t, d) == q * d;
    MultipleMod(q, d);
  }

  lemma MultipleMod(q: int, d: int)
    requires d > 0
    ensures q * d % d == 0
  {
    var r := q * d % d;
    var p := q * d / d;
    assert q * d == p * d + r;
    assert (q - p) * d == r;
    assert q - p >= 1 ==> (q - p) * d >= d;
    assert q - p <= -1 ==> (q - p) * d <= -d;
  }

  /** The multiple of d at or below t is unique in its span of d. */
  lemma MultipleBelow(w: int, t: int, d: int)
    requires d > 0 && w % d == 0 && w <= t
    ensures w <= Truncate(t, d)
    ensures t < w + d <==> w == Truncate(t, d)
  {
    TruncateMultiple(t, d);
    var a, q := w / d, t / d;
    assert w == a * d && Truncate(t, d) == q * d;
    MulGap(a, q, d);
    MulGap(q, a, d);
  }

  lemma MulGap(a: int, b: int, d: int)
    requires d > 0
    ensures a < b ==> a * d + d <= b * d
  {
    var k := b - a;
    assert b * d == a * d + (k - 1) * d + d;
    assert k >= 1 ==> (k - 1) * d >= 0;
  }

  function Span(size: int): (n: int)
    ensures n > 0
  {
    if size > 0 then size else 1
  }

  lemma InBucket(t: int, u: int, size: int)
    ensures Truncate(t, size) == Truncate(u, size) <==>
            Truncate(u, size) <= t < Truncate(u, size) + Span(size)
  {
    if size > 0 {
      TruncateMultiple(t, size);
      TruncateMultiple(u, size);
      if Truncate(u, size) <= t {
        MultipleBelow(Truncate(u, size), t, size);
      }
    }
  }

  /** Every bucket holds the records of its span, in input order. */
  ghost predicate IsTumbling(s: seq<Timed>, size: int, out: map<int, seq<Record>>) {
    && (forall b :: b in out <==> exists x :: x in s && Truncate(x.at, size) == b)
    && (forall b :: b in out ==> out[b] == Select(s, b, b + Span(size)))
  }

  method TumblingWindows(s: seq<Timed>, size: int) returns (out: map<int, seq<Record>>)
    ensures IsTumbling(s, size, out)
    ensures Tumbles(s, size, out)
  {
    hide IsTumbling, Tumbles, Truncate;
    NoBuckets(size);
    out := map[];
    for i := 0 to |s|
      invariant IsTumbling(s[..i], size, out)
    {
      var bucket := Truncate(s[i].at, size);
      TumblingStep(s[..i], s[i], size, out);
      assert s[..i + 1] == s[..i] + [s[i]];
      out := out[bucket := (if bucket in out then out[bucket] else []) + [s[i].rec]];
    }
    assert s[..|s|] == s;
    TumblingExact(s, size, out);
  }

  lemma NoBuckets(size: int)
    ensures IsTumbling([], size, map[])
  {
  }

  /** A multiple of the size with some record less than the size behind it; without a
      positive size, the time of a record. */
  ghost predicate IsBucket(s: seq<Timed>, size: int, b: int) {
    if size > 0 then b % size == 0 && exists x :: x in s && b <= x.at < b + size
    else exists x :: x in s && x.at == b
  }

  /** The buckets are the spans with records, and each holds the records of its span. */
  ghost predicate Tumbles(s: seq<Timed>, size: int, out: map<int, seq<Record>>) {
    && (forall b :: b in out <==> IsBucket(s, size, b))
    && (forall b :: b in out ==> HoldsSpan(s, b, b + if size > 0 then size else 1, out[b]))
  }

  lemma TumblingExact(s: seq<Timed>, size: int, out: map<int, seq<Record>>)
    requires IsTumbling(s, size, out)
    ensures Tumbles(s, size, out)
  {
    hide IsBucket, HoldsSpan, Truncate, Select;
    forall b ensures b in out <==> IsBucket(s, size, b) {
      BucketExact(s, size, b);
    }
    forall b | b in out ensures HoldsSpan(s, b, b + if size > 0 then size else 1, out[b]) {
      SelectHolds(s, b, b + Span(size));
    }
  }

  lemma BucketExact(s: seq<Timed>, size: int, b: int)
    ensures (exists x :: x in s && Truncate(x.at, size) == b) <==> IsBucket(s, size, b)
  {
    if size > 0 {
      forall x: Timed ensures Truncate(x.at, size) == b <==> b % size == 0 && b <= x.at < b + size {
        TruncateMultiple(x.at, size);
        if b % size == 0 && b <= x.at {
          MultipleBelow(b, x.at, size);
        }
      }
    }
  }

  lemma TumblingStep(s: seq<Timed>, x: Timed, size: int, out: map<int, seq<Record>>)
    requires IsTumbling(s, size, out)
    ensures var bucket := Truncate(x.at, size);
            IsTumbling(s + [x], size, out[bucket := (if bucket in out then out[bucket] else []) + [x.rec]])
  {
    hide Truncate, Select, Span;
    var c := Truncate(x.at, size);
    var out' := out[c := (if c in out then out[c] else []) + [x.rec]];
    forall b ensures b in out' <==> exists y :: y in s + [x] && Truncate(y.at, size) == b {
      if b == c {
        assert x in s + [x];
      } else if b in out {
        var y :| y in s && Truncate(y.at, size) == b;
        assert y in s + [x];
      }
    }
    forall b | b in out' ensures out'[b] == Select(s + [x], b, b + Span(size)) {
      TumblingBucket(s, x, size, out, b);
    }
  }

  lemma TumblingBucket(s: seq<Timed>, x: Timed, size: int, out: map<int, seq<Record>>, b: int)
    requires IsTumbling(s, size, out) && (b in out || b == Truncate(x.at, size))
    ensures Select(s + [x], b, b + Span(size)) ==
            (if b in out then out[b] else []) + (if b == Truncate(x.at, size) then [x.rec] else [])
  {
    hide Truncate, Select, Span;
    SelectSnoc(s, x, b, b + Span(size));
    InBucket(x.at, x.at, size);
    if b in out {
      var y :| y in s && Truncate(y.at, size) == b;
      InBucket(x.at, y.at, size);
    } else {
      EmptyBucket(s, x, size);
    }
  }

  lemma EmptyBucket(s: seq<Timed>, x: Timed, size: int)
    requires forall y :: y in s ==> Truncate(y.at, size) != Truncate(x.at, size)
    ensures Select(s, Truncate(x.at, size), Truncate(x.at, size) + Span(size)) == []
  {
    var c := Truncate(x.at, size);
    forall y | y in s ensures !(c <= y.at < c + Span(size)) {
      InBucket(y.at, x.at, size);
    }
    SelectNone(s, c, c + Span(size));
  }

  /** The records in the window of the given size that starts at w. */
  function Window(s: seq<Timed>, w: int, size: int): seq<Record> {
    Select(s, w, w + size)
  }

  /** Every window starts at a multiple of slide no earlier than the first
      record's, is not empty, and holds exactly the records of its span. */
  ghost predicate IsSliding(s: seq<Timed>, size: int, slide: int, out: map<int, seq<Record>>)
    requires s != [] ==> slide > 0
  {
    && (forall w :: w in out <==>
          s != [] && w % slide == 0 && Truncate(s[0].at, slide) <= w && Window(s, w, size) != [])
    && (forall w :: w in out ==> out[w] == Window(s, w, size))
  }

  /** Sorts its input in place. On a non-empty input the loop ends only if the
      window start moves forward. */
  method SlidingWindows(a: array<Timed>, size: int, slide: int) returns (out: map<int, seq<Record>>)
    requires a.Length > 0 ==> slide > 0
    modifies a
    ensures multiset(a[..]) == old(multiset(a[..]))
    ensures ByTime(a[..]) && IsSliding(a[..], size, slide, out)
    ensures Slides(a[..], size, slide, out)
  {
    hide IsSliding, Slides, ByTime;
    NoWindows(size, slide);
    out := map[];
    if a.Length == 0 {
      assert a[..] == [];
      return;
    }
    SortInPlace(a);
    out := Slide(a[..], size, slide);
    SlidingExact(a[..], size, slide, out);
  }

  lemma NoWindows(size: int, slide: int)
    ensures IsSliding([], size, slide, map[]) && Slides([], size, slide, map[]) && ByTime([])
  {
  }

  /** A multiple of the slide less than a slide before the first record, or later, with
      some record less than the size behind it. */
  ghost predicate IsStart(s: seq<Timed>, size: int, slide: int, w: int)
    requires s != [] && slide > 0
  {
    w % slide == 0 && s[0].at - slide < w && exists x :: x in s && w <= x.at < w + size
  }

  /** The windows are those with records, and each holds the records of its span. */
  ghost predicate Slides(s: seq<Timed>, size: int, slide: int, out: map<int, seq<Record>>)
    requires s != [] ==> slide > 0
  {
    && (forall w :: w in out <==> s != [] && IsStart(s, size, slide, w))
    && (forall w :: w in out ==> HoldsSpan(s, w, w + size, out[w]))
  }

  lemma SlidingExact(s: seq<Timed>, size: int, slide: int, out: map<int, seq<Record>>)
    requires s != [] && slide > 0 && IsSliding(s, size, slide, out)
    ensures Slides(s, size, slide, out)
  {
    hide IsStart, HoldsSpan, Truncate, Select;
    forall w ensures w in out <==> IsStart(s, size, slide, w) {
      StartExact(s, size, slide, w);
    }
    forall w | w in out ensures HoldsSpan(s, w, w + size, out[w]) {
      SelectHolds(s, w, w + size);
    }
  }

  lemma StartExact(s: seq<Timed>, size: int, slide: int, w: int)
    requires s != [] && slide > 0
    ensures w % slide == 0 && Truncate(s[0].at, slide) <= w && Window(s, w, size) != [] <==> IsStart(s, size, slide, w)
  {
    TruncateMultiple(s[0].at, slide);
    SelectNone(s, w, w + size);
    if w % slide == 0 && s[0].at - slide < w {
      if w <= s[0].at {
        MultipleBelow(w, s[0].at, slide);
      }
    }
  }

  /** The windows that start before w are done. */
  ghost predicate DoneBefore(s: seq<Timed>, size: int, slide: int, start: int, w: int, out: map<int, seq<Record>>)
    requires slide > 0
  {
    && (forall v :: v in out <==> v % slide == 0 && start <= v < w && Window(s, v, size) != [])
    && (forall v :: v in out ==> out[v] == Window(s, v, size))
  }

  method Slide(s: seq<Timed>, size: int, slide: int) returns (out: map<int, seq<Record>>)
    requires s != [] && slide > 0 && ByTime(s)
    ensures IsSliding(s, size, slide, out)
  {
    hide IsSliding, DoneBefore;
    var start := Truncate(s[0].at, slide);
    var end := s[|s| - 1].at;
    var w := start;
    out := map[];
    TruncateMultiple(s[0].at, slide);
    NoneBefore(s, size, slide, start);
    while w <= end
      invariant w % slide == 0 && start <= w
      invariant DoneBefore(s, size, slide, start, w, out)
      decreases end - w
    {
      OneMore(s, size, slide, start, w, out);
      out := FillWindow(out, s, w, w + size);
      NextMultiple(w, slide);
      w := w + slide;
    }
    AllDone(s, size, slide, w, out);
  }

  lemma NoneBefore(s: seq<Timed>, size: int, slide: int, start: int)
    requires slide > 0
    ensures DoneBefore(s, size, slide, start, start, map[])
  {
  }

  lemma OneMore(s: seq<Timed>, size: int, slide: int, start: int, w: int, out: map<int, seq<Record>>)
    requires slide > 0 && w % slide == 0 && start <= w && DoneBefore(s, size, slide, start, w, out)
    ensures w !in out
    ensures DoneBefore(s, size, slide, start, w + slide,
                       if Window(s, w, size) == [] then out else out[w := Window(s, w, size)])
  {
    hide Select, Window;
    NextMultiple(w, slide);
  }

  lemma AllDone(s: seq<Timed>, size: int, slide: int, w: int, out: map<int, seq<Record>>)
    requires s != [] && slide > 0 && ByTime(s) && s[|s| - 1].at < w
    requires DoneBefore(s, size, slide, Truncate(s[0].at, slide), w, out)
    ensures IsSliding(s, size, slide, out)
  {
    forall v {:trigger Window(s, v, size)} ensures Window(s, v, size) != [] ==> v < w {
      SelectNone(s, v, v + size);
    }
    hide Window, Truncate;
  }

  /** There is no multiple strictly between two neighbours. */
  lemma NextMultiple(w: int, d: int)
    requires d > 0 && w % d == 0
    ensures (w + d) % d == 0
    ensures forall v :: v % d == 0 && v < w + d ==> v <= w
  {
    assert w + d == (w / d + 1) * d;
    MultipleMod(w / d + 1, d);
    forall v | v % d == 0 && v < w + d ensures v <= w {
      MulGap(w / d, v / d, d);
    }
  }

  /** The inner loop: the records of one window. */
  method FillWindow(out0: map<int, seq<Record>>, s: seq<Timed>, w: int, end: int) returns (out: map<int, seq<Record>>)
    requires w !in out0
    ensures out == if Select(s, w, end) == [] then out0 else out0[w := Select(s, w, end)]
  {
    out := out0;
    for i := 0 to |s|
      invariant out == if Select(s[..i], w, end) == [] then out0 else out0[w := Select(s[..i], w, end)]
    {
      assert s[..i + 1][..i] == s[..i];
      if !(s[i].at < w) && s[i].at < end {
        out := out[w := (if w in out then out[w] else []) + [s[i].rec]];
      }
    }
    assert s[..|s|] == s;
  }

  // ---------- what sliding windows cover ----------

  /** A record is in some window exactly when its distance from the last window
      start is less than the window size; always, if windows are no shorter
      than the slide. */
  lemma SlidingCovers(s: seq<Timed>, size: int, slide: int, out: map<int, seq<Record>>, x: Timed)
    requires x in s && slide > 0 && ByTime(s) && IsSliding(s, size, slide, out)
    ensures (exists w :: w in out && w <= x.at < w + size) <==> x.at % slide < size
    ensures slide <= size ==> x.at % slide < size
  {
    var v := Truncate(x.at, slide);
    TruncateMultiple(x.at, slide);
    if x.at % slide < size {
      TruncateMultiple(s[0].at, slide);
      MultipleBelow(Truncate(s[0].at, slide), x.at, slide);
      SelectNone(s, v, v + size);
      assert v in out;
    }
    forall w | w in out && w <= x.at < w + size ensures x.at % slide < size {
      MultipleBelow(w, x.at, slide);
    }
  }

  function CeilDiv(a: int, b: int): int
    requires b > 0
  {
    (a + b - 1) / b
  }

  /** The m window starts at or before top. */
  function Starts(top: int, d: int, m: nat): (r: set<int>)
    ensures |r| <= m
  {
    if m == 0 then {} else Starts(top, d, m - 1) + {top - (m - 1) * d}
  }

  lemma {:induction false} StartAt(top: int, d: int, m: nat, j: nat)
    requires j < m
    ensures top - j * d in Starts(top, d, m)
  {
    if j < m - 1 {
      StartAt(top, d, m - 1, j);
    }
  }

  lemma SubsetSize(A: set<int>, B: set<int>)
    requires A <= B
    ensures |A| <= |B|
  {
    assert B == A + (B - A);
  }

  /** No record is in more than size/slide windows, rounded up. */
  lemma SlidingBound(s: seq<Timed>, size: int, slide: int, out: map<int, seq<Record>>, t: int)
    requires slide > 0 && size > 0 && IsSliding(s, size, slide, out)
    ensures |set w | w in out && w <= t < w + size| <= CeilDiv(size, slide)
  {
    var A := set w | w in out && w <= t < w + size;
    var top := Truncate(t, slide);
    TruncateMultiple(t, slide);
    CeilPositive(size, slide);
    var m := CeilDiv(size, slide);
    forall w | w in A ensures w in Starts(top, slide, m) {
      OneOfStarts(top, w, t, slide, size);
    }
    SubsetSize(A, Starts(top, slide, m));
  }

  lemma OneOfStarts(top: int, w: int, t: int, d: int, size: int)
    requires d > 0 && top == Truncate(t, d) && w % d == 0 && w <= t < w + size && size > 0
    ensures CeilDiv(size, d) >= 0 && w in Starts(top, d, CeilDiv(size, d))
  {
    hide Truncate, CeilDiv, Starts;
    TruncateMultiple(t, d);
    MultipleBelow(w, t, d);
    CeilPositive(size, d);
    var j := top / d - w / d;
    assert top == top / d * d && w == w / d * d;
    assert w == top - j * d;
    MulGap(top / d, w / d, d);
    CeilAbove(j, size, d);
    StartAt(top, d, CeilDiv(size, d), j);
  }

  lemma CeilPositive(size: int, d: int)
    requires d > 0 && size > 0
    ensures CeilDiv(size, d) > 0
  {
    var n := size + d - 1;
    assert n == n / d * d + n % d;
    MulGap(n / d, 1, d);
  }

  lemma CeilAbove(j: int, size: int, d: int)
    requires d > 0 && j * d < size
    ensures j < CeilDiv(size, d)
  {
    var n := size + d - 1;
    assert n == n / d * d + n % d;
    MulGap(n / d, j, d);
  }

  /** Windows as long as the slide are tumbling windows. */
  lemma SlidingIsTumbling(s: seq<Timed>, t: seq<Timed>, size: int,
                          sliding: map<int, seq<Record>>, tumbling: map<int, seq<Record>>)
    requires size > 0 && ByTime(s) && multiset(s) == multiset(t)
    requires IsSliding(s, size, size, sliding) && IsTumbling(t, size, tumbling)
    ensures sliding.Keys == tumbling.Keys
    ensures forall w :: w in sliding ==> multiset(sliding[w]) == multiset(tumbling[w])
  {
    hide Select;
    forall w ensures w in sliding <==> w in tumbling {
      SlidingKey(s, t, size, w);
    }
    forall w | w in sliding ensures multiset(sliding[w]) == multiset(tumbling[w]) {
      SelectPermutation(s, t, w, w + size);
    }
  }

  lemma SlidingKey(s: seq<Timed>, t: seq<Timed>, size: int, w: int)
    requires size > 0 && ByTime(s) && multiset(s) == multiset(t)
    ensures (s != [] && w % size == 0 && Truncate(s[0].at, size) <= w && Window(s, w, size) != [])
       <==> exists x :: x in t && Truncate(x.at, size) == w
  {
    SelectNone(s, w, w + size);
    assert forall x :: x in s <==> x in t by {
      assert forall x :: x in s <==> x in multiset(s);
    }
    hide Select;
    if w % size == 0 {
      forall x | x in s && w <= x.at < w + size ensures Truncate(x.at, size) == w {
        MultipleBelow(w, x.at, size);
      }
    }
    forall x | x in s && Truncate(x.at, size) == w
      ensures w % size == 0 && Truncate(s[0].at, size) <= w && w <= x.at < w + size
    {
      TruncateMultiple(x.at, size);
      TruncateMultiple(s[0].at, size);
      MultipleBelow(Truncate(s[0].at, size), x.at, size);
    }
  }
}
