/** Counting records by key, over the whole input and window by window. */
module Counting {
  import opened Bytes
  import opened Streams

  /** The string a key value is grouped under; fmt stands for fmt.Sprintf("%v"). */
  function KeyString(fmt: Value -> string, v: Value): string {
    if v.Str? then v.s else fmt(v)
  }

  /** The record carries the key and falls under g. */
  predicate Under(fmt: Value -> string, key: string, r: Record, g: string) {
    key in r && KeyString(fmt, r[key]) == g
  }

  /** Reference: how many records fall under g. */
  function Occurs(fmt: Value -> string, key: string, recs: seq<Record>, g: string): nat {
    if recs == [] then 0 else
      Occurs(fmt, key, recs[..|recs| - 1], g) + (if Under(fmt, key, recs[|recs| - 1], g) then 1 else 0)
  }

  /** That is, the number of places at which one does. */
  lemma {:induction false} OccursPlaces(fmt: Value -> string, key: string, recs: seq<Record>, g: string)
    ensures Occurs(fmt, key, recs, g) == |Places(fmt, key, recs, g)|
  {
    if recs != [] {
      var n := |recs| - 1;
      OccursPlaces(fmt, key, recs[..n], g);
      var before := Places(fmt, key, recs[..n], g);
      assert Places(fmt, key, recs, g) ==
             before + if key in recs[n] && KeyString(fmt, recs[n][key]) == g then {n} else {};
    }
  }

  function Places(fmt: Value -> string, key: string, recs: seq<Record>, g: string): set<int> {
    set i | 0 <= i < |recs| && key in recs[i] && KeyString(fmt, recs[i][key]) == g
  }

  lemma {:induction false} OccursConcat(fmt: Value -> string, key: string, a: seq<Record>, b: seq<Record>, g: string)
    ensures Occurs(fmt, key, a + b, g) == Occurs(fmt, key, a, g) + Occurs(fmt, key, b, g)
  {
    if b == [] {
      assert a + b == a;
    } else {
      OccursConcat(fmt, key, a, b[..|b| - 1], g);
      assert (a + b)[..|a + b| - 1] == a + b[..|b| - 1];
    }
  }

  function Get(m: map<string, int>, g: string): int {
    if g in m then m[g] else 0
  }

  /** A table of counts is right for a batch: every key that occurs, and how often. */
  ghost predicate CountsOf(fmt: Value -> string, key: string, recs: seq<Record>, m: map<string, int>) {
    forall g :: (g in m <==> Occurs(fmt, key, recs, g) > 0) && Get(m, g) == Occurs(fmt, key, recs, g)
  }

  /** The loop body of both operators. */
  method Tally(fmt: Value -> string, key: string, ghost recs: seq<Record>, r: Record, counts: map<string, int>)
    returns (counts': map<string, int>)
    requires CountsOf(fmt, key, recs, counts)
    ensures CountsOf(fmt, key, recs + [r], counts')
  {
    counts' := counts;
    if key in r {
      var s := KeyString(fmt, r[key]);
      counts' := counts[s := Get(counts, s) + 1];
    }
    assert (recs + [r])[..|recs|] == recs;
  }

  /** AggregateOperator: one table for the whole input. */
  method AggregateCounts(fmt: Value -> string, key: string, recs: seq<Record>) returns (counts: map<string, int>)
    ensures CountsOf(fmt, key, recs, counts)
    ensures forall g :: Get(counts, g) == |Places(fmt, key, recs, g)|
  {
    forall g ensures Occurs(fmt, key, recs, g) == |Places(fmt, key, recs, g)| {
      OccursPlaces(fmt, key, recs, g);
    }
    hide Places;
    counts := map[];
    for i := 0 to |recs|
      invariant CountsOf(fmt, key, recs[..i], counts)
    {
      counts := Tally(fmt, key, recs[..i], recs[i], counts);
      assert recs[..i + 1] == recs[..i] + [recs[i]];
    }
    assert recs[..|recs|] == recs;
  }

  /** The windows of a count-windowed run: size records each, the last one
      perhaps fewer; without a positive size, everything is one window. */
  function Chunks(recs: seq<Record>, size: int): (r: seq<seq<Record>>)
    ensures r != []
    decreases |recs|
  {
    if size <= 0 || |recs| < size then [recs] else [recs[..size]] + Chunks(recs[size..], size)
  }

  function Flat(chunks: seq<seq<Record>>): seq<Record> {
    if chunks == [] then [] else Flat(chunks[..|chunks| - 1]) + chunks[|chunks| - 1]
  }

  lemma {:induction false} FlatCons(x: seq<Record>, chunks: seq<seq<Record>>)
    ensures Flat([x] + chunks) == x + Flat(chunks)
  {
    if chunks == [] {
      assert [x] + chunks == [x] && [x][..0] == [];
    } else {
      FlatCons(x, chunks[..|chunks| - 1]);
      assert ([x] + chunks)[..|chunks|] == [x] + chunks[..|chunks| - 1];
      assert Flat([x] + chunks) == (x + Flat(chunks[..|chunks| - 1])) + chunks[|chunks| - 1];
    }
  }

  lemma {:induction false} ChunksFlat(recs: seq<Record>, size: int)
    ensures Flat(Chunks(recs, size)) == recs
    decreases |recs|
  {
    if size <= 0 || |recs| < size {
      assert [recs][..0] == [];
    } else {
      ChunksFlat(recs[size..], size);
      FlatCons(recs[..size], Chunks(recs[size..], size));
    }
  }

  /** The windows of recs: end to end they are recs, each but the last has size
      records and the last has fewer. There is one such list. */
  ghost predicate WindowsOf(recs: seq<Record>, size: int, chunks: seq<seq<Record>>) {
    && chunks != [] && Flat(chunks) == recs
    && (if size <= 0 then |chunks| == 1 else
          && |chunks[|chunks| - 1]| < size
          && forall i :: 0 <= i < |chunks| - 1 ==> |chunks[i]| == size)
  }

  lemma {:induction false} ChunksSized(recs: seq<Record>, size: int)
    ensures WindowsOf(recs, size, Chunks(recs, size))
    decreases |recs|
  {
    ChunksFlat(recs, size);
    if size > 0 && |recs| >= size {
      ChunksSized(recs[size..], size);
      hide Flat;
      var rest := Chunks(recs[size..], size);
      assert Chunks(recs, size) == [recs[..size]] + rest;
    }
  }

  /** The emitted tables belong to the windows in order; the last window is
      emitted only if something was counted in it. */
  ghost predicate EmittedFor(fmt: Value -> string, key: string, chunks: seq<seq<Record>>, out: seq<map<string, int>>)
    requires chunks != []
  {
    && (|out| == |chunks| || |out| == |chunks| - 1)
    && (forall i :: 0 <= i < |out| ==> CountsOf(fmt, key, chunks[i], out[i]))
    && (|out| == |chunks| - 1 ==> CountsOf(fmt, key, chunks[|chunks| - 1], map[]))
    && (|out| == |chunks| ==> out[|out| - 1] != map[])
  }

  /** Where a count-windowed run stands after i records: the closed windows and
      their tables, and the table of the window opened at start. */
  ghost predicate At(fmt: Value -> string, key: string, size: int, recs: seq<Record>, i: nat, start: nat,
                     done: seq<seq<Record>>, out: seq<map<string, int>>, counts: map<string, int>)
  {
    && start <= i <= |recs| && |done| == |out|
    && (size > 0 ==> start % size == 0)
    && Chunks(recs, size) == done + Chunks(recs[start..], size)
    && (forall j :: 0 <= j < |out| ==> CountsOf(fmt, key, done[j], out[j]))
    && CountsOf(fmt, key, recs[start..i], counts)
  }

  /** WindowAggregateOperator: the window is over when the record counter is a
      multiple of its size. */
  method WindowCounts(fmt: Value -> string, key: string, size: int, recs: seq<Record>)
    returns (out: seq<map<string, int>>)
    ensures EmittedFor(fmt, key, Chunks(recs, size), out)
    ensures exists chunks :: WindowsOf(recs, size, chunks) && EmittedFor(fmt, key, chunks, out)
  {
    ChunksSized(recs, size);
    hide At, EmittedFor, Chunks, CountsOf, WindowsOf;
    out := [];
    var counts: map<string, int> := map[];
    var seen := 0;
    ghost var start: nat := 0;
    ghost var done: seq<seq<Record>> := [];
    AtStart(fmt, key, size, recs);
    for i := 0 to |recs|
      invariant seen == i && start <= i && (size > 0 ==> i < start + size)
      invariant At(fmt, key, size, recs, i, start, done, out, counts)
    {
      AtInside(fmt, key, size, recs, i, start, done, out, counts);
      counts := Tally(fmt, key, recs[start..i], recs[i], counts);
      AtNext(fmt, key, size, recs, i, start, done, out, counts);
      seen := seen + 1;
      if size > 0 {
        Boundary(seen, start, size);
      }
      if size > 0 && seen % size == 0 {
        AtClose(fmt, key, size, recs, seen, start, done, out, counts);
        out := out + [counts];
        done := done + [recs[start..seen]];
        start := seen;
        counts := map[];
      }
    }
    AtEnd(fmt, key, size, recs, start, done, out, counts);
    if counts != map[] {
      out := out + [counts];
    }
  }

  lemma AtStart(fmt: Value -> string, key: string, size: int, recs: seq<Record>)
    ensures At(fmt, key, size, recs, 0, 0, [], [], map[])
  {
    assert recs[0..] == recs && recs[0..0] == [];
  }

  lemma AtInside(fmt: Value -> string, key: string, size: int, recs: seq<Record>, i: nat, start: nat,
                 done: seq<seq<Record>>, out: seq<map<string, int>>, counts: map<string, int>)
    requires At(fmt, key, size, recs, i, start, done, out, counts)
    ensures start <= i <= |recs| && CountsOf(fmt, key, recs[start..i], counts)
    ensures size > 0 ==> start % size == 0
  {
  }

  lemma AtNext(fmt: Value -> string, key: string, size: int, recs: seq<Record>, i: nat, start: nat,
               done: seq<seq<Record>>, out: seq<map<string, int>>, counts: map<string, int>)
    requires exists c :: At(fmt, key, size, recs, i, start, done, out, c)
    requires i < |recs| && start <= i && CountsOf(fmt, key, recs[start..i] + [recs[i]], counts)
    ensures At(fmt, key, size, recs, i + 1, start, done, out, counts)
  {
    hide CountsOf;
    assert recs[start..i + 1] == recs[start..i] + [recs[i]];
  }

  lemma AtClose(fmt: Value -> string, key: string, size: int, recs: seq<Record>, i: nat, start: nat,
                done: seq<seq<Record>>, out: seq<map<string, int>>, counts: map<string, int>)
    requires At(fmt, key, size, recs, i, start, done, out, counts) && size > 0 && i == start + size && i % size == 0
    ensures At(fmt, key, size, recs, i, i, done + [recs[start..i]], out + [counts], map[])
  {
    NothingCounted(fmt, key);
    hide CountsOf;
    var rest := recs[start..];
    assert rest[..size] == recs[start..i] && rest[size..] == recs[i..] && recs[i..i] == [];
    assert Chunks(rest, size) == [recs[start..i]] + Chunks(recs[i..], size);
  }

  lemma AtEnd(fmt: Value -> string, key: string, size: int, recs: seq<Record>, start: nat,
              done: seq<seq<Record>>, out: seq<map<string, int>>, counts: map<string, int>)
    requires At(fmt, key, size, recs, |recs|, start, done, out, counts) && (size > 0 ==> |recs| < start + size)
    ensures EmittedFor(fmt, key, Chunks(recs, size), if counts == map[] then out else out + [counts])
  {
    hide CountsOf;
    assert recs[start..] == recs[start..|recs|];
    LastChunk(recs, start, size);
  }

  lemma LastChunk(recs: seq<Record>, start: nat, size: int)
    requires start <= |recs| && (size <= 0 || |recs| < start + size)
    ensures Chunks(recs[start..], size) == [recs[start..]]
  {
  }

  lemma NothingCounted(fmt: Value -> string, key: string)
    ensures CountsOf(fmt, key, [], map[])
  {
  }

  /** A counter inside a window is a multiple of the size exactly at its end. */
  lemma Boundary(seen: int, start: int, size: int)
    requires size > 0 && start % size == 0 && start < seen <= start + size
    ensures seen % size == 0 <==> seen == start + size
  {
    var k := start / size;
    assert start == k * size;
    if seen == start + size {
      DivModUnique(seen, size, k + 1, 0);
    } else {
      DivModUnique(seen, size, k, seen - start);
    }
  }

  function Total(out: seq<map<string, int>>, g: string): int {
    if out == [] then 0 else Total(out[..|out| - 1], g) + Get(out[|out| - 1], g)
  }

  lemma {:induction false} TotalIsOccurs(fmt: Value -> string, key: string, chunks: seq<seq<Record>>,
                                         out: seq<map<string, int>>, g: string)
    requires |out| == |chunks| && forall i :: 0 <= i < |out| ==> CountsOf(fmt, key, chunks[i], out[i])
    ensures Total(out, g) == Occurs(fmt, key, Flat(chunks), g)
  {
    if out != [] {
      var n := |out| - 1;
      TotalIsOccurs(fmt, key, chunks[..n], out[..n], g);
      OccursConcat(fmt, key, Flat(chunks[..n]), chunks[n], g);
      assert CountsOf(fmt, key, chunks[n], out[n]);
    }
  }

  /** For any window size, the counts of all windows add up to the counts of the
      whole input. */
  lemma WindowsConserveCounts(fmt: Value -> string, key: string, size: int, recs: seq<Record>,
                              out: seq<map<string, int>>, whole: map<string, int>, g: string)
    requires EmittedFor(fmt, key, Chunks(recs, size), out)
    requires CountsOf(fmt, key, recs, whole)
    ensures Total(out, g) == Get(whole, g)
  {
    var chunks := Chunks(recs, size);
    var all := if |out| == |chunks| then out else out + [map[]];
    TotalIsOccurs(fmt, key, chunks, all, g);
    ChunksFlat(recs, size);
    assert |out| < |chunks| ==> all[..|all| - 1] == out;
  }
}
