/** Every run of a segment refines a list of records: appends (successful or
    cut short by a fault), torn index files and reopenings. */
module SegmentRuns {
  import opened Bytes
  import opened Order
  import opened SegmentState

  /** What a segment stands for: its records, at consecutive offsets, and how
      many of them the index file on disk still covers. */
  datatype Abs = Abs(recs: seq<Record>, durable: nat)

  datatype Op =
    | AppendOp(rec: Record, fault: Fault)
    | TearIndex(n: nat)  // the index file loses all but its first n bytes
    | Reopen

  ghost function Step(c: Codec, base: int, s: Seg, op: Op): Seg
    requires 0 <= s.position <= |s.log|
  {
    match op
    case AppendOp(rec, fault) => Append(c, s, rec, fault)
    case TearIndex(n) => s.(indexFile := Take(s.indexFile, n))
    case Reopen => Open(s.log, s.indexFile, s.timeFile, base)
  }

  function Min(a: int, b: int): int {
    if a < b then a else b
  }

  /** How many entries the index file covers after one more record. */
  function Durable(a: Abs, fault: Fault): nat {
    match fault
    case IndexOpen => a.durable
    case IndexWrite(n) => Min(n / 16, |a.recs| + 1)
    case _ => |a.recs| + 1
  }

  function AbsStep(c: Codec, position: int, a: Abs, op: Op): Abs {
    match op
    case AppendOp(rec, fault) =>
      if Keeps(c, position, rec, fault) then Abs(a.recs + [rec], Durable(a, fault)) else a
    case TearIndex(n) => a.(durable := Min(n / 16, a.durable))
    case Reopen => if a.durable <= |a.recs| then Abs(a.recs[..a.durable], a.durable) else a
  }

  function FrameEnd(log: seq<byte>, pos: int): int
    requires 0 <= pos <= |log| - 4
  {
    pos + 4 + BeNat(log[pos..pos + 4])
  }

  /** The frame at pos lies inside the log, below limit, and decodes to rec. */
  predicate HoldsAt(c: Codec, log: seq<byte>, pos: int, limit: int, rec: Record) {
    && 0 <= pos <= |log| - 4
    && FrameEnd(log, pos) <= limit <= |log|
    && c.dec(log[pos + 4..FrameEnd(log, pos)]) == Some(rec)
  }

  /** Start of frame i, or the write position after the last frame. */
  function Start(s: Seg, base: int, i: nat): int {
    if base + i in s.offsets then s.offsets[base + i] else s.position
  }

  ghost predicate Indexed(s: Seg, base: int, n: nat) {
    && s.nextOffset == base + n
    && forall k :: k in s.offsets <==> base <= k < base + n
  }

  /** Frames do not overlap: each ends before the next one starts. */
  ghost predicate Frames(c: Codec, s: Seg, base: int, recs: seq<Record>) {
    forall i {:trigger recs[i]} :: 0 <= i < |recs| ==>
      HoldsAt(c, s.log, Start(s, base, i), Start(s, base, i + 1), recs[i])
  }

  /** The file holds the first d entries of a table, and perhaps part of one more. */
  ghost predicate Covers(file: seq<byte>, table: seq<byte>, d: nat) {
    && |file| / 16 == d
    && file[..16 * d] <= table
  }

  /** The in-memory index finds every record in the log. */
  ghost predicate Readable(c: Codec, s: Seg, base: int, recs: seq<Record>) {
    && 0 <= base <= TWO63 / 2
    && 0 <= s.position <= |s.log| <= MAX_INT64
    && 4 * |recs| <= s.position
    && Indexed(s, base, |recs|)
    && Frames(c, s, base, recs)
  }

  /** The invariant of every run: s stands for a. */
  ghost predicate Sound(c: Codec, s: Seg, base: int, a: Abs) {
    && Readable(c, s, base, a.recs)
    && Covers(s.indexFile, IndexBytes(s.offsets), a.durable)
  }

  /** The first p bytes of a file are unchanged. */
  ghost predicate Below(log: seq<byte>, log': seq<byte>, p: int) {
    && 0 <= p <= |log| && p <= |log'|
    && log'[..p] == log[..p]
  }

  // ---------- one step ----------

  lemma FrameSurvives(c: Codec, log: seq<byte>, log': seq<byte>, pos: int, limit: int, rec: Record)
    requires HoldsAt(c, log, pos, limit, rec)
    requires limit <= |log'| && log'[..limit] == log[..limit]
    ensures HoldsAt(c, log', pos, limit, rec)
  {
    assert BeNat(log[pos..pos + 4]) >= 0;
    assert log'[pos..pos + 4] == log'[..limit][pos..pos + 4] == log[..limit][pos..pos + 4] == log[pos..pos + 4];
    var e := FrameEnd(log, pos);
    assert log'[pos + 4..e] == log'[..limit][pos + 4..e] == log[..limit][pos + 4..e] == log[pos + 4..e];
  }

  lemma {:induction false} StartsBelow(c: Codec, s: Seg, base: int, recs: seq<Record>, i: nat)
    requires Indexed(s, base, |recs|) && Frames(c, s, base, recs) && i <= |recs|
    ensures Start(s, base, i) <= s.position
    decreases |recs| - i
  {
    if i < |recs| {
      StartsBelow(c, s, base, recs, i + 1);
      assert HoldsAt(c, s.log, Start(s, base, i), Start(s, base, i + 1), recs[i]);
    }
  }

  /** Whatever is written at or after the write position leaves every frame readable. */
  lemma FramesSurvive(c: Codec, s: Seg, base: int, recs: seq<Record>, log': seq<byte>)
    requires Indexed(s, base, |recs|) && Frames(c, s, base, recs)
    requires 0 <= s.position <= |s.log| && s.position <= |log'|
    requires log'[..s.position] == s.log[..s.position]
    ensures Frames(c, s.(log := log'), base, recs)
  {
    var s' := s.(log := log');
    forall i | 0 <= i < |recs|
      ensures HoldsAt(c, s'.log, Start(s', base, i), Start(s', base, i + 1), recs[i])
    {
      StartsBelow(c, s, base, recs, i + 1);
      var limit := Start(s, base, i + 1);
      assert HoldsAt(c, s.log, Start(s, base, i), limit, recs[i]);
      assert log'[..limit] == log'[..s.position][..limit] == s.log[..limit];
      FrameSurvives(c, s.log, log', Start(s, base, i), limit, recs[i]);
    }
  }

  lemma StoreFrame(c: Codec, log: seq<byte>, pos: int, rec: Record)
    requires RoundTrips(c) && c.enc(rec).Some? && |c.enc(rec).value| <= 0xFFFFFFFF
    requires 0 <= pos <= |log|
    ensures var payload := c.enc(rec).value;
            var log' := WriteAt(WriteAt(log, pos, BeBytes(|payload|, 4)), pos + 4, payload);
            && HoldsAt(c, log', pos, pos + 4 + |payload|, rec)
            && FrameEnd(log', pos) == pos + 4 + |payload|
            && log'[..pos] == log[..pos]
  {
    var payload := c.enc(rec).value;
    var prefix := BeBytes(|payload|, 4);
    var log1 := WriteAt(log, pos, prefix);
    var log2 := WriteAt(log1, pos + 4, payload);
    assert log2[pos..pos + 4] == log2[..pos + 4][pos..] == log1[..pos + 4][pos..] == log1[pos..pos + 4] == prefix;
    assert log2[..pos] == log2[..pos + 4][..pos] == log1[..pos + 4][..pos] == log1[..pos] == log[..pos];
    U32RoundTrip(|payload|);
  }

  lemma StoreSound(c: Codec, s: Seg, base: int, recs: seq<Record>, rec: Record)
    requires RoundTrips(c) && c.enc(rec).Some? && |c.enc(rec).value| <= 0xFFFFFFFF
    requires 0 <= s.position <= |s.log|
    requires Indexed(s, base, |recs|) && Frames(c, s, base, recs)
    ensures var s' := Store(s, rec, c.enc(rec).value);
            && Indexed(s', base, |recs| + 1)
            && Frames(c, s', base, recs + [rec])
            && s'.log[..s.position] == s.log[..s.position]
            && s'.position <= |s'.log|
            && FrameEnd(s'.log, s.position) == s'.position
  {
    var s' := Store(s, rec, c.enc(rec).value);
    var recs' := recs + [rec];
    StoreFrame(c, s.log, s.position, rec);
    FramesSurvive(c, s, base, recs, s'.log);
    forall i | 0 <= i < |recs'|
      ensures HoldsAt(c, s'.log, Start(s', base, i), Start(s', base, i + 1), recs'[i])
    {
      if i < |recs| {
        assert recs'[i] == recs[i];
        assert HoldsAt(c, s'.log, Start(s, base, i), Start(s, base, i + 1), recs[i]);
      }
    }
  }

  lemma AppendSound(c: Codec, s: Seg, base: int, a: Abs, rec: Record, fault: Fault)
    requires RoundTrips(c) && Sound(c, s, base, a)
    ensures Sound(c, Append(c, s, rec, fault), base, AbsStep(c, s.position, a, AppendOp(rec, fault)))
    ensures Below(s.log, Append(c, s, rec, fault).log, s.position)
  {
    if Keeps(c, s.position, rec, fault) {
      AppendKept(c, s, base, a, rec, fault);
    } else {
      CutShort(c, s, rec, fault);
      FramesSurvive(c, s, base, a.recs, Append(c, s, rec, fault).log);
    }
  }

  lemma AppendKept(c: Codec, s: Seg, base: int, a: Abs, rec: Record, fault: Fault)
    requires RoundTrips(c) && Sound(c, s, base, a) && Keeps(c, s.position, rec, fault)
    ensures Sound(c, Append(c, s, rec, fault), base, AbsStep(c, s.position, a, AppendOp(rec, fault)))
    ensures Below(s.log, Append(c, s, rec, fault).log, s.position)
  {
    hide Frames, IndexBytes, Append, Covers, Durable, WriteAt, IndexAfter, TimeAfter, Range, SortedKeys, Ascending;
    hide RoundTrips, FrameEnd;
    var t := Store(s, rec, c.enc(rec).value);
    var s' := Persist(t, fault);
    KeptShape(c, s, rec, fault);
    StoreSound(c, s, base, a.recs, rec);
    FramesCongruent(c, t, s', base, a.recs + [rec]);
    IndexGrows(s.offsets, s.nextOffset, s.position);
    SizeOfIndex(t, base, |a.recs| + 1);
    PersistCovers(s.indexFile, IndexBytes(s.offsets), IndexBytes(t.offsets), a, fault);
  }

  lemma KeptShape(c: Codec, s: Seg, rec: Record, fault: Fault)
    requires 0 <= s.position <= |s.log| && Keeps(c, s.position, rec, fault)
    ensures Append(c, s, rec, fault) == Persist(Store(s, rec, c.enc(rec).value), fault)
  {
  }

  lemma PersistCovers(file: seq<byte>, table: seq<byte>, table': seq<byte>, a: Abs, fault: Fault)
    requires Covers(file, table, a.durable) && table <= table' && |table'| == 16 * (|a.recs| + 1)
    ensures Covers(IndexAfter(file, table', fault), table', Durable(a, fault))
  {
    hide Covers;
    CoversMore(file, table, table', a.durable);
    CoversItself(table', table', |a.recs| + 1);
    if fault.IndexWrite? {
      CoversTorn(table', table', |a.recs| + 1, fault.n);
    }
  }

  lemma CoversItself(file: seq<byte>, table: seq<byte>, d: nat)
    requires file <= table && |file| == 16 * d
    ensures Covers(file, table, d)
  {
  }

  lemma CoversMore(file: seq<byte>, table: seq<byte>, table': seq<byte>, d: nat)
    requires Covers(file, table, d) && table <= table'
    ensures Covers(file, table', d)
  {
  }

  lemma FramesCongruent(c: Codec, s: Seg, t: Seg, base: int, recs: seq<Record>)
    requires Frames(c, s, base, recs)
    requires s.log == t.log && s.offsets == t.offsets && s.position == t.position
    ensures Frames(c, t, base, recs)
  {
    forall i | 0 <= i < |recs|
      ensures HoldsAt(c, t.log, Start(t, base, i), Start(t, base, i + 1), recs[i])
    {
      assert HoldsAt(c, s.log, Start(s, base, i), Start(s, base, i + 1), recs[i]);
    }
  }

  lemma CutShort(c: Codec, s: Seg, rec: Record, fault: Fault)
    requires 0 <= s.position <= |s.log| <= MAX_INT64
    requires !Keeps(c, s.position, rec, fault)
    ensures var s' := Append(c, s, rec, fault);
            && s' == s.(log := s'.log)
            && s.position <= |s'.log| <= MAX_INT64
            && s'.log[..s.position] == s.log[..s.position]
  {
    if c.enc(rec).Some? {
      var prefix := BeBytes(|c.enc(rec).value|, 4);
      var log1 := WriteAt(s.log, s.position, prefix);
      assert log1[..s.position + 4][..s.position] == log1[..s.position];
      if fault.PayloadWrite? {
        var log2 := WriteAt(log1, s.position + 4, Take(c.enc(rec).value, fault.n));
        assert log2[..s.position] == log2[..s.position + 4][..s.position];
      }
    }
  }

  lemma SizeOfIndex(s: Seg, base: int, n: nat)
    requires Indexed(s, base, n)
    ensures SortedKeys(s.offsets) == Range(base, n)
    ensures |IndexBytes(s.offsets)| == 16 * n
  {
    IntTotal();
    AscendingUnique(SortedKeys(s.offsets), Range(base, n), IntLess);
  }

  function Range(base: int, n: nat): (r: seq<int>)
    ensures |r| == n && forall i :: 0 <= i < n ==> r[i] == base + i
    ensures forall k :: k in r <==> base <= k < base + n
  {
    var r := seq(n, i => base + i);
    assert forall k :: base <= k < base + n ==> k in r by {
      forall k | base <= k < base + n ensures k in r { assert r[k - base] == k; }
    }
    r
  }

  /** Reopening from the bytes on disk gives the records the index file still covers. */
  lemma ReopenSound(c: Codec, s: Seg, base: int, a: Abs)
    requires Sound(c, s, base, a)
    ensures Sound(c, Step(c, base, s, Reopen), base, AbsStep(c, s.position, a, Reopen))
    ensures a.durable <= |a.recs|
  {
    var n := a.durable;
    var s' := Step(c, base, s, Reopen);
    SizeOfIndex(s, base, |a.recs|);
    OffsetsEncodable(c, s, base, a.recs);
    ReopenIndex(s, base, |a.recs|, n);
    FramesRestrict(c, s, s', base, a.recs, n);
  }

  /** Forgetting the last frames and writing further on keeps the first n readable. */
  lemma FramesRestrict(c: Codec, s: Seg, s': Seg, base: int, recs: seq<Record>, n: nat)
    requires Indexed(s, base, |recs|) && Frames(c, s, base, recs) && n <= |recs|
    requires Indexed(s', base, n) && s'.log == s.log && s.position <= s'.position <= |s'.log|
    requires forall k :: base <= k < base + n ==> s'.offsets[k] == s.offsets[k]
    ensures Frames(c, s', base, recs[..n])
  {
    forall i | 0 <= i < n
      ensures HoldsAt(c, s'.log, Start(s', base, i), Start(s', base, i + 1), recs[..n][i])
    {
      StartsBelow(c, s, base, recs, i + 1);
      assert HoldsAt(c, s.log, Start(s, base, i), Start(s, base, i + 1), recs[i]);
    }
  }

  lemma ReopenIndex(s: Seg, base: int, size: nat, n: nat)
    requires Indexed(s, base, size) && Encodable(s.offsets)
    requires Covers(s.indexFile, IndexBytes(s.offsets), n) && n <= size
    ensures var s' := Open(s.log, s.indexFile, s.timeFile, base);
            && Indexed(s', base, n)
            && (forall k :: base <= k < base + n ==> s'.offsets[k] == s.offsets[k])
            && Covers(s'.indexFile, IndexBytes(s'.offsets), n)
  {
    var s' := Open(s.log, s.indexFile, s.timeFile, base);
    SizeOfIndex(s, base, size);
    LoadedIndex(s.indexFile, Range(base, size), s.offsets, base, n);
    assert Indexed(s', base, n);
    SizeOfIndex(s', base, n);
    RangePrefix(base, size, n);
    TableCovers(s.indexFile, Range(base, size), s.offsets, s'.offsets, n);
  }

  lemma RangePrefix(base: int, size: nat, n: nat)
    requires n <= size
    ensures Range(base, size)[..n] == Range(base, n)
  {
  }

  lemma LoadedIndex(file: seq<byte>, ks: seq<int>, m: map<int, int>, base: int, n: nat)
    requires forall k :: k in ks ==> k in m
    requires Encodable(m) && Covers(file, TableBytes(ks, m), n)
    requires n <= |ks| && forall i :: 0 <= i < n ==> ks[i] == base + i
    ensures LoadNext(file, base, n) == base + n
    ensures forall k :: k in LoadMap(file, n) <==> base <= k < base + n
    ensures forall k :: base <= k < base + n ==> k in m && LoadMap(file, n)[k] == m[k]
  {
    hide TableBytes, LoadMap, LoadNext;
    LoadPrefix(file, ks, m, n);
    LoadedNext(file, ks, m, base, n);
    forall k | base <= k < base + n ensures k in ks[..n] && k in ks {
      assert ks[..n][k - base] == k;
      assert ks[k - base] == k;
    }
  }

  lemma TableCovers(file: seq<byte>, ks: seq<int>, m: map<int, int>, m': map<int, int>, n: nat)
    requires forall k :: k in ks ==> k in m
    requires n <= |ks| && forall k :: k in ks[..n] ==> k in m' && m[k] == m'[k]
    requires Covers(file, TableBytes(ks, m), n)
    ensures Covers(file, TableBytes(ks[..n], m'), n)
  {
    TablePrefix(ks, m, n);
    TableAgree(ks[..n], m, m');
  }

  lemma OffsetsEncodable(c: Codec, s: Seg, base: int, recs: seq<Record>)
    requires Readable(c, s, base, recs)
    ensures Encodable(s.offsets)
  {
    forall k | k in s.offsets ensures IsInt64(k) && IsInt64(s.offsets[k]) {
      var i := k - base;
      StartsBelow(c, s, base, recs, i);
      assert HoldsAt(c, s.log, Start(s, base, i), Start(s, base, i + 1), recs[i]);
    }
  }

  lemma {:induction false} LoadedNext(data: seq<byte>, ks: seq<int>, m: map<int, int>, base: int, n: nat)
    requires forall k :: k in ks ==> k in m
    requires Encodable(m) && 16 * n <= |data| && data[..16 * n] <= TableBytes(ks, m)
    requires forall i :: 0 <= i < n ==> ks[i] == base + i
    ensures LoadNext(data, base, n) == base + n
  {
    if n > 0 {
      assert data[..16 * (n - 1)] == data[..16 * n][..16 * (n - 1)];
      LoadedNext(data, ks, m, base, n - 1);
      PrefixEntry(data, ks, m, n - 1);
    }
  }

  lemma StepSound(c: Codec, base: int, s: Seg, a: Abs, op: Op)
    requires RoundTrips(c) && Sound(c, s, base, a)
    ensures Sound(c, Step(c, base, s, op), base, AbsStep(c, s.position, a, op))
  {
    match op
    case AppendOp(rec, fault) => AppendSound(c, s, base, a, rec, fault);
    case TearIndex(n) =>
      var s' := Step(c, base, s, op);
      FramesCongruent(c, s, s', base, a.recs);
      CoversTorn(s.indexFile, IndexBytes(s.offsets), a.durable, n);
    case Reopen => ReopenSound(c, s, base, a);
  }

  lemma CoversTorn(file: seq<byte>, table: seq<byte>, d: nat, n: nat)
    requires Covers(file, table, d)
    ensures Covers(Take(file, n), table, Min(n / 16, d))
  {
    var k := Min(n / 16, d);
    assert Take(file, n)[..16 * k] == file[..16 * d][..16 * k];
  }

  // ---------- whole runs ----------

  /** The state and its meaning after a run from an empty directory. */
  ghost function Run(c: Codec, base: int, ops: seq<Op>): (r: (Seg, Abs))
    requires RoundTrips(c) && 0 <= base <= TWO63 / 2
    ensures Sound(c, r.0, base, r.1)
  {
    if ops == [] then
      var s := Open([], [], [], base);
      (s, Abs([], 0))
    else
      var (s, a) := Run(c, base, ops[..|ops| - 1]);
      var op := ops[|ops| - 1];
      StepSound(c, base, s, a, op);
      (Step(c, base, s, op), AbsStep(c, s.position, a, op))
  }

  /** The part of a list a reader asks for: from an absolute offset, at most max records. */
  function Slice(recs: seq<Record>, base: int, from: int, max: int): seq<Record> {
    var i := if from <= base then 0 else from - base;
    if i >= |recs| then [] else Take(recs[i..], Limit(max))
  }

  /** In every reachable state reading an offset returns the record with that
      offset, and an offset outside the range is an error. */
  lemma ReadByOffsetCorrect(c: Codec, s: Seg, base: int, recs: seq<Record>, off: int)
    requires Readable(c, s, base, recs)
    ensures ReadByOffset(c, s, off) ==
            if base <= off < base + |recs| then Some(recs[off - base]) else None
  {
    if base <= off < base + |recs| {
      var i := off - base;
      StartsBelow(c, s, base, recs, i + 1);
      assert HoldsAt(c, s.log, Start(s, base, i), Start(s, base, i + 1), recs[i]);
    }
  }

  /** In every reachable state a range read returns exactly the first max
      records at or after the given offset, in order, and never fails. */
  lemma ReadRangeCorrect(c: Codec, s: Seg, base: int, recs: seq<Record>, from: int, max: int)
    requires Readable(c, s, base, recs)
    ensures ReadRange(c, s, from, max) == Some(Slice(recs, base, from, max))
    ensures var lo := if from <= base then 0 else Min(from - base, |recs|);
            Slice(recs, base, from, max) == recs[lo..lo + Min(if max <= 0 then 100 else max, |recs| - lo)]
  {
    hide Frames, KeysFrom, ReadList, Slice, Take, Range;
    var lo := if from <= base then 0 else if from - base >= |recs| then |recs| else from - base;
    var n := Min(Limit(max), |recs| - lo);
    KeysFromRange(s, base, |recs|, from, lo);
    TakeRange(base + lo, |recs| - lo, Limit(max));
    ReadListCorrect(c, s, base, recs, lo, n);
    SliceShape(recs, base, from, max, lo, n);
  }

  lemma TakeRange(base: int, size: nat, n: nat)
    ensures Take(Range(base, size), n) == Range(base, Min(n, size))
  {
  }

  lemma SliceShape(recs: seq<Record>, base: int, from: int, max: int, lo: nat, n: nat)
    requires lo == if from <= base then 0 else if from - base >= |recs| then |recs| else from - base
    requires n == Min(Limit(max), |recs| - lo)
    ensures Slice(recs, base, from, max) == recs[lo..lo + n]
  {
  }

  lemma KeysFromRange(s: Seg, base: int, size: nat, from: int, lo: nat)
    requires Indexed(s, base, size)
    requires lo == if from <= base then 0 else if from - base >= size then size else from - base
    ensures KeysFrom(s, from) == Range(base + lo, size - lo)
  {
    IntTotal();
    AscendingUnique(KeysFrom(s, from), Range(base + lo, size - lo), IntLess);
  }

  lemma {:induction false} ReadListCorrect(c: Codec, s: Seg, base: int, recs: seq<Record>, lo: nat, n: nat)
    requires Readable(c, s, base, recs) && lo + n <= |recs|
    ensures ReadList(c, s, Range(base + lo, n)) == Some(recs[lo..lo + n])
  {
    hide Readable, ReadByOffset;
    var ks := Range(base + lo, n);
    if n == 0 {
      assert ks == [] && recs[lo..lo] == [];
    } else {
      RangePrefix(base + lo, n, n - 1);
      assert ks[|ks| - 1] == base + lo + n - 1;
      ReadListCorrect(c, s, base, recs, lo, n - 1);
      ReadByOffsetCorrect(c, s, base, recs, base + lo + n - 1);
      assert recs[lo..lo + n] == recs[lo..lo + n - 1] + [recs[lo + n - 1]];
    }
  }

  /** Later appends, successful or not, never disturb records already there. */
  lemma {:induction false} AppendsKeepRecords(c: Codec, base: int, ops: seq<Op>, more: seq<Op>)
    requires RoundTrips(c) && 0 <= base <= TWO63 / 2
    requires forall op :: op in more ==> op.AppendOp?
    ensures Run(c, base, ops).1.recs <= Run(c, base, ops + more).1.recs
  {
    hide Sound, Step, Keeps, Open;
    if more == [] {
      assert ops + more == ops;
    } else {
      var front := more[..|more| - 1];
      AppendsKeepRecords(c, base, ops, front);
      assert (ops + more)[..|ops + more| - 1] == ops + front;
    }
  }

  /** What Append returns: the offset, or an error. */
  function AppendResult(c: Codec, s: Seg, rec: Record, fault: Fault): Option<int> {
    if Keeps(c, s.position, rec, fault) && fault.NoFault? then Some(s.nextOffset) else None
  }

  /** An append that reports an error leaves the readable records as they were,
      except exactly when an index file could not be rewritten: then the record
      is already in the log and in memory and stays readable. */
  lemma FailedAppend(c: Codec, s: Seg, base: int, a: Abs, rec: Record, fault: Fault)
    requires RoundTrips(c) && Sound(c, s, base, a)
    requires AppendResult(c, s, rec, fault).None?
    ensures var s' := Append(c, s, rec, fault);
            && (forall off {:trigger ReadByOffset(c, s', off)} ::
                  off != s.nextOffset ==> ReadByOffset(c, s', off) == ReadByOffset(c, s, off))
            && (ReadByOffset(c, s', s.nextOffset) != ReadByOffset(c, s, s.nextOffset)
                <==> Keeps(c, s.position, rec, fault))
  {
    var s' := Append(c, s, rec, fault);
    var a' := AbsStep(c, s.position, a, AppendOp(rec, fault));
    AppendSound(c, s, base, a, rec, fault);
    forall off {:trigger ReadByOffset(c, s', off)}
      ensures off != s.nextOffset ==> ReadByOffset(c, s', off) == ReadByOffset(c, s, off)
    {
      ReadByOffsetCorrect(c, s, base, a.recs, off);
      ReadByOffsetCorrect(c, s', base, a'.recs, off);
    }
    ReadByOffsetCorrect(c, s, base, a.recs, s.nextOffset);
    ReadByOffsetCorrect(c, s', base, a'.recs, s.nextOffset);
  }

  // ---------- runs without faults ----------

  ghost predicate Clean(ops: seq<Op>) {
    forall op :: op in ops ==> op.Reopen? || (op.AppendOp? && op.fault.NoFault?)
  }

  function Frame(c: Codec, rec: Record): seq<byte> {
    if c.enc(rec).None? then [] else BeBytes(|c.enc(rec).value|, 4) + c.enc(rec).value
  }

  /** The log file a list of records should have: their frames, end to end. */
  function LogOf(c: Codec, recs: seq<Record>): seq<byte> {
    if recs == [] then [] else LogOf(c, recs[..|recs| - 1]) + Frame(c, recs[|recs| - 1])
  }

  /** The time index a list of records should have: the last offset with each timestamp. */
  function TimesOf(base: int, recs: seq<Record>): map<int, int> {
    if recs == [] then map[] else
      TimesOf(base, recs[..|recs| - 1])[recs[|recs| - 1].timestamp := base + |recs| - 1]
  }

  /** Frames tile the log without gap or overlap, and all files are up to date. */
  ghost predicate Tiled(c: Codec, s: Seg, base: int, recs: seq<Record>) {
    && s.log == LogOf(c, recs)
    && s.position == |s.log|
    && (forall i :: 0 <= i < |recs| ==> Start(s, base, i) == |LogOf(c, recs[..i])|)
    && s.timeOffsets == TimesOf(base, recs)
    && s.indexFile == IndexBytes(s.offsets)
    && s.timeFile == IndexBytes(s.timeOffsets)
    && Encodable(s.timeOffsets)
  }

  lemma SameMap(l: map<int, int>, m: map<int, int>)
    requires forall k :: k in l <==> k in m
    requires forall k :: k in m ==> l[k] == m[k]
    ensures l == m
  {
    forall k ensures k in l.Keys <==> k in m.Keys {
      assert k in l <==> k in m;
    }
    assert l.Keys == m.Keys;
    assert forall k :: k in m ==> l[k] == m[k];
    assert l == m;
  }

  lemma LoadWhole(ks: seq<int>, m: map<int, int>)
    requires Encodable(m) && forall k :: k in ks <==> k in m
    ensures |TableBytes(ks, m)| / 16 == |ks|
    ensures LoadMap(TableBytes(ks, m), |ks|) == m
  {
    hide TableBytes, LoadMap;
    var b := TableBytes(ks, m);
    assert b[..16 * |ks|] == b;
    LoadPrefix(b, ks, m, |ks|);
    assert ks[..|ks|] == ks;
    SameMap(LoadMap(b, |ks|), m);
  }

  /** Reopening an up-to-date segment rebuilds the very same state, so every
      continuation behaves as if it had never been closed. */
  lemma ReopenIdentity(c: Codec, s: Seg, base: int, recs: seq<Record>)
    requires Readable(c, s, base, recs) && Tiled(c, s, base, recs)
    ensures Open(s.log, s.indexFile, s.timeFile, base) == s
    ensures |s.indexFile| / 16 == |recs|
  {
    OffsetsEncodable(c, s, base, recs);
    SizeOfIndex(s, base, |recs|);
    LoadWhole(SortedKeys(s.offsets), s.offsets);
    LoadWhole(SortedKeys(s.timeOffsets), s.timeOffsets);
    LoadedNext(s.indexFile, Range(base, |recs|), s.offsets, base, |recs|);
  }

  lemma AppendTiled(c: Codec, s: Seg, base: int, recs: seq<Record>, rec: Record)
    requires Readable(c, s, base, recs) && Tiled(c, s, base, recs)
    requires Keeps(c, s.position, rec, NoFault)
    ensures Tiled(c, Append(c, s, rec, NoFault), base, recs + [rec])
  {
    hide IndexBytes, Append, Frames, WriteAt, Frame;
    var recs' := recs + [rec];
    assert recs'[..|recs|] == recs;
    KeptShape(c, s, rec, NoFault);
    StoreAtEnd(c, s, rec);
    StoreStarts(c, s, base, recs, rec);
  }

  lemma StoreStarts(c: Codec, s: Seg, base: int, recs: seq<Record>, rec: Record)
    requires c.enc(rec).Some? && 0 <= s.position == |s.log| && s.log == LogOf(c, recs)
    requires Indexed(s, base, |recs|)
    requires forall i :: 0 <= i < |recs| ==> Start(s, base, i) == |LogOf(c, recs[..i])|
    ensures var t := Store(s, rec, c.enc(rec).value);
            forall i :: 0 <= i <= |recs| ==> Start(t, base, i) == |LogOf(c, (recs + [rec])[..i])|
  {
    hide WriteAt, LogOf;
    var recs' := recs + [rec];
    assert recs'[..|recs|] == recs;
    assert forall i :: 0 <= i < |recs| ==> recs'[..i] == recs[..i];
  }

  lemma StoreAtEnd(c: Codec, s: Seg, rec: Record)
    requires c.enc(rec).Some? && 0 <= s.position == |s.log|
    ensures Store(s, rec, c.enc(rec).value).log == s.log + Frame(c, rec)
  {
  }

  lemma CleanStep(c: Codec, base: int, s: Seg, a: Abs, op: Op)
    requires RoundTrips(c) && Sound(c, s, base, a) && Tiled(c, s, base, a.recs) && Clean([op])
    ensures Tiled(c, Step(c, base, s, op), base, AbsStep(c, s.position, a, op).recs)
  {
    hide Tiled, Frames, IndexBytes, Append, Open, Keeps, Durable;
    assert op in [op];
    match op
    case Reopen =>
      ReopenIdentity(c, s, base, a.recs);
      assert a.recs[..a.durable] == a.recs;
    case AppendOp(rec, fault) =>
      if Keeps(c, s.position, rec, fault) {
        AppendTiled(c, s, base, a.recs, rec);
      } else {
        RefusedAppend(c, s, rec);
      }
    case TearIndex(_) =>
  }

  lemma RefusedAppend(c: Codec, s: Seg, rec: Record)
    requires 0 <= s.position <= |s.log|
    requires !Keeps(c, s.position, rec, NoFault)
    ensures Append(c, s, rec, NoFault) == s
  {
  }

  /** After any fault-free run the frames tile the log, the index files are
      exact, and closing and reopening changes nothing. */
  lemma {:induction false} CleanRun(c: Codec, base: int, ops: seq<Op>)
    requires RoundTrips(c) && 0 <= base <= TWO63 / 2 && Clean(ops)
    ensures var (s, a) := Run(c, base, ops);
            Tiled(c, s, base, a.recs) && Step(c, base, s, Reopen) == s && a.durable == |a.recs|
  {
    var (s, a) := Run(c, base, ops);
    if ops == [] {
      EmptyTiled(c, base);
    } else {
      var (s0, a0) := Run(c, base, ops[..|ops| - 1]);
      CleanRun(c, base, ops[..|ops| - 1]);
      assert ops[|ops| - 1] in ops;
      CleanStep(c, base, s0, a0, ops[|ops| - 1]);
    }
    hide Tiled, Readable, IndexBytes, Append;
    ReopenIdentity(c, s, base, a.recs);
  }

  lemma EmptyTiled(c: Codec, base: int)
    ensures Tiled(c, Open([], [], [], base), base, [])
  {
    var m: map<int, int> := map[];
    var ks := SortedKeys(m);
    IntTotal();
    AscendingUnique(ks, [], IntLess);
  }

  lemma PositionGrows(c: Codec, s: Seg, rec: Record, fault: Fault)
    requires 0 <= s.position <= |s.log| <= MAX_INT64
    ensures s.position <= Append(c, s, rec, fault).position
  {
    if Keeps(c, s.position, rec, fault) {
      hide Append, WriteAt, IndexBytes;
      KeptShape(c, s, rec, fault);
    } else {
      CutShort(c, s, rec, fault);
    }
  }

  /** Appends, failing or not, never touch a byte below the write position they started from. */
  lemma {:induction false} AppendsBelow(c: Codec, base: int, ops: seq<Op>, more: seq<Op>)
    requires RoundTrips(c) && 0 <= base <= TWO63 / 2
    requires forall op :: op in more ==> op.AppendOp?
    ensures var s, s' := Run(c, base, ops).0, Run(c, base, ops + more).0;
            Below(s.log, s'.log, s.position) && s.position <= s'.position
  {
    hide Frames, Covers, Append, Open, Run;
    var s := Run(c, base, ops).0;
    if more == [] {
      assert ops + more == ops;
    } else {
      var front, op := more[..|more| - 1], more[|more| - 1];
      assert op in more;
      AppendsBelow(c, base, ops, front);
      var (t, a) := Run(c, base, ops + front);
      assert ops + more == ops + front + [op];
      RunSnoc(c, base, ops + front, op);
      AppendSound(c, t, base, a, op.rec, op.fault);
      PositionGrows(c, t, op.rec, op.fault);
      BelowTwice(s.log, t.log, Append(c, t, op.rec, op.fault).log, s.position, t.position);
    }
  }

  lemma RunSnoc(c: Codec, base: int, ops: seq<Op>, op: Op)
    requires RoundTrips(c) && 0 <= base <= TWO63 / 2
    ensures Run(c, base, ops + [op]).0 == Step(c, base, Run(c, base, ops).0, op)
  {
    hide Sound, Step;
    assert (ops + [op])[..|ops|] == ops;
  }

  lemma BelowTwice(a: seq<byte>, b: seq<byte>, d: seq<byte>, p: int, q: int)
    requires Below(a, b, p) && Below(b, d, q) && p <= q
    ensures Below(a, d, p)
  {
    assert d[..p] == d[..q][..p] == b[..q][..p] == b[..p];
  }

  /** A torn index file, after any run, faults and earlier tears included: whatever
      number n of its bytes survive a crash, the segment comes back with its lowest
      floor(n/16) records, as far as the index file covered them; whatever is appended
      afterwards, these stay and no byte the old log held is touched. */
  lemma TornIndex(c: Codec, base: int, ops: seq<Op>, n: nat, more: seq<Op>)
    requires RoundTrips(c) && 0 <= base <= TWO63 / 2
    requires forall op :: op in more ==> op.AppendOp?
    ensures var (s, a) := Run(c, base, ops);
            var (s', a') := Run(c, base, ops + [TearIndex(n), Reopen] + more);
            && a.durable <= |a.recs|
            && a.recs[..Min(n / 16, a.durable)] <= a'.recs
            && (more == [] ==> a'.recs == a.recs[..Min(n / 16, a.durable)])
            && (Clean(ops) ==> a.durable == |a.recs|)
            && Below(s.log, s'.log, |s.log|)
  {
    hide Sound, Run, Min, Clean;
    var ops2 := ops + [TearIndex(n), Reopen];
    Torn(c, base, ops, n);
    AppendsBelow(c, base, ops2, more);
    AppendsKeepRecords(c, base, ops2, more);
    assert more == [] ==> ops2 + more == ops2;
    if Clean(ops) {
      CleanRun(c, base, ops);
    }
  }

  lemma Torn(c: Codec, base: int, ops: seq<Op>, n: nat)
    requires RoundTrips(c) && 0 <= base <= TWO63 / 2
    ensures var (s, a) := Run(c, base, ops);
            var (s', a') := Run(c, base, ops + [TearIndex(n), Reopen]);
            && a.durable <= |a.recs|
            && a'.recs == a.recs[..Min(n / 16, a.durable)]
            && s'.log == s.log && s'.position == |s.log|
  {
    hide Append, IndexBytes, Frames, Covers;
    var (s, a) := Run(c, base, ops);
    ReopenSound(c, s, base, a);
    var ops1 := ops + [TearIndex(n)];
    var ops2 := ops + [TearIndex(n), Reopen];
    assert ops1[..|ops1| - 1] == ops;
    assert ops2[..|ops2| - 1] == ops1;
  }

  // ---------- when reopening changes nothing ----------

  /** The whole entries of a file. */
  function WholeEntries(file: seq<byte>): seq<byte> {
    file[..16 * (|file| / 16)]
  }

  /** Up to a last entry cut short, the file is the table of a map. */
  ghost predicate IsTable(file: seq<byte>) {
    exists m :: Encodable(m) && WholeEntries(file) == IndexBytes(m)
  }

  /** The time index is one, in memory and on disk. */
  ghost predicate TimesSound(s: Seg) {
    Encodable(s.timeOffsets) && IsTable(s.timeFile)
  }

  lemma LoadTable(file: seq<byte>, m: map<int, int>)
    requires Encodable(m) && WholeEntries(file) == IndexBytes(m)
    ensures LoadMap(file, |file| / 16) == m
  {
    hide TableBytes, LoadMap, SortedKeys;
    var ks := SortedKeys(m);
    var n := |file| / 16;
    assert |ks| == n;
    LoadPrefix(file, ks, m, n);
    assert ks[..n] == ks;
    SameMap(LoadMap(file, n), m);
  }

  /** A table read back is the map exactly if it is the map's table. */
  lemma LoadedIff(file: seq<byte>, m: map<int, int>)
    requires IsTable(file) && Encodable(m)
    ensures LoadMap(file, |file| / 16) == m <==> WholeEntries(file) == IndexBytes(m)
  {
    hide IndexBytes, LoadMap, WholeEntries;
    var m' :| Encodable(m') && WholeEntries(file) == IndexBytes(m');
    LoadTable(file, m');
    if WholeEntries(file) == IndexBytes(m) {
      LoadTable(file, m);
    }
  }

  /** What is left of a table is one. */
  lemma TakenTable(m: map<int, int>, n: nat)
    requires Encodable(m)
    ensures IsTable(Take(IndexBytes(m), n))
  {
    hide SortedKeys, TableBytes;
    var ks := SortedKeys(m);
    var file := Take(TableBytes(ks, m), n);
    var d := |file| / 16;
    var m' := map k | k in ks[..d] :: m[k];
    IntTotal();
    AscendingUnique(SortedKeys(m'), ks[..d], IntLess);
    TablePrefix(ks, m, d);
    TableAgree(ks[..d], m, m');
    assert WholeEntries(file) == TableBytes(ks, m)[..16 * d];
    assert Encodable(m') && WholeEntries(file) == IndexBytes(m');
  }

  lemma WholeTable(m: map<int, int>)
    requires Encodable(m)
    ensures IsTable(IndexBytes(m)) && WholeEntries(IndexBytes(m)) == IndexBytes(m)
  {
    hide SortedKeys, TableBytes;
    TakenTable(m, |IndexBytes(m)|);
    assert Take(IndexBytes(m), |IndexBytes(m)|) == IndexBytes(m);
  }

  lemma TimesAfter(file: seq<byte>, m: map<int, int>, fault: Fault)
    requires IsTable(file) && Encodable(m)
    ensures IsTable(TimeAfter(file, IndexBytes(m), fault))
  {
    hide IndexBytes, IsTable;
    WholeTable(m);
    if fault.TimeWrite? {
      TakenTable(m, fault.n);
    }
  }

  lemma TimesAppend(c: Codec, s: Seg, base: int, recs: seq<Record>, rec: Record, fault: Fault)
    requires Readable(c, s, base, recs) && TimesSound(s)
    ensures TimesSound(Append(c, s, rec, fault))
  {
    hide Frames, Append, Keeps, IsTable, IndexBytes, Encodable;
    if Keeps(c, s.position, rec, fault) {
      KeptTimes(c, s, rec, fault);
      OneMoreTime(s.timeOffsets, rec.timestamp, s.nextOffset);
      TimesAfter(s.timeFile, s.timeOffsets[rec.timestamp := s.nextOffset], fault);
    } else {
      CutShort(c, s, rec, fault);
    }
  }

  lemma OneMoreTime(m: map<int, int>, ts: int64, off: int)
    requires Encodable(m) && IsInt64(off)
    ensures Encodable(m[ts := off])
  {
  }

  lemma KeptTimes(c: Codec, s: Seg, rec: Record, fault: Fault)
    requires 0 <= s.position <= |s.log| && Keeps(c, s.position, rec, fault)
    ensures var s', m := Append(c, s, rec, fault), s.timeOffsets[rec.timestamp := s.nextOffset];
            s'.timeOffsets == m && s'.timeFile == TimeAfter(s.timeFile, IndexBytes(m), fault)
  {
    hide Append, IndexBytes, WriteAt, IndexAfter, TimeAfter;
    KeptShape(c, s, rec, fault);
  }

  lemma TimesStep(c: Codec, base: int, s: Seg, a: Abs, op: Op)
    requires Sound(c, s, base, a) && TimesSound(s)
    ensures TimesSound(Step(c, base, s, op))
  {
    hide Frames, Covers, Append, IsTable, LoadNext, LoadMap, IndexBytes;
    match op
    case AppendOp(rec, fault) => TimesAppend(c, s, base, a.recs, rec, fault);
    case TearIndex(n) =>
    case Reopen => LoadedTable(s.timeFile);
  }

  lemma LoadedTable(file: seq<byte>)
    requires IsTable(file)
    ensures Encodable(LoadMap(file, |file| / 16))
  {
    hide IndexBytes, LoadMap, WholeEntries;
    var m :| Encodable(m) && WholeEntries(file) == IndexBytes(m);
    LoadTable(file, m);
  }

  lemma {:induction false} TimesRun(c: Codec, base: int, ops: seq<Op>)
    requires RoundTrips(c) && 0 <= base <= TWO63 / 2
    ensures TimesSound(Run(c, base, ops).0)
  {
    hide Sound, TimesSound, Step;
    if ops == [] {
      NoTimes(base);
    } else {
      TimesRun(c, base, ops[..|ops| - 1]);
      var (s, a) := Run(c, base, ops[..|ops| - 1]);
      TimesStep(c, base, s, a, ops[|ops| - 1]);
    }
  }

  lemma NoTimes(base: int)
    ensures TimesSound(Open([], [], [], base))
  {
    hide IndexBytes;
    var m: map<int, int> := map[];
    TakenTable(m, 0);
    assert Take(IndexBytes(m), 0) == [];
  }

  /** Reopening a segment that stands for a rebuilds the very same state exactly if
      nothing lies behind its last frame, the index file covers every record and the
      time file is the table of the time index. */
  lemma ReopenIff(c: Codec, s: Seg, base: int, a: Abs)
    requires Sound(c, s, base, a) && TimesSound(s)
    ensures Open(s.log, s.indexFile, s.timeFile, base) == s <==>
            && s.position == |s.log| && |s.indexFile| / 16 == |a.recs|
            && WholeEntries(s.timeFile) == IndexBytes(s.timeOffsets)
  {
    hide Frames, IndexBytes, LoadMap, LoadNext, IsTable;
    ReopenSound(c, s, base, a);
    OffsetsEncodable(c, s, base, a.recs);
    ReopenIndex(s, base, |a.recs|, a.durable);
    LoadedIff(s.timeFile, s.timeOffsets);
    var s' := Open(s.log, s.indexFile, s.timeFile, base);
    if |s.indexFile| / 16 == |a.recs| {
      SameMap(s'.offsets, s.offsets);
    }
  }

  /** So after any run, whatever went wrong in it. */
  lemma ReopenAfterRun(c: Codec, base: int, ops: seq<Op>)
    requires RoundTrips(c) && 0 <= base <= TWO63 / 2
    ensures var (s, a) := Run(c, base, ops);
            Step(c, base, s, Reopen) == s <==>
            && s.position == |s.log| && |s.indexFile| / 16 == |a.recs|
            && WholeEntries(s.timeFile) == IndexBytes(s.timeOffsets)
  {
    hide Sound, Run, IndexBytes, Open, TimesSound;
    var (s, a) := Run(c, base, ops);
    TimesRun(c, base, ops);
    ReopenIff(c, s, base, a);
  }
}
