/** Recovery after any run of the write-ahead log: what is replayed is the list
    of entries the run stands for. */
module WalRuns {
  import opened Bytes
  import opened Order
  import opened WalState

  /** All log files are whole and hold exactly these entries. */
  ghost predicate Represents(c: Codec, files: Files, es: seq<Entry>) {
    && AllWhole(files)
    && ReadAll(files) == Marshal(c, es)
    && Small(c, es)
  }

  ghost predicate AllWhole(files: Files) {
    forall n :: n in files && IsWal(n) ==> Whole(files[n])
  }

  /** Recovery decodes what the directory represents. */
  lemma ReplayRepresents(c: Codec, files: Files, es: seq<Entry>)
    requires RoundTrips(c) && Represents(c, files, es)
    ensures Replay(c, files) == Some(es)
  {
    ParseMarshal(c, es);
  }

  // ---------- names ----------

  lemma WalLogIsWal()
    ensures IsWal(WAL_LOG) && !IsSnap(WAL_LOG)
  {
    assert WAL_LOG[..4] == "wal.";
    assert WAL_LOG[0] != "snapshot."[0];
  }

  lemma Kinds(n: string)
    ensures !(IsWal(n) && IsSnap(n))
  {
    if |n| > 9 {
      assert n[..4][0] == n[0] == n[..9][0];
    }
  }

  /** A rotated file sorts before the current one. */
  lemma RotatedBeforeCurrent(ts: int)
    ensures IsWal(RotatedName(ts)) && LexLess(RotatedName(ts), WAL_LOG) && RotatedName(ts) != WAL_LOG
  {
    var d := Decimal(ts) + ".log";
    assert RotatedName(ts) == "wal." + d;
    assert WAL_LOG == "wal." + "log";
    assert RotatedName(ts)[..4] == "wal.";
    LexPrefix("wal.", d, "log");
    assert LexLess(d, "log");
    LexIrreflexive(WAL_LOG);
  }

  /** Names with equally wide numerals sort by time. */
  lemma NameOrder(prefix: string, suffix: string, t: nat, u: nat)
    requires t < u && |Numeral(t)| == |Numeral(u)|
    ensures LexLess(prefix + Decimal(t) + suffix, prefix + Decimal(u) + suffix)
  {
    NumeralOrder(t, u);
    LexExtend(Numeral(t), Numeral(u), suffix, suffix);
    LexPrefix(prefix, Numeral(t) + suffix, Numeral(u) + suffix);
    assert prefix + Decimal(t) + suffix == prefix + (Numeral(t) + suffix);
    assert prefix + Decimal(u) + suffix == prefix + (Numeral(u) + suffix);
  }

  // ---------- reading several files ----------

  lemma {:induction false} PayloadsAgree(names: seq<string>, f: Files, g: Files)
    requires forall n :: n in names ==> n in f && n in g && f[n] == g[n]
    ensures Payloads(names, f) == Payloads(names, g)
  {
    if names != [] {
      PayloadsAgree(names[..|names| - 1], f, g);
    }
  }

  /** The other log files, all of which sort before the current one. */
  ghost predicate CurrentIsLast(files: Files) {
    forall n :: n in files && IsWal(n) ==> n == WAL_LOG || LexLess(n, WAL_LOG)
  }

  ghost function Older(files: Files): set<string> {
    Names(files, IsWal) - {WAL_LOG}
  }

  lemma SortedLast(S: set<string>, x: string)
    requires forall y :: y in S ==> LexLess(y, x)
    ensures Sorted(S + {x}) == Sorted(S) + [x]
  {
    LexTotal();
    SortedAppend(S, x, LexLess);
  }

  lemma PayloadsSnoc(names: seq<string>, x: string, files: Files)
    requires x in files && forall n :: n in names ==> n in files
    ensures Payloads(names + [x], files) == Payloads(names, files) + Payload(files[x])
  {
    assert (names + [x])[..|names|] == names;
  }

  /** Everything read is the older files, then the current one. */
  lemma ReadSplit(files: Files)
    requires CurrentIsLast(files)
    ensures ReadAll(files) == Payloads(Sorted(Older(files)), files)
                              + (if WAL_LOG in files then Payload(files[WAL_LOG]) else [])
  {
    WalLogIsWal();
    hide IsWal, Payload;
    var S := Older(files);
    if WAL_LOG in files {
      assert Names(files, IsWal) == S + {WAL_LOG};
      SortedLast(S, WAL_LOG);
      PayloadsSnoc(Sorted(S), WAL_LOG, files);
    } else {
      assert Names(files, IsWal) == S;
    }
  }

  // ---------- append ----------

  lemma AppendRepresents(c: Codec, files: Files, es: seq<Entry>, more: seq<Entry>)
    requires Represents(c, files, es) && CurrentIsLast(files) && |Marshal(c, more)| < TWO32
    ensures Represents(c, AppendWal(files, Marshal(c, more)), es + more)
    ensures CurrentIsLast(AppendWal(files, Marshal(c, more)))
    ensures Older(AppendWal(files, Marshal(c, more))) == Older(files)
  {
    hide Marshal, ReadAll, AppendWal, AllWhole, Older;
    ReadAppended(files, Marshal(c, more));
    MarshalConcat(c, es, more);
    MarshalSmall(c, more);
  }

  function Current(files: Files): seq<byte> {
    if WAL_LOG in files then files[WAL_LOG] else []
  }

  lemma ReadAppended(files: Files, data: seq<byte>)
    requires AllWhole(files) && CurrentIsLast(files) && |data| < TWO32
    ensures AllWhole(AppendWal(files, data)) && CurrentIsLast(AppendWal(files, data))
    ensures Older(AppendWal(files, data)) == Older(files)
    ensures ReadAll(AppendWal(files, data)) == ReadAll(files) + data
  {
    hide ReadAll, Older, AllWhole, CurrentIsLast, Frame, Payload, Current, AppendWal, Payloads, Sorted, Whole;
    var files' := AppendWal(files, data);
    AppendedFiles(files, data);
    PayloadAppend(Current(files), data);
    ReadTwo(files);
    ReadTwo(files');
    var names := Sorted(Older(files));
    PayloadsAgree(names, files, files');
    assert Payloads(names, files) + (Payload(Current(files)) + data)
        == Payloads(names, files) + Payload(Current(files)) + data;
  }

  lemma AppendedFiles(files: Files, data: seq<byte>)
    requires AllWhole(files) && CurrentIsLast(files) && |data| < TWO32
    ensures AllWhole(AppendWal(files, data)) && CurrentIsLast(AppendWal(files, data))
    ensures Older(AppendWal(files, data)) == Older(files)
    ensures forall n :: n in Older(files) ==>
              n in files && n in AppendWal(files, data) && files[n] == AppendWal(files, data)[n]
    ensures Whole(Current(files)) && Current(AppendWal(files, data)) == Current(files) + Frame(data)
  {
    WalLogIsWal();
    assert Whole([]);
    hide IsWal, Frame, Whole;
    assert Whole(Current(files));
    PayloadAppend(Current(files), data);
    assert Older(AppendWal(files, data)) == Older(files);
  }

  lemma ReadTwo(files: Files)
    requires CurrentIsLast(files)
    ensures (forall n :: n in Sorted(Older(files)) ==> n in files)
    ensures ReadAll(files) == Payloads(Sorted(Older(files)), files) + Payload(Current(files))
  {
    hide ReadAll, CurrentIsLast, Payload;
    PayloadSingle([]);
    ReadSplit(files);
  }

  // ---------- a torn append ----------

  /** How recovery ends when bytes follow the entries es: what they parse to is
      added, unless they are cut off, which loses everything, or do not decode. */
  function WithTail(es: seq<Entry>, tail: Parsed): Option<seq<Entry>> {
    match tail
    case Good(more) => Some(es + more)
    case Torn => Some([])
    case Bad => None
  }

  /** Entries with something behind them: if that is cut short, nothing is returned and
      no error; if it is a whole frame that does not decode, an error. */
  lemma UnmarshalTail(c: Codec, es: seq<Entry>, tail: seq<byte>)
    requires RoundTrips(c) && Small(c, es) && tail != []
    ensures |tail| < 4 || 4 + BeNat(tail[..4]) > |tail| ==> Unmarshal(c, Marshal(c, es) + tail) == Some([])
    ensures 4 <= |tail| && 4 + BeNat(tail[..4]) <= |tail| && c.dec(tail[4..4 + BeNat(tail[..4])]).None? ==>
              Unmarshal(c, Marshal(c, es) + tail) == None
  {
    hide Marshal;
    ParseTail(c, es, tail);
  }

  /** Recovery with any bytes at the end of the current file. */
  lemma ReplayWithTail(c: Codec, files: Files, es: seq<Entry>, tail: seq<byte>)
    requires RoundTrips(c) && Represents(c, files, es) && CurrentIsLast(files)
    ensures Replay(c, files[WAL_LOG := Current(files) + tail]) == WithTail(es, Parse(c, Payload(tail)))
  {
    hide ReadAll, Older, Frame, Payload, Current, Payloads, Sorted, Whole, Marshal, Parse;
    var files' := files[WAL_LOG := Current(files) + tail];
    TailFiles(files, tail);
    PayloadTail(Current(files), tail);
    ReadTwo(files);
    ReadTwo(files');
    var names := Sorted(Older(files));
    PayloadsAgree(names, files, files');
    assert Payloads(names, files) + (Payload(Current(files)) + Payload(tail))
        == Payloads(names, files) + Payload(Current(files)) + Payload(tail);
    ParseTail(c, es, Payload(tail));
  }

  lemma TailFiles(files: Files, tail: seq<byte>)
    requires AllWhole(files) && CurrentIsLast(files)
    ensures var files' := files[WAL_LOG := Current(files) + tail];
            && CurrentIsLast(files') && Older(files') == Older(files) && Whole(Current(files))
            && Current(files') == Current(files) + tail
            && forall n :: n in Older(files) ==> n in files && n in files' && files[n] == files'[n]
  {
    WalLogIsWal();
    assert Whole([]);
    hide IsWal, Whole;
    var files' := files[WAL_LOG := Current(files) + tail];
    assert Older(files') == Older(files);
  }

  lemma {:induction false} PayloadTail(b: seq<byte>, tail: seq<byte>)
    requires Whole(b)
    ensures Payload(b + tail) == Payload(b) + Payload(tail)
    decreases |b|
  {
    hide HasFrame, FrameEnd;
    if b == [] {
      assert b + tail == tail;
      PayloadSingle([]);
    } else {
      FirstFrame(b, tail);
      PayloadTail(b[FrameEnd(b)..], tail);
      assert Payload(b + tail) == b[4..FrameEnd(b)] + (Payload(b[FrameEnd(b)..]) + Payload(tail));
    }
  }

  /** Reading back what was written, with more behind it. */
  lemma {:induction false} ParseTail(c: Codec, es: seq<Entry>, tail: seq<byte>)
    requires RoundTrips(c) && Small(c, es)
    ensures Parse(c, Marshal(c, es) + tail) == Prepend(es, Parse(c, tail))
  {
    hide Frame, HasFrame, FrameEnd;
    if es == [] {
      assert Marshal(c, es) + tail == tail;
      assert Parse(c, tail).Good? ==> [] + Parse(c, tail).es == Parse(c, tail).es;
    } else {
      var rest := Marshal(c, es[1..]) + tail;
      ParseTail(c, es[1..], tail);
      assert Marshal(c, es) + tail == Frame(c.enc(es[0])) + rest;
      ParseOne(c, es[0], rest);
      if Parse(c, tail).Good? {
        assert [es[0]] + (es[1..] + Parse(c, tail).es) == es + Parse(c, tail).es;
      }
    }
  }

  lemma ParseOne(c: Codec, e: Entry, rest: seq<byte>)
    requires RoundTrips(c) && |c.enc(e)| < TWO32
    ensures Parse(c, Frame(c.enc(e)) + rest) == Prepend([e], Parse(c, rest))
  {
    hide Frame, HasFrame, FrameEnd;
    FrameRead(c.enc(e), rest);
  }

  /** A crash at any byte of an append replays exactly the entries before it. */
  lemma TornAppend(c: Codec, files: Files, es: seq<Entry>, more: seq<Entry>, n: nat)
    requires RoundTrips(c) && Represents(c, files, es) && CurrentIsLast(files)
    requires |Marshal(c, more)| < TWO32 && n < |Frame(Marshal(c, more))|
    ensures Replay(c, files[WAL_LOG := Current(files) + Frame(Marshal(c, more))[..n]]) == Some(es)
  {
    hide Marshal, Represents, Replay, Payload;
    var tail := Frame(Marshal(c, more))[..n];
    PrefixIsTorn(Marshal(c, more), n, []);
    assert tail + [] == tail;
    NoPayload(tail);
    ReplayWithTail(c, files, es, tail);
    assert es + [] == es;
  }

  lemma NoPayload(b: seq<byte>)
    requires !HasFrame(b)
    ensures Payload(b) == []
  {
  }

  /** After an append cut off at n bytes, what a later append leaves behind: the
      two frames are read as one stream, so the entries before them survive alone
      while no frame fits, as for a batch that is shorter than what is missing;
      what does come together is parsed, and can take all entries with it. */
  lemma AppendsAfterTear(c: Codec, files: Files, es: seq<Entry>, more: seq<Entry>, n: nat, later: seq<byte>)
    requires RoundTrips(c) && Represents(c, files, es) && CurrentIsLast(files)
    requires |Marshal(c, more)| < TWO32 && n <= |Frame(Marshal(c, more))|
    ensures var cut := Frame(Marshal(c, more))[..n];
            var r := Replay(c, AppendWal(files[WAL_LOG := Current(files) + cut], later));
            && r == WithTail(es, Parse(c, Payload(cut + Frame(later))))
            && (!HasFrame(cut + Frame(later)) ==> r == Some(es))
            && (4 <= n && n + |Frame(later)| < |Frame(Marshal(c, more))| ==> r == Some(es))
  {
    hide Marshal, Represents, Replay, Payload, Parse;
    var cut := Frame(Marshal(c, more))[..n];
    ReplayWithTail(c, files, es, cut + Frame(later));
    assert Current(files) + (cut + Frame(later)) == Current(files) + cut + Frame(later);
    assert AppendWal(files[WAL_LOG := Current(files) + cut], later)
        == files[WAL_LOG := Current(files) + (cut + Frame(later))];
    if 4 <= n && n + |Frame(later)| < |Frame(Marshal(c, more))| {
      PrefixIsTorn(Marshal(c, more), n, Frame(later));
    }
    if !HasFrame(cut + Frame(later)) {
      NoPayload(cut + Frame(later));
      NothingMore(c, es);
    }
  }

  lemma NothingMore(c: Codec, es: seq<Entry>)
    ensures WithTail(es, Parse(c, [])) == Some(es)
  {
    assert es + [] == es;
  }

  lemma PrefixIsTorn(p: seq<byte>, n: nat, rest: seq<byte>)
    requires |p| < TWO32 && n + |rest| < |Frame(p)| && (4 <= n || rest == [])
    ensures !HasFrame(Frame(p)[..n] + rest)
  {
    hide BeBytes, BeNat;
    var tail := Frame(p)[..n] + rest;
    if 4 <= n {
      assert tail[..4] == BeBytes(|p|, 4);
      U32RoundTrip(|p|);
    }
  }

  // ---------- rotate ----------

  /** Rotation changes no replay, provided the new name sorts after every other
      rotated file. */
  lemma RotateRepresents(c: Codec, files: Files, es: seq<Entry>, ts: int)
    requires Represents(c, files, es) && CurrentIsLast(files)
    requires forall n :: n in Older(files) ==> LexLess(n, RotatedName(ts))
    ensures Represents(c, Rotate(files, ts), es) && CurrentIsLast(Rotate(files, ts))
    ensures WAL_LOG in files ==> Older(Rotate(files, ts)) == Older(files) + {RotatedName(ts)}
  {
    if WAL_LOG in files {
      RotatedFiles(files, ts);
      ReadRotated(files, Rotate(files, ts), RotatedName(ts));
    }
  }

  /** What rotation does to the directory. */
  ghost predicate Moved(files: Files, files': Files, x: string) {
    && WAL_LOG in files && WAL_LOG in files' && x in files'
    && Older(files') == Older(files) + {x} && x !in Older(files)
    && files'[x] == files[WAL_LOG] && files'[WAL_LOG] == []
    && (forall n :: n in Older(files) ==> n in files && n in files' && files'[n] == files[n])
  }

  lemma RotatedFiles(files: Files, ts: int)
    requires CurrentIsLast(files) && AllWhole(files) && WAL_LOG in files
    requires forall n :: n in Older(files) ==> LexLess(n, RotatedName(ts))
    ensures Moved(files, Rotate(files, ts), RotatedName(ts))
    ensures CurrentIsLast(Rotate(files, ts)) && AllWhole(Rotate(files, ts))
  {
    WalLogIsWal();
    RotatedBeforeCurrent(ts);
    FreshName(files, RotatedName(ts));
    assert Whole([]);
    hide IsWal, RotatedName, Whole;
    assert Older(Rotate(files, ts)) == Older(files) + {RotatedName(ts)};
  }

  lemma ReadRotated(files: Files, files': Files, x: string)
    requires CurrentIsLast(files) && CurrentIsLast(files') && Moved(files, files', x)
    requires forall n :: n in Older(files) ==> LexLess(n, x)
    ensures ReadAll(files') == ReadAll(files)
  {
    hide Payload, ReadAll, Older, CurrentIsLast;
    PayloadSingle([]);
    ReadSplit(files);
    ReadSplit(files');
    OlderIn(files);
    OlderIn(files');
    SortedLast(Older(files), x);
    PayloadsAgree(Sorted(Older(files)), files, files');
    PayloadsSnoc(Sorted(Older(files)), x, files');
  }

  lemma OlderIn(files: Files)
    ensures forall n :: n in Older(files) ==> n in files
  {
  }

  lemma FreshName(files: Files, x: string)
    requires forall n :: n in Older(files) ==> LexLess(n, x)
    ensures x !in Older(files)
  {
    LexIrreflexive(x);
  }

  // ---------- compact ----------

  lemma CompactRepresents(c: Codec, files: Files, es: seq<Entry>, k: nat)
    requires RoundTrips(c) && Represents(c, files, es) && |Marshal(c, Keep(es, k))| < TWO32
    ensures Represents(c, Compact(c, files, k), Keep(es, k))
    ensures Names(Compact(c, files, k), IsWal) == {WAL_LOG}
    ensures SameSnaps(files, Compact(c, files, k))
  {
    hide Marshal, Keep, Replay, ReadAll, Frame, Represents, Payload;
    ReplayRepresents(c, files, es);
    CompactedFiles(c, files, es, k);
    var data := Marshal(c, Keep(es, k));
    PayloadSingle(data);
    SingleFile(Compact(c, files, k));
    SingleRepresents(c, Compact(c, files, k), Keep(es, k));
  }

  /** Recovery after a compaction: of an indexed log exactly the entries above the
      index, each as often as it was there and in order; of one without indexes all
      but the first k. */
  lemma CompactKeeps(c: Codec, files: Files, es: seq<Entry>, k: nat, kept: seq<Entry>)
    requires RoundTrips(c) && Represents(c, files, es) && KeptOf(es, k, kept) && |Marshal(c, kept)| < TWO32
    ensures Replay(c, Compact(c, files, k)) == Some(kept)
    ensures Names(Compact(c, files, k), IsWal) == {WAL_LOG}
    ensures forall n :: !("wal." <= n) ==> (n in Compact(c, files, k) <==> n in files)
    ensures forall n :: !("wal." <= n) && n in files ==> Compact(c, files, k)[n] == files[n]
  {
    hide Marshal, Keep, Replay, ReadAll, Frame, Represents, KeptOf, Picks, IsWal;
    KeepKeeps(es, k);
    KeptUnique(es, k, kept, Keep(es, k));
    CompactRepresents(c, files, es, k);
    ReplayRepresents(c, Compact(c, files, k), kept);
  }

  lemma KeptUnique(es: seq<Entry>, k: nat, kept: seq<Entry>, kept': seq<Entry>)
    requires KeptOf(es, k, kept) && KeptOf(es, k, kept')
    ensures kept == kept'
  {
    hide Picks;
    if exists e :: e in es && e.index > 0 {
      PicksUnique(es, (e: Entry) => e.index > k, kept, kept');
    }
  }

  lemma SingleRepresents(c: Codec, files: Files, es: seq<Entry>)
    requires Names(files, IsWal) == {WAL_LOG} && files[WAL_LOG] == Frame(Marshal(c, es)) && |Marshal(c, es)| < TWO32
    ensures Represents(c, files, es)
  {
    hide Marshal, Frame, ReadAll, Payload, Whole;
    PayloadSingle(Marshal(c, es));
    SingleFile(files);
    MarshalSmall(c, es);
    forall n | n in files && IsWal(n) ensures Whole(files[n]) {
      assert n in Names(files, IsWal);
    }
  }

  ghost predicate SameSnaps(files: Files, files': Files) {
    && Names(files', IsSnap) == Names(files, IsSnap)
    && forall n :: n in Names(files, IsSnap) ==> n in files && n in files' && files'[n] == files[n]
  }

  lemma CompactedFiles(c: Codec, files: Files, es: seq<Entry>, k: nat)
    requires Replay(c, files) == Some(es)
    ensures Names(Compact(c, files, k), IsWal) == {WAL_LOG}
    ensures Compact(c, files, k)[WAL_LOG] == Frame(Marshal(c, Keep(es, k)))
    ensures SameSnaps(files, Compact(c, files, k))
  {
    hide Marshal, Replay, Keep, Frame;
    WalLogIsWal();
    assert forall n: string :: IsWal(n) ==> "wal." <= n;
    forall n: string ensures IsSnap(n) ==> !("wal." <= n) && n != WAL_LOG {
      if IsSnap(n) { assert n[..9][0] == n[0]; }
    }
    hide IsWal, IsSnap;
  }

  lemma SingleFile(files: Files)
    requires Names(files, IsWal) == {WAL_LOG}
    ensures ReadAll(files) == Payload(files[WAL_LOG]) && CurrentIsLast(files) && Older(files) == {}
  {
    assert WAL_LOG in Names(files, IsWal);
    forall n | n in files && IsWal(n) ensures n == WAL_LOG {
      assert n in Names(files, IsWal);
    }
    ReadSplit(files);
    assert Older(files) == {};
    assert Sorted({}) == [];
  }

  /** What the files other than the current one hold. */
  ghost function OlderBytes(files: Files): seq<byte> {
    Payloads(Sorted(Older(files)), files)
  }

  lemma EmptiedCurrent(c: Codec, files: Files, past: seq<Entry>)
    requires AllWhole(files) && CurrentIsLast(files) && OlderBytes(files) == Marshal(c, past) && Small(c, past)
    ensures var f := files[WAL_LOG := []];
            Represents(c, f, past) && CurrentIsLast(f) && Current(f) == []
  {
    hide AllWhole, CurrentIsLast, Older, Current, Whole, Marshal, Payload, Payloads, Sorted, ReadAll;
    var f := files[WAL_LOG := []];
    EmptiedFiles(files);
    ReadTwo(files);
    ReadTwo(f);
    PayloadsAgree(Sorted(Older(files)), files, f);
    PayloadSingle([]);
  }

  lemma EmptiedFiles(files: Files)
    requires AllWhole(files) && CurrentIsLast(files)
    ensures var f := files[WAL_LOG := []];
            && AllWhole(f) && CurrentIsLast(f) && Older(f) == Older(files) && Current(f) == []
            && forall n :: n in Older(files) ==> n in files && n in f && files[n] == f[n]
  {
    WalLogIsWal();
    assert Whole([]);
    hide IsWal, Whole, LexLess;
    assert Older(files[WAL_LOG := []]) == Older(files);
  }

  /** A compaction that crashes while it rewrites the current file loses the
      entries that file held, kept ones included; one that crashes before it
      removes the rotated files replays theirs again before the kept ones, so
      it does no harm exactly when they held none. */
  lemma CrashedCompaction(c: Codec, files: Files, es: seq<Entry>, past: seq<Entry>, k: nat, n: nat)
    requires RoundTrips(c) && Represents(c, files, es) && CurrentIsLast(files)
    requires OlderBytes(files) == Marshal(c, past) && Small(c, past)
    requires |Marshal(c, Keep(es, k))| < TWO32
    ensures var data := Frame(Marshal(c, Keep(es, k)));
            && (n < |data| ==> Replay(c, files[WAL_LOG := data[..n]]) == Some(past))
            && Replay(c, files[WAL_LOG := data]) == Some(past + Keep(es, k))
            && (Replay(c, files[WAL_LOG := data]) == Some(Keep(es, k)) <==> past == [])
  {
    hide Marshal, ReadAll, Keep, Replay, Frame, OlderBytes, Represents, AllWhole;
    var f := files[WAL_LOG := []];
    var kept := Keep(es, k);
    var data := Frame(Marshal(c, kept));
    RepresentsWhole(c, files, es);
    EmptiedCurrent(c, files, past);
    if n < |data| {
      TornAppend(c, f, past, kept, n);
      assert [] + data[..n] == data[..n];
      assert f[WAL_LOG := [] + data[..n]] == files[WAL_LOG := data[..n]];
    }
    AppendRepresents(c, f, past, kept);
    assert AppendWal(f, Marshal(c, kept)) == files[WAL_LOG := [] + data];
    assert [] + data == data;
    ReplayRepresents(c, files[WAL_LOG := data], past + kept);
    assert past + kept == kept <==> past == [] by { assert |past + kept| == |past| + |kept|; assert [] + kept == kept; }
  }

  lemma RepresentsWhole(c: Codec, files: Files, es: seq<Entry>)
    requires Represents(c, files, es)
    ensures AllWhole(files)
  {
  }

  // ---------- what compaction keeps ----------

  lemma {:induction false} AboveAbove(es: seq<Entry>, a: nat, b: nat)
    ensures Above(Above(es, a), b) == Above(es, if a < b then b else a)
  {
    if es != [] {
      var front := es[..|es| - 1];
      AboveAbove(front, a, b);
      AboveSnoc(Above(front, a), es[|es| - 1], b);
    }
  }

  lemma AboveSnoc(es: seq<Entry>, e: Entry, k: nat)
    ensures Above(es + [e], k) == Above(es, k) + (if e.index > k then [e] else [])
  {
    assert (es + [e])[..|es|] == es;
  }

  lemma {:induction false} AboveIndexed(es: seq<Entry>, k: nat)
    ensures forall i :: 0 <= i < |Above(es, k)| ==> Above(es, k)[i].index > k
  {
    if es != [] {
      AboveIndexed(es[..|es| - 1], k);
    }
  }

  /** Compacting twice: on a log with indexes it is the larger of the two bounds
      that counts, on a log without them their sum. */
  lemma KeepTwice(es: seq<Entry>, a: nat, b: nat)
    ensures Keep(Keep(es, a), b) == if HasIndexed(es) then Keep(es, if a < b then b else a) else Keep(es, a + b)
  {
    if HasIndexed(es) {
      AboveAbove(es, a, b);
      AboveIndexed(es, a);
      var kept := Above(es, a);
      if kept == [] {
        assert !HasIndexed(kept);
        assert Above(kept, b) == [];
      } else {
        assert kept[0].index > 0;
      }
    }
  }

  /** Entries with a positive index. */
  function Positive(es: seq<Entry>): seq<Entry> {
    Above(es, 0)
  }

  /** Compacting at zero loses no entry with a positive index. */
  lemma KeepZero(es: seq<Entry>)
    ensures Positive(Keep(es, 0)) == Positive(es)
  {
    if HasIndexed(es) {
      AboveAbove(es, 0, 0);
    } else {
      assert es[0..] == es;
    }
  }

  /** On disk: two compactions replay like one. */
  lemma CompactTwice(c: Codec, files: Files, es: seq<Entry>, a: nat, b: nat)
    requires RoundTrips(c) && Represents(c, files, es)
    requires |Marshal(c, Keep(es, a))| < TWO32 && |Marshal(c, Keep(Keep(es, a), b))| < TWO32
    ensures Replay(c, Compact(c, Compact(c, files, a), b)) ==
            Some(if HasIndexed(es) then Keep(es, if a < b then b else a) else Keep(es, a + b))
  {
    hide Represents, Replay, Compact, Keep, Marshal;
    CompactRepresents(c, files, es, a);
    CompactRepresents(c, Compact(c, files, a), Keep(es, a), b);
    ReplayRepresents(c, Compact(c, Compact(c, files, a), b), Keep(Keep(es, a), b));
    KeepTwice(es, a, b);
  }

  // ---------- snapshots ----------

  lemma SameLatest(files: Files, files': Files)
    requires SameSnaps(files, files')
    ensures LoadSnapshot(files') == LoadSnapshot(files)
  {
    var snaps := Sorted(Names(files, IsSnap));
    assert snaps != [] ==> snaps[|snaps| - 1] in snaps;
  }

  ghost predicate SameWal(files: Files, files': Files) {
    && Names(files', IsWal) == Names(files, IsWal)
    && forall n :: n in Names(files, IsWal) ==> n in files && n in files' && files'[n] == files[n]
  }

  lemma SameWalReads(c: Codec, files: Files, files': Files, es: seq<Entry>)
    requires SameWal(files, files') && Represents(c, files, es) && CurrentIsLast(files)
    ensures Represents(c, files', es) && CurrentIsLast(files') && Older(files') == Older(files)
  {
    hide Marshal, IsWal, Whole;
    forall n | n in files' && IsWal(n) ensures n in files && files[n] == files'[n] {
      assert n in Names(files', IsWal);
    }
    PayloadsAgree(Sorted(Names(files, IsWal)), files, files');
  }

  lemma SnapIsSnap(ts: int)
    ensures IsSnap(SnapName(ts)) && !IsWal(SnapName(ts))
  {
    assert SnapName(ts)[..9] == "snapshot.";
    Kinds(SnapName(ts));
  }

  /** A snapshot saved under the greatest name so far is the one loaded next. */
  lemma SavedIsLatest(files: Files, ts: int, data: seq<byte>)
    requires forall n :: n in Names(files, IsSnap) ==> LexLess(n, SnapName(ts))
    ensures LoadSnapshot(SaveSnapshot(files, ts, data)) == Some(data)
    ensures SameWal(files, SaveSnapshot(files, ts, data))
    ensures Names(SaveSnapshot(files, ts, data), IsSnap) == Names(files, IsSnap) + {SnapName(ts)}
  {
    hide SnapName, IsSnap, LoadSnapshot, SaveSnapshot, IsWal;
    SavedNames(files, ts, data);
    LatestLast(SaveSnapshot(files, ts, data), Names(files, IsSnap), SnapName(ts));
  }

  lemma SavedNames(files: Files, ts: int, data: seq<byte>)
    ensures var files' := SaveSnapshot(files, ts, data);
            && SameWal(files, files')
            && Names(files', IsSnap) == Names(files, IsSnap) + {SnapName(ts)}
            && SnapName(ts) in files' && files'[SnapName(ts)] == data
  {
    SnapIsSnap(ts);
    hide SnapName, IsSnap, IsWal;
  }

  lemma LatestLast(files: Files, S: set<string>, x: string)
    requires Names(files, IsSnap) == S + {x} && forall n :: n in S ==> LexLess(n, x)
    requires x in files
    ensures LoadSnapshot(files) == Some(files[x])
  {
    hide IsSnap;
    SortedLast(S, x);
  }

  /** With any clock: a snapshot just saved is the one loaded exactly if no other
      name is greater, or the one under the greatest name has the same contents. */
  lemma SavedIsLoadedIff(files: Files, ts: int, data: seq<byte>)
    ensures LoadSnapshot(SaveSnapshot(files, ts, data)) == Some(data) <==>
            (forall n :: n in Names(files, IsSnap) ==> n == SnapName(ts) || LexLess(n, SnapName(ts)))
            || LoadSnapshot(files) == Some(data)
  {
    hide SnapName, IsSnap, LoadSnapshot, SaveSnapshot, IsWal, LexLess;
    var x, files' := SnapName(ts), SaveSnapshot(files, ts, data);
    var S := Names(files, IsSnap);
    SavedNames(files, ts, data);
    if forall n :: n in S ==> n == x || LexLess(n, x) {
      assert Names(files', IsSnap) == (S - {x}) + {x};
      LatestLast(files', S - {x}, x);
    } else {
      var n :| n in S && n != x && !LexLess(n, x);
      LexConnected(n, x);
      GreaterStays(files, ts, data, n);
    }
  }

  /** A greater name is still the one loaded. */
  lemma GreaterStays(files: Files, ts: int, data: seq<byte>, n: string)
    requires n in Names(files, IsSnap) && LexLess(SnapName(ts), n)
    ensures LoadSnapshot(SaveSnapshot(files, ts, data)) == LoadSnapshot(files)
  {
    hide SnapName, IsSnap, LoadSnapshot, SaveSnapshot, IsWal, LexLess;
    var x, S := SnapName(ts), Names(files, IsSnap);
    var g := GreatestOf(S);
    SavedNames(files, ts, data);
    if g != n {
      LexTransitive(x, n, g);
    }
    LexIrreflexive(x);
    OtherKept(files, ts, data, g);
    assert S == (S - {g}) + {g};
    LatestLast(files, S - {g}, g);
    assert S + {x} == (S + {x} - {g}) + {g};
    LatestLast(SaveSnapshot(files, ts, data), S + {x} - {g}, g);
  }

  ghost function GreatestOf(S: set<string>): (g: string)
    requires S != {}
    ensures g in S && forall n :: n in S ==> n == g || LexLess(n, g)
  {
    var s := Sorted(S);
    assert |s| > 0;
    assert s[|s| - 1] in s;
    s[|s| - 1]
  }

  lemma OtherKept(files: Files, ts: int, data: seq<byte>, g: string)
    requires g in files && g != SnapName(ts)
    ensures g in SaveSnapshot(files, ts, data) && SaveSnapshot(files, ts, data)[g] == files[g]
  {
  }

  /** Purging keeps exactly the greatest names. */
  lemma PurgeKeepsGreatest(files: Files, keep: nat)
    ensures var snaps := Sorted(Names(files, IsSnap));
            Sorted(Names(Purge(files, keep), IsSnap)) ==
            if |snaps| <= keep then snaps else snaps[|snaps| - keep..]
    ensures SameWal(files, Purge(files, keep))
  {
    hide IsWal, IsSnap, Sorted, Names, SetOf, SameWal, Ascending, LexLess;
    var S := Names(files, IsSnap);
    var snaps := Sorted(S);
    SameWalItself(files);
    if |snaps| > keep {
      var D := SetOf(snaps[..|snaps| - keep]);
      FrontOf(S, |snaps| - keep);
      RemoveSnaps(files, D);
    }
  }

  lemma SameWalItself(files: Files)
    ensures SameWal(files, files)
  {
  }

  lemma RemoveSnaps(files: Files, D: set<string>)
    requires D <= Names(files, IsSnap)
    ensures Names(files - D, IsSnap) == Names(files, IsSnap) - D
    ensures SameWal(files, files - D)
  {
    forall n: string ensures !(IsWal(n) && IsSnap(n)) {
      Kinds(n);
    }
    hide IsWal, IsSnap;
  }

  lemma FrontOf(S: set<string>, cut: nat)
    requires cut <= |Sorted(S)|
    ensures SetOf(Sorted(S)[..cut]) <= S
    ensures Sorted(S - SetOf(Sorted(S)[..cut])) == Sorted(S)[cut..]
  {
    hide Sorted;
    var s := Sorted(S);
    LexTotal();
    AscendingSplit(s, cut);
    AscendingUnique(Sorted(S - SetOf(s[..cut])), s[cut..], LexLess);
  }

  lemma AscendingSplit(s: seq<string>, cut: nat)
    requires Ascending(s, LexLess) && cut <= |s|
    ensures Ascending(s[cut..], LexLess)
    ensures forall x :: x in s[cut..] <==> x in s && x !in s[..cut]
  {
    LexTotal();
    assert s == s[..cut] + s[cut..];
    assert forall i, j :: 0 <= i < cut && 0 <= j < |s| - cut ==> s[..cut][i] != s[cut..][j];
  }

  /** The snapshot that would be loaded survives a purge exactly when at least
      one is kept or there is none. */
  lemma PurgeKeepsLatest(files: Files, keep: nat)
    ensures LoadSnapshot(Purge(files, keep)) == LoadSnapshot(files) <==> keep >= 1 || Names(files, IsSnap) == {}
  {
    hide IsSnap, Purge, LoadSnapshot, Sorted, Names, Ascending, LexLess;
    PurgeKeepsGreatest(files, keep);
    LatestOf(files);
    LatestOf(Purge(files, keep));
    PurgedContents(files, keep);
    assert |Sorted(Names(files, IsSnap))| == 0 <==> Names(files, IsSnap) == {};
  }

  lemma PurgedContents(files: Files, keep: nat)
    ensures forall n :: n in Purge(files, keep) ==> n in files && Purge(files, keep)[n] == files[n]
  {
    hide IsSnap;
  }

  lemma LatestOf(files: Files)
    ensures var snaps := Sorted(Names(files, IsSnap));
            && (snaps == [] ==> LoadSnapshot(files) == None)
            && (snaps != [] ==> snaps[|snaps| - 1] in files && LoadSnapshot(files) == Some(files[snaps[|snaps| - 1]]))
  {
    hide IsSnap, Sorted, Ascending, LexLess;
    var snaps := Sorted(Names(files, IsSnap));
    assert snaps != [] ==> snaps[|snaps| - 1] in snaps;
  }

  // ---------- the object store ----------

  /** A snapshot uploaded under the greatest key survives the loss of the whole
      directory, and is a local one from then on. */
  lemma UploadSurvives(bucket: Bucket, ts: int, data: seq<byte>)
    requires forall k :: k in Names(bucket, IsListed) ==> LexLess(k, SnapName(ts))
    ensures var (files, r) := LoadOrFetch(map[], Some(bucket[SnapName(ts) := data]));
            r == Some(data) && LoadSnapshot(files) == Some(data)
  {
    hide SnapName, LoadSnapshot, LoadOrFetch, LexLess, IsSnap, IsListed;
    var x := SnapName(ts);
    var none: Files := map[];
    var bucket' := bucket[x := data];
    SnapListed(ts);
    SnapIsSnap(ts);
    NoSnapshot();
    assert Names(bucket', IsListed) == Names(bucket, IsListed) + {x};
    FetchesGreatest(none, bucket', Names(bucket, IsListed), x);
    var files: Files := map[x := data];
    assert Names(files, IsSnap) == {} + {x};
    LatestLast(files, {}, x);
  }

  lemma NoSnapshot()
    ensures LoadSnapshot(map[]) == None
  {
    var none: Files := map[];
    assert Names(none, IsSnap) == {};
    assert |Sorted({})| == 0;
  }

  lemma FetchesGreatest(files: Files, bucket: Bucket, S: set<string>, x: string)
    requires LoadSnapshot(files).None? && x in bucket && Names(bucket, IsListed) == S + {x}
    requires forall k :: k in S ==> LexLess(k, x)
    ensures LoadOrFetch(files, Some(bucket)) == (files[x := bucket[x]], Some(bucket[x]))
  {
    hide LoadSnapshot, IsListed, LexLess;
    SortedLast(S, x);
  }

  lemma SnapListed(ts: int)
    ensures IsListed(SnapName(ts))
  {
  }

  // ---------- maintenance ----------

  /** Node.Compact: compact, rotate, keep two snapshots. */
  ghost function Maintain(c: Codec, files: Files, k: nat, ts: int): Files {
    Purge(Rotate(Compact(c, files, k), ts), 2)
  }

  /** Maintenance keeps exactly what compaction keeps and the same snapshot,
      whatever the clock says. */
  lemma MaintainRepresents(c: Codec, files: Files, es: seq<Entry>, k: nat, ts: int)
    requires RoundTrips(c) && Represents(c, files, es) && |Marshal(c, Keep(es, k))| < TWO32
    ensures Represents(c, Maintain(c, files, k, ts), Keep(es, k))
    ensures LoadSnapshot(Maintain(c, files, k, ts)) == LoadSnapshot(files)
    ensures KeptOf(es, k, Keep(es, k))
  {
    hide Represents, Compact, Marshal, Keep, Rotate, Purge, LoadSnapshot, KeptOf;
    KeepKeeps(es, k);
    var f1 := Compact(c, files, k);
    var f2 := Rotate(f1, ts);
    CompactRepresents(c, files, es, k);
    SingleFile(f1);
    RotateRepresents(c, f1, Keep(es, k), ts);
    RotateSnaps(f1, ts);
    PurgeKeepsGreatest(f2, 2);
    SameWalReads(c, f2, Purge(f2, 2), Keep(es, k));
    SameLatest(files, f1);
    SameLatest(f1, f2);
    PurgeKeepsLatest(f2, 2);
  }

  /** Maintenance leaves an empty current file, one rotated file of what is kept, the
      two latest snapshots, and no other file of the log. */
  lemma MaintainLeaves(c: Codec, files: Files, es: seq<Entry>, k: nat, ts: int)
    requires Replay(c, files) == Some(es)
    ensures var files' := Maintain(c, files, k, ts);
            var snaps := Sorted(Names(files, IsSnap));
            && Names(files', IsWal) == {WAL_LOG, RotatedName(ts)}
            && files'[WAL_LOG] == [] && files'[RotatedName(ts)] == Frame(Marshal(c, Keep(es, k)))
            && Sorted(Names(files', IsSnap)) == if |snaps| <= 2 then snaps else snaps[|snaps| - 2..]
  {
    hide Compact, Marshal, Keep, Rotate, Purge, Replay, Frame, IsWal, IsSnap, RotatedName, Sorted;
    var f1 := Compact(c, files, k);
    var f2 := Rotate(f1, ts);
    CompactedFiles(c, files, es, k);
    RotatedOne(f1, ts);
    RotateSnaps(f1, ts);
    PurgeKeepsGreatest(f2, 2);
    assert Names(f2, IsSnap) == Names(files, IsSnap);
  }

  lemma RotatedOne(files: Files, ts: int)
    requires Names(files, IsWal) == {WAL_LOG}
    ensures var files' := Rotate(files, ts);
            && Names(files', IsWal) == {WAL_LOG, RotatedName(ts)}
            && files'[WAL_LOG] == [] && files'[RotatedName(ts)] == files[WAL_LOG]
  {
    WalLogIsWal();
    RotatedBeforeCurrent(ts);
    assert WAL_LOG in Names(files, IsWal);
    assert RotatedName(ts) != WAL_LOG by { LexIrreflexive(WAL_LOG); }
    hide IsWal, RotatedName, LexLess;
    var files' := Rotate(files, ts);
    forall n ensures n in Names(files', IsWal) <==> n == WAL_LOG || n == RotatedName(ts) {
      assert n in files && IsWal(n) <==> n in Names(files, IsWal);
    }
  }

  lemma RotateSnaps(files: Files, ts: int)
    ensures SameSnaps(files, Rotate(files, ts))
  {
    WalLogIsWal();
    RotatedBeforeCurrent(ts);
    Kinds(RotatedName(ts));
    hide IsSnap, IsWal, RotatedName;
  }

  /** Maintenance at zero loses no entry with a positive index. */
  lemma MaintainZero(c: Codec, files: Files, es: seq<Entry>, ts: int)
    requires RoundTrips(c) && Represents(c, files, es) && |Marshal(c, Keep(es, 0))| < TWO32
    ensures var r := Replay(c, Maintain(c, files, 0, ts));
            r.Some? && Positive(r.value) == Positive(es)
  {
    hide Represents, Replay, Keep, Marshal, Maintain;
    MaintainRepresents(c, files, es, 0, ts);
    ReplayRepresents(c, Maintain(c, files, 0, ts), Keep(es, 0));
    KeepZero(es);
  }

  // ---------- whole runs ----------

  datatype Op =
    | AppendOp(es: seq<Entry>)
    | RotateOp(ts: nat)
    | CompactOp(k: nat)
    | SnapshotOp(ts: nat, data: seq<byte>)
    | PurgeOp(keep: nat)

  /** What a run stands for: the entries, and the last snapshot saved. */
  datatype Abs = Abs(entries: seq<Entry>, latest: Option<seq<byte>>)

  ghost function Apply(c: Codec, files: Files, op: Op): Files {
    match op
    case AppendOp(es) => AppendWal(files, Marshal(c, es))
    case RotateOp(ts) => Rotate(files, ts)
    case CompactOp(k) => Compact(c, files, k)
    case SnapshotOp(ts, data) => SaveSnapshot(files, ts, data)
    case PurgeOp(keep) => Purge(files, keep)
  }

  function AbsApply(a: Abs, op: Op): Abs {
    match op
    case AppendOp(es) => a.(entries := a.entries + es)
    case RotateOp(_) => a
    case CompactOp(k) => a.(entries := Keep(a.entries, k))
    case SnapshotOp(_, data) => a.(latest := Some(data))
    case PurgeOp(_) => a
  }

  function Clock(t: int, op: Op): int {
    match op
    case RotateOp(ts) => ts
    case SnapshotOp(ts, _) => ts
    case _ => t
  }

  /** The run's hypotheses: a clock that only moves forward and whose numerals
      keep their width, frames below 2^32 bytes, and purges that keep something. */
  predicate Admissible(c: Codec, width: nat, t: int, a: Abs, op: Op) {
    match op
    case AppendOp(es) => |Marshal(c, es)| < TWO32
    case RotateOp(ts) => t < ts && |Numeral(ts)| == width
    case CompactOp(k) => |Marshal(c, Keep(a.entries, k))| < TWO32
    case SnapshotOp(ts, _) => t < ts && |Numeral(ts)| == width
    case PurgeOp(keep) => keep >= 1
  }

  ghost function FilesAfter(c: Codec, ops: seq<Op>): Files {
    if ops == [] then map[] else Apply(c, FilesAfter(c, ops[..|ops| - 1]), ops[|ops| - 1])
  }

  function AbsAfter(ops: seq<Op>): Abs {
    if ops == [] then Abs([], None) else AbsApply(AbsAfter(ops[..|ops| - 1]), ops[|ops| - 1])
  }

  function ClockAfter(ops: seq<Op>): int {
    if ops == [] then -1 else Clock(ClockAfter(ops[..|ops| - 1]), ops[|ops| - 1])
  }

  predicate AdmissibleRun(c: Codec, width: nat, ops: seq<Op>) {
    ops == [] ||
    (AdmissibleRun(c, width, ops[..|ops| - 1])
     && Admissible(c, width, ClockAfter(ops[..|ops| - 1]), AbsAfter(ops[..|ops| - 1]), ops[|ops| - 1]))
  }

  /** The name was made from a clock reading no later than t. */
  ghost predicate MadeBy(n: string, width: nat, t: int, prefix: string, suffix: string) {
    exists u: nat :: u <= t && |Numeral(u)| == width && n == prefix + Decimal(u) + suffix
  }

  ghost predicate Dated(files: Files, width: nat, t: int) {
    && (forall n :: n in Older(files) ==> MadeBy(n, width, t, "wal.", ".log"))
    && (forall n :: n in Names(files, IsSnap) ==> MadeBy(n, width, t, "snapshot.", ".snap"))
  }

  ghost predicate Inv(c: Codec, width: nat, t: int, files: Files, a: Abs) {
    && Represents(c, files, a.entries)
    && CurrentIsLast(files)
    && Dated(files, width, t)
    && LoadSnapshot(files) == a.latest
  }

  lemma LaterName(n: string, width: nat, t: int, ts: nat, prefix: string, suffix: string)
    requires MadeBy(n, width, t, prefix, suffix) && t < ts && |Numeral(ts)| == width
    ensures LexLess(n, prefix + Decimal(ts) + suffix)
    ensures MadeBy(n, width, ts, prefix, suffix)
  {
    var u: nat :| u <= t && |Numeral(u)| == width && n == prefix + Decimal(u) + suffix;
    NameOrder(prefix, suffix, u, ts);
  }

  lemma InvAppend(c: Codec, width: nat, t: int, files: Files, a: Abs, es: seq<Entry>)
    requires Inv(c, width, t, files, a) && |Marshal(c, es)| < TWO32
    ensures Inv(c, width, t, AppendWal(files, Marshal(c, es)), a.(entries := a.entries + es))
  {
    hide Represents, Marshal, LoadSnapshot, MadeBy, AppendWal, Older, CurrentIsLast;
    AppendRepresents(c, files, a.entries, es);
    AppendSnaps(files, Marshal(c, es));
    SameLatest(files, AppendWal(files, Marshal(c, es)));
  }

  lemma AppendSnaps(files: Files, data: seq<byte>)
    ensures SameSnaps(files, AppendWal(files, data))
  {
    WalLogIsWal();
    hide IsSnap, Frame;
  }

  lemma InvRotate(c: Codec, width: nat, t: int, files: Files, a: Abs, ts: nat)
    requires Inv(c, width, t, files, a) && t < ts && |Numeral(ts)| == width
    ensures Inv(c, width, ts, Rotate(files, ts), a)
  {
    hide Represents, LoadSnapshot, CurrentIsLast, Rotate, Older, IsSnap;
    var files' := Rotate(files, ts);
    forall n | n in Older(files) ensures LexLess(n, RotatedName(ts)) && MadeBy(n, width, ts, "wal.", ".log") {
      LaterName(n, width, t, ts, "wal.", ".log");
    }
    forall n | n in Names(files, IsSnap) ensures MadeBy(n, width, ts, "snapshot.", ".snap") {
      LaterName(n, width, t, ts, "snapshot.", ".snap");
    }
    RotateRepresents(c, files, a.entries, ts);
    RotateSnaps(files, ts);
    SameLatest(files, files');
    assert MadeBy(RotatedName(ts), width, ts, "wal.", ".log");
    assert Rotate(files, ts) == files || WAL_LOG in files by { NotRotated(files, ts); }
  }

  lemma NotRotated(files: Files, ts: int)
    ensures WAL_LOG in files || Rotate(files, ts) == files
  {
  }

  lemma InvCompact(c: Codec, width: nat, t: int, files: Files, a: Abs, k: nat)
    requires RoundTrips(c) && Inv(c, width, t, files, a) && |Marshal(c, Keep(a.entries, k))| < TWO32
    ensures Inv(c, width, t, Compact(c, files, k), a.(entries := Keep(a.entries, k)))
  {
    hide Represents, LoadSnapshot, Compact, Keep, Marshal, MadeBy, Older, CurrentIsLast;
    CompactRepresents(c, files, a.entries, k);
    SingleFile(Compact(c, files, k));
    SameLatest(files, Compact(c, files, k));
  }

  lemma InvSnapshot(c: Codec, width: nat, t: int, files: Files, a: Abs, ts: nat, data: seq<byte>)
    requires Inv(c, width, t, files, a) && t < ts && |Numeral(ts)| == width
    ensures Inv(c, width, ts, SaveSnapshot(files, ts, data), a.(latest := Some(data)))
  {
    hide Represents, LoadSnapshot, CurrentIsLast, SaveSnapshot, Older, IsSnap, IsWal;
    forall n | n in Older(files) ensures MadeBy(n, width, ts, "wal.", ".log") {
      LaterName(n, width, t, ts, "wal.", ".log");
    }
    forall n | n in Names(files, IsSnap)
      ensures LexLess(n, SnapName(ts)) && MadeBy(n, width, ts, "snapshot.", ".snap")
    {
      LaterName(n, width, t, ts, "snapshot.", ".snap");
    }
    SavedIsLatest(files, ts, data);
    SameWalReads(c, files, SaveSnapshot(files, ts, data), a.entries);
    assert MadeBy(SnapName(ts), width, ts, "snapshot.", ".snap");
  }

  lemma InvPurge(c: Codec, width: nat, t: int, files: Files, a: Abs, keep: nat)
    requires Inv(c, width, t, files, a) && keep >= 1
    ensures Inv(c, width, t, Purge(files, keep), a)
  {
    hide Represents, LoadSnapshot, CurrentIsLast, Older, MadeBy, IsSnap;
    PurgeKeepsGreatest(files, keep);
    PurgeKeepsLatest(files, keep);
    SameWalReads(c, files, Purge(files, keep), a.entries);
  }

  lemma InvStep(c: Codec, width: nat, t: int, files: Files, a: Abs, op: Op)
    requires RoundTrips(c) && Inv(c, width, t, files, a) && Admissible(c, width, t, a, op)
    ensures Inv(c, width, Clock(t, op), Apply(c, files, op), AbsApply(a, op))
  {
    hide Inv, AppendWal, Rotate, Compact, SaveSnapshot, Purge, Marshal, Keep, Numeral;
    match op
    case AppendOp(es) => InvAppend(c, width, t, files, a, es);
    case RotateOp(ts) => InvRotate(c, width, t, files, a, ts);
    case CompactOp(k) => InvCompact(c, width, t, files, a, k);
    case SnapshotOp(ts, data) => InvSnapshot(c, width, t, files, a, ts, data);
    case PurgeOp(keep) => InvPurge(c, width, t, files, a, keep);
  }

  lemma {:induction false} InvRun(c: Codec, width: nat, ops: seq<Op>)
    requires RoundTrips(c) && AdmissibleRun(c, width, ops)
    ensures Inv(c, width, ClockAfter(ops), FilesAfter(c, ops), AbsAfter(ops))
  {
    hide Inv, Apply, AbsApply, Admissible, Clock;
    if ops == [] {
      InvEmpty(c, width);
    } else {
      var front := ops[..|ops| - 1];
      InvRun(c, width, front);
      InvStep(c, width, ClockAfter(front), FilesAfter(c, front), AbsAfter(front), ops[|ops| - 1]);
    }
  }

  lemma InvEmpty(c: Codec, width: nat)
    ensures Inv(c, width, -1, map[], Abs([], None))
  {
    var files: Files := map[];
    assert Names(files, IsWal) == {} && Names(files, IsSnap) == {};
    assert Sorted({}) == [];
  }

  /** For every run of appends, rotations, compactions, snapshots and purges,
      recovery replays exactly the entries the run stands for and loads exactly
      the last snapshot saved. */
  lemma ReplayAfterRun(c: Codec, width: nat, ops: seq<Op>)
    requires RoundTrips(c) && AdmissibleRun(c, width, ops)
    ensures Replay(c, FilesAfter(c, ops)) == Some(AbsAfter(ops).entries)
    ensures LoadSnapshot(FilesAfter(c, ops)) == AbsAfter(ops).latest
  {
    InvRun(c, width, ops);
    hide FilesAfter, AbsAfter, Represents, Dated, LoadSnapshot, Replay;
    ReplayRepresents(c, FilesAfter(c, ops), AbsAfter(ops).entries);
  }
}
