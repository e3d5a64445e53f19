/** The raft write-ahead log on disk: a directory of files, each a list of
    length-prefixed frames whose payloads together are a list of
    length-prefixed entries. */
module WalState {
  import opened Bytes
  import opened Order

  datatype Entry = Entry(term: nat, index: nat, kind: int, data: seq<byte>)

  /** The protobuf codec of one entry. */
  datatype Codec = Codec(enc: Entry -> seq<byte>, dec: seq<byte> -> Option<Entry>)

  /** Promised only of entries whose encoding fits a frame; there are such codecs. */
  ghost predicate RoundTrips(c: Codec) {
    forall e: Entry :: |c.enc(e)| < TWO32 ==> c.dec(c.enc(e)) == Some(e)
  }

  /** Every entry's encoding fits a frame. */
  predicate Small(c: Codec, es: seq<Entry>) {
    forall e :: e in es ==> |c.enc(e)| < TWO32
  }

  type Files = map<string, seq<byte>>

  /** Four bytes of length, cut to 32 bits, then the payload. */
  function Frame(p: seq<byte>): seq<byte> {
    BeBytes(|p|, 4) + p
  }

  predicate HasFrame(b: seq<byte>) {
    4 <= |b| && 4 + BeNat(b[..4]) <= |b|
  }

  function FrameEnd(b: seq<byte>): (n: nat)
    requires HasFrame(b)
    ensures 4 <= n <= |b|
  {
    4 + BeNat(b[..4])
  }

  // ---------- entries ----------

  function Marshal(c: Codec, es: seq<Entry>): seq<byte> {
    if es == [] then [] else Frame(c.enc(es[0])) + Marshal(c, es[1..])
  }

  /** How reading a list of entries ends: well, on a cut-off tail, or on an
      entry that does not decode. */
  datatype Parsed = Good(es: seq<Entry>) | Torn | Bad

  function Parse(c: Codec, b: seq<byte>): Parsed
    decreases |b|
  {
    if b == [] then Good([])
    else if !HasFrame(b) then Torn
    else match c.dec(b[4..FrameEnd(b)])
      case None => Bad
      case Some(e) =>
        match Parse(c, b[FrameEnd(b)..])
        case Good(es) => Good([e] + es)
        case Torn => Torn
        case Bad => Bad
  }

  /** A parse with entries before it. */
  function Prepend(es: seq<Entry>, p: Parsed): Parsed {
    match p
    case Good(rest) => Good(es + rest)
    case Torn => Torn
    case Bad => Bad
  }

  /** unmarshalEntries: a torn tail gives no entries at all and no error. */
  function Unmarshal(c: Codec, b: seq<byte>): Option<seq<Entry>> {
    match Parse(c, b)
    case Good(es) => Some(es)
    case Torn => Some([])
    case Bad => None
  }

  lemma FrameRead(p: seq<byte>, rest: seq<byte>)
    requires |p| < TWO32
    ensures var b := Frame(p) + rest;
            HasFrame(b) && FrameEnd(b) == 4 + |p| && b[4..FrameEnd(b)] == p && b[FrameEnd(b)..] == rest
  {
    var b := Frame(p) + rest;
    assert b[..4] == BeBytes(|p|, 4);
    U32RoundTrip(|p|);
  }

  /** Reading back what was written. */
  lemma {:induction false} ParseMarshal(c: Codec, es: seq<Entry>)
    requires RoundTrips(c) && Small(c, es)
    ensures Parse(c, Marshal(c, es)) == Good(es)
  {
    if es != [] {
      ParseMarshal(c, es[1..]);
      FrameRead(c.enc(es[0]), Marshal(c, es[1..]));
      hide Frame, HasFrame, FrameEnd;
      assert es == [es[0]] + es[1..];
    }
  }

  /** A batch that fits a frame consists of entries that do. */
  lemma {:induction false} MarshalSmall(c: Codec, es: seq<Entry>)
    requires |Marshal(c, es)| < TWO32
    ensures Small(c, es)
  {
    if es != [] {
      MarshalSmall(c, es[1..]);
      assert es == [es[0]] + es[1..];
    }
  }

  lemma {:induction false} MarshalConcat(c: Codec, a: seq<Entry>, b: seq<Entry>)
    ensures Marshal(c, a + b) == Marshal(c, a) + Marshal(c, b)
  {
    hide Frame;
    if a == [] {
      assert a + b == b;
    } else {
      MarshalConcat(c, a[1..], b);
      assert (a + b)[1..] == a[1..] + b;
    }
  }

  // ---------- one file ----------

  /** What ReadWAL takes from a file: the payloads of its leading whole frames. */
  function Payload(b: seq<byte>): seq<byte>
    decreases |b|
  {
    if !HasFrame(b) then [] else b[4..FrameEnd(b)] + Payload(b[FrameEnd(b)..])
  }

  /** The file is nothing but whole frames. */
  predicate Whole(b: seq<byte>)
    decreases |b|
  {
    b == [] || (HasFrame(b) && Whole(b[FrameEnd(b)..]))
  }

  lemma {:induction false} PayloadAppend(b: seq<byte>, p: seq<byte>)
    requires Whole(b) && |p| < TWO32
    ensures Whole(b + Frame(p))
    ensures Payload(b + Frame(p)) == Payload(b) + p
    decreases |b|
  {
    hide Frame, HasFrame, FrameEnd;
    var f := Frame(p);
    if b == [] {
      PayloadSingle(p);
      assert b + f == f && Payload(b) + p == p;
    } else {
      var n := FrameEnd(b);
      FirstFrame(b, f);
      PayloadAppend(b[n..], p);
      assert Payload(b + f) == b[4..n] + (Payload(b[n..]) + p);
      assert Payload(b) == b[4..n] + Payload(b[n..]);
    }
  }

  lemma PayloadSingle(p: seq<byte>)
    requires |p| < TWO32
    ensures Whole(Frame(p)) && Payload(Frame(p)) == p
    ensures Payload([]) == []
  {
    FrameRead(p, []);
    hide Frame, HasFrame, FrameEnd;
    assert Frame(p) + [] == Frame(p);
    assert Payload([]) == [];
  }

  /** Appending to a file leaves its first frame alone. */
  lemma FirstFrame(b: seq<byte>, more: seq<byte>)
    requires HasFrame(b)
    ensures HasFrame(b + more) && FrameEnd(b + more) == FrameEnd(b)
    ensures (b + more)[4..FrameEnd(b)] == b[4..FrameEnd(b)]
    ensures (b + more)[FrameEnd(b)..] == b[FrameEnd(b)..] + more
  {
    assert (b + more)[..4] == b[..4];
  }

  // ---------- the directory ----------

  const WAL_LOG := "wal.log"

  predicate IsWal(name: string) {
    |name| > 4 && name[..4] == "wal."
  }

  predicate IsSnap(name: string) {
    |name| > 9 && name[..9] == "snapshot."
  }

  function RotatedName(ts: int): string {
    "wal." + Decimal(ts) + ".log"
  }

  function SnapName(ts: int): string {
    "snapshot." + Decimal(ts) + ".snap"
  }

  function Names(files: Files, p: string -> bool): set<string> {
    set n | n in files && p(n)
  }

  ghost function Sorted(S: set<string>): (s: seq<string>)
    ensures Ascending(s, LexLess) && (forall x :: x in s <==> x in S) && |s| == |S|
  {
    LexTotal();
    SortedOf(S, LexLess)
  }

  function Payloads(names: seq<string>, files: Files): seq<byte>
    requires forall n :: n in names ==> n in files
  {
    if names == [] then [] else
      Payloads(names[..|names| - 1], files) + Payload(files[names[|names| - 1]])
  }

  /** ReadWAL(0): the payloads of all log files in the order of their names. */
  ghost function ReadAll(files: Files): seq<byte> {
    Payloads(Sorted(Names(files, IsWal)), files)
  }

  /** Recovery: read everything and decode it. */
  ghost function Replay(c: Codec, files: Files): Option<seq<Entry>> {
    Unmarshal(c, ReadAll(files))
  }

  // ---------- operations ----------

  function AppendWal(files: Files, data: seq<byte>): Files {
    files[WAL_LOG := (if WAL_LOG in files then files[WAL_LOG] else []) + Frame(data)]
  }

  function Rotate(files: Files, ts: int): Files {
    if WAL_LOG !in files then files else
      (files - {WAL_LOG})[RotatedName(ts) := files[WAL_LOG]][WAL_LOG := []]
  }

  predicate HasIndexed(es: seq<Entry>) {
    exists i :: 0 <= i < |es| && es[i].index > 0
  }

  /** Entries above an index, in order. */
  function Above(es: seq<Entry>, k: nat): seq<Entry> {
    if es == [] then [] else
      var front := Above(es[..|es| - 1], k);
      if es[|es| - 1].index > k then front + [es[|es| - 1]] else front
  }

  lemma {:induction false} AbovePicks(es: seq<Entry>, k: nat)
    ensures Picks(es, (e: Entry) => e.index > k, Above(es, k))
  {
    hide Picks;
    var passes := (e: Entry) => e.index > k;
    if es == [] {
      PicksNone(passes);
    } else {
      var front := es[..|es| - 1];
      AbovePicks(front, k);
      PicksSnoc(front, passes, Above(front, k), es[|es| - 1]);
      assert es == front + [es[|es| - 1]];
    }
  }

  lemma {:induction false} AboveCounts(es: seq<Entry>, k: nat, e: Entry)
    ensures multiset(Above(es, k))[e] == if e.index > k then multiset(es)[e] else 0
  {
    if es != [] {
      AboveCounts(es[..|es| - 1], k, e);
      assert es == es[..|es| - 1] + [es[|es| - 1]];
    }
  }

  /** What a compaction keeps: the entries above k, or, in a log without
      indexes, all but the first k. */
  function Keep(es: seq<Entry>, k: nat): seq<Entry> {
    if HasIndexed(es) then Above(es, k)
    else if k <= |es| then es[k..] else []
  }

  /** kept is what a compaction at k is to leave of es: if some entry has an index,
      every entry whose index is above k, as often as it occurs and in order;
      otherwise all but the first k, or nothing if there are no more. */
  ghost predicate KeptOf(es: seq<Entry>, k: nat, kept: seq<Entry>) {
    if exists e :: e in es && e.index > 0 then
      && Picks(es, (e: Entry) => e.index > k, kept)
      && forall e :: multiset(kept)[e] == if e.index > k then multiset(es)[e] else 0
    else kept == es[if k <= |es| then k else |es|..]
  }

  lemma KeepKeeps(es: seq<Entry>, k: nat)
    ensures KeptOf(es, k, Keep(es, k))
  {
    hide Above, Picks;
    AbovePicks(es, k);
    forall e ensures multiset(Above(es, k))[e] == if e.index > k then multiset(es)[e] else 0 {
      AboveCounts(es, k, e);
    }
    assert HasIndexed(es) <==> exists e :: e in es && e.index > 0 by {
      if e :| e in es && e.index > 0 {
        var i :| 0 <= i < |es| && es[i] == e;
      }
      if HasIndexed(es) {
        var i :| 0 <= i < |es| && es[i].index > 0;
        assert es[i] in es;
      }
    }
  }

  /** Compaction as one step over whole files; nothing changes on a decode error. */
  ghost function Compact(c: Codec, files: Files, k: nat): Files {
    match Replay(c, files)
    case None => files
    case Some(es) =>
      (map n | n in files && (n == WAL_LOG || !("wal." <= n)) :: files[n])[WAL_LOG := Frame(Marshal(c, Keep(es, k)))]
  }

  function SaveSnapshot(files: Files, ts: int, data: seq<byte>): Files {
    files[SnapName(ts) := data]
  }

  /** The snapshot with the greatest name. */
  ghost function LoadSnapshot(files: Files): Option<seq<byte>> {
    var snaps := Sorted(Names(files, IsSnap));
    if snaps == [] then None else
      var latest := snaps[|snaps| - 1];
      assert latest in snaps;
      Some(files[latest])
  }

  /** The snapshots bucket of the object store. */
  type Bucket = map<string, seq<byte>>

  predicate IsListed(key: string) {
    "snapshot." <= key
  }

  /** Without a local snapshot the one with the greatest key is fetched and kept;
      no bucket stands for no object store, or one that cannot be reached. */
  ghost function LoadOrFetch(files: Files, bucket: Option<Bucket>): (Files, Option<seq<byte>>) {
    if LoadSnapshot(files).Some? then (files, LoadSnapshot(files))
    else if bucket.None? then (files, None)
    else
      var keys := Sorted(Names(bucket.value, IsListed));
      if keys == [] then (files, None) else
        var latest := keys[|keys| - 1];
        assert latest in keys;
        (files[latest := bucket.value[latest]], Some(bucket.value[latest]))
  }

  function SetOf(names: seq<string>): set<string> {
    set n | n in names
  }

  /** Removes the snapshots with the smallest names, all but keep of them. */
  ghost function Purge(files: Files, keep: nat): Files {
    var snaps := Sorted(Names(files, IsSnap));
    if |snaps| <= keep then files else files - SetOf(snaps[..|snaps| - keep])
  }

  // ---------- the codec hypothesis can be met ----------

  function Unary(n: nat): seq<byte> {
    seq(n, _ => 1) + [0]
  }

  function ReadUnary(b: seq<byte>): Option<(nat, seq<byte>)> {
    if b == [] then None
    else if b[0] == 0 then Some((0, b[1..]))
    else match ReadUnary(b[1..])
      case None => None
      case Some((n, rest)) => Some((n + 1, rest))
  }

  lemma {:induction false} UnaryRead(n: nat, rest: seq<byte>)
    ensures ReadUnary(Unary(n) + rest) == Some((n, rest))
  {
    var b := Unary(n) + rest;
    if n == 0 {
      assert b[0] == 0 && b[1..] == rest;
    } else {
      assert b[0] == 1 && b[1..] == Unary(n - 1) + rest;
      UnaryRead(n - 1, rest);
    }
  }

  /** An integer as a natural number, and back. */
  function Fold(k: int): nat {
    if k >= 0 then 2 * k else -2 * k - 1
  }

  function Unfold(n: nat): (k: int)
    ensures Fold(k) == n
  {
    if n % 2 == 0 then n / 2 else -((n + 1) / 2)
  }

  const UNARY_CODEC := Codec(UnaryEncode, UnaryDecode)

  function UnaryEncode(e: Entry): seq<byte> {
    Unary(e.term) + (Unary(e.index) + (Unary(Fold(e.kind)) + e.data))
  }

  function UnaryDecode(b: seq<byte>): Option<Entry> {
    match ReadUnary(b)
    case None => None
    case Some((term, b1)) =>
      match ReadUnary(b1)
      case None => None
      case Some((index, b2)) =>
        match ReadUnary(b2)
        case None => None
        case Some((kind, data)) => Some(Entry(term, index, Unfold(kind), data))
  }

  /** A codec that round-trips every entry, whatever its size. */
  lemma CodecExists()
    ensures RoundTrips(UNARY_CODEC)
  {
    hide Unary, ReadUnary;
    forall e: Entry ensures UnaryDecode(UnaryEncode(e)) == Some(e) {
      UnaryRead(Fold(e.kind), e.data);
      UnaryRead(e.index, Unary(Fold(e.kind)) + e.data);
      UnaryRead(e.term, Unary(e.index) + (Unary(Fold(e.kind)) + e.data));
      FoldInjective(Unfold(Fold(e.kind)), e.kind);
    }
  }

  lemma FoldInjective(j: int, k: int)
    requires Fold(j) == Fold(k)
    ensures j == k
  {
  }
}
