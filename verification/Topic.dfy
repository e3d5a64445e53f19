/** A topic over its segments: producing, the two ways of consuming, and the
    raw read path with its chunked copy. */
module Topics {
  import opened Bytes
  import opened SegmentState
  import opened Segments
  import SegmentRuns

  datatype Message = Message(key: seq<byte>, value: seq<byte>, headers: map<string, string>, timestamp: int64)

  // ---------- producing ----------

  datatype TopicState = TopicState(next: int, seg: Seg)

  /** A topic just created over whatever its directory holds: the counter starts at zero. */
  function Created(seg: Seg): TopicState {
    TopicState(0, seg)
  }

  function Stamp(m: Message, offset: int): Record {
    Record(m.key, m.value, m.headers, m.timestamp, offset)
  }

  ghost function Produced(c: Codec, t: TopicState, m: Message, fault: Fault): TopicState
    requires 0 <= t.seg.position <= |t.seg.log|
  {
    var rec := Stamp(m, t.next);
    var seg := Append(c, t.seg, rec, fault);
    match SegmentRuns.AppendResult(c, t.seg, rec, fault)
    case Some(offset) => TopicState(offset + 1, seg)
    case None => t.(seg := seg)
  }

  /** A topic writes to its one segment and counts offsets beside it. */
  class Topic {
    const name: string
    var nextOffset: int
    const seg: Segment

    ghost function State(): TopicState
      reads this, seg, seg.files
    {
      TopicState(nextOffset, seg.State())
    }

    /** CreateTopic over whatever files the topic's directory holds. */
    constructor (name: string, codec: Codec, files: Directory)
      ensures State() == Created(Opened(files.Contents())) && fresh(seg)
      ensures this.name == name && seg.owner == name && seg.codec == codec && seg.files == files
    {
      this.name := name;
      seg := new Segment(files, codec, 0, name);
      nextOffset := 0;
    }

    /** Produce with the broker lock held; the returned record carries the log offset. */
    method Produce(m: Message, draining: bool, fault: Fault) returns (r: Option<Record>)
      requires 0 <= seg.position <= |seg.files.log|
      modifies this, seg, seg.files
      ensures State() == if draining then old(State()) else Produced(seg.codec, old(State()), m, fault)
      ensures r.Some? <==>
              !draining && SegmentRuns.AppendResult(seg.codec, old(seg.State()), Stamp(m, old(nextOffset)), fault).Some?
      ensures r.Some? ==> r.value == Stamp(m, old(seg.nextOffset))
    {
      hide Append;
      if draining {
        return None;
      }
      var rec := Stamp(m, nextOffset);
      var offset := seg.Append(rec, fault);
      if offset.None? {
        return None;
      }
      nextOffset := offset.value + 1;
      r := Some(rec.(offset := offset.value));
    }
  }

  predicate IndexFault(fault: Fault) {
    fault.IndexOpen? || fault.IndexWrite? || fault.TimeOpen? || fault.TimeWrite?
  }

  /** The stored records after a run of messages on a topic created over s. */
  ghost function ProduceRun(c: Codec, s: Seg, a: SegmentRuns.Abs, msgs: seq<(Message, Fault)>)
    : (r: (TopicState, SegmentRuns.Abs))
    requires RoundTrips(c) && SegmentRuns.Sound(c, s, 0, a)
    ensures SegmentRuns.Sound(c, r.0.seg, 0, r.1)
  {
    if msgs == [] then (Created(s), a) else
      var (t, b) := ProduceRun(c, s, a, msgs[..|msgs| - 1]);
      var (m, fault) := msgs[|msgs| - 1];
      SegmentRuns.AppendSound(c, t.seg, 0, b, Stamp(m, t.next), fault);
      (Produced(c, t, m, fault),
       SegmentRuns.AbsStep(c, t.seg.position, b, SegmentRuns.AppendOp(Stamp(m, t.next), fault)))
  }

  ghost predicate Stamped(recs: seq<Record>) {
    forall i :: 0 <= i < |recs| ==> recs[i].offset == i
  }

  /** On a topic created over an empty directory every stored Offset field is
      the record's log offset, as long as no index file fails to be rewritten. */
  lemma {:induction false} StampedRun(c: Codec, msgs: seq<(Message, Fault)>)
    requires RoundTrips(c) && forall p :: p in msgs ==> !IndexFault(p.1)
    ensures var empty := SegmentRuns.Run(c, 0, []);
            var (t, a) := ProduceRun(c, empty.0, empty.1, msgs);
            Stamped(a.recs) && t.next == |a.recs| == t.seg.nextOffset
  {
    hide SegmentRuns.Frames, SegmentRuns.Covers, IndexBytes, Append;
    if msgs != [] {
      var p := msgs[|msgs| - 1];
      assert p in msgs;
      StampedRun(c, msgs[..|msgs| - 1]);
    }
  }

  /** Over a directory that already holds records the counter is out of step:
      the first record stored carries its log offset exactly when there were none. */
  lemma ReloadedTopic(c: Codec, s: Seg, a: SegmentRuns.Abs, m: Message)
    requires RoundTrips(c) && SegmentRuns.Sound(c, s, 0, a)
    requires Keeps(c, s.position, Stamp(m, 0), NoFault)
    ensures var (t, b) := ProduceRun(c, s, a, [(m, NoFault)]);
            && |b.recs| == |a.recs| + 1
            && (b.recs[|a.recs|].offset == |a.recs| <==> a.recs == [])
  {
    hide SegmentRuns.Sound, Append, Keeps;
    var msgs := [(m, NoFault)];
    assert msgs[..|msgs| - 1] == [];
  }

  // ---------- consuming ----------

  /** Reading segment after segment until max records are collected. */
  ghost function ConsumeList(c: Codec, segs: seq<Seg>, from: int, max: int, acc: seq<Record>): Option<seq<Record>>
    decreases |segs|
  {
    if segs == [] then Some(acc) else
      match ReadRange(c, segs[0], from, max - |acc|)
      case None => None
      case Some(recs) =>
        if |acc + recs| >= max then Some(acc + recs) else ConsumeList(c, segs[1..], from, max, acc + recs)
  }

  ghost function States(segs: seq<Segment>): (r: seq<Seg>)
    reads segs, set seg | seg in segs :: seg.files
    ensures |r| == |segs| && forall i :: 0 <= i < |segs| ==> r[i] == segs[i].State()
  {
    if segs == [] then [] else States(segs[..|segs| - 1]) + [segs[|segs| - 1].State()]
  }

  method Consume(c: Codec, segs: seq<Segment>, from: int, max: int) returns (r: Option<seq<Record>>)
    requires forall seg :: seg in segs ==> seg.codec == c
    ensures r == ConsumeList(c, States(segs), from, Limit(max), [])
  {
    hide SegmentState.ReadRange, States;
    var limit := if max <= 0 then 100 else max;
    var result := [];
    var i := 0;
    ghost var states := States(segs);
    while i < |segs|
      invariant 0 <= i <= |segs|
      invariant ConsumeList(c, states, from, limit, []) == ConsumeList(c, states[i..], from, limit, result)
    {
      var recs := segs[i].ReadRange(from, limit - |result|);
      assert states[i..][1..] == states[i + 1..];
      if recs.None? {
        return None;
      }
      result := result + recs.value;
      if |result| >= limit {
        return Some(result);
      }
      i := i + 1;
    }
    r := Some(result);
  }

  /** On a topic with one segment that stands for recs, consuming returns the
      first max records at or after the requested offset. */
  lemma ConsumeCorrect(c: Codec, s: Seg, recs: seq<Record>, from: int, max: int)
    requires SegmentRuns.Readable(c, s, 0, recs)
    ensures ConsumeList(c, [s], from, Limit(max), []) == Some(SegmentRuns.Slice(recs, 0, from, max))
  {
    hide SegmentRuns.Readable, ReadRange;
    SegmentRuns.ReadRangeCorrect(c, s, 0, recs, from, Limit(max));
    var got := SegmentRuns.Slice(recs, 0, from, max);
    assert [] + got == got;
    assert ConsumeList(c, [s][1..], from, Limit(max), [] + got) == Some(got);
  }

  /** The records of a segment at or after an offset. */
  function Rest(recs: seq<Record>, base: int, from: int): seq<Record> {
    if from <= base then recs else if from - base >= |recs| then [] else recs[from - base..]
  }

  /** What several segments hold at or after an offset, one after the other. */
  function RestOfAll(lists: seq<(int, seq<Record>)>, from: int): seq<Record> {
    if lists == [] then [] else Rest(lists[0].1, lists[0].0, from) + RestOfAll(lists[1..], from)
  }

  ghost predicate AllReadable(c: Codec, segs: seq<Seg>, lists: seq<(int, seq<Record>)>) {
    |segs| == |lists| && forall i :: 0 <= i < |segs| ==> SegmentRuns.Readable(c, segs[i], lists[i].0, lists[i].1)
  }

  lemma SliceIsRest(recs: seq<Record>, base: int, from: int, n: int)
    requires n > 0
    ensures SegmentRuns.Slice(recs, base, from, n) == Take(Rest(recs, base, from), n)
  {
    assert recs[0..] == recs;
  }

  /** Over any number of segments consuming returns the first max records at or after
      the offset of all segments together, in order. */
  lemma ConsumeAll(c: Codec, segs: seq<Seg>, lists: seq<(int, seq<Record>)>, from: int, max: int)
    requires AllReadable(c, segs, lists)
    ensures ConsumeList(c, segs, from, Limit(max), [])
            == Some(Take(RestOfAll(lists, from), if max <= 0 then 100 else max))
  {
    hide SegmentRuns.Readable, ConsumeList;
    ConsumeOn(c, segs, lists, from, Limit(max), []);
    assert [] + RestOfAll(lists, from) == RestOfAll(lists, from);
  }

  lemma {:induction false} ConsumeOn(c: Codec, segs: seq<Seg>, lists: seq<(int, seq<Record>)>, from: int, max: int,
                                     acc: seq<Record>)
    requires AllReadable(c, segs, lists) && |acc| < max
    ensures ConsumeList(c, segs, from, max, acc) == Some(Take(acc + RestOfAll(lists, from), max))
    decreases |segs|
  {
    hide SegmentRuns.Readable, ReadRange, SegmentRuns.Slice, Rest;
    if segs == [] {
      assert acc + [] == acc;
    } else {
      var n := max - |acc|;
      var here, later := Rest(lists[0].1, lists[0].0, from), RestOfAll(lists[1..], from);
      SegmentRuns.ReadRangeCorrect(c, segs[0], lists[0].0, lists[0].1, from, n);
      SliceIsRest(lists[0].1, lists[0].0, from, n);
      var got := Take(here, n);
      assert acc + (here + later) == acc + here + later;
      if |here| < n {
        assert got == here;
        ConsumeOn(c, segs[1..], lists[1..], from, max, acc + here);
      } else {
        assert Take(acc + here + later, max) == acc + got;
      }
    }
  }

  function FetchLimit(maxBytes: int): (n: int)
    ensures n > 0
  {
    if maxBytes <= 0 then 1024 * 1024 else maxBytes
  }

  /** What the record-at-a-time loop collects, starting at offset, and whether a
      read that failed ended it. */
  ghost function FetchAll(c: Codec, segs: seq<Seg>, offset: int, n: int): (seq<Record>, bool)
    requires n > 0
    decreases n
  {
    match ConsumeList(c, segs, offset, Limit(1), [])
    case None => ([], true)
    case Some(got) =>
      if got == [] then ([], false)
      else if n == 1 then ([got[0]], false)
      else
        var rest := FetchAll(c, segs, offset + 1, n - 1);
        ([got[0]] + rest.0, rest.1)
  }

  /** Fetch: despite its name maxBytes bounds the number of records. */
  method Fetch(c: Codec, segs: seq<Segment>, from: int, maxBytes: int) returns (acc: seq<Record>, failed: bool)
    requires forall seg :: seg in segs ==> seg.codec == c
    ensures (acc, failed) == FetchAll(c, States(segs), from, FetchLimit(maxBytes))
    ensures |acc| <= if maxBytes <= 0 then 1024 * 1024 else maxBytes
  {
    hide ConsumeList, States, FetchAll;
    var max := if maxBytes <= 0 then 1024 * 1024 else maxBytes;
    acc, failed := [], false;
    var offset := from;
    assert [] + FetchAll(c, States(segs), from, max).0 == FetchAll(c, States(segs), from, max).0;
    while true
      invariant |acc| == offset - from < max && !failed
      invariant var rest := FetchAll(c, States(segs), offset, max - |acc|);
                (acc + rest.0, rest.1) == FetchAll(c, States(segs), from, max)
      decreases max - |acc|
    {
      var got := Consume(c, segs, offset, 1);
      FetchStep(c, States(segs), offset, max - |acc|, acc);
      if got.None? {
        return acc, true;
      }
      if got.value == [] {
        return;
      }
      acc := acc + [got.value[0]];
      if |acc| >= max {
        return;
      }
      offset := offset + 1;
    }
  }

  lemma FetchStep(c: Codec, segs: seq<Seg>, offset: int, n: int, acc: seq<Record>)
    requires n > 0
    ensures var got := ConsumeList(c, segs, offset, Limit(1), []);
            var all := FetchAll(c, segs, offset, n);
            (acc + all.0, all.1) ==
            if got.None? then (acc, true)
            else if got.value == [] then (acc, false)
            else if n == 1 then (acc + [got.value[0]], false)
            else var rest := FetchAll(c, segs, offset + 1, n - 1); (acc + [got.value[0]] + rest.0, rest.1)
  {
    hide ConsumeList;
    var got := ConsumeList(c, segs, offset, Limit(1), []);
    assert acc + [] == acc;
    if got.Some? && got.value != [] && n > 1 {
      var rest := FetchAll(c, segs, offset + 1, n - 1);
      assert acc + ([got.value[0]] + rest.0) == acc + [got.value[0]] + rest.0;
    }
  }

  /** The same loop over a list of records. */
  function FetchList(recs: seq<Record>, offset: int, n: int): seq<Record>
    requires n > 0
    decreases n
  {
    var got := SegmentRuns.Slice(recs, 0, offset, 1);
    if got == [] then [] else
      [got[0]] + (if n == 1 then [] else FetchList(recs, offset + 1, n - 1))
  }

  /** On a segment that stands for recs no read fails. */
  lemma {:induction false} FetchReadable(c: Codec, s: Seg, recs: seq<Record>, offset: int, n: int)
    requires SegmentRuns.Readable(c, s, 0, recs) && n > 0
    ensures FetchAll(c, [s], offset, n) == (FetchList(recs, offset, n), false)
    decreases n
  {
    hide SegmentRuns.Readable, ConsumeList, SegmentRuns.Slice;
    ConsumeCorrect(c, s, recs, offset, 1);
    assert forall r: Record :: [r] + [] == [r];
    if n > 1 {
      FetchReadable(c, s, recs, offset + 1, n - 1);
    }
  }

  /** The first n records are there and all the same. */
  ghost predicate Uniform(recs: seq<Record>, n: int) {
    n <= |recs| && forall i :: 0 <= i < n ==> recs[i] == recs[0]
  }

  /** The two read paths agree on every request from a non-negative offset. With
      a negative offset the loop re-reads the first record once per step, so they
      agree exactly when the records asked for are there and all the same. */
  lemma FetchEqualsConsume(c: Codec, s: Seg, recs: seq<Record>, from: int, n: int)
    requires SegmentRuns.Readable(c, s, 0, recs) && n > 0
    ensures var all := FetchAll(c, [s], from, n);
            ConsumeList(c, [s], from, n, []) == Some(all.0) && !all.1 <==> from >= 0 || recs == [] || Uniform(recs, n)
  {
    hide SegmentRuns.Readable, ConsumeList, Uniform;
    FetchReadable(c, s, recs, from, n);
    ConsumeCorrect(c, s, recs, from, n);
    ListsAgree(recs, from, n);
  }

  lemma ListsAgree(recs: seq<Record>, from: int, n: int)
    requires n > 0
    ensures FetchList(recs, from, n) == SegmentRuns.Slice(recs, 0, from, n)
        <==> from >= 0 || recs == [] || Uniform(recs, n)
  {
    if from >= 0 {
      FetchFromZero(recs, from, n);
    } else if recs != [] {
      FetchBelowZero(recs, from, n);
      hide FetchList;
      var f := FetchList(recs, from, n);
      if f == SegmentRuns.Slice(recs, 0, from, n) {
        AllSame(recs, from, n, f);
      }
      if Uniform(recs, n) {
        assert SegmentRuns.Slice(recs, 0, from, n) == recs[..n];
        assert f == recs[..n];
      }
    }
  }

  lemma FetchFirst(recs: seq<Record>, from: int, n: int)
    requires n > 0 && from < 0 && recs != []
    ensures FetchList(recs, from, n) == [recs[0]] + if n == 1 then [] else FetchList(recs, from + 1, n - 1)
  {
  }

  /** Below zero the loop stays at the first record. */
  lemma {:induction false} FetchBelowZero(recs: seq<Record>, from: int, n: int)
    requires n > 0 && from < 0 && recs != []
    ensures var f := FetchList(recs, from, n);
            && |f| == (if n < |recs| - from then n else |recs| - from)
            && forall k :: 0 <= k < |f| ==> f[k] == recs[if from + k < 0 then 0 else from + k]
    decreases n
  {
    FetchFirst(recs, from, n);
    hide FetchList;
    if n > 1 {
      if from == -1 {
        FetchFromZero(recs, 0, n - 1);
        assert recs[0..] == recs;
      } else {
        hide SegmentRuns.Slice;
        FetchBelowZero(recs, from + 1, n - 1);
      }
    }
  }

  lemma AllSame(recs: seq<Record>, from: int, n: int, f: seq<Record>)
    requires n > 0 && from < 0 && recs != [] && f == SegmentRuns.Slice(recs, 0, from, n)
    requires |f| == if n < |recs| - from then n else |recs| - from
    requires forall k :: 0 <= k < |f| ==> f[k] == recs[if from + k < 0 then 0 else from + k]
    ensures Uniform(recs, n)
  {
    assert n <= |recs|;
    for k := 0 to n
      invariant forall i :: 0 <= i < k ==> recs[i] == recs[0]
    {
      assert f[k] == recs[k];
    }
  }

  lemma {:induction false} FetchFromZero(recs: seq<Record>, from: int, n: int)
    requires n > 0 && from >= 0
    ensures FetchList(recs, from, n) == SegmentRuns.Slice(recs, 0, from, n)
    decreases n
  {
    if from < |recs| && n > 1 {
      FetchFromZero(recs, from + 1, n - 1);
      assert recs[from..][1..] == recs[from + 1..];
    }
  }

  // ---------- raw reads ----------

  /** The first segment that knows the offset. */
  function Holder(segs: seq<Seg>, offset: int): (h: nat)
    ensures h <= |segs| && (h < |segs| ==> offset in segs[h].offsets)
    ensures forall i :: 0 <= i < h ==> offset !in segs[i].offsets
  {
    if segs == [] then 0 else if offset in segs[0].offsets then 0 else 1 + Holder(segs[1..], offset)
  }

  /** FetchRaw: in which log file the payload of an offset lies, and where. */
  method FetchRaw(segs: seq<Segment>, offset: int) returns (r: Option<(nat, int, int)>)
    ensures var h := Holder(States(segs), offset);
            && (r.Some? ==>
                  var (i, pos, len) := r.value;
                  && i == h < |segs| && pos == segs[h].offsets[offset] + 4 >= 4 && len >= 0
                  && (pos + len <= |segs[h].files.log| ==>
                        ReadByOffset(segs[h].codec, segs[h].State(), offset)
                        == segs[h].codec.dec(segs[h].files.log[pos..pos + len])))
            && (h < |segs| && ReadByOffset(segs[h].codec, segs[h].State(), offset).Some? ==>
                  r.Some? && r.value.1 + r.value.2 <= |segs[h].files.log|)
  {
    hide States;
    ghost var states := States(segs);
    for i := 0 to |segs|
      invariant forall j :: 0 <= j < i ==> offset !in states[j].offsets
    {
      if offset in segs[i].offsets {
        assert offset in states[i].offsets;
        assert !(Holder(states, offset) < i);
        var pos := segs[i].offsets[offset];
        if pos < 0 || pos + 4 > |segs[i].files.log| {
          return None;
        }
        return Some((i, pos + 4, BeNat(segs[i].files.log[pos..pos + 4])));
      }
    }
    r := None;
  }

  datatype ReadOutcome = Got(n: nat) | ReadError
  datatype WriteOutcome = Full | Short(n: nat) | WriteError(n: nat)
  datatype CopyError = SeekFailed | ReadFailed | WriteFailed | ShortWrite

  const CHUNK := 32 * 1024

  function Available(file: seq<byte>, off: int, count: int): int {
    if count <= 0 || off >= |file| then 0
    else if off + count <= |file| then count else |file| - off
  }

  /** sendFileFallback: copies count bytes from off through a fixed buffer. The
      k-th read may return any part of what is asked for and the k-th write may
      fall short or fail. What reaches the writer is always the first copied
      bytes; without an error it is all of them, up to the end of the file. */
  method SendFile(file: seq<byte>, off: int, count: int,
                  reader: nat -> ReadOutcome, writer: nat -> WriteOutcome)
    returns (out: seq<byte>, copied: int, err: Option<CopyError>)
    ensures 0 <= copied <= Available(file, off, count)
    ensures copied > 0 ==> 0 <= off && off + copied <= |file| && out == file[off..off + copied]
    ensures copied == 0 ==> out == []
    ensures err.None? ==> copied == Available(file, off, count)
    ensures off >= 0 && (forall k :: reader(k).Got? && writer(k).Full?) ==> err.None?
  {
    out, copied, err := [], 0, None;
    if off < 0 {
      err := Some(SeekFailed);
      return;
    }
    var buf := new byte[CHUNK](_ => 0);
    var remain := count;
    var k := 0;
    while remain > 0
      invariant 0 <= copied && remain == count - copied && (remain >= 0 || copied == 0)
      invariant copied == 0 || off + copied <= |file|
      invariant out == Piece(file, off, copied)
      decreases remain
    {
      var at := off + copied;
      if reader(k).ReadError? {
        err := Some(ReadFailed);
        return;
      }
      if at >= |file| {
        break;
      }
      var n := Fill(buf, file, at, if remain < CHUNK then remain else CHUNK, reader(k).n);
      var written, piece := Write(buf[..n], writer(k));
      PieceGrows(file, off, copied, written, buf[..n]);
      out := out + piece;
      copied := copied + written;
      if writer(k).WriteError? {
        err := Some(WriteFailed);
        return;
      }
      if written != n {
        err := Some(ShortWrite);
        return;
      }
      remain := remain - n;
      k := k + 1;
    }
  }

  /** The n bytes of a file from off on. */
  function Piece(file: seq<byte>, off: int, n: int): seq<byte> {
    if 0 <= off <= off + n <= |file| then file[off..off + n] else []
  }

  lemma PieceGrows(file: seq<byte>, off: int, n: int, m: int, chunk: seq<byte>)
    requires 0 <= off && 0 <= n && 0 <= m <= |chunk| && off + n + |chunk| <= |file|
    requires chunk == file[off + n..off + n + |chunk|]
    ensures Piece(file, off, n) + chunk[..m] == Piece(file, off, n + m)
  {
  }

  /** One write: how much of the chunk the writer takes. */
  method Write(chunk: seq<byte>, outcome: WriteOutcome) returns (written: int, piece: seq<byte>)
    ensures 0 <= written <= |chunk| && piece == chunk[..written]
    ensures outcome.Full? ==> written == |chunk|
  {
    written := match outcome
      case Full => |chunk|
      case Short(w) => if w < |chunk| then w else |chunk|
      case WriteError(w) => if w < |chunk| then w else |chunk|;
    piece := chunk[..written];
  }

  /** One read into the buffer: at least one byte, at most what is asked for. */
  method Fill(buf: array<byte>, file: seq<byte>, at: int, want: int, offered: nat) returns (n: int)
    requires 0 <= at < |file| && 0 < want <= buf.Length
    modifies buf
    ensures 0 < n <= want && at + n <= |file|
    ensures buf[..n] == file[at..at + n]
  {
    n := if want < |file| - at then want else |file| - at;
    n := if offered == 0 then 1 else if offered < n then offered else n;
    forall i | 0 <= i < n {
      buf[i] := file[at + i];
    }
  }

  /** Fetching an offset raw and copying it out delivers the very payload bytes
      that decode to the record, whatever the pattern of short reads. */
  method SendRecord(seg: Segment, ghost recs: seq<Record>, base: int, offset: int, reader: nat -> ReadOutcome)
    returns (out: seq<byte>)
    requires SegmentRuns.Readable(seg.codec, seg.State(), base, recs) && base <= offset < base + |recs|
    requires forall k :: reader(k).Got?
    ensures seg.codec.dec(out) == Some(recs[offset - base])
  {
    hide SegmentRuns.Readable;
    SegmentRuns.ReadByOffsetCorrect(seg.codec, seg.State(), base, recs, offset);
    assert States([seg]) == [seg.State()];
    var at := FetchRaw([seg], offset);
    var copied, err;
    out, copied, err := SendFile(seg.files.log, at.value.1, at.value.2, reader, _ => Full);
    assert out == seg.files.log[at.value.1..at.value.1 + at.value.2];
  }
}
