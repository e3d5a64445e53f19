/** The segment object: fields changed in place and loops over byte buffers,
    each method proved against the state functions. */
module Segments {
  import opened Bytes
  import opened Order
  import opened Paths
  import opened SegmentState
  import SegmentRuns

  /** A segment's directory on disk, shared by all who open it. */
  class Directory {
    const path: Path
    var log: seq<byte>
    var indexFile: seq<byte>
    var timeFile: seq<byte>

    function Contents(): Files
      reads this
    {
      Files(log, indexFile, timeFile)
    }

    constructor (path: Path, f: Files)
      ensures this.path == path && Contents() == f
    {
      this.path, log, indexFile, timeFile := path, f.log, f.indexFile, f.timeFile;
    }
  }

  class Segment {
    const files: Directory
    const codec: Codec
    ghost const owner: string  // the topic it belongs to
    var position: int
    var nextOffset: int
    var offsets: map<int, int>
    var timeOffsets: map<int, int>

    function State(): Seg
      reads this, files
    {
      Seg(files.log, files.indexFile, files.timeFile, position, nextOffset, offsets, timeOffsets)
    }

    /** newSegment over files that already exist (empty ones included). */
    constructor (files: Directory, codec: Codec, start: int, ghost owner: string)
      ensures this.files == files && this.codec == codec && this.owner == owner
      ensures State() == Open(files.log, files.indexFile, files.timeFile, start)
    {
      this.files, this.codec, this.owner := files, codec, owner;
      this.position := |files.log|;
      this.nextOffset := start;
      this.offsets, this.timeOffsets := map[], map[];
      new;
      LoadIndexes();
    }

    method LoadIndexes()
      modifies this`offsets, this`timeOffsets, this`nextOffset
      ensures offsets == LoadMap(files.indexFile, |files.indexFile| / 16)
      ensures nextOffset == LoadNext(files.indexFile, old(nextOffset), |files.indexFile| / 16)
      ensures timeOffsets == LoadMap(files.timeFile, |files.timeFile| / 16)
    {
      offsets, nextOffset := LoadOffsets(files.indexFile, nextOffset);
      timeOffsets := LoadTimes(files.timeFile);
    }

    method Append(rec: Record, fault: Fault) returns (r: Option<int>)
      requires 0 <= position <= |files.log|
      modifies this, files
      ensures State() == SegmentState.Append(codec, old(State()), rec, fault)
      ensures r == SegmentRuns.AppendResult(codec, old(State()), rec, fault)
      ensures var p := codec.enc(rec);
              r == if fault.NoFault? && p.Some? && |p.value| <= 0xFFFFFFFF && old(position) + 4 + |p.value| <= MAX_INT64
                   then Some(old(nextOffset)) else None
    {
      hide WriteAt, IndexBytes, IndexAfter, TimeAfter, BeBytes, Take;
      var encoded := codec.enc(rec);
      if encoded.None? {
        return None;
      }
      var payload := encoded.value;
      if |payload| > 0xFFFFFFFF || position + 4 + |payload| > MAX_INT64 {
        return None;
      }
      var prefix := BeBytes(|payload|, 4);
      if fault.PrefixWrite? {
        files.log := WriteAt(files.log, position, Take(prefix, fault.n));
        return None;
      }
      files.log := WriteAt(files.log, position, prefix);
      if fault.PayloadWrite? {
        files.log := WriteAt(files.log, position + 4, Take(payload, fault.n));
        return None;
      }
      files.log := WriteAt(files.log, position + 4, payload);
      var offset := nextOffset;
      offsets := offsets[offset := position];
      timeOffsets := timeOffsets[rec.timestamp := offset];
      position := position + 4 + |payload|;
      nextOffset := nextOffset + 1;
      var ok := PersistIndexes(fault);
      r := if ok then Some(offset) else None;
    }

    method PersistIndexes(fault: Fault) returns (ok: bool)
      requires !fault.PrefixWrite? && !fault.PayloadWrite?
      modifies files`indexFile, files`timeFile
      ensures State() == Persist(old(State()), fault)
      ensures ok == fault.NoFault?
    {
      ok := false;
      if fault.IndexOpen? { return; }
      var buf := EncodeTable(offsets);
      if fault.IndexWrite? {
        files.indexFile := Take(buf, fault.n);
        return;
      }
      files.indexFile := buf;
      if fault.TimeOpen? { return; }
      var timeBuf := EncodeTable(timeOffsets);
      if fault.TimeWrite? {
        files.timeFile := Take(timeBuf, fault.n);
        return;
      }
      files.timeFile := timeBuf;
      ok := true;
    }

    method ReadRange(from: int, max: int) returns (r: Option<seq<Record>>)
      ensures r == SegmentState.ReadRange(codec, State(), from, max)
    {
      hide SegmentState.ReadByOffset, ReadList;
      IntTotal();
      var keys := CollectSorted((set k | k in offsets && k >= from), IntLess);
      r := ReadKeys(keys, if max <= 0 then 100 else max);
    }

    method ReadKeys(keys: seq<int>, max: int) returns (r: Option<seq<Record>>)
      requires max > 0
      ensures r == ReadList(codec, State(), Take(keys, max))
    {
      hide SegmentState.ReadByOffset;
      var result := [];
      var i := 0;
      while i < |keys| && |result| < max
        invariant 0 <= i <= |keys| && i <= max
        invariant |result| == i
        invariant ReadList(codec, State(), keys[..i]) == Some(result)
      {
        var rec := ReadByOffset(keys[i]);
        assert keys[..i + 1][..i] == keys[..i];
        if rec.None? {
          ReadListFails(codec, State(), Take(keys, max), i);
          return None;
        }
        result := result + [rec.value];
        i := i + 1;
      }
      assert keys[..i] == Take(keys, max);
      r := Some(result);
    }

    method ReadByOffset(offset: int) returns (r: Option<Record>)
      ensures r == SegmentState.ReadByOffset(codec, State(), offset)
    {
      if offset !in offsets {
        return None;
      }
      var pos := offsets[offset];
      if pos < 0 || pos + 4 > |files.log| {
        return None;
      }
      var length := BeNat(files.log[pos..pos + 4]);
      if pos + 4 + length > |files.log| {
        return None;
      }
      r := codec.dec(files.log[pos + 4..pos + 4 + length]);
    }
  }

  method LoadOffsets(data: seq<byte>, start: int) returns (m: map<int, int>, next: int)
    ensures m == LoadMap(data, |data| / 16)
    ensures next == LoadNext(data, start, |data| / 16)
  {
    hide DecodeInt64;
    m, next := map[], start;
    var i := 0;
    while 16 * i + 16 <= |data|
      invariant 0 <= i && 16 * i <= |data|
      invariant m == LoadMap(data, i)
      invariant next == LoadNext(data, start, i)
    {
      var off := ReadInt64(data, 16 * i);
      var pos := ReadInt64(data, 16 * i + 8);
      m := m[off := pos];
      if off >= next {
        next := off + 1;
      }
      i := i + 1;
    }
  }

  method LoadTimes(data: seq<byte>) returns (m: map<int, int>)
    ensures m == LoadMap(data, |data| / 16)
  {
    hide DecodeInt64;
    m := map[];
    var i := 0;
    while 16 * i + 16 <= |data|
      invariant 0 <= i && 16 * i <= |data|
      invariant m == LoadMap(data, i)
    {
      var ts := ReadInt64(data, 16 * i);
      var off := ReadInt64(data, 16 * i + 8);
      m := m[ts := off];
      i := i + 1;
    }
  }

  method ReadInt64(data: seq<byte>, at: nat) returns (v: int)
    requires at + 8 <= |data|
    ensures v == DecodeInt64(data[at..at + 8])
  {
    var b := data[at..at + 8];
    assert Take(b, 8) == b;
    v := BytesToInt64(b);
  }

  /** The sorted entries of a map, sixteen bytes each. */
  method EncodeTable(m: map<int, int>) returns (buf: seq<byte>)
    ensures buf == IndexBytes(m)
  {
    IntTotal();
    var keys := CollectSorted(m.Keys, IntLess);
    buf := EncodeKeys(keys, m);
  }

  method EncodeKeys(keys: seq<int>, m: map<int, int>) returns (buf: seq<byte>)
    requires forall k :: k in keys ==> k in m
    ensures buf == TableBytes(keys, m)
  {
    hide BeBytes, DecodeInt64;
    buf := [];
    for i := 0 to |keys|
      invariant buf == TableBytes(keys[..i], m)
    {
      assert keys[..i + 1][..i] == keys[..i];
      var key := Int64ToBytes(keys[i]);
      var value := Int64ToBytes(m[keys[i]]);
      buf := buf + (key + value);
    }
    assert keys[..|keys|] == keys;
  }

  /** One unreadable offset makes the whole range read fail. */
  lemma {:induction false} ReadListFails(c: Codec, s: Seg, ks: seq<int>, i: nat)
    requires i < |ks| && ReadByOffset(c, s, ks[i]).None?
    ensures ReadList(c, s, ks).None?
  {
    if i < |ks| - 1 {
      ReadListFails(c, s, ks[..|ks| - 1], i);
    }
  }
}
