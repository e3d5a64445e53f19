/** A topic segment as a value: the bytes of its three files together with the
    in-memory index. Every operation is a function from state to state; the
    Segment class is proved against these functions. */
module SegmentState {
  import opened Bytes
  import opened Order

  datatype Record = Record(key: seq<byte>, value: seq<byte>, headers: map<string, string>,
                           timestamp: int64, offset: int)

  /** The JSON codec: marshalling may fail, unmarshalling may fail. */
  datatype Codec = Codec(enc: Record -> Option<seq<byte>>, dec: seq<byte> -> Option<Record>)

  ghost predicate RoundTrips(c: Codec) {
    forall r: Record :: c.enc(r).Some? ==> c.dec(c.enc(r).value) == Some(r)
  }

  datatype Seg = Seg(log: seq<byte>, indexFile: seq<byte>, timeFile: seq<byte>,
                     position: int, nextOffset: int,
                     offsets: map<int, int>, timeOffsets: map<int, int>)

  /** The three files of a segment. */
  datatype Files = Files(log: seq<byte>, indexFile: seq<byte>, timeFile: seq<byte>)

  function FilesOf(s: Seg): Files {
    Files(s.log, s.indexFile, s.timeFile)
  }

  /** The segment in memory over files that somebody else has changed. */
  function WithFiles(s: Seg, f: Files): Seg {
    s.(log := f.log, indexFile := f.indexFile, timeFile := f.timeFile)
  }

  /** Where an append is cut short by the operating system. A file write may
      get n bytes out before it fails; opening an index file for rewriting may
      fail and leave the old contents. */
  datatype Fault =
    | NoFault
    | PrefixWrite(n: nat)
    | PayloadWrite(n: nat)
    | IndexOpen
    | IndexWrite(n: nat)
    | TimeOpen
    | TimeWrite(n: nat)

  function WriteAt(file: seq<byte>, pos: int, data: seq<byte>): (r: seq<byte>)
    requires 0 <= pos <= |file|
    ensures |r| >= |file| && r[..pos] == file[..pos]
    ensures |r| >= pos + |data| && r[pos..pos + |data|] == data
    ensures |r| == |file| || |r| == pos + |data|
  {
    var r := file[..pos] + data + (if pos + |data| <= |file| then file[pos + |data|..] else []);
    assert r[pos..pos + |data|] == data;
    r
  }

  // ---------- index files ----------

  /** Sixteen bytes an entry: key, then value. */
  ghost function TableBytes(ks: seq<int>, m: map<int, int>): (b: seq<byte>)
    requires forall k :: k in ks ==> k in m
    ensures |b| == 16 * |ks|
  {
    if ks == [] then [] else
      var k := ks[|ks| - 1];
      TableBytes(ks[..|ks| - 1], m) + (BeBytes(k, 8) + BeBytes(m[k], 8))
  }

  ghost function SortedKeys(m: map<int, int>): (ks: seq<int>)
    ensures Ascending(ks, IntLess) && forall k :: k in ks <==> k in m
  {
    IntTotal();
    SortedOf(m.Keys, IntLess)
  }

  ghost function IndexBytes(m: map<int, int>): seq<byte> {
    TableBytes(SortedKeys(m), m)
  }

  function EntryKey(data: seq<byte>, i: nat): int
    requires 16 * i + 16 <= |data|
  {
    DecodeInt64(data[16 * i..16 * i + 8])
  }

  function EntryValue(data: seq<byte>, i: nat): int
    requires 16 * i + 16 <= |data|
  {
    DecodeInt64(data[16 * i + 8..16 * i + 16])
  }

  /** The map after loading the first n entries. */
  function LoadMap(data: seq<byte>, n: nat): map<int, int>
    requires 16 * n <= |data|
  {
    if n == 0 then map[] else LoadMap(data, n - 1)[EntryKey(data, n - 1) := EntryValue(data, n - 1)]
  }

  /** The next offset after loading the first n entries. */
  function LoadNext(data: seq<byte>, start: int, n: nat): int
    requires 16 * n <= |data|
  {
    if n == 0 then start else
      var next := LoadNext(data, start, n - 1);
      if EntryKey(data, n - 1) >= next then EntryKey(data, n - 1) + 1 else next
  }

  ghost predicate Encodable(m: map<int, int>) {
    forall k :: k in m ==> IsInt64(k) && IsInt64(m[k])
  }

  lemma {:induction false} TableEntry(ks: seq<int>, m: map<int, int>, i: nat)
    requires forall k :: k in ks ==> k in m
    requires Encodable(m) && i < |ks|
    ensures EntryKey(TableBytes(ks, m), i) == ks[i] && EntryValue(TableBytes(ks, m), i) == m[ks[i]]
  {
    var last := |ks| - 1;
    var b := TableBytes(ks, m);
    var front := TableBytes(ks[..last], m);
    assert b[..16 * last] == front;
    if i < last {
      TableEntry(ks[..last], m, i);
      assert b[16 * i..16 * i + 8] == front[16 * i..16 * i + 8];
      assert b[16 * i + 8..16 * i + 16] == front[16 * i + 8..16 * i + 16];
    } else {
      assert b[16 * i..16 * i + 8] == BeBytes(ks[i], 8);
      assert b[16 * i + 8..16 * i + 16] == BeBytes(m[ks[i]], 8);
      Int64RoundTrip(ks[i]);
      Int64RoundTrip(m[ks[i]]);
    }
  }

  /** Loading n whole entries of a table gives the map restricted to its first n keys. */
  lemma {:induction false} LoadPrefix(data: seq<byte>, ks: seq<int>, m: map<int, int>, n: nat)
    requires forall k :: k in ks ==> k in m
    requires Encodable(m) && 16 * n <= |data| && data[..16 * n] <= TableBytes(ks, m)
    ensures forall k :: k in LoadMap(data, n) <==> k in ks[..n]
    ensures forall k :: k in LoadMap(data, n) ==> k in m && LoadMap(data, n)[k] == m[k]
  {
    if n > 0 {
      assert data[..16 * (n - 1)] == data[..16 * n][..16 * (n - 1)];
      LoadPrefix(data, ks, m, n - 1);
      PrefixEntry(data, ks, m, n - 1);
      assert ks[..n] == ks[..n - 1] + [ks[n - 1]];
    }
  }

  lemma PrefixEntry(data: seq<byte>, ks: seq<int>, m: map<int, int>, i: nat)
    requires forall k :: k in ks ==> k in m
    requires Encodable(m) && 16 * (i + 1) <= |data| && data[..16 * (i + 1)] <= TableBytes(ks, m)
    ensures EntryKey(data, i) == ks[i] && EntryValue(data, i) == m[ks[i]]
  {
    TableEntry(ks, m, i);
    var b := TableBytes(ks, m);
    var p := data[..16 * (i + 1)];
    assert data[16 * i..16 * i + 8] == p[16 * i..16 * i + 8] == b[16 * i..16 * i + 8];
    assert data[16 * i + 8..16 * i + 16] == p[16 * i + 8..16 * i + 16] == b[16 * i + 8..16 * i + 16];
  }

  lemma {:induction false} TablePrefix(ks: seq<int>, m: map<int, int>, n: nat)
    requires forall k :: k in ks ==> k in m
    requires n <= |ks|
    ensures TableBytes(ks[..n], m) == TableBytes(ks, m)[..16 * n]
  {
    if n < |ks| {
      var front := ks[..|ks| - 1];
      TablePrefix(front, m, n);
      assert front[..n] == ks[..n];
      assert TableBytes(ks, m)[..16 * n] == TableBytes(front, m)[..16 * n];
    } else {
      assert ks[..n] == ks;
    }
  }

  lemma {:induction false} TableAgree(ks: seq<int>, m: map<int, int>, m': map<int, int>)
    requires forall k :: k in ks ==> k in m && k in m' && m[k] == m'[k]
    ensures TableBytes(ks, m) == TableBytes(ks, m')
  {
    if ks != [] {
      TableAgree(ks[..|ks| - 1], m, m');
    }
  }

  /** Adding a key above all others extends the index file by one entry. */
  lemma IndexGrows(m: map<int, int>, k: int, v: int)
    requires forall x :: x in m ==> x < k
    ensures SortedKeys(m[k := v]) == SortedKeys(m) + [k]
    ensures IndexBytes(m) <= IndexBytes(m[k := v])
  {
    IntTotal();
    var m' := m[k := v];
    assert m'.Keys == m.Keys + {k};
    SortedAppend(m.Keys, k, IntLess);
    var ks := SortedKeys(m');
    assert ks[..|ks| - 1] == SortedKeys(m);
    TableAgree(SortedKeys(m), m, m');
  }

  // ---------- operations ----------

  function Open(log: seq<byte>, indexFile: seq<byte>, timeFile: seq<byte>, start: int): Seg {
    Seg(log, indexFile, timeFile, |log|,
        LoadNext(indexFile, start, |indexFile| / 16),
        LoadMap(indexFile, |indexFile| / 16),
        LoadMap(timeFile, |timeFile| / 16))
  }

  /** newSegment over the files of a topic. */
  function Opened(f: Files): (s: Seg)
    ensures FilesOf(s) == f && s.position == |f.log|
  {
    Open(f.log, f.indexFile, f.timeFile, 0)
  }

  /** Whether the record's frame is written and entered in the in-memory index.
      A frame that would end past the largest file offset cannot be written. */
  predicate Keeps(c: Codec, position: int, rec: Record, fault: Fault) {
    && c.enc(rec).Some?
    && |c.enc(rec).value| <= 0xFFFFFFFF
    && position + 4 + |c.enc(rec).value| <= MAX_INT64
    && !fault.PrefixWrite? && !fault.PayloadWrite?
  }

  /** The log and index in memory once both writes of a frame are done. */
  function Store(s: Seg, rec: Record, payload: seq<byte>): Seg
    requires 0 <= s.position <= |s.log|
  {
    var log := WriteAt(WriteAt(s.log, s.position, BeBytes(|payload|, 4)), s.position + 4, payload);
    s.(log := log,
       offsets := s.offsets[s.nextOffset := s.position],
       timeOffsets := s.timeOffsets[rec.timestamp := s.nextOffset],
       position := s.position + 4 + |payload|,
       nextOffset := s.nextOffset + 1)
  }

  /** The offset index file after rewriting it, as far as the fault lets it. */
  function IndexAfter(file: seq<byte>, table: seq<byte>, fault: Fault): seq<byte> {
    match fault
    case IndexOpen => file
    case IndexWrite(n) => Take(table, n)
    case _ => table
  }

  /** The time index file, which is rewritten after the offset index. */
  function TimeAfter(file: seq<byte>, table: seq<byte>, fault: Fault): seq<byte> {
    match fault
    case IndexOpen => file
    case IndexWrite(_) => file
    case TimeOpen => file
    case TimeWrite(n) => Take(table, n)
    case _ => table
  }

  ghost function Persist(s: Seg, fault: Fault): Seg {
    s.(indexFile := IndexAfter(s.indexFile, IndexBytes(s.offsets), fault),
       timeFile := TimeAfter(s.timeFile, IndexBytes(s.timeOffsets), fault))
  }

  ghost function Append(c: Codec, s: Seg, rec: Record, fault: Fault): Seg
    requires 0 <= s.position <= |s.log|
  {
    if c.enc(rec).None? then s else
      var payload := c.enc(rec).value;
      if |payload| > 0xFFFFFFFF || s.position + 4 + |payload| > MAX_INT64 then s else
      var prefix := BeBytes(|payload|, 4);
      match fault
      case PrefixWrite(n) => s.(log := WriteAt(s.log, s.position, Take(prefix, n)))
      case PayloadWrite(n) =>
        s.(log := WriteAt(WriteAt(s.log, s.position, prefix), s.position + 4, Take(payload, n)))
      case _ => Persist(Store(s, rec, payload), fault)
  }

  /** readByOffset: the frame at the indexed position, or an error. */
  function ReadByOffset(c: Codec, s: Seg, off: int): Option<Record> {
    if off !in s.offsets then None else
      var pos := s.offsets[off];
      if pos < 0 || pos + 4 > |s.log| then None else
        var len := BeNat(s.log[pos..pos + 4]);
        if pos + 4 + len > |s.log| then None else c.dec(s.log[pos + 4..pos + 4 + len])
  }

  function ReadList(c: Codec, s: Seg, ks: seq<int>): Option<seq<Record>> {
    if ks == [] then Some([]) else
      var front := ReadList(c, s, ks[..|ks| - 1]);
      var last := ReadByOffset(c, s, ks[|ks| - 1]);
      if front.None? || last.None? then None else Some(front.value + [last.value])
  }

  ghost function KeysFrom(s: Seg, from: int): (ks: seq<int>)
    ensures Ascending(ks, IntLess) && forall k :: k in ks <==> k in s.offsets && k >= from
  {
    IntTotal();
    SortedOf((set k | k in s.offsets && k >= from), IntLess)
  }

  function Limit(max: int): (n: int)
    ensures n > 0
  {
    if max <= 0 then 100 else max
  }

  ghost function ReadRange(c: Codec, s: Seg, from: int, max: int): Option<seq<Record>> {
    ReadList(c, s, Take(KeysFrom(s, from), Limit(max)))
  }
}
