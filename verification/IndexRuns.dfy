/** The sparse memory-mapped index as a table of slots, where an all-zero slot
    marks the end. */
module IndexRuns {
  import opened Bytes
  import opened SegmentState

  datatype Entry = Entry(offset: int, position: int)

  const ZERO := Entry(0, 0)

  datatype Index = Index(slots: seq<Entry>, count: nat)

  datatype Op = Put(e: Entry) | Reopen(maxEntries: int)

  /** What the index is for: a list with a capacity. */
  datatype Log = Log(list: seq<Entry>, capacity: nat)

  function Capacity(maxEntries: int): (c: nat)
    ensures c > 0
  {
    if maxEntries <= 0 then 1024 else maxEntries
  }

  // ---------- slots and bytes ----------

  function Slot(data: seq<byte>, i: nat): Entry
    requires 16 * (i + 1) <= |data|
  {
    Entry(EntryKey(data, i), EntryValue(data, i))
  }

  function Slots(data: seq<byte>): (s: seq<Entry>)
    ensures |s| == |data| / 16
  {
    seq(|data| / 16, i requires 0 <= i < |data| / 16 => Slot(data, i))
  }

  function Zeros(n: nat): seq<byte> {
    seq(n, _ => 0)
  }

  /** Truncate: cut, or fill up with zero bytes. */
  function Resize(file: seq<byte>, n: nat): (r: seq<byte>)
    ensures |r| == n
  {
    if n <= |file| then file[..n] else file + Zeros(n - |file|)
  }

  function EntryBytes(e: Entry): (b: seq<byte>)
    ensures |b| == 16
  {
    BeBytes(e.offset, 8) + BeBytes(e.position, 8)
  }

  /** Writing an entry at slot i changes that slot and no other. */
  lemma WriteSlot(data: seq<byte>, data': seq<byte>, i: nat, e: Entry)
    requires 16 * (i + 1) <= |data| && IsInt64(e.offset) && IsInt64(e.position)
    requires data' == data[..16 * i] + EntryBytes(e) + data[16 * (i + 1)..]
    ensures i < |data| / 16 && Slots(data') == Slots(data)[i := e]
  {
    hide DecodeInt64, BeBytes;
    assert |data'| == |data|;
    WrittenSlot(data, data', i, e);
    forall j | 0 <= j < |data| / 16 && j != i
      ensures Slot(data', j) == Slot(data, j)
    {
      SameSlot(data, data', j);
    }
  }

  lemma WrittenSlot(data: seq<byte>, data': seq<byte>, i: nat, e: Entry)
    requires 16 * (i + 1) <= |data| && IsInt64(e.offset) && IsInt64(e.position)
    requires data' == data[..16 * i] + EntryBytes(e) + data[16 * (i + 1)..]
    ensures Slot(data', i) == e
  {
    hide DecodeInt64, BeBytes;
    assert data'[16 * i..16 * i + 8] == BeBytes(e.offset, 8);
    assert data'[16 * i + 8..16 * i + 16] == BeBytes(e.position, 8);
    Int64RoundTrip(e.offset);
    Int64RoundTrip(e.position);
  }

  lemma ZeroDecodes()
    ensures DecodeInt64(Zeros(8)) == 0
  {
    Int64RoundTrip(0);
    ZeroBytes(8);
  }

  lemma ZeroBytes(k: nat)
    ensures BeBytes(0, k) == Zeros(k)
  {
    forall i | 0 <= i < k ensures BeBytes(0, k)[i] == 0 {
      ZeroDiv(Pow256(k - 1 - i));
    }
  }

  lemma ZeroDiv(m: int)
    requires m > 0
    ensures 0 / m == 0
  {
  }

  /** Resizing a whole number of slots cuts the table or adds zero slots. */
  function Fit(slots: seq<Entry>, c: nat): (r: seq<Entry>)
    ensures |r| == c
  {
    if c <= |slots| then slots[..c] else slots + seq(c - |slots|, _ => ZERO)
  }

  lemma ResizeSlots(data: seq<byte>, c: nat)
    requires |data| % 16 == 0
    ensures Slots(Resize(data, 16 * c)) == Fit(Slots(data), c)
  {
    hide DecodeInt64, Resize, Slot;
    forall j | 0 <= j < c
      ensures Slot(Resize(data, 16 * c), j) == if 16 * j < |data| then Slot(data, j) else ZERO
    {
      ResizedSlot(data, c, j);
    }
  }

  lemma ResizedSlot(data: seq<byte>, c: nat, j: nat)
    requires |data| % 16 == 0 && j < c
    ensures Slot(Resize(data, 16 * c), j) == if 16 * j < |data| then Slot(data, j) else ZERO
  {
    hide DecodeInt64;
    var data' := Resize(data, 16 * c);
    if 16 * j < |data| {
      SameSlot(data, data', j);
    } else {
      ZeroDecodes();
      assert data'[16 * j..16 * j + 8] == Zeros(8);
      assert data'[16 * j + 8..16 * j + 16] == Zeros(8);
    }
  }

  lemma SameSlot(data: seq<byte>, data': seq<byte>, j: nat)
    requires 16 * (j + 1) <= |data| && 16 * (j + 1) <= |data'|
    requires forall i :: 16 * j <= i < 16 * (j + 1) ==> data[i] == data'[i]
    ensures Slot(data', j) == Slot(data, j)
  {
    hide DecodeInt64;
    assert data'[16 * j..16 * j + 8] == data[16 * j..16 * j + 8];
    assert data'[16 * j + 8..16 * j + 16] == data[16 * j + 8..16 * j + 16];
  }

  // ---------- the operations ----------

  /** The slots before the first all-zero one. */
  function Leading(slots: seq<Entry>): (r: seq<Entry>)
    ensures r <= slots
  {
    if slots == [] || slots[0] == ZERO then [] else [slots[0]] + Leading(slots[1..])
  }

  function Live(x: Index): seq<Entry>
    requires x.count <= |x.slots|
  {
    x.slots[..x.count]
  }

  function Appended(x: Index, e: Entry): Index {
    if x.count < |x.slots| then Index(x.slots[x.count := e], x.count + 1) else x
  }

  function Reopened(x: Index, maxEntries: int): Index {
    var slots := Fit(x.slots, Capacity(maxEntries));
    Index(slots, |Leading(slots)|)
  }

  function Apply(x: Index, op: Op): Index {
    match op
    case Put(e) => Appended(x, e)
    case Reopen(k) => Reopened(x, k)
  }

  function Meaning(l: Log, op: Op): Log {
    match op
    case Put(e) => if |l.list| < l.capacity then l.(list := l.list + [e]) else l
    case Reopen(k) => Log(Take(l.list, Capacity(k)), Capacity(k))
  }

  /** From a missing file: an empty table, opened. */
  function Run(maxEntries: int, ops: seq<Op>): Index {
    if ops == [] then Reopened(Index([], 0), maxEntries) else Apply(Run(maxEntries, ops[..|ops| - 1]), ops[|ops| - 1])
  }

  function LogOf(maxEntries: int, ops: seq<Op>): Log {
    if ops == [] then Log([], Capacity(maxEntries)) else Meaning(LogOf(maxEntries, ops[..|ops| - 1]), ops[|ops| - 1])
  }

  /** Nothing lies behind the live entries. */
  predicate Clean(x: Index) {
    x.count <= |x.slots| && forall i :: x.count <= i < |x.slots| ==> x.slots[i] == ZERO
  }

  // ---------- recovery ----------

  lemma {:induction false} LeadingStops(slots: seq<Entry>, n: nat)
    requires n <= |slots| && (forall i :: 0 <= i < n ==> slots[i] != ZERO) && (n < |slots| ==> slots[n] == ZERO)
    ensures Leading(slots) == slots[..n]
    decreases n
  {
    if n > 0 {
      LeadingStops(slots[1..], n - 1);
    }
  }

  lemma {:induction false} LeadingPadded(a: seq<Entry>, z: seq<Entry>)
    requires forall i :: 0 <= i < |z| ==> z[i] == ZERO
    ensures Leading(a + z) == Leading(a)
  {
    if a == [] {
      assert a + z == z;
    } else {
      LeadingPadded(a[1..], z);
      assert (a + z)[1..] == a[1..] + z;
    }
  }

  lemma {:induction false} LeadingAll(a: seq<Entry>)
    ensures Leading(a) == a <==> ZERO !in a
  {
    if a != [] {
      LeadingAll(a[1..]);
      assert a == [a[0]] + a[1..];
    }
  }

  /** Reopening a clean index recovers its entries up to the first (0,0), as far
      as the new capacity reaches. */
  lemma ReopenRecovers(x: Index, k: int)
    requires Clean(x)
    ensures Live(Reopened(x, k)) == Leading(Take(Live(x), Capacity(k)))
    ensures Clean(Reopened(x, k)) || ZERO in Live(x)
  {
    var c := Capacity(k);
    var slots := Fit(x.slots, c);
    var a := Take(Live(x), c);
    var z := slots[|a|..];
    assert slots == a + z;
    LeadingPadded(a, z);
    LeadingAll(a);
  }

  /** Reopening any index recovers exactly its entries if and only if there is
      room for them, none of them is (0,0), and nothing is hidden behind them. */
  lemma RecoversIff(x: Index, k: int)
    requires x.count <= |x.slots|
    ensures Live(Reopened(x, k)) == Live(x) <==>
            && x.count <= Capacity(k) && ZERO !in Live(x)
            && (x.count == Capacity(k) || x.count == |x.slots| || x.slots[x.count] == ZERO)
  {
    hide Capacity;
    var c := Capacity(k);
    var slots := Fit(x.slots, c);
    LeadingLive(slots);
    if x.count <= c && ZERO !in Live(x)
       && (x.count == c || x.count == |x.slots| || x.slots[x.count] == ZERO) {
      assert forall i :: 0 <= i < x.count ==> slots[i] == x.slots[i] == Live(x)[i];
      LeadingStops(slots, x.count);
      assert slots[..x.count] == Live(x);
    }
  }

  /** The leading entries are not (0,0), and one follows unless the table ends. */
  lemma {:induction false} LeadingLive(slots: seq<Entry>)
    ensures ZERO !in Leading(slots)
    ensures |Leading(slots)| < |slots| ==> slots[|Leading(slots)|] == ZERO
  {
    if slots != [] && slots[0] != ZERO {
      LeadingLive(slots[1..]);
    }
  }

  lemma PutClean(x: Index, e: Entry)
    requires Clean(x)
    ensures Clean(Appended(x, e))
    ensures Live(Appended(x, e)) == if x.count < |x.slots| then Live(x) + [e] else Live(x)
  {
  }

  lemma FreshIsEmpty(maxEntries: int)
    ensures var x := Reopened(Index([], 0), maxEntries);
            Clean(x) && Live(x) == [] && |x.slots| == Capacity(maxEntries)
  {
    ReopenRecovers(Index([], 0), maxEntries);
  }

  /** The index refines a bounded list over every run of appends and reopens with
      any capacities, as long as no (0,0) entry is appended. */
  lemma {:induction false} RunRefines(maxEntries: int, ops: seq<Op>)
    requires Put(ZERO) !in ops
    ensures var x, l := Run(maxEntries, ops), LogOf(maxEntries, ops);
            Clean(x) && Live(x) == l.list && |x.slots| == l.capacity && ZERO !in l.list
  {
    if ops == [] {
      FreshIsEmpty(maxEntries);
    } else {
      var front, last := ops[..|ops| - 1], ops[|ops| - 1];
      assert last in ops;
      RunRefines(maxEntries, front);
      var x := Run(maxEntries, front);
      match last
      case Put(e) => PutClean(x, e);
      case Reopen(k) =>
        ReopenRecovers(x, k);
        LeadingAll(Take(Live(x), Capacity(k)));
    }
  }

  function Puts(es: seq<Entry>): (ops: seq<Op>)
    ensures |ops| == |es|
  {
    seq(|es|, i requires 0 <= i < |es| => Put(es[i]))
  }

  /** Appending alone keeps every entry, also (0,0), up to the capacity. */
  lemma {:induction false} AppendsKeepAll(maxEntries: int, es: seq<Entry>)
    ensures var x := Run(maxEntries, Puts(es));
            Clean(x) && Live(x) == Take(es, Capacity(maxEntries)) && |x.slots| == Capacity(maxEntries)
  {
    hide Capacity, Reopened, Clean;
    if es == [] {
      FreshIsEmpty(maxEntries);
    } else {
      var front := es[..|es| - 1];
      AppendsKeepAll(maxEntries, front);
      assert Puts(es)[..|es| - 1] == Puts(front);
      PutClean(Run(maxEntries, Puts(front)), es[|es| - 1]);
      assert es == front + [es[|es| - 1]];
    }
  }

  lemma ReopenSame(x: Index, n: nat, k: int)
    requires |x.slots| == Capacity(k) && n <= |x.slots|
    requires (forall i :: 0 <= i < n ==> x.slots[i] != ZERO) && (n < |x.slots| ==> x.slots[n] == ZERO)
    ensures Reopened(x, k) == Index(x.slots, n)
  {
    hide Capacity, Leading;
    assert Fit(x.slots, |x.slots|) == x.slots;
    LeadingStops(x.slots, n);
  }

  /** An appended (0,0) hides what follows it from a reopen, and the next append
      makes the hidden entry come back at the reopen after that. */
  lemma MarkerHides(x: Index, e: Entry, f: Entry, k: int)
    requires Clean(x) && ZERO !in Live(x) && x.count + 2 <= |x.slots| == Capacity(k)
    requires e != ZERO && f != ZERO
    ensures var y := Reopened(Appended(Appended(x, ZERO), e), k);
            y.count == x.count && Live(y) == Live(x) &&
            Live(Reopened(Appended(y, f), k)) == Live(x) + [f, e]
  {
    hide Reopened, Capacity;
    var n := x.count;
    var slots := x.slots[n := ZERO][n + 1 := e];
    assert forall i :: 0 <= i < n ==> x.slots[i] in Live(x);
    ReopenSame(Index(slots, n + 2), n, k);
    ReopenSame(Index(slots[n := f], n + 1), n + 2, k);
  }

  // ---------- lookup ----------

  /** The position of the first entry with the offset. */
  function FirstMatch(list: seq<Entry>, offset: int): Option<int> {
    if list == [] then None
    else if list[0].offset == offset then Some(list[0].position)
    else FirstMatch(list[1..], offset)
  }

  /** A successful lookup gives the earliest entry, a failed one means there is none. */
  lemma {:induction false} FirstMatchExact(list: seq<Entry>, offset: int)
    ensures FirstMatch(list, offset) == None <==> forall i :: 0 <= i < |list| ==> list[i].offset != offset
    ensures forall i :: 0 <= i < |list| && list[i].offset == offset
              && (forall j :: 0 <= j < i ==> list[j].offset != offset)
              ==> FirstMatch(list, offset) == Some(list[i].position)
  {
    if list != [] {
      FirstMatchExact(list[1..], offset);
      assert list == [list[0]] + list[1..];
    }
  }
}
