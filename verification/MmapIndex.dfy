/** The sparse memory-mapped index, on the bytes of its mapping. */
module MmapIndex {
  import opened Bytes
  import opened SegmentState
  import opened IndexRuns

  class SparseMMapIndex {
    var data: array<byte>
    var entries: nat

    ghost predicate Valid()
      reads this, data
    {
      data.Length % 16 == 0 && 16 * entries <= data.Length
    }

    ghost function View(): (x: Index)
      reads this, data
      requires Valid()
      ensures x.count <= |x.slots|
    {
      Index(Slots(data[..]), entries)
    }

    /** Opens any file: resized to the capacity, its entries are the slots before
        the first all-zero one. A file of whole slots, such as any index leaves
        behind, is reopened. */
    constructor (file: seq<byte>, maxEntries: int)
      ensures Valid() && fresh(data)
      ensures data[..] == Resize(file, 16 * Capacity(maxEntries))
      ensures Live(View()) == Leading(Slots(data[..]))
      ensures |file| % 16 == 0 ==> forall n :: View() == Reopened(Index(Slots(file), n), maxEntries)
    {
      hide Slot, Leading;
      var max := if maxEntries <= 0 then 1024 else maxEntries;
      ghost var bytes := Resize(file, 16 * max);
      data := new byte[16 * max](i requires 0 <= i < 16 * max => if i < |file| then file[i] else 0);
      entries := 0;
      new;
      assert data[..] == bytes;
      var i := 0;
      while i < max
        invariant 0 <= i <= max && entries == i
        invariant data.Length == 16 * max && data[..] == bytes && fresh(data)
        invariant forall j :: 0 <= j < i ==> Slots(bytes)[j] != ZERO
      {
        var off, pos := ReadSlot(data, i);
        assert Slots(bytes)[i] == Slot(bytes, i);
        if off == 0 && pos == 0 {
          break;
        }
        entries := entries + 1;
        i := i + 1;
      }
      LeadingStops(Slots(bytes), entries);
      if |file| % 16 == 0 {
        ResizeSlots(file, max);
      }
    }

    /** Appends an entry unless the mapping is full. */
    method Append(offset: int64, position: int64) returns (ok: bool)
      requires Valid()
      modifies `entries, data
      ensures Valid() && data == old(data)
      ensures ok <==> old(entries) < data.Length / 16
      ensures View() == Appended(old(View()), Entry(offset, position))
    {
      hide DecodeInt64, Slot, Slots, BeBytes;
      var base := entries * 16;
      if base + 16 > data.Length {
        return false;
      }
      ghost var before := data[..];
      Store(base, offset);
      Store(base + 8, position);
      Placed(before, data[..], entries, Entry(offset, position));
      WriteSlot(before, data[..], entries, Entry(offset, position));
      entries := entries + 1;
      ok := true;
    }

    /** Eight bytes, most significant first. */
    method Store(at: nat, v: int64)
      requires at + 8 <= data.Length
      modifies data
      ensures data[..] == old(data[..at]) + BeBytes(v, 8) + old(data[at + 8..])
    {
      hide BeBytes;
      var b := BeBytes(v, 8);
      for i := 0 to 8
        invariant forall j :: 0 <= j < data.Length ==> data[j] == if at <= j < at + i then b[j - at] else old(data[j])
      {
        data[at + i] := b[i];
      }
    }

    /** The position of the first entry with the offset. */
    method Find(offset: int64) returns (position: int, found: bool)
      requires Valid()
      ensures FirstMatch(Live(View()), offset) == if found then Some(position) else None
      ensures !found ==> position == 0
    {
      hide DecodeInt64;
      ghost var live := Live(View());
      for i := 0 to entries
        invariant FirstMatch(live, offset) == FirstMatch(live[i..], offset)
      {
        assert live[i] == Slot(data[..], i);
        assert data[16 * i..16 * i + 8] == data[..][16 * i..16 * i + 8];
        assert live[i..][1..] == live[i + 1..];
        var off := DecodeInt64(data[16 * i..16 * i + 8]);
        if off == offset {
          assert data[16 * i + 8..16 * i + 16] == data[..][16 * i + 8..16 * i + 16];
          var pos := DecodeInt64(data[16 * i + 8..16 * i + 16]);
          return pos, true;
        }
      }
      assert live[entries..] == [];
      return 0, false;
    }
  }

  method ReadSlot(data: array<byte>, i: nat) returns (off: int, pos: int)
    requires 16 * (i + 1) <= data.Length
    ensures Entry(off, pos) == Slot(data[..], i)
  {
    hide DecodeInt64;
    assert data[16 * i..16 * i + 8] == data[..][16 * i..16 * i + 8];
    assert data[16 * i + 8..16 * i + 16] == data[..][16 * i + 8..16 * i + 16];
    off := DecodeInt64(data[16 * i..16 * i + 8]);
    pos := DecodeInt64(data[16 * i + 8..16 * i + 16]);
  }

  lemma Placed(before: seq<byte>, after: seq<byte>, i: nat, e: Entry)
    requires 16 * (i + 1) <= |before|
    requires var mid := before[..16 * i] + BeBytes(e.offset, 8) + before[16 * i + 8..];
             after == mid[..16 * i + 8] + BeBytes(e.position, 8) + mid[16 * i + 16..]
    ensures after == before[..16 * i] + EntryBytes(e) + before[16 * (i + 1)..]
  {
    hide BeBytes;
  }
}
