/** The storage object: a directory changed in place, and the loops over bytes. */
module Wals {
  import opened Bytes
  import opened Order
  import opened WalState
  import WalRuns

  // ---------- entries ----------

  method MarshalEntries(c: Codec, es: seq<Entry>) returns (out: seq<byte>)
    ensures out == Marshal(c, es)
  {
    hide Frame;
    out := [];
    for i := 0 to |es|
      invariant out + Marshal(c, es[i..]) == Marshal(c, es)
    {
      var b := c.enc(es[i]);
      assert es[i..][1..] == es[i + 1..];
      out := out + Frame(b);
    }
  }

  /** What the loops see at a cursor is the first frame of the rest. */
  lemma AtCursor(b: seq<byte>, i: nat)
    requires i <= |b|
    ensures HasFrame(b[i..]) <==> i + 4 <= |b| && i + 4 + BeNat(b[i..i + 4]) <= |b|
    ensures HasFrame(b[i..]) ==>
              var n := FrameEnd(b[i..]);
              n == 4 + BeNat(b[i..i + 4]) && b[i..][4..n] == b[i + 4..i + n] && b[i..][n..] == b[i + n..]
  {
    if i + 4 <= |b| {
      assert b[i..][..4] == b[i..i + 4];
    }
  }

  /** The cursor loop: a short header or a short payload drops everything read so far. */
  method UnmarshalEntries(c: Codec, data: seq<byte>) returns (r: Option<seq<Entry>>)
    ensures r == Unmarshal(c, data)
  {
    hide HasFrame, FrameEnd;
    var es := [];
    var i := 0;
    while i < |data|
      invariant 0 <= i <= |data|
      invariant Parse(c, data) == Prepend(es, Parse(c, data[i..]))
    {
      AtCursor(data, i);
      if i + 4 > |data| {
        return Some([]);
      }
      var l := BeNat(data[i..i + 4]);
      if i + 4 + l > |data| {
        return Some([]);
      }
      var e := c.dec(data[i + 4..i + 4 + l]);
      if e.None? {
        return None;
      }
      PrependOne(es, e.value, Parse(c, data[i + 4 + l..]));
      es := es + [e.value];
      i := i + 4 + l;
    }
    assert data[i..] == [] && es + [] == es;
    r := Some(es);
  }

  lemma PrependOne(es: seq<Entry>, e: Entry, p: Parsed)
    ensures Prepend(es, Prepend([e], p)) == Prepend(es + [e], p)
  {
    if p.Good? {
      assert es + ([e] + p.es) == es + [e] + p.es;
    }
  }

  lemma PayloadAt(b: seq<byte>, i: nat)
    requires i <= |b|
    ensures Payload(b[i..]) ==
            if i + 4 <= |b| && i + 4 + BeNat(b[i..i + 4]) <= |b|
            then var n := i + 4 + BeNat(b[i..i + 4]); b[i + 4..n] + Payload(b[n..])
            else []
  {
    hide HasFrame, FrameEnd;
    AtCursor(b, i);
  }

  /** The inner loop of ReadWAL, over one file. */
  method ReadFrames(b: seq<byte>) returns (out: seq<byte>)
    ensures out == Payload(b)
  {
    hide Payload;
    out := [];
    var i := 0;
    while i < |b|
      invariant 0 <= i <= |b|
      invariant out + Payload(b[i..]) == Payload(b)
    {
      PayloadAt(b, i);
      if i + 4 > |b| {
        break;
      }
      var l := BeNat(b[i..i + 4]);
      if i + 4 + l > |b| {
        break;
      }
      var chunk := b[i + 4..i + 4 + l];
      assert out + (chunk + Payload(b[i + 4 + l..])) == out + chunk + Payload(b[i + 4 + l..]);
      out := out + chunk;
      i := i + 4 + l;
    }
    PayloadAt(b, i);
  }

  /** os.ReadDir filtered by a name test: names come sorted. */
  method ListNames(files: Files, p: string -> bool) returns (names: seq<string>)
    ensures names == Sorted(Names(files, p))
  {
    LexTotal();
    names := CollectSorted((set n | n in files && p(n)), LexLess);
  }

  method Greatest(names: seq<string>) returns (latest: string)
    requires names != [] && Ascending(names, LexLess)
    ensures latest == names[|names| - 1]
  {
    latest := names[0];
    for i := 1 to |names|
      invariant latest == names[i - 1]
    {
      if LexLess(latest, names[i]) {
        latest := names[i];
      }
    }
  }

  /** The greatest of the names that pass. */
  ghost predicate IsGreatest(files: Files, p: string -> bool, n: string) {
    n in files && p(n) && forall m :: m in files && p(m) ==> m == n || LexLess(m, n)
  }

  lemma LastIsGreatest(files: Files, p: string -> bool)
    requires Sorted(Names(files, p)) != []
    ensures var names := Sorted(Names(files, p));
            IsGreatest(files, p, names[|names| - 1])
  {
    hide LexLess;
    var names := Sorted(Names(files, p));
    var n := names[|names| - 1];
    assert n in names;
    forall m | m in files && p(m) ensures m == n || LexLess(m, n) {
      assert m in Names(files, p) && m in names;
      var i :| 0 <= i < |names| && names[i] == m;
    }
  }

  lemma NoNames(files: Files, p: string -> bool)
    requires Sorted(Names(files, p)) == []
    ensures forall n :: n in files ==> !p(n)
  {
    hide Sorted;
    forall n | n in files ensures !p(n) {
      assert n in Names(files, p) <==> n in Sorted(Names(files, p));
    }
  }

  class WalStorage {
    const codec: Codec
    var files: Files
    var bucket: Option<Bucket>  // the object store, if there is one

    constructor (codec: Codec, bucket: Option<Bucket>)
      ensures this.codec == codec && files == map[] && this.bucket == bucket
    {
      this.codec := codec;
      this.bucket := bucket;
      files := map[];
    }

    method AppendWAL(data: seq<byte>)
      modifies `files
      ensures files == AppendWal(old(files), data)
    {
      if WAL_LOG !in files {
        files := files[WAL_LOG := []];
      }
      files := files[WAL_LOG := files[WAL_LOG] + BeBytes(|data|, 4)];
      files := files[WAL_LOG := files[WAL_LOG] + data];
      assert (if WAL_LOG in old(files) then old(files)[WAL_LOG] else []) + Frame(data) == files[WAL_LOG];
    }

    /** All log files in name order, from a byte position on. */
    method ReadWAL(from: nat) returns (out: seq<byte>)
      ensures out == if from >= |ReadAll(files)| then [] else ReadAll(files)[from..]
    {
      hide IsWal, Payload, Payloads, Sorted;
      var names := ListNames(files, IsWal);
      out := ReadNames(names);
      out := if from >= |out| then [] else out[from..];
    }

    method ReadNames(names: seq<string>) returns (out: seq<byte>)
      requires forall n :: n in names ==> n in files
      ensures out == Payloads(names, files)
    {
      hide Payload;
      out := [];
      for i := 0 to |names|
        invariant out == Payloads(names[..i], files)
      {
        assert names[..i + 1][..i] == names[..i];
        var b := ReadFrames(files[names[i]]);
        out := out + b;
      }
      assert names[..|names|] == names;
    }

    method RotateWAL(now: int)
      modifies `files
      ensures files == Rotate(old(files), now)
    {
      hide RotatedName;
      if WAL_LOG !in files {
        return;
      }
      var contents := files[WAL_LOG];
      files := (files - {WAL_LOG})[RotatedName(now) := contents];
      files := files[WAL_LOG := []];
    }

    /** The file is one frame of what a compaction at k is to keep of es. */
    ghost predicate Leaves(file: seq<byte>, es: seq<Entry>, k: nat, kept: seq<Entry>) {
      KeptOf(es, k, kept) && file == Frame(Marshal(codec, kept))
    }

    method Compact(k: nat) returns (ok: bool)
      modifies `files
      ensures files == WalState.Compact(codec, old(files), k)
      ensures ok <==> Replay(codec, old(files)).Some?
      ensures !ok ==> files == old(files)
      ensures ok ==> WAL_LOG in files && exists kept :: Leaves(files[WAL_LOG], Replay(codec, old(files)).value, k, kept)
      ensures ok ==> forall n :: n in files && n != WAL_LOG <==> n in old(files) && !("wal." <= n)
      ensures forall n :: n in files && n != WAL_LOG ==> files[n] == old(files)[n]
    {
      hide ReadAll, Unmarshal, Marshal, Keep, Frame, KeptOf;
      var data := ReadWAL(0);
      assert data == ReadAll(files);
      var ents := UnmarshalEntries(codec, data);
      if ents.None? {
        return false;
      }
      var keep := KeepEntries(ents.value, k);
      assert Leaves(Frame(Marshal(codec, keep)), ents.value, k, keep);
      var b := MarshalEntries(codec, keep);
      files := files[WAL_LOG := Frame(b)];
      files := map n | n in files && (n == WAL_LOG || !("wal." <= n)) :: files[n];
      ok := true;
    }

    /** A failed upload is ignored. */
    method SaveSnapshot(now: int, data: seq<byte>, uploads: bool)
      modifies `files, `bucket
      ensures files == WalState.SaveSnapshot(old(files), now, data)
      ensures bucket == if old(bucket).Some? && uploads then Some(old(bucket).value[SnapName(now) := data])
                        else old(bucket)
    {
      files := files[SnapName(now) := data];
      if bucket.Some? && uploads {
        bucket := Some(bucket.value[SnapName(now) := data]);
      }
    }

    /** The scan for the greatest snapshot name, and the way back from the object store. */
    method LoadSnapshot(reachable: bool) returns (r: Option<seq<byte>>)
      modifies `files
      ensures (files, r) == LoadOrFetch(old(files), if reachable then bucket else None)
      ensures (exists n :: n in old(files) && IsSnap(n)) ==>
                files == old(files) && exists n :: IsGreatest(files, IsSnap, n) && r == Some(files[n])
      ensures (forall n :: n in old(files) ==> !IsSnap(n)) ==>
                if bucket.None? || !reachable || (forall n :: n in bucket.value ==> !IsListed(n))
                then files == old(files) && r.None?
                else exists n :: IsGreatest(bucket.value, IsListed, n) && r == Some(bucket.value[n])
                                 && files == old(files)[n := bucket.value[n]]
    {
      hide IsSnap, Sorted, IsListed, IsGreatest;
      var names := ListNames(files, IsSnap);
      if |names| > 0 {
        var latest := Greatest(names);
        assert latest in names;
        LastIsGreatest(files, IsSnap);
        return Some(files[latest]);
      }
      NoNames(files, IsSnap);
      if bucket.None? || !reachable {
        return None;
      }
      var keys := ListNames(bucket.value, IsListed);
      if |keys| == 0 {
        NoNames(bucket.value, IsListed);
        return None;
      }
      var latestKey := Greatest(keys);
      assert latestKey in keys;
      LastIsGreatest(bucket.value, IsListed);
      files := files[latestKey := bucket.value[latestKey]];
      r := Some(files[latestKey]);
    }

    /** Asked to keep less than none, the loop removes every snapshot and then
        runs past the end of the list. */
    method PurgeOldSnapshots(keep: int) returns (panics: bool)
      modifies `files
      ensures files == Purge(old(files), if keep < 0 then 0 else keep)
      ensures panics <==> keep < 0
    {
      hide IsSnap, Sorted;
      var names := ListNames(files, IsSnap);
      if |names| <= keep {
        return false;
      }
      var n := if |names| - keep < |names| then |names| - keep else |names|;
      files := RemoveAll(files, names[..n]);
      panics := |names| - keep > |names|;
    }

    /** Node.Compact. */
    method Maintain(k: nat, now: int) returns (ok: bool)
      modifies `files
      ensures files == if ok then WalRuns.Maintain(codec, old(files), k, now) else old(files)
      ensures ok <==> Replay(codec, old(files)).Some?
    {
      hide Rotate, Purge, Replay, Marshal, Frame;
      ok := Compact(k);
      if ok {
        RotateWAL(now);
        var panics := PurgeOldSnapshots(2);
      }
    }
  }

  method RemoveAll(files: Files, names: seq<string>) returns (left: Files)
    ensures left == files - SetOf(names)
  {
    left := files;
    for i := 0 to |names|
      invariant left == files - SetOf(names[..i])
    {
      assert SetOf(names[..i + 1]) == SetOf(names[..i]) + {names[i]};
      left := left - {names[i]};
    }
    assert names[..|names|] == names;
  }

  /** The two loops of a compaction: is any entry indexed, then which to keep. */
  method KeepEntries(es: seq<Entry>, k: nat) returns (keep: seq<Entry>)
    ensures keep == Keep(es, k) && KeptOf(es, k, keep)
  {
    hide KeptOf;
    KeepKeeps(es, k);
    var indexed := false;
    for i := 0 to |es|
      invariant indexed <==> exists j :: 0 <= j < i && es[j].index > 0
    {
      if es[i].index > 0 {
        indexed := true;
      }
    }
    keep := [];
    for i := 0 to |es|
      invariant indexed ==> keep == Above(es[..i], k)
      invariant !indexed ==> keep == if i <= k then [] else es[k..i]
    {
      assert es[..i + 1][..i] == es[..i];
      if indexed {
        if es[i].index > k {
          keep := keep + [es[i]];
        }
      } else if i + 1 > k {
        keep := keep + [es[i]];
      }
    }
    assert es[..|es|] == es;
  }
}
