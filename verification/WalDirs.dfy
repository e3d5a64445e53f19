/** The write-ahead log file by file, whatever the clock says: which entries each
    file holds, and that recovery replays the files in the order of their names. */
module WalDirs {
  import opened Bytes
  import opened Order
  import opened WalState
  import opened WalRuns

  // ---------- reading in the order of names ----------

  function Flat<T>(names: seq<string>, m: map<string, seq<T>>): seq<T>
    requires forall n :: n in names ==> n in m
  {
    if names == [] then [] else Flat(names[..|names| - 1], m) + m[names[|names| - 1]]
  }

  /** What the files with these names hold, in the order of the names. */
  ghost function Part<T>(m: map<string, seq<T>>, S: set<string>): seq<T>
    requires S <= m.Keys
  {
    Flat(Sorted(S), m)
  }

  ghost function InOrder<T>(m: map<string, seq<T>>): seq<T> {
    Part(m, m.Keys)
  }

  lemma {:induction false} FlatConcat<T>(a: seq<string>, b: seq<string>, m: map<string, seq<T>>)
    requires forall n :: n in a || n in b ==> n in m
    ensures Flat(a + b, m) == Flat(a, m) + Flat(b, m)
  {
    if b == [] {
      assert a + b == a;
    } else {
      var front := b[..|b| - 1];
      assert (a + b)[..|a + b| - 1] == a + front;
      assert forall n :: n in front ==> n in b;
      FlatConcat(a, front, m);
    }
  }

  lemma {:induction false} FlatAgree<T>(names: seq<string>, m: map<string, seq<T>>, m': map<string, seq<T>>)
    requires forall n :: n in names ==> n in m && n in m' && m[n] == m'[n]
    ensures Flat(names, m) == Flat(names, m')
  {
    if names != [] {
      FlatAgree(names[..|names| - 1], m, m');
    }
  }

  lemma SortedConcat(A: set<string>, B: set<string>)
    requires forall a, b :: a in A && b in B ==> LexLess(a, b)
    ensures Sorted(A + B) == Sorted(A) + Sorted(B)
  {
    hide LexLess, Sorted;
    var s, t := Sorted(A), Sorted(B);
    LexTotal();
    forall i, j | 0 <= i < j < |s + t| ensures LexLess((s + t)[i], (s + t)[j]) {
      if i < |s| <= j {
        assert s[i] in A && t[j - |s|] in B;
      }
    }
    AscendingUnique(Sorted(A + B), s + t, LexLess);
  }

  lemma PartConcat<T>(m: map<string, seq<T>>, A: set<string>, B: set<string>)
    requires A <= m.Keys && B <= m.Keys && forall a, b :: a in A && b in B ==> LexLess(a, b)
    ensures Part(m, A + B) == Part(m, A) + Part(m, B)
  {
    hide LexLess, Sorted;
    SortedConcat(A, B);
    FlatConcat(Sorted(A), Sorted(B), m);
  }

  lemma PartOne<T>(m: map<string, seq<T>>, x: string)
    requires x in m
    ensures Part(m, {x}) == m[x]
  {
    var s := Sorted({x});
    assert |s| == 1 && s[0] in s;
    assert s == [x] && s[..0] == [];
    assert Flat(s, m) == Flat(s[..0], m) + m[x];
    assert Flat(s[..0], m) == [];
  }

  lemma PartNone<T>(m: map<string, seq<T>>)
    ensures Part(m, {}) == []
  {
    assert |Sorted({})| == 0;
  }

  // ---------- rotation ----------

  ghost predicate LogLast<T>(m: map<string, seq<T>>) {
    forall n :: n in m ==> n == WAL_LOG || LexLess(n, WAL_LOG)
  }

  /** The rotated files below and above a name. */
  ghost function LowNames<T>(m: map<string, seq<T>>, x: string): set<string> {
    set n | n in m && n != WAL_LOG && n != x && LexLess(n, x)
  }

  ghost function HighNames<T>(m: map<string, seq<T>>, x: string): set<string> {
    set n | n in m && n != WAL_LOG && n != x && LexLess(x, n)
  }

  ghost function Low<T>(m: map<string, seq<T>>, x: string): seq<T> {
    Part(m, LowNames(m, x))
  }

  ghost function High<T>(m: map<string, seq<T>>, x: string): seq<T> {
    Part(m, HighNames(m, x))
  }

  function At<T>(m: map<string, seq<T>>, x: string): seq<T> {
    if x in m then m[x] else []
  }

  /** The current file gets the name x, and an empty one takes its place. */
  function Move<T>(m: map<string, seq<T>>, x: string): map<string, seq<T>> {
    if WAL_LOG !in m then m else (m - {WAL_LOG})[x := m[WAL_LOG]][WAL_LOG := []]
  }

  /** Everything read: below x, at x, above x, and the current file. */
  lemma SplitAt<T>(m: map<string, seq<T>>, x: string)
    requires LogLast(m) && WAL_LOG in m && x != WAL_LOG && LexLess(x, WAL_LOG)
    ensures InOrder(m) == Low(m, x) + At(m, x) + High(m, x) + m[WAL_LOG]
  {
    hide LexLess, Sorted, Part;
    var low, high := LowNames(m, x), HighNames(m, x);
    var mid := if x in m then {x} else {};
    SplitNames(m, x);
    if x in m { PartOne(m, x); } else { PartNone(m); }
    PartOne(m, WAL_LOG);
    PartConcat(m, low, mid);
    NamesBelow(m, x);
    PartConcat(m, low + mid, high);
    PartConcat(m, low + mid + high, {WAL_LOG});
  }

  lemma SplitNames<T>(m: map<string, seq<T>>, x: string)
    requires LogLast(m) && WAL_LOG in m && x != WAL_LOG
    ensures m.Keys == LowNames(m, x) + (if x in m then {x} else {}) + HighNames(m, x) + {WAL_LOG}
  {
    hide LexLess;
    forall n | n in m && n != x ensures LexLess(n, x) || LexLess(x, n) {
      LexConnected(n, x);
    }
  }

  lemma NamesBelow<T>(m: map<string, seq<T>>, x: string)
    requires LogLast(m)
    ensures forall a, b :: (a in LowNames(m, x) || a == x) && b in HighNames(m, x) ==> LexLess(a, b)
  {
    LexTotal();
    hide LexLess;
  }

  /** A rotation puts the current file's contents at x, over what was there. */
  lemma MoveReads<T>(m: map<string, seq<T>>, x: string)
    requires LogLast(m) && WAL_LOG in m && x != WAL_LOG && LexLess(x, WAL_LOG)
    ensures LogLast(Move(m, x))
    ensures InOrder(Move(m, x)) == Low(m, x) + m[WAL_LOG] + High(m, x)
  {
    hide LexLess, Sorted, InOrder, Move, LowNames, HighNames, LogLast, Flat;
    var m' := Move(m, x);
    MovedNames(m, x);
    SplitAt(m', x);
    FlatAgree(Sorted(LowNames(m, x)), m, m');
    FlatAgree(Sorted(HighNames(m, x)), m, m');
    assert Low(m', x) + At(m', x) + High(m', x) + [] == Low(m, x) + m[WAL_LOG] + High(m, x);
  }

  lemma MovedNames<T>(m: map<string, seq<T>>, x: string)
    requires LogLast(m) && WAL_LOG in m && x != WAL_LOG && LexLess(x, WAL_LOG)
    ensures var m' := Move(m, x);
            && LogLast(m') && WAL_LOG in m' && m'[WAL_LOG] == [] && At(m', x) == m[WAL_LOG]
            && LowNames(m', x) == LowNames(m, x) && HighNames(m', x) == HighNames(m, x)
            && forall n :: n in LowNames(m, x) || n in HighNames(m, x) ==> n in m && n in m' && m[n] == m'[n]
  {
    hide LexLess;
    var m' := Move(m, x);
    assert LowNames(m', x) == LowNames(m, x);
    assert HighNames(m', x) == HighNames(m, x);
  }

  /** A rotation changes nothing that is read exactly if nothing lay under the new
      name and the current contents commute with what sorts after it. */
  lemma SameReads<T>(lo: seq<T>, under: seq<T>, hi: seq<T>, cur: seq<T>)
    ensures lo + under + hi + cur == lo + cur + hi <==> under == [] && cur + hi == hi + cur
  {
    var a, b := lo + under + hi + cur, lo + cur + hi;
    if a == b {
      assert |a| == |b|;
      assert under == [];
      assert a[|lo|..] == hi + cur && b[|lo|..] == cur + hi;
    }
    if under == [] && cur + hi == hi + cur {
      assert a == lo + (hi + cur) && b == lo + (cur + hi);
    }
  }

  /** What each log file contributes. */
  function PayloadMap(files: Files): map<string, seq<byte>> {
    map n | n in files && IsWal(n) :: Payload(files[n])
  }

  lemma ReadsInOrder(files: Files)
    ensures ReadAll(files) == InOrder(PayloadMap(files))
    ensures CurrentIsLast(files) ==> LogLast(PayloadMap(files))
  {
    hide Payload, Sorted, IsWal;
    assert Names(files, IsWal) == PayloadMap(files).Keys;
    PayloadsFlat(Sorted(Names(files, IsWal)), files);
  }

  lemma {:induction false} PayloadsFlat(names: seq<string>, files: Files)
    requires forall n :: n in names ==> n in files && IsWal(n)
    ensures Payloads(names, files) == Flat(names, PayloadMap(files))
  {
    hide Payload, IsWal;
    if names != [] {
      PayloadsFlat(names[..|names| - 1], files);
    }
  }

  lemma MovedPayloads(files: Files, ts: int)
    requires WAL_LOG in files
    ensures PayloadMap(Rotate(files, ts)) == Move(PayloadMap(files), RotatedName(ts))
    ensures WAL_LOG in PayloadMap(files) && PayloadMap(files)[WAL_LOG] == Payload(files[WAL_LOG])
  {
    hide Payload, IsWal, RotatedName, LexLess, Whole;
    WalLogIsWal();
    RotatedBeforeCurrent(ts);
    PayloadSingle([]);
    assert PayloadMap(Rotate(files, ts)).Keys == Move(PayloadMap(files), RotatedName(ts)).Keys;
  }

  /** Any rotation of any directory: what is read before and after it, and exactly
      when that is the same. */
  lemma RotateReads(files: Files, ts: int)
    requires CurrentIsLast(files) && WAL_LOG in files
    ensures var m, x := PayloadMap(files), RotatedName(ts);
            var lo, under, hi, cur := Low(m, x), At(m, x), High(m, x), Payload(files[WAL_LOG]);
            && ReadAll(files) == lo + under + hi + cur
            && ReadAll(Rotate(files, ts)) == lo + cur + hi
            && (ReadAll(Rotate(files, ts)) == ReadAll(files) <==> under == [] && cur + hi == hi + cur)
  {
    hide Payload, LexLess, InOrder, ReadAll, RotatedName, CurrentIsLast, Low, High, Rotate, PayloadMap;
    var m, x := PayloadMap(files), RotatedName(ts);
    RotatedBeforeCurrent(ts);
    ReadsInOrder(files);
    ReadsInOrder(Rotate(files, ts));
    MovedPayloads(files, ts);
    SplitAt(m, x);
    MoveReads(m, x);
    SameReads(Low(m, x), At(m, x), High(m, x), m[WAL_LOG]);
  }

  // ---------- entries, file by file ----------

  /** The entries of each log file. */
  type Dir = map<string, seq<Entry>>

  ghost predicate FileHolds(c: Codec, file: seq<byte>, es: seq<Entry>) {
    Whole(file) && Payload(file) == Marshal(c, es) && Small(c, es)
  }

  ghost predicate Holds(c: Codec, files: Files, dir: Dir) {
    && dir.Keys == Names(files, IsWal)
    && forall n :: n in dir ==> FileHolds(c, files[n], dir[n])
  }

  lemma {:induction false} FlatMarshal(c: Codec, names: seq<string>, m: map<string, seq<byte>>, dir: Dir)
    requires forall n :: n in names ==> n in m && n in dir && m[n] == Marshal(c, dir[n]) && Small(c, dir[n])
    ensures Flat(names, m) == Marshal(c, Flat(names, dir)) && Small(c, Flat(names, dir))
  {
    hide Marshal;
    if names == [] {
      EmptyMarshal(c);
    } else {
      var front := names[..|names| - 1];
      FlatMarshal(c, front, m, dir);
      MarshalConcat(c, Flat(front, dir), dir[names[|names| - 1]]);
    }
  }

  lemma EmptyMarshal(c: Codec)
    ensures Marshal(c, []) == []
  {
  }

  /** Recovery replays the files in the order of their names. */
  lemma ReplayInOrder(c: Codec, files: Files, dir: Dir)
    requires RoundTrips(c) && Holds(c, files, dir)
    ensures Represents(c, files, InOrder(dir)) && Replay(c, files) == Some(InOrder(dir))
  {
    hide Whole, Payload, Marshal, Sorted, IsWal, Replay, ReadAll, Holds, PayloadMap, Small, AllWhole, Flat;
    ReadsInOrder(files);
    HeldPayloads(c, files, dir);
    FlatMarshal(c, Sorted(dir.Keys), PayloadMap(files), dir);
    ReplayRepresents(c, files, InOrder(dir));
  }

  lemma HeldPayloads(c: Codec, files: Files, dir: Dir)
    requires Holds(c, files, dir)
    ensures AllWhole(files) && PayloadMap(files).Keys == dir.Keys
    ensures forall n :: n in dir ==> PayloadMap(files)[n] == Marshal(c, dir[n]) && Small(c, dir[n])
  {
    hide Whole, Payload, Marshal, IsWal, Small;
    forall n | n in files && IsWal(n) ensures Whole(files[n]) {
      assert n in Names(files, IsWal);
    }
  }

  lemma RotateHolds(c: Codec, files: Files, dir: Dir, ts: int)
    requires Holds(c, files, dir)
    ensures Holds(c, Rotate(files, ts), Move(dir, RotatedName(ts)))
  {
    WalLogIsWal();
    RotatedBeforeCurrent(ts);
    EmptyHolds(c);
    hide FileHolds, IsWal, RotatedName, LexLess;
    assert Names(Rotate(files, ts), IsWal) == Move(dir, RotatedName(ts)).Keys;
  }

  lemma EmptyHolds(c: Codec)
    ensures FileHolds(c, [], [])
  {
    PayloadSingle([]);
    EmptyMarshal(c);
  }

  /** Any rotation, in entries: what is replayed before and after it, and exactly
      when that is the same. */
  lemma RotateReplays(c: Codec, files: Files, dir: Dir, ts: int)
    requires RoundTrips(c) && Holds(c, files, dir) && LogLast(dir) && WAL_LOG in dir
    ensures var x := RotatedName(ts);
            var lo, under, hi, cur := Low(dir, x), At(dir, x), High(dir, x), dir[WAL_LOG];
            && Replay(c, files) == Some(lo + under + hi + cur)
            && Replay(c, Rotate(files, ts)) == Some(lo + cur + hi)
            && (Replay(c, Rotate(files, ts)) == Replay(c, files) <==> under == [] && cur + hi == hi + cur)
  {
    hide Holds, Replay, LexLess, InOrder, RotatedName, Low, High, Rotate, Represents;
    var x := RotatedName(ts);
    RotatedBeforeCurrent(ts);
    RotateHolds(c, files, dir, ts);
    ReplayInOrder(c, files, dir);
    ReplayInOrder(c, Rotate(files, ts), Move(dir, x));
    SplitAt(dir, x);
    MoveReads(dir, x);
    SameReads(Low(dir, x), At(dir, x), High(dir, x), dir[WAL_LOG]);
  }

  /** Two batches, each followed by a rotation: recovery replays them in the
      order of the file names, and a second rotation under the same name, from a
      clock that did not move, loses the first batch. */
  lemma TwoRotations(c: Codec, a: seq<Entry>, b: seq<Entry>, t: int, u: int)
    requires RoundTrips(c) && |Marshal(c, a)| < TWO32 && |Marshal(c, b)| < TWO32
    ensures var files := Rotate(AppendWal(Rotate(AppendWal(map[], Marshal(c, a)), t), Marshal(c, b)), u);
            var x, y := RotatedName(t), RotatedName(u);
            Replay(c, files) == Some(if x == y then b else if LexLess(x, y) then a + b else b + a)
  {
    hide Holds, Marshal, Replay, LexLess, RotatedName, AppendWal, Rotate, Low, High;
    var x, y := RotatedName(t), RotatedName(u);
    var f1 := AppendWal(map[], Marshal(c, a));
    var f2 := AppendWal(Rotate(f1, t), Marshal(c, b));
    var dir: Dir := map[x := a, WAL_LOG := b];
    RotatedBeforeCurrent(t);
    NoFiles(c);
    AppendHolds(c, map[], map[], a);
    assert [] + a == a && [] + b == b;
    RotateHolds(c, f1, map[WAL_LOG := a], t);
    assert Move(map[WAL_LOG := a], x) == map[x := a, WAL_LOG := []];
    AppendHolds(c, Rotate(f1, t), map[x := a, WAL_LOG := []], b);
    assert map[x := a, WAL_LOG := []][WAL_LOG := b] == dir;
    RotateReplays(c, f2, dir, u);
    AroundName(dir, x, y);
    assert [] + b + [] == b && a + b + [] == a + b && [] + b + a == b + a;
  }

  lemma AroundName(dir: Dir, x: string, y: string)
    requires dir.Keys == {x, WAL_LOG} && x != WAL_LOG
    ensures Low(dir, y) == if x != y && LexLess(x, y) then dir[x] else []
    ensures High(dir, y) == if x != y && !LexLess(x, y) then dir[x] else []
  {
    if x != y {
      LexConnected(x, y);
      LexTotal();
    }
    hide LexLess, Part;
    PartOne(dir, x);
    PartNone(dir);
    assert LowNames(dir, y) == if x != y && LexLess(x, y) then {x} else {};
    assert HighNames(dir, y) == if x != y && !LexLess(x, y) then {x} else {};
  }

  // ---------- whole runs, with any clock ----------

  ghost function Change(dir: Dir, op: Op): Dir {
    match op
    case AppendOp(es) => dir[WAL_LOG := At(dir, WAL_LOG) + es]
    case RotateOp(ts) => Move(dir, RotatedName(ts))
    case CompactOp(k) => map[WAL_LOG := Keep(InOrder(dir), k)]
    case SnapshotOp(_, _) => dir
    case PurgeOp(_) => dir
  }

  ghost function DirAfter(ops: seq<Op>): Dir {
    if ops == [] then map[] else Change(DirAfter(ops[..|ops| - 1]), ops[|ops| - 1])
  }

  /** Every frame written is below 2^32 bytes. */
  ghost predicate Frames(c: Codec, ops: seq<Op>) {
    ops == [] ||
    (Frames(c, ops[..|ops| - 1]) &&
     match ops[|ops| - 1]
     case AppendOp(es) => |Marshal(c, es)| < TWO32
     case CompactOp(k) => |Marshal(c, Keep(InOrder(DirAfter(ops[..|ops| - 1])), k))| < TWO32
     case _ => true)
  }

  lemma AppendHolds(c: Codec, files: Files, dir: Dir, es: seq<Entry>)
    requires Holds(c, files, dir) && |Marshal(c, es)| < TWO32
    ensures Holds(c, AppendWal(files, Marshal(c, es)), dir[WAL_LOG := At(dir, WAL_LOG) + es])
  {
    hide FileHolds, IsWal, Marshal, Frame;
    WalLogIsWal();
    EmptyHolds(c);
    AppendFile(c, Current(files), At(dir, WAL_LOG), es);
    assert Names(AppendWal(files, Marshal(c, es)), IsWal) == dir.Keys + {WAL_LOG};
  }

  lemma AppendFile(c: Codec, file: seq<byte>, past: seq<Entry>, es: seq<Entry>)
    requires |Marshal(c, es)| < TWO32
    ensures FileHolds(c, file, past) ==> FileHolds(c, file + Frame(Marshal(c, es)), past + es)
  {
    hide Marshal, Frame, Whole, Payload;
    if FileHolds(c, file, past) {
      PayloadAppend(file, Marshal(c, es));
      MarshalConcat(c, past, es);
      MarshalSmall(c, es);
    }
  }

  lemma CompactHolds(c: Codec, files: Files, dir: Dir, k: nat)
    requires RoundTrips(c) && Holds(c, files, dir) && |Marshal(c, Keep(InOrder(dir), k))| < TWO32
    ensures Holds(c, Compact(c, files, k), map[WAL_LOG := Keep(InOrder(dir), k)])
  {
    hide Holds, Marshal, Keep, InOrder, Compact, Replay, Represents, Frame, FileHolds, IsWal;
    var es := Keep(InOrder(dir), k);
    ReplayInOrder(c, files, dir);
    CompactedFiles(c, files, InOrder(dir), k);
    EmptyHolds(c);
    AppendFile(c, [], [], es);
    assert [] + Frame(Marshal(c, es)) == Frame(Marshal(c, es)) && [] + es == es;
    OneFile(c, Compact(c, files, k), es);
  }

  lemma OneFile(c: Codec, files: Files, es: seq<Entry>)
    requires Names(files, IsWal) == {WAL_LOG} && FileHolds(c, files[WAL_LOG], es)
    ensures Holds(c, files, map[WAL_LOG := es])
  {
  }

  lemma SameHolds(c: Codec, files: Files, files': Files, dir: Dir)
    requires SameWal(files, files') && Holds(c, files, dir)
    ensures Holds(c, files', dir)
  {
    hide FileHolds, IsWal;
  }

  lemma ChangeHolds(c: Codec, files: Files, dir: Dir, op: Op)
    requires RoundTrips(c) && Holds(c, files, dir) && LogLast(dir)
    requires op.AppendOp? ==> |Marshal(c, op.es)| < TWO32
    requires op.CompactOp? ==> |Marshal(c, Keep(InOrder(dir), op.k))| < TWO32
    ensures Holds(c, Apply(c, files, op), Change(dir, op)) && LogLast(Change(dir, op))
  {
    hide Holds, Marshal, Keep, InOrder, AppendWal, Rotate, Compact, SaveSnapshot, Purge, LexLess, SameWal, RotatedName;
    match op
    case AppendOp(es) => AppendHolds(c, files, dir, es);
    case RotateOp(ts) =>
      RotatedBeforeCurrent(ts);
      RotateHolds(c, files, dir, ts);
    case CompactOp(k) => CompactHolds(c, files, dir, k);
    case SnapshotOp(ts, data) =>
      SavedNames(files, ts, data);
      SameHolds(c, files, SaveSnapshot(files, ts, data), dir);
    case PurgeOp(keep) =>
      PurgeKeepsGreatest(files, keep);
      SameHolds(c, files, Purge(files, keep), dir);
  }

  lemma {:induction false} RunHolds(c: Codec, ops: seq<Op>)
    requires RoundTrips(c) && Frames(c, ops)
    ensures Holds(c, FilesAfter(c, ops), DirAfter(ops)) && LogLast(DirAfter(ops))
  {
    hide Holds, Apply, Change, Marshal, Keep, InOrder, LexLess;
    if ops == [] {
      NoFiles(c);
    } else {
      RunHolds(c, ops[..|ops| - 1]);
      ChangeHolds(c, FilesAfter(c, ops[..|ops| - 1]), DirAfter(ops[..|ops| - 1]), ops[|ops| - 1]);
    }
  }

  lemma NoFiles(c: Codec)
    ensures Holds(c, map[], map[])
  {
    var none: Files := map[];
    assert Names(none, IsWal) == {};
  }

  /** With any clock, going backwards or standing still included, recovery after
      any run replays the entries of each file in the order of the file names. */
  lemma ReplayAnyClock(c: Codec, ops: seq<Op>)
    requires RoundTrips(c) && Frames(c, ops)
    ensures Replay(c, FilesAfter(c, ops)) == Some(InOrder(DirAfter(ops)))
  {
    hide Frames, Holds, InOrder, Replay, FilesAfter, DirAfter, Represents;
    RunHolds(c, ops);
    ReplayInOrder(c, FilesAfter(c, ops), DirAfter(ops));
  }

  // ---------- a crash while compacting ----------

  /** Whatever run led to the directory: a compaction that crashes while it
      rewrites the current file replays only the rotated files' entries, and one
      that crashes before it removes those files replays them before the kept
      ones, which is right exactly if there were none. */
  lemma CrashAfterRun(c: Codec, ops: seq<Op>, k: nat, n: nat)
    requires RoundTrips(c) && Frames(c, ops) && |Marshal(c, Keep(InOrder(DirAfter(ops)), k))| < TWO32
    ensures var files, dir := FilesAfter(c, ops), DirAfter(ops);
            var past, kept := Part(dir, dir.Keys - {WAL_LOG}), Keep(InOrder(dir), k);
            var data := Frame(Marshal(c, kept));
            && (n < |data| ==> Replay(c, files[WAL_LOG := data[..n]]) == Some(past))
            && Replay(c, files[WAL_LOG := data]) == Some(past + kept)
            && (Replay(c, files[WAL_LOG := data]) == Some(kept) <==> past == [])
  {
    hide Holds, InOrder, Replay, FilesAfter, DirAfter, Represents, Frame, Marshal, Keep, Part, LogLast, CurrentIsLast;
    hide OlderBytes, Small, Frames;
    var files, dir := FilesAfter(c, ops), DirAfter(ops);
    RunHolds(c, ops);
    ReplayInOrder(c, files, dir);
    OlderEntries(c, files, dir);
    CrashedCompaction(c, files, InOrder(dir), Part(dir, dir.Keys - {WAL_LOG}), k, n);
  }

  lemma OlderEntries(c: Codec, files: Files, dir: Dir)
    requires Holds(c, files, dir) && LogLast(dir)
    ensures CurrentIsLast(files)
    ensures var past := Part(dir, dir.Keys - {WAL_LOG});
            OlderBytes(files) == Marshal(c, past) && Small(c, past)
  {
    hide Whole, Payload, Marshal, Sorted, IsWal, LexLess, Small;
    assert Older(files) == dir.Keys - {WAL_LOG};
    PayloadsFlat(Sorted(Older(files)), files);
    FlatMarshal(c, Sorted(Older(files)), PayloadMap(files), dir);
    forall n | n in files && IsWal(n) ensures n in dir {
      assert n in Names(files, IsWal);
    }
  }
}
