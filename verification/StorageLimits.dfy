/** Runs of the broker over its files that do not keep what one might expect:
    stored offset fields that differ from the returned ones, and topics that
    overwrite each other's records. */
module StorageLimits {
  import opened Bytes
  import opened Paths
  import opened SegmentState
  import opened Topics
  import opened Protocol
  import opened Storage
  import opened StorageRuns
  import SegmentRuns

  lemma OneMore(k: Site, steps: seq<(Step, Env)>, x: (Step, Env))
    ensures RunAll(k, steps + [x]) == Advance(k, RunAll(k, steps), x.0, x.1)
  {
    hide Whole, Advance;
    assert (steps + [x])[..|steps|] == steps;
  }

  /** The first topic of a broker. */
  lemma FirstTopic(k: Site, t: string)
    ensures var b := k.boot(PathAt(k, t));
            RunAll(k, [(CreateTopic(t, 0), FINE)]) ==
            System(Initial().(topics := map[t := FirstOf(b)]), OpenIn(k, NO_FILES, t))
  {
    hide Whole, Advance, OpenIn, FirstOf, PathOf;
    OneMore(k, [], (CreateTopic(t, 0), FINE));
    assert [] + [(CreateTopic(t, 0), FINE)] == [(CreateTopic(t, 0), FINE)];
    NothingOpen(k);
    AdvanceCreate(k, RunAll(k, []), t, FINE);
  }

  // ---------- a stored offset field that differs from the returned one ----------

  function MessageOf(b: Body, now: int64): Message {
    Message(b.key, b.value, b.headers, now)
  }

  /** The record fits behind pos, also behind a first copy of itself. */
  predicate FitsTwice(c: Codec, pos: int, m: Message) {
    var r := c.enc(Stamp(m, 0));
    r.Some? && |r.value| <= 0xFFFFFFFF && pos + 8 + 2 * |r.value| <= MAX_INT64
  }

  lemma AfterFault(c: Codec, f: Files, m: Message)
    requires FitsTwice(c, |f.log|, m)
    ensures var t := Created(Opened(f));
            && OutcomeOf(c, t, m, Env(false, IndexOpen)) == Orphaned
            && OutcomeOf(c, Produced(c, t, m, IndexOpen), m, FINE) == Stored
  {
    hide LoadNext, LoadMap, WriteAt, IndexBytes;
    SegmentRuns.KeptShape(c, Opened(f), Stamp(m, 0), IndexOpen);
  }

  /** The topic, and a produce whose index rewrite fails. */
  function FaultSteps(t: string, b: Body, now: int64): seq<(Step, Env)> {
    [(CreateTopic(t, 0), FINE)] + [(PlainProduce(t, b, now, Refused), Env(false, IndexOpen))]
  }

  lemma FaultRun(k: Site, t: string, b: Body, now: int64)
    requires FitsTwice(k.codec, |k.boot(PathAt(k, t)).log|, MessageOf(b, now))
    ensures var y := RunAll(k, FaultSteps(t, b, now));
            var f := k.boot(PathAt(k, t));
            && y.s == Initial().(topics := map[t := FirstOf(f)],
                                 hist := [Event(t, Rec(b, now, FirstOf(f)), Plain, false)])
            && t in y.disk.topics
            && y.disk.topics[t] == Produced(k.codec, Created(Opened(f)), MessageOf(b, now), IndexOpen)
  {
    hide RunAll, Advance, FirstOf, PathOf, OutcomeOf, Produced, SegmentState.Open, FitsTwice;
    var y := RunAll(k, [(CreateTopic(t, 0), FINE)]);
    var o := Request(t, b, now);
    FirstTopic(k, t);
    ReadyRun(k, [(CreateTopic(t, 0), FINE)]);
    AfterFault(k.codec, k.boot(PathAt(k, t)), MessageOf(b, now));
    OneMore(k, [(CreateTopic(t, 0), FINE)], (PlainProduce(t, b, now, Refused), Env(false, IndexOpen)));
    AdvancePlain(k, y, o, Env(false, IndexOpen));
    assert y.s.hist == [] && TopicLog(y.s.hist, t) == [];
  }

  /** After it, one idempotent call. */
  function FaultThenCall(t: string, p: string, q: int, b: Body, now: int64): seq<(Step, Env)> {
    FaultSteps(t, b, now) + [(IdemCheck(0, t, p, q, b), FINE)]
    + [(IdemAppend(0, now, Refused), FINE)] + [(IdemPublish(0), FINE)]
  }

  lemma CallRun(k: Site, t: string, p: string, q: int, b: Body, now: int64)
    requires p != "" && FitsTwice(k.codec, |k.boot(PathAt(k, t)).log|, MessageOf(b, now))
    ensures var y := RunAll(k, FaultThenCall(t, p, q, b, now));
            var n := FirstOf(k.boot(PathAt(k, t)));
            && t in y.disk.topics && y.s.topics == map[t := n]
            && y.s.hist == [Event(t, Rec(b, now, n), Plain, false),
                            Event(t, Rec(b, now, n + 1), Idempotent(SeqKey(t, p), q), true)]
            && y.s.dedup == map[DedupKey(SeqKey(t, p), q) := Rec(b, now, n + 1)]
  {
    hide RunAll, Advance, FirstOf, PathOf, OutcomeOf, Produced, SegmentState.Open, FitsTwice, WriteIn, SeqKey, DedupKey;
    hide MakeRec;
    var steps2 := FaultSteps(t, b, now);
    var y2 := RunAll(k, steps2);
    FaultRun(k, t, b, now);
    AfterFault(k.codec, k.boot(PathAt(k, t)), MessageOf(b, now));
    OneMore(k, steps2, (IdemCheck(0, t, p, q, b), FINE));
    QuietFiles(k, y2, IdemCheck(0, t, p, q, b), FINE);
    var steps3 := steps2 + [(IdemCheck(0, t, p, q, b), FINE)];
    var y3 := RunAll(k, steps3);
    assert y3.s == y2.s.(calls := map[0 := Call(t, p, q, b, None)]);
    ReadyRun(k, steps3);
    OneMore(k, steps3, (IdemAppend(0, now, Refused), FINE));
    AdvanceIdem(k, y3, 0, now, FINE);
    SecondRecord(y3.s, t, b, now);
    var steps4 := steps3 + [(IdemAppend(0, now, Refused), FINE)];
    var y4 := RunAll(k, steps4);
    assert y4.s.calls == map[0 := Call(t, p, q, b, Some(Rec(b, now, y3.s.topics[t] + 1)))];
    OneMore(k, steps4, (IdemPublish(0), FINE));
    QuietFiles(k, y4, IdemPublish(0), FINE);
    ReadyRun(k, FaultThenCall(t, p, q, b, now));
    KnownTopic(k, RunAll(k, FaultThenCall(t, p, q, b, now)), t);
  }

  lemma SecondRecord(s: State, t: string, b: Body, now: int64)
    requires |s.hist| == 1 && s.hist[0].topic == t && t in s.topics
    ensures MakeRec(s, t, b, now) == Rec(b, now, s.topics[t] + 1)
  {
    assert s.hist[..0] == [];
    assert TopicLog(s.hist[..0], t) == [];
  }

  /** The call returns and caches the offset where its record lies, while the
      record in the file carries offset 0. */
  lemma StampFallsBehind(k: Site, t: string, p: string, q: int, b: Body, now: int64)
    requires RoundTrips(k.codec) && p != "" && Bootable(k, PathAt(k, t))
    requires FitsTwice(k.codec, |k.boot(PathAt(k, t)).log|, MessageOf(b, now))
    ensures var y := RunAll(k, FaultThenCall(t, p, q, b, now));
            var n := FirstOf(k.boot(PathAt(k, t)));
            && Check(y.s, t, p, q) == Cached(Rec(b, now, n + 1))
            && ReadsBack(k, y, t, Rec(b, now, n + 1))
            && t in y.disk.topics
            && ReadByOffset(k.codec, y.disk.topics[t].seg, n + 1) == Some(Stamp(MessageOf(b, now), 0))
  {
    hide RunAll, FirstOf, PathOf, SeqKey, DedupKey, Bootable, FitsTwice, FaultThenCall, TopicEvents, TopicLog;
    hide SegmentRuns.Sound, ReadByOffset, SegmentState.Open;
    var steps := FaultThenCall(t, p, q, b, now);
    var y, n := RunAll(k, steps), FirstOf(k.boot(PathAt(k, t)));
    CallRun(k, t, p, q, b, now);
    FilesMatch(k, steps, t);
    var h := y.s.hist;
    TwoEvents(h, t);
    EventsAreLog(h, t);
    PresentReadsBack(k, y, t, Rec(b, now, n + 1));
    var a :| Matches(k.codec, k.boot(PathAt(k, t)), y.disk.topics[t], TopicEvents(h, t), a);
    assert MatchesAt(a.recs, n, TopicEvents(h, t), 1);
    ReadShelf(k.codec, y.disk.topics[t].seg, a, n + 1);
    assert h[..1][..0] == [] && Counter(n, h[..1]) == 0;
  }

  lemma TwoEvents(h: seq<Event>, t: string)
    requires |h| == 2 && h[0].topic == t && h[1].topic == t
    ensures TopicEvents(h, t) == h
  {
    assert h == [h[0]] + [h[1]] && [h[0]] == [] + [h[0]];
    EventsAppend([], h[0], t);
    EventsAppend([h[0]], h[1], t);
  }

  // ---------- two names for one directory ----------

  /** Both topics are made, then each gets one record. */
  function TwoTopics(t: string, u: string): seq<(Step, Env)> {
    [(CreateTopic(t, 0), FINE)] + [(CreateTopic(u, 0), FINE)]
  }

  function OneRecordEach(t: string, u: string, b: Body, b': Body, now: int64): seq<(Step, Env)> {
    TwoTopics(t, u) + [(PlainProduce(t, b, now, Refused), FINE)] + [(PlainProduce(u, b', now, Refused), FINE)]
  }

  lemma TwoTopicsRun(k: Site, t: string, u: string)
    requires t != u && PathAt(k, t) == PathAt(k, u)
    ensures var y := RunAll(k, TwoTopics(t, u));
            var f := k.boot(PathAt(k, t));
            && y.s == Initial().(topics := map[t := FirstOf(f), u := FirstOf(f)])
            && y.disk == Disk(map[PathAt(k, t) := f], map[t := Created(Opened(f)), u := Created(Opened(f))])
  {
    hide RunAll, Advance, FirstOf, PathOf, SegmentState.Open;
    FirstTopic(k, t);
    ReadyRun(k, [(CreateTopic(t, 0), FINE)]);
    OneMore(k, [(CreateTopic(t, 0), FINE)], (CreateTopic(u, 0), FINE));
    AdvanceCreate(k, RunAll(k, [(CreateTopic(t, 0), FINE)]), u, FINE);
  }

  /** A second writer at the same position takes the first one's place. */
  lemma Overwritten(c: Codec, f: Files, m: Message, m': Message)
    requires RoundTrips(c) && Keeps(c, |f.log|, Stamp(m, 0), NoFault) && Keeps(c, |f.log|, Stamp(m', 0), NoFault)
    ensures var t := Created(Opened(f));
            var g := Produced(c, t, m, NoFault);
            var v := t.(seg := WithFiles(t.seg, FilesOf(g.seg)));
            && 0 <= v.seg.position <= |v.seg.log|
            && OutcomeOf(c, t, m, FINE) == Stored && OutcomeOf(c, v, m', FINE) == Stored
            && var seg := WithFiles(g.seg, FilesOf(Produced(c, v, m', NoFault).seg));
               ReadByOffset(c, seg, t.seg.nextOffset) == Some(Stamp(m', 0))
  {
    hide LoadNext, LoadMap, WriteAt, IndexBytes, Append, ReadByOffset, BeBytes, RoundTrips;
    var t := Created(Opened(f));
    var g := Produced(c, t, m, NoFault);
    AppendLength(c, t.seg, Stamp(m, 0), NoFault);
    SegmentRuns.KeptShape(c, t.seg, Stamp(m, 0), NoFault);
    var v := t.(seg := WithFiles(t.seg, FilesOf(g.seg)));
    SegmentRuns.KeptShape(c, v.seg, Stamp(m', 0), NoFault);
    var log' := Produced(c, v, m', NoFault).seg.log;
    SegmentRuns.StoreFrame(c, v.seg.log, |f.log|, Stamp(m', 0));
    ReadFrame(c, WithFiles(g.seg, FilesOf(Produced(c, v, m', NoFault).seg)), t.seg.nextOffset,
              |f.log|, |f.log| + 4 + |c.enc(Stamp(m', 0)).value|, Stamp(m', 0));
  }

  lemma ReadFrame(c: Codec, s: Seg, off: int, pos: int, limit: int, rec: Record)
    requires off in s.offsets && s.offsets[off] == pos && SegmentRuns.HoldsAt(c, s.log, pos, limit, rec)
    ensures ReadByOffset(c, s, off) == Some(rec)
  {
  }

  /** A topic just opened, after its first record. */
  ghost function FirstProduced(c: Codec, f: Files, m: Message): TopicState {
    Produced(c, Created(Opened(f)), m, NoFault)
  }

  /** One record of the first topic, as both topics see it. */
  ghost predicate FirstWritten(k: Site, y: System, t: string, u: string, b: Body, now: int64) {
    var f := k.boot(PathAt(k, t));
    var v := Created(Opened(f));
    var g := FirstProduced(k.codec, f, MessageOf(b, now));
    && y.s.topics == map[t := FirstOf(f), u := FirstOf(f)]
    && y.s.hist == [Event(t, Rec(b, now, FirstOf(f)), Plain, true)]
    && t in y.disk.topics && u in y.disk.topics
    && y.disk.topics[t] == g && y.disk.topics[u] == v.(seg := WithFiles(v.seg, FilesOf(g.seg)))
  }

  lemma FirstWriter(k: Site, t: string, u: string, b: Body, now: int64)
    requires t != u && PathAt(k, t) == PathAt(k, u)
    requires OutcomeOf(k.codec, Created(Opened(k.boot(PathAt(k, t)))), MessageOf(b, now), FINE) == Stored
    ensures FirstWritten(k, RunAll(k, TwoTopics(t, u) + [(PlainProduce(t, b, now, Refused), FINE)]), t, u, b, now)
  {
    hide RunAll, Advance, FirstOf, PathOf, OutcomeOf, Produced, SegmentState.Open, MakeRec;
    var steps := TwoTopics(t, u);
    var y := RunAll(k, steps);
    TwoTopicsRun(k, t, u);
    ReadyRun(k, steps);
    OneMore(k, steps, (PlainProduce(t, b, now, Refused), FINE));
    AdvancePlain(k, y, Request(t, b, now), FINE);
    FirstRecord(y.s, t, b, now);
  }

  /** If two names lead to one directory, the second topic's first record takes
      the place of the first topic's: both were reported as stored at the same
      offset, and both topics read the second. */
  lemma SharedDirectory(k: Site, t: string, u: string, b: Body, b': Body, now: int64)
    requires RoundTrips(k.codec) && t != u && PathAt(k, t) == PathAt(k, u)
    requires Keeps(k.codec, |k.boot(PathAt(k, t)).log|, Stamp(MessageOf(b, now), 0), NoFault)
    requires Keeps(k.codec, |k.boot(PathAt(k, t)).log|, Stamp(MessageOf(b', now), 0), NoFault)
    ensures var y := RunAll(k, OneRecordEach(t, u, b, b', now));
            var n := FirstOf(k.boot(PathAt(k, t)));
            && y.s.topics == map[t := n, u := n] && t in y.disk.topics
            && y.s.hist == [Event(t, Rec(b, now, n), Plain, true), Event(u, Rec(b', now, n), Plain, true)]
            && ReadByOffset(k.codec, y.disk.topics[t].seg, n) == Some(Stamp(MessageOf(b', now), 0))
  {
    hide RunAll, Advance, FirstOf, PathOf, SegmentState.Open, OutcomeOf, Produced, ReadByOffset, RoundTrips, Keeps;
    hide TwoTopics, Whole, MakeRec;
    Overwritten(k.codec, k.boot(PathAt(k, t)), MessageOf(b, now), MessageOf(b', now));
    FirstWriter(k, t, u, b, now);
    var steps := TwoTopics(t, u) + [(PlainProduce(t, b, now, Refused), FINE)];
    var y := RunAll(k, steps);
    ReadyRun(k, steps);
    OneMore(k, steps, (PlainProduce(u, b', now, Refused), FINE));
    AdvancePlain(k, y, Request(u, b', now), FINE);
    FirstRecord(y.s, u, b', now);
  }

  lemma FirstRecord(s: State, t: string, b: Body, now: int64)
    requires |s.hist| <= 1 && (s.hist == [] || s.hist[0].topic != t) && t in s.topics
    ensures MakeRec(s, t, b, now) == Rec(b, now, s.topics[t])
  {
    if s.hist != [] {
      assert s.hist[..0] == [] && TopicLog(s.hist[..0], t) == [];
    }
  }

  /** A run that makes no topic but these two, and loses a record of the first. */
  ghost predicate Loses(k: Site, t: string, u: string, steps: seq<(Step, Env)>) {
    var y := RunAll(k, steps);
    && y.s.topics.Keys <= {t, u}
    && exists i :: 0 <= i < |y.s.hist| && y.s.hist[i].topic == t && !ReadsBack(k, y, t, y.s.hist[i].rec)
  }

  /** Two topics can get in each other's way exactly if their names lead to one
      directory, provided two different records fit there. */
  lemma SharingLosesIff(k: Site, t: string, u: string, b: Body, b': Body, now: int64)
    requires RoundTrips(k.codec) && t != u && b != b' && Bootable(k, PathAt(k, t))
    requires Keeps(k.codec, |k.boot(PathAt(k, t)).log|, Stamp(MessageOf(b, now), 0), NoFault)
    requires Keeps(k.codec, |k.boot(PathAt(k, t)).log|, Stamp(MessageOf(b', now), 0), NoFault)
    ensures (exists steps :: Loses(k, t, u, steps)) <==> PathAt(k, t) == PathAt(k, u)
  {
    hide RunAll, FirstOf, PathOf, Bootable, Keeps, RoundTrips, ReadByOffset, OneRecordEach, TopicEvents;
    if PathAt(k, t) == PathAt(k, u) {
      SharedDirectory(k, t, u, b, b', now);
      var y := RunAll(k, OneRecordEach(t, u, b, b', now));
      assert y.s.hist[0].topic == t && !ReadsBack(k, y, t, y.s.hist[0].rec);
      assert Loses(k, t, u, OneRecordEach(t, u, b, b', now));
    } else {
      forall steps ensures !Loses(k, t, u, steps) {
        NothingLost(k, t, u, steps);
      }
    }
  }

  lemma NothingLost(k: Site, t: string, u: string, steps: seq<(Step, Env)>)
    requires RoundTrips(k.codec) && Bootable(k, PathAt(k, t)) && PathAt(k, t) != PathAt(k, u)
    ensures !Loses(k, t, u, steps)
  {
    hide RunAll, PathOf, Bootable, RoundTrips, ReadsBack;
    var y := RunAll(k, steps);
    if y.s.topics.Keys <= {t, u} {
      assert Alone(k, y, t) by {
        forall v | v in y.s.topics && v != t ensures PathAt(k, v) != PathAt(k, t) {
          assert v in y.s.topics.Keys;
        }
      }
      forall i | 0 <= i < |y.s.hist| && y.s.hist[i].topic == t ensures ReadsBack(k, y, t, y.s.hist[i].rec) {
        EventReadsBack(k, steps, i);
      }
    }
  }
}
