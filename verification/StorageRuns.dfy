/** What every run of the broker over its files keeps: the file of a topic whose
    directory is its own holds the topic's history, and records are read back. */
module StorageRuns {
  import opened Bytes
  import opened Paths
  import opened SegmentState
  import opened Topics
  import opened Protocol
  import opened Storage
  import Idempotence
  import Transactions
  import SegmentRuns

  // ---------- the history is what the files hold ----------

  function TopicEvents(hist: seq<Event>, topic: string): seq<Event> {
    if hist == [] then [] else
      var front := TopicEvents(hist[..|hist| - 1], topic);
      var e := hist[|hist| - 1];
      if e.topic == topic then front + [e] else front
  }

  lemma EventsAppend(hist: seq<Event>, e: Event, topic: string)
    ensures TopicEvents(hist + [e], topic) == TopicEvents(hist, topic) + (if e.topic == topic then [e] else [])
  {
    assert (hist + [e])[..|hist|] == hist;
  }

  lemma {:induction false} EventsAreLog(hist: seq<Event>, topic: string)
    ensures |TopicEvents(hist, topic)| == |TopicLog(hist, topic)|
    ensures forall i :: 0 <= i < |TopicLog(hist, topic)| ==> TopicLog(hist, topic)[i] == TopicEvents(hist, topic)[i].rec
  {
    if hist != [] {
      EventsAreLog(hist[..|hist| - 1], topic);
    }
  }

  lemma EventsAdded(hist: seq<Event>, added: seq<Event>, t: string, topic: string)
    requires |added| <= 1 && forall e :: e in added ==> e.topic == t
    ensures TopicEvents(hist + added, topic) == TopicEvents(hist, topic) + (if t == topic then added else [])
  {
    if added == [] {
      assert hist + added == hist;
    } else {
      assert added == [added[0]];
      EventsAppend(hist, added[0], topic);
    }
  }

  /** Everything but the offset field. */
  predicate Agrees(r: Record, rec: Rec) {
    r.key == rec.body.key && r.value == rec.body.value && r.headers == rec.body.headers && r.timestamp == rec.timestamp
  }

  predicate LastAcked(es: seq<Event>) {
    es != [] && es[|es| - 1].acked
  }

  /** The last record stored, if there is one, was reported as stored. */
  predicate EndsAcked(es: seq<Event>) {
    es == [] || LastAcked(es)
  }

  /** Where the topic's counter stands: behind the last record reported as stored,
      and at zero before there is one. */
  function Counter(first: nat, es: seq<Event>): nat {
    if es == [] then 0 else if LastAcked(es) then first + |es| else Counter(first, es[..|es| - 1])
  }

  /** A segment that stands for a holds the records it was opened over and behind
      them the topic's history, each record with the counter as it stood when the
      record was stored. Unless the last one was not reported as stored, the index file is
      complete. */
  ghost predicate Matches(c: Codec, b: Files, t: TopicState, es: seq<Event>, a: SegmentRuns.Abs) {
    var first := FirstOf(b);
    && SegmentRuns.Sound(c, t.seg, 0, a)
    && |a.recs| == first + |es|
    && t.next == Counter(first, es)
    && (EndsAcked(es) ==> a.durable == |a.recs|)
    && (forall i :: 0 <= i < first ==> ReadByOffset(c, Opened(b), i) == Some(a.recs[i]))
    && (forall i :: 0 <= i < |es| ==> MatchesAt(a.recs, first, es, i))
  }

  ghost predicate MatchesAt(recs: seq<Record>, first: nat, es: seq<Event>, i: nat)
    requires |recs| == first + |es| && i < |es|
  {
    && Agrees(recs[first + i], es[i].rec) && es[i].rec.offset == first + i
    && recs[first + i].offset == Counter(first, es[..i])
  }

  /** The topic's file holds its history. */
  ghost predicate TopicMatches(k: Site, y: System, topic: string) {
    && topic in y.disk.topics && topic in y.s.topics
    && y.s.topics[topic] == FirstOf(k.boot(PathAt(k, topic)))
    && exists a :: Matches(k.codec, k.boot(PathAt(k, topic)), y.disk.topics[topic], TopicEvents(y.s.hist, topic), a)
  }

  /** What the directory held when the broker started is a segment in order; an
      empty directory is. */
  ghost predicate Bootable(k: Site, p: Path) {
    exists a :: SegmentRuns.Sound(k.codec, Opened(k.boot(p)), 0, a)
  }

  /** No other topic so far has the same directory. */
  ghost predicate Alone(k: Site, y: System, topic: string) {
    forall u :: u in y.s.topics && u != topic ==> PathAt(k, u) != PathAt(k, topic)
  }

  /** The topic's directory was in order and is its own. */
  ghost predicate OwnFiles(k: Site, y: System, topic: string) {
    Bootable(k, PathAt(k, topic)) && Alone(k, y, topic)
  }

  lemma CounterAppend(first: nat, es: seq<Event>, e: Event)
    ensures Counter(first, es + [e]) == if e.acked then first + |es| + 1 else Counter(first, es)
  {
    assert (es + [e])[..|es|] == es;
  }

  lemma MatchesAppend(recs: seq<Record>, first: nat, es: seq<Event>, r: Record, e: Event)
    requires |recs| == first + |es| && forall i :: 0 <= i < |es| ==> MatchesAt(recs, first, es, i)
    requires Agrees(r, e.rec) && e.rec.offset == first + |es| && r.offset == Counter(first, es)
    ensures forall i :: 0 <= i <= |es| ==> MatchesAt(recs + [r], first, es + [e], i)
  {
    hide Agrees, Counter;
    forall i | 0 <= i <= |es| ensures MatchesAt(recs + [r], first, es + [e], i) {
      if i < |es| {
        assert MatchesAt(recs, first, es, i);
        assert (es + [e])[..i] == es[..i];
      } else {
        assert (es + [e])[..i] == es;
      }
    }
  }

  /** The records after one call of Produce. */
  ghost function AbsAfter(c: Codec, t: TopicState, a: SegmentRuns.Abs, m: Message, env: Env): SegmentRuns.Abs {
    if env.draining then a else
      SegmentRuns.AbsStep(c, t.seg.position, a, SegmentRuns.AppendOp(Stamp(m, t.next), env.fault))
  }

  lemma ProducedSound(c: Codec, t: TopicState, a: SegmentRuns.Abs, m: Message, fault: Fault)
    requires RoundTrips(c) && SegmentRuns.Sound(c, t.seg, 0, a)
    ensures SegmentRuns.Sound(c, Produced(c, t, m, fault).seg, 0, AbsAfter(c, t, a, m, Env(false, fault)))
  {
    hide SegmentRuns.Frames, SegmentRuns.Covers, Append;
    SegmentRuns.AppendSound(c, t.seg, 0, a, Stamp(m, t.next), fault);
  }

  lemma ProducedMatches(c: Codec, b: Files, t: TopicState, es: seq<Event>, a: SegmentRuns.Abs,
                        s: State, o: Request, origin: Origin, env: Env)
    requires RoundTrips(c) && Matches(c, b, t, es, a) && !env.draining
    requires MakeRec(s, o.topic, o.body, o.now).offset == FirstOf(b) + |es|
    ensures 0 <= t.seg.position <= |t.seg.log|
    ensures Matches(c, b, Produced(c, t, Content(o), env.fault),
                    es + Added(s, o, origin, OutcomeOf(c, t, Content(o), env)), AbsAfter(c, t, a, Content(o), env))
  {
    hide SegmentRuns.Sound, Produced, OutcomeOf, AbsAfter, RoundTrips, ReadByOffset, MatchesAt, Counter, FirstOf;
    hide TopicLog, First, SegmentState.Open;
    SoundBounds(c, t.seg, a);
    ProducedSound(c, t, a, Content(o), env.fault);
    ProducedParts(c, t, a, Content(o), env);
    if OutcomeOf(c, t, Content(o), env).Refused? {
      assert es + [] == es;
    } else {
      var e := Event(o.topic, MakeRec(s, o.topic, o.body, o.now), origin, OutcomeOf(c, t, Content(o), env).Stored?);
      var r := Stamp(Content(o), t.next);
      CounterAppend(FirstOf(b), es, e);
      MatchesAppend(a.recs, FirstOf(b), es, r, e);
      assert forall i :: 0 <= i < FirstOf(b) ==> (a.recs + [r])[i] == a.recs[i];
    }
  }

  lemma SoundBounds(c: Codec, s: Seg, a: SegmentRuns.Abs)
    requires SegmentRuns.Sound(c, s, 0, a)
    ensures 0 <= s.position <= |s.log| && s.nextOffset == |a.recs|
  {
    hide SegmentRuns.Frames, SegmentRuns.Covers;
  }

  /** What Produce does to the records, the counter and the index file. */
  lemma ProducedParts(c: Codec, t: TopicState, a: SegmentRuns.Abs, m: Message, env: Env)
    requires 0 <= t.seg.position <= |t.seg.log| && !env.draining && t.seg.nextOffset == |a.recs|
    ensures var a', t' := AbsAfter(c, t, a, m, env), Produced(c, t, m, env.fault);
            match OutcomeOf(c, t, m, env)
            case Refused => a' == a && t'.next == t.next
            case Stored => a' == SegmentRuns.Abs(a.recs + [Stamp(m, t.next)], |a.recs| + 1) && t'.next == |a.recs| + 1
            case Orphaned => a'.recs == a.recs + [Stamp(m, t.next)] && t'.next == t.next
  {
    hide Append, Keeps;
  }

  /** A segment just opened knows no more records than its index file. */
  lemma OpenedDurable(c: Codec, b: Files, a: SegmentRuns.Abs)
    requires SegmentRuns.Sound(c, Opened(b), 0, a)
    ensures a.durable == |a.recs|
  {
    hide SegmentRuns.Sound, LoadNext, LoadMap;
    SegmentRuns.ReopenSound(c, Opened(b), 0, a);
    SoundBounds(c, Opened(b), a);
    SoundBounds(c, Opened(b), SegmentRuns.Abs(a.recs[..a.durable], a.durable));
  }

  /** Opening a directory nobody has touched. */
  lemma OpenedMatches(k: Site, p: Path)
    requires Bootable(k, p)
    ensures exists a :: Matches(k.codec, k.boot(p), Created(Opened(k.boot(p))), [], a)
  {
    hide SegmentRuns.Frames, SegmentRuns.Covers, ReadByOffset, SegmentState.Open, MatchesAt;
    var a :| SegmentRuns.Sound(k.codec, Opened(k.boot(p)), 0, a);
    forall i | 0 <= i < FirstOf(k.boot(p)) ensures ReadByOffset(k.codec, Opened(k.boot(p)), i) == Some(a.recs[i]) {
      SegmentRuns.ReadByOffsetCorrect(k.codec, Opened(k.boot(p)), 0, a.recs, i);
    }
    OpenedDurable(k.codec, k.boot(p), a);
    assert Matches(k.codec, k.boot(p), Created(Opened(k.boot(p))), [], a);
  }

  /** A directory no topic uses is as it was when the broker started. */
  lemma Untouched(k: Site, y: System, topic: string)
    requires Ready(k, y) && topic !in y.disk.topics && Alone(k, y, topic)
    ensures FilesAt(k, y.disk, PathAt(k, topic)) == k.boot(PathAt(k, topic))
  {
    hide PathOf, TopicLog;
    var p := PathAt(k, topic);
    forall t | t in y.disk.topics ensures !Uses(k, y.disk, p, t) {
      assert Counted(y, t);
    }
  }

  /** Produce on the topic itself. */
  lemma OwnWrite(k: Site, y: System, o: Request, origin: Origin, env: Env)
    requires RoundTrips(k.codec) && Ready(k, y) && TopicMatches(k, y, o.topic)
    ensures var added := Added(y.s, o, origin, OutcomeOf(k.codec, y.disk.topics[o.topic], Content(o), env));
            var y' := System(y.s.(hist := y.s.hist + added), WriteIn(k, y.disk, o.topic, Content(o), env));
            TopicMatches(k, y', o.topic)
  {
    hide Produced, TopicLog, TopicEvents, OutcomeOf, Matches, FirstOf, PathOf, RoundTrips;
    var b, t, es := k.boot(PathAt(k, o.topic)), y.disk.topics[o.topic], TopicEvents(y.s.hist, o.topic);
    var a :| Matches(k.codec, b, t, es, a);
    var outcome := OutcomeOf(k.codec, t, Content(o), env);
    assert Counted(y, o.topic) && InStep(k, y.disk, o.topic);
    EventsAreLog(y.s.hist, o.topic);
    EventsAdded(y.s.hist, Added(y.s, o, origin, outcome), o.topic, o.topic);
    var es' := es + Added(y.s, o, origin, outcome);
    assert WriteIn(k, y.disk, o.topic, Content(o), env).topics[o.topic] ==
           if env.draining then t else Produced(k.codec, t, Content(o), env.fault);
    if env.draining {
      DrainingRefuses(k.codec, t, Content(o), env);
      assert es + [] == es;
      assert Matches(k.codec, b, t, es', a);
    } else {
      ProducedMatches(k.codec, b, t, es, a, y.s, o, origin, env);
      var t' := Produced(k.codec, t, Content(o), env.fault);
      assert Matches(k.codec, b, t', es', AbsAfter(k.codec, t, a, Content(o), env));
    }
  }

  lemma DrainingRefuses(c: Codec, t: TopicState, m: Message, env: Env)
    ensures env.draining ==> OutcomeOf(c, t, m, env).Refused?
  {
  }

  /** Produce on a topic elsewhere. */
  lemma OtherWrite(k: Site, y: System, o: Request, origin: Origin, env: Env, topic: string)
    requires Ready(k, y) && TopicMatches(k, y, topic) && o.topic in y.disk.topics && o.topic != topic
    requires PathAt(k, o.topic) != PathAt(k, topic)
    ensures var added := Added(y.s, o, origin, OutcomeOf(k.codec, y.disk.topics[o.topic], Content(o), env));
            TopicMatches(k, System(y.s.(hist := y.s.hist + added), WriteIn(k, y.disk, o.topic, Content(o), env)), topic)
  {
    hide Produced, MakeRec, TopicLog, TopicEvents, OutcomeOf, Matches, FirstOf, PathOf, Whole;
    var added := Added(y.s, o, origin, OutcomeOf(k.codec, y.disk.topics[o.topic], Content(o), env));
    var es := TopicEvents(y.s.hist, topic);
    var a :| Matches(k.codec, k.boot(PathAt(k, topic)), y.disk.topics[topic], es, a);
    EventsAdded(y.s.hist, added, o.topic, topic);
    assert es + [] == es;
    var y' := System(y.s.(hist := y.s.hist + added), WriteIn(k, y.disk, o.topic, Content(o), env));
    assert y'.disk.topics[topic] == y.disk.topics[topic] && TopicEvents(y'.s.hist, topic) == es;
    assert Matches(k.codec, k.boot(PathAt(k, topic)), y'.disk.topics[topic], TopicEvents(y'.s.hist, topic), a);
  }

  /** Whether a topic matches depends on its own part of the system. */
  lemma SameTopic(k: Site, y: System, y': System, topic: string)
    requires TopicMatches(k, y, topic) && topic in y'.disk.topics && topic in y'.s.topics
    requires y'.disk.topics[topic] == y.disk.topics[topic] && y'.s.topics[topic] == y.s.topics[topic]
    requires y'.s.hist == y.s.hist
    ensures TopicMatches(k, y', topic)
  {
    hide Matches, TopicEvents, FirstOf, PathOf;
  }

  /** A new topic over a directory of its own. */
  lemma NewTopic(k: Site, y: System, topic: string)
    requires Ready(k, y) && topic !in y.disk.topics && Alone(k, y, topic) && Bootable(k, PathAt(k, topic))
    ensures var b := k.boot(PathAt(k, topic));
            TopicMatches(k, System(y.s.(topics := y.s.topics[topic := FirstOf(b)]), OpenIn(k, y.disk, topic)), topic)
  {
    hide Matches, TopicLog, FirstOf, PathOf, Whole, SegmentState.Open, Bootable;
    Untouched(k, y, topic);
    assert Counted(y, topic);
    EventsAreLog(y.s.hist, topic);
    OpenedMatches(k, PathAt(k, topic));
  }

  lemma AloneBefore(k: Site, y: System, step: Step, env: Env, topic: string)
    requires Ready(k, y) && Alone(k, Advance(k, y, step, env), topic)
    ensures Alone(k, y, topic)
  {
    hide Whole, OpensOf, RequestOf, OriginOf, WriteIn, OutcomeOf, MakeRec, TopicLog, FilesAt, FirstOf, PathOf, Advance;
    StepCases(k, y, step, env);
  }

  lemma MatchesStep(k: Site, y: System, step: Step, env: Env, topic: string)
    requires RoundTrips(k.codec) && Ready(k, y) && OwnFiles(k, Advance(k, y, step, env), topic)
    requires topic in y.disk.topics ==> TopicMatches(k, y, topic)
    ensures topic in Advance(k, y, step, env).disk.topics ==> TopicMatches(k, Advance(k, y, step, env), topic)
  {
    hide Whole, OpensOf, RequestOf, OriginOf, OutcomeOf, MakeRec, TopicLog, TopicMatches, FirstOf, PathOf;
    hide Advance, Bootable, RoundTrips, Produced;
    var y' := Advance(k, y, step, env);
    StepCases(k, y, step, env);
    AloneBefore(k, y, step, env, topic);
    var t, o := OpensOf(y.s, step), RequestOf(y.s, step);
    assert Counted(y, topic);
    if t == Some(topic) {
      Untouched(k, y, topic);
      NewTopic(k, y, topic);
      SameTopic(k, System(y.s.(topics := y'.s.topics), y'.disk), y', topic);
    } else if topic in y.disk.topics {
      if t.None? && o.Some? {
        Elsewhere(k, y, o.value, OriginOf(y.s, step), env, topic);
        var added := Added(y.s, o.value, OriginOf(y.s, step),
                           OutcomeOf(k.codec, y.disk.topics[o.value.topic], Content(o.value), env));
        SameTopic(k, System(y.s.(hist := y.s.hist + added), y'.disk), y', topic);
      } else {
        SameTopic(k, y, y', topic);
      }
    }
  }

  /** Produce on any topic. */
  lemma Elsewhere(k: Site, y: System, o: Request, origin: Origin, env: Env, topic: string)
    requires RoundTrips(k.codec) && Ready(k, y) && TopicMatches(k, y, topic) && o.topic in y.disk.topics
    requires Alone(k, y, topic)
    ensures var added := Added(y.s, o, origin, OutcomeOf(k.codec, y.disk.topics[o.topic], Content(o), env));
            TopicMatches(k, System(y.s.(hist := y.s.hist + added), WriteIn(k, y.disk, o.topic, Content(o), env)), topic)
  {
    hide Whole, WriteIn, OutcomeOf, MakeRec, TopicLog, TopicMatches, PathOf, RoundTrips;
    if o.topic == topic {
      OwnWrite(k, y, o, origin, env);
    } else {
      assert Counted(y, o.topic);
      OtherWrite(k, y, o, origin, env, topic);
    }
  }

  /** Over every run, whatever the environment does: a segment whose directory no
      other topic's name leads to holds what it was opened over and then exactly
      the topic's history, record by record, in order. */
  lemma {:induction false} FilesMatch(k: Site, steps: seq<(Step, Env)>, topic: string)
    requires RoundTrips(k.codec) && OwnFiles(k, RunAll(k, steps), topic)
    ensures topic in RunAll(k, steps).disk.topics ==> TopicMatches(k, RunAll(k, steps), topic)
  {
    hide Ready, TopicMatches, Advance, Bootable, Alone;
    if steps != [] {
      var front := steps[..|steps| - 1];
      ReadyRun(k, front);
      AloneBefore(k, RunAll(k, front), steps[|steps| - 1].0, steps[|steps| - 1].1, topic);
      FilesMatch(k, front, topic);
      MatchesStep(k, RunAll(k, front), steps[|steps| - 1].0, steps[|steps| - 1].1, topic);
    }
  }

  // ---------- reading back ----------

  lemma {:induction false} CounterBound(first: nat, es: seq<Event>)
    ensures Counter(first, es) <= first + |es|
    ensures Counter(first, es) == first + |es| <==> (first == 0 && es == []) || LastAcked(es)
  {
    if es != [] {
      CounterBound(first, es[..|es| - 1]);
    }
  }

  /** What the file holds for a record Produce has returned: the same record, and
      the same offset field exactly if it is the very first record in the
      directory or the record stored before it by this broker was reported as stored. */
  ghost predicate ReadsBack(k: Site, y: System, topic: string, rec: Rec) {
    var es := TopicEvents(y.s.hist, topic);
    var i := rec.offset - First(y.s, topic);
    && topic in y.disk.topics && 0 <= i < |es|
    && var r := ReadByOffset(k.codec, y.disk.topics[topic].seg, rec.offset);
       && r.Some? && Agrees(r.value, rec)
       && (r.value.offset == rec.offset <==> rec.offset == 0 || (i > 0 && es[i - 1].acked))
  }

  lemma ReadShelf(c: Codec, s: Seg, a: SegmentRuns.Abs, i: nat)
    requires SegmentRuns.Sound(c, s, 0, a) && i < |a.recs|
    ensures ReadByOffset(c, s, i) == Some(a.recs[i])
  {
    hide SegmentRuns.Readable, ReadByOffset;
    SegmentRuns.ReadByOffsetCorrect(c, s, 0, a.recs, i);
  }

  lemma PresentReadsBack(k: Site, y: System, topic: string, rec: Rec)
    requires TopicMatches(k, y, topic) && Idempotence.Present(y.s, topic, rec)
    ensures ReadsBack(k, y, topic, rec)
  {
    hide SegmentRuns.Sound, ReadByOffset, TopicEvents, TopicLog, Counter, Agrees, FirstOf, PathOf, SegmentState.Open;
    var es := TopicEvents(y.s.hist, topic);
    var t, first := y.disk.topics[topic], y.s.topics[topic];
    EventsAreLog(y.s.hist, topic);
    var a :| Matches(k.codec, k.boot(PathAt(k, topic)), t, es, a);
    var i := rec.offset - first;
    ReadShelf(k.codec, t.seg, a, rec.offset);
    assert es[i].rec == rec && MatchesAt(a.recs, first, es, i);
    CounterBound(first, es[..i]);
    assert i > 0 ==> es[..i][i - 1] == es[i - 1];
  }

  lemma AtOwnOffset(k: Site, y: System, topic: string, i: nat)
    requires TopicMatches(k, y, topic) && i < |TopicLog(y.s.hist, topic)|
    ensures Idempotence.Present(y.s, topic, TopicLog(y.s.hist, topic)[i])
    ensures TopicLog(y.s.hist, topic)[i].offset == First(y.s, topic) + i
  {
    hide SegmentRuns.Sound, ReadByOffset, Counter, Agrees, FirstOf, PathOf, SegmentState.Open, TopicLog, TopicEvents;
    var es := TopicEvents(y.s.hist, topic);
    EventsAreLog(y.s.hist, topic);
    var a :| Matches(k.codec, k.boot(PathAt(k, topic)), y.disk.topics[topic], es, a);
    assert MatchesAt(a.recs, y.s.topics[topic], es, i);
  }

  /** Every record ever stored for a topic with files of its own is read back. */
  lemma StoredReadsBack(k: Site, steps: seq<(Step, Env)>, topic: string, i: nat)
    requires RoundTrips(k.codec) && OwnFiles(k, RunAll(k, steps), topic)
    ensures var y := RunAll(k, steps);
            var log := TopicLog(y.s.hist, topic);
            i < |log| ==> ReadsBack(k, y, topic, log[i]) && log[i].offset == First(y.s, topic) + i
  {
    hide RunAll, ReadsBack, OwnFiles, TopicMatches, TopicLog, Idempotence.Present;
    FilesMatch(k, steps, topic);
    ReadyRun(k, steps);
    var y := RunAll(k, steps);
    assert Counted(y, topic);
    if i < |TopicLog(y.s.hist, topic)| {
      AtOwnOffset(k, y, topic, i);
      PresentReadsBack(k, y, topic, TopicLog(y.s.hist, topic)[i]);
    }
  }

  lemma {:induction false} EventInTopic(hist: seq<Event>, i: nat)
    requires i < |hist|
    ensures hist[i] in TopicEvents(hist, hist[i].topic)
  {
    if i < |hist| - 1 {
      EventInTopic(hist[..|hist| - 1], i);
    }
  }

  /** Whoever stored it, every record of the history is in its topic's file, if
      that file is the topic's own. */
  lemma EventReadsBack(k: Site, steps: seq<(Step, Env)>, i: nat)
    requires RoundTrips(k.codec) && i < |RunAll(k, steps).s.hist|
    requires OwnFiles(k, RunAll(k, steps), RunAll(k, steps).s.hist[i].topic)
    ensures var y := RunAll(k, steps);
            ReadsBack(k, y, y.s.hist[i].topic, y.s.hist[i].rec)
  {
    hide RunAll, ReadsBack, TopicEvents, OwnFiles;
    var y := RunAll(k, steps);
    var e := y.s.hist[i];
    EventInTopic(y.s.hist, i);
    var es := TopicEvents(y.s.hist, e.topic);
    var j :| 0 <= j < |es| && es[j] == e;
    EventsAreLog(y.s.hist, e.topic);
    StoredReadsBack(k, steps, e.topic, j);
  }

  /** A committed transaction's staged records are, in order, exactly the records
      the history holds for it, and each is read back from its topic's file, if
      that file is the topic's own. */
  lemma CommittedReadsBack(k: Site, steps: seq<(Step, Env)>, o: nat)
    requires RoundTrips(k.codec) && o < |RunAll(k, steps).s.txs| && RunAll(k, steps).s.txs[o].status.Committed?
    ensures var y := RunAll(k, steps);
            && Transactions.TxLog(y.s.hist, o) == y.s.txs[o].records
            && forall i :: 0 <= i < |y.s.hist| && y.s.hist[i].origin == Transactional(o)
                           && OwnFiles(k, y, y.s.hist[i].topic) ==>
                 ReadsBack(k, y, y.s.hist[i].topic, y.s.hist[i].rec)
  {
    hide RunAll, Run, ReadsBack, Transactions.TxLog, OwnFiles;
    var y := RunAll(k, steps);
    RunsProtocol(k, steps);
    Transactions.TransactionsArePrefixes(Resolved(k, steps), o);
    forall i | 0 <= i < |y.s.hist| && OwnFiles(k, y, y.s.hist[i].topic)
      ensures ReadsBack(k, y, y.s.hist[i].topic, y.s.hist[i].rec)
    {
      EventReadsBack(k, steps, i);
    }
  }

  ghost predicate UsedOnly(steps: seq<(Step, Env)>, used: Idempotence.Usage) {
    forall p :: p in steps && p.0.IdemCheck? ==> used(p.0.topic, p.0.producer)
  }

  lemma {:induction false} ResolvedUse(k: Site, steps: seq<(Step, Env)>, used: Idempotence.Usage)
    requires UsedOnly(steps, used)
    ensures Idempotence.Keeping(Resolved(k, steps), used)
  {
    hide RunAll, OutcomeOf, FirstOf, FilesAt, PathOf;
    if steps != [] {
      assert steps[|steps| - 1] in steps;
      ResolvedUse(k, steps[..|steps| - 1], used);
    }
  }

  /** A record from the cache is a record of a topic a caller named with this key,
      and it is the record in that topic's file, if the file is the topic's own. */
  ghost predicate BackedByFile(k: Site, y: System, d: string, rec: Rec, used: Idempotence.Usage) {
    exists t, p, q ::
      && d == DedupKey(SeqKey(t, p), q) && used(t, p) && Idempotence.Present(y.s, t, rec)
      && (OwnFiles(k, y, t) ==> ReadsBack(k, y, t, rec))
  }

  /** What is present in a topic with files of its own is read back. */
  lemma OwnReadsBack(k: Site, steps: seq<(Step, Env)>, topic: string, rec: Rec)
    requires RoundTrips(k.codec) && Idempotence.Present(RunAll(k, steps).s, topic, rec)
    requires OwnFiles(k, RunAll(k, steps), topic)
    ensures ReadsBack(k, RunAll(k, steps), topic, rec)
  {
    hide RunAll, ReadsBack, OwnFiles, TopicMatches, TopicLog;
    FilesMatch(k, steps, topic);
    ReadyRun(k, steps);
    assert Counted(RunAll(k, steps), topic);
    PresentReadsBack(k, RunAll(k, steps), topic, rec);
  }

  lemma CachedReadsBack(k: Site, steps: seq<(Step, Env)>, used: Idempotence.Usage, d: string)
    requires RoundTrips(k.codec) && UsedOnly(steps, used)
    ensures var y := RunAll(k, steps);
            d in y.s.dedup ==> BackedByFile(k, y, d, y.s.dedup[d], used)
  {
    hide RunAll, Run, ReadsBack, Idempotence.Present, SeqKey, DedupKey, OwnFiles;
    var y := RunAll(k, steps);
    RunsProtocol(k, steps);
    ResolvedUse(k, steps, used);
    Idempotence.CachedRecordsAreLogged(Resolved(k, steps), used);
    if d in y.s.dedup {
      var rec := y.s.dedup[d];
      assert Idempotence.Backed(y.s, d, rec, used);
      var t, p, q :| d == DedupKey(SeqKey(t, p), q) && Idempotence.Present(y.s, t, rec) && used(t, p);
      if OwnFiles(k, y, t) {
        OwnReadsBack(k, steps, t, rec);
      }
    }
  }

  /** Unless another topic was used with the same key, an answer from the cache
      is the record in the file of the topic the call names, if the file is its own. */
  lemma CachedAnswerReadsBack(k: Site, steps: seq<(Step, Env)>, topic: string, producer: string, q: int)
    requires RoundTrips(k.codec) && UsedOnly(steps, (t, p) => Idempotence.OwnKey(topic, producer, t, p))
    requires Check(RunAll(k, steps).s, topic, producer, q).Cached? && OwnFiles(k, RunAll(k, steps), topic)
    ensures ReadsBack(k, RunAll(k, steps), topic, Check(RunAll(k, steps).s, topic, producer, q).rec)
  {
    hide RunAll, Run, ReadsBack, Idempotence.Present, SeqKey, DedupKey, OwnFiles;
    RunsProtocol(k, steps);
    ResolvedUse(k, steps, (t, p) => Idempotence.OwnKey(topic, producer, t, p));
    Idempotence.CachedAnswerIsOwn(Resolved(k, steps), topic, producer, q);
    OwnReadsBack(k, steps, topic, Check(RunAll(k, steps).s, topic, producer, q).rec);
  }

  /** Names without slashes, other than "." and "..", have directories of their own. */
  lemma PlainNamesOwn(k: Site, y: System, topic: string)
    requires PlainName(topic) && (forall u :: u in y.s.topics ==> PlainName(u)) && Bootable(k, PathAt(k, topic))
    ensures OwnFiles(k, y, topic)
  {
    hide PathOf, Bootable, PlainName;
    forall u | u in y.s.topics && u != topic ensures PathAt(k, u) != PathAt(k, topic) {
      PlainApart(k.dir, u, topic);
    }
  }
}
