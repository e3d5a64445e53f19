/** What one lock region of the broker does to its history and its files. */
module BrokerSteps {
  import opened Bytes
  import opened SegmentState
  import opened Topics
  import opened Protocol
  import opened Storage
  import opened StorageRuns
  import Idempotence
  import SegmentRuns

  predicate OfCommit(step: Step, id: nat) {
    (step.CommitStart? || step.CommitCreate? || step.CommitAppend? || step.CommitFinish?) && step.id == id
  }

  /** Every topic with files of its own matches them. */
  ghost predicate Consistent(k: Site, y: System) {
    Ready(k, y) && forall t :: t in y.disk.topics && OwnFiles(k, y, t) ==> TopicMatches(k, y, t)
  }

  lemma NoFiles(k: Site, y: System)
    requires y == System(Initial(), NO_FILES)
    ensures Consistent(k, y)
  {
    hide Ready, OwnFiles, TopicMatches;
    NothingOpen(k);
  }

  /** Kept by every step. */
  lemma ConsistentStep(k: Site, y: System, step: Step, env: Env)
    requires RoundTrips(k.codec) && Consistent(k, y)
    ensures Consistent(k, Advance(k, y, step, env))
  {
    hide Counted, Whole, Bootable, Alone, TopicMatches, Advance, RoundTrips;
    var y' := Advance(k, y, step, env);
    ReadyStep(k, y, step, env);
    forall t | t in y'.disk.topics && OwnFiles(k, y', t) ensures TopicMatches(k, y', t) {
      AloneBefore(k, y, step, env, t);
      MatchesStep(k, y, step, env, t);
    }
  }

  lemma CreateStep(k: Site, y: System, topic: string)
    requires RoundTrips(k.codec) && Consistent(k, y)
    ensures Whole(k, y.disk) && Consistent(k, Advance(k, y, CreateTopic(topic, 0), FINE))
    ensures Advance(k, y, CreateTopic(topic, 0), FINE) ==
            if topic in y.disk.topics then y
            else System(y.s.(topics := y.s.topics[topic := FirstOf(FilesAt(k, y.disk, PathAt(k, topic)))]),
                        OpenIn(k, y.disk, topic))
  {
    hide Counted, Whole, OwnFiles, TopicMatches, Advance, RoundTrips, FirstOf, FilesAt, PathAt, OpenIn;
    ConsistentStep(k, y, CreateTopic(topic, 0), FINE);
    AdvanceCreate(k, y, topic, FINE);
  }

  /** What Produce returns. */
  ghost function Returned(k: Site, y: System, o: Request, env: Env): Option<Rec> {
    if o.topic in y.disk.topics && OutcomeOf(k.codec, y.disk.topics[o.topic], Content(o), env).Stored?
    then Some(MakeRec(y.s, o.topic, o.body, o.now)) else None
  }

  lemma SupplyStep(k: Site, y: System, o: Request, origin: Origin, env: Env)
    requires RoundTrips(k.codec) && Consistent(k, y)
    ensures Whole(k, y.disk) && Consistent(k, Supplied(k, y, o, origin, env))
  {
    hide TopicMatches, Counted, Whole, Bootable, RoundTrips, OutcomeOf, Added, WriteIn, PathAt;
    var y' := Supplied(k, y, o, origin, env);
    SuppliedReady(k, y, o, origin, env);
    if o.topic in y.disk.topics {
      forall t | t in y'.disk.topics && OwnFiles(k, y', t) ensures TopicMatches(k, y', t) {
        KnownTopic(k, y, t);
        KnownTopic(k, y', t);
        Elsewhere(k, y, o, origin, env, t);
      }
    }
  }

  lemma Unsupplied(k: Site, y: System, o: Request, origin: Origin, env: Env)
    requires Whole(k, y.disk) && (env.draining || o.topic !in y.disk.topics)
    ensures Supplied(k, y, o, origin, env) == y && Returned(k, y, o, env) == None
  {
    hide Whole, MakeRec;
    assert y.s.hist + [] == y.s.hist;
  }

  /** What one call of Produce did to the history: nothing, or one record with the
      topic and contents of the call, acknowledged exactly if it is returned. */
  ghost predicate Recorded(before: seq<Event>, after: seq<Event>, o: Request, origin: Origin, r: Option<Rec>) {
    if |after| == |before| then after == before && r.None? else
      && |after| == |before| + 1 && before == after[..|before|]
      && var e := after[|before|];
         && e.topic == o.topic && e.rec.body == o.body && e.rec.timestamp == o.now && e.origin == origin
         && (if e.acked then r == Some(e.rec) else r.None?)
  }

  /** Exactly when Produce returns a record. */
  lemma ReturnedIff(k: Site, y: System, o: Request, env: Env)
    ensures Returned(k, y, o, env).Some? <==>
            && !env.draining && env.fault.NoFault? && o.topic in y.disk.topics
            && var t := y.disk.topics[o.topic];
               Keeps(k.codec, t.seg.position, Stamp(Content(o), t.next), NoFault)
  {
    hide MakeRec;
  }

  lemma SuppliedRecords(k: Site, y: System, o: Request, origin: Origin, env: Env)
    requires Whole(k, y.disk)
    ensures Recorded(y.s.hist, Supplied(k, y, o, origin, env).s.hist, o, origin, Returned(k, y, o, env))
    ensures env.draining || o.topic !in y.disk.topics ==>
              Supplied(k, y, o, origin, env) == y && Returned(k, y, o, env).None?
  {
    hide Whole, WriteIn, Keeps, TopicLog;
    if env.draining || o.topic !in y.disk.topics {
      Unsupplied(k, y, o, origin, env);
    }
  }

  /** The topic's own Produce returns what the broker's Produce returns. */
  lemma SupplyStored(k: Site, y: System, o: Request, env: Env)
    requires Consistent(k, y) && !env.draining && o.topic in y.disk.topics
    ensures var t := y.disk.topics[o.topic];
            var stored := SegmentRuns.AppendResult(k.codec, t.seg, Stamp(Content(o), t.next), env.fault).Some?;
            && t.seg.nextOffset >= 0
            && Returned(k, y, o, env) == if stored then Some(Rec(o.body, o.now, t.seg.nextOffset)) else None
  {
    hide Whole, TopicLog, OwnFiles, TopicMatches;
    assert Counted(y, o.topic);
  }

  lemma PlainStep(k: Site, y: System, o: Request, env: Env)
    requires Consistent(k, y)
    ensures Whole(k, y.disk)
    ensures Advance(k, y, PlainProduce(o.topic, o.body, o.now, Refused), env) == Supplied(k, y, o, Plain, env)
  {
    hide Whole, OwnFiles, TopicMatches, Advance, Supplied, Counted;
    AdvancePlain(k, y, o, env);
  }

  /** A step that stores nothing and makes no topic. */
  lemma QuietStep(k: Site, y: System, step: Step)
    requires RoundTrips(k.codec) && Consistent(k, y) && IsQuiet(step)
    ensures Whole(k, y.disk) && Consistent(k, Advance(k, y, step, FINE))
    ensures Advance(k, y, step, FINE) == System(Next(y.s, step), y.disk)
  {
    hide Counted, Whole, OwnFiles, TopicMatches, Advance, RoundTrips, Next;
    ConsistentStep(k, y, step, FINE);
    QuietFiles(k, y, step, FINE);
  }

  lemma IdemStep(k: Site, y: System, id: nat, now: int64, env: Env)
    requires RoundTrips(k.codec) && Consistent(k, y) && id in y.s.calls && y.s.calls[id].stored.None?
    ensures Whole(k, y.disk) && Consistent(k, Advance(k, y, IdemAppend(id, now, Refused), env))
    ensures var call := y.s.calls[id];
            var o := Request(call.topic, call.body, now);
            var z := Supplied(k, y, o, Idempotent(SeqKey(call.topic, call.producer), call.seqNo), env);
            var r := Returned(k, y, o, env);
            Advance(k, y, IdemAppend(id, now, Refused), env) ==
            System(z.s.(calls := if r.Some? then y.s.calls[id := call.(stored := r)] else y.s.calls - {id}), z.disk)
  {
    hide Counted, Whole, OwnFiles, TopicMatches, Advance, RoundTrips, SeqKey, MakeRec, Supplied, OutcomeOf;
    ConsistentStep(k, y, IdemAppend(id, now, Refused), env);
    AdvanceIdem(k, y, id, now, env);
  }

  lemma Start(k: Site, y: System)
    requires Consistent(k, y)
    ensures Whole(k, y.disk) && RunFrom(k, y, []) == y
  {
    hide Counted, OwnFiles, TopicMatches;
  }

  lemma Extend(k: Site, y: System, steps: seq<(Step, Env)>, step: Step, env: Env)
    requires Whole(k, y.disk)
    ensures RunFrom(k, y, steps + [(step, env)]) == Advance(k, RunFrom(k, y, steps), step, env)
  {
    hide Whole, Advance;
    assert (steps + [(step, env)])[..|steps|] == steps;
  }

  lemma CreateInLoopStep(k: Site, y: System, id: nat, ok: bool)
    requires RoundTrips(k.codec) && Consistent(k, y) && InLoop(y.s, id) && !y.s.commits[id].ready
    ensures Whole(k, y.disk) && Consistent(k, Advance(k, y, CommitCreate(id, ok, 0), FINE))
    ensures var call := y.s.commits[id];
            var topic := call.records[call.done].topic;
            var z := if ok then Advance(k, y, CreateTopic(topic, 0), FINE) else y;
            Advance(k, y, CommitCreate(id, ok, 0), FINE) ==
            System(z.s.(commits := y.s.commits[id :=
                          if ok then call.(ready := true) else call.(phase := Failed)]),
                   z.disk)
  {
    hide Counted, Whole, OwnFiles, TopicMatches, Advance, RoundTrips;
    ConsistentStep(k, y, CommitCreate(id, ok, 0), FINE);
    AdvanceCommitCreate(k, y, id, ok, FINE);
  }

  lemma AppendInLoopStep(k: Site, y: System, id: nat, now: int64, env: Env)
    requires RoundTrips(k.codec) && Consistent(k, y) && InLoop(y.s, id) && y.s.commits[id].ready
    requires y.s.commits[id].records[y.s.commits[id].done].topic in y.disk.topics && !y.s.commits[id].orphan
    ensures Whole(k, y.disk) && Consistent(k, Advance(k, y, CommitAppend(id, now, Refused), env))
    ensures var call := y.s.commits[id];
            var r := call.records[call.done];
            var o := Request(r.topic, r.body, now);
            var z := Supplied(k, y, o, Transactional(call.tx), env);
            var outcome := OutcomeOf(k.codec, y.disk.topics[r.topic], Content(o), env);
            Advance(k, y, CommitAppend(id, now, Refused), env) ==
            System(z.s.(commits := y.s.commits[id :=
                          if outcome.Stored? then call.(done := call.done + 1, ready := false)
                          else call.(phase := Failed, orphan := outcome.Orphaned?)]),
                   z.disk)
  {
    hide Counted, Whole, OwnFiles, TopicMatches, Advance, RoundTrips, MakeRec, Supplied, OutcomeOf;
    ConsistentStep(k, y, CommitAppend(id, now, Refused), env);
    AdvanceCommit(k, y, id, now, env);
  }

  /** What Produce returns is in the topic's file from then on, if the file is its own. */
  lemma SuppliedReadsBack(k: Site, y: System, o: Request, origin: Origin, env: Env)
    requires RoundTrips(k.codec) && Consistent(k, y)
    ensures Whole(k, y.disk)
    ensures Returned(k, y, o, env).Some? ==>
              SafelyRead(k, Supplied(k, y, o, origin, env), o.topic, Returned(k, y, o, env).value)
  {
    hide TopicMatches, Counted, Whole, OwnFiles, RoundTrips, OutcomeOf, ReadsBack, MakeRec, WriteIn;
    hide Idempotence.Present;
    var y' := Supplied(k, y, o, origin, env);
    SupplyStep(k, y, o, origin, env);
    if Returned(k, y, o, env).Some? {
      KnownTopic(k, y, o.topic);
      KnownTopic(k, y', o.topic);
      Idempotence.MadePresent(y.s, o.topic, o.body, o.now, origin, true);
      if OwnFiles(k, y', o.topic) {
        PresentReadsBack(k, y', o.topic, Returned(k, y, o, env).value);
      }
    }
  }

  ghost predicate SafelyRead(k: Site, y: System, topic: string, rec: Rec) {
    OwnFiles(k, y, topic) ==> ReadsBack(k, y, topic, rec)
  }

  /** Reading depends on the files, the topics and the history alone. */
  lemma SameReads(k: Site, y: System, y': System, topic: string, r: Option<Rec>)
    requires y'.s.hist == y.s.hist && y'.s.topics == y.s.topics && y'.disk == y.disk
    requires r.Some? ==> SafelyRead(k, y, topic, r.value)
    ensures r.Some? ==> SafelyRead(k, y', topic, r.value)
  {
    hide ReadByOffset, PathAt, TopicEvents, Bootable;
  }
}
