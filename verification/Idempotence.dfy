/** Idempotent producing over every interleaving. */
module Idempotence {
  import opened Bytes
  import opened Order
  import opened Protocol

  // ---------- the key strings ----------

  /** The last bar of a deduplication key is the one before the number. */
  lemma DedupInjective(k: string, q: int, k': string, q': int)
    requires DedupKey(k, q) == DedupKey(k', q')
    ensures k == k' && q == q'
  {
    assert k + ['|'] + Decimal(q) == k' + ['|'] + Decimal(q');
    assert '|' !in Decimal(q) && '|' !in Decimal(q');
    SplitLast('|', k, Decimal(q), k', Decimal(q'));
    DecimalInjective(q, q');
  }

  /** Two different topics share a sequence key for some producers exactly when
      one of them, with a bar, begins the other. */
  lemma KeysCollide(t: string, t': string)
    requires t != t'
    ensures (exists p, p' :: p != "" && p' != "" && SeqKey(t, p) == SeqKey(t', p'))
       <==> t + "|" <= t' + "|" || t' + "|" <= t + "|"
  {
    forall p, p' | p != "" && p' != "" && SeqKey(t, p) == SeqKey(t', p')
      ensures t + "|" <= t' + "|" || t' + "|" <= t + "|"
    {
      var k := SeqKey(t, p);
      assert t + "|" == k[..|t| + 1] && t' + "|" == k[..|t'| + 1];
    }
    if t + "|" <= t' + "|" {
      CollidingProducers(t, t');
    } else if t' + "|" <= t + "|" {
      CollidingProducers(t', t);
    }
  }

  lemma CollidingProducers(t: string, t': string)
    requires t != t' && t + "|" <= t' + "|"
    ensures exists p, p' :: p != "" && p' != "" && SeqKey(t, p) == SeqKey(t', p')
    ensures exists p, p' :: p != "" && p' != "" && SeqKey(t', p') == SeqKey(t, p)
  {
    var x := (t' + "|")[|t| + 1..];
    var p := x + "a";
    assert t' + "|" == t + "|" + x;
    assert SeqKey(t, p) == SeqKey(t', "a");
  }

  /** Topics without a bar never collide. */
  lemma SeqKeyInjective(t: string, p: string, t': string, p': string)
    requires '|' !in t && '|' !in t' && SeqKey(t, p) == SeqKey(t', p')
    ensures t == t' && p == p'
  {
    var k := SeqKey(t, p);
    assert k[|t|] == '|' && SeqKey(t', p')[|t'|] == '|';
    assert forall i :: 0 <= i < |t| ==> k[i] == t[i];
    assert forall i :: 0 <= i < |t'| ==> SeqKey(t', p')[i] == t'[i];
    assert t == k[..|t|] && p == k[|t| + 1..];
    assert t' == k[..|t'|] && p' == k[|t'| + 1..];
  }

  // ---------- what the log says about a producer ----------

  function KeyOf(c: Call): string {
    SeqKey(c.topic, c.producer)
  }

  predicate StoredBy(e: Event, key: string) {
    e.origin.Idempotent? && e.origin.key == key
  }

  predicate AckedBy(e: Event, key: string) {
    StoredBy(e, key) && e.acked
  }

  /** The sequence numbers whose records were stored and acknowledged, in log order. */
  function AckedSeqs(hist: seq<Event>, key: string): seq<int> {
    if hist == [] then [] else
      var front := AckedSeqs(hist[..|hist| - 1], key);
      var e := hist[|hist| - 1];
      if AckedBy(e, key) then front + [e.origin.seqNo] else front
  }

  lemma AckedAppend(hist: seq<Event>, e: Event, key: string)
    ensures AckedSeqs(hist + [e], key) ==
            AckedSeqs(hist, key) + (if AckedBy(e, key) then [e.origin.seqNo] else [])
  {
    assert (hist + [e])[..|hist|] == hist;
  }

  lemma TopicAppend(hist: seq<Event>, e: Event, topic: string)
    ensures TopicLog(hist + [e], topic) ==
            TopicLog(hist, topic) + (if e.topic == topic then [e.rec] else [])
  {
    assert (hist + [e])[..|hist|] == hist;
  }

  /** Calls, cache and stored numbers stay, and no idempotent record is stored. */
  ghost predicate Quiet(s: State, s': State) {
    && s'.calls == s.calls && s'.dedup == s.dedup && s'.producerSeq == s.producerSeq
    && (s'.hist == s.hist
        || (|s'.hist| == |s.hist| + 1 && s'.hist[..|s.hist|] == s.hist && !s'.hist[|s.hist|].origin.Idempotent?))
  }

  lemma OtherStep(s: State, step: Step)
    requires !step.IdemCheck? && !step.IdemAppend? && !step.IdemPublish?
    ensures Quiet(s, Next(s, step))
  {
    hide Quiet, DoCreate, DoPlain, DoBegin, DoStage, DoAbort;
    hide DoCommitStart, DoCommitCreate, DoCommitAppend, DoCommitFinish;
    match step
    case CreateTopic(topic, first) => CreateQuiet(s, topic, first);
    case PlainProduce(topic, body, now, outcome) => PlainQuiet(s, topic, body, now, outcome);
    case CommitCreate(id, ok, first) => CommitCreateQuiet(s, id, ok, first);
    case CommitAppend(id, now, outcome) => CommitAppendQuiet(s, id, now, outcome);
    case _ => TransactionQuiet(s, step);
  }

  lemma CreateQuiet(s: State, topic: string, first: nat)
    ensures Quiet(s, DoCreate(s, topic, first))
  {
  }

  lemma PlainQuiet(s: State, topic: string, body: Body, now: int64, outcome: Outcome)
    ensures Quiet(s, DoPlain(s, topic, body, now, outcome))
  {
    hide MakeRec;
  }

  lemma CommitCreateQuiet(s: State, id: nat, ok: bool, first: nat)
    ensures Quiet(s, DoCommitCreate(s, id, ok, first))
  {
  }

  /** Steps that change transactions and commits alone. */
  lemma TransactionQuiet(s: State, step: Step)
    requires step.TxBegin? || step.TxStage? || step.TxAbort? || step.CommitStart? || step.CommitFinish?
    ensures Quiet(s, Next(s, step))
  {
    hide TxId, IsOpen, DoCreate, DoPlain, DoCheck, DoIdemAppend, DoPublish, DoCommitCreate, DoCommitAppend;
    assert Next(s, step).hist == s.hist;
  }

  lemma CommitAppendQuiet(s: State, id: nat, now: int64, outcome: Outcome)
    ensures Quiet(s, DoCommitAppend(s, id, now, outcome))
  {
    hide MakeRec;
  }

  lemma OtherAcked(s: State, step: Step, key: string)
    requires !step.IdemCheck? && !step.IdemAppend? && !step.IdemPublish?
    ensures AckedSeqs(Next(s, step).hist, key) == AckedSeqs(s.hist, key)
  {
    OtherStep(s, step);
    hide Next;
  }

  // ---------- every cached record is in the log ----------

  /** Topics stay, and the history only grows. */
  ghost predicate Grows(s: State, s': State) {
    && (forall t :: t in s.topics ==> t in s'.topics && s'.topics[t] == s.topics[t])
    && s.hist <= s'.hist
  }

  lemma StepGrows(s: State, step: Step)
    ensures Grows(s, Next(s, step))
  {
    hide Next;
    TopicsStay(s, step);
    if step.IdemAppend? {
      AppendGrows(s, step);
    } else if step.IdemCheck? || step.IdemPublish? {
      LogKept(s, step);
    } else {
      OtherStep(s, step);
    }
  }

  lemma TopicsStay(s: State, step: Step)
    ensures forall t :: t in s.topics ==> t in Next(s, step).topics && Next(s, step).topics[t] == s.topics[t]
  {
    if step.CreateTopic? || step.CommitCreate? {
      CreateTopics(s, step);
    } else {
      hide Next;
      SameTopics(s, step);
    }
  }

  lemma CreateTopics(s: State, step: Step)
    requires step.CreateTopic? || step.CommitCreate?
    ensures forall t :: t in s.topics ==> t in Next(s, step).topics && Next(s, step).topics[t] == s.topics[t]
  {
    hide DoCheck, DoIdemAppend, DoPublish, DoPlain, DoBegin, DoStage, DoAbort, DoCommitStart, DoCommitAppend;
    hide DoCommitFinish, InLoop;
  }

  /** No other step makes a topic. */
  lemma SameTopics(s: State, step: Step)
    requires !step.CreateTopic? && !step.CommitCreate?
    ensures Next(s, step).topics == s.topics
  {
    hide Next;
    if step.PlainProduce? || step.IdemCheck? || step.IdemAppend? || step.IdemPublish? {
      CallTopics(s, step);
    } else {
      TransactionTopics(s, step);
    }
  }

  lemma CallTopics(s: State, step: Step)
    requires step.PlainProduce? || step.IdemCheck? || step.IdemAppend? || step.IdemPublish?
    ensures Next(s, step).topics == s.topics
  {
    hide MakeRec, SeqKey, DedupKey, Check, DoCreate, DoBegin, DoStage, DoAbort, DoCommitStart, DoCommitCreate;
    hide DoCommitAppend, DoCommitFinish;
  }

  lemma TransactionTopics(s: State, step: Step)
    requires step.TxBegin? || step.TxStage? || step.TxAbort?
             || step.CommitStart? || step.CommitAppend? || step.CommitFinish?
    ensures Next(s, step).topics == s.topics
  {
    hide MakeRec, TxId, IsOpen, InLoop, DoCreate, DoPlain, DoCheck, DoIdemAppend, DoPublish, DoCommitCreate;
  }

  lemma AppendGrows(s: State, step: Step)
    requires step.IdemAppend?
    ensures s.hist <= Next(s, step).hist
  {
    hide MakeRec, SeqKey;
  }

  lemma LogKept(s: State, step: Step)
    requires step.IdemCheck? || step.IdemPublish?
    ensures Next(s, step).hist == s.hist
  {
    hide Check, SeqKey, DedupKey;
  }

  lemma {:induction false} TopicPrefix(hist: seq<Event>, hist': seq<Event>, topic: string)
    requires hist <= hist'
    ensures TopicLog(hist, topic) <= TopicLog(hist', topic)
  {
    if |hist| < |hist'| {
      TopicPrefix(hist, hist'[..|hist'| - 1], topic);
    } else {
      assert hist == hist';
    }
  }

  /** The topic's log holds rec at its offset. */
  ghost predicate Present(s: State, topic: string, rec: Rec) {
    var log := TopicLog(s.hist, topic);
    && topic in s.topics
    && First(s, topic) <= rec.offset < First(s, topic) + |log|
    && log[rec.offset - First(s, topic)] == rec
  }

  /** The topics and producers that callers may name. */
  type Usage = (string, string) -> bool

  /** d is the key of a call on the topic whose log holds rec at its offset. */
  ghost predicate Backed(s: State, d: string, rec: Rec, used: Usage) {
    exists t, p, q :: d == DedupKey(SeqKey(t, p), q) && Present(s, t, rec) && used(t, p)
  }

  ghost predicate Logged(s: State, used: Usage) {
    && (forall id :: id in s.calls ==> used(s.calls[id].topic, s.calls[id].producer))
    && (forall id :: id in s.calls && s.calls[id].stored.Some? ==>
          Present(s, s.calls[id].topic, s.calls[id].stored.value))
    && (forall d :: d in s.dedup ==> Backed(s, d, s.dedup[d], used))
  }

  lemma PresentGrows(s: State, s': State, topic: string, rec: Rec)
    requires Present(s, topic, rec) && Grows(s, s')
    ensures Present(s', topic, rec)
  {
    TopicPrefix(s.hist, s'.hist, topic);
  }

  lemma BackedGrows(s: State, s': State, d: string, rec: Rec, used: Usage)
    requires Backed(s, d, rec, used) && Grows(s, s')
    ensures Backed(s', d, rec, used)
  {
    hide Present, DedupKey, SeqKey, Grows;
    var t, p, q :| d == DedupKey(SeqKey(t, p), q) && Present(s, t, rec) && used(t, p);
    PresentGrows(s, s', t, rec);
  }

  /** What was stored or cached before a step stays logged. */
  lemma LoggedGrows(s: State, s': State, used: Usage)
    requires Logged(s, used) && Grows(s, s') && s'.calls == s.calls && s'.dedup == s.dedup
    ensures Logged(s', used)
  {
    hide Present, Backed, Grows;
    forall id | id in s.calls && s.calls[id].stored.Some?
      ensures Present(s', s.calls[id].topic, s.calls[id].stored.value)
    {
      PresentGrows(s, s', s.calls[id].topic, s.calls[id].stored.value);
    }
    forall d | d in s.dedup ensures Backed(s', d, s.dedup[d], used) {
      BackedGrows(s, s', d, s.dedup[d], used);
    }
  }

  lemma MadePresent(s: State, topic: string, body: Body, now: int64, origin: Origin, acked: bool)
    requires topic in s.topics
    ensures var rec := MakeRec(s, topic, body, now);
            Present(s.(hist := s.hist + [Event(topic, rec, origin, acked)]), topic, rec)
  {
    TopicAppend(s.hist, Event(topic, MakeRec(s, topic, body, now), origin, acked), topic);
  }

  /** Kept by every step of every interleaving. */
  lemma LoggedStep(s: State, step: Step, used: Usage)
    requires Logged(s, used) && (step.IdemCheck? ==> used(step.topic, step.producer))
    ensures Logged(Next(s, step), used)
  {
    hide Present, Backed, Logged, Grows;
    if step.IdemAppend? {
      LoggedAppend(s, step.id, step.now, step.outcome, used);
    } else if step.IdemPublish? {
      LoggedPublish(s, step.id, used);
    } else if step.IdemCheck? {
      LoggedCheck(s, step, used);
    } else {
      OtherStep(s, step);
      StepGrows(s, step);
      LoggedGrows(s, Next(s, step), used);
    }
  }

  lemma LoggedCheck(s: State, step: Step, used: Usage)
    requires Logged(s, used) && step.IdemCheck? && used(step.topic, step.producer)
    ensures Logged(Next(s, step), used)
  {
    hide DedupKey, SeqKey, Check, Present, Backed;
    var s' := Next(s, step);
    var t := s.(calls := s'.calls);
    assert s' == t;
    assert forall d :: d in s.dedup ==> Backed(s', d, s.dedup[d], used) by {
      SameLog(s, s', used);
    }
    assert forall id :: id in s.calls && s.calls[id].stored.Some? ==>
      Present(s', s.calls[id].topic, s.calls[id].stored.value) by {
      SameLog(s, s', used);
    }
  }

  /** Being logged depends on the topics and the history alone. */
  lemma SameLog(s: State, s': State, used: Usage)
    requires s'.topics == s.topics && s'.hist == s.hist
    ensures forall t, rec :: Present(s, t, rec) <==> Present(s', t, rec)
    ensures forall d, rec :: Backed(s, d, rec, used) <==> Backed(s', d, rec, used)
  {
    assert forall t, rec :: Present(s, t, rec) <==> Present(s', t, rec);
    hide Present, DedupKey, SeqKey;
  }

  lemma LoggedAppend(s: State, id: nat, now: int64, outcome: Outcome, used: Usage)
    requires Logged(s, used)
    ensures Logged(DoIdemAppend(s, id, now, outcome), used)
  {
    hide Present, Backed, Grows, DoIdemAppend;
    var s' := DoIdemAppend(s, id, now, outcome);
    var mid := s'.(calls := s.calls);
    StepGrows(s, IdemAppend(id, now, outcome));
    SameGrowth(s, s', mid);
    CallsAfterAppend(s, id, now, outcome);
    LoggedGrows(s, mid, used);
    SameLog(mid, s', used);
    StoredPresent(s, id, now, outcome);
  }

  /** What an append does to the calls; the cache stays as it is. */
  lemma CallsAfterAppend(s: State, id: nat, now: int64, outcome: Outcome)
    ensures var s' := DoIdemAppend(s, id, now, outcome);
            && s'.dedup == s.dedup && s'.topics == s.topics
            && (forall i :: i != id ==> (i in s'.calls <==> i in s.calls))
            && (forall i :: i != id && i in s.calls ==> s'.calls[i] == s.calls[i])
            && (id !in s.calls || s.calls[id].stored.Some? ==> s' == s)
            && (id in s.calls && s.calls[id].stored.None? ==>
                  && (id in s'.calls <==> outcome.Stored? && s.calls[id].topic in s.topics)
                  && (id in s'.calls ==>
                        var c := s.calls[id];
                        s'.calls[id] == c.(stored := Some(MakeRec(s, c.topic, c.body, now)))))
  {
    hide SeqKey, MakeRec;
  }

  lemma SameGrowth(s: State, s': State, t: State)
    requires Grows(s, s') && t.topics == s'.topics && t.hist == s'.hist
    ensures Grows(s, t)
  {
  }

  lemma StoredPresent(s: State, id: nat, now: int64, outcome: Outcome)
    ensures var s' := DoIdemAppend(s, id, now, outcome);
            id in s.calls && s.calls[id].stored.None? && id in s'.calls && s'.calls[id].stored.Some? ==>
              Present(s', s.calls[id].topic, s'.calls[id].stored.value)
  {
    hide MakeRec, SeqKey, Present;
    var s' := DoIdemAppend(s, id, now, outcome);
    if id in s.calls && s.calls[id].stored.None? && id in s'.calls && s'.calls[id].stored.Some? {
      var c := s.calls[id];
      var origin := Idempotent(SeqKey(c.topic, c.producer), c.seqNo);
      MadePresent(s, c.topic, c.body, now, origin, true);
      SameLog(s.(hist := s'.hist), s', (t, p) => true);
    }
  }

  lemma LoggedPublish(s: State, id: nat, used: Usage)
    requires Logged(s, used)
    ensures Logged(DoPublish(s, id), used)
  {
    hide Present, DedupKey, SeqKey;
    if id in s.calls && s.calls[id].stored.Some? {
      var c := s.calls[id];
      assert Backed(s, DedupKey(SeqKey(c.topic, c.producer), c.seqNo), c.stored.value, used);
      SameLog(s, DoPublish(s, id), used);
      hide Backed;
    }
  }

  ghost predicate Keeping(steps: seq<Step>, used: Usage) {
    forall step :: step in steps && step.IdemCheck? ==> used(step.topic, step.producer)
  }

  /** In every reachable state every cached record is in the log of a topic that
      a caller named with this key, at its own offset. */
  lemma {:induction false} CachedRecordsAreLogged(steps: seq<Step>, used: Usage)
    requires Keeping(steps, used)
    ensures Logged(Run(Initial(), steps), used)
  {
    hide Next;
    if steps != [] {
      assert steps[|steps| - 1] in steps;
      CachedRecordsAreLogged(steps[..|steps| - 1], used);
      LoggedStep(Run(Initial(), steps[..|steps| - 1]), steps[|steps| - 1], used);
    }
  }

  /** Calls of the run that share a sequence key with this topic and producer
      name this topic. */
  predicate OwnKey(topic: string, producer: string, t: string, p: string) {
    SeqKey(t, p) == SeqKey(topic, producer) ==> t == topic
  }

  /** Unless the run has a call on another topic with the same key, the record a
      call is answered with from the cache is in the log of the topic it names. */
  lemma CachedAnswerIsOwn(steps: seq<Step>, topic: string, producer: string, q: int)
    requires Keeping(steps, (t, p) => OwnKey(topic, producer, t, p))
    requires Check(Run(Initial(), steps), topic, producer, q).Cached?
    ensures Present(Run(Initial(), steps), topic, Check(Run(Initial(), steps), topic, producer, q).rec)
  {
    var used: Usage := (t, p) => OwnKey(topic, producer, t, p);
    CachedRecordsAreLogged(steps, used);
    hide Present, SeqKey, DedupKey, Run;
    var s := Run(Initial(), steps);
    var d := DedupKey(SeqKey(topic, producer), q);
    assert Backed(s, d, s.dedup[d], used);
    var t, p, q' :| d == DedupKey(SeqKey(t, p), q') && Present(s, t, s.dedup[d]) && used(t, p);
    DedupInjective(SeqKey(topic, producer), q, SeqKey(t, p), q');
  }

  /** One call on t, published. */
  function OneCall(t: string, p: string, q: int, body: Body, now: int64): seq<Step> {
    [CreateTopic(t, 0), IdemCheck(0, t, p, q, body), IdemAppend(0, now, Stored), IdemPublish(0)]
  }

  lemma OneCallRun(t: string, p: string, q: int, body: Body, now: int64)
    requires p != ""
    ensures var s := Run(Initial(), OneCall(t, p, q, body, now));
            && s.hist == [Event(t, Rec(body, now, 0), Idempotent(SeqKey(t, p), q), true)]
            && s.dedup == map[DedupKey(SeqKey(t, p), q) := Rec(body, now, 0)]
  {
    hide SeqKey, DedupKey;
    var steps := OneCall(t, p, q, body, now);
    var s1, s2, s3 := Next(Initial(), steps[0]), Initial(), Initial();
    s2 := Next(s1, steps[1]);
    s3 := Next(s2, steps[2]);
    assert steps[..1] == [steps[0]] && steps[..0] == [];
    assert steps[..2][..1] == steps[..1] && steps[..3][..2] == steps[..2] && steps[..4] == steps;
    assert Run(Initial(), steps[..0]) == Initial();
    assert Run(Initial(), steps[..1]) == s1;
    assert Run(Initial(), steps[..2]) == s2;
    assert Run(Initial(), steps[..3]) == s3;
    assert s3.hist == [Event(t, Rec(body, now, 0), Idempotent(SeqKey(t, p), q), true)];
  }

  /** A run whose calls all name t, after which a call on t' is answered with a
      record of t. */
  ghost predicate Crosses(t: string, t': string, steps: seq<Step>, p': string, q: int) {
    && Keeping(steps, (u, p) => u == t && p != "")
    && p' != "" && Check(Run(Initial(), steps), t', p', q).Cached?
  }

  /** A call on one topic can be answered with a record of another exactly when
      one of the names, with a bar, begins the other. */
  lemma AnswersCrossIff(t: string, t': string)
    requires t != t'
    ensures (exists steps, p', q :: Crosses(t, t', steps, p', q)) <==> t + "|" <= t' + "|" || t' + "|" <= t + "|"
  {
    forall steps, p', q | Crosses(t, t', steps, p', q) ensures t + "|" <= t' + "|" || t' + "|" <= t + "|" {
      CrossingKeys(t, t', steps, p', q);
      KeysCollide(t, t');
    }
    if t + "|" <= t' + "|" || t' + "|" <= t + "|" {
      KeysCollide(t, t');
      var p, p' :| p != "" && p' != "" && SeqKey(t, p) == SeqKey(t', p');
      WrongTopicAnswer(t, p, t', p', 1, Body([], [], map[]), 0);
    }
  }

  lemma CrossingKeys(t: string, t': string, steps: seq<Step>, p': string, q: int)
    requires Crosses(t, t', steps, p', q)
    ensures exists p :: p != "" && p' != "" && SeqKey(t, p) == SeqKey(t', p')
  {
    var used: Usage := (u, p) => u == t && p != "";
    CachedRecordsAreLogged(steps, used);
    hide Present, SeqKey, DedupKey, Run;
    var s := Run(Initial(), steps);
    var d := DedupKey(SeqKey(t', p'), q);
    assert Backed(s, d, s.dedup[d], used);
    var u, p, q' :| d == DedupKey(SeqKey(u, p), q') && Present(s, u, s.dedup[d]) && used(u, p);
    DedupInjective(SeqKey(t', p'), q, SeqKey(u, p), q');
  }

  /** Such a run: one call on t, then a call on t' with a key that collides. The
      answer is the record of t, while t' has none. */
  lemma WrongTopicAnswer(t: string, p: string, t': string, p': string, q: int, body: Body, now: int64)
    requires t != t' && p != "" && p' != "" && SeqKey(t, p) == SeqKey(t', p')
    ensures var steps := OneCall(t, p, q, body, now);
            var s := Run(Initial(), steps);
            && Crosses(t, t', steps, p', q)
            && Check(s, t', p', q) == Cached(Rec(body, now, 0))
            && TopicLog(s.hist, t) == [Rec(body, now, 0)] && TopicLog(s.hist, t') == []
  {
    OneCallRun(t, p, q, body, now);
    hide SeqKey, DedupKey, Run;
    var e := Event(t, Rec(body, now, 0), Idempotent(SeqKey(t, p), q), true);
    assert [e] == [] + [e];
    TopicAppend([], e, t);
    TopicAppend([], e, t');
  }

  // ---------- the stored last sequence ----------

  function Last(s: State, key: string): int {
    if key in s.producerSeq then s.producerSeq[key] else 0
  }

  /** The stored last sequence is the greatest of the cached positive ones. */
  ghost predicate LastIsMax(s: State) {
    && (forall k :: k in s.producerSeq ==> s.producerSeq[k] > 0 && DedupKey(k, s.producerSeq[k]) in s.dedup)
    && (forall k, q :: DedupKey(k, q) in s.dedup ==> q <= Last(s, k))
  }

  lemma LastStep(s: State, step: Step)
    requires LastIsMax(s)
    ensures LastIsMax(Next(s, step))
  {
    hide DedupKey, SeqKey, MakeRec, Check;
    if step.IdemPublish? {
      LastPublish(s, step.id);
    } else if !step.IdemCheck? && !step.IdemAppend? {
      OtherStep(s, step);
    }
  }

  lemma LastPublish(s: State, id: nat)
    requires LastIsMax(s)
    ensures LastIsMax(DoPublish(s, id))
  {
    hide DedupKey, SeqKey;
    if id in s.calls && s.calls[id].stored.Some? {
      var c := s.calls[id];
      var key := SeqKey(c.topic, c.producer);
      var s' := DoPublish(s, id);
      forall k, q | DedupKey(k, q) in s'.dedup ensures q <= Last(s', k) {
        if DedupKey(k, q) == DedupKey(key, c.seqNo) {
          DedupInjective(k, q, key, c.seqNo);
        } else {
          assert q <= Last(s, k);
        }
      }
    }
  }

  /** Over every interleaving, with no assumption on the callers. */
  lemma {:induction false} LastSequenceIsMax(steps: seq<Step>)
    ensures LastIsMax(Run(Initial(), steps))
  {
    if steps != [] {
      LastSequenceIsMax(steps[..|steps| - 1]);
      LastStep(Run(Initial(), steps[..|steps| - 1]), steps[|steps| - 1]);
    }
  }

  // ---------- at most once ----------

  /** The call is for this number of this key. */
  predicate IsFor(c: Call, key: string, q: int) {
    KeyOf(c) == key && c.seqNo == q
  }

  /** Two calls in flight for one number of one key, and j has not stored its record yet. */
  predicate Twins(s: State, i: nat, j: nat, key: string, q: int) {
    && i != j && i in s.calls && j in s.calls
    && IsFor(s.calls[i], key, q) && IsFor(s.calls[j], key, q)
    && s.calls[j].stored.None?
  }

  ghost predicate NoTwins(s: State, key: string, q: int) {
    forall i, j :: !Twins(s, i, j, key, q)
  }

  lemma NoTwinOf(s: State, j: nat, key: string, q: int)
    requires NoTwins(s, key, q)
    ensures forall i :: i in s.calls && i != j && j in s.calls && IsFor(s.calls[i], key, q) && IsFor(s.calls[j], key, q)
              ==> s.calls[i].stored.Some? && s.calls[j].stored.Some?
  {
    forall i | i in s.calls && i != j && j in s.calls && IsFor(s.calls[i], key, q) && IsFor(s.calls[j], key, q)
      ensures s.calls[i].stored.Some? && s.calls[j].stored.Some?
    {
      assert !Twins(s, i, j, key, q) && !Twins(s, j, i, key, q);
    }
  }

  /** No two calls for this number ever overlap while one of them still waits. */
  ghost predicate TwinFree(steps: seq<Step>, key: string, q: int) {
    forall n :: 0 <= n <= |steps| ==> NoTwins(Run(Initial(), steps[..n]), key, q)
  }

  predicate InFlightAt(s: State, id: nat, key: string, q: int) {
    id in s.calls && IsFor(s.calls[id], key, q) && s.calls[id].stored.Some?
  }

  /** Some call has stored the record of this number and not yet cached it. */
  ghost predicate StoredInFlight(s: State, key: string, q: int) {
    exists id :: InFlightAt(s, id, key, q)
  }

  /** How often the sequence number was acknowledged in the log. */
  ghost function Times(s: State, key: string, q: int): nat {
    multiset(AckedSeqs(s.hist, key))[q]
  }

  /** Exactly once while cached or about to be cached, never otherwise. */
  ghost predicate CountedOnce(s: State, key: string, q: int) {
    Times(s, key, q) == if DedupKey(key, q) in s.dedup || StoredInFlight(s, key, q) then 1 else 0
  }

  /** While a call for the number is in flight, it is not cached, nor stored by another call. */
  ghost predicate OnceCalls(s: State, key: string, q: int) {
    && (forall i, j :: InFlightAt(s, i, key, q) && InFlightAt(s, j, key, q) ==> i == j)
    && (forall id :: id in s.calls && IsFor(s.calls[id], key, q) ==> DedupKey(key, q) !in s.dedup)
  }

  ghost predicate Once(s: State, key: string, q: int) {
    OnceCalls(s, key, q) && CountedOnce(s, key, q)
  }

  lemma OnceCheck(s: State, id: nat, topic: string, producer: string, seqNo: int, body: Body, k: string, q: int)
    requires Once(s, k, q)
    ensures Once(DoCheck(s, id, topic, producer, seqNo, body), k, q)
  {
    hide DedupKey, SeqKey;
    var s' := DoCheck(s, id, topic, producer, seqNo, body);
    assert forall i :: InFlightAt(s', i, k, q) <==> InFlightAt(s, i, k, q);
  }

  lemma OnceAppend(s: State, id: nat, now: int64, outcome: Outcome, k: string, q: int)
    requires Once(s, k, q) && NoTwins(s, k, q)
    ensures Once(DoIdemAppend(s, id, now, outcome), k, q)
  {
    hide DedupKey, KeyOf, Times, StoredInFlight, DoIdemAppend, InFlightAt;
    TimesAfterAppend(s, id, now, outcome, k, q);
    InFlightAfterAppend(s, id, now, outcome, k, q);
    OnceCallsAppend(s, id, now, outcome, k, q);
  }

  lemma OnceCallsAppend(s: State, id: nat, now: int64, outcome: Outcome, k: string, q: int)
    requires OnceCalls(s, k, q) && NoTwins(s, k, q)
    ensures var s' := DoIdemAppend(s, id, now, outcome);
            && OnceCalls(s', k, q) && s'.dedup == s.dedup
            && (Acknowledges(s, id, outcome, k, q) ==> !StoredInFlight(s, k, q) && DedupKey(k, q) !in s.dedup)
  {
    hide DedupKey, SeqKey, MakeRec;
    NoTwinOf(s, id, k, q);
    forall i ensures InFlightAt(DoIdemAppend(s, id, now, outcome), i, k, q) <==>
                     InFlightAt(s, i, k, q) || (i == id && Acknowledges(s, id, outcome, k, q))
    {
      InFlightPoint(s, id, now, outcome, k, q, i);
    }
  }

  /** Whether the append stores and acknowledges the record of this key and number. */
  ghost predicate Acknowledges(s: State, id: nat, outcome: Outcome, k: string, q: int) {
    && id in s.calls && s.calls[id].stored.None? && outcome.Stored? && s.calls[id].topic in s.topics
    && IsFor(s.calls[id], k, q)
  }

  lemma TimesAfterAppend(s: State, id: nat, now: int64, outcome: Outcome, k: string, q: int)
    ensures Times(DoIdemAppend(s, id, now, outcome), k, q) ==
            Times(s, k, q) + if Acknowledges(s, id, outcome, k, q) then 1 else 0
  {
    hide AckedSeqs, DoIdemAppend, KeyOf;
    AckedAfterAppend(s, id, now, outcome, k);
  }

  lemma InFlightAfterAppend(s: State, id: nat, now: int64, outcome: Outcome, k: string, q: int)
    ensures StoredInFlight(DoIdemAppend(s, id, now, outcome), k, q) <==>
            StoredInFlight(s, k, q) || Acknowledges(s, id, outcome, k, q)
  {
    var s' := DoIdemAppend(s, id, now, outcome);
    forall i
      ensures InFlightAt(s', i, k, q) <==> InFlightAt(s, i, k, q) || (i == id && Acknowledges(s, id, outcome, k, q))
    {
      InFlightPoint(s, id, now, outcome, k, q, i);
    }
    hide InFlightAt, Acknowledges, DoIdemAppend;
    InFlightPoint(s, id, now, outcome, k, q, id);
    assert forall i :: InFlightAt(s, i, k, q) ==> InFlightAt(s', i, k, q);
  }

  lemma InFlightPoint(s: State, id: nat, now: int64, outcome: Outcome, k: string, q: int, i: nat)
    ensures InFlightAt(DoIdemAppend(s, id, now, outcome), i, k, q) <==>
            InFlightAt(s, i, k, q) || (i == id && Acknowledges(s, id, outcome, k, q))
  {
    hide SeqKey, MakeRec, DoIdemAppend;
    CallsAfterAppend(s, id, now, outcome);
  }

  lemma OncePublish(s: State, id: nat, k: string, q: int)
    requires Once(s, k, q) && NoTwins(s, k, q)
    ensures Once(DoPublish(s, id), k, q)
  {
    hide DedupKey, SeqKey, AckedSeqs;
    var s' := DoPublish(s, id);
    NoTwinOf(s, id, k, q);
    if s' != s {
      var c := s.calls[id];
      if DedupKey(k, q) == DedupKey(KeyOf(c), c.seqNo) {
        DedupInjective(k, q, KeyOf(c), c.seqNo);
        assert InFlightAt(s, id, k, q);
        forall i | i in s'.calls ensures !IsFor(s'.calls[i], k, q) {
          assert s'.calls[i] == s.calls[i] && i != id;
          assert IsFor(s.calls[i], k, q) ==> InFlightAt(s, i, k, q);
        }
      } else {
        assert forall i :: InFlightAt(s', i, k, q) <==> InFlightAt(s, i, k, q);
      }
    }
  }

  lemma OnceOther(s: State, step: Step, k: string, q: int)
    requires Once(s, k, q) && !step.IdemCheck? && !step.IdemAppend? && !step.IdemPublish?
    ensures Once(Next(s, step), k, q)
  {
    OtherStep(s, step);
    OtherAcked(s, step, k);
    hide Next, DedupKey, KeyOf;
    assert forall i :: InFlightAt(Next(s, step), i, k, q) <==> InFlightAt(s, i, k, q);
  }

  lemma OnceStep(s: State, step: Step, k: string, q: int)
    requires Once(s, k, q) && NoTwins(s, k, q)
    ensures Once(Next(s, step), k, q)
  {
    hide Once, NoTwins, DoCheck, DoIdemAppend, DoPublish;
    match step
    case IdemCheck(id, topic, producer, seqNo, body) => OnceCheck(s, id, topic, producer, seqNo, body, k, q);
    case IdemAppend(id, now, outcome) => OnceAppend(s, id, now, outcome, k, q);
    case IdemPublish(id) => OncePublish(s, id, k, q);
    case _ => OnceOther(s, step, k, q);
  }

  lemma InitialOnce(k: string, q: int)
    ensures Once(Initial(), k, q)
  {
  }

  lemma {:induction false} OnceRun(steps: seq<Step>, k: string, q: int)
    requires TwinFree(steps, k, q)
    ensures Once(Run(Initial(), steps), k, q)
  {
    hide Once, NoTwins, Next;
    if steps == [] {
      InitialOnce(k, q);
    } else {
      var front := steps[..|steps| - 1];
      TwinFreePrefix(steps, |steps| - 1, k, q);
      OnceRun(front, k, q);
      OnceStep(Run(Initial(), front), steps[|steps| - 1], k, q);
    }
  }

  lemma TwinFreePrefix(steps: seq<Step>, m: nat, k: string, q: int)
    requires TwinFree(steps, k, q) && m <= |steps|
    ensures TwinFree(steps[..m], k, q) && NoTwins(Run(Initial(), steps[..m]), k, q)
  {
    hide NoTwins, Run;
    forall n | 0 <= n <= m ensures NoTwins(Run(Initial(), steps[..m][..n]), k, q) {
      assert steps[..m][..n] == steps[..n];
    }
  }

  /** As long as no two calls for this number overlap, whatever other callers do,
      it is acknowledged in the log at most once in any interleaving: exactly once
      if it is cached or about to be, and not at all otherwise. */
  lemma AtMostOnce(steps: seq<Step>, key: string, q: int)
    requires TwinFree(steps, key, q)
    ensures var s := Run(Initial(), steps);
            && Times(s, key, q) <= 1
            && (Times(s, key, q) == 1 <==> DedupKey(key, q) in s.dedup || StoredInFlight(s, key, q))
  {
    OnceRun(steps, key, q);
    hide Run, Times, StoredInFlight;
  }

  // ---------- overlapping calls decide it ----------

  /** Steps that finish calls in flight and start none. */
  ghost predicate Finishing(steps: seq<Step>) {
    forall step :: step in steps ==> !step.IdemCheck?
  }

  /** However the calls now in flight are finished, the number is not acknowledged twice. */
  ghost predicate Harmless(s: State, key: string, q: int) {
    forall finish :: Finishing(finish) ==> Times(Run(s, finish), key, q) <= 1
  }

  /** Without a new call, calls only disappear or get stored. */
  lemma CallsShrink(s: State, step: Step, i: nat)
    requires !step.IdemCheck? && i in Next(s, step).calls
    ensures i in s.calls && KeyOf(Next(s, step).calls[i]) == KeyOf(s.calls[i])
    ensures Next(s, step).calls[i].seqNo == s.calls[i].seqNo
    ensures Next(s, step).calls[i].stored.None? ==> s.calls[i].stored.None?
  {
    hide DedupKey, SeqKey, MakeRec, DoIdemAppend;
    if step.IdemAppend? {
      CallsAfterAppend(s, step.id, step.now, step.outcome);
    } else if !step.IdemPublish? {
      OtherStep(s, step);
    }
    hide DoCreate, DoPlain, DoBegin, DoStage, DoAbort, DoCommitStart, DoCommitCreate, DoCommitAppend, DoCommitFinish;
  }

  lemma TwinsBack(s: State, step: Step, i: nat, j: nat, k: string, q: int)
    requires !step.IdemCheck?
    ensures Twins(Next(s, step), i, j, k, q) ==> Twins(s, i, j, k, q)
  {
    hide Next, KeyOf;
    if Twins(Next(s, step), i, j, k, q) {
      CallsShrink(s, step, i);
      CallsShrink(s, step, j);
    }
  }

  lemma NoTwinsStep(s: State, step: Step, k: string, q: int)
    requires NoTwins(s, k, q) && !step.IdemCheck?
    ensures NoTwins(Next(s, step), k, q)
  {
    hide Next, Twins;
    forall i, j ensures !Twins(Next(s, step), i, j, k, q) {
      TwinsBack(s, step, i, j, k, q);
    }
  }

  lemma {:induction false} FinishingOnce(s: State, finish: seq<Step>, k: string, q: int)
    requires Once(s, k, q) && NoTwins(s, k, q) && Finishing(finish)
    ensures Once(Run(s, finish), k, q) && NoTwins(Run(s, finish), k, q)
  {
    hide Once, NoTwins, Next;
    if finish != [] {
      var front := finish[..|finish| - 1];
      assert finish[|finish| - 1] in finish;
      FinishingOnce(s, front, k, q);
      OnceStep(Run(s, front), finish[|finish| - 1], k, q);
      NoTwinsStep(Run(s, front), finish[|finish| - 1], k, q);
    }
  }

  /** A record in flight has been acknowledged, whatever the callers do. */
  ghost predicate FlightCounted(s: State) {
    forall id :: id in s.calls && s.calls[id].stored.Some? ==> Times(s, KeyOf(s.calls[id]), s.calls[id].seqNo) >= 1
  }

  lemma FlightStep(s: State, step: Step)
    requires FlightCounted(s)
    ensures FlightCounted(Next(s, step))
  {
    hide Next, KeyOf, Times;
    var s' := Next(s, step);
    forall id | id in s'.calls && s'.calls[id].stored.Some?
      ensures Times(s', KeyOf(s'.calls[id]), s'.calls[id].seqNo) >= 1
    {
      FlightAt(s, step, id);
    }
  }

  lemma FlightAt(s: State, step: Step, id: nat)
    requires FlightCounted(s)
    requires id in Next(s, step).calls && Next(s, step).calls[id].stored.Some?
    ensures Times(Next(s, step), KeyOf(Next(s, step).calls[id]), Next(s, step).calls[id].seqNo) >= 1
  {
    hide SeqKey, DedupKey, MakeRec, Times, DoIdemAppend;
    var s' := Next(s, step);
    var key, q := KeyOf(s'.calls[id]), s'.calls[id].seqNo;
    if step.IdemAppend? {
      TimesAfterAppend(s, step.id, step.now, step.outcome, key, q);
      CallsAfterAppend(s, step.id, step.now, step.outcome);
    } else {
      TimesKept(s, step, key, q);
      if !step.IdemCheck? && !step.IdemPublish? {
        OtherStep(s, step);
      }
    }
    hide DoCreate, DoPlain, DoBegin, DoStage, DoAbort, DoCommitStart, DoCommitCreate, DoCommitAppend, DoCommitFinish;
  }

  lemma TimesKept(s: State, step: Step, key: string, q: int)
    requires !step.IdemAppend?
    ensures Times(Next(s, step), key, q) == Times(s, key, q)
  {
    hide SeqKey, DedupKey, MakeRec;
    if !step.IdemCheck? && !step.IdemPublish? {
      OtherAcked(s, step, key);
    }
  }

  lemma {:induction false} FlightRun(steps: seq<Step>)
    ensures FlightCounted(Run(Initial(), steps))
  {
    if steps != [] {
      FlightRun(steps[..|steps| - 1]);
      FlightStep(Run(Initial(), steps[..|steps| - 1]), steps[|steps| - 1]);
    }
  }

  lemma RunOne(s: State, steps: seq<Step>, step: Step)
    ensures Run(s, steps + [step]) == Next(Run(s, steps), step)
  {
    assert (steps + [step])[..|steps|] == steps;
  }

  /** A waiting call on an existing topic that gets its record stored. */
  lemma StoreCall(s: State, id: nat, now: int64)
    requires id in s.calls && s.calls[id].stored.None? && s.calls[id].topic in s.topics
    ensures var s', c := DoIdemAppend(s, id, now, Stored), s.calls[id];
            && Times(s', KeyOf(c), c.seqNo) == Times(s, KeyOf(c), c.seqNo) + 1
            && s'.topics == s.topics
            && forall j :: j != id && j in s.calls ==> j in s'.calls && s'.calls[j] == s.calls[j]
  {
    hide Times, DoIdemAppend, KeyOf;
    var c := s.calls[id];
    TimesAfterAppend(s, id, now, Stored, KeyOf(c), c.seqNo);
    CallsAfterAppend(s, id, now, Stored);
  }

  /** The topics of two calls, made to exist. */
  function BothTopics(c: Call, d: Call): seq<Step> {
    [CreateTopic(c.topic, 0)] + [CreateTopic(d.topic, 0)]
  }

  lemma BothTopicsRun(s: State, c: Call, d: Call)
    ensures var s0 := Run(s, BothTopics(c, d));
            && s0 == s.(topics := s0.topics) && c.topic in s0.topics && d.topic in s0.topics
  {
    hide Next, Run, DoCreate;
    RunFirst(s, CreateTopic(c.topic, 0));
    RunOne(s, [CreateTopic(c.topic, 0)], CreateTopic(d.topic, 0));
    Created(s, c.topic);
    Created(Next(s, CreateTopic(c.topic, 0)), d.topic);
  }

  lemma RunFirst(s: State, step: Step)
    ensures Run(s, [step]) == Next(s, step)
  {
    hide Next;
    assert [step][..0] == [];
    assert Run(s, []) == s;
  }

  lemma Created(s: State, topic: string)
    ensures var s' := Next(s, CreateTopic(topic, 0));
            s' == s.(topics := s'.topics) && topic in s'.topics && forall t :: t in s.topics ==> t in s'.topics
  {
  }

  /** Twins can always be finished so that their number is acknowledged twice. */
  lemma TwinsDuplicate(s: State, i: nat, j: nat, key: string, q: int)
    requires Twins(s, i, j, key, q) && FlightCounted(s)
    ensures !Harmless(s, key, q)
  {
    hide SeqKey, Times, DoIdemAppend, BothTopics;
    var c, d := s.calls[i], s.calls[j];
    var topics := BothTopics(c, d);
    var s0 := Run(s, topics);
    BothTopicsRun(s, c, d);
    SameTimes(s, s0, key, q);
    OnlyTopics(c, d);
    if c.stored.None? {
      StoreCall(s0, i, 0);
      var s1 := DoIdemAppend(s0, i, 0, Stored);
      StoreCall(s1, j, 0);
      RunOne(s, topics, IdemAppend(i, 0, Stored));
      RunOne(s, topics + [IdemAppend(i, 0, Stored)], IdemAppend(j, 0, Stored));
      var finish := topics + [IdemAppend(i, 0, Stored)] + [IdemAppend(j, 0, Stored)];
      assert Finishing(finish) && Times(Run(s, finish), key, q) >= 2;
    } else {
      StoreCall(s0, j, 0);
      RunOne(s, topics, IdemAppend(j, 0, Stored));
      var finish := topics + [IdemAppend(j, 0, Stored)];
      assert Finishing(finish) && Times(Run(s, finish), key, q) >= 2;
    }
  }

  lemma OnlyTopics(c: Call, d: Call)
    ensures Finishing(BothTopics(c, d))
  {
  }

  lemma SameTimes(s: State, s0: State, key: string, q: int)
    requires s.hist == s0.hist
    ensures Times(s0, key, q) == Times(s, key, q)
  {
  }

  /** Over every run, for every number of every key: at no point can the calls in
      flight be finished so that it is acknowledged twice, if and only if no two
      calls for it are ever in flight together, one of them still waiting. */
  lemma AtMostOnceIff(steps: seq<Step>, key: string, q: int)
    ensures (forall n :: 0 <= n <= |steps| ==> Harmless(Run(Initial(), steps[..n]), key, q))
            <==> TwinFree(steps, key, q)
  {
    hide Run, Harmless, NoTwins;
    if TwinFree(steps, key, q) {
      forall n | 0 <= n <= |steps| ensures Harmless(Run(Initial(), steps[..n]), key, q) {
        TwinFreeHarmless(steps, n, key, q);
      }
    } else {
      var n :| 0 <= n <= |steps| && !NoTwins(Run(Initial(), steps[..n]), key, q);
      TwinnedHarmful(steps[..n], key, q);
    }
  }

  lemma TwinFreeHarmless(steps: seq<Step>, n: nat, key: string, q: int)
    requires TwinFree(steps, key, q) && n <= |steps|
    ensures Harmless(Run(Initial(), steps[..n]), key, q)
  {
    hide Run, NoTwins, OnceCalls, Times;
    TwinFreePrefix(steps, n, key, q);
    OnceRun(steps[..n], key, q);
    var s := Run(Initial(), steps[..n]);
    forall finish | Finishing(finish) ensures Times(Run(s, finish), key, q) <= 1 {
      FinishingOnce(s, finish, key, q);
    }
  }

  lemma TwinnedHarmful(steps: seq<Step>, key: string, q: int)
    requires !NoTwins(Run(Initial(), steps), key, q)
    ensures !Harmless(Run(Initial(), steps), key, q)
  {
    hide Run, Harmless;
    var s := Run(Initial(), steps);
    var i, j :| Twins(s, i, j, key, q);
    FlightRun(steps);
    TwinsDuplicate(s, i, j, key, q);
  }

  predicate Names(c: Call, topic: string, producer: string, q: int) {
    c.topic == topic && c.producer == producer && c.seqNo == q
  }

  /** No two calls in flight with this topic, producer and number, one of them still waiting. */
  ghost predicate Distinct(s: State, topic: string, producer: string, q: int) {
    forall i, j :: i in s.calls && j in s.calls && i != j && s.calls[j].stored.None? ==>
      !(Names(s.calls[i], topic, producer, q) && Names(s.calls[j], topic, producer, q))
  }

  /** The same in the callers' terms, for topics without a bar. */
  lemma DistinctCallsAreTwinFree(steps: seq<Step>, topic: string, producer: string, q: int)
    requires Keeping(steps, (t, p) => '|' !in t) && '|' !in topic
    requires forall n :: 0 <= n <= |steps| ==> Distinct(Run(Initial(), steps[..n]), topic, producer, q)
    ensures TwinFree(steps, SeqKey(topic, producer), q)
  {
    hide Run, Logged, Distinct, SeqKey;
    var used: Usage := (t, p) => '|' !in t;
    forall n | 0 <= n <= |steps| ensures NoTwins(Run(Initial(), steps[..n]), SeqKey(topic, producer), q) {
      CachedRecordsAreLogged(steps[..n], used);
      DistinctNoTwins(Run(Initial(), steps[..n]), used, topic, producer, q);
    }
  }

  lemma DistinctNoTwins(s: State, used: Usage, topic: string, producer: string, q: int)
    requires Distinct(s, topic, producer, q) && Logged(s, used) && '|' !in topic
    requires forall t, p :: used(t, p) ==> '|' !in t
    ensures NoTwins(s, SeqKey(topic, producer), q)
  {
    hide SeqKey, Present, Backed;
    forall i, j ensures !Twins(s, i, j, SeqKey(topic, producer), q) {
      if Twins(s, i, j, SeqKey(topic, producer), q) {
        SeqKeyInjective(s.calls[i].topic, s.calls[i].producer, topic, producer);
        SeqKeyInjective(s.calls[j].topic, s.calls[j].producer, topic, producer);
      }
    }
  }

  // ---------- the cached answer ----------

  /** Every call in flight for this number holds the very record that is cached. */
  ghost predicate Settled(s: State, key: string, q: int) {
    var d := DedupKey(key, q);
    && d in s.dedup
    && forall id :: id in s.calls && IsFor(s.calls[id], key, q) ==> s.calls[id].stored == Some(s.dedup[d])
  }

  lemma SettledStep(s: State, step: Step, key: string, q: int)
    requires Settled(s, key, q)
    ensures var d := DedupKey(key, q);
            Settled(Next(s, step), key, q) && Next(s, step).dedup[d] == s.dedup[d]
  {
    hide SeqKey, DedupKey, MakeRec;
    if step.IdemPublish? {
      SettledPublish(s, step.id, key, q);
    } else if !step.IdemCheck? && !step.IdemAppend? {
      OtherStep(s, step);
    }
  }

  lemma SettledPublish(s: State, id: nat, key: string, q: int)
    requires Settled(s, key, q)
    ensures Settled(DoPublish(s, id), key, q) && DoPublish(s, id).dedup[DedupKey(key, q)] == s.dedup[DedupKey(key, q)]
  {
    hide SeqKey, DedupKey;
    if id in s.calls && s.calls[id].stored.Some? {
      var c := s.calls[id];
      if DedupKey(KeyOf(c), c.seqNo) == DedupKey(key, q) {
        DedupInjective(KeyOf(c), c.seqNo, key, q);
      }
    }
  }

  lemma {:induction false} SettledRun(s: State, more: seq<Step>, key: string, q: int)
    requires Settled(s, key, q)
    ensures Settled(Run(s, more), key, q) && Run(s, more).dedup[DedupKey(key, q)] == s.dedup[DedupKey(key, q)]
  {
    hide Settled, Next;
    if more != [] {
      SettledRun(s, more[..|more| - 1], key, q);
      SettledStep(Run(s, more[..|more| - 1]), more[|more| - 1], key, q);
    }
  }

  /** The answer to a cached number is the same whatever happens afterwards, if and
      only if every call for it still in flight holds the very record cached. */
  lemma SameAnswerIff(s: State, topic: string, producer: string, q: int)
    requires producer != "" && DedupKey(SeqKey(topic, producer), q) in s.dedup
    ensures (forall more :: Check(Run(s, more), topic, producer, q)
                            == Cached(s.dedup[DedupKey(SeqKey(topic, producer), q)]))
            <==> Settled(s, SeqKey(topic, producer), q)
  {
    hide SeqKey, DedupKey, Run;
    var key := SeqKey(topic, producer);
    var rec := s.dedup[DedupKey(key, q)];
    if Settled(s, key, q) {
      forall more ensures Check(Run(s, more), topic, producer, q) == Cached(rec) {
        SettledRun(s, more, key, q);
      }
    } else {
      var id :| id in s.calls && IsFor(s.calls[id], key, q) && s.calls[id].stored != Some(rec);
      AnswerChanges(s, id, key, q);
      var more := LastWord(s, id, rec);
      assert Check(Run(s, more), topic, producer, q) != Cached(rec);
    }
  }

  /** How a call in flight gets its own record cached, one that differs from rec. */
  function LastWord(s: State, id: nat, rec: Rec): seq<Step>
    requires id in s.calls
  {
    var now: int64 := if rec.timestamp == 0 then 1 else 0;
    if s.calls[id].stored.Some? then [IdemPublish(id)]
    else [CreateTopic(s.calls[id].topic, 0)] + [IdemAppend(id, now, Stored)] + [IdemPublish(id)]
  }

  lemma AnswerChanges(s: State, id: nat, key: string, q: int)
    requires DedupKey(key, q) in s.dedup && id in s.calls && IsFor(s.calls[id], key, q)
    requires s.calls[id].stored != Some(s.dedup[DedupKey(key, q)])
    ensures var rec := s.dedup[DedupKey(key, q)];
            var s' := Run(s, LastWord(s, id, rec));
            DedupKey(key, q) in s'.dedup && s'.dedup[DedupKey(key, q)] != rec
  {
    hide SeqKey, DedupKey;
    var rec := s.dedup[DedupKey(key, q)];
    var c := s.calls[id];
    if c.stored.Some? {
      RunFirst(s, IdemPublish(id));
    } else {
      var now: int64 := if rec.timestamp == 0 then 1 else 0;
      var make := CreateTopic(c.topic, 0);
      RunFirst(s, make);
      RunOne(s, [make], IdemAppend(id, now, Stored));
      RunOne(s, [make] + [IdemAppend(id, now, Stored)], IdemPublish(id));
      Republished(DoCreate(s, c.topic, 0), id, now, key, q);
    }
  }

  lemma Republished(s: State, id: nat, now: int64, key: string, q: int)
    requires id in s.calls && IsFor(s.calls[id], key, q) && s.calls[id].stored.None? && s.calls[id].topic in s.topics
    ensures var s' := DoPublish(DoIdemAppend(s, id, now, Stored), id);
            DedupKey(key, q) in s'.dedup && s'.dedup[DedupKey(key, q)].timestamp == now
  {
    hide SeqKey, DedupKey;
  }

  /** So once a number is cached and no call for it is in flight, every later call
      for it gets that record. */
  lemma SameAnswerForever(s: State, more: seq<Step>, topic: string, producer: string, q: int)
    requires producer != "" && DedupKey(SeqKey(topic, producer), q) in s.dedup
    requires forall id :: id in s.calls ==> !IsFor(s.calls[id], SeqKey(topic, producer), q)
    ensures Check(Run(s, more), topic, producer, q) == Cached(s.dedup[DedupKey(SeqKey(topic, producer), q)])
  {
    hide SeqKey, DedupKey, Run;
    SettledRun(s, more, SeqKey(topic, producer), q);
  }

  /** As it is after any run in which no two calls for the number overlapped: whatever
      callers do from then on, every call for it gets the record that is cached. */
  lemma CachedForGood(steps: seq<Step>, more: seq<Step>, topic: string, producer: string, q: int)
    requires TwinFree(steps, SeqKey(topic, producer), q) && producer != ""
    requires DedupKey(SeqKey(topic, producer), q) in Run(Initial(), steps).dedup
    ensures Check(Run(Run(Initial(), steps), more), topic, producer, q)
            == Cached(Run(Initial(), steps).dedup[DedupKey(SeqKey(topic, producer), q)])
  {
    hide SeqKey, DedupKey, Run, CountedOnce;
    OnceRun(steps, SeqKey(topic, producer), q);
    SameAnswerForever(Run(Initial(), steps), more, topic, producer, q);
  }

  // ---------- records Produce reported an error for ----------

  /** All sequence numbers stored for a key, acknowledged or not. */
  function StoredSeqs(hist: seq<Event>, key: string): seq<int> {
    if hist == [] then [] else
      var front := StoredSeqs(hist[..|hist| - 1], key);
      var e := hist[|hist| - 1];
      if StoredBy(e, key) then front + [e.origin.seqNo] else front
  }

  /** Those whose append stored the record and reported an error. */
  function OrphanSeqs(hist: seq<Event>, key: string): seq<int> {
    if hist == [] then [] else
      var front := OrphanSeqs(hist[..|hist| - 1], key);
      var e := hist[|hist| - 1];
      if StoredBy(e, key) && !e.acked then front + [e.origin.seqNo] else front
  }

  lemma {:induction false} StoredSplit(hist: seq<Event>, key: string, q: int)
    ensures multiset(StoredSeqs(hist, key))[q] ==
            multiset(AckedSeqs(hist, key))[q] + multiset(OrphanSeqs(hist, key))[q]
  {
    if hist != [] {
      StoredSplit(hist[..|hist| - 1], key, q);
    }
  }

  /** How many records a key and number have in the log: one if it is cached or
      about to be, and one more for each append that reported an error after
      storing its record. */
  lemma RecordsInLog(steps: seq<Step>, key: string, q: int)
    requires TwinFree(steps, key, q)
    ensures var s := Run(Initial(), steps);
            multiset(StoredSeqs(s.hist, key))[q] ==
            (if DedupKey(key, q) in s.dedup || StoredInFlight(s, key, q) then 1 else 0)
            + multiset(OrphanSeqs(s.hist, key))[q]
  {
    hide Run, StoredInFlight, StoredSeqs, OrphanSeqs, AckedSeqs, DedupKey;
    AtMostOnce(steps, key, q);
    StoredSplit(Run(Initial(), steps).hist, key, q);
  }

  lemma StoredAppend(hist: seq<Event>, e: Event, key: string)
    ensures StoredSeqs(hist + [e], key) ==
            StoredSeqs(hist, key) + (if StoredBy(e, key) then [e.origin.seqNo] else [])
  {
    assert (hist + [e])[..|hist|] == hist;
  }

  /** A retry after such an error stores the number a second time, in any state
      in which the check lets the number pass. */
  lemma RetryAfterError(s: State, id: nat, topic: string, producer: string, q: int, body: Body, now: int64)
    requires id !in s.calls && topic in s.topics && Check(s, topic, producer, q).Proceed?
    ensures var key := SeqKey(topic, producer);
            var s1 := DoIdemAppend(DoCheck(s, id, topic, producer, q, body), id, now, Orphaned);
            var s2 := DoIdemAppend(DoCheck(s1, id, topic, producer, q, body), id, now, Stored);
            StoredSeqs(s2.hist, key) == StoredSeqs(s.hist, key) + [q, q]
  {
    hide DoIdemAppend, DoCheck, StoredSeqs, Check;
    var key := SeqKey(topic, producer);
    var s1 := DoIdemAppend(DoCheck(s, id, topic, producer, q, body), id, now, Orphaned);
    OneTry(s, id, topic, producer, q, body, now, Orphaned);
    OneTry(s1, id, topic, producer, q, body, now, Stored);
    assert StoredSeqs(s.hist, key) + [q] + [q] == StoredSeqs(s.hist, key) + [q, q];
  }

  lemma OneTry(s: State, id: nat, topic: string, producer: string, q: int, body: Body, now: int64, outcome: Outcome)
    requires id !in s.calls && topic in s.topics && Check(s, topic, producer, q).Proceed? && !outcome.Refused?
    ensures var s' := DoIdemAppend(DoCheck(s, id, topic, producer, q, body), id, now, outcome);
            && StoredSeqs(s'.hist, SeqKey(topic, producer)) == StoredSeqs(s.hist, SeqKey(topic, producer)) + [q]
            && topic in s'.topics
            && (outcome.Orphaned? ==> id !in s'.calls && Check(s', topic, producer, q).Proceed?)
  {
    hide SeqKey, DedupKey, MakeRec, StoredSeqs;
    var s' := DoIdemAppend(DoCheck(s, id, topic, producer, q, body), id, now, outcome);
    StoredAppend(s.hist, s'.hist[|s.hist|], SeqKey(topic, producer));
  }

  // ---------- what an append acknowledges ----------

  function NewlyAcked(s: State, id: nat, outcome: Outcome, k: string): seq<int> {
    if id in s.calls && s.calls[id].stored.None? && outcome.Stored? && s.calls[id].topic in s.topics
       && k == KeyOf(s.calls[id])
    then [s.calls[id].seqNo] else []
  }

  lemma AckedAfterAppend(s: State, id: nat, now: int64, outcome: Outcome, k: string)
    ensures AckedSeqs(DoIdemAppend(s, id, now, outcome).hist, k) == AckedSeqs(s.hist, k) + NewlyAcked(s, id, outcome, k)
  {
    hide AckedSeqs, SeqKey, MakeRec;
    var s' := DoIdemAppend(s, id, now, outcome);
    if s'.hist != s.hist {
      AckedAppend(s.hist, s'.hist[|s.hist|], k);
    }
  }
}
