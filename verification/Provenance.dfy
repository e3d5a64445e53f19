/** Where records come from: everything in the history, and in the cache, is what some
    caller asked to be stored, under the topic, key and number the caller gave. */
module Provenance {
  import opened Bytes
  import opened Protocol
  import opened Storage
  import opened Idempotence

  ghost predicate PlainCall(steps: seq<Step>, topic: string, body: Body, now: int64) {
    exists outcome :: PlainProduce(topic, body, now, outcome) in steps
  }

  ghost predicate IdemCall(steps: seq<Step>, topic: string, body: Body, key: string, q: int) {
    exists id, producer :: IdemCheck(id, topic, producer, q, body) in steps && SeqKey(topic, producer) == key
  }

  /** Some caller asked for this record. */
  ghost predicate Requested(steps: seq<Step>, e: Event) {
    match e.origin
    case Plain => PlainCall(steps, e.topic, e.rec.body, e.rec.timestamp)
    case Idempotent(key, q) => IdemCall(steps, e.topic, e.rec.body, key, q)
    case Transactional(_) => true
  }

  ghost predicate CallRequested(s: State, steps: seq<Step>, id: nat) {
    id in s.calls ==>
      var c := s.calls[id];
      IdemCheck(id, c.topic, c.producer, c.seqNo, c.body) in steps
  }

  ghost predicate AllRequested(s: State, steps: seq<Step>) {
    && (forall id :: CallRequested(s, steps, id))
    && (forall i :: 0 <= i < |s.hist| ==> Requested(steps, s.hist[i]))
  }

  lemma StillRequested(front: seq<Step>, step: Step, e: Event)
    requires Requested(front, e)
    ensures Requested(front + [step], e)
  {
    hide SeqKey;
    var steps := front + [step];
    match e.origin
    case Plain =>
      var outcome :| PlainProduce(e.topic, e.rec.body, e.rec.timestamp, outcome) in front;
      assert PlainProduce(e.topic, e.rec.body, e.rec.timestamp, outcome) in steps;
    case Idempotent(key, q) =>
      var id, p :| IdemCheck(id, e.topic, p, q, e.rec.body) in front && SeqKey(e.topic, p) == key;
      assert IdemCheck(id, e.topic, p, q, e.rec.body) in steps;
    case Transactional(_) =>
  }

  lemma CallsStep(s: State, step: Step, id: nat)
    requires id in Next(s, step).calls
    ensures var c := Next(s, step).calls[id];
            || (id in s.calls && c == s.calls[id].(stored := c.stored))
            || step == IdemCheck(id, c.topic, c.producer, c.seqNo, c.body)
  {
    hide Next, DoIdemAppend;
    if step.IdemAppend? {
      CallsAfterAppend(s, step.id, step.now, step.outcome);
      assert Next(s, step) == DoIdemAppend(s, step.id, step.now, step.outcome) by { NextAppend(s, step); }
    } else if step.IdemCheck? || step.IdemPublish? {
      CheckedCalls(s, step, id);
    } else {
      OtherStep(s, step);
    }
  }

  lemma NextAppend(s: State, step: Step)
    requires step.IdemAppend?
    ensures Next(s, step) == DoIdemAppend(s, step.id, step.now, step.outcome)
  {
    hide DoIdemAppend;
  }

  lemma CheckedCalls(s: State, step: Step, id: nat)
    requires (step.IdemCheck? || step.IdemPublish?) && id in Next(s, step).calls
    ensures var c := Next(s, step).calls[id];
            || (id in s.calls && c == s.calls[id])
            || step == IdemCheck(id, c.topic, c.producer, c.seqNo, c.body)
  {
    hide Check, SeqKey, DedupKey;
  }

  lemma RequestedStep(s: State, front: seq<Step>, step: Step)
    requires AllRequested(s, front)
    ensures AllRequested(Next(s, step), front + [step])
  {
    hide Next, Requested, RequestOf, OriginOf;
    var s', steps := Next(s, step), front + [step];
    forall id ensures CallRequested(s', steps, id) {
      if id in s'.calls {
        CallsStep(s, step, id);
        assert CallRequested(s, front, id);
      }
    }
    HistStep(s, step);
    forall i | 0 <= i < |s'.hist| ensures Requested(steps, s'.hist[i]) {
      if i < |s.hist| {
        StillRequested(front, step, s.hist[i]);
      } else {
        NewRequested(s, front, step, s'.hist[i]);
      }
    }
  }

  /** The record a step adds was asked for. */
  lemma NewRequested(s: State, front: seq<Step>, step: Step, e: Event)
    requires AllRequested(s, front) && RequestOf(s, step).Some?
    requires var o := RequestOf(s, step).value;
             e.topic == o.topic && e.rec.body == o.body && e.rec.timestamp == o.now && e.origin == OriginOf(s, step)
    ensures Requested(front + [step], e)
  {
    hide SeqKey;
    var steps := front + [step];
    assert step in steps;
    if step.IdemAppend? {
      var c := s.calls[step.id];
      assert CallRequested(s, front, step.id);
      assert IdemCheck(step.id, c.topic, c.producer, c.seqNo, c.body) in steps;
    }
  }

  /** Over every interleaving, every record in the history carries the topic and the
      contents of a call: for a plain record its time as well, for an idempotent one
      its key and number. What transactions add is what callers staged. */
  lemma {:induction false} EverythingRequested(steps: seq<Step>)
    ensures AllRequested(Run(Initial(), steps), steps)
  {
    if steps != [] {
      var front, step := steps[..|steps| - 1], steps[|steps| - 1];
      EverythingRequested(front);
      hide AllRequested, Next;
      RequestedStep(Run(Initial(), front), front, step);
      assert steps == front + [step];
    }
  }

  // ---------- the cache ----------

  /** The record is in the history, acknowledged for this number of this key. */
  ghost predicate AckedFor(s: State, key: string, q: int, rec: Rec) {
    exists i :: 0 <= i < |s.hist| && s.hist[i].origin == Idempotent(key, q) && s.hist[i].acked && s.hist[i].rec == rec
  }

  ghost predicate OwnCall(s: State, id: nat) {
    id in s.calls && s.calls[id].stored.Some? ==>
      AckedFor(s, KeyOf(s.calls[id]), s.calls[id].seqNo, s.calls[id].stored.value)
  }

  ghost predicate OwnCached(s: State, key: string, q: int) {
    DedupKey(key, q) in s.dedup ==> AckedFor(s, key, q, s.dedup[DedupKey(key, q)])
  }

  ghost predicate AllOwn(s: State) {
    (forall id :: OwnCall(s, id)) && forall key, q :: OwnCached(s, key, q)
  }

  lemma StillAcked(s: State, s': State, key: string, q: int, rec: Rec)
    requires AckedFor(s, key, q, rec) && s.hist <= s'.hist
    ensures AckedFor(s', key, q, rec)
  {
    var i :| 0 <= i < |s.hist| && s.hist[i].origin == Idempotent(key, q) && s.hist[i].acked && s.hist[i].rec == rec;
    assert s'.hist[i] == s.hist[i];
  }

  lemma OwnAppend(s: State, id: nat, now: int64, outcome: Outcome)
    requires AllOwn(s)
    ensures AllOwn(DoIdemAppend(s, id, now, outcome))
  {
    hide DoIdemAppend, KeyOf, DedupKey, AckedFor;
    var s' := DoIdemAppend(s, id, now, outcome);
    CallsAfterAppend(s, id, now, outcome);
    AppendedEvent(s, id, now, outcome);
    forall i ensures OwnCall(s', i) {
      assert OwnCall(s, i);
      if i in s.calls && s.calls[i].stored.Some? {
        StillAcked(s, s', KeyOf(s.calls[i]), s.calls[i].seqNo, s.calls[i].stored.value);
      }
    }
    forall key, q ensures OwnCached(s', key, q) {
      assert OwnCached(s, key, q);
      if DedupKey(key, q) in s.dedup {
        StillAcked(s, s', key, q, s.dedup[DedupKey(key, q)]);
      }
    }
  }

  lemma AppendedEvent(s: State, id: nat, now: int64, outcome: Outcome)
    ensures var s' := DoIdemAppend(s, id, now, outcome);
            && s.hist <= s'.hist
            && (id in s.calls && s.calls[id].stored.None? && id in s'.calls && s'.calls[id].stored.Some? ==>
                  KeyOf(s'.calls[id]) == KeyOf(s.calls[id])
                  && AckedFor(s', KeyOf(s.calls[id]), s.calls[id].seqNo, s'.calls[id].stored.value))
  {
    hide MakeRec, SeqKey;
    var s' := DoIdemAppend(s, id, now, outcome);
    if id in s.calls && s.calls[id].stored.None? && id in s'.calls && s'.calls[id].stored.Some? {
      var i := |s.hist|;
      assert s'.hist[i].origin == Idempotent(KeyOf(s.calls[id]), s.calls[id].seqNo) && s'.hist[i].acked;
    }
  }

  lemma OwnPublish(s: State, id: nat)
    requires AllOwn(s)
    ensures AllOwn(DoPublish(s, id))
  {
    hide SeqKey, DedupKey;
    var s' := DoPublish(s, id);
    forall i ensures OwnCall(s', i) {
      assert OwnCall(s, i);
    }
    forall key, q ensures OwnCached(s', key, q) {
      assert OwnCached(s, key, q);
      if id in s.calls && s.calls[id].stored.Some? {
        var c := s.calls[id];
        assert OwnCall(s, id);
        if DedupKey(key, q) == DedupKey(KeyOf(c), c.seqNo) {
          DedupInjective(key, q, KeyOf(c), c.seqNo);
        }
      }
    }
  }

  lemma OwnOther(s: State, step: Step)
    requires AllOwn(s) && !step.IdemAppend? && !step.IdemPublish?
    ensures AllOwn(Next(s, step))
  {
    hide AckedFor, KeyOf, DedupKey;
    var s' := Next(s, step);
    KeptCalls(s, step);
    hide Next;
    forall i ensures OwnCall(s', i) {
      assert OwnCall(s, i);
      if i in s.calls && s.calls[i].stored.Some? {
        StillAcked(s, s', KeyOf(s.calls[i]), s.calls[i].seqNo, s.calls[i].stored.value);
      }
    }
    forall key, q ensures OwnCached(s', key, q) {
      assert OwnCached(s, key, q);
      if DedupKey(key, q) in s.dedup {
        StillAcked(s, s', key, q, s.dedup[DedupKey(key, q)]);
      }
    }
  }

  lemma KeptCalls(s: State, step: Step)
    requires !step.IdemAppend? && !step.IdemPublish?
    ensures var s' := Next(s, step);
            && s.hist <= s'.hist && s'.dedup == s.dedup
            && forall i :: i in s'.calls && s'.calls[i].stored.Some? ==> i in s.calls && s.calls[i] == s'.calls[i]
  {
    if step.IdemCheck? {
      hide Check;
    } else {
      hide Next;
      OtherStep(s, step);
    }
  }

  lemma OwnStep(s: State, step: Step)
    requires AllOwn(s)
    ensures AllOwn(Next(s, step))
  {
    hide AllOwn, DoIdemAppend, DoPublish;
    if step.IdemAppend? {
      OwnAppend(s, step.id, step.now, step.outcome);
    } else if step.IdemPublish? {
      OwnPublish(s, step.id);
    } else {
      hide Next;
      OwnOther(s, step);
    }
  }

  lemma {:induction false} OwnRun(steps: seq<Step>)
    ensures AllOwn(Run(Initial(), steps))
  {
    if steps == [] {
      NoneCached();
    } else {
      hide AllOwn, Next;
      OwnRun(steps[..|steps| - 1]);
      OwnStep(Run(Initial(), steps[..|steps| - 1]), steps[|steps| - 1]);
    }
  }

  lemma NoneCached()
    ensures AllOwn(Initial())
  {
  }

  /** Over every interleaving, the record cached for a number is one that was
      acknowledged for this very number, and its contents are those a caller gave with
      this number. */
  lemma CachedIsRequested(steps: seq<Step>, key: string, q: int)
    requires DedupKey(key, q) in Run(Initial(), steps).dedup
    ensures var s := Run(Initial(), steps);
            var rec := s.dedup[DedupKey(key, q)];
            && AckedFor(s, key, q, rec)
            && exists topic :: IdemCall(steps, topic, rec.body, key, q)
  {
    hide Run, DedupKey, IdemCall;
    var s := Run(Initial(), steps);
    OwnRun(steps);
    EverythingRequested(steps);
    assert OwnCached(s, key, q);
    var rec := s.dedup[DedupKey(key, q)];
    var i :| 0 <= i < |s.hist| && s.hist[i].origin == Idempotent(key, q) && s.hist[i].acked && s.hist[i].rec == rec;
    assert Requested(steps, s.hist[i]);
  }
}
