/** In which order the sequence numbers of a producer can be acknowledged. */
module Sequences {
  import opened Bytes
  import opened Protocol
  import opened Idempotence

  // ---------- which numbers are let through ----------

  /** x may follow q. */
  predicate Follows(q: int, x: int) {
    q != x && (q > 0 ==> q < x)
  }

  /** A number is acknowledged exactly if it is cached or about to be. */
  ghost predicate Sourced(s: State, key: string, q: int) {
    q in AckedSeqs(s.hist, key) <==> DedupKey(key, q) in s.dedup || StoredInFlight(s, key, q)
  }

  lemma SourcedCheck(s: State, id: nat, topic: string, producer: string, seqNo: int, body: Body, k: string, q: int)
    requires Sourced(s, k, q)
    ensures Sourced(DoCheck(s, id, topic, producer, seqNo, body), k, q)
  {
    hide DedupKey, SeqKey, AckedSeqs;
    var s' := DoCheck(s, id, topic, producer, seqNo, body);
    assert forall i :: InFlightAt(s', i, k, q) <==> InFlightAt(s, i, k, q);
  }

  lemma SourcedAppend(s: State, id: nat, now: int64, outcome: Outcome, k: string, q: int)
    requires Sourced(s, k, q)
    ensures Sourced(DoIdemAppend(s, id, now, outcome), k, q)
  {
    hide DedupKey, KeyOf, AckedSeqs, StoredInFlight, DoIdemAppend;
    AckedAfterAppend(s, id, now, outcome, k);
    InFlightAfterAppend(s, id, now, outcome, k, q);
    CallsAfterAppend(s, id, now, outcome);
  }

  lemma SourcedPublish(s: State, id: nat, k: string, q: int)
    requires Sourced(s, k, q)
    ensures Sourced(DoPublish(s, id), k, q)
  {
    hide DedupKey, SeqKey, AckedSeqs;
    var s' := DoPublish(s, id);
    if id in s.calls && s.calls[id].stored.Some? {
      var c := s.calls[id];
      if DedupKey(k, q) == DedupKey(KeyOf(c), c.seqNo) {
        DedupInjective(k, q, KeyOf(c), c.seqNo);
        assert InFlightAt(s, id, k, q);
      } else {
        assert forall i :: InFlightAt(s', i, k, q) <==> InFlightAt(s, i, k, q);
      }
    }
  }

  lemma SourcedOther(s: State, step: Step, k: string, q: int)
    requires Sourced(s, k, q) && !step.IdemCheck? && !step.IdemAppend? && !step.IdemPublish?
    ensures Sourced(Next(s, step), k, q)
  {
    OtherStep(s, step);
    OtherAcked(s, step, k);
    hide Next, DedupKey, KeyOf, AckedSeqs;
    assert forall i :: InFlightAt(Next(s, step), i, k, q) <==> InFlightAt(s, i, k, q);
  }

  lemma SourcedStep(s: State, step: Step, k: string, q: int)
    requires Sourced(s, k, q)
    ensures Sourced(Next(s, step), k, q)
  {
    hide Sourced, DoCheck, DoIdemAppend, DoPublish;
    match step
    case IdemCheck(id, topic, producer, seqNo, body) => SourcedCheck(s, id, topic, producer, seqNo, body, k, q);
    case IdemAppend(id, now, outcome) => SourcedAppend(s, id, now, outcome, k, q);
    case IdemPublish(id) => SourcedPublish(s, id, k, q);
    case _ => SourcedOther(s, step, k, q);
  }

  /** Over every run, overlapping calls or not, the acknowledged numbers of a key are
      those cached and those a call in flight has stored. */
  lemma {:induction false} AckedSources(steps: seq<Step>, key: string, q: int)
    ensures Sourced(Run(Initial(), steps), key, q)
  {
    hide Next, DedupKey;
    if steps != [] {
      hide Sourced;
      AckedSources(steps[..|steps| - 1], key, q);
      SourcedStep(Run(Initial(), steps[..|steps| - 1]), steps[|steps| - 1], key, q);
    }
  }

  /** The check lets a number pass exactly if it may follow every cached one. */
  lemma AdmittedAt(s: State, topic: string, producer: string, x: int)
    requires LastIsMax(s) && producer != ""
    ensures Check(s, topic, producer, x).Proceed?
       <==> forall q :: DedupKey(SeqKey(topic, producer), q) in s.dedup ==> Follows(q, x)
  {
    hide DedupKey, SeqKey;
    var key := SeqKey(topic, producer);
    if key in s.producerSeq {
      assert DedupKey(key, s.producerSeq[key]) in s.dedup;
    }
  }

  /** Over every run: a number passes the check exactly if it may follow every number
      that is acknowledged and cached, and is answered from the cache exactly if it is
      cached itself. Acknowledged numbers that a call in flight has stored and not yet
      cached do not count. */
  lemma AdmittedIff(steps: seq<Step>, topic: string, producer: string, x: int)
    requires producer != ""
    ensures var s, key := Run(Initial(), steps), SeqKey(topic, producer);
            && (Check(s, topic, producer, x).Proceed? <==> forall q :: DedupKey(key, q) in s.dedup ==> Follows(q, x))
            && (Check(s, topic, producer, x).Cached? <==> DedupKey(key, x) in s.dedup)
            && forall q :: DedupKey(key, q) in s.dedup ==> q in AckedSeqs(s.hist, key)
  {
    hide Run, DedupKey, SeqKey, AckedSeqs, StoredInFlight, LastIsMax;
    var s, key := Run(Initial(), steps), SeqKey(topic, producer);
    LastSequenceIsMax(steps);
    AdmittedAt(s, topic, producer, x);
    forall q | DedupKey(key, q) in s.dedup ensures q in AckedSeqs(s.hist, key) {
      AckedSources(steps, key, q);
    }
  }

  /** No number of the key is stored by a call in flight and not yet cached. */
  ghost predicate NoneStored(s: State, key: string) {
    forall q :: !StoredInFlight(s, key, q)
  }

  /** Acknowledged, and only because a call in flight has stored it. */
  ghost predicate Unpublished(s: State, key: string, q: int) {
    StoredInFlight(s, key, q) && DedupKey(key, q) !in s.dedup
  }

  /** Over every run: a number below an acknowledged one is let through exactly if it
      is not cached itself and every positive number above it that was acknowledged is
      still unpublished. Between calls that means it is new and no positive number was
      acknowledged. */
  lemma FallingIff(steps: seq<Step>, topic: string, producer: string, x: int, q: int)
    requires producer != ""
    ensures var s, key := Run(Initial(), steps), SeqKey(topic, producer);
            var acked := AckedSeqs(s.hist, key);
            x < q && q in acked ==>
              && (Check(s, topic, producer, x).Proceed? <==>
                    && DedupKey(key, x) !in s.dedup
                    && forall p :: p in acked && p > 0 && x < p ==> Unpublished(s, key, p))
              && (NoneStored(s, key) ==>
                    (Check(s, topic, producer, x).Proceed? <==> x !in acked && forall p :: p in acked ==> p <= 0))
  {
    hide Run, DedupKey, SeqKey, AckedSeqs, StoredInFlight, Check;
    var s, key := Run(Initial(), steps), SeqKey(topic, producer);
    AdmittedIff(steps, topic, producer, x);
    forall p ensures Sourced(s, key, p) {
      AckedSources(steps, key, p);
    }
    if x < q && q in AckedSeqs(s.hist, key) {
      FallingFrom(s, key, x, q);
    }
  }

  lemma FallingFrom(s: State, key: string, x: int, q: int)
    requires forall p :: Sourced(s, key, p)
    requires x < q && q in AckedSeqs(s.hist, key)
    ensures (forall p :: DedupKey(key, p) in s.dedup ==> Follows(p, x)) <==>
            && DedupKey(key, x) !in s.dedup
            && forall p :: p in AckedSeqs(s.hist, key) && p > 0 && x < p ==> Unpublished(s, key, p)
    ensures NoneStored(s, key) ==>
              ((forall p :: DedupKey(key, p) in s.dedup ==> Follows(p, x)) <==>
                 x !in AckedSeqs(s.hist, key) && forall p :: p in AckedSeqs(s.hist, key) ==> p <= 0)
  {
    hide DedupKey, AckedSeqs, StoredInFlight;
    assert Sourced(s, key, x) && Sourced(s, key, q);
    if forall p :: DedupKey(key, p) in s.dedup ==> Follows(p, x) {
      forall p | p in AckedSeqs(s.hist, key) && p > 0 && x < p ensures Unpublished(s, key, p) {
        assert Sourced(s, key, p);
      }
    }
    if DedupKey(key, x) !in s.dedup
       && forall p :: p in AckedSeqs(s.hist, key) && p > 0 && x < p ==> Unpublished(s, key, p) {
      forall p | DedupKey(key, p) in s.dedup ensures Follows(p, x) {
        assert Sourced(s, key, p) && (p > 0 && x < p ==> Unpublished(s, key, p));
      }
    }
  }

  // ---------- every order occurs ----------

  /** Calls that all store their records and publish none. */
  function Pile(topic: string, producer: string, l: seq<int>): seq<Step> {
    if l == [] then [CreateTopic(topic, 0)] else
      Pile(topic, producer, l[..|l| - 1])
      + [IdemCheck(|l| - 1, topic, producer, l[|l| - 1], Body([], [], map[]))] + [IdemAppend(|l| - 1, 0, Stored)]
  }

  ghost predicate Piled(s: State, topic: string, producer: string, l: seq<int>) {
    && topic in s.topics && s.dedup == map[] && s.producerSeq == map[]
    && AckedSeqs(s.hist, SeqKey(topic, producer)) == l
    && (forall i :: i in s.calls <==> 0 <= i < |l|)
    && (forall i :: 0 <= i < |l| ==> s.calls[i].seqNo == l[i])
  }

  ghost predicate AllDifferent(l: seq<int>) {
    forall i, j :: 0 <= i < j < |l| ==> l[i] != l[j]
  }

  /** No two calls in flight, waiting or not, are for one number. */
  ghost predicate OneEach(s: State) {
    forall i, j :: i in s.calls && j in s.calls && i != j ==> s.calls[i].seqNo != s.calls[j].seqNo
  }

  ghost predicate OneEachRun(steps: seq<Step>) {
    forall n :: 0 <= n <= |steps| ==> OneEach(Run(Initial(), steps[..n]))
  }

  lemma PileUp(s: State, topic: string, producer: string, l: seq<int>, x: int)
    requires producer != "" && Piled(s, topic, producer, l)
    ensures var s1 := DoCheck(s, |l|, topic, producer, x, Body([], [], map[]));
            var s2 := DoIdemAppend(s1, |l|, 0, Stored);
            && Piled(s2, topic, producer, l + [x])
            && (AllDifferent(l + [x]) ==> OneEach(s1) && OneEach(s2))
  {
    hide DedupKey, SeqKey, AckedSeqs, DoIdemAppend;
    var s1 := DoCheck(s, |l|, topic, producer, x, Body([], [], map[]));
    var s2 := DoIdemAppend(s1, |l|, 0, Stored);
    assert s1 == s.(calls := s.calls[|l| := Call(topic, producer, x, Body([], [], map[]), None)]);
    CallsAfterAppend(s1, |l|, 0, Stored);
    AckedAfterAppend(s1, |l|, 0, Stored, SeqKey(topic, producer));
    SameLast(s1, |l|);
    assert forall i :: i in s1.calls ==> 0 <= i < |l + [x]| && s1.calls[i].seqNo == (l + [x])[i];
    assert forall i :: i in s2.calls ==> 0 <= i < |l + [x]| && s2.calls[i].seqNo == (l + [x])[i];
  }

  lemma SameLast(s: State, id: nat)
    ensures DoIdemAppend(s, id, 0, Stored).producerSeq == s.producerSeq
  {
    hide SeqKey, MakeRec;
  }

  lemma OneEachSnoc(steps: seq<Step>, step: Step)
    requires OneEachRun(steps) && OneEach(Next(Run(Initial(), steps), step))
    ensures OneEachRun(steps + [step])
  {
    hide OneEach, Next, Run;
    var all := steps + [step];
    RunOne(Initial(), steps, step);
    forall n | 0 <= n <= |all| ensures OneEach(Run(Initial(), all[..n])) {
      if n <= |steps| {
        assert all[..n] == steps[..n];
      } else {
        assert all[..n] == all;
      }
    }
  }

  lemma {:induction false} PileRun(topic: string, producer: string, l: seq<int>)
    requires producer != ""
    ensures Piled(Run(Initial(), Pile(topic, producer, l)), topic, producer, l)
    ensures AllDifferent(l) ==> OneEachRun(Pile(topic, producer, l))
  {
    hide Piled, OneEach, OneEachRun, DoCheck, DoIdemAppend, Run;
    if l == [] {
      PileStart(topic, producer);
    } else {
      var front, x := l[..|l| - 1], l[|l| - 1];
      assert l == front + [x];
      PileRun(topic, producer, front);
      var steps := Pile(topic, producer, front);
      var check := IdemCheck(|front|, topic, producer, x, Body([], [], map[]));
      var append := IdemAppend(|front|, 0, Stored);
      PileUp(Run(Initial(), steps), topic, producer, front, x);
      RunOne(Initial(), steps, check);
      RunOne(Initial(), steps + [check], append);
      if AllDifferent(l) {
        OneEachSnoc(steps, check);
        OneEachSnoc(steps + [check], append);
      }
    }
  }

  lemma PileStart(topic: string, producer: string)
    ensures Piled(Run(Initial(), [CreateTopic(topic, 0)]), topic, producer, [])
    ensures OneEachRun([CreateTopic(topic, 0)])
  {
    hide SeqKey;
    var steps := [CreateTopic(topic, 0)];
    assert steps[..0] == [] && steps[..1] == steps;
    RunFirst(Initial(), CreateTopic(topic, 0));
    assert AckedSeqs([], SeqKey(topic, producer)) == [];
  }

  /** Whatever the numbers, positive ones included, some run acknowledges them in this
      very order; if they are all different, it is one in which no two calls for one
      number of any key are ever in flight together. So 5 can be followed by 3. */
  lemma EveryOrderOccurs(topic: string, producer: string, l: seq<int>)
    requires producer != ""
    ensures AckedSeqs(Run(Initial(), Pile(topic, producer, l)).hist, SeqKey(topic, producer)) == l
    ensures AllDifferent(l) ==> forall k, q :: TwinFree(Pile(topic, producer, l), k, q)
  {
    hide Run, Pile, SeqKey, AckedSeqs;
    PileRun(topic, producer, l);
    if AllDifferent(l) {
      hide Piled, AllDifferent;
      forall k, q, n | 0 <= n <= |Pile(topic, producer, l)|
        ensures NoTwins(Run(Initial(), Pile(topic, producer, l)[..n]), k, q)
      {
        assert OneEach(Run(Initial(), Pile(topic, producer, l)[..n]));
      }
    }
  }

  // ---------- the order ----------

  /** No number repeats, and nothing falls behind a positive number. */
  ghost predicate Rising(l: seq<int>) {
    forall i, j :: 0 <= i < j < |l| ==> Follows(l[i], l[j])
  }

  lemma RisingAppend(l: seq<int>, x: int)
    ensures Rising(l + [x]) <==> Rising(l) && forall q :: q in l ==> Follows(q, x)
  {
    hide Follows;
    var l' := l + [x];
    if Rising(l') {
      forall i, j | 0 <= i < j < |l| ensures Follows(l[i], l[j]) {
        assert l'[i] == l[i] && l'[j] == l[j];
      }
      forall q | q in l ensures Follows(q, x) {
        var i :| 0 <= i < |l| && l[i] == q;
        assert l'[i] == q && l'[|l|] == x;
      }
    }
    if Rising(l) && forall q :: q in l ==> Follows(q, x) {
      assert forall i :: 0 <= i < |l| ==> l[i] in l;
    }
  }

  /** Two calls for the key in flight; j has not stored its record yet and its number
      may not follow i's. */
  predicate Rivals(s: State, i: nat, j: nat, key: string) {
    && i != j && i in s.calls && j in s.calls
    && KeyOf(s.calls[i]) == key && KeyOf(s.calls[j]) == key
    && s.calls[j].stored.None? && !Follows(s.calls[i].seqNo, s.calls[j].seqNo)
  }

  ghost predicate NoRivals(s: State, key: string) {
    forall i, j :: !Rivals(s, i, j, key)
  }

  /** No two calls for this key are ever rivals. */
  ghost predicate RivalFree(steps: seq<Step>, key: string) {
    forall n :: 0 <= n <= |steps| ==> NoRivals(Run(Initial(), steps[..n]), key)
  }

  lemma RivalFreePrefix(steps: seq<Step>, key: string, m: nat)
    requires RivalFree(steps, key) && m <= |steps|
    ensures RivalFree(steps[..m], key) && NoRivals(Run(Initial(), steps[..m]), key)
  {
    hide NoRivals, Run;
    forall n | 0 <= n <= m ensures NoRivals(Run(Initial(), steps[..m][..n]), key) {
      assert steps[..m][..n] == steps[..n];
    }
  }

  /** A call for the key that has not stored its record yet may follow all acknowledged ones. */
  ghost predicate Ahead(s: State, key: string, id: nat) {
    id in s.calls && KeyOf(s.calls[id]) == key && s.calls[id].stored.None? ==>
      forall q :: q in AckedSeqs(s.hist, key) ==> Follows(q, s.calls[id].seqNo)
  }

  ghost predicate Ordered(s: State, key: string) {
    Rising(AckedSeqs(s.hist, key)) && forall id :: Ahead(s, key, id)
  }

  ghost predicate AllSourced(s: State, key: string) {
    forall q :: Sourced(s, key, q)
  }

  lemma OrderedCheck(s: State, id: nat, topic: string, producer: string, seqNo: int, body: Body, k: string)
    requires Ordered(s, k) && AllSourced(s, k) && LastIsMax(s)
    requires NoRivals(DoCheck(s, id, topic, producer, seqNo, body), k)
    ensures Ordered(DoCheck(s, id, topic, producer, seqNo, body), k)
  {
    hide DedupKey, SeqKey, Rising, LastIsMax, AllSourced, AckedSeqs, Follows, Rivals;
    var s' := DoCheck(s, id, topic, producer, seqNo, body);
    forall i ensures Ahead(s', k, i) {
      assert Ahead(s, k, i);
      if s' != s && i == id && SeqKey(topic, producer) == k {
        AdmittedAt(s, topic, producer, seqNo);
        forall q | q in AckedSeqs(s.hist, k) ensures Follows(q, seqNo) {
          NewcomerFollows(s, id, topic, producer, seqNo, body, q);
        }
      }
    }
  }

  /** A call just let in may follow every acknowledged number: the cached ones by the
      check, the others because it would be a rival of the call that stored them. */
  lemma NewcomerFollows(s: State, id: nat, topic: string, producer: string, seqNo: int, body: Body, q: int)
    requires AllSourced(s, SeqKey(topic, producer)) && q in AckedSeqs(s.hist, SeqKey(topic, producer))
    requires id !in s.calls && Check(s, topic, producer, seqNo).Proceed?
    requires forall p :: DedupKey(SeqKey(topic, producer), p) in s.dedup ==> Follows(p, seqNo)
    requires NoRivals(DoCheck(s, id, topic, producer, seqNo, body), SeqKey(topic, producer))
    ensures Follows(q, seqNo)
  {
    hide DedupKey, SeqKey, AckedSeqs, Follows, Check;
    var key := SeqKey(topic, producer);
    var s' := DoCheck(s, id, topic, producer, seqNo, body);
    assert Sourced(s, key, q);
    if DedupKey(key, q) !in s.dedup {
      var i :| InFlightAt(s, i, key, q);
      assert !Rivals(s', i, id, key);
    }
  }

  lemma OrderedAppend(s: State, id: nat, now: int64, outcome: Outcome, k: string)
    requires Ordered(s, k) && NoRivals(s, k)
    ensures Ordered(DoIdemAppend(s, id, now, outcome), k)
  {
    hide Rising, AckedSeqs, Ahead, DoIdemAppend, NoRivals;
    var s' := DoIdemAppend(s, id, now, outcome);
    assert Ahead(s, k, id);
    RisingAfterAppend(s, id, now, outcome, k);
    forall i ensures Ahead(s', k, i) {
      assert Ahead(s, k, i);
      AheadAfterAppend(s, id, now, outcome, k, i);
    }
  }

  lemma RisingAfterAppend(s: State, id: nat, now: int64, outcome: Outcome, k: string)
    requires Rising(AckedSeqs(s.hist, k)) && Ahead(s, k, id)
    ensures Rising(AckedSeqs(DoIdemAppend(s, id, now, outcome).hist, k))
  {
    hide SeqKey, Rising, AckedSeqs, DoIdemAppend;
    AckedAfterAppend(s, id, now, outcome, k);
    assert AckedSeqs(s.hist, k) + [] == AckedSeqs(s.hist, k);
    RisingAppend(AckedSeqs(s.hist, k), if id in s.calls then s.calls[id].seqNo else 0);
  }

  lemma AheadAfterAppend(s: State, id: nat, now: int64, outcome: Outcome, k: string, i: nat)
    requires Ahead(s, k, i) && NoRivals(s, k)
    ensures Ahead(DoIdemAppend(s, id, now, outcome), k, i)
  {
    hide AckedSeqs, KeyOf, DoIdemAppend, Follows;
    WaitingAfterAppend(s, id, now, outcome, i);
    AckedAfterAppend(s, id, now, outcome, k);
    assert !Rivals(s, id, i, k);
  }

  /** An append leaves the other calls as they are and its own not waiting. */
  lemma WaitingAfterAppend(s: State, id: nat, now: int64, outcome: Outcome, i: nat)
    ensures var s' := DoIdemAppend(s, id, now, outcome);
            i in s'.calls && s'.calls[i].stored.None? ==>
              && i in s.calls && s.calls[i] == s'.calls[i]
              && (i == id ==> s' == s && NewlyAcked(s, id, outcome, KeyOf(s.calls[i])) == [])
  {
    hide SeqKey, MakeRec, DoIdemAppend;
    CallsAfterAppend(s, id, now, outcome);
  }

  lemma OrderedRest(s: State, step: Step, k: string)
    requires Ordered(s, k) && !step.IdemCheck? && !step.IdemAppend?
    ensures Ordered(Next(s, step), k)
  {
    var s' := Next(s, step);
    assert AckedSeqs(s'.hist, k) == AckedSeqs(s.hist, k) by {
      if !step.IdemPublish? {
        OtherAcked(s, step, k);
      }
    }
    assert forall i :: i in s'.calls ==> i in s.calls && s'.calls[i] == s.calls[i] by {
      if !step.IdemPublish? {
        OtherStep(s, step);
      }
    }
    hide AckedSeqs, Next;
    forall i ensures Ahead(s', k, i) {
      assert Ahead(s, k, i);
    }
  }

  lemma OrderedStep(s: State, step: Step, k: string)
    requires Ordered(s, k) && AllSourced(s, k) && LastIsMax(s) && NoRivals(s, k) && NoRivals(Next(s, step), k)
    ensures Ordered(Next(s, step), k)
  {
    hide AllSourced, NoRivals, Ordered, LastIsMax, DoCheck, DoIdemAppend, DoPublish;
    match step
    case IdemCheck(id, topic, producer, seqNo, body) => OrderedCheck(s, id, topic, producer, seqNo, body, k);
    case IdemAppend(id, now, outcome) => OrderedAppend(s, id, now, outcome, k);
    case _ => OrderedRest(s, step, k);
  }

  lemma InitialOrdered(k: string)
    ensures Ordered(Initial(), k)
  {
  }

  /** As long as no two calls for a key are rivals, whatever other callers do, its
      acknowledged numbers, in log order, never repeat and never fall behind a
      positive one, in any interleaving. */
  lemma {:induction false} SequencesRise(steps: seq<Step>, key: string)
    requires RivalFree(steps, key)
    ensures Ordered(Run(Initial(), steps), key)
  {
    hide Sourced, NoRivals, Next, LastIsMax, Ordered;
    if steps == [] {
      InitialOrdered(key);
    } else {
      var front := steps[..|steps| - 1];
      RivalFreePrefix(steps, key, |steps| - 1);
      SequencesRise(front, key);
      forall q ensures Sourced(Run(Initial(), front), key, q) {
        AckedSources(front, key, q);
      }
      LastSequenceIsMax(front);
      assert steps[..|steps|] == steps;
      OrderedStep(Run(Initial(), front), steps[|steps| - 1], key);
    }
  }

  // ---------- rivals decide it ----------

  /** However the calls now in flight are finished, the acknowledged numbers rise. */
  ghost predicate Orderly(s: State, key: string) {
    forall finish :: Finishing(finish) ==> Rising(AckedSeqs(Run(s, finish).hist, key))
  }

  lemma NoRivalsStep(s: State, step: Step, k: string)
    requires NoRivals(s, k) && !step.IdemCheck?
    ensures NoRivals(Next(s, step), k)
  {
    hide Next, KeyOf, Follows;
    var s' := Next(s, step);
    forall i, j ensures !Rivals(s', i, j, k) {
      assert !Rivals(s, i, j, k);
      if i in s'.calls && j in s'.calls {
        CallsShrink(s, step, i);
        CallsShrink(s, step, j);
      }
    }
  }

  lemma OrderedFinish(s: State, step: Step, k: string)
    requires Ordered(s, k) && NoRivals(s, k) && !step.IdemCheck?
    ensures Ordered(Next(s, step), k) && NoRivals(Next(s, step), k)
  {
    hide NoRivals, Ordered, DoIdemAppend;
    NoRivalsStep(s, step, k);
    if step.IdemAppend? {
      OrderedAppend(s, step.id, step.now, step.outcome, k);
    } else {
      OrderedRest(s, step, k);
    }
  }

  lemma {:induction false} FinishingOrdered(s: State, finish: seq<Step>, k: string)
    requires Ordered(s, k) && NoRivals(s, k) && Finishing(finish)
    ensures Ordered(Run(s, finish), k) && NoRivals(Run(s, finish), k)
  {
    hide Ordered, NoRivals, Next;
    if finish != [] {
      var front := finish[..|finish| - 1];
      assert finish[|finish| - 1] in finish;
      FinishingOrdered(s, front, k);
      OrderedFinish(Run(s, front), finish[|finish| - 1], k);
    }
  }

  lemma RivalFreeOrderly(steps: seq<Step>, n: nat, key: string)
    requires RivalFree(steps, key) && n <= |steps|
    ensures Orderly(Run(Initial(), steps[..n]), key)
  {
    hide Run, NoRivals, Rising, Ahead, AckedSeqs;
    RivalFreePrefix(steps, key, n);
    SequencesRise(steps[..n], key);
    var s := Run(Initial(), steps[..n]);
    forall finish | Finishing(finish) ensures Rising(AckedSeqs(Run(s, finish).hist, key)) {
      FinishingOrdered(s, finish, key);
    }
  }

  /** A waiting call on an existing topic that gets its record stored. */
  lemma AckCall(s: State, id: nat)
    requires id in s.calls && s.calls[id].stored.None? && s.calls[id].topic in s.topics
    ensures var s', c := DoIdemAppend(s, id, 0, Stored), s.calls[id];
            && AckedSeqs(s'.hist, KeyOf(c)) == AckedSeqs(s.hist, KeyOf(c)) + [c.seqNo]
            && s'.topics == s.topics
            && forall j :: j != id && j in s.calls ==> j in s'.calls && s'.calls[j] == s.calls[j]
  {
    hide AckedSeqs, DoIdemAppend, KeyOf;
    AckedAfterAppend(s, id, 0, Stored, KeyOf(s.calls[id]));
    CallsAfterAppend(s, id, 0, Stored);
  }

  /** Rivals can always be finished so that one falls behind the other. */
  lemma RivalsFall(s: State, i: nat, j: nat, key: string)
    requires Rivals(s, i, j, key) && AllSourced(s, key)
    ensures !Orderly(s, key)
  {
    hide KeyOf, AckedSeqs, DoIdemAppend, BothTopics, AllSourced, Rising, Follows, Run;
    var c, d := s.calls[i], s.calls[j];
    var topics := BothTopics(c, d);
    var s0 := Run(s, topics);
    BothTopicsRun(s, c, d);
    OnlyTopics(c, d);
    if c.stored.None? {
      AckCall(s0, i);
      RunOne(s, topics, IdemAppend(i, 0, Stored));
      BehindFalls(s, topics + [IdemAppend(i, 0, Stored)], j, key, c.seqNo);
    } else {
      StoredIsAcked(s, i, key);
      BehindFalls(s, topics, j, key, c.seqNo);
    }
  }

  lemma StoredIsAcked(s: State, i: nat, key: string)
    requires AllSourced(s, key) && i in s.calls && KeyOf(s.calls[i]) == key && s.calls[i].stored.Some?
    ensures s.calls[i].seqNo in AckedSeqs(s.hist, key)
  {
    hide KeyOf, AckedSeqs, DedupKey;
    assert Sourced(s, key, s.calls[i].seqNo) && InFlightAt(s, i, key, s.calls[i].seqNo);
  }

  /** A call that waits behind an acknowledged number it may not follow. */
  lemma BehindFalls(s: State, steps: seq<Step>, j: nat, key: string, q: int)
    requires Finishing(steps)
    requires var s0 := Run(s, steps);
             && j in s0.calls && KeyOf(s0.calls[j]) == key && s0.calls[j].stored.None?
             && s0.calls[j].topic in s0.topics
             && q in AckedSeqs(s0.hist, key) && !Follows(q, s0.calls[j].seqNo)
    ensures !Orderly(s, key)
  {
    hide KeyOf, AckedSeqs, DoIdemAppend, Rising, Follows, Run;
    var s0 := Run(s, steps);
    AckCall(s0, j);
    RunOne(s, steps, IdemAppend(j, 0, Stored));
    RisingAppend(AckedSeqs(s0.hist, key), s0.calls[j].seqNo);
    assert Finishing(steps + [IdemAppend(j, 0, Stored)]);
  }

  /** Over every run and for every key: at no point can the calls in flight be finished
      so that a number repeats or falls behind a positive one, if and only if no two
      calls for the key are ever rivals. */
  lemma RisingIff(steps: seq<Step>, key: string)
    ensures (forall n :: 0 <= n <= |steps| ==> Orderly(Run(Initial(), steps[..n]), key)) <==> RivalFree(steps, key)
  {
    hide Run, Orderly, NoRivals;
    if RivalFree(steps, key) {
      forall n | 0 <= n <= |steps| ensures Orderly(Run(Initial(), steps[..n]), key) {
        RivalFreeOrderly(steps, n, key);
      }
    } else {
      var n :| 0 <= n <= |steps| && !NoRivals(Run(Initial(), steps[..n]), key);
      RivalledFalls(steps[..n], key);
    }
  }

  lemma RivalledFalls(steps: seq<Step>, key: string)
    requires !NoRivals(Run(Initial(), steps), key)
    ensures !Orderly(Run(Initial(), steps), key)
  {
    hide Run, Orderly, Sourced, Rivals;
    var s := Run(Initial(), steps);
    var i, j :| Rivals(s, i, j, key);
    forall q ensures Sourced(s, key, q) {
      AckedSources(steps, key, q);
    }
    RivalsFall(s, i, j, key);
  }

  // ---------- one call after the other ----------

  /** At most one call for this key is in flight. */
  ghost predicate Alone(s: State, key: string) {
    forall i, j :: i in s.calls && j in s.calls && KeyOf(s.calls[i]) == key && KeyOf(s.calls[j]) == key ==> i == j
  }

  /** Calls for this key come one after the other. */
  ghost predicate OneByOne(steps: seq<Step>, key: string) {
    forall n :: 0 <= n <= |steps| ==> Alone(Run(Initial(), steps[..n]), key)
  }

  lemma OneByOneRivalFree(steps: seq<Step>, key: string)
    requires OneByOne(steps, key)
    ensures RivalFree(steps, key)
  {
    hide Run, KeyOf, Follows;
    forall n | 0 <= n <= |steps| ensures NoRivals(Run(Initial(), steps[..n]), key) {
      assert Alone(Run(Initial(), steps[..n]), key);
    }
  }

  /** No call in flight, and exactly the numbers of l acknowledged and cached. */
  ghost predicate Idle(s: State, topic: string, key: string, l: seq<int>) {
    && s.calls == map[] && topic in s.topics
    && AckedSeqs(s.hist, key) == l
    && forall q :: DedupKey(key, q) in s.dedup <==> q in l
  }

  /** One call after the other. */
  function Calls(topic: string, producer: string, l: seq<int>): seq<Step> {
    if l == [] then [CreateTopic(topic, 0)] else
      Calls(topic, producer, l[..|l| - 1])
      + [IdemCheck(0, topic, producer, l[|l| - 1], Body([], [], map[]))] + [IdemAppend(0, 0, Stored)] + [IdemPublish(0)]
  }

  lemma Round(s: State, topic: string, producer: string, l: seq<int>, x: int)
    requires producer != "" && Idle(s, topic, SeqKey(topic, producer), l) && LastIsMax(s)
    requires forall q :: q in l ==> Follows(q, x)
    ensures var key := SeqKey(topic, producer);
            var s1 := DoCheck(s, 0, topic, producer, x, Body([], [], map[]));
            var s2 := DoIdemAppend(s1, 0, 0, Stored);
            var s3 := DoPublish(s2, 0);
            Alone(s1, key) && Alone(s2, key) && Alone(s3, key) && Idle(s3, topic, key, l + [x])
  {
    hide SeqKey, DedupKey, AckedSeqs, DoIdemAppend, DoPublish;
    var key := SeqKey(topic, producer);
    var s1 := DoCheck(s, 0, topic, producer, x, Body([], [], map[]));
    var s2 := DoIdemAppend(s1, 0, 0, Stored);
    var s3 := DoPublish(s2, 0);
    assert key in s.producerSeq ==> s.producerSeq[key] in l;
    assert Check(s, topic, producer, x).Proceed?;
    assert s1 == s.(calls := map[0 := Call(topic, producer, x, Body([], [], map[]), None)]);
    Finished(s1, s1.calls[0]);
    AckedAfterAppend(s1, 0, 0, Stored, key);
    forall q ensures DedupKey(key, q) in s3.dedup <==> q in l + [x] {
      if DedupKey(key, q) == DedupKey(key, x) {
        DedupInjective(key, q, key, x);
      }
    }
  }

  /** A lone call stored and published. */
  lemma Finished(s: State, c: Call)
    requires s.calls == map[0 := c] && c.stored.None? && c.topic in s.topics
    ensures var s2 := DoIdemAppend(s, 0, 0, Stored);
            var s3 := DoPublish(s2, 0);
            && s2.calls.Keys == {0} && s3.calls == map[]
            && s3.topics == s.topics && s3.hist == s2.hist
            && s3.dedup.Keys == s.dedup.Keys + {DedupKey(KeyOf(c), c.seqNo)}
  {
    hide SeqKey, DedupKey, MakeRec;
  }

  lemma OneByOneSnoc(steps: seq<Step>, step: Step, key: string)
    requires OneByOne(steps, key) && Alone(Next(Run(Initial(), steps), step), key)
    ensures OneByOne(steps + [step], key)
    ensures Run(Initial(), steps + [step]) == Next(Run(Initial(), steps), step)
  {
    hide Alone, Next, Run;
    var all := steps + [step];
    RunOne(Initial(), steps, step);
    forall n | 0 <= n <= |all| ensures Alone(Run(Initial(), all[..n]), key) {
      if n <= |steps| {
        assert all[..n] == steps[..n];
      } else {
        assert all[..n] == all;
      }
    }
  }

  lemma {:induction false} CallsRun(topic: string, producer: string, l: seq<int>)
    requires producer != "" && Rising(l)
    ensures OneByOne(Calls(topic, producer, l), SeqKey(topic, producer))
    ensures Idle(Run(Initial(), Calls(topic, producer, l)), topic, SeqKey(topic, producer), l)
  {
    hide Idle, Alone, SeqKey, Rising, DoCheck, DoIdemAppend, DoPublish, Run;
    var key := SeqKey(topic, producer);
    if l == [] {
      FirstTopic(topic, key);
    } else {
      var front, x := l[..|l| - 1], l[|l| - 1];
      assert l == front + [x];
      RisingAppend(front, x);
      CallsRun(topic, producer, front);
      var steps := Calls(topic, producer, front);
      LastSequenceIsMax(steps);
      Round(Run(Initial(), steps), topic, producer, front, x);
      OneByOneSnoc(steps, IdemCheck(0, topic, producer, x, Body([], [], map[])), key);
      var steps1 := steps + [IdemCheck(0, topic, producer, x, Body([], [], map[]))];
      OneByOneSnoc(steps1, IdemAppend(0, 0, Stored), key);
      OneByOneSnoc(steps1 + [IdemAppend(0, 0, Stored)], IdemPublish(0), key);
    }
  }

  lemma FirstTopic(topic: string, key: string)
    ensures OneByOne([CreateTopic(topic, 0)], key)
    ensures Idle(Run(Initial(), [CreateTopic(topic, 0)]), topic, key, [])
  {
    var steps := [CreateTopic(topic, 0)];
    assert steps[..0] == [] && steps[..1] == steps;
    RunFirst(Initial(), CreateTopic(topic, 0));
  }

  ghost predicate Acknowledged(steps: seq<Step>, key: string, l: seq<int>) {
    AckedSeqs(Run(Initial(), steps).hist, key) == l
  }

  /** A list of numbers can be what a producer gets acknowledged on a topic in a run
      without rivals, or in one with its calls one after the other, exactly if it is
      rising. */
  lemma ExactlyTheRising(topic: string, producer: string, l: seq<int>)
    requires producer != ""
    ensures var key := SeqKey(topic, producer);
            && ((exists steps :: RivalFree(steps, key) && Acknowledged(steps, key, l)) <==> Rising(l))
            && ((exists steps :: OneByOne(steps, key) && Acknowledged(steps, key, l)) <==> Rising(l))
  {
    hide Run, Rising, OneByOne, RivalFree, SeqKey, AckedSeqs;
    var key := SeqKey(topic, producer);
    forall steps | RivalFree(steps, key) && Acknowledged(steps, key, l) ensures Rising(l) {
      SequencesRise(steps, key);
    }
    forall steps | OneByOne(steps, key) && Acknowledged(steps, key, l) ensures Rising(l) {
      OneByOneRivalFree(steps, key);
      SequencesRise(steps, key);
    }
    if Rising(l) {
      CallsRun(topic, producer, l);
      OneByOneRivalFree(Calls(topic, producer, l), key);
      assert Acknowledged(Calls(topic, producer, l), key, l);
    }
  }

  // ---------- strictly increasing ----------

  ghost predicate Increasing(l: seq<int>) {
    forall i, j :: 0 <= i < j < |l| ==> l[i] < l[j]
  }

  /** Calls for this key carry no negative number. */
  ghost predicate NonNegative(steps: seq<Step>, key: string) {
    forall step :: step in steps && step.IdemCheck? && SeqKey(step.topic, step.producer) == key ==> step.seqNo >= 0
  }

  ghost predicate AllNonNegative(s: State, key: string) {
    && (forall id :: id in s.calls && KeyOf(s.calls[id]) == key ==> s.calls[id].seqNo >= 0)
    && (forall q :: q in AckedSeqs(s.hist, key) ==> q >= 0)
  }

  lemma NonNegativeStep(s: State, step: Step, key: string)
    requires AllNonNegative(s, key)
    requires step.IdemCheck? && SeqKey(step.topic, step.producer) == key ==> step.seqNo >= 0
    ensures AllNonNegative(Next(s, step), key)
  {
    hide AckedSeqs, SeqKey, DedupKey, MakeRec;
    if step.IdemAppend? {
      AckedAfterAppend(s, step.id, step.now, step.outcome, key);
    } else if !step.IdemCheck? && !step.IdemPublish? {
      OtherStep(s, step);
      OtherAcked(s, step, key);
    }
  }

  lemma {:induction false} NonNegativeRun(steps: seq<Step>, key: string)
    requires NonNegative(steps, key)
    ensures AllNonNegative(Run(Initial(), steps), key)
  {
    hide Next;
    if steps != [] {
      assert steps[|steps| - 1] in steps;
      NonNegativeRun(steps[..|steps| - 1], key);
      NonNegativeStep(Run(Initial(), steps[..|steps| - 1]), steps[|steps| - 1], key);
    }
  }

  /** Among numbers that are not negative, rising is strictly increasing. */
  lemma RisingIsIncreasing(l: seq<int>)
    requires forall q :: q in l ==> q >= 0
    ensures Rising(l) <==> Increasing(l)
  {
    assert forall i :: 0 <= i < |l| ==> l[i] in l;
  }

  lemma FinishedNonNegative(steps: seq<Step>, n: nat, finish: seq<Step>, key: string)
    requires NonNegative(steps, key) && n <= |steps| && Finishing(finish)
    ensures AllNonNegative(Run(Run(Initial(), steps[..n]), finish), key)
  {
    hide Run, AllNonNegative;
    RunConcat(Initial(), steps[..n], finish);
    NonNegativeRun(steps[..n] + finish, key);
  }

  /** However the calls now in flight are finished, the acknowledged numbers increase. */
  ghost predicate Climbing(s: State, key: string) {
    forall finish :: Finishing(finish) ==> Increasing(AckedSeqs(Run(s, finish).hist, key))
  }

  /** If the calls for this key carry no negative number: at no point can the calls in
      flight be finished so that the acknowledged numbers do not strictly increase, if
      and only if no two calls for the key are ever rivals. */
  lemma IncreasingIff(steps: seq<Step>, key: string)
    requires NonNegative(steps, key)
    ensures (forall n :: 0 <= n <= |steps| ==> Climbing(Run(Initial(), steps[..n]), key)) <==> RivalFree(steps, key)
  {
    hide Run, RivalFree, AckedSeqs, NonNegative, Rising, Increasing;
    RisingIff(steps, key);
    forall n | 0 <= n <= |steps|
      ensures Climbing(Run(Initial(), steps[..n]), key) <==> Orderly(Run(Initial(), steps[..n]), key)
    {
      var s := Run(Initial(), steps[..n]);
      forall finish | Finishing(finish)
        ensures Rising(AckedSeqs(Run(s, finish).hist, key)) <==> Increasing(AckedSeqs(Run(s, finish).hist, key))
      {
        FinishedNonNegative(steps, n, finish, key);
        RisingIsIncreasing(AckedSeqs(Run(s, finish).hist, key));
      }
    }
  }

  /** So without rivals and negative numbers the acknowledged ones strictly increase. */
  lemma SequencesIncrease(steps: seq<Step>, key: string)
    requires RivalFree(steps, key) && NonNegative(steps, key)
    ensures Increasing(AckedSeqs(Run(Initial(), steps).hist, key))
  {
    SequencesRise(steps, key);
    NonNegativeRun(steps, key);
    hide Run, AckedSeqs;
    RisingIsIncreasing(AckedSeqs(Run(Initial(), steps).hist, key));
  }
}
