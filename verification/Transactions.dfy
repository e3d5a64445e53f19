/** Transactions over every interleaving. */
module Transactions {
  import opened Bytes
  import opened Protocol

  /** The records a transaction has in the log, over all topics, in log order. */
  function TxLog(hist: seq<Event>, o: nat): seq<TxRecord> {
    if hist == [] then [] else
      var front := TxLog(hist[..|hist| - 1], o);
      var e := hist[|hist| - 1];
      if e.origin == Transactional(o) then front + [TxRecord(e.topic, e.rec.body)] else front
  }

  lemma TxAppend(hist: seq<Event>, e: Event, o: nat)
    ensures TxLog(hist + [e], o) ==
            TxLog(hist, o) + (if e.origin == Transactional(o) then [TxRecord(e.topic, e.rec.body)] else [])
  {
    assert (hist + [e])[..|hist|] == hist;
  }

  predicate ByCommit(s: State, id: nat, o: nat) {
    id in s.commits && s.commits[id].tx == o
  }

  /** Some CommitTransaction call got past its check for this transaction. */
  ghost predicate Started(s: State, o: nat) {
    exists id :: ByCommit(s, id, o)
  }

  /** How many staged records a commit call has in the log: those it counted,
      and one more if the last append stored its record but reported an error. */
  function Placed(c: Commit): nat {
    c.done + if c.orphan then 1 else 0
  }

  ghost predicate CommitOk(s: State, id: nat) {
    id in s.commits ==>
      var c := s.commits[id];
      && c.tx < |s.txs|
      && c.records == s.txs[c.tx].records
      && Placed(c) <= |c.records|
      && TxLog(s.hist, c.tx) == c.records[..Placed(c)]
      && s.txs[c.tx].status == (if c.phase.Finished? then Committed else Committing)
      && (c.phase.Finished? ==> c.done == |c.records|)
      && (c.orphan ==> c.phase.Failed?)
  }

  ghost predicate TxOk(s: State, o: nat) {
    && (o >= |s.txs| || s.txs[o].status.Open? || s.txs[o].status.Aborted? ==> TxLog(s.hist, o) == [] && !Started(s, o))
    && (o < |s.txs| && (s.txs[o].status.Committing? || s.txs[o].status.Committed?) ==> Started(s, o))
  }

  ghost predicate OneLoopEach(s: State) {
    forall i, j :: i in s.commits && j in s.commits && i != j ==> s.commits[i].tx != s.commits[j].tx
  }

  ghost predicate TxInv(s: State) {
    && (forall txId :: txId in s.txIds ==> s.txIds[txId] < |s.txs|)
    && (forall id :: CommitOk(s, id))
    && (forall o :: TxOk(s, o))
    && OneLoopEach(s)
  }

  // ---------- steps that do not concern transactions ----------

  predicate TxStep(step: Step) {
    step.TxBegin? || step.TxStage? || step.TxAbort? || step.CommitStart? || step.CommitCreate?
    || step.CommitAppend? || step.CommitFinish?
  }

  lemma QuietStep(s: State, step: Step)
    requires !TxStep(step)
    ensures var s' := Next(s, step);
            && s'.txs == s.txs && s'.commits == s.commits && s'.txIds == s.txIds
            && (s'.hist == s.hist
                || (|s'.hist| == |s.hist| + 1 && s'.hist[..|s.hist|] == s.hist
                    && !s'.hist[|s.hist|].origin.Transactional?))
  {
    hide MakeRec, Check, SeqKey, DedupKey;
  }

  lemma Quiet(s: State, step: Step)
    requires !TxStep(step) && TxInv(s)
    ensures TxInv(Next(s, step))
  {
    QuietStep(s, step);
    hide Next;
    var s' := Next(s, step);
    forall o: nat ensures TxLog(s'.hist, o) == TxLog(s.hist, o) {
    }
    hide TxLog;
    forall id ensures CommitOk(s', id) {
      assert CommitOk(s, id);
    }
    forall o ensures TxOk(s', o) {
      assert TxOk(s, o);
      assert forall id :: ByCommit(s', id, o) <==> ByCommit(s, id, o);
    }
  }

  // ---------- begin, stage, abort ----------

  /** Changing one transaction that no commit call holds, and that has nothing
      in the log, keeps the invariant. */
  lemma Retouch(s: State, o: nat, tx: Tx)
    requires TxInv(s) && o < |s.txs| && s.txs[o].status.Open? && (tx.status.Open? || tx.status.Aborted?)
    ensures TxInv(s.(txs := s.txs[o := tx]))
  {
    hide TxLog;
    var s' := s.(txs := s.txs[o := tx]);
    assert TxOk(s, o);
    forall id ensures CommitOk(s', id) {
      assert CommitOk(s, id);
      assert !ByCommit(s, id, o);
    }
    forall p ensures TxOk(s', p) {
      assert TxOk(s, p);
      assert forall id :: ByCommit(s', id, p) <==> ByCommit(s, id, p);
    }
  }

  lemma Begin(s: State, producer: string, epoch: int, now: int64)
    requires TxInv(s)
    ensures TxInv(DoBegin(s, producer, epoch, now))
  {
    hide TxLog, TxId;
    var s' := DoBegin(s, producer, epoch, now);
    forall id ensures CommitOk(s', id) {
      assert CommitOk(s, id);
    }
    forall o ensures TxOk(s', o) {
      assert TxOk(s, o);
      assert forall id :: ByCommit(s', id, o) <==> ByCommit(s, id, o);
    }
  }

  // ---------- the commit loop ----------

  lemma Start(s: State, id: nat, txId: string)
    requires TxInv(s)
    ensures TxInv(DoCommitStart(s, id, txId))
  {
    hide TxLog;
    var s' := DoCommitStart(s, id, txId);
    if s' != s {
      var o := s.txIds[txId];
      assert TxOk(s, o);
      forall i ensures CommitOk(s', i) {
        assert CommitOk(s, i);
        assert !ByCommit(s, i, o);
      }
      forall p ensures TxOk(s', p) {
        assert TxOk(s, p);
        assert forall i :: ByCommit(s', i, p) <==> ByCommit(s, i, p) || (i == id && p == o);
        assert ByCommit(s', id, o);
      }
      assert forall i :: i in s.commits ==> !ByCommit(s, i, o);
    }
  }

  /** A commit call that only changes its own bookkeeping keeps the invariant. */
  lemma Rebook(s: State, id: nat, c: Commit)
    requires TxInv(s) && id in s.commits
    requires c.tx == s.commits[id].tx && c.records == s.commits[id].records
    requires Placed(c) == Placed(s.commits[id]) && !c.phase.Finished? && !s.commits[id].phase.Finished?
    requires c.orphan ==> c.phase.Failed?
    ensures TxInv(s.(commits := s.commits[id := c]))
  {
    hide TxLog;
    var s' := s.(commits := s.commits[id := c]);
    forall i ensures CommitOk(s', i) {
      assert CommitOk(s, i);
    }
    forall p ensures TxOk(s', p) {
      assert TxOk(s, p);
      assert forall i :: ByCommit(s', i, p) <==> ByCommit(s, i, p);
    }
  }

  lemma CreateInLoop(s: State, id: nat, ok: bool, first: nat)
    requires TxInv(s)
    ensures TxInv(DoCommitCreate(s, id, ok, first))
  {
    hide TxInv;
    if InLoop(s, id) && !s.commits[id].ready {
      var c := s.commits[id];
      assert CommitOk(s, id) by { InvCommit(s, id); }
      hide CommitOk;
      Rebook(s, id, if ok then c.(ready := true) else c.(phase := Failed));
      var s' := DoCommitCreate(s, id, ok, first);
      TopicsIrrelevant(s.(commits := s'.commits), s'.topics);
    }
  }

  lemma InvCommit(s: State, id: nat)
    requires TxInv(s)
    ensures CommitOk(s, id)
  {
  }

  lemma TopicsIrrelevant(s: State, topics: map<string, nat>)
    requires TxInv(s)
    ensures TxInv(s.(topics := topics))
  {
    hide TxLog;
    var s' := s.(topics := topics);
    forall i ensures CommitOk(s', i) {
      assert CommitOk(s, i);
    }
    forall p ensures TxOk(s', p) {
      assert TxOk(s, p);
      assert forall i :: ByCommit(s', i, p) <==> ByCommit(s, i, p);
    }
  }

  lemma AppendInLoop(s: State, id: nat, now: int64, outcome: Outcome)
    requires TxInv(s)
    ensures TxInv(DoCommitAppend(s, id, now, outcome))
  {
    hide TxLog, MakeRec;
    InvCommit(s, id);
    if DoCommitAppend(s, id, now, outcome).hist != s.hist {
      AppendInvariant(s, id, now, outcome);
    } else if InLoop(s, id) && s.commits[id].ready {
      Rebook(s, id, s.commits[id].(phase := Failed));
    }
  }

  lemma AppendInvariant(s: State, id: nat, now: int64, outcome: Outcome)
    requires TxInv(s) && DoCommitAppend(s, id, now, outcome).hist != s.hist
    ensures TxInv(DoCommitAppend(s, id, now, outcome))
  {
    hide TxLog, DoCommitAppend;
    var s' := DoCommitAppend(s, id, now, outcome);
    AppendLogged(s, id, now, outcome);
    var c := s.commits[id];
    forall i ensures CommitOk(s', i) {
      assert CommitOk(s, i);
    }
    forall p ensures TxOk(s', p) {
      assert TxOk(s, p);
      assert forall i :: ByCommit(s', i, p) <==> ByCommit(s, i, p);
      assert ByCommit(s, id, c.tx);
    }
  }

  /** The one new event is the next staged record of the commit's transaction. */
  lemma AppendLogged(s: State, id: nat, now: int64, outcome: Outcome)
    requires DoCommitAppend(s, id, now, outcome).hist != s.hist && CommitOk(s, id)
    ensures id in s.commits
    ensures var s', c := DoCommitAppend(s, id, now, outcome), s.commits[id];
            && c.done < |c.records| && !c.orphan
            && s' == s.(hist := s'.hist,
                        commits := s.commits[id := if outcome.Stored? then c.(done := c.done + 1, ready := false)
                                                   else c.(phase := Failed, orphan := true)])
            && c.phase.Running?
            && c.records[..Placed(c) + 1] == c.records[..Placed(c)] + [c.records[c.done]]
            && forall o :: TxLog(s'.hist, o) == TxLog(s.hist, o) + (if o == c.tx then [c.records[c.done]] else [])
  {
    hide MakeRec, TxLog;
    var s', c := DoCommitAppend(s, id, now, outcome), s.commits[id];
    forall o: nat ensures TxLog(s'.hist, o) == TxLog(s.hist, o) + (if o == c.tx then [c.records[c.done]] else []) {
      TxAppend(s.hist, s'.hist[|s.hist|], o);
      Carried(s, c.records[c.done], now);
    }
  }

  lemma Carried(s: State, r: TxRecord, now: int64)
    ensures TxRecord(r.topic, MakeRec(s, r.topic, r.body, now).body) == r
  {
  }

  lemma Finish(s: State, id: nat)
    requires TxInv(s)
    ensures TxInv(DoCommitFinish(s, id))
  {
    hide TxLog;
    var s' := DoCommitFinish(s, id);
    if s' != s {
      var o := s.commits[id].tx;
      InvCommit(s, id);
      forall i ensures CommitOk(s', i) {
        assert CommitOk(s, i);
      }
      forall p ensures TxOk(s', p) {
        assert TxOk(s, p);
        assert forall i :: ByCommit(s', i, p) <==> ByCommit(s, i, p);
        assert ByCommit(s', id, o);
      }
    }
  }

  // ---------- whole runs ----------

  lemma InvStep(s: State, step: Step)
    requires TxInv(s)
    ensures TxInv(Next(s, step))
  {
    hide TxInv, DoCheck, DoIdemAppend, DoPublish, DoPlain, DoBegin, DoCommitStart, DoCommitCreate, DoCommitAppend;
    hide DoCommitFinish;
    match step
    case TxBegin(producer, epoch, now) => Begin(s, producer, epoch, now);
    case TxStage(txId, rec) =>
      if rec.topic != "" && IsOpen(s, txId) {
        var tx := s.txs[s.txIds[txId]];
        Retouch(s, s.txIds[txId], tx.(records := tx.records + [rec]));
      }
    case TxAbort(txId) =>
      if IsOpen(s, txId) {
        Retouch(s, s.txIds[txId], Tx(Aborted, []));
      }
    case CommitStart(id, txId) => Start(s, id, txId);
    case CommitCreate(id, ok, first) => CreateInLoop(s, id, ok, first);
    case CommitAppend(id, now, outcome) => AppendInLoop(s, id, now, outcome);
    case CommitFinish(id) => Finish(s, id);
    case _ => Quiet(s, step);
  }

  lemma {:induction false} InvRun(steps: seq<Step>)
    ensures TxInv(Run(Initial(), steps))
  {
    if steps != [] {
      InvRun(steps[..|steps| - 1]);
      InvStep(Run(Initial(), steps[..|steps| - 1]), steps[|steps| - 1]);
    }
  }

  /** In every interleaving of any number of transactions and other producers:
      an open or aborted transaction has nothing in the log; a committed one has
      exactly its staged records, in order; and one being committed has a prefix
      of them, as long as the count its only commit call has reached. */
  lemma TransactionsArePrefixes(steps: seq<Step>, o: nat)
    requires o < |Run(Initial(), steps).txs|
    ensures var s := Run(Initial(), steps);
            && TxLog(s.hist, o) <= s.txs[o].records
            && (s.txs[o].status.Open? || s.txs[o].status.Aborted? ==> TxLog(s.hist, o) == [] && !Started(s, o))
            && (s.txs[o].status.Committed? ==> TxLog(s.hist, o) == s.txs[o].records)
            && (s.txs[o].status.Committing? || s.txs[o].status.Committed? ==> Started(s, o))
            && (forall id :: ByCommit(s, id, o) ==>
                  |TxLog(s.hist, o)| == Placed(s.commits[id])
                  && (s.commits[id].phase.Finished? <==> s.txs[o].status.Committed?))
            && (forall i, j :: ByCommit(s, i, o) && ByCommit(s, j, o) ==> i == j)
  {
    InvRun(steps);
    var s := Run(Initial(), steps);
    hide Run, TxLog;
    assert TxOk(s, o);
    forall id | ByCommit(s, id, o)
      ensures TxLog(s.hist, o) <= s.txs[o].records && |TxLog(s.hist, o)| == Placed(s.commits[id])
      ensures s.commits[id].phase.Finished? <==> s.txs[o].status.Committed?
      ensures s.commits[id].phase.Finished? ==> TxLog(s.hist, o) == s.txs[o].records
    {
      assert CommitOk(s, id);
    }
  }
}
