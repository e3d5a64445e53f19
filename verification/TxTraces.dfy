/** What a run does to transactions, read off its steps alone: which transaction a
    name means, how long it is open, what was staged in it and whether it was aborted.
    No state of the broker is involved. */
module TxTraces {
  import opened Bytes
  import opened Order
  import opened Protocol
  import opened Transactions

  // ---------- reading the steps ----------

  predicate Begins(step: Step) {
    step.TxBegin? && step.producer != ""
  }

  /** The names of the transactions begun, in order; the o-th one is transaction o. */
  function Begun(steps: seq<Step>): seq<string> {
    if steps == [] then [] else
      var front, last := Begun(steps[..|steps| - 1]), steps[|steps| - 1];
      if Begins(last) then front + [TxId(last.producer, last.epoch, last.now)] else front
  }

  /** The transaction last begun under a name. */
  function Latest(steps: seq<Step>, txId: string): Option<nat> {
    if steps == [] then None else
      var front, last := steps[..|steps| - 1], steps[|steps| - 1];
      if Begins(last) && TxId(last.producer, last.epoch, last.now) == txId then Some(|Begun(front)|)
      else Latest(front, txId)
  }

  /** Begun, and since then neither aborted nor taken by a commit. */
  predicate StillOpen(steps: seq<Step>, o: nat)
    decreases |steps|
  {
    steps != [] &&
    var front, last := steps[..|steps| - 1], steps[|steps| - 1];
    || (Begins(last) && o == |Begun(front)|)
    || (StillOpen(front, o)
        && !(last.TxAbort? && Latest(front, last.txId) == Some(o))
        && !(last.CommitStart? && Latest(front, last.txId) == Some(o) && !Used(front, last.id)))
  }

  /** The name means this transaction, and it is open. */
  predicate Reaches(steps: seq<Step>, txId: string, o: nat)
    decreases |steps|, 1
  {
    Latest(steps, txId) == Some(o) && StillOpen(steps, o)
  }

  /** Some commit call with this number got past its check. */
  predicate Used(steps: seq<Step>, id: nat)
    decreases |steps|
  {
    steps != [] &&
    var front, last := steps[..|steps| - 1], steps[|steps| - 1];
    || Used(front, id)
    || (last.CommitStart? && last.id == id && Latest(front, last.txId).Some?
        && StillOpen(front, Latest(front, last.txId).value))
  }

  /** An abort met the transaction while it was open. */
  predicate Dropped(steps: seq<Step>, o: nat) {
    steps != [] &&
    var front, last := steps[..|steps| - 1], steps[|steps| - 1];
    Dropped(front, o) || (last.TxAbort? && Reaches(front, last.txId, o))
  }

  /** The records that callers staged in the transaction while it was open, in order. */
  function Staged(steps: seq<Step>, o: nat): seq<TxRecord> {
    if steps == [] then [] else
      var front, last := steps[..|steps| - 1], steps[|steps| - 1];
      if last.TxStage? && last.rec.topic != "" && Reaches(front, last.txId, o) then Staged(front, o) + [last.rec]
      else Staged(front, o)
  }

  lemma Unfold(front: seq<Step>, step: Step, o: nat, txId: string, id: nat)
    ensures var steps := front + [step];
            && Begun(steps) == (if Begins(step) then Begun(front) + [TxId(step.producer, step.epoch, step.now)]
                                else Begun(front))
            && Latest(steps, txId) == (if Begins(step) && TxId(step.producer, step.epoch, step.now) == txId
                                       then Some(|Begun(front)|) else Latest(front, txId))
            && (StillOpen(steps, o) <==>
                  || (Begins(step) && o == |Begun(front)|)
                  || (StillOpen(front, o)
                      && !(step.TxAbort? && Latest(front, step.txId) == Some(o))
                      && !(step.CommitStart? && Latest(front, step.txId) == Some(o) && !Used(front, step.id))))
            && (Used(steps, id) <==>
                  || Used(front, id)
                  || (step.CommitStart? && step.id == id && Latest(front, step.txId).Some?
                      && StillOpen(front, Latest(front, step.txId).value)))
            && (Dropped(steps, o) <==> Dropped(front, o) || (step.TxAbort? && Reaches(front, step.txId, o)))
            && Staged(steps, o) == Staged(front, o) + (if step.TxStage? && step.rec.topic != ""
                                                          && Reaches(front, step.txId, o) then [step.rec] else [])
  {
    hide TxId;
    assert (front + [step])[..|front|] == front;
    assert Staged(front, o) + [] == Staged(front, o);
  }

  // ---------- the state agrees ----------

  ghost predicate NameAgrees(s: State, steps: seq<Step>, txId: string) {
    && (txId in s.txIds <==> Latest(steps, txId).Some?)
    && (txId in s.txIds ==> Latest(steps, txId) == Some(s.txIds[txId]) && s.txIds[txId] < |s.txs|)
  }

  ghost predicate ObjectAgrees(s: State, steps: seq<Step>, o: nat) {
    if o < |s.txs| then
      && (s.txs[o].status.Open? <==> StillOpen(steps, o))
      && (s.txs[o].status.Aborted? <==> Dropped(steps, o))
      && s.txs[o].records == if Dropped(steps, o) then [] else Staged(steps, o)
    else !StillOpen(steps, o) && !Dropped(steps, o) && Staged(steps, o) == []
  }

  ghost predicate Traced(s: State, steps: seq<Step>) {
    && |s.txs| == |Begun(steps)|
    && (forall txId :: NameAgrees(s, steps, txId))
    && (forall id :: id in s.commits <==> Used(steps, id))
    && (forall o :: ObjectAgrees(s, steps, o))
  }

  lemma OpenReaches(s: State, steps: seq<Step>, txId: string, o: nat)
    requires Traced(s, steps)
    ensures Reaches(steps, txId, o) <==> IsOpen(s, txId) && s.txIds[txId] == o
    ensures IsOpen(s, txId) <==> Latest(steps, txId).Some? && StillOpen(steps, Latest(steps, txId).value)
  {
    hide Latest, StillOpen, Dropped, Staged, Begun, Used;
    assert NameAgrees(s, steps, txId) && ObjectAgrees(s, steps, o);
    if txId in s.txIds {
      assert ObjectAgrees(s, steps, s.txIds[txId]);
    }
  }

  /** The steps that change a transaction, its name or the calls that commit it. */
  predicate Touches(step: Step) {
    step.TxBegin? || step.TxStage? || step.TxAbort? || step.CommitStart?
  }

  /** Names, open and aborted transactions and staged records stay as they are. */
  ghost predicate Spared(s: State, s': State) {
    && |s'.txs| == |s.txs| && s'.txIds == s.txIds && (forall id :: id in s'.commits <==> id in s.commits)
    && forall o :: 0 <= o < |s.txs| ==>
         && s'.txs[o].records == s.txs[o].records
         && (s'.txs[o].status.Open? <==> s.txs[o].status.Open?)
         && (s'.txs[o].status.Aborted? <==> s.txs[o].status.Aborted?)
  }

  lemma Untouched(s: State, step: Step)
    requires TxInv(s) && !Touches(step)
    ensures Spared(s, Next(s, step))
  {
    hide TxInv, Spared, DoCheck, DoIdemAppend, DoPublish, DoPlain, DoCommitCreate, DoCommitAppend, DoCommitFinish;
    match step
    case CommitCreate(id, ok, first) => CreateSpares(s, id, ok, first);
    case CommitAppend(id, now, outcome) => AppendSpares(s, id, now, outcome);
    case CommitFinish(id) =>
      InvCommit(s, id);
      FinishSpares(s, id);
    case _ =>
      QuietStep(s, step);
      QuietSpares(s, Next(s, step));
  }

  lemma QuietSpares(s: State, s': State)
    requires s'.txs == s.txs && s'.commits == s.commits && s'.txIds == s.txIds
    ensures Spared(s, s')
  {
  }

  lemma CreateSpares(s: State, id: nat, ok: bool, first: nat)
    ensures Spared(s, DoCommitCreate(s, id, ok, first))
  {
  }

  lemma AppendSpares(s: State, id: nat, now: int64, outcome: Outcome)
    ensures Spared(s, DoCommitAppend(s, id, now, outcome))
  {
    hide MakeRec;
  }

  lemma FinishSpares(s: State, id: nat)
    requires CommitOk(s, id)
    ensures Spared(s, DoCommitFinish(s, id))
  {
    hide TxLog;
  }

  lemma UntouchedTrace(s: State, front: seq<Step>, step: Step)
    requires Traced(s, front) && TxInv(s) && !Touches(step)
    ensures Traced(Next(s, step), front + [step])
  {
    hide Latest, StillOpen, Dropped, Staged, Begun, Used, Next, TxInv, TxId;
    Untouched(s, step);
    var s', steps := Next(s, step), front + [step];
    Unfold(front, step, 0, "", 0);
    forall txId ensures NameAgrees(s', steps, txId) {
      Unfold(front, step, 0, txId, 0);
      assert NameAgrees(s, front, txId);
    }
    forall o: nat ensures ObjectAgrees(s', steps, o) {
      Unfold(front, step, o, "", 0);
      assert ObjectAgrees(s, front, o);
      assert Staged(front, o) + [] == Staged(front, o);
    }
    forall id: nat ensures id in s'.commits <==> Used(steps, id) {
      Unfold(front, step, 0, "", id);
    }
  }

  lemma BeginTrace(s: State, front: seq<Step>, step: Step)
    requires Traced(s, front) && step.TxBegin?
    ensures Traced(Next(s, step), front + [step])
  {
    hide Latest, StillOpen, Dropped, Staged, Begun, Used, TxId, Reaches;
    var s', steps := Next(s, step), front + [step];
    Unfold(front, step, 0, "", 0);
    forall txId ensures NameAgrees(s', steps, txId) {
      Unfold(front, step, 0, txId, 0);
      assert NameAgrees(s, front, txId);
    }
    forall o: nat ensures ObjectAgrees(s', steps, o) {
      Unfold(front, step, o, "", 0);
      assert ObjectAgrees(s, front, o);
      assert Staged(front, o) + [] == Staged(front, o);
    }
    forall id: nat ensures id in s'.commits <==> Used(steps, id) {
      Unfold(front, step, 0, "", id);
    }
  }

  lemma StageTrace(s: State, front: seq<Step>, step: Step)
    requires Traced(s, front) && (step.TxStage? || step.TxAbort?)
    ensures Traced(Next(s, step), front + [step])
  {
    hide Latest, StillOpen, Dropped, Staged, Begun, Used, TxId, Reaches;
    var s', steps := Next(s, step), front + [step];
    Unfold(front, step, 0, "", 0);
    forall txId ensures NameAgrees(s', steps, txId) {
      Unfold(front, step, 0, txId, 0);
      assert NameAgrees(s, front, txId);
    }
    forall o: nat ensures ObjectAgrees(s', steps, o) {
      if step.TxStage? {
        StagedObject(s, front, step, o);
      } else {
        AbortedObject(s, front, step, o);
      }
    }
    forall id: nat ensures id in s'.commits <==> Used(steps, id) {
      Unfold(front, step, 0, "", id);
    }
  }

  lemma StagedObject(s: State, front: seq<Step>, step: Step, o: nat)
    requires Traced(s, front) && step.TxStage?
    ensures ObjectAgrees(Next(s, step), front + [step], o)
  {
    hide Latest, StillOpen, Dropped, Staged, Begun, Used, TxId;
    Unfold(front, step, o, "", 0);
    assert ObjectAgrees(s, front, o) && NameAgrees(s, front, step.txId);
    assert Staged(front, o) + [] == Staged(front, o);
  }

  lemma AbortedObject(s: State, front: seq<Step>, step: Step, o: nat)
    requires Traced(s, front) && step.TxAbort?
    ensures ObjectAgrees(Next(s, step), front + [step], o)
  {
    hide Latest, StillOpen, Dropped, Staged, Begun, Used, TxId;
    Unfold(front, step, o, "", 0);
    assert ObjectAgrees(s, front, o) && NameAgrees(s, front, step.txId);
    assert Staged(front, o) + [] == Staged(front, o);
  }

  lemma StartTrace(s: State, front: seq<Step>, step: Step)
    requires Traced(s, front) && step.CommitStart?
    ensures Traced(Next(s, step), front + [step])
  {
    hide Latest, StillOpen, Dropped, Staged, Begun, Used, TxId, Reaches;
    var s', steps := Next(s, step), front + [step];
    Unfold(front, step, 0, "", 0);
    assert NameAgrees(s, front, step.txId);
    if step.txId in s.txIds {
      assert ObjectAgrees(s, front, s.txIds[step.txId]);
    }
    forall txId ensures NameAgrees(s', steps, txId) {
      Unfold(front, step, 0, txId, 0);
      assert NameAgrees(s, front, txId);
    }
    forall o: nat ensures ObjectAgrees(s', steps, o) {
      Unfold(front, step, o, "", 0);
      assert ObjectAgrees(s, front, o);
      assert Staged(front, o) + [] == Staged(front, o);
    }
    forall id: nat ensures id in s'.commits <==> Used(steps, id) {
      Unfold(front, step, 0, "", id);
    }
  }

  /** In every reachable state names, open and aborted transactions and staged records
      are what the steps say. */
  lemma {:induction false} TraceRun(steps: seq<Step>)
    ensures Traced(Run(Initial(), steps), steps)
  {
    if steps == [] {
      NothingTraced();
    } else {
      var front, step := steps[..|steps| - 1], steps[|steps| - 1];
      TraceRun(front);
      InvRun(front);
      hide Traced, TxInv, Next;
      var s := Run(Initial(), front);
      assert steps == front + [step];
      if step.TxBegin? {
        BeginTrace(s, front, step);
      } else if step.CommitStart? {
        StartTrace(s, front, step);
      } else if step.TxStage? || step.TxAbort? {
        StageTrace(s, front, step);
      } else {
        UntouchedTrace(s, front, step);
      }
    }
  }

  lemma NothingTraced()
    ensures Traced(Initial(), [])
  {
  }

  // ---------- what callers can rely on ----------

  /** Over every interleaving: the log of a transaction is a prefix of what callers
      staged in it while it was open, in the order of their calls; it is all of that if
      the transaction is committed, and nothing while it is open or once it was aborted. */
  lemma LogIsStaged(steps: seq<Step>, o: nat)
    requires o < |Begun(steps)|
    ensures var s := Run(Initial(), steps);
            && o < |s.txs|
            && TxLog(s.hist, o) <= Staged(steps, o)
            && (s.txs[o].status.Committed? ==> TxLog(s.hist, o) == Staged(steps, o))
            && (StillOpen(steps, o) || Dropped(steps, o) ==> TxLog(s.hist, o) == [])
            && (s.txs[o].status.Aborted? <==> Dropped(steps, o))
            && (s.txs[o].status.Open? <==> StillOpen(steps, o))
  {
    hide Run, TxLog, Staged, StillOpen, Dropped, Begun;
    TraceRun(steps);
    TransactionsArePrefixes(steps, o);
    assert ObjectAgrees(Run(Initial(), steps), steps, o);
  }

  lemma {:induction false} DroppedStays(steps: seq<Step>, more: seq<Step>, o: nat)
    requires Dropped(steps, o)
    ensures Dropped(steps + more, o)
  {
    if more == [] {
      assert steps + more == steps;
    } else {
      DroppedStays(steps, more[..|more| - 1], o);
      assert (steps + more)[..|steps + more| - 1] == steps + more[..|more| - 1];
    }
  }

  /** An abort that meets an open transaction is final. Whatever callers do afterwards,
      the transaction stays aborted and empty, it never has a record in the log, no
      commit of it ever starts, and no name leads to it as an open one. */
  lemma AbortIsFinal(steps: seq<Step>, txId: string, more: seq<Step>)
    requires IsOpen(Run(Initial(), steps), txId)
    ensures var o := Run(Initial(), steps).txIds[txId];
            var s := Run(Initial(), steps + [TxAbort(txId)] + more);
            && o < |s.txs| && s.txs[o] == Tx(Aborted, [])
            && TxLog(s.hist, o) == [] && !Started(s, o)
            && forall name :: name in s.txIds && s.txIds[name] == o ==> !IsOpen(s, name)
  {
    hide Run, TxLog, StillOpen, Latest, Staged, Begun, Used;
    var o := Run(Initial(), steps).txIds[txId];
    var now := steps + [TxAbort(txId)];
    var all := now + more;
    TraceRun(steps);
    OpenReaches(Run(Initial(), steps), steps, txId, o);
    Unfold(steps, TxAbort(txId), o, "", 0);
    DroppedStays(now, more, o);
    hide Dropped;
    TraceRun(all);
    var s := Run(Initial(), all);
    assert ObjectAgrees(s, all, o);
    TransactionsArePrefixes(all, o);
  }

  // ---------- names ----------

  lemma EndsInDigit(p: string, e: int, a: string)
    ensures p + "-" + Decimal(e) != a + "-"
  {
    var d := Decimal(e);
    assert (p + "-" + d)[|p| + |d|] == d[|d| - 1] != '-' by { LastDigit(e); }
    assert (a + "-")[|a|] == '-';
  }

  lemma LastDigit(e: int)
    ensures Decimal(e)[|Decimal(e)| - 1] != '-'
  {
    var n := Numeral(if e < 0 then -e else e);
    assert n[|n| - 1] != '-';
  }

  /** Two transactions get the same name exactly if producer, epoch and time agree, or
      one epoch is the other's negative and its producer the other's with a dash. */
  lemma SameName(p: string, e: int, t: int64, p': string, e': int, t': int64)
    ensures TxId(p, e, t) == TxId(p', e', t') <==>
            && t == t'
            && (|| (p == p' && e == e')
                || (e < 0 && e' == -e && p' == p + "-")
                || (e' < 0 && e == -e' && p == p' + "-"))
  {
    hide Decimal;
    SplitNumber(p + "-" + Decimal(e), t, p' + "-" + Decimal(e'), t');
    EndsInDigit(p, e, p' + "-" + Decimal(e'));
    EndsInDigit(p', e', p + "-" + Decimal(e));
    SplitNumber(p, e, p', e');
  }

  /** A name means the last transaction begun under it, so a transaction can be reached
      by its name exactly until another one with the same name begins. */
  lemma {:induction false} LatestIsLast(steps: seq<Step>, txId: string, o: nat)
    ensures Latest(steps, txId) == Some(o) <==>
            o < |Begun(steps)| && Begun(steps)[o] == txId && txId !in Begun(steps)[o + 1..]
  {
    hide TxId;
    if steps != [] {
      var front, last := steps[..|steps| - 1], steps[|steps| - 1];
      LatestIsLast(front, txId, o);
      if Begins(last) {
        var names, name := Begun(front), TxId(last.producer, last.epoch, last.now);
        assert Begun(steps) == names + [name];
        if o < |names| {
          assert (names + [name])[o + 1..] == names[o + 1..] + [name];
          assert name in names[o + 1..] + [name];
        } else {
          assert o == |names| ==> (names + [name])[o + 1..] == [];
        }
      }
    }
  }
}
