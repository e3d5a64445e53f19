/** The broker as a transition system. Every region of code that runs under the
    broker lock is one atomic step, so a run interleaves any number of plain,
    idempotent and transactional producers. Records carry their origin as a
    history variable; nothing in a step depends on it. */
module Protocol {
  import opened Bytes
  import opened Order

  datatype Body = Body(key: seq<byte>, value: seq<byte>, headers: map<string, string>)
  datatype Rec = Rec(body: Body, timestamp: int64, offset: nat)
  datatype TxRecord = TxRecord(topic: string, body: Body)

  /** Who stored a record. */
  datatype Origin =
    | Plain
    | Idempotent(key: string, seqNo: int)
    | Transactional(tx: nat)

  /** A stored record, and whether Produce reported success to its caller. */
  datatype Event = Event(topic: string, rec: Rec, origin: Origin, acked: bool)

  /** An idempotent call between its first and its last lock region. */
  datatype Call = Call(topic: string, producer: string, seqNo: int, body: Body, stored: Option<Rec>)

  datatype Status = Open | Committing | Committed | Aborted
  datatype Tx = Tx(status: Status, records: seq<TxRecord>)

  /** A CommitTransaction call past its first lock region; kept after it returns.
      done counts the records produced so far and is what the call returns. */
  datatype Phase = Running | Finished | Failed
  datatype Commit = Commit(tx: nat, records: seq<TxRecord>, done: nat, ready: bool, phase: Phase, orphan: bool)

  /** What Produce does under the lock: store the record and report success;
      refuse it (draining, or a failed log write); or store it and report an
      error because an index file could not be rewritten. */
  datatype Outcome = Stored | Refused | Orphaned

  datatype State = State(
    topics: map<string, nat>,  // each with the offset its first record here gets
    hist: seq<Event>,
    producerSeq: map<string, int>,
    dedup: map<string, Rec>,
    calls: map<nat, Call>,
    txIds: map<string, nat>,
    txs: seq<Tx>,
    commits: map<nat, Commit>)

  datatype Step =
    | CreateTopic(topic: string, first: nat)
    | PlainProduce(topic: string, body: Body, now: int64, outcome: Outcome)
    | IdemCheck(id: nat, topic: string, producer: string, seqNo: int, body: Body)
    | IdemAppend(id: nat, now: int64, outcome: Outcome)
    | IdemPublish(id: nat)
    | TxBegin(producer: string, epoch: int, now: int64)
    | TxStage(txId: string, rec: TxRecord)
    | TxAbort(txId: string)
    | CommitStart(id: nat, txId: string)
    | CommitCreate(id: nat, ok: bool, first: nat)
    | CommitAppend(id: nat, now: int64, outcome: Outcome)
    | CommitFinish(id: nat)

  function Initial(): State {
    State(map[], [], map[], map[], map[], map[], [], map[])
  }

  // ---------- keys ----------

  function SeqKey(topic: string, producer: string): string {
    topic + "|" + producer
  }

  function DedupKey(key: string, seqNo: int): string {
    key + "|" + Decimal(seqNo)
  }

  function TxId(producer: string, epoch: int, now: int64): string {
    producer + "-" + Decimal(epoch) + "-" + Decimal(now)
  }

  // ---------- steps ----------

  function TopicLog(hist: seq<Event>, topic: string): seq<Rec> {
    if hist == [] then [] else
      var front := TopicLog(hist[..|hist| - 1], topic);
      var e := hist[|hist| - 1];
      if e.topic == topic then front + [e.rec] else front
  }

  function First(s: State, topic: string): nat {
    if topic in s.topics then s.topics[topic] else 0
  }

  /** The record Produce returns: its offset is the next one of the topic. */
  function MakeRec(s: State, topic: string, body: Body, now: int64): Rec {
    Rec(body, now, First(s, topic) + |TopicLog(s.hist, topic)|)
  }

  /** A topic that exists stays as it is; a new one goes on where the log in its
      directory ends. */
  function DoCreate(s: State, topic: string, first: nat): State {
    if topic in s.topics then s else s.(topics := s.topics[topic := first])
  }

  /** The first lock region of ProduceIdempotent. */
  datatype Reply = NoProducer | Cached(rec: Rec) | OutOfOrder | Proceed

  function Check(s: State, topic: string, producer: string, seqNo: int): Reply {
    var key := SeqKey(topic, producer);
    if producer == "" then NoProducer
    else if DedupKey(key, seqNo) in s.dedup then Cached(s.dedup[DedupKey(key, seqNo)])
    else if key in s.producerSeq && seqNo < s.producerSeq[key] then OutOfOrder
    else Proceed
  }

  function DoCheck(s: State, id: nat, topic: string, producer: string, seqNo: int, body: Body): State {
    if id in s.calls || !Check(s, topic, producer, seqNo).Proceed? then s else
      s.(calls := s.calls[id := Call(topic, producer, seqNo, body, None)])
  }

  function DoIdemAppend(s: State, id: nat, now: int64, outcome: Outcome): State {
    if id !in s.calls || s.calls[id].stored.Some? then s else
      var c := s.calls[id];
      if outcome.Refused? || c.topic !in s.topics then s.(calls := s.calls - {id}) else
        var rec := MakeRec(s, c.topic, c.body, now);
        var key := SeqKey(c.topic, c.producer);
        var hist := s.hist + [Event(c.topic, rec, Idempotent(key, c.seqNo), outcome.Stored?)];
        s.(hist := hist,
           calls := if outcome.Stored? then s.calls[id := c.(stored := Some(rec))] else s.calls - {id})
  }

  /** The last lock region: a missing last sequence reads as zero. */
  function DoPublish(s: State, id: nat): State {
    if id !in s.calls || s.calls[id].stored.None? then s else
      var c := s.calls[id];
      var key := SeqKey(c.topic, c.producer);
      var last := if key in s.producerSeq then s.producerSeq[key] else 0;
      s.(producerSeq := if c.seqNo > last then s.producerSeq[key := c.seqNo] else s.producerSeq,
         dedup := s.dedup[DedupKey(key, c.seqNo) := c.stored.value],
         calls := s.calls - {id})
  }

  function DoPlain(s: State, topic: string, body: Body, now: int64, outcome: Outcome): State {
    if outcome.Refused? || topic !in s.topics then s else
      s.(hist := s.hist + [Event(topic, MakeRec(s, topic, body, now), Plain, outcome.Stored?)])
  }

  /** A transaction is an object; a name that is reused points to the new one
      while calls already holding the old object keep it. */
  function DoBegin(s: State, producer: string, epoch: int, now: int64): State {
    if producer == "" then s else
      s.(txIds := s.txIds[TxId(producer, epoch, now) := |s.txs|],
         txs := s.txs + [Tx(Open, [])])
  }

  predicate IsOpen(s: State, txId: string) {
    txId in s.txIds && s.txIds[txId] < |s.txs| && s.txs[s.txIds[txId]].status == Open
  }

  function DoStage(s: State, txId: string, rec: TxRecord): State {
    if rec.topic == "" || !IsOpen(s, txId) then s else
      var o := s.txIds[txId];
      s.(txs := s.txs[o := s.txs[o].(records := s.txs[o].records + [rec])])
  }

  function DoAbort(s: State, txId: string): State {
    if !IsOpen(s, txId) then s else
      s.(txs := s.txs[s.txIds[txId] := Tx(Aborted, [])])
  }

  function DoCommitStart(s: State, id: nat, txId: string): State {
    if id in s.commits || !IsOpen(s, txId) then s else
      var o := s.txIds[txId];
      s.(txs := s.txs[o := s.txs[o].(status := Committing)],
         commits := s.commits[id := Commit(o, s.txs[o].records, 0, false, Running, false)])
  }

  predicate InLoop(s: State, id: nat) {
    id in s.commits && s.commits[id].phase == Running && s.commits[id].done < |s.commits[id].records|
  }

  /** CreateTopic for the next record of the commit loop; it may fail. */
  function DoCommitCreate(s: State, id: nat, ok: bool, first: nat): State {
    if !InLoop(s, id) || s.commits[id].ready then s else
      var c := s.commits[id];
      if ok then
        DoCreate(s, c.records[c.done].topic, first).(commits := s.commits[id := c.(ready := true)])
      else
        s.(commits := s.commits[id := c.(phase := Failed)])
  }

  function DoCommitAppend(s: State, id: nat, now: int64, outcome: Outcome): State {
    if !InLoop(s, id) || !s.commits[id].ready then s else
      var c := s.commits[id];
      var r := c.records[c.done];
      if outcome.Refused? || r.topic !in s.topics then
        s.(commits := s.commits[id := c.(phase := Failed)])
      else
        var rec := MakeRec(s, r.topic, r.body, now);
        s.(hist := s.hist + [Event(r.topic, rec, Transactional(c.tx), outcome.Stored?)],
           commits := s.commits[id := if outcome.Stored? then c.(done := c.done + 1, ready := false)
                                      else c.(phase := Failed, orphan := true)])
  }

  function DoCommitFinish(s: State, id: nat): State {
    if id !in s.commits || s.commits[id].phase != Running || s.commits[id].done < |s.commits[id].records|
       || s.commits[id].tx >= |s.txs|
    then s else
      var c := s.commits[id];
      s.(txs := s.txs[c.tx := s.txs[c.tx].(status := Committed)],
         commits := s.commits[id := c.(phase := Finished)])
  }

  /** A step that is not enabled changes nothing. */
  function Next(s: State, step: Step): State {
    match step
    case CreateTopic(topic, first) => DoCreate(s, topic, first)
    case PlainProduce(topic, body, now, outcome) => DoPlain(s, topic, body, now, outcome)
    case IdemCheck(id, topic, producer, seqNo, body) => DoCheck(s, id, topic, producer, seqNo, body)
    case IdemAppend(id, now, outcome) => DoIdemAppend(s, id, now, outcome)
    case IdemPublish(id) => DoPublish(s, id)
    case TxBegin(producer, epoch, now) => DoBegin(s, producer, epoch, now)
    case TxStage(txId, rec) => DoStage(s, txId, rec)
    case TxAbort(txId) => DoAbort(s, txId)
    case CommitStart(id, txId) => DoCommitStart(s, id, txId)
    case CommitCreate(id, ok, first) => DoCommitCreate(s, id, ok, first)
    case CommitAppend(id, now, outcome) => DoCommitAppend(s, id, now, outcome)
    case CommitFinish(id) => DoCommitFinish(s, id)
  }

  function Run(s: State, steps: seq<Step>): State {
    if steps == [] then s else Next(Run(s, steps[..|steps| - 1]), steps[|steps| - 1])
  }

  lemma {:induction false} RunConcat(s: State, a: seq<Step>, b: seq<Step>)
    ensures Run(s, a + b) == Run(Run(s, a), b)
  {
    if b == [] {
      assert a + b == a;
    } else {
      var front := b[..|b| - 1];
      assert (a + b)[..|a + b| - 1] == a + front;
      RunConcat(s, a, front);
    }
  }
}
