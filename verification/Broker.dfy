/** The broker object over its topics. Each method that runs under the lock is
    proved to be one step of the broker over its files; the methods that take the
    lock several times are proved to be a run of steps when nobody else gets in
    between. */
module Brokers {
  import opened Bytes
  import opened SegmentState
  import opened Topics
  import opened TopicTables
  import opened Protocol
  import opened Storage
  import opened StorageRuns
  import opened BrokerSteps
  import SegmentRuns

  datatype IdemResult = Answer(rec: Rec, duplicate: bool) | Rejected

  /** One round of the commit loop: the record is logged and acknowledged exactly if the
      round succeeds; otherwise nothing is, or the record without acknowledgement. */
  ghost predicate Logged(before: seq<Event>, after: seq<Event>, r: TxRecord, o: nat, ok: bool) {
    if |after| == |before| then after == before && !ok else
      && |after| == |before| + 1 && before == after[..|before|]
      && IsRecord(after[|before|], r, o) && (after[|before|].acked <==> ok)
  }

  /** The event carries a record of transaction o. */
  predicate IsRecord(e: Event, r: TxRecord, o: nat) {
    e.topic == r.topic && e.rec.body == r.body && e.origin == Transactional(o)
  }

  /** Behind the old history come these records of transaction o, acknowledged, in order. */
  ghost predicate AllLogged(before: seq<Event>, after: seq<Event>, records: seq<TxRecord>, o: nat) {
    && |before| + |records| <= |after| && before == after[..|before|]
    && forall i :: 0 <= i < |records| ==> LoggedAt(after, |before|, records, i, o)
  }

  predicate LoggedAt(after: seq<Event>, start: nat, records: seq<TxRecord>, i: nat, o: nat)
    requires i < |records| && start + |records| <= |after|
  {
    IsRecord(after[start + i], records[i], o) && after[start + i].acked
  }

  lemma NoneLogged(before: seq<Event>, o: nat)
    ensures AllLogged(before, before, [], o)
  {
  }

  /** Later records leave these where they are. */
  lemma StillLogged(before: seq<Event>, sofar: seq<Event>, after: seq<Event>, records: seq<TxRecord>, o: nat)
    requires AllLogged(before, sofar, records, o) && sofar <= after
    ensures AllLogged(before, after, records, o)
  {
    hide IsRecord;
    assert before == sofar[..|before|] == after[..|before|];
    assert sofar == after[..|sofar|];
    forall i | 0 <= i < |records| ensures LoggedAt(after, |before|, records, i, o) {
      assert LoggedAt(sofar, |before|, records, i, o);
      assert after[|before| + i] == sofar[|before| + i];
    }
  }

  lemma LoggedNext(before: seq<Event>, after: seq<Event>, records: seq<TxRecord>, r: TxRecord, o: nat)
    requires AllLogged(before, after, records, o) && |after| == |before| + |records| + 1
    requires IsRecord(after[|before| + |records|], r, o) && after[|before| + |records|].acked
    ensures AllLogged(before, after, records + [r], o)
  {
    hide IsRecord;
    var recs := records + [r];
    forall i | 0 <= i < |recs| ensures LoggedAt(after, |before|, recs, i, o) {
      if i < |records| {
        assert LoggedAt(after, |before|, records, i, o) && recs[i] == records[i];
      }
    }
  }

  lemma OneLogged(before: seq<Event>, sofar: seq<Event>, after: seq<Event>, records: seq<TxRecord>, n: nat, o: nat,
                  ok: bool)
    requires n < |records| && AllLogged(before, sofar, records[..n], o) && |sofar| == |before| + n
    requires Logged(sofar, after, records[n], o, ok)
    ensures AllLogged(before, after, records[..n], o)
    ensures if ok then AllLogged(before, after, records[..n + 1], o) && |after| == |before| + n + 1
            else |after| <= |before| + n + 1
  {
    hide AllLogged, IsRecord;
    assert sofar == after[..|sofar|];
    StillLogged(before, sofar, after, records[..n], o);
    if ok {
      LoggedNext(before, after, records[..n], records[n], o);
      assert records[..n + 1] == records[..n] + [records[n]];
    }
  }

  class Broker {
    const site: Site
    const table: TopicTable
    var producerSeq: map<string, int>
    var dedup: map<string, Rec>
    var txIds: map<string, nat>
    var txs: seq<Tx>
    ghost var firsts: map<string, nat>
    ghost var hist: seq<Event>
    ghost var calls: map<nat, Call>
    ghost var commits: map<nat, Commit>

    ghost function View(): State
      reads this
    {
      State(firsts, hist, producerSeq, dedup, calls, txIds, txs, commits)
    }

    ghost function Sys(): System
      reads this, table
    {
      System(View(), table.disk)
    }

    ghost predicate Valid()
      reads this, table, table.Repr
    {
      && this !in table.Repr && table !in table.Repr && table.Valid() && table.site == site
      && RoundTrips(site.codec) && Consistent(site, Sys())
      && (forall txId :: txId in txIds ==> txIds[txId] < |txs|)
    }

    constructor (site: Site)
      requires RoundTrips(site.codec)
      ensures Valid() && fresh(table) && fresh(table.Repr) && this.site == site
      ensures Sys() == System(Initial(), NO_FILES)
    {
      this.site := site;
      table := new TopicTable(site);
      producerSeq, dedup, txIds, txs := map[], map[], map[], [];
      firsts, hist, calls, commits := map[], [], map[], map[];
      new;
      NoFiles(site, Sys());
    }

    method CreateTopic(topic: string)
      requires Valid()
      modifies this`firsts, table
      ensures Valid() && forall x :: x in table.Repr ==> x in old(table.Repr) || fresh(x)
      ensures Sys() == Advance(site, old(Sys()), Protocol.CreateTopic(topic, 0), FINE)
      ensures topic in table.disk.topics && hist == old(hist)
      ensures topic in old(table.disk.topics) ==> Sys() == old(Sys())
      ensures topic !in old(table.disk.topics) ==> table.disk == OpenIn(site, old(table.disk), topic)
    {
      hide Consistent, Advance, RoundTrips, TopicTable.Valid, FirstOf, FilesAt, PathAt;
      CreateStep(site, Sys(), topic);
      table.Known(topic);
      if topic !in table.topics {
        firsts := firsts[topic := FirstOf(FilesAt(site, table.disk, PathAt(site, topic)))];
        table.Add(topic);
      }
    }

    /** Produce under the lock, on behalf of whoever the origin names. */
    method ProduceFor(topic: string, body: Body, now: int64, env: Env, ghost origin: Origin) returns (r: Option<Rec>)
      requires Valid()
      modifies this`hist, table`disk, table.Repr
      ensures Valid() && Whole(site, old(Sys()).disk)
      ensures Sys() == Supplied(site, old(Sys()), Request(topic, body, now), origin, env)
      ensures r == Returned(site, old(Sys()), Request(topic, body, now), env)
      ensures r.Some? ==> SafelyRead(site, Sys(), topic, r.value)
      ensures Recorded(old(hist), hist, Request(topic, body, now), origin, r)
      ensures r.Some? <==>
                && !env.draining && env.fault.NoFault? && topic in old(table.disk.topics)
                && var t := old(table.disk.topics)[topic];
                   var m := Message(body.key, body.value, body.headers, now);
                   Keeps(site.codec, t.seg.position, Stamp(m, t.next), NoFault)
      ensures env.draining || topic !in old(table.disk.topics) ==> r.None? && Sys() == old(Sys())
    {
      hide Consistent, Whole, RoundTrips, WriteIn, OutcomeOf, Returned, Added, SegmentRuns.AppendResult;
      hide TopicTable.Valid, SafelyRead, Recorded, Keeps;
      ghost var y := Sys();
      table.Known(topic);
      ghost var o := Request(topic, body, now);
      SupplyStep(site, y, o, origin, env);
      SuppliedReadsBack(site, y, o, origin, env);
      SuppliedRecords(site, y, o, origin, env);
      ReturnedIff(site, y, o, env);
      if env.draining || topic !in table.topics {
        Unsupplied(site, y, o, origin, env);
        return None;
      }
      var m := Message(body.key, body.value, body.headers, now);
      SupplyStored(site, y, o, env);
      hist := hist + Added(y.s, o, origin, OutcomeOf(site.codec, y.disk.topics[topic], m, env));
      var stored := table.Produce(topic, m, env);
      r := if stored.Some? then Some(Rec(body, now, stored.value.offset)) else None;
    }

    method Produce(topic: string, body: Body, now: int64, env: Env) returns (r: Option<Rec>)
      requires Valid()
      modifies this`hist, table`disk, table.Repr
      ensures Valid() && Sys() == Advance(site, old(Sys()), PlainProduce(topic, body, now, Refused), env)
      ensures r.Some? ==> SafelyRead(site, Sys(), topic, r.value)
      ensures Recorded(old(hist), hist, Request(topic, body, now), Plain, r)
      ensures r.Some? <==>
                && !env.draining && env.fault.NoFault? && topic in old(table.disk.topics)
                && var t := old(table.disk.topics)[topic];
                   var m := Message(body.key, body.value, body.headers, now);
                   Keeps(site.codec, t.seg.position, Stamp(m, t.next), NoFault)
      ensures env.draining || topic !in old(table.disk.topics) ==> r.None? && Sys() == old(Sys())
    {
      hide Recorded, Keeps, TopicTable.Valid, Consistent, Whole, RoundTrips, Advance, Supplied, Returned, SafelyRead;
      PlainStep(site, Sys(), Request(topic, body, now), env);
      r := ProduceFor(topic, body, now, env, Plain);
    }

    // ---------- idempotent producing ----------

    method IdemCheck(ghost id: nat, topic: string, producer: string, seqNo: int, body: Body) returns (reply: Reply)
      requires Valid() && id !in calls
      modifies this`calls
      ensures Valid() && reply == Check(old(View()), topic, producer, seqNo)
      ensures Sys() == Advance(site, old(Sys()), Protocol.IdemCheck(id, topic, producer, seqNo, body), FINE)
      ensures reply.Proceed? ==> id in calls && calls[id] == Call(topic, producer, seqNo, body, None)
      ensures !reply.Proceed? ==> Sys() == old(Sys())
      ensures hist == old(hist) && (reply.NoProducer? <==> producer == "")
    {
      hide TopicTable.Valid, SafelyRead, Consistent, Whole, Advance, RoundTrips, SeqKey, DedupKey;
      QuietStep(site, Sys(), Protocol.IdemCheck(id, topic, producer, seqNo, body));
      if producer == "" {
        return NoProducer;
      }
      var key := SeqKey(topic, producer);
      var dedupKey := DedupKey(key, seqNo);
      if dedupKey in dedup {
        return Cached(dedup[dedupKey]);
      }
      if key in producerSeq && seqNo < producerSeq[key] {
        return OutOfOrder;
      }
      calls := calls[id := Call(topic, producer, seqNo, body, None)];
      reply := Proceed;
    }

    method IdemAppend(ghost id: nat, topic: string, producer: string, seqNo: int, body: Body, now: int64, env: Env)
      returns (r: Option<Rec>)
      requires Valid() && id in calls && calls[id] == Call(topic, producer, seqNo, body, None)
      modifies this`hist, this`calls, table`disk, table.Repr
      ensures Valid() && Sys() == Advance(site, old(Sys()), Protocol.IdemAppend(id, now, Refused), env)
      ensures r.Some? ==> id in calls && calls[id] == Call(topic, producer, seqNo, body, r)
      ensures r.Some? ==> SafelyRead(site, Sys(), topic, r.value)
      ensures r.None? ==> dedup == old(dedup)
      ensures Recorded(old(hist), hist, Request(topic, body, now), Idempotent(SeqKey(topic, producer), seqNo), r)
    {
      hide Recorded, TopicTable.Valid, SafelyRead, Consistent, Whole, Advance, RoundTrips, Supplied, Returned, SeqKey;
      ghost var y := Sys();
      ghost var origin := Idempotent(SeqKey(topic, producer), seqNo);
      IdemStep(site, y, id, now, env);
      r := ProduceFor(topic, body, now, env, origin);
      ghost var z := Sys();
      calls := if r.Some? then calls[id := calls[id].(stored := r)] else calls - {id};
      SameReads(site, z, Sys(), topic, r);
    }

    method IdemPublish(ghost id: nat, topic: string, producer: string, seqNo: int, rec: Rec)
      requires Valid() && id in calls && calls[id] == Call(topic, producer, seqNo, calls[id].body, Some(rec))
      modifies this`producerSeq, this`dedup, this`calls
      ensures Valid() && Sys() == Advance(site, old(Sys()), Protocol.IdemPublish(id), FINE)
      ensures Sys().s == DoPublish(old(View()), id)
      ensures hist == old(hist) && dedup == old(dedup)[DedupKey(SeqKey(topic, producer), seqNo) := rec]
    {
      hide TopicTable.Valid, SafelyRead, Consistent, Whole, Advance, RoundTrips, SeqKey, DedupKey;
      QuietStep(site, Sys(), Protocol.IdemPublish(id));
      var key := SeqKey(topic, producer);
      if seqNo > (if key in producerSeq then producerSeq[key] else 0) {
        producerSeq := producerSeq[key := seqNo];
      }
      dedup := dedup[DedupKey(key, seqNo) := rec];
      calls := calls - {id};
    }

    /** The whole call. Whoever gets an answer finds it in the cache afterwards. */
    method ProduceIdempotent(ghost id: nat, topic: string, producer: string, seqNo: int, body: Body, now: int64,
                             env: Env)
      returns (r: IdemResult, ghost steps: seq<(Step, Env)>)
      requires Valid() && id !in calls
      modifies this, table`disk, table.Repr
      ensures Valid() && Sys() == RunFrom(site, old(Sys()), steps)
      ensures steps <= [(Protocol.IdemCheck(id, topic, producer, seqNo, body), FINE),
                        (Protocol.IdemAppend(id, now, Refused), env), (Protocol.IdemPublish(id), FINE)]
      ensures steps != [] && (|steps| == 3 <==> r.Answer? && !r.duplicate)
      ensures r.Answer? && r.duplicate ==> |steps| == 1
      ensures r.Answer? ==> Check(View(), topic, producer, seqNo) == Cached(r.rec)
      ensures r.Answer? && r.duplicate ==> Sys() == old(Sys())
      ensures r.Answer? && !r.duplicate ==> SafelyRead(site, Sys(), topic, r.rec)
      ensures r.Rejected? ==> dedup == old(dedup) && producerSeq == old(producerSeq)
      ensures producer == "" ==> r.Rejected? && |steps| == 1
      ensures var added := if r.Answer? && !r.duplicate then Some(r.rec) else None;
              Recorded(old(hist), hist, Request(topic, body, now), Idempotent(SeqKey(topic, producer), seqNo), added)
    {
      hide TopicTable.Valid, SafelyRead, Consistent, Whole, Advance, RoundTrips, SeqKey, DedupKey, RunFrom, MakeRec;
      ghost var y := Sys();
      Start(site, y);
      steps := [];
      var reply := IdemCheck(id, topic, producer, seqNo, body);
      Extend(site, y, steps, Protocol.IdemCheck(id, topic, producer, seqNo, body), FINE);
      steps := steps + [(Protocol.IdemCheck(id, topic, producer, seqNo, body), FINE)];
      match reply
      case NoProducer => r := Rejected;
      case OutOfOrder => r := Rejected;
      case Cached(rec) => r := Answer(rec, true);
      case Proceed =>
        var rec := IdemAppend(id, topic, producer, seqNo, body, now, env);
        Extend(site, y, steps, Protocol.IdemAppend(id, now, Refused), env);
        steps := steps + [(Protocol.IdemAppend(id, now, Refused), env)];
        if rec.None? {
          r := Rejected;
        } else {
          ghost var z := Sys();
          IdemPublish(id, topic, producer, seqNo, rec.value);
          SameReads(site, z, Sys(), topic, rec);
          Extend(site, y, steps, Protocol.IdemPublish(id), FINE);
          steps := steps + [(Protocol.IdemPublish(id), FINE)];
          r := Answer(rec.value, false);
        }
    }

    // ---------- transactions ----------

    method BeginTransaction(producer: string, epoch: int, now: int64) returns (txId: Option<string>)
      requires Valid()
      modifies this`txIds, this`txs
      ensures Valid() && Sys() == Advance(site, old(Sys()), TxBegin(producer, epoch, now), FINE)
      ensures txId == if producer == "" then None else Some(TxId(producer, epoch, now))
      ensures txId.Some? ==> IsOpen(View(), txId.value) && txs[txIds[txId.value]].records == []
      ensures txId.Some? ==> txs == old(txs) + [Tx(Status.Open, [])] && txIds == old(txIds)[txId.value := |old(txs)|]
      ensures txId.None? ==> Sys() == old(Sys())
    {
      hide TopicTable.Valid, Consistent, Whole, Advance, RoundTrips, TxId;
      QuietStep(site, Sys(), TxBegin(producer, epoch, now));
      if producer == "" {
        return None;
      }
      var id := TxId(producer, epoch, now);
      txIds := txIds[id := |txs|];
      txs := txs + [Tx(Status.Open, [])];
      txId := Some(id);
    }

    method TxProduce(txId: string, rec: TxRecord) returns (ok: bool)
      requires Valid()
      modifies this`txs
      ensures Valid() && Sys() == Advance(site, old(Sys()), TxStage(txId, rec), FINE)
      ensures ok <==> rec.topic != "" && old(IsOpen(View(), txId))
      ensures ok ==> var o := txIds[txId];
                     txs == old(txs)[o := Tx(Status.Open, old(txs[txIds[txId]].records) + [rec])]
      ensures !ok ==> txs == old(txs)
    {
      hide TopicTable.Valid, Consistent, Whole, Advance, RoundTrips;
      QuietStep(site, Sys(), TxStage(txId, rec));
      if rec.topic == "" || txId !in txIds || txs[txIds[txId]].status != Status.Open {
        return false;
      }
      var o := txIds[txId];
      txs := txs[o := txs[o].(records := txs[o].records + [rec])];
      ok := true;
    }

    method AbortTransaction(txId: string) returns (ok: bool)
      requires Valid()
      modifies this`txs
      ensures Valid() && Sys() == Advance(site, old(Sys()), TxAbort(txId), FINE)
      ensures ok <==> old(IsOpen(View(), txId))
      ensures ok ==> txs == old(txs)[txIds[txId] := Tx(Aborted, [])]
      ensures !ok ==> txs == old(txs)
    {
      hide TopicTable.Valid, Consistent, Whole, Advance, RoundTrips;
      QuietStep(site, Sys(), TxAbort(txId));
      if txId !in txIds || txs[txIds[txId]].status != Status.Open {
        return false;
      }
      txs := txs[txIds[txId] := Tx(Aborted, [])];
      ok := true;
    }

    /** The first lock region of CommitTransaction. */
    method CommitBegin(ghost id: nat, txId: string) returns (ok: bool, o: nat, records: seq<TxRecord>)
      requires Valid() && id !in commits
      modifies this`txs, this`commits
      ensures Valid() && Sys() == Advance(site, old(Sys()), CommitStart(id, txId), FINE)
      ensures ok == old(IsOpen(View(), txId))
      ensures !ok ==> Sys() == old(Sys())
      ensures ok ==> o == old(txIds[txId]) < |txs| && records == old(txs[txIds[txId]].records)
      ensures ok ==> id in commits && commits[id] == Commit(o, records, 0, false, Running, false)
      ensures ok ==> txs == old(txs)[o := Tx(Committing, records)]
      ensures hist == old(hist)
    {
      hide TopicTable.Valid, Consistent, Whole, Advance, RoundTrips;
      QuietStep(site, Sys(), CommitStart(id, txId));
      ok, o, records := false, 0, [];
      if txId !in txIds || txs[txIds[txId]].status != Status.Open {
        return;
      }
      ok, o := true, txIds[txId];
      records := txs[o].records;
      txs := txs[o := txs[o].(status := Committing)];
      commits := commits[id := Commit(o, records, 0, false, Running, false)];
    }

    /** CreateTopic for the next record of the commit loop. */
    method CommitTopic(ghost id: nat, topic: string, created: bool)
      requires Valid() && InLoop(View(), id) && !commits[id].ready
      requires commits[id].records[commits[id].done].topic == topic
      modifies this`commits, this`firsts, table
      ensures Valid() && Sys() == Advance(site, old(Sys()), CommitCreate(id, created, 0), FINE)
      ensures forall x :: x in table.Repr ==> x in old(table.Repr) || fresh(x)
      ensures id in commits
      ensures commits[id] == if created then old(commits[id]).(ready := true) else old(commits[id]).(phase := Failed)
      ensures created ==> topic in table.disk.topics
      ensures hist == old(hist)
    {
      hide Consistent, Whole, Advance, RoundTrips, TopicTable.Valid;
      CreateInLoopStep(site, Sys(), id, created);
      if created {
        CreateTopic(topic);
      }
      commits := commits[id := if created then commits[id].(ready := true) else commits[id].(phase := Failed)];
    }

    /** Produce for the next record of the commit loop. */
    method CommitRecord(ghost id: nat, ghost o: nat, r: TxRecord, now: int64, env: Env) returns (ok: bool)
      requires Valid() && InLoop(View(), id) && commits[id].ready && !commits[id].orphan && commits[id].tx == o
      requires commits[id].records[commits[id].done] == r && r.topic in table.disk.topics
      modifies this`hist, this`commits, table`disk, table.Repr
      ensures Valid() && Sys() == Advance(site, old(Sys()), CommitAppend(id, now, Refused), env)
      ensures id in commits
      ensures ok ==> commits[id] == old(commits[id]).(done := old(commits[id]).done + 1, ready := false)
      ensures !ok ==> commits[id].phase.Failed? && commits[id].done == old(commits[id]).done && commits[id].tx == o
      ensures Logged(old(hist), hist, r, o, ok)
    {
      hide TopicTable.Valid, SafelyRead, Consistent, Whole, Advance, RoundTrips, Supplied, OutcomeOf, MakeRec;
      ghost var y := Sys();
      ghost var c := commits[id];
      AppendInLoopStep(site, y, id, now, env);
      ghost var outcome := OutcomeOf(site.codec, y.disk.topics[r.topic], Content(Request(r.topic, r.body, now)), env);
      var rec := ProduceFor(r.topic, r.body, now, env, Transactional(o));
      commits := commits[id := if outcome.Stored? then c.(done := c.done + 1, ready := false)
                               else c.(phase := Failed, orphan := outcome.Orphaned?)];
      ok := rec.Some?;
    }

    /** One round of the commit loop: CreateTopic, then Produce. */
    method CommitOne(ghost id: nat, ghost o: nat, r: TxRecord, created: bool, now: int64, env: Env,
                     ghost y: System, ghost before: seq<(Step, Env)>)
      returns (ok: bool, ghost steps: seq<(Step, Env)>)
      requires Valid() && InLoop(View(), id) && !commits[id].ready && !commits[id].orphan && commits[id].tx == o
      requires commits[id].records[commits[id].done] == r
      requires Whole(site, y.disk) && Sys() == RunFrom(site, y, before) && forall p :: p in before ==> OfCommit(p.0, id)
      modifies this`hist, this`commits, this`firsts, table, table.Repr
      ensures Valid() && Sys() == RunFrom(site, y, steps) && forall p :: p in steps ==> OfCommit(p.0, id)
      ensures forall x :: x in table.Repr ==> x in old(table.Repr) || fresh(x)
      ensures id in commits
      ensures ok ==> commits[id] == old(commits[id]).(done := old(commits[id]).done + 1)
      ensures !ok ==> commits[id].phase.Failed? && commits[id].done == old(commits[id]).done && commits[id].tx == o
      ensures Logged(old(hist), hist, r, o, ok)
    {
      hide TopicTable.Valid, Consistent, Whole, Advance, RoundTrips, RunFrom;
      CommitTopic(id, r.topic, created);
      Extend(site, y, before, CommitCreate(id, created, 0), FINE);
      steps := before + [(CommitCreate(id, created, 0), FINE)];
      ok := false;
      if created {
        ok := CommitRecord(id, o, r, now, env);
        Extend(site, y, steps, CommitAppend(id, now, Refused), env);
        steps := steps + [(CommitAppend(id, now, Refused), env)];
      }
    }

    /** The last lock region of CommitTransaction. */
    method CommitEnd(ghost id: nat, o: nat)
      requires Valid() && id in commits && commits[id].phase.Running? && commits[id].done == |commits[id].records|
      requires commits[id].tx == o < |txs|
      modifies this`txs, this`commits
      ensures Valid() && Sys() == Advance(site, old(Sys()), CommitFinish(id), FINE)
      ensures id in commits && commits[id] == old(commits[id]).(phase := Finished)
      ensures txs == old(txs)[o := old(txs[o]).(status := Committed)]
    {
      hide TopicTable.Valid, Consistent, Whole, Advance, RoundTrips;
      QuietStep(site, Sys(), CommitFinish(id));
      txs := txs[o := txs[o].(status := Committed)];
      commits := commits[id := commits[id].(phase := Finished)];
    }

    /** The whole call: create each record's topic and produce it, counting the
        successes. It takes only steps of its own commit, returns what its
        bookkeeping shows, and succeeds exactly when every staged record was
        counted. */
    method CommitTransaction(ghost id: nat, txId: string, creates: nat -> bool, clock: nat -> int64, envs: nat -> Env)
      returns (committed: nat, ok: bool, ghost steps: seq<(Step, Env)>)
      requires Valid() && id !in commits
      modifies this, table, table.Repr
      ensures Valid() && Sys() == RunFrom(site, old(Sys()), steps)
      ensures forall p :: p in steps ==> OfCommit(p.0, id)
      ensures !old(IsOpen(View(), txId)) ==> !ok && committed == 0 && Sys() == old(Sys())
      ensures old(IsOpen(View(), txId)) ==>
                && id in commits && commits[id].done == committed && commits[id].tx == old(txIds[txId])
                && (ok <==> commits[id].phase.Finished?)
                && (ok ==> committed == |old(txs[txIds[txId]].records)|)
      ensures old(IsOpen(View(), txId)) ==>
                var o, records := old(txIds[txId]), old(txs[txIds[txId]].records);
                && txs == old(txs)[o := Tx(if ok then Committed else Committing, records)]
                && committed <= |records| && AllLogged(old(hist), hist, records[..committed], o)
                && (if ok then |hist| == |old(hist)| + committed else |hist| <= |old(hist)| + committed + 1)
    {
      hide TopicTable.Valid, Consistent, Whole, Advance, RoundTrips, RunFrom, MakeRec, Logged, AllLogged;
      committed, steps := 0, [];
      ghost var y := Sys();
      Start(site, y);
      var o, records;
      ok, o, records := CommitBegin(id, txId);
      Extend(site, y, steps, CommitStart(id, txId), FINE);
      steps := steps + [(CommitStart(id, txId), FINE)];
      if !ok {
        return;
      }
      ghost var before, marked := hist, txs;
      NoneLogged(before, o);
      assert records[..0] == [];
      while committed < |records|
        invariant Valid() && committed <= |records| && o < |txs|
        invariant forall x :: x in table.Repr ==> x in old(table.Repr) || fresh(x)
        invariant id in commits && commits[id] == Commit(o, records, committed, false, Running, false)
        invariant Sys() == RunFrom(site, y, steps)
        invariant forall p :: p in steps ==> OfCommit(p.0, id)
        invariant txs == marked && AllLogged(before, hist, records[..committed], o)
        invariant |hist| == |before| + committed
      {
        ghost var sofar := hist;
        ok, steps := CommitOne(id, o, records[committed], creates(committed),
                               clock(committed), envs(committed), y, steps);
        OneLogged(before, sofar, hist, records, committed, o, ok);
        if !ok {
          return;
        }
        committed := committed + 1;
      }
      assert records[..committed] == records;
      CommitEnd(id, o);
      Extend(site, y, steps, CommitFinish(id), FINE);
      steps := steps + [(CommitFinish(id), FINE)];
      ok := true;
    }
  }
}
