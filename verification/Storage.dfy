/** The broker over its topics' files: the protocol with every outcome of Produce
    decided by what the segment does. Topics whose names lead to one directory
    share its files. */
module Storage {
  import opened Bytes
  import opened Paths
  import opened SegmentState
  import opened Topics
  import opened Protocol
  import Idempotence
  import SegmentRuns

  /** Where a broker runs: its codec, its directory, and what the directories
      below held before it started. */
  datatype Site = Site(codec: Codec, dir: Path, boot: Path -> Files)

  /** The directories opened so far, and the topics over them. */
  datatype Disk = Disk(dirs: map<Path, Files>, topics: map<string, TopicState>)

  datatype System = System(s: State, disk: Disk)

  /** What the environment does to one call of Produce. */
  datatype Env = Env(draining: bool, fault: Fault)

  const FINE := Env(false, NoFault)

  const NO_FILES := Disk(map[], map[])

  // ---------- files ----------

  function PathAt(k: Site, topic: string): Path {
    PathOf(k.dir, topic)
  }

  function FilesAt(k: Site, d: Disk, p: Path): Files {
    if p in d.dirs then d.dirs[p] else k.boot(p)
  }

  /** CreateTopic: a new topic over whatever its directory holds. */
  function OpenIn(k: Site, d: Disk, topic: string): Disk {
    var p := PathAt(k, topic);
    var f := FilesAt(k, d, p);
    Disk(d.dirs[p := f], d.topics[topic := Created(Opened(f))])
  }

  /** How a topic looks once the directory p holds f. */
  function Seen(k: Site, topic: string, t: TopicState, p: Path, f: Files): TopicState {
    if PathAt(k, topic) == p then t.(seg := WithFiles(t.seg, f)) else t
  }

  predicate Uses(k: Site, d: Disk, p: Path, topic: string) {
    topic in d.topics && PathAt(k, topic) == p
  }

  /** A topic works on its directory, and never past the end of the log. */
  ghost predicate InStep(k: Site, d: Disk, topic: string)
    requires topic in d.topics
  {
    var seg := d.topics[topic].seg;
    && PathAt(k, topic) in d.dirs && d.dirs[PathAt(k, topic)] == FilesOf(seg)
    && 0 <= seg.position <= |seg.log|
  }

  ghost predicate Whole(k: Site, d: Disk) {
    && (forall t :: t in d.topics ==> InStep(k, d, t))
    && (forall p :: p in d.dirs ==> exists t :: Uses(k, d, p, t))
  }

  /** Produce on one topic: all topics over its directory see the files change. */
  ghost function WriteIn(k: Site, d: Disk, topic: string, m: Message, env: Env): Disk
    requires Whole(k, d) && topic in d.topics
  {
    if env.draining then d else
      assert InStep(k, d, topic);
      var g := Produced(k.codec, d.topics[topic], m, env.fault);
      var p := PathAt(k, topic);
      Disk(d.dirs[p := FilesOf(g.seg)],
           map u | u in d.topics :: if u == topic then g else Seen(k, u, d.topics[u], p, FilesOf(g.seg)))
  }

  lemma OpenWhole(k: Site, d: Disk, topic: string)
    requires Whole(k, d) && topic !in d.topics
    ensures Whole(k, OpenIn(k, d, topic))
  {
    hide LoadNext, LoadMap, PathOf;
    var d' := OpenIn(k, d, topic);
    forall t | t in d'.topics ensures InStep(k, d', t) {
      assert t != topic ==> InStep(k, d, t);
    }
    forall p | p in d'.dirs ensures exists t :: Uses(k, d', p, t) {
      if p == PathAt(k, topic) {
        assert Uses(k, d', p, topic);
      } else {
        var t :| Uses(k, d, p, t);
        assert Uses(k, d', p, t);
      }
    }
  }

  /** An append never leaves its own position, or another's, behind the end of the log. */
  lemma AppendLength(c: Codec, s: Seg, rec: Record, fault: Fault)
    requires 0 <= s.position <= |s.log|
    ensures var s' := Append(c, s, rec, fault);
            && 0 <= s'.position <= |s'.log| && |s.log| <= |s'.log|
            && s'.nextOffset == s.nextOffset + if Keeps(c, s.position, rec, fault) then 1 else 0
  {
    hide IndexBytes;
  }

  lemma ProducedLength(c: Codec, t: TopicState, m: Message, fault: Fault)
    requires 0 <= t.seg.position <= |t.seg.log|
    ensures var seg := Produced(c, t, m, fault).seg;
            && 0 <= seg.position <= |seg.log| && |t.seg.log| <= |seg.log|
            && seg.nextOffset == t.seg.nextOffset + if Keeps(c, t.seg.position, Stamp(m, t.next), fault) then 1 else 0
  {
    hide Append, Keeps;
    AppendLength(c, t.seg, Stamp(m, t.next), fault);
  }

  lemma WriteWhole(k: Site, d: Disk, topic: string, m: Message, env: Env)
    requires Whole(k, d) && topic in d.topics
    ensures Whole(k, WriteIn(k, d, topic, m, env))
  {
    hide Produced, PathOf;
    if !env.draining {
      var d' := WriteIn(k, d, topic, m, env);
      assert InStep(k, d, topic);
      ProducedLength(k.codec, d.topics[topic], m, env.fault);
      forall t | t in d'.topics ensures InStep(k, d', t) {
        assert InStep(k, d, t);
      }
      forall p | p in d'.dirs ensures exists t :: Uses(k, d', p, t) {
        if p == PathAt(k, topic) {
          assert Uses(k, d', p, topic);
        } else {
          var t :| Uses(k, d, p, t);
          assert Uses(k, d', p, t);
        }
      }
    }
  }

  // ---------- one step ----------

  /** What Produce is asked to store. */
  datatype Request = Request(topic: string, body: Body, now: int64)

  /** What a step asks Produce for, if it gets as far as the segment. */
  function RequestOf(s: State, step: Step): Option<Request> {
    match step
    case PlainProduce(topic, body, now, _) =>
      if topic in s.topics then Some(Request(topic, body, now)) else None
    case IdemAppend(id, now, _) =>
      if id in s.calls && s.calls[id].stored.None? && s.calls[id].topic in s.topics
      then Some(Request(s.calls[id].topic, s.calls[id].body, now)) else None
    case CommitAppend(id, now, _) =>
      if InLoop(s, id) && s.commits[id].ready && s.commits[id].records[s.commits[id].done].topic in s.topics
      then
        var r := s.commits[id].records[s.commits[id].done];
        Some(Request(r.topic, r.body, now))
      else None
    case _ => None
  }

  /** The topic a step makes. */
  function OpensOf(s: State, step: Step): Option<string> {
    match step
    case CreateTopic(topic, _) => if topic in s.topics then None else Some(topic)
    case CommitCreate(id, ok, _) =>
      if InLoop(s, id) && !s.commits[id].ready && ok && s.commits[id].records[s.commits[id].done].topic !in s.topics
      then Some(s.commits[id].records[s.commits[id].done].topic) else None
    case _ => None
  }

  predicate HasOutcome(step: Step) {
    step.PlainProduce? || step.IdemAppend? || step.CommitAppend?
  }

  function WithOutcome(step: Step, outcome: Outcome): Step {
    if HasOutcome(step) then step.(outcome := outcome) else step
  }

  function WithFirst(step: Step, first: nat): Step {
    if step.CreateTopic? || step.CommitCreate? then step.(first := first) else step
  }

  function Content(o: Request): Message {
    Message(o.body.key, o.body.value, o.body.headers, o.now)
  }

  /** How Produce ends: not stored, stored and reported, or stored with an error. */
  function OutcomeOf(c: Codec, t: TopicState, m: Message, env: Env): Outcome {
    var rec := Stamp(m, t.next);
    if env.draining || !Keeps(c, t.seg.position, rec, env.fault) then Refused
    else if SegmentRuns.AppendResult(c, t.seg, rec, env.fault).Some? then Stored
    else Orphaned
  }

  lemma {:induction false} NextAtLeast(data: seq<byte>, start: int, n: nat)
    requires 16 * n <= |data|
    ensures LoadNext(data, start, n) >= start
  {
    if n > 0 {
      NextAtLeast(data, start, n - 1);
    }
  }

  /** The first offset a topic opened over these files hands out. */
  function FirstOf(f: Files): (n: nat)
    ensures n == Opened(f).nextOffset
  {
    NextAtLeast(f.indexFile, 0, |f.indexFile| / 16);
    LoadNext(f.indexFile, 0, |f.indexFile| / 16)
  }

  /** The step with the outcome its segment gives, or the first offset of its new topic. */
  function Resolve(k: Site, y: System, step: Step, env: Env): Step {
    var t, o := OpensOf(y.s, step), RequestOf(y.s, step);
    if t.Some? then WithFirst(step, FirstOf(FilesAt(k, y.disk, PathAt(k, t.value))))
    else if o.Some? && o.value.topic in y.disk.topics
    then WithOutcome(step, OutcomeOf(k.codec, y.disk.topics[o.value.topic], Content(o.value), env))
    else step
  }

  ghost function DiskAfter(k: Site, y: System, step: Step, env: Env): (d: Disk)
    requires Whole(k, y.disk)
    ensures Whole(k, d)
  {
    hide Whole, WriteIn, OpenIn;
    var t, o := OpensOf(y.s, step), RequestOf(y.s, step);
    if t.Some? && t.value !in y.disk.topics then
      OpenWhole(k, y.disk, t.value);
      OpenIn(k, y.disk, t.value)
    else if o.Some? && o.value.topic in y.disk.topics then
      WriteWhole(k, y.disk, o.value.topic, Content(o.value), env);
      WriteIn(k, y.disk, o.value.topic, Content(o.value), env)
    else y.disk
  }

  ghost function Advance(k: Site, y: System, step: Step, env: Env): (y': System)
    requires Whole(k, y.disk)
    ensures Whole(k, y'.disk)
  {
    System(Next(y.s, Resolve(k, y, step, env)), DiskAfter(k, y, step, env))
  }

  ghost function RunFrom(k: Site, y: System, steps: seq<(Step, Env)>): (y': System)
    requires Whole(k, y.disk)
    ensures Whole(k, y'.disk)
  {
    hide Whole;
    if steps == [] then y else
      Advance(k, RunFrom(k, y, steps[..|steps| - 1]), steps[|steps| - 1].0, steps[|steps| - 1].1)
  }

  /** From a broker without topics. */
  ghost function RunAll(k: Site, steps: seq<(Step, Env)>): (y: System)
    ensures Whole(k, y.disk)
  {
    RunFrom(k, System(Initial(), NO_FILES), steps)
  }

  ghost function Resolved(k: Site, steps: seq<(Step, Env)>): (r: seq<Step>)
    ensures |r| == |steps|
  {
    if steps == [] then [] else
      Resolved(k, steps[..|steps| - 1])
      + [Resolve(k, RunAll(k, steps[..|steps| - 1]), steps[|steps| - 1].0, steps[|steps| - 1].1)]
  }

  /** What is proved of all runs of the protocol holds of the broker over files. */
  lemma {:induction false} RunsProtocol(k: Site, steps: seq<(Step, Env)>)
    ensures RunAll(k, steps).s == Run(Initial(), Resolved(k, steps))
  {
    hide Whole, Resolve, Next, DiskAfter;
    if steps != [] {
      var front := steps[..|steps| - 1];
      RunsProtocol(k, front);
      var (step, env) := steps[|steps| - 1];
      Idempotence.RunOne(Initial(), Resolved(k, front), Resolve(k, RunAll(k, front), step, env));
    }
  }

  // ---------- offsets ----------

  /** The next offset in memory counts the topic's records, whoever shares its files. */
  ghost predicate Counted(y: System, topic: string) {
    var n := |TopicLog(y.s.hist, topic)|;
    if topic in y.disk.topics
    then topic in y.s.topics && y.disk.topics[topic].seg.nextOffset == y.s.topics[topic] + n
    else topic !in y.s.topics && n == 0
  }

  ghost predicate Ready(k: Site, y: System) {
    Whole(k, y.disk) && forall t :: Counted(y, t)
  }

  /** What one call of Produce adds to the history. */
  function Added(s: State, o: Request, origin: Origin, outcome: Outcome): seq<Event> {
    if outcome.Refused? then [] else [Event(o.topic, MakeRec(s, o.topic, o.body, o.now), origin, outcome.Stored?)]
  }

  /** The origin a step gives its record. */
  function OriginOf(s: State, step: Step): Origin {
    match step
    case IdemAppend(id, _, _) =>
      if id in s.calls then Idempotent(SeqKey(s.calls[id].topic, s.calls[id].producer), s.calls[id].seqNo) else Plain
    case CommitAppend(id, _, _) => if id in s.commits then Transactional(s.commits[id].tx) else Plain
    case _ => Plain
  }

  /** The history grows by exactly what was asked for. */
  lemma HistStep(s: State, step: Step)
    ensures Next(s, step).hist ==
            match RequestOf(s, step)
            case None => s.hist
            case Some(o) => s.hist + Added(s, o, OriginOf(s, step), step.outcome)
  {
    hide MakeRec, SeqKey, DedupKey, TxId, Check;
    if step.IdemAppend? || step.CommitAppend? || step.PlainProduce? {
      hide DoCheck, DoPublish, DoBegin, DoStage, DoAbort, DoCommitStart, DoCommitCreate, DoCommitFinish;
    }
  }

  lemma TopicsStep(s: State, step: Step)
    ensures Next(s, step).topics ==
            match OpensOf(s, step)
            case None => s.topics
            case Some(t) => s.topics[t := step.first]
  {
    if step.CommitCreate? {
      hide DoCommitCreate, OpensOf;
      LoopTopics(s, step.id, step.ok, step.first);
    } else if !step.CreateTopic? {
      hide Next;
      Idempotence.SameTopics(s, step);
    }
  }

  lemma LoopTopics(s: State, id: nat, ok: bool, first: nat)
    ensures DoCommitCreate(s, id, ok, first).topics ==
            match OpensOf(s, CommitCreate(id, ok, first))
            case None => s.topics
            case Some(t) => s.topics[t := first]
  {
    hide InLoop;
  }

  /** No step both makes a topic and calls Produce, which needs one that exists. */
  lemma StepShape(s: State, step: Step)
    ensures OpensOf(s, step).Some? ==> OpensOf(s, step).value !in s.topics && RequestOf(s, step).None?
    ensures RequestOf(s, step).Some? ==> RequestOf(s, step).value.topic in s.topics && HasOutcome(step)
  {
    hide InLoop;
  }

  lemma ResolvedStep(k: Site, y: System, step: Step, env: Env)
    ensures var step' := Resolve(k, y, step, env);
            var t, o := OpensOf(y.s, step), RequestOf(y.s, step);
            && OpensOf(y.s, step') == t && RequestOf(y.s, step') == o
            && OriginOf(y.s, step') == OriginOf(y.s, step)
            && (t.Some? ==> step'.first == FirstOf(FilesAt(k, y.disk, PathAt(k, t.value))))
            && (o.Some? && o.value.topic in y.disk.topics ==>
                  step'.outcome == OutcomeOf(k.codec, y.disk.topics[o.value.topic], Content(o.value), env))
  {
    hide OutcomeOf, SeqKey, FirstOf, FilesAt, PathOf;
    StepShape(y.s, step);
  }

  /** What a step does: it makes a topic, or it calls Produce, or neither. */
  lemma StepCases(k: Site, y: System, step: Step, env: Env)
    requires Ready(k, y)
    ensures var y' := Advance(k, y, step, env);
            match OpensOf(y.s, step)
            case Some(t) =>
              && t !in y.disk.topics && t !in y.s.topics && y'.disk == OpenIn(k, y.disk, t) && y'.s.hist == y.s.hist
              && y'.s.topics == y.s.topics[t := FirstOf(FilesAt(k, y.disk, PathAt(k, t)))]
            case None =>
              && y'.s.topics == y.s.topics
              && match RequestOf(y.s, step)
                 case None => y'.disk == y.disk && y'.s.hist == y.s.hist
                 case Some(o) =>
                   && o.topic in y.disk.topics && o.topic in y.s.topics
                   && y'.disk == WriteIn(k, y.disk, o.topic, Content(o), env)
                   && y'.s.hist == y.s.hist + Added(y.s, o, OriginOf(y.s, step),
                                                    OutcomeOf(k.codec, y.disk.topics[o.topic], Content(o), env))
  {
    hide Next, Resolve, OpensOf, RequestOf, OriginOf, WriteIn, OpenIn, OutcomeOf, FirstOf, MakeRec, FilesAt, PathOf;
    hide Whole;
    var step' := Resolve(k, y, step, env);
    ResolvedStep(k, y, step, env);
    StepShape(y.s, step');
    TopicsStep(y.s, step');
    HistStep(y.s, step');
    var t, o := OpensOf(y.s, step), RequestOf(y.s, step);
    if t.Some? {
      assert Counted(y, t.value);
    }
    if o.Some? {
      assert Counted(y, o.value.topic);
    }
  }

  lemma LogAdded(hist: seq<Event>, added: seq<Event>, t: string, topic: string)
    requires |added| <= 1 && forall e :: e in added ==> e.topic == t
    ensures |TopicLog(hist + added, topic)| == |TopicLog(hist, topic)| + if t == topic then |added| else 0
  {
    if added == [] {
      assert hist + added == hist;
    } else {
      assert added == [added[0]];
      Idempotence.TopicAppend(hist, added[0], topic);
    }
  }

  lemma SuppliedCounted(k: Site, y: System, o: Request, origin: Origin, env: Env, topic: string)
    requires Ready(k, y) && o.topic in y.disk.topics
    ensures var added := Added(y.s, o, origin, OutcomeOf(k.codec, y.disk.topics[o.topic], Content(o), env));
            Counted(System(y.s.(hist := y.s.hist + added), WriteIn(k, y.disk, o.topic, Content(o), env)), topic)
  {
    hide Produced, MakeRec, TopicLog, Keeps, PathOf;
    assert Counted(y, topic) && InStep(k, y.disk, o.topic);
    var f := y.disk.topics[o.topic];
    var outcome := OutcomeOf(k.codec, f, Content(o), env);
    LogAdded(y.s.hist, Added(y.s, o, origin, outcome), o.topic, topic);
    ProducedLength(k.codec, f, Content(o), env.fault);
  }

  /** Kept by every step, whatever the environment does. */
  lemma ReadyStep(k: Site, y: System, step: Step, env: Env)
    requires Ready(k, y)
    ensures Ready(k, Advance(k, y, step, env))
  {
    hide Whole, Next, Resolve, OpensOf, RequestOf, OriginOf, WriteIn, OutcomeOf, MakeRec, TopicLog, FilesAt, PathOf;
    hide FirstOf, Advance;
    var y' := Advance(k, y, step, env);
    StepCases(k, y, step, env);
    forall t ensures Counted(y', t) {
      assert Counted(y, t);
      if OpensOf(y.s, step).None? && RequestOf(y.s, step).Some? {
        SuppliedCounted(k, y, RequestOf(y.s, step).value, OriginOf(y.s, step), env, t);
      }
    }
  }

  lemma {:induction false} ReadyRun(k: Site, steps: seq<(Step, Env)>)
    ensures Ready(k, RunAll(k, steps))
  {
    hide Ready, Advance;
    if steps == [] {
      NothingOpen(k);
    } else {
      ReadyRun(k, steps[..|steps| - 1]);
      ReadyStep(k, RunAll(k, steps[..|steps| - 1]), steps[|steps| - 1].0, steps[|steps| - 1].1);
    }
  }

  lemma NothingOpen(k: Site)
    ensures Ready(k, System(Initial(), NO_FILES))
  {
  }

  // ---------- single steps ----------

  /** Produce under the lock, on behalf of whoever the origin names. */
  ghost function Supplied(k: Site, y: System, o: Request, origin: Origin, env: Env): (y': System)
    requires Whole(k, y.disk)
    ensures Whole(k, y'.disk)
  {
    hide Whole, WriteIn;
    if o.topic !in y.disk.topics then y else
      WriteWhole(k, y.disk, o.topic, Content(o), env);
      System(y.s.(hist := y.s.hist
                          + Added(y.s, o, origin, OutcomeOf(k.codec, y.disk.topics[o.topic], Content(o), env))),
             WriteIn(k, y.disk, o.topic, Content(o), env))
  }

  lemma SuppliedReady(k: Site, y: System, o: Request, origin: Origin, env: Env)
    requires Ready(k, y)
    ensures Ready(k, Supplied(k, y, o, origin, env))
  {
    hide Whole, WriteIn, Added, OutcomeOf, Counted;
    if o.topic in y.disk.topics {
      forall t ensures Counted(Supplied(k, y, o, origin, env), t) {
        SuppliedCounted(k, y, o, origin, env, t);
      }
    }
  }

  lemma KnownTopic(k: Site, y: System, topic: string)
    requires Ready(k, y)
    ensures topic in y.disk.topics <==> topic in y.s.topics
  {
    assert Counted(y, topic);
  }

  lemma AdvanceCreate(k: Site, y: System, topic: string, env: Env)
    requires Ready(k, y)
    ensures Advance(k, y, CreateTopic(topic, 0), env) ==
            if topic in y.disk.topics then y
            else System(y.s.(topics := y.s.topics[topic := FirstOf(FilesAt(k, y.disk, PathAt(k, topic)))]),
                        OpenIn(k, y.disk, topic))
  {
    hide Whole, OpenIn, FirstOf, FilesAt, PathOf;
    KnownTopic(k, y, topic);
  }

  lemma AdvancePlain(k: Site, y: System, o: Request, env: Env)
    requires Ready(k, y)
    ensures Advance(k, y, PlainProduce(o.topic, o.body, o.now, Refused), env) == Supplied(k, y, o, Plain, env)
  {
    hide Whole, WriteIn, OutcomeOf, MakeRec;
    KnownTopic(k, y, o.topic);
    assert y.s.hist + [] == y.s.hist;
  }

  /** The record and the bookkeeping of an idempotent call. */
  lemma AdvanceIdem(k: Site, y: System, id: nat, now: int64, env: Env)
    requires Ready(k, y) && id in y.s.calls && y.s.calls[id].stored.None?
    ensures var call := y.s.calls[id];
            var o := Request(call.topic, call.body, now);
            var z := Supplied(k, y, o, Idempotent(SeqKey(call.topic, call.producer), call.seqNo), env);
            var stored := call.topic in y.disk.topics
                          && OutcomeOf(k.codec, y.disk.topics[call.topic], Content(o), env).Stored?;
            Advance(k, y, IdemAppend(id, now, Refused), env) ==
            System(z.s.(calls := if stored
                                 then y.s.calls[id := call.(stored := Some(MakeRec(y.s, o.topic, o.body, now)))]
                                 else y.s.calls - {id}),
                   z.disk)
  {
    hide Whole, WriteIn, OutcomeOf, MakeRec, SeqKey;
    KnownTopic(k, y, y.s.calls[id].topic);
    assert y.s.hist + [] == y.s.hist;
  }

  /** The record and the bookkeeping of a commit call in its loop. */
  lemma AdvanceCommit(k: Site, y: System, id: nat, now: int64, env: Env)
    requires Ready(k, y) && InLoop(y.s, id) && y.s.commits[id].ready
    requires y.s.commits[id].records[y.s.commits[id].done].topic in y.disk.topics
    ensures var call := y.s.commits[id];
            var r := call.records[call.done];
            var o := Request(r.topic, r.body, now);
            var z := Supplied(k, y, o, Transactional(call.tx), env);
            var outcome := OutcomeOf(k.codec, y.disk.topics[r.topic], Content(o), env);
            Advance(k, y, CommitAppend(id, now, Refused), env) ==
            System(z.s.(commits := y.s.commits[id :=
                          if outcome.Stored? then call.(done := call.done + 1, ready := false)
                          else call.(phase := Failed, orphan := if outcome.Orphaned? then true else call.orphan)]),
                   z.disk)
  {
    hide Whole, WriteIn, OutcomeOf, MakeRec;
    KnownTopic(k, y, y.s.commits[id].records[y.s.commits[id].done].topic);
    assert y.s.hist + [] == y.s.hist;
  }

  /** CreateTopic in the commit loop. */
  lemma AdvanceCommitCreate(k: Site, y: System, id: nat, ok: bool, env: Env)
    requires Ready(k, y) && InLoop(y.s, id) && !y.s.commits[id].ready
    ensures var call := y.s.commits[id];
            var topic := call.records[call.done].topic;
            var z := if ok then Advance(k, y, CreateTopic(topic, 0), env) else y;
            Advance(k, y, CommitCreate(id, ok, 0), env) ==
            System(z.s.(commits := y.s.commits[id :=
                          if ok then call.(ready := true) else call.(phase := Failed)]),
                   z.disk)
  {
    hide Whole, OpenIn, FirstOf, FilesAt, PathOf;
    KnownTopic(k, y, y.s.commits[id].records[y.s.commits[id].done].topic);
  }

  /** Steps that store nothing and make no topic. */
  predicate IsQuiet(step: Step) {
    step.IdemCheck? || step.IdemPublish? || step.TxBegin? || step.TxStage? || step.TxAbort?
    || step.CommitStart? || step.CommitFinish?
  }

  lemma QuietFiles(k: Site, y: System, step: Step, env: Env)
    requires Whole(k, y.disk) && IsQuiet(step)
    ensures Advance(k, y, step, env) == System(Next(y.s, step), y.disk)
  {
    hide Whole, Next;
  }
}
