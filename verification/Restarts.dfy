/** Closing a broker and starting another over the same directories, any number of
    times. */
module Restarts {
  import opened Bytes
  import opened Paths
  import opened SegmentState
  import opened Topics
  import opened Protocol
  import opened Storage
  import opened StorageRuns
  import SegmentRuns

  /** The next broker finds the files as this one left them. */
  function AfterClose(k: Site, d: Disk): Site {
    k.(boot := p => FilesAt(k, d, p))
  }

  /** What the index file still covers comes back, and nothing else. */
  lemma ReopenedMatches(c: Codec, b: Files, t: TopicState, es: seq<Event>, a: SegmentRuns.Abs)
    requires Matches(c, b, t, es, a)
    ensures var seg := Opened(FilesOf(t.seg));
            && a.durable <= |a.recs| && a.durable == |t.seg.indexFile| / 16
            && SegmentRuns.Sound(c, seg, 0, SegmentRuns.Abs(a.recs[..a.durable], a.durable))
  {
    hide SegmentRuns.Readable, SegmentState.Open, ReadByOffset, Counter, MatchesAt, FirstOf;
    SegmentRuns.ReopenSound(c, t.seg, 0, a);
  }

  /** After a restart a topic with files of its own has exactly as many records as
      its index file has entries, each the one that was read at its offset before;
      that is all of them, unless the last one stored was not reported as stored. */
  lemma SurvivesRestart(k: Site, steps: seq<(Step, Env)>, topic: string)
    requires RoundTrips(k.codec) && OwnFiles(k, RunAll(k, steps), topic)
    requires topic in RunAll(k, steps).disk.topics
    ensures var y := RunAll(k, steps);
            var seg := y.disk.topics[topic].seg;
            var k' := AfterClose(k, y.disk);
            var b := k'.boot(PathAt(k', topic));
            && Bootable(k', PathAt(k', topic))
            && FirstOf(b) == |seg.indexFile| / 16 <= seg.nextOffset
            && (EndsAcked(TopicEvents(y.s.hist, topic)) ==> FirstOf(b) == seg.nextOffset)
            && forall i :: 0 <= i < FirstOf(b) ==>
                 ReadByOffset(k.codec, Opened(b), i) == ReadByOffset(k.codec, seg, i)
  {
    hide RunAll, OwnFiles, SegmentRuns.Sound, TopicEvents, ReadByOffset, FirstOf, SegmentState.Open, Matches, PathOf;
    var y := RunAll(k, steps);
    FilesMatch(k, steps, topic);
    var t, es := y.disk.topics[topic], TopicEvents(y.s.hist, topic);
    var a :| Matches(k.codec, k.boot(PathAt(k, topic)), t, es, a);
    assert InStep(k, y.disk, topic);
    ReopenedMatches(k.codec, k.boot(PathAt(k, topic)), t, es, a);
    MatchesBounds(k.codec, k.boot(PathAt(k, topic)), t, es, a);
    var b := FilesOf(t.seg);
    var k' := AfterClose(k, y.disk);
    assert k'.boot(PathAt(k', topic)) == b;
    var a' := SegmentRuns.Abs(a.recs[..a.durable], a.durable);
    SoundBounds(k.codec, Opened(b), a');
    assert SegmentRuns.Sound(k'.codec, Opened(k'.boot(PathAt(k', topic))), 0, a');
    forall i | 0 <= i < FirstOf(b) ensures ReadByOffset(k.codec, Opened(b), i) == ReadByOffset(k.codec, t.seg, i) {
      ReadShelf(k.codec, Opened(b), a', i);
      ReadShelf(k.codec, t.seg, a, i);
    }
  }

  lemma MatchesBounds(c: Codec, b: Files, t: TopicState, es: seq<Event>, a: SegmentRuns.Abs)
    requires Matches(c, b, t, es, a)
    ensures SegmentRuns.Sound(c, t.seg, 0, a) && t.seg.nextOffset == |a.recs|
    ensures EndsAcked(es) ==> a.durable == |a.recs|
  {
    hide SegmentRuns.Sound, ReadByOffset, Counter, MatchesAt, FirstOf;
    SoundBounds(c, t.seg, a);
  }

  /** Whatever the next broker does, it reads at every offset what the first one
      read there, as far as the index file went, and stores its own records behind. */
  lemma AcrossRestart(k: Site, steps: seq<(Step, Env)>, more: seq<(Step, Env)>, topic: string, i: nat)
    requires RoundTrips(k.codec) && OwnFiles(k, RunAll(k, steps), topic)
    requires var k' := AfterClose(k, RunAll(k, steps).disk);
             Alone(k', RunAll(k', more), topic) && topic in RunAll(k', more).disk.topics
    requires topic in RunAll(k, steps).disk.topics
    ensures var y := RunAll(k, steps);
            var y' := RunAll(AfterClose(k, y.disk), more);
            var seg := y.disk.topics[topic].seg;
            && First(y'.s, topic) == |seg.indexFile| / 16
            && (i < |seg.indexFile| / 16 ==>
                  ReadByOffset(k.codec, y'.disk.topics[topic].seg, i) == ReadByOffset(k.codec, seg, i))
  {
    hide RunAll, Alone, Bootable, SegmentRuns.Sound, TopicEvents, ReadByOffset, FirstOf, SegmentState.Open, MatchesAt;
    hide PathOf, LastAcked, Counter;
    var y := RunAll(k, steps);
    var k' := AfterClose(k, y.disk);
    var y' := RunAll(k', more);
    SurvivesRestart(k, steps, topic);
    FilesMatch(k', more, topic);
    var t, b := y'.disk.topics[topic], k'.boot(PathAt(k', topic));
    var a :| Matches(k'.codec, b, t, TopicEvents(y'.s.hist, topic), a);
    if i < FirstOf(b) {
      ReadShelf(k'.codec, t.seg, a, i);
    }
  }

  // ---------- any number of restarts ----------

  /** What one broker does from its start until it closes. */
  type Life = seq<(Step, Env)>

  /** What the next broker finds after these lives, one after the other. */
  ghost function SiteAfter(k: Site, lives: seq<Life>): (k': Site)
    ensures k'.codec == k.codec && k'.dir == k.dir
  {
    if lives == [] then k else
      var before := SiteAfter(k, lives[..|lives| - 1]);
      AfterClose(before, RunAll(before, lives[|lives| - 1]).disk)
  }

  /** The broker of life n as it closes. */
  ghost function EndOf(k: Site, lives: seq<Life>, n: nat): System
    requires n < |lives|
  {
    RunAll(SiteAfter(k, lives[..n]), lives[n])
  }

  /** What the topic's directory holds when life n starts, or would start. */
  ghost function FilesBefore(k: Site, lives: seq<Life>, n: nat, topic: string): Files
    requires n <= |lives|
  {
    SiteAfter(k, lives[..n]).boot(PathAt(k, topic))
  }

  /** In no life another topic has the directory. */
  ghost predicate AlwaysAlone(k: Site, lives: seq<Life>, topic: string) {
    forall n :: 0 <= n < |lives| ==> Alone(k, EndOf(k, lives, n), topic)
  }

  /** One life: it leaves the directory in order, and what is there before and after
      reads the same. The topic's records of this life are added, all of them if the
      last one was reported as stored. */
  lemma OneLife(k: Site, life: Life, topic: string)
    requires RoundTrips(k.codec) && OwnFiles(k, RunAll(k, life), topic)
    ensures var y := RunAll(k, life);
            var p := PathAt(k, topic);
            var k', es := AfterClose(k, y.disk), TopicEvents(y.s.hist, topic);
            && Bootable(k', p)
            && FirstOf(k'.boot(p)) <= FirstOf(k.boot(p)) + |es|
            && (EndsAcked(es) ==> FirstOf(k'.boot(p)) == FirstOf(k.boot(p)) + |es|)
            && (forall i :: 0 <= i < FirstOf(k.boot(p)) && i < FirstOf(k'.boot(p)) ==>
                  ReadByOffset(k.codec, Opened(k'.boot(p)), i) == ReadByOffset(k.codec, Opened(k.boot(p)), i))
  {
    hide RunAll, Alone, SegmentRuns.Sound, TopicEvents, ReadByOffset, FirstOf, SegmentState.Open, MatchesAt, PathOf;
    hide Counter, EndsAcked;
    var y, p := RunAll(k, life), PathAt(k, topic);
    if topic in y.disk.topics {
      SurvivesRestart(k, life, topic);
      FilesMatch(k, life, topic);
      var t, es := y.disk.topics[topic], TopicEvents(y.s.hist, topic);
      var a :| Matches(k.codec, k.boot(p), t, es, a);
      MatchesBounds(k.codec, k.boot(p), t, es, a);
      forall i | 0 <= i < FirstOf(k.boot(p)) ensures ReadByOffset(k.codec, t.seg, i) == Some(a.recs[i]) {
        ReadShelf(k.codec, t.seg, a, i);
      }
    } else {
      ReadyRun(k, life);
      Unopened(k, y, topic);
    }
  }

  /** A topic that was not opened. */
  lemma Unopened(k: Site, y: System, topic: string)
    requires Ready(k, y) && topic !in y.disk.topics && OwnFiles(k, y, topic)
    ensures var p := PathAt(k, topic);
            var k' := AfterClose(k, y.disk);
            k'.boot(p) == k.boot(p) && Bootable(k', p) && TopicEvents(y.s.hist, topic) == []
  {
    hide TopicEvents, TopicLog, SegmentRuns.Sound, SegmentState.Open, PathOf, Alone;
    Untouched(k, y, topic);
    assert Counted(y, topic);
    EventsAreLog(y.s.hist, topic);
  }

  lemma NextLife(k: Site, lives: seq<Life>, n: nat)
    requires n < |lives|
    ensures SiteAfter(k, lives[..n + 1]) == AfterClose(SiteAfter(k, lives[..n]), EndOf(k, lives, n).disk)
  {
    hide RunAll;
    assert lives[..n + 1][..n] == lives[..n];
  }

  /** Over any number of lives the directory stays in order. */
  lemma {:induction false} AlwaysBootable(k: Site, lives: seq<Life>, n: nat, topic: string)
    requires RoundTrips(k.codec) && Bootable(k, PathAt(k, topic)) && AlwaysAlone(k, lives, topic) && n <= |lives|
    ensures Bootable(SiteAfter(k, lives[..n]), PathAt(k, topic))
  {
    hide RunAll, Bootable, Alone, PathOf, TopicEvents, ReadByOffset, FirstOf, SegmentState.Open;
    if n == 0 {
      assert lives[..0] == [];
    } else {
      AlwaysBootable(k, lives, n - 1, topic);
      LifeStep(k, lives, n - 1, topic);
    }
  }

  lemma LifeStep(k: Site, lives: seq<Life>, n: nat, topic: string)
    requires RoundTrips(k.codec) && AlwaysAlone(k, lives, topic) && n < |lives|
    requires Bootable(SiteAfter(k, lives[..n]), PathAt(k, topic))
    ensures var b, b' := FilesBefore(k, lives, n, topic), FilesBefore(k, lives, n + 1, topic);
            var es := TopicEvents(EndOf(k, lives, n).s.hist, topic);
            && Bootable(SiteAfter(k, lives[..n + 1]), PathAt(k, topic))
            && FirstOf(b') <= FirstOf(b) + |es|
            && (EndsAcked(es) ==> FirstOf(b') == FirstOf(b) + |es|)
            && forall i :: 0 <= i < FirstOf(b) && i < FirstOf(b') ==>
                 ReadByOffset(k.codec, Opened(b'), i) == ReadByOffset(k.codec, Opened(b), i)
  {
    hide RunAll, Bootable, PathOf, TopicEvents, ReadByOffset, FirstOf, SegmentState.Open, EndsAcked, SiteAfter;
    var before := SiteAfter(k, lives[..n]);
    NextLife(k, lives, n);
    SameAlone(k, before, EndOf(k, lives, n), topic);
    OneLife(before, lives[n], topic);
  }

  lemma SameAlone(k: Site, k': Site, y: System, topic: string)
    requires Alone(k, y, topic) && k'.dir == k.dir
    ensures Alone(k', y, topic) && PathAt(k', topic) == PathAt(k, topic)
  {
    hide PathOf;
  }

  /** The offset is covered at every start from life m on, up to life n. */
  ghost predicate Covered(k: Site, lives: seq<Life>, m: nat, n: nat, topic: string, i: nat)
    requires n <= |lives|
  {
    forall j :: m <= j <= n ==> i < FirstOf(FilesBefore(k, lives, j, topic))
  }

  /** Over any number of lives, whatever faults they meet, an offset reads the same as
      long as the index file covers it at every start. */
  lemma {:induction false} AcrossLives(k: Site, lives: seq<Life>, m: nat, n: nat, topic: string, i: nat)
    requires RoundTrips(k.codec) && Bootable(k, PathAt(k, topic)) && AlwaysAlone(k, lives, topic)
    requires m <= n <= |lives| && Covered(k, lives, m, n, topic, i)
    ensures ReadByOffset(k.codec, Opened(FilesBefore(k, lives, n, topic)), i)
         == ReadByOffset(k.codec, Opened(FilesBefore(k, lives, m, topic)), i)
  {
    hide RunAll, Bootable, PathOf, TopicEvents, ReadByOffset, FirstOf, SegmentState.Open, FilesBefore, EndsAcked;
    hide AlwaysAlone, SiteAfter, EndOf;
    if m < n {
      AcrossLives(k, lives, m, n - 1, topic, i);
      AlwaysBootable(k, lives, n - 1, topic);
      LifeStep(k, lives, n - 1, topic);
    }
  }

  /** A record stored in any life is read back at its offset after any number of
      further lives, as long as the index file covers it at every start. */
  lemma StoredForGood(k: Site, lives: seq<Life>, m: nat, topic: string, i: nat)
    requires RoundTrips(k.codec) && Bootable(k, PathAt(k, topic)) && AlwaysAlone(k, lives, topic) && m < |lives|
    requires i < |TopicEvents(EndOf(k, lives, m).s.hist, topic)|
    requires Covered(k, lives, m + 1, |lives|, topic, TopicEvents(EndOf(k, lives, m).s.hist, topic)[i].rec.offset)
    ensures var rec := TopicEvents(EndOf(k, lives, m).s.hist, topic)[i].rec;
            var r := ReadByOffset(k.codec, Opened(FilesBefore(k, lives, |lives|, topic)), rec.offset);
            r.Some? && Agrees(r.value, rec)
  {
    hide RunAll, Bootable, PathOf, TopicEvents, ReadByOffset, FirstOf, SegmentState.Open, Agrees, SiteAfter;
    hide TopicLog, AlwaysAlone;
    var before := SiteAfter(k, lives[..m]);
    var rec := TopicEvents(EndOf(k, lives, m).s.hist, topic)[i].rec;
    AlwaysBootable(k, lives, m, topic);
    OwnInLife(k, lives, m, topic);
    assert rec.offset < FirstOf(FilesBefore(k, lives, m + 1, topic));
    StoredInLife(before, lives[m], topic, i);
    NextLife(k, lives, m);
    AcrossLives(k, lives, m + 1, |lives|, topic, rec.offset);
  }

  lemma OwnInLife(k: Site, lives: seq<Life>, m: nat, topic: string)
    requires AlwaysAlone(k, lives, topic) && m < |lives| && Bootable(SiteAfter(k, lives[..m]), PathAt(k, topic))
    ensures var before := SiteAfter(k, lives[..m]);
            OwnFiles(before, RunAll(before, lives[m]), topic) && PathAt(before, topic) == PathAt(k, topic)
  {
    hide RunAll, Bootable, PathOf, SiteAfter;
    SameAlone(k, SiteAfter(k, lives[..m]), EndOf(k, lives, m), topic);
  }

  /** A record of one life, read by the next broker. */
  lemma StoredInLife(k: Site, life: Life, topic: string, i: nat)
    requires RoundTrips(k.codec) && OwnFiles(k, RunAll(k, life), topic)
    requires i < |TopicEvents(RunAll(k, life).s.hist, topic)|
    ensures var y := RunAll(k, life);
            var b := AfterClose(k, y.disk).boot(PathAt(k, topic));
            var rec := TopicEvents(y.s.hist, topic)[i].rec;
            rec.offset < FirstOf(b) ==>
              var r := ReadByOffset(k.codec, Opened(b), rec.offset);
              r.Some? && Agrees(r.value, rec)
  {
    hide RunAll, OwnFiles, TopicEvents, TopicLog, ReadByOffset, FirstOf, SegmentState.Open, Agrees, PathOf;
    var y := RunAll(k, life);
    EventsAreLog(y.s.hist, topic);
    StoredReadsBack(k, life, topic, i);
    SurvivesRestart(k, life, topic);
  }

  /** In every life the last record stored for the topic was reported as stored. */
  ghost predicate AlwaysAcked(k: Site, lives: seq<Life>, topic: string) {
    forall n :: 0 <= n < |lives| ==> EndsAcked(TopicEvents(EndOf(k, lives, n).s.hist, topic))
  }

  /** Then no start finds fewer records than the one before. */
  lemma {:induction false} NeverFewer(k: Site, lives: seq<Life>, m: nat, n: nat, topic: string)
    requires RoundTrips(k.codec) && Bootable(k, PathAt(k, topic)) && AlwaysAlone(k, lives, topic)
    requires AlwaysAcked(k, lives, topic) && m < n <= |lives|
    ensures FirstOf(FilesBefore(k, lives, n, topic))
         >= FirstOf(FilesBefore(k, lives, m, topic)) + |TopicEvents(EndOf(k, lives, m).s.hist, topic)|
  {
    hide RunAll, Bootable, PathOf, TopicEvents, ReadByOffset, FirstOf, SegmentState.Open, FilesBefore, EndsAcked;
    hide AlwaysAlone, SiteAfter, EndOf;
    AlwaysBootable(k, lives, n - 1, topic);
    LifeStep(k, lives, n - 1, topic);
    if m < n - 1 {
      NeverFewer(k, lives, m, n - 1, topic);
    }
  }

  /** So if every life ends with a record reported as stored, or stores none, every
      record ever stored, in whichever life, is read back at its offset. */
  lemma NothingLostOverLives(k: Site, lives: seq<Life>, m: nat, topic: string, i: nat)
    requires RoundTrips(k.codec) && Bootable(k, PathAt(k, topic)) && AlwaysAlone(k, lives, topic)
    requires AlwaysAcked(k, lives, topic) && m < |lives| && i < |TopicEvents(EndOf(k, lives, m).s.hist, topic)|
    ensures var rec := TopicEvents(EndOf(k, lives, m).s.hist, topic)[i].rec;
            var r := ReadByOffset(k.codec, Opened(FilesBefore(k, lives, |lives|, topic)), rec.offset);
            && rec.offset == FirstOf(FilesBefore(k, lives, m, topic)) + i
            && r.Some? && Agrees(r.value, rec)
  {
    hide RunAll, Bootable, PathOf, TopicEvents, ReadByOffset, FirstOf, SegmentState.Open, FilesBefore, Agrees;
    hide AlwaysAlone, AlwaysAcked, SiteAfter, EndOf;
    OffsetInLife(k, lives, m, topic, i);
    forall j | m + 1 <= j <= |lives|
      ensures TopicEvents(EndOf(k, lives, m).s.hist, topic)[i].rec.offset < FirstOf(FilesBefore(k, lives, j, topic))
    {
      NeverFewer(k, lives, m, j, topic);
    }
    StoredForGood(k, lives, m, topic, i);
  }

  lemma OffsetInLife(k: Site, lives: seq<Life>, m: nat, topic: string, i: nat)
    requires RoundTrips(k.codec) && Bootable(k, PathAt(k, topic)) && AlwaysAlone(k, lives, topic)
    requires m < |lives| && i < |TopicEvents(EndOf(k, lives, m).s.hist, topic)|
    ensures TopicEvents(EndOf(k, lives, m).s.hist, topic)[i].rec.offset
         == FirstOf(FilesBefore(k, lives, m, topic)) + i
  {
    hide RunAll, OwnFiles, TopicEvents, TopicLog, FirstOf, PathOf, Bootable, AlwaysAlone, SiteAfter, ReadsBack, Matches;
    var before := SiteAfter(k, lives[..m]);
    AlwaysBootable(k, lives, m, topic);
    OwnInLife(k, lives, m, topic);
    var y := RunAll(before, lives[m]);
    EventsAreLog(y.s.hist, topic);
    StoredReadsBack(before, lives[m], topic, i);
    ReadyRun(before, lives[m]);
    assert Counted(y, topic);
    FilesMatch(before, lives[m], topic);
  }
}
