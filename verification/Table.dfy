/** The broker's table of topics: an object and a segment for each, over the
    directory its name leads to, and the values they stand for. */
module TopicTables {
  import opened Bytes
  import opened Paths
  import opened SegmentState
  import opened Segments
  import opened Topics
  import opened Storage
  import SegmentRuns

  type TopicMap = map<string, Topic>

  type DirectoryMap = map<Path, Directory>

  // ---------- how the objects hang together ----------

  /** The topic's objects are its own, except that its segment works on the
      directory its name leads to. */
  ghost predicate Owned(k: Site, name: string, t: Topic, dirs: DirectoryMap, repr: set<object>) {
    && t in repr && t.seg in repr
    && t.name == name && t.seg.owner == name && t.seg.codec == k.codec
    && PathAt(k, name) in dirs && t.seg.files == dirs[PathAt(k, name)]
  }

  ghost predicate Linked(k: Site, topics: TopicMap, dirs: DirectoryMap, d: Disk, repr: set<object>) {
    && (forall t :: t in topics <==> t in d.topics)
    && (forall p :: p in dirs <==> p in d.dirs)
    && (forall p :: p in dirs ==> dirs[p] in repr && dirs[p].path == p)
    && (forall t :: t in topics ==> Owned(k, t, topics[t], dirs, repr))
  }

  /** The objects stand for d. */
  ghost predicate Showing(k: Site, topics: TopicMap, dirs: DirectoryMap, d: Disk, repr: set<object>)
    requires Linked(k, topics, dirs, d, repr)
    reads repr
  {
    && (forall p :: p in dirs ==> dirs[p].Contents() == d.dirs[p])
    && (forall t :: t in topics ==> topics[t].State() == d.topics[t])
  }

  lemma LinkDirectory(k: Site, topics: TopicMap, dirs: DirectoryMap, d: Disk, repr: set<object>, o: Directory)
    requires Linked(k, topics, dirs, d, repr) && Showing(k, topics, dirs, d, repr) && o.path !in dirs
    ensures var d' := Disk(d.dirs[o.path := o.Contents()], d.topics);
            var dirs' := dirs[o.path := o];
            Linked(k, topics, dirs', d', repr + {o}) && Showing(k, topics, dirs', d', repr + {o})
  {
    hide PathOf, Topic.State, Directory.Contents;
  }

  lemma LinkTopic(k: Site, topics: TopicMap, dirs: DirectoryMap, d: Disk, repr: set<object>, t: Topic)
    requires Linked(k, topics, dirs, d, repr) && Showing(k, topics, dirs, d, repr)
    requires t.seg.owner == t.name && t.seg.codec == k.codec
    requires PathAt(k, t.name) in dirs && dirs[PathAt(k, t.name)] == t.seg.files
    ensures var d' := Disk(d.dirs, d.topics[t.name := t.State()]);
            var topics' := topics[t.name := t];
            Linked(k, topics', dirs, d', repr + {t, t.seg}) && Showing(k, topics', dirs, d', repr + {t, t.seg})
  {
    hide PathOf, Topic.State, Directory.Contents;
  }

  /** The topic is now g, and its directory holds g's files for all who use it. */
  ghost predicate Sent(k: Site, topics: TopicMap, dirs: DirectoryMap, d: Disk, repr: set<object>,
                       topic: string, g: TopicState)
    requires Linked(k, topics, dirs, d, repr)
    reads repr
  {
    && (forall p :: p in dirs ==> dirs[p].Contents() == if p == PathAt(k, topic) then FilesOf(g.seg) else d.dirs[p])
    && (forall u :: u in topics ==>
          topics[u].State() ==
          if u == topic then g else Seen(k, u, d.topics[u], PathAt(k, topic), FilesOf(g.seg)))
  }

  /** Which is what Produce on the topic makes of the disk. */
  lemma SentShows(k: Site, topics: TopicMap, dirs: DirectoryMap, d: Disk, repr: set<object>,
                  topic: string, m: Message, env: Env)
    requires Linked(k, topics, dirs, d, repr) && topic in topics && !env.draining && Whole(k, d)
    requires InStep(k, d, topic)
    requires Sent(k, topics, dirs, d, repr, topic, Produced(k.codec, d.topics[topic], m, env.fault))
    ensures var d' := WriteIn(k, d, topic, m, env);
            Linked(k, topics, dirs, d', repr) && Showing(k, topics, dirs, d', repr)
  {
    hide Produced, PathOf, Topic.State, Directory.Contents, Seen, Whole, Owned;
  }

  lemma OwnParts(k: Site, topics: TopicMap, dirs: DirectoryMap, d: Disk, repr: set<object>, topic: string)
    requires Linked(k, topics, dirs, d, repr) && topic in topics
    ensures topic in d.topics && topics[topic] in repr && topics[topic].seg in repr && topics[topic].seg.files in repr
  {
  }

  lemma TopicInStep(k: Site, d: Disk, topic: string)
    requires Whole(k, d) && topic in d.topics
    ensures InStep(k, d, topic)
  {
  }

  // ---------- the table ----------

  class TopicTable {
    const site: Site
    var topics: TopicMap
    var dirs: DirectoryMap
    ghost var disk: Disk
    ghost var Repr: set<object>

    ghost predicate Valid()
      reads this, Repr
    {
      && this !in Repr
      && Linked(site, topics, dirs, disk, Repr)
      && Showing(site, topics, dirs, disk, Repr)
    }

    constructor (site: Site)
      ensures Valid() && this !in Repr && fresh(Repr) && this.site == site && disk == NO_FILES
    {
      this.site := site;
      topics, dirs, disk, Repr := map[], map[], NO_FILES, {};
    }

    lemma Known(topic: string)
      requires Valid()
      ensures topic in topics <==> topic in disk.topics
    {
    }

    /** The files a name leads to, as they are; another topic may have them open. */
    method Locate(p: Path) returns (d: Directory)
      requires Valid()
      modifies this`dirs, this`disk, this`Repr
      ensures Valid() && topics == old(topics)
      ensures forall x :: x in Repr ==> x in old(Repr) || fresh(x)
      ensures p in dirs && d == dirs[p] && d.Contents() == FilesAt(site, old(disk), p)
      ensures disk == Disk(old(disk).dirs[p := FilesAt(site, old(disk), p)], old(disk).topics)
    {
      hide Topic.State, Directory.Contents, PathOf;
      if p in dirs {
        d := dirs[p];
        assert disk.dirs[p := disk.dirs[p]] == disk.dirs;
      } else {
        hide Linked, Showing;
        d := new Directory(p, site.boot(p));
        LinkDirectory(site, topics, dirs, disk, Repr, d);
        dirs, disk := dirs[p := d], Disk(disk.dirs[p := d.Contents()], disk.topics);
        Repr := Repr + {d};
      }
    }

    /** A new topic over the directory its name leads to. */
    method Add(topic: string)
      requires Valid() && topic !in topics
      modifies this
      ensures Valid() && this !in Repr
      ensures forall x :: x in Repr ==> x in old(Repr) || fresh(x)
      ensures disk == OpenIn(site, old(disk), topic)
    {
      hide SegmentState.Open, PathOf, Topic.State, Directory.Contents, Linked, Showing;
      var d := Locate(PathAt(site, topic));
      var t := new Topic(topic, site.codec, d);
      LinkTopic(site, topics, dirs, disk, Repr, t);
      topics, disk := topics[topic := t], Disk(disk.dirs, disk.topics[topic := t.State()]);
      Repr := Repr + {t, t.seg};
    }

    /** The topic's own Produce: the others change as far as they share its directory. */
    method Send(topic: string, m: Message, fault: Fault) returns (r: Option<Record>)
      requires Valid() && topic in topics
      requires 0 <= disk.topics[topic].seg.position <= |disk.topics[topic].seg.log|
      modifies topics[topic], topics[topic].seg, topics[topic].seg.files
      ensures Sent(site, topics, dirs, disk, Repr, topic, Produced(site.codec, disk.topics[topic], m, fault))
      ensures var t := disk.topics[topic];
              && (r.Some? <==> SegmentRuns.AppendResult(site.codec, t.seg, Stamp(m, t.next), fault).Some?)
              && (r.Some? ==> r.value == Stamp(m, t.seg.nextOffset))
    {
      hide Produced, Stamp, SegmentRuns.AppendResult, PathOf;
      ghost var g := Produced(site.codec, disk.topics[topic], m, fault);
      ghost var p := PathAt(site, topic);
      r := topics[topic].Produce(m, false, fault);
      forall q | q in dirs ensures dirs[q].Contents() == if q == p then FilesOf(g.seg) else disk.dirs[q] {
        assert old(dirs[q].Contents()) == disk.dirs[q];
      }
      forall u | u in topics && u != topic
        ensures topics[u].State() == Seen(site, u, disk.topics[u], p, FilesOf(g.seg))
      {
        assert old(topics[u].State()) == disk.topics[u];
      }
    }

    method Produce(topic: string, m: Message, env: Env) returns (r: Option<Record>)
      requires Valid() && topic in topics && !env.draining && Whole(site, disk)
      modifies this`disk, Repr
      ensures Valid() && Repr == old(Repr)
      ensures disk == WriteIn(site, old(disk), topic, m, env)
      ensures var t := old(disk).topics[topic];
              && (r.Some? <==> SegmentRuns.AppendResult(site.codec, t.seg, Stamp(m, t.next), env.fault).Some?)
              && (r.Some? ==> r.value == Stamp(m, t.seg.nextOffset))
    {
      hide Produced, Stamp, SegmentRuns.AppendResult, Whole, WriteIn, Showing, Sent, Linked, PathOf;
      OwnParts(site, topics, dirs, disk, Repr, topic);
      TopicInStep(site, disk, topic);
      r := Send(topic, m, env.fault);
      SentShows(site, topics, dirs, disk, Repr, topic, m, env);
      disk := WriteIn(site, disk, topic, m, env);
    }
  }
}
