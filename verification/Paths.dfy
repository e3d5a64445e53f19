/** Where a topic's files lie. filepath.Join cleans what it joins: of the parts
    between slashes, empty ones and "." are dropped and ".." takes one back. */
module Paths {
  /** A cleaned path from the root, part by part. */
  type Path = seq<string>

  function Split(name: string): (parts: seq<string>)
    ensures parts != []
  {
    if name == "" then [""] else
      var front, c := Split(name[..|name| - 1]), name[|name| - 1];
      if c == '/' then front + [""] else front[..|front| - 1] + [front[|front| - 1] + [c]]
  }

  function Enter(dir: Path, part: string): Path {
    if part == "" || part == "." then dir
    else if part == ".." then if dir == [] then [] else dir[..|dir| - 1]
    else dir + [part]
  }

  function Walk(dir: Path, parts: seq<string>): Path {
    if parts == [] then dir else Enter(Walk(dir, parts[..|parts| - 1]), parts[|parts| - 1])
  }

  /** The directory of a topic below the broker's. */
  function PathOf(dir: Path, name: string): Path {
    Walk(dir, Split(name))
  }

  predicate PlainName(name: string) {
    name != "" && name != "." && name != ".." && '/' !in name
  }

  lemma {:induction false} SplitPlain(name: string)
    requires '/' !in name
    ensures Split(name) == [name]
  {
    if name != "" {
      SplitPlain(name[..|name| - 1]);
      assert name == name[..|name| - 1] + [name[|name| - 1]];
    }
  }

  lemma PlainPath(dir: Path, name: string)
    requires PlainName(name)
    ensures PathOf(dir, name) == dir + [name]
  {
    OnePart(dir, name);
  }

  /** Without slashes a name is one part, so different names lie apart. */
  lemma PlainApart(dir: Path, t: string, u: string)
    requires PlainName(t) && PlainName(u) && t != u
    ensures PathOf(dir, t) != PathOf(dir, u)
  {
    PlainPath(dir, t);
    PlainPath(dir, u);
    assert (dir + [t])[|dir|] != (dir + [u])[|dir|];
  }

  lemma SplitSnoc(name: string, c: char)
    ensures var front := Split(name);
            Split(name + [c]) == if c == '/' then front + [""] else front[..|front| - 1] + [front[|front| - 1] + [c]]
  {
    assert (name + [c])[..|name|] == name;
  }

  lemma {:induction false} SplitJoin(a: string, b: string)
    ensures Split(a + "/" + b) == Split(a) + Split(b)
  {
    hide Split;
    if b == "" {
      SplitSnoc(a, '/');
      assert a + ['/'] == a + "/" + b;
      SplitPlain("");
    } else {
      var front, c := b[..|b| - 1], b[|b| - 1];
      SplitJoin(a, front);
      SplitSnoc(front, c);
      SplitSnoc(a + "/" + front, c);
      assert a + "/" + front + [c] == a + "/" + b && front + [c] == b;
      var x, y := Split(a), Split(front);
      assert (x + y)[..|x + y| - 1] == x + y[..|y| - 1];
    }
  }

  lemma {:induction false} WalkOn(dir: Path, a: seq<string>, b: seq<string>)
    ensures Walk(dir, a + b) == Walk(Walk(dir, a), b)
  {
    if b == [] {
      assert a + b == a;
    } else {
      assert (a + b)[..|a + b| - 1] == a + b[..|b| - 1];
      WalkOn(dir, a, b[..|b| - 1]);
    }
  }

  /** A name with a slash leads where its second part leads from where its first part
      leads. */
  lemma JoinLaw(dir: Path, a: string, b: string)
    ensures PathOf(dir, a + "/" + b) == PathOf(PathOf(dir, a), b)
  {
    SplitJoin(a, b);
    WalkOn(dir, Split(a), Split(b));
  }

  /** Together with the join law this says where every name leads. */
  lemma OnePart(dir: Path, part: string)
    requires '/' !in part
    ensures PathOf(dir, part) ==
            if part == "" || part == "." then dir
            else if part == ".." then (if dir == [] then [] else dir[..|dir| - 1])
            else dir + [part]
  {
    SplitPlain(part);
    assert [part][..0] == [] && Walk(dir, []) == dir;
    assert Walk(dir, [part]) == Enter(Walk(dir, [part][..0]), part);
  }

  /** Every name has others that lie in the same directory. */
  lemma DotSlash(dir: Path, name: string)
    ensures PathOf(dir, "./" + name) == PathOf(dir, name) && "./" + name != name
  {
    hide PathOf;
    JoinLaw(dir, ".", name);
    OnePart(dir, ".");
    assert "." + "/" + name == "./" + name;
    assert |"./" + name| != |name|;
  }

  /** Also with a detour. */
  lemma UpAndDown(dir: Path, detour: string, name: string)
    requires PlainName(detour)
    ensures PathOf(dir, detour + "/../" + name) == PathOf(dir, name)
  {
    hide PathOf;
    JoinLaw(dir, detour + "/..", name);
    JoinLaw(dir, detour, "..");
    OnePart(dir, detour);
    OnePart(dir + [detour], "..");
    assert detour + "/" + ".." == detour + "/..";
    assert detour + "/.." + "/" + name == detour + "/../" + name;
    assert (dir + [detour])[..|dir|] == dir;
  }
}
