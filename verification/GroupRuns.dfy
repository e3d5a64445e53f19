/** Consumer groups: who is a member, who owns which partition, and what every
    run of joins, leaves and rebalances keeps. */
module GroupRuns {
  import Bytes
  import opened Order

  datatype Coord = Coord(members: map<string, set<string>>, assignments: map<string, map<string, seq<int>>>)

  datatype Op =
    | Join(group: string, member: string)
    | Leave(group: string, member: string)
    | Rebalance(group: string, partitions: int)

  const EMPTY := Coord(map[], map[])

  /** A group nobody joined has no members; likewise for assignments. */
  function Members(c: Coord, g: string): set<string> {
    if g in c.members then c.members[g] else {}
  }

  function Assigned(c: Coord, g: string): map<string, seq<int>> {
    if g in c.assignments then c.assignments[g] else map[]
  }

  ghost function Roster(c: Coord, g: string): (s: seq<string>)
    ensures |s| == |Members(c, g)| && forall m :: m in s <==> m in Members(c, g)
    ensures Ascending(s, LexLess)
  {
    LexTotal();
    SortedOf(Members(c, g), LexLess)
  }

  /** The partitions below n whose number is i modulo k, in order. */
  function Owned(i: nat, k: nat, n: int): seq<int>
    requires k > 0
    decreases n
  {
    if n <= 0 then [] else Owned(i, k, n - 1) + (if (n - 1) % k == i then [n - 1] else [])
  }

  function Index(list: seq<string>, m: string): (i: nat)
    requires m in list
    ensures i < |list| && list[i] == m
  {
    if list[0] == m then 0 else 1 + Index(list[1..], m)
  }

  /** What a rebalance hands out. */
  function Shares(list: seq<string>, n: int): map<string, seq<int>> {
    map m | m in list :: Owned(Index(list, m), |list|, n)
  }

  ghost function Apply(c: Coord, op: Op): Coord {
    match op
    case Join(g, m) => c.(members := c.members[g := Members(c, g) + {m}])
    case Leave(g, m) =>
      if g !in c.members then c else
        Coord(c.members[g := c.members[g] - {m}],
              if g in c.assignments then c.assignments[g := c.assignments[g] - {m}] else c.assignments)
    case Rebalance(g, n) => c.(assignments := c.assignments[g := Assigned(c, g) + Shares(Roster(c, g), n)])
  }

  ghost function Run(ops: seq<Op>): Coord {
    if ops == [] then EMPTY else Apply(Run(ops[..|ops| - 1]), ops[|ops| - 1])
  }

  // ---------- shares ----------

  lemma {:induction false} OwnedExact(i: nat, k: nat, n: int)
    requires k > 0
    ensures forall p :: p in Owned(i, k, n) <==> 0 <= p < n && p % k == i
    ensures Ascending(Owned(i, k, n), IntLess)
    decreases n
  {
    if n > 0 {
      OwnedExact(i, k, n - 1);
      var front := Owned(i, k, n - 1);
      assert forall j :: 0 <= j < |front| ==> front[j] in front;
    }
  }

  lemma {:induction false} OwnedSize(i: nat, k: nat, n: nat)
    requires i < k
    ensures |Owned(i, k, n)| == n / k + (if i < n % k then 1 else 0)
    decreases n
  {
    if n > 0 {
      OwnedSize(i, k, n - 1);
      DivStep(n - 1, k);
    } else {
      ZeroDiv(k);
    }
  }

  lemma ZeroDiv(k: nat)
    requires k > 0
    ensures 0 / k == 0 && 0 % k == 0
  {
  }

  lemma DivStep(n: nat, k: nat)
    requires k > 0
    ensures if n % k == k - 1 then (n + 1) / k == n / k + 1 && (n + 1) % k == 0
            else (n + 1) / k == n / k && (n + 1) % k == n % k + 1
  {
    var q, r := n / k, n % k;
    assert n == q * k + r;
    if r == k - 1 {
      assert n + 1 == (q + 1) * k + 0;
      Bytes.DivModUnique(n + 1, k, q + 1, 0);
    } else {
      Bytes.DivModUnique(n + 1, k, q, r + 1);
    }
  }

  lemma RosterDistinct(list: seq<string>, i: nat)
    requires Ascending(list, LexLess) && i < |list|
    ensures list[i] in list && Index(list, list[i]) == i
  {
    hide LexLess;
    var j := Index(list, list[i]);
    LexTotal();
    assert !LexLess(list[i], list[i]);
  }

  // ---------- what every run keeps ----------

  /** Owners are members, each list is ascending, and no partition has two owners. */
  ghost predicate Fits(members: set<string>, a: map<string, seq<int>>) {
    && a.Keys <= members
    && (forall m :: m in a ==> Ascending(a[m], IntLess))
    && (forall m, m', p :: m in a && m' in a && p in a[m] && p in a[m'] ==> m == m')
  }

  lemma SharesFit(members: set<string>, list: seq<string>, n: int)
    requires Ascending(list, LexLess) && forall m :: m in list <==> m in members
    ensures Fits(members, Shares(list, n))
  {
    hide Owned, Ascending, LexLess;
    var a := Shares(list, n);
    forall m | m in a
      ensures Ascending(a[m], IntLess)
      ensures forall p :: p in a[m] ==> p % |list| == Index(list, m)
    {
      OwnedExact(Index(list, m), |list|, n);
    }
    forall m, m', p | m in a && m' in a && p in a[m] && p in a[m']
      ensures m == m'
    {
      assert Index(list, m) == Index(list, m');
    }
  }

  /** A rebalance replaces the whole assignment, since only members had one. */
  lemma SharesReplace(c: Coord, g: string, n: int)
    requires Fits(Members(c, g), Assigned(c, g))
    ensures Assigned(Apply(c, Rebalance(g, n)), g) == Shares(Roster(c, g), n)
  {
    hide Roster, Ascending, Owned, Index;
    var a, s := Assigned(c, g), Shares(Roster(c, g), n);
    assert a.Keys <= s.Keys;
    assert a + s == s;
  }

  lemma ApplyFits(c: Coord, op: Op, g: string)
    requires Fits(Members(c, g), Assigned(c, g))
    ensures Fits(Members(Apply(c, op), g), Assigned(Apply(c, op), g))
  {
    hide Ascending, Roster, Shares;
    match op
    case Join(h, m) =>
    case Leave(h, m) =>
    case Rebalance(h, n) =>
      if h == g {
        SharesReplace(c, g, n);
        SharesFit(Members(c, g), Roster(c, g), n);
      }
  }

  /** In every reachable state, for every group: owners are current members and
      no partition has two owners. */
  lemma {:induction false} RunFits(ops: seq<Op>, g: string)
    ensures Fits(Members(Run(ops), g), Assigned(Run(ops), g))
  {
    hide Fits, Apply;
    if ops == [] {
      EmptyFits(g);
    } else {
      RunFits(ops[..|ops| - 1], g);
      ApplyFits(Run(ops[..|ops| - 1]), ops[|ops| - 1], g);
    }
  }

  lemma EmptyFits(g: string)
    ensures Fits(Members(EMPTY, g), Assigned(EMPTY, g))
  {
  }

  // ---------- what a rebalance gives ----------

  lemma Snoc(ops: seq<Op>, op: Op)
    ensures Run(ops + [op]) == Apply(Run(ops), op)
  {
    assert (ops + [op])[..|ops|] == ops;
  }

  ghost predicate IsShare(parts: seq<int>, i: nat, k: nat, n: int)
    requires k > 0
  {
    Ascending(parts, IntLess) && forall p :: p in parts <==> 0 <= p < n && p % k == i
  }

  /** Right after a rebalance of any reachable state the i-th of k members in
      string order owns exactly the partitions p < n with p mod k == i, in
      ascending order, and nothing else has changed. */
  lemma RebalanceExact(ops: seq<Op>, g: string, n: int)
    ensures var c, c' := Run(ops), Run(ops + [Rebalance(g, n)]);
            var list := Roster(c, g);
            && Assigned(c', g).Keys == Members(c, g)
            && (forall i :: 0 <= i < |list| ==> IsShare(Assigned(c', g)[list[i]], i, |list|, n))
            && c'.members == c.members
            && forall h :: h != g ==> Assigned(c', h) == Assigned(c, h)
  {
    hide Owned, Ascending, LexLess, Run, Fits, Index, Roster;
    var c := Run(ops);
    var list := Roster(c, g);
    Snoc(ops, Rebalance(g, n));
    RunFits(ops, g);
    SharesReplace(c, g, n);
    forall i | 0 <= i < |list|
      ensures list[i] in Shares(list, n) && IsShare(Shares(list, n)[list[i]], i, |list|, n)
    {
      RosterDistinct(list, i);
      OwnedExact(i, |list|, n);
    }
  }

  /** Loads differ by at most one, and the loads of all members together make
      up the n partitions: the first n mod k members own one more than n / k. */
  lemma RebalanceFair(ops: seq<Op>, g: string, n: nat, i: nat)
    requires i < |Roster(Run(ops), g)|
    ensures var list := Roster(Run(ops), g);
            var a := Assigned(Run(ops + [Rebalance(g, n)]), g);
            && list[i] in a
            && |a[list[i]]| == n / |list| + (if i < n % |list| then 1 else 0)
  {
    hide Owned, LexLess, Run, Fits, Roster;
    var c := Run(ops);
    var list := Roster(c, g);
    Snoc(ops, Rebalance(g, n));
    RunFits(ops, g);
    SharesReplace(c, g, n);
    RosterDistinct(list, i);
    OwnedSize(i, |list|, n);
  }

  ghost predicate NoRebalance(ops: seq<Op>, g: string) {
    forall i :: 0 <= i < |ops| ==> !(ops[i].Rebalance? && ops[i].group == g)
  }

  /** Until the next rebalance of the group a member keeps its share exactly as
      long as it has not left; a member that joins, or leaves and comes back,
      owns nothing. */
  lemma {:induction false} SinceRebalance(ops: seq<Op>, g: string, n: int, later: seq<Op>, m: string)
    requires NoRebalance(later, g)
    ensures var c := Run(ops);
            var a := Assigned(Run(ops + [Rebalance(g, n)] + later), g);
            && (m in a <==> m in Members(c, g) && Leave(g, m) !in later)
            && (m in a ==> a[m] == Shares(Roster(c, g), n)[m])
  {
    hide Owned, LexLess, Run, Fits, Ascending;
    var now := ops + [Rebalance(g, n)];
    if later == [] {
      Snoc(ops, Rebalance(g, n));
      RunFits(ops, g);
      SharesReplace(Run(ops), g, n);
      assert now + [] == now;
    } else {
      var front, last := later[..|later| - 1], later[|later| - 1];
      SinceRebalance(ops, g, n, front, m);
      assert now + later == now + front + [last];
      Snoc(now + front, last);
      assert later == front + [last];
      RunFits(now + front, g);
      Keeps(Run(now + front), last, g, m);
    }
  }

  lemma Keeps(c: Coord, op: Op, g: string, m: string)
    requires Fits(Members(c, g), Assigned(c, g)) && !(op.Rebalance? && op.group == g)
    ensures m in Assigned(Apply(c, op), g) <==> m in Assigned(c, g) && op != Leave(g, m)
    ensures m in Assigned(Apply(c, op), g) ==> Assigned(Apply(c, op), g)[m] == Assigned(c, g)[m]
  {
    hide Shares, Roster, Ascending;
  }

  // ---------- from what callers did ----------

  /** The member joined and has not left since. */
  ghost predicate Joined(ops: seq<Op>, g: string, m: string) {
    exists i :: 0 <= i < |ops| && ops[i] == Join(g, m) && Leave(g, m) !in ops[i + 1..]
  }

  lemma JoinedSnoc(ops: seq<Op>, op: Op, g: string, m: string)
    ensures Joined(ops + [op], g, m) <==> op == Join(g, m) || (Joined(ops, g, m) && op != Leave(g, m))
  {
    var all := ops + [op];
    if Joined(all, g, m) {
      var i :| 0 <= i < |all| && all[i] == Join(g, m) && Leave(g, m) !in all[i + 1..];
      if i < |ops| {
        assert all[i + 1..] == ops[i + 1..] + [op];
        assert op in all[i + 1..];
      }
    }
    if op == Join(g, m) {
      assert all[|ops|] == Join(g, m) && all[|ops| + 1..] == [];
    } else if Joined(ops, g, m) && op != Leave(g, m) {
      var i :| 0 <= i < |ops| && ops[i] == Join(g, m) && Leave(g, m) !in ops[i + 1..];
      assert all[i] == Join(g, m) && all[i + 1..] == ops[i + 1..] + [op];
    }
  }

  /** After any run the members of a group are exactly those who joined and have not
      left since. */
  lemma {:induction false} MembersExact(ops: seq<Op>, g: string, m: string)
    ensures m in Members(Run(ops), g) <==> Joined(ops, g, m)
  {
    if ops != [] {
      hide Joined, Assigned, Shares, Roster;
      var front, op := ops[..|ops| - 1], ops[|ops| - 1];
      MembersExact(front, g, m);
      JoinedSnoc(front, op, g, m);
      assert ops == front + [op];
    }
  }

  /** Who is to own what: list holds the members at the rebalance in string order, and
      the i-th of them owns the partitions p < n with p mod |list| == i until it leaves. */
  ghost predicate OwnerOf(list: seq<string>, n: int, later: seq<Op>, g: string, m: string, p: int) {
    exists i :: 0 <= i < |list| && list[i] == m && Leave(g, m) !in later && 0 <= p < n && p % |list| == i
  }

  /** Ownership in every reachable state, from the calls alone: before any rebalance of
      the group nobody owns anything, and after the last one, for n partitions, m owns
      p exactly if it was a member then, was dealt p and has not left since. */
  lemma OwnersExact(ops: seq<Op>, g: string, n: int, later: seq<Op>, list: seq<string>, m: string, p: int)
    requires NoRebalance(later, g)
    requires Ascending(list, LexLess) && forall x :: x in list <==> Joined(ops, g, x)
    ensures var a := Assigned(Run(ops + [Rebalance(g, n)] + later), g);
            (m in a && p in a[m]) <==> OwnerOf(list, n, later, g, m, p)
  {
    hide Joined, LexLess, Run, Owned, Ascending, Index;
    var c := Run(ops);
    forall x ensures x in list <==> x in Members(c, g) {
      MembersExact(ops, g, x);
    }
    LexTotal();
    AscendingUnique(list, Roster(c, g), LexLess);
    SinceRebalance(ops, g, n, later, m);
    if m in list {
      OwnedExact(Index(list, m), |list|, n);
      forall i | 0 <= i < |list| && list[i] == m ensures i == Index(list, m) {
        RosterDistinct(list, i);
      }
    }
  }

  lemma {:induction false} NeverRebalanced(ops: seq<Op>, g: string)
    requires NoRebalance(ops, g)
    ensures Assigned(Run(ops), g) == map[]
  {
    if ops != [] {
      var front, op := ops[..|ops| - 1], ops[|ops| - 1];
      NeverRebalanced(front, g);
      assert !(op.Rebalance? && op.group == g);
      hide Shares, Roster;
    }
  }
}
