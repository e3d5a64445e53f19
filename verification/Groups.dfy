/** The consumer-group coordinator. */
module Groups {
  import opened Order
  import opened GroupRuns

  class ConsumerGroupCoordinator {
    var members: map<string, set<string>>
    var assignments: map<string, map<string, seq<int>>>

    ghost function State(): Coord
      reads this
    {
      Coord(members, assignments)
    }

    constructor ()
      ensures State() == EMPTY
    {
      members, assignments := map[], map[];
    }

    method Join(group: string, member: string)
      modifies this
      ensures State() == Apply(old(State()), Op.Join(group, member))
      ensures Members(State(), group) == Members(old(State()), group) + {member} && assignments == old(assignments)
      ensures forall g :: g != group ==> Members(State(), g) == Members(old(State()), g)
    {
      if group !in members {
        members := members[group := {}];
      }
      members := members[group := members[group] + {member}];
      assert members == old(members)[group := Members(old(State()), group) + {member}];
    }

    method Leave(group: string, member: string)
      modifies this
      ensures State() == Apply(old(State()), Op.Leave(group, member))
      ensures Members(State(), group) == Members(old(State()), group) - {member}
      ensures group in old(members) ==> Assigned(State(), group) == Assigned(old(State()), group) - {member}
      ensures forall g :: g != group ==>
                Members(State(), g) == Members(old(State()), g) && Assigned(State(), g) == Assigned(old(State()), g)
    {
      if group !in members {
        return;
      }
      members := members[group := members[group] - {member}];
      if group in assignments {
        assignments := assignments[group := assignments[group] - {member}];
      }
    }

    /** Deals the partitions out round-robin over the sorted members. */
    method Rebalance(group: string, partitions: int)
      modifies this
      ensures State() == Apply(old(State()), Op.Rebalance(group, partitions))
    {
      hide LexLess, Owned, Cleared, Shares, Ascending, StrictTotal, SortedOf, Apply;
      LexTotal();
      ghost var before := State();
      ghost var base := Assigned(before, group);
      var list := CollectSorted(if group in members then members[group] else {}, LexLess);
      if group !in assignments {
        assignments := assignments[group := map[]];
      }
      assert assignments == before.assignments[group := base];
      Clear(group, list);
      ClearAll(list, partitions);
      Overwrite(before.assignments, group, base, base + Cleared(list));
      Overwrite(before.assignments, group, base + Cleared(list), base + Shares(list, partitions));
      Rebalanced(before, group, list, partitions);
      if |list| == 0 {
        return;
      }
      Deal(group, list, partitions, base);
    }

    /** Every member starts with no partitions. */
    method Clear(group: string, list: seq<string>)
      requires group in assignments
      modifies `assignments
      ensures assignments == old(assignments)[group := old(assignments)[group] + Cleared(list)]
    {
      hide Cleared;
      ghost var before := assignments;
      ghost var base := assignments[group];
      ClearStart(base, list);
      for i := 0 to |list|
        invariant assignments == before[group := base + Cleared(list[..i])]
      {
        ClearStep(base, list, i);
        Overwrite(before, group, base + Cleared(list[..i]), base + Cleared(list[..i + 1]));
        assignments := assignments[group := assignments[group][list[i] := []]];
      }
      assert list[..|list|] == list;
    }

    method Deal(group: string, list: seq<string>, partitions: int, ghost base: map<string, seq<int>>)
      requires list != [] && Ascending(list, LexLess)
      requires group in assignments && assignments[group] == base + Cleared(list)
      modifies `assignments
      ensures assignments == old(assignments)[group := base + Shares(list, partitions)]
    {
      hide Cleared, Shares, LexLess, Ascending;
      ghost var before := assignments;
      ShareNone(list);
      var p := 0;
      while p < partitions
        invariant 0 <= p
        invariant p <= partitions || p == 0
        invariant assignments == before[group := base + Shares(list, p)]
      {
        var m := list[p % |list|];
        ShareStep(base, list, p);
        Overwrite(before, group, base + Shares(list, p), base + Shares(list, p + 1));
        assignments := assignments[group := assignments[group][m := assignments[group][m] + [p]]];
        p := p + 1;
      }
      ShareEnd(list, p, partitions);
    }

    /** A copy of a group's assignment. */
    method Assignment(group: string) returns (out: map<string, seq<int>>)
      ensures out == Assigned(State(), group)
    {
      out := map[];
      if group in assignments {
        var todo := assignments[group].Keys;
        while todo != {}
          invariant todo <= assignments[group].Keys
          invariant out == assignments[group] - todo
          decreases |todo|
        {
          var m :| m in todo;
          out := out[m := assignments[group][m]];
          todo := todo - {m};
        }
      }
    }
  }

  lemma Rebalanced(c: Coord, g: string, list: seq<string>, n: int)
    requires StrictTotal(LexLess) && list == SortedOf(Members(c, g), LexLess)
    ensures Apply(c, Op.Rebalance(g, n)) == Coord(c.members, c.assignments[g := Assigned(c, g) + Shares(list, n)])
  {
    hide StrictTotal, SortedOf, LexLess, Shares;
  }

  lemma Overwrite<T>(a: map<string, T>, g: string, x: T, y: T)
    ensures a[g := x][g := y] == a[g := y]
  {
  }

  function Cleared(list: seq<string>): map<string, seq<int>> {
    map m | m in list :: []
  }

  lemma ClearStart(base: map<string, seq<int>>, list: seq<string>)
    ensures base + Cleared(list[..0]) == base
  {
    assert Cleared(list[..0]) == map[];
  }

  lemma ClearStep(base: map<string, seq<int>>, list: seq<string>, i: nat)
    requires i < |list|
    ensures (base + Cleared(list[..i]))[list[i] := []] == base + Cleared(list[..i + 1])
  {
    assert list[..i + 1] == list[..i] + [list[i]];
  }

  lemma ClearAll(list: seq<string>, n: int)
    ensures list[..|list|] == list
    ensures list == [] ==> Cleared(list) == Shares(list, n)
  {
  }

  lemma ShareNone(list: seq<string>)
    ensures Shares(list, 0) == Cleared(list)
  {
  }

  lemma OwnedStep(i: nat, k: nat, p: nat)
    requires k > 0
    ensures Owned(i, k, p + 1) == if p % k == i then Owned(i, k, p) + [p] else Owned(i, k, p)
  {
  }

  lemma ShareStep(base: map<string, seq<int>>, list: seq<string>, p: nat)
    requires list != [] && Ascending(list, LexLess)
    ensures var m := list[p % |list|];
            m in Shares(list, p) &&
            (base + Shares(list, p))[m := Shares(list, p)[m] + [p]] == base + Shares(list, p + 1)
  {
    hide LexLess, Ascending, Owned, Index;
    var m := list[p % |list|];
    RosterDistinct(list, p % |list|);
    var s, s' := Shares(list, p), Shares(list, p + 1);
    forall x | x in s ensures s'[x] == if x == m then s[x] + [p] else s[x] {
      OwnedStep(Index(list, x), |list|, p);
    }
    Merge(base, s, s', m, s[m] + [p]);
  }

  lemma Merge(base: map<string, seq<int>>, s: map<string, seq<int>>, s': map<string, seq<int>>, m: string, v: seq<int>)
    requires m in s && s'.Keys == s.Keys
    requires forall x :: x in s ==> s'[x] == if x == m then v else s[x]
    ensures (base + s)[m := v] == base + s'
  {
  }

  lemma ShareEnd(list: seq<string>, p: int, n: int)
    requires list != [] && 0 <= p && n <= p && (p <= n || p == 0)
    ensures Shares(list, p) == Shares(list, n)
  {
  }
}
