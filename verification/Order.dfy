/** Sorting the keys of a map: Go ranges over a map in an arbitrary order and
    then sorts, so what matters is that the sorted list is unique. Also the
    string order of Go and decimal numerals, as used in file names. */
module Order {

  /** Irreflexive, transitive and total: what a sort comparator must be. */
  ghost predicate StrictTotal<T(!new)>(lt: (T, T) -> bool) {
    && (forall x :: !lt(x, x))
    && (forall x, y, z :: lt(x, y) && lt(y, z) ==> lt(x, z))
    && (forall x, y :: x != y ==> lt(x, y) || lt(y, x))
  }

  ghost predicate Ascending<T>(s: seq<T>, lt: (T, T) -> bool) {
    forall i, j :: 0 <= i < j < |s| ==> lt(s[i], s[j])
  }

  function Insert<T(!new)>(s: seq<T>, x: T, lt: (T, T) -> bool): (r: seq<T>)
    requires StrictTotal(lt) && Ascending(s, lt) && x !in s
    ensures Ascending(r, lt) && forall y :: y in r <==> y in s || y == x
  {
    if s == [] || lt(x, s[0]) then
      [x] + s
    else
      var t := Insert(s[1..], x, lt);
      assert forall y :: y in s <==> y == s[0] || y in s[1..];
      assert forall i :: 0 <= i < |t| ==> lt(s[0], t[i]) by {
        assert forall i :: 0 <= i < |t| ==> t[i] in t;
      }
      [s[0]] + t
  }

  /** The sorted list of a set. */
  ghost function SortedOf<T(!new)>(S: set<T>, lt: (T, T) -> bool): (s: seq<T>)
    requires StrictTotal(lt)
    ensures Ascending(s, lt) && (forall x :: x in s <==> x in S) && |s| == |S|
  {
    if S == {} then [] else
      var x :| x in S;
      var rest := SortedOf(S - {x}, lt);
      var s := Insert(rest, x, lt);
      AscendingSize(s, S, lt);
      s
  }

  lemma {:induction false} AscendingSize<T(!new)>(s: seq<T>, S: set<T>, lt: (T, T) -> bool)
    requires StrictTotal(lt) && Ascending(s, lt) && forall x :: x in s <==> x in S
    ensures |s| == |S|
  {
    if s != [] {
      assert s[0] in S;
      assert forall x :: x in s <==> x == s[0] || x in s[1..];
      AscendingSize(s[1..], S - {s[0]}, lt);
    } else {
      assert S == {};
    }
  }

  /** Two ascending lists with the same elements are equal, so the order in
      which a map is walked before sorting does not matter. */
  lemma {:induction false} AscendingUnique<T(!new)>(s: seq<T>, t: seq<T>, lt: (T, T) -> bool)
    requires StrictTotal(lt) && Ascending(s, lt) && Ascending(t, lt)
    requires forall x :: x in s <==> x in t
    ensures s == t
  {
    assert t != [] ==> t[0] in s;
    if s != [] {
      assert s[0] in t;
      assert s[0] == t[0];
      assert forall x :: x in s[1..] <==> x in s && x != s[0];
      assert forall x :: x in t[1..] <==> x in t && x != t[0];
      AscendingUnique(s[1..], t[1..], lt);
    }
  }

  // ---------- picking from a list ----------

  /** idx lists, in order, exactly the places of all whose element passes, and out
      the elements there. */
  ghost predicate PicksAt<T>(all: seq<T>, passes: T -> bool, idx: seq<int>, out: seq<T>) {
    && Ascending(idx, IntLess)
    && (forall i :: i in idx <==> 0 <= i < |all| && passes(all[i]))
    && |out| == |idx|
    && (forall j :: 0 <= j < |idx| ==> 0 <= idx[j] < |all| && out[j] == all[idx[j]])
  }

  /** out is what passes of all, every occurrence of it and nothing else, in order. */
  ghost predicate Picks<T>(all: seq<T>, passes: T -> bool, out: seq<T>) {
    exists idx :: PicksAt(all, passes, idx, out)
  }

  lemma PicksNone<T>(passes: T -> bool)
    ensures Picks([], passes, [])
  {
    assert PicksAt([], passes, [], []);
  }

  lemma PicksSnoc<T>(all: seq<T>, passes: T -> bool, out: seq<T>, x: T)
    requires Picks(all, passes, out)
    ensures Picks(all + [x], passes, if passes(x) then out + [x] else out)
  {
    hide PicksAt;
    var idx :| PicksAt(all, passes, idx, out);
    if passes(x) {
      PicksOne(all, passes, idx, out, x);
    } else {
      PicksNot(all, passes, idx, out, x);
    }
  }

  lemma PicksOne<T>(all: seq<T>, passes: T -> bool, idx: seq<int>, out: seq<T>, x: T)
    requires PicksAt(all, passes, idx, out) && passes(x)
    ensures PicksAt(all + [x], passes, idx + [|all|], out + [x])
  {
    var all', idx' := all + [x], idx + [|all|];
    forall i ensures i in idx' <==> 0 <= i < |all'| && passes(all'[i]) {
      assert i in idx' <==> i in idx || i == |all|;
    }
    assert forall j :: 0 <= j < |idx| ==> idx'[j] == idx[j];
  }

  lemma PicksNot<T>(all: seq<T>, passes: T -> bool, idx: seq<int>, out: seq<T>, x: T)
    requires PicksAt(all, passes, idx, out) && !passes(x)
    ensures PicksAt(all + [x], passes, idx, out)
  {
    var all' := all + [x];
    forall i ensures i in idx <==> 0 <= i < |all'| && passes(all'[i]) {
      assert 0 <= i < |all| ==> all'[i] == all[i];
    }
  }

  /** There is one such list. */
  lemma PicksUnique<T>(all: seq<T>, passes: T -> bool, out: seq<T>, out': seq<T>)
    requires Picks(all, passes, out) && Picks(all, passes, out')
    ensures out == out'
  {
    var idx :| PicksAt(all, passes, idx, out);
    var idx' :| PicksAt(all, passes, idx', out');
    IntTotal();
    AscendingUnique(idx, idx', IntLess);
  }

  /** A new greatest element goes to the end. */
  lemma SortedAppend<T(!new)>(S: set<T>, x: T, lt: (T, T) -> bool)
    requires StrictTotal(lt) && forall y :: y in S ==> lt(y, x)
    ensures SortedOf(S + {x}, lt) == SortedOf(S, lt) + [x]
  {
    hide StrictTotal, SortedOf;
    AscendingSnoc(SortedOf(S, lt), x, lt);
    hide Ascending;
    AscendingUnique(SortedOf(S + {x}, lt), SortedOf(S, lt) + [x], lt);
  }

  lemma AscendingSnoc<T>(s: seq<T>, x: T, lt: (T, T) -> bool)
    requires Ascending(s, lt) && forall y :: y in s ==> lt(y, x)
    ensures Ascending(s + [x], lt)
  {
    assert forall i :: 0 <= i < |s| ==> s[i] in s;
  }

  /** Ranging over a map's keys in any order and sorting them. */
  method CollectSorted<T(!new)>(S: set<T>, lt: (T, T) -> bool) returns (s: seq<T>)
    requires StrictTotal(lt)
    ensures s == SortedOf(S, lt)
  {
    s := [];
    var todo := S;
    while todo != {}
      invariant todo <= S
      invariant Ascending(s, lt)
      invariant forall x :: x in s <==> x in S && x !in todo
      decreases |todo|
    {
      var x :| x in todo;
      s := Insert(s, x, lt);
      todo := todo - {x};
    }
    AscendingUnique(s, SortedOf(S, lt), lt);
  }

  predicate IntLess(a: int, b: int) {
    a < b
  }

  /** Go's string comparison. */
  predicate LexLess(a: string, b: string) {
    if b == [] then false
    else if a == [] then true
    else if a[0] != b[0] then a[0] < b[0]
    else LexLess(a[1..], b[1..])
  }

  lemma IntTotal()
    ensures StrictTotal(IntLess)
  {
  }

  lemma LexTotal()
    ensures StrictTotal(LexLess)
  {
    forall a: string ensures !LexLess(a, a) {
      LexIrreflexive(a);
    }
    forall a: string, b: string, c: string | LexLess(a, b) && LexLess(b, c) ensures LexLess(a, c) {
      LexTransitive(a, b, c);
    }
    forall a: string, b: string | a != b ensures LexLess(a, b) || LexLess(b, a) {
      LexConnected(a, b);
    }
  }

  lemma LexIrreflexive(a: string)
    ensures !LexLess(a, a)
  {
    if a != [] { LexIrreflexive(a[1..]); }
  }

  lemma {:induction false} LexTransitive(a: string, b: string, c: string)
    requires LexLess(a, b) && LexLess(b, c)
    ensures LexLess(a, c)
  {
    if a != [] && a[0] == b[0] == c[0] {
      LexTransitive(a[1..], b[1..], c[1..]);
    }
  }

  lemma {:induction false} LexConnected(a: string, b: string)
    requires a != b
    ensures LexLess(a, b) || LexLess(b, a)
  {
    if a != [] && b != [] && a[0] == b[0] {
      assert a == [a[0]] + a[1..] && b == [b[0]] + b[1..];
      LexConnected(a[1..], b[1..]);
    }
  }

  /** A common prefix does not affect the comparison. */
  lemma {:induction false} LexPrefix(p: string, a: string, b: string)
    ensures LexLess(p + a, p + b) == LexLess(a, b)
  {
    if p == [] {
      assert p + a == a && p + b == b;
    } else {
      assert (p + a)[1..] == p[1..] + a && (p + b)[1..] == p[1..] + b;
      LexPrefix(p[1..], a, b);
    }
  }

  /** Equally long strings stay in order whatever is appended to each. */
  lemma {:induction false} LexExtend(a: string, b: string, x: string, y: string)
    requires |a| == |b| && LexLess(a, b)
    ensures LexLess(a + x, b + y)
  {
    if a[0] == b[0] {
      assert (a + x)[1..] == a[1..] + x && (b + y)[1..] == b[1..] + y;
      LexExtend(a[1..], b[1..], x, y);
    }
  }

  function Digit(d: int): (c: char)
    requires 0 <= d < 10
    ensures '0' <= c <= '9'
  {
    ('0' as int + d) as char
  }

  /** The %d form of a non-negative number. */
  function Numeral(n: nat): (s: string)
    ensures s != "" && forall i :: 0 <= i < |s| ==> '0' <= s[i] <= '9'
  {
    if n < 10 then [Digit(n)] else Numeral(n / 10) + [Digit(n % 10)]
  }

  /** The %d form of any integer. */
  function Decimal(n: int): (s: string)
    ensures s != "" && forall i :: 0 <= i < |s| ==> s[i] == '-' || '0' <= s[i] <= '9'
  {
    if n < 0 then "-" + Numeral(-n) else Numeral(n)
  }

  /** Numerals of the same width compare like the numbers they spell. */
  lemma {:induction false} NumeralOrder(m: nat, n: nat)
    requires |Numeral(m)| == |Numeral(n)| && m < n
    ensures LexLess(Numeral(m), Numeral(n))
  {
    hide LexLess;
    if m < 10 {
      LexDigit(m, n);
    } else if m / 10 < n / 10 {
      NumeralOrder(m / 10, n / 10);
      LexExtend(Numeral(m / 10), Numeral(n / 10), [Digit(m % 10)], [Digit(n % 10)]);
    } else {
      assert m / 10 == n / 10 && m % 10 < n % 10;
      LexDigit(m % 10, n % 10);
      LexPrefix(Numeral(n / 10), [Digit(m % 10)], [Digit(n % 10)]);
    }
  }

  lemma LexDigit(a: int, b: int)
    requires 0 <= a < b < 10
    ensures LexLess([Digit(a)], [Digit(b)])
  {
  }

  lemma {:induction false} NumeralInjective(m: nat, n: nat)
    requires Numeral(m) == Numeral(n)
    ensures m == n
  {
    if m < n {
      NumeralOrder(m, n);
      LexIrreflexive(Numeral(m));
    } else if n < m {
      NumeralOrder(n, m);
      LexIrreflexive(Numeral(m));
    }
  }

  lemma DecimalInjective(m: int, n: int)
    requires Decimal(m) == Decimal(n)
    ensures m == n
  {
    assert m < 0 <==> Decimal(m)[0] == '-';
    assert n < 0 <==> Decimal(n)[0] == '-';
    if m < 0 && n < 0 {
      assert Decimal(m)[1..] == Numeral(-m) && Decimal(n)[1..] == Numeral(-n);
      NumeralInjective(-m, -n);
    } else if m >= 0 && n >= 0 {
      NumeralInjective(m, n);
    }
  }

  /** What stands before and after the last c of a string. */
  lemma SplitLast(c: char, a: string, x: string, b: string, y: string)
    requires a + [c] + x == b + [c] + y && c !in x && c !in y
    ensures a == b && x == y
  {
    var d := a + [c] + x;
    assert d[|a|] == c && (b + [c] + y)[|b|] == c;
    assert a == d[..|a|] && b == d[..|b|];
    assert x == d[|a| + 1..] && y == d[|b| + 1..];
    LaterOne(c, d, |a|, |b|);
    LaterOne(c, d, |b|, |a|);
  }

  lemma LaterOne(c: char, d: string, i: nat, j: nat)
    ensures i < j < |d| && d[j] == c ==> c in d[i + 1..]
  {
    if i < j < |d| && d[j] == c {
      assert d[i + 1..][j - i - 1] == c;
    }
  }

  /** A number behind a dash: its sign may be taken for the dash. */
  lemma SplitNumber(a: string, m: int, b: string, n: int)
    ensures a + "-" + Decimal(m) == b + "-" + Decimal(n) <==>
            || (a == b && m == n)
            || (m < 0 && n == -m && b == a + "-")
            || (n < 0 && m == -n && a == b + "-")
  {
    hide Numeral;
    var a', b' := if m < 0 then a + "-" else a, if n < 0 then b + "-" else b;
    var x, y := Numeral(if m < 0 then -m else m), Numeral(if n < 0 then -n else n);
    assert a + "-" + Decimal(m) == a' + ['-'] + x;
    assert b + "-" + Decimal(n) == b' + ['-'] + y;
    if a + "-" + Decimal(m) == b + "-" + Decimal(n) {
      SplitLast('-', a', x, b', y);
      NumeralInjective(if m < 0 then -m else m, if n < 0 then -n else n);
      assert m < 0 && n < 0 ==> a == a'[..|a|] && b == b'[..|b|] && |a| == |b|;
    }
  }
}
