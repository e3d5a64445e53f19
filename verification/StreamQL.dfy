/** From a parsed query plan to operators, and what running them computes. */
module StreamQL {
  import opened Bytes
  import opened Order
  import opened Streams
  import opened Counting
  import opened Aggregates

  /** A plan whose filter and aggregates have been parsed. hasAggregates tells
      whether the query lists any, also ones that did not parse. */
  datatype Plan = Plan(filter: Option<Record -> bool>, hasAggregates: bool, specs: seq<AggSpec>,
                       groupBy: seq<string>, windowMs: int, projections: seq<string>)

  datatype Operator =
    | Filter(pred: Record -> bool)
    | CountBy(key: string)
    | Windowed(key: string, aggs: seq<AggSpec>)
    | Funcs(key: string, aggs: seq<AggSpec>)
    | Project(fields: seq<string>)

  /** What flows out of an operator. */
  datatype Output = Rows(recs: seq<Record>) | Counts(counts: map<string, int>) | Tables(tables: seq<Table>)

  predicate IsShortcut(specs: seq<AggSpec>) {
    |specs| == 1 && specs[0].func == "count" && specs[0].field == "*"
  }

  /** The aggregation stage of a grouped plan. */
  function GroupedStage(p: Plan): Operator
    requires p.groupBy != []
  {
    if IsShortcut(p.specs) then CountBy(p.groupBy[0])
    else if p.windowMs > 0 then Windowed(p.groupBy[0], p.specs)
    else Funcs(p.groupBy[0], p.specs)
  }

  predicate Grouped(p: Plan) {
    p.hasAggregates && p.groupBy != []
  }

  /** All stages but the last pass rows on, so every stage is fed rows. */
  predicate Pipeline(ops: seq<Operator>) {
    ops != [] && forall i :: 0 <= i < |ops| - 1 ==> ops[i].Filter? || ops[i].Project?
  }

  method BuildOperators(p: Plan) returns (ops: seq<Operator>)
    ensures ops == (if p.filter.Some? then [Filter(p.filter.value)] else [])
                   + [if Grouped(p) then GroupedStage(p) else Project(p.projections)]
    ensures Pipeline(ops)
    ensures var last := ops[|ops| - 1];
            if !p.hasAggregates || p.groupBy == [] then last == Project(p.projections)
            else if |p.specs| == 1 && p.specs[0].func == "count" && p.specs[0].field == "*"
            then last == CountBy(p.groupBy[0])
            else if p.windowMs > 0 then last == Windowed(p.groupBy[0], p.specs)
            else last == Funcs(p.groupBy[0], p.specs)
  {
    ops := [];
    if p.filter.Some? {
      ops := ops + [Filter(p.filter.value)];
    }
    if p.hasAggregates && |p.groupBy| > 0 {
      if |p.specs| == 1 && p.specs[0].func == "count" && p.specs[0].field == "*" {
        ops := ops + [CountBy(p.groupBy[0])];
        return;
      }
      if p.windowMs > 0 {
        ops := ops + [Windowed(p.groupBy[0], p.specs)];
        return;
      }
      ops := ops + [Funcs(p.groupBy[0], p.specs)];
      return;
    }
    ops := ops + [Project(p.projections)];
  }

  // ---------- what each stage computes ----------

  function Keeping(pred: Record -> bool, recs: seq<Record>): seq<Record> {
    if recs == [] then [] else
      var front := Keeping(pred, recs[..|recs| - 1]);
      if pred(recs[|recs| - 1]) then front + [recs[|recs| - 1]] else front
  }

  lemma {:induction false} KeepingPicks(pred: Record -> bool, recs: seq<Record>)
    ensures Picks(recs, pred, Keeping(pred, recs))
  {
    hide Picks;
    if recs == [] {
      PicksNone(pred);
    } else {
      var front := recs[..|recs| - 1];
      KeepingPicks(pred, front);
      PicksSnoc(front, pred, Keeping(pred, front), recs[|recs| - 1]);
      assert recs == front + [recs[|recs| - 1]];
    }
  }

  lemma {:induction false} KeepingCounts(pred: Record -> bool, recs: seq<Record>, r: Record)
    ensures multiset(Keeping(pred, recs))[r] == if pred(r) then multiset(recs)[r] else 0
  {
    if recs != [] {
      KeepingCounts(pred, recs[..|recs| - 1], r);
      assert recs == recs[..|recs| - 1] + [recs[|recs| - 1]];
    }
  }

  /** The row a query lists for r: r itself, or exactly those of the listed fields
      that r has, with r's values. */
  ghost predicate IsProjection(fields: seq<string>, r: Record, out: Record) {
    if |fields| == 0 || (|fields| == 1 && fields[0] == "*") then out == r else
      && (forall f :: f in out <==> f in r && f in fields)
      && (forall f :: f in out ==> out[f] == r[f])
  }

  /** The projection closure: all of the record, or its listed fields. */
  function Projected(fields: seq<string>, r: Record): (out: Record)
    ensures IsProjection(fields, r, out)
  {
    if fields == [] || fields == ["*"] then r else map f | f in r && f in fields :: r[f]
  }

  /** The records with the ticks that fall before, between and after them. */
  function Ticked(recs: seq<Record>, ticks: nat -> nat): seq<Input> {
    var due := seq(ticks(|recs|), _ => Tick);
    if recs == [] then due else Ticked(recs[..|recs| - 1], ticks) + [Rec(recs[|recs| - 1])] + due
  }

  /** The output of a stage fed with rows. */
  ghost predicate Computes(fmt: Value -> string, op: Operator, ticks: nat -> nat, recs: seq<Record>, out: Output) {
    match op
    case Filter(pred) => out.Rows? && Picks(recs, pred, out.recs)
    case Project(fields) =>
      out.Rows? && |out.recs| == |recs| && forall i :: 0 <= i < |recs| ==> IsProjection(fields, recs[i], out.recs[i])
    case CountBy(key) => out.Counts? && CountsOf(fmt, key, recs, out.counts)
    case Funcs(key, aggs) => out == Tables([RenderAll(aggs, Batch(fmt, key, aggs, recs))])
    case Windowed(key, aggs) => out == Tables(Emit(fmt, key, aggs, Spans(Ticked(recs, ticks), [])))
  }

  method FilterRows(pred: Record -> bool, recs: seq<Record>) returns (out: seq<Record>)
    ensures out == Keeping(pred, recs) && Picks(recs, pred, out)
  {
    hide Picks;
    KeepingPicks(pred, recs);
    out := [];
    for i := 0 to |recs|
      invariant out == Keeping(pred, recs[..i])
    {
      assert recs[..i + 1][..i] == recs[..i];
      if pred(recs[i]) {
        out := out + [recs[i]];
      }
    }
    assert recs[..|recs|] == recs;
  }

  method ProjectRow(fields: seq<string>, r: Record) returns (out: Record)
    ensures out == Projected(fields, r) && IsProjection(fields, r, out)
  {
    hide IsProjection;
    if |fields| == 0 || (|fields| == 1 && fields[0] == "*") {
      return r;
    }
    out := map[];
    for i := 0 to |fields|
      invariant out == map f | f in r && f in fields[..i] :: r[f]
    {
      assert fields[..i + 1] == fields[..i] + [fields[i]];
      if fields[i] in r {
        out := out[fields[i] := r[fields[i]]];
      }
    }
    assert fields[..|fields|] == fields;
  }

  method ProjectRows(fields: seq<string>, recs: seq<Record>) returns (out: seq<Record>)
    ensures |out| == |recs| && forall i :: 0 <= i < |recs| ==> IsProjection(fields, recs[i], out[i])
  {
    hide Projected, IsProjection;
    out := [];
    for i := 0 to |recs|
      invariant |out| == i && forall j :: 0 <= j < i ==> IsProjection(fields, recs[j], out[j])
    {
      var r := ProjectRow(fields, recs[i]);
      out := out + [r];
    }
  }

  method Process(fmt: Value -> string, op: Operator, ticks: nat -> nat, recs: seq<Record>) returns (out: Output)
    ensures Computes(fmt, op, ticks, recs, out)
    ensures op.Filter? || op.Project? ==> out.Rows?
  {
    hide CountsOf, RenderAll, Batch, Emit, Spans, IsProjection, Picks;
    match op
    case Filter(pred) =>
      var rows := FilterRows(pred, recs);
      out := Rows(rows);
    case Project(fields) =>
      var rows := ProjectRows(fields, recs);
      out := Rows(rows);
    case CountBy(key) =>
      var counts := AggregateCounts(fmt, key, recs);
      out := Counts(counts);
    case Funcs(key, aggs) =>
      var table := AggregateFuncs(fmt, key, aggs, recs);
      out := Tables([table]);
    case Windowed(key, aggs) =>
      var tables := TimeWindow(fmt, key, aggs, Ticked(recs, ticks));
      out := Tables(tables);
  }

  /** The stages one after the other, each fed with what the one before produced. */
  ghost predicate RunsTo(fmt: Value -> string, ops: seq<Operator>, ticks: nat -> nat, recs: seq<Record>, out: Output) {
    if ops == [] then out == Rows(recs) else
      exists mid :: RunsTo(fmt, ops[..|ops| - 1], ticks, recs, mid) && mid.Rows?
                    && Computes(fmt, ops[|ops| - 1], ticks, mid.recs, out)
  }

  /** Runtime.Run. */
  method Run(fmt: Value -> string, ops: seq<Operator>, ticks: nat -> nat, recs: seq<Record>) returns (out: Output)
    requires Pipeline(ops)
    ensures RunsTo(fmt, ops, ticks, recs, out)
  {
    hide Computes;
    out := Rows(recs);
    for i := 0 to |ops|
      invariant RunsTo(fmt, ops[..i], ticks, recs, out)
      invariant i < |ops| ==> out.Rows?
    {
      ghost var mid := out;
      out := Process(fmt, ops[i], ticks, out.recs);
      assert ops[..i + 1][..i] == ops[..i];
    }
    assert ops[..|ops|] == ops;
  }

  // ---------- what a plan computes ----------

  /** The stage behind the filter. */
  function LastStage(p: Plan): Operator {
    if Grouped(p) then GroupedStage(p) else Project(p.projections)
  }

  /** The rows that reach the last stage. */
  function Filtered(p: Plan, recs: seq<Record>): seq<Record> {
    if p.filter.Some? then Keeping(p.filter.value, recs) else recs
  }

  /** rows are the rows of recs a plan's filter lets through: each as often as in recs
      if the predicate holds of it and not at all otherwise, in the order of recs. */
  ghost predicate Passing(p: Plan, recs: seq<Record>, rows: seq<Record>) {
    if p.filter.None? then rows == recs else
      && Picks(recs, p.filter.value, rows)
      && forall r :: multiset(rows)[r] == if p.filter.value(r) then multiset(recs)[r] else 0
  }

  lemma FilteredPasses(p: Plan, recs: seq<Record>)
    ensures Passing(p, recs, Filtered(p, recs))
  {
    hide Picks, Keeping;
    if p.filter.Some? {
      KeepingPicks(p.filter.value, recs);
      forall r ensures multiset(Filtered(p, recs))[r] == if p.filter.value(r) then multiset(recs)[r] else 0 {
        KeepingCounts(p.filter.value, recs, r);
      }
    }
  }

  /** RunPlan filters and then does what the plan's last stage does, nothing else. */
  method RunPlan(fmt: Value -> string, p: Plan, ticks: nat -> nat, recs: seq<Record>) returns (out: Output)
    ensures Computes(fmt, LastStage(p), ticks, Filtered(p, recs), out)
    ensures Passing(p, recs, Filtered(p, recs))
    ensures !Grouped(p) ==>
              && out.Rows? && |out.recs| == |Filtered(p, recs)|
              && forall i :: 0 <= i < |out.recs| ==> IsProjection(p.projections, Filtered(p, recs)[i], out.recs[i])
  {
    hide Computes, Passing, IsProjection, Filtered;
    var ops := BuildOperators(p);
    out := Run(fmt, ops, ticks, recs);
    PlanStages(fmt, p, ops, ticks, recs, out);
    FilteredPasses(p, recs);
    PlanRows(fmt, p, ticks, recs, out);
  }

  lemma PlanRows(fmt: Value -> string, p: Plan, ticks: nat -> nat, recs: seq<Record>, out: Output)
    requires Computes(fmt, LastStage(p), ticks, Filtered(p, recs), out)
    ensures !Grouped(p) ==>
              && out.Rows? && |out.recs| == |Filtered(p, recs)|
              && forall i :: 0 <= i < |out.recs| ==> IsProjection(p.projections, Filtered(p, recs)[i], out.recs[i])
  {
    hide IsProjection, Filtered, GroupedStage;
  }

  lemma PlanStages(fmt: Value -> string, p: Plan, ops: seq<Operator>, ticks: nat -> nat, recs: seq<Record>, out: Output)
    requires ops == (if p.filter.Some? then [Filter(p.filter.value)] else [])
                    + [LastStage(p)]
    requires RunsTo(fmt, ops, ticks, recs, out)
    ensures Computes(fmt, LastStage(p), ticks, Filtered(p, recs), out)
  {
    hide GroupedStage, Keeping, Picks, IsProjection;
    var last := LastStage(p);
    var n := |ops| - 1;
    assert ops[n] == last;
    var mid :| RunsTo(fmt, ops[..n], ticks, recs, mid) && mid.Rows? && Computes(fmt, last, ticks, mid.recs, out);
    if p.filter.Some? {
      assert ops[..n] == [Filter(p.filter.value)];
      assert [Filter(p.filter.value)][..0] == [];
      var first :| RunsTo(fmt, [Filter(p.filter.value)][..0], ticks, recs, first) && first.Rows?
                   && Computes(fmt, Filter(p.filter.value), ticks, first.recs, mid);
      KeepingPicks(p.filter.value, recs);
      PicksUnique(recs, p.filter.value, mid.recs, Keeping(p.filter.value, recs));
    } else {
      assert ops[..n] == [];
    }
  }

  lemma {:induction false} RecordsConcat(a: seq<Input>, b: seq<Input>)
    ensures RecordsIn(a + b) == RecordsIn(a) + RecordsIn(b)
  {
    hide RecordOf;
    if a == [] {
      assert a + b == b;
    } else {
      RecordsConcat(a[1..], b);
      assert (a + b)[1..] == a[1..] + b;
      assert RecordsIn(a + b) == RecordOf(a[0]) + (RecordsIn(a[1..]) + RecordsIn(b));
    }
  }

  lemma {:induction false} OnlyTicks(n: nat)
    ensures RecordsIn(seq(n, _ => Tick)) == []
  {
    if n > 0 {
      OnlyTicks(n - 1);
      assert seq(n, _ => Tick)[1..] == seq(n - 1, _ => Tick);
    }
  }

  lemma {:induction false} TickedRecords(recs: seq<Record>, ticks: nat -> nat)
    ensures RecordsIn(Ticked(recs, ticks)) == recs
  {
    var due := seq(ticks(|recs|), _ => Tick);
    OnlyTicks(ticks(|recs|));
    if recs != [] {
      var front := Ticked(recs[..|recs| - 1], ticks);
      TickedRecords(recs[..|recs| - 1], ticks);
      RecordsConcat(front, [Rec(recs[|recs| - 1])]);
      RecordsConcat(front + [Rec(recs[|recs| - 1])], due);
      assert recs == recs[..|recs| - 1] + [recs[|recs| - 1]];
    }
  }

  // ---------- the COUNT(*) shortcut ----------

  /** How many records lack the key. */
  function Missing(key: string, recs: seq<Record>): nat {
    if recs == [] then 0 else Missing(key, recs[..|recs| - 1]) + (if key in recs[|recs| - 1] then 0 else 1)
  }

  /** The general aggregator counts the records without the key under the empty
      string; the shortcut leaves them out. */
  lemma {:induction false} SizeVersusOccurs(fmt: Value -> string, key: string, recs: seq<Record>, g: string)
    ensures Size(fmt, key, recs, g) == Occurs(fmt, key, recs, g) + (if g == "" then Missing(key, recs) else 0)
  {
    if recs != [] {
      SizeVersusOccurs(fmt, key, recs[..|recs| - 1], g);
    }
  }

  lemma {:induction false} MissingNone(key: string, recs: seq<Record>)
    ensures Missing(key, recs) == 0 <==> forall i :: 0 <= i < |recs| ==> key in recs[i]
  {
    if recs != [] {
      MissingNone(key, recs[..|recs| - 1]);
      assert recs == recs[..|recs| - 1] + [recs[|recs| - 1]];
    }
  }

  /** The shortcut and the general aggregator agree on every group exactly when
      every record carries the group key. */
  lemma ShortcutAgreesIff(fmt: Value -> string, key: string, spec: AggSpec, recs: seq<Record>, counts: map<string, int>)
    requires spec.func == "count" && CountsOf(fmt, key, recs, counts)
    ensures var table := RenderAll([spec], Batch(fmt, key, [spec], recs));
            (forall g {:trigger Get(counts, g)} :: Get(counts, g) as real == ValueAt(table, g, Alias(spec)))
            <==> forall i :: 0 <= i < |recs| ==> key in recs[i]
  {
    hide RenderAll, Batch, ValueAt, Alias, CountsOf;
    var table := RenderAll([spec], Batch(fmt, key, [spec], recs));
    forall g {:trigger Get(counts, g)}
      ensures Get(counts, g) == Occurs(fmt, key, recs, g)
      ensures ValueAt(table, g, Alias(spec)) == Size(fmt, key, recs, g) as real
      ensures Size(fmt, key, recs, g) == Occurs(fmt, key, recs, g) + (if g == "" then Missing(key, recs) else 0)
    {
      CountAt(fmt, key, recs, counts, g);
      ValueIsExpected(fmt, key, [spec], recs, g, 0);
      SizeVersusOccurs(fmt, key, recs, g);
    }
    MissingNone(key, recs);
    hide Get, Size, Occurs, Missing;
    assert Get(counts, "") as real == ValueAt(table, "", Alias(spec)) <==> Missing(key, recs) == 0;
  }

  lemma CountAt(fmt: Value -> string, key: string, recs: seq<Record>, counts: map<string, int>, g: string)
    requires CountsOf(fmt, key, recs, counts)
    ensures Get(counts, g) == Occurs(fmt, key, recs, g)
  {
  }

  /** The size of a group without the rows that lack the key, which are all in the
      group of the empty key. */
  ghost function Counted(fmt: Value -> string, key: string, rows: seq<Record>, g: string): int {
    Size(fmt, key, rows, g) - if g == "" then Missing(key, rows) else 0
  }

  /** A COUNT(*) plan counts the filtered rows of each group, leaving out those
      without the key. It does so once over all rows: whatever window the plan
      has and wherever ticks fall, the outcome is the same. */
  lemma CountPlanMeaning(fmt: Value -> string, p: Plan, ticks: nat -> nat, recs: seq<Record>, out: Output, g: string)
    requires Grouped(p) && IsShortcut(p.specs)
    requires Computes(fmt, GroupedStage(p), ticks, Filtered(p, recs), out)
    ensures var rows := Filtered(p, recs);
            var key := p.groupBy[0];
            && out.Counts?
            && Get(out.counts, g) == Counted(fmt, key, rows, g)
            && (forall window, ticks' :: Computes(fmt, GroupedStage(p.(windowMs := window)), ticks', rows, out))
            && Passing(p, recs, rows)
  {
    hide Filtered, Size, Occurs, Missing, CountsOf, Passing;
    FilteredPasses(p, recs);
    CountAt(fmt, p.groupBy[0], Filtered(p, recs), out.counts, g);
    SizeVersusOccurs(fmt, p.groupBy[0], Filtered(p, recs), g);
  }

  /** A grouped plan without a window computes filter-then-group-by: one group per key
      of the rows that pass the filter, with each aggregate over exactly the rows of its
      group. The COUNT(*) shortcut counts those rows of the group that have the key. */
  lemma GroupedPlanMeaning(fmt: Value -> string, p: Plan, ticks: nat -> nat, recs: seq<Record>, out: Output,
                           g: string, j: nat)
    requires Grouped(p) && p.windowMs <= 0
    requires DistinctAliases(p.specs) && j < |p.specs|
    requires Computes(fmt, GroupedStage(p), ticks, Filtered(p, recs), out)
    ensures var rows := Filtered(p, recs);
            var key := p.groupBy[0];
            && Passing(p, recs, rows)
            && if IsShortcut(p.specs) then out.Counts? && Get(out.counts, g) == Counted(fmt, key, rows, g)
               else out.Tables? && |out.tables| == 1 && Means(fmt, key, p.specs, rows, out.tables[0], g, j)
  {
    hide Passing;
    FilteredPasses(p, recs);
    if IsShortcut(p.specs) {
      CountPlanMeaning(fmt, p, ticks, recs, out, g);
    } else {
      hide RenderAll, Batch, Filtered, Means, DistinctAliases;
      ResultMeaning(fmt, p.groupBy[0], p.specs, Filtered(p, recs), g, j);
    }
  }

  // ---------- windowed plans ----------

  lemma {:induction false} AfterTicks(inputs: seq<Input>, n: nat)
    ensures var (done, cur) := After(inputs);
            After(inputs + seq(n, _ => Tick)) ==
            if n == 0 then (done, cur) else (if cur == [] then done else done + [cur], [])
  {
    var all := inputs + seq(n, _ => Tick);
    if n == 0 {
      assert all == inputs;
    } else {
      AfterTicks(inputs, n - 1);
      assert all[..|all| - 1] == inputs + seq(n - 1, _ => Tick);
    }
  }

  lemma AfterRecord(inputs: seq<Input>, r: Record)
    ensures After(inputs + [Rec(r)]) == (After(inputs).0, After(inputs).1 + [r])
  {
    assert (inputs + [Rec(r)])[..|inputs|] == inputs;
  }

  ghost predicate NoneEmpty(spans: seq<seq<Record>>) {
    forall i :: 0 <= i < |spans| ==> spans[i] != []
  }

  /** Flushed spans and the open one make up the records, and a span was flushed
      behind a record exactly if a tick fell there. */
  ghost predicate CutAtTicks(recs: seq<Record>, ticks: nat -> nat, done: seq<seq<Record>>, cur: seq<Record>) {
    && Flat(done) + cur == recs && NoneEmpty(done)
    && (cur == [] <==> recs == [] || ticks(|recs|) > 0)
    && (forall i: nat :: 0 < i <= |recs| ==> (EndsAt(done, i) <==> ticks(i) > 0))
  }

  lemma {:induction false} TicksCut(recs: seq<Record>, ticks: nat -> nat)
    ensures var (done, cur) := After(Ticked(recs, ticks));
            CutAtTicks(recs, ticks, done, cur)
  {
    hide After, CutAtTicks;
    if recs == [] {
      AfterTicks([], ticks(0));
      assert [] + seq(ticks(0), _ => Tick) == Ticked(recs, ticks);
      NothingYet(ticks);
    } else {
      var front, r := recs[..|recs| - 1], recs[|recs| - 1];
      var (done, cur) := After(Ticked(front, ticks));
      TicksCut(front, ticks);
      AfterRecord(Ticked(front, ticks), r);
      AfterTicks(Ticked(front, ticks) + [Rec(r)], ticks(|recs|));
      CutOn(front, ticks, done, cur, r);
      assert recs == front + [r];
    }
  }

  lemma NothingYet(ticks: nat -> nat)
    ensures After([]) == ([], []) && CutAtTicks([], ticks, [], [])
  {
  }

  lemma CutOn(recs: seq<Record>, ticks: nat -> nat, done: seq<seq<Record>>, cur: seq<Record>, r: Record)
    requires CutAtTicks(recs, ticks, done, cur)
    ensures if ticks(|recs| + 1) == 0 then CutAtTicks(recs + [r], ticks, done, cur + [r])
            else CutAtTicks(recs + [r], ticks, done + [cur + [r]], [])
  {
    hide Flat, EndsAt;
    var recs', cur' := recs + [r], cur + [r];
    assert Flat(done) + cur' == recs';
    EndsInside(done, |recs'|);
    forall i: nat ensures EndsAt(done + [cur'], i) <==> EndsAt(done, i) || i == |recs'| {
      EndsSnoc(done, cur', i);
    }
    EndsSnoc(done, cur', 0);
    assert recs' + [] == recs' && Flat(done + [cur']) + [] == Flat(done + [cur']);
  }

  lemma EndsInside(spans: seq<seq<Record>>, i: int)
    requires i > |Flat(spans)|
    ensures !EndsAt(spans, i)
  {
    forall n | 0 < n <= |spans| ensures |Flat(spans[..n])| <= |Flat(spans)| {
      FlatPrefix(spans, n);
    }
  }

  lemma {:induction false} FlatPrefix(spans: seq<seq<Record>>, n: nat)
    requires n <= |spans|
    ensures |Flat(spans[..n])| <= |Flat(spans)|
  {
    if n == |spans| {
      assert spans[..n] == spans;
    } else {
      FlatPrefix(spans[..|spans| - 1], n);
      assert spans[..|spans| - 1][..n] == spans[..n];
    }
  }

  /** The windows of rows: end to end they are the rows, none is empty, and one ends
      between two rows exactly if a tick falls there. */
  ghost predicate TickWindows(rows: seq<Record>, ticks: nat -> nat, spans: seq<seq<Record>>) {
    && Flat(spans) == rows && NoneEmpty(spans)
    && forall i: nat :: 0 < i < |rows| ==> (EndsAt(spans, i) <==> ticks(i) > 0)
  }

  lemma SpansAreWindows(rows: seq<Record>, ticks: nat -> nat)
    ensures TickWindows(rows, ticks, Spans(Ticked(rows, ticks), []))
  {
    hide Spans, Ticked, After, EndsAt, Flat;
    var (done, cur) := After(Ticked(rows, ticks));
    TicksCut(rows, ticks);
    SpansAfter(Ticked(rows, ticks));
    if cur == [] {
      assert Flat(done) + [] == Flat(done);
    } else {
      forall i: nat ensures EndsAt(done + [cur], i) <==> EndsAt(done, i) || i == |rows| {
        EndsSnoc(done, cur, i);
      }
      EndsSnoc(done, cur, 0);
    }
  }

  /** A windowed plan emits one table per window of the rows that pass the filter, in
      order, and every table is what its aggregates say over the rows of its window. */
  lemma WindowedPlanMeaning(fmt: Value -> string, p: Plan, ticks: nat -> nat, recs: seq<Record>, out: Output)
    requires Grouped(p) && p.windowMs > 0 && !IsShortcut(p.specs) && DistinctAliases(p.specs)
    requires Computes(fmt, GroupedStage(p), ticks, Filtered(p, recs), out)
    ensures Passing(p, recs, Filtered(p, recs))
    ensures exists spans :: TickWindows(Filtered(p, recs), ticks, spans) && Tabled(fmt, p, spans, out)
  {
    hide Passing, TickWindows, Filtered, RenderAll, Batch, Means, Spans, Ticked, DistinctAliases;
    FilteredPasses(p, recs);
    var rows := Filtered(p, recs);
    var spans := Spans(Ticked(rows, ticks), []);
    SpansAreWindows(rows, ticks);
    forall i, g, j: nat | 0 <= i < |spans| && j < |p.specs|
      ensures Means(fmt, p.groupBy[0], p.specs, spans[i], out.tables[i], g, j)
    {
      ResultMeaning(fmt, p.groupBy[0], p.specs, spans[i], g, j);
    }
    assert Tabled(fmt, p, spans, out);
  }

  /** One table per span, each over the rows of its span. */
  ghost predicate Tabled(fmt: Value -> string, p: Plan, spans: seq<seq<Record>>, out: Output)
    requires p.groupBy != []
  {
    && out.Tables? && |out.tables| == |spans|
    && forall i, g, j: nat :: 0 <= i < |spans| && j < |p.specs| ==>
         Means(fmt, p.groupBy[0], p.specs, spans[i], out.tables[i], g, j)
  }

  /** A windowed plan loses and invents nothing: over all tables it emits, the counts
      and sums of a group add up to those of the group among the filtered rows,
      whenever the ticks fall. The COUNT(*) shortcut emits one table for all of them. */
  lemma WindowedPlanConserves(fmt: Value -> string, p: Plan, ticks: nat -> nat, recs: seq<Record>, out: Output,
                              g: string, j: nat)
    requires Grouped(p) && p.windowMs > 0
    requires DistinctAliases(p.specs) && j < |p.specs| && (p.specs[j].func == "count" || p.specs[j].func == "sum")
    requires Computes(fmt, GroupedStage(p), ticks, Filtered(p, recs), out)
    ensures var rows := Filtered(p, recs);
            && Passing(p, recs, rows)
            && if IsShortcut(p.specs)
               then out.Counts? && Get(out.counts, g) == Counted(fmt, p.groupBy[0], rows, g)
               else
                 && out.Tables?
                 && TotalAt(out.tables, g, Alias(p.specs[j])) == Expected(fmt, p.groupBy[0], rows, g, p.specs[j])
  {
    hide Passing;
    FilteredPasses(p, recs);
    if IsShortcut(p.specs) {
      CountPlanMeaning(fmt, p, ticks, recs, out, g);
    } else {
      hide RenderAll, Batch, Filtered, Alias, DistinctAliases, Emit, Spans, Ticked, TotalAt, ValueAt, Expected;
      var rows := Filtered(p, recs);
      TickedRecords(rows, ticks);
      TicksConserve(fmt, p.groupBy[0], p.specs, Ticked(rows, ticks), g, j);
      ValueIsExpected(fmt, p.groupBy[0], p.specs, rows, g, j);
    }
  }
}
