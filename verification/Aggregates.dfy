/** Sums, counts and averages per group, over the whole input and per time window. */
module Aggregates {
  import opened Streams
  import opened Counting

  datatype AggSpec = AggSpec(func: string, field: string, alias: string)

  function Alias(spec: AggSpec): string {
    if spec.alias == "" then spec.func + "_" + spec.field else spec.alias
  }

  predicate Summing(spec: AggSpec) {
    spec.func == "sum" || spec.func == "avg"
  }

  ghost predicate DistinctAliases(aggs: seq<AggSpec>) {
    forall i, j :: 0 <= i < j < |aggs| ==> Alias(aggs[i]) != Alias(aggs[j])
  }

  /** The group a record belongs to; a record without the key goes under "". */
  function Group(fmt: Value -> string, key: string, r: Record): string {
    if key in r then KeyString(fmt, r[key]) else ""
  }

  predicate Numeric(r: Record, field: string) {
    field in r && (r[field].Int? || r[field].Float?)
  }

  function Number(r: Record, field: string): real {
    if field !in r then 0.0
    else if r[field].Int? then r[field].n as real
    else if r[field].Float? then r[field].x
    else 0.0
  }

  // ---------- accumulators ----------

  /** One group's two tables. */
  datatype Acc = Acc(sums: map<string, real>, counts: map<string, int>)

  function GetSum(a: Acc, alias: string): real {
    if alias in a.sums then a.sums[alias] else 0.0
  }

  function GetCount(a: Acc, alias: string): int {
    if alias in a.counts then a.counts[alias] else 0
  }

  /** One aggregate updated with one record. */
  function ApplySpec(spec: AggSpec, r: Record, a: Acc): Acc {
    var al := Alias(spec);
    if spec.func == "count" then
      a.(counts := a.counts[al := GetCount(a, al) + 1])
    else if Summing(spec) && Numeric(r, spec.field) then
      Acc(a.sums[al := GetSum(a, al) + Number(r, spec.field)], a.counts[al := GetCount(a, al) + 1])
    else a
  }

  function ApplyAll(aggs: seq<AggSpec>, r: Record, a: Acc): Acc {
    if aggs == [] then a else ApplySpec(aggs[|aggs| - 1], r, ApplyAll(aggs[..|aggs| - 1], r, a))
  }

  type Groups = map<string, Acc>

  function AddRecord(fmt: Value -> string, key: string, aggs: seq<AggSpec>, gs: Groups, r: Record): Groups {
    var g := Group(fmt, key, r);
    gs[g := ApplyAll(aggs, r, if g in gs then gs[g] else Acc(map[], map[]))]
  }

  function Batch(fmt: Value -> string, key: string, aggs: seq<AggSpec>, recs: seq<Record>): Groups {
    if recs == [] then map[] else
      AddRecord(fmt, key, aggs, Batch(fmt, key, aggs, recs[..|recs| - 1]), recs[|recs| - 1])
  }

  // ---------- results ----------

  datatype Result = Real(x: real) | Whole(n: int)

  function AsReal(r: Result): real {
    match r
    case Real(x) => x
    case Whole(n) => n as real
  }

  predicate IsAvg(aggs: seq<AggSpec>, alias: string) {
    exists i :: 0 <= i < |aggs| && Alias(aggs[i]) == alias && aggs[i].func == "avg"
  }

  /** One entry of a group's result: a sum, an average, or a plain count. */
  function RenderAt(aggs: seq<AggSpec>, a: Acc, alias: string): Result {
    if alias in a.sums then
      var c := GetCount(a, alias);
      if c != 0 && IsAvg(aggs, alias) then Real(a.sums[alias] / (c as real)) else Real(a.sums[alias])
    else Whole(GetCount(a, alias))
  }

  function Render(aggs: seq<AggSpec>, a: Acc): map<string, Result> {
    map alias | alias in a.sums.Keys + a.counts.Keys :: RenderAt(aggs, a, alias)
  }

  function RenderAll(aggs: seq<AggSpec>, gs: Groups): map<string, map<string, Result>> {
    map g | g in gs :: Render(aggs, gs[g])
  }

  // ---------- reference: what the numbers mean ----------

  function Size(fmt: Value -> string, key: string, recs: seq<Record>, g: string): nat {
    if recs == [] then 0 else
      Size(fmt, key, recs[..|recs| - 1], g) + (if Group(fmt, key, recs[|recs| - 1]) == g then 1 else 0)
  }

  /** How many records of the group have a number in the field. */
  function Numbers(fmt: Value -> string, key: string, recs: seq<Record>, g: string, field: string): nat {
    if recs == [] then 0 else
      var r := recs[|recs| - 1];
      Numbers(fmt, key, recs[..|recs| - 1], g, field) + (if Group(fmt, key, r) == g && Numeric(r, field) then 1 else 0)
  }

  function Sum(fmt: Value -> string, key: string, recs: seq<Record>, g: string, field: string): real {
    if recs == [] then 0.0 else
      var r := recs[|recs| - 1];
      Sum(fmt, key, recs[..|recs| - 1], g, field)
      + (if Group(fmt, key, r) == g && Numeric(r, field) then Number(r, field) else 0.0)
  }

  /** The accumulator entry of one aggregate says what it should. */
  ghost predicate Right(spec: AggSpec, a: Acc, size: nat, numbers: nat, sum: real) {
    var al := Alias(spec);
    if spec.func == "count" then
      al !in a.sums && (al in a.counts <==> size > 0) && GetCount(a, al) == size
    else if Summing(spec) then
      && (al in a.sums <==> numbers > 0) && (al in a.counts <==> numbers > 0)
      && GetCount(a, al) == numbers && GetSum(a, al) == sum
    else al !in a.sums && al !in a.counts
  }

  lemma ApplyElsewhere(spec: AggSpec, r: Record, a: Acc, al: string)
    requires Alias(spec) != al
    ensures var b := ApplySpec(spec, r, a);
            && (al in b.sums <==> al in a.sums) && (al in b.counts <==> al in a.counts)
            && GetSum(b, al) == GetSum(a, al) && GetCount(b, al) == GetCount(a, al)
  {
  }

  /** With distinct aliases, only its own spec touches an entry. */
  lemma {:induction false} ApplyAllAt(aggs: seq<AggSpec>, r: Record, a: Acc, j: nat, size: nat, numbers: nat, sum: real)
    requires DistinctAliases(aggs) && j < |aggs| && Right(aggs[j], a, size, numbers, sum)
    ensures Right(aggs[j], ApplyAll(aggs, r, a), size + 1,
                  numbers + (if Numeric(r, aggs[j].field) then 1 else 0),
                  sum + (if Numeric(r, aggs[j].field) then Number(r, aggs[j].field) else 0.0))
  {
    var n := |aggs| - 1;
    if j == n {
      Untouched(aggs, n, r, a, Alias(aggs[n]));
    } else {
      ApplyAllAt(aggs[..n], r, a, j, size, numbers, sum);
      ApplyElsewhere(aggs[n], r, ApplyAll(aggs[..n], r, a), Alias(aggs[j]));
    }
  }

  lemma {:induction false} Untouched(aggs: seq<AggSpec>, n: nat, r: Record, a: Acc, al: string)
    requires n <= |aggs| && forall i :: 0 <= i < n ==> Alias(aggs[i]) != al
    ensures var b := ApplyAll(aggs[..n], r, a);
            && (al in b.sums <==> al in a.sums) && (al in b.counts <==> al in a.counts)
            && GetSum(b, al) == GetSum(a, al) && GetCount(b, al) == GetCount(a, al)
  {
    if n > 0 {
      Untouched(aggs, n - 1, r, a, al);
      assert aggs[..n][..n - 1] == aggs[..n - 1];
      ApplyElsewhere(aggs[n - 1], r, ApplyAll(aggs[..n - 1], r, a), al);
    }
  }

  ghost predicate GroupRight(fmt: Value -> string, key: string, aggs: seq<AggSpec>, recs: seq<Record>, gs: Groups,
                             g: string) {
    && (g in gs <==> Size(fmt, key, recs, g) > 0)
    && (g in gs ==> forall j :: 0 <= j < |aggs| ==>
          Right(aggs[j], gs[g], Size(fmt, key, recs, g), Numbers(fmt, key, recs, g, aggs[j].field),
                Sum(fmt, key, recs, g, aggs[j].field)))
  }

  lemma {:induction false} NoneInGroup(fmt: Value -> string, key: string, recs: seq<Record>, g: string, field: string)
    requires Size(fmt, key, recs, g) == 0
    ensures Numbers(fmt, key, recs, g, field) == 0 && Sum(fmt, key, recs, g, field) == 0.0
  {
    if recs != [] {
      NoneInGroup(fmt, key, recs[..|recs| - 1], g, field);
    }
  }

  lemma AddRecordRight(fmt: Value -> string, key: string, aggs: seq<AggSpec>, recs: seq<Record>, r: Record,
                       gs: Groups, g: string)
    requires DistinctAliases(aggs) && GroupRight(fmt, key, aggs, recs, gs, g)
    ensures GroupRight(fmt, key, aggs, recs + [r], AddRecord(fmt, key, aggs, gs, r), g)
  {
    hide ApplyAll, Right, DistinctAliases;
    var all := recs + [r];
    assert all[..|recs|] == recs;
    if Group(fmt, key, r) == g {
      var a := if g in gs then gs[g] else Acc(map[], map[]);
      forall j | 0 <= j < |aggs|
        ensures Right(aggs[j], ApplyAll(aggs, r, a), Size(fmt, key, all, g), Numbers(fmt, key, all, g, aggs[j].field),
                      Sum(fmt, key, all, g, aggs[j].field))
      {
        if g !in gs {
          NoneInGroup(fmt, key, recs, g, aggs[j].field);
          FreshRight(aggs[j]);
        }
        ApplyAllAt(aggs, r, a, j, Size(fmt, key, recs, g), Numbers(fmt, key, recs, g, aggs[j].field),
                   Sum(fmt, key, recs, g, aggs[j].field));
      }
    }
  }

  lemma FreshRight(spec: AggSpec)
    ensures Right(spec, Acc(map[], map[]), 0, 0, 0.0)
  {
  }

  /** The accumulated tables are the reference numbers of each group. */
  lemma {:induction false} BatchRight(fmt: Value -> string, key: string, aggs: seq<AggSpec>, recs: seq<Record>,
                                      g: string)
    requires DistinctAliases(aggs)
    ensures GroupRight(fmt, key, aggs, recs, Batch(fmt, key, aggs, recs), g)
  {
    if recs != [] {
      var front := recs[..|recs| - 1];
      BatchRight(fmt, key, aggs, front, g);
      hide GroupRight, AddRecord;
      AddRecordRight(fmt, key, aggs, front, recs[|recs| - 1], Batch(fmt, key, aggs, front), g);
      assert recs == front + [recs[|recs| - 1]];
    }
  }

  // ---------- the operators ----------

  method ApplySpecs(aggs: seq<AggSpec>, r: Record, a: Acc) returns (b: Acc)
    ensures b == ApplyAll(aggs, r, a)
  {
    hide Alias, Numeric, Number, GetSum, GetCount, Summing;
    b := a;
    for i := 0 to |aggs|
      invariant b == ApplyAll(aggs[..i], r, a)
    {
      assert aggs[..i + 1][..i] == aggs[..i];
      var al := Alias(aggs[i]);
      if aggs[i].func == "count" {
        b := b.(counts := b.counts[al := GetCount(b, al) + 1]);
      } else if Summing(aggs[i]) && Numeric(r, aggs[i].field) {
        b := Acc(b.sums[al := GetSum(b, al) + Number(r, aggs[i].field)], b.counts[al := GetCount(b, al) + 1]);
      }
    }
    assert aggs[..|aggs|] == aggs;
  }

  method Accumulate(fmt: Value -> string, key: string, aggs: seq<AggSpec>, gs: Groups, r: Record) returns (gs': Groups)
    ensures gs' == AddRecord(fmt, key, aggs, gs, r)
  {
    var g := Group(fmt, key, r);
    var a := ApplySpecs(aggs, r, if g in gs then gs[g] else Acc(map[], map[]));
    gs' := gs[g := a];
  }

  type Table = map<string, map<string, Result>>

  /** AggregateFuncsOperator: one result for the whole input. */
  method AggregateFuncs(fmt: Value -> string, key: string, aggs: seq<AggSpec>, recs: seq<Record>) returns (res: Table)
    ensures res == RenderAll(aggs, Batch(fmt, key, aggs, recs))
  {
    hide AddRecord, RenderAll;
    var gs: Groups := map[];
    for i := 0 to |recs|
      invariant gs == Batch(fmt, key, aggs, recs[..i])
    {
      assert recs[..i + 1][..i] == recs[..i];
      gs := Accumulate(fmt, key, aggs, gs, recs[i]);
    }
    assert recs[..|recs|] == recs;
    res := RenderAll(aggs, gs);
  }

  datatype Input = Rec(r: Record) | Tick

  /** The records between ticks, leaving out spans without any; cur is what the
      open span holds already. */
  function Spans(inputs: seq<Input>, cur: seq<Record>): seq<seq<Record>> {
    if inputs == [] then (if cur == [] then [] else [cur])
    else match inputs[0]
      case Rec(r) => Spans(inputs[1..], cur + [r])
      case Tick => (if cur == [] then [] else [cur]) + Spans(inputs[1..], [])
  }

  function Emit(fmt: Value -> string, key: string, aggs: seq<AggSpec>, spans: seq<seq<Record>>): (r: seq<Table>)
    ensures |r| == |spans|
  {
    seq(|spans|, i requires 0 <= i < |spans| => RenderAll(aggs, Batch(fmt, key, aggs, spans[i])))
  }

  /** TimeWindowAggregateOperator: a tick, or the end of the input, flushes what
      has been accumulated, if anything. */
  method TimeWindow(fmt: Value -> string, key: string, aggs: seq<AggSpec>, inputs: seq<Input>) returns (out: seq<Table>)
    ensures out == Emit(fmt, key, aggs, Spans(inputs, []))
  {
    hide RenderAll, AddRecord, Batch, Spans, Emit;
    out := [];
    var gs: Groups := map[];
    ghost var done: seq<seq<Record>> := [];
    ghost var cur: seq<Record> := [];
    WindowStart(fmt, key, aggs, inputs);
    for i := 0 to |inputs|
      invariant out == Emit(fmt, key, aggs, done)
      invariant gs == Batch(fmt, key, aggs, cur)
      invariant Spans(inputs, []) == done + Spans(inputs[i..], cur)
    {
      SpansStep(inputs, i, done, cur);
      match inputs[i]
      case Rec(r) =>
        gs := Accumulate(fmt, key, aggs, gs, r);
        BatchSnoc(fmt, key, aggs, cur, r);
        cur := cur + [r];
      case Tick =>
        BatchEmpty(fmt, key, aggs, cur);
        if gs != map[] {
          EmitSnoc(fmt, key, aggs, done, cur);
          out := out + [RenderAll(aggs, gs)];
          done := done + [cur];
          gs := map[];
        }
        cur := [];
        BatchEmpty(fmt, key, aggs, []);
    }
    SpansEnd(inputs, done, cur);
    BatchEmpty(fmt, key, aggs, cur);
    if gs != map[] {
      EmitSnoc(fmt, key, aggs, done, cur);
      out := out + [RenderAll(aggs, gs)];
    }
  }

  lemma WindowStart(fmt: Value -> string, key: string, aggs: seq<AggSpec>, inputs: seq<Input>)
    ensures Emit(fmt, key, aggs, []) == [] && Batch(fmt, key, aggs, []) == map[]
    ensures Spans(inputs, []) == [] + Spans(inputs[0..], [])
  {
    assert inputs[0..] == inputs;
  }

  lemma BatchSnoc(fmt: Value -> string, key: string, aggs: seq<AggSpec>, recs: seq<Record>, r: Record)
    ensures Batch(fmt, key, aggs, recs + [r]) == AddRecord(fmt, key, aggs, Batch(fmt, key, aggs, recs), r)
  {
    assert (recs + [r])[..|recs|] == recs;
  }

  lemma BatchEmpty(fmt: Value -> string, key: string, aggs: seq<AggSpec>, recs: seq<Record>)
    ensures Batch(fmt, key, aggs, recs) == map[] <==> recs == []
  {
    hide ApplyAll;
    if recs != [] {
      assert Group(fmt, key, recs[|recs| - 1]) in Batch(fmt, key, aggs, recs);
    }
  }

  lemma EmitSnoc(fmt: Value -> string, key: string, aggs: seq<AggSpec>, spans: seq<seq<Record>>, cur: seq<Record>)
    ensures Emit(fmt, key, aggs, spans + [cur]) ==
            Emit(fmt, key, aggs, spans) + [RenderAll(aggs, Batch(fmt, key, aggs, cur))]
  {
    hide RenderAll, Batch;
  }

  lemma SpansStep(inputs: seq<Input>, i: nat, done: seq<seq<Record>>, cur: seq<Record>)
    requires i < |inputs|
    ensures done + Spans(inputs[i..], cur) ==
            match inputs[i]
            case Rec(r) => done + Spans(inputs[i + 1..], cur + [r])
            case Tick => (if cur == [] then done else done + [cur]) + Spans(inputs[i + 1..], [])
  {
    assert inputs[i..][1..] == inputs[i + 1..];
  }

  lemma SpansEnd(inputs: seq<Input>, done: seq<seq<Record>>, cur: seq<Record>)
    ensures done + Spans(inputs[|inputs|..], cur) == if cur == [] then done else done + [cur]
  {
    assert inputs[|inputs|..] == [];
  }

  // ---------- what the results mean ----------

  /** The entry of aggregate j for group g is what the aggregate says: a count is the
      size of the group, a sum adds the group's numbers, and an average divides that
      sum by a count that is never zero. */
  ghost predicate Means(fmt: Value -> string, key: string, aggs: seq<AggSpec>, recs: seq<Record>, res: Table,
                        g: string, j: nat)
    requires j < |aggs|
  {
    var spec := aggs[j];
    var n := Numbers(fmt, key, recs, g, spec.field);
    && (g in res <==> exists i :: 0 <= i < |recs| && Group(fmt, key, recs[i]) == g)
    && (g in res && spec.func == "count" ==>
          Alias(spec) in res[g] && res[g][Alias(spec)] == Whole(Size(fmt, key, recs, g)))
    && (g in res && Summing(spec) ==> (Alias(spec) in res[g] <==> n > 0))
    && (g in res && spec.func == "sum" && n > 0 ==>
          res[g][Alias(spec)] == Real(Sum(fmt, key, recs, g, spec.field)))
    && (g in res && spec.func == "avg" && n > 0 ==>
          res[g][Alias(spec)] == Real(Sum(fmt, key, recs, g, spec.field) / (n as real)))
  }

  /** Every entry of the result is what its aggregate says. */
  lemma ResultMeaning(fmt: Value -> string, key: string, aggs: seq<AggSpec>, recs: seq<Record>, g: string, j: nat)
    requires DistinctAliases(aggs) && j < |aggs|
    ensures Means(fmt, key, aggs, recs, RenderAll(aggs, Batch(fmt, key, aggs, recs)), g, j)
    ensures g in RenderAll(aggs, Batch(fmt, key, aggs, recs)) <==> Size(fmt, key, recs, g) > 0
  {
    BatchRight(fmt, key, aggs, recs, g);
    SizePositive(fmt, key, recs, g);
    hide Batch, Size, Numbers, Sum, Group;
    AvgIsOwn(aggs, j);
  }

  lemma {:induction false} SizePositive(fmt: Value -> string, key: string, recs: seq<Record>, g: string)
    ensures Size(fmt, key, recs, g) > 0 <==> exists i :: 0 <= i < |recs| && Group(fmt, key, recs[i]) == g
  {
    if recs != [] {
      var n := |recs| - 1;
      SizePositive(fmt, key, recs[..n], g);
      if i :| 0 <= i < |recs| && Group(fmt, key, recs[i]) == g {
        if i < n {
          assert recs[..n][i] == recs[i];
        }
      }
    }
  }

  lemma AvgIsOwn(aggs: seq<AggSpec>, j: nat)
    requires DistinctAliases(aggs) && j < |aggs|
    ensures IsAvg(aggs, Alias(aggs[j])) <==> aggs[j].func == "avg"
  {
    hide Alias;
    forall i | 0 <= i < |aggs| && Alias(aggs[i]) == Alias(aggs[j]) ensures i == j {
    }
  }

  // ---------- conservation over time windows ----------

  function ValueAt(t: Table, g: string, alias: string): real {
    if g in t && alias in t[g] then AsReal(t[g][alias]) else 0.0
  }

  function TotalAt(out: seq<Table>, g: string, alias: string): real {
    if out == [] then 0.0 else TotalAt(out[..|out| - 1], g, alias) + ValueAt(out[|out| - 1], g, alias)
  }

  /** The number a sum or count stands for. */
  function Expected(fmt: Value -> string, key: string, recs: seq<Record>, g: string, spec: AggSpec): real {
    if spec.func == "count" then Size(fmt, key, recs, g) as real else Sum(fmt, key, recs, g, spec.field)
  }

  lemma {:induction false} NoNumbers(fmt: Value -> string, key: string, recs: seq<Record>, g: string, field: string)
    ensures Numbers(fmt, key, recs, g, field) == 0 ==> Sum(fmt, key, recs, g, field) == 0.0
    ensures Numbers(fmt, key, recs, g, field) <= Size(fmt, key, recs, g)
  {
    if recs != [] {
      NoNumbers(fmt, key, recs[..|recs| - 1], g, field);
    }
  }

  lemma ValueIsExpected(fmt: Value -> string, key: string, aggs: seq<AggSpec>, recs: seq<Record>, g: string, j: nat)
    requires DistinctAliases(aggs) && j < |aggs| && (aggs[j].func == "count" || aggs[j].func == "sum")
    ensures ValueAt(RenderAll(aggs, Batch(fmt, key, aggs, recs)), g, Alias(aggs[j])) ==
            Expected(fmt, key, recs, g, aggs[j])
  {
    ResultMeaning(fmt, key, aggs, recs, g, j);
    NoNumbers(fmt, key, recs, g, aggs[j].field);
    hide RenderAll, Batch, Size, Sum, Numbers, Alias;
  }

  lemma {:induction false} ReferenceConcat(fmt: Value -> string, key: string, a: seq<Record>, b: seq<Record>,
                                           g: string, field: string)
    ensures Size(fmt, key, a + b, g) == Size(fmt, key, a, g) + Size(fmt, key, b, g)
    ensures Numbers(fmt, key, a + b, g, field) == Numbers(fmt, key, a, g, field) + Numbers(fmt, key, b, g, field)
    ensures Sum(fmt, key, a + b, g, field) == Sum(fmt, key, a, g, field) + Sum(fmt, key, b, g, field)
  {
    if b == [] {
      assert a + b == a;
    } else {
      ReferenceConcat(fmt, key, a, b[..|b| - 1], g, field);
      assert (a + b)[..|a + b| - 1] == a + b[..|b| - 1];
    }
  }

  lemma {:induction false} EmitConserves(fmt: Value -> string, key: string, aggs: seq<AggSpec>,
                                         spans: seq<seq<Record>>, g: string, j: nat)
    requires DistinctAliases(aggs) && j < |aggs| && (aggs[j].func == "count" || aggs[j].func == "sum")
    ensures TotalAt(Emit(fmt, key, aggs, spans), g, Alias(aggs[j])) == Expected(fmt, key, Flat(spans), g, aggs[j])
  {
    hide RenderAll, Batch, Alias, ValueAt, Emit, DistinctAliases;
    if spans == [] {
    } else {
      var n := |spans| - 1;
      assert spans == spans[..n] + [spans[n]];
      EmitConserves(fmt, key, aggs, spans[..n], g, j);
      EmitSnoc(fmt, key, aggs, spans[..n], spans[n]);
      TotalSnoc(Emit(fmt, key, aggs, spans[..n]), RenderAll(aggs, Batch(fmt, key, aggs, spans[n])), g, Alias(aggs[j]));
      ValueIsExpected(fmt, key, aggs, spans[n], g, j);
      ReferenceConcat(fmt, key, Flat(spans[..n]), spans[n], g, aggs[j].field);
    }
  }

  lemma TotalSnoc(out: seq<Table>, t: Table, g: string, alias: string)
    ensures TotalAt(out + [t], g, alias) == TotalAt(out, g, alias) + ValueAt(t, g, alias)
  {
    assert (out + [t])[..|out|] == out;
  }

  /** All records of an input, ticks left out. */
  function RecordsIn(inputs: seq<Input>): seq<Record> {
    if inputs == [] then [] else RecordOf(inputs[0]) + RecordsIn(inputs[1..])
  }

  function RecordOf(i: Input): seq<Record> {
    match i case Rec(r) => [r] case Tick => []
  }

  lemma {:induction false} SpansFlat(inputs: seq<Input>, cur: seq<Record>)
    ensures Flat(Spans(inputs, cur)) == cur + RecordsIn(inputs)
  {
    assert Flat([cur]) == cur by { FlatCons(cur, []); assert [cur] + [] == [cur]; }
    if inputs != [] {
      match inputs[0]
      case Rec(r) =>
        SpansFlat(inputs[1..], cur + [r]);
      case Tick =>
        SpansFlat(inputs[1..], []);
        if cur != [] {
          FlatCons(cur, Spans(inputs[1..], []));
        } else {
          assert [] + Spans(inputs[1..], []) == Spans(inputs[1..], []);
        }
    }
  }

  /** Wherever the ticks fall, every group's sums and counts over all windows add
      up to the result over the whole input. */
  lemma TicksConserve(fmt: Value -> string, key: string, aggs: seq<AggSpec>, inputs: seq<Input>, g: string, j: nat)
    requires DistinctAliases(aggs) && j < |aggs| && (aggs[j].func == "count" || aggs[j].func == "sum")
    ensures TotalAt(Emit(fmt, key, aggs, Spans(inputs, [])), g, Alias(aggs[j])) ==
            ValueAt(RenderAll(aggs, Batch(fmt, key, aggs, RecordsIn(inputs))), g, Alias(aggs[j]))
  {
    hide Emit, RenderAll, Batch, Alias, DistinctAliases, TotalAt, ValueAt;
    EmitConserves(fmt, key, aggs, Spans(inputs, []), g, j);
    SpansFlat(inputs, []);
    assert [] + RecordsIn(inputs) == RecordsIn(inputs);
    ValueIsExpected(fmt, key, aggs, RecordsIn(inputs), g, j);
  }

  // ---------- where the windows are cut ----------

  /** What has been flushed after these inputs, and what the open span holds. */
  ghost function After(inputs: seq<Input>): (seq<seq<Record>>, seq<Record>) {
    if inputs == [] then ([], []) else
      var (done, cur) := After(inputs[..|inputs| - 1]);
      match inputs[|inputs| - 1]
      case Rec(r) => (done, cur + [r])
      case Tick => (if cur == [] then done else done + [cur], [])
  }

  lemma {:induction false} SpansFrom(inputs: seq<Input>, i: nat)
    requires i <= |inputs|
    ensures var (done, cur) := After(inputs[..i]);
            Spans(inputs, []) == done + Spans(inputs[i..], cur)
  {
    if i == 0 {
      assert inputs[0..] == inputs;
    } else {
      SpansFrom(inputs, i - 1);
      assert inputs[..i][..i - 1] == inputs[..i - 1];
      var (done, cur) := After(inputs[..i - 1]);
      SpansStep(inputs, i - 1, done, cur);
    }
  }

  lemma SpansAfter(inputs: seq<Input>)
    ensures var (done, cur) := After(inputs);
            Spans(inputs, []) == if cur == [] then done else done + [cur]
  {
    hide Spans, After;
    SpansFrom(inputs, |inputs|);
    assert inputs[..|inputs|] == inputs;
    SpansEnd(inputs, After(inputs).0, After(inputs).1);
  }

  /** A span of the list ends behind the first i records. */
  ghost predicate EndsAt(spans: seq<seq<Record>>, i: int) {
    exists n :: 0 < n <= |spans| && |Flat(spans[..n])| == i
  }

  lemma FlatLast(spans: seq<seq<Record>>, cur: seq<Record>)
    ensures Flat(spans + [cur]) == Flat(spans) + cur
  {
    assert (spans + [cur])[..|spans|] == spans;
  }

  lemma EndsSnoc(spans: seq<seq<Record>>, cur: seq<Record>, i: int)
    ensures EndsAt(spans + [cur], i) <==> EndsAt(spans, i) || i == |Flat(spans)| + |cur|
    ensures Flat(spans + [cur]) == Flat(spans) + cur
  {
    hide Flat;
    var all := spans + [cur];
    FlatLast(spans, cur);
    assert all[..|all|] == all;
    if EndsAt(all, i) {
      var n :| 0 < n <= |all| && |Flat(all[..n])| == i;
      if n <= |spans| {
        assert all[..n] == spans[..n];
      }
    }
    if EndsAt(spans, i) {
      var n :| 0 < n <= |spans| && |Flat(spans[..n])| == i;
      assert all[..n] == spans[..n];
    }
    if i == |Flat(spans)| + |cur| {
      assert |Flat(all[..|all|])| == i;
    }
  }
}
