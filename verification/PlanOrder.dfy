/** Exactly which pipelines a plan is faithful to. A plan computes the pipeline with every stage
    in canonical order; here it is shown that this is the same as the pipeline, whatever filters,
    groupings and sortings mean, only if the pipeline was in canonical order to begin with - and
    that, for sortings that commute with filters, a filter may also follow the sorting. */
module PlanOrder {
  import opened ByteStrings
  import opened ApplyPlanner

  type Steps = seq<Transformation>

  // ------------------------------------------------------------------ stages of a pipeline

  predicate Plain(ts: Steps) {
    forall i :: 0 <= i < |ts| ==> !IsAggregation(ts[i])
  }

  /** Nothing, or the next stage. */
  predicate StartsStage(ts: Steps) {
    ts == [] || IsAggregation(ts[0])
  }

  predicate EndsInAggregation(ts: Steps) {
    ts != [] && IsAggregation(ts[|ts| - 1])
  }

  lemma {:induction false} RunAppend<R>(m: Meaning<R>, a: Steps, b: Steps, rows: seq<R>)
    ensures RunPipeline(m, a + b, rows) == RunPipeline(m, b, RunPipeline(m, a, rows))
    decreases |a|
  {
    hide Apply;
    if a == [] {
      assert a + b == b;
    } else {
      assert (a + b)[1..] == a[1..] + b;
      RunAppend(m, a[1..], b, Apply(m, a[0], rows));
    }
  }

  lemma RunOne<R>(m: Meaning<R>, t: Transformation, rows: seq<R>)
    ensures RunPipeline(m, [t], rows) == Apply(m, t, rows)
  {
    hide Apply;
    assert [t][1..] == [];
  }

  lemma {:induction false} CanonicalJoin(a: Steps, b: Steps, last: nat)
    requires StartsStage(b)
    ensures Canonical(a + b, last) <==> Canonical(a, last) && Canonical(b, 0)
    decreases |a|
  {
    if a == [] {
      assert a + b == b;
    } else {
      assert (a + b)[1..] == a[1..] + b && (a + b)[0] == a[0];
      CanonicalJoin(a[1..], b, if IsAggregation(a[0]) then 0 else Rank(a[0]));
    }
  }

  /** An insertion stays in front of the next stage. */
  lemma {:induction false} InsertBeforeStage(t: Transformation, a: Steps, b: Steps)
    requires StartsStage(b) || ContainsAggregation(a)
    ensures Insert(t, a + b) == Insert(t, a) + b
    decreases |a|
  {
    if a == [] {
      assert a + b == b;
      assert StartsStage(b);
    } else {
      assert (a + b)[0] == a[0] && (a + b)[1..] == a[1..] + b;
      if !(IsAggregation(t) || IsAggregation(a[0]) || Rank(t) <= Rank(a[0])) {
        if ContainsAggregation(a) {
          AggregationBehind(a);
        }
        InsertBeforeStage(t, a[1..], b);
        assert [a[0]] + (Insert(t, a[1..]) + b) == [a[0]] + Insert(t, a[1..]) + b;
      } else {
        assert [t] + (a + b) == [t] + a + b;
      }
    }
  }

  lemma AggregationBehind(a: Steps)
    requires ContainsAggregation(a) && !IsAggregation(a[0])
    ensures ContainsAggregation(a[1..])
  {
    var i :| 0 <= i < |a| && IsAggregation(a[i]);
    assert a[1..][i - 1] == a[i];
  }

  /** Stages are put in order one by one. */
  lemma {:induction false} RearrangedJoin(a: Steps, b: Steps)
    requires StartsStage(b) || EndsInAggregation(a) || a == []
    ensures Rearranged(a + b) == Rearranged(a) + Rearranged(b)
    decreases |a|
  {
    hide Insert;
    if a == [] {
      assert a + b == b;
    } else {
      assert (a + b)[1..] == a[1..] + b;
      RearrangedJoin(a[1..], b);
      if |a| == 1 && IsAggregation(a[0]) {
        InsertAggregation(a[0], Rearranged(b));
        InsertAggregation(a[0], Rearranged(a[1..]));
        assert Rearranged(a[1..]) == [] by { assert a[1..] == []; }
      } else {
        StageStays(b);
        if EndsInAggregation(a) {
          assert a[1..][|a| - 2] == a[|a| - 1];
          assert ContainsAggregation(a[1..]);
          RearrangedKeeps(a[1..]);
          AggregationKept(a[1..], Rearranged(a[1..]));
        }
        InsertBeforeStage(a[0], Rearranged(a[1..]), Rearranged(b));
      }
    }
  }

  lemma InsertAggregation(t: Transformation, ts: Steps)
    requires IsAggregation(t)
    ensures Insert(t, ts) == [t] + ts
  {
  }

  lemma StageStays(b: Steps)
    ensures StartsStage(b) ==> StartsStage(Rearranged(b))
  {
    if b != [] && IsAggregation(b[0]) {
      InsertAggregation(b[0], Rearranged(b[1..]));
    }
  }

  // ------------------------------------------------------------------ the parts of a stage

  /** The transformations of one rank, in order. */
  function Sub(ts: Steps, r: nat): (sub: Steps)
    ensures forall i :: 0 <= i < |sub| ==> Rank(sub[i]) == r && sub[i] in ts
  {
    if ts == [] then [] else (if Rank(ts[0]) == r then [ts[0]] else []) + Sub(ts[1..], r)
  }

  predicate RanksBelow(ts: Steps, r: nat) {
    forall i :: 0 <= i < |ts| ==> !IsAggregation(ts[i]) && Rank(ts[i]) < r
  }

  predicate RanksFrom(ts: Steps, r: nat) {
    forall i :: 0 <= i < |ts| ==> !IsAggregation(ts[i]) && Rank(ts[i]) >= r
  }

  lemma {:induction false} InsertAt(t: Transformation, low: Steps, high: Steps)
    requires !IsAggregation(t) && RanksBelow(low, Rank(t)) && RanksFrom(high, Rank(t))
    ensures Insert(t, low + high) == low + ([t] + high)
    decreases |low|
  {
    hide Rank, IsAggregation;
    if low == [] {
      assert low + high == high && low + ([t] + high) == [t] + high;
    } else {
      assert (low + high)[0] == low[0] && (low + high)[1..] == low[1..] + high;
      InsertAt(t, low[1..], high);
      assert [low[0]] + (low[1..] + ([t] + high)) == low + ([t] + high);
    }
  }

  /** Within one stage, and without the transformation that is always refused. */
  predicate InStage(ts: Steps) {
    forall i :: 0 <= i < |ts| ==> !IsAggregation(ts[i]) && !ts[i].Bottom?
  }

  /** A stage in canonical order: filters, sorting, skip, top. */
  lemma {:induction false} RearrangedParts(ts: Steps)
    requires InStage(ts)
    ensures Rearranged(ts) == Sub(ts, 0) + (Sub(ts, 1) + (Sub(ts, 2) + Sub(ts, 3)))
    decreases |ts|
  {
    hide Insert, Rank, Sub, AllRank, InFront;
    if ts == [] {
      NoParts();
    } else {
      RearrangedParts(ts[1..]);
      PartsInStage(ts[1..]);
      InsertInPart(ts[0], Sub(ts[1..], 0), Sub(ts[1..], 1), Sub(ts[1..], 2), Sub(ts[1..], 3));
      SubOfFirst(ts, 0);
      SubOfFirst(ts, 1);
      SubOfFirst(ts, 2);
      SubOfFirst(ts, 3);
    }
  }

  lemma NoParts()
    ensures Rearranged([]) == Sub([], 0) + (Sub([], 1) + (Sub([], 2) + Sub([], 3)))
  {
  }

  lemma SubOfFirst(ts: Steps, r: nat)
    requires ts != []
    ensures Sub(ts, r) == InFront(ts[0], r, Sub(ts[1..], r))
  {
    hide Rank;
  }

  lemma PartsInStage(ts: Steps)
    requires InStage(ts)
    ensures AllRank(Sub(ts, 0), 0) && AllRank(Sub(ts, 1), 1) && AllRank(Sub(ts, 2), 2) && AllRank(Sub(ts, 3), 3)
  {
  }

  predicate AllRank(ts: Steps, r: nat) {
    forall i :: 0 <= i < |ts| ==> !IsAggregation(ts[i]) && Rank(ts[i]) == r
  }

  function InFront(t: Transformation, r: nat, part: Steps): Steps {
    if Rank(t) == r then [t] + part else part
  }

  lemma InsertInPart(t: Transformation, a: Steps, b: Steps, c: Steps, d: Steps)
    requires !IsAggregation(t) && !t.Bottom? && AllRank(a, 0) && AllRank(b, 1) && AllRank(c, 2) && AllRank(d, 3)
    ensures Insert(t, a + (b + (c + d))) == InFront(t, 0, a) + (InFront(t, 1, b) + (InFront(t, 2, c) + InFront(t, 3, d)))
  {
    hide Insert;
    match t
    case Filter(_) =>
      InsertAt(t, [], a + (b + (c + d)));
      assert [] + (a + (b + (c + d))) == a + (b + (c + d));
      assert [] + ([t] + (a + (b + (c + d)))) == [t] + a + (b + (c + d));
    case OrderBy(_) =>
      InsertAt(t, a, b + (c + d));
      assert [t] + (b + (c + d)) == [t] + b + (c + d);
    case Skip(_) =>
      assert a + (b + (c + d)) == (a + b) + (c + d);
      InsertAt(t, a + b, c + d);
      assert (a + b) + ([t] + (c + d)) == a + (b + ([t] + c + d));
    case Top(_) =>
      assert a + (b + (c + d)) == (a + b + c) + d;
      InsertAt(t, a + b + c, d);
      assert (a + b + c) + ([t] + d) == a + (b + (c + ([t] + d)));
  }

  lemma {:induction false} SubHas(ts: Steps, i: nat)
    requires i < |ts|
    ensures ts[i] in Sub(ts, Rank(ts[i]))
    decreases |ts|
  {
    hide Rank;
    if i > 0 {
      SubHas(ts[1..], i - 1);
    }
  }

  // ------------------------------------------------------------------ planned pipelines

  /** At most one sorting, skip and top a stage; the flags say which this stage has already. */
  predicate Single(ts: Steps, sorted: bool, skipped: bool, topped: bool)
    decreases |ts|
  {
    ts == [] ||
    match ts[0]
    case Filter(_) => Single(ts[1..], sorted, skipped, topped)
    case OrderBy(_) => !sorted && Single(ts[1..], true, skipped, topped)
    case Skip(_) => !skipped && Single(ts[1..], sorted, true, topped)
    case Top(_) => !topped && Single(ts[1..], sorted, skipped, true)
    case Bottom => false
    case _ => Single(ts[1..], false, false, false)
  }

  /** It does something: skips some rows, may keep some, sorts by something. */
  predicate Lively(t: Transformation) {
    match t
    case Skip(n) => n > 0
    case Top(n) => n > 0
    case OrderBy(items) => items != []
    case _ => true
  }

  predicate AllLively(ts: Steps) {
    forall i :: 0 <= i < |ts| ==> Lively(ts[i])
  }

  /** No filter stands twice in one stage. */
  predicate DistinctFilters(ts: Steps) {
    forall i, j :: 0 <= i < j < |ts| && ts[i].Filter? && ts[i] == ts[j] ==> StageBetween(ts, i, j)
  }

  predicate StageBetween(ts: Steps, i: nat, j: nat) {
    exists k :: i < k < j < |ts| && IsAggregation(ts[k])
  }

  /** What a plan already holds where the next transformation goes. */
  predicate Flags(p: Plan, sorted: bool, skipped: bool, topped: bool) {
    if p.stages != [] then
      (LastStage(p).orderBy != [] <==> sorted) && (LastStage(p).skip.Some? <==> skipped) && (LastStage(p).top.Some? <==> topped)
    else (p.orderBy != [] <==> sorted) && (p.skip.Some? <==> skipped) && (p.top.Some? <==> topped)
  }

  lemma {:induction false} PlannedIsSingle(o: Options, aggregated: bool, p: Plan, ts: Steps, sorted: bool, skipped: bool, topped: bool)
    requires Flags(p, sorted, skipped, topped) && AddSteps(o, aggregated, p, ts).Ok? && AllLively(ts)
    ensures Single(ts, sorted, skipped, topped)
    decreases |ts|
  {
    hide AddStep, Flags;
    if ts != [] {
      var next := AddStep(o, aggregated, p, ts[0]).value;
      assert Lively(ts[0]);
      assert forall i :: 0 <= i < |ts[1..]| ==> ts[1..][i] == ts[i + 1];
      FlagsStep(o, aggregated, p, ts[0], sorted, skipped, topped);
      match ts[0]
      case Filter(_) => PlannedIsSingle(o, aggregated, next, ts[1..], sorted, skipped, topped);
      case OrderBy(_) => PlannedIsSingle(o, aggregated, next, ts[1..], true, skipped, topped);
      case Skip(_) => PlannedIsSingle(o, aggregated, next, ts[1..], sorted, true, topped);
      case Top(_) => PlannedIsSingle(o, aggregated, next, ts[1..], sorted, skipped, true);
      case Bottom =>
      case _ => PlannedIsSingle(o, aggregated, next, ts[1..], false, false, false);
    }
  }

  lemma FlagsStep(o: Options, aggregated: bool, p: Plan, t: Transformation, sorted: bool, skipped: bool, topped: bool)
    requires Flags(p, sorted, skipped, topped) && AddStep(o, aggregated, p, t).Ok? && Lively(t)
    ensures var next := AddStep(o, aggregated, p, t).value;
            match t
            case Filter(_) => Flags(next, sorted, skipped, topped)
            case OrderBy(_) => !sorted && Flags(next, true, skipped, topped)
            case Skip(_) => !skipped && Flags(next, sorted, true, topped)
            case Top(_) => !topped && Flags(next, sorted, skipped, true)
            case Bottom => false
            case _ => Flags(next, false, false, false)
  {
  }

  lemma SingleWhenPlanned(o: Options, p: Steps)
    requires PlanOf(o, p).Ok? && AllLively(p)
    ensures Single(p, false, false, false)
  {
    hide AddSteps;
    PlannedIsSingle(o, ContainsAggregation(p), EMPTY_PLAN, p, false, false, false);
  }

  // ------------------------------------------------------------------ a stage on its own

  lemma {:induction false} SingleParts(ts: Steps, sorted: bool, skipped: bool, topped: bool)
    requires InStage(ts) && Single(ts, sorted, skipped, topped)
    ensures |Sub(ts, 1)| <= (if sorted then 0 else 1) && |Sub(ts, 2)| <= (if skipped then 0 else 1)
    ensures |Sub(ts, 3)| <= (if topped then 0 else 1)
    decreases |ts|
  {
    if ts != [] {
      match ts[0]
      case Filter(_) => SingleParts(ts[1..], sorted, skipped, topped);
      case OrderBy(_) => SingleParts(ts[1..], true, skipped, topped);
      case Skip(_) => SingleParts(ts[1..], sorted, true, topped);
      case Top(_) => SingleParts(ts[1..], sorted, skipped, true);
      case _ =>
    }
  }

  /** A stage of a planned pipeline. */
  predicate Proper(ts: Steps) {
    && InStage(ts) && AllLively(ts) && |Sub(ts, 1)| <= 1 && |Sub(ts, 2)| <= 1 && |Sub(ts, 3)| <= 1
    && (forall i, j :: 0 <= i < j < |ts| && ts[i].Filter? ==> ts[i] != ts[j])
  }

  lemma {:induction false} SubJoin(a: Steps, b: Steps, r: nat)
    ensures Sub(a + b, r) == Sub(a, r) + Sub(b, r)
    decreases |a|
  {
    hide Rank, Sub;
    if a == [] {
      assert a + b == b;
      SubOfNothing(r);
    } else {
      assert (a + b)[0] == a[0] && (a + b)[1..] == a[1..] + b;
      SubJoin(a[1..], b, r);
      SubOfFirst(a, r);
      SubOfFirst(a + b, r);
      assert [a[0]] + (Sub(a[1..], r) + Sub(b, r)) == [a[0]] + Sub(a[1..], r) + Sub(b, r);
    }
  }

  lemma SubOfNothing(r: nat)
    ensures Sub([], r) == []
  {
  }

  /** In a proper stage, a sorting, skip or top is the only one. */
  lemma OnlyOne(ts: Steps, i: nat, k: nat)
    requires Proper(ts) && i < |ts| && k < |ts| && Rank(ts[i]) == Rank(ts[k]) && !ts[i].Filter?
    ensures i == k
  {
    if i != k {
      TwoInSub(ts, if i < k then i else k, if i < k then k else i);
    }
  }

  lemma TwoInSub(ts: Steps, i: nat, k: nat)
    requires i < k < |ts| && Rank(ts[i]) == Rank(ts[k])
    ensures |Sub(ts, Rank(ts[i]))| >= 2
  {
    hide Rank, Sub;
    var r := Rank(ts[i]);
    assert ts == ts[..k] + ts[k..];
    SubJoin(ts[..k], ts[k..], r);
    SubHas(ts[..k], i);
    SubHas(ts[k..], 0);
  }

  // ------------------------------------------------------------------ meanings that tell stages apart

  function Copies(v: int, n: nat): seq<int> {
    seq(n, _ => v)
  }

  function Reversed(rows: seq<int>): seq<int> {
    if rows == [] then [] else Reversed(rows[1..]) + [rows[0]]
  }

  /** Leaves rows alone, turns them round, or only changes `n` ones, to twos. */
  datatype Sorting = Same | Backwards | Only(n: nat)

  function SortBy(s: Sorting, rows: seq<int>): seq<int> {
    match s
    case Same => rows
    case Backwards => Reversed(rows)
    case Only(n) => if rows == Copies(1, n) then Copies(2, n) else rows
  }

  /** The filter `f` drops zeros, and that is all filters do. */
  datatype Witness = Witness(f: Expr, sorting: Sorting, input: seq<int>)

  function Local(w: Witness, group: (Spec, seq<int>) -> seq<int>): Meaning<int> {
    Meaning((e, x) => x != 0 || e != w.f, group, (items, rows) => SortBy(w.sorting, rows))
  }

  lemma {:induction false} KeepsAll(m: Meaning<int>, e: Expr, rows: seq<int>)
    requires forall i :: 0 <= i < |rows| ==> m.holds(e, rows[i])
    ensures Keep(m, e, rows) == rows
    decreases |rows|
  {
    if rows != [] {
      KeepsAll(m, e, rows[1..]);
    }
  }

  lemma {:induction false} KeepsBehind(m: Meaning<int>, e: Expr, n: nat, rows: seq<int>)
    requires !m.holds(e, 0) && forall i :: 0 <= i < |rows| ==> m.holds(e, rows[i])
    ensures Keep(m, e, Copies(0, n) + rows) == rows && Keep(m, e, rows + Copies(0, n)) == rows
    decreases n
  {
    if n == 0 {
      assert Copies(0, 0) + rows == rows && rows + Copies(0, 0) == rows;
      KeepsAll(m, e, rows);
    } else {
      assert (Copies(0, n) + rows)[1..] == Copies(0, n - 1) + rows && (Copies(0, n) + rows)[0] == 0;
      KeepsBehind(m, e, n - 1, rows);
      KeepsFront(m, e, rows, Copies(0, n));
      KeepsNone(m, e, n);
    }
  }

  lemma {:induction false} KeepsFront(m: Meaning<int>, e: Expr, a: seq<int>, b: seq<int>)
    requires forall i :: 0 <= i < |a| ==> m.holds(e, a[i])
    ensures Keep(m, e, a + b) == a + Keep(m, e, b)
    decreases |a|
  {
    if a == [] {
      assert a + b == b;
    } else {
      assert (a + b)[1..] == a[1..] + b;
      KeepsFront(m, e, a[1..], b);
    }
  }

  lemma {:induction false} KeepsNone(m: Meaning<int>, e: Expr, n: nat)
    requires !m.holds(e, 0)
    ensures Keep(m, e, Copies(0, n)) == []
    decreases n
  {
    if n > 0 {
      assert Copies(0, n)[1..] == Copies(0, n - 1);
      KeepsNone(m, e, n - 1);
    }
  }

  lemma {:induction false} ReversedCopies(v: int, n: nat)
    ensures Reversed(Copies(v, n)) == Copies(v, n)
    decreases n
  {
    if n > 0 {
      assert Copies(v, n)[1..] == Copies(v, n - 1);
      ReversedCopies(v, n - 1);
    }
  }

  lemma {:induction false} ReversedBehind(v: int, n: nat, x: int)
    ensures Reversed(Copies(v, n) + [x]) == [x] + Copies(v, n)
    decreases n
  {
    var rows := Copies(v, n) + [x];
    if n == 0 {
      assert rows[1..] == [];
      assert Reversed(rows) == [] + [x];
    } else {
      assert rows[1..] == Copies(v, n - 1) + [x] && rows[0] == v;
      ReversedBehind(v, n - 1, x);
    }
  }

  /** The sorting leaves copies of `v` alone. */
  predicate Steady(s: Sorting, v: int) {
    s.Only? ==> v != 1
  }

  lemma SteadySort(s: Sorting, v: int, n: nat)
    requires Steady(s, v)
    ensures SortBy(s, Copies(v, n)) == Copies(v, n)
  {
    ReversedCopies(v, n);
    if s.Only? && n > 0 {
      assert Copies(v, n)[0] == v;
      assert s.n > 0 ==> Copies(1, s.n)[0] == 1;
    }
  }

  // ------------------------------------------------------------------ rows that are all alike

  /** How many of equal rows are left. */
  function LeftOf(ts: Steps, n: nat): nat
    decreases |ts|
  {
    if ts == [] then n
    else match ts[0]
      case Skip(k) => LeftOf(ts[1..], if k <= n then n - k else 0)
      case Top(k) => LeftOf(ts[1..], if k <= n then k else n)
      case _ => LeftOf(ts[1..], n)
  }

  predicate NoOrder(ts: Steps) {
    forall i :: 0 <= i < |ts| ==> !ts[i].OrderBy?
  }

  predicate NoSkip(ts: Steps) {
    forall i :: 0 <= i < |ts| ==> !ts[i].Skip?
  }

  predicate NoTop(ts: Steps) {
    forall i :: 0 <= i < |ts| ==> !ts[i].Top?
  }

  lemma CopiesStep(w: Witness, group: (Spec, seq<int>) -> seq<int>, t: Transformation, v: int, n: nat)
    requires !IsAggregation(t) && v >= 1 && (Steady(w.sorting, v) || !t.OrderBy?)
    ensures Apply(Local(w, group), t, Copies(v, n)) == Copies(v, LeftOf([t], n))
  {
    var m := Local(w, group);
    assert [t][1..] == [];
    match t
    case Filter(e) => KeepsAll(m, e, Copies(v, n));
    case OrderBy(items) => SteadySort(w.sorting, v, n);
    case _ =>
  }

  lemma LeftStep(ts: Steps, n: nat)
    requires ts != []
    ensures LeftOf(ts, n) == LeftOf(ts[1..], LeftOf([ts[0]], n))
  {
    assert [ts[0]][1..] == [];
  }

  lemma {:induction false} CopiesRun(w: Witness, group: (Spec, seq<int>) -> seq<int>, ts: Steps, v: int, n: nat)
    requires Plain(ts) && v >= 1 && (Steady(w.sorting, v) || NoOrder(ts))
    ensures RunPipeline(Local(w, group), ts, Copies(v, n)) == Copies(v, LeftOf(ts, n))
    decreases |ts|
  {
    hide Apply, Copies, LeftOf, Local;
    if ts == [] {
      LeftOfNothing(n);
    } else {
      CopiesStep(w, group, ts[0], v, n);
      LeftStep(ts, n);
      assert forall i :: 0 <= i < |ts[1..]| ==> ts[1..][i] == ts[i + 1];
      CopiesRun(w, group, ts[1..], v, LeftOf([ts[0]], n));
    }
  }

  lemma LeftOfNothing(n: nat)
    ensures LeftOf([], n) == n
  {
  }

  lemma {:induction false} LeftJoin(a: Steps, b: Steps, n: nat)
    ensures LeftOf(a + b, n) == LeftOf(b, LeftOf(a, n))
    decreases |a|
  {
    hide LeftOf;
    if a == [] {
      assert a + b == b;
      LeftOfNothing(n);
    } else {
      assert (a + b)[0] == a[0] && (a + b)[1..] == a[1..] + b;
      LeftStep(a, n);
      LeftStep(a + b, n);
      LeftJoin(a[1..], b, LeftOf([a[0]], n));
    }
  }

  lemma {:induction false} LeftSame(ts: Steps, n: nat)
    requires NoSkip(ts) && NoTop(ts)
    ensures LeftOf(ts, n) == n
    decreases |ts|
  {
    if ts != [] {
      LeftSame(ts[1..], n);
    }
  }

  /** Tops that keep something keep one row. */
  lemma {:induction false} LeftOne(ts: Steps)
    requires NoSkip(ts) && AllLively(ts)
    ensures LeftOf(ts, 1) == 1
    decreases |ts|
  {
    if ts != [] {
      assert Lively(ts[0]);
      assert forall i :: 0 <= i < |ts[1..]| ==> ts[1..][i] == ts[i + 1];
      LeftOne(ts[1..]);
    }
  }

  lemma {:induction false} LeftFewer(ts: Steps, n: nat)
    ensures LeftOf(ts, n) <= n
    decreases |ts|
  {
    if ts != [] {
      match ts[0]
      case Skip(k) => LeftFewer(ts[1..], if k <= n then n - k else 0);
      case Top(k) => LeftFewer(ts[1..], if k <= n then k else n);
      case _ => LeftFewer(ts[1..], n);
    }
  }

  lemma LeftLess(ts: Steps, i: nat, n: nat)
    requires i < |ts| && ts[i].Skip? && ts[i].skip > 0 && n > 0
    ensures LeftOf(ts, n) < n
  {
    var a, b := ts[..i], ts[i + 1..];
    assert ts == a + ([ts[i]] + b);
    LeftJoin(a, [ts[i]] + b, n);
    LeftJoin([ts[i]], b, LeftOf(a, n));
    LeftFewer(a, n);
    assert [ts[i]][1..] == [];
    LeftFewer(b, LeftOf([ts[i]], LeftOf(a, n)));
  }

  // ------------------------------------------------------------------ a stage put in order

  predicate HasFilter(ts: Steps, f: Expr) {
    Filter(f) in ts
  }

  /** What is left of `rows` behind the filters. */
  function Filtered(w: Witness, group: (Spec, seq<int>) -> seq<int>, ts: Steps, rows: seq<int>): seq<int> {
    if HasFilter(ts, w.f) then Keep(Local(w, group), w.f, rows) else rows
  }

  function Sorted(w: Witness, ts: Steps, rows: seq<int>): seq<int> {
    if Sub(ts, 1) == [] then rows else SortBy(w.sorting, rows)
  }

  function SkipOf(ts: Steps): nat {
    if Sub(ts, 2) == [] then 0 else Sub(ts, 2)[0].skip
  }

  function Topped(ts: Steps, rows: seq<int>): seq<int> {
    if Sub(ts, 3) == [] then rows else Take(rows, Sub(ts, 3)[0].top)
  }

  /** What a proper stage in canonical order does. */
  function InOrder(w: Witness, group: (Spec, seq<int>) -> seq<int>, ts: Steps, rows: seq<int>): seq<int> {
    Topped(ts, Drop(Sorted(w, ts, Filtered(w, group, ts, rows)), SkipOf(ts)))
  }

  lemma KeepTwice(w: Witness, group: (Spec, seq<int>) -> seq<int>, e: Expr, rows: seq<int>)
    ensures var m := Local(w, group);
            Keep(m, e, Keep(m, w.f, rows)) == Keep(m, w.f, rows)
    ensures e != w.f ==> Keep(Local(w, group), e, rows) == rows
  {
    var m := Local(w, group);
    KeptNotZero(w, group, rows);
    KeepsAll(m, e, Keep(m, w.f, rows));
    if e != w.f {
      KeepsAll(m, e, rows);
    }
  }

  lemma {:induction false} KeptNotZero(w: Witness, group: (Spec, seq<int>) -> seq<int>, rows: seq<int>)
    ensures 0 !in Keep(Local(w, group), w.f, rows)
    decreases |rows|
  {
    if rows != [] {
      KeptNotZero(w, group, rows[1..]);
    }
  }

  lemma {:induction false} FiltersRun(w: Witness, group: (Spec, seq<int>) -> seq<int>, fs: Steps, rows: seq<int>)
    requires AllRank(fs, 0)
    ensures RunPipeline(Local(w, group), fs, rows) == Filtered(w, group, fs, rows)
    decreases |fs|
  {
    hide Keep, Local;
    if fs != [] {
      var m := Local(w, group);
      assert fs[0].Filter?;
      KeepTwice(w, group, fs[0].expr, rows);
      KeepTwice(w, group, w.f, rows);
      assert fs == [fs[0]] + fs[1..];
      FiltersRun(w, group, fs[1..], Keep(m, fs[0].expr, rows));
    }
  }

  lemma PartRuns(w: Witness, group: (Spec, seq<int>) -> seq<int>, ts: Steps, rows: seq<int>)
    requires Proper(ts)
    ensures var m := Local(w, group);
            && RunPipeline(m, Sub(ts, 1), rows) == Sorted(w, ts, rows)
            && RunPipeline(m, Sub(ts, 2), rows) == Drop(rows, SkipOf(ts))
            && RunPipeline(m, Sub(ts, 3), rows) == Topped(ts, rows)
  {
    hide SortBy;
    var m := Local(w, group);
    var a, b, c := Sub(ts, 1), Sub(ts, 2), Sub(ts, 3);
    if a != [] {
      assert a == [a[0]] && Lively(a[0]);
      RunOne(m, a[0], rows);
    }
    if b != [] {
      assert b == [b[0]];
      RunOne(m, b[0], rows);
    }
    if c != [] {
      assert c == [c[0]];
      RunOne(m, c[0], rows);
    }
  }

  lemma {:induction false} FiltersInSub(ts: Steps, f: Expr)
    ensures HasFilter(Sub(ts, 0), f) <==> HasFilter(ts, f)
    decreases |ts|
  {
    if ts != [] {
      FiltersInSub(ts[1..], f);
      assert ts == [ts[0]] + ts[1..];
    }
  }

  lemma OrderedRun(w: Witness, group: (Spec, seq<int>) -> seq<int>, ts: Steps, rows: seq<int>)
    requires Proper(ts)
    ensures RunPipeline(Local(w, group), Rearranged(ts), rows) == InOrder(w, group, ts, rows)
  {
    hide Keep, Local, Sorted, SkipOf, Topped, Drop, Apply, Sub;
    var m := Local(w, group);
    RearrangedParts(ts);
    PartsInStage(ts);
    var kept := RunPipeline(m, Sub(ts, 0), rows);
    FiltersRun(w, group, Sub(ts, 0), rows);
    FiltersInSub(ts, w.f);
    RunAppend(m, Sub(ts, 0), Sub(ts, 1) + (Sub(ts, 2) + Sub(ts, 3)), rows);
    RunAppend(m, Sub(ts, 1), Sub(ts, 2) + Sub(ts, 3), kept);
    PartRuns(w, group, ts, kept);
    var sorted := Sorted(w, ts, kept);
    RunAppend(m, Sub(ts, 2), Sub(ts, 3), sorted);
    PartRuns(w, group, ts, sorted);
    PartRuns(w, group, ts, Drop(sorted, SkipOf(ts)));
  }

  // ------------------------------------------------------------------ a stage out of order

  /** Out of order and in order, the stage makes different things of the witness's input; what it
      makes in order is not empty. */
  predicate Differs(w: Witness, group: (Spec, seq<int>) -> seq<int>, ts: Steps) {
    var r, ordered := RunPipeline(Local(w, group), ts, w.input), InOrder(w, group, ts, w.input);
    && r != ordered && ordered != []
    && (forall k :: 0 <= k < |ordered| ==> 1 <= ordered[k] <= 2)
    && (r == [] || 0 <= r[0] <= 2)
  }

  lemma SubIs(ts: Steps, i: nat)
    requires Proper(ts) && i < |ts| && !ts[i].Filter?
    ensures Sub(ts, Rank(ts[i])) == [ts[i]]
  {
    hide Sub, Lively;
    SubHas(ts, i);
  }

  lemma SubNone(ts: Steps, r: nat)
    requires forall i :: 0 <= i < |ts| ==> Rank(ts[i]) != r
    ensures Sub(ts, r) == []
  {
    hide Rank;
  }

  /** The step leaves the rows alone. */
  predicate Idle(w: Witness, t: Transformation, rows: seq<int>) {
    match t
    case Filter(e) => e != w.f || 0 !in rows
    case OrderBy(_) => SortBy(w.sorting, rows) == rows
    case _ => false
  }

  predicate AllIdle(w: Witness, ts: Steps, rows: seq<int>) {
    forall i :: 0 <= i < |ts| ==> Idle(w, ts[i], rows)
  }

  lemma IdleStep(w: Witness, group: (Spec, seq<int>) -> seq<int>, t: Transformation, rows: seq<int>)
    requires Idle(w, t, rows)
    ensures Apply(Local(w, group), t, rows) == rows
  {
    if t.Filter? {
      KeepsAll(Local(w, group), t.expr, rows);
    }
  }

  lemma {:induction false} IdleRun(w: Witness, group: (Spec, seq<int>) -> seq<int>, ts: Steps, rows: seq<int>)
    requires AllIdle(w, ts, rows)
    ensures RunPipeline(Local(w, group), ts, rows) == rows
    decreases |ts|
  {
    hide Apply, Idle, Local;
    if ts != [] {
      IdleStep(w, group, ts[0], rows);
      IdleRun(w, group, ts[1..], rows);
    }
  }

  /** A stage around one of its steps. */
  lemma RunAround(m: Meaning<int>, ts: Steps, i: nat, rows: seq<int>)
    requires i < |ts|
    ensures RunPipeline(m, ts, rows) ==
            RunPipeline(m, ts[i + 1..], Apply(m, ts[i], RunPipeline(m, ts[..i], rows)))
  {
    hide Apply, RunPipeline;
    assert ts == ts[..i] + ([ts[i]] + ts[i + 1..]);
    RunAppend(m, ts[..i], [ts[i]] + ts[i + 1..], rows);
    RunAppend(m, [ts[i]], ts[i + 1..], RunPipeline(m, ts[..i], rows));
    RunOne(m, ts[i], RunPipeline(m, ts[..i], rows));
  }

  predicate Before(ts: Steps, i: nat, j: nat, high: nat, low: nat) {
    i < j < |ts| && Rank(ts[i]) == high && Rank(ts[j]) == low
  }

  /** Does something of rank `high` stand before something of rank `low`? */
  ghost predicate Inverted(ts: Steps, high: nat, low: nat) {
    exists i, j :: Before(ts, i, j, high, low)
  }

  lemma NotInverted(ts: Steps, i: nat, j: nat, high: nat, low: nat)
    requires !Inverted(ts, high, low) && i < |ts| && j < |ts| && i != j && Rank(ts[i]) == high && Rank(ts[j]) == low
    ensures j < i
  {
    assert !Before(ts, i, j, high, low);
  }

  const NO_EXPR := Expr("")

  lemma SkipIs(ts: Steps, j: nat)
    requires Proper(ts) && j < |ts| && ts[j].Skip?
    ensures SkipOf(ts) == ts[j].skip > 0
  {
    assert Lively(ts[j]);
    SubIs(ts, j);
  }

  lemma TopIs(ts: Steps, j: nat, rows: seq<int>)
    requires Proper(ts) && j < |ts| && ts[j].Top?
    ensures ts[j].top > 0 && Topped(ts, rows) == Take(rows, ts[j].top)
  {
    assert Lively(ts[j]);
    SubIs(ts, j);
  }

  /** A top that keeps something keeps the first row, and a single row altogether. */
  lemma ToppedFirst(ts: Steps, rows: seq<int>)
    requires Proper(ts) && rows != []
    ensures var left := Topped(ts, rows); left != [] && left[0] == rows[0] && left <= rows && (|rows| == 1 ==> left == rows)
  {
    if Sub(ts, 3) != [] {
      assert Lively(Sub(ts, 3)[0]);
    }
  }

  lemma SortIs(w: Witness, ts: Steps, j: nat, rows: seq<int>)
    requires Proper(ts) && j < |ts| && ts[j].OrderBy?
    ensures Sorted(w, ts, rows) == SortBy(w.sorting, rows)
  {
    SubIs(ts, j);
  }

  lemma NothingFiltered(w: Witness, group: (Spec, seq<int>) -> seq<int>, ts: Steps, rows: seq<int>)
    requires 0 !in rows
    ensures Filtered(w, group, ts, rows) == rows
  {
    KeepsAll(Local(w, group), w.f, rows);
  }

  lemma DropTake(v: int, n: nat, k: nat)
    ensures Take(Drop(Copies(v, n + k), n), k) == Copies(v, k)
  {
    assert Drop(Copies(v, n + k), n) == Copies(v, k);
  }

  /** A top before a skip, on equal rows. */
  lemma TopSkipDiffers(group: (Spec, seq<int>) -> seq<int>, ts: Steps, i: nat, j: nat) returns (w: Witness)
    requires Proper(ts) && Before(ts, i, j, 3, 2)
    ensures w.sorting == Same && Differs(w, group, ts)
  {
    hide Sub, Filtered, SkipOf, Topped, LeftOf, Drop, Take;
    var k, n := ts[i].top, ts[j].skip;
    w := Witness(NO_EXPR, Same, Copies(1, n + k));
    SkipIs(ts, j);
    NothingFiltered(w, group, ts, w.input);
    TopIs(ts, i, Drop(w.input, n));
    SameSorted(w, ts, w.input);
    DropTake(1, n, k);
    TopSkipLess(ts, i, j, n + k);
    CopiesRun(w, group, ts, 1, n + k);
    Counted(1, LeftOf(ts, n + k), k);
    assert InOrder(w, group, ts, w.input) == Copies(1, k);
    assert k > 0 && Copies(1, k)[0] == 1;
    hide InOrder, Proper, Before;
  }

  lemma SameSorted(w: Witness, ts: Steps, rows: seq<int>)
    requires w.sorting == Same
    ensures Sorted(w, ts, rows) == rows
  {
  }

  lemma Counted(v: int, a: nat, b: nat)
    requires a < b
    ensures Copies(v, a) != Copies(v, b)
  {
    assert |Copies(v, a)| != |Copies(v, b)|;
  }

  lemma TopLeaves(t: Transformation, n: nat)
    requires t.Top?
    ensures LeftOf([t], n) <= t.top
  {
    assert [t][1..] == [];
  }

  lemma LeftAround(a: Steps, t: Transformation, b: Steps, n: nat)
    ensures LeftOf(a + ([t] + b), n) == LeftOf(b, LeftOf([t], LeftOf(a, n)))
  {
    hide LeftOf;
    LeftJoin(a, [t] + b, n);
    LeftJoin([t], b, LeftOf(a, n));
  }

  lemma LessAround(a: Steps, t: Transformation, b: Steps, x: nat, n: nat)
    requires t.Top? && t.top > 0 && x < |b| && b[x].Skip? && b[x].skip > 0
    ensures LeftOf(a + ([t] + b), n) < t.top
  {
    hide LeftOf;
    LeftAround(a, t, b, n);
    var left := LeftOf([t], LeftOf(a, n));
    TopLeaves(t, LeftOf(a, n));
    LeftFewer(b, left);
    if left > 0 {
      LeftLess(b, x, left);
    }
  }

  lemma TopSkipLess(ts: Steps, i: nat, j: nat, n: nat)
    requires Proper(ts) && Before(ts, i, j, 3, 2)
    ensures ts[i].Top? && LeftOf(ts, n) < ts[i].top
  {
    SkipIs(ts, j);
    TopIs(ts, i, []);
    hide Proper, LeftOf, SkipOf, Topped;
    assert ts == ts[..i] + ([ts[i]] + ts[i + 1..]) && ts[i + 1..][j - i - 1] == ts[j];
    LessAround(ts[..i], ts[i], ts[i + 1..], j - i - 1, n);
  }

  /** The first row stays in front, when no row is skipped or sorted away. */
  lemma {:induction false} FirstStays(w: Witness, group: (Spec, seq<int>) -> seq<int>, ts: Steps, rows: seq<int>)
    requires InStage(ts) && AllLively(ts) && NoSkip(ts) && w.sorting == Same && rows != [] && 0 !in rows
    ensures var left := RunPipeline(Local(w, group), ts, rows); left != [] && left[0] == rows[0]
    decreases |ts|
  {
    hide Apply, Local;
    if ts != [] {
      var next := Apply(Local(w, group), ts[0], rows);
      assert Lively(ts[0]) && !ts[0].Skip? && !ts[0].Bottom? && !IsAggregation(ts[0]);
      FirstStep(w, group, ts[0], rows);
      assert forall i :: 0 <= i < |ts[1..]| ==> ts[1..][i] == ts[i + 1];
      FirstStays(w, group, ts[1..], next);
    }
  }

  lemma FirstStep(w: Witness, group: (Spec, seq<int>) -> seq<int>, t: Transformation, rows: seq<int>)
    requires Lively(t) && !t.Skip? && !t.Bottom? && !IsAggregation(t) && w.sorting == Same && rows != [] && 0 !in rows
    ensures var next := Apply(Local(w, group), t, rows); next != [] && next[0] == rows[0] && 0 !in next
  {
    if t.Filter? {
      KeepsAll(Local(w, group), t.expr, rows);
    }
  }

  /** Steps in front of `i` that are neither skips nor tops, nor the filter `f`, do nothing without
      sorting. */
  lemma PrefixIdle(w: Witness, ts: Steps, i: nat, rows: seq<int>)
    requires InStage(ts) && i <= |ts| && NoSkip(ts[..i]) && NoTop(ts[..i])
    requires forall k :: 0 <= k < i && ts[k].Filter? ==> ts[k].expr != w.f || 0 !in rows
    requires SortBy(w.sorting, rows) == rows || NoOrder(ts[..i])
    ensures AllIdle(w, ts[..i], rows)
  {
    hide SortBy;
    forall k | 0 <= k < i ensures Idle(w, ts[..i][k], rows) {
      assert ts[..i][k] == ts[k] && !ts[..i][k].Skip? && !ts[..i][k].Top?;
      assert NoOrder(ts[..i]) ==> !ts[..i][k].OrderBy?;
    }
  }

  lemma NoSkipAround(ts: Steps, i: nat)
    requires Proper(ts) && i < |ts| && ts[i].Skip?
    ensures NoSkip(ts[..i]) && NoSkip(ts[i + 1..])
  {
    hide Proper;
    forall k | 0 <= k < |ts| && k != i ensures !ts[k].Skip? {
      if ts[k].Skip? {
        OnlyOne(ts, i, k);
      }
    }
  }

  lemma NoTopAround(ts: Steps, i: nat)
    requires Proper(ts) && i < |ts| && ts[i].Top?
    ensures NoTop(ts[..i]) && NoTop(ts[i + 1..])
  {
    hide Proper;
    forall k | 0 <= k < |ts| && k != i ensures !ts[k].Top? {
      if ts[k].Top? {
        OnlyOne(ts, i, k);
      }
    }
  }

  lemma NoOrderAround(ts: Steps, i: nat)
    requires Proper(ts) && i < |ts| && ts[i].OrderBy?
    ensures NoOrder(ts[..i]) && NoOrder(ts[i + 1..])
  {
    hide Proper;
    forall k | 0 <= k < |ts| && k != i ensures !ts[k].OrderBy? {
      if ts[k].OrderBy? {
        OnlyOne(ts, i, k);
      }
    }
  }

  /** What stands before `i` when it is not inverted with it. */
  lemma NoneBefore(ts: Steps, i: nat, high: nat)
    requires i < |ts| && !Inverted(ts, high, Rank(ts[i])) && high != Rank(ts[i])
    ensures forall k :: 0 <= k < i ==> Rank(ts[k]) != high
  {
    hide Rank;
    forall k | 0 <= k < i ensures Rank(ts[k]) != high {
      if Rank(ts[k]) == high {
        NotInverted(ts, k, i, high, Rank(ts[i]));
      }
    }
  }

  lemma TailProper(ts: Steps, i: nat)
    requires Proper(ts) && i <= |ts|
    ensures InStage(ts[i..]) && AllLively(ts[i..]) && InStage(ts[..i]) && Plain(ts[i..])
  {
    hide Lively;
    assert forall k :: 0 <= k < |ts| ==> !IsAggregation(ts[k]) && !ts[k].Bottom? && Lively(ts[k]);
  }

  lemma DistinctExprs(ts: Steps, j: nat)
    requires Proper(ts) && j < |ts| && ts[j].Filter?
    ensures forall k :: 0 <= k < |ts| && k != j && ts[k].Filter? ==> ts[k].expr != ts[j].expr
  {
    hide Lively, InStage, Sub;
    forall k | 0 <= k < |ts| && k != j && ts[k].Filter? ensures ts[k].expr != ts[j].expr {
      if k < j {
        assert ts[k] != ts[j];
      } else {
        assert ts[j] != ts[k];
      }
    }
  }

  /** A skip before a filter: as many failing rows as are skipped, as many passing ones, and one
      more. */
  lemma SkipFilterDiffers(group: (Spec, seq<int>) -> seq<int>, ts: Steps, i: nat, j: nat) returns (w: Witness)
    requires Proper(ts) && Before(ts, i, j, 2, 0) && !Inverted(ts, 3, 2)
    ensures w.sorting == Same && Differs(w, group, ts)
  {
    var n, f := ts[i].skip, ts[j].expr;
    var passing := Copies(1, n) + [2];
    w := Witness(f, Same, Copies(0, n) + passing);
    SkipFilterRuns(w, group, ts, i, j, n);
    SkipFilterOrdered(w, group, ts, i, j, n);
    hide Proper, Before, InOrder, RunPipeline;
  }

  lemma SkipFilterRuns(w: Witness, group: (Spec, seq<int>) -> seq<int>, ts: Steps, i: nat, j: nat, n: nat)
    requires Proper(ts) && Before(ts, i, j, 2, 0) && !Inverted(ts, 3, 2) && ts[i].skip == n
    requires w == Witness(ts[j].expr, Same, Copies(0, n) + (Copies(1, n) + [2]))
    ensures var r := RunPipeline(Local(w, group), ts, w.input); r != [] && r[0] == 1
  {
    SkipIs(ts, i);
    NoSkipAround(ts, i);
    NoneBefore(ts, i, 3);
    DistinctExprs(ts, j);
    TailProper(ts, i + 1);
    assert NoTop(ts[..i]);
    hide Proper, Inverted;
    PrefixIdle(w, ts, i, w.input);
    IdleRun(w, group, ts[..i], w.input);
    RunAround(Local(w, group), ts, i, w.input);
    assert Drop(w.input, n) == Copies(1, n) + [2];
    assert (Copies(1, n) + [2])[0] == 1;
    FirstStays(w, group, ts[i + 1..], Copies(1, n) + [2]);
  }

  lemma SkipFilterOrdered(w: Witness, group: (Spec, seq<int>) -> seq<int>, ts: Steps, i: nat, j: nat, n: nat)
    requires Proper(ts) && Before(ts, i, j, 2, 0) && ts[i].skip == n
    requires w == Witness(ts[j].expr, Same, Copies(0, n) + (Copies(1, n) + [2]))
    ensures InOrder(w, group, ts, w.input) == [2]
  {
    hide Sub, SkipOf, Topped;
    var passing := Copies(1, n) + [2];
    assert HasFilter(ts, w.f) by { assert ts[j] == Filter(w.f); }
    KeepsBehind(Local(w, group), w.f, n, passing);
    SameSorted(w, ts, passing);
    SkipIs(ts, i);
    assert Drop(passing, n) == [2];
    ToppedFirst(ts, [2]);
  }

  /** A top before a filter: as many failing rows as are kept, and one passing one. */
  lemma TopFilterDiffers(group: (Spec, seq<int>) -> seq<int>, ts: Steps, i: nat, j: nat) returns (w: Witness)
    requires Proper(ts) && Before(ts, i, j, 3, 0) && NoSkip(ts)
    ensures w.sorting == Same && Differs(w, group, ts)
  {
    var k, f := ts[i].top, ts[j].expr;
    w := Witness(f, Same, Copies(0, k) + [1]);
    TopFilterRuns(w, group, ts, i, j, k);
    TopFilterOrdered(w, group, ts, i, j, k);
    hide Proper, Before, InOrder, RunPipeline;
  }

  lemma {:induction false} ZerosVanish(w: Witness, group: (Spec, seq<int>) -> seq<int>, ts: Steps, n: nat)
    requires InStage(ts) && w.sorting == Same && HasFilter(ts, w.f)
    ensures RunPipeline(Local(w, group), ts, Copies(0, n)) == []
    decreases |ts|
  {
    hide Local, Apply, Copies;
    var m := Local(w, group);
    var left := ZeroStep(w, group, ts[0], n);
    if ts[0] == Filter(w.f) {
      NothingRuns(w, group, ts[1..]);
    } else {
      assert ts == [ts[0]] + ts[1..];
      ZerosVanish(w, group, ts[1..], left);
    }
  }

  lemma ZeroStep(w: Witness, group: (Spec, seq<int>) -> seq<int>, t: Transformation, n: nat) returns (left: nat)
    requires !IsAggregation(t) && w.sorting == Same
    ensures Apply(Local(w, group), t, Copies(0, n)) == if t == Filter(w.f) then [] else Copies(0, left)
  {
    var m := Local(w, group);
    left := n;
    match t
    case Filter(e) =>
      if e == w.f {
        KeepsNone(m, e, n);
      } else {
        KeepsAll(m, e, Copies(0, n));
      }
    case Skip(k) =>
      left := if k <= n then n - k else 0;
    case Top(k) =>
      left := if k <= n then k else n;
    case _ =>
  }

  lemma {:induction false} NothingRuns(w: Witness, group: (Spec, seq<int>) -> seq<int>, ts: Steps)
    requires InStage(ts) && w.sorting == Same
    ensures RunPipeline(Local(w, group), ts, []) == []
    decreases |ts|
  {
    if ts != [] {
      assert Apply(Local(w, group), ts[0], []) == [];
      NothingRuns(w, group, ts[1..]);
    }
  }

  lemma TopFilterRuns(w: Witness, group: (Spec, seq<int>) -> seq<int>, ts: Steps, i: nat, j: nat, k: nat)
    requires Proper(ts) && Before(ts, i, j, 3, 0) && NoSkip(ts) && ts[i].top == k
    requires w == Witness(ts[j].expr, Same, Copies(0, k) + [1])
    ensures RunPipeline(Local(w, group), ts, w.input) == []
  {
    NoTopAround(ts, i);
    DistinctExprs(ts, j);
    TailProper(ts, i + 1);
    hide Proper;
    assert NoSkip(ts[..i]);
    PrefixIdle(w, ts, i, w.input);
    IdleRun(w, group, ts[..i], w.input);
    RunAround(Local(w, group), ts, i, w.input);
    assert Take(w.input, k) == Copies(0, k);
    assert HasFilter(ts[i + 1..], w.f) by { assert ts[i + 1..][j - i - 1] == Filter(w.f); }
    ZerosVanish(w, group, ts[i + 1..], k);
  }

  lemma NoSkips(ts: Steps)
    requires NoSkip(ts)
    ensures SkipOf(ts) == 0
  {
    SubNone(ts, 2);
  }

  lemma TopFilterOrdered(w: Witness, group: (Spec, seq<int>) -> seq<int>, ts: Steps, i: nat, j: nat, k: nat)
    requires Proper(ts) && Before(ts, i, j, 3, 0) && NoSkip(ts) && ts[i].top == k
    requires w == Witness(ts[j].expr, Same, Copies(0, k) + [1])
    ensures InOrder(w, group, ts, w.input) == [1]
  {
    hide Sub, SkipOf, Topped;
    assert HasFilter(ts, w.f) by { assert ts[j] == Filter(w.f); }
    KeepsBehind(Local(w, group), w.f, k, [1]);
    SameSorted(w, ts, [1]);
    NoSkips(ts);
    assert Drop([1], 0) == [1];
    ToppedFirst(ts, [1]);
  }

  /** A skip before the sorting: the skipped rows come last. */
  lemma SkipOrderDiffers(group: (Spec, seq<int>) -> seq<int>, ts: Steps, i: nat, j: nat) returns (w: Witness)
    requires Proper(ts) && Before(ts, i, j, 2, 1) && !Inverted(ts, 3, 2)
    ensures w.sorting == Backwards && Differs(w, group, ts)
  {
    var n := ts[i].skip;
    w := Witness(NO_EXPR, Backwards, Copies(1, n) + [2]);
    SkipOrderRuns(w, group, ts, i, j, n);
    SkipOrderOrdered(w, group, ts, i, j, n);
    hide Proper, Before, InOrder, RunPipeline;
  }

  lemma SkipOrderRuns(w: Witness, group: (Spec, seq<int>) -> seq<int>, ts: Steps, i: nat, j: nat, n: nat)
    requires Proper(ts) && Before(ts, i, j, 2, 1) && !Inverted(ts, 3, 2) && ts[i].skip == n
    requires w == Witness(NO_EXPR, Backwards, Copies(1, n) + [2])
    ensures RunPipeline(Local(w, group), ts, w.input) == [2]
  {
    NoSkipAround(ts, i);
    NoneBefore(ts, i, 3);
    NoOrderAround(ts, j);
    TailProper(ts, i + 1);
    assert NoTop(ts[..i]);
    assert NoOrder(ts[..i]) by {
      assert forall k :: 0 <= k < i ==> ts[..i][k] == ts[..j][k];
    }
    hide Proper, Inverted;
    PrefixIdle(w, ts, i, w.input);
    IdleRun(w, group, ts[..i], w.input);
    RunAround(Local(w, group), ts, i, w.input);
    assert Drop(w.input, n) == Copies(2, 1);
    CopiesRun(w, group, ts[i + 1..], 2, 1);
    LeftOne(ts[i + 1..]);
    assert Copies(2, 1) == [2];
  }

  lemma SkipOrderOrdered(w: Witness, group: (Spec, seq<int>) -> seq<int>, ts: Steps, i: nat, j: nat, n: nat)
    requires Proper(ts) && Before(ts, i, j, 2, 1) && ts[i].skip == n
    requires w == Witness(NO_EXPR, Backwards, Copies(1, n) + [2])
    ensures InOrder(w, group, ts, w.input) == [1]
  {
    hide Sub, SkipOf, Topped, Sorted, Filtered;
    NothingFiltered(w, group, ts, w.input);
    SortIs(w, ts, j, w.input);
    ReversedBehind(1, n, 2);
    SkipIs(ts, i);
    assert Drop([2] + Copies(1, n), n) == [1];
    ToppedFirst(ts, [1]);
  }

  /** A top before the sorting: the row cut off would come first. */
  lemma TopOrderDiffers(group: (Spec, seq<int>) -> seq<int>, ts: Steps, i: nat, j: nat) returns (w: Witness)
    requires Proper(ts) && Before(ts, i, j, 3, 1) && NoSkip(ts)
    ensures w.sorting == Backwards && Differs(w, group, ts)
  {
    var k := ts[i].top;
    w := Witness(NO_EXPR, Backwards, Copies(1, k) + [2]);
    TopOrderRuns(w, group, ts, i, j, k);
    TopOrderOrdered(w, group, ts, i, j, k);
    hide Proper, Before, InOrder, RunPipeline;
  }

  lemma TopOrderRuns(w: Witness, group: (Spec, seq<int>) -> seq<int>, ts: Steps, i: nat, j: nat, k: nat)
    requires Proper(ts) && Before(ts, i, j, 3, 1) && NoSkip(ts) && ts[i].top == k
    requires w == Witness(NO_EXPR, Backwards, Copies(1, k) + [2])
    ensures var r := RunPipeline(Local(w, group), ts, w.input); r == [] || r[0] == 1
  {
    NoTopAround(ts, i);
    NoOrderAround(ts, j);
    TailProper(ts, i + 1);
    assert NoSkip(ts[..i]);
    assert NoOrder(ts[..i]) by {
      assert forall x :: 0 <= x < i ==> ts[..i][x] == ts[..j][x];
    }
    hide Proper;
    PrefixIdle(w, ts, i, w.input);
    IdleRun(w, group, ts[..i], w.input);
    RunAround(Local(w, group), ts, i, w.input);
    assert Take(w.input, k) == Copies(1, k);
    CopiesRun(w, group, ts[i + 1..], 1, k);
  }

  lemma TopOrderOrdered(w: Witness, group: (Spec, seq<int>) -> seq<int>, ts: Steps, i: nat, j: nat, k: nat)
    requires Proper(ts) && Before(ts, i, j, 3, 1) && NoSkip(ts) && ts[i].top == k
    requires w == Witness(NO_EXPR, Backwards, Copies(1, k) + [2])
    ensures var r := InOrder(w, group, ts, w.input);
            r != [] && r[0] == 2 && forall x :: 0 <= x < |r| ==> 1 <= r[x] <= 2
  {
    hide Sub, SkipOf, Topped, Sorted, Filtered;
    var sorted := [2] + Copies(1, k);
    NothingFiltered(w, group, ts, w.input);
    SortIs(w, ts, j, w.input);
    ReversedBehind(1, k, 2);
    NoSkips(ts);
    assert Drop(sorted, 0) == sorted;
    ToppedFirst(ts, sorted);
  }

  /** The sorting before a filter: it would have changed the rows that pass. */
  lemma OrderFilterDiffers(group: (Spec, seq<int>) -> seq<int>, ts: Steps, i: nat, j: nat) returns (w: Witness)
    requires Proper(ts) && Before(ts, i, j, 1, 0) && !Inverted(ts, 2, 0) && !Inverted(ts, 3, 0)
    ensures Differs(w, group, ts)
  {
    hide Proper, InOrder, RunPipeline, SkipOf, Inverted, Local, Copies;
    var n := SkipOf(ts);
    w := Witness(ts[j].expr, Only(n + 1), Copies(1, n + 1) + Copies(0, 1));
    OrderFilterRuns(w, group, ts, i, j, n);
    OrderFilterOrdered(w, group, ts, i, j, n);
  }

  lemma OrderFilterRuns(w: Witness, group: (Spec, seq<int>) -> seq<int>, ts: Steps, i: nat, j: nat, n: nat)
    requires Proper(ts) && Before(ts, i, j, 1, 0) && !Inverted(ts, 2, 0) && !Inverted(ts, 3, 0)
    requires w == Witness(ts[j].expr, Only(n + 1), Copies(1, n + 1) + Copies(0, 1))
    ensures var r := RunPipeline(Local(w, group), ts, w.input); r == [] || r[0] == 1
  {
    TailProper(ts, j + 1);
    OrderFilterPrefix(w, group, ts, j, n);
    NoOrderAround(ts, i);
    NoOrderBehind(ts, i, j);
    hide Proper, Inverted;
    RunAround(Local(w, group), ts, j, w.input);
    KeepsBehind(Local(w, group), w.f, 1, Copies(1, n + 1));
    CopiesRun(w, group, ts[j + 1..], 1, n + 1);
  }

  lemma NoOrderBehind(ts: Steps, i: nat, j: nat)
    requires i <= j < |ts| && NoOrder(ts[i + 1..])
    ensures NoOrder(ts[j + 1..])
  {
    var tail := ts[j + 1..];
    forall k | 0 <= k < |tail| ensures !tail[k].OrderBy? {
      assert tail[k] == ts[i + 1..][j - i + k];
    }
  }

  lemma OrderFilterPrefix(w: Witness, group: (Spec, seq<int>) -> seq<int>, ts: Steps, j: nat, n: nat)
    requires Proper(ts) && j < |ts| && ts[j].Filter? && !Inverted(ts, 2, 0) && !Inverted(ts, 3, 0)
    requires w == Witness(ts[j].expr, Only(n + 1), Copies(1, n + 1) + Copies(0, 1))
    ensures RunPipeline(Local(w, group), ts[..j], w.input) == w.input
  {
    NoneBefore(ts, j, 2);
    NoneBefore(ts, j, 3);
    DistinctExprs(ts, j);
    assert NoSkip(ts[..j]) && NoTop(ts[..j]) && InStage(ts);
    hide Proper, Inverted;
    assert SortBy(w.sorting, w.input) == w.input by { assert |w.input| != |Copies(1, n + 1)|; }
    PrefixIdle(w, ts, j, w.input);
    IdleRun(w, group, ts[..j], w.input);
  }

  lemma OrderFilterOrdered(w: Witness, group: (Spec, seq<int>) -> seq<int>, ts: Steps, i: nat, j: nat, n: nat)
    requires Proper(ts) && Before(ts, i, j, 1, 0) && n == SkipOf(ts)
    requires w == Witness(ts[j].expr, Only(n + 1), Copies(1, n + 1) + Copies(0, 1))
    ensures InOrder(w, group, ts, w.input) == [2]
  {
    hide Sub, SkipOf, Topped, Sorted;
    var ones := Copies(1, n + 1);
    assert HasFilter(ts, w.f) by { assert ts[j] == Filter(w.f); }
    KeepsBehind(Local(w, group), w.f, 1, ones);
    SortIs(w, ts, i, ones);
    assert Drop(Copies(2, n + 1), n) == [2];
    ToppedFirst(ts, [2]);
  }

  // ------------------------------------------------------------------ every stage out of order

  /** Filters and sorting may stand in any order, before skip and top. */
  function LooseRank(t: Transformation): nat {
    match t
    case Filter(_) => 0
    case OrderBy(_) => 0
    case Skip(_) => 1
    case Top(_) => 2
    case _ => 3
  }

  predicate Loose(ts: Steps, last: nat)
    decreases |ts|
  {
    ts == [] ||
    (if IsAggregation(ts[0]) then Loose(ts[1..], 0)
     else last <= LooseRank(ts[0]) && Loose(ts[1..], LooseRank(ts[0])))
  }

  lemma {:induction false} CanonicalIsLoose(ts: Steps, last: nat, loose: nat)
    requires Canonical(ts, last) && (loose == 0 || (last >= 2 && loose <= last - 1)) && last <= 4
    ensures Loose(ts, loose)
    decreases |ts|
  {
    if ts != [] {
      if IsAggregation(ts[0]) {
        CanonicalIsLoose(ts[1..], 0, 0);
      } else {
        CanonicalIsLoose(ts[1..], Rank(ts[0]), LooseRank(ts[0]));
      }
    }
  }

  /** A stage without inversions is in order. */
  lemma {:induction false} OrderedIsCanonical(ts: Steps, last: nat)
    requires InStage(ts) && (forall k :: 0 <= k < |ts| ==> last <= Rank(ts[k]))
    requires forall i, j :: 0 <= i < j < |ts| ==> Rank(ts[i]) <= Rank(ts[j])
    ensures Canonical(ts, last)
    decreases |ts|
  {
    hide Rank, IsAggregation;
    if ts != [] {
      assert forall k :: 0 <= k < |ts[1..]| ==> ts[1..][k] == ts[k + 1];
      OrderedIsCanonical(ts[1..], Rank(ts[0]));
    }
  }

  lemma {:induction false} OrderedIsLoose(ts: Steps, last: nat)
    requires InStage(ts) && (forall k :: 0 <= k < |ts| ==> last <= LooseRank(ts[k]))
    requires forall i, j :: 0 <= i < j < |ts| ==> LooseRank(ts[i]) <= LooseRank(ts[j])
    ensures Loose(ts, last)
    decreases |ts|
  {
    hide LooseRank, IsAggregation;
    if ts != [] {
      assert forall k :: 0 <= k < |ts[1..]| ==> ts[1..][k] == ts[k + 1];
      OrderedIsLoose(ts[1..], LooseRank(ts[0]));
    }
  }

  lemma InvertedPair(ts: Steps, i: nat, j: nat)
    requires i < j < |ts|
    ensures Inverted(ts, Rank(ts[i]), Rank(ts[j]))
  {
    assert Before(ts, i, j, Rank(ts[i]), Rank(ts[j]));
  }

  lemma CanonicalWithoutInversions(ts: Steps)
    requires InStage(ts) && !Inverted(ts, 3, 2) && !Inverted(ts, 2, 0) && !Inverted(ts, 3, 0)
    requires !Inverted(ts, 2, 1) && !Inverted(ts, 3, 1)
    ensures Loose(ts, 0) && (!Inverted(ts, 1, 0) ==> Canonical(ts, 0))
  {
    hide Inverted;
    forall i, j | 0 <= i < j < |ts| ensures LooseRank(ts[i]) <= LooseRank(ts[j]) {
      InvertedPair(ts, i, j);
    }
    OrderedIsLoose(ts, 0);
    if !Inverted(ts, 1, 0) {
      forall i, j | 0 <= i < j < |ts| ensures Rank(ts[i]) <= Rank(ts[j]) {
        InvertedPair(ts, i, j);
      }
      OrderedIsCanonical(ts, 0);
    }
  }

  lemma NoSkipWhenTopEarly(ts: Steps, i: nat, j: nat, low: nat)
    requires Before(ts, i, j, 3, low) && low < 2 && !Inverted(ts, 3, 2) && !Inverted(ts, 2, low)
    ensures NoSkip(ts)
  {
    forall k | 0 <= k < |ts| ensures !ts[k].Skip? {
      if ts[k].Skip? {
        NotInverted(ts, i, k, 3, 2);
        NotInverted(ts, k, j, 2, low);
      }
    }
  }

  /** A stage that is not in canonical order means something else in some setting; one that is out
      of order otherwise than by a filter behind the sorting does so with harmless sortings. */
  lemma StageDiffers(group: (Spec, seq<int>) -> seq<int>, ts: Steps) returns (w: Witness)
    requires Proper(ts) && !Canonical(ts, 0)
    ensures Differs(w, group, ts) && (w.sorting.Only? ==> Loose(ts, 0))
  {
    hide Proper, Differs, Canonical, Loose;
    assert InStage(ts) by { TailOfNothing(ts); }
    if Inverted(ts, 3, 2) {
      var i, j :| Before(ts, i, j, 3, 2);
      w := TopSkipDiffers(group, ts, i, j);
    } else if Inverted(ts, 2, 0) {
      var i, j :| Before(ts, i, j, 2, 0);
      w := SkipFilterDiffers(group, ts, i, j);
    } else if Inverted(ts, 3, 0) {
      var i, j :| Before(ts, i, j, 3, 0);
      NoSkipWhenTopEarly(ts, i, j, 0);
      w := TopFilterDiffers(group, ts, i, j);
    } else if Inverted(ts, 2, 1) {
      var i, j :| Before(ts, i, j, 2, 1);
      w := SkipOrderDiffers(group, ts, i, j);
    } else if Inverted(ts, 3, 1) {
      var i, j :| Before(ts, i, j, 3, 1);
      NoSkipWhenTopEarly(ts, i, j, 1);
      w := TopOrderDiffers(group, ts, i, j);
    } else {
      CanonicalWithoutInversions(ts);
      var i, j :| Before(ts, i, j, 1, 0);
      w := OrderFilterDiffers(group, ts, i, j);
    }
  }

  lemma TailOfNothing(ts: Steps)
    requires Proper(ts)
    ensures InStage(ts)
  {
  }

  // ------------------------------------------------------------------ the stage within its pipeline

  function Stages(ts: Steps): nat {
    if ts == [] then 0 else (if IsAggregation(ts[0]) then 1 else 0) + Stages(ts[1..])
  }

  function Skipped(ts: Steps): nat {
    if ts == [] then 0 else (if ts[0].Skip? then ts[0].skip else 0) + Skipped(ts[1..])
  }

  /** Groups count the stages: copies of 5 + i reach the i-th one, and the one with index `j` is
      given the witness's input. What comes out of it in order is marked with fours from there on,
      everything else with threes. */
  function Counting(input: seq<int>, ordered: seq<int>, j: nat, size: nat): (Spec, seq<int>) -> seq<int> {
    (spec, rows) =>
      if rows == ordered then Copies(4, size)
      else if rows == [] || rows[0] <= 3 then Copies(3, size)
      else if rows[0] == 4 then Copies(4, size)
      else if rows[0] == 5 + j then input
      else Copies(rows[0] + 1, size)
  }

  datatype Setting = Setting(w: Witness, ordered: seq<int>, j: nat, size: nat)

  function MeaningOf(c: Setting): Meaning<int> {
    Local(c.w, Counting(c.w.input, c.ordered, c.j, c.size))
  }

  /** What the stage in question makes of its input in order is told apart from the marks. */
  predicate Sound(c: Setting) {
    c.ordered != [] && forall k :: 0 <= k < |c.ordered| ==> 1 <= c.ordered[k] <= 2
  }

  predicate NoBottom(ts: Steps) {
    forall i :: 0 <= i < |ts| ==> !ts[i].Bottom?
  }

  /** The mark a run ends with that starts with this one. */
  function MarkAfter(ts: Steps, mark: int): int {
    if mark == 4 then 4 else mark + Stages(ts)
  }

  predicate MarkFits(c: Setting, ts: Steps, mark: int) {
    mark == 4 || (mark >= 5 && mark + Stages(ts) <= 5 + c.j)
  }

  lemma GroupCopies(c: Setting, t: Transformation, mark: int, n: nat)
    requires Sound(c) && IsAggregation(t) && n > 0 && mark >= 3
    ensures Apply(MeaningOf(c), t, Copies(mark, n)) ==
            if mark == 3 then Copies(3, c.size) else if mark == 4 then Copies(4, c.size)
            else if mark == 5 + c.j then c.w.input else Copies(mark + 1, c.size)
  {
    assert Copies(mark, n)[0] == mark;
    assert c.ordered[0] <= 2;
  }

  /** Through loosely ordered stages, copies of a mark come to copies of the next marks. */
  lemma {:induction false} MarkRun(c: Setting, ts: Steps, mark: int, n: nat, last: nat) returns (left: nat)
    requires Sound(c) && Loose(ts, last) && AllLively(ts) && NoBottom(ts) && MarkFits(c, ts, mark)
    requires n > 0 && (last < 2 ==> n > Skipped(ts)) && c.size > Skipped(ts)
    ensures left > 0 && RunPipeline(MeaningOf(c), ts, Copies(mark, n)) == Copies(MarkAfter(ts, mark), left)
    decreases |ts|
  {
    hide Apply, Copies, MeaningOf, Lively, Sound;
    left := n;
    if ts != [] {
      var t, m := ts[0], MeaningOf(c);
      assert Lively(t) && !t.Bottom?;
      assert forall i :: 0 <= i < |ts[1..]| ==> ts[1..][i] == ts[i + 1];
      if IsAggregation(t) {
        GroupCopies(c, t, mark, n);
        left := MarkRun(c, ts[1..], if mark == 4 then 4 else mark + 1, c.size, 0);
      } else {
        var kept := MarkStep(c, t, mark, n);
        left := MarkRun(c, ts[1..], mark, kept, LooseRank(t));
      }
    }
  }

  lemma MarkStep(c: Setting, t: Transformation, mark: int, n: nat) returns (kept: nat)
    requires !IsAggregation(t) && Lively(t) && !t.Bottom? && mark >= 3 && n > 0 && (t.Skip? ==> n > t.skip)
    ensures kept > 0 && Apply(MeaningOf(c), t, Copies(mark, n)) == Copies(mark, kept)
    ensures kept == if t.Skip? then n - t.skip else if t.Top? && t.top <= n then t.top else n
  {
    kept := if t.Skip? then n - t.skip else if t.Top? && t.top <= n then t.top else n;
    CopiesStep(c.w, Counting(c.w.input, c.ordered, c.j, c.size), t, mark, n);
    assert [t][1..] == [];
  }

  /** Behind a stage that made something else, threes stay threes, or vanish. */
  lemma {:induction false} OtherRun(c: Setting, ts: Steps, n: nat) returns (left: nat)
    requires Sound(c) && NoBottom(ts)
    ensures RunPipeline(MeaningOf(c), ts, Copies(3, n)) == Copies(3, left)
    decreases |ts|
  {
    hide Apply, Copies, MeaningOf, Sound;
    left := n;
    if ts != [] {
      assert forall i :: 0 <= i < |ts[1..]| ==> ts[1..][i] == ts[i + 1];
      var next := OtherStep(c, ts[0], n);
      left := OtherRun(c, ts[1..], next);
    }
  }

  lemma OtherStep(c: Setting, t: Transformation, n: nat) returns (next: nat)
    requires Sound(c) && !t.Bottom?
    ensures Apply(MeaningOf(c), t, Copies(3, n)) == Copies(3, next)
  {
    if IsAggregation(t) {
      next := c.size;
      OtherGroup(c, t, Copies(3, n));
    } else {
      next := LeftOf([t], n);
      CopiesStep(c.w, Counting(c.w.input, c.ordered, c.j, c.size), t, 3, n);
    }
  }

  lemma OtherGroup(c: Setting, t: Transformation, rows: seq<int>)
    requires Sound(c) && IsAggregation(t) && (rows == [] || rows[0] <= 3) && rows != c.ordered
    ensures Apply(MeaningOf(c), t, rows) == Copies(3, c.size)
  {
  }

  lemma {:induction false} InsertKeepsSums(t: Transformation, ts: Steps)
    ensures Stages(Insert(t, ts)) == Stages([t] + ts) && Skipped(Insert(t, ts)) == Skipped([t] + ts)
    decreases |ts|
  {
    hide Rank;
    assert ([t] + ts)[1..] == ts;
    if !(ts == [] || IsAggregation(t) || IsAggregation(ts[0]) || Rank(t) <= Rank(ts[0])) {
      InsertKeepsSums(t, ts[1..]);
      assert ([t] + ts[1..])[1..] == ts[1..];
      assert ([ts[0]] + Insert(t, ts[1..]))[1..] == Insert(t, ts[1..]);
    }
  }

  lemma {:induction false} RearrangedKeepsSums(ts: Steps)
    ensures Stages(Rearranged(ts)) == Stages(ts) && Skipped(Rearranged(ts)) == Skipped(ts)
    decreases |ts|
  {
    hide Insert;
    if ts != [] {
      RearrangedKeepsSums(ts[1..]);
      InsertKeepsSums(ts[0], Rearranged(ts[1..]));
      assert ([ts[0]] + Rearranged(ts[1..]))[1..] == Rearranged(ts[1..]);
    }
  }

  lemma {:induction false} SumsJoin(a: Steps, b: Steps)
    ensures Stages(a + b) == Stages(a) + Stages(b) && Skipped(a + b) == Skipped(a) + Skipped(b)
    decreases |a|
  {
    if a == [] {
      assert a + b == b;
    } else {
      assert (a + b)[0] == a[0] && (a + b)[1..] == a[1..] + b;
      SumsJoin(a[1..], b);
    }
  }

  lemma RearrangedMembers(ts: Steps)
    requires AllLively(ts) && NoBottom(ts)
    ensures AllLively(Rearranged(ts)) && NoBottom(Rearranged(ts))
  {
    hide Lively, Rearranged;
    RearrangedKeeps(ts);
    var other := Rearranged(ts);
    forall i | 0 <= i < |other| ensures Lively(other[i]) && !other[i].Bottom? {
      assert other[i] in multiset(other);
      assert other[i] in ts;
    }
  }

  // ------------------------------------------------------------------ the first stage out of order

  predicate Ordered(ts: Steps, loose: bool) {
    if loose then Loose(ts, 0) else Canonical(ts, 0)
  }

  lemma {:induction false} LooseJoin(a: Steps, b: Steps, last: nat)
    requires StartsStage(b)
    ensures Loose(a + b, last) <==> Loose(a, last) && Loose(b, 0)
    decreases |a|
  {
    hide LooseRank;
    if a == [] {
      assert a + b == b;
    } else {
      assert (a + b)[1..] == a[1..] + b && (a + b)[0] == a[0];
      LooseJoin(a[1..], b, if IsAggregation(a[0]) then 0 else LooseRank(a[0]));
    }
  }

  lemma OrderedJoin(a: Steps, b: Steps, loose: bool)
    requires StartsStage(b)
    ensures Ordered(a + b, loose) <==> Ordered(a, loose) && Ordered(b, loose)
  {
    hide Loose, Canonical;
    LooseJoin(a, b, 0);
    CanonicalJoin(a, b, 0);
  }

  lemma OrderedStart(t: Transformation, b: Steps, loose: bool)
    requires IsAggregation(t)
    ensures Ordered([t] + b, loose) <==> Ordered(b, loose)
  {
    assert ([t] + b)[1..] == b;
  }

  lemma OrderedIsLooseToo(ts: Steps, loose: bool)
    requires Ordered(ts, loose)
    ensures Loose(ts, 0)
  {
    if !loose {
      CanonicalIsLoose(ts, 0, 0);
    }
  }

  function PlainLength(ts: Steps): (n: nat)
    ensures n <= |ts| && Plain(ts[..n]) && StartsStage(ts[n..])
  {
    if ts == [] || IsAggregation(ts[0]) then 0
    else
      PlainMore(ts, PlainLength(ts[1..]));
      1 + PlainLength(ts[1..])
  }

  lemma PlainMore(ts: Steps, n: nat)
    requires ts != [] && !IsAggregation(ts[0]) && n <= |ts| - 1 && Plain(ts[1..][..n]) && StartsStage(ts[1..][n..])
    ensures Plain(ts[..n + 1]) && StartsStage(ts[n + 1..])
  {
    assert ts[..n + 1] == [ts[0]] + ts[1..][..n] && ts[n + 1..] == ts[1..][n..];
  }

  lemma {:induction false} FirstBad(p: Steps, loose: bool) returns (pre: Steps, ts: Steps, rest: Steps)
    requires !Ordered(p, loose)
    ensures p == pre + (ts + rest) && Plain(ts) && !Ordered(ts, loose) && StartsStage(rest)
    ensures (pre == [] || EndsInAggregation(pre)) && Loose(pre, 0)
    decreases |p|
  {
    hide *;
    var n := PlainLength(p);
    var head, tail := p[..n], p[n..];
    assert p == head + tail;
    OrderedJoin(head, tail, loose);
    if !Ordered(head, loose) {
      pre, ts, rest := [], head, tail;
      assert p == [] + (head + tail);
      NothingLoose();
    } else {
      NothingOrdered(loose);
      TailStarts(tail, loose);
      var t := tail[0];
      assert tail == [t] + tail[1..];
      OrderedStart(t, tail[1..], loose);
      var before;
      before, ts, rest := FirstBad(tail[1..], loose);
      pre := head + ([t] + before);
      Regrouped(head, t, before, ts + rest);
      OrderedIsLooseToo(head, loose);
      StageStarts(t, before);
      LooseJoin(head, [t] + before, 0);
      LooseStart(t, before);
      EndsBehind(head, t, before);
    }
  }

  lemma StageStarts(t: Transformation, b: Steps)
    requires IsAggregation(t)
    ensures StartsStage([t] + b)
  {
  }

  lemma Regrouped(head: Steps, t: Transformation, before: Steps, behind: Steps)
    ensures head + ([t] + (before + behind)) == head + ([t] + before) + behind
  {
  }

  lemma EndsBehind(head: Steps, t: Transformation, before: Steps)
    requires IsAggregation(t) && (before == [] || EndsInAggregation(before))
    ensures EndsInAggregation(head + ([t] + before))
  {
  }

  lemma TailStarts(tail: Steps, loose: bool)
    requires StartsStage(tail) && !Ordered(tail, loose)
    ensures tail != [] && IsAggregation(tail[0])
  {
    hide IsAggregation;
  }

  lemma NothingLoose()
    ensures Loose([], 0)
  {
  }

  lemma NothingOrdered(loose: bool)
    ensures Ordered([], loose)
  {
  }

  lemma LooseStart(t: Transformation, b: Steps)
    requires IsAggregation(t) && Loose(b, 0)
    ensures Loose([t] + b, 0)
  {
    assert ([t] + b)[1..] == b;
  }

  lemma {:induction false} SinglePrefix(a: Steps, b: Steps, sorted: bool, skipped: bool, topped: bool)
    requires Single(a + b, sorted, skipped, topped)
    ensures Single(a, sorted, skipped, topped)
    decreases |a|
  {
    if a != [] {
      assert (a + b)[0] == a[0] && (a + b)[1..] == a[1..] + b;
      match a[0]
      case Filter(_) => SinglePrefix(a[1..], b, sorted, skipped, topped);
      case OrderBy(_) => SinglePrefix(a[1..], b, true, skipped, topped);
      case Skip(_) => SinglePrefix(a[1..], b, sorted, true, topped);
      case Top(_) => SinglePrefix(a[1..], b, sorted, skipped, true);
      case Bottom =>
      case _ => SinglePrefix(a[1..], b, false, false, false);
    }
  }

  lemma {:induction false} SingleSuffix(a: Steps, b: Steps, sorted: bool, skipped: bool, topped: bool)
    requires Single(a + b, sorted, skipped, topped) && EndsInAggregation(a)
    ensures Single(b, false, false, false)
    decreases |a|
  {
    assert (a + b)[0] == a[0] && (a + b)[1..] == a[1..] + b;
    if |a| == 1 {
      assert a[1..] + b == b;
    } else {
      assert a[1..][|a| - 2] == a[|a| - 1];
      match a[0]
      case Filter(_) => SingleSuffix(a[1..], b, sorted, skipped, topped);
      case OrderBy(_) => SingleSuffix(a[1..], b, true, skipped, topped);
      case Skip(_) => SingleSuffix(a[1..], b, sorted, true, topped);
      case Top(_) => SingleSuffix(a[1..], b, sorted, skipped, true);
      case Bottom =>
      case _ => SingleSuffix(a[1..], b, false, false, false);
    }
  }

  lemma {:induction false} SingleNoBottom(ts: Steps, sorted: bool, skipped: bool, topped: bool)
    requires Single(ts, sorted, skipped, topped)
    ensures NoBottom(ts)
    decreases |ts|
  {
    if ts != [] {
      match ts[0]
      case Filter(_) => SingleNoBottom(ts[1..], sorted, skipped, topped);
      case OrderBy(_) => SingleNoBottom(ts[1..], true, skipped, topped);
      case Skip(_) => SingleNoBottom(ts[1..], sorted, true, topped);
      case Top(_) => SingleNoBottom(ts[1..], sorted, skipped, true);
      case Bottom =>
      case _ => SingleNoBottom(ts[1..], false, false, false);
    }
  }

  lemma StageIsProper(pre: Steps, ts: Steps, rest: Steps)
    requires Plain(ts) && (pre == [] || EndsInAggregation(pre))
    requires Single(pre + (ts + rest), false, false, false) && AllLively(pre + (ts + rest)) && DistinctFilters(pre + (ts + rest))
    ensures Proper(ts)
  {
    hide Single, Lively, IsAggregation, Sub;
    var p := pre + (ts + rest);
    if pre == [] {
      assert p == ts + rest;
    } else {
      SingleSuffix(pre, ts + rest, false, false, false);
    }
    SinglePrefix(ts, rest, false, false, false);
    SingleNoBottom(ts, false, false, false);
    SingleParts(ts, false, false, false);
    assert forall i :: 0 <= i < |ts| ==> p[|pre| + i] == ts[i];
    forall i, j | 0 <= i < j < |ts| && ts[i].Filter? ensures ts[i] != ts[j] {
      NotBetween(pre, ts, rest, i, j);
      assert p[|pre| + i] == ts[i] && p[|pre| + j] == ts[j];
    }
  }

  lemma NotBetween(pre: Steps, ts: Steps, rest: Steps, i: nat, j: nat)
    requires Plain(ts) && i < j < |ts|
    ensures !StageBetween(pre + (ts + rest), |pre| + i, |pre| + j)
  {
    var p := pre + (ts + rest);
    assert forall k :: |pre| + i < k < |pre| + j ==> p[k] == ts[k - |pre|];
  }

  // ------------------------------------------------------------------ the pipeline tells

  lemma {:induction false} GroupIrrelevant(w: Witness, g: (Spec, seq<int>) -> seq<int>, h: (Spec, seq<int>) -> seq<int>, ts: Steps, rows: seq<int>)
    requires Plain(ts)
    ensures RunPipeline(Local(w, g), ts, rows) == RunPipeline(Local(w, h), ts, rows)
    decreases |ts|
  {
    hide Apply, Local;
    if ts != [] {
      assert forall i :: 0 <= i < |ts[1..]| ==> ts[1..][i] == ts[i + 1];
      StepIrrelevant(w, g, h, ts[0], rows);
      GroupIrrelevant(w, g, h, ts[1..], Apply(Local(w, g), ts[0], rows));
    }
  }

  lemma {:induction false} KeepIrrelevant(w: Witness, g: (Spec, seq<int>) -> seq<int>, h: (Spec, seq<int>) -> seq<int>, e: Expr, rows: seq<int>)
    ensures Keep(Local(w, g), e, rows) == Keep(Local(w, h), e, rows)
    decreases |rows|
  {
    if rows != [] {
      KeepIrrelevant(w, g, h, e, rows[1..]);
    }
  }

  lemma StepIrrelevant(w: Witness, g: (Spec, seq<int>) -> seq<int>, h: (Spec, seq<int>) -> seq<int>, t: Transformation, rows: seq<int>)
    requires !IsAggregation(t)
    ensures Apply(Local(w, g), t, rows) == Apply(Local(w, h), t, rows)
  {
    if t.Filter? {
      KeepIrrelevant(w, g, h, t.expr, rows);
    }
  }

  lemma DiffersAnyway(w: Witness, g: (Spec, seq<int>) -> seq<int>, h: (Spec, seq<int>) -> seq<int>, ts: Steps)
    requires Plain(ts) && Differs(w, g, ts)
    ensures Differs(w, h, ts) && InOrder(w, h, ts, w.input) == InOrder(w, g, ts, w.input)
  {
    hide Local, RunPipeline, Keep, Sorted, Topped, SkipOf, Drop;
    GroupIrrelevant(w, g, h, ts, w.input);
    KeepIrrelevant(w, g, h, w.f, w.input);
  }

  /** The witness's input reaches its stage. */
  lemma InputReached(c: Setting, pre: Steps)
    requires Sound(c) && Loose(pre, 0) && AllLively(pre) && NoBottom(pre) && EndsInAggregation(pre)
    requires c.j == Stages(pre) - 1 && c.size > Skipped(pre)
    ensures RunPipeline(MeaningOf(c), pre, Copies(5, c.size)) == c.w.input
  {
    hide Loose, Lively, MeaningOf, Sound, Copies, Apply;
    var n := |pre| - 1;
    var q, t := pre[..n], pre[n];
    assert pre == q + [t];
    SumsJoin(q, [t]);
    SumOfOne(t);
    LooseJoin(q, [t], 0);
    var left := MarkRun(c, q, 5, c.size, 0);
    GroupCopies(c, t, 5 + c.j, left);
    RunAppend(MeaningOf(c), q, [t], Copies(5, c.size));
    RunOne(MeaningOf(c), t, Copies(5 + c.j, left));
  }

  lemma SumOfOne(t: Transformation)
    requires IsAggregation(t)
    ensures Stages([t]) == 1 && Skipped([t]) == 0
  {
    assert [t][1..] == [];
  }

  /** What becomes of the two results of the stage in the rest of the pipeline. */
  lemma RestTells(c: Setting, rest: Steps, made: seq<int>)
    requires Sound(c) && StartsStage(rest) && AllLively(rest) && NoBottom(rest) && c.size > Skipped(rest)
    requires made != c.ordered && (made == [] || made[0] <= 3)
    ensures RunPipeline(MeaningOf(c), rest, made) != RunPipeline(MeaningOf(c), Rearranged(rest), c.ordered)
  {
    hide Lively, MeaningOf, Sound, Copies, Apply, Canonical, Loose, Insert;
    if rest != [] {
      var m, t, more := MeaningOf(c), rest[0], rest[1..];
      assert rest == [t] + more;
      assert forall i :: 0 <= i < |more| ==> more[i] == rest[i + 1];
      OtherGroup(c, t, made);
      var a := OtherRun(c, more, c.size);
      InsertAggregation(t, Rearranged(more));
      OrderedGroup(c, t);
      RearrangedIsCanonical(more);
      CanonicalIsLoose(Rearranged(more), 0, 0);
      RearrangedMembers(more);
      RearrangedKeepsSums(more);
      var b := MarkRun(c, Rearranged(more), 4, c.size, 0);
      assert Rearranged(rest) == [t] + Rearranged(more);
      assert ([t] + Rearranged(more))[1..] == Rearranged(more);
      MarksDiffer(a, b);
    }
  }

  lemma OrderedGroup(c: Setting, t: Transformation)
    requires IsAggregation(t)
    ensures Apply(MeaningOf(c), t, c.ordered) == Copies(4, c.size)
  {
  }

  lemma MarksDiffer(a: nat, b: nat)
    requires b > 0
    ensures Copies(3, a) != Copies(4, b)
  {
    if a > 0 {
      assert Copies(3, a)[0] != Copies(4, b)[0];
    } else {
      assert |Copies(3, a)| != |Copies(4, b)|;
    }
  }

  /** A planned pipeline out of order is told from its rearrangement by some setting. */
  lemma PipelineDiffers(p: Steps, loose: bool) returns (c: Setting, rows: seq<int>)
    requires Single(p, false, false, false) && AllLively(p) && DistinctFilters(p) && !Ordered(p, loose)
    ensures RunPipeline(MeaningOf(c), p, rows) != RunPipeline(MeaningOf(c), Rearranged(p), rows)
    ensures loose ==> !c.w.sorting.Only?
  {
    hide *;
    var pre, ts, rest := FirstBad(p, loose);
    StageIsProper(pre, ts, rest);
    SingleNoBottom(p, false, false, false);
    PartsInherit(pre, ts, rest);
    var plain := (spec: Spec, rows: seq<int>) => rows;
    NotCanonicalEither(ts, loose);
    var w := StageDiffers(plain, ts);
    var ordered := InOrder(w, plain, ts, w.input);
    c := Setting(w, ordered, if Stages(pre) > 0 then Stages(pre) - 1 else 0, Skipped(p) + 1);
    rows := if pre == [] then w.input else Copies(5, c.size);
    DiffersAnyway(w, plain, Counting(w.input, ordered, c.j, c.size), ts);
    SoundWhenDiffering(c, ts);
    Reached(c, pre, rows);
    RunsApart(c, pre, ts, rest, rows);
  }

  lemma PartsInherit(pre: Steps, ts: Steps, rest: Steps)
    requires AllLively(pre + (ts + rest)) && NoBottom(pre + (ts + rest))
    ensures AllLively(pre) && NoBottom(pre) && AllLively(rest) && NoBottom(rest)
    ensures Skipped(pre) <= Skipped(pre + (ts + rest)) && Skipped(rest) <= Skipped(pre + (ts + rest))
  {
    hide Lively, Skipped, Stages;
    var p := pre + (ts + rest);
    SumsJoin(pre, ts + rest);
    SumsJoin(ts, rest);
    assert forall i :: 0 <= i < |pre| ==> p[i] == pre[i];
    assert forall i :: 0 <= i < |rest| ==> p[|pre| + |ts| + i] == rest[i];
  }

  lemma SoundWhenDiffering(c: Setting, ts: Steps)
    requires Differs(c.w, Counting(c.w.input, c.ordered, c.j, c.size), ts)
    requires c.ordered == InOrder(c.w, Counting(c.w.input, c.ordered, c.j, c.size), ts, c.w.input)
    ensures Sound(c)
  {
    hide InOrder, RunPipeline, Counting, Local;
  }

  lemma NotCanonicalEither(ts: Steps, loose: bool)
    requires !Ordered(ts, loose)
    ensures !Canonical(ts, 0) && (loose ==> !Loose(ts, 0))
  {
    if Canonical(ts, 0) {
      CanonicalIsLoose(ts, 0, 0);
    }
  }

  /** Both in the given and in canonical order, the stages before hand on the witness's input. */
  lemma Reached(c: Setting, pre: Steps, rows: seq<int>)
    requires Sound(c) && Loose(pre, 0) && AllLively(pre) && NoBottom(pre) && (pre == [] || EndsInAggregation(pre))
    requires pre != [] ==> c.j == (if Stages(pre) > 0 then Stages(pre) - 1 else 0) && c.size > Skipped(pre)
    requires rows == if pre == [] then c.w.input else Copies(5, c.size)
    ensures RunPipeline(MeaningOf(c), pre, rows) == c.w.input && RunPipeline(MeaningOf(c), Rearranged(pre), rows) == c.w.input
  {
    if pre != [] {
      hide Loose, Canonical, Lively, Sound, MeaningOf, Insert;
      StagesCounted(pre);
      InputReached(c, pre);
      RearrangedIsCanonical(pre);
      CanonicalIsLoose(Rearranged(pre), 0, 0);
      RearrangedMembers(pre);
      RearrangedKeepsSums(pre);
      StillEnds(pre);
      hide Rearranged, RunPipeline;
      InputReached(c, Rearranged(pre));
    }
  }

  lemma StagesCounted(pre: Steps)
    requires EndsInAggregation(pre)
    ensures Stages(pre) > 0
  {
    var n := |pre| - 1;
    assert pre == pre[..n] + [pre[n]];
    SumsJoin(pre[..n], [pre[n]]);
    SumOfOne(pre[n]);
  }

  lemma StillEnds(pre: Steps)
    requires EndsInAggregation(pre)
    ensures EndsInAggregation(Rearranged(pre))
  {
    hide Insert;
    var n := |pre| - 1;
    var q, t := pre[..n], pre[n];
    assert pre == q + [t];
    RearrangedJoin(q, [t]);
    assert [t][1..] == [];
    InsertAggregation(t, Rearranged([]));
    assert Rearranged([t]) == [t];
  }

  lemma RunsApart(c: Setting, pre: Steps, ts: Steps, rest: Steps, rows: seq<int>)
    requires Proper(ts) && StartsStage(rest) && (pre == [] || EndsInAggregation(pre))
    requires Differs(c.w, Counting(c.w.input, c.ordered, c.j, c.size), ts)
    requires c.ordered == InOrder(c.w, Counting(c.w.input, c.ordered, c.j, c.size), ts, c.w.input)
    requires AllLively(rest) && NoBottom(rest) && c.size > Skipped(rest)
    requires RunPipeline(MeaningOf(c), pre, rows) == c.w.input && RunPipeline(MeaningOf(c), Rearranged(pre), rows) == c.w.input
    ensures RunPipeline(MeaningOf(c), pre + (ts + rest), rows) != RunPipeline(MeaningOf(c), Rearranged(pre + (ts + rest)), rows)
  {
    hide Proper, Lively, RunPipeline, Rearranged, InOrder, Local, Counting, Skipped;
    var m := MeaningOf(c);
    RunAppend(m, pre, ts + rest, rows);
    RunAppend(m, ts, rest, c.w.input);
    RearrangedJoin(pre, ts + rest);
    RearrangedJoin(ts, rest);
    RunAppend(m, Rearranged(pre), Rearranged(ts) + Rearranged(rest), rows);
    RunAppend(m, Rearranged(ts), Rearranged(rest), c.w.input);
    OrderedRun(c.w, Counting(c.w.input, c.ordered, c.j, c.size), ts, c.w.input);
    RestTells(c, rest, RunPipeline(m, ts, c.w.input));
  }

  // ------------------------------------------------------------------ sortings that commute with filters

  /** Sorting and filtering may be exchanged, as with every stable sorting by the rows' values. */
  ghost predicate Commutes<R(!new)>(m: Meaning<R>) {
    forall e, items, rows :: Keep(m, e, Sort(m, items, rows)) == Sort(m, items, Keep(m, e, rows))
  }

  lemma {:induction false} KeepReversed(m: Meaning<int>, e: Expr, rows: seq<int>)
    ensures Keep(m, e, Reversed(rows)) == Reversed(Keep(m, e, rows))
    decreases |rows|
  {
    if rows != [] {
      KeepReversed(m, e, rows[1..]);
      KeepJoin(m, e, Reversed(rows[1..]), [rows[0]]);
      assert [rows[0]][1..] == [];
      var kept := Keep(m, e, rows[1..]);
      assert ([rows[0]] + kept)[1..] == kept && [] + kept == kept;
    }
  }

  lemma {:induction false} KeepJoin(m: Meaning<int>, e: Expr, a: seq<int>, b: seq<int>)
    ensures Keep(m, e, a + b) == Keep(m, e, a) + Keep(m, e, b)
    decreases |a|
  {
    if a == [] {
      assert a + b == b;
    } else {
      assert (a + b)[0] == a[0] && (a + b)[1..] == a[1..] + b;
      KeepJoin(m, e, a[1..], b);
    }
  }

  lemma SettingCommutes(c: Setting)
    requires !c.w.sorting.Only?
    ensures Commutes(MeaningOf(c))
  {
    hide Keep, Copies;
    var m := MeaningOf(c);
    forall e, items, rows ensures Keep(m, e, Sort(m, items, rows)) == Sort(m, items, Keep(m, e, rows)) {
      if c.w.sorting.Backwards? {
        KeepReversed(m, e, rows);
      }
    }
  }

  /** All of the stage at the front has at least this rank. */
  predicate FrontFrom(ts: Steps, r: nat)
    decreases |ts|
  {
    ts == [] || IsAggregation(ts[0]) || (LooseRank(ts[0]) >= r && FrontFrom(ts[1..], r))
  }

  lemma {:induction false} LooseFront(ts: Steps, r: nat)
    requires Loose(ts, r)
    ensures FrontFrom(ts, r)
    decreases |ts|
  {
    if ts != [] && !IsAggregation(ts[0]) {
      LooseLess(ts[1..], LooseRank(ts[0]), r);
      LooseFront(ts[1..], r);
    }
  }

  lemma LooseLess(ts: Steps, last: nat, less: nat)
    requires Loose(ts, last) && less <= last
    ensures Loose(ts, less)
  {
  }

  lemma {:induction false} InsertFront(t: Transformation, ts: Steps, r: nat)
    requires FrontFrom(ts, r) && (IsAggregation(t) || LooseRank(t) >= r)
    ensures FrontFrom(Insert(t, ts), r)
    decreases |ts|
  {
    hide Rank, LooseRank;
    if ts == [] || IsAggregation(t) || IsAggregation(ts[0]) || Rank(t) <= Rank(ts[0]) {
      assert ([t] + ts)[1..] == ts;
    } else {
      InsertFront(t, ts[1..], r);
      assert ([ts[0]] + Insert(t, ts[1..]))[1..] == Insert(t, ts[1..]);
    }
  }

  lemma {:induction false} RearrangedFront(ts: Steps, r: nat)
    requires FrontFrom(ts, r)
    ensures FrontFrom(Rearranged(ts), r)
    decreases |ts|
  {
    hide Insert, LooseRank;
    if ts != [] {
      if IsAggregation(ts[0]) {
        InsertAggregation(ts[0], Rearranged(ts[1..]));
      } else {
        RearrangedFront(ts[1..], r);
        InsertFront(ts[0], Rearranged(ts[1..]), r);
      }
    }
  }

  /** A sorting may be moved behind filters. */
  lemma {:induction false} InsertSame<R(!new)>(m: Meaning<R>, t: Transformation, ts: Steps, rows: seq<R>)
    requires Commutes(m) && (IsAggregation(t) || FrontFrom(ts, LooseRank(t)))
    ensures RunPipeline(m, Insert(t, ts), rows) == RunPipeline(m, [t] + ts, rows)
    decreases |ts|
  {
    hide Keep, Sort, Commutes;
    assert ([t] + ts)[1..] == ts;
    if !(ts == [] || IsAggregation(t) || IsAggregation(ts[0]) || Rank(t) <= Rank(ts[0])) {
      var u := ts[0];
      assert t.OrderBy? && u.Filter?;
      InsertSame(m, t, ts[1..], Apply(m, u, rows));
      assert ([u] + Insert(t, ts[1..]))[1..] == Insert(t, ts[1..]);
      assert ([t] + ts[1..])[1..] == ts[1..];
      CommutesAt(m, u.expr, t.items, rows);
    }
  }

  lemma CommutesAt<R(!new)>(m: Meaning<R>, e: Expr, items: seq<OrderItem>, rows: seq<R>)
    requires Commutes(m)
    ensures Keep(m, e, Sort(m, items, rows)) == Sort(m, items, Keep(m, e, rows))
  {
  }

  lemma {:induction false} LooseSame<R(!new)>(m: Meaning<R>, ts: Steps, last: nat, rows: seq<R>)
    requires Commutes(m) && Loose(ts, last)
    ensures RunPipeline(m, Rearranged(ts), rows) == RunPipeline(m, ts, rows)
    decreases |ts|
  {
    hide Commutes, Apply, Insert, LooseRank;
    if ts != [] {
      var t, rest := ts[0], ts[1..];
      if !IsAggregation(t) {
        LooseFront(rest, LooseRank(t));
        RearrangedFront(rest, LooseRank(t));
      }
      LooseSame(m, rest, if IsAggregation(t) then 0 else LooseRank(t), Apply(m, t, rows));
      InsertSame(m, t, Rearranged(rest), rows);
      assert ([t] + Rearranged(rest))[1..] == Rearranged(rest);
    }
  }

  // ------------------------------------------------------------------ the theorems

  /** Everything in the pipeline does something, and no filter stands twice in a stage. */
  predicate Telling(p: Steps) {
    AllLively(p) && DistinctFilters(p)
  }

  /** Exactly when a plan is faithful: under every meaning of filters, groupings and sortings and on
      all rows the plan computes what the pipeline computes, if and only if the pipeline is in
      canonical order. */
  lemma FaithfulExactly(o: Options, p: Steps)
    requires PlanOf(o, p).Ok? && Telling(p)
    ensures (forall m: Meaning<int>, rows: seq<int> :: RunPlan(m, PlanOf(o, p).value, rows) == RunPipeline(m, p, rows))
            <==> Canonical(p, 0)
  {
    hide PlanOf, RunPlan, RunPipeline, Rearranged, Canonical, Single, MeaningOf, AllLively, DistinctFilters;
    if Canonical(p, 0) {
      forall m: Meaning<int>, rows: seq<int> ensures RunPlan(m, PlanOf(o, p).value, rows) == RunPipeline(m, p, rows) {
        PlanningPreservesMeaning(m, o, p, rows);
      }
    } else {
      SingleWhenPlanned(o, p);
      var c, rows := PipelineDiffers(p, false);
      PlanMeansRearranged(MeaningOf(c), o, p, rows);
      assert RunPlan(MeaningOf(c), PlanOf(o, p).value, rows) != RunPipeline(MeaningOf(c), p, rows);
    }
  }

  /** With sortings that commute with filters, exactly the pipelines are planned faithfully whose
      stages list filters and sorting, in any order, before skip and skip before top. */
  lemma FaithfulWhenCommuting(o: Options, p: Steps)
    requires PlanOf(o, p).Ok? && Telling(p)
    ensures (forall m: Meaning<int>, rows: seq<int> :: Commutes(m) ==> RunPlan(m, PlanOf(o, p).value, rows) == RunPipeline(m, p, rows))
            <==> Loose(p, 0)
  {
    hide PlanOf, RunPlan, RunPipeline, Rearranged, Canonical, Loose, Single, MeaningOf, AllLively, DistinctFilters, Commutes;
    if Loose(p, 0) {
      forall m: Meaning<int>, rows: seq<int> | Commutes(m) ensures RunPlan(m, PlanOf(o, p).value, rows) == RunPipeline(m, p, rows) {
        LoosePlanned(m, o, p, rows);
      }
    } else {
      SingleWhenPlanned(o, p);
      var c, rows := PipelineDiffers(p, true);
      SettingCommutes(c);
      PlanMeansRearranged(MeaningOf(c), o, p, rows);
      assert Commutes(MeaningOf(c)) && RunPlan(MeaningOf(c), PlanOf(o, p).value, rows) != RunPipeline(MeaningOf(c), p, rows);
    }
  }

  /** The faithful half holds of every pipeline and of rows of every type. */
  lemma LoosePlanned<R(!new)>(m: Meaning<R>, o: Options, p: Steps, rows: seq<R>)
    requires PlanOf(o, p).Ok? && Commutes(m) && Loose(p, 0)
    ensures RunPlan(m, PlanOf(o, p).value, rows) == RunPipeline(m, p, rows)
  {
    hide PlanOf, RunPlan, RunPipeline, Rearranged, Canonical, Loose, Commutes;
    PlanMeansRearranged(m, o, p, rows);
    LooseSame(m, p, 0, rows);
  }
}
