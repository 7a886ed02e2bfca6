/** The planner that turns an aggregation pipeline into a staged plan, and what both compute.
    Pipelines without concatenation; plans forget in which order a stage's filters, sorting,
    skip and top were written, so they are faithful to pipelines in canonical order. */
module ApplyPlanner {
  import opened ByteStrings

  /** A parsed filter expression, by its text. */
  datatype Expr = Expr(text: string)

  datatype Spec = Spec(groupBy: seq<string>, aggregates: seq<string>)

  datatype OrderItem = OrderItem(field: string, descending: bool)

  datatype Transformation =
    | Filter(expr: Expr)
    | GroupBy(keys: seq<string>, aggregates: seq<string>)
    | Aggregate(expressions: seq<string>)
    | OrderBy(items: seq<OrderItem>)
    | Skip(skip: nat)
    | Top(top: nat)
    | Bottom

  /** A repository filter: a translated expression, or the conjunction of two filters. */
  datatype Where = Translated(expr: Expr) | Both(left: Where, right: Where)

  datatype Stage = Stage(spec: Spec, filters: seq<Expr>, orderBy: seq<OrderItem>, skip: Option<nat>, top: Option<nat>)

  /** Plan-level sorting and paging serve pipelines without aggregation. */
  datatype Plan = Plan(
    pushdownWhere: Option<Where>,
    preFilters: seq<Expr>,
    stages: seq<Stage>,
    orderBy: seq<OrderItem>,
    skip: Option<nat>,
    top: Option<nat>)

  datatype PlanError =
    | EmptyPipeline | MultipleOrderBy | MultipleSkip | MultipleTop | NeedsAggregation | BottomUnsupported | UnsupportedFilter

  /** `translates` says which expressions the repository's filter language can carry. */
  datatype Options = Options(strict: bool, translates: Expr -> bool)

  // ------------------------------------------------------------------ planning

  const EMPTY_PLAN := Plan(None, [], [], [], None, None)

  function NewStage(groupBy: seq<string>, aggregates: seq<string>): Stage {
    Stage(Spec(groupBy, aggregates), [], [], None, None)
  }

  predicate IsAggregation(t: Transformation) {
    t.GroupBy? || t.Aggregate?
  }

  predicate ContainsAggregation(pipeline: seq<Transformation>) {
    exists i :: 0 <= i < |pipeline| && IsAggregation(pipeline[i])
  }

  function MergeWhere(target: Option<Where>, candidate: Where): Where {
    if target.None? then candidate else Both(target.value, candidate)
  }

  function LastStage(p: Plan): Stage
    requires p.stages != []
  {
    p.stages[|p.stages| - 1]
  }

  /** Replaces the current stage. */
  function WithStage(p: Plan, s: Stage): Plan
    requires p.stages != []
  {
    p.(stages := p.stages[..|p.stages| - 1] + [s])
  }

  function AddFilter(o: Options, p: Plan, e: Expr): Result<Plan, PlanError> {
    if p.stages != [] then
      Ok(WithStage(p, LastStage(p).(filters := LastStage(p).filters + [e])))
    else if o.translates(e) then
      Ok(p.(pushdownWhere := Some(MergeWhere(p.pushdownWhere, Translated(e)))))
    else if o.strict then Err(UnsupportedFilter)
    else Ok(p.(preFilters := p.preFilters + [e]))
  }

  /** One transformation; `aggregated` tells whether the pipeline must aggregate. */
  function AddStep(o: Options, aggregated: bool, p: Plan, t: Transformation): Result<Plan, PlanError> {
    match t
    case Filter(e) => AddFilter(o, p, e)
    case GroupBy(keys, aggregates) => Ok(p.(stages := p.stages + [NewStage(keys, aggregates)]))
    case Aggregate(expressions) => Ok(p.(stages := p.stages + [NewStage([], expressions)]))
    case OrderBy(items) =>
      if p.stages != [] then
        if LastStage(p).orderBy != [] then Err(MultipleOrderBy) else Ok(WithStage(p, LastStage(p).(orderBy := items)))
      else if aggregated then Err(NeedsAggregation)
      else if p.orderBy != [] then Err(MultipleOrderBy)
      else Ok(p.(orderBy := items))
    case Skip(n) =>
      if p.stages != [] then
        if LastStage(p).skip.Some? then Err(MultipleSkip) else Ok(WithStage(p, LastStage(p).(skip := Some(n))))
      else if aggregated then Err(NeedsAggregation)
      else if p.skip.Some? then Err(MultipleSkip)
      else Ok(p.(skip := Some(n)))
    case Top(n) =>
      if p.stages != [] then
        if LastStage(p).top.Some? then Err(MultipleTop) else Ok(WithStage(p, LastStage(p).(top := Some(n))))
      else if aggregated then Err(NeedsAggregation)
      else if p.top.Some? then Err(MultipleTop)
      else Ok(p.(top := Some(n)))
    case Bottom => Err(BottomUnsupported)
  }

  function AddSteps(o: Options, aggregated: bool, p: Plan, ts: seq<Transformation>): Result<Plan, PlanError>
    decreases |ts|
  {
    if ts == [] then Ok(p)
    else match AddStep(o, aggregated, p, ts[0])
      case Err(e) => Err(e)
      case Ok(next) => AddSteps(o, aggregated, next, ts[1..])
  }

  function PlanOf(o: Options, pipeline: seq<Transformation>): Result<Plan, PlanError> {
    if pipeline == [] then Err(EmptyPipeline)
    else AddSteps(o, ContainsAggregation(pipeline), EMPTY_PLAN, pipeline)
  }

  /** The planner's loop, with its pieces of the plan as variables. */
  method BuildApplyExecutionPlan(pipeline: seq<Transformation>, o: Options) returns (r: Result<Plan, PlanError>)
    ensures r == PlanOf(o, pipeline)
  {
    if |pipeline| == 0 {
      return Err(EmptyPipeline);
    }
    var requiresAggregation := ContainsAggregation(pipeline);
    var plan := EMPTY_PLAN;
    for index := 0 to |pipeline|
      invariant AddSteps(o, requiresAggregation, plan, pipeline[index..]) == PlanOf(o, pipeline)
    {
      assert pipeline[index..][0] == pipeline[index] && pipeline[index..][1..] == pipeline[index + 1..];
      var next := Plan1(o, requiresAggregation, plan, pipeline[index]);
      if next.Err? {
        return next;
      }
      plan := next.value;
    }
    return Ok(plan);
  }

  /** One turn of the loop, written as the source's switch. */
  method Plan1(o: Options, requiresAggregation: bool, plan: Plan, t: Transformation) returns (r: Result<Plan, PlanError>)
    ensures r == AddStep(o, requiresAggregation, plan, t)
  {
    var stages := plan.stages;
    var n := |stages|;
    match t {
      case Filter(expr) =>
        if n > 0 {
          var current := stages[n - 1];
          stages := stages[..n - 1] + [current.(filters := current.filters + [expr])];
          return Ok(plan.(stages := stages));
        }
        if o.translates(expr) {
          var pushdownWhere := MergeWhere(plan.pushdownWhere, Translated(expr));
          return Ok(plan.(pushdownWhere := Some(pushdownWhere)));
        }
        return if o.strict then Err(UnsupportedFilter) else Ok(plan.(preFilters := plan.preFilters + [expr]));
      case GroupBy(keys, aggregates) =>
        stages := stages + [NewStage(keys, aggregates)];
        return Ok(plan.(stages := stages));
      case Aggregate(expressions) =>
        stages := stages + [NewStage([], expressions)];
        return Ok(plan.(stages := stages));
      case OrderBy(items) =>
        if n > 0 {
          var current := stages[n - 1];
          if current.orderBy != [] {
            return Err(MultipleOrderBy);
          }
          return Ok(plan.(stages := stages[..n - 1] + [current.(orderBy := items)]));
        }
        if requiresAggregation {
          return Err(NeedsAggregation);
        }
        return if plan.orderBy != [] then Err(MultipleOrderBy) else Ok(plan.(orderBy := items));
      case Skip(count) =>
        if n > 0 {
          var current := stages[n - 1];
          if current.skip.Some? {
            return Err(MultipleSkip);
          }
          return Ok(plan.(stages := stages[..n - 1] + [current.(skip := Some(count))]));
        }
        if requiresAggregation {
          return Err(NeedsAggregation);
        }
        return if plan.skip.Some? then Err(MultipleSkip) else Ok(plan.(skip := Some(count)));
      case Top(count) =>
        if n > 0 {
          var current := stages[n - 1];
          if current.top.Some? {
            return Err(MultipleTop);
          }
          return Ok(plan.(stages := stages[..n - 1] + [current.(top := Some(count))]));
        }
        if requiresAggregation {
          return Err(NeedsAggregation);
        }
        return if plan.top.Some? then Err(MultipleTop) else Ok(plan.(top := Some(count)));
      case Bottom =>
        return Err(BottomUnsupported);
    }
  }

  // ------------------------------------------------------------------ what pipelines and plans compute

  /** The meaning of the parts a pipeline is made of, on rows of any type. */
  datatype Meaning<!R> = Meaning(
    holds: (Expr, R) -> bool,
    group: (Spec, seq<R>) -> seq<R>,
    sort: (seq<OrderItem>, seq<R>) -> seq<R>)

  function Keep<R>(m: Meaning<R>, e: Expr, rows: seq<R>): seq<R> {
    if rows == [] then [] else (if m.holds(e, rows[0]) then [rows[0]] else []) + Keep(m, e, rows[1..])
  }

  /** Sorting by nothing leaves the rows alone. */
  function Sort<R>(m: Meaning<R>, items: seq<OrderItem>, rows: seq<R>): seq<R> {
    if items == [] then rows else m.sort(items, rows)
  }

  function Drop<R>(rows: seq<R>, n: nat): seq<R> {
    if n <= |rows| then rows[n..] else []
  }

  function Take<R>(rows: seq<R>, n: nat): seq<R> {
    if n <= |rows| then rows[..n] else rows
  }

  /** One transformation, as the pipeline means it. */
  function Apply<R>(m: Meaning<R>, t: Transformation, rows: seq<R>): seq<R> {
    match t
    case Filter(e) => Keep(m, e, rows)
    case GroupBy(keys, aggregates) => m.group(Spec(keys, aggregates), rows)
    case Aggregate(expressions) => m.group(Spec([], expressions), rows)
    case OrderBy(items) => Sort(m, items, rows)
    case Skip(n) => Drop(rows, n)
    case Top(n) => Take(rows, n)
    case Bottom => rows
  }

  function RunPipeline<R>(m: Meaning<R>, ts: seq<Transformation>, rows: seq<R>): seq<R>
    decreases |ts|
  {
    if ts == [] then rows else RunPipeline(m, ts[1..], Apply(m, ts[0], rows))
  }

  predicate WhereHolds<R>(m: Meaning<R>, w: Where, row: R) {
    match w
    case Translated(e) => m.holds(e, row)
    case Both(a, b) => WhereHolds(m, a, row) && WhereHolds(m, b, row)
  }

  function KeepWhere<R>(m: Meaning<R>, w: Where, rows: seq<R>): seq<R> {
    if rows == [] then [] else (if WhereHolds(m, w, rows[0]) then [rows[0]] else []) + KeepWhere(m, w, rows[1..])
  }

  function KeepAll<R>(m: Meaning<R>, es: seq<Expr>, rows: seq<R>): seq<R> {
    if es == [] then rows else Keep(m, es[|es| - 1], KeepAll(m, es[..|es| - 1], rows))
  }

  function Paged<R>(m: Meaning<R>, orderBy: seq<OrderItem>, skip: Option<nat>, top: Option<nat>, rows: seq<R>): seq<R> {
    var sorted := Sort(m, orderBy, rows);
    var rest := if skip.Some? then Drop(sorted, skip.value) else sorted;
    if top.Some? then Take(rest, top.value) else rest
  }

  /** Group, having, order, offset, limit. */
  function RunStage<R>(m: Meaning<R>, s: Stage, rows: seq<R>): seq<R> {
    Paged(m, s.orderBy, s.skip, s.top, KeepAll(m, s.filters, m.group(s.spec, rows)))
  }

  function RunStages<R>(m: Meaning<R>, stages: seq<Stage>, rows: seq<R>): seq<R> {
    if stages == [] then rows
    else RunStage(m, stages[|stages| - 1], RunStages(m, stages[..|stages| - 1], rows))
  }

  /** The repository filter, then the filters it could not carry. */
  function FilteredSource<R>(m: Meaning<R>, p: Plan, rows: seq<R>): seq<R> {
    KeepAll(m, p.preFilters, if p.pushdownWhere.Some? then KeepWhere(m, p.pushdownWhere.value, rows) else rows)
  }

  function RunPlan<R>(m: Meaning<R>, p: Plan, rows: seq<R>): seq<R> {
    Paged(m, p.orderBy, p.skip, p.top, RunStages(m, p.stages, FilteredSource(m, p, rows)))
  }

  // ------------------------------------------------------------------ filters commute

  lemma {:induction false} KeepCommutes<R>(m: Meaning<R>, a: Expr, b: Expr, rows: seq<R>)
    ensures Keep(m, a, Keep(m, b, rows)) == Keep(m, b, Keep(m, a, rows))
    decreases |rows|
  {
    if rows != [] {
      KeepCommutes(m, a, b, rows[1..]);
      KeepFirst(m, a, rows[0], Keep(m, b, rows[1..]));
      KeepFirst(m, b, rows[0], Keep(m, a, rows[1..]));
      NothingBefore(Keep(m, a, rows[1..]));
      NothingBefore(Keep(m, b, rows[1..]));
    }
  }

  lemma KeepFirst<R>(m: Meaning<R>, e: Expr, row: R, rows: seq<R>)
    ensures Keep(m, e, [row] + rows) == (if m.holds(e, row) then [row] + Keep(m, e, rows) else Keep(m, e, rows))
  {
    assert ([row] + rows)[1..] == rows;
    NothingBefore(Keep(m, e, rows));
  }

  lemma NothingBefore<R>(rows: seq<R>)
    ensures [] + rows == rows
  {
  }

  lemma {:induction false} KeepAllCommutes<R>(m: Meaning<R>, es: seq<Expr>, e: Expr, rows: seq<R>)
    ensures KeepAll(m, es, Keep(m, e, rows)) == Keep(m, e, KeepAll(m, es, rows))
    decreases |es|
  {
    hide Keep;
    if es != [] {
      KeepAllCommutes(m, es[..|es| - 1], e, rows);
      KeepCommutes(m, es[|es| - 1], e, KeepAll(m, es[..|es| - 1], rows));
    }
  }

  lemma KeepAllSnoc<R>(m: Meaning<R>, es: seq<Expr>, e: Expr, rows: seq<R>)
    ensures KeepAll(m, es + [e], rows) == Keep(m, e, KeepAll(m, es, rows))
  {
    hide Keep;
    assert (es + [e])[..|es|] == es;
  }

  lemma {:induction false} KeepTranslated<R>(m: Meaning<R>, e: Expr, rows: seq<R>)
    ensures KeepWhere(m, Translated(e), rows) == Keep(m, e, rows)
    decreases |rows|
  {
    if rows != [] {
      KeepTranslated(m, e, rows[1..]);
    }
  }

  lemma {:induction false} KeepBoth<R>(m: Meaning<R>, w: Where, e: Expr, rows: seq<R>)
    ensures KeepWhere(m, Both(w, Translated(e)), rows) == Keep(m, e, KeepWhere(m, w, rows))
    decreases |rows|
  {
    if rows != [] {
      KeepBoth(m, w, e, rows[1..]);
      var both := Both(w, Translated(e));
      assert WhereHolds(m, both, rows[0]) == (WhereHolds(m, w, rows[0]) && m.holds(e, rows[0]));
      KeepFirst(m, e, rows[0], KeepWhere(m, w, rows[1..]));
      NothingBefore(KeepWhere(m, w, rows[1..]));
      NothingBefore(Keep(m, e, KeepWhere(m, w, rows[1..])));
    }
  }

  // ------------------------------------------------------------------ canonical pipelines

  /** Position of a transformation within its stage. */
  function Rank(t: Transformation): nat {
    match t
    case Filter(_) => 0
    case OrderBy(_) => 1
    case Skip(_) => 2
    case Top(_) => 3
    case _ => 4
  }

  /** Each stage lists its filters, then its sorting, then skip, then top. */
  predicate Canonical(ts: seq<Transformation>, last: nat)
    decreases |ts|
  {
    ts == [] ||
    (if IsAggregation(ts[0]) then Canonical(ts[1..], 0)
     else last <= Rank(ts[0]) && Canonical(ts[1..], Rank(ts[0])))
  }

  /** What a stage cannot hold yet when the last transformation had this rank. */
  predicate NothingLater(orderBy: seq<OrderItem>, skip: Option<nat>, top: Option<nat>, last: nat) {
    && (last < 1 ==> orderBy == [])
    && (last < 2 ==> skip == None)
    && (last < 3 ==> top == None)
  }

  predicate Ready(p: Plan, aggregated: bool, last: nat) {
    && (if p.stages != []
        then NothingLater(LastStage(p).orderBy, LastStage(p).skip, LastStage(p).top, last)
        else NothingLater(p.orderBy, p.skip, p.top, last))
    && (aggregated || p.stages != [] ==> p.orderBy == [] && p.skip == None && p.top == None)
  }

  lemma StagesSnoc<R>(m: Meaning<R>, stages: seq<Stage>, s: Stage, rows: seq<R>)
    ensures RunStages(m, stages + [s], rows) == RunStage(m, s, RunStages(m, stages, rows))
  {
    hide RunStage;
    assert (stages + [s])[..|stages|] == stages;
  }

  /** A filter at the source is the same before or after the filters already there. */
  lemma SourceFilter<R>(m: Meaning<R>, o: Options, p: Plan, e: Expr, rows: seq<R>)
    requires p.stages == [] && AddFilter(o, p, e).Ok?
    ensures FilteredSource(m, AddFilter(o, p, e).value, rows) == Keep(m, e, FilteredSource(m, p, rows))
  {
    hide Keep, KeepAll, KeepWhere;
    if o.translates(e) {
      if p.pushdownWhere.None? {
        KeepTranslated(m, e, rows);
        KeepAllCommutes(m, p.preFilters, e, rows);
      } else {
        KeepBoth(m, p.pushdownWhere.value, e, rows);
        KeepAllCommutes(m, p.preFilters, e, KeepWhere(m, p.pushdownWhere.value, rows));
      }
    } else {
      KeepAllSnoc(m, p.preFilters, e, if p.pushdownWhere.Some? then KeepWhere(m, p.pushdownWhere.value, rows) else rows);
    }
  }

  /** In canonical position, adding a transformation to the plan is applying it to the plan's
      result. */
  lemma StepIsFaithful<R>(m: Meaning<R>, o: Options, aggregated: bool, p: Plan, t: Transformation, last: nat, rows: seq<R>)
    requires Ready(p, aggregated, last) && AddStep(o, aggregated, p, t).Ok?
    requires IsAggregation(t) ==> aggregated
    requires !IsAggregation(t) ==> last <= Rank(t)
    ensures var next := AddStep(o, aggregated, p, t).value;
            && RunPlan(m, next, rows) == Apply(m, t, RunPlan(m, p, rows))
            && Ready(next, aggregated, if IsAggregation(t) then 0 else Rank(t))
  {
    if IsAggregation(t) {
      StartIsFaithful(m, o, aggregated, p, t, last, rows);
    } else if p.stages != [] {
      StageStepIsFaithful(m, o, aggregated, p, t, last, rows);
    } else {
      PlanStepIsFaithful(m, o, aggregated, p, t, last, rows);
    }
  }

  lemma StartIsFaithful<R>(m: Meaning<R>, o: Options, aggregated: bool, p: Plan, t: Transformation, last: nat, rows: seq<R>)
    requires Ready(p, aggregated, last) && IsAggregation(t) && aggregated
    ensures var next := AddStep(o, aggregated, p, t).value;
            && RunPlan(m, next, rows) == Apply(m, t, RunPlan(m, p, rows))
            && Ready(next, aggregated, 0)
  {
    hide RunStages, KeepWhere, Keep, Drop, Take;
    var s := if t.GroupBy? then NewStage(t.keys, t.aggregates) else NewStage([], t.expressions);
    var source := FilteredSource(m, p, rows);
    hide FilteredSource;
    StagesSnoc(m, p.stages, s, source);
  }

  lemma StageStepIsFaithful<R>(m: Meaning<R>, o: Options, aggregated: bool, p: Plan, t: Transformation, last: nat, rows: seq<R>)
    requires Ready(p, aggregated, last) && AddStep(o, aggregated, p, t).Ok?
    requires p.stages != [] && !IsAggregation(t) && last <= Rank(t)
    ensures var next := AddStep(o, aggregated, p, t).value;
            && RunPlan(m, next, rows) == Apply(m, t, RunPlan(m, p, rows))
            && Ready(next, aggregated, Rank(t))
  {
    hide RunStages, KeepWhere, Keep, FilteredSource, KeepAll;
    var init, s := p.stages[..|p.stages| - 1], LastStage(p);
    var next := AddStep(o, aggregated, p, t).value;
    var s' := LastStage(next);
    var source := FilteredSource(m, p, rows);
    var before := RunStages(m, init, source);
    assert p.stages == init + [s] && next.stages == init + [s'];
    StagesSnoc(m, init, s, source);
    StagesSnoc(m, init, s', source);
    SameSource(m, p, next, rows);
    if t.Filter? {
      KeepAllSnoc(m, s.filters, t.expr, m.group(s.spec, before));
    }
  }

  lemma SameSource<R>(m: Meaning<R>, p: Plan, q: Plan, rows: seq<R>)
    requires p.pushdownWhere == q.pushdownWhere && p.preFilters == q.preFilters
    ensures FilteredSource(m, p, rows) == FilteredSource(m, q, rows)
  {
  }

  lemma PlanStepIsFaithful<R>(m: Meaning<R>, o: Options, aggregated: bool, p: Plan, t: Transformation, last: nat, rows: seq<R>)
    requires Ready(p, aggregated, last) && AddStep(o, aggregated, p, t).Ok?
    requires p.stages == [] && !IsAggregation(t) && last <= Rank(t)
    ensures var next := AddStep(o, aggregated, p, t).value;
            && RunPlan(m, next, rows) == Apply(m, t, RunPlan(m, p, rows))
            && Ready(next, aggregated, Rank(t))
  {
    hide KeepWhere, Keep, KeepAll, FilteredSource, AddFilter;
    var next := AddStep(o, aggregated, p, t).value;
    if t.Filter? {
      SourceFilter(m, o, p, t.expr, rows);
      FilterKeepsPaging(o, p, t.expr);
    } else {
      SameSource(m, p, next, rows);
    }
  }

  lemma FilterKeepsPaging(o: Options, p: Plan, e: Expr)
    requires p.stages == [] && AddFilter(o, p, e).Ok?
    ensures var q := AddFilter(o, p, e).value;
            q.stages == [] && q.orderBy == p.orderBy && q.skip == p.skip && q.top == p.top
  {
  }

  lemma {:induction false} StepsAreFaithful<R>(m: Meaning<R>, o: Options, aggregated: bool, p: Plan, ts: seq<Transformation>,
                                               last: nat, rows: seq<R>)
    requires Ready(p, aggregated, last) && Canonical(ts, last) && AddSteps(o, aggregated, p, ts).Ok?
    requires forall i :: 0 <= i < |ts| && IsAggregation(ts[i]) ==> aggregated
    ensures RunPlan(m, AddSteps(o, aggregated, p, ts).value, rows) == RunPipeline(m, ts, RunPlan(m, p, rows))
    decreases |ts|
  {
    hide Ready, AddStep, RunPlan, Apply;
    if ts != [] {
      var next := AddStep(o, aggregated, p, ts[0]).value;
      StepIsFaithful(m, o, aggregated, p, ts[0], last, rows);
      assert forall i :: 0 <= i < |ts[1..]| ==> ts[1..][i] == ts[i + 1];
      StepsAreFaithful(m, o, aggregated, next, ts[1..], if IsAggregation(ts[0]) then 0 else Rank(ts[0]), rows);
    }
  }

  /** Planning preserves meaning: the plan made of a canonical pipeline computes, on all rows,
      what the pipeline computes step by step; filters carried by the repository and filters left
      to the plan may interleave freely. */
  lemma PlanningPreservesMeaning<R>(m: Meaning<R>, o: Options, pipeline: seq<Transformation>, rows: seq<R>)
    requires Canonical(pipeline, 0) && PlanOf(o, pipeline).Ok?
    ensures RunPlan(m, PlanOf(o, pipeline).value, rows) == RunPipeline(m, pipeline, rows)
  {
    hide AddSteps, RunPipeline, Canonical;
    StepsAreFaithful(m, o, ContainsAggregation(pipeline), EMPTY_PLAN, pipeline, 0, rows);
    assert RunPlan(m, EMPTY_PLAN, rows) == rows;
  }

  // ------------------------------------------------------------------ pipelines in any order

  /** Moves a transformation behind those of its stage that a plan performs before it. */
  function Insert(t: Transformation, ts: seq<Transformation>): seq<Transformation>
    decreases |ts|
  {
    if ts == [] || IsAggregation(t) || IsAggregation(ts[0]) || Rank(t) <= Rank(ts[0]) then [t] + ts
    else [ts[0]] + Insert(t, ts[1..])
  }

  /** The pipeline with every stage put in canonical order; equal kinds keep their order. */
  function Rearranged(ts: seq<Transformation>): seq<Transformation> {
    if ts == [] then [] else Insert(ts[0], Rearranged(ts[1..]))
  }

  predicate Alike(a: Result<Plan, PlanError>, b: Result<Plan, PlanError>) {
    a == b || (a.Err? && b.Err?)
  }

  function Two(o: Options, aggregated: bool, p: Plan, t: Transformation, u: Transformation): Result<Plan, PlanError> {
    var first := AddStep(o, aggregated, p, t);
    if first.Err? then first else AddStep(o, aggregated, first.value, u)
  }

  /** A step within a stage, seen on the stage alone. */
  function StageStep(s: Stage, t: Transformation): Result<Stage, PlanError> {
    match t
    case Filter(e) => Ok(s.(filters := s.filters + [e]))
    case OrderBy(items) => if s.orderBy != [] then Err(MultipleOrderBy) else Ok(s.(orderBy := items))
    case Skip(n) => if s.skip.Some? then Err(MultipleSkip) else Ok(s.(skip := Some(n)))
    case Top(n) => if s.top.Some? then Err(MultipleTop) else Ok(s.(top := Some(n)))
    case _ => Err(BottomUnsupported)
  }

  lemma StepOnStage(o: Options, aggregated: bool, p: Plan, t: Transformation)
    requires p.stages != [] && !IsAggregation(t)
    ensures var next := StageStep(LastStage(p), t);
            AddStep(o, aggregated, p, t) == if next.Err? then Err(next.error) else Ok(WithStage(p, next.value))
  {
  }

  lemma WithStageTwice(p: Plan, s: Stage, s': Stage)
    requires p.stages != []
    ensures LastStage(WithStage(p, s)) == s && WithStage(WithStage(p, s), s') == WithStage(p, s')
  {
    assert WithStage(p, s).stages[..|p.stages| - 1] == p.stages[..|p.stages| - 1];
  }

  lemma StageStepsSwap(o: Options, aggregated: bool, p: Plan, t: Transformation, u: Transformation)
    requires p.stages != [] && !IsAggregation(t) && !IsAggregation(u) && Rank(u) < Rank(t)
    ensures Alike(Two(o, aggregated, p, t, u), Two(o, aggregated, p, u, t))
  {
    hide AddStep, WithStage, LastStage;
    var s := LastStage(p);
    StepOnStage(o, aggregated, p, t);
    StepOnStage(o, aggregated, p, u);
    var st, su := StageStep(s, t), StageStep(s, u);
    if st.Ok? {
      SecondStep(o, aggregated, p, st.value, u);
    }
    if su.Ok? {
      SecondStep(o, aggregated, p, su.value, t);
    }
  }

  lemma SecondStep(o: Options, aggregated: bool, p: Plan, s: Stage, t: Transformation)
    requires p.stages != [] && !IsAggregation(t)
    ensures var next := StageStep(s, t);
            AddStep(o, aggregated, WithStage(p, s), t) ==
            if next.Err? then Err(next.error) else Ok(WithStage(p, next.value))
  {
    hide AddStep, StageStep;
    StepOnStage(o, aggregated, WithStage(p, s), t);
    WithStageTwice(p, s, s);
    if StageStep(s, t).Ok? {
      WithStageTwice(p, s, StageStep(s, t).value);
    }
  }

  lemma StepsSwap(o: Options, aggregated: bool, p: Plan, t: Transformation, u: Transformation)
    requires !IsAggregation(t) && !IsAggregation(u) && Rank(u) < Rank(t)
    ensures Alike(Two(o, aggregated, p, t, u), Two(o, aggregated, p, u, t))
  {
    if p.stages != [] {
      StageStepsSwap(o, aggregated, p, t, u);
    }
  }

  lemma StepsUnfold(o: Options, aggregated: bool, p: Plan, t: Transformation, ts: seq<Transformation>)
    ensures var first := AddStep(o, aggregated, p, t);
            AddSteps(o, aggregated, p, [t] + ts) ==
            if first.Err? then Err(first.error) else AddSteps(o, aggregated, first.value, ts)
  {
    hide AddStep;
    assert ([t] + ts)[1..] == ts;
  }

  lemma {:induction false} InsertPlansAlike(o: Options, aggregated: bool, p: Plan, t: Transformation, ts: seq<Transformation>)
    ensures Alike(AddSteps(o, aggregated, p, Insert(t, ts)), AddSteps(o, aggregated, p, [t] + ts))
    decreases |ts|
  {
    hide AddStep, AddSteps, Rank, IsAggregation;
    if !(ts == [] || IsAggregation(t) || IsAggregation(ts[0]) || Rank(t) <= Rank(ts[0])) {
      var u, rest := ts[0], ts[1..];
      assert ts == [u] + rest;
      StepsSwap(o, aggregated, p, t, u);
      StepsUnfold(o, aggregated, p, t, ts);
      StepsUnfold(o, aggregated, p, u, Insert(t, rest));
      var one, other := AddStep(o, aggregated, p, t), AddStep(o, aggregated, p, u);
      if one.Ok? {
        StepsUnfold(o, aggregated, one.value, u, rest);
      }
      if other.Ok? {
        InsertPlansAlike(o, aggregated, other.value, t, rest);
        StepsUnfold(o, aggregated, other.value, t, rest);
      }
    }
  }

  lemma {:induction false} RearrangedPlansAlike(o: Options, aggregated: bool, p: Plan, ts: seq<Transformation>)
    ensures Alike(AddSteps(o, aggregated, p, Rearranged(ts)), AddSteps(o, aggregated, p, ts))
    decreases |ts|
  {
    hide AddStep, AddSteps, Insert;
    if ts != [] {
      var t, rest := ts[0], ts[1..];
      assert ts == [t] + rest;
      InsertPlansAlike(o, aggregated, p, t, Rearranged(rest));
      StepsUnfold(o, aggregated, p, t, rest);
      StepsUnfold(o, aggregated, p, t, Rearranged(rest));
      var first := AddStep(o, aggregated, p, t);
      if first.Ok? {
        RearrangedPlansAlike(o, aggregated, first.value, rest);
      }
    }
  }

  lemma {:induction false} InsertIsCanonical(t: Transformation, ts: seq<Transformation>, last: nat)
    requires Canonical(ts, 0) && (ts != [] && !IsAggregation(ts[0]) ==> Canonical(ts, last)) && last <= Rank(t)
    ensures Canonical(Insert(t, ts), last)
    decreases |ts|
  {
    if ts == [] || IsAggregation(t) || IsAggregation(ts[0]) || Rank(t) <= Rank(ts[0]) {
      assert ([t] + ts)[1..] == ts;
    } else {
      var u, rest := ts[0], ts[1..];
      CanonicalFrom(rest, Rank(u), 0);
      InsertIsCanonical(t, rest, Rank(u));
      assert ([u] + Insert(t, rest))[1..] == Insert(t, rest);
    }
  }

  lemma CanonicalFrom(ts: seq<Transformation>, last: nat, less: nat)
    requires Canonical(ts, last) && less <= last
    ensures Canonical(ts, less)
  {
  }

  lemma {:induction false} RearrangedIsCanonical(ts: seq<Transformation>)
    ensures Canonical(Rearranged(ts), 0)
    decreases |ts|
  {
    if ts != [] {
      RearrangedIsCanonical(ts[1..]);
      InsertIsCanonical(ts[0], Rearranged(ts[1..]), 0);
    }
  }

  lemma {:induction false} RearrangedSame(ts: seq<Transformation>, last: nat)
    requires Canonical(ts, last)
    ensures Rearranged(ts) == ts
    decreases |ts|
  {
    if ts != [] {
      RearrangedSame(ts[1..], if IsAggregation(ts[0]) then 0 else Rank(ts[0]));
      assert ts == [ts[0]] + ts[1..];
    }
  }

  lemma {:induction false} InsertKeeps(t: Transformation, ts: seq<Transformation>)
    ensures multiset(Insert(t, ts)) == multiset([t] + ts)
    decreases |ts|
  {
    hide IsAggregation, Rank;
    if ts != [] {
      InsertKeeps(t, ts[1..]);
      assert ts == [ts[0]] + ts[1..];
    }
  }

  lemma {:induction false} RearrangedKeeps(ts: seq<Transformation>)
    ensures multiset(Rearranged(ts)) == multiset(ts)
    decreases |ts|
  {
    hide Insert;
    if ts != [] {
      RearrangedKeeps(ts[1..]);
      InsertKeeps(ts[0], Rearranged(ts[1..]));
      assert ts == [ts[0]] + ts[1..];
    }
  }

  lemma AggregationKept(ts: seq<Transformation>, us: seq<Transformation>)
    requires multiset(ts) == multiset(us) && ContainsAggregation(ts)
    ensures ContainsAggregation(us)
  {
    var i :| 0 <= i < |ts| && IsAggregation(ts[i]);
    assert ts[i] in multiset(ts);
    assert ts[i] in us;
  }

  /** What the plan of any pipeline computes: exactly what the pipeline computes once every stage
      is put in canonical order. So nothing is dropped or duplicated, and a pipeline already in
      canonical order keeps its meaning. */
  lemma PlanMeansRearranged<R>(m: Meaning<R>, o: Options, pipeline: seq<Transformation>, rows: seq<R>)
    ensures Canonical(Rearranged(pipeline), 0) && multiset(Rearranged(pipeline)) == multiset(pipeline)
    ensures Canonical(pipeline, 0) ==> Rearranged(pipeline) == pipeline
    ensures PlanOf(o, Rearranged(pipeline)).Ok? <==> PlanOf(o, pipeline).Ok?
    ensures PlanOf(o, pipeline).Ok? ==>
              RunPlan(m, PlanOf(o, pipeline).value, rows) == RunPipeline(m, Rearranged(pipeline), rows)
  {
    hide AddSteps, RunPipeline, Canonical, Rearranged, RunPlan;
    var other := Rearranged(pipeline);
    RearrangedIsCanonical(pipeline);
    RearrangedKeeps(pipeline);
    if Canonical(pipeline, 0) {
      RearrangedSame(pipeline, 0);
    }
    SameLength(pipeline, other);
    if ContainsAggregation(pipeline) {
      AggregationKept(pipeline, other);
    } else if ContainsAggregation(other) {
      AggregationKept(other, pipeline);
    }
    RearrangedPlansAlike(o, ContainsAggregation(pipeline), EMPTY_PLAN, pipeline);
    if PlanOf(o, pipeline).Ok? {
      PlanningPreservesMeaning(m, o, other, rows);
    }
  }

  lemma SameLength(ts: seq<Transformation>, us: seq<Transformation>)
    requires multiset(ts) == multiset(us)
    ensures |ts| == |us|
  {
    assert |multiset(ts)| == |ts| && |multiset(us)| == |us|;
  }

  const EVEN: Expr := Expr("even")
  const EVEN_ONLY: Meaning<int> := Meaning((e, x) => x == 2, (s, rows) => rows, (items, rows) => rows)

  lemma TopThenFilterPlanned(o: Options)
    ensures PlanOf(o, [Aggregate([]), Top(1), Filter(EVEN)]) ==
            Ok(EMPTY_PLAN.(stages := [Stage(Spec([], []), [EVEN], [], None, Some(1))]))
  {
    var pipeline := [Aggregate([]), Top(1), Filter(EVEN)];
    assert IsAggregation(pipeline[0]);
    var s := NewStage([], []);
    var p1 := EMPTY_PLAN.(stages := [s]);
    StepsUnfold(o, true, EMPTY_PLAN, Aggregate([]), [Top(1), Filter(EVEN)]);
    StepsUnfold(o, true, p1, Top(1), [Filter(EVEN)]);
    StepOnStage(o, true, p1, Top(1));
    var p2 := EMPTY_PLAN.(stages := [s.(top := Some(1))]);
    StepsUnfold(o, true, p2, Filter(EVEN), []);
    StepOnStage(o, true, p2, Filter(EVEN));
    assert EMPTY_PLAN.stages + [s] == [s] && s.filters + [EVEN] == [EVEN];
    assert pipeline == [Aggregate([])] + [Top(1), Filter(EVEN)];
    assert [Top(1), Filter(EVEN)] == [Top(1)] + [Filter(EVEN)];
    assert [Filter(EVEN)] == [Filter(EVEN)] + [];
    assert WithStage(p1, s.(top := Some(1))) == p2;
    assert AddSteps(o, true, p2, [Filter(EVEN)]) == Ok(WithStage(p2, s.(top := Some(1), filters := [EVEN])));
    assert WithStage(p2, s.(top := Some(1), filters := [EVEN])).stages == [s.(top := Some(1), filters := [EVEN])];
  }

  /** A pipeline out of canonical order is planned too, but to something else: the top of a stage
      is taken after its filters, wherever it was written. */
  lemma OrderForgotten(o: Options)
    ensures var pipeline := [Aggregate([]), Top(1), Filter(EVEN)];
            && PlanOf(o, pipeline).Ok?
            && RunPipeline(EVEN_ONLY, pipeline, [1, 2]) == []
            && RunPlan(EVEN_ONLY, PlanOf(o, pipeline).value, [1, 2]) == [2]
  {
    TopThenFilterPlanned(o);
    hide PlanOf;
    var m := EVEN_ONLY;
    var t1, t2 := Top(1), Filter(EVEN);
    assert [Aggregate([]), t1, t2][1..] == [t1, t2] && [t1, t2][1..] == [t2];
    assert Keep(m, EVEN, [2]) == [2] by { assert [2][1..] == []; }
    assert Keep(m, EVEN, [1, 2]) == [2] by { assert [1, 2][1..] == [2]; }
    assert Keep(m, EVEN, [1]) == [] by { assert [1][1..] == []; }
    assert RunPipeline(m, [t2], [1]) == [];
    assert RunPipeline(m, [t1, t2], [1, 2]) == [];
    var s := Stage(Spec([], []), [EVEN], [], None, Some(1));
    assert KeepAll(m, [EVEN], [1, 2]) == [2] by { assert KeepAll(m, [EVEN][..0], [1, 2]) == [1, 2]; }
    assert RunStages(m, [s], [1, 2]) == [2] by { assert RunStages(m, [s][..0], [1, 2]) == [1, 2]; }
  }
}
