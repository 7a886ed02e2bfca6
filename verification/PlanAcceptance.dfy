/** Which pipelines the planner plans, and which of their filters it hands to the repository. */
module PlanAcceptance {
  import opened ByteStrings
  import opened ApplyPlanner

  // ------------------------------------------------------------------ which pipelines are planned

  predicate IsPaging(t: Transformation) {
    t.OrderBy? || t.Skip? || t.Top?
  }

  /** Position `j` and the end of `ts` belong to one stage. */
  predicate InLastStage(ts: seq<Transformation>, j: nat) {
    forall k :: j < k < |ts| ==> !IsAggregation(ts[k])
  }

  /** `t` may not follow `before` in one stage: a second skip, a second top, or any sorting after one that
      sorts by something. */
  predicate Conflicts(before: Transformation, t: Transformation) {
    (t.Skip? && before.Skip?) || (t.Top? && before.Top?) || (t.OrderBy? && before.OrderBy? && before.items != [])
  }

  predicate Repeated(ts: seq<Transformation>, t: Transformation) {
    exists j :: 0 <= j < |ts| && InLastStage(ts, j) && Conflicts(ts[j], t)
  }

  /** Transformation `t` behind `before` fits into a plan of a pipeline that aggregates or does not. */
  predicate Allowed(o: Options, aggregated: bool, before: seq<Transformation>, t: Transformation) {
    && !t.Bottom?
    && (IsPaging(t) ==> !Repeated(before, t) && (aggregated ==> ContainsAggregation(before)))
    && (t.Filter? && o.strict && !o.translates(t.expr) ==> ContainsAggregation(before))
  }

  predicate Plannable(o: Options, pipeline: seq<Transformation>) {
    && pipeline != []
    && forall i :: 0 <= i < |pipeline| ==> Allowed(o, ContainsAggregation(pipeline), pipeline[..i], pipeline[i])
  }

  // ------------------------------------------------------------------ what the plan so far stands for

  function CurrentOrder(p: Plan): seq<OrderItem> {
    if p.stages == [] then p.orderBy else LastStage(p).orderBy
  }

  function CurrentSkip(p: Plan): Option<nat> {
    if p.stages == [] then p.skip else LastStage(p).skip
  }

  function CurrentTop(p: Plan): Option<nat> {
    if p.stages == [] then p.top else LastStage(p).top
  }

  /** The plan remembers whether a transformation would be one too many. */
  ghost predicate Tracks(p: Plan, done: seq<Transformation>) {
    && (p.stages != [] <==> ContainsAggregation(done))
    && (CurrentOrder(p) != [] <==> Repeated(done, OrderBy([])))
    && (CurrentSkip(p).Some? <==> Repeated(done, Skip(0)))
    && (CurrentTop(p).Some? <==> Repeated(done, Top(0)))
  }

  lemma RepeatedByKind(done: seq<Transformation>, t: Transformation)
    ensures t.OrderBy? ==> (Repeated(done, t) <==> Repeated(done, OrderBy([])))
    ensures t.Skip? ==> (Repeated(done, t) <==> Repeated(done, Skip(0)))
    ensures t.Top? ==> (Repeated(done, t) <==> Repeated(done, Top(0)))
  {
    assert forall j :: 0 <= j < |done| && t.OrderBy? ==> (Conflicts(done[j], t) <==> Conflicts(done[j], OrderBy([])));
    assert forall j :: 0 <= j < |done| && t.Skip? ==> (Conflicts(done[j], t) <==> Conflicts(done[j], Skip(0)));
    assert forall j :: 0 <= j < |done| && t.Top? ==> (Conflicts(done[j], t) <==> Conflicts(done[j], Top(0)));
  }

  /** One more transformation: an aggregation begins a stage, anything else adds to it. */
  lemma RepeatedMore(done: seq<Transformation>, t: Transformation, u: Transformation)
    ensures Repeated(done + [t], u) <==> Conflicts(t, u) || (!IsAggregation(t) && Repeated(done, u))
  {
    var more := done + [t];
    hide Conflicts;
    assert more[|done|] == t && InLastStage(more, |done|);
    forall j | 0 <= j < |done| ensures InLastStage(more, j) <==> !IsAggregation(t) && InLastStage(done, j) {
      assert forall k :: j < k < |done| ==> more[k] == done[k];
    }
    forall j | 0 <= j < |done| ensures more[j] == done[j] {
    }
  }

  lemma AggregatedMore(done: seq<Transformation>, t: Transformation)
    ensures ContainsAggregation(done + [t]) <==> IsAggregation(t) || ContainsAggregation(done)
  {
    var more := done + [t];
    assert more[|done|] == t && forall j :: 0 <= j < |done| ==> more[j] == done[j];
  }

  /** A step succeeds exactly when the transformation is allowed, and the plan keeps track. */
  lemma StepTracks(o: Options, aggregated: bool, p: Plan, done: seq<Transformation>, t: Transformation)
    requires Tracks(p, done)
    ensures var next := AddStep(o, aggregated, p, t);
            (next.Ok? <==> Allowed(o, aggregated, done, t)) && (next.Ok? ==> Tracks(next.value, done + [t]))
  {
    hide Repeated, ContainsAggregation;
    RepeatedByKind(done, t);
    AggregatedMore(done, t);
    RepeatedMore(done, t, OrderBy([]));
    RepeatedMore(done, t, Skip(0));
    RepeatedMore(done, t, Top(0));
  }

  lemma {:induction false} StepsTrack(o: Options, aggregated: bool, p: Plan, done: seq<Transformation>, ts: seq<Transformation>)
    requires Tracks(p, done)
    ensures AddSteps(o, aggregated, p, ts).Ok? <==> forall i :: 0 <= i < |ts| ==> Allowed(o, aggregated, done + ts[..i], ts[i])
    decreases |ts|
  {
    hide Tracks, Allowed, AddStep;
    if ts != [] {
      StepTracks(o, aggregated, p, done, ts[0]);
      assert done + ts[..0] == done;
      var next := AddStep(o, aggregated, p, ts[0]);
      if next.Ok? {
        StepsTrack(o, aggregated, next.value, done + [ts[0]], ts[1..]);
        forall i | 1 <= i < |ts| ensures done + ts[..i] == (done + [ts[0]]) + ts[1..][..i - 1] && ts[i] == ts[1..][i - 1] {
        }
        assert forall i :: 0 <= i < |ts[1..]| ==> (done + [ts[0]]) + ts[1..][..i] == done + ts[..i + 1] && ts[1..][i] == ts[i + 1];
      }
    }
  }

  /** A pipeline is planned exactly when it is not empty, holds no `bottom`, sorts and pages only behind an
      aggregation if it has one, at most once in each stage, and - in strict mode - filters its
      source only by what the repository can carry. */
  lemma PlannedExactly(o: Options, pipeline: seq<Transformation>)
    ensures PlanOf(o, pipeline).Ok? <==> Plannable(o, pipeline)
  {
    hide Allowed, AddSteps, ContainsAggregation;
    if pipeline != [] {
      NothingTracked();
      StepsTrack(o, ContainsAggregation(pipeline), EMPTY_PLAN, [], pipeline);
      assert forall i :: 0 <= i < |pipeline| ==> [] + pipeline[..i] == pipeline[..i];
    }
  }

  lemma NothingTracked()
    ensures Tracks(EMPTY_PLAN, [])
  {
  }

  // ------------------------------------------------------------------ which filters are pushed down

  /** The filters in front of the first aggregation, in order. */
  function LeadingFilters(ts: seq<Transformation>): seq<Expr> {
    if ts == [] || IsAggregation(ts[0]) then []
    else (if ts[0].Filter? then [ts[0].expr] else []) + LeadingFilters(ts[1..])
  }

  function Chosen(es: seq<Expr>, translates: Expr -> bool, want: bool): seq<Expr> {
    if es == [] then [] else (if translates(es[0]) == want then [es[0]] else []) + Chosen(es[1..], translates, want)
  }

  /** The expressions a repository filter is the conjunction of. */
  function Conjuncts(w: Where): seq<Expr> {
    match w
    case Translated(e) => [e]
    case Both(a, b) => Conjuncts(a) + Conjuncts(b)
  }

  function Pushed(p: Plan): seq<Expr> {
    if p.pushdownWhere.None? then [] else Conjuncts(p.pushdownWhere.value)
  }

  ghost predicate Divides(o: Options, p: Plan, done: seq<Transformation>) {
    && (p.stages != [] <==> ContainsAggregation(done))
    && Pushed(p) == Chosen(LeadingFilters(done), o.translates, true)
    && p.preFilters == Chosen(LeadingFilters(done), o.translates, false)
  }

  lemma {:induction false} LeadingMore(done: seq<Transformation>, t: Transformation)
    ensures LeadingFilters(done + [t]) ==
            if ContainsAggregation(done) || !t.Filter? then LeadingFilters(done) else LeadingFilters(done) + [t.expr]
    decreases |done|
  {
    hide ContainsAggregation;
    var more := done + [t];
    if done == [] {
      assert !ContainsAggregation(done) by { NothingAggregates(); }
      assert more == [t] && [t][1..] == [];
      assert LeadingFilters([t]) == if t.Filter? then [t.expr] + LeadingFilters([]) else [];
    } else {
      assert more[0] == done[0] && more[1..] == done[1..] + [t];
      if IsAggregation(done[0]) {
        Aggregates(done);
      } else {
        LeadingMore(done[1..], t);
        AggregatedRest(done);
        LeadingFirst(done);
        LeadingFirst(more);
      }
    }
  }

  lemma NothingAggregates()
    ensures !ContainsAggregation([])
  {
  }

  lemma Aggregates(ts: seq<Transformation>)
    requires ts != [] && IsAggregation(ts[0])
    ensures ContainsAggregation(ts)
  {
  }

  lemma LeadingFirst(ts: seq<Transformation>)
    requires ts != [] && !IsAggregation(ts[0])
    ensures LeadingFilters(ts) == (if ts[0].Filter? then [ts[0].expr] else []) + LeadingFilters(ts[1..])
  {
  }

  lemma AggregatedRest(done: seq<Transformation>)
    requires done != [] && !IsAggregation(done[0])
    ensures ContainsAggregation(done) <==> ContainsAggregation(done[1..])
  {
    assert forall i :: 1 <= i < |done| ==> done[i] == done[1..][i - 1];
    assert forall i :: 0 <= i < |done[1..]| ==> done[1..][i] == done[i + 1];
  }

  lemma {:induction false} ChosenMore(es: seq<Expr>, e: Expr, translates: Expr -> bool, want: bool)
    ensures Chosen(es + [e], translates, want) == Chosen(es, translates, want) + (if translates(e) == want then [e] else [])
    decreases |es|
  {
    if es == [] {
      assert es + [e] == [e] && [e][1..] == [];
    } else {
      assert (es + [e])[1..] == es[1..] + [e];
      ChosenMore(es[1..], e, translates, want);
    }
  }

  lemma StepDivides(o: Options, aggregated: bool, p: Plan, done: seq<Transformation>, t: Transformation)
    requires Divides(o, p, done) && AddStep(o, aggregated, p, t).Ok?
    ensures Divides(o, AddStep(o, aggregated, p, t).value, done + [t])
  {
    hide LeadingFilters, Chosen, ContainsAggregation;
    AggregatedMore(done, t);
    LeadingMore(done, t);
    if t.Filter? {
      ChosenMore(LeadingFilters(done), t.expr, o.translates, true);
      ChosenMore(LeadingFilters(done), t.expr, o.translates, false);
      if p.stages == [] && o.translates(t.expr) {
        PushedMore(p, t.expr);
        assert p.preFilters + [] == p.preFilters;
      } else if p.stages == [] {
        assert Pushed(p) + [] == Pushed(p);
      }
    }
  }

  lemma PushedMore(p: Plan, e: Expr)
    ensures Pushed(p.(pushdownWhere := Some(MergeWhere(p.pushdownWhere, Translated(e))))) == Pushed(p) + [e]
  {
    assert Conjuncts(Translated(e)) == [e];
    if p.pushdownWhere.Some? {
      assert Conjuncts(Both(p.pushdownWhere.value, Translated(e))) == Conjuncts(p.pushdownWhere.value) + [e];
    }
  }

  lemma {:induction false} StepsDivide(o: Options, aggregated: bool, p: Plan, done: seq<Transformation>, ts: seq<Transformation>)
    requires Divides(o, p, done) && AddSteps(o, aggregated, p, ts).Ok?
    ensures Divides(o, AddSteps(o, aggregated, p, ts).value, done + ts)
    decreases |ts|
  {
    hide Divides, AddStep;
    if ts == [] {
      assert done + ts == done;
    } else {
      StepDivides(o, aggregated, p, done, ts[0]);
      StepsDivide(o, aggregated, AddStep(o, aggregated, p, ts[0]).value, done + [ts[0]], ts[1..]);
      assert (done + [ts[0]]) + ts[1..] == done + ts;
    }
  }

  /** A filter of the source is handed to the repository exactly when it translates; the others are kept
      for later; both keep their order, and no filter is lost or doubled. */
  lemma PushedExactly(o: Options, pipeline: seq<Transformation>)
    requires PlanOf(o, pipeline).Ok?
    ensures var p, leading := PlanOf(o, pipeline).value, LeadingFilters(pipeline);
            Pushed(p) == Chosen(leading, o.translates, true) && p.preFilters == Chosen(leading, o.translates, false)
  {
    hide AddSteps, LeadingFilters, Chosen;
    assert Divides(o, EMPTY_PLAN, []) by { NothingDivided(o); }
    StepsDivide(o, ContainsAggregation(pipeline), EMPTY_PLAN, [], pipeline);
    assert [] + pipeline == pipeline;
  }

  lemma NothingDivided(o: Options)
    ensures Divides(o, EMPTY_PLAN, [])
  {
  }
}
