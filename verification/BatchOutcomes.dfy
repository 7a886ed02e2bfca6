/** What every request was answered, and why, told from the trace alone: the status of its own
    handler call, or the one reason for which it was not run. */
module BatchOutcomes {
  import opened ByteStrings
  import opened BatchProtocol
  import opened BatchAtomicity
  import opened BatchDependencies

  // ------------------------------------------------------------------ reading the trace

  predicate Runs(e: Event, j: nat) {
    e.Handled? && e.index == j
  }

  predicate RunsWith(e: Event, j: nat, s: int) {
    Runs(e, j) && e.outcome.Responds? && e.outcome.status == s
  }

  ghost predicate WasRun(trace: seq<Event>, j: nat) {
    exists p :: 0 <= p < |trace| && Runs(trace[p], j)
  }

  /** The handler answered request `j` with status `s`. */
  ghost predicate Responded(trace: seq<Event>, j: nat, s: int) {
    exists p :: 0 <= p < |trace| && RunsWith(trace[p], j, s)
  }

  /** It was answered below 400, and the answer fitted into the response. */
  ghost predicate Well(w: World, trace: seq<Event>, j: nat) {
    w.fits(j) && exists s :: s < 400 && Responded(trace, j, s)
  }

  ghost predicate Badly(trace: seq<Event>, j: nat) {
    exists s :: s >= 400 && Responded(trace, j, s)
  }

  ghost predicate Told(trace: seq<Event>, g: string, error: Error) {
    exists p :: 0 <= p < |trace| && trace[p] == ReportedFailure(g, error)
  }

  /** No request is handed to the handler twice. */
  ghost predicate Once(trace: seq<Event>) {
    forall p, q :: 0 <= p < q < |trace| && trace[p].Handled? && trace[q].Handled? ==> trace[p].index != trace[q].index
  }

  ghost predicate Succeeded(w: World, rs: seq<Request>, trace: seq<Event>, id: string) {
    id != "" && exists j: nat :: j < |rs| && rs[j].id == id && Well(w, trace, j)
  }

  /** All dependencies of request `i` succeeded. */
  ghost predicate Met(w: World, rs: seq<Request>, trace: seq<Event>, i: nat)
    requires i < |rs|
  {
    forall d :: 0 <= d < |rs[i].dependsOn| ==> Succeeded(w, rs, trace, rs[i].dependsOn[d])
  }

  // ------------------------------------------------------------------ growing traces

  type Places = set<nat>

  /** The event concerns none of the places in `done`, nor their changesets. */
  ghost predicate Outside(rs: seq<Request>, done: Places, e: Event) {
    && (e.Handled? ==> e.index !in done)
    && (e.ReportedFailure? ==> forall j <- done :: j < |rs| ==> rs[j].group != e.group)
  }

  ghost predicate Inside(rs: seq<Request>, done: Places, e: Event) {
    && (e.Handled? ==> e.index in done)
    && (e.ReportedFailure? ==> exists j :: j in done && j < |rs| && rs[j].group == e.group)
  }

  ghost predicate Extends(rs: seq<Request>, done: Places, before: seq<Event>, after: seq<Event>) {
    && |before| <= |after| && after[..|before|] == before
    && forall p :: |before| <= p < |after| ==> Outside(rs, done, after[p])
  }

  lemma ExtendsRefl(rs: seq<Request>, done: Places, trace: seq<Event>)
    ensures Extends(rs, done, trace, trace)
  {
  }

  lemma ExtendsOne(rs: seq<Request>, done: Places, trace: seq<Event>, e: Event)
    requires Outside(rs, done, e)
    ensures Extends(rs, done, trace, trace + [e])
  {
  }

  lemma ExtendsTrans(rs: seq<Request>, done: Places, more: Places, a: seq<Event>, b: seq<Event>, c: seq<Event>)
    requires done <= more && Extends(rs, done, a, b) && Extends(rs, more, b, c)
    ensures Extends(rs, done, a, c)
  {
    assert c[..|a|] == c[..|b|][..|a|];
    forall p | |a| <= p < |c| ensures Outside(rs, done, c[p]) {
      if p < |b| {
        assert c[p] == c[..|b|][p] == b[p];
      } else {
        assert Outside(rs, more, c[p]);
      }
    }
  }

  lemma RespondedKept(rs: seq<Request>, done: Places, before: seq<Event>, after: seq<Event>, j: nat, s: int)
    requires Extends(rs, done, before, after) && j in done
    ensures Responded(after, j, s) <==> Responded(before, j, s)
    ensures WasRun(after, j) <==> WasRun(before, j)
  {
    assert forall p :: 0 <= p < |before| ==> after[p] == after[..|before|][p] == before[p];
    forall p | 0 <= p < |after| && Runs(after[p], j) ensures p < |before| {
      assert p >= |before| ==> Outside(rs, done, after[p]);
    }
    assert forall p :: 0 <= p < |before| ==> (Runs(after[p], j) <==> Runs(before[p], j));
    assert forall p :: 0 <= p < |before| ==> (RunsWith(after[p], j, s) <==> RunsWith(before[p], j, s));
    assert forall p :: 0 <= p < |after| && RunsWith(after[p], j, s) ==> Runs(after[p], j);
  }

  lemma PlaceKept(w: World, rs: seq<Request>, done: Places, before: seq<Event>, after: seq<Event>, j: nat)
    requires Extends(rs, done, before, after) && j in done
    ensures WasRun(after, j) <==> WasRun(before, j)
    ensures Well(w, after, j) <==> Well(w, before, j)
  {
    hide Extends, WasRun, Responded;
    RespondedKept(rs, done, before, after, j, 0);
    forall s ensures Responded(after, j, s) <==> Responded(before, j, s) {
      RespondedKept(rs, done, before, after, j, s);
    }
  }

  lemma BadlyKept(rs: seq<Request>, done: Places, before: seq<Event>, after: seq<Event>, j: nat)
    requires Extends(rs, done, before, after) && j in done
    ensures WasRun(after, j) <==> WasRun(before, j)
    ensures Badly(after, j) <==> Badly(before, j)
  {
    hide Extends, WasRun, Responded;
    RespondedKept(rs, done, before, after, j, 0);
    forall s ensures Responded(after, j, s) <==> Responded(before, j, s) {
      RespondedKept(rs, done, before, after, j, s);
    }
  }

  lemma ToldKept(rs: seq<Request>, done: Places, before: seq<Event>, after: seq<Event>, j: nat, error: Error)
    requires Extends(rs, done, before, after) && j in done && j < |rs|
    ensures Told(after, rs[j].group, error) <==> Told(before, rs[j].group, error)
  {
    assert forall p :: 0 <= p < |before| ==> after[p] == after[..|before|][p] == before[p];
    forall p | 0 <= p < |after| && after[p] == ReportedFailure(rs[j].group, error) ensures p < |before| {
      assert p >= |before| ==> Outside(rs, done, after[p]);
    }
  }

  /** Answers stay where they are as the trace grows, whatever is added. */
  lemma WellLasts(w: World, rs: seq<Request>, before: seq<Event>, after: seq<Event>, j: nat)
    requires Extends(rs, {}, before, after) && Well(w, before, j)
    ensures Well(w, after, j)
  {
    var s :| s < 400 && Responded(before, j, s);
    RespondedLasts(rs, before, after, j, s);
  }

  lemma RespondedLasts(rs: seq<Request>, before: seq<Event>, after: seq<Event>, j: nat, s: int)
    requires Extends(rs, {}, before, after) && Responded(before, j, s)
    ensures Responded(after, j, s)
  {
    var p :| 0 <= p < |before| && RunsWith(before[p], j, s);
    assert after[p] == after[..|before|][p] == before[p];
  }

  lemma SuccessKept(w: World, rs: seq<Request>, done: Places, before: seq<Event>, after: seq<Event>, id: string)
    requires Extends(rs, done, before, after) && DistinctIds(rs) && HasPlace(rs, done, id)
    ensures Succeeded(w, rs, after, id) <==> Succeeded(w, rs, before, id)
  {
    hide Extends, Well;
    var j :| j in done && j < |rs| && rs[j].id == id && id != "";
    PlaceKept(w, rs, done, before, after, j);
    forall k: nat | k < |rs| && rs[k].id == id ensures k == j {
      assert k < j || j < k || k == j;
    }
  }

  ghost predicate HasPlace(rs: seq<Request>, done: Places, id: string) {
    exists j :: j in done && j < |rs| && rs[j].id == id && id != ""
  }

  /** The dependencies of `i` are among the places that are done. */
  ghost predicate Placed(rs: seq<Request>, done: Places, i: nat)
    requires i < |rs|
  {
    forall d :: 0 <= d < |rs[i].dependsOn| ==> HasPlace(rs, done, rs[i].dependsOn[d])
  }

  lemma MetKept(w: World, rs: seq<Request>, done: Places, before: seq<Event>, after: seq<Event>, i: nat)
    requires i < |rs| && Extends(rs, done, before, after) && DistinctIds(rs) && Placed(rs, done, i)
    ensures Met(w, rs, after, i) <==> Met(w, rs, before, i)
  {
    hide Extends, Succeeded, DistinctIds, HasPlace;
    forall d | 0 <= d < |rs[i].dependsOn|
      ensures Succeeded(w, rs, after, rs[i].dependsOn[d]) <==> Succeeded(w, rs, before, rs[i].dependsOn[d])
    {
      SuccessKept(w, rs, done, before, after, rs[i].dependsOn[d]);
    }
  }

  // ------------------------------------------------------------------ what a run keeps

  /** A commit follows the success of every member. */
  ghost predicate CommitEarned(w: World, rs: seq<Request>, trace: seq<Event>, g: string) {
    forall m: nat :: m < |rs| && rs[m].group == g ==> Well(w, trace, m)
  }

  ghost predicate Committing(w: World, rs: seq<Request>, trace: seq<Event>) {
    forall p :: 0 <= p < |trace| && trace[p].Committed? ==> CommitEarned(w, rs, trace, trace[p].group)
  }

  /** A handled outcome is what the handler made of the prepared request. */
  predicate Genuine(w: World, e: Event) {
    e.Handled? ==> e.outcome == w.handle(e.index, e.prepared)
  }

  ghost predicate Tidy(w: World, rs: seq<Request>, trace: seq<Event>, done: Places) {
    && (forall p :: 0 <= p < |trace| ==> Inside(rs, done, trace[p]))
    && (forall p :: 0 <= p < |trace| ==> Genuine(w, trace[p]))
    && Once(trace) && Committing(w, rs, trace)
  }

  predicate RecordedAt(w: World, rs: seq<Request>, e: Event, results: Results) {
    e.Handled? && e.index < |rs| && e.outcome.Responds? && w.fits(e.index) && rs[e.index].id != "" ==>
      rs[e.index].id in results && results[rs[e.index].id].status == e.outcome.status
  }

  /** Handled statuses are what is recorded. */
  ghost predicate Recorded(w: World, rs: seq<Request>, trace: seq<Event>, results: Results) {
    forall p :: 0 <= p < |trace| ==> RecordedAt(w, rs, trace[p], results)
  }

  /** A result of request `j`: its handled status, or one of the two for requests that were not run. */
  ghost predicate ResultOf(w: World, rs: seq<Request>, trace: seq<Event>, done: Places, id: string, status: int, j: nat) {
    && j in done && j < |rs| && rs[j].id == id && id != ""
    && if WasRun(trace, j) then w.fits(j) && Responded(trace, j, status) else status == 424 || status == 501
  }

  ghost predicate Owned(w: World, rs: seq<Request>, trace: seq<Event>, done: Places, results: Results) {
    forall id <- results :: exists j :: ResultOf(w, rs, trace, done, id, results[id].status, j)
  }

  ghost predicate MetAt(w: World, rs: seq<Request>, trace: seq<Event>, p: nat)
    requires p < |trace|
  {
    trace[p].Handled? && trace[p].index < |rs| ==> Met(w, rs, trace[..p], trace[p].index)
  }

  ghost predicate MetBefore(w: World, rs: seq<Request>, trace: seq<Event>) {
    forall p :: 0 <= p < |trace| ==> MetAt(w, rs, trace, p)
  }

  ghost predicate Exact(w: World, rs: seq<Request>, st: State, done: Places) {
    Recorded(w, rs, st.trace, st.results) && Owned(w, rs, st.trace, done, st.results) && MetBefore(w, rs, st.trace)
  }

  ghost predicate Kept(w: World, rs: seq<Request>, st: State, done: Places) {
    Tidy(w, rs, st.trace, done) && (DistinctIds(rs) ==> Exact(w, rs, st, done))
  }

  lemma KeptMore(w: World, rs: seq<Request>, st: State, done: Places, more: Places)
    requires Kept(w, rs, st, done) && done <= more
    ensures Kept(w, rs, st, more)
  {
    hide Once, Committing, Recorded, MetBefore, Responded, WasRun, DistinctIds;
    if DistinctIds(rs) {
      OwnedMore(w, rs, st.trace, done, more, st.results);
    }
    hide Owned;
    assert forall e :: Inside(rs, done, e) ==> Inside(rs, more, e);
  }

  lemma OwnedMore(w: World, rs: seq<Request>, trace: seq<Event>, done: Places, more: Places, results: Results)
    requires Owned(w, rs, trace, done, results) && done <= more
    ensures Owned(w, rs, trace, more, results)
  {
    hide WasRun, Responded;
    forall id <- results ensures exists j :: ResultOf(w, rs, trace, more, id, results[id].status, j) {
      var j :| ResultOf(w, rs, trace, done, id, results[id].status, j);
      assert ResultOf(w, rs, trace, more, id, results[id].status, j);
    }
  }

  /** The dependency check sees exactly what the trace says. */
  lemma ResultSeen(w: World, rs: seq<Request>, st: State, done: Places, id: string)
    requires Exact(w, rs, st, done)
    ensures id in st.results && st.results[id].status < 400 <==> Succeeded(w, rs, st.trace, id)
  {
    hide MetBefore;
    if id in st.results && st.results[id].status < 400 {
      var j :| ResultOf(w, rs, st.trace, done, id, st.results[id].status, j);
      assert Well(w, st.trace, j);
    }
    if Succeeded(w, rs, st.trace, id) {
      var j: nat :| j < |rs| && rs[j].id == id && Well(w, st.trace, j);
      var s :| s < 400 && Responded(st.trace, j, s);
      var p :| 0 <= p < |st.trace| && RunsWith(st.trace[p], j, s);
      assert RecordedAt(w, rs, st.trace[p], st.results);
    }
  }

  lemma MetSeen(w: World, rs: seq<Request>, st: State, done: Places, i: nat)
    requires Exact(w, rs, st, done) && i < |rs|
    ensures DependencyFails(st.results, rs[i].dependsOn) <==> !Met(w, rs, st.trace, i)
  {
    hide Exact, Succeeded;
    forall d | 0 <= d < |rs[i].dependsOn|
      ensures rs[i].dependsOn[d] in st.results && st.results[rs[i].dependsOn[d]].status < 400 <==>
              Succeeded(w, rs, st.trace, rs[i].dependsOn[d])
    {
      ResultSeen(w, rs, st, done, rs[i].dependsOn[d]);
    }
  }

  // ------------------------------------------------------------------ one more event

  lemma TidyMore(w: World, rs: seq<Request>, trace: seq<Event>, done: Places, more: Places, e: Event)
    requires Tidy(w, rs, trace, done) && done <= more && Inside(rs, more, e) && (e.Handled? ==> e.index !in done)
    requires Genuine(w, e) && (e.Committed? ==> CommitEarned(w, rs, trace, e.group))
    ensures Tidy(w, rs, trace + [e], more)
  {
    var after := trace + [e];
    hide Well;
    forall p | 0 <= p < |after| ensures Inside(rs, more, after[p]) {
      if p < |trace| {
        assert Inside(rs, done, trace[p]) && after[p] == trace[p];
      }
    }
    assert Once(after) by {
      assert forall p :: 0 <= p < |trace| ==> after[p] == trace[p] && Inside(rs, done, trace[p]);
    }
    forall p | 0 <= p < |after| && after[p].Committed? ensures CommitEarned(w, rs, after, after[p].group) {
      assert p < |trace| ==> after[p] == trace[p];
      EarnedLasts(w, rs, trace, e, after[p].group);
    }
  }

  lemma EarnedLasts(w: World, rs: seq<Request>, trace: seq<Event>, e: Event, g: string)
    requires CommitEarned(w, rs, trace, g)
    ensures CommitEarned(w, rs, trace + [e], g)
  {
    hide Well;
    forall m: nat | m < |rs| && rs[m].group == g ensures Well(w, trace + [e], m) {
      ExtendsOne(rs, {}, trace, e);
      WellLasts(w, rs, trace, trace + [e], m);
    }
  }

  lemma OwnedOneMore(w: World, rs: seq<Request>, trace: seq<Event>, done: Places, results: Results, e: Event)
    requires Owned(w, rs, trace, done, results) && (e.Handled? ==> e.index !in done)
    ensures Owned(w, rs, trace + [e], done, results)
  {
    hide WasRun, Responded;
    forall id <- results ensures exists j :: ResultOf(w, rs, trace + [e], done, id, results[id].status, j) {
      var j :| ResultOf(w, rs, trace, done, id, results[id].status, j);
      SameAnswers(trace, e, j, results[id].status);
      assert ResultOf(w, rs, trace + [e], done, id, results[id].status, j);
    }
  }

  lemma SameAnswers(trace: seq<Event>, e: Event, j: nat, s: int)
    requires e.Handled? ==> e.index != j
    ensures Responded(trace + [e], j, s) <==> Responded(trace, j, s)
    ensures WasRun(trace + [e], j) <==> WasRun(trace, j)
  {
    var after := trace + [e];
    assert forall p :: 0 <= p < |trace| ==> after[p] == trace[p];
    assert forall p :: 0 <= p < |trace| && Runs(trace[p], j) ==> Runs(after[p], j);
    assert forall p :: 0 <= p < |after| && Runs(after[p], j) ==> p < |trace| && Runs(trace[p], j);
    assert forall p :: 0 <= p < |trace| && RunsWith(trace[p], j, s) ==> RunsWith(after[p], j, s);
    assert forall p :: 0 <= p < |after| && RunsWith(after[p], j, s) ==> p < |trace| && RunsWith(trace[p], j, s);
  }

  lemma MetBeforeMore(w: World, rs: seq<Request>, trace: seq<Event>, e: Event)
    requires MetBefore(w, rs, trace)
    requires e.Handled? && e.index < |rs| ==> Met(w, rs, trace, e.index)
    ensures MetBefore(w, rs, trace + [e])
  {
    hide Met;
    var after := trace + [e];
    forall p | 0 <= p < |after| ensures MetAt(w, rs, after, p) {
      if p < |trace| {
        assert MetAt(w, rs, trace, p);
        assert after[..p] == trace[..p] && after[p] == trace[p];
      } else {
        assert after[..p] == trace;
      }
    }
  }

  lemma RecordedMore(w: World, rs: seq<Request>, trace: seq<Event>, e: Event, results: Results)
    requires Recorded(w, rs, trace, results) && RecordedAt(w, rs, e, results)
    ensures Recorded(w, rs, trace + [e], results)
  {
    hide RecordedAt;
  }

  /** An event that is not a handler call. */
  lemma EventKept(w: World, rs: seq<Request>, st: State, done: Places, e: Event)
    requires Kept(w, rs, st, done) && !e.Handled? && Inside(rs, done, e)
    requires e.Committed? ==> CommitEarned(w, rs, st.trace, e.group)
    ensures Kept(w, rs, WithEvent(st, e), done)
  {
    hide Tidy, Recorded, Owned, MetBefore, DistinctIds, CommitEarned;
    TidyMore(w, rs, st.trace, done, done, e);
    if DistinctIds(rs) {
      RecordedMore(w, rs, st.trace, e, st.results);
      OwnedOneMore(w, rs, st.trace, done, st.results, e);
      MetBeforeMore(w, rs, st.trace, e);
    }
  }

  // ------------------------------------------------------------------ noting a result

  /** A result for a place that had none. */
  lemma NotedKept(w: World, rs: seq<Request>, i: nat, trace: seq<Event>, done: Places, results: Results, entry: Entry)
    requires DistinctIds(rs) && i < |rs| && i !in done
    requires forall p :: 0 <= p < |trace| ==> Inside(rs, done + {i}, trace[p])
    requires Owned(w, rs, trace, done, results)
    requires forall p :: 0 <= p < |trace| && !Runs(trace[p], i) ==> RecordedAt(w, rs, trace[p], results)
    requires forall p :: 0 <= p < |trace| && Runs(trace[p], i) && trace[p].outcome.Responds? ==> entry.status == trace[p].outcome.status
    requires if WasRun(trace, i) then w.fits(i) && Responded(trace, i, entry.status) else entry.status == 424 || entry.status == 501
    ensures var after := Noted(results, rs[i].id, entry);
            Owned(w, rs, trace, done + {i}, after) && Recorded(w, rs, trace, after)
  {
    hide WasRun, Responded;
    var id, after := rs[i].id, Noted(results, rs[i].id, entry);
    OwnedMore(w, rs, trace, done, done + {i}, results);
    assert Owned(w, rs, trace, done + {i}, after) by {
      forall x <- after ensures exists j :: ResultOf(w, rs, trace, done + {i}, x, after[x].status, j) {
        if x == id && id != "" {
          assert ResultOf(w, rs, trace, done + {i}, x, after[x].status, i);
        } else {
          assert x in results && after[x] == results[x];
        }
      }
    }
    hide Owned, ResultOf;
    forall p | 0 <= p < |trace| ensures RecordedAt(w, rs, trace[p], after) {
      assert Inside(rs, done + {i}, trace[p]);
      if !Runs(trace[p], i) && trace[p].Handled? && trace[p].index < |rs| && rs[trace[p].index].id != "" {
        OtherId(rs, i, trace[p].index);
      }
    }
  }

  lemma OtherId(rs: seq<Request>, i: nat, j: nat)
    requires DistinctIds(rs) && i < |rs| && j < |rs| && i != j && rs[j].id != ""
    ensures rs[i].id != rs[j].id
  {
    assert i < j || j < i;
  }

  // ------------------------------------------------------------------ one request

  /** What the batch is checked for before it runs. */
  predicate Validated(rs: seq<Request>) {
    DistinctIds(rs) && DependenciesEarlier(rs) && Contiguous(rs)
  }

  /** The status of a request that had its turn: its handler's answer, or 424 if it was not run; and
      in a validated batch it was run exactly when all its dependencies succeeded. */
  ghost predicate Own(w: World, rs: seq<Request>, trace: seq<Event>, i: nat, status: int)
    requires i < |rs|
  {
    && (if WasRun(trace, i) then Responded(trace, i, status) else status == 424 && rs[i].dependsOn != [])
    && (Validated(rs) ==> (WasRun(trace, i) <==> Met(w, rs, trace, i)))
  }

  lemma NotRunYet(w: World, rs: seq<Request>, trace: seq<Event>, done: Places, i: nat)
    requires Tidy(w, rs, trace, done) && i !in done
    ensures !WasRun(trace, i)
  {
    forall p | 0 <= p < |trace| ensures !Runs(trace[p], i) {
      assert Inside(rs, done, trace[p]);
    }
  }

  lemma LastRuns(trace: seq<Event>, i: nat, p: Prepared, o: Outcome)
    ensures WasRun(trace + [Handled(i, p, o)], i)
    ensures o.Responds? ==> Responded(trace + [Handled(i, p, o)], i, o.status)
  {
    var after := trace + [Handled(i, p, o)];
    assert Runs(after[|trace|], i);
    assert o.Responds? ==> RunsWith(after[|trace|], i, o.status);
  }

  /** The handler is called for `i`; nothing is noted yet. */
  lemma CallKept(w: World, rs: seq<Request>, i: nat, st: State, done: Places, e: Event)
    requires i < |rs| && i !in done && Kept(w, rs, st, done) && e.Handled? && e.index == i && Genuine(w, e)
    requires DistinctIds(rs) ==> Met(w, rs, st.trace, i)
    ensures Tidy(w, rs, st.trace + [e], done + {i})
    ensures DistinctIds(rs) ==>
              && Owned(w, rs, st.trace + [e], done, st.results) && MetBefore(w, rs, st.trace + [e])
              && (forall p :: 0 <= p < |st.trace + [e]| && !Runs((st.trace + [e])[p], i) ==>
                    RecordedAt(w, rs, (st.trace + [e])[p], st.results))
  {
    hide Tidy, Owned, MetBefore, DistinctIds, RecordedAt;
    TidyMore(w, rs, st.trace, done, done + {i}, e);
    if DistinctIds(rs) {
      OwnedOneMore(w, rs, st.trace, done, st.results, e);
      MetBeforeMore(w, rs, st.trace, e);
    }
  }

  lemma SkippedKept(w: World, rs: seq<Request>, i: nat, st: State, done: Places, status: int)
    requires i < |rs| && i !in done && Kept(w, rs, st, done) && (status == 424 || status == 501)
    ensures Kept(w, rs, st.(results := Noted(st.results, rs[i].id, Entry(rs[i].id, status, ""))), done + {i})
  {
    hide WasRun, Responded, MetBefore, Owned, DistinctIds, Once, Committing;
    NotRunYet(w, rs, st.trace, done, i);
    KeptMore(w, rs, st, done, done + {i});
    if DistinctIds(rs) {
      NoRuns(st.trace, i);
      NotedKept(w, rs, i, st.trace, done, st.results, Entry(rs[i].id, status, ""));
    }
  }

  lemma NoRuns(trace: seq<Event>, i: nat)
    requires !WasRun(trace, i)
    ensures forall p :: 0 <= p < |trace| ==> !Runs(trace[p], i)
  {
  }

  /** After the call, with the result noted where the response fits. */
  lemma CalledKept(w: World, rs: seq<Request>, i: nat, st: State, done: Places, e: Event)
    requires i < |rs| && i !in done && Kept(w, rs, st, done) && e.Handled? && e.index == i && Genuine(w, e)
    requires DistinctIds(rs) ==> Met(w, rs, st.trace, i)
    ensures var after := st.trace + [e];
            if e.outcome.Responds? && w.fits(i)
            then forall maps :: Kept(w, rs, State(Noted(st.results, rs[i].id, Entry(rs[i].id, e.outcome.status, "")), maps, after), done + {i})
            else forall maps :: Kept(w, rs, State(st.results, maps, after), done + {i})
  {
    hide WasRun, Responded, MetBefore, Owned, DistinctIds, Tidy;
    var after := st.trace + [e];
    CallKept(w, rs, i, st, done, e);
    LastRuns(st.trace, i, e.prepared, e.outcome);
    if DistinctIds(rs) {
      OnlyLast(w, rs, st.trace, done, i, e);
      if e.outcome.Responds? && w.fits(i) {
        NotedKept(w, rs, i, after, done, st.results, Entry(rs[i].id, e.outcome.status, ""));
      } else {
        OwnedMore(w, rs, after, done, done + {i}, st.results);
      }
    }
  }

  lemma OnlyLast(w: World, rs: seq<Request>, trace: seq<Event>, done: Places, i: nat, e: Event)
    requires Tidy(w, rs, trace, done) && i !in done && Runs(e, i)
    ensures forall p :: 0 <= p < |trace + [e]| ==> Inside(rs, done + {i}, (trace + [e])[p])
    ensures forall p :: 0 <= p < |trace + [e]| && Runs((trace + [e])[p], i) ==> p == |trace|
  {
    var after := trace + [e];
    forall p | 0 <= p < |trace| ensures Inside(rs, done, after[p]) && !Runs(after[p], i) {
      assert after[p] == trace[p] && Inside(rs, done, trace[p]);
    }
  }

  lemma RequestStep(w: World, rs: seq<Request>, i: nat, st: State, done: Places)
    requires i < |rs| && i !in done && Kept(w, rs, st, done)
    requires Validated(rs) ==> Placed(rs, done, i)
    ensures var (next, r) := RunRequest(w, rs, i, st);
            && Kept(w, rs, next, done + {i}) && Extends(rs, done, st.trace, next.trace)
            && (r.Ok? ==> w.fits(i) && Own(w, rs, next.trace, i, r.value.status))
  {
    hide Kept, WasRun, Responded, Met, Extends, DependencyFails, DistinctIds, DependenciesEarlier, Contiguous, Placed, Record,
         ReferencesKnown, Prepare, Tidy, Exact, Noted;
    var next := RunRequest(w, rs, i, st).0;
    assert Tidy(w, rs, st.trace, done) && (DistinctIds(rs) ==> Exact(w, rs, st, done)) by { Unpack(w, rs, st, done); }
    ExtendsRefl(rs, done, st.trace);
    KeptMore(w, rs, st, done, done + {i});
    NotRunYet(w, rs, st.trace, done, i);
    if ReferencesKnown(st.maps, rs[i]) {
      if DistinctIds(rs) {
        MetSeen(w, rs, st, done, i);
      }
      if DependencyFails(st.results, rs[i].dependsOn) {
        SkippedKept(w, rs, i, st, done, 424);
        SomeDependency(st.results, rs[i].dependsOn);
      } else {
        var p := Prepare(w, st.maps, rs[i], i);
        var e := Handled(i, p, w.handle(i, p));
        CalledKept(w, rs, i, st, done, e);
        ExtendsOne(rs, done, st.trace, e);
        LastRuns(st.trace, i, p, e.outcome);
        if Validated(rs) {
          MetKept(w, rs, done, st.trace, st.trace + [e], i);
        }
      }
    }
  }

  lemma Unpack(w: World, rs: seq<Request>, st: State, done: Places)
    requires Kept(w, rs, st, done)
    ensures Tidy(w, rs, st.trace, done) && (DistinctIds(rs) ==> Exact(w, rs, st, done))
  {
  }

  lemma SomeDependency(results: Results, dependsOn: seq<string>)
    requires DependencyFails(results, dependsOn)
    ensures dependsOn != []
  {
  }

  // ------------------------------------------------------------------ groups

  function Taken(order: seq<nat>): Places {
    set k | 0 <= k < |order| :: order[k]
  }

  ghost predicate Untouched(order: seq<nat>, done: Places) {
    forall k :: 0 <= k < |order| ==> order[k] !in done
  }

  /** The dependencies of each member are done, or are members before it. */
  ghost predicate PlacedAll(rs: seq<Request>, done: Places, order: seq<nat>)
    requires Positions(rs, order)
  {
    forall k :: 0 <= k < |order| ==> Placed(rs, done + Taken(order[..k]), order[k])
  }

  lemma OneTaken(order: seq<nat>, k: nat)
    requires 0 < k <= |order|
    ensures Taken(order[..k]) == {order[0]} + Taken(order[1..][..k - 1])
    ensures Taken(order[..1]) == {order[0]}
  {
    var rest := order[1..][..k - 1];
    assert forall m :: 0 <= m < |rest| ==> rest[m] == order[..k][m + 1];
    assert order[..k][0] == order[0];
    forall x | x in Taken(order[..k]) ensures x in {order[0]} + Taken(rest) {
      var m :| 0 <= m < k && order[..k][m] == x;
      if m > 0 {
        assert rest[m - 1] == x;
      }
    }
  }

  lemma PlacedMore(rs: seq<Request>, done: Places, more: Places, i: nat)
    requires i < |rs| && Placed(rs, done, i) && done <= more
    ensures Placed(rs, more, i)
  {
    forall d | 0 <= d < |rs[i].dependsOn| ensures HasPlace(rs, more, rs[i].dependsOn[d]) {
      assert HasPlace(rs, done, rs[i].dependsOn[d]);
    }
  }

  lemma PlacedRest(rs: seq<Request>, done: Places, order: seq<nat>)
    requires Positions(rs, order) && order != [] && PlacedAll(rs, done, order)
    ensures Placed(rs, done, order[0]) && PlacedAll(rs, done + {order[0]}, order[1..])
  {
    hide Placed, Taken;
    assert Placed(rs, done + Taken(order[..0]), order[0]);
    NoneTaken(order);
    assert done + {} == done;
    forall k | 0 <= k < |order[1..]| ensures Placed(rs, done + {order[0]} + Taken(order[1..][..k]), order[1..][k]) {
      OneTaken(order, k + 1);
      assert done + {order[0]} + Taken(order[1..][..k]) == done + Taken(order[..k + 1]);
      assert Placed(rs, done + Taken(order[..k + 1]), order[k + 1]);
    }
  }

  lemma NoneTaken(order: seq<nat>)
    ensures Taken(order[..0]) == {}
  {
  }

  lemma UntouchedRest(order: seq<nat>, done: Places)
    requires order != [] && Untouched(order, done) && Increasing(order)
    ensures order[0] !in done && Untouched(order[1..], done + {order[0]}) && Increasing(order[1..])
  {
  }

  lemma OwnKept(w: World, rs: seq<Request>, done: Places, before: seq<Event>, after: seq<Event>, i: nat, status: int)
    requires i < |rs| && i in done && Extends(rs, done, before, after) && Own(w, rs, before, i, status)
    requires Validated(rs) ==> Placed(rs, done, i)
    ensures Own(w, rs, after, i, status)
  {
    hide Extends, Responded, WasRun, Met, Placed, DistinctIds, DependenciesEarlier, Contiguous;
    RespondedKept(rs, done, before, after, i, status);
    if Validated(rs) {
      MetKept(w, rs, done, before, after, i);
    }
  }

  /** One entry for each of the first members, one after the other; with `abort`, up to the first
      failure. */
  ghost predicate Turns(w: World, rs: seq<Request>, trace: seq<Event>, order: seq<nat>, abort: bool, entries: seq<Entry>)
    requires Positions(rs, order)
  {
    var n := |entries|;
    && n <= |order|
    && (forall k :: 0 <= k < n ==> w.fits(order[k]) && Own(w, rs, trace, order[k], entries[k].status))
    && (abort ==> forall k :: 0 <= k < n - 1 ==> entries[k].status < 400)
    && (n < |order| ==> abort && n > 0 && entries[n - 1].status >= 400)
  }

  lemma TurnsMore(w: World, rs: seq<Request>, trace: seq<Event>, order: seq<nat>, abort: bool, first: Entry, rest: seq<Entry>)
    requires Positions(rs, order) && order != []
    requires w.fits(order[0]) && Own(w, rs, trace, order[0], first.status) && (abort ==> first.status < 400)
    requires Turns(w, rs, trace, order[1..], abort, rest)
    ensures Turns(w, rs, trace, order, abort, [first] + rest)
  {
    hide Own;
    var entries := [first] + rest;
    assert forall k :: 1 <= k < |entries| ==> entries[k] == rest[k - 1] && order[k] == order[1..][k - 1];
  }

  lemma OneTurn(w: World, rs: seq<Request>, trace: seq<Event>, order: seq<nat>, first: Entry)
    requires Positions(rs, order) && order != [] && first.status >= 400
    requires w.fits(order[0]) && Own(w, rs, trace, order[0], first.status)
    ensures Turns(w, rs, trace, order, true, [first])
  {
    hide Own;
  }

  lemma {:induction false} GroupStep(w: World, rs: seq<Request>, order: seq<nat>, abort: bool, st: State, done: Places)
    returns (n: nat)
    requires Positions(rs, order) && Increasing(order) && Untouched(order, done) && Kept(w, rs, st, done)
    requires Validated(rs) ==> PlacedAll(rs, done, order)
    ensures n <= |order|
    ensures var (next, r) := RunGroup(w, rs, order, abort, st);
            && Kept(w, rs, next, done + Taken(order[..n])) && Extends(rs, done, st.trace, next.trace)
            && (r.Ok? ==> n == |r.value| && Turns(w, rs, next.trace, order, abort, r.value))
    decreases |order|
  {
    hide Kept, Extends, Turns, Own, RunRequest, Validated, PlacedAll, Placed, Taken, Increasing, Untouched;
    n := 0;
    NoneTaken(order);
    assert done + {} == done;
    if order == [] {
      ExtendsRefl(rs, done, st.trace);
      NoTurns(w, rs, st.trace, abort);
    } else {
      UntouchedRest(order, done);
      if Validated(rs) {
        PlacedRest(rs, done, order);
        PlacedMore(rs, done, done + {order[0]}, order[0]);
      }
      RequestStep(w, rs, order[0], st, done);
      var (next, r) := RunRequest(w, rs, order[0], st);
      OneTaken(order, 1);
      n := 1;
      if r.Ok? {
        if abort && r.value.status >= 400 {
          OneTurn(w, rs, next.trace, order, r.value);
        } else {
          var m := GroupStep(w, rs, order[1..], abort, next, done + {order[0]});
          n := m + 1;
          var (last, rest) := RunGroup(w, rs, order[1..], abort, next);
          OneTaken(order, n);
          assert done + {order[0]} + Taken(order[1..][..m]) == done + Taken(order[..n]);
          ExtendsTrans(rs, done, done + {order[0]}, st.trace, next.trace, last.trace);
          if rest.Ok? {
            OwnKept(w, rs, done + {order[0]}, next.trace, last.trace, order[0], r.value.status);
            TurnsMore(w, rs, last.trace, order, abort, r.value, rest.value);
          }
        }
      }
    }
  }

  lemma NoTurns(w: World, rs: seq<Request>, trace: seq<Event>, abort: bool)
    ensures Turns(w, rs, trace, [], abort, [])
  {
  }

  lemma {:induction false} AnswersStep(w: World, rs: seq<Request>, order: seq<nat>, status: int, st: State, done: Places)
    requires Positions(rs, order) && Increasing(order) && Untouched(order, done) && Kept(w, rs, st, done)
    requires status == 424 || status == 501
    ensures var (next, r) := AnswerAll(w, rs, order, status, st);
            && Kept(w, rs, next, done + Taken(order)) && next.trace == st.trace
            && (r.Ok? ==> |r.value| == |order| && forall k :: 0 <= k < |order| ==> r.value[k].status == status)
    decreases |order|
  {
    hide Kept, Taken, Increasing, Untouched;
    assert order == order[..|order|];
    KeptMore(w, rs, st, done, done + Taken(order));
    if order != [] && w.fits(order[0]) {
      UntouchedRest(order, done);
      SkippedKept(w, rs, order[0], st, done, status);
      var next := st.(results := Noted(st.results, rs[order[0]].id, Entry(rs[order[0]].id, status, "")));
      AnswersStep(w, rs, order[1..], status, next, done + {order[0]});
      OneTaken(order, |order|);
      assert order[1..][..|order| - 1] == order[1..];
      assert done + {order[0]} + Taken(order[1..]) == done + Taken(order);
    }
  }

  // ------------------------------------------------------------------ changesets

  /** A member of the same changeset before `k` was not run, or was answered 400 or above. */
  ghost predicate EarlierFailed(rs: seq<Request>, trace: seq<Event>, k: nat)
    requires k < |rs|
  {
    exists m: nat :: m < k && rs[m].group == rs[k].group && Failed(trace, m)
  }

  ghost predicate Failed(trace: seq<Event>, m: nat) {
    !WasRun(trace, m) || Badly(trace, m)
  }

  /** The status of a member whose transaction was begun and ended without an error. */
  ghost predicate MemberStatus(w: World, rs: seq<Request>, trace: seq<Event>, k: nat, status: int)
    requires k < |rs|
  {
    if EarlierFailed(rs, trace, k) then status == 424 && !WasRun(trace, k) else Own(w, rs, trace, k, status)
  }

  lemma {:induction false} AllMembers(rs: seq<Request>, g: string, from: nat, m: nat)
    requires from <= m < |rs| && rs[m].group == g
    ensures m in GroupFrom(rs, g, from)
    decreases m - from
  {
    if from < m {
      AllMembers(rs, g, from + 1, m);
    }
  }

  lemma RespondedOnce(trace: seq<Event>, j: nat, s: int, t: int)
    requires Once(trace) && Responded(trace, j, s) && Responded(trace, j, t)
    ensures s == t
  {
    var p :| 0 <= p < |trace| && RunsWith(trace[p], j, s);
    var q :| 0 <= q < |trace| && RunsWith(trace[q], j, t);
    assert p == q;
  }

  /** Entries below 400 are of members that did not fail, the others of members that did. */
  lemma FailedByStatus(w: World, rs: seq<Request>, trace: seq<Event>, j: nat, status: int)
    requires j < |rs| && Once(trace) && Own(w, rs, trace, j, status)
    ensures Failed(trace, j) <==> status >= 400
    ensures status < 400 && w.fits(j) ==> Well(w, trace, j)
  {
    hide Once, Responded, WasRun, Met;
    if WasRun(trace, j) && Badly(trace, j) {
      var s :| s >= 400 && Responded(trace, j, s);
      RespondedOnce(trace, j, s, status);
    }
  }

  /** The `k`-th member's predecessors in its changeset are the first `k` members. */
  lemma EarlierMembers(rs: seq<Request>, g: string, trace: seq<Event>, k: nat)
    requires k < |GroupFrom(rs, g, 0)|
    ensures rs[GroupFrom(rs, g, 0)[k]].group == g
    ensures EarlierFailed(rs, trace, GroupFrom(rs, g, 0)[k]) <==>
            exists c :: 0 <= c < k && Failed(trace, GroupFrom(rs, g, 0)[c])
  {
    hide Failed, GroupFrom;
    var order := GroupFrom(rs, g, 0);
    GroupMembers(rs, g, 0);
    GroupIncreasing(rs, g, 0);
    if EarlierFailed(rs, trace, order[k]) {
      var m: nat :| m < order[k] && rs[m].group == g && Failed(trace, m);
      AllMembers(rs, g, 0, m);
      var c :| 0 <= c < |order| && order[c] == m;
      assert c < k;
    }
    if c :| 0 <= c < k && Failed(trace, order[c]) {
      assert order[c] < order[k];
    }
  }

  ghost predicate MemberStatuses(w: World, rs: seq<Request>, trace: seq<Event>, order: seq<nat>, entries: seq<Entry>)
    requires Positions(rs, order)
  {
    |entries| == |order| && forall k :: 0 <= k < |order| ==> MemberStatus(w, rs, trace, order[k], entries[k].status)
  }

  /** Turns up to the first failure, and 424 for the rest. */
  lemma AbortedStatuses(w: World, rs: seq<Request>, g: string, trace: seq<Event>, entries: seq<Entry>, rest: seq<Entry>)
    requires var order := GroupFrom(rs, g, 0);
             Once(trace) && Turns(w, rs, trace, order, true, entries) && |entries| + |rest| == |order| &&
             forall k :: 0 <= k < |rest| ==> rest[k].status == 424 && !WasRun(trace, order[|entries| + k])
    ensures MemberStatuses(w, rs, trace, GroupFrom(rs, g, 0), entries + rest)
  {
    hide Once, Own, Failed, WasRun, GroupFrom, EarlierFailed;
    var order, n := GroupFrom(rs, g, 0), |entries|;
    forall k | 0 <= k < |order| ensures MemberStatus(w, rs, trace, order[k], (entries + rest)[k].status) {
      EarlierMembers(rs, g, trace, k);
      forall c | 0 <= c < n ensures Failed(trace, order[c]) <==> entries[c].status >= 400 {
        FailedByStatus(w, rs, trace, order[c], entries[c].status);
      }
      if k >= n {
        assert Failed(trace, order[n - 1]);
        assert (entries + rest)[k] == rest[k - n];
      }
    }
  }

  lemma EarnedByTurns(w: World, rs: seq<Request>, g: string, trace: seq<Event>, entries: seq<Entry>)
    requires Once(trace) && Turns(w, rs, trace, GroupFrom(rs, g, 0), true, entries) && !HasFailure(entries)
    ensures |entries| == |GroupFrom(rs, g, 0)| && CommitEarned(w, rs, trace, g)
  {
    hide Once, Own, Well, GroupFrom;
    var order := GroupFrom(rs, g, 0);
    forall m: nat | m < |rs| && rs[m].group == g ensures Well(w, trace, m) {
      AllMembers(rs, g, 0, m);
      var c :| 0 <= c < |order| && order[c] == m;
      FailedByStatus(w, rs, trace, m, entries[c].status);
    }
  }

  lemma QuietEvent(rs: seq<Request>, done: Places, trace: seq<Event>, e: Event)
    requires !e.Handled? && !e.ReportedFailure?
    ensures Extends(rs, done, trace, trace + [e]) && Inside(rs, done, e)
  {
  }

  lemma SameReports(before: seq<Event>, after: seq<Event>, g: string, error: Error)
    requires ReportsKept(before, after)
    ensures Told(after, g, error) <==> Told(before, g, error)
  {
    assert forall p :: 0 <= p < |before| ==> after[p] == after[..|before|][p] == before[p];
  }

  /** An event inside a transaction that was begun in `from`. */
  lemma QuietStep(w: World, rs: seq<Request>, from: seq<Event>, st: State, begun: Places, done: Places, e: Event)
    requires Kept(w, rs, st, done) && begun <= done && Extends(rs, begun, from, st.trace)
    requires !e.Handled? && !e.ReportedFailure? && (e.Committed? ==> CommitEarned(w, rs, st.trace, e.group))
    ensures Kept(w, rs, WithEvent(st, e), done) && Extends(rs, begun, from, st.trace + [e])
  {
    hide Kept, Extends, CommitEarned;
    QuietEvent(rs, done, st.trace, e);
    EventKept(w, rs, st, done, e);
    ExtendsTrans(rs, begun, done, from, st.trace, st.trace + [e]);
  }

  lemma SameState(w: World, rs: seq<Request>, st: State, maps: Maps, done: Places)
    requires Kept(w, rs, st, done)
    ensures Kept(w, rs, st.(maps := maps), done)
  {
    hide Tidy, Recorded, Owned, MetBefore, DistinctIds;
  }

  lemma TakenPart(order: seq<nat>, n: nat)
    requires n <= |order|
    ensures Taken(order[..n]) <= Taken(order)
  {
    assert forall k :: 0 <= k < n ==> order[..n][k] == order[k];
  }

  lemma TakenRest(order: seq<nat>, n: nat, done: Places)
    requires n <= |order| && Increasing(order) && Untouched(order, done)
    ensures Untouched(order[n..], done + Taken(order[..n])) && Increasing(order[n..])
    ensures Taken(order[..n]) + Taken(order[n..]) == Taken(order)
  {
    TailIncreasing(order, n);
    assert forall k :: 0 <= k < n ==> order[..n][k] == order[k];
    assert forall k :: 0 <= k < |order| - n ==> order[n..][k] == order[n + k];
    forall x | x in Taken(order) ensures x in Taken(order[..n]) + Taken(order[n..]) {
      var k :| 0 <= k < |order| && order[k] == x;
      if k >= n {
        assert order[n..][k - n] == x;
      } else {
        assert order[..n][k] == x;
      }
    }
  }

  lemma TransactionStep(w: World, rs: seq<Request>, g: string, st: State, done: Places)
    requires Kept(w, rs, st, done) && Untouched(GroupFrom(rs, g, 0), done)
    requires Validated(rs) ==> PlacedAll(rs, done, GroupFrom(rs, g, 0))
    ensures var order := GroupFrom(rs, g, 0);
            var (next, r) := RunInTransaction(w, rs, order, g, st);
            && Kept(w, rs, next, done + Taken(order)) && Extends(rs, done, st.trace, next.trace)
            && (r.Ok? ==> MemberStatuses(w, rs, next.trace, order, r.value))
  {
    hide Kept, Extends, Turns, Validated, PlacedAll, Taken, Increasing, Untouched, GroupFrom, RunGroup, AnswerAll, HasFailure,
         CommitEarned, Publish, MemberStatuses;
    var order := GroupFrom(rs, g, 0);
    GroupIncreasing(rs, g, 0);
    var begun := WithEvent(st, Began(g));
    ExtendsRefl(rs, done, st.trace);
    QuietStep(w, rs, st.trace, st, done, done, Began(g));
    var n := GroupStep(w, rs, order, true, begun, done);
    var ran := RunGroup(w, rs, order, true, begun);
    ExtendsTrans(rs, done, done, st.trace, begun.trace, ran.0.trace);
    var some, all := done + Taken(order[..n]), done + Taken(order);
    TakenPart(order, n);
    TakenRest(order, n, done);
    var kept := ran.0.(maps := st.maps);
    SameState(w, rs, ran.0, st.maps, some);
    if ran.1.Err? {
      QuietStep(w, rs, st.trace, kept, done, some, RolledBack(g));
      KeptMore(w, rs, WithEvent(kept, RolledBack(g)), some, all);
    } else {
      EndStep(w, rs, g, st, kept, ran.1.value, done, some);
      if !HasFailure(ran.1.value) && w.commit(g).None? {
        var maps := Maps(Publish(st.maps.ids, ran.0.maps.ids), Publish(st.maps.etags, ran.0.maps.etags));
        SameState(w, rs, WithEvent(kept, Committed(g)), maps, all);
      }
    }
  }

  /** The end of a transaction whose members had their turns. */
  lemma EndStep(w: World, rs: seq<Request>, g: string, st: State, kept: State, entries: seq<Entry>, done: Places, some: Places)
    requires Kept(w, rs, kept, some) && Extends(rs, done, st.trace, kept.trace)
    requires var order := GroupFrom(rs, g, 0);
             && |entries| <= |order| && some == done + Taken(order[..|entries|])
             && Untouched(order[|entries|..], some) && Increasing(order[|entries|..])
             && Taken(order[..|entries|]) + Taken(order[|entries|..]) == Taken(order)
             && Turns(w, rs, kept.trace, order, true, entries)
    ensures var order := GroupFrom(rs, g, 0);
            var all := done + Taken(order);
            if HasFailure(entries) then
              var undone := WithEvent(kept, RolledBack(g));
              var (next, r) := AnswerAll(w, rs, order[|entries|..], 424, undone);
              && Kept(w, rs, undone, all) && Extends(rs, done, st.trace, undone.trace)
              && Kept(w, rs, next, all) && Extends(rs, done, st.trace, next.trace)
              && (r.Ok? ==> MemberStatuses(w, rs, next.trace, order, entries + r.value))
            else if w.commit(g).Some? then
              var next := WithEvent(WithEvent(kept, CommitFailed(g)), RolledBack(g));
              Kept(w, rs, next, all) && Extends(rs, done, st.trace, next.trace)
            else
              var next := WithEvent(kept, Committed(g));
              Kept(w, rs, next, all) && Extends(rs, done, st.trace, next.trace) && MemberStatuses(w, rs, next.trace, order, entries)
  {
    hide Kept, Extends, Turns, Taken, Increasing, Untouched, GroupFrom, AnswerAll, HasFailure, CommitEarned, MemberStatuses;
    var order, n := GroupFrom(rs, g, 0), |entries|;
    var all := done + Taken(order);
    if HasFailure(entries) {
      var undone := WithEvent(kept, RolledBack(g));
      QuietStep(w, rs, st.trace, kept, done, some, RolledBack(g));
      AnswersStep(w, rs, order[n..], 424, undone, some);
      assert some + Taken(order[n..]) == all;
      KeptMore(w, rs, undone, some, all);
      var (next, r) := AnswerAll(w, rs, order[n..], 424, undone);
      if r.Ok? {
        EndedStatuses(w, rs, g, kept, some, RolledBack(g), entries, r.value);
      }
    } else {
      assert Once(kept.trace) by { OnceKept(w, rs, kept, some); }
      EarnedByTurns(w, rs, g, kept.trace, entries);
      KeptMore(w, rs, kept, some, all);
      if w.commit(g).Some? {
        QuietStep(w, rs, st.trace, kept, done, all, CommitFailed(g));
        QuietStep(w, rs, st.trace, WithEvent(kept, CommitFailed(g)), done, all, RolledBack(g));
      } else {
        QuietStep(w, rs, st.trace, kept, done, all, Committed(g));
        EndedStatuses(w, rs, g, kept, some, Committed(g), entries, []);
        assert entries + [] == entries;
      }
    }
  }

  lemma OnceKept(w: World, rs: seq<Request>, st: State, done: Places)
    requires Kept(w, rs, st, done)
    ensures Once(st.trace) && forall p :: 0 <= p < |st.trace| ==> Genuine(w, st.trace[p])
  {
  }

  lemma EndedStatuses(w: World, rs: seq<Request>, g: string, kept: State, some: Places, e: Event, entries: seq<Entry>, rest: seq<Entry>)
    requires Kept(w, rs, kept, some) && (e.RolledBack? || e.Committed?)
    requires var order := GroupFrom(rs, g, 0);
             && Turns(w, rs, kept.trace, order, true, entries) && |entries| + |rest| == |order|
             && Untouched(order[|entries|..], some)
             && forall k :: 0 <= k < |rest| ==> rest[k].status == 424
    ensures MemberStatuses(w, rs, kept.trace + [e], GroupFrom(rs, g, 0), entries + rest)
  {
    hide Own, GroupFrom, MemberStatuses, Once, WasRun, Responded;
    var order, n, after := GroupFrom(rs, g, 0), |entries|, kept.trace + [e];
    forall k | 0 <= k < n ensures Own(w, rs, after, order[k], entries[k].status) {
      OwnOneMore(w, rs, kept.trace, e, order[k], entries[k].status);
    }
    forall k | 0 <= k < |rest| ensures rest[k].status == 424 && !WasRun(after, order[n + k]) {
      assert order[n..][k] == order[n + k];
      NotRunYet(w, rs, kept.trace, some, order[n + k]);
      SameAnswers(kept.trace, e, order[n + k], 0);
    }
    OnceMore(kept.trace, e);
    AbortedStatuses(w, rs, g, after, entries, rest);
  }

  lemma OnceMore(trace: seq<Event>, e: Event)
    requires Once(trace) && !e.Handled?
    ensures Once(trace + [e])
  {
    assert forall p :: 0 <= p < |trace| ==> (trace + [e])[p] == trace[p];
  }

  lemma OwnOneMore(w: World, rs: seq<Request>, trace: seq<Event>, e: Event, j: nat, status: int)
    requires j < |rs| && Own(w, rs, trace, j, status) && !e.Handled?
    ensures Own(w, rs, trace + [e], j, status)
  {
    hide Responded, WasRun, Validated, Succeeded;
    SameAnswers(trace, e, j, status);
    forall id ensures Succeeded(w, rs, trace + [e], id) <==> Succeeded(w, rs, trace, id) {
      SameSuccess(w, rs, trace, e, id);
    }
  }

  lemma SameSuccess(w: World, rs: seq<Request>, trace: seq<Event>, e: Event, id: string)
    requires !e.Handled?
    ensures Succeeded(w, rs, trace + [e], id) <==> Succeeded(w, rs, trace, id)
  {
    hide Responded;
    forall j: nat, s ensures Responded(trace + [e], j, s) <==> Responded(trace, j, s) {
      SameAnswers(trace, e, j, s);
    }
  }

  function StatusOf(error: Error): int {
    match error.status
    case None => 500
    case Some(status) => status
  }

  /** The status of request `k` follows from the trace: an error told for its changeset; 501 for a
      changeset without a transaction; 424 behind a failed member; else that of its own turn. */
  ghost predicate Right(w: World, rs: seq<Request>, trace: seq<Event>, k: nat, status: int)
    requires k < |rs|
  {
    var g := rs[k].group;
    if g == "" then Own(w, rs, trace, k, status)
    else if exists error :: Told(trace, g, error) then exists error :: Told(trace, g, error) && status == StatusOf(error)
    else if w.begin(g).Rejected? then status == 501 && !WasRun(trace, k)
    else MemberStatus(w, rs, trace, k, status)
  }

  ghost predicate AllRight(w: World, rs: seq<Request>, trace: seq<Event>, order: seq<nat>, entries: seq<Entry>)
    requires Positions(rs, order)
  {
    |entries| == |order| && forall k :: 0 <= k < |order| ==> Right(w, rs, trace, order[k], entries[k].status)
  }

  /** A place with the earlier members of its changeset. */
  ghost predicate WithEarlier(rs: seq<Request>, done: Places, k: nat)
    requires k < |rs|
  {
    k in done && forall m: nat :: m < k && rs[k].group != "" && rs[m].group == rs[k].group ==> m in done
  }

  lemma EarlierKept(rs: seq<Request>, done: Places, before: seq<Event>, after: seq<Event>, k: nat)
    requires k < |rs| && rs[k].group != "" && WithEarlier(rs, done, k) && Extends(rs, done, before, after)
    ensures EarlierFailed(rs, after, k) <==> EarlierFailed(rs, before, k)
  {
    hide Extends, WasRun, Badly;
    forall m: nat | m < k && rs[m].group == rs[k].group ensures Failed(after, m) <==> Failed(before, m) {
      BadlyKept(rs, done, before, after, m);
    }
  }

  /** A right status stays right. */
  lemma RightKept(w: World, rs: seq<Request>, done: Places, before: seq<Event>, after: seq<Event>, k: nat, status: int)
    requires k < |rs| && WithEarlier(rs, done, k) && Extends(rs, done, before, after)
    requires Validated(rs) ==> Placed(rs, done, k)
    requires Right(w, rs, before, k, status)
    ensures Right(w, rs, after, k, status)
  {
    hide Extends, Own, WasRun, Told, EarlierFailed, Validated, Placed;
    var g := rs[k].group;
    if Own(w, rs, before, k, status) {
      OwnKept(w, rs, done, before, after, k, status);
    }
    RespondedKept(rs, done, before, after, k, 0);
    forall error ensures Told(after, g, error) <==> Told(before, g, error) {
      ToldKept(rs, done, before, after, k, error);
    }
    if g != "" {
      EarlierKept(rs, done, before, after, k);
    }
  }

  lemma NothingTold(w: World, rs: seq<Request>, trace: seq<Event>, done: Places, g: string, error: Error)
    requires Tidy(w, rs, trace, done) && forall j <- done :: j < |rs| ==> rs[j].group != g
    ensures !Told(trace, g, error)
  {
    forall p | 0 <= p < |trace| ensures trace[p] != ReportedFailure(g, error) {
      assert Inside(rs, done, trace[p]);
    }
  }

  /** The states of a changeset run, whatever it returns. */
  lemma ChangesetRun(w: World, rs: seq<Request>, g: string, st: State, done: Places)
    requires Kept(w, rs, st, done) && Untouched(GroupFrom(rs, g, 0), done)
    requires Validated(rs) ==> PlacedAll(rs, done, GroupFrom(rs, g, 0))
    ensures var order := GroupFrom(rs, g, 0);
            var (next, r) := RunChangeset(w, rs, order, g, st);
            && Kept(w, rs, next, done + Taken(order)) && Extends(rs, done, st.trace, next.trace)
            && (r.Ok? ==> |r.value| == |order|)
            && (r.Ok? && w.begin(g).Rejected? ==>
                  next.trace == st.trace && forall k :: 0 <= k < |order| ==> r.value[k].status == 501)
            && (r.Ok? && !w.begin(g).Rejected? ==> MemberStatuses(w, rs, next.trace, order, r.value))
  {
    hide Kept, Extends, Validated, PlacedAll, Taken, Untouched, GroupFrom, RunInTransaction, AnswerAll, MemberStatus, Increasing;
    var order := GroupFrom(rs, g, 0);
    GroupIncreasing(rs, g, 0);
    ExtendsRefl(rs, done, st.trace);
    KeptMore(w, rs, st, done, done + Taken(order));
    AnswersStep(w, rs, order, 501, st, done);
    TransactionStep(w, rs, g, st, done);
  }

  lemma ChangesetStep(w: World, rs: seq<Request>, g: string, st: State, done: Places)
    requires g != "" && GroupFrom(rs, g, 0) != [] && Kept(w, rs, st, done)
    requires forall j <- done :: j < |rs| ==> rs[j].group != g
    requires Validated(rs) ==> PlacedAll(rs, done, GroupFrom(rs, g, 0))
    ensures var order := GroupFrom(rs, g, 0);
            var (next, r) := ChangesetEntries(w, rs, g, st);
            && Kept(w, rs, next, done + Taken(order)) && Extends(rs, done, st.trace, next.trace)
            && (r.Ok? ==> AllRight(w, rs, next.trace, order, r.value))
  {
    hide Kept, Extends, Validated, PlacedAll, Taken, Untouched, GroupFrom, RunChangeset, Increasing, Right, WasRun, Told;
    var order := GroupFrom(rs, g, 0);
    GroupMembers(rs, g, 0);
    assert Untouched(order, done) by { NotTouched(rs, g, order, done); }
    ChangesetRun(w, rs, g, st, done);
    var (next, r) := RunChangeset(w, rs, order, g, st);
    var all := done + Taken(order);
    Unreported(w, rs, g, st, done);
    if r.Ok? {
      NoneRunYet(w, rs, st, done, order);
      RightMembers(w, rs, g, next, all, r.value);
    } else {
      ReportStep(w, rs, g, order, next, done, all, r.error);
      ExtendsTrans(rs, done, done, st.trace, next.trace, WithEvent(next, ReportedFailure(g, r.error)).trace);
    }
  }

  lemma NotTouched(rs: seq<Request>, g: string, order: seq<nat>, done: Places)
    requires Positions(rs, order) && forall k :: 0 <= k < |order| ==> rs[order[k]].group == g
    requires forall j <- done :: j < |rs| ==> rs[j].group != g
    ensures Untouched(order, done)
  {
    forall k | 0 <= k < |order| ensures order[k] !in done {
      assert rs[order[k]].group == g;
    }
  }

  lemma NoneRunYet(w: World, rs: seq<Request>, st: State, done: Places, order: seq<nat>)
    requires Kept(w, rs, st, done) && Untouched(order, done)
    ensures forall k :: 0 <= k < |order| ==> !WasRun(st.trace, order[k])
  {
    hide WasRun, Tidy, Exact, DistinctIds;
    forall k | 0 <= k < |order| ensures !WasRun(st.trace, order[k]) {
      NotRunYet(w, rs, st.trace, done, order[k]);
    }
  }

  lemma Unreported(w: World, rs: seq<Request>, g: string, st: State, done: Places)
    requires Kept(w, rs, st, done) && forall j <- done :: j < |rs| ==> rs[j].group != g
    ensures var next := RunChangeset(w, rs, GroupFrom(rs, g, 0), g, st).0;
            forall error :: !Told(next.trace, g, error)
  {
    hide RunChangeset, Told, ReportsKept, Exact, DistinctIds;
    GroupMembers(rs, g, 0);
    ChangesetQuiet(w, rs, GroupFrom(rs, g, 0), g, st);
    var next := RunChangeset(w, rs, GroupFrom(rs, g, 0), g, st).0;
    forall error ensures !Told(next.trace, g, error) {
      NothingTold(w, rs, st.trace, done, g, error);
      SameReports(st.trace, next.trace, g, error);
    }
  }

  lemma RightMembers(w: World, rs: seq<Request>, g: string, st: State, all: Places, entries: seq<Entry>)
    requires g != "" && (forall error :: !Told(st.trace, g, error)) && |entries| == |GroupFrom(rs, g, 0)|
    requires if w.begin(g).Rejected?
             then forall k :: 0 <= k < |entries| ==> entries[k].status == 501 && !WasRun(st.trace, GroupFrom(rs, g, 0)[k])
             else MemberStatuses(w, rs, st.trace, GroupFrom(rs, g, 0), entries)
    ensures AllRight(w, rs, st.trace, GroupFrom(rs, g, 0), Stamp(entries, g))
  {
    hide Told, WasRun, MemberStatus, GroupFrom;
    GroupMembers(rs, g, 0);
  }

  lemma ReportStep(w: World, rs: seq<Request>, g: string, order: seq<nat>, st: State, done: Places, all: Places, error: Error)
    requires Positions(rs, order) && order != [] && (forall k :: 0 <= k < |order| ==> rs[order[k]].group == g) && g != ""
    requires Kept(w, rs, st, all) && all == done + Taken(order) && forall j <- done :: j < |rs| ==> rs[j].group != g
    requires forall e :: !Told(st.trace, g, e)
    ensures var next := WithEvent(st, ReportedFailure(g, error));
            && Kept(w, rs, next, all) && Extends(rs, done, st.trace, next.trace)
            && AllRight(w, rs, next.trace, order, FailureEntries(rs, order, g, ReportedStatus(error)))
  {
    hide Kept, Told, MemberStatus, Own;
    var e := ReportedFailure(g, error);
    assert order[0] in Taken(order);
    hide Taken;
    assert Inside(rs, all, e);
    EventKept(w, rs, st, all, e);
    ExtendsOne(rs, done, st.trace, e);
    assert Told(st.trace + [e], g, error) by { ToldLast(st.trace, g, error); }
  }

  lemma ToldLast(trace: seq<Event>, g: string, error: Error)
    ensures Told(trace + [ReportedFailure(g, error)], g, error)
  {
    assert (trace + [ReportedFailure(g, error)])[|trace|] == ReportedFailure(g, error);
  }

  // ------------------------------------------------------------------ the batch

  /** Requests that had their turn: those passed, and the members of changesets that were run. */
  function DoneAt(rs: seq<Request>, i: nat, pending: Pending): Places {
    set j: nat | j < |rs| && (j < i || (rs[j].group != "" && rs[j].group in pending))
  }

  predicate Started(rs: seq<Request>, i: nat, pending: Pending) {
    forall g <- pending :: exists f :: 0 <= f < i && f < |rs| && rs[f].group == g
  }

  lemma DoneWithEarlier(rs: seq<Request>, i: nat, pending: Pending, k: nat)
    requires k in DoneAt(rs, i, pending)
    ensures WithEarlier(rs, DoneAt(rs, i, pending), k)
  {
  }

  lemma DependencyPlace(rs: seq<Request>, k: nat, d: nat) returns (j: nat)
    requires k < |rs| && d < |rs[k].dependsOn| && DependenciesEarlier(rs)
    ensures j < k && rs[j].id == rs[k].dependsOn[d] && rs[j].id != ""
  {
    assert DependsEarlier(rs, k);
    assert IdBefore(rs, rs[k].dependsOn[d], k);
    j :| 0 <= j < k && j < |rs| && rs[j].id == rs[k].dependsOn[d] && rs[k].dependsOn[d] != "";
  }

  lemma DonePlaced(rs: seq<Request>, i: nat, pending: Pending, k: nat)
    requires Validated(rs) && Started(rs, i, pending) && "" !in pending && k < |rs|
    requires k in DoneAt(rs, i, pending) || k == i
    ensures Placed(rs, DoneAt(rs, i, pending), k)
  {
    hide DistinctIds, DependenciesEarlier;
    var done := DoneAt(rs, i, pending);
    forall d | 0 <= d < |rs[k].dependsOn| ensures HasPlace(rs, done, rs[k].dependsOn[d]) {
      var j := DependencyPlace(rs, k, d);
      if j >= i {
        var f :| 0 <= f < i && rs[f].group == rs[k].group;
        assert f < j ==> rs[j].group == rs[f].group;
      }
      assert j in done;
    }
  }

  /** A changeset that is met at its first member. */
  lemma GroupPlaced(rs: seq<Request>, i: nat, pending: Pending)
    requires Validated(rs) && i < |rs| && rs[i].group != "" && rs[i].group !in pending
    requires forall k :: 0 <= k < i && rs[k].group != "" ==> rs[k].group in pending
    ensures PlacedAll(rs, DoneAt(rs, i, pending), GroupFrom(rs, rs[i].group, 0))
  {
    hide DistinctIds, DependenciesEarlier, Contiguous, GroupFrom;
    var g, done := rs[i].group, DoneAt(rs, i, pending);
    var order := GroupFrom(rs, g, 0);
    GroupMembers(rs, g, 0);
    GroupIncreasing(rs, g, 0);
    forall k | 0 <= k < |order| ensures Placed(rs, done + Taken(order[..k]), order[k]) {
      forall d | 0 <= d < |rs[order[k]].dependsOn|
        ensures HasPlace(rs, done + Taken(order[..k]), rs[order[k]].dependsOn[d])
      {
        var j := DependencyPlace(rs, order[k], d);
        if j >= i {
          BetweenMembers(rs, i, j, order[k]);
          AllMembers(rs, g, 0, j);
          var c :| 0 <= c < |order| && order[c] == j;
          assert c < k && order[..k][c] == j;
        }
        assert j in done + Taken(order[..k]);
      }
    }
  }

  lemma BetweenMembers(rs: seq<Request>, i: nat, j: nat, k: nat)
    requires Contiguous(rs) && i <= j < k < |rs| && rs[i].group != "" && rs[i].group == rs[k].group
    ensures rs[j].group == rs[i].group
  {
  }

  ghost predicate RightSoFar(w: World, rs: seq<Request>, i: nat, trace: seq<Event>, pending: Pending, responses: seq<Entry>)
    requires i <= |rs|
  {
    && |responses| == i && (forall k :: 0 <= k < i ==> Right(w, rs, trace, k, responses[k].status))
    && forall g <- pending :: AllRight(w, rs, trace, GroupFrom(rs, g, i), pending[g])
  }

  ghost predicate Good(w: World, rs: seq<Request>, i: nat, st: State, pending: Pending, responses: seq<Entry>)
    requires i <= |rs|
  {
    && Aligned(rs, i, pending, responses) && Started(rs, i, pending)
    && Kept(w, rs, st, DoneAt(rs, i, pending)) && RightSoFar(w, rs, i, st.trace, pending, responses)
  }

  lemma SoFarKept(w: World, rs: seq<Request>, i: nat, before: seq<Event>, after: seq<Event>, pending: Pending, responses: seq<Entry>)
    requires i <= |rs| && Started(rs, i, pending) && "" !in pending
    requires Extends(rs, DoneAt(rs, i, pending), before, after) && RightSoFar(w, rs, i, before, pending, responses)
    ensures RightSoFar(w, rs, i, after, pending, responses)
  {
    hide Extends, Right, DoneAt, Validated, GroupFrom, Started;
    forall k | 0 <= k < i ensures Right(w, rs, after, k, responses[k].status) {
      PlaceRight(w, rs, i, before, after, pending, k, responses[k].status);
    }
    forall g <- pending ensures AllRight(w, rs, after, GroupFrom(rs, g, i), pending[g]) {
      GroupMembers(rs, g, i);
      var order := GroupFrom(rs, g, i);
      forall m | 0 <= m < |order| ensures Right(w, rs, after, order[m], pending[g][m].status) {
        PlaceRight(w, rs, i, before, after, pending, order[m], pending[g][m].status);
      }
    }
  }

  lemma PlaceRight(w: World, rs: seq<Request>, i: nat, before: seq<Event>, after: seq<Event>, pending: Pending, k: nat, status: int)
    requires i <= |rs| && Started(rs, i, pending) && "" !in pending && k < |rs| && (k < i || rs[k].group in pending)
    requires Extends(rs, DoneAt(rs, i, pending), before, after) && Right(w, rs, before, k, status)
    ensures Right(w, rs, after, k, status)
  {
    hide Extends, Right, Validated, Started, Placed, WithEarlier;
    assert k in DoneAt(rs, i, pending);
    hide DoneAt;
    DoneWithEarlier(rs, i, pending, k);
    if Validated(rs) {
      DonePlaced(rs, i, pending, k);
    }
    RightKept(w, rs, DoneAt(rs, i, pending), before, after, k, status);
  }

  lemma PlainGood(w: World, rs: seq<Request>, i: nat, st: State, pending: Pending, responses: seq<Entry>)
    requires i < |rs| && rs[i].group == "" && Good(w, rs, i, st, pending, responses)
    ensures var (next, left, r) := Next(w, rs, i, st, pending);
            && Kept(w, rs, next, DoneAt(rs, i + 1, left))
            && (r.Ok? ==> Good(w, rs, i + 1, next, left, responses + r.value))
  {
    hide Extends, Kept, Validated, Started, RightSoFar, Turns, DoneAt, Own, Aligned, RunGroup;
    var done := DoneAt(rs, i, pending);
    assert "" !in pending by { NoPlainPending(rs, i, pending, responses); }
    assert Positions(rs, [i]) && Increasing([i]);
    PlainPlaces(rs, i, pending);
    if Validated(rs) {
      DonePlaced(rs, i, pending, i);
      OnePlaced(rs, done, i);
    }
    var n := GroupStep(w, rs, [i], false, st, done);
    var (next, left, r) := Next(w, rs, i, st, pending);
    TakenPart([i], n);
    assert [i] == [i][..|[i]|];
    OneTaken([i], 1);
    KeptMore(w, rs, next, done + Taken([i][..n]), done + {i});
    StartedStays(rs, i, pending);
    if r.Ok? {
      SoFarKept(w, rs, i, st.trace, next.trace, pending, responses);
      NextAligned(w, rs, i, st, pending, responses);
      PlainTurn(w, rs, i, next.trace, r.value);
      OneMoreRight(w, rs, i, next.trace, pending, responses, r.value);
    }
  }

  lemma NoPlainPending(rs: seq<Request>, i: nat, pending: Pending, responses: seq<Entry>)
    requires i <= |rs| && Aligned(rs, i, pending, responses)
    ensures "" !in pending && forall k :: 0 <= k < i && rs[k].group != "" ==> rs[k].group in pending
  {
    hide Matched, Reported;
  }

  lemma PlainPlaces(rs: seq<Request>, i: nat, pending: Pending)
    requires i < |rs| && rs[i].group == ""
    ensures Untouched([i], DoneAt(rs, i, pending)) && DoneAt(rs, i + 1, pending) == DoneAt(rs, i, pending) + {i}
  {
  }

  lemma OnePlaced(rs: seq<Request>, done: Places, i: nat)
    requires i < |rs| && Placed(rs, done, i)
    ensures PlacedAll(rs, done, [i])
  {
    hide Placed;
    assert Taken([i][..0]) == {} && done + {} == done;
  }

  lemma StartedStays(rs: seq<Request>, i: nat, pending: Pending)
    requires Started(rs, i, pending)
    ensures Started(rs, i + 1, pending)
  {
    forall g <- pending ensures exists f :: 0 <= f < i + 1 && f < |rs| && rs[f].group == g {
      var f :| 0 <= f < i && f < |rs| && rs[f].group == g;
      assert f < i + 1;
    }
  }

  lemma PlainTurn(w: World, rs: seq<Request>, i: nat, trace: seq<Event>, entries: seq<Entry>)
    requires i < |rs| && rs[i].group == "" && Turns(w, rs, trace, [i], false, entries)
    ensures |entries| == 1 && Right(w, rs, trace, i, entries[0].status)
  {
    hide Own;
    assert |entries| == 1;
    assert [i][0] == i;
  }

  lemma OneMoreRight(w: World, rs: seq<Request>, i: nat, trace: seq<Event>, pending: Pending, responses: seq<Entry>, entries: seq<Entry>)
    requires i < |rs| && rs[i].group == "" && "" !in pending && RightSoFar(w, rs, i, trace, pending, responses)
    requires |entries| == 1 && Right(w, rs, trace, i, entries[0].status)
    ensures RightSoFar(w, rs, i + 1, trace, pending, responses + entries)
  {
    hide Right;
    assert forall k :: 0 <= k < i ==> (responses + entries)[k] == responses[k];
    forall g <- pending ensures AllRight(w, rs, trace, GroupFrom(rs, g, i + 1), pending[g]) {
      assert GroupFrom(rs, g, i) == GroupFrom(rs, g, i + 1);
    }
  }

  // a changeset's turn

  lemma MemberPlaces(rs: seq<Request>, i: nat, pending: Pending, entries: seq<Entry>)
    requires i < |rs| && rs[i].group != ""
    ensures var g := rs[i].group;
            && DoneAt(rs, i + 1, pending[g := entries]) == DoneAt(rs, i, pending) + Taken(GroupFrom(rs, g, 0))
            && (g in pending ==> DoneAt(rs, i + 1, pending[g := entries]) == DoneAt(rs, i, pending))
  {
    hide GroupFrom;
    var g := rs[i].group;
    var order := GroupFrom(rs, g, 0);
    GroupMembers(rs, g, 0);
    forall j: nat | j < |rs| && rs[j].group == g ensures j in Taken(order) {
      AllMembers(rs, g, 0, j);
      var c :| 0 <= c < |order| && order[c] == j;
    }
  }

  lemma Unmet(rs: seq<Request>, i: nat, pending: Pending)
    requires i < |rs| && rs[i].group != "" && rs[i].group !in pending
    requires forall k :: 0 <= k < i && rs[k].group != "" ==> rs[k].group in pending
    ensures forall j <- DoneAt(rs, i, pending) :: j < |rs| ==> rs[j].group != rs[i].group
    ensures GroupFrom(rs, rs[i].group, 0) == GroupFrom(rs, rs[i].group, i) != []
  {
    GroupStarts(rs, rs[i].group, 0, i);
  }

  lemma FrontGood(w: World, rs: seq<Request>, i: nat, st: State, pending: Pending, responses: seq<Entry>)
    requires i < |rs| && rs[i].group != "" && Good(w, rs, i, st, pending, responses)
    ensures var (next, r) := Front(w, rs, i, st, pending);
            && Kept(w, rs, next, DoneAt(rs, i + 1, pending[rs[i].group := []]))
            && RightSoFar(w, rs, i, next.trace, pending, responses)
            && (r.Ok? ==> AllRight(w, rs, next.trace, GroupFrom(rs, rs[i].group, i), r.value))
  {
    hide Extends, Kept, Validated, Started, DoneAt, Aligned, GroupFrom, ChangesetEntries, Right, Taken, PlacedAll;
    var g := rs[i].group;
    NoPlainPending(rs, i, pending, responses);
    MemberPlaces(rs, i, pending, []);
    if g !in pending {
      Unmet(rs, i, pending);
      if Validated(rs) {
        GroupPlaced(rs, i, pending);
      }
      ChangesetStep(w, rs, g, st, DoneAt(rs, i, pending));
      var (next, r) := ChangesetEntries(w, rs, g, st);
      SoFarKept(w, rs, i, st.trace, next.trace, pending, responses);
    }
  }

  lemma MemberGood(w: World, rs: seq<Request>, i: nat, st: State, pending: Pending, responses: seq<Entry>)
    requires i < |rs| && rs[i].group != "" && Good(w, rs, i, st, pending, responses)
    ensures var (next, left, r) := Next(w, rs, i, st, pending);
            && Kept(w, rs, next, DoneAt(rs, i + 1, pending[rs[i].group := []]))
            && (r.Ok? ==> Good(w, rs, i + 1, next, left, responses + r.value))
  {
    hide Kept, Started, RightSoFar, DoneAt, Aligned, GroupFrom, ChangesetEntries, AllRight, Next;
    FrontGood(w, rs, i, st, pending, responses);
    NextOfGroup(w, rs, i, st, pending, responses);
    var (next, left, r) := Next(w, rs, i, st, pending);
    if r.Ok? {
      NextAligned(w, rs, i, st, pending, responses);
      var entries := Front(w, rs, i, st, pending).1.value;
      MemberPlaces(rs, i, pending, []);
      MemberPlaces(rs, i, pending, entries[1..]);
      StartedMore(rs, i, pending, entries[1..]);
      OneMemberRight(w, rs, i, next.trace, pending, responses, entries);
    }
  }

  lemma StartedMore(rs: seq<Request>, i: nat, pending: Pending, entries: seq<Entry>)
    requires i < |rs| && Started(rs, i, pending)
    ensures Started(rs, i + 1, pending[rs[i].group := entries])
  {
    StartedStays(rs, i, pending);
  }

  lemma OneMemberRight(w: World, rs: seq<Request>, i: nat, trace: seq<Event>, pending: Pending, responses: seq<Entry>, entries: seq<Entry>)
    requires i < |rs| && entries != [] && RightSoFar(w, rs, i, trace, pending, responses)
    requires AllRight(w, rs, trace, GroupFrom(rs, rs[i].group, i), entries)
    ensures RightSoFar(w, rs, i + 1, trace, pending[rs[i].group := entries[1..]], responses + [entries[0]])
  {
    hide Right;
    var g, more, left := rs[i].group, responses + [entries[0]], pending[rs[i].group := entries[1..]];
    GroupUnfolds(rs, g, i);
    assert GroupFrom(rs, g, i)[0] == i;
    assert forall k :: 0 <= k < i ==> more[k] == responses[k];
    forall h <- left ensures AllRight(w, rs, trace, GroupFrom(rs, h, i + 1), left[h]) {
      if h == g {
        hide GroupFrom;
        var rest := GroupFrom(rs, g, i + 1);
        assert forall k :: 0 <= k < |rest| ==> rest[k] == GroupFrom(rs, g, i)[k + 1] && entries[1..][k] == entries[k + 1];
      } else {
        assert GroupFrom(rs, h, i) == GroupFrom(rs, h, i + 1);
      }
    }
  }

  lemma {:induction false} RunGood(w: World, rs: seq<Request>, i: nat, st: State, pending: Pending, responses: seq<Entry>)
    returns (done: Places)
    requires i <= |rs| && Good(w, rs, i, st, pending, responses)
    ensures var (last, r) := RunFrom(w, rs, i, st, pending, responses);
            && Kept(w, rs, last, done)
            && (r.Ok? ==> |r.value| == |rs| && forall k :: 0 <= k < |rs| ==> Right(w, rs, last.trace, k, r.value[k].status))
    decreases |rs| - i
  {
    hide Good, Kept, Next, Right;
    if i == |rs| {
      done := DoneAt(rs, i, pending);
      AtEnd(w, rs, st, pending, responses);
    } else {
      var (next, left, r) := Next(w, rs, i, st, pending);
      if rs[i].group == "" {
        PlainGood(w, rs, i, st, pending, responses);
        done := DoneAt(rs, i + 1, left);
      } else {
        MemberGood(w, rs, i, st, pending, responses);
        done := DoneAt(rs, i + 1, pending[rs[i].group := []]);
      }
      if r.Ok? {
        done := RunGood(w, rs, i + 1, next, left, responses + r.value);
      }
    }
  }

  lemma AtEnd(w: World, rs: seq<Request>, st: State, pending: Pending, responses: seq<Entry>)
    requires Good(w, rs, |rs|, st, pending, responses)
    ensures Kept(w, rs, st, DoneAt(rs, |rs|, pending))
    ensures |responses| == |rs| && forall k :: 0 <= k < |rs| ==> Right(w, rs, st.trace, k, responses[k].status)
  {
    hide Kept, Right, Aligned;
  }

  lemma GoodStart(w: World, rs: seq<Request>)
    ensures Good(w, rs, 0, START, map[], [])
  {
  }

  lemma RunKept(w: World, rs: seq<Request>) returns (done: Places)
    ensures Kept(w, rs, RunBatch(w, rs).0, done)
  {
    hide Good, Kept, RunFrom, Right;
    GoodStart(w, rs);
    done := RunGood(w, rs, 0, START, map[], []);
  }

  // ------------------------------------------------------------------ main results

  /** Every response of a returned batch carries the status the trace gives its request. */
  lemma EveryAnswerIsRight(w: World, rs: seq<Request>)
    ensures var (st, r) := RunBatch(w, rs);
            && Once(st.trace) && (forall p :: 0 <= p < |st.trace| ==> Genuine(w, st.trace[p]))
            && (r.Ok? ==> |r.value| == |rs| && forall k :: 0 <= k < |rs| ==> Right(w, rs, st.trace, k, r.value[k].status))
  {
    hide Good, Kept, RunFrom, Right;
    GoodStart(w, rs);
    var done := RunGood(w, rs, 0, START, map[], []);
    OnceKept(w, rs, RunBatch(w, rs).0, done);
  }

  /** In every run, returned or refused, a changeset is only committed after its handler calls were
      all answered below 400. */
  lemma OnlySuccessCommits(w: World, rs: seq<Request>, p: nat, m: nat, s: int)
    requires var trace := RunBatch(w, rs).0.trace;
             p < |trace| && trace[p].Committed? && m < |rs| && rs[m].group == trace[p].group
    ensures var trace := RunBatch(w, rs).0.trace;
            Well(w, trace, m) && (s >= 400 ==> !Responded(trace, m, s))
  {
    hide RunBatch, DistinctIds, Well;
    var done := RunKept(w, rs);
    var trace := RunBatch(w, rs).0.trace;
    assert CommitEarned(w, rs, trace, trace[p].group) && Once(trace);
    if s >= 400 {
      WellOnce(w, trace, m, s);
    }
  }

  lemma WellOnce(w: World, trace: seq<Event>, m: nat, s: int)
    requires Once(trace) && Well(w, trace, m) && s >= 400
    ensures !Responded(trace, m, s)
  {
    hide Once, Responded;
    var t :| t < 400 && Responded(trace, m, t);
    if Responded(trace, m, s) {
      RespondedOnce(trace, m, s, t);
    }
  }

  /** Every recorded result is the handled status of the request with that id, or, if it was not
      run, 424 or 501. */
  lemma ResultsAreHandled(w: World, rs: seq<Request>, id: string)
    requires DistinctIds(rs) && id in RunBatch(w, rs).0.results
    ensures var st := RunBatch(w, rs).0;
            exists j: nat :: j < |rs| && rs[j].id == id &&
              if WasRun(st.trace, j) then Responded(st.trace, j, st.results[id].status)
              else st.results[id].status == 424 || st.results[id].status == 501
  {
    hide RunBatch, DistinctIds, Responded, WasRun, Tidy;
    var done := RunKept(w, rs);
    var st := RunBatch(w, rs).0;
    var j :| ResultOf(w, rs, st.trace, done, id, st.results[id].status, j);
  }

  lemma DirectSuccess(w: World, rs: seq<Request>, st: State, done: Places, i: nat, j: nat)
    requires DistinctIds(rs) && Kept(w, rs, st, done) && i < |rs| && j < |rs| && rs[i].id in rs[j].dependsOn
    requires WasRun(st.trace, j)
    ensures Well(w, st.trace, i)
  {
    hide Well, DistinctIds, Recorded, Owned, Tidy;
    var p :| 0 <= p < |st.trace| && Runs(st.trace[p], j);
    assert MetAt(w, rs, st.trace, p);
    var d :| 0 <= d < |rs[j].dependsOn| && rs[j].dependsOn[d] == rs[i].id;
    assert Succeeded(w, rs, st.trace[..p], rs[j].dependsOn[d]);
    var k: nat :| k < |rs| && rs[k].id == rs[i].id && Well(w, st.trace[..p], k);
    SameId(rs, i, k);
    assert Extends(rs, {}, st.trace[..p], st.trace);
    WellLasts(w, rs, st.trace[..p], st.trace, i);
  }

  lemma SameId(rs: seq<Request>, i: nat, k: nat)
    requires DistinctIds(rs) && i < |rs| && k < |rs| && rs[i].id == rs[k].id && rs[i].id != ""
    ensures i == k
  {
    assert i < k || k < i || i == k;
  }

  lemma {:induction false} PathSucceeded(w: World, rs: seq<Request>, st: State, done: Places, path: seq<nat>)
    requires DistinctIds(rs) && Kept(w, rs, st, done) && |path| >= 2 && DependencyPath(rs, path)
    requires WasRun(st.trace, path[|path| - 1])
    ensures Well(w, st.trace, path[0])
    decreases |path|
  {
    hide Kept, DistinctIds, Well, WasRun;
    if |path| > 2 {
      var rest := path[1..];
      assert forall k :: 0 <= k < |rest| ==> rest[k] == path[k + 1];
      forall k | 0 <= k < |rest| - 1 ensures DependsAt(rs, rest, k) {
        assert DependsAt(rs, path, k + 1);
      }
      PathSucceeded(w, rs, st, done, rest);
      WellWasRun(w, st.trace, path[1]);
    }
    assert DependsAt(rs, path, 0);
    DirectSuccess(w, rs, st, done, path[0], path[1]);
  }

  lemma WellWasRun(w: World, trace: seq<Event>, j: nat)
    requires Well(w, trace, j)
    ensures WasRun(trace, j)
  {
    var s :| s < 400 && Responded(trace, j, s);
    var p :| 0 <= p < |trace| && RunsWith(trace[p], j, s);
    assert Runs(trace[p], j);
  }

  /** If the handler answers a request with 400 or above, or is not called for it, it is never called for any
      request that depends on it, directly or through others. */
  lemma NoDependentOfFailureRuns(w: World, rs: seq<Request>, path: seq<nat>, s: int)
    requires DistinctIds(rs) && |path| >= 2 && DependencyPath(rs, path)
    ensures var trace := RunBatch(w, rs).0.trace;
            !WasRun(trace, path[0]) || (s >= 400 && Responded(trace, path[0], s)) ==> !WasRun(trace, path[|path| - 1])
  {
    hide RunBatch, DistinctIds, WasRun, Well, DependencyPath, Exact;
    var done := RunKept(w, rs);
    var st := RunBatch(w, rs).0;
    OnceKept(w, rs, st, done);
    hide Kept;
    if WasRun(st.trace, path[|path| - 1]) {
      PathSucceeded(w, rs, st, done, path);
      WellWasRun(w, st.trace, path[0]);
      if s >= 400 {
        WellOnce(w, st.trace, path[0], s);
      }
    }
  }

  // ------------------------------------------------------------------ nothing refused without a cause

  /** Nothing throws, everything fits, no Content-ID is referred to, and changesets only write. */
  ghost predicate Smooth(w: World, rs: seq<Request>) {
    && w.fitsAtEnd && (forall i :: w.fits(i))
    && (forall i: nat, p :: i < |rs| ==> w.handle(i, p).Responds? && !w.handle(i, p).keyMissing)
    && (forall i :: 0 <= i < |rs| ==> rs[i].references == [])
    && forall i :: 0 <= i < |rs| && rs[i].group != "" ==> SmoothGroup(w, rs[i])
  }

  predicate SmoothGroup(w: World, r: Request) {
    r.isWrite && !w.begin(r.group).NotBegun? && w.commit(r.group).None? && w.rollbackSucceeds(r.group)
  }

  lemma {:induction false} GroupRuns(w: World, rs: seq<Request>, order: seq<nat>, abort: bool, st: State)
    requires Positions(rs, order) && Smooth(w, rs)
    ensures RunGroup(w, rs, order, abort, st).1.Ok?
    decreases |order|
  {
    hide DependencyFails, Prepare, Record;
    if order != [] {
      assert RunRequest(w, rs, order[0], st).1.Ok?;
      hide RunRequest, Smooth;
      GroupRuns(w, rs, order[1..], abort, RunRequest(w, rs, order[0], st).0);
    }
  }

  lemma {:induction false} AnswersRun(w: World, rs: seq<Request>, order: seq<nat>, status: int, st: State)
    requires Positions(rs, order) && forall i :: w.fits(i)
    ensures AnswerAll(w, rs, order, status, st).1.Ok?
    decreases |order|
  {
    if order != [] {
      var entry := Entry(rs[order[0]].id, status, "");
      AnswersRun(w, rs, order[1..], status, st.(results := Noted(st.results, entry.id, entry)));
    }
  }

  lemma ChangesetRuns(w: World, rs: seq<Request>, g: string, st: State)
    requires Smooth(w, rs) && g != "" && GroupFrom(rs, g, 0) != []
    ensures var (next, r) := ChangesetEntries(w, rs, g, st); r.Ok? && ReportsKept(st.trace, next.trace)
  {
    hide RunGroup, AnswerAll, GroupFrom, Publish, HasFailure, ReportsKept;
    var order := GroupFrom(rs, g, 0);
    GroupMembers(rs, g, 0);
    assert SmoothGroup(w, rs[order[0]]);
    assert OnlyWrites(rs, order) by {
      forall k | 0 <= k < |order| ensures rs[order[k]].isWrite {
        assert SmoothGroup(w, rs[order[k]]);
      }
    }
    ChangesetQuiet(w, rs, order, g, st);
    var begun := WithEvent(st, Began(g));
    GroupRuns(w, rs, order, true, begun);
    var ran := RunGroup(w, rs, order, true, begun);
    var n := |ran.1.value|;
    AnswersRun(w, rs, if n <= |order| then order[n..] else [], 424, WithEvent(ran.0.(maps := st.maps), RolledBack(g)));
    AnswersRun(w, rs, order, 501, st);
  }

  lemma {:induction false} BatchRuns(w: World, rs: seq<Request>, i: nat, st: State, pending: Pending, responses: seq<Entry>)
    requires i <= |rs| && Smooth(w, rs) && forall g, error :: !Told(st.trace, g, error)
    ensures var (next, r) := RunFrom(w, rs, i, st, pending, responses);
            r.Ok? && forall g, error :: !Told(next.trace, g, error)
    decreases |rs| - i
  {
    hide Smooth, RunGroup, ChangesetEntries, ReportsKept, Told, GroupFrom;
    if i < |rs| {
      var (next, left, r) := Next(w, rs, i, st, pending);
      if rs[i].group == "" {
        GroupRuns(w, rs, [i], false, st);
        GroupReportsNothing(w, rs, [i], false, st);
      } else if rs[i].group !in pending {
        AllMembers(rs, rs[i].group, 0, i);
        ChangesetRuns(w, rs, rs[i].group, st);
      }
      forall g, error ensures !Told(next.trace, g, error) {
        if ReportsKept(st.trace, next.trace) {
          SameReports(st.trace, next.trace, g, error);
        }
      }
      BatchRuns(w, rs, i + 1, next, left, responses + r.value);
    }
  }

  /** A batch in which nothing goes wrong outside the handlers' answers is returned, with no error
      told for a changeset. */
  lemma NoCauseNoRefusal(w: World, rs: seq<Request>)
    requires Smooth(w, rs)
    ensures RunBatch(w, rs).1.Ok? && forall g, error :: !Told(RunBatch(w, rs).0.trace, g, error)
  {
    hide RunFrom;
    assert w.fitsAtEnd;
    hide Smooth;
    BatchRuns(w, rs, 0, START, map[], []);
  }

  // a dependency on a changeset that was rolled back

  const FAILS_SECOND: World := World((i, p) => Responds(if i == 1 then 409 else 201, "", "", false), g => Begun, g => None,
                                     g => true, (i, ts) => "", i => true, true)
  const ON_ROLLED_BACK: seq<Request> := [
    Request("1", "g", [], true, [], false), Request("2", "g", [], true, [], false), Request("3", "", ["1"], true, [], false)]

  lemma RolledBackValid()
    ensures Validated(ON_ROLLED_BACK) && |ON_ROLLED_BACK| == 3
  {
    var rs := ON_ROLLED_BACK;
    assert IdBefore(rs, "1", 2) by {
      assert rs[0].id == "1";
    }
    hide IdBefore;
    assert DependsEarlier(rs, 0) && DependsEarlier(rs, 1) && DependsEarlier(rs, 2);
  }

  lemma RolledBackSmooth()
    ensures Smooth(FAILS_SECOND, ON_ROLLED_BACK)
  {
  }

  /** The handler is called for `k` and answers as its world says. */
  lemma AnswerIs(w: World, trace: seq<Event>, k: nat, s: int, status: int)
    requires forall p :: 0 <= p < |trace| ==> Genuine(w, trace[p])
    requires forall p :: w.handle(k, p).Responds? && w.handle(k, p).status == s
    requires Responded(trace, k, status)
    ensures status == s
  {
    var p :| 0 <= p < |trace| && RunsWith(trace[p], k, status);
    assert Genuine(w, trace[p]);
  }

  /** Request `k`, which is not behind a failed member, is answered by its handler if its dependencies
      succeeded. */
  lemma OwnAnswer(w: World, rs: seq<Request>, trace: seq<Event>, k: nat, status: int, s: int)
    requires k < |rs| && Right(w, rs, trace, k, status) && Validated(rs) && Met(w, rs, trace, k)
    requires rs[k].group != "" ==>
               (forall error :: !Told(trace, rs[k].group, error)) && !w.begin(rs[k].group).Rejected? && !EarlierFailed(rs, trace, k)
    requires forall p :: 0 <= p < |trace| ==> Genuine(w, trace[p])
    requires w.fits(k) && forall p :: w.handle(k, p).Responds? && w.handle(k, p).status == s
    ensures status == s && Responded(trace, k, s) && (s < 400 ==> Well(w, trace, k))
  {
    hide WasRun, Met, Told, EarlierFailed, Validated, Responded, Genuine;
    AnswerIs(w, trace, k, s, status);
  }

  /** A dependency on a member of a changeset that was rolled back counts as met when that member
      itself was answered below 400: here the third request runs although the first was undone. */
  lemma RolledBackDependencyRuns()
    ensures var (st, r) := RunBatch(FAILS_SECOND, ON_ROLLED_BACK);
            && r.Ok? && |r.value| == 3 && r.value[0].status == 201 && r.value[1].status == 409 && r.value[2].status == 201
            && Responded(st.trace, 2, 201) && forall p :: 0 <= p < |st.trace| ==> st.trace[p] != Committed("g")
  {
    var w, rs := FAILS_SECOND, ON_ROLLED_BACK;
    RolledBackValid();
    RolledBackSmooth();
    RolledBackShape();
    hide RunBatch, Smooth, Validated, Told, Right, EarlierFailed, Once, Responded, ON_ROLLED_BACK, FAILS_SECOND, Well, Genuine, Met;
    NoCauseNoRefusal(w, rs);
    EveryAnswerIsRight(w, rs);
    var (st, r) := RunBatch(w, rs);
    NothingNeeded(w, rs, st.trace, 0);
    NothingNeeded(w, rs, st.trace, 1);
    FirstInGroup(rs, st.trace);
    OwnAnswer(w, rs, st.trace, 0, r.value[0].status, 201);
    SecondInGroup(w, rs, st.trace);
    OwnAnswer(w, rs, st.trace, 1, r.value[1].status, 409);
    FirstSuffices(w, rs, st.trace);
    OwnAnswer(w, rs, st.trace, 2, r.value[2].status, 201);
    forall p | 0 <= p < |st.trace| ensures st.trace[p] != Committed("g") {
      if st.trace[p] == Committed("g") {
        OnlySuccessCommits(w, rs, p, 1, 409);
      }
    }
  }

  lemma RolledBackShape()
    ensures var rs, w := ON_ROLLED_BACK, FAILS_SECOND;
            && rs[0].group == "g" == rs[1].group && rs[2].group == "" && rs[0].id == "1"
            && rs[0].dependsOn == [] == rs[1].dependsOn && rs[2].dependsOn == ["1"]
            && w.begin("g") == Begun && (forall i :: w.fits(i))
            && forall i, p :: w.handle(i, p).Responds? && w.handle(i, p).status == if i == 1 then 409 else 201
  {
  }

  lemma NothingNeeded(w: World, rs: seq<Request>, trace: seq<Event>, k: nat)
    requires k < |rs| && rs[k].dependsOn == []
    ensures Met(w, rs, trace, k)
  {
  }

  lemma FirstInGroup(rs: seq<Request>, trace: seq<Event>)
    requires rs != []
    ensures !EarlierFailed(rs, trace, 0)
  {
  }

  lemma SecondInGroup(w: World, rs: seq<Request>, trace: seq<Event>)
    requires |rs| > 1 && Well(w, trace, 0) && Once(trace)
    ensures !EarlierFailed(rs, trace, 1)
  {
    hide Once, Responded;
    WellWasRun(w, trace, 0);
    forall s | s >= 400 ensures !Responded(trace, 0, s) {
      WellOnce(w, trace, 0, s);
    }
  }

  lemma FirstSuffices(w: World, rs: seq<Request>, trace: seq<Event>)
    requires |rs| > 2 && rs[0].id == "1" && rs[2].dependsOn == ["1"] && Well(w, trace, 0)
    ensures Met(w, rs, trace, 2)
  {
    hide Well;
  }
}
