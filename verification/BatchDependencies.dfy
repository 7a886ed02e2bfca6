/** Failure closes over dependencies: in a batch whose ids are distinct, a request that was handed
    to the handler has only dependencies that were, and that succeeded. */
module BatchDependencies {
  import opened ByteStrings
  import opened BatchProtocol
  import opened BatchAtomicity

  type Results = map<string, Entry>

  // ------------------------------------------------------------------ what a run keeps

  predicate HandlesId(e: Event, rs: seq<Request>, id: string) {
    e.Handled? && e.index < |rs| && rs[e.index].id == id
  }

  ghost predicate WasHandled(trace: seq<Event>, rs: seq<Request>, id: string) {
    exists q :: 0 <= q < |trace| && HandlesId(trace[q], rs, id)
  }

  /** A recorded success is the success of a request that ran. */
  ghost predicate Backed(rs: seq<Request>, trace: seq<Event>, results: Results) {
    forall id <- results :: id != "" && (results[id].status < 400 ==> WasHandled(trace, rs, id))
  }

  ghost predicate DependenciesMet(rs: seq<Request>, trace: seq<Event>, results: Results, j: nat)
    requires j < |rs|
  {
    forall d :: 0 <= d < |rs[j].dependsOn| ==>
      var id := rs[j].dependsOn[d];
      id in results && id != "" && results[id].status < 400 && WasHandled(trace, rs, id)
  }

  /** The dependencies of whatever was handed to the handler had been handed to it before. */
  ghost predicate HandledAfter(rs: seq<Request>, trace: seq<Event>, results: Results, p: nat)
    requires p < |trace|
  {
    trace[p].Handled? && trace[p].index < |rs| ==> DependenciesMet(rs, trace[..p], results, trace[p].index)
  }

  ghost predicate Ordered(rs: seq<Request>, trace: seq<Event>, results: Results) {
    forall p :: 0 <= p < |trace| ==> HandledAfter(rs, trace, results, p)
  }

  ghost predicate Sound(rs: seq<Request>, st: State) {
    Backed(rs, st.trace, st.results) && Ordered(rs, st.trace, st.results)
  }

  /** Results are only added, and only for these requests. */
  predicate Adds(rs: seq<Request>, order: seq<nat>, before: Results, after: Results)
    requires Positions(rs, order)
  {
    && (forall id <- before :: id in after && after[id] == before[id])
    && (forall id <- after :: id in before || IdOf(rs, order, id))
  }

  predicate IdOf(rs: seq<Request>, order: seq<nat>, id: string)
    requires Positions(rs, order)
  {
    exists k :: 0 <= k < |order| && rs[order[k]].id == id
  }

  predicate Fresh(rs: seq<Request>, order: seq<nat>, results: Results)
    requires Positions(rs, order)
  {
    forall k :: 0 <= k < |order| ==> rs[order[k]].id !in results
  }

  predicate Increasing(order: seq<nat>) {
    forall j, k :: 0 <= j < k < |order| ==> order[j] < order[k]
  }

  lemma WasHandledLasts(trace: seq<Event>, more: seq<Event>, rs: seq<Request>, id: string)
    requires WasHandled(trace, rs, id)
    ensures WasHandled(trace + more, rs, id)
  {
    var q :| 0 <= q < |trace| && HandlesId(trace[q], rs, id);
    assert HandlesId((trace + more)[q], rs, id);
  }

  lemma BackedLasts(rs: seq<Request>, trace: seq<Event>, more: seq<Event>, results: Results)
    requires Backed(rs, trace, results)
    ensures Backed(rs, trace + more, results)
  {
    hide WasHandled;
    forall id <- results ensures results[id].status < 400 ==> WasHandled(trace + more, rs, id) {
      if results[id].status < 400 {
        WasHandledLasts(trace, more, rs, id);
      }
    }
  }

  lemma OrderedOneMore(rs: seq<Request>, trace: seq<Event>, e: Event, results: Results)
    requires Ordered(rs, trace, results)
    requires e.Handled? && e.index < |rs| ==> DependenciesMet(rs, trace, results, e.index)
    ensures Ordered(rs, trace + [e], results)
  {
    hide DependenciesMet;
    var after := trace + [e];
    forall p | 0 <= p < |after| ensures HandledAfter(rs, after, results, p) {
      if p < |trace| {
        assert HandledAfter(rs, trace, results, p);
        assert after[..p] == trace[..p] && after[p] == trace[p];
      } else {
        assert after[..p] == trace && after[p] == e;
      }
    }
  }

  lemma OrderedWithMore(rs: seq<Request>, trace: seq<Event>, results: Results, more: Results)
    requires Ordered(rs, trace, results) && forall id <- results :: id in more && more[id] == results[id]
    ensures Ordered(rs, trace, more)
  {
    hide WasHandled;
    forall p | 0 <= p < |trace| ensures HandledAfter(rs, trace, more, p) {
      assert HandledAfter(rs, trace, results, p);
    }
  }

  // ------------------------------------------------------------------ one request

  lemma MetWhenNotFailing(rs: seq<Request>, st: State, j: nat)
    requires j < |rs| && Sound(rs, st) && !DependencyFails(st.results, rs[j].dependsOn)
    ensures DependenciesMet(rs, st.trace, st.results, j)
  {
    hide Ordered, WasHandled;
    forall d | 0 <= d < |rs[j].dependsOn|
      ensures var id := rs[j].dependsOn[d];
              id in st.results && id != "" && st.results[id].status < 400 && WasHandled(st.trace, rs, id)
    {
      assert !(rs[j].dependsOn[d] !in st.results || st.results[rs[j].dependsOn[d]].status >= 400);
    }
  }

  /** Noting a result for a request that had none. */
  lemma NotedSound(rs: seq<Request>, i: nat, trace: seq<Event>, results: Results, entry: Entry)
    requires i < |rs| && Backed(rs, trace, results) && Ordered(rs, trace, results) && rs[i].id !in results
    requires entry.status < 400 ==> WasHandled(trace, rs, rs[i].id)
    ensures var after := Noted(results, rs[i].id, entry);
            Backed(rs, trace, after) && Ordered(rs, trace, after) && Adds(rs, [i], results, after)
  {
    hide WasHandled, Ordered;
    var after := Noted(results, rs[i].id, entry);
    OrderedWithMore(rs, trace, results, after);
    assert rs[[i][0]].id == rs[i].id;
  }

  lemma HandledLast(rs: seq<Request>, trace: seq<Event>, i: nat, p: Prepared, o: Outcome)
    requires i < |rs|
    ensures WasHandled(trace + [Handled(i, p, o)], rs, rs[i].id)
  {
    assert HandlesId((trace + [Handled(i, p, o)])[|trace|], rs, rs[i].id);
  }

  lemma AddsNothing(rs: seq<Request>, order: seq<nat>, results: Results)
    requires Positions(rs, order)
    ensures Adds(rs, order, results, results)
  {
  }

  lemma RequestSound(w: World, rs: seq<Request>, i: nat, st: State)
    requires i < |rs| && Sound(rs, st) && rs[i].id !in st.results
    ensures var next := RunRequest(w, rs, i, st).0; Sound(rs, next) && Adds(rs, [i], st.results, next.results)
  {
    hide Backed, Ordered, Adds, DependencyFails, Record, ReferencesKnown, Prepare, WasHandled;
    AddsNothing(rs, [i], st.results);
    if ReferencesKnown(st.maps, rs[i]) {
      if DependencyFails(st.results, rs[i].dependsOn) {
        NotedSound(rs, i, st.trace, st.results, Entry(rs[i].id, 424, ""));
      } else {
        var p := Prepare(w, st.maps, rs[i], i);
        var e := Handled(i, p, w.handle(i, p));
        MetWhenNotFailing(rs, st, i);
        OrderedOneMore(rs, st.trace, e, st.results);
        BackedLasts(rs, st.trace, [e], st.results);
        HandledLast(rs, st.trace, i, p, w.handle(i, p));
        if e.outcome.Responds? {
          NotedSound(rs, i, st.trace + [e], st.results, Entry(rs[i].id, e.outcome.status, ""));
        }
      }
    }
  }

  // ------------------------------------------------------------------ groups

  lemma AddsMore(rs: seq<Request>, order: seq<nat>, n: nat, a: Results, b: Results, c: Results)
    requires Positions(rs, order) && 0 < n <= |order|
    requires Adds(rs, [order[0]], a, b) && Adds(rs, order[1..][..n - 1], b, c)
    ensures Adds(rs, order[..n], a, c)
  {
    var first, rest, all := [order[0]], order[1..][..n - 1], order[..n];
    assert all[0] == first[0];
    assert forall k :: 0 <= k < |rest| ==> rest[k] == all[k + 1];
    forall id <- c ensures id in a || IdOf(rs, all, id) {
      if IdOf(rs, rest, id) {
        var k :| 0 <= k < |rest| && rs[rest[k]].id == id;
        assert rs[all[k + 1]].id == id;
      }
    }
  }

  lemma StillFresh(rs: seq<Request>, order: seq<nat>, n: nat, a: Results, b: Results)
    requires DistinctIds(rs) && Positions(rs, order) && Increasing(order) && n <= |order|
    requires Fresh(rs, order, a) && Adds(rs, order[..n], a, b) && "" !in b
    ensures Fresh(rs, order[n..], b)
  {
    forall k | 0 <= k < |order[n..]| ensures rs[order[n..][k]].id !in b {
      assert order[n..][k] == order[n + k];
      if rs[order[n + k]].id != "" {
        NotEarlier(rs, order, n, n + k);
      }
    }
  }

  lemma NotEarlier(rs: seq<Request>, order: seq<nat>, n: nat, m: nat)
    requires DistinctIds(rs) && Positions(rs, order) && Increasing(order) && n <= m < |order| && rs[order[m]].id != ""
    ensures !IdOf(rs, order[..n], rs[order[m]].id)
  {
    forall j | 0 <= j < n ensures rs[order[..n][j]].id != rs[order[m]].id {
      assert order[j] < order[m];
    }
  }

  lemma NoEmptyId(rs: seq<Request>, st: State)
    requires Sound(rs, st)
    ensures "" !in st.results
  {
  }

  lemma {:induction false} GroupSound(w: World, rs: seq<Request>, order: seq<nat>, abort: bool, st: State) returns (n: nat)
    requires Positions(rs, order) && Increasing(order) && DistinctIds(rs)
    requires Sound(rs, st) && Fresh(rs, order, st.results)
    ensures n <= |order|
    ensures var (next, r) := RunGroup(w, rs, order, abort, st);
            && Sound(rs, next) && Adds(rs, order[..n], st.results, next.results)
            && (r.Ok? ==> n == |r.value|)
    decreases |order|
  {
    hide Sound, RunRequest, Adds, Fresh, DistinctIds;
    n := 0;
    AddsNothing(rs, order[..0], st.results);
    if order != [] {
      assert rs[order[0]].id !in st.results by { FirstFresh(rs, order, st.results); }
      var first := RunRequest(w, rs, order[0], st);
      RequestSound(w, rs, order[0], st);
      NoEmptyId(rs, first.0);
      assert [order[0]] == order[..1];
      StillFresh(rs, order, 1, st.results, first.0.results);
      n := 1;
      if first.1.Ok? && !(abort && first.1.value.status >= 400) {
        var m := GroupSound(w, rs, order[1..], abort, first.0);
        n := m + 1;
        AddsMore(rs, order, n, st.results, first.0.results, RunGroup(w, rs, order[1..], abort, first.0).0.results);
      }
    }
  }

  lemma FirstFresh(rs: seq<Request>, order: seq<nat>, results: Results)
    requires Positions(rs, order) && order != [] && Fresh(rs, order, results)
    ensures rs[order[0]].id !in results
  {
  }

  lemma {:induction false} AnswersSound(w: World, rs: seq<Request>, order: seq<nat>, status: int, st: State)
    requires Positions(rs, order) && Increasing(order) && DistinctIds(rs) && status >= 400
    requires Sound(rs, st) && Fresh(rs, order, st.results)
    ensures var next := AnswerAll(w, rs, order, status, st).0;
            Sound(rs, next) && Adds(rs, order, st.results, next.results)
    decreases |order|
  {
    hide Backed, Ordered, Adds, Fresh, DistinctIds, WasHandled;
    AddsNothing(rs, order, st.results);
    if order != [] && w.fits(order[0]) {
      var entry := Entry(rs[order[0]].id, status, "");
      var next := st.(results := Noted(st.results, entry.id, entry));
      FirstFresh(rs, order, st.results);
      NotedSound(rs, order[0], st.trace, st.results, entry);
      NoEmptyId(rs, next);
      assert [order[0]] == order[..1];
      StillFresh(rs, order, 1, st.results, next.results);
      AnswersSound(w, rs, order[1..], status, next);
      assert order[1..][..|order| - 1] == order[1..] && order[..|order|] == order;
      AddsMore(rs, order, |order|, st.results, next.results, AnswerAll(w, rs, order[1..], status, next).0.results);
    }
  }

  lemma EventSound(rs: seq<Request>, st: State, e: Event)
    requires Sound(rs, st) && !e.Handled?
    ensures Sound(rs, WithEvent(st, e))
  {
    hide Backed, Ordered;
    BackedLasts(rs, st.trace, [e], st.results);
    OrderedOneMore(rs, st.trace, e, st.results);
  }

  lemma AddsPrefix(rs: seq<Request>, order: seq<nat>, n: nat, a: Results, b: Results)
    requires Positions(rs, order) && n <= |order| && Adds(rs, order[..n], a, b)
    ensures Adds(rs, order, a, b)
  {
    assert forall k :: 0 <= k < n ==> order[..n][k] == order[k];
  }

  lemma AddsBoth(rs: seq<Request>, order: seq<nat>, n: nat, a: Results, b: Results, c: Results)
    requires Positions(rs, order) && n <= |order| && Adds(rs, order[..n], a, b) && Adds(rs, order[n..], b, c)
    ensures Adds(rs, order, a, c)
  {
    assert forall k :: 0 <= k < n ==> order[..n][k] == order[k];
    assert forall k :: 0 <= k < |order| - n ==> order[n..][k] == order[n + k];
  }

  lemma TransactionSound(w: World, rs: seq<Request>, order: seq<nat>, g: string, st: State)
    requires Positions(rs, order) && Increasing(order) && DistinctIds(rs)
    requires Sound(rs, st) && Fresh(rs, order, st.results)
    ensures var next := RunInTransaction(w, rs, order, g, st).0;
            Sound(rs, next) && Adds(rs, order, st.results, next.results)
  {
    hide Backed, Ordered, Adds, Fresh, DistinctIds, RunGroup, AnswerAll, HasFailure, Publish, Increasing;
    var begun := WithEvent(st, Began(g));
    EventSound(rs, st, Began(g));
    var n := GroupSound(w, rs, order, true, begun);
    var ran := RunGroup(w, rs, order, true, begun);
    var kept := ran.0.(maps := st.maps);
    AddsPrefix(rs, order, n, st.results, kept.results);
    EventSound(rs, kept, RolledBack(g));
    EventSound(rs, kept, CommitFailed(g));
    EventSound(rs, WithEvent(kept, CommitFailed(g)), RolledBack(g));
    EventSound(rs, kept, Committed(g));
    if ran.1.Ok? {
      NoEmptyId(rs, kept);
      StillFresh(rs, order, n, st.results, kept.results);
      TailIncreasing(order, n);
      var undone := WithEvent(kept, RolledBack(g));
      AnswersSound(w, rs, order[n..], 424, undone);
      AddsBoth(rs, order, n, st.results, kept.results, AnswerAll(w, rs, order[n..], 424, undone).0.results);
    }
  }

  lemma TailIncreasing(order: seq<nat>, n: nat)
    requires n <= |order| && Increasing(order)
    ensures Increasing(order[n..])
  {
  }

  lemma {:induction false} GroupIncreasing(rs: seq<Request>, g: string, from: nat)
    requires from <= |rs|
    ensures Increasing(GroupFrom(rs, g, from))
    decreases |rs| - from
  {
    if from < |rs| {
      GroupMembers(rs, g, from + 1);
      GroupIncreasing(rs, g, from + 1);
    }
  }

  lemma ChangesetSound(w: World, rs: seq<Request>, g: string, st: State)
    requires DistinctIds(rs) && Sound(rs, st) && Fresh(rs, GroupFrom(rs, g, 0), st.results)
    ensures var next := ChangesetEntries(w, rs, g, st).0;
            Sound(rs, next) && Adds(rs, GroupFrom(rs, g, 0), st.results, next.results)
  {
    hide Backed, Ordered, Adds, Fresh, DistinctIds, RunInTransaction, AnswerAll, OnlyWrites, Increasing;
    var order := GroupFrom(rs, g, 0);
    GroupIncreasing(rs, g, 0);
    AddsNothing(rs, order, st.results);
    TransactionSound(w, rs, order, g, st);
    AnswersSound(w, rs, order, 501, st);
    var (next, r) := RunChangeset(w, rs, order, g, st);
    assert Sound(rs, next);
    if r.Err? {
      EventSound(rs, next, ReportedFailure(g, r.error));
    }
  }

  // ------------------------------------------------------------------ the batch

  /** Results belong to requests that were passed, or to changesets that were run. */
  predicate Accounted(rs: seq<Request>, i: nat, pending: Pending, results: Results) {
    && "" !in pending
    && forall id <- results :: exists j :: 0 <= j < |rs| && rs[j].id == id && (j < i || rs[j].group in pending)
  }

  lemma FreshOf(rs: seq<Request>, i: nat, pending: Pending, results: Results, order: seq<nat>)
    requires DistinctIds(rs) && Accounted(rs, i, pending, results) && "" !in results && Positions(rs, order)
    requires forall k :: 0 <= k < |order| ==> order[k] >= i && rs[order[k]].group !in pending
    ensures Fresh(rs, order, results)
  {
    forall k | 0 <= k < |order| ensures rs[order[k]].id !in results {
      var id := rs[order[k]].id;
      forall j | 0 <= j < |rs| && (j < i || rs[j].group in pending) && id != "" ensures rs[j].id != id {
        assert j < order[k] || order[k] < j;
      }
    }
  }

  /** Requests of groups not yet run have not been passed. */
  predicate GroupsRun(rs: seq<Request>, i: nat, pending: Pending) {
    forall k :: 0 <= k < i && k < |rs| && rs[k].group != "" ==> rs[k].group in pending
  }

  lemma NextPlain(w: World, rs: seq<Request>, i: nat, st: State, pending: Pending)
    requires i < |rs| && DistinctIds(rs) && Sound(rs, st) && Accounted(rs, i, pending, st.results)
    requires rs[i].group == "" && GroupsRun(rs, i, pending)
    ensures var (next, left, r) := Next(w, rs, i, st, pending);
            Sound(rs, next) && Accounted(rs, i + 1, left, next.results) && GroupsRun(rs, i + 1, left)
  {
    hide Sound, RunGroup, DistinctIds;
    NoEmptyId(rs, st);
    FreshOf(rs, i, pending, st.results, [i]);
    hide Fresh;
    var n := GroupSound(w, rs, [i], false, st);
    AddsPrefix(rs, [i], n, st.results, RunGroup(w, rs, [i], false, st).0.results);
    AccountedMore(rs, i, pending, st.results, RunGroup(w, rs, [i], false, st).0.results);
  }

  lemma AccountedMore(rs: seq<Request>, i: nat, pending: Pending, before: Results, after: Results)
    requires i < |rs| && Accounted(rs, i, pending, before) && Adds(rs, [i], before, after)
    ensures Accounted(rs, i + 1, pending, after)
  {
    forall id <- after ensures exists j :: 0 <= j < |rs| && rs[j].id == id && (j < i + 1 || rs[j].group in pending) {
      if id in before {
        var j :| 0 <= j < |rs| && rs[j].id == id && (j < i || rs[j].group in pending);
        assert j < i + 1 || rs[j].group in pending;
      } else {
        assert rs[i].id == id;
      }
    }
  }

  lemma AccountedGroup(rs: seq<Request>, i: nat, pending: Pending, g: string, entries: seq<Entry>, before: Results, after: Results)
    requires i < |rs| && g != "" && Accounted(rs, i, pending, before) && Adds(rs, GroupFrom(rs, g, 0), before, after)
    ensures Accounted(rs, i + 1, pending[g := entries], after)
  {
    hide GroupFrom;
    GroupMembers(rs, g, 0);
    var order, left := GroupFrom(rs, g, 0), pending[g := entries];
    forall id <- after ensures exists j :: 0 <= j < |rs| && rs[j].id == id && (j < i + 1 || rs[j].group in left) {
      if id in before {
        var j :| 0 <= j < |rs| && rs[j].id == id && (j < i || rs[j].group in pending);
        assert j < i + 1 || rs[j].group in left;
      } else {
        var k :| 0 <= k < |order| && rs[order[k]].id == id;
        assert rs[order[k]].group in left;
      }
    }
  }

  lemma FreshGroup(rs: seq<Request>, i: nat, pending: Pending, st: State)
    requires i < |rs| && DistinctIds(rs) && Sound(rs, st) && Accounted(rs, i, pending, st.results)
    requires rs[i].group != "" && GroupsRun(rs, i, pending) && rs[i].group !in pending
    ensures Fresh(rs, GroupFrom(rs, rs[i].group, 0), st.results)
  {
    hide Sound, DistinctIds, Accounted;
    var g := rs[i].group;
    NoEmptyId(rs, st);
    GroupStarts(rs, g, 0, i);
    GroupMembers(rs, g, i);
    hide GroupFrom;
    FreshOf(rs, i, pending, st.results, GroupFrom(rs, g, 0));
  }

  lemma NextGrouped(w: World, rs: seq<Request>, i: nat, st: State, pending: Pending)
    requires i < |rs| && DistinctIds(rs) && Sound(rs, st) && Accounted(rs, i, pending, st.results)
    requires rs[i].group != "" && GroupsRun(rs, i, pending)
    ensures var (next, left, r) := Next(w, rs, i, st, pending);
            Sound(rs, next) && (r.Ok? ==> Accounted(rs, i + 1, left, next.results) && GroupsRun(rs, i + 1, left))
  {
    hide Sound, DistinctIds, Accounted, GroupFrom, ChangesetEntries, Adds, Fresh, RunGroup;
    var g := rs[i].group;
    var front := if g in pending then (st, Ok(pending[g])) else ChangesetEntries(w, rs, g, st);
    if g !in pending {
      FreshGroup(rs, i, pending, st);
      ChangesetSound(w, rs, g, st);
    } else {
      AddsNothing(rs, GroupFrom(rs, g, 0), st.results);
    }
    var left := Next(w, rs, i, st, pending).1;
    if front.1.Ok? {
      AccountedGroup(rs, i, pending, g, left[g], st.results, front.0.results);
      assert left == pending[g := left[g]];
    }
  }

  lemma {:induction false} RunSound(w: World, rs: seq<Request>, i: nat, st: State, pending: Pending, responses: seq<Entry>)
    requires i <= |rs| && DistinctIds(rs) && Sound(rs, st)
    requires Accounted(rs, i, pending, st.results) && GroupsRun(rs, i, pending)
    ensures Sound(rs, RunFrom(w, rs, i, st, pending, responses).0)
    decreases |rs| - i
  {
    hide Sound, DistinctIds, Accounted, GroupsRun, Next;
    if i < |rs| {
      var (next, left, r) := Next(w, rs, i, st, pending);
      if rs[i].group == "" {
        NextPlain(w, rs, i, st, pending);
      } else {
        NextGrouped(w, rs, i, st, pending);
      }
      if r.Ok? {
        RunSound(w, rs, i + 1, next, left, responses + r.value);
      }
    }
  }

  // ------------------------------------------------------------------ transitive dependencies

  /** Each request on the path is a direct dependency of the next. */
  predicate DependencyPath(rs: seq<Request>, path: seq<nat>) {
    Positions(rs, path) && forall k :: 0 <= k < |path| - 1 ==> DependsAt(rs, path, k)
  }

  predicate DependsAt(rs: seq<Request>, path: seq<nat>, k: nat)
    requires Positions(rs, path) && k + 1 < |path|
  {
    rs[path[k]].id in rs[path[k + 1]].dependsOn
  }

  ghost predicate Ran(st: State, j: nat) {
    exists p :: 0 <= p < |st.trace| && st.trace[p].Handled? && st.trace[p].index == j
  }

  lemma DirectDependency(rs: seq<Request>, st: State, i: nat, j: nat)
    requires DistinctIds(rs) && Sound(rs, st) && i < |rs| && j < |rs| && rs[i].id in rs[j].dependsOn && Ran(st, j)
    ensures Ran(st, i) && rs[i].id in st.results && st.results[rs[i].id].status < 400
  {
    var p :| 0 <= p < |st.trace| && st.trace[p].Handled? && st.trace[p].index == j;
    assert HandledAfter(rs, st.trace, st.results, p);
    var d :| 0 <= d < |rs[j].dependsOn| && rs[j].dependsOn[d] == rs[i].id;
    assert WasHandled(st.trace[..p], rs, rs[j].dependsOn[d]);
    var q :| 0 <= q < p && HandlesId(st.trace[..p][q], rs, rs[i].id);
    assert st.trace[q].index == i;
  }

  lemma {:induction false} PathRan(rs: seq<Request>, st: State, path: seq<nat>)
    requires DistinctIds(rs) && Sound(rs, st) && |path| >= 2 && DependencyPath(rs, path) && Ran(st, path[|path| - 1])
    ensures Ran(st, path[0]) && rs[path[0]].id in st.results && st.results[rs[path[0]].id].status < 400
    decreases |path|
  {
    hide Sound, Ran, DistinctIds;
    if |path| > 2 {
      var rest := path[1..];
      assert DependencyPath(rs, rest) by {
        assert forall k :: 0 <= k < |rest| ==> rest[k] == path[k + 1];
        forall k | 0 <= k < |rest| - 1 ensures DependsAt(rs, rest, k) {
          assert DependsAt(rs, path, k + 1);
        }
      }
      PathRan(rs, st, rest);
    }
    assert DependsAt(rs, path, 0);
    DirectDependency(rs, st, path[0], path[1]);
  }

  /** Once a request's recorded result is 400 or above, no transitive dependent of it is ever
      handed to the handler, in plain requests and changesets alike; nor is one whose dependency
      has no result at all. */
  lemma FailureClosesOverDependencies(w: World, rs: seq<Request>, path: seq<nat>)
    requires DistinctIds(rs) && |path| >= 2 && DependencyPath(rs, path)
    ensures var st, id := RunBatch(w, rs).0, rs[path[0]].id;
            id !in st.results || st.results[id].status >= 400 ==> !Ran(st, path[|path| - 1])
  {
    hide RunFrom, Ran, Sound;
    var st := RunBatch(w, rs).0;
    assert Sound(rs, START) by { StartSound(rs); }
    RunSound(w, rs, 0, START, map[], []);
    if Ran(st, path[|path| - 1]) {
      PathRan(rs, st, path);
    }
  }

  lemma StartSound(rs: seq<Request>)
    ensures Sound(rs, START)
  {
  }
}
