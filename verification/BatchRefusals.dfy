/** Refusals and told errors have a cause, and what must be refused is. */
module BatchRefusals {
  import opened ByteStrings
  import opened BatchProtocol
  import opened BatchAtomicity
  import opened BatchOutcomes

  /** An HTTP error that blames the client. */
  predicate BlamesClient(e: Error) {
    e.http && match e.status case None => false case Some(status) => 400 <= status <= 499
  }

  /** A member of `g` - a plain request for the empty group - threw this error. */
  ghost predicate ThrownIn(rs: seq<Request>, trace: seq<Event>, g: string, e: Error) {
    exists p :: 0 <= p < |trace| && Throwing(rs, trace[p], g, e)
  }

  predicate Throwing(rs: seq<Request>, event: Event, g: string, e: Error) {
    event.Handled? && event.index < |rs| && rs[event.index].group == g && event.outcome == Throws(e)
  }

  predicate Starts(before: seq<Event>, after: seq<Event>) {
    |before| <= |after| && after[..|before|] == before
  }

  lemma ThrownLasts(rs: seq<Request>, before: seq<Event>, after: seq<Event>, g: string, e: Error)
    requires Starts(before, after) && ThrownIn(rs, before, g, e)
    ensures ThrownIn(rs, after, g, e)
  {
    var p :| 0 <= p < |before| && Throwing(rs, before[p], g, e);
    assert after[p] == after[..|before|][p];
  }

  /** A success that names no entity path, for lack of a key value, although its request has an id. */
  predicate Keyless(rs: seq<Request>, e: Event) {
    && e.Handled? && e.index < |rs| && rs[e.index].id != ""
    && e.outcome.Responds? && 200 <= e.outcome.status < 400 && e.outcome.keyMissing
  }

  /** Keyless successes of `g` only, or none at all, were added. */
  predicate AddsKeyless(rs: seq<Request>, before: seq<Event>, after: seq<Event>, g: string, some: bool) {
    forall p :: |before| <= p < |after| ==> !Keyless(rs, after[p]) || (some && rs[after[p].index].group == g)
  }

  // ------------------------------------------------------------------ causes

  /** A request that is refused blames the client, or its handler threw. */
  lemma RequestErrorDue(w: World, rs: seq<Request>, i: nat, st: State)
    requires i < |rs|
    ensures var (next, r) := RunRequest(w, rs, i, st);
            && Starts(st.trace, next.trace)
            && (r.Ok? ==> w.fits(i)) && AddsKeyless(rs, st.trace, next.trace, rs[i].group, r.Err?)
            && (r.Err? ==> BlamesClient(r.error) || ThrownIn(rs, next.trace, rs[i].group, r.error))
  {
    hide DependencyFails, ReferencesKnown, Prepare, Record;
    var p := Prepare(w, st.maps, rs[i], i);
    var e := Handled(i, p, w.handle(i, p));
    assert (st.trace + [e])[|st.trace|] == e;
    if e.outcome.Throws? {
      assert Throwing(rs, (st.trace + [e])[|st.trace|], rs[i].group, e.outcome.error);
    }
  }

  lemma {:induction false} GroupErrorDue(w: World, rs: seq<Request>, order: seq<nat>, abort: bool, g: string, st: State)
    requires Positions(rs, order) && forall k :: 0 <= k < |order| ==> rs[order[k]].group == g
    ensures var (next, r) := RunGroup(w, rs, order, abort, st);
            && Starts(st.trace, next.trace)
            && (r.Ok? ==> |r.value| <= |order| && forall k :: 0 <= k < |r.value| ==> w.fits(order[k]))
            && AddsKeyless(rs, st.trace, next.trace, g, r.Err?)
            && (r.Err? ==> BlamesClient(r.error) || ThrownIn(rs, next.trace, g, r.error))
    decreases |order|
  {
    hide RunRequest, ThrownIn, BlamesClient, Keyless;
    if order != [] {
      RequestErrorDue(w, rs, order[0], st);
      var (next, r) := RunRequest(w, rs, order[0], st);
      if r.Ok? && !(abort && r.value.status >= 400) {
        GroupErrorDue(w, rs, order[1..], abort, g, next);
        var (last, rest) := RunGroup(w, rs, order[1..], abort, next);
        assert last.trace[..|st.trace|] == last.trace[..|next.trace|][..|st.trace|];
        assert forall p :: |st.trace| <= p < |next.trace| ==> last.trace[p] == last.trace[..|next.trace|][p] == next.trace[p];
        assert forall k :: 1 <= k < |order| ==> order[k] == order[1..][k - 1];
      }
    }
  }

  lemma {:induction false} AnswersDue(w: World, rs: seq<Request>, order: seq<nat>, status: int, st: State)
    requires Positions(rs, order)
    ensures var (next, r) := AnswerAll(w, rs, order, status, st);
            && next.trace == st.trace
            && (r.Ok? <==> forall k :: 0 <= k < |order| ==> w.fits(order[k]))
            && (r.Err? ==> BlamesClient(r.error))
    decreases |order|
  {
    if order != [] && w.fits(order[0]) {
      var entry := Entry(rs[order[0]].id, status, "");
      AnswersDue(w, rs, order[1..], status, st.(results := Noted(st.results, entry.id, entry)));
      assert forall k :: 1 <= k < |order| ==> order[k] == order[1..][k - 1];
    }
  }

  /** What can make a changeset fail. */
  ghost predicate Cause(w: World, rs: seq<Request>, trace: seq<Event>, g: string, e: Error) {
    || w.begin(g) == NotBegun(e) || w.commit(g) == Some(e) || ThrownIn(rs, trace, g, e)
    || (e == ROLLBACK_FAILED && !w.rollbackSucceeds(g))
  }

  lemma CauseLasts(w: World, rs: seq<Request>, before: seq<Event>, after: seq<Event>, g: string, e: Error)
    requires Starts(before, after) && Cause(w, rs, before, g, e)
    ensures Cause(w, rs, after, g, e)
  {
    hide ThrownIn;
    if ThrownIn(rs, before, g, e) {
      ThrownLasts(rs, before, after, g, e);
    }
  }

  lemma TransactionDue(w: World, rs: seq<Request>, order: seq<nat>, g: string, st: State)
    requires Positions(rs, order) && forall k :: 0 <= k < |order| ==> rs[order[k]].group == g
    ensures var (next, r) := RunInTransaction(w, rs, order, g, st);
            && (r.Ok? ==> forall k :: 0 <= k < |order| ==> w.fits(order[k])) && AddsKeyless(rs, st.trace, next.trace, g, r.Err?)
            && (r.Err? ==> BlamesClient(r.error) || Cause(w, rs, next.trace, g, r.error))
  {
    hide RunGroup, AnswerAll, HasFailure, Publish, BlamesClient, ThrownIn;
    TransactionKeyless(w, rs, order, g, st);
    var begun := WithEvent(st, Began(g));
    GroupErrorDue(w, rs, order, true, g, begun);
    RunGroupAnswers(w, rs, order, true, begun);
    var ran := RunGroup(w, rs, order, true, begun);
    if ran.1.Err? {
      if ThrownIn(rs, ran.0.trace, g, ran.1.error) {
        StartsOne(ran.0.trace, RolledBack(g));
        ThrownLasts(rs, ran.0.trace, ran.0.trace + [RolledBack(g)], g, ran.1.error);
      }
    } else {
      var n := |ran.1.value|;
      AnswersDue(w, rs, order[n..], 424, WithEvent(ran.0.(maps := st.maps), RolledBack(g)));
      assert forall k :: n <= k < |order| ==> order[k] == order[n..][k - n];
    }
  }

  lemma QuietKeyless(rs: seq<Request>, before: seq<Event>, after: seq<Event>, e: Event, g: string, some: bool)
    requires AddsKeyless(rs, before, after, g, some) && !e.Handled?
    ensures AddsKeyless(rs, before, after + [e], g, some) && AddsKeyless(rs, before, after, g, true)
  {
    assert forall p :: 0 <= p < |after| ==> (after + [e])[p] == after[p];
  }

  lemma TransactionKeyless(w: World, rs: seq<Request>, order: seq<nat>, g: string, st: State)
    requires Positions(rs, order) && forall k :: 0 <= k < |order| ==> rs[order[k]].group == g
    ensures var (next, r) := RunInTransaction(w, rs, order, g, st); AddsKeyless(rs, st.trace, next.trace, g, r.Err?)
  {
    hide RunGroup, AnswerAll, HasFailure, Publish, BlamesClient, ThrownIn, Keyless;
    var begun := WithEvent(st, Began(g));
    GroupErrorDue(w, rs, order, true, g, begun);
    var ran := RunGroup(w, rs, order, true, begun);
    var kept := ran.0.trace;
    FromBegun(rs, st.trace, kept, g, ran.1.Err?);
    QuietKeyless(rs, st.trace, kept, RolledBack(g), g, ran.1.Err?);
    QuietKeyless(rs, st.trace, kept, CommitFailed(g), g, ran.1.Err?);
    QuietKeyless(rs, st.trace, kept + [CommitFailed(g)], RolledBack(g), g, ran.1.Err?);
    QuietKeyless(rs, st.trace, kept + [RolledBack(g)], RolledBack(g), g, ran.1.Err?);
    QuietKeyless(rs, st.trace, kept + [CommitFailed(g)] + [RolledBack(g)], RolledBack(g), g, ran.1.Err?);
    QuietKeyless(rs, st.trace, kept, Committed(g), g, ran.1.Err?);
    if ran.1.Ok? {
      var n := |ran.1.value|;
      AnswersDue(w, rs, if n <= |order| then order[n..] else [], 424, WithEvent(ran.0.(maps := st.maps), RolledBack(g)));
    }
  }

  lemma FromBegun(rs: seq<Request>, before: seq<Event>, after: seq<Event>, g: string, some: bool)
    requires Starts(before + [Began(g)], after) && AddsKeyless(rs, before + [Began(g)], after, g, some)
    ensures AddsKeyless(rs, before, after, g, some)
  {
    assert after[|before|] == after[..|before| + 1][|before|] == Began(g);
  }

  lemma StartsOne(trace: seq<Event>, e: Event)
    ensures Starts(trace, trace + [e])
  {
  }

  lemma ChangesetDue(w: World, rs: seq<Request>, g: string, st: State)
    ensures var order := GroupFrom(rs, g, 0);
            var (next, r) := RunChangeset(w, rs, order, g, st);
            && (r.Ok? ==> forall k :: 0 <= k < |order| ==> w.fits(order[k])) && AddsKeyless(rs, st.trace, next.trace, g, r.Err?)
            && (r.Err? ==> BlamesClient(r.error) || Cause(w, rs, next.trace, g, r.error))
            && (!OnlyWrites(rs, order) ==> r == Err(BAD_REQUEST))
  {
    hide RunInTransaction, AnswerAll, OnlyWrites, ThrownIn;
    var order := GroupFrom(rs, g, 0);
    GroupMembers(rs, g, 0);
    TransactionDue(w, rs, order, g, st);
    AnswersDue(w, rs, order, 501, st);
  }

  // ------------------------------------------------------------------ whole batches

  /** Told errors do not blame the client, and have a cause. */
  ghost predicate DueAt(w: World, rs: seq<Request>, trace: seq<Event>, p: nat)
    requires p < |trace|
  {
    trace[p].ReportedFailure? ==> !BlamesClient(trace[p].error) && Cause(w, rs, trace[..p], trace[p].group, trace[p].error)
  }

  ghost predicate AllDue(w: World, rs: seq<Request>, trace: seq<Event>) {
    forall p :: 0 <= p < |trace| ==> DueAt(w, rs, trace, p)
  }

  /** Only members that write, and responses that fit unless an error was told instead. */
  ghost predicate FitGroup(w: World, rs: seq<Request>, trace: seq<Event>, g: string) {
    forall k :: 0 <= k < |rs| && rs[k].group == g ==> rs[k].isWrite && (w.fits(k) || exists e :: Told(trace, g, e))
  }

  ghost predicate FitSoFar(w: World, rs: seq<Request>, i: nat, trace: seq<Event>, pending: Pending) {
    && (forall k :: 0 <= k < i && k < |rs| ==> if rs[k].group == "" then w.fits(k) else rs[k].group in pending)
    && (forall g <- pending :: g != "" ==> FitGroup(w, rs, trace, g))
    && forall p :: 0 <= p < |trace| ==> KeylessTold(rs, trace, p)
  }

  /** A keyless success is one of a changeset for which an error was told. */
  ghost predicate KeylessTold(rs: seq<Request>, trace: seq<Event>, p: nat)
    requires p < |trace|
  {
    Keyless(rs, trace[p]) ==> exists e :: Told(trace, rs[trace[p].index].group, e)
  }

  lemma QuietDue(w: World, rs: seq<Request>, before: seq<Event>, after: seq<Event>)
    requires AllDue(w, rs, before) && ReportsKept(before, after)
    ensures AllDue(w, rs, after)
  {
    hide Cause, BlamesClient;
    forall p | 0 <= p < |after| ensures DueAt(w, rs, after, p) {
      if p < |before| {
        assert DueAt(w, rs, before, p);
        assert after[..p] == after[..|before|][..p] == before[..p] && after[p] == after[..|before|][p];
      }
    }
  }

  lemma ToldDue(w: World, rs: seq<Request>, trace: seq<Event>, g: string, e: Error)
    requires AllDue(w, rs, trace) && !BlamesClient(e) && Cause(w, rs, trace, g, e)
    ensures AllDue(w, rs, trace + [ReportedFailure(g, e)])
  {
    hide Cause, BlamesClient;
    var after := trace + [ReportedFailure(g, e)];
    forall p | 0 <= p < |after| ensures DueAt(w, rs, after, p) {
      if p < |trace| {
        assert DueAt(w, rs, trace, p);
        assert after[..p] == trace[..p] && after[p] == trace[p];
      } else {
        assert after[..p] == trace;
      }
    }
  }

  lemma FitLasts(w: World, rs: seq<Request>, i: nat, before: seq<Event>, after: seq<Event>, pending: Pending)
    requires FitSoFar(w, rs, i, before, pending) && Starts(before, after)
    requires forall p :: |before| <= p < |after| ==> KeylessTold(rs, after, p)
    ensures FitSoFar(w, rs, i, after, pending)
  {
    hide Told;
    assert forall p :: 0 <= p < |before| ==> after[p] == after[..|before|][p] == before[p];
    forall p | 0 <= p < |before| ensures KeylessTold(rs, after, p) {
      assert KeylessTold(rs, before, p);
      forall e | Keyless(rs, before[p]) && Told(before, rs[before[p].index].group, e) ensures Told(after, rs[before[p].index].group, e) {
        ToldLasts(before, after, rs[before[p].index].group, e);
      }
    }
    forall g, e | Told(before, g, e) ensures Told(after, g, e) {
      ToldLasts(before, after, g, e);
    }
  }

  lemma ToldLasts(before: seq<Event>, after: seq<Event>, g: string, e: Error)
    requires Starts(before, after) && Told(before, g, e)
    ensures Told(after, g, e)
  {
    var p :| 0 <= p < |before| && before[p] == ReportedFailure(g, e);
    assert after[p] == after[..|before|][p];
  }

  lemma SameVerdict(e: Error)
    ensures IsValidationError(e) <==> BlamesClient(e)
  {
  }

  /** One changeset, as it is reported. */
  lemma EntriesDue(w: World, rs: seq<Request>, g: string, st: State)
    requires AllDue(w, rs, st.trace) && g != ""
    ensures var (next, r) := ChangesetEntries(w, rs, g, st);
            && AllDue(w, rs, next.trace) && Starts(st.trace, next.trace)
            && (r.Ok? ==> FitGroup(w, rs, next.trace, g))
            && (r.Ok? ==> forall p :: |st.trace| <= p < |next.trace| ==> KeylessTold(rs, next.trace, p))
            && (r.Err? ==> BlamesClient(r.error))
  {
    hide RunChangeset, Cause, BlamesClient, AllDue, Told, ReportsKept, IsValidationError, OnlyWrites, Keyless;
    var order := GroupFrom(rs, g, 0);
    GroupMembers(rs, g, 0);
    ChangesetDue(w, rs, g, st);
    ChangesetQuiet(w, rs, order, g, st);
    var (next, r) := RunChangeset(w, rs, order, g, st);
    KeptStarts(st.trace, next.trace);
    QuietDue(w, rs, st.trace, next.trace);
    if r.Err? {
      SameVerdict(r.error);
      if !BlamesClient(r.error) {
        ToldDue(w, rs, next.trace, g, r.error);
        ToldLast(next.trace, g, r.error);
        StartsOne(next.trace, ReportedFailure(g, r.error));
        StartsBoth(st.trace, next.trace, next.trace + [ReportedFailure(g, r.error)]);
        BadRequestBlames();
        GroupWrites(rs, g);
        QuietKeyless(rs, st.trace, next.trace, ReportedFailure(g, r.error), g, true);
      }
    } else {
      GroupWrites(rs, g);
      GroupCovers(rs, g);
    }
  }

  lemma KeptStarts(before: seq<Event>, after: seq<Event>)
    requires ReportsKept(before, after)
    ensures Starts(before, after)
  {
  }

  lemma StartsBoth(a: seq<Event>, b: seq<Event>, c: seq<Event>)
    requires Starts(a, b) && Starts(b, c)
    ensures Starts(a, c)
  {
    assert c[..|a|] == c[..|b|][..|a|];
  }

  lemma BadRequestBlames()
    ensures BlamesClient(BAD_REQUEST) && BlamesClient(PAYLOAD_TOO_LARGE)
  {
  }

  lemma GroupCovers(rs: seq<Request>, g: string)
    ensures forall m: nat :: m < |rs| && rs[m].group == g ==> m in GroupFrom(rs, g, 0)
  {
    hide GroupFrom;
    forall m: nat | m < |rs| && rs[m].group == g ensures m in GroupFrom(rs, g, 0) {
      AllMembers(rs, g, 0, m);
    }
  }

  lemma GroupWrites(rs: seq<Request>, g: string)
    ensures OnlyWrites(rs, GroupFrom(rs, g, 0)) <==> forall m :: 0 <= m < |rs| && rs[m].group == g ==> rs[m].isWrite
  {
    hide GroupFrom;
    GroupCovers(rs, g);
    GroupMembers(rs, g, 0);
    forall m | 0 <= m < |rs| && rs[m].group == g ensures m in GroupFrom(rs, g, 0) {
    }
  }

  ghost predicate RefusedDuly(rs: seq<Request>, trace: seq<Event>, e: Error) {
    BlamesClient(e) || ThrownIn(rs, trace, "", e)
  }

  lemma {:induction false} RunDue(w: World, rs: seq<Request>, i: nat, st: State, pending: Pending, responses: seq<Entry>)
    requires i <= |rs| && AllDue(w, rs, st.trace) && FitSoFar(w, rs, i, st.trace, pending) && "" !in pending
    ensures var (last, r) := RunFrom(w, rs, i, st, pending, responses);
            && AllDue(w, rs, last.trace)
            && (r.Err? ==> RefusedDuly(rs, last.trace, r.error))
            && (r.Ok? ==> exists done: Pending :: FitSoFar(w, rs, |rs|, last.trace, done))
    decreases |rs| - i
  {
    hide AllDue, FitSoFar, RunGroup, ChangesetEntries, RefusedDuly, FitGroup;
    if i < |rs| {
      var g := rs[i].group;
      var (next, left, r) := Next(w, rs, i, st, pending);
      if g == "" {
        PlainDue(w, rs, i, st, pending);
      } else {
        MemberDue(w, rs, i, st, pending);
      }
      if r.Ok? {
        RunDue(w, rs, i + 1, next, left, responses + r.value);
      }
    }
  }

  lemma PlainDue(w: World, rs: seq<Request>, i: nat, st: State, pending: Pending)
    requires i < |rs| && rs[i].group == "" && AllDue(w, rs, st.trace) && FitSoFar(w, rs, i, st.trace, pending)
    ensures var (next, r) := RunGroup(w, rs, [i], false, st);
            && AllDue(w, rs, next.trace)
            && (r.Err? ==> RefusedDuly(rs, next.trace, r.error))
            && (r.Ok? ==> FitSoFar(w, rs, i + 1, next.trace, pending))
  {
    hide AllDue, RunGroup, Told, ThrownIn, BlamesClient, ReportsKept, Keyless;
    GroupErrorDue(w, rs, [i], false, "", st);
    GroupReportsNothing(w, rs, [i], false, st);
    RunGroupAnswers(w, rs, [i], false, st);
    var (next, r) := RunGroup(w, rs, [i], false, st);
    QuietDue(w, rs, st.trace, next.trace);
    if r.Ok? {
      FitLasts(w, rs, i, st.trace, next.trace, pending);
      assert |r.value| == 1 && w.fits([i][0]);
    }
  }

  lemma MemberDue(w: World, rs: seq<Request>, i: nat, st: State, pending: Pending)
    requires i < |rs| && rs[i].group != "" && AllDue(w, rs, st.trace) && FitSoFar(w, rs, i, st.trace, pending)
    ensures var (next, left, r) := Next(w, rs, i, st, pending);
            && AllDue(w, rs, next.trace)
            && (r.Err? ==> RefusedDuly(rs, next.trace, r.error))
            && (r.Ok? ==> FitSoFar(w, rs, i + 1, next.trace, left) && ("" in left <==> "" in pending))
  {
    hide AllDue, RunGroup, ChangesetEntries, FitGroup, BlamesClient, ThrownIn, Starts;
    var g := rs[i].group;
    if g !in pending {
      EntriesDue(w, rs, g, st);
      var (next, r) := ChangesetEntries(w, rs, g, st);
      if r.Ok? {
        FitLasts(w, rs, i, st.trace, next.trace, pending);
      }
    }
  }

  /** Every refusal of a batch blames the client or repeats what a plain request's handler threw; every
      error told for a changeset blames no client, and is what its transaction or one of its members
      failed with. A batch that is returned fits, and so does every response for which no error
      was told; its changesets only write; and no success lacks its key, but in a changeset for which
      an error was told. */
  lemma RefusalsAreDue(w: World, rs: seq<Request>)
    ensures var (st, r) := RunBatch(w, rs);
            && AllDue(w, rs, st.trace)
            && (r.Err? ==> RefusedDuly(rs, st.trace, r.error))
            && (r.Ok? ==> w.fitsAtEnd && forall k :: 0 <= k < |rs| ==>
                  if rs[k].group == "" then w.fits(k)
                  else rs[k].isWrite && (w.fits(k) || exists e :: Told(st.trace, rs[k].group, e)))
            && (r.Ok? ==> forall p :: 0 <= p < |st.trace| ==> KeylessTold(rs, st.trace, p))
  {
    hide AllDue, RunFrom, ThrownIn, Told;
    assert AllDue(w, rs, START.trace) by { NothingDue(w, rs); }
    NothingFits(w, rs);
    RunDue(w, rs, 0, START, map[], []);
    BadRequestBlames();
    var (last, r) := RunFrom(w, rs, 0, START, map[], []);
    if r.Ok? {
      var done: Pending :| FitSoFar(w, rs, |rs|, last.trace, done);
      forall k | 0 <= k < |rs| && rs[k].group != ""
        ensures rs[k].isWrite && (w.fits(k) || exists e :: Told(last.trace, rs[k].group, e))
      {
        assert FitGroup(w, rs, last.trace, rs[k].group);
      }
    }
  }

  lemma NothingDue(w: World, rs: seq<Request>)
    ensures AllDue(w, rs, [])
  {
  }

  lemma NothingFits(w: World, rs: seq<Request>)
    ensures FitSoFar(w, rs, 0, START.trace, map[])
  {
  }
}
