/** What every batch run keeps about responses and transactions: one response per request, one
    orderly transaction per changeset, and success reported exactly for what was committed. */
module BatchAtomicity {
  import opened ByteStrings
  import opened BatchProtocol

  // ------------------------------------------------------------------ the members of a group

  lemma {:induction false} GroupMembers(rs: seq<Request>, g: string, from: nat)
    requires from <= |rs|
    ensures forall k :: 0 <= k < |GroupFrom(rs, g, from)| ==>
              GroupFrom(rs, g, from)[k] >= from && rs[GroupFrom(rs, g, from)[k]].group == g
    decreases |rs| - from
  {
    if from < |rs| {
      GroupMembers(rs, g, from + 1);
    }
  }

  /** Members before `to` do not matter when there are none. */
  lemma {:induction false} GroupStarts(rs: seq<Request>, g: string, from: nat, to: nat)
    requires from <= to <= |rs| && forall k :: from <= k < to ==> rs[k].group != g
    ensures GroupFrom(rs, g, from) == GroupFrom(rs, g, to)
    decreases |rs| - from
  {
    if from < to {
      GroupStarts(rs, g, from + 1, to);
    }
  }

  lemma GroupUnfolds(rs: seq<Request>, g: string, i: nat)
    requires i < |rs| && rs[i].group == g
    ensures GroupFrom(rs, g, i) == [i] + GroupFrom(rs, g, i + 1)
    ensures GroupFrom(rs, g, i)[1..] == GroupFrom(rs, g, i + 1)
  {
  }

  // ------------------------------------------------------------------ one response per request

  /** Entries for exactly these requests, in order. */
  predicate Answers(entries: seq<Entry>, rs: seq<Request>, order: seq<nat>)
    requires Positions(rs, order)
  {
    |entries| == |order| && forall k :: 0 <= k < |order| ==> entries[k].id == rs[order[k]].id
  }

  predicate AnswersStart(entries: seq<Entry>, rs: seq<Request>, order: seq<nat>)
    requires Positions(rs, order)
  {
    |entries| <= |order| && forall k :: 0 <= k < |entries| ==> entries[k].id == rs[order[k]].id
  }

  lemma {:induction false} RunGroupAnswers(w: World, rs: seq<Request>, order: seq<nat>, abort: bool, st: State)
    requires Positions(rs, order)
    ensures var r := RunGroup(w, rs, order, abort, st).1;
            r.Ok? ==> AnswersStart(r.value, rs, order) && (!abort || !HasFailure(r.value) ==> |r.value| == |order|)
    decreases |order|
  {
    hide RunRequest;
    if order != [] {
      var first := RunRequest(w, rs, order[0], st);
      RequestAnswered(w, rs, order[0], st);
      if first.1.Ok? {
        var entry := first.1.value;
        RunGroupAnswers(w, rs, order[1..], abort, first.0);
        var rest := RunGroup(w, rs, order[1..], abort, first.0).1;
        if abort && entry.status >= 400 {
          assert [entry][0].status >= 400 && HasFailure([entry]);
        } else if rest.Ok? {
          forall k | 0 <= k < |[entry] + rest.value|
            ensures ([entry] + rest.value)[k].id == rs[order[k]].id
          {
            assert k > 0 ==> order[k] == order[1..][k - 1];
          }
          assert HasFailure(rest.value) ==> HasFailure([entry] + rest.value) by {
            if HasFailure(rest.value) {
              var k :| 0 <= k < |rest.value| && rest.value[k].status >= 400;
              assert ([entry] + rest.value)[k + 1].status >= 400;
            }
          }
        }
      }
    }
  }

  lemma RequestAnswered(w: World, rs: seq<Request>, i: nat, st: State)
    requires i < |rs|
    ensures var r := RunRequest(w, rs, i, st).1; r.Ok? ==> r.value.id == rs[i].id
  {
    hide ReferencesKnown, Prepare, Record, DependencyFails;
  }

  lemma {:induction false} AnswerAllAnswers(w: World, rs: seq<Request>, order: seq<nat>, status: int, st: State)
    requires Positions(rs, order)
    ensures var r := AnswerAll(w, rs, order, status, st);
            && r.0.trace == st.trace && r.0.maps == st.maps
            && (r.1.Ok? ==> Answers(r.1.value, rs, order) && forall k :: 0 <= k < |r.1.value| ==> r.1.value[k].status == status)
    decreases |order|
  {
    if order != [] {
      var entry := Entry(rs[order[0]].id, status, "");
      AnswerAllAnswers(w, rs, order[1..], status, st.(results := Noted(st.results, entry.id, entry)));
    }
  }

  lemma ChangesetAnswers(w: World, rs: seq<Request>, order: seq<nat>, g: string, st: State)
    requires Positions(rs, order)
    ensures var r := RunChangeset(w, rs, order, g, st).1; r.Ok? ==> Answers(r.value, rs, order)
  {
    hide RunGroup, AnswerAll, HasFailure, OnlyWrites, Publish;
    AnswerAllAnswers(w, rs, order, 501, st);
    if w.begin(g).Begun? {
      TransactionAnswers(w, rs, order, g, st);
    }
  }

  lemma TransactionAnswers(w: World, rs: seq<Request>, order: seq<nat>, g: string, st: State)
    requires Positions(rs, order)
    ensures var r := RunInTransaction(w, rs, order, g, st).1; r.Ok? ==> Answers(r.value, rs, order)
  {
    hide RunGroup, AnswerAll, HasFailure, Publish;
    var ran := RunGroup(w, rs, order, true, WithEvent(st, Began(g)));
    RunGroupAnswers(w, rs, order, true, WithEvent(st, Began(g)));
    if ran.1.Ok? {
      var n := |ran.1.value|;
      AnswerAllAnswers(w, rs, order[n..], 424, WithEvent(ran.0.(maps := st.maps), RolledBack(g)));
    }
  }

  predicate Reported(entries: seq<Entry>, rs: seq<Request>, order: seq<nat>, g: string)
    requires Positions(rs, order)
  {
    Answers(entries, rs, order) && forall k :: 0 <= k < |entries| ==> entries[k].group == g
  }

  lemma EntriesReported(w: World, rs: seq<Request>, g: string, st: State)
    ensures var r := ChangesetEntries(w, rs, g, st).1; r.Ok? ==> Reported(r.value, rs, GroupFrom(rs, g, 0), g)
  {
    hide RunChangeset;
    ChangesetAnswers(w, rs, GroupFrom(rs, g, 0), g, st);
  }

  predicate Matched(rs: seq<Request>, i: nat, responses: seq<Entry>)
    requires i <= |rs|
  {
    |responses| == i && forall k :: 0 <= k < i ==> responses[k].id == rs[k].id && responses[k].group == rs[k].group
  }

  /** Responses so far, and pending entries for the members still to come. */
  predicate Aligned(rs: seq<Request>, i: nat, pending: Pending, responses: seq<Entry>)
    requires i <= |rs|
  {
    && Matched(rs, i, responses) && "" !in pending
    && (forall k :: 0 <= k < i && rs[k].group != "" ==> rs[k].group in pending)
    && (forall g <- pending :: Reported(pending[g], rs, GroupFrom(rs, g, i), g))
  }

  lemma PlainAnswered(w: World, rs: seq<Request>, i: nat, st: State)
    requires i < |rs| && RunGroup(w, rs, [i], false, st).1.Ok?
    ensures var entries := RunGroup(w, rs, [i], false, st).1.value;
            |entries| == 1 && entries[0].id == rs[i].id && entries[0].group == ""
  {
    hide ReferencesKnown, Prepare, Record, DependencyFails;
    assert [i][1..] == [];
  }

  /** The entries the next request takes its response from. */
  function Front(w: World, rs: seq<Request>, i: nat, st: State, pending: Pending): Attempt<seq<Entry>>
    requires i < |rs|
  {
    if rs[i].group in pending then (st, Ok(pending[rs[i].group])) else ChangesetEntries(w, rs, rs[i].group, st)
  }

  lemma FrontReported(w: World, rs: seq<Request>, i: nat, st: State, pending: Pending, responses: seq<Entry>)
    requires i < |rs| && rs[i].group != "" && Aligned(rs, i, pending, responses)
    ensures var r := Front(w, rs, i, st, pending).1;
            r.Ok? ==> r.value != [] && Reported(r.value, rs, GroupFrom(rs, rs[i].group, i), rs[i].group)
  {
    hide ChangesetEntries, RunGroup;
    var g := rs[i].group;
    GroupUnfolds(rs, g, i);
    if g !in pending {
      EntriesReported(w, rs, g, st);
      GroupStarts(rs, g, 0, i);
    }
  }

  lemma NextOfGroup(w: World, rs: seq<Request>, i: nat, st: State, pending: Pending, responses: seq<Entry>)
    requires i < |rs| && rs[i].group != "" && Aligned(rs, i, pending, responses)
    ensures var front := Front(w, rs, i, st, pending);
            if front.1.Err? then Next(w, rs, i, st, pending) == (front.0, pending, front.1)
            else front.1.value != [] && Next(w, rs, i, st, pending) ==
                 (front.0, pending[rs[i].group := front.1.value[1..]], Ok([front.1.value[0]]))
  {
    hide ChangesetEntries, RunGroup;
    FrontReported(w, rs, i, st, pending, responses);
  }

  lemma OthersAligned(rs: seq<Request>, i: nat, h: string, entries: seq<Entry>)
    requires i < |rs| && rs[i].group != h && Reported(entries, rs, GroupFrom(rs, h, i), h)
    ensures Reported(entries, rs, GroupFrom(rs, h, i + 1), h)
  {
  }

  lemma NextAligned(w: World, rs: seq<Request>, i: nat, st: State, pending: Pending, responses: seq<Entry>)
    requires i < |rs| && Aligned(rs, i, pending, responses) && Next(w, rs, i, st, pending).2.Ok?
    ensures var (_, left, r) := Next(w, rs, i, st, pending); Aligned(rs, i + 1, left, responses + r.value)
  {
    hide ChangesetEntries, RunGroup, GroupFrom;
    var g := rs[i].group;
    if g == "" {
      PlainAnswered(w, rs, i, st);
      PendingStays(rs, i, pending);
    } else {
      NextOfGroup(w, rs, i, st, pending, responses);
      FrontReported(w, rs, i, st, pending, responses);
      var entries := Front(w, rs, i, st, pending).1.value;
      FrontTaken(rs, i, pending, entries);
    }
  }

  lemma PendingStays(rs: seq<Request>, i: nat, pending: Pending)
    requires i < |rs| && forall g <- pending :: Reported(pending[g], rs, GroupFrom(rs, g, i), g)
    ensures forall g <- pending :: g != rs[i].group ==> Reported(pending[g], rs, GroupFrom(rs, g, i + 1), g)
  {
    hide Reported, GroupFrom;
    forall g <- pending | g != rs[i].group ensures Reported(pending[g], rs, GroupFrom(rs, g, i + 1), g) {
      OthersAligned(rs, i, g, pending[g]);
    }
  }

  lemma FrontTaken(rs: seq<Request>, i: nat, pending: Pending, entries: seq<Entry>)
    requires i < |rs| && entries != [] && Reported(entries, rs, GroupFrom(rs, rs[i].group, i), rs[i].group)
    requires forall g <- pending :: Reported(pending[g], rs, GroupFrom(rs, g, i), g)
    ensures var left := pending[rs[i].group := entries[1..]];
            forall g <- left :: Reported(left[g], rs, GroupFrom(rs, g, i + 1), g)
    ensures entries[0].id == rs[i].id && entries[0].group == rs[i].group
  {
    hide GroupFrom;
    GroupUnfolds(rs, rs[i].group, i);
    PendingStays(rs, i, pending);
  }

  lemma {:induction false} RunAligned(w: World, rs: seq<Request>, i: nat, st: State, pending: Pending, responses: seq<Entry>)
    requires i <= |rs| && Aligned(rs, i, pending, responses)
    ensures var r := RunFrom(w, rs, i, st, pending, responses).1; r.Ok? ==> Matched(rs, |rs|, r.value)
    decreases |rs| - i
  {
    hide Next, GroupFrom, Reported;
    if i < |rs| {
      var (next, left, r) := Next(w, rs, i, st, pending);
      if r.Ok? {
        NextAligned(w, rs, i, st, pending, responses);
        RunAligned(w, rs, i + 1, next, left, responses + r.value);
      }
    }
  }

  /** A batch that returns has one response per request, in request order, each marked with its
      changeset. */
  lemma OneResponseEach(w: World, rs: seq<Request>)
    ensures var r := RunBatch(w, rs).1; r.Ok? ==> Matched(rs, |rs|, r.value)
  {
    hide RunFrom;
    RunAligned(w, rs, 0, START, map[], []);
  }

  // ------------------------------------------------------------------ what happens to a changeset

  /** The trace of one changeset: its transaction and the members handed to the handler. */
  datatype Step = Begin | Ran(index: nat) | Commit | CommitFail | Rollback

  function StepOf(e: Event, rs: seq<Request>, g: string): seq<Step> {
    match e
    case Handled(i, _, _) => if i < |rs| && rs[i].group == g then [Ran(i)] else []
    case Began(h) => if h == g then [Begin] else []
    case Committed(h) => if h == g then [Commit] else []
    case CommitFailed(h) => if h == g then [CommitFail] else []
    case RolledBack(h) => if h == g then [Rollback] else []
    case ReportedFailure(_, _) => []
  }

  function StepsOf(trace: seq<Event>, rs: seq<Request>, g: string): seq<Step> {
    if trace == [] then [] else StepsOf(trace[..|trace| - 1], rs, g) + StepOf(trace[|trace| - 1], rs, g)
  }

  lemma OneMoreStep(trace: seq<Event>, e: Event, rs: seq<Request>, g: string)
    ensures StepsOf(trace + [e], rs, g) == StepsOf(trace, rs, g) + StepOf(e, rs, g)
  {
    assert (trace + [e])[..|trace|] == trace;
  }

  function Rans(order: seq<nat>): seq<Step> {
    seq(|order|, k requires 0 <= k < |order| => Ran(order[k]))
  }

  lemma RunRequestSteps(w: World, rs: seq<Request>, i: nat, g: string, st: State)
    requires i < |rs|
    ensures var (next, r) := RunRequest(w, rs, i, st);
            var steps := StepsOf(next.trace, rs, g);
            && (steps == StepsOf(st.trace, rs, g) || (rs[i].group == g && steps == StepsOf(st.trace, rs, g) + [Ran(i)]))
            && (r.Ok? && r.value.status < 400 && rs[i].group == g ==> steps == StepsOf(st.trace, rs, g) + [Ran(i)])
  {
    hide ReferencesKnown, DependencyFails, Record, StepsOf;
    var prepared := Prepare(w, st.maps, rs[i], i);
    hide Prepare;
    OneMoreStep(st.trace, Handled(i, prepared, w.handle(i, prepared)), rs, g);
    assert StepsOf(st.trace, rs, g) + [] == StepsOf(st.trace, rs, g);
  }

  lemma {:induction false} OthersSteps(w: World, rs: seq<Request>, order: seq<nat>, abort: bool, g: string, st: State)
    requires Positions(rs, order) && forall k :: 0 <= k < |order| ==> rs[order[k]].group != g
    ensures StepsOf(RunGroup(w, rs, order, abort, st).0.trace, rs, g) == StepsOf(st.trace, rs, g)
    decreases |order|
  {
    hide RunRequest, StepsOf;
    if order != [] {
      RunRequestSteps(w, rs, order[0], g, st);
      OthersSteps(w, rs, order[1..], abort, g, RunRequest(w, rs, order[0], st).0);
    }
  }

  lemma RansCons(order: seq<nat>, k: nat)
    requires 0 < k <= |order|
    ensures [Ran(order[0])] + Rans(order[1..][..k - 1]) == Rans(order[..k])
  {
  }

  /** Members are handed to the handler in order, up to the first that is not. */
  lemma {:induction false} MembersSteps(w: World, rs: seq<Request>, order: seq<nat>, g: string, st: State) returns (k: nat)
    requires Positions(rs, order) && forall j :: 0 <= j < |order| ==> rs[order[j]].group == g
    ensures k <= |order|
    ensures var (next, r) := RunGroup(w, rs, order, true, st);
            && StepsOf(next.trace, rs, g) == StepsOf(st.trace, rs, g) + Rans(order[..k])
            && (r.Ok? && !HasFailure(r.value) ==> k == |order|)
    decreases |order|
  {
    hide RunRequest, StepsOf;
    k := 0;
    var before := StepsOf(st.trace, rs, g);
    assert before + Rans(order[..0]) == before;
    if order != [] {
      var first := RunRequest(w, rs, order[0], st);
      var after := StepsOf(first.0.trace, rs, g);
      RunRequestSteps(w, rs, order[0], g, st);
      var ran := after == before + [Ran(order[0])];
      assert before + [Ran(order[0])] != before;
      assert ran ==> after == before + Rans(order[..1]);
      if first.1.Ok? && first.1.value.status < 400 {
        var more := MembersSteps(w, rs, order[1..], g, first.0);
        k := more + 1;
        RansCons(order, k);
        assert before + [Ran(order[0])] + Rans(order[1..][..more]) == before + ([Ran(order[0])] + Rans(order[1..][..more]));
        LaterFailure(w, rs, order, st);
      } else {
        k := if ran then 1 else 0;
        if first.1.Ok? {
          assert [first.1.value][0].status >= 400;
        }
      }
    }
  }

  lemma LaterFailure(w: World, rs: seq<Request>, order: seq<nat>, st: State)
    requires Positions(rs, order) && order != []
    requires var first := RunRequest(w, rs, order[0], st); first.1.Ok? && first.1.value.status < 400
    ensures var rest, whole := RunGroup(w, rs, order[1..], true, RunRequest(w, rs, order[0], st).0).1, RunGroup(w, rs, order, true, st).1;
            whole.Ok? <==> rest.Ok?
    ensures var rest, whole := RunGroup(w, rs, order[1..], true, RunRequest(w, rs, order[0], st).0).1, RunGroup(w, rs, order, true, st).1;
            whole.Ok? && !HasFailure(whole.value) ==> rest.Ok? && !HasFailure(rest.value)
  {
    hide RunRequest;
    var first := RunRequest(w, rs, order[0], st).1.value;
    var rest := RunGroup(w, rs, order[1..], true, RunRequest(w, rs, order[0], st).0).1;
    if rest.Ok? && HasFailure(rest.value) {
      var k :| 0 <= k < |rest.value| && rest.value[k].status >= 400;
      assert ([first] + rest.value)[k + 1].status >= 400;
    }
  }

  /** How a transaction that ran the first `k` members may end. */
  predicate Ends(end: seq<Step>, k: nat, members: nat) {
    || end == [Rollback]
    || (k == members && (end == [Commit] || end == [CommitFail, Rollback]))
  }

  predicate ShapeAt(steps: seq<Step>, members: seq<nat>, k: nat, end: seq<Step>) {
    k <= |members| && Ends(end, k, |members|) && steps == [Begin] + Rans(members[..k]) + end
  }

  /** Never begun; or begun once, members run in order inside, then committed, or rolled back
      once - and not both, unless the commit failed first. */
  ghost predicate Orderly(steps: seq<Step>, members: seq<nat>) {
    steps == [] || exists k: nat, end: seq<Step> :: ShapeAt(steps, members, k, end)
  }

  lemma RansAreNotCommits(members: seq<nat>, k: nat, end: seq<Step>)
    requires k <= |members|
    ensures Commit in [Begin] + Rans(members[..k]) + end <==> Commit in end
  {
    assert forall j :: 0 <= j < |Rans(members[..k])| ==> Rans(members[..k])[j].Ran?;
  }

  predicate AllBelow(entries: seq<Entry>) {
    forall k :: 0 <= k < |entries| ==> entries[k].status < 400
  }

  /** Where the steps of group `g` stand once its members were run inside the transaction. */
  lemma BegunSteps(w: World, rs: seq<Request>, order: seq<nat>, g: string, st: State) returns (k: nat)
    requires Positions(rs, order) && (forall j :: 0 <= j < |order| ==> rs[order[j]].group == g)
    requires StepsOf(st.trace, rs, g) == []
    ensures k <= |order|
    ensures var (next, r) := RunGroup(w, rs, order, true, WithEvent(st, Began(g)));
            && StepsOf(next.trace, rs, g) == [Begin] + Rans(order[..k])
            && (r.Ok? && !HasFailure(r.value) ==> k == |order|)
  {
    hide RunGroup, StepsOf;
    OneMoreStep(st.trace, Began(g), rs, g);
    assert [] + [Begin] == [Begin];
    k := MembersSteps(w, rs, order, g, WithEvent(st, Began(g)));
  }

  lemma TransactionSteps(w: World, rs: seq<Request>, order: seq<nat>, g: string, st: State) returns (k: nat, end: seq<Step>)
    requires Positions(rs, order) && order != [] && (forall j :: 0 <= j < |order| ==> rs[order[j]].group == g)
    requires StepsOf(st.trace, rs, g) == []
    ensures var (next, r) := RunInTransaction(w, rs, order, g, st);
            && ShapeAt(StepsOf(next.trace, rs, g), order, k, end)
            && (r.Ok? && AllBelow(r.value) <==> end == [Commit])
  {
    hide RunGroup, StepsOf, AnswerAll, Publish, Rans;
    k := BegunSteps(w, rs, order, g, st);
    var ran := RunGroup(w, rs, order, true, WithEvent(st, Began(g)));
    var steps := [Begin] + Rans(order[..k]);
    var trace := ran.0.trace;
    OneMoreStep(trace, RolledBack(g), rs, g);
    OneMoreStep(trace, Committed(g), rs, g);
    if ran.1.Err? {
      end := [Rollback];
    } else if HasFailure(ran.1.value) {
      end := [Rollback];
      var n := |ran.1.value|;
      AnswerAllAnswers(w, rs, if n <= |order| then order[n..] else [], 424, WithEvent(ran.0.(maps := st.maps), RolledBack(g)));
      FailureStays(ran.1.value);
    } else if w.commit(g).Some? {
      end := [CommitFail, Rollback];
      OneMoreStep(trace, CommitFailed(g), rs, g);
      OneMoreStep(trace + [CommitFailed(g)], RolledBack(g), rs, g);
      assert steps + [CommitFail] + [Rollback] == steps + end;
    } else {
      end := [Commit];
    }
  }

  lemma AllSame(entries: seq<Entry>, status: int)
    requires entries != [] && forall k :: 0 <= k < |entries| ==> entries[k].status == status
    ensures AllBelow(entries) <==> status < 400
  {
    assert entries[0].status == status;
  }

  lemma FailureStays(entries: seq<Entry>)
    requires HasFailure(entries)
    ensures forall more: seq<Entry> :: !AllBelow(entries + more)
  {
    var k :| 0 <= k < |entries| && entries[k].status >= 400;
    forall more: seq<Entry> ensures !AllBelow(entries + more) {
      assert (entries + more)[k].status >= 400;
    }
  }

  /** The error a changeset was reported with carries a status that does not say failure. */
  ghost predicate Masked(trace: seq<Event>, g: string) {
    exists p :: 0 <= p < |trace| && trace[p].ReportedFailure? && trace[p].group == g && ReportedStatus(trace[p].error) < 400
  }

  lemma ChangesetSteps(w: World, rs: seq<Request>, order: seq<nat>, g: string, st: State)
    requires Positions(rs, order) && order != [] && (forall j :: 0 <= j < |order| ==> rs[order[j]].group == g)
    requires StepsOf(st.trace, rs, g) == []
    ensures var (next, r) := RunChangeset(w, rs, order, g, st);
            && Orderly(StepsOf(next.trace, rs, g), order)
            && (r.Ok? && AllBelow(r.value) <==> Commit in StepsOf(next.trace, rs, g))
  {
    hide RunInTransaction, StepsOf, AnswerAll, Rans, OnlyWrites;
    AnswerAllAnswers(w, rs, order, 501, st);
    if AnswerAll(w, rs, order, 501, st).1.Ok? {
      AllSame(AnswerAll(w, rs, order, 501, st).1.value, 501);
    }
    if OnlyWrites(rs, order) && w.begin(g).Begun? {
      var k, end := TransactionSteps(w, rs, order, g, st);
      RansAreNotCommits(order, k, end);
      assert ShapeAt(StepsOf(RunChangeset(w, rs, order, g, st).0.trace, rs, g), order, k, end);
    }
  }

  // ------------------------------------------------------------------ nothing else touches a changeset

  lemma TransactionOthers(w: World, rs: seq<Request>, order: seq<nat>, g: string, h: string, st: State)
    requires Positions(rs, order) && h != g && (forall j :: 0 <= j < |order| ==> rs[order[j]].group == g)
    ensures StepsOf(RunInTransaction(w, rs, order, g, st).0.trace, rs, h) == StepsOf(st.trace, rs, h)
  {
    hide RunGroup, StepsOf, AnswerAll, Publish, HasFailure;
    OneMoreStep(st.trace, Began(g), rs, h);
    OthersSteps(w, rs, order, true, h, WithEvent(st, Began(g)));
    var ran := RunGroup(w, rs, order, true, WithEvent(st, Began(g)));
    var trace := ran.0.trace;
    OneMoreStep(trace, RolledBack(g), rs, h);
    OneMoreStep(trace, Committed(g), rs, h);
    OneMoreStep(trace, CommitFailed(g), rs, h);
    OneMoreStep(trace + [CommitFailed(g)], RolledBack(g), rs, h);
    if ran.1.Ok? {
      var n := |ran.1.value|;
      AnswerAllAnswers(w, rs, if n <= |order| then order[n..] else [], 424, WithEvent(ran.0.(maps := st.maps), RolledBack(g)));
    }
  }

  /** Masked failures of `h` are only added by reporting `h`. */
  lemma TransactionReportsNothing(w: World, rs: seq<Request>, order: seq<nat>, g: string, st: State)
    requires Positions(rs, order)
    ensures var next := RunInTransaction(w, rs, order, g, st).0; ReportsKept(st.trace, next.trace)
  {
    hide RunGroup, AnswerAll, Publish, HasFailure;
    hide ReportsKept;
    var ran := RunGroup(w, rs, order, true, WithEvent(st, Began(g)));
    GroupReportsNothing(w, rs, order, true, WithEvent(st, Began(g)));
    KeptFromBegin(st.trace, Began(g), ran.0.trace);
    KeptOneMore(st.trace, ran.0.trace, RolledBack(g));
    KeptOneMore(st.trace, ran.0.trace, Committed(g));
    KeptOneMore(st.trace, ran.0.trace, CommitFailed(g));
    KeptOneMore(st.trace, ran.0.trace + [CommitFailed(g)], RolledBack(g));
    if ran.1.Ok? {
      var n := |ran.1.value|;
      AnswerAllAnswers(w, rs, if n <= |order| then order[n..] else [], 424, WithEvent(ran.0.(maps := st.maps), RolledBack(g)));
    }
  }

  /** `after` continues `before` without reporting a changeset. */
  predicate ReportsKept(before: seq<Event>, after: seq<Event>) {
    && |before| <= |after| && after[..|before|] == before
    && forall p :: |before| <= p < |after| ==> !after[p].ReportedFailure?
  }

  lemma KeptOneMore(before: seq<Event>, after: seq<Event>, e: Event)
    requires ReportsKept(before, after) && !e.ReportedFailure?
    ensures ReportsKept(before, after + [e])
  {
  }

  lemma KeptFromBegin(before: seq<Event>, e: Event, after: seq<Event>)
    requires ReportsKept(before + [e], after) && !e.ReportedFailure?
    ensures ReportsKept(before, after)
  {
    assert after[..|before|] == (before + [e])[..|before|];
    assert after[|before|] == (before + [e])[|before|];
  }

  lemma {:induction false} GroupReportsNothing(w: World, rs: seq<Request>, order: seq<nat>, abort: bool, st: State)
    requires Positions(rs, order)
    ensures ReportsKept(st.trace, RunGroup(w, rs, order, abort, st).0.trace)
    decreases |order|
  {
    hide ReferencesKnown, DependencyFails, Prepare, Record;
    if order != [] {
      var first := RunRequest(w, rs, order[0], st);
      assert ReportsKept(st.trace, first.0.trace);
      hide RunRequest;
      GroupReportsNothing(w, rs, order[1..], abort, first.0);
    }
  }

  lemma ChangesetQuiet(w: World, rs: seq<Request>, order: seq<nat>, g: string, st: State)
    requires Positions(rs, order) && (forall j :: 0 <= j < |order| ==> rs[order[j]].group == g)
    ensures var next := RunChangeset(w, rs, order, g, st).0;
            && ReportsKept(st.trace, next.trace)
            && forall h :: h != g ==> StepsOf(next.trace, rs, h) == StepsOf(st.trace, rs, h)
  {
    hide RunInTransaction, StepsOf, AnswerAll, OnlyWrites;
    AnswerAllAnswers(w, rs, order, 501, st);
    TransactionReportsNothing(w, rs, order, g, st);
    forall h | h != g
      ensures StepsOf(RunInTransaction(w, rs, order, g, st).0.trace, rs, h) == StepsOf(st.trace, rs, h)
    {
      TransactionOthers(w, rs, order, g, h, st);
    }
  }

  // ------------------------------------------------------------------ over the whole batch

  lemma EntriesBelow(entries: seq<Entry>, g: string)
    ensures AllBelow(Stamp(entries, g)) <==> AllBelow(entries)
  {
    assert forall k :: 0 <= k < |entries| ==> Stamp(entries, g)[k].status == entries[k].status;
  }

  /** A changeset, from the state before it was met to the entries it is reported with. */
  lemma EntriesSteps(w: World, rs: seq<Request>, g: string, st: State)
    requires GroupFrom(rs, g, 0) != [] && StepsOf(st.trace, rs, g) == [] && !Masked(st.trace, g)
    ensures var (next, r) := ChangesetEntries(w, rs, g, st);
            && Orderly(StepsOf(next.trace, rs, g), GroupFrom(rs, g, 0))
            && (r.Ok? ==> (AllBelow(r.value) <==> Commit in StepsOf(next.trace, rs, g) || Masked(next.trace, g)))
            && !(Commit in StepsOf(next.trace, rs, g) && Masked(next.trace, g))
  {
    hide RunChangeset, StepsOf, Orderly;
    var order := GroupFrom(rs, g, 0);
    GroupMembers(rs, g, 0);
    ChangesetSteps(w, rs, order, g, st);
    ChangesetQuiet(w, rs, order, g, st);
    var (next, r) := RunChangeset(w, rs, order, g, st);
    NotMasked(st.trace, next.trace, g);
    if r.Ok? {
      EntriesBelow(r.value, g);
    } else {
      OneMoreStep(next.trace, ReportedFailure(g, r.error), rs, g);
      assert StepsOf(next.trace, rs, g) + [] == StepsOf(next.trace, rs, g);
      MaskedByLast(next.trace, g, r.error);
      var entries := FailureEntries(rs, order, g, ReportedStatus(r.error));
      AllSame(entries, ReportedStatus(r.error));
    }
  }

  lemma NotMasked(before: seq<Event>, after: seq<Event>, g: string)
    requires ReportsKept(before, after)
    ensures Masked(after, g) <==> Masked(before, g)
  {
    if Masked(before, g) {
      var p :| 0 <= p < |before| && before[p].ReportedFailure? && before[p].group == g && ReportedStatus(before[p].error) < 400;
      assert after[p] == before[p];
    }
    if Masked(after, g) {
      var p :| 0 <= p < |after| && after[p].ReportedFailure? && after[p].group == g && ReportedStatus(after[p].error) < 400;
      assert before[p] == after[..|before|][p];
    }
  }

  lemma MaskedByLast(trace: seq<Event>, g: string, e: Error)
    ensures Masked(trace + [ReportedFailure(g, e)], g) <==> Masked(trace, g) || ReportedStatus(e) < 400
    ensures forall h :: h != g ==> (Masked(trace + [ReportedFailure(g, e)], h) <==> Masked(trace, h))
  {
    var after := trace + [ReportedFailure(g, e)];
    assert forall p :: 0 <= p < |trace| ==> after[p] == trace[p];
    assert after[|trace|] == ReportedFailure(g, e);
  }

  lemma EntriesQuiet(w: World, rs: seq<Request>, g: string, h: string, st: State)
    requires h != g
    ensures var next := ChangesetEntries(w, rs, g, st).0;
            StepsOf(next.trace, rs, h) == StepsOf(st.trace, rs, h) && (Masked(next.trace, h) <==> Masked(st.trace, h))
  {
    hide RunChangeset, StepsOf, Masked;
    var order := GroupFrom(rs, g, 0);
    GroupMembers(rs, g, 0);
    ChangesetQuiet(w, rs, order, g, st);
    var (next, r) := RunChangeset(w, rs, order, g, st);
    NotMasked(st.trace, next.trace, h);
    if r.Err? {
      OneMoreStep(next.trace, ReportedFailure(g, r.error), rs, h);
      MaskedByLast(next.trace, g, r.error);
    }
  }

  lemma PlainQuiet(w: World, rs: seq<Request>, i: nat, h: string, st: State)
    requires i < |rs| && rs[i].group != h
    ensures var next := RunGroup(w, rs, [i], false, st).0;
            StepsOf(next.trace, rs, h) == StepsOf(st.trace, rs, h) && (Masked(next.trace, h) <==> Masked(st.trace, h))
  {
    hide RunGroup, StepsOf, Masked;
    OthersSteps(w, rs, [i], false, h, st);
    GroupReportsNothing(w, rs, [i], false, st);
    NotMasked(st.trace, RunGroup(w, rs, [i], false, st).0.trace, h);
  }

  /** The responses to the members of `g` among the first `i` requests are all below 400. */
  predicate BelowFor(rs: seq<Request>, i: nat, g: string, responses: seq<Entry>)
    requires i <= |rs|
  {
    |responses| == i && forall k :: 0 <= k < i && rs[k].group == g ==> responses[k].status < 400
  }

  /** Reported success so far is success of the transaction, unless its failure was masked. */
  ghost predicate Honest(rs: seq<Request>, i: nat, g: string, st: State, pending: Pending, responses: seq<Entry>)
    requires i <= |rs|
  {
    if g in pending then
      BelowFor(rs, i, g, responses) && AllBelow(pending[g]) <==> Commit in StepsOf(st.trace, rs, g) || Masked(st.trace, g)
    else StepsOf(st.trace, rs, g) == [] && !Masked(st.trace, g)
  }

  ghost predicate Settled(rs: seq<Request>, g: string, st: State) {
    && Orderly(StepsOf(st.trace, rs, g), GroupFrom(rs, g, 0))
    && !(Commit in StepsOf(st.trace, rs, g) && Masked(st.trace, g))
  }

  lemma BelowNext(rs: seq<Request>, i: nat, g: string, responses: seq<Entry>, entry: Entry)
    requires i < |rs| && |responses| == i
    ensures BelowFor(rs, i + 1, g, responses + [entry]) <==>
            BelowFor(rs, i, g, responses) && (rs[i].group == g ==> entry.status < 400)
  {
    var more := responses + [entry];
    assert forall k :: 0 <= k < i ==> more[k] == responses[k];
    assert more[i] == entry;
  }

  lemma BelowShift(entries: seq<Entry>)
    requires entries != []
    ensures AllBelow(entries) <==> entries[0].status < 400 && AllBelow(entries[1..])
  {
    assert forall k :: 1 <= k < |entries| ==> entries[k] == entries[1..][k - 1];
  }

  lemma NoneBelow(entries: seq<Entry>)
    requires entries == []
    ensures AllBelow(entries)
  {
  }

  lemma FrontHonest(w: World, rs: seq<Request>, i: nat, g: string, st: State, pending: Pending, responses: seq<Entry>)
    requires i < |rs| && rs[i].group != "" && g != "" && Aligned(rs, i, pending, responses)
    requires Honest(rs, i, g, st, pending, responses) && Settled(rs, g, st)
    ensures var front := Front(w, rs, i, st, pending);
            && Settled(rs, g, front.0)
            && (front.1.Ok? ==> Honest(rs, i, g, front.0, pending[rs[i].group := front.1.value], responses))
  {
    hide ChangesetEntries, RunGroup, StepsOf, Orderly, Masked, AllBelow;
    var h := rs[i].group;
    if h !in pending {
      if h == g {
        GroupUnfolds(rs, g, i);
        GroupStarts(rs, g, 0, i);
        EntriesSteps(w, rs, g, st);
        assert BelowFor(rs, i, g, responses);
      } else {
        EntriesQuiet(w, rs, h, g, st);
      }
    } else {
      assert pending[h := pending[h]] == pending;
    }
  }

  lemma NextHonest(w: World, rs: seq<Request>, i: nat, g: string, st: State, pending: Pending, responses: seq<Entry>)
    requires i < |rs| && g != "" && Aligned(rs, i, pending, responses)
    requires Honest(rs, i, g, st, pending, responses) && Settled(rs, g, st)
    ensures var (next, left, r) := Next(w, rs, i, st, pending);
            && Settled(rs, g, next)
            && (r.Ok? ==> Honest(rs, i + 1, g, next, left, responses + r.value))
  {
    hide ChangesetEntries, RunGroup, StepsOf, Orderly, Masked, AllBelow, BelowFor;
    assert |responses| == i;
    hide Aligned;
    if rs[i].group == "" {
      PlainQuiet(w, rs, i, g, st);
      if RunGroup(w, rs, [i], false, st).1.Ok? {
        PlainAnswered(w, rs, i, st);
        var entries := RunGroup(w, rs, [i], false, st).1.value;
        assert entries == [entries[0]];
        BelowNext(rs, i, g, responses, entries[0]);
      }
    } else {
      NextOfGroup(w, rs, i, st, pending, responses);
      FrontHonest(w, rs, i, g, st, pending, responses);
      var front := Front(w, rs, i, st, pending);
      if front.1.Ok? {
        BelowNext(rs, i, g, responses, front.1.value[0]);
        BelowShift(front.1.value);
      }
    }
  }

  lemma {:induction false} RunHonest(w: World, rs: seq<Request>, i: nat, g: string, st: State, pending: Pending, responses: seq<Entry>)
    requires i <= |rs| && g != "" && Aligned(rs, i, pending, responses)
    requires Honest(rs, i, g, st, pending, responses) && Settled(rs, g, st)
    ensures var r := RunFrom(w, rs, i, st, pending, responses);
            && Settled(rs, g, r.0)
            && (r.1.Ok? && (exists k :: 0 <= k < |rs| && rs[k].group == g) ==>
                  (BelowFor(rs, |rs|, g, r.1.value) <==> Commit in StepsOf(r.0.trace, rs, g) || Masked(r.0.trace, g)))
    decreases |rs| - i
  {
    hide Next, StepsOf, Masked, Settled, BelowFor, AllBelow;
    if i < |rs| {
      hide Aligned, Honest;
      var (next, left, r) := Next(w, rs, i, st, pending);
      NextHonest(w, rs, i, g, st, pending, responses);
      if r.Ok? {
        NextAligned(w, rs, i, st, pending, responses);
        RunHonest(w, rs, i + 1, g, next, left, responses + r.value);
      }
    } else if exists k :: 0 <= k < |rs| && rs[k].group == g {
      assert g in pending;
      assert GroupFrom(rs, g, |rs|) == [];
      assert Reported(pending[g], rs, GroupFrom(rs, g, |rs|), g);
      NoneBelow(pending[g]);
    }
  }

  /** In every run, returned or refused, a changeset's transaction is begun at most once, its
      members run in order inside it, and it is then committed, or rolled back exactly once -
      after a failed commit at the latest, and never after a successful one. */
  lemma TransactionsAreOrderly(w: World, rs: seq<Request>, g: string)
    requires g != ""
    ensures Orderly(StepsOf(RunBatch(w, rs).0.trace, rs, g), GroupFrom(rs, g, 0))
  {
    hide RunFrom;
    RunHonest(w, rs, 0, g, START, map[], []);
  }

  /** Changeset atomicity. In every run that returns, the responses to a changeset are all below
      400 exactly when its transaction committed or the error it was reported with carries a
      status below 400; the two exclude each other. */
  lemma ReportedSuccess(w: World, rs: seq<Request>, g: string)
    requires g != "" && RunBatch(w, rs).1.Ok? && exists k :: 0 <= k < |rs| && rs[k].group == g
    ensures var (st, r) := RunBatch(w, rs);
            && |r.value| == |rs|
            && ((forall k :: 0 <= k < |rs| && rs[k].group == g ==> r.value[k].status < 400)
                <==> Commit in StepsOf(st.trace, rs, g) || Masked(st.trace, g))
            && !(Commit in StepsOf(st.trace, rs, g) && Masked(st.trace, g))
  {
    hide RunFrom;
    RunHonest(w, rs, 0, g, START, map[], []);
    OneResponseEach(w, rs);
  }

  // ------------------------------------------------------------------ errors that say failure

  predicate Fails(e: Error) {
    ReportedStatus(e) >= 400
  }

  /** What beginning and committing the changeset and handling its members can throw carries a
      failure status, or none. */
  ghost predicate ErrorsFail(w: World, rs: seq<Request>, g: string) {
    && (forall i: nat, p :: i < |rs| && rs[i].group == g && w.handle(i, p).Throws? ==> Fails(w.handle(i, p).error))
    && (w.begin(g).NotBegun? ==> Fails(w.begin(g).error))
    && (w.commit(g).Some? ==> Fails(w.commit(g).value))
  }

  lemma {:induction false} GroupErrors(w: World, rs: seq<Request>, order: seq<nat>, abort: bool, g: string, st: State)
    requires Positions(rs, order) && (forall k :: 0 <= k < |order| ==> rs[order[k]].group == g) && ErrorsFail(w, rs, g)
    ensures var r := RunGroup(w, rs, order, abort, st).1; r.Err? ==> Fails(r.error)
    decreases |order|
  {
    hide ReferencesKnown, DependencyFails, Record, Prepare;
    if order != [] {
      var first := RunRequest(w, rs, order[0], st);
      assert first.1.Err? ==> Fails(first.1.error);
      hide RunRequest, ErrorsFail;
      GroupErrors(w, rs, order[1..], abort, g, first.0);
    }
  }

  lemma {:induction false} AnswerErrors(w: World, rs: seq<Request>, order: seq<nat>, status: int, st: State)
    requires Positions(rs, order)
    ensures var r := AnswerAll(w, rs, order, status, st).1; r.Err? ==> Fails(r.error)
    decreases |order|
  {
    if order != [] {
      var entry := Entry(rs[order[0]].id, status, "");
      AnswerErrors(w, rs, order[1..], status, st.(results := Noted(st.results, entry.id, entry)));
    }
  }

  lemma TransactionErrors(w: World, rs: seq<Request>, order: seq<nat>, g: string, st: State)
    requires Positions(rs, order) && (forall k :: 0 <= k < |order| ==> rs[order[k]].group == g) && ErrorsFail(w, rs, g)
    ensures var r := RunInTransaction(w, rs, order, g, st).1; r.Err? ==> Fails(r.error)
  {
    hide RunGroup, AnswerAll, Publish, HasFailure;
    var ran := RunGroup(w, rs, order, true, WithEvent(st, Began(g)));
    GroupErrors(w, rs, order, true, g, WithEvent(st, Began(g)));
    if ran.1.Ok? {
      var n := |ran.1.value|;
      AnswerErrors(w, rs, if n <= |order| then order[n..] else [], 424, WithEvent(ran.0.(maps := st.maps), RolledBack(g)));
    }
  }

  lemma ChangesetUnmasked(w: World, rs: seq<Request>, g: string, h: string, st: State)
    requires ErrorsFail(w, rs, h) && !Masked(st.trace, h)
    ensures !Masked(ChangesetEntries(w, rs, g, st).0.trace, h)
  {
    hide RunInTransaction, AnswerAll, Masked, OnlyWrites;
    var order := GroupFrom(rs, g, 0);
    GroupMembers(rs, g, 0);
    if g == h {
      TransactionErrors(w, rs, order, g, st);
    }
    AnswerErrors(w, rs, order, 501, st);
    ChangesetQuiet(w, rs, order, g, st);
    var (next, r) := RunChangeset(w, rs, order, g, st);
    NotMasked(st.trace, next.trace, h);
    assert g == h && r.Err? ==> Fails(r.error);
    if r.Err? {
      MaskedByLast(next.trace, g, r.error);
    }
  }

  lemma {:induction false} RunUnmasked(w: World, rs: seq<Request>, i: nat, h: string, st: State, pending: Pending, responses: seq<Entry>)
    requires i <= |rs| && ErrorsFail(w, rs, h) && !Masked(st.trace, h)
    ensures !Masked(RunFrom(w, rs, i, st, pending, responses).0.trace, h)
    decreases |rs| - i
  {
    hide RunGroup, ChangesetEntries, Masked, ErrorsFail;
    if i < |rs| {
      var (next, left, r) := Next(w, rs, i, st, pending);
      if rs[i].group == "" {
        GroupReportsNothing(w, rs, [i], false, st);
        NotMasked(st.trace, next.trace, h);
      } else if rs[i].group !in pending {
        ChangesetUnmasked(w, rs, rs[i].group, h, st);
      }
      if r.Ok? {
        RunUnmasked(w, rs, i + 1, h, next, left, responses + r.value);
      }
    }
  }

  /** When no error of the changeset carries a status below 400, its reported success is committed
      success. */
  lemma ChangesetAtomicity(w: World, rs: seq<Request>, g: string)
    requires g != "" && RunBatch(w, rs).1.Ok? && (exists k :: 0 <= k < |rs| && rs[k].group == g) && ErrorsFail(w, rs, g)
    ensures var (st, r) := RunBatch(w, rs);
            && |r.value| == |rs|
            && ((forall k :: 0 <= k < |rs| && rs[k].group == g ==> r.value[k].status < 400)
                <==> Commit in StepsOf(st.trace, rs, g))
  {
    hide RunFrom, Masked, ErrorsFail;
    ReportedSuccess(w, rs, g);
    assert !Masked([], g) by { NoTraceUnmasked(g); }
    RunUnmasked(w, rs, 0, g, START, map[], []);
  }

  lemma NoTraceUnmasked(g: string)
    ensures !Masked([], g)
  {
  }

  const ONE_WRITE := Request("", "g", [], true, [], false)
  const CARELESS: World := World((i, p) => Responds(200, "", "", false), g => Begun, g => Some(Error(Some(204), false)),
                                 g => true, (i, ts) => "", i => true, true)

  function CarelessTrace(): seq<Event> {
    [Began("g"), Handled(0, Prepare(CARELESS, START.maps, ONE_WRITE, 0), Responds(200, "", "", false)), CommitFailed("g"), RolledBack("g")]
  }

  lemma CarelessRun()
    ensures RunInTransaction(CARELESS, [ONE_WRITE], [0], "g", START) ==
            (State(map[], START.maps, CarelessTrace()), Err(Error(Some(204), false)))
  {
    var w, rs := CARELESS, [ONE_WRITE];
    var begun := WithEvent(START, Began("g"));
    var handled := Handled(0, Prepare(w, begun.maps, ONE_WRITE, 0), Responds(200, "", "", false));
    var ran := WithEvent(begun, handled);
    assert RunRequest(w, rs, 0, begun) == (ran, Ok(Entry("", 200, "")));
    hide RunRequest;
    var order: seq<nat> := [0];
    assert order[1..] == [] && [Entry("", 200, "")] + [] == [Entry("", 200, "")];
    assert RunGroup(w, rs, order[1..], true, ran) == (ran, Ok([]));
    assert RunGroup(w, rs, order, true, begun) == (ran, Ok([Entry("", 200, "")]));
    hide RunGroup, Prepare;
    assert ran.trace == [Began("g"), handled];
    assert ran.trace + [CommitFailed("g")] + [RolledBack("g")] == CarelessTrace();
  }

  lemma CarelessSteps()
    ensures StepsOf(CarelessTrace() + [ReportedFailure("g", Error(Some(204), false))], [ONE_WRITE], "g")
         == [Begin, Ran(0), CommitFail, Rollback]
  {
    hide Prepare, StepsOf;
    var t, rs := CarelessTrace(), [ONE_WRITE];
    var e := ReportedFailure("g", Error(Some(204), false));
    assert StepsOf([], rs, "g") == [] by { NoSteps(rs, "g"); }
    assert [] + [t[0]] == [t[0]] && [t[0]] + [t[1]] == [t[0], t[1]];
    assert [t[0], t[1]] + [t[2]] == [t[0], t[1], t[2]] && [t[0], t[1], t[2]] + [t[3]] == t;
    OneMoreStep([], t[0], rs, "g");
    OneMoreStep([t[0]], t[1], rs, "g");
    OneMoreStep([t[0], t[1]], t[2], rs, "g");
    OneMoreStep([t[0], t[1], t[2]], t[3], rs, "g");
    OneMoreStep(t, e, rs, "g");
  }

  lemma NoSteps(rs: seq<Request>, g: string)
    ensures StepsOf([], rs, g) == []
  {
  }

  /** Without that, a rolled-back changeset can be reported as a success: here the commit fails
      with an error that carries status 204. */
  lemma MaskedRollback()
    ensures var (st, r) := RunBatch(CARELESS, [ONE_WRITE]);
            && r == Ok([Entry("", 204, "g")])
            && StepsOf(st.trace, [ONE_WRITE], "g") == [Begin, Ran(0), CommitFail, Rollback]
  {
    CarelessRun();
    CarelessSteps();
    hide RunInTransaction, RunFrom, CarelessTrace, StepsOf;
    MaskedRollbackReported(State(map[], START.maps, CarelessTrace()));
  }

  lemma MaskedRollbackReported(undone: State)
    requires RunInTransaction(CARELESS, [ONE_WRITE], [0], "g", START) == (undone, Err(Error(Some(204), false)))
    ensures RunBatch(CARELESS, [ONE_WRITE]) ==
            (WithEvent(undone, ReportedFailure("g", Error(Some(204), false))), Ok([Entry("", 204, "g")]))
  {
    hide RunInTransaction;
    var w, rs, e := CARELESS, [ONE_WRITE], Error(Some(204), false);
    assert GroupFrom(rs, "g", 1) == [] && GroupFrom(rs, "g", 0) == [0];
    assert OnlyWrites(rs, [0]);
    assert ChangesetEntries(w, rs, "g", START) == (WithEvent(undone, ReportedFailure("g", e)), Ok(FailureEntries(rs, [0], "g", 204)));
    assert FailureEntries(rs, [0], "g", 204) == [Entry("", 204, "g")];
    hide ChangesetEntries;
    var (next, left, r) := Next(w, rs, 0, START, map[]);
    assert r == Ok([Entry("", 204, "g")]) && next == WithEvent(undone, ReportedFailure("g", e));
    assert RunFrom(w, rs, 1, next, left, [] + r.value) == (next, Ok([] + r.value));
    assert [] + r.value == r.value;
  }
}
