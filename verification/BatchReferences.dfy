/** What one request of a batch may learn from another: values substituted for Content-ID
    references and ETags added to conditional requests. Holds of every run, returned or refused. */
module BatchReferences {
  import opened ByteStrings
  import opened BatchProtocol
  import opened BatchAtomicity

  // ------------------------------------------------------------------ where a value comes from

  /** A successful response with this target (or, with `etag`, this ETag). */
  predicate Produced(e: Event, rs: seq<Request>, v: string, etag: bool) {
    && e.Handled? && e.index < |rs| && e.outcome.Responds?
    && 200 <= e.outcome.status < 400
    && (if etag then e.outcome.etag else e.outcome.target) == v
  }

  /** Group `g` may use what group `h` produced. */
  predicate Visible(trace: seq<Event>, h: string, g: string) {
    h == "" || h == g || Committed(h) in trace
  }

  ghost predicate Source(trace: seq<Event>, rs: seq<Request>, g: string, v: string, etag: bool) {
    exists q :: 0 <= q < |trace| && Produced(trace[q], rs, v, etag) && Visible(trace, rs[trace[q].index].group, g)
  }

  ghost predicate Justified(trace: seq<Event>, rs: seq<Request>, g: string, maps: Maps) {
    && (forall k <- maps.ids :: Source(trace, rs, g, maps.ids[k], false))
    && (forall k <- maps.etags :: Source(trace, rs, g, maps.etags[k], true))
  }

  ghost predicate UsesJustified(trace: seq<Event>, rs: seq<Request>, g: string, p: Prepared) {
    && (forall k :: 0 <= k < |p.targets| ==> Source(trace, rs, g, p.targets[k], false))
    && (p.ifMatch != "" ==> Source(trace, rs, g, p.ifMatch, true))
  }

  ghost predicate JustifiedAt(trace: seq<Event>, rs: seq<Request>, p: nat)
    requires p < |trace|
  {
    trace[p].Handled? && trace[p].index < |rs| ==>
      UsesJustified(trace[..p], rs, rs[trace[p].index].group, trace[p].prepared)
  }

  ghost predicate ReferencesJustified(trace: seq<Event>, rs: seq<Request>) {
    forall p :: 0 <= p < |trace| ==> JustifiedAt(trace, rs, p)
  }

  lemma SourceLasts(trace: seq<Event>, more: seq<Event>, rs: seq<Request>, g: string, v: string, etag: bool)
    requires Source(trace, rs, g, v, etag)
    ensures Source(trace + more, rs, g, v, etag)
  {
    var q :| 0 <= q < |trace| && Produced(trace[q], rs, v, etag) && Visible(trace, rs[trace[q].index].group, g);
    assert (trace + more)[q] == trace[q];
    VisibleLasts(trace, more, rs[trace[q].index].group, g);
  }

  lemma VisibleLasts(trace: seq<Event>, more: seq<Event>, h: string, g: string)
    requires Visible(trace, h, g)
    ensures Visible(trace + more, h, g)
  {
  }

  lemma JustifiedLasts(trace: seq<Event>, more: seq<Event>, rs: seq<Request>, g: string, maps: Maps)
    requires Justified(trace, rs, g, maps)
    ensures Justified(trace + more, rs, g, maps)
  {
    hide Source;
    forall k <- maps.ids ensures Source(trace + more, rs, g, maps.ids[k], false) {
      SourceLasts(trace, more, rs, g, maps.ids[k], false);
    }
    forall k <- maps.etags ensures Source(trace + more, rs, g, maps.etags[k], true) {
      SourceLasts(trace, more, rs, g, maps.etags[k], true);
    }
  }

  /** What everyone may use, a group may use; and what a group may use, everyone may once it has
      committed. */
  lemma SourceMoves(trace: seq<Event>, rs: seq<Request>, g: string, h: string, v: string, etag: bool)
    requires Source(trace, rs, g, v, etag) && (g == "" || Committed(g) in trace)
    ensures Source(trace, rs, h, v, etag)
  {
    var q :| 0 <= q < |trace| && Produced(trace[q], rs, v, etag) && Visible(trace, rs[trace[q].index].group, g);
    assert Visible(trace, rs[trace[q].index].group, h);
  }

  lemma JustifiedMoves(trace: seq<Event>, rs: seq<Request>, g: string, h: string, maps: Maps)
    requires Justified(trace, rs, g, maps) && (g == "" || Committed(g) in trace)
    ensures Justified(trace, rs, h, maps)
  {
    hide Source;
    forall k <- maps.ids ensures Source(trace, rs, h, maps.ids[k], false) {
      SourceMoves(trace, rs, g, h, maps.ids[k], false);
    }
    forall k <- maps.etags ensures Source(trace, rs, h, maps.etags[k], true) {
      SourceMoves(trace, rs, g, h, maps.etags[k], true);
    }
  }

  lemma OneMoreEvent(trace: seq<Event>, e: Event, rs: seq<Request>)
    requires ReferencesJustified(trace, rs)
    requires e.Handled? && e.index < |rs| ==> UsesJustified(trace, rs, rs[e.index].group, e.prepared)
    ensures ReferencesJustified(trace + [e], rs)
  {
    hide UsesJustified;
    var after := trace + [e];
    forall p | 0 <= p < |after| ensures JustifiedAt(after, rs, p) {
      if p < |trace| {
        assert JustifiedAt(trace, rs, p);
        assert after[..p] == trace[..p] && after[p] == trace[p];
      } else {
        assert after[..p] == trace && after[p] == e;
      }
    }
  }

  // ------------------------------------------------------------------ lookups and records

  lemma TokenFromMap(ids: map<string, string>, token: string) returns (key: string)
    requires ResolveToken(ids, token) != ""
    ensures key in ids && ids[key] == ResolveToken(ids, token)
  {
    hide Lower, IsQuoted, Unquoted, StartsWith;
    assert ResolveToken(ids, token) in ids.Values;
    key :| key in ids && ids[key] == ResolveToken(ids, token);
  }

  lemma PreparedJustified(w: World, rs: seq<Request>, i: nat, st: State, g: string)
    requires i < |rs| && Justified(st.trace, rs, g, st.maps) && ReferencesKnown(st.maps, rs[i])
    ensures UsesJustified(st.trace, rs, g, Prepare(w, st.maps, rs[i], i))
  {
    hide Source, ResolveToken;
    var p := Prepare(w, st.maps, rs[i], i);
    forall k | 0 <= k < |p.targets| ensures Source(st.trace, rs, g, p.targets[k], false) {
      var key := TokenFromMap(st.maps.ids, rs[i].references[k]);
    }
  }

  lemma {:induction false} RegisteredValues(ids: map<string, string>, names: seq<string>, value: string, key: string)
    requires key in RegisterAll(ids, names, value)
    ensures var after := RegisterAll(ids, names, value); after[key] == value || (key in ids && after[key] == ids[key])
    decreases |names|
  {
    hide Lower;
    if names != [] {
      RegisteredValues(Register(ids, names[0], value), names[1..], value, key);
    }
  }

  lemma RecordJustified(trace: seq<Event>, rs: seq<Request>, g: string, maps: Maps, i: nat, p: Prepared, o: Outcome)
    requires i < |rs| && rs[i].group == g && o.Responds? && Justified(trace, rs, g, maps)
    ensures Justified(trace + [Handled(i, p, o)], rs, g, Record(maps, rs[i], i, o.status, o.target, o.etag))
  {
    hide Source, RegisterAll, Names, BeforeQuery;
    var e := Handled(i, p, o);
    var after := Record(maps, rs[i], i, o.status, o.target, o.etag);
    JustifiedLasts(trace, [e], rs, g, maps);
    if after != maps {
      OwnSource(trace, rs, g, i, p, o);
      forall k <- after.ids ensures Source(trace + [e], rs, g, after.ids[k], false) {
        RegisteredValues(maps.ids, Names(rs[i].id, i + 1), o.target, k);
      }
    }
  }

  lemma OwnSource(trace: seq<Event>, rs: seq<Request>, g: string, i: nat, p: Prepared, o: Outcome)
    requires i < |rs| && rs[i].group == g && o.Responds? && 200 <= o.status < 400
    ensures Source(trace + [Handled(i, p, o)], rs, g, o.target, false)
    ensures Source(trace + [Handled(i, p, o)], rs, g, o.etag, true)
  {
    var after := trace + [Handled(i, p, o)];
    assert Produced(after[|trace|], rs, o.target, false) && Produced(after[|trace|], rs, o.etag, true);
  }

  // ------------------------------------------------------------------ runs

  ghost predicate Safe(rs: seq<Request>, g: string, st: State) {
    Justified(st.trace, rs, g, st.maps) && ReferencesJustified(st.trace, rs)
  }

  lemma RequestSafe(w: World, rs: seq<Request>, i: nat, g: string, st: State)
    requires i < |rs| && rs[i].group == g && Safe(rs, g, st)
    ensures Safe(rs, g, RunRequest(w, rs, i, st).0)
  {
    hide Justified, ReferencesJustified, DependencyFails, Record, ReferencesKnown, UsesJustified;
    if ReferencesKnown(st.maps, rs[i]) {
      PreparedJustified(w, rs, i, st, g);
      var p := Prepare(w, st.maps, rs[i], i);
      hide Prepare;
      var e := Handled(i, p, w.handle(i, p));
      OneMoreEvent(st.trace, e, rs);
      JustifiedLasts(st.trace, [e], rs, g, st.maps);
      if e.outcome.Responds? {
        RecordJustified(st.trace, rs, g, st.maps, i, p, e.outcome);
      }
    }
  }

  lemma {:induction false} GroupSafe(w: World, rs: seq<Request>, order: seq<nat>, abort: bool, g: string, st: State)
    requires Positions(rs, order) && (forall k :: 0 <= k < |order| ==> rs[order[k]].group == g) && Safe(rs, g, st)
    ensures Safe(rs, g, RunGroup(w, rs, order, abort, st).0)
    decreases |order|
  {
    hide Safe, RunRequest;
    if order != [] {
      RequestSafe(w, rs, order[0], g, st);
      GroupSafe(w, rs, order[1..], abort, g, RunRequest(w, rs, order[0], st).0);
    }
  }

  lemma EventSafe(rs: seq<Request>, g: string, st: State, e: Event)
    requires Safe(rs, g, st) && !e.Handled?
    ensures Safe(rs, g, WithEvent(st, e))
  {
    hide Justified, ReferencesJustified;
    OneMoreEvent(st.trace, e, rs);
    JustifiedLasts(st.trace, [e], rs, g, st.maps);
  }

  lemma PublishJustified(trace: seq<Event>, rs: seq<Request>, shared: Maps, own: Maps)
    requires Justified(trace, rs, "", shared) && Justified(trace, rs, "", own)
    ensures Justified(trace, rs, "", Maps(Publish(shared.ids, own.ids), Publish(shared.etags, own.etags)))
  {
    hide Source;
  }

  lemma TransactionSafe(w: World, rs: seq<Request>, order: seq<nat>, g: string, st: State)
    requires Positions(rs, order) && (forall k :: 0 <= k < |order| ==> rs[order[k]].group == g) && Safe(rs, "", st)
    ensures Safe(rs, "", RunInTransaction(w, rs, order, g, st).0)
  {
    hide Justified, ReferencesJustified, RunGroup, AnswerAll, HasFailure, Publish;
    EventSafe(rs, "", st, Began(g));
    var begun := WithEvent(st, Began(g));
    JustifiedMoves(begun.trace, rs, "", g, begun.maps);
    GroupSafe(w, rs, order, true, g, begun);
    var ran := RunGroup(w, rs, order, true, begun);
    GroupReportsNothing(w, rs, order, true, begun);
    var more := ran.0.trace[|begun.trace|..];
    assert ran.0.trace == begun.trace + more;
    JustifiedLasts(begun.trace, more, rs, "", st.maps);
    var kept := ran.0.(maps := st.maps);
    EventSafe(rs, "", kept, RolledBack(g));
    EventSafe(rs, "", kept, CommitFailed(g));
    EventSafe(rs, "", WithEvent(kept, CommitFailed(g)), RolledBack(g));
    EventSafe(rs, "", kept, Committed(g));
    if ran.1.Ok? {
      var n := |ran.1.value|;
      AnswerAllAnswers(w, rs, if n <= |order| then order[n..] else [], 424, WithEvent(kept, RolledBack(g)));
      EventSafe(rs, g, ran.0, Committed(g));
      var committed := WithEvent(kept, Committed(g)).trace;
      assert committed[|ran.0.trace|] == Committed(g);
      JustifiedMoves(committed, rs, g, "", ran.0.maps);
      PublishJustified(committed, rs, st.maps, ran.0.maps);
    }
  }

  lemma ChangesetSafe(w: World, rs: seq<Request>, g: string, st: State)
    requires Safe(rs, "", st)
    ensures Safe(rs, "", ChangesetEntries(w, rs, g, st).0)
  {
    hide Justified, ReferencesJustified, RunInTransaction, AnswerAll, OnlyWrites;
    var order := GroupFrom(rs, g, 0);
    GroupMembers(rs, g, 0);
    TransactionSafe(w, rs, order, g, st);
    AnswerAllAnswers(w, rs, order, 501, st);
    var (next, r) := RunChangeset(w, rs, order, g, st);
    assert Safe(rs, "", next);
    if r.Err? {
      EventSafe(rs, "", next, ReportedFailure(g, r.error));
    }
  }

  lemma {:induction false} RunSafe(w: World, rs: seq<Request>, i: nat, st: State, pending: Pending, responses: seq<Entry>)
    requires i <= |rs| && Safe(rs, "", st)
    ensures Safe(rs, "", RunFrom(w, rs, i, st, pending, responses).0)
    decreases |rs| - i
  {
    hide Safe, RunGroup, ChangesetEntries;
    if i < |rs| {
      var (next, left, r) := Next(w, rs, i, st, pending);
      if rs[i].group == "" {
        GroupSafe(w, rs, [i], false, "", st);
      } else if rs[i].group !in pending {
        ChangesetSafe(w, rs, rs[i].group, st);
      }
      if r.Ok? {
        RunSafe(w, rs, i + 1, next, left, responses + r.value);
      }
    }
  }

  /** In every run, each value put into a sub-request - for a Content-ID reference or as If-Match
      - was produced earlier by a successful request that is plain, of the same changeset, or of
      a changeset committed before. Nothing leaks out of a changeset that is not committed. */
  lemma NothingLeaks(w: World, rs: seq<Request>)
    ensures ReferencesJustified(RunBatch(w, rs).0.trace, rs)
    ensures Justified(RunBatch(w, rs).0.trace, rs, "", RunBatch(w, rs).0.maps)
  {
    hide RunFrom;
    RunSafe(w, rs, 0, START, map[], []);
  }
}
