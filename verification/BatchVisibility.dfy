/** The other half of `BatchReferences`: what an earlier request produced is found. A reference by
    a name that no other request goes by reaches exactly the entity of that request, and an ETag
    is added exactly as it was returned. Holds of every run, returned or refused. */
module BatchVisibility {
  import opened ByteStrings
  import opened BatchProtocol
  import opened BatchAtomicity
  import opened BatchReferences

  // ------------------------------------------------------------------ names and paths

  /** The ways to refer to a request: its id, or its id or its place in the batch in `requests(…)`. */
  predicate Spells(r: Request, place: nat, name: string) {
    || name == r.id
    || name == "requests(" + Decimal(place) + ")"
    || name == "requests(" + r.id + ")"
    || name == "requests('" + r.id + "')"
    || name == "requests(\"" + r.id + "\")"
  }

  /** An event of a request that goes by this name, or by one that is it in lower case. */
  ghost predicate GoesBy(e: Event, rs: seq<Request>, key: string) {
    e.Handled? && e.index < |rs| && SpelledBy(rs[e.index], e.index + 1, key)
  }

  ghost predicate SpelledBy(r: Request, place: nat, key: string) {
    exists name :: Spells(r, place, name) && (key == name || key == Lower(name))
  }

  /** A success that names its entity, under an id. */
  predicate Leaves(e: Event, rs: seq<Request>) {
    && e.Handled? && e.index < |rs| && rs[e.index].id != ""
    && e.outcome.Responds? && 200 <= e.outcome.status < 400 && e.outcome.target != ""
  }

  predicate IsPathOf(path: string, target: string) {
    var t := Trim(target);
    '?' !in path && path != "" && (t == path || (|path| < |t| && t[..|path|] == path && t[|path|] == '?'))
  }

  /** It leaves an ETag for this path. */
  predicate LeavesEtag(e: Event, rs: seq<Request>, path: string) {
    Leaves(e, rs) && e.outcome.etag != "" && IsPathOf(path, e.outcome.target)
  }

  ghost predicate OnlyName(trace: seq<Event>, rs: seq<Request>, q: nat, key: string) {
    forall o :: 0 <= o < |trace| && o != q ==> !GoesBy(trace[o], rs, key)
  }

  ghost predicate OnlyPath(trace: seq<Event>, rs: seq<Request>, q: nat, path: string) {
    forall o :: 0 <= o < |trace| && o != q ==> !LeavesEtag(trace[o], rs, path)
  }

  // ------------------------------------------------------------------ what the maps know

  ghost predicate KnowsName(trace: seq<Event>, rs: seq<Request>, maps: Maps, q: nat)
    requires q < |trace| && Leaves(trace[q], rs)
  {
    forall key :: SpelledBy(rs[trace[q].index], trace[q].index + 1, key) && OnlyName(trace, rs, q, key) ==>
      key in maps.ids && maps.ids[key] == trace[q].outcome.target
  }

  ghost predicate KnowsEtag(trace: seq<Event>, rs: seq<Request>, maps: Maps, q: nat)
    requires q < |trace| && Leaves(trace[q], rs)
  {
    forall path :: LeavesEtag(trace[q], rs, path) && OnlyPath(trace, rs, q, path) ==>
      path in maps.etags && maps.etags[path] == trace[q].outcome.etag
  }

  ghost predicate KnowsOf(trace: seq<Event>, rs: seq<Request>, g: string, maps: Maps, q: nat)
    requires q < |trace|
  {
    Leaves(trace[q], rs) && Visible(trace, rs[trace[q].index].group, g) ==>
      KnowsName(trace, rs, maps, q) && KnowsEtag(trace, rs, maps, q)
  }

  /** Nothing is in the maps but what some event put there. */
  ghost predicate FromEvents(trace: seq<Event>, rs: seq<Request>, maps: Maps) {
    && (forall key <- maps.ids :: exists o :: 0 <= o < |trace| && GoesBy(trace[o], rs, key))
    && (forall path <- maps.etags :: exists o :: 0 <= o < |trace| && LeavesEtag(trace[o], rs, path))
  }

  ghost predicate Knows(trace: seq<Event>, rs: seq<Request>, g: string, maps: Maps) {
    FromEvents(trace, rs, maps) && forall q :: 0 <= q < |trace| ==> KnowsOf(trace, rs, g, maps, q)
  }

  /** The prepared request refers to what was left: by reference `m`, to what event `q` left. */
  ghost predicate Reaches(before: seq<Event>, rs: seq<Request>, e: Event, q: nat, m: nat)
    requires e.Handled? && e.index < |rs| && q < |before| && m < |rs[e.index].references|
  {
    var key := rs[e.index].references[m];
    && Leaves(before[q], rs) && Visible(before, rs[before[q].index].group, rs[e.index].group)
    && Spells(rs[before[q].index], before[q].index + 1, key) && OnlyName(before, rs, q, key)
    ==> m < |e.prepared.targets| && e.prepared.targets[m] == before[q].outcome.target
  }

  /** The same for a reference that nothing goes by as it is written, but in another case. */
  ghost predicate ReachesInAnyCase(before: seq<Event>, rs: seq<Request>, e: Event, q: nat, m: nat)
    requires e.Handled? && e.index < |rs| && q < |before| && m < |rs[e.index].references|
  {
    var key := rs[e.index].references[m];
    && Leaves(before[q], rs) && Visible(before, rs[before[q].index].group, rs[e.index].group)
    && (exists name :: Spells(rs[before[q].index], before[q].index + 1, name) && Lower(key) == Lower(name))
    && (forall o :: 0 <= o < |before| ==> !GoesBy(before[o], rs, key)) && OnlyName(before, rs, q, Lower(key))
    ==> m < |e.prepared.targets| && e.prepared.targets[m] == before[q].outcome.target
  }

  /** It is conditional on the ETag that event `q` left for the path it addresses. */
  ghost predicate Conditional(w: World, before: seq<Event>, rs: seq<Request>, e: Event, q: nat)
    requires e.Handled? && e.index < |rs| && q < |before|
  {
    var path := w.path(e.index, e.prepared.targets);
    && rs[e.index].takesEtag && LeavesEtag(before[q], rs, path) && OnlyPath(before, rs, q, path)
    && Visible(before, rs[before[q].index].group, rs[e.index].group)
    ==> e.prepared.ifMatch == before[q].outcome.etag
  }

  /** A condition is only added to a request that takes one, and is an ETag left for its path. */
  ghost predicate ConditionDue(w: World, before: seq<Event>, rs: seq<Request>, e: Event)
    requires e.Handled? && e.index < |rs|
  {
    e.prepared.ifMatch != "" ==>
      rs[e.index].takesEtag && exists q :: 0 <= q < |before| && LeavesEtag(before[q], rs, w.path(e.index, e.prepared.targets))
  }

  ghost predicate FoundBy(w: World, before: seq<Event>, rs: seq<Request>, e: Event) {
    e.Handled? && e.index < |rs| ==>
      && |e.prepared.targets| == |rs[e.index].references| && ConditionDue(w, before, rs, e)
      && forall q :: 0 <= q < |before| ==>
        && Conditional(w, before, rs, e, q)
        && forall m :: 0 <= m < |rs[e.index].references| ==> Reaches(before, rs, e, q, m) && ReachesInAnyCase(before, rs, e, q, m)
  }

  ghost predicate AllFound(w: World, trace: seq<Event>, rs: seq<Request>) {
    forall p :: 0 <= p < |trace| ==> FoundBy(w, trace[..p], rs, trace[p])
  }

  // ------------------------------------------------------------------ looking up

  lemma LookedUp(ids: map<string, string>, key: string)
    requires key in ids && key != "" && ids[key] != ""
    ensures ResolveToken(ids, key) == ids[key]
  {
    hide Lower, IsQuoted, Unquoted;
  }

  lemma SpellsSomething(r: Request, place: nat, name: string)
    requires Spells(r, place, name) && r.id != ""
    ensures name != ""
  {
  }

  lemma PreparedFinds(w: World, rs: seq<Request>, i: nat, trace: seq<Event>, maps: Maps, o: Outcome)
    requires i < |rs| && Knows(trace, rs, rs[i].group, maps)
    ensures FoundBy(w, trace, rs, Handled(i, Prepare(w, maps, rs[i], i), o))
  {
    hide ResolveToken, Spells, OnlyName, OnlyPath, Visible, FromEvents, IsPathOf;
    var p := Prepare(w, maps, rs[i], i);
    var e := Handled(i, p, o);
    ConditionIsDue(w, rs, i, trace, maps, o);
    forall q | 0 <= q < |trace|
      ensures Conditional(w, trace, rs, e, q)
      ensures forall m :: 0 <= m < |rs[i].references| ==> Reaches(trace, rs, e, q, m) && ReachesInAnyCase(trace, rs, e, q, m)
    {
      assert KnowsOf(trace, rs, rs[i].group, maps, q);
      forall m | 0 <= m < |rs[i].references| ensures Reaches(trace, rs, e, q, m) && ReachesInAnyCase(trace, rs, e, q, m) {
        var key := rs[i].references[m];
        AnyCaseFound(w, rs, i, trace, maps, o, q, m);
        if Leaves(trace[q], rs) && Visible(trace, rs[trace[q].index].group, rs[i].group)
           && Spells(rs[trace[q].index], trace[q].index + 1, key) && OnlyName(trace, rs, q, key) {
          SpellsSomething(rs[trace[q].index], trace[q].index + 1, key);
          assert SpelledBy(rs[trace[q].index], trace[q].index + 1, key);
          LookedUp(maps.ids, key);
        }
      }
      PathNotEmpty(w.path(i, p.targets), trace[q], rs);
    }
  }

  lemma AnyCaseFound(w: World, rs: seq<Request>, i: nat, trace: seq<Event>, maps: Maps, o: Outcome, q: nat, m: nat)
    requires i < |rs| && Knows(trace, rs, rs[i].group, maps) && q < |trace| && m < |rs[i].references|
    ensures ReachesInAnyCase(trace, rs, Handled(i, Prepare(w, maps, rs[i], i), o), q, m)
  {
    hide ResolveToken, Spells, OnlyName, OnlyPath, Visible, IsPathOf, GoesBy, KnowsEtag, Lower;
    var key := rs[i].references[m];
    assert KnowsOf(trace, rs, rs[i].group, maps, q);
    if Leaves(trace[q], rs) && Visible(trace, rs[trace[q].index].group, rs[i].group) && OnlyName(trace, rs, q, Lower(key))
       && (forall o :: 0 <= o < |trace| ==> !GoesBy(trace[o], rs, key))
       && exists name :: Spells(rs[trace[q].index], trace[q].index + 1, name) && Lower(key) == Lower(name) {
      var name :| Spells(rs[trace[q].index], trace[q].index + 1, name) && Lower(key) == Lower(name);
      assert SpelledBy(rs[trace[q].index], trace[q].index + 1, Lower(key));
      SpellsSomething(rs[trace[q].index], trace[q].index + 1, name);
      SameLength(key, name);
      LookedUpLower(maps.ids, key);
    }
  }

  lemma SameLength(a: string, b: string)
    requires Lower(a) == Lower(b)
    ensures |a| == |b|
  {
    assert |Lower(a)| == |a| && |Lower(b)| == |b|;
  }

  lemma LookedUpLower(ids: map<string, string>, key: string)
    requires key !in ids && Lower(key) in ids && key != "" && ids[Lower(key)] != ""
    ensures ResolveToken(ids, key) == ids[Lower(key)]
  {
    hide Lower, IsQuoted, Unquoted;
  }

  lemma ConditionIsDue(w: World, rs: seq<Request>, i: nat, trace: seq<Event>, maps: Maps, o: Outcome)
    requires i < |rs| && FromEvents(trace, rs, maps)
    ensures ConditionDue(w, trace, rs, Handled(i, Prepare(w, maps, rs[i], i), o))
  {
    hide ResolveToken, LeavesEtag, GoesBy;
  }

  lemma PathNotEmpty(path: string, e: Event, rs: seq<Request>)
    ensures LeavesEtag(e, rs, path) ==> path != ""
  {
  }

  // ------------------------------------------------------------------ recording

  predicate NamedIn(names: seq<string>, key: string) {
    exists n :: n in names && (key == n || key == Lower(n))
  }

  lemma {:induction false} RegisteredKeys(ids: map<string, string>, names: seq<string>, value: string, key: string)
    ensures var after := RegisterAll(ids, names, value);
            && (NamedIn(names, key) ==> key in after && after[key] == value)
            && (!NamedIn(names, key) ==>
                  (key in after <==> key in ids) && (key in ids ==> after[key] == ids[key]))
    decreases |names|
  {
    hide Lower;
    if names != [] {
      var next := Register(ids, names[0], value);
      var rest := names[1..];
      RegisteredKeys(next, rest, value, key);
      assert forall n :: n in names <==> n == names[0] || n in rest;
      RegisteredValueKept(next, rest, value, key);
    }
  }

  lemma {:induction false} RegisteredValueKept(ids: map<string, string>, names: seq<string>, value: string, key: string)
    ensures key in ids && ids[key] == value ==> key in RegisterAll(ids, names, value) && RegisterAll(ids, names, value)[key] == value
    decreases |names|
  {
    hide Lower;
    if names != [] {
      RegisteredValueKept(Register(ids, names[0], value), names[1..], value, key);
    }
  }

  lemma PathIs(target: string, path: string)
    ensures IsPathOf(path, target) <==> path == BeforeQuery(target) && path != ""
  {
    hide Trim;
    var t := Trim(target);
    var q := IndexOfChar(t, '?');
    if IsPathOf(path, target) && t != path {
      assert forall j :: 0 <= j < |path| ==> t[j] == path[j] && path[j] in path;
      FirstCharIs(t, '?', |path|);
    }
  }

  lemma NamesSpell(r: Request, place: nat, name: string)
    ensures name in Names(r.id, place) <==> Spells(r, place, name)
  {
    hide Decimal;
  }

  lemma NamesGoBy(r: Request, place: nat, key: string)
    ensures NamedIn(Names(r.id, place), key) <==> SpelledBy(r, place, key)
  {
    hide Names, Spells, Lower;
    forall name | Spells(r, place, name) ensures name in Names(r.id, place) {
      NamesSpell(r, place, name);
    }
    forall n | n in Names(r.id, place) ensures Spells(r, place, n) {
      NamesSpell(r, place, n);
    }
  }

  lemma OnlyNameBefore(trace: seq<Event>, e: Event, rs: seq<Request>, q: nat, key: string)
    requires q < |trace| && OnlyName(trace + [e], rs, q, key)
    ensures OnlyName(trace, rs, q, key) && !GoesBy(e, rs, key)
  {
    hide GoesBy;
    var after := trace + [e];
    assert after[|trace|] == e;
    assert forall o :: 0 <= o < |trace| ==> after[o] == trace[o];
  }

  lemma OnlyPathBefore(trace: seq<Event>, e: Event, rs: seq<Request>, q: nat, path: string)
    requires q < |trace| && OnlyPath(trace + [e], rs, q, path)
    ensures OnlyPath(trace, rs, q, path) && !LeavesEtag(e, rs, path)
  {
    hide LeavesEtag;
    var after := trace + [e];
    assert after[|trace|] == e;
    assert forall o :: 0 <= o < |trace| ==> after[o] == trace[o];
  }

  /** What recording `e` does to the maps. */
  ghost predicate RecordsOnly(e: Event, rs: seq<Request>, before: Maps, after: Maps) {
    && (forall key :: !GoesBy(e, rs, key) ==> (key in after.ids <==> key in before.ids) && (key in before.ids ==> after.ids[key] == before.ids[key]))
    && (forall path :: !LeavesEtag(e, rs, path) ==>
          (path in after.etags <==> path in before.etags) && (path in before.etags ==> after.etags[path] == before.etags[path]))
    && (forall path :: LeavesEtag(e, rs, path) ==> path in after.etags && after.etags[path] == e.outcome.etag)
  }

  lemma KeyRecorded(maps: Maps, rs: seq<Request>, i: nat, p: Prepared, o: Outcome, key: string)
    requires i < |rs| && o.Responds?
    ensures var e, after := Handled(i, p, o), Record(maps, rs[i], i, o.status, o.target, o.etag);
            && (!GoesBy(e, rs, key) ==> (key in after.ids <==> key in maps.ids) && (key in maps.ids ==> after.ids[key] == maps.ids[key]))
            && (Leaves(e, rs) && SpelledBy(rs[i], i + 1, key) ==> key in after.ids && after.ids[key] == o.target)
  {
    hide RegisterAll, Names, BeforeQuery, Spells, SpelledBy, NamedIn;
    RegisteredKeys(maps.ids, Names(rs[i].id, i + 1), o.target, key);
    NamesGoBy(rs[i], i + 1, key);
  }

  lemma RecordOnly(maps: Maps, rs: seq<Request>, i: nat, p: Prepared, o: Outcome)
    requires i < |rs| && o.Responds?
    ensures var e, after := Handled(i, p, o), Record(maps, rs[i], i, o.status, o.target, o.etag);
            && RecordsOnly(e, rs, maps, after)
            && (Leaves(e, rs) ==> forall key :: SpelledBy(rs[i], i + 1, key) ==> key in after.ids && after.ids[key] == o.target)
  {
    hide RegisterAll, Names, BeforeQuery, SpelledBy, IsPathOf, Lower, GoesBy;
    var e, after := Handled(i, p, o), Record(maps, rs[i], i, o.status, o.target, o.etag);
    forall key
      ensures !GoesBy(e, rs, key) ==> (key in after.ids <==> key in maps.ids) && (key in maps.ids ==> after.ids[key] == maps.ids[key])
      ensures Leaves(e, rs) && SpelledBy(rs[i], i + 1, key) ==> key in after.ids && after.ids[key] == o.target
    {
      KeyRecorded(maps, rs, i, p, o, key);
    }
    forall path
      ensures !LeavesEtag(e, rs, path) ==>
                (path in after.etags <==> path in maps.etags) && (path in maps.etags ==> after.etags[path] == maps.etags[path])
      ensures LeavesEtag(e, rs, path) ==> path in after.etags && after.etags[path] == o.etag
    {
      PathIs(o.target, path);
    }
  }

  lemma KnowsMore(trace: seq<Event>, rs: seq<Request>, g: string, before: Maps, after: Maps, e: Event)
    requires Knows(trace, rs, g, before) && RecordsOnly(e, rs, before, after) && !e.Committed?
    requires e.Handled? && Leaves(e, rs) ==>
               forall key :: SpelledBy(rs[e.index], e.index + 1, key) ==> key in after.ids && after.ids[key] == e.outcome.target
    ensures Knows(trace + [e], rs, g, after)
  {
    hide GoesBy, LeavesEtag, Leaves, SpelledBy, OnlyName, OnlyPath;
    var grown := trace + [e];
    assert forall o :: 0 <= o < |trace| ==> grown[o] == trace[o];
    assert FromEvents(grown, rs, after) by {
      hide KnowsOf;
      StillFrom(trace, rs, before, after, e);
    }
    forall q | 0 <= q < |grown| ensures KnowsOf(grown, rs, g, after, q) {
      if q < |trace| {
        assert KnowsOf(trace, rs, g, before, q);
        KnownStays(trace, rs, g, before, after, e, q);
      } else {
        assert grown[q] == e;
        LastKnown(trace, rs, before, after, e);
      }
    }
  }

  lemma StillFrom(trace: seq<Event>, rs: seq<Request>, before: Maps, after: Maps, e: Event)
    requires FromEvents(trace, rs, before) && RecordsOnly(e, rs, before, after)
    ensures FromEvents(trace + [e], rs, after)
  {
    hide GoesBy, LeavesEtag;
    var grown := trace + [e];
    assert grown[|trace|] == e && forall o :: 0 <= o < |trace| ==> grown[o] == trace[o];
    forall key <- after.ids ensures exists o :: 0 <= o < |grown| && GoesBy(grown[o], rs, key) {
      if !GoesBy(e, rs, key) {
        var o :| 0 <= o < |trace| && GoesBy(trace[o], rs, key);
        assert GoesBy(grown[o], rs, key);
      }
    }
    forall path <- after.etags ensures exists o :: 0 <= o < |grown| && LeavesEtag(grown[o], rs, path) {
      if !LeavesEtag(e, rs, path) {
        var o :| 0 <= o < |trace| && LeavesEtag(trace[o], rs, path);
        assert LeavesEtag(grown[o], rs, path);
      }
    }
  }

  lemma KnownStays(trace: seq<Event>, rs: seq<Request>, g: string, before: Maps, after: Maps, e: Event, q: nat)
    requires q < |trace| && KnowsOf(trace, rs, g, before, q) && RecordsOnly(e, rs, before, after) && !e.Committed?
    ensures KnowsOf(trace + [e], rs, g, after, q)
  {
    hide GoesBy, LeavesEtag, SpelledBy, OnlyName, OnlyPath;
    var grown := trace + [e];
    assert grown[q] == trace[q];
    if Leaves(trace[q], rs) && Visible(grown, rs[trace[q].index].group, g) {
      forall key | SpelledBy(rs[trace[q].index], trace[q].index + 1, key) && OnlyName(grown, rs, q, key)
        ensures key in after.ids && after.ids[key] == trace[q].outcome.target
      {
        OnlyNameBefore(trace, e, rs, q, key);
      }
      forall path | LeavesEtag(trace[q], rs, path) && OnlyPath(grown, rs, q, path)
        ensures path in after.etags && after.etags[path] == trace[q].outcome.etag
      {
        OnlyPathBefore(trace, e, rs, q, path);
      }
    }
  }

  lemma LastKnown(trace: seq<Event>, rs: seq<Request>, before: Maps, after: Maps, e: Event)
    requires RecordsOnly(e, rs, before, after)
    requires e.Handled? && Leaves(e, rs) ==>
               forall key :: SpelledBy(rs[e.index], e.index + 1, key) ==> key in after.ids && after.ids[key] == e.outcome.target
    ensures Leaves(e, rs) ==> KnowsName(trace + [e], rs, after, |trace|) && KnowsEtag(trace + [e], rs, after, |trace|)
  {
    hide GoesBy, LeavesEtag, SpelledBy, OnlyName, OnlyPath;
    assert (trace + [e])[|trace|] == e;
  }

  lemma RecordsNothing(e: Event, rs: seq<Request>, maps: Maps)
    requires !Leaves(e, rs)
    ensures forall path :: !LeavesEtag(e, rs, path)
    ensures RecordsOnly(e, rs, maps, maps)
  {
  }

  // ------------------------------------------------------------------ runs

  lemma FoundMore(w: World, trace: seq<Event>, e: Event, rs: seq<Request>)
    requires AllFound(w, trace, rs) && FoundBy(w, trace, rs, e)
    ensures AllFound(w, trace + [e], rs)
  {
    hide FoundBy;
    var after := trace + [e];
    forall p | 0 <= p < |after| ensures FoundBy(w, after[..p], rs, after[p]) {
      if p < |trace| {
        assert after[..p] == trace[..p] && after[p] == trace[p];
      } else {
        assert after[..p] == trace;
      }
    }
  }

  lemma QuietFound(w: World, trace: seq<Event>, e: Event, rs: seq<Request>)
    requires AllFound(w, trace, rs) && !e.Handled?
    ensures AllFound(w, trace + [e], rs)
  {
    FoundMore(w, trace, e, rs);
  }

  /** An error ends the run of the maps; the trace stays right. */
  lemma RequestFound(w: World, rs: seq<Request>, i: nat, g: string, st: State)
    requires i < |rs| && rs[i].group == g && Knows(st.trace, rs, g, st.maps) && AllFound(w, st.trace, rs)
    ensures var (next, r) := RunRequest(w, rs, i, st);
            AllFound(w, next.trace, rs) && (r.Ok? ==> Knows(next.trace, rs, g, next.maps))
  {
    hide Knows, AllFound, FoundBy, Record, DependencyFails, ReferencesKnown, Prepare, RecordsOnly, SpelledBy, Leaves;
    var p := Prepare(w, st.maps, rs[i], i);
    var o := w.handle(i, p);
    var e := Handled(i, p, o);
    PreparedFinds(w, rs, i, st.trace, st.maps, o);
    FoundMore(w, st.trace, e, rs);
    if o.Responds? {
      RecordOnly(st.maps, rs, i, p, o);
      KnowsMore(st.trace, rs, g, st.maps, Record(st.maps, rs[i], i, o.status, o.target, o.etag), e);
    }
  }

  lemma {:induction false} GroupFound(w: World, rs: seq<Request>, order: seq<nat>, abort: bool, g: string, st: State)
    requires Positions(rs, order) && (forall k :: 0 <= k < |order| ==> rs[order[k]].group == g)
    requires Knows(st.trace, rs, g, st.maps) && AllFound(w, st.trace, rs)
    ensures var (next, r) := RunGroup(w, rs, order, abort, st);
            AllFound(w, next.trace, rs) && (r.Ok? ==> Knows(next.trace, rs, g, next.maps))
    decreases |order|
  {
    hide Knows, AllFound, RunRequest;
    if order != [] {
      RequestFound(w, rs, order[0], g, st);
      var (next, r) := RunRequest(w, rs, order[0], st);
      if r.Ok? {
        GroupFound(w, rs, order[1..], abort, g, next);
      }
    }
  }

  /** Only changesets that were met have events. */
  predicate Seen(rs: seq<Request>, e: Event, met: set<string>) {
    && (e.Handled? && e.index < |rs| ==> rs[e.index].group == "" || rs[e.index].group in met)
    && (e.Committed? ==> e.group in met)
  }

  predicate SeenAll(rs: seq<Request>, trace: seq<Event>, met: set<string>) {
    forall q :: 0 <= q < |trace| ==> Seen(rs, trace[q], met)
  }

  /** The part of the trace that a changeset's members add. */
  lemma {:induction false} GroupTrace(w: World, rs: seq<Request>, order: seq<nat>, abort: bool, g: string, st: State)
    requires Positions(rs, order) && forall k :: 0 <= k < |order| ==> rs[order[k]].group == g
    ensures var next := RunGroup(w, rs, order, abort, st).0; OnlyMembers(rs, g, st.trace, next.trace)
    decreases |order|
  {
    hide ReferencesKnown, DependencyFails, Prepare, Record;
    if order != [] {
      var first := RunRequest(w, rs, order[0], st);
      assert OnlyMembers(rs, g, st.trace, first.0.trace);
      hide RunRequest;
      GroupTrace(w, rs, order[1..], abort, g, first.0);
    }
  }

  predicate MemberEvent(rs: seq<Request>, g: string, e: Event) {
    e.Handled? && e.index < |rs| && rs[e.index].group == g
  }

  predicate OnlyMembers(rs: seq<Request>, g: string, before: seq<Event>, after: seq<Event>) {
    && |before| <= |after| && after[..|before|] == before
    && forall p :: |before| <= p < |after| ==> MemberEvent(rs, g, after[p])
  }

  lemma QuietKnows(trace: seq<Event>, rs: seq<Request>, g: string, maps: Maps, e: Event)
    requires Knows(trace, rs, g, maps) && !e.Handled? && !e.Committed?
    ensures Knows(trace + [e], rs, g, maps)
  {
    hide Knows, RecordsOnly, SpelledBy;
    RecordsNothing(e, rs, maps);
    KnowsMore(trace, rs, g, maps, maps, e);
  }

  /** A changeset that was not met starts with what everyone may use. */
  lemma EnterGroup(trace: seq<Event>, rs: seq<Request>, g: string, maps: Maps, met: set<string>)
    requires Knows(trace, rs, "", maps) && SeenAll(rs, trace, met) && g !in met && g != ""
    ensures Knows(trace, rs, g, maps)
  {
    hide KnowsName, KnowsEtag, FromEvents;
    forall q | 0 <= q < |trace| ensures KnowsOf(trace, rs, g, maps, q) {
      assert KnowsOf(trace, rs, "", maps, q) && Seen(rs, trace[q], met);
    }
  }

  lemma OnlyShrinks(before: seq<Event>, after: seq<Event>, rs: seq<Request>, q: nat)
    requires |before| <= |after| && after[..|before|] == before && q < |before|
    ensures forall key :: OnlyName(after, rs, q, key) ==> OnlyName(before, rs, q, key)
    ensures forall path :: OnlyPath(after, rs, q, path) ==> OnlyPath(before, rs, q, path)
  {
    hide GoesBy, LeavesEtag;
    assert forall o :: 0 <= o < |before| ==> after[o] == after[..|before|][o] == before[o];
  }

  lemma FromLonger(before: seq<Event>, after: seq<Event>, rs: seq<Request>, maps: Maps)
    requires |before| <= |after| && after[..|before|] == before && FromEvents(before, rs, maps)
    ensures FromEvents(after, rs, maps)
  {
    hide GoesBy, LeavesEtag;
    assert forall o :: 0 <= o < |before| ==> after[o] == after[..|before|][o] == before[o];
  }

  lemma KnowsLonger(before: seq<Event>, after: seq<Event>, rs: seq<Request>, maps: Maps, q: nat)
    requires |before| <= |after| && after[..|before|] == before && q < |before| && Leaves(before[q], rs)
    ensures after[q] == before[q]
    ensures KnowsName(before, rs, maps, q) ==> KnowsName(after, rs, maps, q)
    ensures KnowsEtag(before, rs, maps, q) ==> KnowsEtag(after, rs, maps, q)
  {
    hide LeavesEtag, OnlyName, OnlyPath, SpelledBy;
    assert after[q] == after[..|before|][q];
    OnlyShrinks(before, after, rs, q);
  }

  /** The shared maps do not miss what a changeset's members did. */
  lemma SharedKnows(before: seq<Event>, after: seq<Event>, rs: seq<Request>, g: string, maps: Maps)
    requires Knows(before, rs, "", maps) && OnlyMembers(rs, g, before, after) && g != "" && Committed(g) !in before
    ensures Knows(after, rs, "", maps)
  {
    hide KnowsName, KnowsEtag, FromEvents;
    FromLonger(before, after, rs, maps);
    forall q | 0 <= q < |after| ensures KnowsOf(after, rs, "", maps, q) {
      assert forall o :: 0 <= o < |before| ==> after[o] == after[..|before|][o] == before[o];
      if q < |before| {
        assert KnowsOf(before, rs, "", maps, q);
        if Leaves(before[q], rs) {
          SameCommits(rs, g, before, after, rs[before[q].index].group);
          KnowsLonger(before, after, rs, maps, q);
        }
      } else {
        assert MemberEvent(rs, g, after[q]);
        SameCommits(rs, g, before, after, g);
      }
    }
  }

  lemma SameCommits(rs: seq<Request>, g: string, before: seq<Event>, after: seq<Event>, h: string)
    requires OnlyMembers(rs, g, before, after)
    ensures Committed(h) in after <==> Committed(h) in before
  {
    assert forall o :: 0 <= o < |before| ==> after[o] == after[..|before|][o] == before[o];
    forall o | 0 <= o < |after| && after[o] == Committed(h) ensures o < |before| {
      assert o >= |before| ==> MemberEvent(rs, g, after[o]);
    }
  }

  /** After a commit everyone may use what the changeset left, and still what there was. */
  lemma PublishKnows(before: seq<Event>, after: seq<Event>, rs: seq<Request>, g: string, shared: Maps, own: Maps, met: set<string>)
    requires SeenAll(rs, before, met) && g !in met && g != "" && FromEvents(before, rs, shared)
    requires OnlyMembers(rs, g, before, after) && Knows(after, rs, "", shared) && Knows(after, rs, g, own)
    ensures Knows(after + [Committed(g)], rs, "", Maps(Publish(shared.ids, own.ids), Publish(shared.etags, own.etags)))
  {
    hide KnowsName, KnowsEtag, GoesBy, LeavesEtag;
    var maps := Maps(Publish(shared.ids, own.ids), Publish(shared.etags, own.etags));
    var ended := after + [Committed(g)];
    assert FromEvents(after, rs, maps);
    FromLonger(after, ended, rs, maps);
    forall q | 0 <= q < |ended| ensures KnowsOf(ended, rs, "", maps, q) {
      if q < |after| && Leaves(after[q], rs) && Visible(ended, rs[after[q].index].group, "") {
        assert ended[q] == after[q];
        assert KnowsOf(after, rs, "", shared, q) && KnowsOf(after, rs, g, own, q);
        if rs[after[q].index].group == g {
          LateMember(before, after, rs, g, met, q);
          OwnPublished(before, after, rs, shared, own, q);
        } else {
          assert Visible(after, rs[after[q].index].group, "");
          SharedPublished(after, rs, shared, own, q);
        }
        KnowsLonger(after, ended, rs, maps, q);
      }
    }
  }

  lemma LateMember(before: seq<Event>, after: seq<Event>, rs: seq<Request>, g: string, met: set<string>, q: nat)
    requires SeenAll(rs, before, met) && g !in met && g != "" && |before| <= |after| && after[..|before|] == before
    requires q < |after| && MemberEvent(rs, g, after[q])
    ensures q >= |before|
  {
    forall o | 0 <= o < |before| ensures !MemberEvent(rs, g, after[o]) {
      assert after[o] == after[..|before|][o] == before[o];
      assert Seen(rs, before[o], met);
    }
  }

  lemma OwnPublished(before: seq<Event>, after: seq<Event>, rs: seq<Request>, shared: Maps, own: Maps, q: nat)
    requires |before| <= q < |after| && after[..|before|] == before && FromEvents(before, rs, shared)
    requires Leaves(after[q], rs) && KnowsName(after, rs, own, q) && KnowsEtag(after, rs, own, q)
    ensures var maps := Maps(Publish(shared.ids, own.ids), Publish(shared.etags, own.etags));
            KnowsName(after, rs, maps, q) && KnowsEtag(after, rs, maps, q)
  {
    hide GoesBy, LeavesEtag, SpelledBy;
    var maps := Maps(Publish(shared.ids, own.ids), Publish(shared.etags, own.etags));
    assert forall o :: 0 <= o < |before| ==> after[o] == after[..|before|][o] == before[o];
    forall key | SpelledBy(rs[after[q].index], after[q].index + 1, key) && OnlyName(after, rs, q, key)
      ensures key in maps.ids && maps.ids[key] == after[q].outcome.target
    {
      forall o | 0 <= o < |before| ensures !GoesBy(before[o], rs, key) {
        assert after[o] == before[o];
      }
    }
    forall path | LeavesEtag(after[q], rs, path) && OnlyPath(after, rs, q, path)
      ensures path in maps.etags && maps.etags[path] == after[q].outcome.etag
    {
      forall o | 0 <= o < |before| ensures !LeavesEtag(before[o], rs, path) {
        assert after[o] == before[o];
      }
    }
  }

  lemma SharedPublished(after: seq<Event>, rs: seq<Request>, shared: Maps, own: Maps, q: nat)
    requires q < |after| && Leaves(after[q], rs) && KnowsName(after, rs, shared, q) && KnowsEtag(after, rs, shared, q)
    ensures var maps := Maps(Publish(shared.ids, own.ids), Publish(shared.etags, own.etags));
            KnowsName(after, rs, maps, q) && KnowsEtag(after, rs, maps, q)
  {
    hide GoesBy, LeavesEtag, SpelledBy, OnlyName, OnlyPath;
  }

  // ------------------------------------------------------------------ changesets and batches

  /** What holds between requests. */
  ghost predicate Between(w: World, rs: seq<Request>, st: State, met: set<string>) {
    Knows(st.trace, rs, "", st.maps) && AllFound(w, st.trace, rs) && SeenAll(rs, st.trace, met)
  }

  lemma SeenMore(rs: seq<Request>, trace: seq<Event>, met: set<string>, more: set<string>, e: Event)
    requires SeenAll(rs, trace, met) && met <= more && Seen(rs, e, more)
    ensures SeenAll(rs, trace, more) && SeenAll(rs, trace + [e], more)
  {
    forall q | 0 <= q < |trace| ensures Seen(rs, trace[q], more) {
      assert Seen(rs, trace[q], met);
    }
  }

  lemma SeenMembers(rs: seq<Request>, before: seq<Event>, after: seq<Event>, met: set<string>, g: string)
    requires SeenAll(rs, before, met) && OnlyMembers(rs, g, before, after)
    ensures SeenAll(rs, after, met + {g})
  {
    assert forall o :: 0 <= o < |before| ==> after[o] == after[..|before|][o] == before[o];
    forall q | 0 <= q < |after| ensures Seen(rs, after[q], met + {g}) {
      if q < |before| {
        assert Seen(rs, before[q], met);
      } else {
        assert MemberEvent(rs, g, after[q]);
      }
    }
  }

  /** An event that ends a changeset or tells its failure. */
  lemma QuietBetween(w: World, rs: seq<Request>, st: State, met: set<string>, e: Event)
    requires Between(w, rs, st, met) && !e.Handled? && !e.Committed?
    ensures Between(w, rs, WithEvent(st, e), met)
  {
    hide Knows, AllFound, SeenAll;
    QuietKnows(st.trace, rs, "", st.maps, e);
    QuietFound(w, st.trace, e, rs);
    SeenMore(rs, st.trace, met, met, e);
  }

  lemma NotCommitted(rs: seq<Request>, trace: seq<Event>, met: set<string>, g: string)
    requires SeenAll(rs, trace, met) && g !in met
    ensures Committed(g) !in trace
  {
    forall q | 0 <= q < |trace| ensures trace[q] != Committed(g) {
      assert Seen(rs, trace[q], met);
    }
  }

  /** A transaction, up to its last member. */
  lemma MembersFound(w: World, rs: seq<Request>, order: seq<nat>, g: string, st: State, met: set<string>)
    requires Positions(rs, order) && (forall k :: 0 <= k < |order| ==> rs[order[k]].group == g)
    requires Between(w, rs, st, met) && g !in met && g != ""
    ensures var ran := RunGroup(w, rs, order, true, WithEvent(st, Began(g)));
            && Between(w, rs, ran.0.(maps := st.maps), met + {g})
            && (ran.1.Ok? ==>
                  var maps := Maps(Publish(st.maps.ids, ran.0.maps.ids), Publish(st.maps.etags, ran.0.maps.etags));
                  Between(w, rs, WithEvent(ran.0.(maps := maps), Committed(g)), met + {g}))
  {
    hide Knows, AllFound, SeenAll, RunGroup, OnlyMembers, FromEvents, Publish;
    var begun := WithEvent(st, Began(g));
    QuietBetween(w, rs, st, met, Began(g));
    EnterGroup(begun.trace, rs, g, st.maps, met);
    GroupFound(w, rs, order, true, g, begun);
    GroupTrace(w, rs, order, true, g, begun);
    NotCommitted(rs, begun.trace, met, g);
    var ran := RunGroup(w, rs, order, true, begun);
    SharedKnows(begun.trace, ran.0.trace, rs, g, st.maps);
    SeenMembers(rs, begun.trace, ran.0.trace, met, g);
    if ran.1.Ok? {
      assert FromEvents(begun.trace, rs, st.maps) by { KnowsFrom(begun.trace, rs, "", st.maps); }
      PublishKnows(begun.trace, ran.0.trace, rs, g, st.maps, ran.0.maps, met);
      QuietFound(w, ran.0.trace, Committed(g), rs);
      SeenMore(rs, ran.0.trace, met + {g}, met + {g}, Committed(g));
    }
  }

  lemma KnowsFrom(trace: seq<Event>, rs: seq<Request>, g: string, maps: Maps)
    requires Knows(trace, rs, g, maps)
    ensures FromEvents(trace, rs, maps)
  {
  }

  lemma TransactionFound(w: World, rs: seq<Request>, order: seq<nat>, g: string, st: State, met: set<string>)
    requires Positions(rs, order) && (forall k :: 0 <= k < |order| ==> rs[order[k]].group == g)
    requires Between(w, rs, st, met) && g !in met && g != ""
    ensures Between(w, rs, RunInTransaction(w, rs, order, g, st).0, met + {g})
  {
    hide Between, RunGroup, AnswerAll, HasFailure, Publish;
    MembersFound(w, rs, order, g, st, met);
    var ran := RunGroup(w, rs, order, true, WithEvent(st, Began(g)));
    var kept := ran.0.(maps := st.maps);
    QuietBetween(w, rs, kept, met + {g}, RolledBack(g));
    QuietBetween(w, rs, kept, met + {g}, CommitFailed(g));
    QuietBetween(w, rs, WithEvent(kept, CommitFailed(g)), met + {g}, RolledBack(g));
    if ran.1.Ok? {
      var n := |ran.1.value|;
      var undone := WithEvent(kept, RolledBack(g));
      var rest := if n <= |order| then order[n..] else [];
      AnswerAllAnswers(w, rs, rest, 424, undone);
      SameBetween(w, rs, undone, AnswerAll(w, rs, rest, 424, undone).0, met + {g});
      var maps := Maps(Publish(st.maps.ids, ran.0.maps.ids), Publish(st.maps.etags, ran.0.maps.etags));
      assert WithEvent(ran.0.(maps := maps), Committed(g)) == WithEvent(kept.(maps := maps), Committed(g));
    }
  }

  lemma SameBetween(w: World, rs: seq<Request>, a: State, b: State, met: set<string>)
    requires Between(w, rs, a, met) && a.maps == b.maps && a.trace == b.trace
    ensures Between(w, rs, b, met)
  {
  }

  lemma MetMore(w: World, rs: seq<Request>, st: State, met: set<string>, g: string)
    requires Between(w, rs, st, met)
    ensures Between(w, rs, st, met + {g})
  {
    hide Knows, AllFound;
    SeenMore(rs, st.trace, met, met + {g}, Began(g));
  }

  lemma ChangesetFound(w: World, rs: seq<Request>, g: string, st: State, met: set<string>)
    requires Between(w, rs, st, met) && g !in met && g != ""
    ensures Between(w, rs, ChangesetEntries(w, rs, g, st).0, met + {g})
  {
    hide Between, RunInTransaction, AnswerAll, OnlyWrites;
    var order := GroupFrom(rs, g, 0);
    GroupMembers(rs, g, 0);
    TransactionFound(w, rs, order, g, st, met);
    MetMore(w, rs, st, met, g);
    AnswerAllAnswers(w, rs, order, 501, st);
    SameBetween(w, rs, st, AnswerAll(w, rs, order, 501, st).0, met + {g});
    var (next, r) := RunChangeset(w, rs, order, g, st);
    assert Between(w, rs, next, met + {g});
    if r.Err? {
      QuietBetween(w, rs, next, met + {g}, ReportedFailure(g, r.error));
    }
  }

  lemma PlainFound(w: World, rs: seq<Request>, i: nat, st: State, met: set<string>)
    requires i < |rs| && rs[i].group == "" && Between(w, rs, st, met)
    ensures var (next, r) := RunGroup(w, rs, [i], false, st);
            AllFound(w, next.trace, rs) && (r.Ok? ==> Between(w, rs, next, met))
  {
    hide Knows, AllFound, RunGroup, OnlyMembers;
    GroupFound(w, rs, [i], false, "", st);
    GroupTrace(w, rs, [i], false, "", st);
    SeenPlain(rs, st.trace, RunGroup(w, rs, [i], false, st).0.trace, met);
  }

  lemma SeenPlain(rs: seq<Request>, before: seq<Event>, after: seq<Event>, met: set<string>)
    requires SeenAll(rs, before, met) && OnlyMembers(rs, "", before, after)
    ensures SeenAll(rs, after, met)
  {
    assert forall o :: 0 <= o < |before| ==> after[o] == after[..|before|][o] == before[o];
    forall q | 0 <= q < |after| ensures Seen(rs, after[q], met) {
      if q >= |before| {
        assert MemberEvent(rs, "", after[q]);
      }
    }
  }

  lemma {:induction false} RunFound(w: World, rs: seq<Request>, i: nat, st: State, pending: Pending, responses: seq<Entry>)
    requires i <= |rs| && Between(w, rs, st, pending.Keys)
    ensures AllFound(w, RunFrom(w, rs, i, st, pending, responses).0.trace, rs)
    decreases |rs| - i
  {
    hide Knows, AllFound, SeenAll, RunGroup, ChangesetEntries;
    if i < |rs| {
      var (next, left, r) := Next(w, rs, i, st, pending);
      var g := rs[i].group;
      if g == "" {
        PlainFound(w, rs, i, st, pending.Keys);
      } else if g !in pending {
        ChangesetFound(w, rs, g, st, pending.Keys);
      }
      if r.Ok? {
        assert g != "" ==> left.Keys == pending.Keys + {g};
        assert g in pending ==> left.Keys == pending.Keys;
        assert Between(w, rs, next, left.Keys) by {
          hide Between;
        }
        RunFound(w, rs, i + 1, next, left, responses + r.value);
      }
    }
  }

  /** In every run, a request's references and preconditions reach what earlier requests left that
      it may use: by a name only one request goes by, exactly that request's entity; for a path only
      one of them left an ETag for, exactly that ETag. */
  lemma NothingIsLost(w: World, rs: seq<Request>)
    ensures AllFound(w, RunBatch(w, rs).0.trace, rs)
  {
    hide RunFrom;
    RunFound(w, rs, 0, START, map[], []);
  }

  /** A changeset, committed or not, changes nothing that was known before it. */
  lemma ChangesetKeepsNames(w: World, rs: seq<Request>, g: string, st: State)
    ensures var next := ChangesetEntries(w, rs, g, st).0;
            && (forall key <- st.maps.ids :: key in next.maps.ids && next.maps.ids[key] == st.maps.ids[key])
            && (forall path <- st.maps.etags :: path in next.maps.etags && next.maps.etags[path] == st.maps.etags[path])
  {
    hide RunGroup, HasFailure, OnlyWrites, AnswerAll;
    var order := GroupFrom(rs, g, 0);
    var ran := RunGroup(w, rs, order, true, WithEvent(st, Began(g)));
    AnswerAllAnswers(w, rs, order, 501, st);
    if ran.1.Ok? {
      var n := |ran.1.value|;
      AnswerAllAnswers(w, rs, if n <= |order| then order[n..] else [], 424, WithEvent(ran.0.(maps := st.maps), RolledBack(g)));
    }
  }
}
