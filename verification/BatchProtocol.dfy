/** Execution of a `$batch`: plain requests, changesets with one transaction each, dependsOn, and
    Content-IDs that are private to a changeset until it commits.

    What sub-request handlers, transactions and the response size tracker do is arbitrary: a
    `World` gives their outcomes. Asynchronous code runs as the sequence of steps it awaits.
    Every effect outside the batch is recorded in a trace. */
module BatchProtocol {
  import opened ByteStrings

  /** An absent id, group or URL is the empty string. Ids, groups and dependencies are the
      sanitised tokens; `references` are the Content-ID tokens found in URL, headers and body. */
  datatype Request = Request(
    id: string,
    group: string,
    dependsOn: seq<string>,
    isWrite: bool,
    references: seq<string>,
    takesEtag: bool)

  datatype Entry = Entry(id: string, status: int, group: string)

  /** A thrown error: the status it carries, if any, and whether it is an HTTP error. */
  datatype Error = Error(status: Option<int>, http: bool)

  const BAD_REQUEST := Error(Some(400), true)
  const PAYLOAD_TOO_LARGE := Error(Some(413), true)
  const ROLLBACK_FAILED := Error(None, false)

  /** A request after its references were replaced; `ifMatch` is the ETag added to it. */
  datatype Prepared = Prepared(targets: seq<string>, ifMatch: string)

  /** A response with the path and ETag of its entity, if it names them; with `keyMissing` the path
      cannot be made because the entity lacks a key value. */
  datatype Outcome = Responds(status: int, target: string, etag: string, keyMissing: bool) | Throws(error: Error)

  datatype Beginning = Begun | Rejected | NotBegun(error: Error)

  /** Requests are identified by their position, changesets by their group. `path` is the URL an
      ETag is looked up by; `fits` says whether the response still fits the size limit,
      `fitsAtEnd` whether the batch does once it is closed. */
  datatype World = World(
    handle: (nat, Prepared) -> Outcome,
    begin: string -> Beginning,
    commit: string -> Option<Error>,
    rollbackSucceeds: string -> bool,
    path: (nat, seq<string>) -> string,
    fits: nat -> bool,
    fitsAtEnd: bool)

  datatype Event =
    | Handled(index: nat, prepared: Prepared, outcome: Outcome)
    | Began(group: string)
    | Committed(group: string)
    | CommitFailed(group: string)
    | RolledBack(group: string)
    | ReportedFailure(group: string, error: Error)

  datatype Maps = Maps(ids: map<string, string>, etags: map<string, string>)

  datatype State = State(results: map<string, Entry>, maps: Maps, trace: seq<Event>)

  const START := State(map[], Maps(map[], map[]), [])

  // ------------------------------------------------------------------ Content-IDs and ETags

  function Register(ids: map<string, string>, key: string, value: string): map<string, string> {
    if Lower(key) == key then ids[key := value] else ids[key := value][Lower(key) := value]
  }

  /** All the names a request can be referred to by. */
  function Names(id: string, ordinal: nat): seq<string> {
    [id, "requests(" + Decimal(ordinal) + ")", "requests(" + id + ")", "requests('" + id + "')", "requests(\"" + id + "\")"]
  }

  function RegisterAll(ids: map<string, string>, names: seq<string>, value: string): map<string, string>
    decreases |names|
  {
    if names == [] then ids else RegisterAll(Register(ids, names[0], value), names[1..], value)
  }

  function Get(ids: map<string, string>, key: string): string {
    if key == "" then ""
    else if key in ids then ids[key]
    else if Lower(key) in ids then ids[Lower(key)]
    else ""
  }

  function Or(a: string, b: string): string {
    if a != "" then a else b
  }

  /** What a reference stands for, "" if nothing. */
  function ResolveToken(ids: map<string, string>, token: string): string {
    var prefix := "requests(";
    if !StartsWith(token, prefix) then Get(ids, token)
    else
      var inner := token[|prefix|..if |token| > |prefix| then |token| - 1 else |token|];
      var quoted := IsQuoted(inner);
      var whole := Get(ids, token);
      var bare := if quoted && token[|token| - 1] == ')' then Get(ids, prefix + Unquoted(inner) + ")") else "";
      Or(whole, Or(bare, Or(Get(ids, inner), if quoted then Get(ids, Unquoted(inner)) else "")))
  }

  function BeforeQuery(target: string): string {
    var t := Trim(target);
    var q := IndexOfChar(t, '?');
    if q >= 0 then t[..q] else t
  }

  /** What a successful sub-request leaves behind for later references. */
  function Record(maps: Maps, r: Request, index: nat, status: int, target: string, etag: string): Maps {
    if r.id == "" || status < 200 || status >= 400 || target == "" then maps
    else
      var path := BeforeQuery(target);
      Maps(RegisterAll(maps.ids, Names(r.id, index + 1), target),
           if etag != "" && path != "" then maps.etags[path := etag] else maps.etags)
  }

  /** Recording a successful request with an id needs its entity's key. */
  predicate CannotRecord(r: Request, o: Outcome)
    requires o.Responds?
  {
    r.id != "" && 200 <= o.status < 400 && o.keyMissing
  }

  predicate ReferencesKnown(maps: Maps, r: Request) {
    forall i :: 0 <= i < |r.references| ==> ResolveToken(maps.ids, r.references[i]) != ""
  }

  function Prepare(w: World, maps: Maps, r: Request, index: nat): Prepared {
    var targets := seq(|r.references|, i requires 0 <= i < |r.references| => ResolveToken(maps.ids, r.references[i]));
    var path := w.path(index, targets);
    Prepared(targets, if r.takesEtag && path != "" && path in maps.etags then maps.etags[path] else "")
  }

  // ------------------------------------------------------------------ one request

  /** A dependency has failed, or has not run. */
  predicate DependencyFails(results: map<string, Entry>, dependsOn: seq<string>) {
    exists i :: 0 <= i < |dependsOn| && (dependsOn[i] !in results || results[dependsOn[i]].status >= 400)
  }

  function Noted(results: map<string, Entry>, id: string, entry: Entry): map<string, Entry> {
    if id == "" then results else results[id := entry]
  }

  type Attempt<+T> = (State, Result<T, Error>)

  /** One request of a group. A reference to an unknown Content-ID refuses it before its
      dependencies are looked at. */
  function RunRequest(w: World, rs: seq<Request>, i: nat, st: State): Attempt<Entry>
    requires i < |rs|
  {
    var r := rs[i];
    if !ReferencesKnown(st.maps, r) then (st, Err(BAD_REQUEST))
    else if DependencyFails(st.results, r.dependsOn) then
      var entry := Entry(r.id, 424, "");
      if !w.fits(i) then (st, Err(PAYLOAD_TOO_LARGE))
      else (st.(results := Noted(st.results, r.id, entry)), Ok(entry))
    else
      var prepared := Prepare(w, st.maps, r, i);
      var outcome := w.handle(i, prepared);
      var ran := st.(trace := st.trace + [Handled(i, prepared, outcome)]);
      if outcome.Throws? then (ran, Err(outcome.error))
      else if !w.fits(i) then (ran, Err(PAYLOAD_TOO_LARGE))
      else
        var entry := Entry(r.id, outcome.status, "");
        var noted := ran.(results := Noted(st.results, r.id, entry));
        if CannotRecord(r, outcome) then (noted, Err(BAD_REQUEST))
        else (noted.(maps := Record(st.maps, r, i, outcome.status, outcome.target, outcome.etag)), Ok(entry))
  }

  predicate Positions(rs: seq<Request>, order: seq<nat>) {
    forall k :: 0 <= k < |order| ==> order[k] < |rs|
  }

  /** The requests of a group one after the other; with `abort`, up to the first failure. */
  function RunGroup(w: World, rs: seq<Request>, order: seq<nat>, abort: bool, st: State): Attempt<seq<Entry>>
    requires Positions(rs, order)
    decreases |order|
  {
    if order == [] then (st, Ok([]))
    else
      var first := RunRequest(w, rs, order[0], st);
      if first.1.Err? then (first.0, Err(first.1.error))
      else if abort && first.1.value.status >= 400 then (first.0, Ok([first.1.value]))
      else
        var rest := RunGroup(w, rs, order[1..], abort, first.0);
        (rest.0, if rest.1.Err? then rest.1 else Ok([first.1.value] + rest.1.value))
  }

  /** The same answer for every request, none of which is run. */
  function AnswerAll(w: World, rs: seq<Request>, order: seq<nat>, status: int, st: State): Attempt<seq<Entry>>
    requires Positions(rs, order)
    decreases |order|
  {
    if order == [] then (st, Ok([]))
    else if !w.fits(order[0]) then (st, Err(PAYLOAD_TOO_LARGE))
    else
      var entry := Entry(rs[order[0]].id, status, "");
      var rest := AnswerAll(w, rs, order[1..], status, st.(results := Noted(st.results, entry.id, entry)));
      (rest.0, if rest.1.Err? then rest.1 else Ok([entry] + rest.1.value))
  }

  // ------------------------------------------------------------------ changesets

  /** New keys are published, known ones keep what they stood for. */
  function Publish(shared: map<string, string>, own: map<string, string>): map<string, string> {
    own + shared
  }

  predicate HasFailure(entries: seq<Entry>) {
    exists k :: 0 <= k < |entries| && entries[k].status >= 400
  }

  function WithEvent(st: State, e: Event): State {
    st.(trace := st.trace + [e])
  }

  /** A transaction that was begun: run the group inside, then commit or roll back. `st` carries
      the shared maps; the group works on a copy. */
  function RunInTransaction(w: World, rs: seq<Request>, order: seq<nat>, g: string, st: State): Attempt<seq<Entry>>
    requires Positions(rs, order)
  {
    var ran := RunGroup(w, rs, order, true, WithEvent(st, Began(g)));
    var kept := ran.0.(maps := st.maps);
    if ran.1.Err? then
      (WithEvent(kept, RolledBack(g)), Err(if w.rollbackSucceeds(g) then ran.1.error else ROLLBACK_FAILED))
    else if HasFailure(ran.1.value) then
      var undone := WithEvent(kept, RolledBack(g));
      if !w.rollbackSucceeds(g) then (undone, Err(ROLLBACK_FAILED))
      else
        var n := |ran.1.value|;
        var rest := AnswerAll(w, rs, if n <= |order| then order[n..] else [], 424, undone);
        (rest.0, if rest.1.Err? then rest.1 else Ok(ran.1.value + rest.1.value))
    else if w.commit(g).Some? then
      (WithEvent(WithEvent(kept, CommitFailed(g)), RolledBack(g)), Err(w.commit(g).value))
    else
      var maps := Maps(Publish(st.maps.ids, ran.0.maps.ids), Publish(st.maps.etags, ran.0.maps.etags));
      (WithEvent(kept.(maps := maps), Committed(g)), ran.1)
  }

  predicate OnlyWrites(rs: seq<Request>, order: seq<nat>)
    requires Positions(rs, order)
  {
    forall k :: 0 <= k < |order| ==> rs[order[k]].isWrite
  }

  function RunChangeset(w: World, rs: seq<Request>, order: seq<nat>, g: string, st: State): Attempt<seq<Entry>>
    requires Positions(rs, order)
  {
    if !OnlyWrites(rs, order) then (st, Err(BAD_REQUEST))
    else match w.begin(g)
      case Rejected => AnswerAll(w, rs, order, 501, st)
      case NotBegun(error) => (st, Err(error))
      case Begun => RunInTransaction(w, rs, order, g, st)
  }

  // ------------------------------------------------------------------ the batch

  predicate IsValidationError(e: Error) {
    e.http && e.status.Some? && 400 <= e.status.value < 500
  }

  function ReportedStatus(e: Error): int {
    if e.status.Some? then e.status.value else 500
  }

  /** The positions from `from` on of the requests in group `g`. */
  function GroupFrom(rs: seq<Request>, g: string, from: nat): (order: seq<nat>)
    requires from <= |rs|
    ensures Positions(rs, order)
    decreases |rs| - from
  {
    if from == |rs| then []
    else if rs[from].group == g then [from] + GroupFrom(rs, g, from + 1)
    else GroupFrom(rs, g, from + 1)
  }

  function Stamp(entries: seq<Entry>, g: string): seq<Entry> {
    seq(|entries|, k requires 0 <= k < |entries| => entries[k].(group := g))
  }

  function FailureEntries(rs: seq<Request>, order: seq<nat>, g: string, status: int): seq<Entry>
    requires Positions(rs, order)
  {
    seq(|order|, k requires 0 <= k < |order| => Entry(rs[order[k]].id, status, g))
  }

  /** A changeset's entries as the batch reports them: errors that are not the client's become
      entries, the client's refuse the whole batch. */
  function ChangesetEntries(w: World, rs: seq<Request>, g: string, st: State): Attempt<seq<Entry>> {
    var order := GroupFrom(rs, g, 0);
    var r := RunChangeset(w, rs, order, g, st);
    if r.1.Ok? then (r.0, Ok(Stamp(r.1.value, g)))
    else if IsValidationError(r.1.error) then r
    else (WithEvent(r.0, ReportedFailure(g, r.1.error)), Ok(FailureEntries(rs, order, g, ReportedStatus(r.1.error))))
  }

  type Pending = map<string, seq<Entry>>

  /** The next request's response, from its changeset's pending entries or by running it. */
  function Next(w: World, rs: seq<Request>, i: nat, st: State, pending: Pending): (State, Pending, Result<seq<Entry>, Error>)
    requires i < |rs|
  {
    var g := rs[i].group;
    if g == "" then
      var r := RunGroup(w, rs, [i], false, st);
      (r.0, pending, r.1)
    else
      var r := if g in pending then (st, Ok(pending[g])) else ChangesetEntries(w, rs, g, st);
      if r.1.Err? then (r.0, pending, r.1)
      else if r.1.value == [] then (r.0, pending[g := []], Ok([]))
      else (r.0, pending[g := r.1.value[1..]], Ok([r.1.value[0]]))
  }

  function RunFrom(w: World, rs: seq<Request>, i: nat, st: State, pending: Pending, responses: seq<Entry>): Attempt<seq<Entry>>
    requires i <= |rs|
    decreases |rs| - i
  {
    if i == |rs| then (st, Ok(responses))
    else
      var (next, left, r) := Next(w, rs, i, st, pending);
      if r.Err? then (next, r) else RunFrom(w, rs, i + 1, next, left, responses + r.value)
  }

  function RunBatch(w: World, rs: seq<Request>): Attempt<seq<Entry>> {
    var run := RunFrom(w, rs, 0, START, map[], []);
    if run.1.Ok? && !w.fitsAtEnd then (run.0, Err(PAYLOAD_TOO_LARGE)) else run
  }

  // ------------------------------------------------------------------ validation

  /** Once a group has ended it does not come back. */
  predicate Contiguous(rs: seq<Request>) {
    forall i, j, k :: 0 <= i < j < k < |rs| && rs[i].group != "" && rs[i].group == rs[k].group ==> rs[j].group == rs[i].group
  }

  predicate DistinctIds(rs: seq<Request>) {
    forall i, j :: 0 <= i < j < |rs| && rs[i].id != "" ==> rs[i].id != rs[j].id
  }

  /** Does an earlier request than `limit` have this id? */
  predicate IdBefore(rs: seq<Request>, id: string, limit: nat) {
    exists j :: 0 <= j < limit && j < |rs| && rs[j].id == id && id != ""
  }

  predicate DependenciesEarlier(rs: seq<Request>) {
    forall i :: 0 <= i < |rs| ==> DependsEarlier(rs, i)
  }

  predicate DependsEarlier(rs: seq<Request>, i: nat)
    requires i < |rs|
  {
    forall d :: 0 <= d < |rs[i].dependsOn| ==> rs[i].id != "" && IdBefore(rs, rs[i].dependsOn[d], i)
  }

  method ValidateContiguousAtomicityGroups(rs: seq<Request>) returns (ok: bool)
    ensures ok <==> Contiguous(rs)
  {
    hide Contiguous;
    var seen: set<string> := {};
    var activeGroup := "";
    NoneContiguous(rs[..0]);
    for index := 0 to |rs|
      invariant forall i :: 0 <= i < index && rs[i].group != "" ==> rs[i].group in seen
      invariant forall g <- seen :: exists i :: 0 <= i < index && rs[i].group == g && g != ""
      invariant activeGroup == if index == 0 then "" else rs[index - 1].group
      invariant Contiguous(rs[..index])
    {
      var groupId := rs[index].group;
      assert rs[..index + 1][..index] == rs[..index];
      if groupId != "" && groupId in seen && activeGroup != groupId {
        CameBack(rs, index);
        return false;
      }
      ContiguousNext(rs, index);
      if groupId != "" {
        seen := seen + {groupId};
      }
      activeGroup := groupId;
    }
    assert rs[..|rs|] == rs;
    return true;
  }

  lemma NoneContiguous(rs: seq<Request>)
    requires rs == []
    ensures Contiguous(rs)
  {
  }

  lemma CameBack(rs: seq<Request>, n: nat)
    requires 0 < n < |rs| && rs[n].group != "" && rs[n - 1].group != rs[n].group
    requires exists i :: 0 <= i < n && rs[i].group == rs[n].group
    ensures !Contiguous(rs)
  {
    var i :| 0 <= i < n && rs[i].group == rs[n].group;
    assert rs[n - 1].group != rs[i].group && i < n - 1 < n;
  }

  lemma ContiguousNext(rs: seq<Request>, n: nat)
    requires n < |rs| && Contiguous(rs[..n])
    requires rs[n].group != "" && n > 0 && rs[n - 1].group != rs[n].group ==> forall i :: 0 <= i < n ==> rs[i].group != rs[n].group
    ensures Contiguous(rs[..n + 1])
  {
    var before, after := rs[..n], rs[..n + 1];
    forall i, j, k | 0 <= i < j < k < |after| && after[i].group != "" && after[i].group == after[k].group
      ensures after[j].group == after[i].group
    {
      if k == n && j < n - 1 {
        assert before[n - 1].group == before[i].group;
        assert before[j].group == before[i].group;
      } else if k < n {
        assert before[i] == after[i] && before[j] == after[j] && before[k] == after[k];
      }
    }
  }

  /** Positions by id, then every dependency looked up. */
  method ValidateDependsOn(rs: seq<Request>) returns (ok: bool)
    ensures ok <==> DistinctIds(rs) && DependenciesEarlier(rs)
  {
    var idPositions: map<string, nat> := map[];
    for index := 0 to |rs|
      invariant forall id <- idPositions :: id != "" && idPositions[id] < index && rs[idPositions[id]].id == id
      invariant forall i :: 0 <= i < index && rs[i].id != "" ==> rs[i].id in idPositions
      invariant forall i, j :: 0 <= i < j < index && rs[i].id != "" ==> rs[i].id != rs[j].id
    {
      var id := rs[index].id;
      if id != "" {
        if id in idPositions {
          return false;
        }
        idPositions := idPositions[id := index];
      }
    }
    for index := 0 to |rs|
      invariant forall i :: 0 <= i < index ==> DependsEarlier(rs, i)
    {
      var ok := CheckDependencies(rs, index, idPositions);
      if !ok {
        return false;
      }
    }
    return true;
  }

  method CheckDependencies(rs: seq<Request>, index: nat, idPositions: map<string, nat>) returns (ok: bool)
    requires index < |rs|
    requires forall id <- idPositions :: id != "" && idPositions[id] < |rs| && rs[idPositions[id]].id == id
    requires forall i :: 0 <= i < |rs| && rs[i].id != "" ==> rs[i].id in idPositions
    requires DistinctIds(rs)
    ensures ok == DependsEarlier(rs, index)
  {
    var deps := rs[index].dependsOn;
    if |deps| > 0 && rs[index].id == "" {
      assert !DependsEarlier(rs, index) by {
        var first := rs[index].dependsOn[0];
      }
      return false;
    }
    for d := 0 to |deps|
      invariant forall e :: 0 <= e < d ==> IdBefore(rs, deps[e], index)
    {
      if deps[d] !in idPositions || idPositions[deps[d]] >= index {
        assert !IdBefore(rs, deps[d], index);
        return false;
      }
    }
    return true;
  }

  // ------------------------------------------------------------------ transactions, as objects

  /** One changeset's transaction. It is settled once it was committed or rolled back. */
  class AtomicityGroupContext {
    const id: string
    const world: World
    var settled: bool
    var rolledBack: bool
    /** What was asked of the transaction so far. */
    var log: seq<Event>

    ghost predicate Valid()
      reads this
    {
      && (rolledBack ==> settled)
      && (!settled ==> log == [])
      && (settled && !rolledBack ==> log == [Committed(id)])
      && (rolledBack ==> log == [RolledBack(id)] || log == [CommitFailed(id), RolledBack(id)] || log == [Committed(id), RolledBack(id)])
    }

    constructor (world: World, id: string)
      ensures Valid() && !settled && this.world == world && this.id == id
    {
      this.id, this.world := id, world;
      settled, rolledBack, log := false, false, [];
    }

    method Commit() returns (error: Option<Error>)
      requires Valid()
      modifies this
      ensures Valid() && settled
      ensures old(settled) ==> error == None && log == old(log) && rolledBack == old(rolledBack)
      ensures !old(settled) ==>
                && error == world.commit(id) && rolledBack == error.Some?
                && log == (if error.None? then [Committed(id)] else [CommitFailed(id), RolledBack(id)])
    {
      if settled {
        return None;
      }
      error := world.commit(id);
      if error.Some? {
        log := log + [CommitFailed(id)];
        var failed := SafeRollback();
      } else {
        log := log + [Committed(id)];
        settled := true;
      }
    }

    /** Asked for at any time; only a rollback keeps it from being asked of the transaction. */
    method Rollback() returns (error: Option<Error>)
      requires Valid()
      modifies this
      ensures Valid() && settled && rolledBack
      ensures old(rolledBack) ==> error == None && log == old(log)
      ensures !old(rolledBack) ==> log == old(log) + [RolledBack(id)]
      ensures !old(rolledBack) ==>
                error == if world.rollbackSucceeds(id) then None else Some(ROLLBACK_FAILED)
    {
      if settled && rolledBack {
        return None;
      }
      error := SafeRollback();
    }

    method SafeRollback() returns (error: Option<Error>)
      modifies this
      ensures rolledBack && (old(rolledBack) ==> settled == old(settled)) && (!old(rolledBack) ==> settled)
      ensures old(rolledBack) ==> error == None && log == old(log)
      ensures !old(rolledBack) ==> log == old(log) + [RolledBack(id)]
      ensures !old(rolledBack) ==>
                error == if world.rollbackSucceeds(id) then None else Some(ROLLBACK_FAILED)
    {
      if rolledBack {
        return None;
      }
      log := log + [RolledBack(id)];
      error := if world.rollbackSucceeds(id) then None else Some(ROLLBACK_FAILED);
      rolledBack, settled := true, true;
    }
  }

  // ------------------------------------------------------------------ the controller

  /** The batch being executed, with the maps its methods share. */
  class BatchExecution {
    const world: World
    const requests: seq<Request>
    var dependencyResults: map<string, Entry>
    var contentIds: map<string, string>
    var contentIdEtags: map<string, string>
    var trace: seq<Event>

    ghost function Now(): State
      reads this
    {
      State(dependencyResults, Maps(contentIds, contentIdEtags), trace)
    }

    constructor (world: World, requests: seq<Request>)
      ensures Now() == START && this.world == world && this.requests == requests
    {
      this.world, this.requests := world, requests;
      dependencyResults, contentIds, contentIdEtags, trace := map[], map[], map[], [];
    }

    method EvaluateDependsOn(r: Request) returns (failed: bool)
      ensures failed == DependencyFails(dependencyResults, r.dependsOn)
    {
      for k := 0 to |r.dependsOn|
        invariant forall d :: 0 <= d < k ==>
                    r.dependsOn[d] in dependencyResults && dependencyResults[r.dependsOn[d]].status < 400
      {
        if r.dependsOn[k] !in dependencyResults || dependencyResults[r.dependsOn[k]].status >= 400 {
          return true;
        }
      }
      return false;
    }

    /** The body of the group loop, on the maps it is given. */
    method ExecuteOne(i: nat, maps: Maps) returns (r: Result<Entry, Error>, next: Maps)
      requires i < |requests|
      modifies this`dependencyResults, this`trace
      ensures var was := State(old(dependencyResults), maps, old(trace));
              (State(dependencyResults, next, trace), r) == RunRequest(world, requests, i, was)
    {
      var request := requests[i];
      next := maps;
      if !ReferencesKnown(maps, request) {
        return Err(BAD_REQUEST), next;
      }
      var dependencyFailure := EvaluateDependsOn(request);
      if dependencyFailure {
        if !world.fits(i) {
          return Err(PAYLOAD_TOO_LARGE), next;
        }
        var failure := Entry(request.id, 424, "");
        if request.id != "" {
          dependencyResults := dependencyResults[request.id := failure];
        }
        return Ok(failure), next;
      }
      var prepared := Prepare(world, maps, request, i);
      var outcome := world.handle(i, prepared);
      trace := trace + [Handled(i, prepared, outcome)];
      if outcome.Throws? {
        return Err(outcome.error), next;
      }
      if !world.fits(i) {
        return Err(PAYLOAD_TOO_LARGE), next;
      }
      var entry := Entry(request.id, outcome.status, "");
      if request.id != "" {
        dependencyResults := dependencyResults[request.id := entry];
      }
      if CannotRecord(request, outcome) {
        return Err(BAD_REQUEST), next;
      }
      next := Record(maps, request, i, outcome.status, outcome.target, outcome.etag);
      return Ok(entry), next;
    }

    method ExecuteGroup(order: seq<nat>, abortOnFailure: bool, maps: Maps) returns (r: Result<seq<Entry>, Error>, next: Maps)
      requires Positions(requests, order)
      modifies this`dependencyResults, this`trace
      ensures var was := State(old(dependencyResults), maps, old(trace));
              (State(dependencyResults, next, trace), r) == RunGroup(world, requests, order, abortOnFailure, was)
    {
      hide RunRequest;
      var entries: seq<Entry> := [];
      next := maps;
      ghost var was := State(old(dependencyResults), maps, old(trace));
      ghost var whole := RunGroup(world, requests, order, abortOnFailure, was);
      ContinuesFromStart(whole);
      assert order[0..] == order;
      for k := 0 to |order|
        invariant Continues(whole, entries,
                            RunGroup(world, requests, order[k..], abortOnFailure, State(dependencyResults, next, trace)))
      {
        assert order[k..][0] == order[k] && order[k..][1..] == order[k + 1..];
        ghost var made := entries;
        var entry;
        entry, next := ExecuteOne(order[k], next);
        if entry.Err? {
          return Err(entry.error), next;
        }
        entries := entries + [entry.value];
        if entry.value.status >= 400 && abortOnFailure {
          return Ok(entries), next;
        }
        ContinuesOneOn(whole, made, entry.value,
                       RunGroup(world, requests, order[k + 1..], abortOnFailure, State(dependencyResults, next, trace)));
      }
      assert entries + [] == entries;
      return Ok(entries), next;
    }

    method AnswerEach(order: seq<nat>, status: int) returns (r: Result<seq<Entry>, Error>)
      requires Positions(requests, order)
      modifies this`dependencyResults
      ensures (Now(), r) == AnswerAll(world, requests, order, status, old(Now()))
    {
      var entries: seq<Entry> := [];
      ghost var whole := AnswerAll(world, requests, order, status, old(Now()));
      ContinuesFromStart(whole);
      assert order[0..] == order;
      for k := 0 to |order|
        invariant contentIds == old(contentIds) && contentIdEtags == old(contentIdEtags) && trace == old(trace)
        invariant Continues(whole, entries, AnswerAll(world, requests, order[k..], status, Now()))
      {
        assert order[k..][0] == order[k] && order[k..][1..] == order[k + 1..];
        ghost var made := entries;
        var request := requests[order[k]];
        if !world.fits(order[k]) {
          return Err(PAYLOAD_TOO_LARGE);
        }
        var entry := Entry(request.id, status, "");
        entries := entries + [entry];
        if request.id != "" {
          dependencyResults := dependencyResults[request.id := entry];
        }
        ContinuesOneOn(whole, made, entry, AnswerAll(world, requests, order[k + 1..], status, Now()));
      }
      assert entries + [] == entries;
      return Ok(entries);
    }

    /** From begin to commit or rollback, on private copies of the maps. */
    method ExecuteInTransaction(order: seq<nat>, groupId: string) returns (r: Result<seq<Entry>, Error>)
      requires Positions(requests, order)
      modifies this
      ensures (Now(), r) == RunInTransaction(world, requests, order, groupId, old(Now()))
    {
      hide RunGroup, AnswerAll;
      trace := trace + [Began(groupId)];
      var context := new AtomicityGroupContext(world, groupId);
      var ran, own := ExecuteGroup(order, true, Maps(contentIds, contentIdEtags));
      if ran.Err? {
        var failed := context.Rollback();
        trace := trace + context.log;
        return Err(if failed.Some? then failed.value else ran.error);
      }
      var entries := ran.value;
      var failedIndex := FindFailure(entries);
      if failedIndex >= 0 {
        var failed := context.Rollback();
        trace := trace + context.log;
        if failed.Some? {
          var again := context.Rollback();
          return Err(failed.value);
        }
        var rest := AnswerEach(if |entries| <= |order| then order[|entries|..] else [], 424);
        if rest.Err? {
          var again := context.Rollback();
          return rest;
        }
        return Ok(entries + rest.value);
      }
      var error := context.Commit();
      assert forall a, b :: trace + [a] + [b] == trace + [a, b];
      trace := trace + context.log;
      if error.Some? {
        var again := context.Rollback();
        return Err(error.value);
      }
      contentIds := Publish(contentIds, own.ids);
      contentIdEtags := Publish(contentIdEtags, own.etags);
      return ran;
    }

    method FindFailure(entries: seq<Entry>) returns (index: int)
      ensures -1 <= index < |entries|
      ensures index >= 0 <==> HasFailure(entries)
    {
      for k := 0 to |entries|
        invariant forall j :: 0 <= j < k ==> entries[j].status < 400
      {
        if entries[k].status >= 400 {
          return k;
        }
      }
      return -1;
    }

    method ExecuteAtomicGroup(order: seq<nat>, groupId: string) returns (r: Result<seq<Entry>, Error>)
      requires Positions(requests, order)
      modifies this
      ensures (Now(), r) == RunChangeset(world, requests, order, groupId, old(Now()))
    {
      hide RunInTransaction, AnswerAll;
      if !OnlyWrites(requests, order) {
        return Err(BAD_REQUEST);
      }
      var beginning := world.begin(groupId);
      match beginning {
        case Rejected =>
          r := AnswerEach(order, 501);
        case NotBegun(error) =>
          r := Err(error);
        case Begun =>
          r := ExecuteInTransaction(order, groupId);
      }
    }

    /** A changeset met for the first time in the request loop. */
    method ExecuteChangeset(groupId: string) returns (r: Result<seq<Entry>, Error>)
      modifies this
      ensures (Now(), r) == ChangesetEntries(world, requests, groupId, old(Now()))
    {
      hide RunChangeset;
      var groupRequests := GroupFrom(requests, groupId, 0);
      r := ExecuteAtomicGroup(groupRequests, groupId);
      if r.Ok? {
        return Ok(Stamp(r.value, groupId));
      }
      if IsValidationError(r.error) {
        return r;
      }
      trace := trace + [ReportedFailure(groupId, r.error)];
      return Ok(FailureEntries(requests, groupRequests, groupId, ReportedStatus(r.error)));
    }

    /** One turn of the request loop. */
    method ExecuteNext(i: nat, executedGroups: Pending) returns (r: Result<seq<Entry>, Error>, pending: Pending)
      requires i < |requests|
      modifies this
      ensures (Now(), pending, r) == Next(world, requests, i, old(Now()), executedGroups)
    {
      hide RunGroup, ChangesetEntries;
      pending := executedGroups;
      var groupId := requests[i].group;
      if groupId != "" {
        var entries: seq<Entry>;
        if groupId in pending {
          entries := pending[groupId];
        } else {
          var executed := ExecuteChangeset(groupId);
          if executed.Err? {
            return executed, pending;
          }
          entries := executed.value;
        }
        if entries == [] {
          return Ok([]), pending[groupId := []];
        }
        return Ok([entries[0]]), pending[groupId := entries[1..]];
      }
      var maps;
      r, maps := ExecuteGroup([i], false, Maps(contentIds, contentIdEtags));
      contentIds, contentIdEtags := maps.ids, maps.etags;
    }

    method HandleBatch() returns (r: Result<seq<Entry>, Error>)
      requires Now() == START
      modifies this
      ensures (Now(), r) == RunBatch(world, requests)
    {
      hide Next;
      var responses: seq<Entry> := [];
      var executedGroups: Pending := map[];
      for i := 0 to |requests|
        invariant RunFrom(world, requests, i, Now(), executedGroups, responses) == RunFrom(world, requests, 0, START, map[], [])
      {
        var entries;
        entries, executedGroups := ExecuteNext(i, executedGroups);
        if entries.Err? {
          return entries;
        }
        responses := responses + entries.value;
      }
      if !world.fitsAtEnd {
        return Err(PAYLOAD_TOO_LARGE);
      }
      return Ok(responses);
    }
  }

  /** `whole` is what comes of the entries already made and of the rest still to run. */
  predicate Continues(whole: Attempt<seq<Entry>>, made: seq<Entry>, rest: Attempt<seq<Entry>>) {
    whole.0 == rest.0 && whole.1 == if rest.1.Err? then rest.1 else Ok(made + rest.1.value)
  }

  lemma ContinuesFromStart(whole: Attempt<seq<Entry>>)
    ensures Continues(whole, [], whole)
  {
    if whole.1.Ok? {
      assert [] + whole.1.value == whole.1.value;
    }
  }

  lemma ContinuesOneOn(whole: Attempt<seq<Entry>>, made: seq<Entry>, entry: Entry, rest: Attempt<seq<Entry>>)
    requires Continues(whole, made, (rest.0, if rest.1.Err? then rest.1 else Ok([entry] + rest.1.value)))
    ensures Continues(whole, made + [entry], rest)
  {
    if rest.1.Ok? {
      assert made + [entry] + rest.1.value == made + ([entry] + rest.1.value);
    }
  }
}
