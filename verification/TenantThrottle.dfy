/** The in-memory quota store: hits per tenant and window, and calls in flight. The store hands
    out its records by reference, and cleaning up may detach the one a call is working on. */
module TenantThrottle {
  /** A tenant's counters, as a value. */
  datatype Record = Record(windowStart: int, windowMs: int, hits: nat, concurrent: nat)

  type States = map<string, Record>

  datatype Store = Store(states: States, lastCleanup: int)

  const EMPTY := Store(map[], 0)

  datatype Rate = Rate(limited: bool, hits: nat, windowStart: int, windowResetMs: int)

  datatype Concurrent = Concurrent(limited: bool, concurrent: nat)

  // ------------------------------------------------------------------ what the calls do

  predicate Stale(r: Record, now: int) {
    r.concurrent == 0 && now - r.windowStart >= r.windowMs
  }

  function Ensured(s: Store, tenant: string, now: int, windowMs: int): Store {
    if tenant in s.states then s else s.(states := s.states[tenant := Record(now, windowMs, 0, 0)])
  }

  predicate CleanupDue(s: Store, now: int, windowMs: int) {
    |s.states| > 0 && now - s.lastCleanup >= windowMs
  }

  function Live(states: States, now: int): States {
    map t | t in states && !Stale(states[t], now) :: states[t]
  }

  function Pruned(s: Store, now: int, windowMs: int): Store {
    if CleanupDue(s, now, windowMs) then Store(Live(s.states, now), now) else s
  }

  /** Writes a record back - unless it is detached, when the write is lost. */
  function Written(s: Store, tenant: string, r: Record): Store {
    if tenant in s.states then s.(states := s.states[tenant := r]) else s
  }

  predicate Refuses(limit: int, amount: int) {
    limit > 0 && amount > limit
  }

  function InWindow(r: Record, now: int, windowMs: int): Record {
    if now - r.windowStart >= windowMs then r.(windowStart := now, hits := 0) else r
  }

  function Max(a: int, b: int): int {
    if a >= b then a else b
  }

  function IncrementRate(s: Store, now: int, tenant: string, windowMs: int, limit: int): (Store, Rate) {
    var ensured := Ensured(s, tenant, now, windowMs);
    var r := InWindow(ensured.states[tenant], now, windowMs);
    var limited := Refuses(limit, r.hits + 1);
    var after := if limited then r else r.(hits := r.hits + 1, windowMs := windowMs);
    (Written(Pruned(ensured, now, windowMs), tenant, after),
     Rate(limited, after.hits, after.windowStart, Max(0, after.windowStart + windowMs - now)))
  }

  function AcquireConcurrent(s: Store, now: int, tenant: string, defaultWindowMs: int, limit: int): (Store, Concurrent) {
    var ensured := Ensured(s, tenant, now, defaultWindowMs);
    var r := ensured.states[tenant];
    var limited := limit > 0 && r.concurrent >= limit;
    var after := if limited then r else r.(concurrent := r.concurrent + 1);
    (Written(Pruned(ensured, now, r.windowMs), tenant, after), Concurrent(limited, after.concurrent))
  }

  function ReleaseConcurrent(s: Store, now: int, tenant: string): (Store, nat) {
    if tenant !in s.states then (s, 0)
    else
      var was := s.states[tenant];
      var r := was.(concurrent := if was.concurrent > 0 then was.concurrent - 1 else 0);
      var pruned := Pruned(Written(s, tenant, r), now, r.windowMs);
      if Stale(r, now) then (pruned.(states := pruned.states - {tenant}), 0) else (pruned, r.concurrent)
  }

  // ------------------------------------------------------------------ the store

  class TenantState {
    var windowStart: int
    var windowMs: int
    var hits: nat
    var concurrent: nat

    constructor (windowStart: int, windowMs: int)
      ensures View() == Record(windowStart, windowMs, 0, 0)
    {
      this.windowStart, this.windowMs, hits, concurrent := windowStart, windowMs, 0, 0;
    }

    ghost function View(): Record
      reads this
    {
      Record(windowStart, windowMs, hits, concurrent)
    }
  }

  class InMemoryTenantThrottleStore {
    const defaultWindowMs: int
    var states: map<string, TenantState>
    var lastCleanup: int

    ghost predicate Valid()
      reads this
    {
      forall a <- states, b <- states :: a != b ==> states[a] != states[b]
    }

    ghost function View(): Store
      reads this, states.Values
    {
      Store(map t | t in states :: states[t].View(), lastCleanup)
    }

    /** The tenant's record is this one, or the tenant has none and this one is detached. */
    ghost predicate Holds(tenant: string, state: TenantState)
      reads this
    {
      if tenant in states then states[tenant] == state else state !in states.Values
    }

    constructor (defaultWindowMs: int)
      ensures Valid() && View() == EMPTY && this.defaultWindowMs == defaultWindowMs
    {
      this.defaultWindowMs, states, lastCleanup := defaultWindowMs, map[], 0;
    }

    method EnsureState(tenant: string, now: int, windowMs: int) returns (state: TenantState)
      requires Valid()
      modifies this`states
      ensures Valid() && View() == Ensured(old(View()), tenant, now, windowMs)
      ensures tenant in states && states[tenant] == state
      ensures forall o <- states.Values :: o in old(states.Values) || fresh(o)
    {
      if tenant in states {
        return states[tenant];
      }
      state := new TenantState(now, windowMs);
      states := states[tenant := state];
    }

    method Prune(now: int, windowMs: int)
      requires Valid()
      modifies this`states, this`lastCleanup
      ensures Valid() && View() == Pruned(old(View()), now, windowMs)
      ensures forall t <- states :: t in old(states) && states[t] == old(states[t])
    {
      ghost var before := View();
      SameDomainSize(before.states, states);
      if |states| == 0 || now - lastCleanup < windowMs {
        return;
      }
      lastCleanup := now;
      DropStale(now);
    }

    method DropStale(now: int)
      requires Valid()
      modifies this`states
      ensures Valid() && View() == Store(Live(old(View()).states, now), lastCleanup)
      ensures forall t <- states :: t in old(states) && states[t] == old(states[t])
    {
      var todo := states.Keys;
      while todo != {}
        invariant todo <= states.Keys && Valid()
        invariant forall t <- states :: t in old(states) && states[t] == old(states[t])
        invariant forall t <- old(states) :: t in states <==> t in todo || !Stale(old(states[t].View()), now)
        decreases todo
      {
        var tenant :| tenant in todo;
        var state := states[tenant];
        if state.concurrent == 0 && now - state.windowStart >= state.windowMs {
          states := states - {tenant};
        }
        todo := todo - {tenant};
      }
    }

    /** Changing one record in place is writing it back, or a write that is lost. */
    method Change(tenant: string, state: TenantState, r: Record)
      requires Valid() && Holds(tenant, state)
      modifies state
      ensures state.View() == r && View() == Written(old(View()), tenant, r)
    {
      state.windowStart, state.windowMs, state.hits, state.concurrent := r.windowStart, r.windowMs, r.hits, r.concurrent;
    }

    method IncrementRateOf(now: int, tenant: string, windowMs: int, limit: int) returns (r: Rate)
      requires Valid()
      modifies this, states.Values
      ensures Valid() && (View(), r) == IncrementRate(old(View()), now, tenant, windowMs, limit)
      ensures forall o <- states.Values :: o in old(states.Values) || fresh(o)
    {
      hide Written, Pruned, Max;
      var state := EnsureState(tenant, now, windowMs);
      assert View().states[tenant] == state.View();
      Prune(now, windowMs);
      assert Holds(tenant, state);
      r := CountHit(tenant, state, now, windowMs, limit);
    }

    method CountHit(tenant: string, state: TenantState, now: int, windowMs: int, limit: int) returns (r: Rate)
      requires Valid() && Holds(tenant, state)
      modifies state
      ensures var was := InWindow(old(state.View()), now, windowMs);
              var limited := Refuses(limit, was.hits + 1);
              var counted := if limited then was else was.(hits := was.hits + 1, windowMs := windowMs);
              && View() == Written(old(View()), tenant, counted)
              && r == Rate(limited, counted.hits, counted.windowStart, Max(0, counted.windowStart + windowMs - now))
    {
      hide Written, Max;
      var windowStart, hits := state.windowStart, state.hits;
      if now - windowStart >= windowMs {
        windowStart, hits := now, 0;
      }
      var nextHits := hits + 1;
      if limit > 0 && nextHits > limit {
        Change(tenant, state, Record(windowStart, state.windowMs, hits, state.concurrent));
        return Rate(true, state.hits, state.windowStart, Max(0, state.windowStart + windowMs - now));
      }
      Change(tenant, state, Record(windowStart, windowMs, nextHits, state.concurrent));
      return Rate(false, state.hits, state.windowStart, Max(0, state.windowStart + windowMs - now));
    }

    method AcquireConcurrentOf(now: int, tenant: string, limit: int) returns (r: Concurrent)
      requires Valid()
      modifies this, states.Values
      ensures Valid() && (View(), r) == AcquireConcurrent(old(View()), now, tenant, defaultWindowMs, limit)
      ensures forall o <- states.Values :: o in old(states.Values) || fresh(o)
    {
      hide Written, Pruned;
      var state := EnsureState(tenant, now, defaultWindowMs);
      assert View().states[tenant] == state.View();
      Prune(now, state.windowMs);
      assert Holds(tenant, state);
      var concurrent := state.concurrent;
      var limited := limit > 0 && concurrent >= limit;
      if !limited {
        concurrent := concurrent + 1;
      }
      Change(tenant, state, Record(state.windowStart, state.windowMs, state.hits, concurrent));
      return Concurrent(limited, concurrent);
    }

    method ReleaseConcurrentOf(now: int, tenant: string) returns (left: nat)
      requires Valid()
      modifies this, states.Values
      ensures Valid() && (View(), left) == ReleaseConcurrent(old(View()), now, tenant)
      ensures forall o <- states.Values :: o in old(states.Values)
    {
      hide Written, Pruned;
      if tenant !in states {
        return 0;
      }
      var state := states[tenant];
      var concurrent := if state.concurrent > 0 then state.concurrent - 1 else 0;
      Change(tenant, state, Record(state.windowStart, state.windowMs, state.hits, concurrent));
      Prune(now, state.windowMs);
      if state.concurrent == 0 && now - state.windowStart >= state.windowMs {
        Drop(tenant);
        return 0;
      }
      return state.concurrent;
    }

    method Drop(tenant: string)
      requires Valid()
      modifies this`states
      ensures Valid() && View() == old(View()).(states := old(View()).states - {tenant})
      ensures forall t <- states :: t in old(states) && states[t] == old(states[t])
    {
      states := states - {tenant};
    }
  }

  lemma SameDomainSize<A, B>(a: map<string, A>, b: map<string, B>)
    requires a.Keys == b.Keys
    ensures |a| == |b|
  {
    assert |a| == |a.Keys| && |b| == |b.Keys|;
  }

  // ------------------------------------------------------------------ runs

  datatype Call =
    | Hit(tenant: string, windowMs: int, limit: int)
    | Acquire(tenant: string, limit: int)
    | Release(tenant: string)

  datatype Timed = Timed(now: int, call: Call)

  /** What really happened: accepted hits with their times, and calls in flight by tenant. */
  datatype History = History(hits: seq<(int, string)>, inFlight: map<string, nat>)

  function InFlight(h: History, tenant: string): nat {
    if tenant in h.inFlight then h.inFlight[tenant] else 0
  }

  /** Hits accepted for a tenant at or after a time. */
  function HitsSince(hits: seq<(int, string)>, tenant: string, since: int): nat {
    if hits == [] then 0
    else
      var last := hits[|hits| - 1];
      HitsSince(hits[..|hits| - 1], tenant, since) + (if last.1 == tenant && last.0 >= since then 1 else 0)
  }

  /** One call: the store, the history, and whether it was refused. */
  function Perform(s: Store, h: History, c: Timed, defaultWindowMs: int): (Store, History, bool) {
    match c.call
    case Hit(tenant, windowMs, limit) =>
      var (next, r) := IncrementRate(s, c.now, tenant, windowMs, limit);
      (next, if r.limited then h else h.(hits := h.hits + [(c.now, tenant)]), r.limited)
    case Acquire(tenant, limit) =>
      var (next, r) := AcquireConcurrent(s, c.now, tenant, defaultWindowMs, limit);
      (next, if r.limited then h else h.(inFlight := h.inFlight[tenant := InFlight(h, tenant) + 1]), r.limited)
    case Release(tenant) =>
      var (next, _) := ReleaseConcurrent(s, c.now, tenant);
      var n := InFlight(h, tenant);
      (next, h.(inFlight := h.inFlight[tenant := if n > 0 then n - 1 else 0]), false)
  }

  function Run(calls: seq<Timed>, defaultWindowMs: int): (Store, History) {
    if calls == [] then (EMPTY, History([], map[]))
    else
      var (s, h) := Run(calls[..|calls| - 1], defaultWindowMs);
      var (next, after, _) := Perform(s, h, calls[|calls| - 1], defaultWindowMs);
      (next, after)
  }

  predicate ClockRuns(calls: seq<Timed>) {
    forall i, j :: 0 <= i < j < |calls| ==> calls[i].now <= calls[j].now
  }

  /** No record counts more than what happened. */
  predicate NeverOver(r: Record, tenant: string, h: History, now: int) {
    r.windowStart <= now && r.hits <= HitsSince(h.hits, tenant, r.windowStart) && r.concurrent <= InFlight(h, tenant)
  }

  predicate Fair(s: Store, h: History, now: int) {
    forall t <- s.states :: NeverOver(s.states[t], t, h, now)
  }

  lemma MoreHits(hits: seq<(int, string)>, hit: (int, string), tenant: string, since: int)
    ensures HitsSince(hits + [hit], tenant, since)
         == HitsSince(hits, tenant, since) + (if hit.1 == tenant && hit.0 >= since then 1 else 0)
  {
    assert (hits + [hit])[..|hits|] == hits;
  }

  lemma EnsuredFair(s: Store, h: History, tenant: string, now: int, windowMs: int)
    requires Fair(s, h, now)
    ensures Fair(Ensured(s, tenant, now, windowMs), h, now)
  {
  }

  lemma PrunedFair(s: Store, h: History, now: int, windowMs: int)
    requires Fair(s, h, now)
    ensures Fair(Pruned(s, now, windowMs), h, now)
  {
  }

  lemma LaterFair(s: Store, h: History, now: int, later: int)
    requires Fair(s, h, now) && now <= later
    ensures Fair(s, h, later)
  {
  }

  lemma HitFair(s: Store, h: History, tenant: string, now: int)
    requires Fair(s, h, now)
    ensures Fair(s, h.(hits := h.hits + [(now, tenant)]), now)
  {
    hide HitsSince;
    forall t <- s.states ensures NeverOver(s.states[t], t, h.(hits := h.hits + [(now, tenant)]), now) {
      MoreHits(h.hits, (now, tenant), t, s.states[t].windowStart);
    }
  }

  lemma WrittenFair(s: Store, h: History, tenant: string, r: Record, now: int)
    requires Fair(s, h, now) && NeverOver(r, tenant, h, now)
    ensures Fair(Written(s, tenant, r), h, now)
  {
    hide NeverOver;
  }

  lemma IncrementFair(s: Store, h: History, now: int, tenant: string, windowMs: int, limit: int)
    requires Fair(s, h, now)
    ensures var (next, r) := IncrementRate(s, now, tenant, windowMs, limit);
            Fair(next, if r.limited then h else h.(hits := h.hits + [(now, tenant)]), now)
    ensures IncrementRate(s, now, tenant, windowMs, limit).1.limited ==>
              HitsSince(h.hits, tenant, now - windowMs + 1) >= limit
  {
    hide HitsSince, Written, Fair, Pruned;
    EnsuredFair(s, h, tenant, now, windowMs);
    var ensured := Ensured(s, tenant, now, windowMs);
    PrunedFair(ensured, h, now, windowMs);
    var pruned := Pruned(ensured, now, windowMs);
    FairAt(ensured, h, tenant, now);
    var r := InWindow(ensured.states[tenant], now, windowMs);
    if Refuses(limit, r.hits + 1) {
      WrittenFair(pruned, h, tenant, r, now);
      assert r.windowStart > now - windowMs;
      EarlierMore(h.hits, tenant, r.windowStart, now - windowMs + 1);
    } else {
      HitFair(pruned, h, tenant, now);
      MoreHits(h.hits, (now, tenant), tenant, r.windowStart);
      WrittenFair(pruned, h.(hits := h.hits + [(now, tenant)]), tenant, r.(hits := r.hits + 1, windowMs := windowMs), now);
    }
  }

  lemma FairAt(s: Store, h: History, tenant: string, now: int)
    requires Fair(s, h, now) && tenant in s.states
    ensures NeverOver(s.states[tenant], tenant, h, now)
  {
  }

  lemma {:induction false} EarlierMore(hits: seq<(int, string)>, tenant: string, since: int, earlier: int)
    requires earlier <= since
    ensures HitsSince(hits, tenant, since) <= HitsSince(hits, tenant, earlier)
    decreases |hits|
  {
    if hits != [] {
      EarlierMore(hits[..|hits| - 1], tenant, since, earlier);
    }
  }

  lemma AcquireFair(s: Store, h: History, now: int, tenant: string, defaultWindowMs: int, limit: int)
    requires Fair(s, h, now)
    ensures var (next, r) := AcquireConcurrent(s, now, tenant, defaultWindowMs, limit);
            Fair(next, if r.limited then h else h.(inFlight := h.inFlight[tenant := InFlight(h, tenant) + 1]), now)
    ensures AcquireConcurrent(s, now, tenant, defaultWindowMs, limit).1.limited ==> InFlight(h, tenant) >= limit
  {
    hide HitsSince, Written, Fair, Pruned;
    EnsuredFair(s, h, tenant, now, defaultWindowMs);
    var ensured := Ensured(s, tenant, now, defaultWindowMs);
    FairAt(ensured, h, tenant, now);
    var r := ensured.states[tenant];
    PrunedFair(ensured, h, now, r.windowMs);
    var pruned := Pruned(ensured, now, r.windowMs);
    if limit > 0 && r.concurrent >= limit {
      WrittenFair(pruned, h, tenant, r, now);
    } else {
      var more := h.(inFlight := h.inFlight[tenant := InFlight(h, tenant) + 1]);
      MoreInFlight(pruned, h, tenant, now);
      WrittenFair(pruned, more, tenant, r.(concurrent := r.concurrent + 1), now);
    }
  }

  lemma MoreInFlight(s: Store, h: History, tenant: string, now: int)
    requires Fair(s, h, now)
    ensures Fair(s, h.(inFlight := h.inFlight[tenant := InFlight(h, tenant) + 1]), now)
  {
    hide HitsSince;
  }

  lemma ReleaseFair(s: Store, h: History, now: int, tenant: string)
    requires Fair(s, h, now)
    ensures var n := InFlight(h, tenant);
            Fair(ReleaseConcurrent(s, now, tenant).0, h.(inFlight := h.inFlight[tenant := if n > 0 then n - 1 else 0]), now)
  {
    hide HitsSince, Pruned;
    var n := InFlight(h, tenant);
    var less := h.(inFlight := h.inFlight[tenant := if n > 0 then n - 1 else 0]);
    if tenant in s.states {
      var was := s.states[tenant];
      var r := was.(concurrent := if was.concurrent > 0 then was.concurrent - 1 else 0);
      var written := Written(s, tenant, r);
      assert NeverOver(was, tenant, h, now);
      assert Fair(written, less, now);
      PrunedFair(written, less, now, r.windowMs);
    }
  }

  lemma PerformFair(s: Store, h: History, c: Timed, defaultWindowMs: int)
    requires Fair(s, h, c.now)
    ensures Fair(Perform(s, h, c, defaultWindowMs).0, Perform(s, h, c, defaultWindowMs).1, c.now)
  {
    hide Fair, IncrementRate, AcquireConcurrent, ReleaseConcurrent;
    match c.call
    case Hit(tenant, windowMs, limit) => IncrementFair(s, h, c.now, tenant, windowMs, limit);
    case Acquire(tenant, limit) => AcquireFair(s, h, c.now, tenant, defaultWindowMs, limit);
    case Release(tenant) => ReleaseFair(s, h, c.now, tenant);
  }

  lemma {:induction false} RunFair(calls: seq<Timed>, defaultWindowMs: int)
    requires ClockRuns(calls) && calls != []
    ensures Fair(Run(calls, defaultWindowMs).0, Run(calls, defaultWindowMs).1, calls[|calls| - 1].now)
    decreases |calls|
  {
    hide Fair, Perform;
    var init, last := calls[..|calls| - 1], calls[|calls| - 1];
    var (s, h) := Run(init, defaultWindowMs);
    if init == [] {
      assert Fair(EMPTY, h, last.now) by { NoStates(h, last.now); }
    } else {
      RunFair(init, defaultWindowMs);
      LaterFair(s, h, init[|init| - 1].now, last.now);
    }
    PerformFair(s, h, last, defaultWindowMs);
  }

  lemma NoStates(h: History, now: int)
    ensures Fair(EMPTY, h, now)
  {
  }

  lemma FairBefore(calls: seq<Timed>, c: Timed, defaultWindowMs: int)
    requires ClockRuns(calls + [c])
    ensures Fair(Run(calls, defaultWindowMs).0, Run(calls, defaultWindowMs).1, c.now)
  {
    hide Fair, Perform;
    var (s, h) := Run(calls, defaultWindowMs);
    var all := calls + [c];
    assert forall i :: 0 <= i < |calls| ==> calls[i] == all[i];
    if calls == [] {
      NoStates(h, c.now);
    } else {
      RunFair(calls, defaultWindowMs);
      assert all[|calls| - 1].now <= all[|calls|].now;
      LaterFair(s, h, calls[|calls| - 1].now, c.now);
    }
  }

  /** No unjustified refusal: after any run of calls with a clock that does not go back, a hit is
      refused only if `limit` hits were accepted for the tenant within the last window, and an
      acquisition only if `limit` calls of the tenant are in flight. */
  lemma NoUnjustifiedRefusal(calls: seq<Timed>, c: Timed, defaultWindowMs: int)
    requires ClockRuns(calls + [c])
    ensures var (s, h) := Run(calls, defaultWindowMs);
            Perform(s, h, c, defaultWindowMs).2 ==>
              && !c.call.Release? && c.call.limit > 0
              && (c.call.Hit? ==> HitsSince(h.hits, c.call.tenant, c.now - c.call.windowMs + 1) >= c.call.limit)
              && (c.call.Acquire? ==> InFlight(h, c.call.tenant) >= c.call.limit)
  {
    hide Fair, HitsSince, Run, Written, Pruned;
    var (s, h) := Run(calls, defaultWindowMs);
    FairBefore(calls, c, defaultWindowMs);
    match c.call
    case Hit(tenant, windowMs, limit) => IncrementFair(s, h, c.now, tenant, windowMs, limit);
    case Acquire(tenant, limit) => AcquireFair(s, h, c.now, tenant, defaultWindowMs, limit);
    case Release(tenant) =>
  }

  // ------------------------------------------------------------------ what is lost

  /** Cleaning up drops exactly the records without calls in flight whose window has passed. */
  lemma PruneKeepsLive(s: Store, now: int, windowMs: int, tenant: string)
    requires tenant in s.states
    ensures tenant in Pruned(s, now, windowMs).states <==> !(CleanupDue(s, now, windowMs) && Stale(s.states[tenant], now))
    ensures tenant in Pruned(s, now, windowMs).states ==> Pruned(s, now, windowMs).states[tenant] == s.states[tenant]
    ensures s.states[tenant].concurrent > 0 ==> tenant in Pruned(s, now, windowMs).states
  {
  }

  /** An accepted hit is recorded exactly when cleaning up did not detach the record it was
      counted on. */
  lemma HitRecorded(s: Store, now: int, tenant: string, windowMs: int, limit: int)
    requires !IncrementRate(s, now, tenant, windowMs, limit).1.limited
    ensures var (next, r) := IncrementRate(s, now, tenant, windowMs, limit);
            var ensured := Ensured(s, tenant, now, windowMs);
            (tenant in next.states && next.states[tenant].hits == r.hits)
            <==> !(CleanupDue(ensured, now, windowMs) && Stale(ensured.states[tenant], now))
  {
    PruneKeepsLive(Ensured(s, tenant, now, windowMs), now, windowMs, tenant);
  }

  /** So the counters can fall short: two hits, the second after the window has passed and when a
      cleanup is due, leave no record at all, and a third within its window counts as the first. */
  lemma HitLost()
    ensures var calls := [Timed(1000, Hit("t", 1000, 1)), Timed(2000, Hit("t", 1000, 1))];
            var (s, h) := Run(calls, 1000);
            && h.hits == [(1000, "t"), (2000, "t")] && "t" !in s.states
            && !Perform(s, h, Timed(2001, Hit("t", 1000, 1)), 1000).2
  {
    var first, second := Timed(1000, Hit("t", 1000, 1)), Timed(2000, Hit("t", 1000, 1));
    var calls := [first, second];
    assert calls[..1] == [first] && [first][..0] == [];
    var r := Record(1000, 1000, 1, 0);
    var h0 := History([], map[]);
    assert Run([], 1000) == (EMPTY, h0);
    FirstHit();
    assert Run([first], 1000) == (Store(map["t" := r], 1000), History([(1000, "t")], map[]));
    SecondHit();
  }

  lemma FirstHit()
    ensures Perform(EMPTY, History([], map[]), Timed(1000, Hit("t", 1000, 1)), 1000)
         == (Store(map["t" := Record(1000, 1000, 1, 0)], 1000), History([(1000, "t")], map[]), false)
  {
    var ensured := Ensured(EMPTY, "t", 1000, 1000);
    var r := Record(1000, 1000, 0, 0);
    assert ensured.states == map["t" := r];
    assert Live(ensured.states, 1000) == map["t" := r];
    assert Pruned(ensured, 1000, 1000) == Store(map["t" := r], 1000);
    assert map["t" := r]["t" := Record(1000, 1000, 1, 0)] == map["t" := Record(1000, 1000, 1, 0)];
    assert [] + [(1000, "t")] == [(1000, "t")];
  }

  lemma SecondHit()
    ensures Perform(Store(map["t" := Record(1000, 1000, 1, 0)], 1000), History([(1000, "t")], map[]),
                    Timed(2000, Hit("t", 1000, 1)), 1000)
         == (Store(map[], 2000), History([(1000, "t"), (2000, "t")], map[]), false)
  {
    var r := Record(1000, 1000, 1, 0);
    var s := Store(map["t" := r], 1000);
    assert Ensured(s, "t", 2000, 1000) == s;
    assert Stale(r, 2000) && Live(s.states, 2000) == map[];
    assert |s.states| > 0 by { assert "t" in s.states.Keys; }
    assert Pruned(s, 2000, 1000) == Store(map[], 2000);
    assert [(1000, "t")] + [(2000, "t")] == [(1000, "t"), (2000, "t")];
  }
}
