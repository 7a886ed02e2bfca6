/** When the store refuses, exactly: as long as cleaning up does not detach the record a tenant's
    call is working on, the store counts what happened. */
module TenantQuotas {
  import opened TenantThrottle

  /** Cleaning up takes away the record this call works on, so what it writes is lost. */
  predicate Detaches(s: Store, c: Timed, defaultWindowMs: int) {
    match c.call
    case Release(_) => false
    case Hit(tenant, windowMs, _) =>
      var ensured := Ensured(s, tenant, c.now, windowMs);
      CleanupDue(ensured, c.now, windowMs) && Stale(ensured.states[tenant], c.now)
    case Acquire(tenant, _) =>
      var ensured := Ensured(s, tenant, c.now, defaultWindowMs);
      CleanupDue(ensured, c.now, ensured.states[tenant].windowMs) && Stale(ensured.states[tenant], c.now)
  }

  /** Call `i` of the run. */
  predicate KeptAt(calls: seq<Timed>, i: nat, tenant: string, defaultWindowMs: int)
    requires i < |calls|
  {
    calls[i].call.tenant == tenant ==> !Detaches(Run(calls[..i], defaultWindowMs).0, calls[i], defaultWindowMs)
  }

  /** No call of the tenant had its record detached. */
  predicate NothingDetached(calls: seq<Timed>, tenant: string, defaultWindowMs: int) {
    forall i :: 0 <= i < |calls| ==> KeptAt(calls, i, tenant, defaultWindowMs)
  }

  lemma KeptInit(calls: seq<Timed>, tenant: string, defaultWindowMs: int)
    requires calls != [] && NothingDetached(calls, tenant, defaultWindowMs)
    ensures var init := calls[..|calls| - 1];
            NothingDetached(init, tenant, defaultWindowMs) && KeptAt(calls, |calls| - 1, tenant, defaultWindowMs)
  {
    hide Run, Detaches;
    var init := calls[..|calls| - 1];
    forall i | 0 <= i < |init| ensures KeptAt(init, i, tenant, defaultWindowMs) {
      assert KeptAt(calls, i, tenant, defaultWindowMs);
      assert init[..i] == calls[..i] && init[i] == calls[i];
    }
  }

  // ------------------------------------------------------------------ calls in flight

  function Counted(s: Store, tenant: string): nat {
    if tenant in s.states then s.states[tenant].concurrent else 0
  }

  lemma PrunedCounts(s: Store, now: int, windowMs: int, tenant: string)
    ensures Counted(Pruned(s, now, windowMs), tenant) == Counted(s, tenant)
  {
  }

  lemma WrittenCounts(s: Store, other: string, r: Record, tenant: string)
    ensures tenant != other ==> Counted(Written(s, other, r), tenant) == Counted(s, tenant)
    ensures tenant == other && tenant in s.states ==> Counted(Written(s, other, r), tenant) == r.concurrent
    ensures tenant !in s.states ==> Counted(Written(s, other, r), tenant) == 0
  {
  }

  lemma EnsuredCounts(s: Store, other: string, now: int, windowMs: int, tenant: string)
    ensures Counted(Ensured(s, other, now, windowMs), tenant) == Counted(s, tenant)
  {
  }

  /** A call keeps the count of a tenant right, unless its record is detached. */
  lemma CountKept(s: Store, h: History, c: Timed, defaultWindowMs: int, tenant: string)
    requires Counted(s, tenant) == InFlight(h, tenant)
    requires c.call.tenant == tenant ==> !Detaches(s, c, defaultWindowMs)
    ensures var (next, after, _) := Perform(s, h, c, defaultWindowMs); Counted(next, tenant) == InFlight(after, tenant)
  {
    hide Pruned, Written, Ensured, Stale, Counted;
    match c.call
    case Hit(other, windowMs, limit) => HitCounts(s, h, c.now, other, windowMs, limit, defaultWindowMs, tenant);
    case Acquire(other, limit) => AcquireCounts(s, h, c.now, other, limit, defaultWindowMs, tenant);
    case Release(other) => ReleaseCounts(s, c.now, other, tenant);
  }

  lemma HitCounts(s: Store, h: History, now: int, other: string, windowMs: int, limit: int, defaultWindowMs: int, tenant: string)
    requires other == tenant ==> !Detaches(s, Timed(now, Hit(other, windowMs, limit)), defaultWindowMs)
    ensures Counted(IncrementRate(s, now, other, windowMs, limit).0, tenant) == Counted(s, tenant)
  {
    hide Written, CleanupDue;
    var ensured := Ensured(s, other, now, windowMs);
    var r := InWindow(ensured.states[other], now, windowMs);
    var after := if Refuses(limit, r.hits + 1) then r else r.(hits := r.hits + 1, windowMs := windowMs);
    EnsuredCounts(s, other, now, windowMs, tenant);
    PrunedCounts(ensured, now, windowMs, tenant);
    WrittenCounts(Pruned(ensured, now, windowMs), other, after, tenant);
    PruneKeepsLive(ensured, now, windowMs, other);
  }

  lemma AcquireCounts(s: Store, h: History, now: int, other: string, limit: int, defaultWindowMs: int, tenant: string)
    requires Counted(s, tenant) == InFlight(h, tenant)
    requires other == tenant ==> !Detaches(s, Timed(now, Acquire(other, limit)), defaultWindowMs)
    ensures var (next, r) := AcquireConcurrent(s, now, other, defaultWindowMs, limit);
            && Counted(next, tenant) == Counted(s, tenant) + (if other == tenant && !r.limited then 1 else 0)
            && (other == tenant ==> (r.limited <==> limit > 0 && InFlight(h, tenant) >= limit))
  {
    hide Written, CleanupDue;
    var ensured := Ensured(s, other, now, defaultWindowMs);
    var r := ensured.states[other];
    var after := if limit > 0 && r.concurrent >= limit then r else r.(concurrent := r.concurrent + 1);
    EnsuredCounts(s, other, now, defaultWindowMs, tenant);
    PrunedCounts(ensured, now, r.windowMs, tenant);
    WrittenCounts(Pruned(ensured, now, r.windowMs), other, after, tenant);
    PruneKeepsLive(ensured, now, r.windowMs, other);
  }

  lemma ReleaseCounts(s: Store, now: int, other: string, tenant: string)
    ensures Counted(ReleaseConcurrent(s, now, other).0, tenant) ==
            if other == tenant && Counted(s, tenant) > 0 then Counted(s, tenant) - 1 else Counted(s, tenant)
  {
    if other in s.states {
      var was := s.states[other];
      var r := was.(concurrent := if was.concurrent > 0 then was.concurrent - 1 else 0);
      var written := Written(s, other, r);
      WrittenCounts(s, other, r, tenant);
      PrunedCounts(written, now, r.windowMs, tenant);
      hide Pruned;
    }
  }

  lemma {:induction false} RunCounts(calls: seq<Timed>, defaultWindowMs: int, tenant: string)
    requires NothingDetached(calls, tenant, defaultWindowMs)
    ensures var (s, h) := Run(calls, defaultWindowMs); Counted(s, tenant) == InFlight(h, tenant)
    decreases |calls|
  {
    hide Perform, NothingDetached, Detaches;
    if calls != [] {
      var init, last := calls[..|calls| - 1], calls[|calls| - 1];
      KeptInit(calls, tenant, defaultWindowMs);
      RunCounts(init, defaultWindowMs, tenant);
      var (s, h) := Run(init, defaultWindowMs);
      CountKept(s, h, last, defaultWindowMs, tenant);
    }
  }

  /** After any run in which no record of the tenant was detached, the recorded count is the number of the
      tenant's calls in flight; and the next acquisition is refused exactly when that has reached a
      positive limit. */
  lemma AcquireRefusedExactly(calls: seq<Timed>, now: int, tenant: string, limit: int, defaultWindowMs: int)
    requires NothingDetached(calls, tenant, defaultWindowMs)
    ensures var (s, h) := Run(calls, defaultWindowMs);
            && Counted(s, tenant) == InFlight(h, tenant)
            && (Perform(s, h, Timed(now, Acquire(tenant, limit)), defaultWindowMs).2 <==> limit > 0 && InFlight(h, tenant) >= limit)
  {
    hide Run, NothingDetached;
    RunCounts(calls, defaultWindowMs, tenant);
    var (s, h) := Run(calls, defaultWindowMs);
    EnsuredCounts(s, tenant, now, defaultWindowMs, tenant);
  }

  // ------------------------------------------------------------------ hits

  /** No hit was accepted at or after a time. */
  predicate NoneSince(hits: seq<(int, string)>, tenant: string, since: int) {
    HitsSince(hits, tenant, since) == 0
  }

  /** A record of a tenant whose windows all last `windowMs`: it counts the hits since its window began, and
      all of them fall into that window or before it. */
  predicate CountsHits(s: Store, h: History, tenant: string, windowMs: int, now: int) {
    if tenant in s.states then
      var r := s.states[tenant];
      && r.windowMs == windowMs && r.windowStart <= now && r.hits == HitsSince(h.hits, tenant, r.windowStart)
      && NoneSince(h.hits, tenant, r.windowStart + windowMs)
    else NoneSince(h.hits, tenant, now)
  }

  lemma LaterCounts(s: Store, h: History, tenant: string, windowMs: int, now: int, later: int)
    requires CountsHits(s, h, tenant, windowMs, now) && now <= later
    ensures CountsHits(s, h, tenant, windowMs, later)
  {
    EarlierMore(h.hits, tenant, later, now);
    hide HitsSince;
  }

  lemma EnsuredHits(s: Store, h: History, other: string, windowMs: int, now: int, tenant: string, otherMs: int)
    requires CountsHits(s, h, tenant, windowMs, now) && windowMs > 0 && (other == tenant ==> otherMs == windowMs)
    ensures CountsHits(Ensured(s, other, now, otherMs), h, tenant, windowMs, now)
  {
    EarlierMore(h.hits, tenant, now + windowMs, now);
    hide HitsSince;
  }

  lemma PrunedHits(s: Store, h: History, tenant: string, windowMs: int, now: int, cleanupMs: int)
    requires CountsHits(s, h, tenant, windowMs, now)
    ensures CountsHits(Pruned(s, now, cleanupMs), h, tenant, windowMs, now)
  {
    if tenant in s.states {
      var r := s.states[tenant];
      PruneKeepsLive(s, now, cleanupMs, tenant);
      if Stale(r, now) {
        EarlierMore(h.hits, tenant, now, r.windowStart + windowMs);
      }
      hide HitsSince, Pruned;
    }
  }

  lemma OtherWritten(s: Store, h: History, tenant: string, windowMs: int, now: int, other: string, r: Record)
    requires CountsHits(s, h, tenant, windowMs, now) && other != tenant
    ensures CountsHits(Written(s, other, r), h, tenant, windowMs, now)
  {
    hide HitsSince;
  }

  /** The beginning of the window a hit falls into. */
  function WindowOf(s: Store, tenant: string, windowMs: int, now: int): int {
    if tenant in s.states && now - s.states[tenant].windowStart < windowMs then s.states[tenant].windowStart else now
  }

  lemma InWindowCounts(s: Store, h: History, tenant: string, windowMs: int, now: int)
    requires CountsHits(s, h, tenant, windowMs, now) && windowMs > 0
    ensures var r := InWindow(Ensured(s, tenant, now, windowMs).states[tenant], now, windowMs);
            && r.windowStart == WindowOf(s, tenant, windowMs, now) && r.windowStart <= now < r.windowStart + windowMs
            && r.windowMs == windowMs && r.hits == HitsSince(h.hits, tenant, r.windowStart)
            && NoneSince(h.hits, tenant, r.windowStart + windowMs)
  {
    if tenant in s.states && now - s.states[tenant].windowStart >= windowMs {
      EarlierMore(h.hits, tenant, now, s.states[tenant].windowStart + windowMs);
    }
    EarlierMore(h.hits, tenant, now + windowMs, now);
    hide HitsSince;
  }

  lemma HitKept(s: Store, h: History, tenant: string, windowMs: int, now: int, limit: int, defaultWindowMs: int)
    requires CountsHits(s, h, tenant, windowMs, now) && windowMs > 0
    requires !Detaches(s, Timed(now, Hit(tenant, windowMs, limit)), defaultWindowMs)
    ensures var (next, r) := IncrementRate(s, now, tenant, windowMs, limit);
            && CountsHits(next, if r.limited then h else h.(hits := h.hits + [(now, tenant)]), tenant, windowMs, now)
            && (r.limited <==> limit > 0 && HitsSince(h.hits, tenant, WindowOf(s, tenant, windowMs, now)) >= limit)
  {
    hide HitsSince, CleanupDue, Pruned;
    InWindowCounts(s, h, tenant, windowMs, now);
    var ensured := Ensured(s, tenant, now, windowMs);
    var r := InWindow(ensured.states[tenant], now, windowMs);
    PruneKeepsLive(ensured, now, windowMs, tenant);
    MoreHits(h.hits, (now, tenant), tenant, r.windowStart);
    MoreHits(h.hits, (now, tenant), tenant, r.windowStart + windowMs);
  }

  lemma OtherHit(h: History, s: Store, tenant: string, other: string, windowMs: int, now: int, at: int)
    requires CountsHits(s, h, tenant, windowMs, now) && other != tenant
    ensures CountsHits(s, h.(hits := h.hits + [(at, other)]), tenant, windowMs, now)
  {
    forall since ensures HitsSince(h.hits + [(at, other)], tenant, since) == HitsSince(h.hits, tenant, since) {
      MoreHits(h.hits, (at, other), tenant, since);
    }
    hide HitsSince;
  }

  /** The tenant's windows all last as long as the default one. */
  predicate SameWindow(c: Timed, tenant: string, windowMs: int) {
    c.call.Hit? && c.call.tenant == tenant ==> c.call.windowMs == windowMs
  }

  lemma HitsKept(s: Store, h: History, c: Timed, windowMs: int, tenant: string)
    requires CountsHits(s, h, tenant, windowMs, c.now) && windowMs > 0 && SameWindow(c, tenant, windowMs)
    requires c.call.tenant == tenant ==> !Detaches(s, c, windowMs)
    ensures var (next, after, _) := Perform(s, h, c, windowMs); CountsHits(next, after, tenant, windowMs, c.now)
  {
    hide CountsHits, Pruned, Written, Detaches, CleanupDue;
    match c.call
    case Hit(other, otherMs, limit) =>
      if other == tenant {
        HitKept(s, h, tenant, windowMs, c.now, limit, windowMs);
      } else {
        OtherHitKept(s, h, c.now, other, otherMs, limit, windowMs, tenant);
      }
    case Acquire(other, limit) => AcquireKept(s, h, c.now, other, limit, windowMs, tenant);
    case Release(other) => ReleaseKept(s, h, c.now, other, windowMs, tenant);
  }

  lemma OtherHitKept(s: Store, h: History, now: int, other: string, otherMs: int, limit: int, windowMs: int, tenant: string)
    requires CountsHits(s, h, tenant, windowMs, now) && windowMs > 0 && other != tenant
    ensures var (next, r) := IncrementRate(s, now, other, otherMs, limit);
            CountsHits(next, if r.limited then h else h.(hits := h.hits + [(now, other)]), tenant, windowMs, now)
  {
    hide CountsHits, Pruned, Written;
    var ensured := Ensured(s, other, now, otherMs);
    var r := InWindow(ensured.states[other], now, otherMs);
    var after := if Refuses(limit, r.hits + 1) then r else r.(hits := r.hits + 1, windowMs := otherMs);
    EnsuredHits(s, h, other, windowMs, now, tenant, otherMs);
    PrunedHits(ensured, h, tenant, windowMs, now, otherMs);
    OtherWritten(Pruned(ensured, now, otherMs), h, tenant, windowMs, now, other, after);
    OtherHit(h, Written(Pruned(ensured, now, otherMs), other, after), tenant, other, windowMs, now, now);
  }

  lemma ConcurrentWritten(s: Store, h: History, tenant: string, windowMs: int, now: int, other: string, r: Record, n: nat)
    requires CountsHits(s, h, tenant, windowMs, now)
    requires other == tenant && tenant in s.states ==> r == s.states[tenant].(concurrent := n)
    ensures CountsHits(Written(s, other, r), h, tenant, windowMs, now)
  {
    hide HitsSince;
  }

  lemma SameHits(s: Store, h: History, after: History, tenant: string, windowMs: int, now: int)
    requires CountsHits(s, h, tenant, windowMs, now) && after.hits == h.hits
    ensures CountsHits(s, after, tenant, windowMs, now)
  {
  }

  lemma AcquireKept(s: Store, h: History, now: int, other: string, limit: int, windowMs: int, tenant: string)
    requires CountsHits(s, h, tenant, windowMs, now) && windowMs > 0
    ensures var (next, after, _) := Perform(s, h, Timed(now, Acquire(other, limit)), windowMs); CountsHits(next, after, tenant, windowMs, now)
  {
    hide CountsHits, Written;
    var ensured := Ensured(s, other, now, windowMs);
    var r := ensured.states[other];
    var after := if limit > 0 && r.concurrent >= limit then r else r.(concurrent := r.concurrent + 1);
    EnsuredHits(s, h, other, windowMs, now, tenant, windowMs);
    PrunedHits(ensured, h, tenant, windowMs, now, r.windowMs);
    PruneKeepsLive(ensured, now, r.windowMs, other);
    hide Pruned, CleanupDue;
    var pruned := Pruned(ensured, now, r.windowMs);
    ConcurrentWritten(pruned, h, tenant, windowMs, now, other, after, after.concurrent);
    SameHits(Written(pruned, other, after), h, Perform(s, h, Timed(now, Acquire(other, limit)), windowMs).1, tenant, windowMs, now);
  }

  lemma Removed(s: Store, h: History, tenant: string, windowMs: int, now: int, other: string)
    requires CountsHits(s, h, tenant, windowMs, now)
    requires tenant == other && tenant in s.states ==> Stale(s.states[tenant], now)
    ensures CountsHits(s.(states := s.states - {other}), h, tenant, windowMs, now)
  {
    if tenant == other && tenant in s.states {
      EarlierMore(h.hits, tenant, now, s.states[tenant].windowStart + windowMs);
    }
    hide HitsSince;
  }

  lemma ReleaseKept(s: Store, h: History, now: int, other: string, windowMs: int, tenant: string)
    requires CountsHits(s, h, tenant, windowMs, now) && windowMs > 0
    ensures var (next, after, _) := Perform(s, h, Timed(now, Release(other)), windowMs); CountsHits(next, after, tenant, windowMs, now)
  {
    hide CountsHits;
    var after := Perform(s, h, Timed(now, Release(other)), windowMs).1;
    if other in s.states {
      var was := s.states[other];
      var r := was.(concurrent := if was.concurrent > 0 then was.concurrent - 1 else 0);
      var written := Written(s, other, r);
      ConcurrentWritten(s, h, tenant, windowMs, now, other, r, r.concurrent);
      PrunedHits(written, h, tenant, windowMs, now, r.windowMs);
      PruneKeepsLive(written, now, r.windowMs, other);
      hide Pruned;
      var pruned := Pruned(written, now, r.windowMs);
      if Stale(r, now) {
        Removed(pruned, h, tenant, windowMs, now, other);
      }
    }
    SameHits(ReleaseConcurrent(s, now, other).0, h, after, tenant, windowMs, now);
  }

  predicate SameWindows(calls: seq<Timed>, tenant: string, windowMs: int) {
    forall i :: 0 <= i < |calls| ==> SameWindow(calls[i], tenant, windowMs)
  }

  lemma {:induction false} RunHits(calls: seq<Timed>, windowMs: int, tenant: string)
    requires ClockRuns(calls) && calls != [] && NothingDetached(calls, tenant, windowMs) && SameWindows(calls, tenant, windowMs) && windowMs > 0
    ensures var (s, h) := Run(calls, windowMs); CountsHits(s, h, tenant, windowMs, calls[|calls| - 1].now)
    decreases |calls|
  {
    hide Perform, NothingDetached, Detaches, CountsHits, SameWindow;
    var init, last := calls[..|calls| - 1], calls[|calls| - 1];
    KeptInit(calls, tenant, windowMs);
    var (s, h) := Run(init, windowMs);
    if init == [] {
      assert CountsHits(s, h, tenant, windowMs, last.now) by { NothingCounted(tenant, windowMs, last.now); }
    } else {
      RunHits(init, windowMs, tenant);
      LaterCounts(s, h, tenant, windowMs, init[|init| - 1].now, last.now);
    }
    assert SameWindow(calls[|calls| - 1], tenant, windowMs);
    HitsKept(s, h, last, windowMs, tenant);
  }

  lemma NothingCounted(tenant: string, windowMs: int, now: int)
    ensures CountsHits(EMPTY, History([], map[]), tenant, windowMs, now)
  {
  }

  /** After any run with a clock that does not go back, in which the tenant's windows last as long as the
      default one and none of its records was detached: a hit is refused exactly when a positive
      limit of hits was accepted since the window it falls into began. */
  lemma HitRefusedExactly(calls: seq<Timed>, now: int, tenant: string, limit: int, windowMs: int)
    requires var all := calls + [Timed(now, Hit(tenant, windowMs, limit))];
             ClockRuns(all) && NothingDetached(all, tenant, windowMs) && SameWindows(calls, tenant, windowMs) && windowMs > 0
    ensures var (s, h) := Run(calls, windowMs);
            && now - windowMs < WindowOf(s, tenant, windowMs, now)
            && (Perform(s, h, Timed(now, Hit(tenant, windowMs, limit)), windowMs).2 <==>
                  limit > 0 && HitsSince(h.hits, tenant, WindowOf(s, tenant, windowMs, now)) >= limit)
  {
    hide Run, NothingDetached, CountsHits, HitsSince, SameWindow, Detaches, IncrementRate;
    var c := Timed(now, Hit(tenant, windowMs, limit));
    var all := calls + [c];
    var (s, h) := Run(calls, windowMs);
    KeptInit(all, tenant, windowMs);
    assert all[..|calls|] == calls && all[|calls|] == c;
    if calls == [] {
      EmptyRun(windowMs);
      NothingCounted(tenant, windowMs, now);
    } else {
      assert forall i :: 0 <= i < |calls| ==> calls[i] == all[i];
      RunHits(calls, windowMs, tenant);
      assert all[|calls| - 1].now <= all[|calls|].now;
      LaterCounts(s, h, tenant, windowMs, calls[|calls| - 1].now, now);
    }
    HitKept(s, h, tenant, windowMs, now, limit, windowMs);
  }

  lemma EmptyRun(windowMs: int)
    ensures Run([], windowMs) == (EMPTY, History([], map[]))
  {
  }
}
