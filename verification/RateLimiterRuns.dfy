/**
  Runs of any number of workers over one counter table: the promises of
  `docs/api-rate-limits.md` as statements about every interleaving of checks,
  cache evictions, cleanups and storage failures.
 */
module RateLimiterRuns {
  import opened Prelude
  import opened RateLimiter

  datatype System = System(rows: Table, workers: seq<Worker>)

  /** One call of `check` on one worker, atomic at the instant it read the clock. */
  datatype Event = Event(worker: nat, now: Instant, budgets: seq<Budget>, reply: Reply)

  predicate Enabled(s: System, e: Event) {
    e.worker < |s.workers| && ReplyValid(s.rows, e.now, e.budgets, e.reply)
  }

  function Step(s: System, e: Event): (r: (System, Outcome))
    requires Enabled(s, e)
    ensures |r.0.workers| == |s.workers|
  {
    var c := Decide(s.rows, s.workers[e.worker], e.now, e.budgets, e.reply);
    (System(c.rows, s.workers[e.worker := c.worker]), c.outcome)
  }

  datatype Run = Run(states: seq<System>, events: seq<Event>, outcomes: seq<Outcome>) {
    /** Every state follows from the one before it. */
    predicate Valid() {
      && |states| == |events| + 1 && |outcomes| == |events|
      && forall i :: 0 <= i < |events| ==>
        Enabled(states[i], events[i]) && Step(states[i], events[i]) == (states[i + 1], outcomes[i])
    }

    /** The table starts empty and so do the caches; sizes are arbitrary. */
    predicate Fresh() {
      |states| > 0 && states[0].rows == map[] && forall w :: w in states[0].workers ==> w.blocked == []
    }
  }

  /** The step taken at position `i` of a run. */
  lemma At(r: Run, i: nat)
    requires r.Valid() && i < |r.events|
    ensures Enabled(r.states[i], r.events[i])
    ensures Step(r.states[i], r.events[i]).0 == r.states[i + 1]
    ensures Step(r.states[i], r.events[i]).1 == r.outcomes[i]
  {
    assert Step(r.states[i], r.events[i]) == (r.states[i + 1], r.outcomes[i]);
  }

  /** Every cache is empty and has no room: the limiter without its cache. */
  predicate Uncached(s: System) {
    forall w :: w in s.workers ==> w.cacheSize == 0 && w.blocked == []
  }

  predicate Touches(e: Event, k: Key) {
    Window(e.now) == k.window && k.name in Names(e.budgets)
  }

  /** The outcome left one attempt per budget in the table. */
  predicate Counted(o: Outcome) {
    match o
    case Admitted => true
    case Refused(_, cached) => !cached
    case Unavailable(committed) => committed
  }

  function Requests(r: Run, k: Key, n: nat): nat
    requires n <= |r.events|
  {
    if n == 0 then 0 else Requests(r, k, n - 1) + if Touches(r.events[n - 1], k) then 1 else 0
  }

  function Commits(r: Run, k: Key, n: nat): nat
    requires n <= |r.events| && |r.outcomes| == |r.events|
  {
    if n == 0 then 0
    else Commits(r, k, n - 1) + if Touches(r.events[n - 1], k) && Counted(r.outcomes[n - 1]) then 1 else 0
  }

  function Admissions(r: Run, k: Key, n: nat): nat
    requires n <= |r.events| && |r.outcomes| == |r.events|
  {
    if n == 0 then 0
    else Admissions(r, k, n - 1) + if Touches(r.events[n - 1], k) && r.outcomes[n - 1] == Admitted then 1 else 0
  }

  /** No check of the first `n` has seen a clock past the end of window `w`. */
  predicate Open(r: Run, n: nat, w: int)
    requires n <= |r.events|
  {
    forall i :: 0 <= i < n ==> r.events[i].now <= EndOf(w) as real
  }

  /**
    The clock discipline the limiter needs: a check never runs after another one
    has seen a time past the end of its window.  Clocks may disagree within a window.
   */
  predicate Orderly(r: Run) {
    forall i, j :: 0 <= i < j < |r.events| ==>
      r.events[i].now <= EndOf(Window(r.events[j].now)) as real
  }

  /** The part of it that concerns check `i`: nobody before it has seen a time past the end of its window. */
  predicate OnTime(r: Run, i: nat)
    requires i < |r.events|
  {
    Open(r, i, Window(r.events[i].now))
  }

  /** The part of it that concerns budget `k`, whatever happens around the checks of other budgets and windows. */
  predicate OrderlyFor(r: Run, k: Key) {
    forall i :: 0 <= i < |r.events| && Touches(r.events[i], k) ==> OnTime(r, i)
  }

  predicate Monotone(r: Run) {
    forall i, j :: 0 <= i < j < |r.events| ==> r.events[i].now <= r.events[j].now
  }

  /** Synchronised clocks are one way to be orderly. */
  lemma MonotoneIsOrderly(r: Run)
    requires Monotone(r)
    ensures Orderly(r)
  {
    forall i, j | 0 <= i < j < |r.events|
      ensures r.events[i].now <= EndOf(Window(r.events[j].now)) as real
    {
      var now := r.events[j].now;
      assert now < (now.Floor + 1) as real <= EndOf(Window(now)) as real;
    }
  }

  /** An orderly run is orderly for every budget. */
  lemma OrderlyIsOnTime(r: Run, k: Key)
    requires Orderly(r)
    ensures OrderlyFor(r, k)
    ensures forall i :: 0 <= i < |r.events| ==> OnTime(r, i)
  {
    forall i | 0 <= i < |r.events| ensures OnTime(r, i) {
      var now := r.events[i].now;
      assert forall j :: 0 <= j < i ==> r.events[j].now <= EndOf(Window(now)) as real;
    }
  }

  /* ---- what one step does to one counter ---- */

  /** Rows expire with their window and stay between one attempt and the saturation value. */
  predicate RowsValid(rows: Table) {
    forall k :: k in rows ==>
      rows[k].expiresAt == EndOf(k.window) && 1 <= rows[k].attempts <= SATURATION + 1
  }

  lemma StepRows(s: System, e: Event)
    requires Enabled(s, e) && RowsValid(s.rows)
    ensures RowsValid(Step(s, e).0.rows)
  {
    hide CleanupChoice, FirstLive, Exceeded, Remember, RetryAfter, Touch, KeysOf;
  }

  /** A cleanup spares every row that has not expired. */
  lemma CleanupSparesOpen(rows: Table, e: Event, k: Key)
    requires ReplyValid(rows, e.now, e.budgets, e.reply) && RowsValid(rows)
    requires e.now <= EndOf(k.window) as real
    ensures k !in e.reply.deleted
  {
    var counted := Upsert(rows, Elements(KeysOf(Window(e.now), e.budgets)), EndOf(Window(e.now)));
    assert k in counted ==> counted[k].expiresAt == EndOf(k.window);
  }

  /**
    A counter whose window is still open changes exactly when the step counts it:
    no other step, cleanup or failure touches it.
   */
  lemma StepCounter(s: System, e: Event, k: Key)
    requires Enabled(s, e) && RowsValid(s.rows)
    requires e.now <= EndOf(k.window) as real
    ensures Attempts(Step(s, e).0.rows, k) ==
            if Touches(e, k) && Counted(Step(s, e).1) then Min(Attempts(s.rows, k), SATURATION) + 1
            else Attempts(s.rows, k)
  {
    hide CleanupChoice, FirstLive, Exceeded, Remember, RetryAfter, Touch, Upsert, KeysOf;
    CleanupSparesOpen(s.rows, e, k);
  }

  /**
    Only storage failures make a check unavailable; only a cached rejection answers
    without asking the store; an empty cache of size zero stays empty.
   */
  lemma StepFault(s: System, e: Event)
    requires Enabled(s, e)
    ensures Step(s, e).1.Unavailable? ==> e.reply.fault != NoFault
    ensures Step(s, e).1 == Admitted ==> e.reply.fault == NoFault
    ensures Counted(Step(s, e).1) ==> e.reply.fault == NoFault || e.reply.fault == AfterCommit
    ensures Uncached(s) && (e.reply.fault == NoFault || e.reply.fault == AfterCommit) ==> Counted(Step(s, e).1)
    ensures Uncached(s) ==> Uncached(Step(s, e).0)
  {
    hide CleanupChoice, Exceeded, RetryAfter, Touch, Upsert, KeysOf, LimitOf, Names, Drop;
    var w := s.workers[e.worker];
    assert w in s.workers;
    var s' := Step(s, e).0;
    if Uncached(s) {
      assert FirstLive([], KeysOf(Window(e.now), e.budgets), e.budgets, e.now).None?;
      forall x | x in s'.workers ensures x.cacheSize == 0 && x.blocked == [] {
        assert x == s'.workers[e.worker] || x in s.workers;
      }
    }
  }

  lemma {:induction false} RowsStayValid(r: Run, n: nat)
    requires r.Valid() && r.Fresh() && n <= |r.events|
    ensures RowsValid(r.states[n].rows)
  {
    hide Step, Enabled, Names, LimitOf;
    if n > 0 {
      RowsStayValid(r, n - 1);
      At(r, n - 1);
      StepRows(r.states[n - 1], r.events[n - 1]);
    }
  }

  /** While its window is open, a stored counter is the exact number of committed attempts, saturated. */
  lemma {:induction false} CounterIsExact(r: Run, n: nat, k: Key)
    requires r.Valid() && r.Fresh() && n <= |r.events| && Open(r, n, k.window)
    ensures Attempts(r.states[n].rows, k) == Min(Commits(r, k, n), 1_000_001)
  {
    hide Step, Enabled, Names, LimitOf;
    if n > 0 {
      CounterIsExact(r, n - 1, k);
      RowsStayValid(r, n - 1);
      At(r, n - 1);
      StepCounter(r.states[n - 1], r.events[n - 1], k);
    }
  }

  /* ---- what one step does to a cache ---- */

  /** An entry of the new cache was there before, or was put there by a committed count above its limit. */
  lemma StepBlocks(s: System, e: Event, w: nat, b: Block)
    requires Enabled(s, e) && w < |s.workers|
    requires b in Step(s, e).0.workers[w].blocked
    ensures b in s.workers[w].blocked ||
      (&& Touches(e, b.key) && Step(s, e).1.Refused? && Counted(Step(s, e).1)
       && b.until == EndOf(b.key.window)
       && b.limit < Min(Attempts(s.rows, b.key), SATURATION) + 1)
  {
    hide CleanupChoice, FirstLive, Exceeded, RetryAfter, Upsert, KeysOf, LimitOf, Names, Drop;
    var old_ := s.workers[e.worker];
    var keys := KeysOf(Window(e.now), e.budgets);
    var hit := FirstLive(old_.blocked, keys, e.budgets, e.now);
    if w == e.worker && b !in old_.blocked && hit.None? {
      var counted := Upsert(s.rows, Elements(keys), EndOf(Window(e.now)));
      var over := Exceeded(e.reply.returned, e.budgets, counted);
      assert over != [] ==>
        b in Drop(old_.blocked, Pairs(over, e.budgets)) + NewBlocks(over, e.budgets, EndOf(Window(e.now)));
      assert b in NewBlocks(over, e.budgets, EndOf(Window(e.now)));
      assert b.key in over && b.key in e.reply.returned && b.key in Elements(keys);
    }
  }

  /** Every cached rejection is backed by a committed count above its limit. */
  lemma {:induction false} BlocksAreBacked(r: Run, n: nat, w: nat, b: Block)
    requires r.Valid() && r.Fresh() && n <= |r.events|
    requires w < |r.states[n].workers| && b in r.states[n].workers[w].blocked
    ensures b.until == EndOf(b.key.window)
    ensures Open(r, n, b.key.window) ==> b.limit < Min(Commits(r, b.key, n), SATURATION + 1)
  {
    hide Step, Enabled, Names, LimitOf;
    if n > 0 {
      At(r, n - 1);
      StepBlocks(r.states[n - 1], r.events[n - 1], w, b);
      if b in r.states[n - 1].workers[w].blocked {
        BlocksAreBacked(r, n - 1, w, b);
      } else if Open(r, n - 1, b.key.window) {
        CounterIsExact(r, n - 1, b.key);
      }
    }
  }

  /* ---- the promises ---- */

  /** The table this check compared with the limits, when it reached the store. */
  lemma CountsMeaning(r: Run, i: nat, k: Key)
    requires r.Valid() && r.Fresh() && i < |r.events| && OnTime(r, i) && Touches(r.events[i], k)
    ensures
      var e := r.events[i];
      var keys := Elements(KeysOf(Window(e.now), e.budgets));
      var counted := Upsert(r.states[i].rows, keys, EndOf(Window(e.now)));
      && k in keys && k in e.reply.returned
      && counted[k].attempts == Min(Commits(r, k, i), SATURATION) + 1
  {
    hide Step, CleanupChoice, Names, LimitOf;
    At(r, i);
    var e := r.events[i];
    assert k in Elements(KeysOf(Window(e.now), e.budgets));
    assert k in Elements(e.reply.returned);
    CounterIsExact(r, i, k);
  }

  /** Whoever is admitted found every budget of the request within its limit. */
  lemma AdmittedMeaning(r: Run, i: nat, k: Key)
    requires r.Valid() && r.Fresh() && i < |r.events| && OnTime(r, i)
    requires r.outcomes[i] == Admitted && Touches(r.events[i], k)
    ensures Min(Commits(r, k, i), SATURATION) + 1 <= LimitOf(r.events[i].budgets, k.name)
  {
    hide CleanupChoice, Exceeded, FirstLive, RetryAfter, Remember, Touch, Upsert, KeysOf, LimitOf, Names, Commits;
    CountsMeaning(r, i, k);
    At(r, i);
  }

  /** Which branch of the check refused. */
  lemma RefusedShape(s: System, e: Event)
    requires Enabled(s, e)
    ensures
      var keys := KeysOf(Window(e.now), e.budgets);
      Step(s, e).1.Refused? ==>
        && Step(s, e).1.cached == FirstLive(s.workers[e.worker].blocked, keys, e.budgets, e.now).Some?
        && (Step(s, e).1.cached ||
            Exceeded(e.reply.returned, e.budgets, Upsert(s.rows, Elements(keys), EndOf(Window(e.now)))) != [])
  {
    hide CleanupChoice, Exceeded, FirstLive, RetryAfter, Remember, Touch, Upsert, KeysOf, LimitOf, Names;
  }

  /** Whoever is refused met a budget whose committed count is above its limit. */
  lemma RefusedMeaning(r: Run, i: nat) returns (k: Key)
    requires r.Valid() && r.Fresh() && i < |r.events| && OnTime(r, i) && r.outcomes[i].Refused?
    ensures Touches(r.events[i], k)
    ensures r.outcomes[i].cached ==>
      LimitOf(r.events[i].budgets, k.name) < Min(Commits(r, k, i), SATURATION + 1)
    ensures !r.outcomes[i].cached ==>
      LimitOf(r.events[i].budgets, k.name) < Min(Commits(r, k, i), SATURATION) + 1
  {
    hide CleanupChoice, Exceeded, FirstLive, RetryAfter, Remember, Touch, Upsert, LimitOf, Names, Commits, Step;
    var s, e := r.states[i], r.events[i];
    At(r, i);
    var keys := KeysOf(Window(e.now), e.budgets);
    var hit := FirstLive(s.workers[e.worker].blocked, keys, e.budgets, e.now);
    if hit.Some? {
      k := hit.value.key;
      BlocksAreBacked(r, i, e.worker, hit.value);
      RefusedShape(s, e);
    } else {
      RefusedShape(s, e);
      var counted := Upsert(s.rows, Elements(keys), EndOf(Window(e.now)));
      k := Exceeded(e.reply.returned, e.budgets, counted)[0];
      assert k in Exceeded(e.reply.returned, e.budgets, counted);
      assert k in Elements(e.reply.returned);
      CountsMeaning(r, i, k);
    }
  }

  lemma {:induction false} AdmissionsAreCommits(r: Run, k: Key, n: nat)
    requires r.Valid() && n <= |r.events|
    ensures Admissions(r, k, n) <= Commits(r, k, n) <= Requests(r, k, n)
  {
    hide Step, Enabled, Names, LimitOf;
    if n > 0 { AdmissionsAreCommits(r, k, n - 1); }
  }

  /**
    Main result: whatever the number of workers, their cache sizes, the interleaving,
    the evictions, the cleanups and the failures, the requests admitted under one
    budget in one window never exceed the limit; clocks matter only around its own checks.
   */
  lemma {:induction false} AdmissionsBounded(r: Run, k: Key, limit: nat, n: nat)
    requires r.Valid() && r.Fresh() && OrderlyFor(r, k) && n <= |r.events|
    requires limit <= 1_000_000
    requires forall e :: e in r.events && Touches(e, k) ==> LimitOf(e.budgets, k.name) <= limit
    ensures Admissions(r, k, n) <= limit
  {
    hide Step, Enabled, Names, LimitOf, OnTime, Touches, Commits;
    if n > 0 {
      AdmissionsBounded(r, k, limit, n - 1);
      var e := r.events[n - 1];
      if Touches(e, k) && r.outcomes[n - 1] == Admitted {
        AdmittedMeaning(r, n - 1, k);
        AdmissionsAreCommits(r, k, n - 1);
        assert e in r.events;
      }
    }
  }

  /** The bound on the limit is sharp: past the saturation value a limit refuses nothing, ever. */
  lemma SaturatedLimitNeverRefuses(r: Run, i: nat)
    requires r.Valid() && r.Fresh() && i < |r.events| && OnTime(r, i)
    requires forall k :: Touches(r.events[i], k) ==> 1_000_000 < LimitOf(r.events[i].budgets, k.name)
    ensures !r.outcomes[i].Refused?
  {
    hide Step, Enabled, Names, LimitOf;
    if r.outcomes[i].Refused? {
      var k := RefusedMeaning(r, i);
    }
  }

  /** A refusal is never premature: some budget of the request had more committed attempts than its limit. */
  lemma RefusalIsBacked(r: Run, i: nat) returns (k: Key)
    requires r.Valid() && r.Fresh() && i < |r.events| && OnTime(r, i) && r.outcomes[i].Refused?
    ensures Touches(r.events[i], k)
    ensures LimitOf(r.events[i].budgets, k.name) < Commits(r, k, i + 1)
    ensures r.outcomes[i].cached ==> Commits(r, k, i + 1) == Commits(r, k, i)
  {
    hide Step, Enabled, Names, LimitOf;
    k := RefusedMeaning(r, i);
  }

  lemma SingleLimit(e: Event, k: Key, limit: nat)
    requires e.budgets == [Budget(k.name, limit)] && Touches(e, k)
    ensures LimitOf(e.budgets, k.name) == limit
    ensures forall j :: Touches(e, j) ==> j == k
  {
    assert Names(e.budgets[..0]) == [];
  }

  lemma SingleBudgetStep(r: Run, k: Key, limit: nat, i: nat)
    requires r.Valid() && r.Fresh() && i < |r.events| && OnTime(r, i)
    requires limit <= 1_000_000 && Touches(r.events[i], k)
    requires r.events[i].budgets == [Budget(k.name, limit)] && r.events[i].reply.fault == NoFault
    ensures match r.outcomes[i]
      case Admitted => Commits(r, k, i) < limit
      case Refused(_, cached) => if cached then limit < Commits(r, k, i) else limit <= Commits(r, k, i)
      case Unavailable(_) => false
  {
    hide Step, Enabled, Names, LimitOf;
    At(r, i);
    StepFault(r.states[i], r.events[i]);
    SingleLimit(r.events[i], k, limit);
    if r.outcomes[i] == Admitted {
      AdmittedMeaning(r, i, k);
    } else {
      var j := RefusedMeaning(r, i);
      assert j == k;
    }
  }

  /**
    With one budget and a working store the limiter is exact: it admits the first
    `limit` requests of the window and refuses all the others.
   */
  lemma {:induction false} SingleBudgetIsExact(r: Run, k: Key, limit: nat, n: nat)
    requires r.Valid() && r.Fresh() && OrderlyFor(r, k) && n <= |r.events|
    requires limit <= 1_000_000
    requires forall e :: e in r.events && Touches(e, k) ==>
      e.budgets == [Budget(k.name, limit)] && e.reply.fault == NoFault
    ensures Admissions(r, k, n) == Min(Requests(r, k, n), limit)
    ensures Admissions(r, k, n) == Min(Commits(r, k, n), limit)
  {
    hide Step, Enabled, Names, LimitOf, Touches, OnTime;
    if n > 0 {
      SingleBudgetIsExact(r, k, limit, n - 1);
      AdmissionsAreCommits(r, k, n - 1);
      assert r.events[n - 1] in r.events;
      if Touches(r.events[n - 1], k) { SingleBudgetStep(r, k, limit, n - 1); }
    }
  }

  /* ---- the cache only saves work ---- */

  /** The same requests meeting the same failures; the database may order and clean differently. */
  predicate SameRequests(a: Run, b: Run) {
    && |a.events| == |b.events|
    && forall i :: 0 <= i < |a.events| ==>
      && a.events[i].worker == b.events[i].worker && a.events[i].now == b.events[i].now
      && a.events[i].budgets == b.events[i].budgets
      && a.events[i].reply.fault == b.events[i].reply.fault
  }

  /** `blocked_cache_size = 0` switches the cache off for good. */
  lemma {:induction false} StaysUncached(r: Run, n: nat)
    requires r.Valid() && n <= |r.events| && Uncached(r.states[0])
    ensures Uncached(r.states[n])
  {
    hide Step, Enabled, Names, LimitOf;
    if n > 0 {
      StaysUncached(r, n - 1);
      At(r, n - 1);
      StepFault(r.states[n - 1], r.events[n - 1]);
    }
  }

  /** The cached limiter never commits more attempts than the uncached one. */
  lemma {:induction false} CachedCommitsFewer(cached: Run, plain: Run, k: Key, n: nat)
    requires cached.Valid() && plain.Valid() && SameRequests(cached, plain)
    requires Uncached(plain.states[0]) && n <= |cached.events|
    ensures Commits(cached, k, n) <= Commits(plain, k, n)
  {
    hide Step, Enabled, Names, LimitOf;
    if n > 0 {
      CachedCommitsFewer(cached, plain, k, n - 1);
      StaysUncached(plain, n - 1);
      At(plain, n - 1);
      At(cached, n - 1);
      StepFault(plain.states[n - 1], plain.events[n - 1]);
      StepFault(cached.states[n - 1], cached.events[n - 1]);
      assert Touches(plain.events[n - 1], k) == Touches(cached.events[n - 1], k);
    }
  }

  /**
    Main result: on the same trace of requests the cached counters stay at or below
    the uncached ones, and whatever the uncached limiter admits the cached one admits.
   */
  lemma CacheSimulation(cached: Run, plain: Run, i: nat)
    requires cached.Valid() && cached.Fresh() && plain.Valid() && plain.Fresh()
    requires SameRequests(cached, plain) && Uncached(plain.states[0])
    requires i < |cached.events|
    ensures forall k: Key :: Open(cached, i, k.window) ==>
      Attempts(cached.states[i].rows, k) <= Attempts(plain.states[i].rows, k)
    ensures OnTime(cached, i) && plain.outcomes[i] == Admitted ==> cached.outcomes[i] == Admitted
  {
    hide Step, Enabled, Names, LimitOf;
    assert OnTime(cached, i) ==> OnTime(plain, i);
    forall k: Key | Open(cached, i, k.window)
      ensures Attempts(cached.states[i].rows, k) <= Attempts(plain.states[i].rows, k)
    {
      assert Open(plain, i, k.window);
      CounterIsExact(cached, i, k);
      CounterIsExact(plain, i, k);
      CachedCommitsFewer(cached, plain, k, i);
    }
    if OnTime(cached, i) && plain.outcomes[i] == Admitted && cached.outcomes[i] != Admitted {
      At(plain, i);
      At(cached, i);
      StepFault(plain.states[i], plain.events[i]);
      StepFault(cached.states[i], cached.events[i]);
      var k := RefusedMeaning(cached, i);
      CachedCommitsFewer(cached, plain, k, i);
      AdmittedMeaning(plain, i, k);
    }
  }

  /* ---- why the clock discipline is needed ---- */

  lemma CleanAll(rows: Table, now: Instant, deleted: set<Key>)
    requires deleted == set k | k in rows && rows[k].expiresAt as real < now
    requires |deleted| <= CLEANUP_BATCH
    ensures CleanupChoice(rows, now, {}, deleted)
  {
    var locked: set<Key> := {};
    assert deleted == set k | k in rows && rows[k].expiresAt as real < now && k !in locked;
  }

  lemma OneBudgetFacts(rows: Table, now: Instant)
    requires Key(Window(now), "a") !in rows
    ensures
      var k := Key(Window(now), "a");
      var budgets := [Budget("a", 1)];
      var counted := rows[k := Row(1, EndOf(k.window))];
      && Names(budgets) == ["a"] && LimitOf(budgets, "a") == 1
      && Elements(KeysOf(Window(now), budgets)) == {k} == Elements([k])
      && Upsert(rows, {k}, EndOf(k.window)) == counted
      && Exceeded([k], budgets, counted) == []
      && now < EndOf(k.window) as real
  {
    var k := Key(Window(now), "a");
    var budgets := [Budget("a", 1)];
    assert Names(budgets[..0]) == [];
    assert [k][..0] == [];
    assert now < (now.Floor + 1) as real <= EndOf(k.window) as real;
  }

  lemma OneBudgetStep(s: System, w: nat, now: Instant, deleted: set<Key>, s': System)
    requires w < |s.workers| && s.workers[w].blocked == []
    requires Key(Window(now), "a") !in s.rows
    requires deleted == set k | k in s.rows && s.rows[k].expiresAt as real < now
    requires |deleted| <= 1
    requires
      var k := Key(Window(now), "a");
      var x := s.workers[w];
      var cleans := x.nextCleanup <= now;
      && s'.rows == (s.rows[k := Row(1, EndOf(k.window))]) - (if cleans then deleted else {})
      && s'.workers == s.workers[w := x.(nextCleanup := if cleans then now + 60.0 else x.nextCleanup)]
    ensures
      var k := Key(Window(now), "a");
      var e := Event(w, now, [Budget("a", 1)], Reply([k], {}, deleted, NoFault));
      && Enabled(s, e) && Touches(e, k)
      && Step(s, e) == (s', Admitted)
  {
    hide CleanupChoice, RetryAfter, Touch, Drop, Names, LimitOf, Exceeded, Elements, Upsert;
    var k := Key(Window(now), "a");
    var budgets := [Budget("a", 1)];
    var counted := Upsert(s.rows, {k}, EndOf(k.window));
    OneBudgetFacts(s.rows, now);
    CleanAll(counted, now, deleted);
    assert FirstLive([], KeysOf(Window(now), budgets), budgets, now).None?;
    var e := Event(w, now, budgets, Reply([k], {}, deleted, NoFault));
    assert ReplyValid(s.rows, now, budgets, e.reply);
    assert Touches(e, k);
    var c := Decide(s.rows, s.workers[w], now, budgets, e.reply);
    assert c.outcome == Admitted;
    assert c.rows == s'.rows;
    assert c.worker == s'.workers[w];
    assert s.workers[w := c.worker] == s'.workers;
  }

  lemma CountTwo(r: Run, k: Key)
    requires |r.events| == |r.outcomes| == 3
    requires forall i :: 0 <= i < 3 ==> r.outcomes[i] == Admitted
    requires Touches(r.events[0], k) && Touches(r.events[2], k) && !Touches(r.events[1], k)
    ensures Admissions(r, k, |r.events|) == 2
  {
    assert Admissions(r, k, 1) == 1;
    assert Admissions(r, k, 2) == 1;
  }

  /**
    The clock discipline is needed at every instant: whenever a check that read its
    clock at `early` may run after a check that read `late`, past the end of the early
    window, there is a run in which a budget of one admits two requests of one window.
    The late check cleaned the counter away and the early one restarts it.
   */
  lemma LateCheckRestartsTheCount(early: Instant, late: Instant) returns (r: Run)
    requires EndOf(Window(early)) as real < late
    ensures r.Valid() && r.Fresh()
    ensures |r.events| == 3 && r.events[1].now == late && r.events[0].now == r.events[2].now == early
    ensures forall e :: e in r.events ==> e.budgets == [Budget("a", 1)]
    ensures Admissions(r, Key(Window(early), "a"), |r.events|) == 2
  {
    hide Enabled, Step, Admissions, Names;
    var idle := Worker(0, 0.0, []);
    var first, second := Worker(0, early + 60.0, []), Worker(0, late + 60.0, []);
    var k0, k1 := Key(Window(early), "a"), Key(Window(late), "a");
    var row0, row1 := Row(1, EndOf(Window(early))), Row(1, EndOf(Window(late)));
    var budgets := [Budget("a", 1)];
    assert EndOf(Window(early)) <= late.Floor;
    assert early < (early.Floor + 1) as real <= EndOf(Window(early)) as real;
    var e0 := Event(0, early, budgets, Reply([k0], {}, {}, NoFault));
    var e1 := Event(1, late, budgets, Reply([k1], {}, {k0}, NoFault));
    var s0 := System(map[], [idle, idle]);
    var s1 := System(map[k0 := row0], [first, idle]);
    var s2 := System(map[k1 := row1], [first, second]);
    var s3 := System(map[k1 := row1, k0 := row0], [first, second]);
    OneBudgetStep(s0, 0, early, {}, s1);
    OneBudgetStep(s1, 1, late, {k0}, s2);
    OneBudgetStep(s2, 0, early, {}, s3);
    r := Run([s0, s1, s2, s3], [e0, e1, e0], [Admitted, Admitted, Admitted]);
    forall i | 0 <= i < 3
      ensures Enabled(r.states[i], r.events[i])
      ensures Step(r.states[i], r.events[i]) == (r.states[i + 1], r.outcomes[i])
    {
      if i == 0 {} else if i == 1 {} else {}
    }
    CountTwo(r, k0);
  }
}
