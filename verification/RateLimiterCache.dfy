/**
  Which rejections a worker forgets: over every run the cache stays within its size, and an
  entry is only evicted after as many others have been used since it was.
 */
module RateLimiterCache {
  import opened Prelude
  import opened RateLimiter
  import opened RateLimiterRuns
  import opened RateLimiterAnswers

  type Pair = (Key, int)

  function PairOf(b: Block): Pair { (b.key, b.limit) }

  /* ---- what a check uses ---- */

  /** The cached rejection answers this request: one of its budgets, at its limit, still in force. */
  predicate Answers(b: Block, e: Event) {
    Touches(e, b.key) && b.limit == LimitOf(e.budgets, b.key.name) && e.now < b.until as real
  }

  /** In the budgets, name `x` comes up before name `y`. */
  predicate ComesFirst(budgets: seq<Budget>, x: string, y: string) {
    exists i :: 0 <= i < |budgets| && budgets[i].name == x && forall j :: 0 <= j <= i ==> budgets[j].name != y
  }

  /** Of the cached rejections that answer the request, the one of the budget that comes up first. */
  predicate IsHit(blocked: Blocks, e: Event, b: Block) {
    && b in blocked && Answers(b, e)
    && forall c :: c in blocked && Answers(c, e) ==> c == b || ComesFirst(e.budgets, b.key.name, c.key.name)
  }

  /** With one attempt more, the counter of a budget passes its limit. */
  predicate Exceeds(rows: Table, e: Event, k: Key)
    requires k.name in Names(e.budgets)
  {
    LimitOf(e.budgets, k.name) < Min(Attempts(rows, k), 1_000_000) + 1
  }

  /** The rejections a refused check uses: the one that answered it, or all those the store confirmed. */
  function UsedBy(s: System, e: Event): set<Pair>
    requires Enabled(s, e)
  {
    match Step(s, e).1
    case Refused(_, cached) =>
      if cached then set b | b in s.workers[e.worker].blocked && IsHit(s.workers[e.worker].blocked, e, b) :: PairOf(b)
      else
        set k | k in KeysOf(Window(e.now), e.budgets) && Exceeds(s.rows, e, k) :: (k, LimitOf(e.budgets, k.name))
    case _ => {}
  }

  /** The rejections check `i` of a run used. */
  function UsedAt(r: Run, i: nat): set<Pair>
    requires r.Valid() && i < |r.events|
  {
    At(r, i);
    UsedBy(r.states[i], r.events[i])
  }

  /** The rejections a worker used from check `i` on. */
  function UsedSince(r: Run, w: nat, i: nat, n: nat): set<Pair>
    requires r.Valid() && i <= n <= |r.events|
  {
    if i == n then {}
    else UsedSince(r, w, i, n - 1) + if r.events[n - 1].worker == w then UsedAt(r, n - 1) else {}
  }

  /* ---- the hit of a cached answer ---- */

  lemma FirstInBudgets(budgets: seq<Budget>, x: string, y: string)
    requires budgets != [] && ComesFirst(budgets[..|budgets| - 1], x, y)
    ensures ComesFirst(budgets, x, y)
  {
    var shorter := budgets[..|budgets| - 1];
    var i :| 0 <= i < |shorter| && shorter[i].name == x && forall j :: 0 <= j <= i ==> shorter[j].name != y;
    assert forall j :: 0 <= j <= i ==> budgets[j] == shorter[j];
  }

  /** The dictionary of limits is gone through in the order in which the names come up. */
  lemma LastComesLast(budgets: seq<Budget>, x: string, y: string)
    requires x in Names(budgets) && y !in Names(budgets)
    ensures ComesFirst(budgets, x, y)
  {
    var b :| b in budgets && b.name == x;
    var i :| 0 <= i < |budgets| && budgets[i] == b;
    forall j | 0 <= j <= i ensures budgets[j].name != y { assert budgets[j] in budgets; }
    hide Names;
  }

  /** The dictionary of limits is gone through in the order in which the names come up. */
  lemma {:induction false} NamesInOrder(budgets: seq<Budget>, m: nat, n: nat)
    requires m < n < |Names(budgets)|
    ensures ComesFirst(budgets, Names(budgets)[m], Names(budgets)[n])
  {
    hide ComesFirst;
    var shorter := budgets[..|budgets| - 1];
    var x, y := Names(budgets)[m], Names(budgets)[n];
    if n < |Names(shorter)| {
      NamesInOrder(shorter, m, n);
    } else {
      LastComesLast(shorter, x, y);
    }
    FirstInBudgets(budgets, x, y);
  }

  lemma KeysInOrder(window: int, budgets: seq<Budget>, m: nat, n: nat)
    requires m < n < |KeysOf(window, budgets)|
    ensures ComesFirst(budgets, KeysOf(window, budgets)[m].name, KeysOf(window, budgets)[n].name)
  {
    NamesInOrder(budgets, m, n);
    hide Names;
  }

  /** The rejection in force for a key at its limit, if it is cached. */
  predicate InForce(blocked: Blocks, k: Key, limit: int, now: Instant) {
    exists b :: b in blocked && b.key == k && b.limit == limit && now < b.until as real
  }

  lemma SameBlock(blocked: Blocks, a: Block, b: Block)
    requires CacheValid(blocked) && a in blocked && b in blocked && PairOf(a) == PairOf(b)
    ensures a == b
  {
  }

  lemma {:induction false} FirstLiveIsFirst(blocked: Blocks, keys: seq<Key>, budgets: seq<Budget>, now: Instant)
    returns (m: nat)
    requires CacheValid(blocked) && forall k :: k in keys ==> k.name in Names(budgets)
    requires FirstLive(blocked, keys, budgets, now).Some?
    ensures m < |keys| && keys[m] == FirstLive(blocked, keys, budgets, now).value.key
    ensures forall q :: 0 <= q < m ==> !InForce(blocked, keys[q], LimitOf(budgets, keys[q].name), now)
  {
    hide LimitOf, Names;
    var limit := LimitOf(budgets, keys[0].name);
    var hit := Lookup(blocked, keys[0], limit);
    if hit.Some? && now < hit.value.until as real {
      m := 0;
    } else {
      m := FirstLiveIsFirst(blocked, keys[1..], budgets, now);
      m := m + 1;
      forall b | b in blocked && b.key == keys[0] && b.limit == limit ensures b.until as real <= now {
        SameBlock(blocked, b, hit.value);
      }
      forall q | 0 <= q < m ensures !InForce(blocked, keys[q], LimitOf(budgets, keys[q].name), now) {
        if q > 0 { assert keys[1..][q - 1] == keys[q]; }
      }
    }
  }

  lemma OneFirst(budgets: seq<Budget>, x: string, y: string)
    ensures !(ComesFirst(budgets, x, y) && ComesFirst(budgets, y, x))
  {
  }

  /** The rejection that answers is the hit, and the only one. */
  lemma HitIs(s: System, e: Event, b: Block)
    requires Enabled(s, e) && CacheValid(s.workers[e.worker].blocked)
    requires FirstLive(s.workers[e.worker].blocked, KeysOf(Window(e.now), e.budgets), e.budgets, e.now) == Some(b)
    ensures UsedBy(s, e) == {PairOf(b)}
  {
    hide Names, LimitOf, KeysOf, CleanupChoice, ComesFirst, RetryAfter, Touch, Upsert, Exceeded, Remember;
    var blocked := s.workers[e.worker].blocked;
    var keys := KeysOf(Window(e.now), e.budgets);
    var m := FirstLiveIsFirst(blocked, keys, e.budgets, e.now);
    forall c | c in blocked && Answers(c, e) ensures c == b || ComesFirst(e.budgets, b.key.name, c.key.name) {
      assert c.key in keys;
      var q :| 0 <= q < |keys| && keys[q] == c.key;
      assert InForce(blocked, keys[q], LimitOf(e.budgets, keys[q].name), e.now);
      if q == m { SameBlock(blocked, b, c); } else { KeysInOrder(Window(e.now), e.budgets, m, q); }
    }
    assert IsHit(blocked, e, b);
    forall c | IsHit(blocked, e, c) ensures c == b { OneFirst(e.budgets, b.key.name, c.key.name); }
  }

  /* ---- what a step does to a cache ---- */

  predicate CacheOk(w: Worker) { CacheValid(w.blocked) && |w.blocked| <= w.cacheSize }

  /** The entries used come last, in a cache that is then cut to its size. */
  predicate Pushed(before: Blocks, used: set<Pair>, recent: Blocks, size: nat, after: Blocks) {
    && (forall b :: b in recent ==> PairOf(b) in used)
    && (forall x :: x in used ==> exists b :: b in recent && PairOf(b) == x)
    && CacheValid(Drop(before, used) + recent)
    && after == Trim(Drop(before, used) + recent, size)
  }

  lemma Appended(before: Blocks, used: set<Pair>, recent: Blocks)
    requires CacheValid(before) && CacheValid(recent) && forall b :: b in recent ==> PairOf(b) in used
    ensures CacheValid(Drop(before, used) + recent)
  {
    DropKeepsValid(before, used);
    var kept := Drop(before, used);
    forall i, j | 0 <= i < |kept| && 0 <= j < |recent| ensures PairOf(kept[i]) != PairOf(recent[j]) {
      assert kept[i] in kept && recent[j] in recent;
    }
  }

  lemma HitStep(s: System, e: Event, b: Block)
    requires Enabled(s, e)
    requires FirstLive(s.workers[e.worker].blocked, KeysOf(Window(e.now), e.budgets), e.budgets, e.now) == Some(b)
    ensures Step(s, e).0.workers[e.worker].blocked == Touch(s.workers[e.worker].blocked, b)
    ensures b in s.workers[e.worker].blocked
  {
    hide KeysOf, CleanupChoice, RetryAfter, Upsert, Exceeded, Remember, FirstLive, Touch;
  }

  lemma OneEntry(b: Block)
    ensures CacheValid([b])
  {
  }

  lemma TouchPushes(before: Blocks, b: Block, size: nat)
    requires CacheValid(before) && |before| <= size && b in before
    ensures Pushed(before, {PairOf(b)}, [b], size, Touch(before, b))
  {
    OneEntry(b);
    Appended(before, {PairOf(b)}, [b]);
    TouchKeepsValid(before, b);
    hide CacheValid;
  }

  lemma StepHit(s: System, e: Event, b: Block)
    requires Enabled(s, e) && CacheOk(s.workers[e.worker])
    requires FirstLive(s.workers[e.worker].blocked, KeysOf(Window(e.now), e.budgets), e.budgets, e.now) == Some(b)
    ensures Pushed(s.workers[e.worker].blocked, UsedBy(s, e), [b], s.workers[e.worker].cacheSize,
                   Step(s, e).0.workers[e.worker].blocked)
  {
    HitIs(s, e, b);
    HitStep(s, e, b);
    TouchPushes(s.workers[e.worker].blocked, b, s.workers[e.worker].cacheSize);
    hide *;
  }

  lemma ExceededAre(s: System, e: Event)
    requires Enabled(s, e)
    ensures
      var keys := KeysOf(Window(e.now), e.budgets);
      var counted := Upsert(s.rows, Elements(keys), EndOf(Window(e.now)));
      && (forall k :: k in e.reply.returned ==> k.name in Names(e.budgets) && k in counted)
      && var over := Exceeded(e.reply.returned, e.budgets, counted);
         && Distinct(over) && (forall k :: k in over ==> k.name in Names(e.budgets))
         && forall k :: k in over <==> k in keys && Exceeds(s.rows, e, k)
  {
    hide Names, LimitOf, KeysOf, CleanupChoice;
    var keys := KeysOf(Window(e.now), e.budgets);
    forall k ensures k in e.reply.returned <==> k in keys {
      assert k in Elements(e.reply.returned) <==> k in Elements(keys);
    }
  }

  lemma NewBlocksAre(over: seq<Key>, budgets: seq<Budget>, until: int)
    requires Distinct(over) && forall k :: k in over ==> k.name in Names(budgets)
    ensures CacheValid(NewBlocks(over, budgets, until))
    ensures forall b :: b in NewBlocks(over, budgets, until) ==> PairOf(b) in Pairs(over, budgets)
    ensures forall x :: x in Pairs(over, budgets) ==> exists b :: b in NewBlocks(over, budgets, until) && PairOf(b) == x
  {
    hide Names, LimitOf;
    var recent := NewBlocks(over, budgets, until);
    forall x | x in Pairs(over, budgets) ensures exists b :: b in recent && PairOf(b) == x {
      var i :| 0 <= i < |over| && over[i] == x.0;
      assert recent[i] in recent && PairOf(recent[i]) == x;
    }
    forall b | b in recent ensures PairOf(b) in Pairs(over, budgets) {
      var i :| 0 <= i < |recent| && recent[i] == b;
      assert over[i] in over;
    }
  }

  /** What the store confirmed of the request. */
  function Confirmed(s: System, e: Event): (r: seq<Key>)
    requires Enabled(s, e)
    ensures Distinct(r) && forall k :: k in r ==> k.name in Names(e.budgets)
    ensures forall k :: k in r <==> k in KeysOf(Window(e.now), e.budgets) && Exceeds(s.rows, e, k)
  {
    ExceededAre(s, e);
    Exceeded(e.reply.returned, e.budgets,
             Upsert(s.rows, Elements(KeysOf(Window(e.now), e.budgets)), EndOf(Window(e.now))))
  }

  lemma RememberNothing(blocked: Blocks, budgets: seq<Budget>, until: int, size: nat)
    ensures Remember(blocked, [], budgets, until, size) == blocked
  {
  }

  lemma DecideMiss(rows: Table, w: Worker, now: Instant, budgets: seq<Budget>, reply: Reply, over: seq<Key>)
    requires ReplyValid(rows, now, budgets, reply)
    requires FirstLive(w.blocked, KeysOf(Window(now), budgets), budgets, now).None?
    requires
      var counted := Upsert(rows, Elements(KeysOf(Window(now), budgets)), EndOf(Window(now)));
      && (forall k :: k in reply.returned ==> k.name in Names(budgets) && k in counted)
      && over == Exceeded(reply.returned, budgets, counted)
    requires forall k :: k in over ==> k.name in Names(budgets)
    ensures
      var c := Decide(rows, w, now, budgets, reply);
      if c.outcome.Refused?
      then !c.outcome.cached && over != []
           && c.worker.blocked == Remember(w.blocked, over, budgets, EndOf(Window(now)), w.cacheSize)
      else c.worker.blocked == w.blocked
  {
    hide Names, KeysOf, LimitOf, CleanupChoice, RetryAfter, Upsert, Exceeded, FirstLive, Remember, Touch, ReplyValid;
    if over == [] { RememberNothing(w.blocked, budgets, EndOf(Window(now)), w.cacheSize); }
  }

  lemma MissStep(s: System, e: Event)
    requires Enabled(s, e)
    requires FirstLive(s.workers[e.worker].blocked, KeysOf(Window(e.now), e.budgets), e.budgets, e.now).None?
    ensures
      var before, after, outcome := s.workers[e.worker], Step(s, e).0.workers[e.worker], Step(s, e).1;
      if outcome.Refused?
      then
        && !outcome.cached && Confirmed(s, e) != []
        && after.blocked ==
           Remember(before.blocked, Confirmed(s, e), e.budgets, EndOf(Window(e.now)), before.cacheSize)
      else after.blocked == before.blocked
  {
    ExceededAre(s, e);
    var over := Confirmed(s, e);
    DecideMiss(s.rows, s.workers[e.worker], e.now, e.budgets, e.reply, over);
    hide Names, KeysOf, LimitOf, Upsert, Exceeded, FirstLive, Exceeds, Remember, Decide, Confirmed, ReplyValid;
  }

  lemma UsedAre(s: System, e: Event)
    requires Enabled(s, e) && Step(s, e).1.Refused? && !Step(s, e).1.cached
    ensures UsedBy(s, e) == Pairs(Confirmed(s, e), e.budgets)
  {
    hide Step, Names, KeysOf, LimitOf, Exceeds, Confirmed, Enabled;
  }

  lemma RememberPushes(before: Blocks, over: seq<Key>, budgets: seq<Budget>, until: int, size: nat)
    requires CacheValid(before) && Distinct(over) && over != [] && forall k :: k in over ==> k.name in Names(budgets)
    ensures Pushed(before, Pairs(over, budgets), NewBlocks(over, budgets, until), size,
                   Remember(before, over, budgets, until, size))
  {
    NewBlocksAre(over, budgets, until);
    Appended(before, Pairs(over, budgets), NewBlocks(over, budgets, until));
    hide CacheValid, Names, NewBlocks, Pairs;
  }

  /** A check the cache does not answer. */
  lemma StepMiss(s: System, e: Event)
    requires Enabled(s, e) && CacheOk(s.workers[e.worker])
    requires FirstLive(s.workers[e.worker].blocked, KeysOf(Window(e.now), e.budgets), e.budgets, e.now).None?
    ensures
      var before, after := s.workers[e.worker], Step(s, e).0.workers[e.worker];
      if Step(s, e).1.Refused?
      then exists recent :: Pushed(before.blocked, UsedBy(s, e), recent, before.cacheSize, after.blocked)
      else after.blocked == before.blocked && UsedBy(s, e) == {}
  {
    var before := s.workers[e.worker];
    MissStep(s, e);
    if Step(s, e).1.Refused? {
      UsedAre(s, e);
      RememberPushes(before.blocked, Confirmed(s, e), e.budgets, EndOf(Window(e.now)), before.cacheSize);
    }
    hide Step, Enabled, Confirmed, Remember, Pushed, NewBlocks, Pairs, EndOf, FirstLive, KeysOf;
  }

  /* ---- who is evicted ---- */

  predicate Cached(blocked: Blocks, x: Pair) { exists b :: b in blocked && PairOf(b) == x }

  /** The entry is at `p`, and everything after it was used since. */
  predicate RecentAt(blocked: Blocks, x: Pair, since: set<Pair>, p: nat) {
    p < |blocked| && PairOf(blocked[p]) == x && forall q :: p < q < |blocked| ==> PairOf(blocked[q]) in since - {x}
  }

  ghost predicate Recent(blocked: Blocks, x: Pair, since: set<Pair>) { exists p: nat :: RecentAt(blocked, x, since, p) }

  lemma RecentIsCached(blocked: Blocks, x: Pair, since: set<Pair>)
    requires Recent(blocked, x, since)
    ensures Cached(blocked, x)
  {
    var p: nat :| RecentAt(blocked, x, since, p);
    assert blocked[p] in blocked;
  }

  lemma {:induction false} DropRecent(blocked: Blocks, used: set<Pair>, x: Pair, since: set<Pair>, p: nat)
    returns (p': nat)
    requires RecentAt(blocked, x, since, p) && x !in used
    ensures RecentAt(Drop(blocked, used), x, since, p')
  {
    var rest := Drop(blocked[1..], used);
    if p == 0 {
      p' := 0;
      forall q | 0 < q < |Drop(blocked, used)| ensures PairOf(Drop(blocked, used)[q]) in since - {x} {
        assert rest[q - 1] in blocked[1..];
      }
    } else {
      assert forall q :: 0 <= q < |blocked| - 1 ==> blocked[1..][q] == blocked[q + 1];
      p' := DropRecent(blocked[1..], used, x, since, p - 1);
      if PairOf(blocked[0]) !in used { p' := p' + 1; }
    }
  }

  lemma AppendRecent(kept: Blocks, recent: Blocks, used: set<Pair>, x: Pair, since: set<Pair>, p: nat)
    requires RecentAt(kept, x, since, p) && x !in used && forall b :: b in recent ==> PairOf(b) in used
    ensures RecentAt(kept + recent, x, since + used, p)
  {
    forall q | p < q < |kept + recent| ensures PairOf((kept + recent)[q]) in since + used - {x} {
      if q >= |kept| { assert recent[q - |kept|] in recent; }
    }
  }

  lemma UsedIsRecent(kept: Blocks, recent: Blocks, used: set<Pair>, x: Pair, since: set<Pair>) returns (p: nat)
    requires x in used && CacheValid(kept + recent)
    requires (forall b :: b in recent ==> PairOf(b) in used) && exists b :: b in recent && PairOf(b) == x
    ensures RecentAt(kept + recent, x, since + used, p)
  {
    var b :| b in recent && PairOf(b) == x;
    var k :| 0 <= k < |recent| && recent[k] == b;
    p := |kept| + k;
    var full := kept + recent;
    forall q | p < q < |full| ensures PairOf(full[q]) in since + used - {x} {
      assert recent[q - |kept|] in recent;
      assert full[p].key != full[q].key || full[p].limit != full[q].limit;
    }
  }

  /** The pairs of the entries after `p`. */
  function Behind(blocked: Blocks, p: nat): set<Pair> { set q | p < q < |blocked| :: PairOf(blocked[q]) }

  lemma {:induction false} BehindCount(blocked: Blocks, p: nat)
    requires CacheValid(blocked) && p < |blocked|
    ensures |Behind(blocked, p)| == |blocked| - 1 - p
    decreases |blocked| - p
  {
    if p + 1 == |blocked| {
      assert Behind(blocked, p) == {};
    } else {
      BehindCount(blocked, p + 1);
      assert Behind(blocked, p) == Behind(blocked, p + 1) + {PairOf(blocked[p + 1])};
    }
  }

  /** How many other entries were used. */
  function Others(used: set<Pair>, x: Pair): nat { |used - {x}| }

  /** What is cut off has as many entries behind it as the cache holds. */
  lemma TrimRecent(full: Blocks, x: Pair, since: set<Pair>, size: nat, p: nat)
    requires CacheValid(full) && RecentAt(full, x, since, p)
    ensures Recent(Trim(full, size), x, since) || size <= Others(since, x)
  {
    var cut := if |full| <= size then 0 else |full| - size;
    if cut <= p {
      assert RecentAt(Trim(full, size), x, since, p - cut);
    } else {
      BehindCount(full, p);
      SubsetSize(Behind(full, p), since - {x});
    }
  }

  lemma PushKeepsRecent(before: Blocks, used: set<Pair>, recent: Blocks, size: nat, after: Blocks, x: Pair,
                        since: set<Pair>)
    requires Pushed(before, used, recent, size, after) && (x in used || Recent(before, x, since))
    ensures Recent(after, x, since + used) || size <= Others(since + used, x)
  {
    hide RecentAt, CacheValid, Trim;
    var kept := Drop(before, used);
    var p: nat;
    if x in used {
      p := UsedIsRecent(kept, recent, used, x, since);
    } else {
      p :| RecentAt(before, x, since, p);
      p := DropRecent(before, used, x, since, p);
      AppendRecent(kept, recent, used, x, since, p);
    }
    TrimRecent(kept + recent, x, since + used, size, p);
  }

  /** The check of a worker does to its cache what it uses. */
  lemma OwnStep(s: System, e: Event, x: Pair, since: set<Pair>)
    requires Enabled(s, e) && CacheOk(s.workers[e.worker])
    requires x in UsedBy(s, e) || Recent(s.workers[e.worker].blocked, x, since)
    ensures
      var w, now := s.workers[e.worker], since + UsedBy(s, e);
      Recent(Step(s, e).0.workers[e.worker].blocked, x, now) || w.cacheSize <= Others(now, x)
  {
    hide Recent, Pushed, Step, CacheOk, UsedBy, KeysOf;
    var w, after := s.workers[e.worker], Step(s, e).0.workers[e.worker].blocked;
    var hit := FirstLive(w.blocked, KeysOf(Window(e.now), e.budgets), e.budgets, e.now);
    if hit.Some? {
      StepHit(s, e, hit.value);
      PushKeepsRecent(w.blocked, UsedBy(s, e), [hit.value], w.cacheSize, after, x, since);
    } else {
      StepMiss(s, e);
      if Step(s, e).1.Refused? {
        var recent :| Pushed(w.blocked, UsedBy(s, e), recent, w.cacheSize, after);
        PushKeepsRecent(w.blocked, UsedBy(s, e), recent, w.cacheSize, after, x, since);
      } else {
        assert since + {} == since;
      }
    }
  }

  lemma SizeStays(s: System, e: Event)
    requires Enabled(s, e)
    ensures Step(s, e).0.workers[e.worker].cacheSize == s.workers[e.worker].cacheSize
  {
    hide Names, KeysOf, CleanupChoice, RetryAfter, Upsert, Exceeded, FirstLive, Remember, Touch;
  }

  lemma PushedFits(before: Blocks, used: set<Pair>, recent: Blocks, size: nat, after: Blocks)
    requires Pushed(before, used, recent, size, after)
    ensures CacheValid(after) && |after| <= size
  {
  }

  lemma StepKeepsCache(s: System, e: Event)
    requires Enabled(s, e) && CacheOk(s.workers[e.worker])
    ensures CacheOk(Step(s, e).0.workers[e.worker])
    ensures Step(s, e).0.workers[e.worker].cacheSize == s.workers[e.worker].cacheSize
  {
    SizeStays(s, e);
    hide Step, UsedBy, KeysOf, Drop, CacheValid, Pushed;
    var w, after := s.workers[e.worker], Step(s, e).0.workers[e.worker].blocked;
    var hit := FirstLive(w.blocked, KeysOf(Window(e.now), e.budgets), e.budgets, e.now);
    if hit.Some? {
      StepHit(s, e, hit.value);
      PushedFits(w.blocked, UsedBy(s, e), [hit.value], w.cacheSize, after);
    } else {
      StepMiss(s, e);
      if Step(s, e).1.Refused? {
        var recent :| Pushed(w.blocked, UsedBy(s, e), recent, w.cacheSize, after);
        PushedFits(w.blocked, UsedBy(s, e), recent, w.cacheSize, after);
      }
    }
  }

  /** Over every run, every cache keeps within its size, and its size never changes. */
  lemma {:induction false} CachesStayBounded(r: Run, n: nat, w: nat)
    requires r.Valid() && r.Fresh() && n <= |r.events| && w < |r.states[n].workers|
    ensures CacheOk(r.states[n].workers[w])
    ensures w < |r.states[0].workers| && r.states[n].workers[w].cacheSize == r.states[0].workers[w].cacheSize
  {
    hide Step, Enabled;
    if n > 0 {
      At(r, n - 1);
      CachesStayBounded(r, n - 1, w);
      OthersWait(r.states[n - 1], r.events[n - 1], w);
      if r.events[n - 1].worker == w { StepKeepsCache(r.states[n - 1], r.events[n - 1]); }
    }
  }

  lemma OthersGrow(a: set<Pair>, b: set<Pair>, x: Pair)
    requires a <= b
    ensures Others(a, x) <= Others(b, x)
  {
    SubsetSize(a - {x}, b - {x});
  }

  lemma {:induction false} SameWorkers(r: Run, n: nat)
    requires r.Valid() && n <= |r.events|
    ensures |r.states[n].workers| == |r.states[0].workers|
  {
    hide Step, Enabled;
    if n > 0 {
      SameWorkers(r, n - 1);
      At(r, n - 1);
    }
  }

  /** The cache of worker `w` after `n` checks. */
  function CacheOf(r: Run, w: nat, n: nat): Blocks
    requires r.Valid() && n <= |r.events| && w < |r.states[0].workers|
  {
    SameWorkers(r, n);
    r.states[n].workers[w].blocked
  }

  /** What is used up to check `n`, and by it. */
  function Then(r: Run, w: nat, n: nat, since: set<Pair>): set<Pair>
    requires r.Valid() && n < |r.events|
  {
    since + if r.events[n].worker == w then UsedAt(r, n) else {}
  }

  /** One more check of a run, whoever makes it. */
  lemma OneMoreCheck(r: Run, n: nat, w: nat, x: Pair, since: set<Pair>)
    requires r.Valid() && r.Fresh() && n < |r.events| && w < |r.states[0].workers|
    requires Recent(CacheOf(r, w, n), x, since) || (r.events[n].worker == w && x in UsedAt(r, n))
    ensures
      Recent(CacheOf(r, w, n + 1), x, Then(r, w, n, since))
      || r.states[0].workers[w].cacheSize <= Others(Then(r, w, n, since), x)
  {
    hide Step, Enabled, UsedBy, Recent, CacheOk, Others;
    SameWorkers(r, n);
    SameWorkers(r, n + 1);
    At(r, n);
    OthersWait(r.states[n], r.events[n], w);
    CachesStayBounded(r, n, w);
    if r.events[n].worker == w {
      OwnStep(r.states[n], r.events[n], x, since);
    } else {
      assert since + {} == since;
    }
  }

  /** The entry is still cached, with only what was used since after it, or enough others were used. */
  ghost predicate Stays(r: Run, w: nat, n: nat, x: Pair, since: set<Pair>)
    requires r.Valid() && n <= |r.events| && w < |r.states[0].workers|
  {
    Recent(CacheOf(r, w, n), x, since) || r.states[0].workers[w].cacheSize <= Others(since, x)
  }

  lemma StaysOneMore(r: Run, w: nat, n: nat, x: Pair, since: set<Pair>)
    requires r.Valid() && r.Fresh() && n < |r.events| && w < |r.states[0].workers|
    requires Stays(r, w, n, x, since) || (r.events[n].worker == w && x in UsedAt(r, n))
    ensures Stays(r, w, n + 1, x, Then(r, w, n, since))
  {
    OthersGrow(since, Then(r, w, n, since), x);
    hide Recent, CacheOf, Others, Then, UsedAt;
    if Recent(CacheOf(r, w, n), x, since) || (r.events[n].worker == w && x in UsedAt(r, n)) {
      OneMoreCheck(r, n, w, x, since);
    }
  }

  lemma SinceStep(r: Run, w: nat, i: nat, n: nat)
    requires r.Valid() && i <= n < |r.events|
    ensures UsedSince(r, w, i, n + 1) == Then(r, w, n, UsedSince(r, w, i, n))
  {
    hide UsedAt;
  }

  lemma {:induction false} StaysRecent(r: Run, w: nat, i: nat, n: nat, x: Pair)
    requires r.Valid() && r.Fresh() && i < n <= |r.events| && w < |r.states[0].workers|
    requires r.events[i].worker == w && x in UsedAt(r, i)
    ensures Stays(r, w, n, x, UsedSince(r, w, i, n))
  {
    hide *;
    if i < n - 1 { StaysRecent(r, w, i, n - 1, x); }
    StaysOneMore(r, w, n - 1, x, UsedSince(r, w, i, n - 1));
    SinceStep(r, w, i, n - 1);
  }

  /**
    Main result, least recently used: a rejection a check used is still cached, unless the
    worker has since then, from that check on, used as many others as its cache holds.
   */
  lemma EvictedAfterOthers(r: Run, w: nat, i: nat, n: nat, x: Pair)
    requires r.Valid() && r.Fresh() && i < n <= |r.events| && w < |r.states[0].workers|
    requires r.events[i].worker == w && x in UsedAt(r, i)
    ensures Cached(CacheOf(r, w, n), x) || r.states[0].workers[w].cacheSize <= Others(UsedSince(r, w, i, n), x)
  {
    StaysRecent(r, w, i, n, x);
    var since := UsedSince(r, w, i, n);
    if Recent(CacheOf(r, w, n), x, since) { RecentIsCached(CacheOf(r, w, n), x, since); }
    hide *;
  }
}
