/**
  What a check answers and leaves behind: the seconds a refused client is told to wait,
  the rejections a worker remembers, and the rows a cleanup takes.
 */
module RateLimiterAnswers {
  import opened Prelude
  import opened RateLimiter
  import opened RateLimiterRuns

  /* ---- how long to wait ---- */

  lemma StepRetry(s: System, e: Event)
    requires Enabled(s, e) && Step(s, e).1.Refused?
    ensures Step(s, e).1.retryAfter == RetryAfter(e.now)
  {
    hide CleanupChoice, FirstLive, Exceeded, Remember, RetryAfter, Touch, Upsert, KeysOf;
  }

  lemma WaitIsExact(now: Instant)
    ensures (now.Floor + RetryAfter(now)) % 60 == 0
  {
    RetryAfterIsLeast(now);
    var d := RetryAfter(now);
    hide RetryAfter;
    assert (now + d as real).Floor == now.Floor + d;
    assert (now + (d - 1) as real).Floor == now.Floor + d - 1;
  }

  /**
    Main result: whoever is refused, from the cache or from the store, is told the least
    number of seconds, at most 60, after which the next window has begun.
   */
  lemma RefusalSaysHowLong(r: Run, i: nat)
    requires r.Valid() && i < |r.events| && r.outcomes[i].Refused?
    ensures
      var d, now := r.outcomes[i].retryAfter, r.events[i].now;
      && 1 <= d <= 60 && (now.Floor + d) % 60 == 0
      && Window(now + d as real) == Window(now) + 1 && Window(now + (d - 1) as real) == Window(now)
  {
    hide Step, Enabled, RetryAfter;
    At(r, i);
    StepRetry(r.states[i], r.events[i]);
    RetryAfterIsLeast(r.events[i].now);
    WaitIsExact(r.events[i].now);
  }

  /* ---- who is admitted ---- */

  /** The budget at `p` is the last one under its name, and so the one whose limit counts. */
  predicate LastOfName(budgets: seq<Budget>, p: nat) {
    p < |budgets| && forall q :: p < q < |budgets| ==> budgets[q].name != budgets[p].name
  }

  lemma {:induction false} LimitOfLast(budgets: seq<Budget>, p: nat)
    requires LastOfName(budgets, p)
    ensures budgets[p].name in Names(budgets) && LimitOf(budgets, budgets[p].name) == budgets[p].limit
  {
    assert budgets[p] in budgets;
    hide Names;
    if p < |budgets| - 1 { LimitOfLast(budgets[..|budgets| - 1], p); }
  }

  lemma {:induction false} SomeIsLast(budgets: seq<Budget>, name: string) returns (p: nat)
    requires name in Names(budgets)
    ensures LastOfName(budgets, p) && budgets[p].name == name
  {
    var n := |budgets| - 1;
    if budgets[n].name == name { p := n; } else { p := SomeIsLast(budgets[..n], name); }
  }

  /** The attempts committed so far leave room for one more under budget `p` of the request. */
  predicate HasRoom(r: Run, i: nat, p: nat)
    requires r.Valid() && i < |r.events| && p < |r.events[i].budgets|
  {
    var b := r.events[i].budgets[p];
    Min(Commits(r, Key(Window(r.events[i].now), b.name), i), 1_000_000) < b.limit
  }

  lemma AdmittedBy(r: Run, i: nat, p: nat)
    requires r.Valid() && r.Fresh() && i < |r.events| && OnTime(r, i)
    requires r.outcomes[i] == Admitted && LastOfName(r.events[i].budgets, p)
    ensures p < |r.events[i].budgets| && HasRoom(r, i, p)
  {
    hide Step, Enabled, Names, LimitOf;
    LimitOfLast(r.events[i].budgets, p);
    AdmittedMeaning(r, i, Key(Window(r.events[i].now), r.events[i].budgets[p].name));
  }

  /** Main result: a check the store answers admits exactly when every budget that counts has room. */
  lemma AdmittedIff(r: Run, i: nat)
    requires r.Valid() && r.Fresh() && i < |r.events| && OnTime(r, i)
    requires r.outcomes[i] == Admitted || (r.outcomes[i].Refused? && !r.outcomes[i].cached)
    ensures r.outcomes[i] == Admitted <==>
            forall p: nat :: LastOfName(r.events[i].budgets, p) ==> HasRoom(r, i, p)
  {
    hide Step, Enabled, Names, LimitOf, LastOfName;
    var e := r.events[i];
    if r.outcomes[i] == Admitted {
      forall p: nat | LastOfName(e.budgets, p) ensures p < |e.budgets| && HasRoom(r, i, p) {
        AdmittedBy(r, i, p);
      }
    } else {
      var k := RefusedMeaning(r, i);
      var p := SomeIsLast(e.budgets, k.name);
      LimitOfLast(e.budgets, p);
      assert !HasRoom(r, i, p) by { assert k == Key(Window(e.now), e.budgets[p].name); }
    }
  }

  /** A check that fails counts exactly if it had committed, and only ever moves its worker's next cleanup. */
  lemma FailureMeaning(s: System, e: Event)
    requires Enabled(s, e) && Step(s, e).1.Unavailable?
    ensures
      var before, after := s.workers[e.worker], Step(s, e).0.workers[e.worker];
      && e.reply.fault != NoFault && (Step(s, e).1.committed <==> e.reply.fault == AfterCommit)
      && (!Step(s, e).1.committed ==> Step(s, e).0.rows == s.rows)
      && after.blocked == before.blocked && after.cacheSize == before.cacheSize
      && after.nextCleanup == (if before.nextCleanup <= e.now && e.reply.fault != BeforeCleanup
                               then e.now + 60.0 else before.nextCleanup)
  {
    hide CleanupChoice, FirstLive, Exceeded, RetryAfter, Touch, KeysOf, Remember, Upsert;
  }

  /* ---- what a worker remembers ---- */

  /** The worker remembers a rejection of this request. */
  predicate Remembers(w: Worker, e: Event) {
    exists b :: b in w.blocked && Touches(e, b.key) && b.limit == LimitOf(e.budgets, b.key.name)
  }

  lemma LastStays(full: Blocks, size: nat)
    requires full != [] && size > 0
    ensures full[|full| - 1] in Trim(full, size)
  {
    assert Trim(full, size)[|Trim(full, size)| - 1] == full[|full| - 1];
  }

  lemma LastIsRemembered(blocked: Blocks, keys: seq<Key>, budgets: seq<Budget>, until: int, size: nat)
    requires keys != [] && size > 0 && forall k :: k in keys ==> k.name in Names(budgets)
    ensures
      var last := keys[|keys| - 1];
      Block(last, LimitOf(budgets, last.name), until) in Remember(blocked, keys, budgets, until, size)
  {
    var new_ := NewBlocks(keys, budgets, until);
    LastStays(Drop(blocked, Pairs(keys, budgets)) + new_, size);
    hide Drop, Names, LimitOf, Pairs, Trim;
  }

  /** A worker with room remembers what it has just refused. */
  lemma RefusalIsRemembered(s: System, e: Event)
    requires Enabled(s, e) && Step(s, e).1.Refused? && s.workers[e.worker].cacheSize > 0
    ensures Remembers(Step(s, e).0.workers[e.worker], e)
  {
    hide CleanupChoice, FirstLive, Exceeded, RetryAfter, Upsert, KeysOf, LimitOf, Names, Drop, Remember;
    var w := s.workers[e.worker];
    var keys := KeysOf(Window(e.now), e.budgets);
    var hit := FirstLive(w.blocked, keys, e.budgets, e.now);
    var after := Step(s, e).0.workers[e.worker].blocked;
    if hit.Some? {
      assert after[|after| - 1] == hit.value;
    } else {
      var counted := Upsert(s.rows, Elements(keys), EndOf(Window(e.now)));
      var over := Exceeded(e.reply.returned, e.budgets, counted);
      LastIsRemembered(w.blocked, over, e.budgets, EndOf(Window(e.now)), w.cacheSize);
      assert over[|over| - 1] in over && over[|over| - 1] in Elements(keys);
    }
  }

  /** A remembered rejection still in force is answered without the store. */
  lemma RememberedIsRefused(s: System, e: Event)
    requires Enabled(s, e) && Remembers(s.workers[e.worker], e)
    requires forall b :: b in s.workers[e.worker].blocked && Touches(e, b.key) ==> b.until == EndOf(b.key.window)
    ensures Step(s, e).1.Refused? && Step(s, e).1.cached && Step(s, e).0.rows == s.rows
  {
    hide CleanupChoice, Exceeded, RetryAfter, Upsert, KeysOf, LimitOf, Names, Drop, Remember;
    var w := s.workers[e.worker];
    var keys := KeysOf(Window(e.now), e.budgets);
    var b :| b in w.blocked && Touches(e, b.key) && b.limit == LimitOf(e.budgets, b.key.name);
    assert b.key in keys;
    var found := Lookup(w.blocked, b.key, b.limit);
    assert found.Some? && found.value.until == EndOf(Window(e.now));
    assert e.now < (e.now.Floor + 1) as real <= EndOf(Window(e.now)) as real;
  }

  lemma OthersWait(s: System, e: Event, w: nat)
    requires Enabled(s, e) && w < |s.workers|
    ensures e.worker != w ==> Step(s, e).0.workers[w] == s.workers[w]
  {
    hide Decide;
  }

  /** A check leaves every worker but its own alone. */
  lemma {:induction false} WorkerWaits(r: Run, w: nat, i: nat, j: nat)
    requires r.Valid() && i <= j <= |r.events| && w < |r.states[i].workers|
    requires forall k :: i <= k < j ==> r.events[k].worker != w
    ensures w < |r.states[j].workers| && r.states[j].workers[w] == r.states[i].workers[w]
  {
    hide Step, Enabled;
    if i < j {
      WorkerWaits(r, w, i, j - 1);
      At(r, j - 1);
      OthersWait(r.states[j - 1], r.events[j - 1], w);
    }
  }

  /**
    Main result, the cache at work: the next check of the same budgets in the same window
    on a worker that has just refused them, and has room to remember, is refused without
    touching the store.
   */
  lemma NextIsAnsweredFromCache(r: Run, i: nat, j: nat)
    requires r.Valid() && r.Fresh() && i < j < |r.events| && r.outcomes[i].Refused?
    requires
      var e, f := r.events[i], r.events[j];
      && e.worker == f.worker && e.budgets == f.budgets && Window(e.now) == Window(f.now)
      && e.worker < |r.states[i].workers| && r.states[i].workers[e.worker].cacheSize > 0
      && forall k :: i < k < j ==> r.events[k].worker != e.worker
    ensures r.outcomes[j].Refused? && r.outcomes[j].cached && r.states[j + 1].rows == r.states[j].rows
  {
    var e, f := r.events[i], r.events[j];
    At(r, i);
    At(r, j);
    RefusalIsRemembered(r.states[i], e);
    WorkerWaits(r, e.worker, i + 1, j);
    hide Step, Names, LimitOf;
    var w := r.states[j].workers[f.worker];
    assert Remembers(w, f) by {
      var b :| b in w.blocked && Touches(e, b.key) && b.limit == LimitOf(e.budgets, b.key.name);
      assert Touches(f, b.key);
    }
    forall b | b in w.blocked ensures b.until == EndOf(b.key.window) { BlocksAreBacked(r, j, f.worker, b); }
    RememberedIsRefused(r.states[j], f);
  }

  /* ---- what a cleanup takes ---- */

  lemma CleanupTakes(s: System, e: Event, k: Key)
    requires Enabled(s, e) && k in e.reply.deleted
    ensures k !in e.reply.locked
  {
    hide Upsert, KeysOf;
  }

  /** A step that removes a row is a cleanup: the worker's was due, and its next is due a minute later. */
  lemma RemovalIsDue(s: System, e: Event, k: Key)
    requires Enabled(s, e) && k in s.rows && k !in Step(s, e).0.rows
    ensures s.workers[e.worker].nextCleanup <= e.now
    ensures Step(s, e).0.workers[e.worker].nextCleanup == e.now + 60.0
    ensures k !in e.reply.locked
  {
    hide CleanupChoice, FirstLive, Exceeded, RetryAfter, Touch, KeysOf, Remember;
    CleanupTakes(s, e, k);
  }

  lemma DueStep(s: System, e: Event, w: nat)
    requires Enabled(s, e) && w < |s.workers|
    ensures s.workers[w].nextCleanup <= Step(s, e).0.workers[w].nextCleanup
  {
    hide CleanupChoice, FirstLive, Exceeded, RetryAfter, Touch, KeysOf, Remember, Upsert;
  }

  /** The next cleanup of a worker never moves back. */
  lemma {:induction false} DueNeverMovesBack(r: Run, w: nat, i: nat, j: nat)
    requires r.Valid() && i <= j <= |r.events| && w < |r.states[i].workers|
    ensures w < |r.states[j].workers|
    ensures r.states[i].workers[w].nextCleanup <= r.states[j].workers[w].nextCleanup
  {
    hide Step, Enabled;
    if i < j {
      DueNeverMovesBack(r, w, i, j - 1);
      At(r, j - 1);
      DueStep(r.states[j - 1], r.events[j - 1], w);
    }
  }

  /** Main result: one worker removes rows at most once a minute. */
  lemma CleanupsAreAMinuteApart(r: Run, i: nat, j: nat, k: Key, l: Key)
    requires r.Valid() && i < j < |r.events| && r.events[i].worker == r.events[j].worker
    requires k in r.states[i].rows && k !in r.states[i + 1].rows
    requires l in r.states[j].rows && l !in r.states[j + 1].rows
    ensures r.events[i].now + 60.0 <= r.events[j].now
  {
    hide Step, Enabled;
    At(r, i);
    At(r, j);
    RemovalIsDue(r.states[i], r.events[i], k);
    RemovalIsDue(r.states[j], r.events[j], l);
    hide *;
    DueNeverMovesBack(r, r.events[i].worker, i + 1, j);
  }

  lemma Smaller(a: set<Key>, b: set<Key>, k: Key)
    requires a <= b && k in b && k !in a
    ensures |a| < |b|
  {
    assert a <= b - {k};
    SubsetSize(a, b - {k});
  }

  lemma CleanupChoiceFor(s: System, e: Event, k: Key)
    requires Enabled(s, e) && k in s.rows && !Touches(e, k)
    ensures k in e.reply.deleted ==> s.rows[k].expiresAt as real < e.now && k !in e.reply.locked
    ensures k !in e.reply.deleted && s.rows[k].expiresAt as real < e.now && k !in e.reply.locked ==>
      |e.reply.deleted| == 1000
      && forall d :: d in e.reply.deleted && d in s.rows && !Touches(e, d) ==>
           s.rows[d].expiresAt <= s.rows[k].expiresAt
  {
    var keys := Elements(KeysOf(Window(e.now), e.budgets));
    var counted := Upsert(s.rows, keys, EndOf(Window(e.now)));
    var candidates := set d | d in counted && counted[d].expiresAt as real < e.now && d !in e.reply.locked;
    assert e.reply.deleted <= candidates;
    assert k !in keys && counted[k] == s.rows[k];
    if k !in e.reply.deleted && s.rows[k].expiresAt as real < e.now && k !in e.reply.locked {
      assert k in candidates;
      Smaller(e.reply.deleted, candidates, k);
    }
  }

  /**
    A cleanup that is due and committed takes only expired rows that nobody has locked:
    all of them, or a thousand of the oldest.
   */
  lemma CleanupClears(s: System, e: Event, k: Key)
    requires Enabled(s, e) && Counted(Step(s, e).1) && s.workers[e.worker].nextCleanup <= e.now && k in s.rows
    requires !(k.window == Window(e.now) && k.name in Names(e.budgets))
    ensures k !in Step(s, e).0.rows ==> s.rows[k].expiresAt as real < e.now && k !in e.reply.locked
    ensures k in Step(s, e).0.rows && s.rows[k].expiresAt as real < e.now && k !in e.reply.locked ==>
      |e.reply.deleted| == 1000
      && forall d :: d in e.reply.deleted && d in s.rows && !Touches(e, d) ==>
           s.rows[d].expiresAt <= s.rows[k].expiresAt
  {
    hide FirstLive, Exceeded, RetryAfter, Touch, Remember, Names, KeysOf;
    CleanupChoiceFor(s, e, k);
    hide CleanupChoice;
  }
}
