/**
  The shared fixed-minute request budgets of `app/core/rate_limiting.py`.

  One table of counters is shared by every worker.  A worker also owns a bounded
  least-recently-used cache of rejections that the table has already confirmed.
  Time is a real number of seconds since the epoch, as `time.time()` reports it.
 */
module RateLimiter {
  import opened Prelude

  /** `least(attempts, 1000000) + 1`: the value the stored counter never passes. */
  const SATURATION := 1000000

  /** One cleanup deletes at most this many rows. */
  const CLEANUP_BATCH := 1000

  type Instant = t: real | 0.0 <= t witness 0.0

  datatype Budget = Budget(name: string, limit: int)

  /** The primary key `sha256("{window}:{name}")`, the hash being taken as injective. */
  datatype Key = Key(window: int, name: string)

  datatype Row = Row(attempts: int, expiresAt: int)

  type Table = map<Key, Row>

  /** One entry of the `blocked` dictionary: (key, limit) is rejected before `until`. */
  datatype Block = Block(key: Key, limit: int, until: int)

  /** The ordered dictionary `blocked`, least recently used first. */
  type Blocks = seq<Block>

  /** Where the storage call fails, if it does: the middleware answers 503 then. */
  datatype Fault = NoFault | BeforeCleanup | BeforeCommit | AfterCommit

  /**
    What the database decides on its own: the order of the `RETURNING` rows, the
    rows locked by other transactions, and the rows the cleanup removes.
   */
  datatype Reply = Reply(returned: seq<Key>, locked: set<Key>, deleted: set<Key>, fault: Fault)

  datatype Outcome =
    | Admitted
    | Refused(retryAfter: int, cached: bool)
    | Unavailable(committed: bool)

  datatype Worker = Worker(cacheSize: nat, nextCleanup: real, blocked: Blocks)

  /* ---- windows ---- */

  function Window(now: Instant): int { now.Floor / 60 }

  /** The first second that no longer belongs to window `w`. */
  function EndOf(w: int): int { (w + 1) * 60 }

  function Ceiling(x: real): int { -((-x).Floor) }

  function RetryAfter(now: Instant): int { Max(1, Ceiling(EndOf(Window(now)) as real - now)) }

  /**
    The Retry-After value lies in 1..60, waiting that long leaves the window, and
    one second less would not.
   */
  lemma RetryAfterIsLeast(now: Instant)
    ensures 1 <= RetryAfter(now) <= 60
    ensures Window(now + RetryAfter(now) as real) == Window(now) + 1
    ensures Window(now + (RetryAfter(now) - 1) as real) == Window(now)
  {
    var w := Window(now);
    assert 60 * w <= now.Floor < 60 * w + 60;
    assert (60 * w) as real <= now < (60 * w + 60) as real;
    var gap := EndOf(w) as real - now;
    assert 0.0 < gap <= 60.0;
    assert gap <= Ceiling(gap) as real < gap + 1.0;
    var retry := RetryAfter(now);
    assert retry == Ceiling(gap);
    var later := now + retry as real;
    assert EndOf(w) as real <= later < EndOf(w) as real + 1.0;
    assert later.Floor == EndOf(w);
    var before := now + (retry - 1) as real;
    assert (60 * w) as real <= before < EndOf(w) as real;
    assert 60 * w <= before.Floor < EndOf(w);
  }

  /* ---- the `limits` dictionary ---- */

  /** Names in the order of their first occurrence: the iteration order of the dictionary. */
  function Names(budgets: seq<Budget>): (r: seq<string>)
    ensures Distinct(r)
    ensures forall b :: b in budgets ==> b.name in r
    ensures forall n :: n in r ==> exists b :: b in budgets && b.name == n
  {
    if budgets == [] then []
    else
      var last := budgets[|budgets| - 1];
      var rest := Names(budgets[..|budgets| - 1]);
      assert budgets == budgets[..|budgets| - 1] + [last];
      if last.name in rest then rest else rest + [last.name]
  }

  /** The limit a repeated name ends up with: that of its last occurrence. */
  function LimitOf(budgets: seq<Budget>, name: string): (r: int)
    requires name in Names(budgets)
    ensures Budget(name, r) in budgets
  {
    var last := budgets[|budgets| - 1];
    if last.name == name then last.limit else LimitOf(budgets[..|budgets| - 1], name)
  }

  function KeysOf(window: int, budgets: seq<Budget>): (r: seq<Key>)
    ensures Distinct(r)
    ensures forall k :: k in r <==> k.window == window && k.name in Names(budgets)
  {
    var names := Names(budgets);
    var r := seq(|names|, i requires 0 <= i < |names| => Key(window, names[i]));
    assert forall k :: k in r ==> k.window == window && k.name in names;
    assert forall k: Key :: k.window == window && k.name in names ==> k in r by {
      forall k: Key | k.window == window && k.name in names ensures k in r {
        var i :| 0 <= i < |names| && names[i] == k.name;
        assert r[i] == k;
      }
    }
    r
  }

  /* ---- the counter table ---- */

  function Attempts(rows: Table, k: Key): int { if k in rows then rows[k].attempts else 0 }

  /** The upsert: insert with one attempt, or bump with saturation. */
  function Upsert(rows: Table, keys: set<Key>, expiresAt: int): (r: Table)
    ensures r.Keys == rows.Keys + keys
    ensures forall k :: k in rows && k !in keys ==> r[k] == rows[k]
    ensures forall k :: k in keys ==>
      r[k].attempts == if k in rows then Min(rows[k].attempts, SATURATION) + 1 else 1
    ensures forall k :: k in keys ==>
      r[k].expiresAt == if k in rows then rows[k].expiresAt else expiresAt
  {
    map k | k in rows.Keys + keys ::
      if k !in keys then rows[k]
      else if k in rows then rows[k].(attempts := Min(rows[k].attempts, SATURATION) + 1)
      else Row(1, expiresAt)
  }

  /**
    The rows a cleanup may remove: the oldest expired rows that nobody has locked,
    at most CLEANUP_BATCH of them.
   */
  predicate CleanupChoice(rows: Table, now: Instant, locked: set<Key>, deleted: set<Key>) {
    var candidates := set k | k in rows && rows[k].expiresAt as real < now && k !in locked;
    && deleted <= candidates
    && |deleted| == Min(CLEANUP_BATCH, |candidates|)
    && forall d, c :: d in deleted && c in candidates - deleted ==>
      rows[d].expiresAt <= rows[c].expiresAt
  }

  /* ---- the cache of rejections ---- */

  predicate CacheValid(blocked: Blocks) {
    forall i, j :: 0 <= i < j < |blocked| ==>
      blocked[i].key != blocked[j].key || blocked[i].limit != blocked[j].limit
  }

  function Lookup(blocked: Blocks, k: Key, limit: int): (r: Option<Block>)
    ensures r.Some? ==> r.value in blocked && r.value.key == k && r.value.limit == limit
    ensures r.None? ==> forall b :: b in blocked ==> b.key != k || b.limit != limit
  {
    if blocked == [] then None
    else if blocked[0].key == k && blocked[0].limit == limit then Some(blocked[0])
    else Lookup(blocked[1..], k, limit)
  }

  /** The entries whose (key, limit) is not in `gone`, order kept. */
  function Drop(blocked: Blocks, gone: set<(Key, int)>): (r: Blocks)
    ensures forall b :: b in r <==> b in blocked && (b.key, b.limit) !in gone
    ensures |r| <= |blocked|
  {
    if blocked == [] then []
    else
      var rest := Drop(blocked[1..], gone);
      if (blocked[0].key, blocked[0].limit) in gone then rest else [blocked[0]] + rest
  }

  /** Keep the `size` most recently used entries. */
  function Trim(blocked: Blocks, size: nat): (r: Blocks)
    ensures |r| == Min(size, |blocked|)
  {
    if |blocked| <= size then blocked else blocked[|blocked| - size..]
  }

  /** `move_to_end` after an assignment: the entry becomes the most recently used. */
  function Touch(blocked: Blocks, b: Block): Blocks {
    Drop(blocked, {(b.key, b.limit)}) + [b]
  }

  /** The first of `keys` with a rejection that is still in force. */
  function FirstLive(blocked: Blocks, keys: seq<Key>, budgets: seq<Budget>, now: Instant): (r: Option<Block>)
    requires forall k :: k in keys ==> k.name in Names(budgets)
    ensures r.Some? ==>
      && r.value in blocked && r.value.key in keys
      && r.value.limit == LimitOf(budgets, r.value.key.name) && now < r.value.until as real
    ensures r.None? ==> forall k, b :: k in keys && Lookup(blocked, k, LimitOf(budgets, k.name)) == Some(b) ==>
      b.until as real <= now
  {
    if keys == [] then None
    else
      var hit := Lookup(blocked, keys[0], LimitOf(budgets, keys[0].name));
      if hit.Some? && now < hit.value.until as real then hit
      else FirstLive(blocked, keys[1..], budgets, now)
  }

  /** The keys whose committed count passed their limit, in the order the database returned them. */
  function Exceeded(returned: seq<Key>, budgets: seq<Budget>, rows: Table): (r: seq<Key>)
    requires forall k :: k in returned ==> k.name in Names(budgets) && k in rows
    ensures forall k :: k in r <==> k in returned && LimitOf(budgets, k.name) < rows[k].attempts
    ensures Distinct(returned) ==> Distinct(r)
  {
    if returned == [] then []
    else
      var n := |returned| - 1;
      var rest := Exceeded(returned[..n], budgets, rows);
      assert forall k :: k in returned <==> k in returned[..n] || k == returned[n];
      if LimitOf(budgets, returned[n].name) < rows[returned[n]].attempts then rest + [returned[n]] else rest
  }

  function Pairs(keys: seq<Key>, budgets: seq<Budget>): set<(Key, int)>
    requires forall k :: k in keys ==> k.name in Names(budgets)
  {
    set k | k in keys :: (k, LimitOf(budgets, k.name))
  }

  function NewBlocks(keys: seq<Key>, budgets: seq<Budget>, until: int): (r: Blocks)
    requires forall k :: k in keys ==> k.name in Names(budgets)
    ensures |r| == |keys|
  {
    seq(|keys|, i requires 0 <= i < |keys| => Block(keys[i], LimitOf(budgets, keys[i].name), until))
  }

  /**
    The cache after a rejection: the exceeded keys become the most recently used
    entries, in order, and only the newest `size` entries survive.
   */
  function Remember(blocked: Blocks, keys: seq<Key>, budgets: seq<Budget>, until: int, size: nat): Blocks
    requires forall k :: k in keys ==> k.name in Names(budgets)
  {
    if keys == [] then blocked
    else Trim(Drop(blocked, Pairs(keys, budgets)) + NewBlocks(keys, budgets, until), size)
  }

  /* ---- one check ---- */

  /** What the database may answer to this check. */
  predicate ReplyValid(rows: Table, now: Instant, budgets: seq<Budget>, reply: Reply) {
    var keys := KeysOf(Window(now), budgets);
    && Distinct(reply.returned)
    && Elements(reply.returned) == Elements(keys)
    && CleanupChoice(Upsert(rows, Elements(keys), EndOf(Window(now))), now, reply.locked, reply.deleted)
  }

  datatype Checked = Checked(rows: Table, worker: Worker, outcome: Outcome)

  /** The specification of `PostgresRateLimiter.check`. */
  function Decide(rows: Table, w: Worker, now: Instant, budgets: seq<Budget>, reply: Reply): Checked
    requires ReplyValid(rows, now, budgets, reply)
  {
    var keys := KeysOf(Window(now), budgets);
    var hit := FirstLive(w.blocked, keys, budgets, now);
    if hit.Some? then
      Checked(rows, w.(blocked := Touch(w.blocked, hit.value)), Refused(RetryAfter(now), true))
    else
      var counted := Upsert(rows, Elements(keys), EndOf(Window(now)));
      var cleans := w.nextCleanup <= now;
      var w' := if cleans && reply.fault != BeforeCleanup then w.(nextCleanup := now + 60.0) else w;
      if reply.fault == BeforeCleanup || reply.fault == BeforeCommit then Checked(rows, w', Unavailable(false))
      else
        var rows' := if cleans then counted - reply.deleted else counted;
        if reply.fault == AfterCommit then Checked(rows', w', Unavailable(true))
        else
          var over := Exceeded(reply.returned, budgets, counted);
          Checked(
            rows',
            w'.(blocked := Remember(w'.blocked, over, budgets, EndOf(Window(now)), w.cacheSize)),
            if over == [] then Admitted else Refused(RetryAfter(now), false))
  }

  /* ---- laws of the cache ---- */

  lemma {:induction false} DropConcat(a: Blocks, b: Blocks, gone: set<(Key, int)>)
    ensures Drop(a + b, gone) == Drop(a, gone) + Drop(b, gone)
  {
    if a == [] {
      assert a + b == b;
    } else {
      assert (a + b)[1..] == a[1..] + b;
      DropConcat(a[1..], b, gone);
    }
  }

  lemma {:induction false} DropTwice(a: Blocks, s: set<(Key, int)>, t: set<(Key, int)>)
    ensures Drop(Drop(a, s), t) == Drop(a, s + t)
  {
    if a != [] {
      DropTwice(a[1..], s, t);
      if (a[0].key, a[0].limit) !in s {
        assert ([a[0]] + Drop(a[1..], s))[1..] == Drop(a[1..], s);
      }
    }
  }

  lemma {:induction false} DropAbsent(a: Blocks, gone: set<(Key, int)>)
    requires forall b :: b in a ==> (b.key, b.limit) !in gone
    ensures Drop(a, gone) == a
  {
    if a != [] {
      assert a[0] in a;
      DropAbsent(a[1..], gone);
    }
  }

  lemma CacheTail(a: Blocks)
    requires CacheValid(a) && a != []
    ensures CacheValid(a[1..])
    ensures forall b :: b in a[1..] ==> a[0].key != b.key || a[0].limit != b.limit
  {
    assert forall i :: 0 <= i < |a[1..]| ==> a[1..][i] == a[i + 1];
  }

  lemma CacheCons(b: Block, a: Blocks)
    requires CacheValid(a)
    requires forall c :: c in a ==> b.key != c.key || b.limit != c.limit
    ensures CacheValid([b] + a)
  {
  }

  lemma {:induction false} DropKeepsValid(a: Blocks, gone: set<(Key, int)>)
    requires CacheValid(a)
    ensures CacheValid(Drop(a, gone))
  {
    hide CacheValid;
    if a == [] {
      assert Drop(a, gone) == a;
    } else {
      CacheTail(a);
      DropKeepsValid(a[1..], gone);
      CacheCons(a[0], Drop(a[1..], gone));
    }
  }

  lemma {:induction false} DropShrinks(a: Blocks, b: Block)
    requires b in a
    ensures |Drop(a, {(b.key, b.limit)})| < |a|
  {
    if a[0] != b { DropShrinks(a[1..], b); }
  }

  lemma TouchKeepsValid(a: Blocks, b: Block)
    requires CacheValid(a)
    ensures CacheValid(Touch(a, b))
    ensures b in a ==> |Touch(a, b)| <= |a|
  {
    DropKeepsValid(a, {(b.key, b.limit)});
    var rest := Drop(a, {(b.key, b.limit)});
    forall i | 0 <= i < |rest| ensures rest[i].key != b.key || rest[i].limit != b.limit {
      assert rest[i] in rest;
    }
    if b in a { DropShrinks(a, b); }
  }

  /** Dropping at most one entry from a distinct cache leaves at most one entry fewer. */
  lemma {:induction false} DropOne(a: Blocks, p: (Key, int))
    requires CacheValid(a)
    ensures |a| - 1 <= |Drop(a, {p})|
  {
    if a != [] {
      CacheTail(a);
      if (a[0].key, a[0].limit) == p {
        DropAbsent(a[1..], {p});
      } else {
        DropOne(a[1..], p);
      }
    }
  }

  lemma SplitDrop(dropped: Blocks, kept: Blocks, b: Block)
    requires CacheValid(dropped + kept)
    ensures CacheValid(kept)
    ensures Touch(dropped + kept, b) == Drop(dropped, {(b.key, b.limit)}) + Touch(kept, b)
    ensures |kept| - 1 <= |Drop(kept, {(b.key, b.limit)})|
    ensures |Drop(kept, {(b.key, b.limit)})| < |kept| ==> Drop(dropped, {(b.key, b.limit)}) == dropped
    ensures |Drop(kept, {(b.key, b.limit)})| == |kept| ==> Drop(kept, {(b.key, b.limit)}) == kept
  {
    var p := {(b.key, b.limit)};
    var a := dropped + kept;
    DropConcat(dropped, kept, p);
    forall i, j | 0 <= i < j < |kept|
      ensures kept[i].key != kept[j].key || kept[i].limit != kept[j].limit
    {
      assert a[|dropped| + i] == kept[i] && a[|dropped| + j] == kept[j];
    }
    DropOne(kept, (b.key, b.limit));
    if e :| e in kept && (e.key, e.limit) in p {
      DropShrinks(kept, e);
      forall x | x in dropped ensures (x.key, x.limit) !in p {
        var m :| 0 <= m < |dropped| && dropped[m] == x;
        var n :| 0 <= n < |kept| && kept[n] == e;
        assert a[m] == x && a[|dropped| + n] == e;
      }
      DropAbsent(dropped, p);
    } else {
      DropAbsent(kept, p);
    }
    assert Touch(a, b) == Drop(dropped, p) + Touch(kept, b);
  }

  lemma TrimSuffix(a: Blocks, b: Blocks, size: nat)
    requires size <= |b|
    ensures Trim(a + b, size) == Trim(b, size)
  {
    assert (a + b)[|a + b| - size..] == b[|b| - size..];
  }

  /**
    Evicting the oldest entry before or after an entry is refreshed gives the same
    cache: this is why trimming inside the loop equals trimming once at the end.
   */
  lemma TrimBeforeTouch(a: Blocks, b: Block, size: nat)
    requires CacheValid(a)
    ensures Trim(Touch(Trim(a, size), b), size) == Trim(Touch(a, b), size)
  {
    if size < |a| {
      var cut := |a| - size;
      var dropped, kept := a[..cut], a[cut..];
      assert a == dropped + kept;
      SplitDrop(dropped, kept, b);
      TrimSuffix(Drop(dropped, {(b.key, b.limit)}), Touch(kept, b), size);
    }
  }

  /* ---- the implementation ---- */

  /** The table `api_rate_buckets`, shared by all workers. */
  class BucketTable {
    var rows: Table

    constructor ()
      ensures rows == map[]
    {
      rows := map[];
    }
  }

  lemma NewBlocksExtend(over: seq<Key>, i: nat, budgets: seq<Budget>, until: int)
    requires i < |over| && Distinct(over)
    requires forall k :: k in over ==> k.name in Names(budgets)
    ensures NewBlocks(over[..i + 1], budgets, until) ==
            NewBlocks(over[..i], budgets, until) + [Block(over[i], LimitOf(budgets, over[i].name), until)]
    ensures forall e :: e in NewBlocks(over[..i], budgets, until) ==> e.key != over[i]
  {
    hide Names, LimitOf;
    forall e | e in NewBlocks(over[..i], budgets, until) ensures e.key != over[i] {
      var m :| 0 <= m < i && NewBlocks(over[..i], budgets, until)[m] == e;
      assert over[m] == e.key;
    }
  }

  lemma PairsExtend(over: seq<Key>, i: nat, budgets: seq<Budget>)
    requires i < |over|
    requires forall k :: k in over ==> k.name in Names(budgets)
    ensures Pairs(over[..i + 1], budgets) == Pairs(over[..i], budgets) + {(over[i], LimitOf(budgets, over[i].name))}
  {
    hide Names, LimitOf;
    assert over[..i + 1] == over[..i] + [over[i]];
    assert forall k :: k in over[..i + 1] <==> k in over[..i] || k == over[i];
  }

  /** One more exceeded key refreshes exactly that key of the untrimmed cache. */
  lemma TouchExtends(blocked: Blocks, over: seq<Key>, i: nat, budgets: seq<Budget>, until: int)
    requires i < |over| && Distinct(over)
    requires forall k :: k in over ==> k.name in Names(budgets)
    ensures
      Touch(Drop(blocked, Pairs(over[..i], budgets)) + NewBlocks(over[..i], budgets, until),
            Block(over[i], LimitOf(budgets, over[i].name), until))
      == Drop(blocked, Pairs(over[..i + 1], budgets)) + NewBlocks(over[..i + 1], budgets, until)
  {
    hide Names, LimitOf, Drop, Pairs;
    var b := Block(over[i], LimitOf(budgets, over[i].name), until);
    var p := {(b.key, b.limit)};
    var done := Pairs(over[..i], budgets);
    var recent := NewBlocks(over[..i], budgets, until);
    DropConcat(Drop(blocked, done), recent, p);
    DropTwice(blocked, done, p);
    PairsExtend(over, i, budgets);
    NewBlocksExtend(over, i, budgets, until);
    DropAbsent(recent, p);
    assert Drop(blocked, done + p) + recent + [b] == Drop(blocked, done + p) + (recent + [b]);
  }

  class PostgresRateLimiter {
    const table: BucketTable
    const blockedCacheSize: nat
    var nextCleanup: real
    var blocked: Blocks

    predicate Valid()
      reads this
    {
      CacheValid(blocked) && |blocked| <= blockedCacheSize
    }

    function View(): Worker
      reads this
    {
      Worker(blockedCacheSize, nextCleanup, blocked)
    }

    constructor (table: BucketTable, blockedCacheSize: int)
      ensures Valid() && this.table == table
      ensures View() == Worker(Max(0, blockedCacheSize), 0.0, [])
    {
      this.table := table;
      this.blockedCacheSize := Max(0, blockedCacheSize);
      nextCleanup := 0.0;
      blocked := [];
    }

    /** The loop over cached rejections, run before the database is asked. */
    method CachedRejection(now: Instant, budgets: seq<Budget>, keys: seq<Key>) returns (hit: bool)
      requires Valid()
      requires forall k :: k in keys ==> k.name in Names(budgets)
      modifies this`blocked
      ensures Valid()
      ensures hit == FirstLive(old(blocked), keys, budgets, now).Some?
      ensures blocked == if hit then Touch(old(blocked), FirstLive(old(blocked), keys, budgets, now).value)
                         else old(blocked)
    {
      for i := 0 to |keys|
        invariant blocked == old(blocked)
        invariant FirstLive(blocked, keys, budgets, now) == FirstLive(blocked, keys[i..], budgets, now)
      {
        var cached := Lookup(blocked, keys[i], LimitOf(budgets, keys[i].name));
        assert keys[i..][1..] == keys[i + 1..];
        if cached.Some? && now < cached.value.until as real {
          TouchKeepsValid(blocked, cached.value);
          blocked := Touch(blocked, cached.value);
          return true;
        }
      }
      return false;
    }

    /** The `popitem(last=False)` loop. */
    method EvictOldest()
      requires CacheValid(blocked)
      modifies this`blocked
      ensures Valid()
      ensures blocked == Trim(old(blocked), blockedCacheSize)
    {
      while blockedCacheSize < |blocked|
        invariant CacheValid(blocked)
        invariant Trim(blocked, blockedCacheSize) == Trim(old(blocked), blockedCacheSize)
        decreases |blocked|
      {
        blocked := blocked[1..];
      }
    }

    /** The loop that records the exceeded keys and evicts the oldest entries. */
    method RememberRejections(over: seq<Key>, budgets: seq<Budget>, until: int)
      requires Valid() && Distinct(over)
      requires forall k :: k in over ==> k.name in Names(budgets)
      modifies this`blocked
      ensures Valid()
      ensures blocked == Remember(old(blocked), over, budgets, until, blockedCacheSize)
    {
      ghost var full := blocked;  // the cache as it would be without evictions
      DropAbsent(blocked, {});
      assert Pairs([], budgets) == {} && NewBlocks([], budgets, until) == [] && over[..0] == [];
      for i := 0 to |over|
        invariant Valid() && CacheValid(full)
        invariant full == Drop(old(blocked), Pairs(over[..i], budgets)) + NewBlocks(over[..i], budgets, until)
        invariant blocked == Trim(full, blockedCacheSize)
      {
        var b := Block(over[i], LimitOf(budgets, over[i].name), until);
        ghost var before := full;
        full := Touch(full, b);
        TouchKeepsValid(before, b);
        TouchKeepsValid(blocked, b);
        TrimBeforeTouch(before, b, blockedCacheSize);
        TouchExtends(old(blocked), over, i, budgets, until);
        blocked := Touch(blocked, b);
        EvictOldest();
      }
      assert over[..|over|] == over;
    }

    /** `check`: None admits the request, otherwise the seconds to wait. */
    method Check(now: Instant, budgets: seq<Budget>, reply: Reply) returns (outcome: Outcome)
      requires Valid() && ReplyValid(table.rows, now, budgets, reply)
      modifies this`blocked, this`nextCleanup, table
      ensures Valid()
      ensures Checked(table.rows, View(), outcome) ==
              Decide(old(table.rows), old(View()), now, budgets, reply)
    {
      var window := Window(now);
      var keys := KeysOf(window, budgets);
      var hit := CachedRejection(now, budgets, keys);
      if hit {
        return Refused(RetryAfter(now), true);
      }
      var counted := Upsert(table.rows, Elements(keys), EndOf(window));
      if reply.fault == BeforeCleanup {
        return Unavailable(false);
      }
      var remaining := counted;
      if nextCleanup <= now {
        nextCleanup := now + 60.0;
        remaining := counted - reply.deleted;
      }
      if reply.fault == BeforeCommit {
        return Unavailable(false);
      }
      table.rows := remaining;
      if reply.fault == AfterCommit {
        return Unavailable(true);
      }
      var over := Exceeded(reply.returned, budgets, counted);
      RememberRejections(over, budgets, EndOf(window));
      if over != [] {
        return Refused(RetryAfter(now), false);
      }
      return Admitted;
    }
  }
}
