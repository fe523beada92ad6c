/**
  The feed of an account's movements (`get_account_movements` in
  `app/modules/administracion/service.py`): the newest incomes and the newest expenses are
  fetched apart, merged, sorted and cut, instead of sorting everything.
 */
module Movements {
  import opened Prelude

  datatype Kind = Income | Expense

  datatype Movement = Movement(kind: Kind, id: nat, date: int, created: int)

  /** `b` may follow `a` in a newest-first list: by date, then by time of creation. */
  predicate NotOlder(a: Movement, b: Movement) {
    a.date > b.date || (a.date == b.date && a.created >= b.created)
  }

  predicate SameKey(a: Movement, b: Movement) { a.date == b.date && a.created == b.created }

  predicate NewestFirst(s: seq<Movement>) {
    forall i, j :: 0 <= i < j < |s| ==> NotOlder(s[i], s[j])
  }

  /* ---- Python's sort: stable, newest first ---- */

  function Insert(m: Movement, s: seq<Movement>): seq<Movement> {
    if s == [] || NotOlder(m, s[0]) then [m] + s else [s[0]] + Insert(m, s[1..])
  }

  function Sort(s: seq<Movement>): seq<Movement> {
    if s == [] then [] else Insert(s[0], Sort(s[1..]))
  }

  /** The movements of `s` with the key of `m`, in the order they have in `s`. */
  function Ties(s: seq<Movement>, m: Movement): seq<Movement> {
    if s == [] then [] else (if SameKey(s[0], m) then [s[0]] else []) + Ties(s[1..], m)
  }

  function Take(s: seq<Movement>, n: nat): (r: seq<Movement>)
    ensures |r| == Min(n, |s|)
  {
    if n <= |s| then s[..n] else s
  }

  /** `rows` is what `order_by(entry_date desc, created_at desc)` can yield for `table`. */
  predicate Ordered(table: seq<Movement>, rows: seq<Movement>) {
    multiset(rows) == multiset(table) && NewestFirst(rows)
  }

  /** The feed: two limited queries, merged, sorted and cut. */
  function Feed(incomes: seq<Movement>, expenses: seq<Movement>, limit: nat): seq<Movement> {
    Take(Sort(Take(incomes, limit) + Take(expenses, limit)), limit)
  }

  /* ---- the sort ---- */

  lemma Prepended(x: Movement, s: seq<Movement>)
    requires NewestFirst(s) && forall y :: y in s ==> NotOlder(x, y)
    ensures NewestFirst([x] + s)
  {
  }

  lemma {:induction false} InsertKeepsOrder(m: Movement, s: seq<Movement>)
    requires NewestFirst(s)
    ensures NewestFirst(Insert(m, s))
    ensures multiset(Insert(m, s)) == multiset([m] + s)
  {
    if s != [] {
      assert s == [s[0]] + s[1..];
      if !NotOlder(m, s[0]) {
        InsertKeepsOrder(m, s[1..]);
        var r := Insert(m, s[1..]);
        hide Insert;
        forall x | x in r ensures NotOlder(s[0], x) {
          assert x in multiset(r);
          assert x in [m] + s[1..];
        }
        Prepended(s[0], r);
      }
    }
  }

  lemma {:induction false} SortIsSorted(s: seq<Movement>)
    ensures NewestFirst(Sort(s)) && multiset(Sort(s)) == multiset(s) && |Sort(s)| == |s|
  {
    if s != [] {
      SortIsSorted(s[1..]);
      InsertKeepsOrder(s[0], Sort(s[1..]));
      assert s == [s[0]] + s[1..];
    }
    assert |multiset(Sort(s))| == |Sort(s)| && |multiset(s)| == |s|;
  }

  lemma {:induction false} TiesOfInsert(m: Movement, s: seq<Movement>, k: Movement)
    ensures Ties(Insert(m, s), k) == Ties([m] + s, k)
  {
    assert ([m] + s)[1..] == s;
    if s != [] && !NotOlder(m, s[0]) {
      TiesOfInsert(m, s[1..], k);
      assert ([m] + s[1..])[1..] == s[1..];
      assert Insert(m, s)[1..] == Insert(m, s[1..]);
    }
  }

  /** The sort is stable: movements with equal keys keep their order. */
  lemma {:induction false} SortIsStable(s: seq<Movement>, k: Movement)
    ensures Ties(Sort(s), k) == Ties(s, k)
  {
    if s != [] {
      SortIsStable(s[1..], k);
      TiesOfInsert(s[0], Sort(s[1..]), k);
      assert ([s[0]] + Sort(s[1..]))[1..] == Sort(s[1..]);
    }
  }

  /* ---- counting what is at least as new ---- */

  /** How many movements of `s` are at least as new as `m`. */
  function AsNew(s: seq<Movement>, m: Movement): (r: nat)
    ensures r <= |s|
  {
    if s == [] then 0 else AsNew(s[..|s| - 1], m) + if NotOlder(s[|s| - 1], m) then 1 else 0
  }

  lemma {:induction false} AsNewConcat(a: seq<Movement>, b: seq<Movement>, m: Movement)
    ensures AsNew(a + b, m) == AsNew(a, m) + AsNew(b, m)
  {
    if b == [] {
      assert a + b == a;
    } else {
      assert (a + b)[..|a + b| - 1] == a + b[..|b| - 1];
      AsNewConcat(a, b[..|b| - 1], m);
    }
  }

  function Without(s: seq<Movement>, j: nat): seq<Movement>
    requires j < |s|
  {
    s[..j] + s[j + 1..]
  }

  lemma WithoutOne(s: seq<Movement>, j: nat, m: Movement)
    requires j < |s|
    ensures multiset(s) == multiset(Without(s, j)) + multiset{s[j]}
    ensures AsNew(s, m) == AsNew(Without(s, j), m) + if NotOlder(s[j], m) then 1 else 0
  {
    assert s == s[..j] + [s[j]] + s[j + 1..];
    AsNewConcat(s[..j] + [s[j]], s[j + 1..], m);
    AsNewConcat(s[..j], [s[j]], m);
    AsNewConcat(s[..j], s[j + 1..], m);
    assert [s[j]][..0] == [];
  }

  lemma {:induction false} AsNewOfPermutation(a: seq<Movement>, b: seq<Movement>, m: Movement)
    requires multiset(a) == multiset(b)
    ensures AsNew(a, m) == AsNew(b, m)
  {
    if a == [] {
      assert |multiset(b)| == 0;
    } else {
      var n := |a| - 1;
      assert a[n] in multiset(b);
      var j :| 0 <= j < |b| && b[j] == a[n];
      WithoutOne(a, n, m);
      WithoutOne(b, j, m);
      assert multiset(Without(a, n)) == multiset(a) - multiset{a[n]} == multiset(Without(b, j));
      hide AsNew;
      AsNewOfPermutation(Without(a, n), Without(b, j), m);
    }
  }

  lemma {:induction false} AllAsNew(s: seq<Movement>, m: Movement)
    requires forall i :: 0 <= i < |s| ==> NotOlder(s[i], m)
    ensures AsNew(s, m) == |s|
  {
    if s != [] { AllAsNew(s[..|s| - 1], m); }
  }

  /** In a newest-first list, the movements as new as `m` are the first ones. */
  lemma {:induction false} AsNewIsPrefix(s: seq<Movement>, m: Movement, i: nat)
    requires NewestFirst(s)
    ensures i < AsNew(s, m) <==> i < |s| && NotOlder(s[i], m)
  {
    if s != [] {
      var n := |s| - 1;
      AsNewIsPrefix(s[..n], m, i);
      if NotOlder(s[n], m) {
        AllAsNew(s[..n], m);
      }
    }
  }

  lemma AsNewTake(s: seq<Movement>, n: nat, m: Movement)
    requires NewestFirst(s)
    ensures AsNew(Take(s, n), m) == Min(AsNew(s, m), n)
  {
    var t := Take(s, n);
    var a := AsNew(t, m);
    AsNewIsPrefix(t, m, a);
    AsNewIsPrefix(s, m, a);
    if a > 0 {
      AsNewIsPrefix(t, m, a - 1);
      AsNewIsPrefix(s, m, a - 1);
    }
  }

  /** Two newest-first lists with the same counts have the same keys. */
  lemma SameCountsSameKeys(a: seq<Movement>, b: seq<Movement>)
    requires NewestFirst(a) && NewestFirst(b) && |a| == |b|
    requires forall m :: AsNew(a, m) == AsNew(b, m)
    ensures forall i :: 0 <= i < |a| ==> SameKey(a[i], b[i])
  {
    forall i | 0 <= i < |a| ensures SameKey(a[i], b[i]) {
      AsNewIsPrefix(a, a[i], i);
      AsNewIsPrefix(b, a[i], i);
      AsNewIsPrefix(a, b[i], i);
      AsNewIsPrefix(b, b[i], i);
    }
  }

  /* ---- the feed ---- */

  lemma FeedCounts(incomes: seq<Movement>, expenses: seq<Movement>, limit: nat, m: Movement)
    requires NewestFirst(incomes) && NewestFirst(expenses)
    ensures AsNew(Feed(incomes, expenses, limit), m) == Min(AsNew(incomes, m) + AsNew(expenses, m), limit)
  {
    hide AsNew, Sort, Take, NewestFirst, NotOlder;
    var some := Take(incomes, limit) + Take(expenses, limit);
    SortIsSorted(some);
    AsNewTake(Sort(some), limit, m);
    AsNewOfPermutation(Sort(some), some, m);
    AsNewConcat(Take(incomes, limit), Take(expenses, limit), m);
    AsNewTake(incomes, limit, m);
    AsNewTake(expenses, limit, m);
  }

  lemma TakeIsSorted(s: seq<Movement>, n: nat)
    requires NewestFirst(s)
    ensures NewestFirst(Take(s, n))
  {
  }

  lemma FeedIsSorted(incomes: seq<Movement>, expenses: seq<Movement>, limit: nat)
    ensures NewestFirst(Feed(incomes, expenses, limit))
    ensures |Feed(incomes, expenses, limit)| == Min(|incomes| + |expenses|, limit)
  {
    SortIsSorted(Take(incomes, limit) + Take(expenses, limit));
  }

  /**
    Main result: the feed has exactly the keys of the first `limit` movements when all the
    movements of the account are sorted together, whatever order the queries give to ties.
   */
  lemma FeedMatchesFullSort(incomes: seq<Movement>, expenses: seq<Movement>,
                            incomeRows: seq<Movement>, expenseRows: seq<Movement>, limit: nat)
    requires Ordered(incomes, incomeRows) && Ordered(expenses, expenseRows)
    ensures
      var feed, full := Feed(incomeRows, expenseRows, limit), Take(Sort(incomes + expenses), limit);
      |feed| == |full| && forall i :: 0 <= i < |feed| ==> SameKey(feed[i], full[i])
  {
    var feed, full := Feed(incomeRows, expenseRows, limit), Take(Sort(incomes + expenses), limit);
    hide AsNew, Sort, Feed, NewestFirst, NotOlder, SameKey;
    SortIsSorted(incomes + expenses);
    TakeIsSorted(Sort(incomes + expenses), limit);
    FeedIsSorted(incomeRows, expenseRows, limit);
    assert |incomeRows| == |multiset(incomeRows)| == |incomes|;
    assert |expenseRows| == |multiset(expenseRows)| == |expenses|;
    forall m ensures AsNew(feed, m) == AsNew(full, m) {
      FeedCounts(incomeRows, expenseRows, limit, m);
      AsNewTake(Sort(incomes + expenses), limit, m);
      AsNewOfPermutation(Sort(incomes + expenses), incomes + expenses, m);
      AsNewConcat(incomes, expenses, m);
      AsNewOfPermutation(incomes, incomeRows, m);
      AsNewOfPermutation(expenses, expenseRows, m);
    }
    SameCountsSameKeys(feed, full);
  }

  lemma TakeIsPart(s: seq<Movement>, n: nat)
    ensures multiset(Take(s, n)) <= multiset(s)
  {
    if n <= |s| { assert s == s[..n] + s[n..]; }
  }

  /** The feed repeats nothing and invents nothing. */
  lemma FeedIsReal(incomes: seq<Movement>, expenses: seq<Movement>, limit: nat)
    ensures multiset(Feed(incomes, expenses, limit)) <= multiset(incomes) + multiset(expenses)
  {
    var some := Take(incomes, limit) + Take(expenses, limit);
    SortIsSorted(some);
    TakeIsPart(Sort(some), limit);
    TakeIsPart(incomes, limit);
    TakeIsPart(expenses, limit);
  }

  /**
    The feed as it is read: of any two movements, the one shown first has the later date, or
    the same date and no earlier creation; and it is as long as it can be.
   */
  lemma FeedIsNewestFirst(incomes: seq<Movement>, expenses: seq<Movement>, limit: nat)
    ensures
      var feed := Feed(incomes, expenses, limit);
      && (forall i, j :: 0 <= i < j < |feed| ==>
            feed[j].date < feed[i].date || (feed[j].date == feed[i].date && feed[j].created <= feed[i].created))
      && |feed| == if |incomes| + |expenses| < limit then |incomes| + |expenses| else limit
  {
    FeedIsSorted(incomes, expenses, limit);
    hide Feed;
  }

  lemma SomeOlder(s: seq<Movement>, shown: Movement, m: Movement)
    requires NewestFirst(s) && shown in s && !NotOlder(shown, m)
    ensures AsNew(s, m) < |s|
  {
    var p :| 0 <= p < |s| && s[p] == shown;
    AsNewIsPrefix(s, m, p);
  }

  lemma IsTaken(s: seq<Movement>, n: nat, m: Movement)
    requires NewestFirst(s) && m in s && AsNew(s, m) < n
    ensures m in Take(s, n)
  {
    var i :| 0 <= i < |s| && s[i] == m;
    AsNewIsPrefix(s, m, i);
    assert i < |Take(s, n)| && Take(s, n)[i] == m;
  }

  /** Nothing newer than a movement shown is left out of the feed. */
  lemma NothingNewerIsMissing(incomes: seq<Movement>, expenses: seq<Movement>, limit: nat, m: Movement, shown: Movement)
    requires NewestFirst(incomes) && NewestFirst(expenses)
    requires m in incomes || m in expenses
    requires shown in Feed(incomes, expenses, limit) && !NotOlder(shown, m)
    ensures m in Feed(incomes, expenses, limit)
  {
    hide AsNew, Sort, Take, NewestFirst, NotOlder;
    var some := Take(incomes, limit) + Take(expenses, limit);
    var feed := Feed(incomes, expenses, limit);
    SortIsSorted(some);
    FeedCounts(incomes, expenses, limit, m);
    FeedIsSorted(incomes, expenses, limit);
    SomeOlder(feed, shown, m);
    assert AsNew(incomes, m) + AsNew(expenses, m) < limit;
    if m in incomes { IsTaken(incomes, limit, m); } else { IsTaken(expenses, limit, m); }
    assert m in some && m in multiset(some) && m in multiset(Sort(some));
    AsNewOfPermutation(Sort(some), some, m);
    AsNewConcat(Take(incomes, limit), Take(expenses, limit), m);
    AsNewTake(incomes, limit, m);
    AsNewTake(expenses, limit, m);
    IsTaken(Sort(some), limit, m);
  }
}
