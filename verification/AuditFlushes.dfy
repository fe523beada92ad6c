/**
  What the audit log says of the objects a session flushed: which were created, modified
  and deleted, in which order, and that nothing else is in it.
 */
module AuditFlushes {
  import opened Prelude
  import A = AuditBuffer
  import opened AuditBuffer

  /* ---- the records of one flush ---- */

  /** The record of an object: its table, its ids and its columns, under an operation. */
  predicate Tells(c: Change, operation: Operation, e: Entity) {
    && c.operation == operation && c.entity == e.table && c.ids == e.ids && c.fields == e.fields && c.rows.None?
  }

  /** The modified objects among the first `n`. */
  function Modified(objects: seq<Entity>, n: nat): set<nat>
    requires n <= |objects|
  {
    set k: nat | k < n && objects[k].modified
  }

  /** A modified object is told after the created ones and the modified ones before it. */
  predicate UpdateTold(f: Flush, records: seq<Change>, j: nat)
    requires j < |f.dirty|
  {
    var at := |f.created| + |Modified(f.dirty, j)|;
    at < |records| && Tells(records[at], Update, f.dirty[j])
  }

  /**
    The records of a flush: one for every created object, one for every modified one, one
    for every deleted one, in this order, and no more.
   */
  predicate FlushTold(f: Flush, records: seq<Change>) {
    var c, m, d := |f.created|, |Modified(f.dirty, |f.dirty|)|, |f.deleted|;
    && |records| == c + m + d
    && (forall i :: 0 <= i < c ==> Tells(records[i], Create, f.created[i]))
    && (forall j :: 0 <= j < |f.dirty| && f.dirty[j].modified ==> UpdateTold(f, records, j))
    && (forall i :: 0 <= i < d ==> Tells(records[c + m + i], Delete, f.deleted[i]))
  }

  lemma ModifiedStep(objects: seq<Entity>, n: nat)
    requires n < |objects|
    ensures Modified(objects, n + 1) == Modified(objects, n) + if objects[n].modified then {n} else {}
    ensures n !in Modified(objects, n)
  {
  }

  lemma {:induction false} AllTold(operation: Operation, objects: seq<Entity>)
    requires operation != Update
    ensures |RecordedAll(operation, objects)| == |objects|
    ensures forall i :: 0 <= i < |objects| ==> Tells(RecordedAll(operation, objects)[i], operation, objects[i])
  {
    if objects != [] { AllTold(operation, objects[..|objects| - 1]); }
  }

  /** The updates of the first `n` objects. */
  function Updates(objects: seq<Entity>, n: nat): seq<Change>
    requires n <= |objects|
  {
    RecordedAll(Update, objects[..n])
  }

  lemma UpdatesStep(objects: seq<Entity>, n: nat)
    requires n < |objects|
    ensures Updates(objects, n + 1) ==
            if objects[n].modified then Updates(objects, n) + [Recorded(Update, objects[n])] else Updates(objects, n)
  {
    assert objects[..n + 1][..n] == objects[..n];
    assert Updates(objects, n) + [] == Updates(objects, n);
  }

  lemma NoneModified(objects: seq<Entity>)
    ensures Modified(objects, 0) == {}
  {
  }

  /** Among the updates, modified object `j` is told after the modified ones before it. */
  predicate Placed(objects: seq<Entity>, updates: seq<Change>, j: nat)
    requires j < |objects|
  {
    |Modified(objects, j)| < |updates| && Tells(updates[|Modified(objects, j)|], Update, objects[j])
  }

  lemma OneMorePlaced(objects: seq<Entity>, n: nat, j: nat)
    requires j <= n < |objects| && objects[j].modified && |Updates(objects, n)| == |Modified(objects, n)|
    requires j < n ==> Placed(objects, Updates(objects, n), j)
    ensures Placed(objects, Updates(objects, n + 1), j)
  {
    UpdatesStep(objects, n);
    hide Updates, Modified;
  }

  lemma {:induction false} UpdatesCounted(objects: seq<Entity>, n: nat)
    requires n <= |objects|
    ensures |Updates(objects, n)| == |Modified(objects, n)|
  {
    NoneModified(objects);
    assert n == 0 ==> Updates(objects, n) == [];
    hide Modified, Updates;
    if n > 0 {
      UpdatesCounted(objects, n - 1);
      ModifiedStep(objects, n - 1);
      UpdatesStep(objects, n - 1);
    }
  }

  lemma {:induction false} UpdatesTold(objects: seq<Entity>, n: nat)
    requires n <= |objects|
    ensures forall j :: 0 <= j < n && objects[j].modified ==> Placed(objects, Updates(objects, n), j)
  {
    hide Modified, Updates, Placed;
    if n > 0 {
      UpdatesTold(objects, n - 1);
      UpdatesCounted(objects, n - 1);
      forall j | 0 <= j < n && objects[j].modified ensures Placed(objects, Updates(objects, n), j) {
        OneMorePlaced(objects, n - 1, j);
      }
    }
  }

  /** The records of a flush tell it. */
  lemma FlushIsTold(f: Flush)
    ensures FlushTold(f, FlushChanges(f))
  {
    AllTold(Create, f.created);
    AllTold(Delete, f.deleted);
    UpdatesTold(f.dirty, |f.dirty|);
    UpdatesCounted(f.dirty, |f.dirty|);
    assert f.dirty[..|f.dirty|] == f.dirty;
    assert Updates(f.dirty, |f.dirty|) == RecordedAll(Update, f.dirty);
    var created, updated, deleted :=
      RecordedAll(Create, f.created), RecordedAll(Update, f.dirty), RecordedAll(Delete, f.deleted);
    hide RecordedAll, Modified, Tells, Updates;
    forall j: nat | j < |f.dirty| && f.dirty[j].modified ensures UpdateTold(f, FlushChanges(f), j) {
      assert Placed(f.dirty, updated, j);
      assert FlushChanges(f)[|created| + |Modified(f.dirty, j)|] == updated[|Modified(f.dirty, j)|];
    }
  }

  /** Every place among the updates is that of some modified object. */
  lemma {:induction false} PlaceIsTaken(objects: seq<Entity>, n: nat, place: nat) returns (j: nat)
    requires n <= |objects| && place < |Modified(objects, n)|
    ensures j < n && objects[j].modified && |Modified(objects, j)| == place
  {
    NoneModified(objects);
    if n == 0 {
      assert false;
    } else {
      ModifiedStep(objects, n - 1);
      if place < |Modified(objects, n - 1)| {
        j := PlaceIsTaken(objects, n - 1, place);
      } else {
        j := n - 1;
      }
    }
  }

  lemma SameRecord(a: Change, b: Change, operation: Operation, e: Entity)
    requires Tells(a, operation, e) && Tells(b, operation, e)
    ensures a == b
  {
  }

  /** Only one sequence of records tells a flush. */
  lemma ToldOnce(f: Flush, a: seq<Change>, b: seq<Change>)
    requires FlushTold(f, a) && FlushTold(f, b)
    ensures a == b
  {
    var c, m := |f.created|, |Modified(f.dirty, |f.dirty|)|;
    hide Tells, Modified;
    forall i | 0 <= i < |a| ensures a[i] == b[i] {
      if i < c {
        SameRecord(a[i], b[i], Create, f.created[i]);
      } else if i < c + m {
        var j := PlaceIsTaken(f.dirty, |f.dirty|, i - c);
        assert UpdateTold(f, a, j) && UpdateTold(f, b, j);
        SameRecord(a[i], b[i], Update, f.dirty[j]);
      } else {
        assert Tells(a[c + m + (i - c - m)], Delete, f.deleted[i - c - m]);
        SameRecord(a[i], b[i], Delete, f.deleted[i - c - m]);
      }
    }
  }

  /* ---- runs of a session ---- */

  /** What a session does: it flushes objects, runs bulk statements, and opens and closes transactions. */
  datatype Action =
    | Flushing(flush: Flush)
    | Bulk(kind: BulkKind, table: Option<string>, rows: Option<int>)
    | Opening
    | Closing(commit: bool)

  /** The records of a bulk statement on a table: one, with its operation and row count. */
  predicate BulkTold(kind: BulkKind, table: Option<string>, rows: Option<int>, records: seq<Change>) {
    if kind == Select || table.None? then records == []
    else
      && |records| == 1 && records[0].entity == table.value && records[0].rows == rows
      && records[0].ids == [] && records[0].fields == []
      && match kind
         case Insert => records[0].operation == BulkInsert
         case Modify => records[0].operation == BulkUpdate
         case Remove => records[0].operation == BulkDelete
         case Select => false
  }

  /** `records` is what the action tells. */
  predicate Told(a: Action, records: seq<Change>) {
    match a
    case Flushing(f) => FlushTold(f, records)
    case Bulk(kind, table, rows) => BulkTold(kind, table, rows, records)
    case _ => records == []
  }

  predicate AllActionsTold(actions: seq<Action>, records: seq<seq<Change>>) {
    |records| == |actions| && forall i :: 0 <= i < |actions| ==> Told(actions[i], records[i])
  }

  /** The listeners' answer to an action. */
  function OpOf(a: Action): Op {
    match a
    case Flushing(f) => Write(FlushChanges(f))
    case Bulk(kind, table, rows) => Write(BulkChanges(kind, table, rows))
    case Opening => Begin
    case Closing(commit) => if commit then Commit else Rollback
  }

  function OpsOf(actions: seq<Action>): (r: seq<Op>)
    ensures |r| == |actions|
  {
    if actions == [] then [] else [OpOf(actions[0])] + OpsOf(actions[1..])
  }

  /** How deep the session is after an action at depth `d`, the root alone being one. */
  function DepthAfter(d: nat, a: Action): (r: nat)
    requires d > 0
    ensures r > 0
  {
    match a
    case Opening => d + 1
    case Closing(_) => if d == 1 then 1 else d - 1
    case _ => d
  }

  /**
    Whether what was done at depth `d` before action `n` reaches the log: the transaction
    is closed by a commit, and so is each around it in turn, up to the root.
   */
  predicate Kept(actions: seq<Action>, n: nat, d: nat, level: nat)
    requires n <= |actions| && level < d
    decreases |actions| - n
  {
    if n == |actions| then false
    else
      match actions[n]
      case Opening => Kept(actions, n + 1, d + 1, level)
      case Closing(commit) =>
        if d == 1 then commit
        else if level < d - 1 then Kept(actions, n + 1, d - 1, level)
        else commit && Kept(actions, n + 1, d - 1, level - 1)
      case _ => Kept(actions, n + 1, d, level)
  }

  /** `later`, after `records` if they are kept. */
  function Ahead(kept: bool, records: seq<Change>, later: seq<Change>): seq<Change> {
    if kept then records + later else later
  }

  /** The records of the kept actions among those from `n` on. */
  function KeptRecords(actions: seq<Action>, records: seq<seq<Change>>, n: nat, d: nat): seq<Change>
    requires n <= |actions| == |records| && d > 0
    decreases |actions| - n
  {
    if n == |actions| then []
    else
      Ahead((actions[n].Flushing? || actions[n].Bulk?) && Kept(actions, n + 1, d, d - 1), records[n],
            KeptRecords(actions, records, n + 1, DepthAfter(d, actions[n])))
  }

  lemma OpsTail(actions: seq<Action>, n: nat)
    requires n < |actions|
    ensures OpsOf(actions[n..]) == [OpOf(actions[n])] + OpsOf(actions[n + 1..])
  {
    assert actions[n..][1..] == actions[n + 1..];
  }

  lemma {:induction false} KeptIsCommitted(actions: seq<Action>, n: nat, d: nat, level: nat)
    requires n <= |actions| && level < d
    ensures Kept(actions, n, d, level) == Committed(OpsOf(actions[n..]), level, d)
    decreases |actions| - n
  {
    if n == |actions| {
      assert actions[n..] == [];
    } else {
      OpsTail(actions, n);
      var rest := OpsOf(actions[n + 1..]);
      assert ([OpOf(actions[n])] + rest)[1..] == rest;
      match actions[n]
      case Opening => KeptIsCommitted(actions, n + 1, d + 1, level);
      case Closing(_) =>
        if d > 1 { KeptIsCommitted(actions, n + 1, d - 1, if level == d - 1 then level - 1 else level); }
      case _ => KeptIsCommitted(actions, n + 1, d, level);
    }
  }

  lemma ActionIsTold(a: Action, records: seq<Change>)
    requires Told(a, records) && (a.Flushing? || a.Bulk?)
    ensures OpOf(a) == Write(records)
  {
    if a.Flushing? {
      FlushIsTold(a.flush);
      ToldOnce(a.flush, records, FlushChanges(a.flush));
    }
  }

  /** One action in front of what the rest of the run leaves in the log. */
  lemma SurvivorsStep(a: Action, records: seq<Change>, rest: seq<Op>, d: nat)
    requires Told(a, records) && d > 0
    ensures Survivors([OpOf(a)] + rest, d) ==
            Ahead((a.Flushing? || a.Bulk?) && Committed(rest, d - 1, d), records, Survivors(rest, DepthAfter(d, a)))
  {
    hide Committed, Told, FlushChanges, BulkChanges;
    assert ([OpOf(a)] + rest)[1..] == rest;
    if a.Flushing? || a.Bulk? { ActionIsTold(a, records); }
  }

  lemma NothingSurvives(d: nat)
    requires d > 0
    ensures Survivors(OpsOf([]), d) == []
  {
  }

  lemma {:induction false} SurvivorsAreKept(actions: seq<Action>, records: seq<seq<Change>>, n: nat, d: nat)
    requires AllActionsTold(actions, records) && n <= |actions| && d > 0
    ensures Survivors(OpsOf(actions[n..]), d) == KeptRecords(actions, records, n, d)
    decreases |actions| - n
  {
    hide Committed, Kept, Told, OpsOf, Survivors, OpOf, DepthAfter, Ahead;
    if n == |actions| {
      assert actions[n..] == [];
      NothingSurvives(d);
    } else {
      SurvivorsAreKept(actions, records, n + 1, DepthAfter(d, actions[n]));
      OpsTail(actions, n);
      SurvivorsStep(actions[n], records[n], OpsOf(actions[n + 1..]), d);
      KeptIsCommitted(actions, n + 1, d, d - 1);
    }
  }

  /**
    Main result: for any run of flushes, bulk statements, savepoints, commits and rollbacks,
    the log tells, in order and once each, every object created, modified or deleted by what
    was finally committed, with its table, ids and columns, and nothing else.
   */
  lemma LogTellsObjects(actions: seq<Action>, records: seq<seq<Change>>)
    requires AllActionsTold(actions, records)
    ensures A.Run(State(FRESH, []), OpsOf(actions)).log == KeptRecords(actions, records, 0, 1)
  {
    LogFromStart(OpsOf(actions));
    SurvivorsAreKept(actions, records, 0, 1);
    assert actions[0..] == actions;
  }

  /** There always are such records. */
  lemma RecordsExist(actions: seq<Action>) returns (records: seq<seq<Change>>)
    ensures AllActionsTold(actions, records)
  {
    records := seq(|actions|, i requires 0 <= i < |actions| =>
      match OpOf(actions[i]) case Write(changes) => changes case _ => []);
    forall i | 0 <= i < |actions| ensures Told(actions[i], records[i]) {
      if actions[i].Flushing? { FlushIsTold(actions[i].flush); }
    }
  }

  lemma OneFlush(f: Flush, records: seq<Change>)
    requires OpOf(Flushing(f)) == Write(records)
    ensures OpsOf([Flushing(f), Closing(true)]) == [Write(records), Commit]
  {
    var actions := [Flushing(f), Closing(true)];
    assert actions[1..] == [Closing(true)] && actions[1..][1..] == [];
  }

  lemma FlushAndCommit(s: A.State, records: seq<Change>)
    requires s.levels == FRESH
    ensures A.Run(s, [Write(records), Commit]).log == s.log + records
  {
    TransactionIsExact(s, Made(records), true);
    assert Trace(Made(records)) + [Commit] == [Write(records), Commit];
  }

  /** One flush and a commit of the root: exactly its objects are told. */
  lemma FlushThenCommit(s: A.State, f: Flush, records: seq<Change>)
    requires s.levels == FRESH && FlushTold(f, records)
    ensures A.Run(s, OpsOf([Flushing(f), Closing(true)])).log == s.log + records
  {
    ActionIsTold(Flushing(f), records);
    FlushAndCommit(s, records);
    OneFlush(f, records);
  }
}
