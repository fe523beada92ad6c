/**
  The audit buffer of `app/core/audit_logging.py`: changes are collected per open
  transaction and written to the log only when the root transaction commits; savepoints
  merge into their parent when released and are dropped when rolled back.
 */
module AuditBuffer {
  import opened Prelude

  datatype Operation = Create | Update | Delete | BulkInsert | BulkUpdate | BulkDelete

  datatype Change = Change(
    operation: Operation, entity: string, ids: seq<(string, string)>, fields: seq<string>, rows: Option<int>)

  /** A mapped object: its table, its identifiers, the changed columns, and `is_modified`. */
  datatype Entity = Entity(table: string, ids: seq<(string, string)>, fields: seq<string>, modified: bool)

  datatype Flush = Flush(created: seq<Entity>, dirty: seq<Entity>, deleted: seq<Entity>)

  datatype BulkKind = Insert | Modify | Remove | Select

  /* ---- what a statement records ---- */

  function Recorded(operation: Operation, e: Entity): Change { Change(operation, e.table, e.ids, e.fields, None) }

  /** Objects of one kind; an update without a modified column is not recorded. */
  function RecordedAll(operation: Operation, objects: seq<Entity>): seq<Change> {
    if objects == [] then []
    else
      var n := |objects| - 1;
      RecordedAll(operation, objects[..n]) +
      if operation == Update && !objects[n].modified then [] else [Recorded(operation, objects[n])]
  }

  function FlushChanges(f: Flush): seq<Change> {
    RecordedAll(Create, f.created) + RecordedAll(Update, f.dirty) + RecordedAll(Delete, f.deleted)
  }

  function BulkChanges(kind: BulkKind, table: Option<string>, rows: Option<int>): seq<Change> {
    if kind == Select || table.None? then []
    else
      var operation := match kind case Insert => BulkInsert case Modify => BulkUpdate case _ => BulkDelete;
      [Change(operation, table.value, [], [], rows)]
  }

  /* ---- a run of a session ---- */

  /** `Commit` and `Rollback` close the innermost open transaction: a savepoint, or the root. */
  datatype Op = Write(changes: seq<Change>) | Begin | Commit | Rollback

  /** One buffer per open transaction, the root first. */
  datatype State = State(levels: seq<seq<Change>>, log: seq<Change>)

  const FRESH: seq<seq<Change>> := [[]]

  function Step(s: State, op: Op): (r: State)
    requires |s.levels| > 0
    ensures |r.levels| > 0
  {
    var n := |s.levels|;
    match op
    case Write(changes) => s.(levels := s.levels[..n - 1] + [s.levels[n - 1] + changes])
    case Begin => s.(levels := s.levels + [[]])
    case Commit =>
      if n == 1 then State(FRESH, s.log + s.levels[0])
      else s.(levels := s.levels[..n - 2] + [s.levels[n - 2] + s.levels[n - 1]])
    case Rollback => s.(levels := if n == 1 then FRESH else s.levels[..n - 1])
  }

  function Run(s: State, ops: seq<Op>): State
    requires |s.levels| > 0
    decreases ops
  {
    if ops == [] then s else Run(Step(s, ops[0]), ops[1..])
  }

  /* ---- which changes should reach the log ---- */

  /** How many transactions are open after `op`. */
  function Depth(n: nat, op: Op): (r: nat)
    requires n > 0
    ensures r > 0
  {
    match op
    case Write(_) => n
    case Begin => n + 1
    case _ => if n == 1 then 1 else n - 1
  }

  /**
    Whether a change made inside transaction `level` (0 is the root), with `n` open, is
    finally committed: every transaction around it is closed by a commit, root included.
   */
  predicate Committed(ops: seq<Op>, level: nat, n: nat)
    requires level < n
  {
    if ops == [] then false
    else
      match ops[0]
      case Write(_) => Committed(ops[1..], level, n)
      case Begin => Committed(ops[1..], level, n + 1)
      case Commit =>
        if n == 1 then true
        else Committed(ops[1..], if level == n - 1 then level - 1 else level, n - 1)
      case Rollback =>
        if n == 1 || level == n - 1 then false else Committed(ops[1..], level, n - 1)
  }

  /** The changes of `ops` that are finally committed, in the order they were made. */
  function Survivors(ops: seq<Op>, n: nat): seq<Change>
    requires n > 0
  {
    if ops == [] then []
    else
      (if ops[0].Write? && Committed(ops[1..], n - 1, n) then ops[0].changes else [])
      + Survivors(ops[1..], Depth(n, ops[0]))
  }

  /** The part of what is already buffered that the rest of the run commits, oldest first. */
  function Kept(levels: seq<seq<Change>>, ops: seq<Op>, upTo: nat): seq<Change>
    requires upTo <= |levels|
  {
    if upTo == 0 then []
    else Kept(levels, ops, upTo - 1) + if Committed(ops, upTo - 1, |levels|) then levels[upTo - 1] else []
  }

  /** What is kept of the levels that `op` does not touch is the same before and after it. */
  lemma {:induction false} KeptBelow(a: seq<seq<Change>>, b: seq<seq<Change>>, ops: seq<Op>, m: nat)
    requires ops != [] && m <= |a| && m <= |b| && a[..m] == b[..m]
    requires |a| > 0 && |b| == Depth(|a|, ops[0]) && (|a| > 1 || !(ops[0].Commit? || ops[0].Rollback?))
    requires ops[0].Commit? ==> m <= |a| - 2
    requires ops[0].Rollback? ==> m <= |a| - 1
    ensures Kept(a, ops, m) == Kept(b, ops[1..], m)
  {
    if m > 0 {
      assert a[..m - 1] == a[..m][..m - 1] && b[..m - 1] == b[..m][..m - 1];
      KeptBelow(a, b, ops, m - 1);
      assert a[m - 1] == a[..m][m - 1] && b[m - 1] == b[..m][m - 1];
    }
  }

  lemma KeptFresh(ops: seq<Op>)
    ensures Kept(FRESH, ops, 1) == []
  {
    assert Kept(FRESH, ops, 0) == [];
  }

  lemma WriteKept(s: State, ops: seq<Op>)
    requires |s.levels| > 0 && ops != [] && ops[0].Write?
    ensures
      var n, t := |s.levels|, Step(s, ops[0]);
      Kept(t.levels, ops[1..], |t.levels|) ==
      Kept(s.levels, ops, n) + if Committed(ops[1..], n - 1, n) then ops[0].changes else []
  {
    KeptBelow(s.levels, Step(s, ops[0]).levels, ops, |s.levels| - 1);
  }

  lemma BeginKept(s: State, ops: seq<Op>)
    requires |s.levels| > 0 && ops != [] && ops[0].Begin?
    ensures var t := Step(s, ops[0]); Kept(t.levels, ops[1..], |t.levels|) == Kept(s.levels, ops, |s.levels|)
  {
    KeptBelow(s.levels, Step(s, ops[0]).levels, ops, |s.levels|);
  }

  lemma KeptStep(levels: seq<seq<Change>>, ops: seq<Op>, m: nat)
    requires 0 < m <= |levels|
    ensures Kept(levels, ops, m) ==
            Kept(levels, ops, m - 1) + if Committed(ops, m - 1, |levels|) then levels[m - 1] else []
  {
  }

  lemma ReleaseKept(s: State, ops: seq<Op>)
    requires |s.levels| > 1 && ops != [] && ops[0].Commit?
    ensures var t := Step(s, ops[0]); Kept(t.levels, ops[1..], |t.levels|) == Kept(s.levels, ops, |s.levels|)
  {
    var n, t := |s.levels|, Step(s, ops[0]);
    KeptBelow(s.levels, t.levels, ops, n - 2);
    var below := Kept(s.levels, ops, n - 2);
    var both := s.levels[n - 2] + s.levels[n - 1];
    hide Kept;
    KeptStep(s.levels, ops, n);
    KeptStep(s.levels, ops, n - 1);
    KeptStep(t.levels, ops[1..], n - 1);
    assert Committed(ops, n - 2, n) == Committed(ops, n - 1, n) == Committed(ops[1..], n - 2, n - 1);
    assert below + s.levels[n - 2] + s.levels[n - 1] == below + both;
  }

  lemma UndoKept(s: State, ops: seq<Op>)
    requires |s.levels| > 1 && ops != [] && ops[0].Rollback?
    ensures var t := Step(s, ops[0]); Kept(t.levels, ops[1..], |t.levels|) == Kept(s.levels, ops, |s.levels|)
  {
    KeptBelow(s.levels, Step(s, ops[0]).levels, ops, |s.levels| - 1);
  }

  lemma RootKept(s: State, ops: seq<Op>)
    requires |s.levels| == 1 && ops != [] && (ops[0].Commit? || ops[0].Rollback?)
    ensures Kept(s.levels, ops, 1) == if ops[0].Commit? then s.levels[0] else []
    ensures Kept(FRESH, ops[1..], 1) == []
  {
    KeptFresh(ops[1..]);
    assert Kept(s.levels, ops, 0) == [];
  }

  /** One step: what it adds to the log, plus what is then kept, is what was kept before plus its own survivors. */
  lemma StepKept(s: State, ops: seq<Op>)
    requires |s.levels| > 0 && ops != []
    ensures
      var n, t := |s.levels|, Step(s, ops[0]);
      && s.log <= t.log && |t.levels| == Depth(n, ops[0])
      && t.log[|s.log|..] + Kept(t.levels, ops[1..], |t.levels|) ==
         Kept(s.levels, ops, n) + if ops[0].Write? && Committed(ops[1..], n - 1, n) then ops[0].changes else []
  {
    hide Kept, Committed;
    var n, t := |s.levels|, Step(s, ops[0]);
    match ops[0]
    case Write(_) => WriteKept(s, ops); assert t.log[|s.log|..] == [];
    case Begin => BeginKept(s, ops); assert t.log[|s.log|..] == [];
    case Commit =>
      if n == 1 {
        RootKept(s, ops);
        assert t.log[|s.log|..] == s.levels[0];
      } else {
        ReleaseKept(s, ops);
        assert t.log[|s.log|..] == [];
      }
    case Rollback =>
      if n == 1 { RootKept(s, ops); } else { UndoKept(s, ops); }
      assert t.log[|s.log|..] == [];
  }

  lemma Regroup(log: seq<Change>, emitted: seq<Change>, after: seq<Change>, before: seq<Change>, own: seq<Change>,
                rest: seq<Change>)
    requires emitted + after == before + own
    ensures log + emitted + after + rest == log + before + (own + rest)
  {
    assert log + emitted + after + rest == log + (emitted + after) + rest;
  }

  lemma {:induction false} NothingKept(levels: seq<seq<Change>>, m: nat)
    requires m <= |levels|
    ensures Kept(levels, [], m) == []
  {
    if m > 0 { NothingKept(levels, m - 1); }
  }

  /**
    Main result: for any sequence of writes, savepoints, commits and rollbacks, the log is
    exactly the changes that are finally committed, in the order made and each once.
   */
  lemma {:induction false} LogIsExact(s: State, ops: seq<Op>)
    requires |s.levels| > 0
    ensures Run(s, ops).log == s.log + Kept(s.levels, ops, |s.levels|) + Survivors(ops, |s.levels|)
    decreases ops
  {
    if ops == [] {
      NothingKept(s.levels, |s.levels|);
    } else {
      var t := Step(s, ops[0]);
      StepKept(s, ops);
      LogIsExact(t, ops[1..]);
      Regroup(s.log, t.log[|s.log|..], Kept(t.levels, ops[1..], |t.levels|), Kept(s.levels, ops, |s.levels|),
              if ops[0].Write? && Committed(ops[1..], |s.levels| - 1, |s.levels|) then ops[0].changes else [],
              Survivors(ops[1..], |t.levels|));
      assert t.log == s.log + t.log[|s.log|..];
    }
  }

  /** The same from a new session. */
  lemma LogFromStart(ops: seq<Op>)
    ensures Run(State(FRESH, []), ops).log == Survivors(ops, 1)
  {
    LogIsExact(State(FRESH, []), ops);
    KeptFresh(ops);
  }

  /* ---- the same, for nested work ---- */

  /** Work inside a transaction: writes and closed savepoints. */
  datatype Work =
    | Nothing
    | Then(first: Work, next: Work)
    | Made(changes: seq<Change>)
    | Savepoint(body: Work, released: bool)

  function Trace(w: Work): seq<Op> {
    match w
    case Nothing => []
    case Then(first, next) => Trace(first) + Trace(next)
    case Made(changes) => [Write(changes)]
    case Savepoint(body, released) => [Begin] + Trace(body) + [if released then Commit else Rollback]
  }

  /** The changes whose savepoints were all released. */
  function Effect(w: Work): seq<Change> {
    match w
    case Nothing => []
    case Then(first, next) => Effect(first) + Effect(next)
    case Made(changes) => changes
    case Savepoint(body, released) => if released then Effect(body) else []
  }

  lemma WriteStep(changes: seq<Change>, rest: seq<Op>, level: nat, n: nat)
    requires level < n
    ensures Committed([Write(changes)] + rest, level, n) == Committed(rest, level, n)
    ensures Survivors([Write(changes)] + rest, n) ==
            (if Committed(rest, n - 1, n) then changes else []) + Survivors(rest, n)
  {
    assert ([Write(changes)] + rest)[1..] == rest;
  }

  lemma BeginStep(rest: seq<Op>, level: nat, n: nat)
    requires level < n
    ensures Committed([Begin] + rest, level, n) == Committed(rest, level, n + 1)
    ensures Survivors([Begin] + rest, n) == Survivors(rest, n + 1)
  {
    assert ([Begin] + rest)[1..] == rest;
  }

  lemma CloseStep(released: bool, rest: seq<Op>, level: nat, n: nat)
    requires level < n
    ensures
      var after := [if released then Commit else Rollback] + rest;
      && Committed(after, level, n + 1) == Committed(rest, level, n)
      && Committed(after, n, n + 1) == (released && Committed(rest, n - 1, n))
      && Survivors(after, n + 1) == Survivors(rest, n)
  {
    assert ([if released then Commit else Rollback] + rest)[1..] == rest;
  }

  /** Finished work around it does not decide the fate of an earlier change. */
  lemma {:induction false} WorkIsNeutral(w: Work, rest: seq<Op>, level: nat, n: nat)
    requires level < n
    ensures Committed(Trace(w) + rest, level, n) == Committed(rest, level, n)
    decreases w
  {
    hide Committed;
    match w
    case Nothing => assert Trace(w) + rest == rest;
    case Then(first, next) =>
      assert Trace(w) + rest == Trace(first) + (Trace(next) + rest);
      WorkIsNeutral(first, Trace(next) + rest, level, n);
      WorkIsNeutral(next, rest, level, n);
    case Made(changes) => WriteStep(changes, rest, level, n);
    case Savepoint(body, released) =>
      var after := [if released then Commit else Rollback] + rest;
      WorkIsNeutral(body, after, level, n + 1);
      assert Trace(w) + rest == [Begin] + (Trace(body) + after);
      BeginStep(Trace(body) + after, level, n);
      CloseStep(released, rest, level, n);
  }

  lemma {:induction false} WorkSurvivors(w: Work, rest: seq<Op>, n: nat)
    requires n > 0
    ensures Survivors(Trace(w) + rest, n) ==
            (if Committed(rest, n - 1, n) then Effect(w) else []) + Survivors(rest, n)
    decreases w
  {
    hide Committed, Survivors;
    match w
    case Nothing => assert Trace(w) + rest == rest;
    case Then(first, next) =>
      assert Trace(w) + rest == Trace(first) + (Trace(next) + rest);
      WorkSurvivors(first, Trace(next) + rest, n);
      WorkIsNeutral(next, rest, n - 1, n);
      WorkSurvivors(next, rest, n);
    case Made(changes) => WriteStep(changes, rest, n - 1, n);
    case Savepoint(body, released) =>
      var after := [if released then Commit else Rollback] + rest;
      WorkSurvivors(body, after, n + 1);
      assert Trace(w) + rest == [Begin] + (Trace(body) + after);
      BeginStep(Trace(body) + after, n - 1, n);
      CloseStep(released, rest, n - 1, n);
  }

  /** Committing a transaction logs exactly the changes no savepoint undid; rolling it back logs nothing. */
  lemma TransactionIsExact(s: State, w: Work, commit: bool)
    requires s.levels == FRESH
    ensures Run(s, Trace(w) + [if commit then Commit else Rollback]).log == s.log + if commit then Effect(w) else []
  {
    var end := [if commit then Commit else Rollback];
    LogIsExact(s, Trace(w) + end);
    KeptFresh(Trace(w) + end);
    WorkSurvivors(w, end, 1);
    assert Survivors(end, 1) == [];
  }

  /* ---- the dictionary of pending changes ---- */

  datatype Slot = Slot(transaction: nat, changes: seq<Change>)

  /** Where a transaction's entry is. */
  function Where(pending: seq<Slot>, t: nat): (r: Option<nat>)
    ensures r.Some? ==> r.value < |pending| && pending[r.value].transaction == t
    ensures r.None? <==> forall k :: 0 <= k < |pending| ==> pending[k].transaction != t
  {
    if pending == [] then None
    else if pending[|pending| - 1].transaction == t then Some(|pending| - 1)
    else
      var r := Where(pending[..|pending| - 1], t);
      assert forall k :: 0 <= k < |pending| - 1 ==> pending[k] == pending[..|pending| - 1][k];
      r
  }

  function Buffered(pending: seq<Slot>, t: nat): seq<Change> {
    var k := Where(pending, t);
    if k.Some? then pending[k.value].changes else []
  }

  predicate OneSlotEach(pending: seq<Slot>) {
    forall i, j :: 0 <= i < j < |pending| ==> pending[i].transaction != pending[j].transaction
  }

  lemma SlotIs(pending: seq<Slot>, k: nat)
    requires OneSlotEach(pending) && k < |pending|
    ensures Where(pending, pending[k].transaction) == Some(k)
  {
  }

  function Extended(pending: seq<Slot>, t: nat, changes: seq<Change>): seq<Slot> {
    var k := Where(pending, t);
    if k.Some? then pending[k.value := Slot(t, pending[k.value].changes + changes)] else pending + [Slot(t, changes)]
  }

  function Popped(pending: seq<Slot>, t: nat): seq<Slot> {
    var k := Where(pending, t);
    if k.Some? then pending[..k.value] + pending[k.value + 1..] else pending
  }

  lemma ExtendedSlot(pending: seq<Slot>, t: nat, changes: seq<Change>, u: nat)
    requires OneSlotEach(pending)
    ensures
      var after := Extended(pending, t, changes);
      && OneSlotEach(after)
      && Buffered(after, u) == Buffered(pending, u) + (if u == t then changes else [])
      && (Where(after, u).Some? <==> Where(pending, u).Some? || u == t)
  {
    var after := Extended(pending, t, changes);
    var k :=
      if u == t then (if Where(pending, t).Some? then Where(pending, t) else Some(|pending|))
      else Where(pending, u);
    if k.Some? {
      assert after[k.value].transaction == u;
      SlotIs(after, k.value);
      if k.value < |pending| { SlotIs(pending, k.value); }
    }
  }

  lemma ExtendedSlots(pending: seq<Slot>, t: nat, changes: seq<Change>)
    requires OneSlotEach(pending)
    ensures OneSlotEach(Extended(pending, t, changes))
    ensures forall u ::
      var after := Extended(pending, t, changes);
      && Buffered(after, u) == Buffered(pending, u) + (if u == t then changes else [])
      && (Where(after, u).Some? <==> Where(pending, u).Some? || u == t)
  {
    forall u
      ensures
        var after := Extended(pending, t, changes);
        && Buffered(after, u) == Buffered(pending, u) + (if u == t then changes else [])
        && (Where(after, u).Some? <==> Where(pending, u).Some? || u == t)
    {
      ExtendedSlot(pending, t, changes, u);
    }
  }

  lemma PoppedSlot(pending: seq<Slot>, t: nat, u: nat)
    requires OneSlotEach(pending)
    ensures
      var after := Popped(pending, t);
      && OneSlotEach(after)
      && Buffered(after, u) == (if u == t then [] else Buffered(pending, u))
      && (Where(after, u).Some? <==> Where(pending, u).Some? && u != t)
  {
    var after := Popped(pending, t);
    var k, j := Where(pending, t), Where(pending, u);
    if j.Some? && u != t {
      SlotIs(after, if k.None? || j.value < k.value then j.value else j.value - 1);
    }
  }

  lemma PoppedSlots(pending: seq<Slot>, t: nat)
    requires OneSlotEach(pending)
    ensures OneSlotEach(Popped(pending, t))
    ensures forall u ::
      var after := Popped(pending, t);
      && Buffered(after, u) == (if u == t then [] else Buffered(pending, u))
      && (Where(after, u).Some? <==> Where(pending, u).Some? && u != t)
  {
    forall u
      ensures
        var after := Popped(pending, t);
        && Buffered(after, u) == (if u == t then [] else Buffered(pending, u))
        && (Where(after, u).Some? <==> Where(pending, u).Some? && u != t)
    {
      PoppedSlot(pending, t, u);
    }
  }

  /** The buffer of every open transaction. */
  function Levels(open: seq<nat>, pending: seq<Slot>): (r: seq<seq<Change>>)
    ensures |r| == |open|
  {
    seq(|open|, k requires 0 <= k < |open| => Buffered(pending, open[k]))
  }

  lemma LevelsExtended(open: seq<nat>, pending: seq<Slot>, level: nat, changes: seq<Change>)
    requires Distinct(open) && level < |open| && OneSlotEach(pending)
    ensures
      var was := Levels(open, pending);
      Levels(open, Extended(pending, open[level], changes)) == was[level := was[level] + changes]
  {
    ExtendedSlots(pending, open[level], changes);
    hide Extended, Buffered;
  }

  lemma LevelsPrefix(open: seq<nat>, pending: seq<Slot>, n: nat)
    requires n <= |open|
    ensures Levels(open[..n], pending) == Levels(open, pending)[..n]
  {
  }

  lemma TopExtended(levels: seq<seq<Change>>, changes: seq<Change>)
    requires |levels| > 0
    ensures
      var n := |levels|;
      && levels[n - 1 := levels[n - 1] + changes] == levels[..n - 1] + [levels[n - 1] + changes]
      && levels[n - 1 := levels[n - 1] + []] == levels
  {
    assert levels[|levels| - 1] + [] == levels[|levels| - 1];
  }

  lemma OnlyRoot(pending: seq<Slot>, root: nat)
    requires OneSlotEach(pending) && forall t :: Where(pending, t).Some? ==> t == root
    ensures |pending| <= 1
    ensures Buffered(pending, root) == if pending == [] then [] else pending[0].changes
  {
    forall k | 0 <= k < |pending| ensures pending[k].transaction == root { SlotIs(pending, k); }
    if pending != [] { SlotIs(pending, 0); }
  }

  /** The SQLAlchemy session the listeners are attached to. */
  class AuditedSession {
    var open: seq<nat>       // open transactions, the root first
    var unused: nat          // identity of the next transaction object
    var pending: seq<Slot>   // session.info["audit_changes"], in insertion order
    var log: seq<Change>

    ghost predicate Valid()
      reads this
    {
      && |open| > 0 && Distinct(open)
      && (forall k :: 0 <= k < |open| ==> open[k] < unused)
      && OneSlotEach(pending)
      && (forall t :: Where(pending, t).Some? ==> t in open)
    }

    function Buffers(): State
      reads this
    {
      State(Levels(open, pending), log)
    }

    constructor ()
      ensures Valid() && Buffers() == State(FRESH, [])
    {
      open, unused, pending, log := [0], 1, [], [];
    }

    /** `setdefault(transaction, [])` followed by appending to the list. */
    method Extend(level: nat, changes: seq<Change>)
      requires Valid() && level < |open|
      modifies this`pending
      ensures Valid()
      ensures
        var was := Levels(open, old(pending));
        Levels(open, pending) == was[level := was[level] + changes]
      ensures forall t :: Where(pending, t).Some? <==> Where(old(pending), t).Some? || t == open[level]
    {
      var t := open[level];
      var k := Where(pending, t);
      if k.Some? {
        pending := pending[k.value := Slot(t, pending[k.value].changes + changes)];
      } else {
        pending := pending + [Slot(t, changes)];
      }
      assert pending == Extended(old(pending), t, changes);
      ExtendedSlots(old(pending), t, changes);
      LevelsExtended(open, old(pending), level, changes);
      hide *;
    }

    /** `pop(transaction, [])`. */
    method Pop(level: nat) returns (changes: seq<Change>)
      requires Valid() && level < |open|
      modifies this`pending
      ensures Valid()
      ensures changes == Levels(open, old(pending))[level]
      ensures Levels(open, pending) == Levels(open, old(pending))[level := []]
      ensures forall t :: Where(pending, t).Some? <==> Where(old(pending), t).Some? && t != open[level]
    {
      var t := open[level];
      var k := Where(pending, t);
      if k.None? { return []; }
      changes := pending[k.value].changes;
      pending := pending[..k.value] + pending[k.value + 1..];
      PoppedSlots(old(pending), t);
      hide Buffered, OneSlotEach;
    }

    /** The `after_flush` listener. */
    method Collect(f: Flush)
      requires Valid()
      modifies this`pending
      ensures Valid() && Buffers() == Step(old(Buffers()), Write(FlushChanges(f)))
    {
      hide RecordedAll, Levels;
      var changes := AppendAll([], Create, f.created);
      changes := AppendAll(changes, Update, f.dirty);
      changes := AppendAll(changes, Delete, f.deleted);
      assert changes == FlushChanges(f);
      var was := Levels(open, pending);
      Extend(|open| - 1, changes);
      TopExtended(was, changes);
    }

    method AppendAll(before: seq<Change>, operation: Operation, objects: seq<Entity>) returns (changes: seq<Change>)
      ensures changes == before + RecordedAll(operation, objects)
    {
      changes := before;
      for i := 0 to |objects|
        invariant changes == before + RecordedAll(operation, objects[..i])
      {
        assert objects[..i + 1][..i] == objects[..i];
        if operation == Update && !objects[i].modified { continue; }
        changes := changes + [Recorded(operation, objects[i])];
      }
      assert objects[..|objects|] == objects;
    }

    /** The `do_orm_execute` listener. */
    method BulkChange(kind: BulkKind, table: Option<string>, rows: Option<int>)
      requires Valid()
      modifies this`pending
      ensures Valid() && Buffers() == Step(old(Buffers()), Write(BulkChanges(kind, table, rows)))
    {
      if kind == Select { TopExtended(Levels(open, pending), []); return; }
      var was := Levels(open, pending);
      var changes := BulkChanges(kind, table, rows);
      if table.Some? { Extend(|open| - 1, changes); }
      hide Levels;
      TopExtended(was, changes);
    }

    /** A savepoint opens; nothing is written to the dictionary. */
    method BeginNested()
      requires Valid()
      modifies this`open, this`unused
      ensures Valid() && Buffers() == Step(old(Buffers()), Begin)
    {
      open, unused := open + [unused], unused + 1;
    }

    /** A savepoint's changes move to the end of its parent's list. */
    method Release()
      requires Valid() && |open| > 1
      modifies this`open, this`pending
      ensures Valid() && Buffers() == Step(old(Buffers()), Commit)
    {
      hide Levels;
      var n := |open|;
      var changes := Pop(n - 1);
      Extend(n - 2, changes);
      LevelsPrefix(open, pending, n - 1);
      open := open[..n - 1];
    }

    /** The `after_commit` listener, then the transaction closes. */
    method AfterCommit()
      requires Valid()
      modifies this
      ensures Valid() && Buffers() == Step(old(Buffers()), Commit)
    {
      var n := |open|;
      if n > 1 {
        Release();
        return;
      }
      ghost var before, root := log, open[0];
      OnlyRoot(pending, root);
      for i := 0 to |pending|
        invariant log == before + if i == 0 then [] else Buffered(pending, root)
        invariant pending == old(pending) && open == old(open) && unused == old(unused)
      {
        log := log + pending[i].changes;
      }
      pending := [];
      open, unused := [unused], unused + 1;
    }

    /** The `after_rollback` listener, then the transaction closes. */
    method AfterRollback()
      requires Valid()
      modifies this
      ensures Valid() && Buffers() == Step(old(Buffers()), Rollback)
    {
      var n := |open|;
      if n > 1 {
        var dropped := Pop(n - 1);
        LevelsPrefix(open, pending, n - 1);
        open := open[..n - 1];
      } else {
        pending := [];
        open, unused := [unused], unused + 1;
      }
    }
  }
}
