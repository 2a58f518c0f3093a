/**
  The transactional outbox: a table of staged mails that is flushed into two directories by file
  writes inside a database transaction. The files are not part of the transaction: a rollback or a
  crash takes back the table's changes and leaves the files as they are.
 */
module Outbox {
  import opened Wrappers

  type Name = string
  type Data = string

  /** Attempts after which a row is dead. */
  const MAX_RETRY := 3

  datatype Row = Row(data: Data, flushed: bool, retry: nat)
  datatype Item = Item(name: Name, data: Data)
  type Table = map<Name, Row>
  type Dir = map<Name, Data>

  predicate Pending(r: Row) { !r.flushed && r.retry < MAX_RETRY }
  predicate Dead(r: Row) { !r.flushed && r.retry >= MAX_RETRY }

  /** How far the flush loop is with its current item. */
  datatype Phase = NeedArchive | NeedOutbox | NeedMark

  /** An open flush transaction: its private view of the table and the items still to do. */
  datatype Tx = Tx(work: Table, items: seq<Item>, phase: Phase)

  /** The committed table, the two directories, the open transaction and, as history, everything
      that was ever renamed into archive/. */
  datatype State = State(rows: Table, archive: Dir, outbox: Dir, tx: Option<Tx>, archived: set<Item>)

  /** The atomic steps. `bumped` tells whether the ignored UPDATE of retry_count took effect. */
  datatype Action =
    | Stage(name: Name, data: Data)
    | Begin(items: seq<Item>)
    | WriteArchive
    | WriteOutbox
    | Mark
    | FileError(bumped: bool)
    | Commit
    | Abort                         // rollback, failed commit or crash
    | PruneFlushed
    | PurgeDeadLetters

  /** SELECT name, data FROM staged WHERE flushed = 0 AND retry_count < 3, in any order. */
  ghost predicate Selects(items: seq<Item>, rows: Table) {
    && (forall i :: 0 <= i < |items| ==>
          items[i].name in rows && Pending(rows[items[i].name]) && rows[items[i].name].data == items[i].data)
    && (forall i, j :: 0 <= i < j < |items| ==> items[i].name != items[j].name)
    && (forall n :: n in rows && Pending(rows[n]) ==> Waiting(items, n))
  }

  ghost predicate Waiting(items: seq<Item>, n: Name) {
    exists i :: 0 <= i < |items| && items[i].name == n
  }

  function Upsert(rows: Table, name: Name, data: Data): Table {
    rows[name := Row(data, false, 0)]
  }

  function Prune(rows: Table): Table {
    map n | n in rows && !rows[n].flushed :: rows[n]
  }

  function Purge(rows: Table): Table {
    map n | n in rows && !Dead(rows[n]) :: rows[n]
  }

  function Bump(rows: Table, n: Name, bumped: bool): Table {
    if bumped && n in rows then rows[n := rows[n].(retry := rows[n].retry + 1)] else rows
  }

  function SetFlushed(rows: Table, n: Name): Table {
    if n in rows then rows[n := rows[n].(flushed := true)] else rows
  }

  /** One step; a step that is not enabled changes nothing. A writer that finds the transaction open
      waits or gives up, so the committed table never changes while a flush is running. */
  ghost function Step(s: State, a: Action): State {
    match s.tx
    case None =>
      (match a
       case Stage(n, d) => s.(rows := Upsert(s.rows, n, d))
       case PruneFlushed => s.(rows := Prune(s.rows))
       case PurgeDeadLetters => s.(rows := Purge(s.rows))
       case Begin(items) =>
         if items != [] && Selects(items, s.rows) then s.(tx := Some(Tx(s.rows, items, NeedArchive))) else s
       case _ => s)
    case Some(tx) =>
      if a.Abort? then s.(tx := None)
      else if a.Commit? && tx.items == [] then s.(rows := tx.work, tx := None)
      else if tx.items == [] then s
      else FlushStep(s, tx, a)
  }

  ghost function FlushStep(s: State, tx: Tx, a: Action): State
    requires tx.items != []
  {
    var Item(n, d) := tx.items[0];
    match (a, tx.phase)
    case (WriteArchive, NeedArchive) =>
      s.(archive := s.archive[n := d], archived := s.archived + {tx.items[0]}, tx := Some(tx.(phase := NeedOutbox)))
    case (WriteOutbox, NeedOutbox) =>
      s.(outbox := s.outbox[n := d], tx := Some(tx.(phase := NeedMark)))
    case (Mark, NeedMark) =>
      s.(tx := Some(Tx(SetFlushed(tx.work, n), tx.items[1..], NeedArchive)))
    case (FileError(bumped), NeedArchive) =>
      s.(tx := Some(Tx(Bump(tx.work, n, bumped), tx.items[1..], NeedArchive)))
    case (FileError(bumped), NeedOutbox) =>
      s.(tx := Some(Tx(Bump(tx.work, n, bumped), tx.items[1..], NeedArchive)))
    case _ => s
  }

  ghost function Run(s: State, acts: seq<Action>): State
    decreases |acts|
  {
    if acts == [] then s else Run(Step(s, acts[0]), acts[1..])
  }

  ghost predicate Initial(s: State) {
    s.rows == map[] && s.archive == map[] && s.outbox == map[] && s.tx == None && s.archived == {}
  }

  // ---------- the invariant ----------

  /** Exactly this content is in both directories. */
  ghost predicate Delivered(s: State, n: Name, d: Data) {
    n in s.archive && s.archive[n] == d && n in s.outbox && s.outbox[n] == d
  }

  ghost predicate RowOk(s: State, n: Name, r: Row) {
    (r.flushed ==> Delivered(s, n, r.data)) && r.retry <= MAX_RETRY
  }

  ghost predicate Inv(s: State) {
    && (forall n :: n in s.rows ==> RowOk(s, n, s.rows[n]))
    && (forall n :: n in s.archive ==> Item(n, s.archive[n]) in s.archived)
    && (forall n :: n in s.outbox ==> Item(n, s.outbox[n]) in s.archived)
    && (s.tx.Some? ==> TxOk(s, s.tx.value))
  }

  ghost predicate TxOk(s: State, tx: Tx) {
    && tx.work.Keys == s.rows.Keys
    && (forall n :: n in tx.work ==> RowOk(s, n, tx.work[n]) && tx.work[n].data == s.rows[n].data)
    && (forall i :: 0 <= i < |tx.items| ==> ItemOk(s, tx, tx.items[i]))
    && (forall i, j :: 0 <= i < j < |tx.items| ==> tx.items[i].name != tx.items[j].name)
    && (tx.items == [] ==> tx.phase == NeedArchive)
    && (tx.phase != NeedArchive ==> tx.items != [] && tx.items[0].name in s.archive
                                      && s.archive[tx.items[0].name] == tx.items[0].data)
    && (tx.phase == NeedMark ==> Delivered(s, tx.items[0].name, tx.items[0].data))
  }

  /** An item still to do is an untouched pending row. */
  ghost predicate ItemOk(s: State, tx: Tx, it: Item) {
    it.name in s.rows && s.rows[it.name].data == it.data && Pending(s.rows[it.name]) && it.name in tx.work
    && tx.work[it.name] == s.rows[it.name]
  }

  lemma StepKeepsInv(s: State, a: Action)
    requires Inv(s)
    ensures Inv(Step(s, a))
  {
    if s.tx.None? {
      IdleStepKeeps(s, a);
    } else if a.Abort? || s.tx.value.items == [] {
    } else {
      FlushStepKeeps(s, s.tx.value, a);
    }
  }

  lemma FlushStepKeeps(s: State, tx: Tx, a: Action)
    requires Inv(s) && s.tx == Some(tx) && tx.items != []
    ensures Inv(FlushStep(s, tx, a))
  {
    match (a, tx.phase)
    case (WriteArchive, NeedArchive) => ArchiveKeeps(s, tx);
    case (WriteOutbox, NeedOutbox) => OutboxKeeps(s, tx);
    case (Mark, NeedMark) => NextKeeps(s, tx, SetFlushed(tx.work, tx.items[0].name));
    case (FileError(b), NeedArchive) => NextKeeps(s, tx, Bump(tx.work, tx.items[0].name, b));
    case (FileError(b), NeedOutbox) => NextKeeps(s, tx, Bump(tx.work, tx.items[0].name, b));
    case _ =>
  }

  /** A step outside a flush. */
  lemma IdleStepKeeps(s: State, a: Action)
    requires Inv(s) && s.tx.None?
    ensures Inv(Step(s, a))
  {
    match a
    case Stage(n, d) =>
      assert forall m :: m in s.rows ==> RowOk(s, m, s.rows[m]);
    case PruneFlushed =>
    case PurgeDeadLetters =>
    case Begin(items) =>
    case _ =>
  }

  /** Writing archive/ does not disturb rows that are already delivered: they are not being flushed. */
  lemma ArchiveKeeps(s: State, tx: Tx)
    requires Inv(s) && s.tx == Some(tx) && tx.items != [] && tx.phase == NeedArchive
    ensures Inv(FlushStep(s, tx, WriteArchive))
  {
    var t := FlushStep(s, tx, WriteArchive);
    assert ItemOk(s, tx, tx.items[0]);
    forall n | n in t.rows ensures RowOk(t, n, t.rows[n]) { assert RowOk(s, n, s.rows[n]); }
    forall n | n in tx.work ensures RowOk(t, n, tx.work[n]) { assert RowOk(s, n, tx.work[n]); }
    forall i | 0 <= i < |tx.items| ensures ItemOk(t, t.tx.value, tx.items[i]) { assert ItemOk(s, tx, tx.items[i]); }
  }

  lemma OutboxKeeps(s: State, tx: Tx)
    requires Inv(s) && s.tx == Some(tx) && tx.items != [] && tx.phase == NeedOutbox
    ensures Inv(FlushStep(s, tx, WriteOutbox))
  {
    var t := FlushStep(s, tx, WriteOutbox);
    assert ItemOk(s, tx, tx.items[0]);
    forall n | n in t.rows ensures RowOk(t, n, t.rows[n]) { assert RowOk(s, n, s.rows[n]); }
    forall n | n in tx.work ensures RowOk(t, n, tx.work[n]) { assert RowOk(s, n, tx.work[n]); }
    forall i | 0 <= i < |tx.items| ensures ItemOk(t, t.tx.value, tx.items[i]) { assert ItemOk(s, tx, tx.items[i]); }
  }

  /** Going on to the next item after updating the row of the current one. */
  lemma NextKeeps(s: State, tx: Tx, work: Table)
    requires Inv(s) && s.tx == Some(tx) && tx.items != []
    requires var n := tx.items[0].name; n in tx.work ==>
      && work.Keys == tx.work.Keys
      && (forall m :: m in work && m != n ==> work[m] == tx.work[m])
      && work[n].data == tx.work[n].data && RowOk(s, n, work[n])
    ensures Inv(s.(tx := Some(Tx(work, tx.items[1..], NeedArchive))))
  {
    var next := Tx(work, tx.items[1..], NeedArchive);
    var t := s.(tx := Some(next));
    assert ItemOk(s, tx, tx.items[0]);
    forall n | n in t.rows ensures RowOk(t, n, t.rows[n]) { assert RowOk(s, n, s.rows[n]); }
    forall n | n in work ensures RowOk(t, n, work[n]) && work[n].data == t.rows[n].data {
      assert RowOk(s, n, tx.work[n]);
    }
    forall i | 0 <= i < |next.items| ensures ItemOk(t, next, next.items[i]) {
      assert ItemOk(s, tx, tx.items[i + 1]);
    }
  }

  lemma {:induction false} RunKeepsInv(s: State, acts: seq<Action>)
    requires Inv(s)
    ensures Inv(Run(s, acts))
    decreases |acts|
  {
    if acts != [] {
      StepKeepsInv(s, acts[0]);
      RunKeepsInv(Step(s, acts[0]), acts[1..]);
    }
  }

  /** In every reachable state a row marked as flushed has exactly its data in both directories, and
      whatever is in outbox/ was in archive/ before, whichever writes fail and wherever a crash falls. */
  lemma FlushedMeansDelivered(s0: State, acts: seq<Action>)
    requires Initial(s0)
    ensures var s := Run(s0, acts);
      && (forall n :: n in s.rows && s.rows[n].flushed ==> Delivered(s, n, s.rows[n].data))
      && (forall n :: n in s.outbox ==> Item(n, s.outbox[n]) in s.archived)
      && (forall n :: n in s.rows ==> s.rows[n].retry <= MAX_RETRY)
  {
    RunKeepsInv(s0, acts);
    var s := Run(s0, acts);
    forall n | n in s.rows ensures RowOk(s, n, s.rows[n]) {}
  }

  /** At the very step that changes a file of outbox/, archive/ holds the same content. */
  lemma ArchiveFirst(s: State, a: Action, n: Name)
    requires Inv(s)
    requires n in Step(s, a).outbox && !(n in s.outbox && s.outbox[n] == Step(s, a).outbox[n])
    ensures n in s.archive && s.archive[n] == Step(s, a).outbox[n]
  {
  }

  // ---------- nothing is lost ----------

  /** A staged content is in the table, or it has left the table after being delivered. */
  ghost predicate Held(s: State, n: Name, d: Data) {
    if n in s.rows then s.rows[n].data == d else Delivered(s, n, d)
  }

  /** Somewhere along the run the row was purged, undelivered, after its third failed attempt. */
  ghost predicate Buried(s: State, n: Name, acts: seq<Action>)
    decreases |acts|
  {
    acts != [] &&
    (|| (acts[0].PurgeDeadLetters? && n in s.rows && !s.rows[n].flushed && s.rows[n].retry == 3)
     || Buried(Step(s, acts[0]), n, acts[1..]))
  }

  lemma StepKeepsHeld(s: State, n: Name, d: Data, a: Action)
    requires Inv(s) && Held(s, n, d) && !(a.Stage? && a.name == n)
    requires !(a.PurgeDeadLetters? && n in s.rows && !s.rows[n].flushed && s.rows[n].retry == 3)
    ensures Held(Step(s, a), n, d)
  {
    if n in s.rows { assert RowOk(s, n, s.rows[n]); }
    if s.tx.Some? && s.tx.value.items != [] {
      assert ItemOk(s, s.tx.value, s.tx.value.items[0]);
    }
  }

  /** A row leaves the table only delivered and pruned, or undelivered and purged after its third failed
      attempt. */
  lemma RowLeaves(s: State, a: Action, n: Name)
    requires Inv(s) && n in s.rows && n !in Step(s, a).rows
    ensures if s.rows[n].flushed then a.PruneFlushed? && Delivered(s, n, s.rows[n].data)
            else a.PurgeDeadLetters? && s.rows[n].retry == 3
  {
    assert RowOk(s, n, s.rows[n]);
  }

  /** No mail is lost: until it is staged again, a staged content stays in the table or is delivered,
      unless it was purged after its attempts were used up. */
  lemma {:induction false} NoLoss(s: State, n: Name, d: Data, acts: seq<Action>)
    requires Inv(s) && Held(s, n, d)
    requires forall i :: 0 <= i < |acts| ==> !(acts[i].Stage? && acts[i].name == n)
    ensures Held(Run(s, acts), n, d) || Buried(s, n, acts)
    decreases |acts|
  {
    if acts != [] && !(acts[0].PurgeDeadLetters? && n in s.rows && !s.rows[n].flushed && s.rows[n].retry == 3) {
      StepKeepsInv(s, acts[0]);
      StepKeepsHeld(s, n, d, acts[0]);
      NoLoss(Step(s, acts[0]), n, d, acts[1..]);
    }
  }

  // ---------- flushing quiesces ----------

  ghost predicate NothingStaged(acts: seq<Action>) {
    forall i :: 0 <= i < |acts| ==> !acts[i].Stage?
  }

  /** Retry updates whose failure the flush ignored. */
  ghost function Ignored(acts: seq<Action>): nat {
    if acts == [] then 0 else (if acts[0] == FileError(false) then 1 else 0) + Ignored(acts[1..])
  }

  /** Commits that end a flush. */
  ghost function Commits(s: State, acts: seq<Action>): nat
    decreases |acts|
  {
    if acts == [] then 0
    else (if acts[0].Commit? && s.tx.Some? && s.tx.value.items == [] then 1 else 0)
         + Commits(Step(s, acts[0]), acts[1..])
  }

  /** Every pending row has k attempts counted; inside a flush, every pending row is still to do or has
      one more. */
  ghost predicate Tried(s: State, k: int) {
    && (forall n :: n in s.rows && Pending(s.rows[n]) ==> s.rows[n].retry >= k)
    && (s.tx.Some? ==> Counted(s.tx.value.work, s.tx.value.items, k + 1))
  }

  /** What one step adds to the attempts that are counted for every pending row. */
  ghost function Gain(s: State, a: Action): int {
    if a.Commit? && s.tx.Some? && s.tx.value.items == [] then 1 else if a == FileError(false) then -1 else 0
  }

  lemma StepTried(s: State, a: Action, k: int)
    requires Inv(s) && Tried(s, k) && !a.Stage?
    ensures Tried(Step(s, a), k + Gain(s, a))
  {
    if s.tx.Some? && s.tx.value.items != [] {
      assert ItemOk(s, s.tx.value, s.tx.value.items[0]);
      ItemTried(s, a, k);
    }
  }

  /** In the transaction's view, a pending row is still to do or has k attempts. */
  ghost predicate Counted(work: Table, items: seq<Item>, k: int) {
    forall n :: n in work && Pending(work[n]) ==> Waiting(items, n) || work[n].retry >= k
  }

  lemma ItemTried(s: State, a: Action, k: int)
    requires Tried(s, k) && !a.Stage?
    requires s.tx.Some? && s.tx.value.items != [] && ItemOk(s, s.tx.value, s.tx.value.items[0])
    ensures Tried(Step(s, a), k + Gain(s, a))
  {
    var tx := s.tx.value;
    var n := tx.items[0].name;
    match a
    case Mark => NextCounted(tx.work, SetFlushed(tx.work, n), tx.items, k + 1, k + 1);
    case FileError(b) => FailedCounted(tx, k, b);
    case _ =>
  }

  lemma FailedCounted(tx: Tx, k: int, b: bool)
    requires tx.items != [] && Counted(tx.work, tx.items, k + 1) && tx.items[0].name in tx.work
    requires tx.work[tx.items[0].name].retry >= k
    ensures Counted(Bump(tx.work, tx.items[0].name, b), tx.items[1..], if b then k + 1 else k)
  {
    NextCounted(tx.work, Bump(tx.work, tx.items[0].name, b), tx.items, k + 1, if b then k + 1 else k);
  }

  /** Going on to the next item. */
  lemma NextCounted(work: Table, next: Table, items: seq<Item>, k: int, k': int)
    requires items != [] && Counted(work, items, k) && k' <= k && next.Keys == work.Keys
    requires forall n :: n in work && n != items[0].name ==> next[n] == work[n]
    requires items[0].name in next && Pending(next[items[0].name]) ==> next[items[0].name].retry >= k'
    ensures Counted(next, items[1..], k')
  {
    forall n | n in next && Pending(next[n]) ensures Waiting(items[1..], n) || next[n].retry >= k' {
      if n != items[0].name && Waiting(items, n) { WaitingTail(items, n); }
    }
  }

  lemma WaitingTail(items: seq<Item>, n: Name)
    requires Waiting(items, n) && items[0].name != n
    ensures Waiting(items[1..], n)
  {
    var i :| 0 <= i < |items| && items[i].name == n;
    assert items[1..][i - 1].name == n;
  }

  lemma {:induction false} RunTried(s: State, acts: seq<Action>, k: int)
    requires Inv(s) && Tried(s, k) && NothingStaged(acts)
    ensures Tried(Run(s, acts), k + Commits(s, acts) - Ignored(acts))
    decreases |acts|
  {
    if acts != [] {
      StepKeepsInv(s, acts[0]);
      assert NothingStaged(acts[1..]);
      StepTried(s, acts[0], k);
      RunTried(Step(s, acts[0]), acts[1..], k + Gain(s, acts[0]));
    }
  }

  /** Without re-staging, three committed flushes, and one more for every retry update whose failure was
      ignored, leave no pending row: each is flushed or dead. */
  lemma ThreeFlushesSuffice(s: State, acts: seq<Action>)
    requires Inv(s) && s.tx.None? && NothingStaged(acts)
    requires Commits(s, acts) >= 3 + Ignored(acts)
    ensures forall n :: n in Run(s, acts).rows ==> Run(s, acts).rows[n].flushed || Run(s, acts).rows[n].retry == 3
  {
    RunTried(s, acts, 0);
    RunKeepsInv(s, acts);
    forall n | n in Run(s, acts).rows ensures Run(s, acts).rows[n].flushed || Run(s, acts).rows[n].retry == 3 {
      assert RowOk(Run(s, acts), n, Run(s, acts).rows[n]);
    }
  }

  // ---------- the store ----------

  /** What happens to one item of a flush. `bumped` as in FileError. */
  datatype Fate = Delivers | ArchiveError(bumped: bool) | OutboxError(bumped: bool) | MarkError | CrashBefore | CrashBetween | CrashAfter

  /** Fates that end the whole flush without COMMIT. */
  predicate Fatal(f: Fate) { f.MarkError? || f.CrashBefore? || f.CrashBetween? || f.CrashAfter? }

  /** The row of an item whose flush is not fatal, after COMMIT. */
  function Settled(r: Row, f: Fate): Row {
    if f.Delivers? then r.(flushed := true)
    else if (f.ArchiveError? || f.OutboxError?) && f.bumped then r.(retry := r.retry + 1)
    else r
  }

  function Settle(rows: Table, fates: Name -> Fate): Table {
    map n | n in rows :: if Pending(rows[n]) then Settled(rows[n], fates(n)) else rows[n]
  }

  /** The flush ends in COMMIT, or has nothing to do. */
  ghost predicate Succeeds(rows: Table, fates: Name -> Fate, commits: bool) {
    || (forall n :: n in rows ==> !Pending(rows[n]))
    || (commits && forall n :: n in rows && Pending(rows[n]) ==> !Fatal(fates(n)))
  }

  /** The table after the flush. */
  ghost function Flushed(rows: Table, fates: Name -> Fate, commits: bool): Table {
    if Succeeds(rows, fates, commits) then Settle(rows, fates) else rows
  }

  ghost function Deliveries(rows: Table, fates: Name -> Fate): set<Name> {
    set n | n in rows && Pending(rows[n]) && fates(n).Delivers?
  }

  /** What a flush makes of the table, row by row: below three attempts an unflushed row becomes flushed if its
      two files are written, has one attempt more if one of them fails and the update of the count works, and
      else stays; all other rows stay. It succeeds if there is no such row, or no row stops it and COMMIT works. */
  lemma FlushMeans(rows: Table, fates: Name -> Fate, commits: bool)
    ensures Settle(rows, fates).Keys == rows.Keys
    ensures forall n :: n in rows && (rows[n].flushed || rows[n].retry >= 3) ==> Settle(rows, fates)[n] == rows[n]
    ensures forall n :: n in rows && !rows[n].flushed && rows[n].retry < 3 ==>
      var r, f := rows[n], fates(n);
      && (f.Delivers? ==> Settle(rows, fates)[n] == Row(r.data, true, r.retry))
      && (f == ArchiveError(true) || f == OutboxError(true) ==> Settle(rows, fates)[n] == Row(r.data, false, r.retry + 1))
      && (f == ArchiveError(false) || f == OutboxError(false) ==> Settle(rows, fates)[n] == r)
    ensures Succeeds(rows, fates, commits) <==>
      || (forall n :: n in rows ==> rows[n].flushed || rows[n].retry >= 3)
      || (commits && forall n :: n in rows && !rows[n].flushed && rows[n].retry < 3 ==>
                       fates(n).Delivers? || fates(n).ArchiveError? || fates(n).OutboxError?)
    ensures forall n :: n in Deliveries(rows, fates) <==> n in rows && !rows[n].flushed && rows[n].retry < 3 && fates(n).Delivers?
  {
  }

  datatype FoldResult = Done(work: Table, flushed: nat) | Stopped

  /** The transaction's view of the table, and the count, after the given items. */
  ghost function Fold(work: Table, flushed: nat, items: seq<Item>, fates: Name -> Fate): FoldResult
    decreases |items|
  {
    if items == [] then Done(work, flushed) else
    var n, f := items[0].name, fates(items[0].name);
    if n !in work || Fatal(f) then Stopped
    else Fold(work[n := Settled(work[n], f)], if f.Delivers? then flushed + 1 else flushed, items[1..], fates)
  }

  predicate Archives(f: Fate) { !f.CrashBefore? && !f.ArchiveError? }

  predicate Exports(f: Fate) { f.Delivers? || f.MarkError? || f.CrashAfter? }

  /** The steps of one item. */
  ghost function StepsOf(f: Fate): (acts: seq<Action>)
    ensures OnlyFlush(acts)
  {
    match f
    case CrashBefore => [Abort]
    case ArchiveError(bumped) => [FileError(bumped)]
    case CrashBetween => [WriteArchive, Abort]
    case OutboxError(bumped) => [WriteArchive, FileError(bumped)]
    case Delivers => [WriteArchive, WriteOutbox, Mark]
    case MarkError => [WriteArchive, WriteOutbox, Abort]
    case CrashAfter => [WriteArchive, WriteOutbox, Abort]
  }

  lemma RunOne(s: State, a: Action)
    ensures Run(s, [a]) == Step(s, a)
  {
    assert [a][1..] == [];
    assert Run(Step(s, a), []) == Step(s, a);
  }

  lemma RunTwo(s: State, a: Action, b: Action)
    ensures Run(s, [a, b]) == Step(Step(s, a), b)
  {
    assert [a, b][1..] == [b];
    RunOne(Step(s, a), b);
  }

  lemma RunThree(s: State, a: Action, b: Action, c: Action)
    ensures Run(s, [a, b, c]) == Step(Step(Step(s, a), b), c)
  {
    assert [a, b, c][1..] == [b, c];
    RunTwo(Step(s, a), b, c);
  }

  lemma BumpSettles(work: Table, n: Name)
    requires n in work
    ensures work[n := work[n]] == work
    ensures forall b :: Bump(work, n, b) == work[n := Settled(work[n], ArchiveError(b))] == work[n := Settled(work[n], OutboxError(b))]
  {
  }

  ghost predicate At(s: State, work: Table, it: Item, rest: seq<Item>, phase: Phase) {
    s.tx == Some(Tx(work, [it] + rest, phase)) && it.name in work
  }

  lemma ArchiveStep(s: State, work: Table, it: Item, rest: seq<Item>)
    requires At(s, work, it, rest, NeedArchive)
    ensures Step(s, WriteArchive) == s.(archive := s.archive[it.name := it.data], archived := s.archived + {it},
                                        tx := Some(Tx(work, [it] + rest, NeedOutbox)))
  {
  }

  lemma OutboxStep(s: State, work: Table, it: Item, rest: seq<Item>)
    requires At(s, work, it, rest, NeedOutbox)
    ensures Step(s, WriteOutbox) == s.(outbox := s.outbox[it.name := it.data], tx := Some(Tx(work, [it] + rest, NeedMark)))
  {
  }

  lemma MarkStep(s: State, work: Table, it: Item, rest: seq<Item>)
    requires At(s, work, it, rest, NeedMark)
    ensures Step(s, Mark) == s.(tx := Some(Tx(SetFlushed(work, it.name), rest, NeedArchive)))
  {
    assert ([it] + rest)[1..] == rest;
  }

  lemma FailStep(s: State, work: Table, it: Item, rest: seq<Item>, phase: Phase, bumped: bool)
    requires At(s, work, it, rest, phase) && phase != NeedMark
    ensures Step(s, FileError(bumped)) == s.(tx := Some(Tx(Bump(work, it.name, bumped), rest, NeedArchive)))
  {
    assert ([it] + rest)[1..] == rest;
  }

  /** The effects of the steps of one item. */
  ghost function AfterItem(s: State, work: Table, it: Item, rest: seq<Item>, f: Fate): State
    requires it.name in work
  {
    s.(archive := if Archives(f) then s.archive[it.name := it.data] else s.archive,
       archived := if Archives(f) then s.archived + {it} else s.archived,
       outbox := if Exports(f) then s.outbox[it.name := it.data] else s.outbox,
       tx := if Fatal(f) then None else Some(Tx(work[it.name := Settled(work[it.name], f)], rest, NeedArchive)))
  }

  /** Where the steps of one item lead. */
  lemma ItemRun(s: State, work: Table, it: Item, rest: seq<Item>, f: Fate)
    requires At(s, work, it, rest, NeedArchive)
    ensures Run(s, StepsOf(f)) == AfterItem(s, work, it, rest, f)
  {
    BumpSettles(work, it.name);
    if f.CrashBefore? {
      RunOne(s, Abort);
    } else if f.ArchiveError? {
      RunOne(s, FileError(f.bumped));
      FailStep(s, work, it, rest, NeedArchive, f.bumped);
    } else {
      ArchiveStep(s, work, it, rest);
      ArchivedItemRun(s, work, it, rest, f);
    }
  }

  /** The same for an item that reaches archive/. */
  lemma ArchivedItemRun(s: State, work: Table, it: Item, rest: seq<Item>, f: Fate)
    requires At(s, work, it, rest, NeedArchive) && Archives(f)
    ensures Run(s, StepsOf(f)) == AfterItem(s, work, it, rest, f)
  {
    ArchiveStep(s, work, it, rest);
    BumpSettles(work, it.name);
    var t := Step(s, WriteArchive);
    if f.CrashBetween? {
      RunTwo(s, WriteArchive, Abort);
    } else if f.OutboxError? {
      RunTwo(s, WriteArchive, FileError(f.bumped));
      FailStep(t, work, it, rest, NeedOutbox, f.bumped);
    } else {
      OutboxStep(t, work, it, rest);
      if f.Delivers? {
        RunThree(s, WriteArchive, WriteOutbox, Mark);
        MarkStep(Step(t, WriteOutbox), work, it, rest);
      } else {
        RunThree(s, WriteArchive, WriteOutbox, Abort);
      }
    }
  }

  /** The pending rows have been selected, except those still to do. */
  ghost predicate Selected(items: seq<Item>, rows: Table, todo: set<Name>) {
    && (forall n :: n in todo ==> n in rows && Pending(rows[n]))
    && (forall i :: 0 <= i < |items| ==>
          items[i].name in rows && Pending(rows[items[i].name]) && rows[items[i].name].data == items[i].data
          && items[i].name !in todo)
    && (forall i, j :: 0 <= i < j < |items| ==> items[i].name != items[j].name)
    && (forall n :: n in rows && Pending(rows[n]) && n !in todo ==> Waiting(items, n))
  }

  lemma SelectOne(items: seq<Item>, rows: Table, todo: set<Name>, n: Name)
    requires Selected(items, rows, todo) && n in todo
    ensures Selected(items + [Item(n, rows[n].data)], rows, todo - {n})
  {
    var more := items + [Item(n, rows[n].data)];
    assert forall i :: 0 <= i < |items| ==> more[i] == items[i];
    forall m | m in rows && Pending(rows[m]) && m !in todo - {n} ensures Waiting(more, m) {
      if m == n {
        assert more[|items|].name == n;
      } else {
        var i :| 0 <= i < |items| && items[i].name == m;
        assert more[i].name == m;
      }
    }
  }

  datatype FlushResult = Committed(n: nat) | Failed

  /** SQLiteOutboxStore with the directories it writes to. File and database failures are chosen by
      the caller; a crash ends the call. */
  class OutboxStore {
    var rows: Table
    var archive: Dir
    var outbox: Dir
    ghost var archived: set<Item>

    ghost function Abs(): State
      reads this
    {
      State(rows, archive, outbox, None, archived)
    }

    constructor ()
      ensures Initial(Abs())
    {
      rows, archive, outbox, archived := map[], map[], map[], {};
    }

    method StageMail(name: Name, data: Data)
      modifies this
      ensures Abs() == Step(old(Abs()), Stage(name, data))
      ensures rows == old(rows)[name := Row(data, false, 0)]
    {
      rows := Upsert(rows, name, data);
    }

    /** Selects the pending rows in any order. */
    method SelectPending() returns (items: seq<Item>)
      ensures Selects(items, rows)
      ensures forall n :: n in rows && !rows[n].flushed && rows[n].retry < 3 <==> Waiting(items, n)
      ensures forall i :: 0 <= i < |items| ==> items[i].name in rows && items[i].data == rows[items[i].name].data
    {
      items := [];
      var todo := set n | n in rows && Pending(rows[n]);
      while todo != {}
        invariant Selected(items, rows, todo)
        decreases todo
      {
        var n :| n in todo;
        SelectOne(items, rows, todo, n);
        items := items + [Item(n, rows[n].data)];
        todo := todo - {n};
      }
    }

    /** The body of the flush loop for one item; `rest` are the items after it. */
    method FlushItem(it: Item, fate: Fate, work: Table, ghost rest: seq<Item>)
      returns (work': Table, ok: bool, ghost acts: seq<Action>)
      requires it.name in work
      modifies this
      ensures rows == old(rows)
      ensures ok == !Fatal(fate)
      ensures ok ==> work' == work[it.name := Settled(work[it.name], fate)]
      ensures Run(State(rows, old(archive), old(outbox), Some(Tx(work, [it] + rest, NeedArchive)), old(archived)), acts)
           == State(rows, archive, outbox, if ok then Some(Tx(work', rest, NeedArchive)) else None, archived)
      ensures OnlyFlush(acts)
    {
      work', ok, acts := work, !Fatal(fate), StepsOf(fate);
      ItemRun(State(rows, archive, outbox, Some(Tx(work, [it] + rest, NeedArchive)), archived), work, it, rest, fate);
      if fate.CrashBefore? { return; }
      if fate.ArchiveError? {
        work' := Bump(work, it.name, fate.bumped);
        return;
      }
      archive := archive[it.name := it.data];
      archived := archived + {it};
      if fate.CrashBetween? { return; }
      if fate.OutboxError? {
        work' := Bump(work, it.name, fate.bumped);
        return;
      }
      outbox := outbox[it.name := it.data];
      if Fatal(fate) { return; }
      work' := SetFlushed(work, it.name);
    }

    /** The flush loop. */
    method FlushItems(items: seq<Item>, fates: Name -> Fate)
      returns (work: Table, flushed: nat, ok: bool, ghost acts: seq<Action>)
      requires forall j :: 0 <= j < |items| ==> items[j].name in rows
      modifies this
      ensures rows == old(rows)
      ensures Run(State(rows, old(archive), old(outbox), Some(Tx(rows, items, NeedArchive)), old(archived)), acts)
           == State(rows, archive, outbox, if ok then Some(Tx(work, [], NeedArchive)) else None, archived)
      ensures OnlyFlush(acts)
      ensures Fold(rows, 0, items, fates) == if ok then Done(work, flushed) else Stopped
    {
      ghost var s0 := State(rows, archive, outbox, Some(Tx(rows, items, NeedArchive)), archived);
      acts, work, flushed := [], rows, 0;
      assert items[0..] == items;
      for i := 0 to |items|
        invariant Run(s0, acts) == State(rows, archive, outbox, Some(Tx(work, items[i..], NeedArchive)), archived)
        invariant rows == s0.rows && work.Keys == rows.Keys
        invariant Fold(work, flushed, items[i..], fates) == Fold(rows, 0, items, fates)
        invariant OnlyFlush(acts)
      {
        var it := items[i];
        assert items[i..] == [it] + items[i + 1..];
        ghost var before := acts;
        ghost var steps;
        work, ok, steps := FlushItem(it, fates(it.name), work, items[i + 1..]);
        RunAppend(s0, before, steps);
        acts := before + steps;
        if !ok { return; }
        if fates(it.name).Delivers? {
          flushed := flushed + 1;
        }
      }
      assert items[|items|..] == [];
      ok := true;
    }

    /** One flush. The steps it takes are a run of the transition system, so every invariant of runs
        holds of it; on COMMIT each pending row is settled by its own fate and the count is the number
        of deliveries; otherwise the table is unchanged. `begins` tells whether the connection, BEGIN
        IMMEDIATE and the SELECT worked. */
    method Flush(begins: bool, fates: Name -> Fate, commits: bool) returns (r: FlushResult, ghost acts: seq<Action>)
      modifies this
      ensures Abs() == Run(old(Abs()), acts)
      ensures OnlyFlush(acts)
      ensures r.Committed? <==> begins && Succeeds(old(rows), fates, commits)
      ensures r.Committed? ==> r.n == |Deliveries(old(rows), fates)|
      ensures rows == if begins then Flushed(old(rows), fates, commits) else old(rows)
    {
      if !begins { return Failed, []; }
      var items := SelectPending();
      if items == [] {
        NothingPending(items, rows, fates, commits);
        return Committed(0), [];
      }
      ghost var s0 := Abs();
      var work, flushed, ok;
      ghost var steps;
      work, flushed, ok, steps := FlushItems(items, fates);
      FoldSettles(items, rows, fates, commits);
      RunAppend(s0, [Begin(items)], steps);
      BeginRuns(s0, items);
      acts := [Begin(items)] + steps;
      if !ok { return Failed, acts; }
      acts := Take(s0, acts, if commits then Commit else Abort);
      if !commits { return Failed, acts; }
      rows := work;
      r := Committed(flushed);
    }

    /** SendDMail, without other processes: it reports an error when a part fails or the flush counts no
        delivery at all. `announced` and `recorded` tell whether the emitter takes the staged and the flushed
        event (without an emitter they are true); an error of the latter comes after the delivery. */
    method SendDMail(name: Name, data: Data, stages: bool, announced: bool, begins: bool, fates: Name -> Fate, commits: bool,
                     recorded: bool) returns (ok: bool)
      modifies this
      ensures var mid := if stages then Upsert(old(rows), name, data) else old(rows);
        && (ok <==> stages && announced && begins && ReturnsNil(mid, fates, commits) && recorded)
        && rows == if stages && announced && begins then Flushed(mid, fates, commits) else mid
    {
      if !stages { return false; }
      StageMail(name, data);
      if !announced { return false; }
      ghost var acts;
      var r;
      r, acts := Flush(begins, fates, commits);
      ok := r.Committed? && r.n != 0 && recorded;
    }

    /** The rows are deleted even if the vacuum after it fails, which is reported together with the count. */
    method PruneFlushedRows(vacuumOk: bool) returns (deleted: nat, ok: bool)
      modifies this
      ensures Abs() == Step(old(Abs()), PruneFlushed)
      ensures forall n :: n in rows <==> n in old(rows) && !old(rows)[n].flushed
      ensures forall n :: n in rows ==> rows[n] == old(rows)[n]
      ensures deleted == |old(rows)| - |rows|
      ensures ok <==> vacuumOk || deleted == 0
    {
      PruneShrinks(rows);
      deleted := |rows| - |Prune(rows)|;
      rows := Prune(rows);
      ok := deleted == 0 || vacuumOk;
    }

    /** Counts the rows that a purge would remove. */
    method DeadLetterCount() returns (count: nat)
      ensures count == |rows| - |Purge(rows)|
      ensures count == |set n | n in rows && !rows[n].flushed && rows[n].retry >= 3|
      ensures count == 0 <==> Purge(rows) == rows
    {
      count := 0;
      var todo := rows.Keys;
      while todo != {}
        invariant todo <= rows.Keys && count == |DeadNames(rows) - todo|
        decreases todo
      {
        var n :| n in todo;
        OneMoreCounted(rows, todo, n);
        if Dead(rows[n]) { count := count + 1; }
        todo := todo - {n};
      }
      assert DeadNames(rows) - {} == DeadNames(rows) == set n | n in rows && !rows[n].flushed && rows[n].retry >= 3;
      PurgeRemovesDead(rows);
    }

    method PurgeDeadRows() returns (deleted: nat)
      modifies this
      ensures Abs() == Step(old(Abs()), PurgeDeadLetters)
      ensures forall n :: n in rows <==> n in old(rows) && (old(rows)[n].flushed || old(rows)[n].retry < 3)
      ensures forall n :: n in rows ==> rows[n] == old(rows)[n]
      ensures deleted == |old(rows)| - |rows|
    {
      PurgeRemovesDead(rows);
      deleted := |rows| - |Purge(rows)|;
      rows := Purge(rows);
    }
  }

  ghost function DeadNames(rows: Table): set<Name> { set n | n in rows && Dead(rows[n]) }

  lemma OneMoreCounted(rows: Table, todo: set<Name>, n: Name)
    requires n in todo && todo <= rows.Keys
    ensures |DeadNames(rows) - (todo - {n})| == |DeadNames(rows) - todo| + if Dead(rows[n]) then 1 else 0
  {
    if Dead(rows[n]) {
      assert DeadNames(rows) - (todo - {n}) == (DeadNames(rows) - todo) + {n};
    } else {
      assert DeadNames(rows) - (todo - {n}) == DeadNames(rows) - todo;
    }
  }

  lemma PurgeRemovesDead(rows: Table)
    ensures |Purge(rows)| + |DeadNames(rows)| == |rows|
    ensures DeadNames(rows) == {} <==> Purge(rows) == rows
  {
    assert rows.Keys == Purge(rows).Keys + DeadNames(rows);
    if DeadNames(rows) == {} {
      assert forall n :: n in rows ==> n !in DeadNames(rows);
      assert Purge(rows) == rows;
    }
  }

  lemma PruneShrinks(rows: Table)
    ensures |Prune(rows)| <= |rows|
  {
    assert Prune(rows).Keys <= rows.Keys;
    Subset(Prune(rows).Keys, rows.Keys);
    assert |Prune(rows).Keys| == |Prune(rows)| && |rows.Keys| == |rows|;
  }

  lemma {:induction false} Subset(a: set<Name>, b: set<Name>)
    requires a <= b
    ensures |a| <= |b|
  {
    if x :| x in a { Subset(a - {x}, b - {x}); }
  }

  lemma {:induction false} RunSnoc(s: State, acts: seq<Action>, a: Action)
    ensures Run(s, acts + [a]) == Step(Run(s, acts), a)
    decreases |acts|
  {
    if acts == [] {
      assert [a][1..] == [] && acts + [a] == [a];
      assert Run(Step(s, a), []) == Step(s, a);
    } else {
      RunSnoc(Step(s, acts[0]), acts[1..], a);
      assert (acts + [a])[1..] == acts[1..] + [a];
    }
  }

  /** Extends a recorded run by one step. */
  ghost function Take(s: State, acts: seq<Action>, a: Action): (r: seq<Action>)
    ensures r == acts + [a] && Run(s, r) == Step(Run(s, acts), a)
  {
    RunSnoc(s, acts, a);
    acts + [a]
  }

  /** Steps of a flush only. */
  ghost predicate OnlyFlush(acts: seq<Action>) {
    forall i :: 0 <= i < |acts| ==> !acts[i].Stage? && !acts[i].PruneFlushed? && !acts[i].PurgeDeadLetters?
  }

  /** The loop of Flush has settled the first i items. */
  ghost predicate Progress(items: seq<Item>, i: nat, rows: Table, work: Table, fates: Name -> Fate, sent: set<Name>) {
    && i <= |items| && Selects(items, rows) && work.Keys == rows.Keys
    && SettledUpTo(items, i, rows, work, fates) && Untouched(items[..i], rows, work) && SentFrom(items[..i], fates, sent)
  }

  ghost predicate SettledUpTo(items: seq<Item>, i: nat, rows: Table, work: Table, fates: Name -> Fate)
    requires i <= |items| && Selects(items, rows) && work.Keys == rows.Keys
  {
    forall j :: 0 <= j < i ==>
      !Fatal(fates(items[j].name)) && work[items[j].name] == Settled(rows[items[j].name], fates(items[j].name))
  }

  ghost predicate Untouched(done: seq<Item>, rows: Table, work: Table)
    requires work.Keys == rows.Keys
  {
    forall n :: n in rows && !Waiting(done, n) ==> work[n] == rows[n]
  }

  ghost predicate SentFrom(done: seq<Item>, fates: Name -> Fate, sent: set<Name>) {
    forall n :: n in sent <==> Waiting(done, n) && fates(n).Delivers?
  }

  lemma ProgressStep(items: seq<Item>, i: nat, rows: Table, work: Table, fates: Name -> Fate, sent: set<Name>, commits: bool)
    requires i < |items| && Progress(items, i, rows, work, fates, sent)
    ensures var n, f := items[i].name, fates(items[i].name);
      && n in work && n !in sent
      && (Fatal(f) ==> !Succeeds(rows, fates, commits))
      && (!Fatal(f) ==> Progress(items, i + 1, rows, work[n := Settled(work[n], f)], fates, if f.Delivers? then sent + {n} else sent))
  {
    var n, f := items[i].name, fates(items[i].name);
    assert !Waiting(items[..i], n);
    assert Pending(rows[n]);
    if !Fatal(f) {
      ProgressNext(items, i, rows, work, fates, sent);
    }
  }

  lemma ProgressNext(items: seq<Item>, i: nat, rows: Table, work: Table, fates: Name -> Fate, sent: set<Name>)
    requires i < |items| && Progress(items, i, rows, work, fates, sent)
    requires items[i].name in work && !Waiting(items[..i], items[i].name) && !Fatal(fates(items[i].name))
    ensures var n, f := items[i].name, fates(items[i].name);
      Progress(items, i + 1, rows, work[n := Settled(work[n], f)], fates, if f.Delivers? then sent + {n} else sent)
  {
    NamesDiffer(items, rows, i);
    WaitingExtends(items, i);
    SettledNext(items, i, rows, work, fates);
    UntouchedNext(items, i, rows, work, Settled(work[items[i].name], fates(items[i].name)));
  }

  lemma SettledNext(items: seq<Item>, i: nat, rows: Table, work: Table, fates: Name -> Fate)
    requires i < |items| && Selects(items, rows) && work.Keys == rows.Keys && SettledUpTo(items, i, rows, work, fates)
    requires !Fatal(fates(items[i].name)) && work[items[i].name] == rows[items[i].name]
    ensures SettledUpTo(items, i + 1, rows, work[items[i].name := Settled(work[items[i].name], fates(items[i].name))], fates)
  {
  }

  lemma UntouchedNext(items: seq<Item>, i: nat, rows: Table, work: Table, r: Row)
    requires i < |items| && items[i].name in rows && work.Keys == rows.Keys && Untouched(items[..i], rows, work)
    ensures Untouched(items[..i + 1], rows, work[items[i].name := r])
  {
    WaitingExtends(items, i);
  }

  lemma NamesDiffer(items: seq<Item>, rows: Table, i: nat)
    requires i < |items| && Selects(items, rows)
    ensures forall j :: 0 <= j < i ==> items[j].name != items[i].name
  {
  }

  lemma ProgressEnd(items: seq<Item>, rows: Table, work: Table, fates: Name -> Fate, sent: set<Name>, commits: bool)
    requires items != [] && Progress(items, |items|, rows, work, fates, sent)
    ensures Succeeds(rows, fates, commits) == commits
    ensures work == Settle(rows, fates) && sent == Deliveries(rows, fates)
  {
    assert items[..|items|] == items;
    assert Pending(rows[items[0].name]);
    forall n | n in rows && Pending(rows[n]) ensures !Fatal(fates(n)) {
      assert Waiting(items, n);
    }
    AllSettled(items, rows, work, fates);
    SentAll(items, rows, fates, sent);
  }

  lemma BeginRuns(s: State, items: seq<Item>)
    requires s.tx.None? && items != [] && Selects(items, s.rows)
    ensures Run(s, [Begin(items)]) == s.(tx := Some(Tx(s.rows, items, NeedArchive)))
  {
    RunSnoc(s, [], Begin(items));
    assert [] + [Begin(items)] == [Begin(items)];
  }

  lemma WaitingExtends(items: seq<Item>, i: nat)
    requires i < |items|
    ensures forall n :: Waiting(items[..i + 1], n) <==> Waiting(items[..i], n) || n == items[i].name
  {
    forall n ensures Waiting(items[..i + 1], n) <==> Waiting(items[..i], n) || n == items[i].name {
      if Waiting(items[..i], n) {
        var j :| 0 <= j < i && items[..i][j].name == n;
        assert items[..i + 1][j].name == n;
      }
      if Waiting(items[..i + 1], n) && n != items[i].name {
        var j :| 0 <= j < i + 1 && items[..i + 1][j].name == n;
        assert items[..i][j].name == n;
      }
      assert items[..i + 1][i] == items[i];
    }
  }

  lemma AllSettled(items: seq<Item>, rows: Table, work: Table, fates: Name -> Fate)
    requires Selects(items, rows) && work.Keys == rows.Keys
    requires forall j :: 0 <= j < |items| ==> work[items[j].name] == Settled(rows[items[j].name], fates(items[j].name))
    requires forall n :: n in rows && !Waiting(items, n) ==> work[n] == rows[n]
    ensures work == Settle(rows, fates)
  {
    forall n | n in rows ensures work[n] == Settle(rows, fates)[n] {
      if Waiting(items, n) {
        var j :| 0 <= j < |items| && items[j].name == n;
      }
    }
  }

  /** The fold's result says whether the flush stops, and otherwise what COMMIT makes of the table. */
  ghost predicate Sums(r: FoldResult, rows: Table, fates: Name -> Fate, commits: bool) {
    match r
    case Stopped => !Succeeds(rows, fates, commits)
    case Done(w, n) => w == Settle(rows, fates) && n == |Deliveries(rows, fates)| && Succeeds(rows, fates, commits) == commits
  }

  lemma FoldStep(items: seq<Item>, i: nat, work: Table, flushed: nat, fates: Name -> Fate)
    requires i < |items| && items[i].name in work
    ensures var n, f := items[i].name, fates(items[i].name);
      Fold(work, flushed, items[i..], fates)
      == if Fatal(f) then Stopped
         else Fold(work[n := Settled(work[n], f)], if f.Delivers? then flushed + 1 else flushed, items[i + 1..], fates)
  {
    assert items[i..][0] == items[i] && items[i..][1..] == items[i + 1..];
  }

  lemma {:induction false} FoldFrom(items: seq<Item>, i: nat, rows: Table, work: Table, fates: Name -> Fate,
                                    sent: set<Name>, commits: bool)
    requires items != [] && Progress(items, i, rows, work, fates, sent)
    ensures Sums(Fold(work, |sent|, items[i..], fates), rows, fates, commits)
    decreases |items| - i
  {
    if i == |items| {
      ProgressEnd(items, rows, work, fates, sent, commits);
    } else {
      var n, f := items[i].name, fates(items[i].name);
      ProgressStep(items, i, rows, work, fates, sent, commits);
      if Fatal(f) {
        FoldStep(items, i, work, |sent|, fates);
      } else {
        FoldNext(items, i, work, fates, sent);
        FoldFrom(items, i + 1, rows, work[n := Settled(work[n], f)], fates, if f.Delivers? then sent + {n} else sent, commits);
      }
    }
  }

  lemma FoldNext(items: seq<Item>, i: nat, work: Table, fates: Name -> Fate, sent: set<Name>)
    requires i < |items| && items[i].name in work && items[i].name !in sent && !Fatal(fates(items[i].name))
    ensures Fold(work, |sent|, items[i..], fates)
         == Fold(work[items[i].name := Settled(work[items[i].name], fates(items[i].name))],
                 |if fates(items[i].name).Delivers? then sent + {items[i].name} else sent|, items[i + 1..], fates)
  {
    FoldStep(items, i, work, |sent|, fates);
  }

  /** Folding over the selected rows settles every pending row by its own fate, in any order. */
  lemma FoldSettles(items: seq<Item>, rows: Table, fates: Name -> Fate, commits: bool)
    requires items != [] && Selects(items, rows)
    ensures Sums(Fold(rows, 0, items, fates), rows, fates, commits)
  {
    assert items[0..] == items;
    FoldFrom(items, 0, rows, rows, fates, {}, commits);
  }

  lemma NothingPending(items: seq<Item>, rows: Table, fates: Name -> Fate, commits: bool)
    requires Selects(items, rows) && items == []
    ensures Settle(rows, fates) == rows && Deliveries(rows, fates) == {} && Succeeds(rows, fates, commits)
  {
    forall n | n in rows ensures !Pending(rows[n]) {
      assert Pending(rows[n]) ==> Waiting(items, n);
    }
  }

  lemma SentAll(items: seq<Item>, rows: Table, fates: Name -> Fate, sent: set<Name>)
    requires Selects(items, rows)
    requires forall n :: n in sent <==> Waiting(items, n) && fates(n).Delivers?
    ensures sent == Deliveries(rows, fates)
  {
    forall n ensures Waiting(items, n) <==> n in rows && Pending(rows[n]) {
      if Waiting(items, n) {
        var j :| 0 <= j < |items| && items[j].name == n;
      }
    }
  }

  lemma {:induction false} RunAppend(s: State, a: seq<Action>, b: seq<Action>)
    ensures Run(s, a + b) == Run(Run(s, a), b)
    decreases |a|
  {
    if a == [] {
      assert a + b == b;
    } else {
      RunAppend(Step(s, a[0]), a[1..], b);
      assert (a + b)[1..] == a[1..] + b;
    }
  }

  // ---------- what a send reports ----------

  /** SendDMail returns nil: the flush, which finds this table, commits and counts a delivery. */
  ghost predicate ReturnsNil(mid: Table, fates: Name -> Fate, commits: bool) {
    Succeeds(mid, fates, commits) && |Deliveries(mid, fates)| != 0
  }

  /** Afterwards the mail is recorded as delivered. */
  ghost predicate MarkedSent(mid: Table, name: Name, fates: Name -> Fate, commits: bool) {
    var after := Flushed(mid, fates, commits);
    name in after && after[name].flushed
  }

  ghost predicate NilIsTrue(mid: Table, name: Name, fates: Name -> Fate, commits: bool) {
    ReturnsNil(mid, fates, commits) ==> MarkedSent(mid, name, fates, commits)
  }

  ghost predicate ErrorIsTrue(mid: Table, name: Name, fates: Name -> Fate, commits: bool) {
    MarkedSent(mid, name, fates, commits) ==> ReturnsNil(mid, fates, commits)
  }

  ghost predicate NoOtherPending(mid: Table, name: Name) {
    forall m :: m in mid && m != name ==> !Pending(mid[m])
  }

  lemma SentCounts(mid: Table, fates: Name -> Fate, name: Name)
    requires name in Deliveries(mid, fates)
    ensures |Deliveries(mid, fates)| != 0
  {
  }

  lemma NilIsTrueAlone(mid: Table, name: Name, fates: Name -> Fate, commits: bool)
    requires NoOtherPending(mid, name)
    ensures NilIsTrue(mid, name, fates, commits)
  {
    if ReturnsNil(mid, fates, commits) {
      var m :| m in Deliveries(mid, fates);
    }
  }

  /** Without other processes, a nil result with no other mail pending means that the own mail was delivered
      at its first attempt. */
  lemma SendDeliversAlone(rows: Table, name: Name, data: Data, fates: Name -> Fate, commits: bool)
    requires ReturnsNil(Upsert(rows, name, data), fates, commits) && NoOtherPending(rows, name)
    ensures Flushed(Upsert(rows, name, data), fates, commits)[name] == Row(data, true, 0)
  {
    var m :| m in Deliveries(Upsert(rows, name, data), fates);
  }

  /** Any other pending row can be delivered in its place. */
  lemma NilMasksFailure(mid: Table, name: Name, other: Name)
    requires other in mid && other != name && Pending(mid[other]) && name in mid && !mid[name].flushed
    ensures var fates := (m: Name) => if m == other then Delivers else ArchiveError(true);
            !NilIsTrue(mid, name, fates, true)
  {
    SentCounts(mid, (m: Name) => if m == other then Delivers else ArchiveError(true), other);
  }

  /** Whatever else happens, nil means that the mail is delivered exactly when, in the table that BEGIN
      finds, the mail has been delivered already or no other mail is pending. */
  lemma NilMeansDeliveredIff(mid: Table, name: Name)
    requires name in mid
    ensures (forall fates: Name -> Fate, commits :: NilIsTrue(mid, name, fates, commits))
       <==> mid[name].flushed || NoOtherPending(mid, name)
  {
    if NoOtherPending(mid, name) {
      forall fates: Name -> Fate, commits ensures NilIsTrue(mid, name, fates, commits) {
        NilIsTrueAlone(mid, name, fates, commits);
      }
    } else if !mid[name].flushed {
      var other :| other in mid && other != name && Pending(mid[other]);
      NilMasksFailure(mid, name, other);
      assert !NilIsTrue(mid, name, (m: Name) => if m == other then Delivers else ArchiveError(true), true);
    }
  }

  /** Whatever else happens, an error means that the mail is not delivered exactly when it had not been
      delivered before BEGIN. */
  lemma ErrorMeansUndeliveredIff(mid: Table, name: Name)
    requires name in mid
    ensures (forall fates: Name -> Fate, commits :: ErrorIsTrue(mid, name, fates, commits)) <==> !mid[name].flushed
  {
    if mid[name].flushed {
      var fates := (m: Name) => ArchiveError(true);
      assert Deliveries(mid, fates) == {};
      assert !ErrorIsTrue(mid, name, fates, true);
    } else {
      forall fates: Name -> Fate, commits ensures ErrorIsTrue(mid, name, fates, commits) {
        if MarkedSent(mid, name, fates, commits) { SentCounts(mid, fates, name); }
      }
    }
  }

  /** The call's own Stage, and then anything that other processes do before its BEGIN. */
  ghost predicate Sending(s0: State, name: Name, data: Data, others: seq<Action>) {
    && Inv(s0) && s0.tx.None? && AtBegin(s0, name, data, others).tx.None?
    && forall i :: 0 <= i < |others| ==> !(others[i].Stage? && others[i].name == name)
  }

  ghost function AtBegin(s0: State, name: Name, data: Data, others: seq<Action>): State {
    Run(Step(s0, Stage(name, data)), others)
  }

  lemma StepKeepsData(s: State, n: Name, d: Data, a: Action)
    requires Inv(s) && !(a.Stage? && a.name == n) && (n in s.rows ==> s.rows[n].data == d)
    ensures n in Step(s, a).rows ==> Step(s, a).rows[n].data == d
  {
  }

  lemma {:induction false} RunKeepsData(s: State, n: Name, d: Data, acts: seq<Action>)
    requires Inv(s) && (n in s.rows ==> s.rows[n].data == d)
    requires forall i :: 0 <= i < |acts| ==> !(acts[i].Stage? && acts[i].name == n)
    ensures n in Run(s, acts).rows ==> Run(s, acts).rows[n].data == d
    decreases |acts|
  {
    if acts != [] {
      StepKeepsInv(s, acts[0]);
      StepKeepsData(s, n, d, acts[0]);
      RunKeepsData(Step(s, acts[0]), n, d, acts[1..]);
    }
  }

  /** With other processes between Stage and BEGIN: the row is still there with its data unless it was
      delivered and pruned or purged as a dead letter; it is marked as flushed only if the files are in
      place; and what the call reports is true, for all fates, under conditions on the table at BEGIN. */
  lemma SendAmidOthers(s0: State, name: Name, data: Data, others: seq<Action>)
    requires Sending(s0, name, data, others)
    ensures var s := AtBegin(s0, name, data, others);
      && (name in s.rows ==>
            && s.rows[name].data == data && (s.rows[name].flushed ==> Delivered(s, name, data))
            && ((forall fates: Name -> Fate, commits :: NilIsTrue(s.rows, name, fates, commits))
                  <==> s.rows[name].flushed || NoOtherPending(s.rows, name))
            && ((forall fates: Name -> Fate, commits :: ErrorIsTrue(s.rows, name, fates, commits))
                  <==> !s.rows[name].flushed))
      && (name !in s.rows ==> Delivered(s, name, data) || Buried(Step(s0, Stage(name, data)), name, others))
  {
    var s1, s := Step(s0, Stage(name, data)), AtBegin(s0, name, data, others);
    StepKeepsInv(s0, Stage(name, data));
    NoLoss(s1, name, data, others);
    RunKeepsInv(s1, others);
    if name in s.rows {
      assert RowOk(s, name, s.rows[name]);
      RunKeepsData(s1, name, data, others);
      NilMeansDeliveredIff(s.rows, name);
      ErrorMeansUndeliveredIff(s.rows, name);
    }
  }

  /** No condition on the table before the call is enough: another process can stage a mail in between. */
  lemma AnotherStageMasks(s0: State, name: Name, data: Data, other: Name, d: Data)
    requires Inv(s0) && s0.tx.None? && other != name
    ensures var mid := AtBegin(s0, name, data, [Stage(other, d)]).rows;
      && Sending(s0, name, data, [Stage(other, d)]) && name in mid
      && exists fates: Name -> Fate, commits :: !NilIsTrue(mid, name, fates, commits)
  {
    RunOne(Step(s0, Stage(name, data)), Stage(other, d));
    var mid := AtBegin(s0, name, data, [Stage(other, d)]).rows;
    NilMasksFailure(mid, name, other);
    NilMeansDeliveredIff(mid, name);
  }

  /** Without other processes: a nil result means, for all fates, that the own mail was delivered exactly
      when no other mail was pending before the call. */
  lemma SendMeansDeliveredIff(rows: Table, name: Name, data: Data)
    ensures (forall fates: Name -> Fate, commits :: NilIsTrue(Upsert(rows, name, data), name, fates, commits))
       <==> NoOtherPending(rows, name)
  {
    var mid := Upsert(rows, name, data);
    NilMeansDeliveredIff(mid, name);
    assert NoOtherPending(mid, name) <==> NoOtherPending(rows, name) by {
      assert forall m :: m != name ==> (m in mid <==> m in rows);
    }
  }
}
