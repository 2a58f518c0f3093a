/**
  The lease lock: a table of rows whose expiry is stored as text and compared as text, and whose
  clean-up and insertion are separate statements that other processes may interleave with.
 */
module RunLock {
  import opened Text
  import opened Calendar

  /** A row of run_locks; the key is the map key. */
  datatype Row = Row(holder: string, acquiredAt: string, expiresAt: string)

  type Table = map<string, Row>

  // ---------- the SQL statements ----------

  /** DELETE FROM run_locks WHERE key = ? AND expires_at < ? */
  function DeleteStale(rows: Table, key: string, now: string): Table {
    if key in rows && Less(rows[key].expiresAt, now) then rows - {key} else rows
  }

  /** INSERT OR IGNORE INTO run_locks */
  function InsertOrIgnore(rows: Table, key: string, row: Row): Table {
    if key in rows then rows else rows[key := row]
  }

  /** DELETE FROM run_locks WHERE key = ? AND holder = ? */
  function DeleteHeld(rows: Table, key: string, holder: string): Table {
    if key in rows && rows[key].holder == holder then rows - {key} else rows
  }

  /** SELECT holder FROM run_locks WHERE key = ? AND expires_at >= ? */
  predicate HeldAt(rows: Table, key: string, now: string) {
    key in rows && !Less(rows[key].expiresAt, now)
  }

  class Database {
    var rows: Table
    constructor ()
      ensures rows == map[]
    {
      rows := map[];
    }
  }

  /** One process's handle on the shared table. The clock is a parameter: `now` and `expires` are the
      texts of the instants read from it. */
  class RunLockStore {
    const db: Database
    const holderID: string

    constructor (db: Database, holderID: string)
      ensures this.db == db && this.holderID == holderID
    {
      this.db, this.holderID := db, holderID;
    }

    method TryAcquire(key: string, now: string, expires: string) returns (acquired: bool, holder: string)
      modifies db
      ensures var cleaned := DeleteStale(old(db.rows), key, now);
              && db.rows == InsertOrIgnore(cleaned, key, Row(holderID, now, expires))
              && acquired == (key !in cleaned)
              && key in db.rows && holder == db.rows[key].holder
              && (acquired ==> holder == holderID)
      ensures acquired <==> key !in old(db.rows) || Less(old(db.rows)[key].expiresAt, now)
      ensures acquired ==> db.rows == old(db.rows)[key := Row(holderID, now, expires)]
      ensures !acquired ==> db.rows == old(db.rows)
      ensures forall k :: k != key ==> (k in db.rows <==> k in old(db.rows))
      ensures forall k :: k != key && k in db.rows ==> db.rows[k] == old(db.rows)[k]
    {
      db.rows := DeleteStale(db.rows, key, now);
      acquired := key !in db.rows;
      db.rows := InsertOrIgnore(db.rows, key, Row(holderID, now, expires));
      holder := db.rows[key].holder;
    }

    method Release(key: string, holder: string) returns (ok: bool)
      modifies db
      ensures db.rows == DeleteHeld(old(db.rows), key, holder)
      ensures ok <==> db.rows != old(db.rows)
      ensures ok <==> key in old(db.rows) && old(db.rows)[key].holder == holder
      ensures db.rows == if ok then old(db.rows) - {key} else old(db.rows)
    {
      ok := key in db.rows && db.rows[key].holder == holder;
      db.rows := DeleteHeld(db.rows, key, holder);
    }

    method IsHeld(key: string, now: string) returns (held: bool, holder: string)
      ensures held == HeldAt(db.rows, key, now)
      ensures held <==> key in db.rows && !Less(db.rows[key].expiresAt, now)
      ensures holder == if held then db.rows[key].holder else ""
    {
      held := HeldAt(db.rows, key, now);
      holder := if held then db.rows[key].holder else "";
    }
  }

  // ---------- interleavings ----------

  /** A TryAcquire in progress: it has read the clock and is about to clean up or to insert. */
  datatype Call =
    | Cleaning(key: string, holder: string, now: int, expires: int)
    | Inserting(key: string, holder: string, now: int, expires: int)

  /** A lease that was handed out (history). */
  datatype Grant = Grant(key: string, holder: string, at: int, expires: int, released: bool)

  /** The clock, the shared table, the calls in progress and the history of grants. */
  datatype State = State(clock: int, rows: Table, calls: map<nat, Call>, grants: seq<Grant>)

  datatype Action =
    | Tick(to: int)                                                    // time passes
    | Start(pid: nat, key: string, holder: string, ttl: int)           // TryAcquire reads the clock
    | Clean(pid: nat)                                                  // its DELETE
    | Insert(pid: nat)                                                 // its INSERT
    | Abort(pid: nat)                                                  // a statement failed, or the process died
    | ReleaseLock(key: string, holder: string)

  ghost function MarkedGrant(g: Grant, key: string, holder: string): Grant {
    if g.key == key && g.holder == holder then g.(released := true) else g
  }

  ghost function Marked(gs: seq<Grant>, key: string, holder: string): (r: seq<Grant>)
    ensures |r| == |gs|
    ensures forall i :: 0 <= i < |gs| ==> r[i] == MarkedGrant(gs[i], key, holder)
  {
    seq(|gs|, i requires 0 <= i < |gs| => MarkedGrant(gs[i], key, holder))
  }

  /** One atomic step; an action that is not enabled changes nothing. */
  ghost function Step(s: State, a: Action): State {
    match a
    case Tick(to) =>
      if s.clock <= to && InRange(to) then s.(clock := to) else s
    case Start(pid, key, holder, ttl) =>
      if pid !in s.calls && InRange(s.clock + ttl)
      then s.(calls := s.calls[pid := Cleaning(key, holder, s.clock, s.clock + ttl)]) else s
    case Clean(pid) =>
      if pid in s.calls && s.calls[pid].Cleaning? && InRange(s.calls[pid].now) then
        var Cleaning(key, holder, now, expires) := s.calls[pid];
        s.(rows := DeleteStale(s.rows, key, Format(now)),
           calls := s.calls[pid := Inserting(key, holder, now, expires)])
      else s
    case Insert(pid) =>
      if pid in s.calls && s.calls[pid].Inserting? && InRange(s.calls[pid].now) && InRange(s.calls[pid].expires) then
        var Inserting(key, holder, now, expires) := s.calls[pid];
        s.(rows := InsertOrIgnore(s.rows, key, Row(holder, Format(now), Format(expires))),
           calls := s.calls - {pid},
           grants := if key in s.rows then s.grants else s.grants + [Grant(key, holder, s.clock, expires, false)])
      else s
    case Abort(pid) =>
      s.(calls := s.calls - {pid})
    case ReleaseLock(key, holder) =>
      s.(rows := DeleteHeld(s.rows, key, holder), grants := Marked(s.grants, key, holder))
  }

  ghost function Run(s: State, acts: seq<Action>): State
    decreases |acts|
  {
    if acts == [] then s else Run(Step(s, acts[0]), acts[1..])
  }

  ghost predicate Initial(s: State) {
    InRange(s.clock) && s.rows == map[] && s.calls == map[] && s.grants == []
  }

  // ---------- the invariant ----------

  /** An unreleased lease with at least a second to go. */
  ghost predicate Firm(g: Grant, clock: int) {
    !g.released && clock + SECOND <= g.expires
  }

  ghost predicate Inv(s: State) {
    && InRange(s.clock)
    && (forall p :: p in s.calls ==> s.calls[p].now <= s.clock && InRange(s.calls[p].now) && InRange(s.calls[p].expires))
    && AllGrantsOk(s)
    && AllSeparated(s.grants)
  }

  ghost predicate AllGrantsOk(s: State) {
    forall i :: 0 <= i < |s.grants| ==> GrantOk(s, s.grants[i])
  }

  ghost predicate GrantOk(s: State, g: Grant) {
    && InRange(g.expires) && g.at <= s.clock
    && (Firm(g, s.clock) ==>
         g.key in s.rows && s.rows[g.key].holder == g.holder && s.rows[g.key].expiresAt == Format(g.expires))
  }

  /** A later grant for the key of an unreleased earlier one came less than a second before the
      earlier one's expiry, or after it. */
  ghost predicate Separated(earlier: Grant, later: Grant) {
    earlier.key == later.key && !earlier.released ==> earlier.expires < later.at + SECOND
  }

  ghost predicate AllSeparated(grants: seq<Grant>) {
    forall i, j :: 0 <= i < j < |grants| ==> Separated(grants[i], grants[j])
  }

  lemma StepKeepsInv(s: State, a: Action)
    requires Inv(s)
    ensures Inv(Step(s, a))
  {
    var t := Step(s, a);
    match a
    case Tick(to) => TickKeeps(s, to);
    case Start(_, _, _, _) =>
      forall i | 0 <= i < |t.grants| ensures GrantOk(t, t.grants[i]) { assert GrantOk(s, s.grants[i]); }
    case Abort(_) =>
      forall i | 0 <= i < |t.grants| ensures GrantOk(t, t.grants[i]) { assert GrantOk(s, s.grants[i]); }
    case Clean(pid) => CleanKeeps(s, pid);
    case Insert(pid) => InsertKeeps(s, pid);
    case ReleaseLock(key, holder) => ReleaseKeeps(s, key, holder);
  }

  lemma TickKeeps(s: State, to: int)
    requires Inv(s)
    ensures Inv(Step(s, Tick(to)))
  {
    var t := Step(s, Tick(to));
    forall i | 0 <= i < |t.grants| ensures GrantOk(t, t.grants[i]) { assert GrantOk(s, s.grants[i]); }
  }

  /** A firm lease's expiry text is not before the text of an instant already passed. */
  lemma FirmOutlasts(expires: int, now: int, clock: int)
    requires InRange(expires) && InRange(now) && now <= clock && clock + SECOND <= expires
    ensures !Less(Format(expires), Format(now))
  {
    FormatWithinSecond(expires, now);
  }

  lemma UnexpiredStays(rows: Table, k: string, key: string, now: string)
    requires k in rows && !Less(rows[k].expiresAt, now)
    ensures k in DeleteStale(rows, key, now) && DeleteStale(rows, key, now)[k] == rows[k]
  {
  }

  /** The clean-up never removes a firm lease: the text comparison errs by less than a second. */
  lemma CleanKeepsGrant(s: State, g: Grant, key: string, now: int)
    requires GrantOk(s, g) && InRange(now) && now <= s.clock
    ensures GrantOk(s.(rows := DeleteStale(s.rows, key, Format(now))), g)
  {
    if Firm(g, s.clock) {
      FirmOutlasts(g.expires, now, s.clock);
      UnexpiredStays(s.rows, g.key, key, Format(now));
    }
  }

  lemma CleanKeeps(s: State, pid: nat)
    requires Inv(s)
    ensures Inv(Step(s, Clean(pid)))
  {
    var t := Step(s, Clean(pid));
    if t != s {
      var key, now := s.calls[pid].key, s.calls[pid].now;
      var u := s.(rows := DeleteStale(s.rows, key, Format(now)));
      forall i | 0 <= i < |t.grants| ensures GrantOk(t, t.grants[i]) {
        assert GrantOk(s, s.grants[i]);
        CleanKeepsGrant(s, s.grants[i], key, now);
        assert GrantOk(u, s.grants[i]);
      }
    }
  }

  lemma InsertKeepsGrant(s: State, g: Grant, key: string, row: Row)
    requires GrantOk(s, g)
    ensures GrantOk(s.(rows := InsertOrIgnore(s.rows, key, row)), g)
  {
  }

  lemma InsertKeeps(s: State, pid: nat)
    requires Inv(s)
    ensures Inv(Step(s, Insert(pid)))
  {
    InsertGrantsOk(s, pid);
    InsertGrantsSeparated(s, pid);
  }

  lemma InsertGrantsOk(s: State, pid: nat)
    requires Inv(s)
    ensures AllGrantsOk(Step(s, Insert(pid)))
  {
    GrantsGrow(s, pid);
    if |Step(s, Insert(pid)).grants| > |s.grants| { NewGrantOk(s, pid); }
    forall i | 0 <= i < |s.grants| ensures GrantOk(Step(s, Insert(pid)), s.grants[i]) {
      InsertKeepsOld(s, pid, i);
    }
    OneMoreOk(Step(s, Insert(pid)), s.grants);
  }

  lemma OneMoreOk(t: State, before: seq<Grant>)
    requires before <= t.grants && |t.grants| <= |before| + 1
    requires forall i :: 0 <= i < |before| ==> GrantOk(t, before[i])
    requires |t.grants| > |before| ==> GrantOk(t, t.grants[|before|])
    ensures AllGrantsOk(t)
  {
    forall i | 0 <= i < |t.grants| ensures GrantOk(t, t.grants[i]) {
      if i < |before| { assert t.grants[i] == before[i]; }
    }
  }

  lemma NewGrantOk(s: State, pid: nat)
    requires Inv(s) && |Step(s, Insert(pid)).grants| > |s.grants|
    ensures var t := Step(s, Insert(pid)); GrantOk(t, t.grants[|s.grants|])
  {
  }

  lemma InsertGrantsSeparated(s: State, pid: nat)
    requires Inv(s)
    ensures AllSeparated(Step(s, Insert(pid)).grants)
  {
    var t := Step(s, Insert(pid));
    GrantsGrow(s, pid);
    if |t.grants| > |s.grants| {
      forall i | 0 <= i < |s.grants| ensures Separated(s.grants[i], t.grants[|s.grants|]) { InsertSeparates(s, pid, i); }
    }
    OneMoreSeparated(s.grants, t.grants);
  }

  lemma GrantsGrow(s: State, pid: nat)
    ensures s.grants <= Step(s, Insert(pid)).grants && |Step(s, Insert(pid)).grants| <= |s.grants| + 1
  {
  }

  lemma OneMoreSeparated(before: seq<Grant>, after: seq<Grant>)
    requires before <= after && |after| <= |before| + 1 && AllSeparated(before)
    requires |after| > |before| ==> forall i :: 0 <= i < |before| ==> Separated(before[i], after[|before|])
    ensures AllSeparated(after)
  {
    forall i, j | 0 <= i < j < |after| ensures Separated(after[i], after[j]) {
      if j < |before| { assert Separated(before[i], before[j]); }
    }
  }

  lemma InsertKeepsOld(s: State, pid: nat, i: nat)
    requires Inv(s) && i < |s.grants|
    ensures GrantOk(Step(s, Insert(pid)), s.grants[i])
  {
    assert GrantOk(s, s.grants[i]);
    var t := Step(s, Insert(pid));
    if t != s {
      var row := Row(s.calls[pid].holder, Format(s.calls[pid].now), Format(s.calls[pid].expires));
      InsertKeepsGrant(s, s.grants[i], s.calls[pid].key, row);
    }
  }

  /** A new grant means that the key was free, so every unreleased grant for it was about to end. */
  lemma InsertSeparates(s: State, pid: nat, i: nat)
    requires Inv(s) && i < |s.grants| && |Step(s, Insert(pid)).grants| > |s.grants|
    ensures Separated(s.grants[i], Step(s, Insert(pid)).grants[|s.grants|])
  {
    assert GrantOk(s, s.grants[i]);
  }

  lemma ReleaseKeepsGrant(s: State, g: Grant, key: string, holder: string)
    requires GrantOk(s, g)
    ensures GrantOk(s.(rows := DeleteHeld(s.rows, key, holder)), MarkedGrant(g, key, holder))
  {
    if Firm(MarkedGrant(g, key, holder), s.clock) { OtherRowStays(s.rows, g.key, key, holder); }
  }

  lemma OtherRowStays(rows: Table, k: string, key: string, holder: string)
    requires k in rows && (k != key || rows[k].holder != holder)
    ensures var after := DeleteHeld(rows, key, holder); k in after && after[k] == rows[k]
  {
  }

  lemma MarkedSeparated(gs: seq<Grant>, key: string, holder: string)
    requires AllSeparated(gs)
    ensures AllSeparated(Marked(gs, key, holder))
  {
    var after := Marked(gs, key, holder);
    forall i, j | 0 <= i < j < |after| ensures Separated(after[i], after[j]) {
      assert Separated(gs[i], gs[j]);
    }
  }

  lemma ReleaseKeeps(s: State, key: string, holder: string)
    requires Inv(s)
    ensures Inv(Step(s, ReleaseLock(key, holder)))
  {
    var t := Step(s, ReleaseLock(key, holder));
    var u := s.(rows := t.rows);
    forall i | 0 <= i < |t.grants| ensures GrantOk(t, t.grants[i]) {
      ReleaseKeepsGrant(s, s.grants[i], key, holder);
      assert GrantOk(u, t.grants[i]);
    }
    MarkedSeparated(s.grants, key, holder);
  }

  lemma {:induction false} RunKeepsInv(s: State, acts: seq<Action>)
    requires Inv(s)
    ensures Inv(Run(s, acts))
    decreases |acts|
  {
    if acts != [] {
      StepKeepsInv(s, acts[0]);
      RunKeepsInv(Step(s, acts[0]), acts[1..]);
    }
  }

  // ---------- what a user of the lock can rely on ----------

  /** Over all interleavings: a firm lease is the row in the table, IsHeld reports it, no two firm
      leases share a key, and a key was never granted again more than a second before the expiry of
      an unreleased lease. */
  lemma LeasesAreExclusive(s0: State, acts: seq<Action>)
    requires Initial(s0)
    ensures var s := Run(s0, acts);
      && (forall i :: 0 <= i < |s.grants| && Firm(s.grants[i], s.clock) ==>
            && s.grants[i].key in s.rows && s.rows[s.grants[i].key].holder == s.grants[i].holder
            && InRange(s.clock) && HeldAt(s.rows, s.grants[i].key, Format(s.clock)))
      && (forall i, j :: 0 <= i < j < |s.grants| && s.grants[i].key == s.grants[j].key ==>
            && (!s.grants[i].released ==> s.grants[i].expires < s.grants[j].at + SECOND)
            && !(Firm(s.grants[i], s.clock) && Firm(s.grants[j], s.clock)))
  {
    RunKeepsInv(s0, acts);
    var s := Run(s0, acts);
    forall i | 0 <= i < |s.grants| && Firm(s.grants[i], s.clock)
      ensures s.grants[i].key in s.rows && s.rows[s.grants[i].key].holder == s.grants[i].holder
      ensures HeldAt(s.rows, s.grants[i].key, Format(s.clock))
    {
      var g := s.grants[i];
      assert GrantOk(s, g);
      FormatWithinSecond(g.expires, s.clock);
    }
    forall i, j | 0 <= i < j < |s.grants| && s.grants[i].key == s.grants[j].key
      ensures !s.grants[i].released ==> s.grants[i].expires < s.grants[j].at + SECOND
      ensures !(Firm(s.grants[i], s.clock) && Firm(s.grants[j], s.clock))
    {
      assert Separated(s.grants[i], s.grants[j]);
      assert GrantOk(s, s.grants[j]);
    }
  }

  /** There is no row for the key, or its expiry sorts before the given instant. */
  predicate Free(rows: Table, key: string, now: string) { key !in rows || Less(rows[key].expiresAt, now) }

  /** A call reads the clock, */
  lemma StartingStep(s: State, pid: nat, key: string, holder: string, ttl: int)
    requires pid !in s.calls && InRange(s.clock + ttl)
    ensures Step(s, Start(pid, key, holder, ttl)) == s.(calls := s.calls[pid := Cleaning(key, holder, s.clock, s.clock + ttl)])
  {
  }

  /** and without interference, cleaning up and inserting then grants the lease exactly when the key is free or its
      row has expired by text comparison; nobody else's call, grant or row changes. */
  lemma CleanAndInsert(s: State, pid: nat, key: string, holder: string, expires: int, row: Row, free: bool)
    requires pid in s.calls && s.calls[pid] == Cleaning(key, holder, s.clock, expires) && InRange(s.clock) && InRange(expires)
    requires row == Row(holder, Format(s.clock), Format(expires)) && free == Free(s.rows, key, Format(s.clock))
    ensures var t := Step(Step(s, Clean(pid)), Insert(pid));
      && t.clock == s.clock && t.calls == s.calls - {pid}
      && t.rows == (if free then s.rows[key := row] else s.rows)
      && t.grants == if free then s.grants + [Grant(key, holder, s.clock, expires, false)] else s.grants
  {
    CleanLeaves(s, pid, key, holder, expires);
    InsertGiven(Step(s, Clean(pid)), pid, key, holder, s.clock, expires, row, s.rows, free);
    CallReplaced(s.calls, pid, Inserting(key, holder, s.clock, expires));
  }

  lemma CallReplaced(calls: map<nat, Call>, pid: nat, c: Call)
    ensures calls[pid := c] - {pid} == calls - {pid}
  {
  }

  lemma InsertGiven(c: State, pid: nat, key: string, holder: string, now: int, expires: int, row: Row, rows: Table, free: bool)
    requires pid in c.calls && c.calls[pid] == Inserting(key, holder, now, expires) && InRange(now) && InRange(expires)
    requires row == Row(holder, Format(now), Format(expires)) && (key !in c.rows <==> free)
    requires InsertOrIgnore(c.rows, key, row) == if free then rows[key := row] else rows
    ensures var t := Step(c, Insert(pid));
      && t.clock == c.clock && t.calls == c.calls - {pid} && t.rows == (if free then rows[key := row] else rows)
      && t.grants == if free then c.grants + [Grant(key, holder, c.clock, expires, false)] else c.grants
  {
    InsertingStep(c, pid, key, holder, now, expires);
  }

  lemma CleanLeaves(s: State, pid: nat, key: string, holder: string, expires: int)
    requires pid in s.calls && s.calls[pid] == Cleaning(key, holder, s.clock, expires) && InRange(s.clock)
    ensures var c := Step(s, Clean(pid));
      && c.clock == s.clock && c.grants == s.grants && c.calls == s.calls[pid := Inserting(key, holder, s.clock, expires)]
      && (key !in c.rows <==> Free(s.rows, key, Format(s.clock)))
      && forall row :: InsertOrIgnore(c.rows, key, row) == if Free(s.rows, key, Format(s.clock)) then s.rows[key := row] else s.rows
  {
    CleaningStep(s, pid, key, holder, s.clock, expires);
    forall row ensures InsertOrIgnore(Step(s, Clean(pid)).rows, key, row)
                    == if Free(s.rows, key, Format(s.clock)) then s.rows[key := row] else s.rows
    {
      DeleteThenInsert(s.rows, key, Format(s.clock), row);
    }
    DeleteThenInsert(s.rows, key, Format(s.clock), Row("", "", ""));
  }

  lemma CleaningStep(s: State, pid: nat, key: string, holder: string, now: int, expires: int)
    requires pid in s.calls && s.calls[pid] == Cleaning(key, holder, now, expires) && InRange(now)
    ensures var t := Step(s, Clean(pid));
      && t.clock == s.clock && t.grants == s.grants && t.rows == DeleteStale(s.rows, key, Format(now))
      && t.calls == s.calls[pid := Inserting(key, holder, now, expires)]
  {
  }

  lemma InsertingStep(s: State, pid: nat, key: string, holder: string, now: int, expires: int)
    requires pid in s.calls && s.calls[pid] == Inserting(key, holder, now, expires) && InRange(now) && InRange(expires)
    ensures var t := Step(s, Insert(pid));
      && t.clock == s.clock && t.calls == s.calls - {pid}
      && t.rows == InsertOrIgnore(s.rows, key, Row(holder, Format(now), Format(expires)))
      && t.grants == if key in s.rows then s.grants else s.grants + [Grant(key, holder, s.clock, expires, false)]
  {
  }

  lemma DeleteThenInsert(rows: Table, key: string, now: string, row: Row)
    ensures var cleaned := DeleteStale(rows, key, now);
      && (key !in cleaned <==> Free(rows, key, now))
      && InsertOrIgnore(cleaned, key, row) == if Free(rows, key, now) then rows[key := row] else rows
  {
  }

  /** The other steps: the clock moves forward, a call dies without a trace, and a release frees the key and marks
      the holder's grants of it and no others. */
  lemma OtherSteps(s: State, to: int, pid: nat, key: string, holder: string)
    ensures s.clock <= to && InRange(to) ==> Step(s, Tick(to)) == s.(clock := to)
    ensures pid !in Step(s, Abort(pid)).calls && Step(s, Abort(pid)) == s.(calls := s.calls - {pid})
    ensures var t := Step(s, ReleaseLock(key, holder));
      && t.clock == s.clock && t.calls == s.calls && |t.grants| == |s.grants|
      && t.rows == (if key in s.rows && s.rows[key].holder == holder then s.rows - {key} else s.rows)
      && (forall i :: 0 <= i < |s.grants| ==>
            var g := s.grants[i];
            t.grants[i] == Grant(g.key, g.holder, g.at, g.expires, g.released || (g.key == key && g.holder == holder)))
  {
  }

  /** In every reachable state, a release leaves a firm lease in the table, and reported as held, exactly when
      it names another key or another holder: a late release of an earlier lease does no harm to a successor
      with another holder, and takes the row of one with the same holder. */
  lemma LateReleaseIsHarmless(s0: State, acts: seq<Action>, i: nat, key: string, holder: string)
    requires Initial(s0) && i < |Run(s0, acts).grants| && Firm(Run(s0, acts).grants[i], Run(s0, acts).clock)
    ensures var s := Run(s0, acts);
            var g, rows := s.grants[i], Step(s, ReleaseLock(key, holder)).rows;
            InRange(s.clock) && (HeldBy(rows, g.key, g.holder, Format(s.clock)) <==> key != g.key || holder != g.holder)
  {
    RunKeepsInv(s0, acts);
    var s := Run(s0, acts);
    GrantIsOk(s, i);
    FirmIsHeld(s, s.grants[i]);
    ReleaseTakes(s, key, holder, s.grants[i].key, s.grants[i].holder, Format(s.clock));
  }

  lemma GrantIsOk(s: State, i: nat)
    requires Inv(s) && i < |s.grants|
    ensures InRange(s.clock) && GrantOk(s, s.grants[i])
  {
  }

  ghost predicate HeldBy(rows: Table, key: string, holder: string, now: string) {
    key in rows && rows[key].holder == holder && HeldAt(rows, key, now)
  }

  lemma FirmIsHeld(s: State, g: Grant)
    requires InRange(s.clock) && GrantOk(s, g) && Firm(g, s.clock)
    ensures HeldBy(s.rows, g.key, g.holder, Format(s.clock))
  {
    FirmOutlasts(g.expires, s.clock, s.clock);
  }

  lemma ReleaseTakes(s: State, key: string, holder: string, k: string, h: string, now: string)
    requires HeldBy(s.rows, k, h, now)
    ensures HeldBy(Step(s, ReleaseLock(key, holder)).rows, k, h, now) <==> key != k || holder != h
  {
  }

  /** A table in which the key is leased until the given instant. */
  ghost function Leased(rows: Table, key: string, lease: Row, expires: int): Table
    requires InRange(expires)
  {
    rows[key := lease.(expiresAt := Format(expires))]
  }

  /** A lease that expired a second ago never blocks: cleaning and inserting without interference
      succeeds. */
  lemma StaleLeaseIsTaken(rows: Table, key: string, lease: Row, expires: int, now: int, row: Row)
    requires InRange(expires) && InRange(now) && expires + SECOND <= now
    ensures var t := Leased(rows, key, lease, expires);
            InsertOrIgnore(DeleteStale(t, key, Format(now)), key, row)[key] == row && !HeldAt(t, key, Format(now))
  {
    FormatWithinSecond(expires, now);
  }

  /** Exactly when the clean-up at `now` removes a row that expires at `expires`. */
  lemma StaleIff(rows: Table, key: string, lease: Row, expires: int, now: int)
    requires InRange(expires) && InRange(now)
    ensures key !in DeleteStale(Leased(rows, key, lease, expires), key, Format(now)) <==>
            if expires < now then !Anomalous(expires, now) else Anomalous(now, expires)
  {
    FormatOrder(expires, now);
  }

  /** The margin of one second cannot be improved: a lease that ends on the last nanosecond of a second
      is removed by a clean-up at the start of that second, 999999999 nanoseconds early. */
  lemma EarlyRemovalHappens(rows: Table, key: string, lease: Row, sec: nat)
    requires InRange(sec * SECOND) && InRange(sec * SECOND + SECOND - 1)
    ensures key !in DeleteStale(Leased(rows, key, lease, sec * SECOND + SECOND - 1), key, Format(sec * SECOND))
  {
    LastNanosecond(sec);
    AnomalousIsRemoved(rows, key, lease, sec * SECOND, sec * SECOND + SECOND - 1);
  }

  lemma AnomalousIsRemoved(rows: Table, key: string, lease: Row, now: nat, expires: nat)
    requires InRange(now) && InRange(expires) && now < expires
    ensures Anomalous(now, expires) ==> key !in DeleteStale(Leased(rows, key, lease, expires), key, Format(now))
  {
    StaleIff(rows, key, lease, expires, now);
  }

  lemma LastNanosecond(sec: nat)
    ensures Anomalous(sec * SECOND, sec * SECOND + SECOND - 1)
  {
    var now, expires := sec * SECOND, sec * SECOND + SECOND - 1;
    assert now / SECOND == sec && now % SECOND == 0;
    assert expires / SECOND == sec && expires % SECOND == SECOND - 1;
    ZeroFraction(9);
    LastDigitKept(SECOND - 1);
  }

  lemma {:induction false} ZeroFraction(w: nat)
    ensures TrimZeros(Pad(0, w)) == ""
  {
    if w > 0 {
      ZeroFraction(w - 1);
      assert Pad(0, w)[..w - 1] == Pad(0, w - 1);
    }
  }

  lemma LastDigitKept(n: nat)
    requires n % 10 != 0
    ensures Fraction(n) == Pad(n, 9)
  {
  }
}
