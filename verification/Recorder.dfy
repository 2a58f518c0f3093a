/**
  The global sequence counter and the session recorder: every recorded event gets the next sequence
  number and points at the previous event of its session. `Step` interleaves the recorders of many
  sessions, failures and restarts; the classes are the counter and one recorder.
 */
module Recorder {
  import opened EventStore
  import opened Sorting
  import opened Wrappers

  /** A live recorder: the last recorded ID and, between allocation and append, the event in hand. As
      history, it is behind when an append of its own reported an error after writing the event. */
  datatype Rec = Rec(prevID: string, pending: Option<Event>, behind: bool)

  /** The append-ordered log, the counter cell, and the live recorder of each session. */
  datatype State = State(log: seq<Event>, next: nat, recs: map<string, Rec>)

  datatype Action =
    | Open(sid: string)                  // NewSessionRecorder; also after a restart
    | Close(sid: string)                 // the process ends, wherever it is
    | Alloc(sid: string, ev: Event)      // Record stamps the event and takes a number
    | Store(sid: string)                 // the append succeeds, unless the event is invalid
    | StoreFails(sid: string)            // the append fails and writes nothing
    | StoreLies(sid: string)             // the append writes the event and reports an error
    | Initialize(startAt: nat)           // InitializeAt

  function BySession(sid: string): Event -> bool { (e: Event) => e.correlationID == sid }

  /** The stored events of a session, in append order. */
  function Session(log: seq<Event>, sid: string): seq<Event> { Filter(log, BySession(sid)) }

  /** The ID of the last event of a session in a loaded list, or "". */
  function LastID(events: seq<Event>, sid: string): string {
    if events == [] then ""
    else if events[|events| - 1].correlationID == sid then events[|events| - 1].id
    else LastID(events[..|events| - 1], sid)
  }

  /** What Record writes into the event. */
  function Stamp(ev: Event, sid: string, prevID: string, seqNr: nat): Event {
    ev.(sessionID := sid, correlationID := sid, causationID := if prevID != "" then prevID else ev.causationID,
        seqNr := seqNr)
  }

  /** UPDATE seq_counter SET next_seq = startAt + 1 WHERE next_seq <= startAt + 1 */
  function Raised(next: nat, startAt: nat): nat { if next <= startAt + 1 then startAt + 1 else next }

  /** The highest number handed out, 0 if there is none. */
  function Latest(next: nat): nat { if next == 0 then 0 else next - 1 }

  function Step(s: State, a: Action): State {
    match a
    case Open(sid) =>
      if sid in s.recs then s
      else s.(recs := s.recs[sid := Rec(LastID(Loaded(s.log), sid), None, false)])
    case Close(sid) => s.(recs := s.recs - {sid})
    case Alloc(sid, ev) =>
      if sid in s.recs && s.recs[sid].pending.None? then
        s.(next := s.next + 1,
           recs := s.recs[sid := s.recs[sid].(pending := Some(Stamp(ev, sid, s.recs[sid].prevID, s.next)))])
      else s
    case Store(sid) =>
      if sid in s.recs && s.recs[sid].pending.Some? then
        var e := s.recs[sid].pending.value;
        if ValidEvent(e) then s.(log := s.log + [e], recs := s.recs[sid := Rec(e.id, None, false)])
        else s.(recs := s.recs[sid := s.recs[sid].(pending := None)])
      else s
    case StoreFails(sid) =>
      if sid in s.recs then s.(recs := s.recs[sid := s.recs[sid].(pending := None)]) else s
    case StoreLies(sid) =>
      if sid in s.recs && s.recs[sid].pending.Some? then
        var e := s.recs[sid].pending.value;
        if ValidEvent(e) then s.(log := s.log + [e], recs := s.recs[sid := s.recs[sid].(pending := None, behind := true)])
        else s.(recs := s.recs[sid := s.recs[sid].(pending := None)])
      else s
    case Initialize(n) => s.(next := Raised(s.next, n))
  }

  ghost function Run(s: State, acts: seq<Action>): State
    decreases |acts|
  {
    if acts == [] then s else Run(Step(s, acts[0]), acts[1..])
  }

  /** What callers feed to Record: a new event without a cause, not older than its session. */
  ghost predicate Admissible(s: State, a: Action) {
    a.Alloc? ==>
      && a.ev.causationID == ""
      && (forall i :: 0 <= i < |s.log| ==> s.log[i].id != a.ev.id)
      && (forall sid :: sid in s.recs && s.recs[sid].pending.Some? ==> s.recs[sid].pending.value.id != a.ev.id)
      && (forall i :: 0 <= i < |Session(s.log, a.sid)| ==> Session(s.log, a.sid)[i].timestamp <= a.ev.timestamp)
  }

  ghost predicate AdmissibleRun(s: State, acts: seq<Action>)
    decreases |acts|
  {
    acts == [] || (Admissible(s, acts[0]) && AdmissibleRun(Step(s, acts[0]), acts[1..]))
  }

  ghost predicate Initial(s: State) { s.log == [] && s.next == 1 && s.recs == map[] }

  // ---------- the invariant ----------

  /** Each event is caused by the one before it; the first has no cause. */
  ghost predicate Chained(c: seq<Event>) {
    && (c != [] ==> c[0].causationID == "")
    && (forall i :: 1 <= i < |c| ==> c[i].causationID == c[i - 1].id)
  }

  ghost predicate Increasing(c: seq<Event>) {
    forall i, j :: 0 <= i < j < |c| ==> c[i].seqNr < c[j].seqNr
  }

  ghost function TailID(c: seq<Event>): string { if c == [] then "" else c[|c| - 1].id }

  ghost predicate SessionOk(c: seq<Event>) {
    Increasing(c) && SortedBy(c, BY_TIME)
  }

  ghost predicate Numbered(log: seq<Event>, next: nat) {
    forall i :: 0 <= i < |log| ==> 1 <= log[i].seqNr < next && log[i].id != ""
  }

  ghost predicate Distinct(log: seq<Event>) {
    forall i, j :: 0 <= i < j < |log| ==> log[i].seqNr != log[j].seqNr && log[i].id != log[j].id
  }

  ghost predicate SessionsOk(log: seq<Event>) {
    forall sid :: SessionOk(Session(log, sid))
  }

  ghost predicate LogOk(log: seq<Event>, next: nat) {
    Numbered(log, next) && Distinct(log) && SessionsOk(log)
  }

  ghost predicate Fresh(log: seq<Event>, e: Event) {
    forall i :: 0 <= i < |log| ==> log[i].seqNr != e.seqNr && log[i].id != e.id
  }

  ghost predicate Continues(c: seq<Event>, e: Event) {
    forall i :: 0 <= i < |c| ==> c[i].seqNr < e.seqNr && c[i].timestamp <= e.timestamp
  }

  /** The event in hand continues its session. */
  ghost predicate PendingOk(log: seq<Event>, next: nat, sid: string, prevID: string, e: Event) {
    && e.correlationID == sid && e.causationID == prevID && 1 <= e.seqNr < next
    && Fresh(log, e) && Continues(Session(log, sid), e)
  }

  /** The recorder knows the last event of its session, or, if it is behind, it has used its cause already. */
  ghost predicate Caught(c: seq<Event>, r: Rec) {
    if r.behind then CauseUsed(c, r.prevID) else r.prevID == TailID(c)
  }

  ghost predicate CauseUsed(c: seq<Event>, id: string) {
    exists i :: 0 <= i < |c| && c[i].causationID == id
  }

  ghost predicate RecOk(log: seq<Event>, next: nat, sid: string, r: Rec) {
    && Caught(Session(log, sid), r)
    && (r.pending.Some? ==> PendingOk(log, next, sid, r.prevID, r.pending.value))
  }

  ghost predicate RecsOk(log: seq<Event>, next: nat, recs: map<string, Rec>) {
    forall sid :: sid in recs ==> RecOk(log, next, sid, recs[sid])
  }

  ghost predicate Apart(r: Rec, q: Rec) {
    r.pending.Some? && q.pending.Some? ==>
      r.pending.value.seqNr != q.pending.value.seqNr && r.pending.value.id != q.pending.value.id
  }

  ghost predicate AllApart(recs: map<string, Rec>) {
    forall a, b :: a in recs && b in recs && a != b ==> Apart(recs[a], recs[b])
  }

  ghost predicate Inv(s: State) {
    s.next >= 1 && LogOk(s.log, s.next) && RecsOk(s.log, s.next, s.recs) && AllApart(s.recs)
  }

  lemma SessionMembers(log: seq<Event>, sid: string)
    ensures forall i :: 0 <= i < |Session(log, sid)| ==> Session(log, sid)[i] in log && Session(log, sid)[i].correlationID == sid
  {
    FilterMembers(log, BySession(sid));
    forall i | 0 <= i < |Session(log, sid)| ensures Session(log, sid)[i] in log && Session(log, sid)[i].correlationID == sid {
      assert Session(log, sid)[i] in Session(log, sid);
    }
  }

  lemma SessionSnoc(log: seq<Event>, e: Event, sid: string)
    ensures Session(log + [e], sid) == if e.correlationID == sid then Session(log, sid) + [e] else Session(log, sid)
  {
    FilterConcat(log, [e], BySession(sid));
  }

  /** Reading the last event of the session from the loaded list finds the last one appended. */
  lemma ResumeFindsTail(log: seq<Event>, sid: string)
    requires SortedBy(Session(log, sid), BY_TIME)
    ensures LastID(Loaded(log), sid) == TailID(Session(log, sid))
  {
    OrderedPartIsLoaded(log, BySession(sid));
    LastIDIsTail(Loaded(log), sid);
  }

  lemma {:induction false} LastIDIsTail(events: seq<Event>, sid: string)
    ensures LastID(events, sid) == TailID(Session(events, sid))
    decreases |events|
  {
    if events != [] {
      var n := |events| - 1;
      LastIDIsTail(events[..n], sid);
      SessionSnoc(events[..n], events[n], sid);
      assert events == events[..n] + [events[n]];
    }
  }

  // ---------- the recorders ----------

  /** A recorder without a pending event can take any session's place. */
  lemma IdleKeeps(log: seq<Event>, next: nat, recs: map<string, Rec>, sid: string, r: Rec)
    requires RecsOk(log, next, recs) && AllApart(recs) && r.pending.None? && RecOk(log, next, sid, r)
    ensures RecsOk(log, next, recs[sid := r]) && AllApart(recs[sid := r])
  {
  }

  lemma NewRecOk(log: seq<Event>, next: nat, sid: string)
    requires SessionsOk(log)
    ensures RecOk(log, next, sid, Rec(LastID(Loaded(log), sid), None, false))
  {
    assert SessionOk(Session(log, sid));
    ResumeFindsTail(log, sid);
  }

  lemma NumberedSession(log: seq<Event>, next: nat, sid: string)
    requires Numbered(log, next)
    ensures forall i :: 0 <= i < |Session(log, sid)| ==> Session(log, sid)[i].seqNr < next
  {
    SessionMembers(log, sid);
    var c := Session(log, sid);
    forall i | 0 <= i < |c| ensures c[i].seqNr < next {
      var k :| 0 <= k < |log| && log[k] == c[i];
    }
  }

  /** An event stamped with the next number continues its session. */
  lemma StampedOk(log: seq<Event>, next: nat, sid: string, prevID: string, ev: Event)
    requires Numbered(log, next) && next >= 1 && ev.causationID == ""
    requires forall i :: 0 <= i < |log| ==> log[i].id != ev.id
    requires forall i :: 0 <= i < |Session(log, sid)| ==> Session(log, sid)[i].timestamp <= ev.timestamp
    ensures PendingOk(log, next + 1, sid, prevID, Stamp(ev, sid, prevID, next))
  {
    NumberedSession(log, next, sid);
  }

  lemma NumberedLater(log: seq<Event>, next: nat, later: nat)
    requires Numbered(log, next) && next <= later
    ensures Numbered(log, later)
  {
  }

  lemma RecsLater(log: seq<Event>, next: nat, later: nat, recs: map<string, Rec>)
    requires RecsOk(log, next, recs) && next <= later
    ensures RecsOk(log, later, recs)
  {
    forall sid | sid in recs ensures RecOk(log, later, sid, recs[sid]) {
      assert RecOk(log, next, sid, recs[sid]);
    }
  }

  /** No pending event has the number or the ID. */
  ghost predicate UnusedBy(recs: map<string, Rec>, e: Event) {
    forall q :: q in recs && recs[q].pending.Some? ==> recs[q].pending.value.seqNr != e.seqNr && recs[q].pending.value.id != e.id
  }

  lemma NextIsUnused(log: seq<Event>, next: nat, recs: map<string, Rec>, e: Event)
    requires RecsOk(log, next, recs) && e.seqNr == next
    requires forall q :: q in recs && recs[q].pending.Some? ==> recs[q].pending.value.id != e.id
    ensures UnusedBy(recs, e)
  {
    forall q | q in recs && recs[q].pending.Some?
      ensures recs[q].pending.value.seqNr != e.seqNr && recs[q].pending.value.id != e.id
    {
      assert RecOk(log, next, q, recs[q]);
    }
  }

  /** A recorder takes the next number for its pending event. */
  lemma HandOut(log: seq<Event>, next: nat, recs: map<string, Rec>, sid: string, own: Rec)
    requires RecsOk(log, next, recs) && AllApart(recs) && own.pending.Some? && UnusedBy(recs, own.pending.value)
    requires RecOk(log, next + 1, sid, own)
    ensures RecsOk(log, next + 1, recs[sid := own]) && AllApart(recs[sid := own])
  {
    RecsLater(log, next, next + 1, recs);
    StayApart(recs, sid, own);
  }

  lemma StayApart(recs: map<string, Rec>, sid: string, own: Rec)
    requires AllApart(recs) && own.pending.Some? && UnusedBy(recs, own.pending.value)
    ensures AllApart(recs[sid := own])
  {
  }

  // ---------- the log ----------

  lemma NumberedSnoc(log: seq<Event>, next: nat, e: Event)
    requires Numbered(log, next) && 1 <= e.seqNr < next && e.id != ""
    ensures Numbered(log + [e], next)
  {
  }

  lemma DistinctSnoc(log: seq<Event>, e: Event)
    requires Distinct(log) && Fresh(log, e)
    ensures Distinct(log + [e])
  {
  }

  lemma SessionsSnoc(log: seq<Event>, e: Event)
    requires SessionsOk(log) && Continues(Session(log, e.correlationID), e)
    ensures SessionsOk(log + [e])
  {
    forall q ensures SessionOk(Session(log + [e], q)) {
      SessionSnoc(log, e, q);
      assert SessionOk(Session(log, q));
      if q == e.correlationID { SessionOkSnoc(Session(log, q), e); }
    }
  }

  lemma SessionOkSnoc(c: seq<Event>, e: Event)
    requires SessionOk(c) && Continues(c, e)
    ensures SessionOk(c + [e])
  {
    IncreasingSnoc(c, e);
    SortedSnoc(c, e);
  }

  lemma IncreasingSnoc(c: seq<Event>, e: Event)
    requires Increasing(c) && Continues(c, e)
    ensures Increasing(c + [e])
  {
  }

  lemma SortedSnoc(c: seq<Event>, e: Event)
    requires SortedBy(c, BY_TIME) && Continues(c, e)
    ensures SortedBy(c + [e], BY_TIME)
  {
  }

  lemma StoreKeepsLog(log: seq<Event>, next: nat, sid: string, prevID: string, e: Event)
    requires LogOk(log, next) && e.id != ""
    requires PendingOk(log, next, sid, prevID, e)
    ensures LogOk(log + [e], next)
  {
    NumberedSnoc(log, next, e);
    DistinctSnoc(log, e);
    SessionsSnoc(log, e);
  }

  lemma FreshSnoc(log: seq<Event>, e: Event, f: Event)
    requires Fresh(log, f) && e.seqNr != f.seqNr && e.id != f.id
    ensures Fresh(log + [e], f)
  {
  }

  /** Storing one session's event leaves the other recorders as they were. */
  lemma OtherRecKeeps(log: seq<Event>, next: nat, e: Event, sid: string, r: Rec)
    requires RecOk(log, next, sid, r) && e.correlationID != sid
    requires r.pending.Some? ==> e.seqNr != r.pending.value.seqNr && e.id != r.pending.value.id
    ensures RecOk(log + [e], next, sid, r)
  {
    SessionSnoc(log, e, sid);
    if r.pending.Some? { FreshSnoc(log, e, r.pending.value); }
  }

  /** After the append, a recorder that was told of it has caught up, and one that was not is behind. */
  lemma OwnRecStored(log: seq<Event>, next: nat, e: Event, r: Rec)
    requires r.pending.None?
    requires if r.behind then r.prevID == e.causationID else r.prevID == e.id
    ensures RecOk(log + [e], next, e.correlationID, r)
  {
    SessionSnoc(log, e, e.correlationID);
    var c := Session(log + [e], e.correlationID);
    assert c[|c| - 1] == e;
  }

  lemma RecsStored(log: seq<Event>, next: nat, recs: map<string, Rec>, sid: string, e: Event, r: Rec)
    requires RecsOk(log, next, recs) && AllApart(recs) && sid in recs && recs[sid].pending == Some(e) && e.correlationID == sid
    requires r.pending.None? && if r.behind then r.prevID == e.causationID else r.prevID == e.id
    ensures RecsOk(log + [e], next, recs[sid := r])
  {
    OwnRecStored(log, next, e, r);
    forall q | q in recs && q != sid ensures RecOk(log + [e], next, q, recs[q]) {
      assert RecOk(log, next, q, recs[q]) && Apart(recs[q], recs[sid]);
      OtherRecKeeps(log, next, e, q, recs[q]);
    }
  }

  lemma ApartIdle(recs: map<string, Rec>, sid: string, r: Rec)
    requires AllApart(recs) && r.pending.None?
    ensures AllApart(recs[sid := r])
  {
  }

  // ---------- the steps ----------

  lemma OpenKeeps(s: State, sid: string)
    requires Inv(s)
    ensures Inv(Step(s, Open(sid)))
  {
    NewRecOk(s.log, s.next, sid);
    IdleKeeps(s.log, s.next, s.recs, sid, Rec(LastID(Loaded(s.log), sid), None, false));
  }

  lemma AllocKeeps(s: State, sid: string, ev: Event)
    requires Inv(s) && Admissible(s, Alloc(sid, ev))
    ensures Inv(Step(s, Alloc(sid, ev)))
  {
    if sid in s.recs && s.recs[sid].pending.None? {
      var own := s.recs[sid];
      var e := Stamp(ev, sid, own.prevID, s.next);
      assert RecOk(s.log, s.next, sid, own);
      StampedOk(s.log, s.next, sid, own.prevID, ev);
      NextIsUnused(s.log, s.next, s.recs, e);
      HandOut(s.log, s.next, s.recs, sid, own.(pending := Some(e)));
      NumberedLater(s.log, s.next, s.next + 1);
    }
  }

  lemma StoreKeeps(s: State, sid: string)
    requires Inv(s)
    ensures Inv(Step(s, Store(sid))) && Inv(Step(s, StoreLies(sid)))
  {
    if sid in s.recs && s.recs[sid].pending.Some? {
      var own := s.recs[sid];
      if ValidEvent(own.pending.value) {
        assert RecOk(s.log, s.next, sid, own);
        AppendKeeps(s, sid, own, Rec(own.pending.value.id, None, false));
        AppendKeeps(s, sid, own, own.(pending := None, behind := true));
      } else {
        DropKeeps(s, sid);
      }
    }
  }

  lemma AppendKeeps(s: State, sid: string, own: Rec, r: Rec)
    requires Inv(s) && sid in s.recs && own == s.recs[sid] && own.pending.Some? && ValidEvent(own.pending.value)
    requires r.pending.None? && r.prevID == if r.behind then own.pending.value.causationID else own.pending.value.id
    ensures Inv(s.(log := s.log + [own.pending.value], recs := s.recs[sid := r]))
  {
    var e := own.pending.value;
    assert RecOk(s.log, s.next, sid, own);
    StoreKeepsLog(s.log, s.next, sid, own.prevID, e);
    RecsStored(s.log, s.next, s.recs, sid, e, r);
    ApartIdle(s.recs, sid, r);
  }

  lemma DropKeeps(s: State, sid: string)
    requires Inv(s) && sid in s.recs
    ensures Inv(s.(recs := s.recs[sid := s.recs[sid].(pending := None)]))
  {
    assert RecOk(s.log, s.next, sid, s.recs[sid]);
    IdleKeeps(s.log, s.next, s.recs, sid, s.recs[sid].(pending := None));
  }

  lemma RaiseKeeps(s: State, next: nat)
    requires Inv(s) && s.next <= next
    ensures Inv(s.(next := next))
  {
    NumberedLater(s.log, s.next, next);
    RecsLater(s.log, s.next, next, s.recs);
  }

  lemma StepKeepsInv(s: State, a: Action)
    requires Inv(s) && Admissible(s, a)
    ensures Inv(Step(s, a))
  {
    match a
    case Open(sid) => OpenKeeps(s, sid);
    case Close(sid) =>
    case Alloc(sid, ev) => AllocKeeps(s, sid, ev);
    case Store(sid) => StoreKeeps(s, sid);
    case StoreFails(sid) => if sid in s.recs { DropKeeps(s, sid); }
    case StoreLies(sid) => StoreKeeps(s, sid);
    case Initialize(n) => RaiseKeeps(s, Raised(s.next, n));
  }

  lemma {:induction false} RunKeepsInv(s: State, acts: seq<Action>)
    requires Inv(s) && AdmissibleRun(s, acts)
    ensures Inv(Run(s, acts))
    decreases |acts|
  {
    if acts != [] {
      StepKeepsInv(s, acts[0]);
      RunKeepsInv(Step(s, acts[0]), acts[1..]);
    }
  }

  lemma InitialInv(s0: State)
    requires Initial(s0)
    ensures Inv(s0)
  {
    forall sid ensures SessionOk(Session(s0.log, sid)) {}
  }

  // ---------- the chains ----------

  /** The step writes an event of a recorder that is behind, whatever it reports. */
  ghost predicate WritesBehind(s: State, a: Action) {
    && (a.Store? || a.StoreLies?) && a.sid in s.recs && s.recs[a.sid].behind
    && s.recs[a.sid].pending.Some? && ValidEvent(s.recs[a.sid].pending.value)
  }

  /** The sessions in which, along the run, a recorder writes although it is behind. */
  ghost function Overtaken(s: State, acts: seq<Action>): set<string>
    decreases |acts|
  {
    if acts == [] then {}
    else (if WritesBehind(s, acts[0]) then {acts[0].sid} else {}) + Overtaken(Step(s, acts[0]), acts[1..])
  }

  /** No two events of a chain have the same cause. */
  ghost predicate ForkFree(c: seq<Event>) {
    forall i, j :: 0 <= i < j < |c| ==> c[i].causationID != c[j].causationID
  }

  /** Exactly these sessions are forked, and the others are chains. */
  ghost predicate Forks(log: seq<Event>, forked: set<string>) {
    forall sid :: if sid in forked then !ForkFree(Session(log, sid)) else Chained(Session(log, sid))
  }

  /** A fork stays. */
  lemma ForkStays(c: seq<Event>, d: seq<Event>)
    requires !ForkFree(c)
    ensures !ForkFree(c + d)
  {
    var i, j :| 0 <= i < j < |c| && c[i].causationID == c[j].causationID;
    assert (c + d)[i] == c[i] && (c + d)[j] == c[j];
  }

  lemma SecondUseForks(c: seq<Event>, e: Event)
    requires CauseUsed(c, e.causationID)
    ensures !ForkFree(c + [e])
  {
    var i :| 0 <= i < |c| && c[i].causationID == e.causationID;
    assert (c + [e])[i] == c[i] && (c + [e])[|c|] == e;
  }

  lemma ChainedSnoc(c: seq<Event>, e: Event)
    requires Chained(c) && e.causationID == TailID(c)
    ensures Chained(c + [e])
  {
  }

  /** Writing an event continues its session's chain, or forks it if the recorder is behind. */
  lemma WriteForks(log: seq<Event>, forked: set<string>, e: Event, r: Rec)
    requires Forks(log, forked) && Caught(Session(log, e.correlationID), r) && e.causationID == r.prevID
    ensures Forks(log + [e], if r.behind then forked + {e.correlationID} else forked)
  {
    var forked' := if r.behind then forked + {e.correlationID} else forked;
    forall sid ensures if sid in forked' then !ForkFree(Session(log + [e], sid)) else Chained(Session(log + [e], sid)) {
      SessionSnoc(log, e, sid);
      assert if sid in forked then !ForkFree(Session(log, sid)) else Chained(Session(log, sid));
      if sid == e.correlationID {
        if sid in forked {
          ForkStays(Session(log, sid), [e]);
        } else if r.behind {
          SecondUseForks(Session(log, sid), e);
        } else {
          ChainedSnoc(Session(log, sid), e);
        }
      }
    }
  }

  lemma StepForks(s: State, forked: set<string>, a: Action)
    requires Inv(s) && Forks(s.log, forked)
    ensures Forks(Step(s, a).log, forked + if WritesBehind(s, a) then {a.sid} else {})
  {
    if (a.Store? || a.StoreLies?) && a.sid in s.recs && s.recs[a.sid].pending.Some? {
      assert RecOk(s.log, s.next, a.sid, s.recs[a.sid]);
      WriteForks(s.log, forked, s.recs[a.sid].pending.value, s.recs[a.sid]);
    }
    assert forked + {} == forked;
  }

  lemma UnionAssoc(a: set<string>, b: set<string>, c: set<string>)
    ensures a + b + c == a + (b + c)
  {
  }

  lemma {:induction false} RunForks(s: State, forked: set<string>, acts: seq<Action>)
    requires Inv(s) && AdmissibleRun(s, acts) && Forks(s.log, forked)
    ensures Forks(Run(s, acts).log, forked + Overtaken(s, acts))
    decreases |acts|
  {
    if acts == [] {
      assert forked + {} == forked;
    } else {
      var more := if WritesBehind(s, acts[0]) then {acts[0].sid} else {};
      StepKeepsInv(s, acts[0]);
      StepForks(s, forked, acts[0]);
      RunForks(Step(s, acts[0]), forked + more, acts[1..]);
      UnionAssoc(forked, more, Overtaken(Step(s, acts[0]), acts[1..]));
    }
  }

  /** Over all interleavings of recorders, failed appends, appends that report an error after writing, and
      restarts: a session's stored events form one chain without forks if and only if none of its recorders
      wrote again after such an append without being opened anew. */
  lemma ChainsAreUnbrokenIff(s0: State, acts: seq<Action>, sid: string)
    requires Initial(s0) && AdmissibleRun(s0, acts)
    ensures var c := Session(Run(s0, acts).log, sid);
      (Chained(c) <==> sid !in Overtaken(s0, acts)) && (ForkFree(c) <==> sid !in Overtaken(s0, acts))
  {
    InitialInv(s0);
    assert Session([], sid) == [];
    RunForks(s0, {}, acts);
    RunKeepsInv(s0, acts);
    var s := Run(s0, acts);
    assert {} + Overtaken(s0, acts) == Overtaken(s0, acts);
    if Chained(Session(s.log, sid)) { ChainIsForkFree(s.log, s.next, sid); }
  }

  lemma {:induction false} NobodyBehind(s: State, acts: seq<Action>)
    requires forall sid :: sid in s.recs ==> !s.recs[sid].behind
    requires forall i :: 0 <= i < |acts| ==> !acts[i].StoreLies?
    ensures Overtaken(s, acts) == {}
    decreases |acts|
  {
    if acts != [] { NobodyBehind(Step(s, acts[0]), acts[1..]); }
  }

  /** If every append that reports an error has written nothing, all sessions are chains without forks. */
  lemma ChainsAreUnbroken(s0: State, acts: seq<Action>)
    requires Initial(s0) && AdmissibleRun(s0, acts)
    requires forall i :: 0 <= i < |acts| ==> !acts[i].StoreLies?
    ensures forall sid :: Chained(Session(Run(s0, acts).log, sid)) && ForkFree(Session(Run(s0, acts).log, sid))
  {
    NobodyBehind(s0, acts);
    forall sid ensures Chained(Session(Run(s0, acts).log, sid)) && ForkFree(Session(Run(s0, acts).log, sid)) {
      ChainsAreUnbrokenIff(s0, acts, sid);
    }
  }

  /** Whatever is reported and whoever is behind, each session is numbered in increasing order, and numbers
      and IDs are never reused. */
  lemma NumbersAreUnique(s0: State, acts: seq<Action>)
    requires Initial(s0) && AdmissibleRun(s0, acts)
    ensures var log := Run(s0, acts).log;
      && (forall sid :: Increasing(Session(log, sid)))
      && (forall i, j :: 0 <= i < j < |log| ==> log[i].seqNr != log[j].seqNr && log[i].id != log[j].id)
      && Run(s0, acts).next >= 1 && forall i :: 0 <= i < |log| ==> 1 <= log[i].seqNr < Run(s0, acts).next
  {
    InitialInv(s0);
    RunKeepsInv(s0, acts);
    var s := Run(s0, acts);
    forall sid ensures Increasing(Session(s.log, sid)) {
      assert SessionOk(Session(s.log, sid));
    }
  }

  lemma ChainIsForkFree(log: seq<Event>, next: nat, sid: string)
    requires LogOk(log, next) && Chained(Session(log, sid))
    ensures ForkFree(Session(log, sid))
  {
    var c := Session(log, sid);
    assert SessionOk(c);
    SessionMembers(log, sid);
    forall i, j | 0 <= i < j < |c| ensures c[i].causationID != c[j].causationID {
      var k :| 0 <= k < |log| && log[k] == c[j - 1];
      assert c[j].causationID == log[k].id;
      if i > 0 {
        var h :| 0 <= h < |log| && log[h] == c[i - 1];
        assert c[i].causationID == log[h].id;
        assert c[i - 1].seqNr < c[j - 1].seqNr;
        assert h < k || k < h;
        assert log[h].id != log[k].id;
      } else {
        assert c[i].causationID == "" && log[k].id != "";
      }
    }
  }

  /** Opening a session's recorder, anew or after a restart, starts it at the event that the session appended last;
      closing it forgets it; raising the counter does not lower it. Nothing else changes. */
  lemma OtherSteps(s: State, sid: string, n: nat)
    requires Inv(s)
    ensures sid !in s.recs ==> Step(s, Open(sid)) == s.(recs := s.recs[sid := Rec(TailID(Session(s.log, sid)), None, false)])
    ensures sid in s.recs ==> Step(s, Open(sid)) == s
    ensures sid !in Step(s, Close(sid)).recs && Step(s, Close(sid)) == s.(recs := s.recs - {sid})
    ensures Step(s, Initialize(n)) == s.(next := if s.next > n + 1 then s.next else n + 1)
  {
    assert SessionOk(Session(s.log, sid));
    ResumeFindsTail(s.log, sid);
  }

  /** The failing family of a recorder that goes on at once. */
  lemma UnreportedWriteForks(s: State, sid: string, ev: Event)
    requires Inv(s) && sid in s.recs && s.recs[sid].pending.Some? && ValidEvent(s.recs[sid].pending.value)
    requires ev.causationID == "" && ValidEvent(Stamp(ev, sid, s.recs[sid].prevID, s.next))
    ensures sid in Overtaken(s, [StoreLies(sid), Alloc(sid, ev), Store(sid)])
  {
    var acts := [StoreLies(sid), Alloc(sid, ev), Store(sid)];
    var t := Step(s, StoreLies(sid));
    var u := Step(t, Alloc(sid, ev));
    assert WritesBehind(u, Store(sid));
    assert acts[2..] == [Store(sid)] && acts[1..][1..] == acts[2..];
    assert sid in Overtaken(u, acts[2..]);
    assert sid in Overtaken(t, acts[1..]);
  }

  // ---------- the numbers ----------

  /** The step hands out the counter's next number. */
  ghost predicate Allocates(s: State, a: Action) {
    a.Alloc? && a.sid in s.recs && s.recs[a.sid].pending.None?
  }

  /** The numbers handed out along a run, also those whose event was never stored. */
  ghost function Handed(s: State, acts: seq<Action>): seq<nat>
    decreases |acts|
  {
    if acts == [] then []
    else if Allocates(s, acts[0]) then [s.next] + Handed(Step(s, acts[0]), acts[1..])
    else Handed(Step(s, acts[0]), acts[1..])
  }

  lemma NextAfter(s: State, a: Action)
    ensures var n := Step(s, a).next;
            n >= s.next && (Allocates(s, a) ==> n == s.next + 1) && (!Allocates(s, a) && !a.Initialize? ==> n == s.next)
  {
  }

  /** In order of allocation the numbers increase, within these bounds. */
  ghost predicate Ascending(h: seq<nat>, low: nat, high: nat) {
    && (forall i :: 0 <= i < |h| ==> low <= h[i] <= high)
    && (forall i, j :: 0 <= i < j < |h| ==> h[i] < h[j])
  }

  lemma Ascends(n: nat, rest: seq<nat>, low: nat, high: nat)
    requires low <= n <= high && Ascending(rest, n + 1, high)
    ensures Ascending([n] + rest, low, high)
  {
  }

  /** The numbers of a run increase from the counter's next number up to its latest one, which is the last
      one handed out unless the counter was raised in between. */
  lemma {:induction false} LatestIsHighest(s: State, acts: seq<Action>)
    requires s.next >= 1
    ensures Run(s, acts).next >= s.next && Ascending(Handed(s, acts), s.next, Latest(Run(s, acts).next))
    ensures NeverRaised(acts) ==> var h := Handed(s, acts);
              Latest(Run(s, acts).next) == if h == [] then Latest(s.next) else h[|h| - 1]
    decreases |acts|
  {
    if acts != [] {
      NextAfter(s, acts[0]);
      LatestIsHighest(Step(s, acts[0]), acts[1..]);
      if Allocates(s, acts[0]) {
        Ascends(s.next, Handed(Step(s, acts[0]), acts[1..]), s.next, Latest(Run(s, acts).next));
      }
    }
  }

  ghost predicate NeverRaised(acts: seq<Action>) {
    forall i :: 0 <= i < |acts| ==> !acts[i].Initialize?
  }

  // ---------- the counter and the recorder ----------

  class SeqCounter {
    var next: nat

    constructor ()
      ensures next == 1
    {
      next := 1;
    }

    /** The number is new, and it is now the latest one. */
    method AllocSeqNr() returns (seqNr: nat)
      modifies this
      ensures seqNr == old(next) && next == old(next) + 1
      ensures seqNr > Latest(old(next)) || old(next) == 0
      ensures Latest(next) == seqNr
    {
      next := next + 1;
      seqNr := next - 1;
    }

    method LatestSeqNr() returns (latest: nat)
      ensures latest == Latest(next) == if next >= 1 then next - 1 else 0
    {
      latest := if next <= 1 then 0 else next - 1;
    }

    /** Afterwards the counter is past `startAt` and has not gone back. */
    method InitializeAt(startAt: nat)
      modifies this
      ensures next == if old(next) > startAt + 1 then old(next) else startAt + 1
    {
      next := Raised(next, startAt);
    }
  }

  /** One recorder; Record holds the recorder's mutex from allocation to append. */
  class SessionRecorder {
    const store: FileEventStore
    const counter: SeqCounter
    const sessionID: string
    var prevID: string
    ghost var behind: bool

    /** NewSessionRecorder: resumes the chain from the last stored event of the session. */
    constructor (store: FileEventStore, counter: SeqCounter, sessionID: string)
      requires store.Valid()
      ensures this.store == store && this.counter == counter && this.sessionID == sessionID
      ensures prevID == LastID(Loaded(store.log), sessionID) && !behind
    {
      this.store, this.counter, this.sessionID := store, counter, sessionID;
      prevID, behind := "", false;
      new;
      var events := store.LoadAll();
      var i := |events|;
      assert events[..i] == events;
      while i > 0
        invariant 0 <= i <= |events|
        invariant LastID(events[..i], sessionID) == LastID(events, sessionID)
        invariant prevID == "" && !behind
      {
        i := i - 1;
        assert events[..i + 1][..i] == events[..i];
        if events[i].correlationID == sessionID {
          prevID := events[i].id;
          return;
        }
      }
    }

    ghost function Abs(): State
      reads this, store, counter
    {
      State(store.log, counter.next, map[sessionID := Rec(prevID, None, behind)])
    }

    /** A failed allocation changes nothing; otherwise Record is the two steps of the transition system. */
    method Record(ev: Event, allocOk: bool, fault: Fault) returns (ok: bool)
      requires store.Valid()
      modifies this, store, counter
      ensures store.Valid()
      ensures !allocOk ==> !ok && Abs() == old(Abs())
      ensures allocOk ==> Abs() == Step(Step(old(Abs()), Alloc(sessionID, ev)), Storing(fault, sessionID))
      ensures allocOk ==> (ok <==> Storing(fault, sessionID).Store? && ValidEvent(ev))
      ensures var cause := if old(prevID) != "" then old(prevID) else ev.causationID;
        var e := ev.(sessionID := sessionID, correlationID := sessionID, seqNr := old(counter.next), causationID := cause);
        ok ==> store.log == old(store.log) + [e]
      ensures prevID == if ok then ev.id else old(prevID)
      ensures counter.next == if allocOk then old(counter.next) + 1 else old(counter.next)
    {
      if !allocOk { return false; }
      var seqNr := counter.AllocSeqNr();
      RecordSteps(old(store.log), old(counter.next), sessionID, Rec(prevID, None, behind), ev, fault);
      ghost var kept;
      ok, kept := AppendOne(Stamp(ev, sessionID, prevID, seqNr), fault);
      if ok {
        prevID := ev.id;
        behind := false;
      } else {
        behind := behind || kept != [];
      }
    }

    /** The append of one event. */
    method AppendOne(e: Event, fault: Fault) returns (ok: bool, ghost kept: seq<Event>)
      requires store.Valid()
      modifies store
      ensures store.Valid() && store.log == old(store.log) + kept
      ensures kept == if !ValidEvent(e) || Storing(fault, sessionID).StoreFails? then [] else [e]
      ensures ok <==> Storing(fault, sessionID).Store? && ValidEvent(e)
    {
      OneFault(fault, e);
      ok, kept := store.Append([e], fault);
      if !ok && ValidEvent(e) { OneEventKept(fault, kept, e); }
    }
  }

  /** The step that an append of one event is. */
  function Storing(fault: Fault, sid: string): Action {
    if WriteFailsAt(fault, 0) then StoreFails(sid) else if SyncFailsAt(fault, 0) then StoreLies(sid) else Store(sid)
  }

  lemma OneFault(fault: Fault, e: Event)
    ensures Hits(fault, [e]) <==> WriteFailsAt(fault, 0) || SyncFailsAt(fault, 0)
    ensures AllValid([e]) <==> ValidEvent(e)
  {
    assert Days([e]) == {DayOf(e.timestamp)};
    assert [e][0] == e;
  }

  /** The two steps of a Record with nobody else around. */
  lemma RecordSteps(log: seq<Event>, next: nat, sid: string, r: Rec, ev: Event, fault: Fault)
    requires r.pending.None?
    ensures var e, a := Stamp(ev, sid, r.prevID, next), Storing(fault, sid);
            Step(Step(State(log, next, map[sid := r]), Alloc(sid, ev)), a)
            == if !ValidEvent(e) || a.StoreFails? then State(log, next + 1, map[sid := r])
               else State(log + [e], next + 1, map[sid := if a.Store? then Rec(e.id, None, false) else r.(behind := true)])
  {
    var e := Stamp(ev, sid, r.prevID, next);
    OneEntry(sid, r, r.(pending := Some(e)));
    OneEntry(sid, r.(pending := Some(e)), Rec(e.id, None, false));
    OneEntry(sid, r.(pending := Some(e)), r);
    OneEntry(sid, r.(pending := Some(e)), r.(behind := true));
  }

  lemma OneEntry(sid: string, r: Rec, q: Rec)
    ensures map[sid := r][sid := q] == map[sid := q]
  {
  }
}
