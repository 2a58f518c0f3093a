/**
  The expedition aggregate: its failure streak against the projection's, escalation once per streak, and
  a bounded number of recovery retries.
 */
module Aggregate {
  import opened EventStore
  import opened Projection
  import Waves
  import WaveEvents

  const MAX_RECOVERY_ATTEMPTS := 2

  /** The class of a failure streak; which reasons lead to which class is left open. */
  datatype GommageClass = Timeout | RateLimit | ParseError | Blocker | Systematic

  datatype Decision = Halt(gommage: GommageClass) | Retry(gommage: GommageClass, retryNum: nat)

  predicate ValidStatus(s: string) { s == "success" || s == "failed" || s == "parse_error" || s == "skipped" }

  predicate Retryable(c: GommageClass) { c.Timeout? || c.RateLimit? || c.ParseError? }

  datatype Counters = Counters(failures: nat, fired: bool, attempts: nat)

  function Complete(f: Counters, status: string): Counters {
    if status == "success" then f.(failures := 0, fired := false)
    else if status == "failed" || status == "parse_error" then f.(failures := f.failures + 1)
    else f
  }

  function Escalate(f: Counters, threshold: int): (Counters, bool) {
    if f.failures >= threshold && !f.fired then (f.(fired := true), true) else (f, false)
  }

  function Decide(f: Counters, c: GommageClass): (Counters, Decision) {
    if !Retryable(c) || f.attempts >= MAX_RECOVERY_ATTEMPTS then (f, Halt(c))
    else (f.(attempts := f.attempts + 1), Retry(c, f.attempts + 1))
  }

  /** What an expedition reports, with the fresh ID and the time of its event. */
  datatype Completion = Completion(expedition: int, status: string, issueID: string, waveID: string, stepID: string,
                                   id: string, now: int)

  /** The expedition.completed event of a result. */
  function CompletedEvent(c: Completion): Event {
    Event(1, c.id, ExpeditionCompleted, c.now, EventStore.Data.Fields(c.expedition, c.status, c.issueID, c.waveID, c.stepID, 0, 0, []),
          "", "", "", 0)
  }

  /** The event carries what the expedition reported. */
  predicate Reports(e: Event, c: Completion) {
    && e.etype == ExpeditionCompleted && e.id == c.id && e.timestamp == c.now && e.data.Fields?
    && e.data.expedition == c.expedition && e.data.status == c.status && e.data.issueID == c.issueID
    && e.data.waveID == c.waveID && e.data.stepID == c.stepID && e.data.level == 0 && e.data.count == 0 && e.data.steps == []
    && e.schemaVersion == 1 && e.sessionID == "" && e.correlationID == "" && e.causationID == "" && e.seqNr == 0
  }

  /** The completion event in the wave read model: a successful or skipped expedition completes its step, and
      nothing else happens; any other expedition changes nothing. */
  lemma CompletionReachesWaves(b: WaveEvents.StepBoard, e: Event, c: Completion)
    requires Reports(e, c)
    ensures var t, s := WaveEvents.ApplyWaveEvent(b, e), if c.stepID == "" then c.waveID else c.stepID;
      && t.order == b.order && t.titles == b.titles && t.waves.Keys == b.waves.Keys
      && (forall w :: w in b.waves ==> t.waves[w].order == b.waves[w].order && t.waves[w].steps.Keys == b.waves[w].steps.Keys)
      && forall w, q :: w in b.waves && q in b.waves[w].steps ==>
           t.waves[w].steps[q] == if w == c.waveID && w != "" && q == s && (c.status == "success" || c.status == "skipped")
                                  then Waves.Completed else b.waves[w].steps[q]
  {
  }

  /** The aggregate's event, whatever its fields, does so. */
  lemma CompletedEventReports(c: Completion)
    ensures Reports(CompletedEvent(c), c)
  {
  }

  class ExpeditionAggregate {
    var consecutiveFailures: nat
    var escalationFired: bool
    var recoveryAttempts: nat

    ghost function Abs(): Counters
      reads this
    {
      Counters(consecutiveFailures, escalationFired, recoveryAttempts)
    }

    constructor ()
      ensures Abs() == Counters(0, false, 0)
    {
      consecutiveFailures, escalationFired, recoveryAttempts := 0, false, 0;
    }

    /** An unknown status is refused; otherwise one event is produced. */
    method CompleteExpedition(c: Completion) returns (events: seq<Event>)
      modifies this
      ensures Abs() == Complete(old(Abs()), c.status)
      ensures events == if ValidStatus(c.status) then [CompletedEvent(c)] else []
      ensures events == [] <==> c.status != "success" && c.status != "failed" && c.status != "parse_error" && c.status != "skipped"
      ensures events != [] ==> |events| == 1 && Reports(events[0], c)
      ensures consecutiveFailures == if c.status == "success" then 0
                                     else if c.status == "failed" || c.status == "parse_error" then old(consecutiveFailures) + 1
                                     else old(consecutiveFailures)
      ensures escalationFired == (old(escalationFired) && c.status != "success") && recoveryAttempts == old(recoveryAttempts)
      ensures forall es, n: nat, k: nat :: Step(State(old(Abs()), es, n, k), Finish(c))
                              == State(Abs(), es + events, if c.status == "success" then 0 else n, k)
    {
      if !ValidStatus(c.status) { return []; }
      events := [CompletedEvent(c)];
      if c.status == "success" {
        consecutiveFailures, escalationFired := 0, false;
      } else if c.status == "failed" || c.status == "parse_error" {
        consecutiveFailures := consecutiveFailures + 1;
      }
    }

    method ShouldEscalate(threshold: int) returns (fire: bool)
      modifies this
      ensures (Abs(), fire) == Escalate(old(Abs()), threshold)
      ensures fire <==> old(consecutiveFailures) >= threshold && !old(escalationFired)
      ensures escalationFired == (old(escalationFired) || fire)
      ensures consecutiveFailures == old(consecutiveFailures) && recoveryAttempts == old(recoveryAttempts)
      ensures forall es, n: nat, k: nat :: Step(State(old(Abs()), es, n, k), AskEscalation(threshold))
                              == State(Abs(), es, if fire then n + 1 else n, k)
    {
      fire := consecutiveFailures >= threshold && !escalationFired;
      if fire { escalationFired := true; }
    }

    method DecideRecovery(c: GommageClass) returns (d: Decision)
      modifies this
      ensures (Abs(), d) == Decide(old(Abs()), c)
      ensures if (c.Timeout? || c.RateLimit? || c.ParseError?) && old(recoveryAttempts) < 2
              then recoveryAttempts == old(recoveryAttempts) + 1 && d == Retry(c, recoveryAttempts)
              else recoveryAttempts == old(recoveryAttempts) && d == Halt(c)
      ensures consecutiveFailures == old(consecutiveFailures) && escalationFired == old(escalationFired)
      ensures forall es, n: nat, k: nat :: Step(State(old(Abs()), es, n, k), AskRecovery(c))
                              == State(Abs(), es, n, if d.Retry? then k + 1 else k)
    {
      if !Retryable(c) || recoveryAttempts >= MAX_RECOVERY_ATTEMPTS { return Halt(c); }
      recoveryAttempts := recoveryAttempts + 1;
      d := Retry(c, recoveryAttempts);
    }

    method ResetRecovery()
      modifies this
      ensures recoveryAttempts == 0 && consecutiveFailures == old(consecutiveFailures) && escalationFired == old(escalationFired)
      ensures forall es, n: nat, k: nat :: Step(State(old(Abs()), es, n, k), Reset) == State(Abs(), es, n, 0)
    {
      recoveryAttempts := 0;
    }
  }

  // ---------- runs ----------

  datatype Action = Finish(c: Completion) | AskEscalation(threshold: int) | AskRecovery(gommage: GommageClass) | Reset

  /** History: the stored completion events, the escalations since the last success and the retries
      granted since the last reset. */
  datatype State = State(f: Counters, events: seq<Event>, escalations: nat, retries: nat)

  ghost function Step(s: State, a: Action): State {
    match a
    case Finish(c) =>
      if !ValidStatus(c.status) then s
      else State(Complete(s.f, c.status), s.events + [CompletedEvent(c)],
                 if c.status == "success" then 0 else s.escalations, s.retries)
    case AskEscalation(t) =>
      var (f, fire) := Escalate(s.f, t);
      s.(f := f, escalations := if fire then s.escalations + 1 else s.escalations)
    case AskRecovery(gommage) =>
      var (f, d) := Decide(s.f, gommage);
      s.(f := f, retries := if d.Retry? then s.retries + 1 else s.retries)
    case Reset => s.(f := s.f.(attempts := 0), retries := 0)
  }

  ghost function Run(s: State, acts: seq<Action>): State
    decreases |acts|
  {
    if acts == [] then s else Run(Step(s, acts[0]), acts[1..])
  }

  const START := State(Counters(0, false, 0), [], 0, 0)

  /** The failures since the last success, with or without the parse errors. */
  ghost function Streak(events: seq<Event>, parseErrors: bool): nat {
    if events == [] then 0 else
    var n := |events| - 1;
    var d := events[n].data;
    if !d.Fields? then Streak(events[..n], parseErrors)
    else if d.status == "success" then 0
    else if d.status == "failed" || (parseErrors && d.status == "parse_error") then Streak(events[..n], parseErrors) + 1
    else Streak(events[..n], parseErrors)
  }

  /** A parse error has been reported since the last success. */
  ghost predicate ParseErrorPending(events: seq<Event>) {
    events != [] &&
    var n := |events| - 1;
    var d := events[n].data;
    if !d.Fields? then ParseErrorPending(events[..n])
    else d.status != "success" && (d.status == "parse_error" || ParseErrorPending(events[..n]))
  }

  ghost predicate Inv(s: State) {
    && s.f.failures == Streak(s.events, true)
    && s.escalations == (if s.f.fired then 1 else 0)
    && s.retries == s.f.attempts && s.f.attempts <= MAX_RECOVERY_ATTEMPTS
    && forall i :: 0 <= i < |s.events| ==> s.events[i].etype == ExpeditionCompleted && s.events[i].data.Fields?
  }

  lemma StepKeepsInv(s: State, a: Action)
    requires Inv(s)
    ensures Inv(Step(s, a))
  {
    match a
    case Finish(c) => if ValidStatus(c.status) { FinishKeeps(s, c); }
    case AskEscalation(_) =>
    case AskRecovery(_) =>
    case Reset =>
  }

  lemma {:induction false} StreakSnoc(events: seq<Event>, c: Completion)
    ensures Streak(events + [CompletedEvent(c)], true)
         == if c.status == "success" then 0
            else Streak(events, true) + (if c.status == "failed" || c.status == "parse_error" then 1 else 0)
  {
    assert (events + [CompletedEvent(c)])[..|events|] == events;
  }

  lemma FinishKeeps(s: State, c: Completion)
    requires Inv(s) && ValidStatus(c.status)
    ensures Inv(Step(s, Finish(c)))
  {
    StreakSnoc(s.events, c);
  }

  lemma {:induction false} RunKeepsInv(s: State, acts: seq<Action>)
    requires Inv(s)
    ensures Inv(Run(s, acts))
    decreases |acts|
  {
    if acts != [] {
      StepKeepsInv(s, acts[0]);
      RunKeepsInv(Step(s, acts[0]), acts[1..]);
    }
  }

  /** The projection counts the failures since the last success without the parse errors. */
  lemma {:induction false} ProjectedStreak(events: seq<Event>)
    requires forall i :: 0 <= i < |events| ==> events[i].etype == ExpeditionCompleted && events[i].data.Fields?
    ensures ProjectState(events).consecutiveFailures == Streak(events, false)
  {
    if events != [] {
      var n := |events| - 1;
      ProjectedStreak(events[..n]);
      assert events == events[..n] + [events[n]];
      ReplaySnoc(events[..n], events[n]);
    }
  }

  lemma {:induction false} StreaksCompare(events: seq<Event>)
    ensures Streak(events, false) <= Streak(events, true)
    ensures Streak(events, false) == Streak(events, true) <==> !ParseErrorPending(events)
  {
    if events != [] { StreaksCompare(events[..|events| - 1]); }
  }

  /** In every run the aggregate's streak is at least the projected one, and they are equal exactly when
      no parse error was reported since the last success. */
  lemma StreaksAgreeIff(acts: seq<Action>)
    ensures var s := Run(START, acts);
      && s.f.failures == Streak(s.events, true)
      && ProjectState(s.events).consecutiveFailures <= s.f.failures
      && (ProjectState(s.events).consecutiveFailures == s.f.failures <==> !ParseErrorPending(s.events))
  {
    RunKeepsInv(START, acts);
    ProjectedStreak(Run(START, acts).events);
    StreaksCompare(Run(START, acts).events);
  }

  /** After any run: a question for escalation fires, if none has fired since the last success, exactly when the
      failures since then, parse errors included, have reached the threshold; and a question for recovery
      grants a retry exactly for a retryable class with fewer than two retries since the last reset. */
  lemma ReactionsHappen(acts: seq<Action>, threshold: int, gommage: GommageClass)
    ensures var s := Run(START, acts);
      && Step(s, AskEscalation(threshold)).escalations
         == (if s.escalations == 1 || Streak(s.events, true) >= threshold then 1 else 0)
      && Step(s, AskRecovery(gommage)).retries
         == s.retries + (if (gommage.Timeout? || gommage.RateLimit? || gommage.ParseError?) && s.retries < 2 then 1 else 0)
  {
    RunKeepsInv(START, acts);
  }

  /** Escalation fires at most once between two successes, and at most two retries are granted between
      two resets. */
  lemma BoundedReactions(acts: seq<Action>)
    ensures Run(START, acts).escalations <= 1 && Run(START, acts).retries <= 2
  {
    RunKeepsInv(START, acts);
  }
}
