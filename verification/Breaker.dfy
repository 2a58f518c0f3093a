/**
  The circuit breaker: exponential backoff with a cap, a probe after the deadline, and callers that
  sleep on a snapshot of a notification channel. Times and durations are nanoseconds.
 */
module Breaker {
  import opened Wrappers

  const BACKOFF_BASE := 30_000_000_000
  const BACKOFF_MAX := 600_000_000_000
  const MIN_WAIT := 1_000_000_000

  datatype Circuit = Closed | Open | HalfOpen

  /** The fields of the breaker; `channel` counts the notification channels made so far, so the current
      one is open and all earlier ones are closed. */
  datatype Fields = Fields(circuit: Circuit, resetAt: Option<int>, backoff: int, lastTrip: int, channel: nat)

  const FRESH := Fields(Closed, None, BACKOFF_BASE, 0, 0)

  /** When an open circuit may be probed: the provider's reset time, or the end of the backoff. */
  function Deadline(f: Fields): int {
    match f.resetAt
    case Some(t) => t
    case None => f.lastTrip + f.backoff
  }

  /** Allow either returns nil or goes to sleep on the current channel. */
  datatype Verdict = Granted | Sleep(duration: int, channel: nat)

  function Probe(f: Fields, now: int): (Fields, Verdict) {
    if !f.circuit.Open? then (f, Granted)
    else if now > Deadline(f) then (f.(circuit := HalfOpen), Granted)
    else
      var wait := Deadline(f) - now;
      (f, Sleep(if wait <= 0 then MIN_WAIT else wait, f.channel))
  }

  function Doubled(backoff: int): int { if backoff * 2 > BACKOFF_MAX then BACKOFF_MAX else backoff * 2 }

  function Trip(f: Fields, resetAt: Option<int>, now: int): Fields {
    Fields(Open, resetAt, Doubled(f.backoff), now, f.channel + 1)
  }

  function Succeed(f: Fields): Fields {
    if f.circuit.Closed? then f.(resetAt := None)
    else f.(circuit := Closed, resetAt := None, backoff := BACKOFF_BASE, channel := f.channel + 1)
  }

  class CircuitBreaker {
    var circuit: Circuit
    var resetAt: Option<int>
    var backoffCurrent: int
    var lastTrip: int
    var channel: nat

    ghost function Abs(): Fields
      reads this
    {
      Fields(circuit, resetAt, backoffCurrent, lastTrip, channel)
    }

    constructor ()
      ensures Abs() == FRESH
      ensures circuit == Closed && resetAt == None && backoffCurrent == 30_000_000_000 && channel == 0
    {
      circuit, resetAt, backoffCurrent, lastTrip, channel := Closed, None, BACKOFF_BASE, 0, 0;
    }

    /** One round of the loop in Allow, under the mutex. */
    method TryAllow(now: int) returns (v: Verdict)
      modifies this
      ensures (Abs(), v) == Probe(old(Abs()), now)
      ensures var end := if old(resetAt).Some? then old(resetAt).value else old(lastTrip) + old(backoffCurrent);
        && (v.Granted? <==> old(circuit) != Open || now > end)
        && (v.Sleep? ==> v.channel == channel && v.duration == if end > now then end - now else 1_000_000_000)
      ensures circuit == if old(circuit) == Open && v.Granted? then HalfOpen else old(circuit)
      ensures resetAt == old(resetAt) && backoffCurrent == old(backoffCurrent) && lastTrip == old(lastTrip) && channel == old(channel)
    {
      match circuit {
        case Open =>
          if resetAt.Some? && now > resetAt.value {
            circuit := HalfOpen;
            return Granted;
          }
          if resetAt.None? && now - lastTrip > backoffCurrent {
            circuit := HalfOpen;
            return Granted;
          }
          var wait := if resetAt.Some? then resetAt.value - now else backoffCurrent - (now - lastTrip);
          if wait <= 0 { wait := MIN_WAIT; }
          v := Sleep(wait, channel);
        case _ => v := Granted;
      }
    }

    method RecordProviderError(isTrip: bool, reset: Option<int>, now: int)
      modifies this
      ensures Abs() == if isTrip then Trip(old(Abs()), reset, now) else old(Abs())
      ensures isTrip ==> circuit == Open && resetAt == reset && lastTrip == now && channel == old(channel) + 1
      ensures isTrip ==> backoffCurrent == if old(backoffCurrent) > 300_000_000_000 then 600_000_000_000 else old(backoffCurrent) * 2
      ensures !isTrip ==> Abs() == old(Abs())
    {
      if !isTrip { return; }
      circuit := Open;
      lastTrip := now;
      backoffCurrent := backoffCurrent * 2;
      if backoffCurrent > BACKOFF_MAX { backoffCurrent := BACKOFF_MAX; }
      resetAt := reset;
      channel := channel + 1;
    }

    method RecordSuccess()
      modifies this
      ensures Abs() == Succeed(old(Abs()))
      ensures circuit == Closed && resetAt == None && lastTrip == old(lastTrip)
      ensures old(circuit) == Closed ==> backoffCurrent == old(backoffCurrent) && channel == old(channel)
      ensures old(circuit) != Closed ==> backoffCurrent == 30_000_000_000 && channel == old(channel) + 1
    {
      if circuit != Closed {
        backoffCurrent := BACKOFF_BASE;
        channel := channel + 1;
      }
      circuit := Closed;
      resetAt := None;
    }
  }

  // ---------- runs ----------

  /** A caller asleep in Allow: the channel it watches, its timer, and (history) the deadline and the
      number of trips it saw. */
  datatype Waiter = Waiter(channel: nat, until: int, deadline: int, trips: nat)

  /** History: `trips` counts the trips since the circuit was last closed, `granted` holds the times of
      the grants since the latest trip, until a success. */
  datatype State = State(clock: int, f: Fields, waiters: map<nat, Waiter>, trips: nat, granted: seq<int>)

  datatype Action =
    | Tick(to: int)
    | ProviderError(resetAt: Option<int>)
    | Success
    | Check(pid: nat)      // a caller that is not asleep runs a round of the loop
    | Wake(pid: nat)       // its timer fired, its channel was closed, or it was cancelled

  ghost function Step(s: State, a: Action): State {
    match a
    case Tick(to) => if s.clock <= to then s.(clock := to) else s
    case ProviderError(reset) => s.(f := Trip(s.f, reset, s.clock), trips := s.trips + 1, granted := [])
    case Success =>
      if s.f.circuit.Closed? then s.(f := Succeed(s.f))
      else s.(f := Succeed(s.f), trips := 0, granted := [])
    case Check(pid) =>
      if pid in s.waiters then s else
      var (f, v) := Probe(s.f, s.clock);
      (match v
       case Granted => s.(f := f, granted := s.granted + [s.clock])
       case Sleep(d, c) => s.(f := f, waiters := s.waiters[pid := Waiter(c, s.clock + d, Deadline(s.f), s.trips)]))
    case Wake(pid) => s.(waiters := s.waiters - {pid})
  }

  ghost function Run(s: State, acts: seq<Action>): State
    decreases |acts|
  {
    if acts == [] then s else Run(Step(s, acts[0]), acts[1..])
  }

  ghost predicate Initial(s: State) {
    s.f == FRESH && s.waiters == map[] && s.trips == 0 && s.granted == []
  }

  function Pow2(n: nat): nat { if n == 0 then 1 else 2 * Pow2(n - 1) }

  /** min(30s * 2^n, 10min) */
  function Backoff(n: nat): int {
    var d := 30_000_000_000 * Pow2(n);
    if d > 600_000_000_000 then 600_000_000_000 else d
  }

  lemma BackoffDoubles(n: nat)
    ensures Doubled(Backoff(n)) == Backoff(n + 1)
  {
    assert BACKOFF_BASE * Pow2(n + 1) == 2 * (BACKOFF_BASE * Pow2(n));
  }

  ghost predicate WaiterOk(s: State, w: Waiter) {
    && w.channel <= s.f.channel && w.deadline <= w.until <= w.deadline + MIN_WAIT
    && (w.channel == s.f.channel ==> !s.f.circuit.Closed? && Deadline(s.f) == w.deadline && s.trips == w.trips)
  }

  ghost predicate Inv(s: State) {
    && s.f.backoff == Backoff(s.trips)
    && (s.f.circuit.Closed? <==> s.trips == 0)
    && (s.f.circuit.Open? ==> s.granted == [])
    && (s.f.circuit.HalfOpen? ==> forall i :: 0 <= i < |s.granted| ==> s.granted[i] > Deadline(s.f))
    && (s.f.circuit.HalfOpen? ==> s.clock > Deadline(s.f))
    && (forall p :: p in s.waiters ==> WaiterOk(s, s.waiters[p]))
  }

  lemma StepKeepsInv(s: State, a: Action)
    requires Inv(s)
    ensures Inv(Step(s, a))
  {
    var t := Step(s, a);
    BackoffDoubles(s.trips);
    assert Backoff(0) == BACKOFF_BASE;
    forall p | p in t.waiters ensures WaiterOk(t, t.waiters[p]) {
      if p in s.waiters { assert WaiterOk(s, s.waiters[p]); }
    }
  }

  lemma {:induction false} RunKeepsInv(s: State, acts: seq<Action>)
    requires Inv(s)
    ensures Inv(Run(s, acts))
    decreases |acts|
  {
    if acts != [] {
      StepKeepsInv(s, acts[0]);
      RunKeepsInv(Step(s, acts[0]), acts[1..]);
    }
  }

  /** In every run the backoff has its closed form, and while the circuit has not been closed since its
      latest trip, every grant came after the deadline of that trip. */
  lemma BackoffAndGrants(s0: State, acts: seq<Action>)
    requires Initial(s0)
    ensures var s := Run(s0, acts);
      && s.f.backoff == Backoff(s.trips)
      && (s.trips > 0 ==> forall i :: 0 <= i < |s.granted| ==> s.granted[i] > Deadline(s.f))
  {
    assert Backoff(0) == BACKOFF_BASE;
    RunKeepsInv(s0, acts);
  }

  /** Nothing is reported to the breaker. */
  ghost predicate Unreported(acts: seq<Action>) {
    forall i :: 0 <= i < |acts| ==> !acts[i].ProviderError? && !acts[i].Success?
  }

  lemma {:induction false} UnreportedKeeps(s: State, acts: seq<Action>)
    requires Unreported(acts)
    ensures var t := Run(s, acts);
      t.f.resetAt == s.f.resetAt && t.f.lastTrip == s.f.lastTrip && t.f.backoff == s.f.backoff && t.trips == s.trips
      && t.clock >= s.clock && (t.f.circuit.Closed? <==> s.f.circuit.Closed?)
    decreases |acts|
  {
    if acts != [] { UnreportedKeeps(Step(s, acts[0]), acts[1..]); }
  }

  /** After a trip in any run, and until something else is reported, every grant comes after the reset time that
      the provider gave or, without one, after the time of the trip plus the backoff; and a caller that checks
      then is granted. */
  lemma TripHolds(s0: State, before: seq<Action>, reset: Option<int>, after: seq<Action>, pid: nat)
    requires Initial(s0) && Unreported(after)
    ensures var s := Run(s0, before);
      var t := Run(Step(s, ProviderError(reset)), after);
      var end := match reset case Some(r) => r case None => s.clock + Backoff(s.trips + 1);
      && (forall i :: 0 <= i < |t.granted| ==> t.granted[i] > end)
      && (t.clock > end && pid !in t.waiters ==> Step(t, Check(pid)).granted == t.granted + [t.clock])
  {
    assert Backoff(0) == BACKOFF_BASE;
    RunKeepsInv(s0, before);
    var s := Run(s0, before);
    StepKeepsInv(s, ProviderError(reset));
    RunKeepsInv(Step(s, ProviderError(reset)), after);
    UnreportedKeeps(Step(s, ProviderError(reset)), after);
  }

  /** A caller that finds the circuit open before the deadline goes to sleep on the current channel until then, or
      for a second; woken later, after the deadline, it is granted. */
  lemma SleeperComesThrough(s: State, pid: nat, to: int)
    requires s.f.circuit.Open? && s.clock <= Deadline(s.f) < to && pid !in s.waiters
    ensures var t := Step(s, Check(pid));
      && t == s.(waiters := t.waiters) && pid in t.waiters && t.waiters[pid].channel == s.f.channel
      && t.waiters[pid].until == (if s.clock < Deadline(s.f) then Deadline(s.f) else s.clock + 1_000_000_000)
      && var u := Run(t, [Tick(to), Wake(pid), Check(pid)]);
         u.clock == to && u.f.circuit.HalfOpen? && u.granted == s.granted + [to] && pid !in u.waiters
  {
    var t := Step(s, Check(pid));
    var acts := [Tick(to), Wake(pid), Check(pid)];
    assert acts[1..] == [Wake(pid), Check(pid)] && acts[1..][1..] == [Check(pid)] && acts[1..][1..][1..] == [];
    var u := Step(Step(t, Tick(to)), Wake(pid));
    assert Run(t, acts) == Run(u, [Check(pid)]);
    assert Run(Step(u, Check(pid)), []) == Step(u, Check(pid));
  }

  /** After a success in any run the circuit is closed with the first backoff, every caller who is awake is granted,
      and the next trip waits twice the first backoff. */
  lemma SuccessCloses(s0: State, before: seq<Action>, pid: nat)
    requires Initial(s0)
    ensures var t := Step(Run(s0, before), Success);
      && t.f.circuit.Closed? && t.f.resetAt == None && t.f.backoff == 30_000_000_000
      && (pid !in t.waiters ==> Step(t, Check(pid)).granted == t.granted + [t.clock])
      && Step(t, ProviderError(None)).f.backoff == 60_000_000_000
  {
    assert Backoff(0) == BACKOFF_BASE;
    RunKeepsInv(s0, before);
    StepKeepsInv(Run(s0, before), Success);
  }

  /** No lost wakeup: a caller still asleep on an open channel has missed neither a close nor a re-trip;
      the circuit is still waiting for the very deadline the caller computed, and its timer fires no
      more than a second after that deadline. */
  lemma NoLostWakeup(s0: State, acts: seq<Action>, pid: nat)
    requires Initial(s0)
    requires pid in Run(s0, acts).waiters && Run(s0, acts).waiters[pid].channel == Run(s0, acts).f.channel
    ensures var s := Run(s0, acts);
      && !s.f.circuit.Closed? && s.trips == s.waiters[pid].trips && Deadline(s.f) == s.waiters[pid].deadline
      && Deadline(s.f) <= s.waiters[pid].until <= Deadline(s.f) + 1_000_000_000
  {
    assert Backoff(0) == BACKOFF_BASE;
    RunKeepsInv(s0, acts);
    assert WaiterOk(Run(s0, acts), Run(s0, acts).waiters[pid]);
  }

  /** Every close and every trip closes the channel that sleepers watch. */
  lemma ChangesWakeSleepers(s: State, a: Action, pid: nat)
    requires Inv(s) && pid in s.waiters
    requires a.ProviderError? || (a.Success? && !s.f.circuit.Closed?)
    ensures Step(s, a).waiters[pid].channel < Step(s, a).f.channel
  {
    assert WaiterOk(s, s.waiters[pid]);
  }
}
