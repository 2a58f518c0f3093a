/**
  Model fallback: a hit or a manual switch puts the active model into cooldown and moves on to the first
  model, primary before reserves, that is not cooling.
 */
module Reserve {

  /** 30 minutes, in nanoseconds. */
  const COOLDOWN := 1_800_000_000_000

  datatype Party = Party(primary: string, reserve: seq<string>, active: string, cooldowns: map<string, int>)

  /** The cooldown of the model is not over. */
  predicate Cooling(p: Party, m: string, now: int) {
    m in p.cooldowns && now <= p.cooldowns[m]
  }

  /** Primary first, then the reserves in order. */
  function Models(p: Party): seq<string> { [p.primary] + p.reserve }

  predicate Eligible(p: Party, m: string, now: int) { m != p.active && !Cooling(p, m, now) }

  function FirstEligible(p: Party, models: seq<string>, now: int): string {
    if models == [] then ""
    else if Eligible(p, models[0], now) then models[0]
    else FirstEligible(p, models[1..], now)
  }

  /** The active model is put into cooldown and the first eligible model, if any, takes over. */
  function Switched(p: Party, now: int): Party {
    var cooled := p.(cooldowns := p.cooldowns[p.active := now + COOLDOWN]);
    var next := FirstEligible(cooled, Models(p), now);
    if next != "" then cooled.(active := next) else cooled
  }

  function Recovered(p: Party, now: int): Party {
    if p.active == p.primary || Cooling(p, p.primary, now) then p else p.(active := p.primary)
  }

  class ReserveParty {
    const primary: string
    const reserve: seq<string>
    var active: string
    var cooldowns: map<string, int>
    var rateLimitHits: nat

    ghost function Abs(): Party
      reads this
    {
      Party(primary, reserve, active, cooldowns)
    }

    constructor (primary: string, reserves: seq<string>)
      ensures Abs() == Party(primary, reserves, primary, map[]) && rateLimitHits == 0
    {
      this.primary, this.reserve := primary, reserves;
      active, cooldowns, rateLimitHits := primary, map[], 0;
    }

    method NextAvailableModel(now: int) returns (m: string)
      ensures m == FirstEligible(Abs(), Models(Abs()), now)
      ensures m != "" ==> (m == primary || m in reserve) && m != active && !(m in cooldowns && now <= cooldowns[m])
    {
      ghost var p := Abs();
      assert Models(p)[1..] == reserve;
      if !(primary in cooldowns && now <= cooldowns[primary]) {
        if active != primary { return primary; }
      }
      for i := 0 to |reserve|
        invariant FirstEligible(p, reserve[i..], now) == FirstEligible(p, Models(p), now)
      {
        assert reserve[i..][1..] == reserve[i + 1..];
        if reserve[i] == active { continue; }
        if !(reserve[i] in cooldowns && now <= cooldowns[reserve[i]]) { return reserve[i]; }
      }
      m := "";
    }

    method OnRateLimitDetected(now: int)
      modifies this
      ensures Abs() == Switched(old(Abs()), now) && rateLimitHits == old(rateLimitHits) + 1
      ensures cooldowns == old(cooldowns)[old(active) := now + 1_800_000_000_000]
    {
      rateLimitHits := rateLimitHits + 1;
      cooldowns := cooldowns[active := now + COOLDOWN];
      var next := NextAvailableModel(now);
      if next != "" { active := next; }
    }

    method ForceReserve(now: int)
      modifies this
      ensures Abs() == Switched(old(Abs()), now) && rateLimitHits == old(rateLimitHits)
      ensures cooldowns == old(cooldowns)[old(active) := now + 1_800_000_000_000]
    {
      cooldowns := cooldowns[active := now + COOLDOWN];
      var next := NextAvailableModel(now);
      if next != "" { active := next; }
    }

    method TryRecoverPrimary(now: int)
      modifies this
      ensures Abs() == Recovered(old(Abs()), now) && rateLimitHits == old(rateLimitHits)
      ensures cooldowns == old(cooldowns)
      ensures active == if primary in cooldowns && now <= cooldowns[primary] then old(active) else primary
    {
      if active == primary { return; }
      if primary in cooldowns && now <= cooldowns[primary] { return; }
      active := primary;
    }
  }

  /** The i-th model is the first eligible one. */
  ghost predicate FirstAt(p: Party, models: seq<string>, now: int, i: int) {
    && 0 <= i < |models| && models[i] != p.active && !(models[i] in p.cooldowns && now <= p.cooldowns[models[i]])
    && forall j :: 0 <= j < i ==> models[j] == p.active || (models[j] in p.cooldowns && now <= p.cooldowns[models[j]])
  }

  /** A switch picks the first eligible model, and none only if none is eligible. */
  lemma {:induction false} FirstEligibleIs(p: Party, models: seq<string>, now: int)
    requires forall i :: 0 <= i < |models| ==> models[i] != ""
    ensures FirstEligible(p, models, now) == "" <==> forall i :: 0 <= i < |models| ==> !Eligible(p, models[i], now)
    ensures FirstEligible(p, models, now) != "" ==> exists i :: FirstAt(p, models, now, i) && models[i] == FirstEligible(p, models, now)
  {
    if models != [] && !Eligible(p, models[0], now) {
      FirstEligibleIs(p, models[1..], now);
      var r := FirstEligible(p, models, now);
      assert forall j :: 0 < j < |models| ==> models[j] == models[1..][j - 1];
      if r != "" {
        var i :| FirstAt(p, models[1..], now, i) && models[1..][i] == r;
        assert FirstAt(p, models, now, i + 1) && models[i + 1] == r;
      }
    } else if models != [] {
      assert FirstAt(p, models, now, 0);
    }
  }

  /** A switch cools the active model for thirty minutes; the first configured model that is neither active nor
      cooling takes over, and the active one stays only if there is none. */
  lemma SwitchMeans(p: Party, now: int)
    requires p.primary != "" && forall i :: 0 <= i < |p.reserve| ==> p.reserve[i] != ""
    ensures var q, models := Switched(p, now), [p.primary] + p.reserve;
            var cooled := p.(cooldowns := p.cooldowns[p.active := now + 1_800_000_000_000]);
      && q.primary == p.primary && q.reserve == p.reserve && q.cooldowns == cooled.cooldowns
      && (q.active == p.active ==> forall i :: !FirstAt(cooled, models, now, i))
      && (q.active != p.active ==> exists i :: FirstAt(cooled, models, now, i) && models[i] == q.active)
  {
    var models := [p.primary] + p.reserve;
    var cooled := p.(cooldowns := p.cooldowns[p.active := now + COOLDOWN]);
    assert forall i :: 0 <= i < |models| ==> models[i] != "";
    FirstEligibleIs(cooled, models, now);
    if i :| FirstAt(cooled, models, now, i) { assert Eligible(cooled, models[i], now); }
  }

  // ---------- runs ----------

  datatype Action = Switch(now: int) | Recover(now: int)

  ghost function Step(p: Party, a: Action): Party {
    match a case Switch(now) => Switched(p, now) case Recover(now) => Recovered(p, now)
  }

  ghost function Run(p: Party, acts: seq<Action>): Party
    decreases |acts|
  {
    if acts == [] then p else Run(Step(p, acts[0]), acts[1..])
  }

  /** Time does not go back, starting from `clock`. */
  ghost predicate Timely(clock: int, acts: seq<Action>)
    decreases |acts|
  {
    acts == [] || (clock <= acts[0].now && Timely(acts[0].now, acts[1..]))
  }

  ghost function EndTime(clock: int, acts: seq<Action>): int
    decreases |acts|
  {
    if acts == [] then clock else EndTime(acts[0].now, acts[1..])
  }

  ghost predicate Named(p: Party) { forall i :: 0 <= i < |Models(p)| ==> Models(p)[i] != "" }

  /** The active model is configured; if it is cooling, then at its latest hit, 30 minutes before its
      cooldown ends, every other configured model was cooling too. */
  ghost predicate Inv(p: Party, clock: int) {
    && Named(p)
    && p.active in Models(p)
    && (Cooling(p, p.active, clock) ==>
          forall m :: m in Models(p) && m != p.active ==> Cooling(p, m, p.cooldowns[p.active] - COOLDOWN))
  }

  lemma StepKeepsInv(p: Party, clock: int, a: Action)
    requires Inv(p, clock) && clock <= a.now
    ensures Inv(Step(p, a), a.now)
  {
    match a
    case Recover(now) =>
    case Switch(now) =>
      var cooled := p.(cooldowns := p.cooldowns[p.active := now + COOLDOWN]);
      FirstEligibleIs(cooled, Models(p), now);
      if FirstEligible(cooled, Models(p), now) == "" {
        forall m | m in Models(p) && m != p.active ensures Cooling(cooled, m, now) {
          var i :| 0 <= i < |Models(p)| && Models(p)[i] == m;
          assert !Eligible(cooled, Models(p)[i], now);
        }
      }
  }

  /** Over any run with nondecreasing time the active model is a configured one, and it is cooling only
      if at its latest hit there was nothing else to switch to. */
  lemma {:induction false} ActiveModelIsBest(p: Party, clock: int, acts: seq<Action>)
    requires Inv(p, clock) && Timely(clock, acts)
    ensures Inv(Run(p, acts), EndTime(clock, acts))
    decreases |acts|
  {
    if acts != [] {
      StepKeepsInv(p, clock, acts[0]);
      ActiveModelIsBest(Step(p, acts[0]), acts[0].now, acts[1..]);
    }
  }

  /** A new party starts in this state. */
  lemma StartsBest(primary: string, reserve: seq<string>, clock: int)
    requires primary != "" && forall i :: 0 <= i < |reserve| ==> reserve[i] != ""
    ensures Inv(Party(primary, reserve, primary, map[]), clock)
  {
    var p := Party(primary, reserve, primary, map[]);
    assert Models(p)[0] == primary;
  }
}
