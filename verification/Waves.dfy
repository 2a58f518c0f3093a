/**
  The two read models of wave progress: one projected from D-Mails in two passes, one projected from
  events in a single pass. Each is given by what it means for a single step, and the two are compared.
 */
module Waves {
  import opened EventStore
  import opened Wrappers

  datatype WaveRef = WaveRef(id: string, step: string, steps: seq<StepDef>)
  datatype DMail = DMail(kind: string, description: string, severity: string, wave: Option<WaveRef>)

  datatype StepStatus = Pending | Completed | Failed

  datatype StepProgress = StepProgress(stepID: string, title: string, status: StepStatus, attempts: nat, acceptance: string)
  datatype WaveProgress = WaveProgress(waveID: string, title: string, steps: seq<StepProgress>)

  datatype Target = Target(id: string, waveID: string, stepID: string, title: string, description: string, acceptance: string)

  /** The IDs of the steps of a wave; a wave without steps is its own single step. */
  function StepOrder(waveID: string, steps: seq<StepDef>): seq<string> {
    if steps == [] then [waveID] else StepIDs(steps)
  }

  function StepIDs(steps: seq<StepDef>): seq<string>
    ensures |StepIDs(steps)| == |steps| && forall i :: 0 <= i < |steps| ==> StepIDs(steps)[i] == steps[i].id
  {
    if steps == [] then [] else StepIDs(steps[..|steps| - 1]) + [steps[|steps| - 1].id]
  }

  function TargetID(waveID: string, stepID: string): string {
    if stepID == waveID then waveID else waveID + ":" + stepID
  }

  // ---------- mails ----------

  predicate HasWave(dm: DMail) { dm.wave.Some? && dm.wave.value.id != "" }

  predicate IsSpec(dm: DMail) { HasWave(dm) && dm.kind == "specification" }

  /** The mail is about this step. */
  predicate Concerns(dm: DMail, w: string, s: string) {
    HasWave(dm) && dm.wave.value.id == w
    && s == if dm.wave.value.step == "" then w else dm.wave.value.step
  }

  predicate IsReport(dm: DMail, w: string, s: string) { dm.kind == "report" && Concerns(dm, w, s) }

  predicate LowSeverity(dm: DMail) { dm.severity == "" || dm.severity == "low" }

  predicate IsFeedback(dm: DMail, w: string, s: string) {
    (dm.kind == "implementation-feedback" || dm.kind == "design-feedback") && Concerns(dm, w, s)
  }

  /** The first specification of a wave. */
  function FirstSpec(mails: seq<DMail>, w: string): Option<DMail> {
    if mails == [] then None else
    var n := |mails| - 1;
    var earlier := FirstSpec(mails[..n], w);
    if earlier.Some? then earlier
    else if IsSpec(mails[n]) && mails[n].wave.value.id == w then Some(mails[n]) else None
  }

  /** The waves in the order of their first specifications. */
  function SpecOrder(mails: seq<DMail>): seq<string> {
    if mails == [] then [] else
    var n := |mails| - 1;
    if IsSpec(mails[n]) && FirstSpec(mails[..n], mails[n].wave.value.id).None?
    then SpecOrder(mails[..n]) + [mails[n].wave.value.id] else SpecOrder(mails[..n])
  }

  /** One mail's effect on one step. */
  function Update(sp: StepProgress, dm: DMail, w: string, s: string): StepProgress {
    if IsReport(dm, w, s) then
      sp.(attempts := sp.attempts + 1, status := if LowSeverity(dm) then Completed else Failed)
    else if IsFeedback(dm, w, s) && sp.status.Failed? then sp.(status := Pending)
    else sp
  }

  /** A step's history: the fold of the mails that are about it. */
  function StepFold(sp: StepProgress, mails: seq<DMail>, w: string, s: string): StepProgress {
    if mails == [] then sp
    else Update(StepFold(sp, mails[..|mails| - 1], w, s), mails[|mails| - 1], w, s)
  }

  // ---------- the projection from mails ----------

  datatype Entry = Entry(title: string, steps: map<string, StepProgress>, order: seq<string>)
  datatype Board = Board(waves: map<string, Entry>, order: seq<string>)

  /** The pending steps of a specification; a repeated ID keeps its last definition. */
  function Steps(steps: seq<StepDef>): (m: map<string, StepProgress>)
    ensures forall s :: s in m <==> s in StepIDs(steps)
  {
    if steps == [] then map[] else
    var n := |steps| - 1;
    Steps(steps[..n])[steps[n].id := StepProgress(steps[n].id, steps[n].title, Pending, 0, steps[n].acceptance)]
  }

  function NewEntry(dm: DMail): Entry
    requires HasWave(dm)
  {
    var w := dm.wave.value;
    Entry(dm.description,
          if w.steps == [] then map[w.id := StepProgress(w.id, dm.description, Pending, 0, "")] else Steps(w.steps),
          StepOrder(w.id, w.steps))
  }

  function Register(b: Board, dm: DMail): Board {
    if !IsSpec(dm) || dm.wave.value.id in b.waves then b
    else Board(b.waves[dm.wave.value.id := NewEntry(dm)], b.order + [dm.wave.value.id])
  }

  function RegisterAll(mails: seq<DMail>): Board {
    if mails == [] then Board(map[], [])
    else Register(RegisterAll(mails[..|mails| - 1]), mails[|mails| - 1])
  }

  /** Second pass: a report or feedback changes the step it names, if that step exists. */
  function Touch(waves: map<string, Entry>, dm: DMail): map<string, Entry> {
    if !HasWave(dm) || dm.wave.value.id !in waves then waves else
    var w := dm.wave.value.id;
    var s := if dm.wave.value.step == "" then w else dm.wave.value.step;
    var e := waves[w];
    if s !in e.steps then waves
    else waves[w := e.(steps := e.steps[s := Update(e.steps[s], dm, w, s)])]
  }

  function TouchAll(waves: map<string, Entry>, mails: seq<DMail>): map<string, Entry> {
    if mails == [] then waves
    else Touch(TouchAll(waves, mails[..|mails| - 1]), mails[|mails| - 1])
  }

  /** What the projection means: the waves in specification order, each step folded on its own. */
  function Summary(mails: seq<DMail>): seq<WaveProgress> {
    WaveViews(mails, SpecOrder(mails))
  }

  function WaveViews(mails: seq<DMail>, order: seq<string>): seq<WaveProgress> {
    if order == [] then [] else
    var n := |order| - 1;
    WaveViews(mails, order[..n]) + (match FirstSpec(mails, order[n])
                                    case Some(dm) => if HasWave(dm) then [WaveView(mails, order[n], NewEntry(dm))] else []
                                    case None => [])
  }

  function WaveView(mails: seq<DMail>, w: string, e: Entry): WaveProgress {
    WaveProgress(w, e.title, StepViews(mails, w, e.steps, e.order))
  }

  function StepViews(mails: seq<DMail>, w: string, steps: map<string, StepProgress>, order: seq<string>): seq<StepProgress> {
    if order == [] then [] else
    var n := |order| - 1;
    StepViews(mails, w, steps, order[..n])
    + (if order[n] in steps then [StepFold(steps[order[n]], mails, w, order[n])] else [])
  }

  /** Two passes over the mails, then the result in wave order. */
  method ProjectWaveState(mails: seq<DMail>) returns (result: seq<WaveProgress>)
    ensures result == Summary(mails)
  {
    var board := RegisterSpecs(mails);
    var waves := ApplyReports(board.waves, mails);
    SpecsRegistered(mails);
    result := [];
    for i := 0 to |board.order|
      invariant result == WaveViews(mails, board.order[..i])
    {
      var w := board.order[i];
      assert board.order[..i + 1][..i] == board.order[..i];
      BoardWave(mails, i);
      var view := ViewWave(w, waves[w], mails, board.waves[w]);
      result := result + [view];
    }
    assert board.order[..|board.order|] == board.order;
  }

  lemma SpecsRegistered(mails: seq<DMail>)
    ensures RegisterAll(mails).order == SpecOrder(mails)
  {
    RegisteredWaves(mails);
  }

  /** After both passes a wave has its first definition and its steps are folded. */
  lemma BoardWave(mails: seq<DMail>, i: nat)
    requires i < |RegisterAll(mails).order|
    ensures var b, w := RegisterAll(mails), RegisterAll(mails).order[i];
      && w in b.waves && w in TouchAll(b.waves, mails)
      && FirstSpec(mails, w).Some? && HasWave(FirstSpec(mails, w).value) && b.waves[w] == NewEntry(FirstSpec(mails, w).value)
      && Followed(mails, w, b.waves[w], TouchAll(b.waves, mails)[w])
  {
    var w := RegisterAll(mails).order[i];
    RegisteredWaves(mails);
    TouchedSteps(RegisterAll(mails).waves, mails);
    EntryOrder(FirstSpec(mails, w).value);
  }

  /** `e` is the entry `initial` after the mails. */
  ghost predicate Followed(mails: seq<DMail>, w: string, initial: Entry, e: Entry) {
    && SameShape(initial, e)
    && (forall i :: 0 <= i < |e.order| ==> e.order[i] in e.steps)
    && (forall s :: s in e.steps ==> e.steps[s] == StepFold(initial.steps[s], mails, w, s))
  }

  method RegisterSpecs(mails: seq<DMail>) returns (board: Board)
    ensures board == RegisterAll(mails)
  {
    board := Board(map[], []);
    for i := 0 to |mails|
      invariant board == RegisterAll(mails[..i])
    {
      assert mails[..i + 1][..i] == mails[..i];
      if IsSpec(mails[i]) && mails[i].wave.value.id !in board.waves {
        var w := mails[i].wave.value.id;
        board := Board(board.waves[w := NewEntry(mails[i])], board.order + [w]);
      }
    }
    assert mails[..|mails|] == mails;
  }

  method ApplyReports(registered: map<string, Entry>, mails: seq<DMail>) returns (waves: map<string, Entry>)
    ensures waves == TouchAll(registered, mails)
  {
    waves := registered;
    for i := 0 to |mails|
      invariant waves == TouchAll(registered, mails[..i])
    {
      assert mails[..i + 1][..i] == mails[..i];
      waves := Touch(waves, mails[i]);
    }
    assert mails[..|mails|] == mails;
  }

  method ViewWave(w: string, e: Entry, ghost mails: seq<DMail>, ghost initial: Entry) returns (view: WaveProgress)
    requires Followed(mails, w, initial, e)
    ensures view == WaveView(mails, w, initial)
  {
    var steps: seq<StepProgress> := [];
    for j := 0 to |e.order|
      invariant steps == StepViews(mails, w, initial.steps, e.order[..j])
    {
      assert e.order[..j + 1][..j] == e.order[..j];
      steps := steps + [e.steps[e.order[j]]];
    }
    assert e.order[..|e.order|] == e.order;
    view := WaveProgress(w, e.title, steps);
  }

  lemma {:induction false} FirstSpecIsSpec(mails: seq<DMail>, w: string)
    ensures FirstSpec(mails, w).Some? ==> IsSpec(FirstSpec(mails, w).value) && FirstSpec(mails, w).value.wave.value.id == w
  {
    if mails != [] { FirstSpecIsSpec(mails[..|mails| - 1], w); }
  }

  /** The registered waves are those with a specification, and the first one defines them. */
  lemma {:induction false} RegisteredWaves(mails: seq<DMail>)
    ensures var b := RegisterAll(mails);
      && b.order == SpecOrder(mails)
      && (forall w :: w in b.waves <==> FirstSpec(mails, w).Some?)
      && (forall w :: w in b.waves ==> HasWave(FirstSpec(mails, w).value) && b.waves[w] == NewEntry(FirstSpec(mails, w).value))
      && (forall i :: 0 <= i < |b.order| ==> b.order[i] in b.waves)
  {
    if mails != [] {
      RegisteredWaves(mails[..|mails| - 1]);
    }
  }

  lemma EntryOrder(dm: DMail)
    requires HasWave(dm)
    ensures forall i :: 0 <= i < |NewEntry(dm).order| ==> NewEntry(dm).order[i] in NewEntry(dm).steps
  {
    var w := dm.wave.value;
    forall i | 0 <= i < |NewEntry(dm).order| ensures NewEntry(dm).order[i] in NewEntry(dm).steps {
      if w.steps != [] { assert NewEntry(dm).order[i] in StepIDs(w.steps); }
    }
  }

  /** Second pass: every step is the fold of its own mails, nothing else changes. */
  lemma {:induction false} TouchedSteps(waves: map<string, Entry>, mails: seq<DMail>)
    ensures var t := TouchAll(waves, mails);
      && t.Keys == waves.Keys
      && (forall w :: w in waves ==> SameShape(waves[w], t[w]))
      && (forall w, s :: w in waves && s in waves[w].steps ==> t[w].steps[s] == StepFold(waves[w].steps[s], mails, w, s))
  {
    if mails != [] {
      TouchedSteps(waves, mails[..|mails| - 1]);
      TouchIsUpdate(TouchAll(waves, mails[..|mails| - 1]), mails[|mails| - 1]);
    }
  }

  /** A mail updates every step as if it were about that step alone. */
  lemma TouchIsUpdate(waves: map<string, Entry>, dm: DMail)
    ensures var t := Touch(waves, dm);
      && t.Keys == waves.Keys
      && (forall w :: w in waves ==> SameShape(waves[w], t[w]))
      && (forall w, s :: w in waves && s in waves[w].steps ==> t[w].steps[s] == Update(waves[w].steps[s], dm, w, s))
  {
  }

  ghost predicate SameShape(e: Entry, f: Entry) {
    f.title == e.title && f.order == e.order && f.steps.Keys == e.steps.Keys
  }

  // ---------- the history of one step ----------

  function Reports(mails: seq<DMail>, w: string, s: string): nat {
    if mails == [] then 0
    else Reports(mails[..|mails| - 1], w, s) + (if IsReport(mails[|mails| - 1], w, s) then 1 else 0)
  }

  ghost predicate LastReportAt(mails: seq<DMail>, w: string, s: string, i: nat) {
    i < |mails| && IsReport(mails[i], w, s) && forall j :: i < j < |mails| ==> !IsReport(mails[j], w, s)
  }

  ghost predicate FeedbackAfter(mails: seq<DMail>, w: string, s: string, i: nat) {
    exists j :: i < j < |mails| && IsFeedback(mails[j], w, s)
  }

  /** A step has been attempted once per report; it is completed if the last report is a success, failed if
      that report is a failure without later feedback, and pending otherwise. */
  lemma {:induction false} StepHistory(sp: StepProgress, mails: seq<DMail>, w: string, s: string, i: nat)
    requires sp.status == Pending
    ensures var r := StepFold(sp, mails, w, s);
      && r.attempts == sp.attempts + Reports(mails, w, s)
      && (Reports(mails, w, s) == 0 ==> r.status == Pending)
      && (LastReportAt(mails, w, s, i) ==>
            r.status == if mails[i].severity == "" || mails[i].severity == "low" then Completed
                        else if FeedbackAfter(mails, w, s, i) then Pending else Failed)
  {
    if mails != [] {
      var n := |mails| - 1;
      StepHistory(sp, mails[..n], w, s, i);
      FeedbackSnoc(mails, w, s, i);
    }
  }

  lemma FeedbackSnoc(mails: seq<DMail>, w: string, s: string, i: nat)
    requires mails != []
    ensures var n := |mails| - 1;
      FeedbackAfter(mails, w, s, i) <==> FeedbackAfter(mails[..n], w, s, i) || (i < n && IsFeedback(mails[n], w, s))
  {
    var n := |mails| - 1;
    if FeedbackAfter(mails[..n], w, s, i) {
      var j :| i < j < n && IsFeedback(mails[..n][j], w, s);
      assert IsFeedback(mails[j], w, s);
    }
    if FeedbackAfter(mails, w, s, i) {
      var j :| i < j < |mails| && IsFeedback(mails[j], w, s);
      assert j < n ==> IsFeedback(mails[..n][j], w, s);
    }
  }

  // ---------- what the projection says, mail by mail ----------

  /** The mail names the step; without a step ID it names the wave's only step. */
  predicate Names(dm: DMail, w: string, s: string) {
    dm.wave.Some? && dm.wave.value.id == w && w != "" && if dm.wave.value.step == "" then s == w else s == dm.wave.value.step
  }

  /** The last report on the step. */
  ghost predicate LastReport(mails: seq<DMail>, w: string, s: string, i: int) {
    && 0 <= i < |mails| && mails[i].kind == "report" && Names(mails[i], w, s)
    && forall j :: i < j < |mails| && mails[j].kind == "report" ==> !Names(mails[j], w, s)
  }

  lemma {:induction false} LastReportExists(mails: seq<DMail>, w: string, s: string)
    ensures Reports(mails, w, s) > 0 ==> exists i :: LastReport(mails, w, s, i)
    ensures Reports(mails, w, s) == 0 ==> forall i :: !LastReport(mails, w, s, i)
    ensures forall i :: LastReport(mails, w, s, i) ==> LastReportAt(mails, w, s, i)
  {
    if mails != [] {
      var n := |mails| - 1;
      LastReportExists(mails[..n], w, s);
      if IsReport(mails[n], w, s) {
        assert LastReport(mails, w, s, n);
      } else {
        forall i ensures LastReport(mails, w, s, i) <==> LastReport(mails[..n], w, s, i) {}
      }
    }
  }

  /** A step is completed exactly when the severity of the last report on it is blank or "low", and failed
      exactly when it is anything else and no feedback on the step comes later. */
  lemma StepOutcome(sp: StepProgress, mails: seq<DMail>, w: string, s: string)
    requires sp.status == Pending
    ensures StepFold(sp, mails, w, s).status == Completed <==>
              exists i :: LastReport(mails, w, s, i) && (mails[i].severity == "" || mails[i].severity == "low")
    ensures StepFold(sp, mails, w, s).status == Failed <==>
              exists i :: LastReport(mails, w, s, i) && mails[i].severity != "" && mails[i].severity != "low"
                          && forall j :: i < j < |mails| && (mails[j].kind == "implementation-feedback" || mails[j].kind == "design-feedback")
                                         ==> !Names(mails[j], w, s)
  {
    LastReportExists(mails, w, s);
    if i :| LastReport(mails, w, s, i) {
      StepHistory(sp, mails, w, s, i);
      assert forall j :: LastReport(mails, w, s, j) ==> j == i;
      assert FeedbackAfter(mails, w, s, i) <==>
        exists j :: i < j < |mails| && (mails[j].kind == "implementation-feedback" || mails[j].kind == "design-feedback")
                    && Names(mails[j], w, s);
    } else {
      StepHistory(sp, mails, w, s, 0);
    }
  }

  /** The mails that report on the step. */
  ghost function ReportsOn(mails: seq<DMail>, w: string, s: string): set<nat> {
    set i: nat | i < |mails| && mails[i].kind == "report" && Names(mails[i], w, s)
  }

  lemma {:induction false} ReportsCounted(mails: seq<DMail>, w: string, s: string)
    ensures Reports(mails, w, s) == |ReportsOn(mails, w, s)|
  {
    if mails == [] {
      assert ReportsOn(mails, w, s) == {};
    } else {
      var n := |mails| - 1;
      ReportsCounted(mails[..n], w, s);
      if IsReport(mails[n], w, s) {
        assert ReportsOn(mails, w, s) == ReportsOn(mails[..n], w, s) + {n};
      } else {
        assert ReportsOn(mails, w, s) == ReportsOn(mails[..n], w, s);
      }
    }
  }

  predicate Specifies(dm: DMail, w: string) {
    dm.kind == "specification" && dm.wave.Some? && dm.wave.value.id == w && w != ""
  }

  ghost predicate FirstSpecAt(mails: seq<DMail>, w: string, k: int) {
    0 <= k < |mails| && Specifies(mails[k], w) && forall j :: 0 <= j < k ==> !Specifies(mails[j], w)
  }

  lemma {:induction false} FirstSpecIs(mails: seq<DMail>, w: string)
    ensures FirstSpec(mails, w).Some? ==> exists k :: FirstSpecAt(mails, w, k) && mails[k] == FirstSpec(mails, w).value
    ensures FirstSpec(mails, w).None? ==> forall k :: 0 <= k < |mails| ==> !Specifies(mails[k], w)
  {
    if mails != [] {
      var n := |mails| - 1;
      FirstSpecIs(mails[..n], w);
      if FirstSpec(mails[..n], w).Some? {
        var k :| FirstSpecAt(mails[..n], w, k) && mails[..n][k] == FirstSpec(mails[..n], w).value;
        assert FirstSpecAt(mails, w, k);
      } else if FirstSpec(mails, w).Some? {
        assert FirstSpecAt(mails, w, n);
      }
    }
  }

  /** The waves are ordered by the places of their first specifications. */
  ghost predicate InSpecOrder(mails: seq<DMail>, order: seq<string>) {
    && (forall w :: w in order <==> exists k :: FirstSpecAt(mails, w, k))
    && (forall i, j, k, l :: 0 <= i < j < |order| && FirstSpecAt(mails, order[i], k) && FirstSpecAt(mails, order[j], l) ==> k < l)
  }

  lemma SpecAtSnoc(mails: seq<DMail>, w: string)
    requires mails != []
    ensures var n := |mails| - 1;
      forall k :: FirstSpecAt(mails, w, k) <==>
        FirstSpecAt(mails[..n], w, k) || (k == n && Specifies(mails[n], w) && FirstSpec(mails[..n], w).None?)
  {
    var n := |mails| - 1;
    FirstSpecIs(mails[..n], w);
    if FirstSpec(mails[..n], w).Some? {
      var k :| FirstSpecAt(mails[..n], w, k);
      assert Specifies(mails[k], w);
    }
  }

  lemma {:induction false} OrderHas(mails: seq<DMail>, w: string)
    ensures w in SpecOrder(mails) <==> FirstSpec(mails, w).Some?
  {
    if mails != [] { OrderHas(mails[..|mails| - 1], w); }
  }

  lemma SpecAtIff(mails: seq<DMail>, w: string)
    ensures FirstSpec(mails, w).Some? <==> exists k :: FirstSpecAt(mails, w, k)
  {
    FirstSpecIs(mails, w);
  }

  lemma {:induction false} OrderIncreases(mails: seq<DMail>, i: nat, j: nat, k: int, l: int)
    requires i < j < |SpecOrder(mails)|
    requires FirstSpecAt(mails, SpecOrder(mails)[i], k) && FirstSpecAt(mails, SpecOrder(mails)[j], l)
    ensures k < l
  {
    var n := |mails| - 1;
    var prev := mails[..n];
    var w, v := SpecOrder(mails)[i], SpecOrder(mails)[j];
    assert i < |SpecOrder(prev)| && SpecOrder(prev)[i] == w;
    OrderHas(prev, w);
    SpecAtIff(prev, w);
    SpecAtSnoc(mails, w);
    SpecAtSnoc(mails, v);
    if j < |SpecOrder(prev)| {
      OrderHas(prev, v);
      OrderIncreases(prev, i, j, k, l);
    } else {
      SpecAtIff(prev, v);
    }
  }

  lemma SpecOrderIs(mails: seq<DMail>)
    ensures InSpecOrder(mails, SpecOrder(mails))
  {
    forall w ensures w in SpecOrder(mails) <==> exists k :: FirstSpecAt(mails, w, k) {
      OrderHas(mails, w);
      SpecAtIff(mails, w);
    }
    forall i, j, k, l | 0 <= i < j < |SpecOrder(mails)| && FirstSpecAt(mails, SpecOrder(mails)[i], k)
                        && FirstSpecAt(mails, SpecOrder(mails)[j], l)
      ensures k < l
    {
      OrderIncreases(mails, i, j, k, l);
    }
  }

  /** The last definition of a step ID. */
  ghost predicate LastDef(defs: seq<StepDef>, s: string, d: int) {
    0 <= d < |defs| && defs[d].id == s && forall e :: d < e < |defs| ==> defs[e].id != s
  }

  lemma {:induction false} StepsAt(defs: seq<StepDef>, s: string)
    requires s in Steps(defs)
    ensures exists d :: LastDef(defs, s, d) && Steps(defs)[s] == StepProgress(s, defs[d].title, Pending, 0, defs[d].acceptance)
  {
    var n := |defs| - 1;
    if defs[n].id == s {
      assert LastDef(defs, s, n);
    } else {
      StepsAt(defs[..n], s);
      var d :| LastDef(defs[..n], s, d) && Steps(defs[..n])[s] == StepProgress(s, defs[d].title, Pending, 0, defs[d].acceptance);
      assert LastDef(defs, s, d);
    }
  }

  lemma {:induction false} FoldKeepsNames(sp: StepProgress, mails: seq<DMail>, w: string, s: string)
    ensures var r := StepFold(sp, mails, w, s);
            r.stepID == sp.stepID && r.title == sp.title && r.acceptance == sp.acceptance
  {
    if mails != [] { FoldKeepsNames(sp, mails[..|mails| - 1], w, s); }
  }

  /** The j-th step of a wave whose first specification is `spec`. */
  ghost predicate StepIs(mails: seq<DMail>, spec: DMail, w: string, r: StepProgress, j: nat)
    requires spec.wave.Some?
  {
    var defs := spec.wave.value.steps;
    && (if defs == [] then j == 0 && r.stepID == w && r.title == spec.description && r.acceptance == ""
        else j < |defs| && r.stepID == defs[j].id
             && exists d :: LastDef(defs, r.stepID, d) && r.title == defs[d].title && r.acceptance == defs[d].acceptance)
    && r.attempts == |ReportsOn(mails, w, r.stepID)|
    && (r.status == Completed <==>
          exists i :: LastReport(mails, w, r.stepID, i) && (mails[i].severity == "" || mails[i].severity == "low"))
    && (r.status == Failed <==>
          exists i :: LastReport(mails, w, r.stepID, i) && mails[i].severity != "" && mails[i].severity != "low"
                      && forall k :: i < k < |mails| && (mails[k].kind == "implementation-feedback" || mails[k].kind == "design-feedback")
                                     ==> !Names(mails[k], w, r.stepID))
  }

  ghost predicate WaveIs(mails: seq<DMail>, v: WaveProgress, k: int) {
    && FirstSpecAt(mails, v.waveID, k) && v.title == mails[k].description
    && |v.steps| == (if mails[k].wave.value.steps == [] then 1 else |mails[k].wave.value.steps|)
    && forall j :: 0 <= j < |v.steps| ==> StepIs(mails, mails[k], v.waveID, v.steps[j], j)
  }

  lemma FoldedStepIs(mails: seq<DMail>, spec: DMail, w: string, j: nat)
    requires HasWave(spec) && spec.wave.value.id == w && j < |NewEntry(spec).order| && NewEntry(spec).order[j] in NewEntry(spec).steps
    ensures StepIs(mails, spec, w, StepFold(NewEntry(spec).steps[NewEntry(spec).order[j]], mails, w, NewEntry(spec).order[j]), j)
  {
    var e, s := NewEntry(spec), NewEntry(spec).order[j];
    if spec.wave.value.steps != [] { StepsAt(spec.wave.value.steps, s); }
    assert e.steps[s].stepID == s && e.steps[s].status == Pending && e.steps[s].attempts == 0;
    FoldKeepsNames(e.steps[s], mails, w, s);
    StepOutcome(e.steps[s], mails, w, s);
    StepHistory(e.steps[s], mails, w, s, 0);
    ReportsCounted(mails, w, s);
  }

  lemma {:induction false} StepViewsAt(mails: seq<DMail>, w: string, steps: map<string, StepProgress>, order: seq<string>)
    requires forall i :: 0 <= i < |order| ==> order[i] in steps
    ensures |StepViews(mails, w, steps, order)| == |order|
    ensures forall i :: 0 <= i < |order| ==> StepViews(mails, w, steps, order)[i] == StepFold(steps[order[i]], mails, w, order[i])
  {
    if order != [] { StepViewsAt(mails, w, steps, order[..|order| - 1]); }
  }

  lemma ViewIs(mails: seq<DMail>, w: string)
    requires FirstSpec(mails, w).Some?
    ensures HasWave(FirstSpec(mails, w).value)
    ensures exists k :: WaveIs(mails, WaveView(mails, w, NewEntry(FirstSpec(mails, w).value)), k)
  {
    FirstSpecIsSpec(mails, w);
    var spec := FirstSpec(mails, w).value;
    var e := NewEntry(spec);
    EntryOrder(spec);
    StepViewsAt(mails, w, e.steps, e.order);
    FirstSpecIs(mails, w);
    var k :| FirstSpecAt(mails, w, k) && mails[k] == spec;
    var v := WaveView(mails, w, e);
    forall j | 0 <= j < |v.steps| ensures StepIs(mails, spec, w, v.steps[j], j) { FoldedStepIs(mails, spec, w, j); }
    assert WaveIs(mails, v, k);
  }

  /** Some mail's first specification defines the wave. */
  ghost predicate Specified(mails: seq<DMail>, v: WaveProgress) { exists k :: WaveIs(mails, v, k) }

  /** The i-th view is the wave of that name. */
  ghost predicate ViewOk(mails: seq<DMail>, views: seq<WaveProgress>, order: seq<string>, i: int)
    requires 0 <= i < |order| == |views|
  {
    views[i].waveID == order[i] && Specified(mails, views[i])
  }

  lemma OneView(mails: seq<DMail>, order: seq<string>) returns (v: WaveProgress)
    requires order != [] && FirstSpec(mails, order[|order| - 1]).Some?
    ensures WaveViews(mails, order) == WaveViews(mails, order[..|order| - 1]) + [v]
    ensures v.waveID == order[|order| - 1] && Specified(mails, v)
  {
    var w := order[|order| - 1];
    ViewIs(mails, w);
    v := WaveView(mails, w, NewEntry(FirstSpec(mails, w).value));
  }

  lemma {:induction false} ViewsAre(mails: seq<DMail>, order: seq<string>)
    requires forall i :: 0 <= i < |order| ==> FirstSpec(mails, order[i]).Some?
    ensures |WaveViews(mails, order)| == |order|
    ensures forall i :: 0 <= i < |order| ==> ViewOk(mails, WaveViews(mails, order), order, i)
  {
    if order != [] {
      var n := |order| - 1;
      ViewsAre(mails, order[..n]);
      var v := OneView(mails, order);
      ViewsSnoc(mails, WaveViews(mails, order[..n]), order, v);
    }
  }

  lemma ViewsSnoc(mails: seq<DMail>, views: seq<WaveProgress>, order: seq<string>, v: WaveProgress)
    requires |views| + 1 == |order| && v.waveID == order[|views|] && Specified(mails, v)
    requires forall i :: 0 <= i < |views| ==> ViewOk(mails, views, order[..|views|], i)
    ensures forall i :: 0 <= i < |order| ==> ViewOk(mails, views + [v], order, i)
  {
    forall i | 0 <= i < |order| ensures ViewOk(mails, views + [v], order, i) {
      if i < |views| { assert ViewOk(mails, views, order[..|views|], i); }
    }
  }

  function WaveIDs(waves: seq<WaveProgress>): seq<string> { seq(|waves|, i requires 0 <= i < |waves| => waves[i].waveID) }

  lemma ViewNames(mails: seq<DMail>, views: seq<WaveProgress>, order: seq<string>)
    requires |views| == |order| && forall i :: 0 <= i < |order| ==> ViewOk(mails, views, order, i)
    ensures WaveIDs(views) == order && forall i :: 0 <= i < |views| ==> Specified(mails, views[i])
  {
    forall i | 0 <= i < |order| ensures views[i].waveID == order[i] && Specified(mails, views[i]) {
      assert ViewOk(mails, views, order, i);
    }
  }

  /** The projection in terms of the mails alone: one wave for each that some mail specifies, in the order of
      the first specifications, each with the title and the steps of that mail; and every step with one
      attempt per report on it and the status that the last report and later feedback give it. */
  lemma ProjectionMeans(mails: seq<DMail>)
    ensures InSpecOrder(mails, WaveIDs(Summary(mails)))
    ensures forall i :: 0 <= i < |Summary(mails)| ==> Specified(mails, Summary(mails)[i])
  {
    var order := SpecOrder(mails);
    forall i | 0 <= i < |order| ensures FirstSpec(mails, order[i]).Some? { OrderHas(mails, order[i]); }
    ViewsAre(mails, order);
    SpecOrderIs(mails);
    ViewNames(mails, WaveViews(mails, order), order);
  }

  // ---------- order independence ----------

  /** The specifications (or the other mails) in order. */
  function Part(mails: seq<DMail>, specs: bool): seq<DMail> {
    if mails == [] then [] else
    var n := |mails| - 1;
    Part(mails[..n], specs) + (if IsSpec(mails[n]) == specs then [mails[n]] else [])
  }

  lemma StepFoldSnoc(sp: StepProgress, mails: seq<DMail>, dm: DMail, w: string, s: string)
    ensures StepFold(sp, mails + [dm], w, s) == Update(StepFold(sp, mails, w, s), dm, w, s)
  {
    assert (mails + [dm])[..|mails|] == mails;
  }

  lemma {:induction false} StepFoldConcat(sp: StepProgress, a: seq<DMail>, b: seq<DMail>, w: string, s: string)
    ensures StepFold(sp, a + b, w, s) == StepFold(StepFold(sp, a, w, s), b, w, s)
  {
    if b == [] {
      assert a + b == a;
    } else {
      var n := |b| - 1;
      StepFoldConcat(sp, a, b[..n], w, s);
      StepFoldSnoc(sp, a + b[..n], b[n], w, s);
      assert a + b == (a + b[..n]) + [b[n]];
    }
  }

  lemma PartSnoc(mails: seq<DMail>, specs: bool)
    requires mails != []
    ensures var n := |mails| - 1;
            Part(mails, specs) == if IsSpec(mails[n]) == specs then Part(mails[..n], specs) + [mails[n]] else Part(mails[..n], specs)
  {
  }

  lemma SpecUpdatesNothing(sp: StepProgress, dm: DMail, w: string, s: string)
    requires IsSpec(dm)
    ensures Update(sp, dm, w, s) == sp
  {
  }

  /** Specifications do not touch steps… */
  lemma {:induction false} SpecsFoldNothing(sp: StepProgress, mails: seq<DMail>, w: string, s: string)
    ensures StepFold(sp, Part(mails, true), w, s) == sp
  {
    if mails != [] {
      var n := |mails| - 1;
      SpecsFoldNothing(sp, mails[..n], w, s);
      PartSnoc(mails, true);
      StepFoldSnoc(sp, Part(mails[..n], true), mails[n], w, s);
      if IsSpec(mails[n]) { SpecUpdatesNothing(sp, mails[n], w, s); }
    }
  }

  /** …the other mails do all of it. */
  lemma {:induction false} OthersFoldAll(sp: StepProgress, mails: seq<DMail>, w: string, s: string)
    ensures StepFold(sp, Part(mails, false), w, s) == StepFold(sp, mails, w, s)
  {
    if mails != [] {
      var n := |mails| - 1;
      OthersFoldAll(sp, mails[..n], w, s);
      PartSnoc(mails, false);
      StepFoldSnoc(sp, Part(mails[..n], false), mails[n], w, s);
      StepFoldSnoc(sp, mails[..n], mails[n], w, s);
      assert mails == mails[..n] + [mails[n]];
      if IsSpec(mails[n]) { SpecUpdatesNothing(StepFold(sp, mails[..n], w, s), mails[n], w, s); }
    }
  }

  lemma SpecSnoc(mails: seq<DMail>, dm: DMail, w: string)
    ensures FirstSpec(mails + [dm], w) == if FirstSpec(mails, w).Some? then FirstSpec(mails, w)
                                          else if IsSpec(dm) && dm.wave.value.id == w then Some(dm) else None
    ensures SpecOrder(mails + [dm]) == if IsSpec(dm) && FirstSpec(mails, dm.wave.value.id).None?
                                       then SpecOrder(mails) + [dm.wave.value.id] else SpecOrder(mails)
  {
    assert (mails + [dm])[..|mails|] == mails;
  }

  /** Registration looks at the specifications only. */
  lemma {:induction false} PartSpecs(mails: seq<DMail>)
    ensures SpecOrder(Part(mails, true)) == SpecOrder(mails)
    ensures forall w :: FirstSpec(Part(mails, true), w) == FirstSpec(mails, w)
  {
    if mails != [] {
      var n := |mails| - 1;
      PartSpecs(mails[..n]);
      assert Part(mails[..n], true) + [] == Part(mails[..n], true);
      forall w ensures FirstSpec(Part(mails, true), w) == FirstSpec(mails, w) {
        SpecSnoc(Part(mails[..n], true), mails[n], w);
      }
      SpecSnoc(Part(mails[..n], true), mails[n], "");
    }
  }

  lemma {:induction false} OthersRegisterNothing(a: seq<DMail>, mails: seq<DMail>)
    ensures SpecOrder(a + Part(mails, false)) == SpecOrder(a)
    ensures forall w :: FirstSpec(a + Part(mails, false), w) == FirstSpec(a, w)
  {
    if mails == [] {
      assert a + Part(mails, false) == a;
    } else {
      var n := |mails| - 1;
      OthersRegisterNothing(a, mails[..n]);
      var b := a + Part(mails[..n], false);
      if IsSpec(mails[n]) {
        assert a + Part(mails, false) == b;
      } else {
        assert a + Part(mails, false) == b + [mails[n]];
        forall w ensures FirstSpec(a + Part(mails, false), w) == FirstSpec(a, w) { SpecSnoc(b, mails[n], w); }
        SpecSnoc(b, mails[n], "");
      }
    }
  }

  /** Two mail sequences with the same specifications and the same step histories have the same views. */
  lemma {:induction false} SameViews(a: seq<DMail>, b: seq<DMail>, order: seq<string>)
    requires forall w :: FirstSpec(a, w) == FirstSpec(b, w)
    requires forall sp, w, s :: StepFold(sp, a, w, s) == StepFold(sp, b, w, s)
    ensures WaveViews(a, order) == WaveViews(b, order)
  {
    if order != [] {
      var n := |order| - 1;
      SameViews(a, b, order[..n]);
      match FirstSpec(a, order[n])
      case Some(dm) => if HasWave(dm) { SameSteps(a, b, order[n], NewEntry(dm).steps, NewEntry(dm).order); }
      case None =>
    }
  }

  lemma {:induction false} SameSteps(a: seq<DMail>, b: seq<DMail>, w: string, steps: map<string, StepProgress>, order: seq<string>)
    requires forall sp, w, s :: StepFold(sp, a, w, s) == StepFold(sp, b, w, s)
    ensures StepViews(a, w, steps, order) == StepViews(b, w, steps, order)
  {
    if order != [] { SameSteps(a, b, w, steps, order[..|order| - 1]); }
  }

  /** The projection equals its value on the specifications followed by the other mails. */
  lemma {:induction false} SpecsMayComeFirst(mails: seq<DMail>)
    ensures Summary(mails) == Summary(Part(mails, true) + Part(mails, false))
  {
    var sorted := Part(mails, true) + Part(mails, false);
    PartSpecs(mails);
    OthersRegisterNothing(Part(mails, true), mails);
    forall sp, w, s ensures StepFold(sp, mails, w, s) == StepFold(sp, sorted, w, s) {
      SpecsFoldNothing(sp, mails, w, s);
      OthersFoldAll(sp, mails, w, s);
      StepFoldConcat(sp, Part(mails, true), Part(mails, false), w, s);
    }
    SameViews(mails, sorted, SpecOrder(mails));
  }

  /** Only the order of the specifications among themselves and of the other mails among themselves
      matters. */
  lemma {:induction false} InterleavingIsIrrelevant(a: seq<DMail>, b: seq<DMail>)
    requires Part(a, true) == Part(b, true) && Part(a, false) == Part(b, false)
    ensures Summary(a) == Summary(b)
  {
    SpecsMayComeFirst(a);
    SpecsMayComeFirst(b);
  }

  // ---------- targets from the mail projection ----------

  /** WaveProgress.PendingSteps */
  function PendingSteps(steps: seq<StepProgress>): seq<StepProgress> {
    if steps == [] then [] else
    var n := |steps| - 1;
    PendingSteps(steps[..n]) + (if steps[n].status != Completed then [steps[n]] else [])
  }

  function StepTargets(w: WaveProgress, steps: seq<StepProgress>): seq<Target> {
    if steps == [] then [] else
    var n := |steps| - 1;
    StepTargets(w, steps[..n]) + [Target(TargetID(w.waveID, steps[n].stepID), w.waveID, steps[n].stepID,
                                         steps[n].title, w.title, steps[n].acceptance)]
  }

  function WaveTargets(waves: seq<WaveProgress>): seq<Target> {
    if waves == [] then [] else
    var n := |waves| - 1;
    WaveTargets(waves[..n]) + StepTargets(waves[n], PendingSteps(waves[n].steps))
  }

  /** The target of a step. */
  predicate TargetIs(t: Target, w: WaveProgress, sp: StepProgress) {
    && t.id == (if sp.stepID == w.waveID then w.waveID else w.waveID + ":" + sp.stepID)
    && t.waveID == w.waveID && t.stepID == sp.stepID
    && t.title == sp.title && t.description == w.title && t.acceptance == sp.acceptance
  }

  /** A wave and one of its steps that is not completed, by their positions. */
  datatype Place = Place(wave: int, step: int)

  predicate Unfinished(waves: seq<WaveProgress>, p: Place) {
    0 <= p.wave < |waves| && 0 <= p.step < |waves[p.wave].steps| && waves[p.wave].steps[p.step].status != Completed
  }

  predicate Precedes(p: Place, q: Place) { p.wave < q.wave || (p.wave == q.wave && p.step < q.step) }

  /** These are the positions of the unfinished steps, in order, and `pending` are the steps there. */
  ghost predicate PendingPlaces(steps: seq<StepProgress>, pending: seq<StepProgress>, at: seq<int>) {
    && |at| == |pending|
    && (forall k :: 0 <= k < |at| ==> 0 <= at[k] < |steps| && pending[k] == steps[at[k]] && steps[at[k]].status != Completed)
    && Increasing(at)
    && (forall j :: 0 <= j < |steps| && steps[j].status != Completed ==> j in at)
  }

  ghost predicate Increasing(at: seq<int>) { forall k, l :: 0 <= k < l < |at| ==> at[k] < at[l] }

  lemma OnePlaceMore(steps: seq<StepProgress>, pending: seq<StepProgress>, at: seq<int>, sp: StepProgress)
    requires PendingPlaces(steps, pending, at)
    ensures sp.status == Completed ==> PendingPlaces(steps + [sp], pending, at)
    ensures sp.status != Completed ==> PendingPlaces(steps + [sp], pending + [sp], at + [|steps|])
  {
    var more := steps + [sp];
    assert forall j :: 0 <= j < |steps| ==> more[j] == steps[j];
    if sp.status != Completed {
      var at' := at + [|steps|];
      forall j | 0 <= j < |more| && more[j].status != Completed ensures j in at' {
        if j < |steps| { assert j in at; } else { assert at'[|at|] == j; }
      }
    }
  }

  lemma {:induction false} PendingAt(steps: seq<StepProgress>) returns (at: seq<int>)
    ensures PendingPlaces(steps, PendingSteps(steps), at)
  {
    at := [];
    if steps != [] {
      var n := |steps| - 1;
      at := PendingAt(steps[..n]);
      OnePlaceMore(steps[..n], PendingSteps(steps[..n]), at, steps[n]);
      assert steps == steps[..n] + [steps[n]];
      if steps[n].status != Completed { at := at + [n]; }
    }
  }

  lemma {:induction false} StepTargetsAt(w: WaveProgress, steps: seq<StepProgress>)
    ensures |StepTargets(w, steps)| == |steps|
    ensures forall k :: 0 <= k < |steps| ==> TargetIs(StepTargets(w, steps)[k], w, steps[k])
  {
    if steps != [] { StepTargetsAt(w, steps[..|steps| - 1]); }
  }

  /** The targets are those of the unfinished places, once each, in their order. */
  ghost predicate TargetsAt(waves: seq<WaveProgress>, targets: seq<Target>, at: seq<Place>) {
    && |at| == |targets|
    && (forall k :: 0 <= k < |at| ==> PlaceOk(waves, targets[k], at[k]))
    && (forall k, l :: 0 <= k < l < |at| ==> Precedes(at[k], at[l]))
    && (forall p :: Unfinished(waves, p) ==> p in at)
  }

  ghost predicate PlaceOk(waves: seq<WaveProgress>, t: Target, p: Place) {
    Unfinished(waves, p) && TargetIs(t, waves[p.wave], waves[p.wave].steps[p.step])
  }

  /** The targets of a wave, at their places in it. */
  ghost predicate OwnPlaces(w: WaveProgress, n: int, ts: seq<Target>, js: seq<int>, more: seq<Place>) {
    && |more| == |js| == |ts| && Increasing(js)
    && (forall k :: 0 <= k < |js| ==> 0 <= js[k] < |w.steps| && more[k] == Place(n, js[k]))
    && (forall k :: 0 <= k < |js| ==> w.steps[js[k]].status != Completed && TargetIs(ts[k], w, w.steps[js[k]]))
    && (forall j :: 0 <= j < |w.steps| && w.steps[j].status != Completed ==> j in js)
  }

  lemma WaveTargetsAt(w: WaveProgress, n: int) returns (js: seq<int>, more: seq<Place>)
    ensures OwnPlaces(w, n, StepTargets(w, PendingSteps(w.steps)), js, more)
  {
    js := PendingAt(w.steps);
    StepTargetsAt(w, PendingSteps(w.steps));
    more := seq(|js|, k requires 0 <= k < |js| => Place(n, js[k]));
  }

  lemma {:induction false} TargetsMean(waves: seq<WaveProgress>) returns (at: seq<Place>)
    ensures TargetsAt(waves, WaveTargets(waves), at)
  {
    at := [];
    if waves != [] {
      var n := |waves| - 1;
      var before := TargetsMean(waves[..n]);
      var js, more := WaveTargetsAt(waves[n], n);
      at := before + more;
      OneMoreWave(waves, WaveTargets(waves[..n]), before, StepTargets(waves[n], PendingSteps(waves[n].steps)), js, more);
    }
  }

  lemma OneMoreWave(waves: seq<WaveProgress>, early: seq<Target>, before: seq<Place>, late: seq<Target>, js: seq<int>, more: seq<Place>)
    requires waves != [] && TargetsAt(waves[..|waves| - 1], early, before)
    requires OwnPlaces(waves[|waves| - 1], |waves| - 1, late, js, more)
    ensures TargetsAt(waves, early + late, before + more)
  {
    var n := |waves| - 1;
    forall k | 0 <= k < |before| ensures before[k].wave < n { assert Unfinished(waves[..n], before[k]); }
    PlacesCover(waves, before, js, more);
    PlacesHold(waves, early, before, late, js, more);
    PlacesInOrder(before, js, more, n);
  }

  lemma PlacesCover(waves: seq<WaveProgress>, before: seq<Place>, js: seq<int>, more: seq<Place>)
    requires waves != [] && |more| == |js|
    requires forall p :: Unfinished(waves[..|waves| - 1], p) ==> p in before
    requires forall k :: 0 <= k < |js| ==> more[k] == Place(|waves| - 1, js[k])
    requires var w := waves[|waves| - 1]; forall j :: 0 <= j < |w.steps| && w.steps[j].status != Completed ==> j in js
    ensures forall p :: Unfinished(waves, p) ==> p in before + more
  {
    var n := |waves| - 1;
    forall p | Unfinished(waves, p) ensures p in before + more {
      if p.wave < n {
        assert Unfinished(waves[..n], p);
      } else {
        var k :| 0 <= k < |js| && js[k] == p.step;
        assert more[k] == p;
      }
    }
  }

  lemma PlacesHold(waves: seq<WaveProgress>, early: seq<Target>, before: seq<Place>, late: seq<Target>, js: seq<int>, more: seq<Place>)
    requires waves != [] && |before| == |early| && OwnPlaces(waves[|waves| - 1], |waves| - 1, late, js, more)
    requires forall k :: 0 <= k < |before| ==> PlaceOk(waves[..|waves| - 1], early[k], before[k])
    ensures forall k :: 0 <= k < |before + more| ==> PlaceOk(waves, (early + late)[k], (before + more)[k])
  {
    forall k | 0 <= k < |before + more| ensures PlaceOk(waves, (early + late)[k], (before + more)[k]) {
      if k < |before| {
        assert PlaceOk(waves[..|waves| - 1], early[k], before[k]);
      } else {
        var i := k - |before|;
        assert (before + more)[k] == more[i] && (early + late)[k] == late[i];
      }
    }
  }

  lemma PlacesInOrder(before: seq<Place>, js: seq<int>, more: seq<Place>, n: int)
    requires forall k :: 0 <= k < |before| ==> before[k].wave < n
    requires forall k, l :: 0 <= k < l < |before| ==> Precedes(before[k], before[l])
    requires |more| == |js| && Increasing(js) && forall k :: 0 <= k < |js| ==> more[k] == Place(n, js[k])
    ensures forall k, l :: 0 <= k < l < |before + more| ==> Precedes((before + more)[k], (before + more)[l])
  {
  }

  method ComputePendingSteps(w: WaveProgress) returns (pending: seq<StepProgress>)
    ensures pending == PendingSteps(w.steps)
  {
    pending := [];
    for i := 0 to |w.steps|
      invariant pending == PendingSteps(w.steps[..i])
    {
      assert w.steps[..i + 1][..i] == w.steps[..i];
      if w.steps[i].status != Completed { pending := pending + [w.steps[i]]; }
    }
    assert w.steps[..|w.steps|] == w.steps;
  }

  /** A wave is complete when it has steps and none of them is pending. */
  method IsComplete(w: WaveProgress) returns (complete: bool)
    ensures complete <==> w.steps != [] && PendingSteps(w.steps) == []
  {
    for i := 0 to |w.steps|
      invariant PendingSteps(w.steps[..i]) == []
    {
      assert w.steps[..i + 1][..i] == w.steps[..i];
      if w.steps[i].status != Completed {
        PendingGrows(w.steps, i + 1);
        return false;
      }
    }
    assert w.steps[..|w.steps|] == w.steps;
    complete := |w.steps| > 0;
  }

  lemma {:induction false} PendingGrows(steps: seq<StepProgress>, k: nat)
    requires k <= |steps| && PendingSteps(steps[..k]) != []
    ensures PendingSteps(steps) != []
    decreases |steps|
  {
    if k < |steps| {
      var n := |steps| - 1;
      assert steps[..n][..k] == steps[..k];
      PendingGrows(steps[..n], k);
    } else {
      assert steps[..k] == steps;
    }
  }

  method ExpeditionTargetsFromWaves(waves: seq<WaveProgress>) returns (targets: seq<Target>)
    ensures targets == WaveTargets(waves)
  {
    targets := [];
    for i := 0 to |waves|
      invariant targets == WaveTargets(waves[..i])
    {
      assert waves[..i + 1][..i] == waves[..i];
      var w := waves[i];
      var pending := ComputePendingSteps(w);
      ghost var before := targets;
      for j := 0 to |pending|
        invariant targets == before + StepTargets(w, pending[..j])
      {
        assert pending[..j + 1][..j] == pending[..j];
        targets := targets + [Target(TargetID(w.waveID, pending[j].stepID), w.waveID, pending[j].stepID,
                                     pending[j].title, w.title, pending[j].acceptance)];
      }
      assert pending[..|pending|] == pending;
    }
    assert waves[..|waves|] == waves;
  }
}
