/**
  The wave read model that is projected from events, and exactly when it hands out the same
  expedition targets as the one projected from D-Mails.
 */
module WaveEvents {
  import opened Sequences
  import opened EventStore
  import opened Waves
  import opened Wrappers

  datatype StepEntry = StepEntry(steps: map<string, StepStatus>, order: seq<string>)
  datatype StepBoard = StepBoard(waves: map<string, StepEntry>, order: seq<string>, titles: map<string, string>)

  const EMPTY_BOARD := StepBoard(map[], [], map[])

  function NewStepEntry(w: string, steps: seq<StepDef>): StepEntry {
    var order := StepOrder(w, steps);
    StepEntry(map s | s in order :: Pending, order)
  }

  function Titles(titles: map<string, string>, w: string, steps: seq<StepDef>): map<string, string> {
    if steps == [] then titles else
    var n := |steps| - 1;
    Titles(titles, w, steps[..n])[w + ":" + steps[n].id := steps[n].title]
  }

  function ApplySpec(b: StepBoard, d: Data): StepBoard
    requires d.Fields?
  {
    if d.waveID in b.waves then b
    else StepBoard(b.waves[d.waveID := NewStepEntry(d.waveID, d.steps)], b.order + [d.waveID],
                   if d.steps == [] then b.titles[d.waveID + ":" + d.waveID := d.waveID] else Titles(b.titles, d.waveID, d.steps))
  }

  function ApplyCompletion(b: StepBoard, d: Data): StepBoard
    requires d.Fields?
  {
    var s := if d.stepID == "" then d.waveID else d.stepID;
    if d.waveID == "" || d.waveID !in b.waves || s !in b.waves[d.waveID].steps then b
    else if d.status == "success" || d.status == "skipped" then
      var e := b.waves[d.waveID];
      b.(waves := b.waves[d.waveID := e.(steps := e.steps[s := Completed])])
    else b
  }

  /** applyWaveStepEvent */
  function ApplyWaveEvent(b: StepBoard, ev: Event): StepBoard {
    if !ev.data.Fields? then b
    else if ev.etype.SpecRegistered? then ApplySpec(b, ev.data)
    else if ev.etype.ExpeditionCompleted? then ApplyCompletion(b, ev.data)
    else b
  }

  function ProjectEvents(events: seq<Event>): StepBoard {
    if events == [] then EMPTY_BOARD
    else ApplyWaveEvent(ProjectEvents(events[..|events| - 1]), events[|events| - 1])
  }

  predicate IsPending(b: StepBoard, w: string, s: string) {
    w in b.waves && s in b.waves[w].steps && b.waves[w].steps[s] == Pending
  }

  function TitleOf(titles: map<string, string>, k: string): string { if k in titles then titles[k] else "" }

  function TargetsOfSteps(b: StepBoard, w: string, order: seq<string>): seq<Target> {
    if order == [] then [] else
    var n := |order| - 1;
    var s := order[n];
    TargetsOfSteps(b, w, order[..n])
    + (if IsPending(b, w, s) then [Target(TargetID(w, s), w, s, TitleOf(b.titles, w + ":" + s), "", "")] else [])
  }

  function TargetsOf(b: StepBoard, order: seq<string>): seq<Target> {
    if order == [] then [] else
    var n := |order| - 1;
    TargetsOf(b, order[..n]) + (if order[n] in b.waves then TargetsOfSteps(b, order[n], b.waves[order[n]].order) else [])
  }

  /** The event read model; events are applied in place. */
  class WaveStepProgress {
    var waves: map<string, StepEntry>
    var waveOrder: seq<string>
    var stepTitles: map<string, string>

    ghost function Abs(): StepBoard
      reads this
    {
      StepBoard(waves, waveOrder, stepTitles)
    }

    /** Every wave in the order has an entry. */
    ghost predicate Valid()
      reads this
    {
      forall i :: 0 <= i < |waveOrder| ==> waveOrder[i] in waves
    }

    constructor ()
      ensures Valid() && Abs() == EMPTY_BOARD
    {
      waves, waveOrder, stepTitles := map[], [], map[];
    }

    method Apply(ev: Event)
      requires Valid()
      modifies this
      ensures Valid() && Abs() == ApplyWaveEvent(old(Abs()), ev)
    {
      if !ev.data.Fields? { return; }
      var d := ev.data;
      match ev.etype {
        case SpecRegistered =>
          if d.waveID in waves { return; }
          if d.steps == [] {
            stepTitles := stepTitles[d.waveID + ":" + d.waveID := d.waveID];
          } else {
            ghost var before := stepTitles;
            for i := 0 to |d.steps|
              invariant stepTitles == Titles(before, d.waveID, d.steps[..i])
              invariant waves == old(waves) && waveOrder == old(waveOrder)
            {
              assert d.steps[..i + 1][..i] == d.steps[..i];
              stepTitles := stepTitles[d.waveID + ":" + d.steps[i].id := d.steps[i].title];
            }
            assert d.steps[..|d.steps|] == d.steps;
          }
          waves := waves[d.waveID := NewStepEntry(d.waveID, d.steps)];
          waveOrder := waveOrder + [d.waveID];
        case ExpeditionCompleted =>
          var s := if d.stepID == "" then d.waveID else d.stepID;
          if d.waveID == "" || d.waveID !in waves || s !in waves[d.waveID].steps { return; }
          if d.status == "success" || d.status == "skipped" {
            var e := waves[d.waveID];
            waves := waves[d.waveID := e.(steps := e.steps[s := Completed])];
          }
        case _ =>
      }
    }

    method PendingTargets() returns (targets: seq<Target>)
      requires Valid()
      ensures targets == TargetsOf(Abs(), waveOrder)
    {
      targets := [];
      ghost var b := Abs();
      for i := 0 to |waveOrder|
        invariant targets == TargetsOf(b, waveOrder[..i])
      {
        assert waveOrder[..i + 1][..i] == waveOrder[..i];
        var some := PendingOfWave(waveOrder[i]);
        targets := targets + some;
      }
      assert waveOrder[..|waveOrder|] == waveOrder;
    }

    /** The inner loop: the pending steps of one wave. */
    method PendingOfWave(w: string) returns (targets: seq<Target>)
      requires w in waves
      ensures targets == TargetsOfSteps(Abs(), w, waves[w].order)
    {
      var e := waves[w];
      ghost var b := Abs();
      targets := [];
      for j := 0 to |e.order|
        invariant targets == TargetsOfSteps(b, w, e.order[..j])
      {
        assert e.order[..j + 1][..j] == e.order[..j];
        var s := e.order[j];
        if s in e.steps && e.steps[s] == Pending {
          targets := targets + [Target(TargetID(w, s), w, s, TitleOf(stepTitles, w + ":" + s), "", "")];
        }
      }
      assert e.order[..|e.order|] == e.order;
    }
  }

  method ProjectWaveStepProgress(events: seq<Event>) returns (r: WaveStepProgress)
    ensures fresh(r) && r.Valid() && r.Abs() == ProjectEvents(events)
  {
    r := new WaveStepProgress();
    for i := 0 to |events|
      invariant r.Valid() && r.Abs() == ProjectEvents(events[..i])
    {
      assert events[..i + 1][..i] == events[..i];
      r.Apply(events[i]);
    }
    assert events[..|events|] == events;
  }

  // ---------- what the events mean ----------

  predicate Registers(e: Event, w: string) { e.etype.SpecRegistered? && e.data.Fields? && e.data.waveID == w }

  /** A successful or skipped expedition on the step; without a step ID it is the wave's only step. */
  predicate Completes(e: Event, w: string, s: string) {
    && e.etype.ExpeditionCompleted? && e.data.Fields? && e.data.waveID == w && w != ""
    && (if e.data.stepID == "" then s == w else s == e.data.stepID)
    && (e.data.status == "success" || e.data.status == "skipped")
  }

  ghost predicate FirstAt(events: seq<Event>, w: string, k: int) {
    0 <= k < |events| && Registers(events[k], w) && forall j :: 0 <= j < k ==> !Registers(events[j], w)
  }

  ghost predicate CompletedAfter(events: seq<Event>, w: string, s: string, k: int) {
    exists j :: 0 <= k < j < |events| && Completes(events[j], w, s)
  }

  /** The wave as its first registration and the later completions make it. */
  ghost predicate EntryMeans(events: seq<Event>, w: string, e: StepEntry, k: int) {
    && FirstAt(events, w, k)
    && var defs := events[k].data.steps;
    && (if defs == [] then e.order == [w] else |e.order| == |defs| && forall j :: 0 <= j < |defs| ==> e.order[j] == defs[j].id)
    && (forall s :: s in e.steps <==> s in e.order)
    && (forall s :: s in e.steps ==> e.steps[s] == if CompletedAfter(events, w, s, k) then Completed else Pending)
  }

  ghost predicate WaveMeans(events: seq<Event>, w: string, e: StepEntry) { exists k :: EntryMeans(events, w, e, k) }

  ghost predicate BoardMeans(b: StepBoard, events: seq<Event>) {
    && (forall w :: w in b.waves <==> exists k :: FirstAt(events, w, k))
    && (forall w :: w in b.waves ==> WaveMeans(events, w, b.waves[w]))
    && (forall w :: w in b.order <==> w in b.waves)
    && (forall i, j, k, l :: 0 <= i < j < |b.order| && FirstAt(events, b.order[i], k) && FirstAt(events, b.order[j], l) ==> k < l)
  }

  lemma FirstAtSnoc(events: seq<Event>, e: Event, w: string)
    ensures forall k :: FirstAt(events + [e], w, k) <==>
      FirstAt(events, w, k) || (k == |events| && Registers(e, w) && forall j :: 0 <= j < |events| ==> !Registers(events[j], w))
  {
    var next := events + [e];
    assert forall j :: 0 <= j < |events| ==> next[j] == events[j];
  }

  lemma {:induction false} FirstExists(events: seq<Event>, w: string)
    ensures (exists k :: FirstAt(events, w, k)) || forall j :: 0 <= j < |events| ==> !Registers(events[j], w)
  {
    if events != [] {
      var n := |events| - 1;
      FirstExists(events[..n], w);
      assert events == events[..n] + [events[n]];
      FirstAtSnoc(events[..n], events[n], w);
      if k :| FirstAt(events[..n], w, k) { assert FirstAt(events, w, k); }
      if Registers(events[n], w) && !(exists k :: FirstAt(events[..n], w, k)) { assert FirstAt(events, w, n); }
    }
  }

  lemma CompletedSnoc(events: seq<Event>, e: Event, w: string, s: string, k: int)
    requires 0 <= k < |events|
    ensures CompletedAfter(events + [e], w, s, k) <==> CompletedAfter(events, w, s, k) || Completes(e, w, s)
  {
    var next := events + [e];
    if CompletedAfter(events, w, s, k) {
      var j :| k < j < |events| && Completes(events[j], w, s);
      assert Completes(next[j], w, s);
    }
    if Completes(e, w, s) { assert Completes(next[|events|], w, s); }
    if CompletedAfter(next, w, s, k) {
      var j :| k < j < |next| && Completes(next[j], w, s);
      assert j < |events| ==> Completes(events[j], w, s);
    }
  }

  /** A wave that is registered already. */
  lemma OldWaveMeans(b: StepBoard, events: seq<Event>, e: Event, w: string)
    requires BoardMeans(b, events) && w in b.waves
    ensures w in ApplyWaveEvent(b, e).waves && WaveMeans(events + [e], w, ApplyWaveEvent(b, e).waves[w])
  {
    assert WaveMeans(events, w, b.waves[w]);
    var k :| EntryMeans(events, w, b.waves[w], k);
    OldWaveStep(b, e, w);
    EntryMeansSnoc(events, e, w, b.waves[w], ApplyWaveEvent(b, e).waves[w], k);
  }

  /** What an event does to a wave that is registered already. */
  lemma OldWaveStep(b: StepBoard, e: Event, w: string)
    requires w in b.waves
    ensures w in ApplyWaveEvent(b, e).waves && EntryAfter(b.waves[w], e, w, ApplyWaveEvent(b, e).waves[w])
  {
  }

  ghost predicate EntryAfter(before: StepEntry, e: Event, w: string, after: StepEntry) {
    && after.order == before.order && after.steps.Keys == before.steps.Keys
    && forall s :: s in before.steps ==> after.steps[s] == if Completes(e, w, s) then Completed else before.steps[s]
  }

  lemma EntryMeansSnoc(events: seq<Event>, e: Event, w: string, before: StepEntry, after: StepEntry, k: int)
    requires EntryMeans(events, w, before, k) && EntryAfter(before, e, w, after)
    ensures EntryMeans(events + [e], w, after, k)
  {
    FirstAtSnoc(events, e, w);
    assert (events + [e])[k] == events[k];
    forall s | s in after.steps
      ensures after.steps[s] == if CompletedAfter(events + [e], w, s, k) then Completed else Pending
    {
      CompletedSnoc(events, e, w, s, k);
    }
  }

  /** A wave that the event registers. */
  lemma NewWaveMeans(b: StepBoard, events: seq<Event>, e: Event, w: string)
    requires BoardMeans(b, events) && w !in b.waves && w in ApplyWaveEvent(b, e).waves
    ensures Registers(e, w) && FirstAt(events + [e], w, |events|)
    ensures WaveMeans(events + [e], w, ApplyWaveEvent(b, e).waves[w])
    ensures ApplyWaveEvent(b, e).order == b.order + [w]
  {
    FirstExists(events, w);
    FirstAtSnoc(events, e, w);
    var t := ApplyWaveEvent(b, e);
    assert (events + [e])[|events|] == e;
    forall s ensures !CompletedAfter(events + [e], w, s, |events|) {}
    assert EntryMeans(events + [e], w, t.waves[w], |events|);
  }

  lemma BoardMeansStep(b: StepBoard, events: seq<Event>, e: Event)
    requires BoardMeans(b, events)
    ensures BoardMeans(ApplyWaveEvent(b, e), events + [e])
  {
    var t := ApplyWaveEvent(b, e);
    forall w ensures w in t.waves <==> exists k :: FirstAt(events + [e], w, k) {
      FirstAtSnoc(events, e, w);
      FirstExists(events, w);
      if w in b.waves {
        OldWaveMeans(b, events, e, w);
        var k :| FirstAt(events, w, k);
        assert FirstAt(events + [e], w, k);
      } else if w in t.waves {
        NewWaveMeans(b, events, e, w);
      }
    }
    forall w | w in t.waves ensures WaveMeans(events + [e], w, t.waves[w]) {
      if w in b.waves { OldWaveMeans(b, events, e, w); } else { NewWaveMeans(b, events, e, w); }
    }
    forall i, j, k, l | 0 <= i < j < |t.order| && FirstAt(events + [e], t.order[i], k) && FirstAt(events + [e], t.order[j], l)
      ensures k < l
    {
      OrderMeansStep(b, events, e, i, j, k, l);
    }
  }

  lemma OrderMeansStep(b: StepBoard, events: seq<Event>, e: Event, i: int, j: int, k: int, l: int)
    requires BoardMeans(b, events) && 0 <= i < j < |ApplyWaveEvent(b, e).order|
    requires FirstAt(events + [e], ApplyWaveEvent(b, e).order[i], k) && FirstAt(events + [e], ApplyWaveEvent(b, e).order[j], l)
    ensures k < l
  {
    var t := ApplyWaveEvent(b, e);
    assert i < |b.order| && t.order[i] == b.order[i];
    assert b.order[i] in b.order;
    FirstAtSnoc(events, e, t.order[i]);
    FirstAtSnoc(events, e, t.order[j]);
    if j < |b.order| { assert b.order[j] in b.order; }
  }

  /** The event model in terms of the events alone: a wave for each that some event registers, in that order,
      with the steps of its first registration, each completed exactly when a successful or skipped
      expedition on it comes later. */
  lemma {:induction false} EventsMean(events: seq<Event>)
    ensures BoardMeans(ProjectEvents(events), events)
  {
    if events != [] {
      var n := |events| - 1;
      EventsMean(events[..n]);
      BoardMeansStep(ProjectEvents(events[..n]), events[..n], events[n]);
      assert events == events[..n] + [events[n]];
    }
  }

  /** Registering a wave sets the titles of its steps, the last one of a repeated ID, and no others. */
  lemma {:induction false} TitlesMean(titles: map<string, string>, w: string, defs: seq<StepDef>)
    ensures forall d, s :: LastDef(defs, s, d) ==>
      w + ":" + s in Titles(titles, w, defs) && Titles(titles, w, defs)[w + ":" + s] == defs[d].title
    ensures forall k :: (forall d :: 0 <= d < |defs| ==> k != w + ":" + defs[d].id) ==>
      (k in Titles(titles, w, defs) <==> k in titles) && (k in titles ==> Titles(titles, w, defs)[k] == titles[k])
  {
    if defs != [] {
      var n := |defs| - 1;
      TitlesMean(titles, w, defs[..n]);
      forall d, s | LastDef(defs, s, d)
        ensures w + ":" + s in Titles(titles, w, defs) && Titles(titles, w, defs)[w + ":" + s] == defs[d].title
      {
        SamePrefix(w + ":", s, defs[n].id);
        if d < n { assert LastDef(defs[..n], s, d); }
      }
    }
  }

  lemma SamePrefix(p: string, a: string, b: string)
    ensures p + a == p + b <==> a == b
  {
    assert (p + a)[|p|..] == a && (p + b)[|p|..] == b;
  }

  /** The target of an open step. */
  ghost predicate OpenTarget(b: StepBoard, t: Target, w: string, s: string) {
    && w in b.waves && s in b.waves[w].order && s in b.waves[w].steps && b.waves[w].steps[s] == Pending
    && t.id == (if s == w then w else w + ":" + s) && t.waveID == w && t.stepID == s
    && t.title == (if w + ":" + s in b.titles then b.titles[w + ":" + s] else "")
    && t.description == "" && t.acceptance == ""
  }

  lemma {:induction false} StepTargetsMean(b: StepBoard, w: string, order: seq<string>)
    requires w in b.waves && forall s :: s in order ==> s in b.waves[w].order
    ensures forall t :: t in TargetsOfSteps(b, w, order) <==> t.stepID in order && OpenTarget(b, t, w, t.stepID)
  {
    if order != [] { StepTargetsMean(b, w, order[..|order| - 1]); }
  }

  /** The targets are those of the steps that are registered and not completed. */
  lemma {:induction false} EventTargetsMean(b: StepBoard, order: seq<string>)
    ensures forall t :: t in TargetsOf(b, order) <==> t.waveID in order && OpenTarget(b, t, t.waveID, t.stepID)
  {
    if order != [] {
      var n := |order| - 1;
      EventTargetsMean(b, order[..n]);
      if order[n] in b.waves { StepTargetsMean(b, order[n], b.waves[order[n]].order); }
    }
  }

  // ---------- the same history as events ----------

  /** The event for a report says "success" exactly for a blank or low severity, and "failed" otherwise, about
      the step of the mail. */
  lemma EventStatus(dm: DMail)
    requires dm.kind == "report" && dm.wave.Some? && dm.wave.value.id != ""
    ensures |EventsOf(dm)| == 1
    ensures EventsOf(dm)[0].data.Fields?
         && EventsOf(dm)[0].data.status == if dm.severity == "" || dm.severity == "low" then "success" else "failed"
    ensures forall w, s :: Completes(EventsOf(dm)[0], w, s) <==> Names(dm, w, s) && (dm.severity == "" || dm.severity == "low")
  {
  }

  /** The event that is recorded for a mail; fields the projection does not read are blank. */
  function EventsOf(dm: DMail): seq<Event> {
    if IsSpec(dm) then
      [Event(1, "", SpecRegistered, 0, Fields(0, "", "", dm.wave.value.id, "", 0, 0, dm.wave.value.steps), "", "", "", 0)]
    else if HasWave(dm) && dm.kind == "report" then
      [Event(1, "", ExpeditionCompleted, 0,
             Fields(0, if LowSeverity(dm) then "success" else "failed", "", dm.wave.value.id, dm.wave.value.step, 0, 0, []),
             "", "", "", 0)]
    else []
  }

  function Translate(mails: seq<DMail>): seq<Event> {
    if mails == [] then [] else Translate(mails[..|mails| - 1]) + EventsOf(mails[|mails| - 1])
  }

  /** Some report of success for the step comes after a specification of its wave. */
  predicate SucceededAfterSpec(mails: seq<DMail>, w: string, s: string) {
    mails != [] &&
    var n := |mails| - 1;
    SucceededAfterSpec(mails[..n], w, s)
    || (FirstSpec(mails[..n], w).Some? && IsReport(mails[n], w, s) && (mails[n].severity == "" || mails[n].severity == "low"))
  }

  /** There is a report for the step, and the last one is a success. */
  predicate LastReportSucceeds(mails: seq<DMail>, w: string, s: string) {
    mails != [] &&
    var n := |mails| - 1;
    if IsReport(mails[n], w, s) then mails[n].severity == "" || mails[n].severity == "low" else LastReportSucceeds(mails[..n], w, s)
  }

  /** The step IDs of a wave according to its first specification. */
  function StepsOf(mails: seq<DMail>, w: string): seq<string> {
    match FirstSpec(mails, w)
    case Some(dm) => if HasWave(dm) then NewEntry(dm).order else []
    case None => []
  }

  lemma TranslateSnoc(mails: seq<DMail>)
    requires mails != []
    ensures var n := |mails| - 1;
            ProjectEvents(Translate(mails)) ==
            if EventsOf(mails[n]) == [] then ProjectEvents(Translate(mails[..n]))
            else ApplyWaveEvent(ProjectEvents(Translate(mails[..n])), EventsOf(mails[n])[0])
  {
    var n := |mails| - 1;
    var t := Translate(mails[..n]);
    if EventsOf(mails[n]) != [] {
      assert Translate(mails) == t + [EventsOf(mails[n])[0]];
      assert (t + [EventsOf(mails[n])[0]])[..|t|] == t;
    } else {
      assert Translate(mails) == t;
    }
  }

  ghost predicate BoardIs(b: StepBoard, mails: seq<DMail>) {
    && b.order == SpecOrder(mails)
    && (forall w :: w in b.waves <==> FirstSpec(mails, w).Some?)
    && (forall w :: w in b.waves ==> EntryIs(b.waves[w], mails, w))
  }

  ghost predicate EntryIs(e: StepEntry, mails: seq<DMail>, w: string) {
    && e.order == StepsOf(mails, w)
    && (forall s :: s in e.steps <==> s in e.order)
    && (forall s :: s in e.steps ==> e.steps[s] == if SucceededAfterSpec(mails, w, s) then Completed else Pending)
  }

  /** The event read model in terms of the mails. */
  lemma {:induction false} EventModelIs(mails: seq<DMail>)
    ensures BoardIs(ProjectEvents(Translate(mails)), mails)
  {
    if mails != [] {
      var n := |mails| - 1;
      EventModelIs(mails[..n]);
      TranslateSnoc(mails);
      ModelStep(ProjectEvents(Translate(mails[..n])), mails);
    }
  }

  lemma ModelStep(b: StepBoard, mails: seq<DMail>)
    requires mails != [] && BoardIs(b, mails[..|mails| - 1])
    ensures var es := EventsOf(mails[|mails| - 1]);
            BoardIs(if es == [] then b else ApplyWaveEvent(b, es[0]), mails)
  {
    var n := |mails| - 1;
    var prev, dm := mails[..n], mails[n];
    assert mails == prev + [dm];
    NoSuccessBeforeSpec(prev);
    if IsSpec(dm) {
      SpecStep(b, prev, dm);
    } else if HasWave(dm) && dm.kind == "report" {
      ReportStep(b, prev, dm);
    } else {
      forall w ensures FirstSpec(mails, w) == FirstSpec(prev, w) {}
      forall w | w in b.waves ensures EntryIs(b.waves[w], mails, w) { assert EntryIs(b.waves[w], prev, w); }
    }
  }

  lemma {:induction false} NoSuccessBeforeSpec(mails: seq<DMail>)
    ensures forall w, s :: FirstSpec(mails, w).None? ==> !SucceededAfterSpec(mails, w, s)
  {
    if mails != [] { NoSuccessBeforeSpec(mails[..|mails| - 1]); }
  }

  lemma SuccessSnoc(prev: seq<DMail>, dm: DMail, w: string, s: string)
    ensures SucceededAfterSpec(prev + [dm], w, s) <==>
      SucceededAfterSpec(prev, w, s) || (FirstSpec(prev, w).Some? && IsReport(dm, w, s) && LowSeverity(dm))
  {
    assert (prev + [dm])[..|prev|] == prev;
  }

  lemma SpecStep(b: StepBoard, prev: seq<DMail>, dm: DMail)
    requires BoardIs(b, prev) && IsSpec(dm)
    requires forall w, s :: FirstSpec(prev, w).None? ==> !SucceededAfterSpec(prev, w, s)
    ensures BoardIs(ApplyWaveEvent(b, EventsOf(dm)[0]), prev + [dm])
  {
    var t := ApplyWaveEvent(b, EventsOf(dm)[0]);
    var id := dm.wave.value.id;
    SpecSnoc(prev, dm, id);
    forall w ensures w in t.waves <==> FirstSpec(prev + [dm], w).Some? { SpecSnoc(prev, dm, w); }
    forall w | w in t.waves ensures EntryIs(t.waves[w], prev + [dm], w) { SpecEntry(b, prev, dm, w); }
  }

  lemma SpecEntry(b: StepBoard, prev: seq<DMail>, dm: DMail, w: string)
    requires BoardIs(b, prev) && IsSpec(dm) && w in ApplyWaveEvent(b, EventsOf(dm)[0]).waves
    requires forall s :: FirstSpec(prev, w).None? ==> !SucceededAfterSpec(prev, w, s)
    ensures EntryIs(ApplyWaveEvent(b, EventsOf(dm)[0]).waves[w], prev + [dm], w)
  {
    SpecSnoc(prev, dm, w);
    forall s ensures SucceededAfterSpec(prev + [dm], w, s) == SucceededAfterSpec(prev, w, s) { SuccessSnoc(prev, dm, w, s); }
    if w in b.waves {
      assert EntryIs(b.waves[w], prev, w);
    } else {
      assert ApplyWaveEvent(b, EventsOf(dm)[0]).waves[w] == NewStepEntry(dm.wave.value.id, dm.wave.value.steps);
    }
  }

  lemma ReportStep(b: StepBoard, prev: seq<DMail>, dm: DMail)
    requires BoardIs(b, prev) && HasWave(dm) && dm.kind == "report"
    ensures BoardIs(ApplyWaveEvent(b, EventsOf(dm)[0]), prev + [dm])
  {
    var t := ApplyWaveEvent(b, EventsOf(dm)[0]);
    SpecSnoc(prev, dm, "");
    forall w ensures w in t.waves <==> FirstSpec(prev + [dm], w).Some? { SpecSnoc(prev, dm, w); }
    forall w | w in t.waves ensures EntryIs(t.waves[w], prev + [dm], w) {
      SpecSnoc(prev, dm, w);
      assert EntryIs(b.waves[w], prev, w);
      ReportEntry(b, prev, dm, w);
    }
  }

  lemma ReportEntry(b: StepBoard, prev: seq<DMail>, dm: DMail, w: string)
    requires HasWave(dm) && dm.kind == "report" && w in b.waves && EntryIs(b.waves[w], prev, w)
    requires FirstSpec(prev, w).Some? && FirstSpec(prev + [dm], w) == FirstSpec(prev, w)
    ensures var t := ApplyWaveEvent(b, EventsOf(dm)[0]); w in t.waves && EntryIs(t.waves[w], prev + [dm], w)
  {
    var t := ApplyWaveEvent(b, EventsOf(dm)[0]);
    forall s ensures SucceededAfterSpec(prev + [dm], w, s) <==>
      SucceededAfterSpec(prev, w, s) || (IsReport(dm, w, s) && LowSeverity(dm))
    {
      SuccessSnoc(prev, dm, w, s);
    }
    ReportApplied(b, dm, w);
    assert StepsOf(prev + [dm], w) == StepsOf(prev, w);
  }

  /** A report completes the step it is about, if it is a success, and nothing else. */
  lemma ReportApplied(b: StepBoard, dm: DMail, w: string)
    requires HasWave(dm) && dm.kind == "report" && w in b.waves
    ensures var t := ApplyWaveEvent(b, EventsOf(dm)[0]);
      && w in t.waves && t.waves[w].order == b.waves[w].order && t.waves[w].steps.Keys == b.waves[w].steps.Keys
      && forall s :: s in b.waves[w].steps ==>
           t.waves[w].steps[s] == if IsReport(dm, w, s) && LowSeverity(dm) then Completed else b.waves[w].steps[s]
  {
  }

  /** A step of the mail read model is completed exactly when its last report is a success. */
  lemma {:induction false} CompletedIff(sp: StepProgress, mails: seq<DMail>, w: string, s: string)
    requires sp.status != Completed
    ensures (StepFold(sp, mails, w, s).status == Completed) == LastReportSucceeds(mails, w, s)
    ensures StepFold(sp, mails, w, s).stepID == sp.stepID
  {
    if mails != [] { CompletedIff(sp, mails[..|mails| - 1], w, s); }
  }

  // ---------- target keys ----------

  datatype Key = Key(id: string, waveID: string, stepID: string)

  function KeysOf(ts: seq<Target>): seq<Key> {
    if ts == [] then [] else
    var n := |ts| - 1;
    KeysOf(ts[..n]) + [Key(ts[n].id, ts[n].waveID, ts[n].stepID)]
  }

  lemma {:induction false} KeysConcat(a: seq<Target>, b: seq<Target>)
    ensures KeysOf(a + b) == KeysOf(a) + KeysOf(b)
  {
    if b == [] {
      ConcatEmpty(a);
      ConcatEmpty(KeysOf(a));
    } else {
      var n := |b| - 1;
      KeysConcat(a, b[..n]);
      FrontOfConcat(a, b);
      ConcatAssoc(KeysOf(a), KeysOf(b[..n]), [Key(b[n].id, b[n].waveID, b[n].stepID)]);
    }
  }

  lemma FrontOfConcat(a: seq<Target>, b: seq<Target>)
    requires b != []
    ensures var n := |a + b| - 1; (a + b)[..n] == a + b[..|b| - 1] && (a + b)[n] == b[|b| - 1]
  {
  }

  /** Whether a step is open, in the event model or in the mail model. */
  predicate Open(mails: seq<DMail>, w: string, s: string, fromEvents: bool) {
    if fromEvents then !SucceededAfterSpec(mails, w, s) else !LastReportSucceeds(mails, w, s)
  }

  function OpenSteps(mails: seq<DMail>, w: string, order: seq<string>, fromEvents: bool): seq<Key> {
    if order == [] then [] else
    var n := |order| - 1;
    OpenSteps(mails, w, order[..n], fromEvents)
    + (if Open(mails, w, order[n], fromEvents) then [Key(TargetID(w, order[n]), w, order[n])] else [])
  }

  function OpenKeys(mails: seq<DMail>, order: seq<string>, fromEvents: bool): seq<Key> {
    if order == [] then [] else
    var n := |order| - 1;
    OpenKeys(mails, order[..n], fromEvents) + OpenSteps(mails, order[n], StepsOf(mails, order[n]), fromEvents)
  }

  lemma KeysOfOne(t: Target)
    ensures KeysOf([t]) == [Key(t.id, t.waveID, t.stepID)] && KeysOf([]) == []
  {
    assert [t][..0] == [];
  }

  lemma {:induction false} EventSteps(b: StepBoard, mails: seq<DMail>, w: string, order: seq<string>)
    requires w in b.waves && EntryIs(b.waves[w], mails, w)
    requires forall i :: 0 <= i < |order| ==> order[i] in b.waves[w].steps
    ensures KeysOf(TargetsOfSteps(b, w, order)) == OpenSteps(mails, w, order, true)
  {
    if order != [] {
      var n := |order| - 1;
      EventSteps(b, mails, w, order[..n]);
      assert order[n] in b.waves[w].steps;
      var t := Target(TargetID(w, order[n]), w, order[n], TitleOf(b.titles, w + ":" + order[n]), "", "");
      KeysOfOne(t);
      KeysConcat(TargetsOfSteps(b, w, order[..n]), if IsPending(b, w, order[n]) then [t] else []);
    }
  }

  lemma EventWave(b: StepBoard, mails: seq<DMail>, w: string)
    requires w in b.waves && EntryIs(b.waves[w], mails, w)
    ensures KeysOf(TargetsOfSteps(b, w, b.waves[w].order)) == OpenSteps(mails, w, StepsOf(mails, w), true)
  {
    var order := b.waves[w].order;
    forall i | 0 <= i < |order| ensures order[i] in b.waves[w].steps {
      assert order[i] in order;
    }
    EventSteps(b, mails, w, order);
  }

  /** The targets of one wave are its open steps. */
  ghost predicate WaveKeys(b: StepBoard, mails: seq<DMail>, w: string) {
    w in b.waves && KeysOf(TargetsOfSteps(b, w, b.waves[w].order)) == OpenSteps(mails, w, StepsOf(mails, w), true)
  }

  lemma {:induction false} EventKeys(b: StepBoard, mails: seq<DMail>, order: seq<string>)
    requires forall i :: 0 <= i < |order| ==> WaveKeys(b, mails, order[i])
    ensures KeysOf(TargetsOf(b, order)) == OpenKeys(mails, order, true)
  {
    if order != [] {
      var n := |order| - 1;
      EventKeys(b, mails, order[..n]);
      assert WaveKeys(b, mails, order[n]);
      KeysConcat(TargetsOf(b, order[..n]), TargetsOfSteps(b, order[n], b.waves[order[n]].order));
    }
  }

  lemma BoardKeys(b: StepBoard, mails: seq<DMail>)
    requires BoardIs(b, mails) && forall i :: 0 <= i < |b.order| ==> b.order[i] in b.waves
    ensures KeysOf(TargetsOf(b, b.order)) == OpenKeys(mails, b.order, true)
  {
    forall i | 0 <= i < |b.order| ensures WaveKeys(b, mails, b.order[i]) {
      EventWave(b, mails, b.order[i]);
    }
    EventKeys(b, mails, b.order);
  }

  /** The pending steps of a wave view are its open steps. */
  lemma {:induction false} MailSteps(mails: seq<DMail>, v: WaveProgress, e: Entry, order: seq<string>)
    requires forall s :: s in e.steps ==> e.steps[s].status == Pending && e.steps[s].stepID == s
    requires forall i :: 0 <= i < |order| ==> order[i] in e.steps
    ensures KeysOf(StepTargets(v, PendingSteps(StepViews(mails, v.waveID, e.steps, order))))
         == OpenSteps(mails, v.waveID, order, false)
  {
    if order != [] {
      var n := |order| - 1;
      MailSteps(mails, v, e, order[..n]);
      MailStep(mails, v, StepViews(mails, v.waveID, e.steps, order[..n]), e.steps[order[n]]);
    }
  }

  lemma MailStep(mails: seq<DMail>, v: WaveProgress, views: seq<StepProgress>, sp: StepProgress)
    requires sp.status == Pending
    ensures KeysOf(StepTargets(v, PendingSteps(views + [StepFold(sp, mails, v.waveID, sp.stepID)])))
         == KeysOf(StepTargets(v, PendingSteps(views)))
            + (if Open(mails, v.waveID, sp.stepID, false) then [Key(TargetID(v.waveID, sp.stepID), v.waveID, sp.stepID)] else [])
  {
    CompletedIff(sp, mails, v.waveID, sp.stepID);
    OneMoreStep(v, views, StepFold(sp, mails, v.waveID, sp.stepID));
  }

  lemma OneMoreStep(v: WaveProgress, views: seq<StepProgress>, sp: StepProgress)
    ensures KeysOf(StepTargets(v, PendingSteps(views + [sp]))) == KeysOf(StepTargets(v, PendingSteps(views)))
            + (if sp.status != Completed then [Key(TargetID(v.waveID, sp.stepID), v.waveID, sp.stepID)] else [])
  {
    PendingSnoc(views, sp);
    var pending := PendingSteps(views);
    var t := Target(TargetID(v.waveID, sp.stepID), v.waveID, sp.stepID, sp.title, v.title, sp.acceptance);
    KeysOfOne(t);
    if sp.status != Completed {
      TargetsSnoc(v, pending, sp);
      KeysConcat(StepTargets(v, pending), [t]);
    } else {
      assert pending + [] == pending;
    }
  }

  lemma PendingSnoc(steps: seq<StepProgress>, sp: StepProgress)
    ensures PendingSteps(steps + [sp]) == PendingSteps(steps) + (if sp.status != Completed then [sp] else [])
  {
    assert (steps + [sp])[..|steps|] == steps;
  }

  lemma TargetsSnoc(v: WaveProgress, steps: seq<StepProgress>, sp: StepProgress)
    ensures StepTargets(v, steps + [sp]) == StepTargets(v, steps)
            + [Target(TargetID(v.waveID, sp.stepID), v.waveID, sp.stepID, sp.title, v.title, sp.acceptance)]
  {
    assert (steps + [sp])[..|steps|] == steps;
  }

  lemma {:induction false} FreshSteps(steps: seq<StepDef>)
    ensures forall s :: s in Steps(steps) ==> Steps(steps)[s].status == Pending && Steps(steps)[s].stepID == s
  {
    if steps != [] { FreshSteps(steps[..|steps| - 1]); }
  }

  lemma FreshEntry(dm: DMail)
    requires HasWave(dm)
    ensures var e := NewEntry(dm); forall s :: s in e.steps ==> e.steps[s].status == Pending && e.steps[s].stepID == s
  {
    FreshSteps(dm.wave.value.steps);
  }

  lemma {:induction false} MailKeys(mails: seq<DMail>, order: seq<string>)
    requires forall i :: 0 <= i < |order| ==> FirstSpec(mails, order[i]).Some?
    ensures KeysOf(WaveTargets(WaveViews(mails, order))) == OpenKeys(mails, order, false)
  {
    if order != [] {
      var n := |order| - 1;
      MailKeys(mails, order[..n]);
      FirstSpecIsSpec(mails, order[n]);
      MailWave(mails, WaveViews(mails, order[..n]), order[n]);
      LastView(mails, order);
    }
  }

  lemma LastView(mails: seq<DMail>, order: seq<string>)
    requires order != [] && FirstSpec(mails, order[|order| - 1]).Some? && HasWave(FirstSpec(mails, order[|order| - 1]).value)
    ensures var n := |order| - 1;
            WaveViews(mails, order) == WaveViews(mails, order[..n]) + [WaveView(mails, order[n], NewEntry(FirstSpec(mails, order[n]).value))]
  {
  }

  lemma MailWave(mails: seq<DMail>, views: seq<WaveProgress>, w: string)
    requires FirstSpec(mails, w).Some? && HasWave(FirstSpec(mails, w).value)
    ensures KeysOf(WaveTargets(views + [WaveView(mails, w, NewEntry(FirstSpec(mails, w).value))]))
         == KeysOf(WaveTargets(views)) + OpenSteps(mails, w, StepsOf(mails, w), false)
  {
    var dm := FirstSpec(mails, w).value;
    var e := NewEntry(dm);
    FreshEntry(dm);
    EntryOrder(dm);
    var v := WaveView(mails, w, e);
    MailSteps(mails, v, e, e.order);
    WavesSnoc(views, v);
    KeysConcat(WaveTargets(views), StepTargets(v, PendingSteps(v.steps)));
  }

  lemma WavesSnoc(views: seq<WaveProgress>, v: WaveProgress)
    ensures WaveTargets(views + [v]) == WaveTargets(views) + StepTargets(v, PendingSteps(v.steps))
  {
    assert (views + [v])[..|views|] == views;
  }

  // ---------- agreement ----------

  lemma {:induction false} OpenStepsMembers(mails: seq<DMail>, w: string, order: seq<string>, fromEvents: bool)
    ensures forall k :: k in OpenSteps(mails, w, order, fromEvents) <==>
      k.waveID == w && k.stepID in order && Open(mails, w, k.stepID, fromEvents) && k.id == TargetID(w, k.stepID)
  {
    if order != [] {
      OpenStepsMembers(mails, w, order[..|order| - 1], fromEvents);
      assert order == order[..|order| - 1] + [order[|order| - 1]];
    }
  }

  lemma {:induction false} OpenKeysMembers(mails: seq<DMail>, order: seq<string>, fromEvents: bool)
    ensures forall k :: k in OpenKeys(mails, order, fromEvents) <==>
      k.waveID in order && k.stepID in StepsOf(mails, k.waveID)
      && Open(mails, k.waveID, k.stepID, fromEvents) && k.id == TargetID(k.waveID, k.stepID)
  {
    if order != [] {
      var n := |order| - 1;
      OpenKeysMembers(mails, order[..n], fromEvents);
      OpenStepsMembers(mails, order[n], StepsOf(mails, order[n]), fromEvents);
      assert order == order[..n] + [order[n]];
    }
  }

  ghost predicate Agrees(mails: seq<DMail>, w: string, s: string) {
    SucceededAfterSpec(mails, w, s) == LastReportSucceeds(mails, w, s)
  }

  lemma {:induction false} SameOpenSteps(mails: seq<DMail>, w: string, order: seq<string>)
    requires forall s :: s in order ==> Agrees(mails, w, s)
    ensures OpenSteps(mails, w, order, true) == OpenSteps(mails, w, order, false)
  {
    if order != [] {
      assert Agrees(mails, w, order[|order| - 1]);
      SameOpenSteps(mails, w, order[..|order| - 1]);
    }
  }

  lemma {:induction false} SameOpenKeys(mails: seq<DMail>, order: seq<string>)
    requires forall w, s :: w in order && s in StepsOf(mails, w) ==> Agrees(mails, w, s)
    ensures OpenKeys(mails, order, true) == OpenKeys(mails, order, false)
  {
    if order != [] {
      var n := |order| - 1;
      SameOpenKeys(mails, order[..n]);
      SameOpenSteps(mails, order[n], StepsOf(mails, order[n]));
    }
  }

  lemma OpenKeysAgreeIff(mails: seq<DMail>, order: seq<string>)
    ensures OpenKeys(mails, order, true) == OpenKeys(mails, order, false)
       <==> forall w, s :: w in order && s in StepsOf(mails, w) ==> Agrees(mails, w, s)
  {
    if OpenKeys(mails, order, true) == OpenKeys(mails, order, false) {
      OpenKeysMembers(mails, order, true);
      OpenKeysMembers(mails, order, false);
      forall w, s | w in order && s in StepsOf(mails, w) ensures Agrees(mails, w, s) {
        var k := Key(TargetID(w, s), w, s);
        assert k in OpenKeys(mails, order, true) <==> k in OpenKeys(mails, order, false);
      }
    } else {
      if forall w, s :: w in order && s in StepsOf(mails, w) ==> Agrees(mails, w, s) {
        SameOpenKeys(mails, order);
      }
    }
  }

  /** What the event read model hands out for the history of the mails. */
  function EventTargets(mails: seq<DMail>): seq<Target> {
    var b := ProjectEvents(Translate(mails));
    TargetsOf(b, b.order)
  }

  /** The two read models hand out the same targets, in the same order, exactly when for every step of
      a specified wave "some success after the specification" and "the last report is a success" agree. */
  lemma ModelsAgreeIff(mails: seq<DMail>)
    ensures KeysOf(EventTargets(mails)) == KeysOf(WaveTargets(Summary(mails)))
       <==> forall w, s :: w in SpecOrder(mails) && s in StepsOf(mails, w) ==> Agrees(mails, w, s)
  {
    var b := ProjectEvents(Translate(mails));
    EventModelIs(mails);
    RegisteredWaves(mails);
    BoardKeys(b, mails);
    MailKeys(mails, SpecOrder(mails));
    OpenKeysAgreeIff(mails, SpecOrder(mails));
  }

  /** Specifications come first and no failure follows a success of the same step. */
  ghost predicate WellOrdered(mails: seq<DMail>) {
    && (forall i, j :: 0 <= i < j < |mails| && mails[i].kind == "report" ==> !IsSpec(mails[j]))
    && (forall i, j, w, s :: 0 <= i < j < |mails| && IsReport(mails[i], w, s) && IsReport(mails[j], w, s) ==>
          (LowSeverity(mails[i]) ==> LowSeverity(mails[j])))
  }

  /** In particular they agree on well-ordered histories. */
  lemma WellOrderedModelsAgree(mails: seq<DMail>)
    requires WellOrdered(mails)
    ensures KeysOf(EventTargets(mails)) == KeysOf(WaveTargets(Summary(mails)))
  {
    forall w, s | w in SpecOrder(mails) && s in StepsOf(mails, w) ensures Agrees(mails, w, s) {
      WellOrderedAgrees(mails, w, s);
    }
    ModelsAgreeIff(mails);
  }

  lemma {:induction false} WellOrderedAgrees(mails: seq<DMail>, w: string, s: string)
    requires WellOrdered(mails) && FirstSpec(mails, w).Some?
    ensures Agrees(mails, w, s)
  {
    var n := |mails| - 1;
    var prev := mails[..n];
    if FirstSpec(prev, w).Some? {
      WellOrderedAgrees(prev, w, s);
      if SucceededAfterSpec(prev, w, s) && IsReport(mails[n], w, s) {
        var i := SuccessWitness(prev, w, s);
        assert prev[i] == mails[i];
      }
    } else {
      // the last mail is the first specification, so there is no report yet
      assert IsSpec(mails[n]);
      NoSuccessBeforeSpec(prev);
      NoReports(prev, w, s);
    }
  }

  lemma {:induction false} SuccessWitness(mails: seq<DMail>, w: string, s: string) returns (i: nat)
    requires SucceededAfterSpec(mails, w, s)
    ensures i < |mails| && IsReport(mails[i], w, s) && LowSeverity(mails[i])
  {
    var n := |mails| - 1;
    if SucceededAfterSpec(mails[..n], w, s) { i := SuccessWitness(mails[..n], w, s); } else { i := n; }
  }

  lemma {:induction false} NoReports(mails: seq<DMail>, w: string, s: string)
    requires forall i :: 0 <= i < |mails| ==> mails[i].kind != "report"
    ensures !LastReportSucceeds(mails, w, s)
  {
    if mails != [] { NoReports(mails[..|mails| - 1], w, s); }
  }
}
