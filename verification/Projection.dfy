/**
  The expedition read model, its snapshots, and when a snapshot plus the tail of the event store gives
  the same state as replaying everything.
 */
module Projection {
  import opened Sequences
  import opened EventStore
  import opened Sorting
  import Recorder
  import opened Wrappers

  datatype ExpeditionState = ExpeditionState(
    totalExpeditions: int, succeeded: int, failed: int, skipped: int,
    lastExpedition: int, lastStatus: string, lastExpeditionAt: int, lastIssueID: string,
    consecutiveFailures: int, gommageCount: int, gradientLevel: int,
    dmailsStaged: int, dmailsFlushed: int, inboxReceived: int)

  const ZERO_STATE := ExpeditionState(0, 0, 0, 0, 0, "", ZERO_TIME, "", 0, 0, 0, 0, 0, 0)

  function ApplyCompleted(st: ExpeditionState, ev: Event): ExpeditionState
    requires ev.data.Fields?
  {
    var d := ev.data;
    var st := st.(totalExpeditions := st.totalExpeditions + 1, lastExpedition := d.expedition,
                  lastStatus := d.status, lastExpeditionAt := ev.timestamp,
                  lastIssueID := if d.issueID != "" then d.issueID else st.lastIssueID);
    if d.status == "success" then st.(succeeded := st.succeeded + 1, consecutiveFailures := 0)
    else if d.status == "failed" then st.(failed := st.failed + 1, consecutiveFailures := st.consecutiveFailures + 1)
    else if d.status == "skipped" then st.(skipped := st.skipped + 1)
    else st
  }

  /** Payloads that do not decode are skipped, and so are event types without a counter. */
  function ApplyEvent(st: ExpeditionState, ev: Event): ExpeditionState {
    match ev.etype
    case ExpeditionCompleted => if ev.data.Fields? then ApplyCompleted(st, ev) else st
    case GradientChanged => if ev.data.Fields? then st.(gradientLevel := ev.data.level) else st
    case DMailStaged => st.(dmailsStaged := st.dmailsStaged + 1)
    case DMailFlushed => if ev.data.Fields? then st.(dmailsFlushed := st.dmailsFlushed + ev.data.count) else st
    case InboxReceived => st.(inboxReceived := st.inboxReceived + 1)
    case GommageTriggered => st.(gommageCount := st.gommageCount + 1)
    case _ => st
  }

  function Replay(st: ExpeditionState, events: seq<Event>): ExpeditionState
    decreases |events|
  {
    if events == [] then st else Replay(ApplyEvent(st, events[0]), events[1..])
  }

  function ProjectState(events: seq<Event>): ExpeditionState { Replay(ZERO_STATE, events) }

  class ProjectionApplier {
    var state: ExpeditionState

    constructor ()
      ensures state == ZERO_STATE
    {
      state := ZERO_STATE;
    }

    method Apply(ev: Event)
      modifies this
      ensures state == ApplyEvent(old(state), ev)
    {
      state := ApplyEvent(state, ev);
    }

    /** Resets the state and replays the events. */
    method Rebuild(events: seq<Event>)
      modifies this
      ensures state == ProjectState(events)
    {
      state := ZERO_STATE;
      for i := 0 to |events|
        invariant Replay(state, events[i..]) == ProjectState(events)
      {
        assert events[i..][1..] == events[i + 1..];
        Apply(events[i]);
      }
    }

    method Serialize() returns (data: ExpeditionState)
      ensures data == state
    {
      data := state;
    }

    method Deserialize(data: ExpeditionState)
      modifies this
      ensures state == data
    {
      state := data;
    }
  }

  datatype Snapshot = Snapshot(seqNr: nat, state: ExpeditionState)

  /** usecase.Rebuild with nobody recording meanwhile: replay, read the watermark, save. Without a readable
      counter the watermark is zero; a snapshot that cannot be saved is only logged. */
  method RebuildAndSave(store: FileEventStore, counter: Recorder.SeqCounter, projector: ProjectionApplier,
                        loadOk: bool, counterOk: bool, saveOk: bool)
    returns (ok: bool, snapshot: Option<Snapshot>)
    requires store.Valid()
    modifies projector
    ensures ok == loadOk
    ensures projector.state == if loadOk then ProjectState(Loaded(store.log)) else old(projector.state)
    ensures snapshot == if !loadOk || !saveOk then None
                        else Some(Snapshot(if counterOk then Recorder.Latest(counter.next) else 0, ProjectState(Loaded(store.log))))
  {
    if !loadOk { return false, None; }
    var all := store.LoadAll();
    projector.Rebuild(all);
    var latest := 0;
    if counterOk { latest := counter.LatestSeqNr(); }
    var data := projector.Serialize();
    ok, snapshot := true, if saveOk then Some(Snapshot(latest, data)) else None;
  }

  /** Restoring: load the snapshot and apply the tail of the store. */
  method Restore(store: FileEventStore, snapshot: Snapshot, projector: ProjectionApplier)
    requires store.Valid()
    modifies projector
    ensures projector.state == Replay(snapshot.state, LoadedAfter(store.log, snapshot.seqNr))
  {
    projector.Deserialize(snapshot.state);
    var tail := store.LoadAfterSeqNr(snapshot.seqNr);
    for i := 0 to |tail|
      invariant Replay(projector.state, tail[i..]) == Replay(snapshot.state, tail)
    {
      assert tail[i..][1..] == tail[i + 1..];
      projector.Apply(tail[i]);
    }
  }

  // ---------- what the projection counts ----------

  function OfType(t: EventType): Event -> bool { (e: Event) => e.etype == t }

  function WithPayload(t: EventType): Event -> bool { (e: Event) => e.etype == t && e.data.Fields? }

  function Finished(status: string): Event -> bool {
    (e: Event) => e.etype == ExpeditionCompleted && e.data.Fields? && e.data.status == status
  }

  /** How many of the events satisfy p. */
  function Count(events: seq<Event>, p: Event -> bool): nat { |Filter(events, p)| }

  function TotalFlushed(events: seq<Event>): int {
    if events == [] then 0
    else (if events[0].etype.DMailFlushed? && events[0].data.Fields? then events[0].data.count else 0) + TotalFlushed(events[1..])
  }

  /** Each counter of the projection is the number of events of its kind, starting from a state. */
  lemma {:induction false} CountersFrom(st: ExpeditionState, events: seq<Event>)
    ensures var r := Replay(st, events);
      && r.totalExpeditions == st.totalExpeditions + Count(events, WithPayload(ExpeditionCompleted))
      && r.succeeded == st.succeeded + Count(events, Finished("success"))
      && r.failed == st.failed + Count(events, Finished("failed"))
      && r.skipped == st.skipped + Count(events, Finished("skipped"))
      && r.dmailsStaged == st.dmailsStaged + Count(events, OfType(DMailStaged))
      && r.dmailsFlushed == st.dmailsFlushed + TotalFlushed(events)
      && r.inboxReceived == st.inboxReceived + Count(events, OfType(InboxReceived))
      && r.gommageCount == st.gommageCount + Count(events, OfType(GommageTriggered))
    decreases |events|
  {
    if events != [] {
      CountersStep(st, events[0]);
      CountersFrom(ApplyEvent(st, events[0]), events[1..]);
      CountHead(events, WithPayload(ExpeditionCompleted));
      CountHead(events, Finished("success"));
      CountHead(events, Finished("failed"));
      CountHead(events, Finished("skipped"));
      CountHead(events, OfType(DMailStaged));
      CountHead(events, OfType(InboxReceived));
      CountHead(events, OfType(GommageTriggered));
    }
  }

  lemma CountHead(events: seq<Event>, p: Event -> bool)
    requires events != []
    ensures Count(events, p) == One(p(events[0])) + Count(events[1..], p)
  {
  }

  function One(b: bool): nat { if b then 1 else 0 }

  lemma CountersStep(st: ExpeditionState, e: Event)
    ensures var r := ApplyEvent(st, e);
      && r.totalExpeditions == st.totalExpeditions + One(WithPayload(ExpeditionCompleted)(e))
      && r.succeeded == st.succeeded + One(Finished("success")(e))
      && r.failed == st.failed + One(Finished("failed")(e))
      && r.skipped == st.skipped + One(Finished("skipped")(e))
      && r.dmailsStaged == st.dmailsStaged + One(OfType(DMailStaged)(e))
      && r.inboxReceived == st.inboxReceived + One(OfType(InboxReceived)(e))
      && r.gommageCount == st.gommageCount + One(OfType(GommageTriggered)(e))
      && r.dmailsFlushed == st.dmailsFlushed + (if e.etype.DMailFlushed? && e.data.Fields? then e.data.count else 0)
  {
  }

  /** The last event that satisfies p, at its position. */
  ghost predicate LastAt(events: seq<Event>, p: Event -> bool, i: int) {
    0 <= i < |events| && p(events[i]) && forall j :: i < j < |events| ==> !p(events[j])
  }

  lemma {:induction false} LatestCompletion(events: seq<Event>, i: nat)
    requires LastAt(events, WithPayload(ExpeditionCompleted), i)
    ensures var st, e := ProjectState(events), events[i];
            st.lastExpedition == e.data.expedition && st.lastStatus == e.data.status && st.lastExpeditionAt == e.timestamp
  {
    var n := |events| - 1;
    ReplayLast(events);
    if i < n { LatestCompletion(events[..n], i); }
  }

  lemma {:induction false} LatestLevel(events: seq<Event>, i: nat)
    requires LastAt(events, WithPayload(GradientChanged), i)
    ensures ProjectState(events).gradientLevel == events[i].data.level
  {
    var n := |events| - 1;
    ReplayLast(events);
    if i < n { LatestLevel(events[..n], i); }
  }

  lemma {:induction false} LatestIssue(events: seq<Event>, i: nat)
    requires LastAt(events, NamesIssue(), i)
    ensures ProjectState(events).lastIssueID == events[i].data.issueID
  {
    var n := |events| - 1;
    ReplayLast(events);
    if i < n { LatestIssue(events[..n], i); }
  }

  /** The remaining fields are those of the latest event that sets them. */
  lemma LatestFields(events: seq<Event>, i: nat)
    ensures var st := ProjectState(events);
      && (LastAt(events, WithPayload(ExpeditionCompleted), i) ==>
            st.lastExpedition == events[i].data.expedition && st.lastStatus == events[i].data.status
            && st.lastExpeditionAt == events[i].timestamp)
      && (LastAt(events, WithPayload(GradientChanged), i) ==> st.gradientLevel == events[i].data.level)
      && (LastAt(events, NamesIssue(), i) ==> st.lastIssueID == events[i].data.issueID)
  {
    if LastAt(events, WithPayload(ExpeditionCompleted), i) { LatestCompletion(events, i); }
    if LastAt(events, WithPayload(GradientChanged), i) { LatestLevel(events, i); }
    if LastAt(events, NamesIssue(), i) { LatestIssue(events, i); }
  }

  lemma ReplayLast(events: seq<Event>)
    requires events != []
    ensures var n := |events| - 1; ProjectState(events) == ApplyEvent(ProjectState(events[..n]), events[n])
  {
    var n := |events| - 1;
    assert events == events[..n] + [events[n]];
    ReplaySnoc(events[..n], events[n]);
  }

  function NamesIssue(): Event -> bool {
    (e: Event) => e.etype == ExpeditionCompleted && e.data.Fields? && e.data.issueID != ""
  }

  lemma ReplaySnoc(events: seq<Event>, e: Event)
    ensures ProjectState(events + [e]) == ApplyEvent(ProjectState(events), e)
  {
    ReplayConcat(ZERO_STATE, events, [e]);
    assert [e][1..] == [];
    assert Replay(ApplyEvent(ProjectState(events), e), []) == ApplyEvent(ProjectState(events), e);
  }

  /** The places of the events that satisfy p. */
  ghost function PlacesOf(events: seq<Event>, p: Event -> bool): set<int> { set i: int | 0 <= i < |events| && p(events[i]) }

  lemma PlacesSnoc(events: seq<Event>, e: Event, p: Event -> bool)
    ensures PlacesOf(events + [e], p) == if p(e) then PlacesOf(events, p) + {|events|} else PlacesOf(events, p)
  {
  }

  lemma {:induction false} CountIsSize(events: seq<Event>, p: Event -> bool)
    ensures Count(events, p) == |PlacesOf(events, p)|
    decreases |events|
  {
    if events != [] {
      var n := |events| - 1;
      CountIsSize(events[..n], p);
      assert events == events[..n] + [events[n]];
      FilterConcat(events[..n], [events[n]], p);
      PlacesSnoc(events[..n], events[n], p);
    }
  }

  /** The places of the events of one type. */
  ghost function Places(events: seq<Event>, t: EventType): set<int> { set i: int | 0 <= i < |events| && events[i].etype == t }

  /** The places of the finished expeditions, of those with one status, if given. */
  ghost function Expeditions(events: seq<Event>, status: Option<string>): set<int> {
    set i: int | 0 <= i < |events| && events[i].etype == ExpeditionCompleted && events[i].data.Fields?
                 && (status.Some? ==> events[i].data.status == status.value)
  }

  lemma PlacesCounted(events: seq<Event>, t: EventType)
    ensures Count(events, OfType(t)) == |Places(events, t)|
  {
    CountIsSize(events, OfType(t));
    assert Places(events, t) == PlacesOf(events, OfType(t));
  }

  lemma ExpeditionsCounted(events: seq<Event>, status: string)
    ensures Count(events, Finished(status)) == |Expeditions(events, Some(status))|
    ensures Count(events, WithPayload(ExpeditionCompleted)) == |Expeditions(events, None)|
  {
    CountIsSize(events, Finished(status));
    CountIsSize(events, WithPayload(ExpeditionCompleted));
    assert Expeditions(events, Some(status)) == PlacesOf(events, Finished(status));
    assert Expeditions(events, None) == PlacesOf(events, WithPayload(ExpeditionCompleted));
  }

  lemma {:induction false} NothingSet(events: seq<Event>)
    ensures var st := ProjectState(events);
      && (Expeditions(events, None) == {} ==> st.lastExpedition == 0 && st.lastStatus == "" && st.lastExpeditionAt == ZERO_TIME)
      && ((forall e :: e in events ==> !NamesIssue()(e)) ==> st.lastIssueID == "")
      && ((forall e :: e in events ==> !WithPayload(GradientChanged)(e)) ==> st.gradientLevel == 0)
  {
    if events != [] {
      var n := |events| - 1;
      NothingSet(events[..n]);
      ReplayLast(events);
      assert events[n] in events;
      if Expeditions(events, None) == {} {
        assert n !in Expeditions(events, None);
        assert Expeditions(events[..n], None) <= Expeditions(events, None);
      }
    }
  }

  /** What a projection from nothing says: each counter is the number of its events, and a field without an
      event that sets it has its zero value. */
  lemma ProjectionMeans(events: seq<Event>)
    ensures var st := ProjectState(events);
      && st.totalExpeditions == |Expeditions(events, None)|
      && st.succeeded == |Expeditions(events, Some("success"))|
      && st.failed == |Expeditions(events, Some("failed"))|
      && st.skipped == |Expeditions(events, Some("skipped"))|
      && st.dmailsStaged == |Places(events, DMailStaged)|
      && st.inboxReceived == |Places(events, InboxReceived)|
      && st.gommageCount == |Places(events, GommageTriggered)|
      && st.dmailsFlushed == TotalFlushed(events)
      && (Expeditions(events, None) == {} ==> st.lastExpedition == 0 && st.lastStatus == "" && st.lastExpeditionAt == ZERO_TIME)
      && ((forall e :: e in events ==> !NamesIssue()(e)) ==> st.lastIssueID == "")
      && ((forall e :: e in events ==> !WithPayload(GradientChanged)(e)) ==> st.gradientLevel == 0)
  {
    CountersFrom(ZERO_STATE, events);
    ExpeditionsCounted(events, "success");
    ExpeditionsCounted(events, "failed");
    ExpeditionsCounted(events, "skipped");
    PlacesCounted(events, DMailStaged);
    PlacesCounted(events, InboxReceived);
    PlacesCounted(events, GommageTriggered);
    NothingSet(events);
  }

  // ---------- when snapshot plus tail is the whole log ----------

  lemma {:induction false} ReplayConcat(st: ExpeditionState, a: seq<Event>, b: seq<Event>)
    ensures Replay(st, a + b) == Replay(Replay(st, a), b)
    decreases |a|
  {
    if a == [] {
      assert a + b == b;
    } else {
      ReplayConcat(ApplyEvent(st, a[0]), a[1..], b);
      assert (a + b)[1..] == a[1..] + b;
    }
  }

  /** Everything stored before the snapshot is at or below the watermark and everything stored after it
      is above; no later event is older than an earlier one; and reading the later events by time is
      reading them by number. */
  ghost predicate CleanCut(before: seq<Event>, after: seq<Event>, w: nat) {
    && (forall e :: e in before ==> e.seqNr <= w)
    && (forall e :: e in after ==> e.seqNr > w)
    && (forall x, y :: x in before && y in after ==> x.timestamp <= y.timestamp)
    && SortedBy(Loaded(after), BY_SEQ)
  }

  /** The tail of the store is exactly the later events, in the order of a full replay. */
  lemma TailIsAfter(before: seq<Event>, after: seq<Event>, w: nat)
    requires forall e :: e in before ==> e.seqNr <= w
    requires forall e :: e in after ==> e.seqNr > w
    ensures LoadedAfter(before + after, w) == StableSort(Loaded(after), BY_SEQ)
  {
    var p := AfterSeq(w);
    FilterSort(before + after, p, BY_TIME);
    FilterConcat(before, after, p);
    FilterNone(before, p);
    FilterAll(after, p);
    assert [] + after == after;
  }

  lemma CleanCutSuffices(before: seq<Event>, after: seq<Event>, w: nat)
    requires CleanCut(before, after, w)
    ensures Loaded(before) + LoadedAfter(before + after, w) == Loaded(before + after)
  {
    TailIsAfter(before, after, w);
    SortOfSorted(Loaded(after), BY_SEQ);
    SortConcat(before, after, BY_TIME);
  }

  lemma TailMultiset(before: seq<Event>, after: seq<Event>, w: nat)
    ensures multiset(LoadedAfter(before + after, w))
         == multiset(Filter(before, AfterSeq(w))) + multiset(Filter(after, AfterSeq(w)))
  {
    var fb, fa := Filter(before, AfterSeq(w)), Filter(after, AfterSeq(w));
    FilterSort(before + after, AfterSeq(w), BY_TIME);
    FilterConcat(before, after, AfterSeq(w));
    SortKeepsMultiset(fb + fa, BY_TIME);
    SortKeepsMultiset(StableSort(fb + fa, BY_TIME), BY_SEQ);
  }

  lemma RestMultiset(before: seq<Event>, after: seq<Event>, tail: seq<Event>)
    requires Loaded(before) + tail == Loaded(before + after)
    ensures multiset(tail) == multiset(after)
  {
    SortKeepsMultiset(before, BY_TIME);
    SortKeepsMultiset(before + after, BY_TIME);
    CancelLeft(multiset(before), multiset(tail), multiset(after));
  }

  lemma CancelLeft(a: multiset<Event>, b: multiset<Event>, c: multiset<Event>)
    requires a + b == a + c
    ensures b == c
  {
    forall e ensures b[e] == c[e] {
      assert (a + b)[e] == a[e] + b[e] && (a + c)[e] == a[e] + c[e];
    }
  }

  /** If the snapshot's events and the tail together are the whole log, then nothing stored before is
      above the watermark and nothing stored after is at or below it. */
  lemma ExactReplaySplits(before: seq<Event>, after: seq<Event>, w: nat)
    requires Loaded(before) + LoadedAfter(before + after, w) == Loaded(before + after)
    ensures forall e :: e in before ==> e.seqNr <= w
    ensures forall e :: e in after ==> e.seqNr > w
  {
    TailMultiset(before, after, w);
    RestMultiset(before, after, LoadedAfter(before + after, w));
    forall e ensures (e in before ==> e.seqNr <= w) && (e in after ==> e.seqNr > w) {
      KeptOnlyAfter(before, after, AfterSeq(w), e);
    }
  }

  lemma KeptOnlyAfter(before: seq<Event>, after: seq<Event>, p: Event -> bool, e: Event)
    requires multiset(Filter(before, p)) + multiset(Filter(after, p)) == multiset(after)
    ensures e in before ==> !p(e)
    ensures e in after ==> p(e)
  {
    FilterCounts(before, p, e);
    FilterCounts(after, p, e);
    var total := multiset(Filter(before, p)) + multiset(Filter(after, p));
    assert total[e] == multiset(Filter(before, p))[e] + multiset(Filter(after, p))[e];
    assert (e in before <==> multiset(before)[e] > 0) && (e in after <==> multiset(after)[e] > 0);
  }

  /** A filter keeps every occurrence of what it keeps and nothing else. */
  lemma {:induction false} FilterCounts(s: seq<Event>, p: Event -> bool, e: Event)
    ensures multiset(Filter(s, p))[e] == if p(e) then multiset(s)[e] else 0
  {
    if s != [] {
      FilterCounts(s[1..], p, e);
      assert s == [s[0]] + s[1..];
    }
  }

  lemma ExactReplayOrders(before: seq<Event>, after: seq<Event>, w: nat)
    requires Loaded(before) + LoadedAfter(before + after, w) == Loaded(before + after)
    ensures CleanCut(before, after, w)
  {
    ExactReplaySplits(before, after, w);
    TailIsAfter(before, after, w);
    var b, tail, all := Loaded(before), LoadedAfter(before + after, w), Loaded(before + after);
    SortMembers(before, BY_TIME);
    SortMembers(after, BY_TIME);
    SortMembers(Loaded(after), BY_SEQ);
    SortIsSorted(before + after, BY_TIME);
    FrontIsEarlier(b, tail);
    assert forall x, y :: x in before && y in after ==> x in b && y in tail;
    SortConcat(before, after, BY_TIME);
    assert tail == all[|b|..] == Loaded(after);
    SortIsSorted(Loaded(after), BY_SEQ);
  }

  lemma FrontIsEarlier(b: seq<Event>, tail: seq<Event>)
    requires SortedBy(b + tail, BY_TIME)
    ensures forall x, y :: x in b && y in tail ==> x.timestamp <= y.timestamp
  {
    forall x, y | x in b && y in tail ensures x.timestamp <= y.timestamp {
      var i :| 0 <= i < |b| && b[i] == x;
      var j :| 0 <= j < |tail| && tail[j] == y;
      assert (b + tail)[i] == x && (b + tail)[|b| + j] == y;
    }
  }

  /** Replaying the snapshot's events and then the tail is replaying the whole log exactly when the cut
      is clean. */
  lemma ReplayIsExactIff(before: seq<Event>, after: seq<Event>, w: nat)
    ensures Loaded(before) + LoadedAfter(before + after, w) == Loaded(before + after) <==> CleanCut(before, after, w)
  {
    if CleanCut(before, after, w) {
      CleanCutSuffices(before, after, w);
    }
    if Loaded(before) + LoadedAfter(before + after, w) == Loaded(before + after) {
      ExactReplayOrders(before, after, w);
    }
  }

  // ---------- snapshots of a recording system ----------

  /** Everything stored since `base`, and everything still in hand, is numbered n or later. */
  ghost predicate NumberedFrom(s: Recorder.State, base: seq<Event>, n: nat) {
    && base <= s.log && n <= s.next
    && (forall i :: |base| <= i < |s.log| ==> s.log[i].seqNr >= n)
    && (forall sid :: sid in s.recs && s.recs[sid].pending.Some? ==> s.recs[sid].pending.value.seqNr >= n)
  }

  lemma {:induction false} LaterNumbers(s: Recorder.State, acts: seq<Recorder.Action>, base: seq<Event>, n: nat)
    requires NumberedFrom(s, base, n)
    ensures NumberedFrom(Recorder.Run(s, acts), base, n)
    decreases |acts|
  {
    if acts != [] {
      NumbersStep(s, acts[0], base, n);
      LaterNumbers(Recorder.Step(s, acts[0]), acts[1..], base, n);
    }
  }

  lemma NumbersStep(s: Recorder.State, a: Recorder.Action, base: seq<Event>, n: nat)
    requires NumberedFrom(s, base, n)
    ensures NumberedFrom(Recorder.Step(s, a), base, n)
  {
  }

  /** A snapshot taken while no Record is under way, restored at any later time, gives the state of a
      full replay, provided that reading the log by time is reading it by number. */
  lemma SnapshotPlusTail(s0: Recorder.State, acts: seq<Recorder.Action>, later: seq<Recorder.Action>)
    requires Recorder.Initial(s0) && Recorder.AdmissibleRun(s0, acts)
    requires forall sid :: sid in Recorder.Run(s0, acts).recs ==> Recorder.Run(s0, acts).recs[sid].pending.None?
    requires SortedBy(Loaded(Recorder.Run(Recorder.Run(s0, acts), later).log), BY_SEQ)
    ensures var s1 := Recorder.Run(s0, acts);
            var log := Recorder.Run(s1, later).log;
            Replay(ProjectState(Loaded(s1.log)), LoadedAfter(log, Recorder.Latest(s1.next))) == ProjectState(Loaded(log))
  {
    var s1 := Recorder.Run(s0, acts);
    var log := Recorder.Run(s1, later).log;
    BoundedNumbers(s0, acts);
    LaterNumbers(s1, later, s1.log, s1.next);
    CutLog(s1, log);
    NumberedSnapshot(s1.log, log[|s1.log|..], s1.next);
  }

  lemma BoundedNumbers(s0: Recorder.State, acts: seq<Recorder.Action>)
    requires Recorder.Initial(s0) && Recorder.AdmissibleRun(s0, acts)
    ensures var s := Recorder.Run(s0, acts); s.next >= 1 && forall i :: 0 <= i < |s.log| ==> 1 <= s.log[i].seqNr < s.next
  {
    Recorder.NumbersAreUnique(s0, acts);
  }

  lemma CutLog(s: Recorder.State, log: seq<Event>)
    requires s.log <= log
    ensures log == s.log + log[|s.log|..]
  {
  }

  lemma NumberedSnapshot(before: seq<Event>, after: seq<Event>, n: nat)
    requires n >= 1 && SortedBy(Loaded(before + after), BY_SEQ)
    requires forall i :: 0 <= i < |before| ==> 1 <= before[i].seqNr < n
    requires forall i :: |before| <= i < |before + after| ==> (before + after)[i].seqNr >= n
    ensures Replay(ProjectState(Loaded(before)), LoadedAfter(before + after, Recorder.Latest(n)))
         == ProjectState(Loaded(before + after))
  {
    NumberedCut(before, after, n);
    CleanCutReplays(before, after, Recorder.Latest(n));
  }

  lemma NumberedCut(before: seq<Event>, after: seq<Event>, n: nat)
    requires n >= 1 && SortedBy(Loaded(before + after), BY_SEQ)
    requires forall i :: 0 <= i < |before| ==> 1 <= before[i].seqNr < n
    requires forall i :: |before| <= i < |before + after| ==> (before + after)[i].seqNr >= n
    ensures CleanCut(before, after, Recorder.Latest(n))
  {
    NumbersSplit(before, after, n);
    InNumberOrder(before, after, Recorder.Latest(n));
  }

  lemma CleanCutReplays(before: seq<Event>, after: seq<Event>, w: nat)
    ensures CleanCut(before, after, w) ==>
              Replay(ProjectState(Loaded(before)), LoadedAfter(before + after, w)) == ProjectState(Loaded(before + after))
  {
    if CleanCut(before, after, w) {
      CleanCutSuffices(before, after, w);
      ReplayConcat(ZERO_STATE, Loaded(before), LoadedAfter(before + after, w));
    }
  }

  lemma NumbersSplit(before: seq<Event>, after: seq<Event>, n: nat)
    requires forall i :: 0 <= i < |before| ==> 1 <= before[i].seqNr < n
    requires forall i :: |before| <= i < |before + after| ==> (before + after)[i].seqNr >= n
    ensures forall e :: e in before ==> e.seqNr <= n - 1
    ensures forall e :: e in after ==> e.seqNr > n - 1
  {
    forall i | 0 <= i < |after| ensures after[i].seqNr >= n {
      assert (before + after)[|before| + i] == after[i];
    }
  }

  /** If the whole log is in number order when read by time, a split by number is a clean cut. */
  lemma InNumberOrder(before: seq<Event>, after: seq<Event>, w: nat)
    requires forall e :: e in before ==> e.seqNr <= w
    requires forall e :: e in after ==> e.seqNr > w
    requires SortedBy(Loaded(before + after), BY_SEQ)
    ensures CleanCut(before, after, w)
  {
    forall x, y | x in before && y in after ensures x.timestamp <= y.timestamp {
      NumberedAreTimed(before + after, x, y);
    }
    SortConcat(before, after, BY_TIME);
    SortedBack(Loaded(before), Loaded(after), BY_SEQ);
  }

  lemma SortedBack(a: seq<Event>, b: seq<Event>, key: Event -> int)
    requires SortedBy(a + b, key)
    ensures SortedBy(b, key)
  {
    forall i, j | 0 <= i < j < |b| ensures key(b[i]) <= key(b[j]) {
      assert (a + b)[|a| + i] == b[i] && (a + b)[|a| + j] == b[j];
    }
  }

  lemma NumberedAreTimed(log: seq<Event>, x: Event, y: Event)
    requires SortedBy(Loaded(log), BY_SEQ) && x in log && y in log && x.seqNr < y.seqNr
    ensures x.timestamp <= y.timestamp
  {
    var all := Loaded(log);
    SortMembers(log, BY_TIME);
    SortIsSorted(log, BY_TIME);
    var i :| 0 <= i < |all| && all[i] == x;
    var j :| 0 <= j < |all| && all[j] == y;
    assert BY_SEQ(all[i]) < BY_SEQ(all[j]);
    assert i < j;
    assert BY_TIME(all[i]) <= BY_TIME(all[j]);
  }

  function NotAfterSeq(w: nat): Event -> bool { (e: Event) => !AfterSeq(w)(e) }

  lemma {:induction false} FilterSplits(s: seq<Event>, p: Event -> bool, w: nat)
    ensures |Filter(s, p)| == |Filter(Filter(s, AfterSeq(w)), p)| + |Filter(Filter(s, NotAfterSeq(w)), p)|
  {
    if s != [] {
      FilterSplits(s[1..], p, w);
      FilterHead(s, AfterSeq(w), p);
      FilterHead(s, NotAfterSeq(w), p);
      assert NotAfterSeq(w)(s[0]) <==> !AfterSeq(w)(s[0]);
    }
  }

  lemma FilterHead(s: seq<Event>, p: Event -> bool, q: Event -> bool)
    requires s != []
    ensures |Filter(Filter(s, p), q)| == (if p(s[0]) && q(s[0]) then 1 else 0) + |Filter(Filter(s[1..], p), q)|
  {
    FilterConcat(if p(s[0]) then [s[0]] else [], Filter(s[1..], p), q);
  }

  lemma LoadedLength(log: seq<Event>, p: Event -> bool)
    ensures |Filter(Loaded(log), p)| == |Filter(log, p)|
  {
    FilterSort(log, p, BY_TIME);
    SortMembers(Filter(log, p), BY_TIME);
  }

  lemma TailLength(before: seq<Event>, after: seq<Event>, p: Event -> bool, w: nat)
    ensures |Filter(LoadedAfter(before + after, w), p)|
         == |Filter(Filter(before, AfterSeq(w)), p)| + |Filter(Filter(after, AfterSeq(w)), p)|
  {
    var fb, fa := Filter(before, AfterSeq(w)), Filter(after, AfterSeq(w));
    FilterSort(before + after, AfterSeq(w), BY_TIME);
    FilterConcat(before, after, AfterSeq(w));
    FilterSort(Loaded(fb + fa), p, BY_SEQ);
    SortMembers(Filter(Loaded(fb + fa), p), BY_SEQ);
    LoadedLength(fb + fa, p);
    FilterConcat(fb, fa, p);
  }

  /** Of the events that satisfy p, the tail replays those numbered above the watermark. */
  lemma CountDrift(before: seq<Event>, after: seq<Event>, w: nat, p: Event -> bool)
    ensures Count(Loaded(before), p) + Count(LoadedAfter(before + after, w), p) + Count(Filter(after, NotAfterSeq(w)), p)
         == Count(Loaded(before + after), p) + Count(Filter(before, AfterSeq(w)), p)
  {
    TailLength(before, after, p, w);
    LoadedLength(before, p);
    LoadedLength(before + after, p);
    FilterConcat(before, after, p);
    FilterSplits(after, p, w);
  }

  lemma {:induction false} FlushedConcat(a: seq<Event>, b: seq<Event>)
    ensures TotalFlushed(a + b) == TotalFlushed(a) + TotalFlushed(b)
  {
    if a == [] {
      assert a + b == b;
    } else {
      FlushedConcat(a[1..], b);
      assert (a + b)[1..] == a[1..] + b;
    }
  }

  lemma FlushedCons(e: Event, s: seq<Event>)
    ensures TotalFlushed([e] + s) == TotalFlushed([e]) + TotalFlushed(s)
  {
    FlushedConcat([e], s);
  }

  lemma {:induction false} FlushedInsert(e: Event, s: seq<Event>, key: Event -> int)
    ensures TotalFlushed(Insert(e, s, key)) == TotalFlushed([e]) + TotalFlushed(s)
  {
    if s == [] || key(e) <= key(s[0]) {
      FlushedCons(e, s);
    } else {
      FlushedInsert(e, s[1..], key);
      FlushedCons(s[0], Insert(e, s[1..], key));
      FlushedCons(s[0], s[1..]);
      assert s == [s[0]] + s[1..];
    }
  }

  lemma {:induction false} FlushedSort(s: seq<Event>, key: Event -> int)
    ensures TotalFlushed(StableSort(s, key)) == TotalFlushed(s)
  {
    if s != [] {
      FlushedSort(s[1..], key);
      FlushedInsert(s[0], StableSort(s[1..], key), key);
      FlushedCons(s[0], s[1..]);
      assert s == [s[0]] + s[1..];
    }
  }

  lemma {:induction false} FlushedSplits(s: seq<Event>, w: nat)
    ensures TotalFlushed(s) == TotalFlushed(Filter(s, AfterSeq(w))) + TotalFlushed(Filter(s, NotAfterSeq(w)))
  {
    if s != [] {
      FlushedSplits(s[1..], w);
      FlushedHead(s, AfterSeq(w));
      FlushedHead(s, NotAfterSeq(w));
      FlushedCons(s[0], s[1..]);
      assert s == [s[0]] + s[1..];
      assert NotAfterSeq(w)(s[0]) <==> !AfterSeq(w)(s[0]);
    }
  }

  lemma FlushedHead(s: seq<Event>, p: Event -> bool)
    requires s != []
    ensures TotalFlushed(Filter(s, p)) == (if p(s[0]) then TotalFlushed([s[0]]) else 0) + TotalFlushed(Filter(s[1..], p))
  {
    FlushedConcat(if p(s[0]) then [s[0]] else [], Filter(s[1..], p));
  }

  lemma FlushedDrift(before: seq<Event>, after: seq<Event>, w: nat)
    ensures TotalFlushed(Loaded(before)) + TotalFlushed(LoadedAfter(before + after, w)) + TotalFlushed(Filter(after, NotAfterSeq(w)))
         == TotalFlushed(Loaded(before + after)) + TotalFlushed(Filter(before, AfterSeq(w)))
  {
    var fb, fa := Filter(before, AfterSeq(w)), Filter(after, AfterSeq(w));
    FlushedSort(before, BY_TIME);
    FlushedSort(before + after, BY_TIME);
    FlushedConcat(before, after);
    FlushedSplits(after, w);
    FilterSort(before + after, AfterSeq(w), BY_TIME);
    FilterConcat(before, after, AfterSeq(w));
    FlushedSort(fb + fa, BY_TIME);
    FlushedSort(Loaded(fb + fa), BY_SEQ);
    FlushedConcat(fb, fa);
  }

  /** What the counters of a state and of some more events have in common with another state. */
  ghost predicate CountersAdd(r: ExpeditionState, missed: seq<Event>, full: ExpeditionState, twice: seq<Event>) {
    && r.totalExpeditions + Count(missed, WithPayload(ExpeditionCompleted))
         == full.totalExpeditions + Count(twice, WithPayload(ExpeditionCompleted))
    && r.succeeded + Count(missed, Finished("success")) == full.succeeded + Count(twice, Finished("success"))
    && r.failed + Count(missed, Finished("failed")) == full.failed + Count(twice, Finished("failed"))
    && r.skipped + Count(missed, Finished("skipped")) == full.skipped + Count(twice, Finished("skipped"))
    && r.dmailsStaged + Count(missed, OfType(DMailStaged)) == full.dmailsStaged + Count(twice, OfType(DMailStaged))
    && r.inboxReceived + Count(missed, OfType(InboxReceived)) == full.inboxReceived + Count(twice, OfType(InboxReceived))
    && r.gommageCount + Count(missed, OfType(GommageTriggered)) == full.gommageCount + Count(twice, OfType(GommageTriggered))
    && r.dmailsFlushed + TotalFlushed(missed) == full.dmailsFlushed + TotalFlushed(twice)
  }

  /** For every log and every watermark, in every counter: events stored before the snapshot but numbered
      above the watermark are counted twice, events stored after it but numbered at or below are missed,
      and nothing else is miscounted. */
  lemma {:induction false} RestoreDrift(before: seq<Event>, after: seq<Event>, w: nat)
    ensures CountersAdd(Replay(ProjectState(Loaded(before)), LoadedAfter(before + after, w)), Filter(after, NotAfterSeq(w)),
                        ProjectState(Loaded(before + after)), Filter(before, AfterSeq(w)))
  {
    CountersFrom(ZERO_STATE, Loaded(before));
    CountersFrom(ZERO_STATE, Loaded(before + after));
    CountersFrom(ProjectState(Loaded(before)), LoadedAfter(before + after, w));
    CountDrift(before, after, w, WithPayload(ExpeditionCompleted));
    CountDrift(before, after, w, Finished("success"));
    CountDrift(before, after, w, Finished("failed"));
    CountDrift(before, after, w, Finished("skipped"));
    CountDrift(before, after, w, OfType(DMailStaged));
    CountDrift(before, after, w, OfType(InboxReceived));
    CountDrift(before, after, w, OfType(GommageTriggered));
    FlushedDrift(before, after, w);
  }

  /** Every counter that the event raises is too small. */
  ghost predicate CountersMiss(r: ExpeditionState, e: Event, full: ExpeditionState) {
    && (WithPayload(ExpeditionCompleted)(e) ==> r.totalExpeditions < full.totalExpeditions)
    && (Finished("success")(e) ==> r.succeeded < full.succeeded)
    && (Finished("failed")(e) ==> r.failed < full.failed)
    && (Finished("skipped")(e) ==> r.skipped < full.skipped)
    && (e.etype == DMailStaged ==> r.dmailsStaged < full.dmailsStaged)
    && (e.etype == InboxReceived ==> r.inboxReceived < full.inboxReceived)
    && (e.etype == GommageTriggered ==> r.gommageCount < full.gommageCount)
  }

  /** A Record that took its number before the watermark was read and is stored after the log was loaded
      is lost: whatever else is stored, each counter of its kind in the restored state is too small, and the
      counters fall short by exactly the events stored late. */
  lemma OverlappingRecordIsLost(before: seq<Event>, after: seq<Event>, e: Event, w: nat)
    requires e in after && e.seqNr <= w
    requires forall x :: x in before ==> x.seqNr <= w
    ensures var r, full := Replay(ProjectState(Loaded(before)), LoadedAfter(before + after, w)), ProjectState(Loaded(before + after));
            CountersAdd(r, Filter(after, NotAfterSeq(w)), full, []) && CountersMiss(r, e, full)
  {
    RestoreDrift(before, after, w);
    FilterNone(before, AfterSeq(w));
    FilterMembers(after, NotAfterSeq(w));
    MissShows(Replay(ProjectState(Loaded(before)), LoadedAfter(before + after, w)), Filter(after, NotAfterSeq(w)),
              ProjectState(Loaded(before + after)), e);
  }

  lemma MissShows(r: ExpeditionState, missed: seq<Event>, full: ExpeditionState, e: Event)
    requires CountersAdd(r, missed, full, []) && e in missed
    ensures CountersMiss(r, e, full)
  {
    MissedCounts(missed, e);
  }

  lemma MissedCounts(missed: seq<Event>, e: Event)
    requires e in missed
    ensures forall p: Event -> bool :: p(e) ==> Count(missed, p) > 0
    ensures forall p: Event -> bool :: Count([], p) == 0
  {
    forall p: Event -> bool | p(e) ensures Count(missed, p) > 0 {
      FilterMembers(missed, p);
      assert e in Filter(missed, p);
    }
  }

  /** Numbers that do not run against timestamps are not enough: of two events with one timestamp that
      were stored against number order, the snapshot's tail replays the one stored first last. */
  lemma TiedEventsSwap(e: Event, f: Event)
    requires e.etype == GradientChanged && f.etype == GradientChanged && e.data.Fields? && f.data.Fields?
    requires e.timestamp == f.timestamp && 1 <= f.seqNr < e.seqNr
    ensures ProjectState(Loaded([e] + [f])).gradientLevel == f.data.level
    ensures Replay(ProjectState(Loaded([])), LoadedAfter([] + ([e] + [f]), 0)).gradientLevel == e.data.level
  {
    TiedOrders(e, f);
    assert Loaded([]) == [];
    LastLevel(ZERO_STATE, e, f);
    LastLevel(ZERO_STATE, f, e);
  }

  /** The orders in which the two are read. */
  lemma TiedOrders(e: Event, f: Event)
    requires e.timestamp == f.timestamp && 1 <= f.seqNr < e.seqNr
    ensures Loaded([e] + [f]) == [e] + [f] && LoadedAfter([] + ([e] + [f]), 0) == [f] + [e]
  {
    var log := [e] + [f];
    SortOfSorted(log, BY_TIME);
    FilterAll(log, AfterSeq(0));
    ConcatEmpty(log);
    SwapBySeq(e, f);
  }

  lemma SwapBySeq(e: Event, f: Event)
    requires f.seqNr < e.seqNr
    ensures StableSort([e] + [f], BY_SEQ) == [f] + [e]
  {
    assert ([e] + [f])[1..] == [f] && [f][1..] == [];
    assert StableSort([f], BY_SEQ) == [f];
    assert Insert(e, [f], BY_SEQ) == [f] + Insert(e, [f][1..], BY_SEQ);
  }

  lemma LastLevel(st: ExpeditionState, e: Event, f: Event)
    requires f.etype == GradientChanged && f.data.Fields?
    ensures Replay(st, [e] + [f]).gradientLevel == f.data.level
  {
    assert ([e] + [f])[1..] == [f] && [f][1..] == [];
    assert Replay(ApplyEvent(st, e), [f]) == Replay(ApplyEvent(ApplyEvent(st, e), f), []);
  }
}
