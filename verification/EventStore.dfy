/**
  Domain events and the file event store: events are appended to one file per day and read back by
  concatenating the files and sorting stably by timestamp. The theorem is that the sharding cannot
  be seen: what is loaded depends on the append order alone.
 */
module EventStore {
  import opened Calendar
  import opened Sequences
  import opened Sorting

  datatype EventType =
    | ExpeditionStarted | ExpeditionCompleted | DMailStaged | DMailFlushed | DMailArchived
    | GradientChanged | GommageTriggered | GommageRecovery | ExpeditionCheckpoint | InboxReceived
    | RetryAttempted | Escalated | Resolved | SpecRegistered | SystemCutover
    | Unrecognized(name: string)

  datatype StepDef = StepDef(id: string, title: string, acceptance: string)

  /** The JSON payload: missing, not decodable into the struct of its event type, or the fields that the
      projections read (absent ones have zero values). */
  datatype Data = Empty | Undecodable
    | Fields(expedition: int, status: string, issueID: string, waveID: string, stepID: string,
             level: int, count: int, steps: seq<StepDef>)

  datatype Event = Event(schemaVersion: nat, id: string, etype: EventType, timestamp: int, data: Data,
                         sessionID: string, correlationID: string, causationID: string, seqNr: nat)

  const CURRENT_SCHEMA_VERSION := 1

  /** Go's zero time, 0001-01-01T00:00:00Z. */
  const ZERO_TIME := 366 * DAY_SECONDS * SECOND

  /** domain.ParseEvent accepts the event. */
  predicate ValidEvent(e: Event) {
    e.id != "" && !e.etype.Unrecognized? && e.timestamp != ZERO_TIME && e.data != Empty
    && e.schemaVersion <= CURRENT_SCHEMA_VERSION
  }

  const BY_TIME: Event -> int := (e: Event) => e.timestamp
  const BY_SEQ: Event -> int := (e: Event) => e.seqNr

  /** The day that names the file of an event. */
  function DayOf(timestamp: int): int { timestamp / SECOND / DAY_SECONDS }

  function OnDay(d: int): Event -> bool { (e: Event) => DayOf(e.timestamp) == d }

  /** The filter of loadEvents: the zero time keeps everything. */
  function Later(after: int): Event -> bool { (e: Event) => after == ZERO_TIME || e.timestamp > after }

  function AfterSeq(n: nat): Event -> bool { (e: Event) => e.seqNr > 0 && e.seqNr > n }

  type Files = map<int, seq<Event>>

  function Lookup(files: Files, d: int): seq<Event> { if d in files then files[d] else [] }

  /** The files hold exactly the log, split by day. */
  ghost predicate Sharded(files: Files, log: seq<Event>) {
    forall d :: Lookup(files, d) == Filter(log, OnDay(d))
  }

  /** What LoadAll returns for a log. */
  function Loaded(log: seq<Event>): seq<Event> { StableSort(log, BY_TIME) }

  /** What LoadAfterSeqNr returns for a log. */
  function LoadedAfter(log: seq<Event>, n: nat): seq<Event> {
    StableSort(Filter(Loaded(log), AfterSeq(n)), BY_SEQ)
  }

  /** What goes wrong in an append, if it comes to that: opening, encoding or writing after that many lines,
      or the sync or close of a file after that many files. */
  datatype Fault = NoFault | WriteFails(lines: nat) | SyncFails(files: nat)

  predicate WriteFailsAt(fault: Fault, written: nat) { fault.WriteFails? && fault.lines == written }

  predicate SyncFailsAt(fault: Fault, synced: nat) { fault.SyncFails? && fault.files == synced }

  predicate AllValid(events: seq<Event>) {
    forall i :: 0 <= i < |events| ==> ValidEvent(events[i])
  }

  /** The days of the events. */
  function Days(events: seq<Event>): set<int> { set e | e in events :: DayOf(e.timestamp) }

  /** The append runs into the fault. */
  predicate Hits(fault: Fault, events: seq<Event>) {
    match fault
    case NoFault => false
    case WriteFails(n) => n < |events|
    case SyncFails(n) => n < |Days(events)|
  }

  /** Of every day, the first lines are there. */
  ghost predicate DayPrefixes(kept: seq<Event>, events: seq<Event>) {
    forall d :: Filter(kept, OnDay(d)) <= Filter(events, OnDay(d))
  }

  ghost predicate SameDays(kept: seq<Event>, events: seq<Event>) {
    forall d :: Filter(kept, OnDay(d)) == Filter(events, OnDay(d))
  }

  /** What is left by a failing write: that many lines; by a failing sync: that many files and one more. */
  ghost predicate FaultShows(fault: Fault, kept: seq<Event>, events: seq<Event>) {
    && (fault.WriteFails? ==> |kept| == fault.lines)
    && (fault.SyncFails? ==>
          && |Days(kept)| == fault.files + 1
          && forall d :: d in Days(kept) ==> Filter(kept, OnDay(d)) == Filter(events, OnDay(d)))
  }

  /** How the writing ends. */
  ghost predicate Outcome(fault: Fault, ok: bool, kept: seq<Event>, events: seq<Event>) {
    && (ok <==> !Hits(fault, events)) && DayPrefixes(kept, events)
    && if ok then SameDays(kept, events) else FaultShows(fault, kept, events)
  }

  ghost predicate Appended(before: Files, after: Files, kept: seq<Event>) {
    forall d :: Lookup(after, d) == Lookup(before, d) + Filter(kept, OnDay(d))
  }

  /** The file of one day has these lines more. */
  ghost predicate Grown(before: Files, after: Files, d: int, lines: seq<Event>) {
    forall c :: Lookup(after, c) == Lookup(before, c) + if c == d then lines else []
  }

  class FileEventStore {
    var files: Files
    ghost var log: seq<Event>

    ghost predicate Valid()
      reads this
    {
      Sharded(files, log)
    }

    constructor ()
      ensures Valid() && log == []
    {
      files, log := map[], [];
    }

    /** All events are validated before any is written. The files are written day by day, in any order, so a
        failure leaves the days written so far and the first lines of the next one; if only a sync fails,
        everything written so far stays although the call reports an error. */
    method Append(events: seq<Event>, fault: Fault) returns (ok: bool, ghost kept: seq<Event>)
      requires Valid()
      modifies this
      ensures Valid() && log == old(log) + kept
      ensures ok <==> AllValid(events) && !Hits(fault, events)
      ensures var valid := forall e :: e in events ==>
          e.id != "" && !e.etype.Unrecognized? && e.timestamp != ZERO_TIME && e.data != Empty && e.schemaVersion <= 1;
        (ok ==> valid) && (fault == NoFault && valid ==> ok)
      ensures ok ==> kept == events
      ensures !AllValid(events) ==> kept == []
      ensures DayPrefixes(kept, events)
      ensures AllValid(events) && !ok ==> FaultShows(fault, kept, events)
    {
      for i := 0 to |events|
        invariant AllValid(events[..i])
      {
        assert AllValid(events) ==> ValidEvent(events[i]);
        if !ValidEvent(events[i]) { return false, []; }
        assert events[..i + 1] == events[..i] + [events[i]];
      }
      assert events[..|events|] == events;
      ok, kept := Write(events, fault);
    }

    /** The part of Append after the validation. */
    method Write(events: seq<Event>, fault: Fault) returns (ok: bool, ghost kept: seq<Event>)
      requires Valid()
      modifies this
      ensures Valid() && log == old(log) + kept && (ok ==> kept == events)
      ensures Outcome(fault, ok, kept, events)
    {
      var byDate := GroupByDate(events);
      GroupsOf(byDate, events);
      ghost var before := files;
      ok, kept := WriteGroups(byDate, fault, events);
      ghost var written := kept;
      if ok { kept := events; }
      AppendSharded(before, log, written, kept, files);
      log := log + kept;
    }

    static method GroupByDate(events: seq<Event>) returns (byDate: Files)
      ensures Sharded(byDate, events) && byDate.Keys == Days(events)
    {
      byDate := map[];
      for i := 0 to |events|
        invariant Sharded(byDate, events[..i]) && byDate.Keys == Days(events[..i])
      {
        var d := DayOf(events[i].timestamp);
        GroupOne(byDate, events, i);
        DaysSnoc(events, i);
        byDate := byDate[d := Lookup(byDate, d) + [events[i]]];
      }
      assert events[..|events|] == events;
    }

    /** Appends each group to the file of its day, visiting the days in any order. */
    method WriteGroups(byDate: Files, fault: Fault, ghost events: seq<Event>) returns (ok: bool, ghost kept: seq<Event>)
      requires byDate.Keys == Days(events) && forall d :: d in byDate ==> byDate[d] == Filter(events, OnDay(d))
      modifies this`files
      ensures Appended(old(files), files, kept) && Outcome(fault, ok, kept, events)
    {
      var todo, written, synced := byDate.Keys, 0, 0;
      kept := [];
      NothingWritten(files, fault, events);
      while todo != {}
        invariant Going(old(files), files, fault, kept, events, todo, written, synced)
        decreases todo
      {
        Inhabited(todo);
        var d :| d in todo;
        var stop;
        written, stop, kept := WriteGroup(d, byDate[d], fault, written, synced, old(files), kept, events, todo);
        if stop { return false, kept; }
        todo, synced := todo - {d}, synced + 1;
      }
      NotStopped(old(files), files, fault, kept, events, written, synced);
      ok := true;
    }

    /** Writes and syncs the file of one day, after `written` lines and `synced` files. */
    method WriteGroup(d: int, group: seq<Event>, fault: Fault, written: nat, synced: nat,
                      ghost before: Files, ghost kept: seq<Event>, ghost events: seq<Event>, ghost todo: set<int>)
      returns (written': nat, stop: bool, ghost kept': seq<Event>)
      requires d in todo && group == Filter(events, OnDay(d))
      requires Going(before, files, fault, kept, events, todo, written, synced)
      modifies this`files
      ensures if stop then Appended(before, files, kept') && Outcome(fault, false, kept', events)
              else Going(before, files, fault, kept', events, todo - {d}, written', synced + 1)
    {
      var m := WriteDay(d, group, fault, written);
      GroupStep(before, old(files), files, fault, kept, events, todo, written, synced, d, m, group);
      written', stop, kept' := written + m, m < |group| || SyncFailsAt(fault, synced), kept + group[..m];
    }

    /** Writes the lines of one day up to the failing one and returns how many were written. */
    method WriteDay(d: int, group: seq<Event>, fault: Fault, written: nat) returns (m: nat)
      requires fault.WriteFails? ==> written <= fault.lines
      modifies this`files
      ensures m == Reach(fault, written, |group|)
      ensures Grown(old(files), files, d, group[..m])
    {
      m := 0;
      while m < |group|
        invariant 0 <= m <= |group| && (fault.WriteFails? ==> written + m <= fault.lines)
        invariant Grown(old(files), files, d, group[..m])
      {
        if WriteFailsAt(fault, written + m) { return; }
        assert group[..m + 1] == group[..m] + [group[m]];
        OneMoreLine(old(files), files, d, group[..m], group[m]);
        files := files[d := Lookup(files, d) + [group[m]]];
        m := m + 1;
      }
    }

    /** Reads the files in any order and sorts stably by timestamp. */
    method LoadEvents(after: int) returns (r: seq<Event>)
      requires Valid()
      ensures r == StableSort(Filter(log, Later(after)), BY_TIME)
    {
      var events: seq<Event> := [];
      var todo := files.Keys;
      AbsentDays(files, log, after);
      while todo != {}
        invariant todo <= files.Keys
        invariant forall k :: WithKey(events, BY_TIME, k) ==
                              if DayOf(k) in todo then [] else WithKey(Filter(log, Later(after)), BY_TIME, k)
        decreases todo
      {
        Inhabited(todo);
        var d :| d in todo;
        assert Lookup(files, d) == Filter(log, OnDay(d));
        ReadDay(events, log, d, after, todo);
        events := events + Filter(files[d], Later(after));
        todo := todo - {d};
      }
      r := StableSort(events, BY_TIME);
      SameContentsSortAlike(events, Filter(log, Later(after)));
    }

    method LoadAll() returns (r: seq<Event>)
      requires Valid()
      ensures r == Loaded(log)
      ensures multiset(r) == multiset(log)
      ensures forall i, j :: 0 <= i < j < |r| ==> r[i].timestamp <= r[j].timestamp
    {
      SortKeepsMultiset(log, BY_TIME);
      SortIsSorted(log, BY_TIME);
      r := LoadEvents(ZERO_TIME);
      FilterAll(log, Later(ZERO_TIME));
    }

    /** For a nonzero time, the later part of what LoadAll returns. */
    method LoadSince(after: int) returns (r: seq<Event>)
      requires Valid()
      ensures r == Filter(Loaded(log), Later(after))
      ensures forall e :: e in r <==> e in log && (after == ZERO_TIME || e.timestamp > after)
    {
      r := LoadEvents(after);
      FilterSort(log, Later(after), BY_TIME);
      FilterMembers(Loaded(log), Later(after));
      SortMembers(log, BY_TIME);
    }

    method LoadAfterSeqNr(n: nat) returns (r: seq<Event>)
      requires Valid()
      ensures r == LoadedAfter(log, n)
      ensures forall e :: e in r <==> e in log && e.seqNr > n
      ensures forall i, j :: 0 <= i < j < |r| ==> r[i].seqNr <= r[j].seqNr
    {
      var all := LoadAll();
      var filtered: seq<Event> := [];
      for i := 0 to |all|
        invariant filtered == Filter(all[..i], AfterSeq(n))
      {
        FilterConcat(all[..i], [all[i]], AfterSeq(n));
        assert all[..i + 1] == all[..i] + [all[i]];
        if all[i].seqNr > 0 && all[i].seqNr > n {
          filtered := filtered + [all[i]];
        }
      }
      assert all[..|all|] == all;
      r := StableSort(filtered, BY_SEQ);
      FilterMembers(all, AfterSeq(n));
      SortMembers(log, BY_TIME);
      SortMembers(filtered, BY_SEQ);
      SortIsSorted(filtered, BY_SEQ);
    }

    method LatestSeqNr() returns (max: nat)
      requires Valid()
      ensures forall e :: e in log ==> e.seqNr <= max
      ensures max == 0 || exists e :: e in log && e.seqNr == max
    {
      var all := LoadAll();
      SortMembers(log, BY_TIME);
      max := 0;
      for i := 0 to |all|
        invariant forall j :: 0 <= j < i ==> all[j].seqNr <= max
        invariant max == 0 || exists j :: 0 <= j < i && all[j].seqNr == max
      {
        if all[i].seqNr > max { max := all[i].seqNr; }
      }
      forall e | e in log ensures e.seqNr <= max {
        assert e in all;
      }
      if max != 0 {
        var j :| 0 <= j < |all| && all[j].seqNr == max;
        assert all[j] in all;
      }
    }
  }

  // ---------- lemmas ----------

  lemma Inhabited(s: set<int>)
    ensures s == {} || exists d :: d in s
  {
    assert (forall d :: d !in s) ==> s == {};
  }

  lemma GroupOne(byDate: Files, events: seq<Event>, i: nat)
    requires i < |events| && Sharded(byDate, events[..i])
    ensures var d := DayOf(events[i].timestamp);
            Sharded(byDate[d := Lookup(byDate, d) + [events[i]]], events[..i + 1])
  {
    var d := DayOf(events[i].timestamp);
    var next := byDate[d := Lookup(byDate, d) + [events[i]]];
    assert events[..i + 1] == events[..i] + [events[i]];
    forall c ensures Lookup(next, c) == Filter(events[..i + 1], OnDay(c)) {
      FilterConcat(events[..i], [events[i]], OnDay(c));
      assert Lookup(byDate, c) == Filter(events[..i], OnDay(c));
    }
  }

  lemma AppendSharded(before: Files, log: seq<Event>, written: seq<Event>, kept: seq<Event>, files: Files)
    requires Sharded(before, log) && Appended(before, files, written) && SameDays(written, kept)
    ensures Sharded(files, log + kept)
  {
    forall d ensures Lookup(files, d) == Filter(log + kept, OnDay(d)) {
      FilterConcat(log, kept, OnDay(d));
    }
  }

  lemma OneMoreLine(before: Files, after: Files, d: int, lines: seq<Event>, e: Event)
    requires Grown(before, after, d, lines)
    ensures Grown(before, after[d := Lookup(after, d) + [e]], d, lines + [e])
  {
  }

  lemma AppendedDay(before: Files, mid: Files, after: Files, kept: seq<Event>, d: int, part: seq<Event>)
    requires Appended(before, mid, kept) && Grown(mid, after, d, part)
    requires forall c :: Filter(part, OnDay(c)) == if c == d then part else []
    ensures Appended(before, after, kept + part)
  {
    forall c ensures Lookup(after, c) == Lookup(before, c) + Filter(kept + part, OnDay(c)) {
      FilterConcat(kept, part, OnDay(c));
      ConcatAssoc(Lookup(before, c), Filter(kept, OnDay(c)), Filter(part, OnDay(c)));
    }
  }

  /** How many of the next lines are written. */
  function Reach(fault: Fault, written: nat, lines: nat): nat
    requires fault.WriteFails? ==> written <= fault.lines
  {
    if fault.WriteFails? && fault.lines < written + lines then fault.lines - written else lines
  }

  /** The counts of the loop over the days: `left` lines in `days` files are still to do. */
  predicate Counts(fault: Fault, written: nat, synced: nat, left: nat, days: nat, allLines: nat, allDays: nat) {
    && written + left == allLines && synced + days == allDays
    && (fault.WriteFails? ==> written <= fault.lines) && (fault.SyncFails? ==> synced <= fault.files)
  }

  /** One file of n lines, of which m are written. */
  lemma CountsStep(fault: Fault, written: nat, synced: nat, left: nat, days: nat, allLines: nat, allDays: nat, n: nat, m: nat)
    requires Counts(fault, written, synced, left + n, days + 1, allLines, allDays) && m == Reach(fault, written, n)
    ensures if m < n then fault.WriteFails? && fault.lines == written + m < allLines
            else if SyncFailsAt(fault, synced) then fault.files + 1 + days == allDays
            else Counts(fault, written + m, synced + 1, left, days, allLines, allDays)
  {
  }

  /** The loop over the days, with the days still to do. */
  ghost predicate Going(before: Files, files: Files, fault: Fault, kept: seq<Event>, events: seq<Event>, todo: set<int>,
                        written: nat, synced: nat)
  {
    && todo <= Days(events) && Written(kept, events, todo) && Appended(before, files, kept) && written == |kept|
    && Counts(fault, written, synced, |Filter(events, InDays(todo))|, |todo|, |events|, |Days(events)|)
  }

  /** One day: the first m of its lines are written. */
  lemma GroupCut(before: Files, mid: Files, after: Files, fault: Fault, kept: seq<Event>, events: seq<Event>, todo: set<int>,
                 written: nat, synced: nat, d: int, m: nat, group: seq<Event>)
    requires Going(before, mid, fault, kept, events, todo, written, synced) && d in todo
    requires group == Filter(events, OnDay(d)) && m == Reach(fault, written, |group|) && Grown(mid, after, d, group[..m])
    requires m < |group|
    ensures Appended(before, after, kept + group[..m]) && Outcome(fault, false, kept + group[..m], events)
  {
    DayStep(before, mid, after, kept, events, todo, d, m);
    StoppedByWrite(fault, kept + group[..m], events);
  }

  /** All its lines are written, and then the file is synced. */
  lemma GroupSynced(before: Files, mid: Files, after: Files, fault: Fault, kept: seq<Event>, events: seq<Event>, todo: set<int>,
                 written: nat, synced: nat, d: int, m: nat, group: seq<Event>)
    requires Going(before, mid, fault, kept, events, todo, written, synced) && d in todo
    requires group == Filter(events, OnDay(d)) && m == Reach(fault, written, |group|) && Grown(mid, after, d, group[..m])
    requires m == |group|
    ensures var kept' := kept + group[..m];
            if SyncFailsAt(fault, synced) then Appended(before, after, kept') && Outcome(fault, false, kept', events)
            else Going(before, after, fault, kept', events, todo - {d}, written + m, synced + 1)
  {
    DayStep(before, mid, after, kept, events, todo, d, m);
    CountsStep(fault, written, synced, |Filter(events, InDays(todo - {d}))|, |todo - {d}|, |events|, |Days(events)|, |group|, m);
    if SyncFailsAt(fault, synced) { StoppedBySync(fault, kept + group[..m], events, todo - {d}); }
  }

  lemma GroupStep(before: Files, mid: Files, after: Files, fault: Fault, kept: seq<Event>, events: seq<Event>, todo: set<int>,
                  written: nat, synced: nat, d: int, m: nat, group: seq<Event>)
    requires Going(before, mid, fault, kept, events, todo, written, synced) && d in todo
    requires group == Filter(events, OnDay(d)) && m == Reach(fault, written, |group|) && Grown(mid, after, d, group[..m])
    ensures var kept' := kept + group[..m];
            if m < |group| || SyncFailsAt(fault, synced) then Appended(before, after, kept') && Outcome(fault, false, kept', events)
            else Going(before, after, fault, kept', events, todo - {d}, written + m, synced + 1)
  {
    if m < |group| {
      GroupCut(before, mid, after, fault, kept, events, todo, written, synced, d, m, group);
    } else {
      GroupSynced(before, mid, after, fault, kept, events, todo, written, synced, d, m, group);
    }
  }

  lemma DayStep(before: Files, mid: Files, after: Files, kept: seq<Event>, events: seq<Event>, todo: set<int>, d: int, m: nat)
    requires Written(kept, events, todo) && Appended(before, mid, kept) && d in todo
    requires m <= |Filter(events, OnDay(d))| && Grown(mid, after, d, Filter(events, OnDay(d))[..m])
    ensures var kept' := kept + Filter(events, OnDay(d))[..m];
      && Appended(before, after, kept') && DayPrefixes(kept', events) && |kept'| == |kept| + m
      && (m == |Filter(events, OnDay(d))| ==> Written(kept', events, todo - {d}))
    ensures |Filter(events, InDays(todo))| == |Filter(events, OnDay(d))| + |Filter(events, InDays(todo - {d}))|
  {
    var part := Filter(events, OnDay(d))[..m];
    forall c ensures Filter(part, OnDay(c)) == if c == d then part else [] { DayPart(events, d, m, c); }
    AppendedDay(before, mid, after, kept, d, part);
    PartWritten(kept, events, d, m, todo);
    OneDayLess(events, todo, d);
  }

  lemma StoppedByWrite(fault: Fault, kept: seq<Event>, events: seq<Event>)
    requires fault.WriteFails? && fault.lines == |kept| < |events| && DayPrefixes(kept, events)
    ensures Outcome(fault, false, kept, events)
  {
  }

  lemma StoppedBySync(fault: Fault, kept: seq<Event>, events: seq<Event>, todo: set<int>)
    requires Written(kept, events, todo) && todo <= Days(events) && DayPrefixes(kept, events)
    requires fault.SyncFails? && fault.files + 1 + |todo| == |Days(events)|
    ensures Outcome(fault, false, kept, events)
  {
    DaysWritten(kept, events, todo);
  }

  lemma NotStopped(before: Files, files: Files, fault: Fault, kept: seq<Event>, events: seq<Event>, written: nat, synced: nat)
    requires Going(before, files, fault, kept, events, {}, written, synced)
    ensures Appended(before, files, kept) && Outcome(fault, true, kept, events)
  {
    FilterNone(events, InDays({}));
    forall d ensures Filter(kept, OnDay(d)) == Filter(events, OnDay(d)) {}
  }

  /** The days that are done are written completely, and of the others nothing. */
  ghost predicate Written(kept: seq<Event>, events: seq<Event>, todo: set<int>) {
    forall d :: Filter(kept, OnDay(d)) == if d in todo then [] else Filter(events, OnDay(d))
  }

  function InDays(days: set<int>): Event -> bool { (e: Event) => DayOf(e.timestamp) in days }

  lemma NothingWritten(files: Files, fault: Fault, events: seq<Event>)
    ensures Going(files, files, fault, [], events, Days(events), 0, 0)
  {
    FilterAll(events, InDays(Days(events)));
    forall d | d !in Days(events) ensures Filter(events, OnDay(d)) == [] {
      FilterNone(events, OnDay(d));
    }
  }

  lemma {:induction false} OneDayLess(events: seq<Event>, todo: set<int>, d: int)
    requires d in todo
    ensures |Filter(events, InDays(todo))| == |Filter(events, OnDay(d))| + |Filter(events, InDays(todo - {d}))|
  {
    if events != [] { OneDayLess(events[1..], todo, d); }
  }

  lemma GroupsOf(byDate: Files, events: seq<Event>)
    requires Sharded(byDate, events)
    ensures forall d :: d in byDate ==> byDate[d] == Filter(events, OnDay(d))
  {
    assert forall d :: d in byDate ==> byDate[d] == Lookup(byDate, d);
  }

  lemma DayPart(events: seq<Event>, d: int, m: nat, c: int)
    requires m <= |Filter(events, OnDay(d))|
    ensures Filter(Filter(events, OnDay(d))[..m], OnDay(c)) == if c == d then Filter(events, OnDay(d))[..m] else []
  {
    var group := Filter(events, OnDay(d));
    FilterMembers(events, OnDay(d));
    forall i | 0 <= i < m ensures OnDay(d)(group[..m][i]) { assert group[i] in group; }
    if c == d { FilterAll(group[..m], OnDay(c)); } else { FilterNone(group[..m], OnDay(c)); }
  }

  /** After the first m lines of day d. */
  lemma PartWritten(before: seq<Event>, events: seq<Event>, d: int, m: nat, todo: set<int>)
    requires Written(before, events, todo) && d in todo && m <= |Filter(events, OnDay(d))|
    ensures var part := Filter(events, OnDay(d))[..m];
      && DayPrefixes(before + part, events)
      && (m == |Filter(events, OnDay(d))| ==> Written(before + part, events, todo - {d}))
  {
    var part := Filter(events, OnDay(d))[..m];
    forall c ensures Filter(before + part, OnDay(c)) <= Filter(events, OnDay(c))
      ensures m == |Filter(events, OnDay(d))| ==>
        Filter(before + part, OnDay(c)) == if c in todo - {d} then [] else Filter(events, OnDay(c))
    {
      FilterConcat(before, part, OnDay(c));
      DayPart(events, d, m, c);
      assert Filter(before, OnDay(c)) == if c in todo then [] else Filter(events, OnDay(c));
    }
  }

  lemma HasDay(s: seq<Event>, d: int)
    ensures d in Days(s) <==> Filter(s, OnDay(d)) != []
  {
    FilterMembers(s, OnDay(d));
    if d in Days(s) {
      var e :| e in s && DayOf(e.timestamp) == d;
      assert e in Filter(s, OnDay(d));
    } else {
      FilterNone(s, OnDay(d));
    }
  }

  /** The days written are those that are done. */
  lemma DaysWritten(kept: seq<Event>, events: seq<Event>, todo: set<int>)
    requires Written(kept, events, todo) && todo <= Days(events)
    ensures Days(kept) == Days(events) - todo
    ensures |Days(kept)| == |Days(events)| - |todo|
    ensures forall d :: d in Days(kept) ==> Filter(kept, OnDay(d)) == Filter(events, OnDay(d))
  {
    forall d ensures d in Days(kept) <==> d in Days(events) - todo {
      HasDay(kept, d);
      HasDay(events, d);
      assert Filter(kept, OnDay(d)) == if d in todo then [] else Filter(events, OnDay(d));
    }
  }

  /** A failing append of one event: nothing is written, or everything. */
  lemma OneEventKept(fault: Fault, kept: seq<Event>, e: Event)
    requires DayPrefixes(kept, [e]) && Hits(fault, [e]) && FaultShows(fault, kept, [e])
    ensures kept == if fault.WriteFails? then [] else [e]
  {
    var d := DayOf(e.timestamp);
    assert Days([e]) == {d};
    if fault.SyncFails? {
      forall c | c != d ensures c !in Days(kept) {
        HasDay(kept, c);
        FilterNone([e], OnDay(c));
        assert Filter(kept, OnDay(c)) <= Filter([e], OnDay(c));
      }
      assert Days(kept) <= {d};
      forall i | 0 <= i < |kept| ensures OnDay(d)(kept[i]) { assert DayOf(kept[i].timestamp) in Days(kept); }
      FilterAll(kept, OnDay(d));
      FilterAll([e], OnDay(d));
    }
  }

  lemma DaysSnoc(events: seq<Event>, i: nat)
    requires i < |events|
    ensures Days(events[..i + 1]) == Days(events[..i]) + {DayOf(events[i].timestamp)}
  {
    assert events[..i + 1] == events[..i] + [events[i]];
  }

  /** The zero time is the first instant of the year 1. */
  lemma ZeroTimeIs()
    ensures ZERO_TIME == DayNumber(Date(1, 1, 1)) * 86_400 * 1_000_000_000
  {
    assert DaysBeforeYear(1) == DaysBeforeYear(0) + DaysInYear(0) == 366;
  }

  /** The events of one timestamp are all in the file of its day, in append order. */
  lemma DayContents(log: seq<Event>, d: int, after: int, k: int)
    ensures WithKey(Filter(Filter(log, OnDay(d)), Later(after)), BY_TIME, k) ==
            if DayOf(k) == d then WithKey(Filter(log, Later(after)), BY_TIME, k) else []
  {
    var same := WithKey(log, BY_TIME, k);
    FilterWithKey(Filter(log, OnDay(d)), Later(after), BY_TIME, k);
    FilterWithKey(log, OnDay(d), BY_TIME, k);
    FilterWithKey(log, Later(after), BY_TIME, k);
    WithKeyMembers(log, BY_TIME, k);
    forall i | 0 <= i < |same| ensures OnDay(d)(same[i]) <==> DayOf(k) == d {
      assert same[i] in same;
    }
    if DayOf(k) == d { FilterAll(same, OnDay(d)); } else { FilterNone(same, OnDay(d)); }
  }

  lemma SameContentsSortAlike(a: seq<Event>, b: seq<Event>)
    requires forall k :: WithKey(a, BY_TIME, k) == WithKey(b, BY_TIME, k)
    ensures StableSort(a, BY_TIME) == StableSort(b, BY_TIME)
  {
    SortIsSorted(a, BY_TIME);
    forall k ensures WithKey(StableSort(a, BY_TIME), BY_TIME, k) == WithKey(b, BY_TIME, k) {
      SortIsStable(a, BY_TIME, k);
    }
    StableSortIs(StableSort(a, BY_TIME), b, BY_TIME);
  }

  lemma ReadDay(events: seq<Event>, log: seq<Event>, d: int, after: int, todo: set<int>)
    requires d in todo
    requires forall k :: WithKey(events, BY_TIME, k) ==
                         if DayOf(k) in todo then [] else WithKey(Filter(log, Later(after)), BY_TIME, k)
    ensures forall k :: WithKey(events + Filter(Filter(log, OnDay(d)), Later(after)), BY_TIME, k) ==
                        if DayOf(k) in todo - {d} then [] else WithKey(Filter(log, Later(after)), BY_TIME, k)
  {
    var day := Filter(Filter(log, OnDay(d)), Later(after));
    forall k ensures WithKey(events + day, BY_TIME, k) ==
                     if DayOf(k) in todo - {d} then [] else WithKey(Filter(log, Later(after)), BY_TIME, k)
    {
      WithKeyConcat(events, day, BY_TIME, k);
      DayContents(log, d, after, k);
    }
  }

  lemma AbsentDays(files: Files, log: seq<Event>, after: int)
    requires Sharded(files, log)
    ensures forall k :: DayOf(k) !in files ==> WithKey(Filter(log, Later(after)), BY_TIME, k) == []
  {
    forall k | DayOf(k) !in files ensures WithKey(Filter(log, Later(after)), BY_TIME, k) == [] {
      assert Lookup(files, DayOf(k)) == Filter(log, OnDay(DayOf(k)));
      DayContents(log, DayOf(k), after, k);
    }
  }

  /** When timestamps never decrease, loading returns the append order itself. */
  lemma InOrderLogIsLoaded(log: seq<Event>)
    requires SortedBy(log, BY_TIME)
    ensures Loaded(log) == log
  {
    SortOfSorted(log, BY_TIME);
  }

  /** The events of one kind, say of one session, that were appended in timestamp order are loaded in
      append order, whatever else is in the store. */
  lemma OrderedPartIsLoaded(log: seq<Event>, p: Event -> bool)
    requires SortedBy(Filter(log, p), BY_TIME)
    ensures Filter(Loaded(log), p) == Filter(log, p)
  {
    FilterSort(log, p, BY_TIME);
    SortOfSorted(Filter(log, p), BY_TIME);
  }
}
