/**
  The insight ledger file: header and body of the text, and the locked read-modify-write that adds an
  entry unless its title is already there.
 */
module InsightLedger {
  import opened Sequences
  import opened Text
  import opened Insight
  import opened Wrappers

  // ---------- writing the body ----------

  method FormatEntry(e: InsightEntry) returns (text: string, ghost k: Keyed)
    ensures WellKeyed(k) && k.entry == e && text == EntryText(k)
    ensures ParseBody("\n" + text) == [e] <==> Faithful(e)
  {
    var keys := SortKeys(e.extra);
    k := Keyed(e, keys);
    KeysInExtra(k);
    var axes := Line("what", e.what) + Line("why", e.why) + Line("how", e.how)
                + Line("when", e.when) + Line("who", e.who) + Line("constraints", e.constraints);
    var extras := FormatExtras(e.extra, keys);
    text := HEADING + e.title + "\n\n" + axes + extras;
    AxisLines(e);
    FormatText(e, keys, axes, extras);
    FormattedIsRead(k);
  }

  lemma FormattedIsRead(k: Keyed)
    requires WellKeyed(k)
    ensures ParseBody("\n" + EntryText(k)) == [k.entry] <==> Faithful(k.entry)
  {
    var ks := [k];
    assert ks[1..] == [] && EntryText(k) + "" == EntryText(k);
    assert Body(ks) == "\n" + EntryText(k) && Entries(ks) == [k.entry];
    BodyRoundTripIff(ks);
    assert Faithful(k.entry) <==> Faithful(ks[0].entry);
  }

  method FormatExtras(extra: map<string, string>, keys: seq<string>) returns (text: string)
    requires forall i :: 0 <= i < |keys| ==> keys[i] in extra
    ensures text == Lines(ExtraFields(extra, keys))
  {
    text := "";
    for i := 0 to |keys|
      invariant text == Lines(ExtraFields(extra, keys[..i]))
    {
      text := text + Line(keys[i], extra[keys[i]]);
      ExtraSnoc(extra, keys, i);
    }
    assert keys[..|keys|] == keys;
  }

  lemma FormatText(e: InsightEntry, keys: seq<string>, axes: string, extras: string)
    requires forall i :: 0 <= i < |keys| ==> keys[i] in e.extra
    requires axes == Lines(AxisFields(e)) && extras == Lines(ExtraFields(e.extra, keys))
    ensures HEADING + e.title + "\n\n" + axes + extras == Format(e, keys)
  {
    LinesConcat(AxisFields(e), ExtraFields(e.extra, keys));
    Assoc(HEADING, e.title, "\n\n", axes, extras);
  }

  lemma Assoc(a: string, b: string, c: string, d: string, e: string)
    ensures a + b + c + d + e == a + (b + (c + (d + e)))
  {
  }

  lemma AxisLines(e: InsightEntry)
    ensures Lines(AxisFields(e)) == Line("what", e.what) + Line("why", e.why) + Line("how", e.how)
                                    + Line("when", e.when) + Line("who", e.who) + Line("constraints", e.constraints)
  {
    var fs := AxisFields(e);
    assert Lines(fs[5..]) == Line(fs[5].key, fs[5].value) + Lines([]);
    assert Lines(fs[4..]) == Line(fs[4].key, fs[4].value) + Lines(fs[5..]);
    assert Lines(fs[3..]) == Line(fs[3].key, fs[3].value) + Lines(fs[4..]);
    assert Lines(fs[2..]) == Line(fs[2].key, fs[2].value) + Lines(fs[3..]);
    assert Lines(fs[1..]) == Line(fs[1].key, fs[1].value) + Lines(fs[2..]);
  }

  lemma {:induction false} LinesConcat(a: seq<Field>, b: seq<Field>)
    ensures Lines(a + b) == Lines(a) + Lines(b)
  {
    if a == [] {
      ConcatEmpty(b);
      ConcatEmpty(Lines(b));
    } else {
      LinesConcat(a[1..], b);
      HeadOfConcat(a, b);
      LinesCons(a + b, "");
      LinesCons(a, Lines(b));
    }
  }

  lemma {:induction false} ExtraConcat(extra: map<string, string>, a: seq<string>, b: seq<string>)
    requires forall i :: 0 <= i < |a| ==> a[i] in extra
    requires forall i :: 0 <= i < |b| ==> b[i] in extra
    ensures ExtraFields(extra, a + b) == ExtraFields(extra, a) + ExtraFields(extra, b)
  {
    if a == [] {
      ConcatEmpty(b);
      ConcatEmpty(ExtraFields(extra, b));
    } else {
      ExtraConcat(extra, a[1..], b);
      HeadOfConcat(a, b);
      ConcatAssoc([Field(a[0], extra[a[0]])], ExtraFields(extra, a[1..]), ExtraFields(extra, b));
    }
  }

  lemma ExtraSnoc(extra: map<string, string>, keys: seq<string>, i: nat)
    requires i < |keys| && forall j :: 0 <= j < |keys| ==> keys[j] in extra
    ensures Lines(ExtraFields(extra, keys[..i + 1])) == Lines(ExtraFields(extra, keys[..i])) + Line(keys[i], extra[keys[i]])
  {
    assert keys[..i + 1] == keys[..i] + [keys[i]];
    ExtraConcat(extra, keys[..i], [keys[i]]);
    var f := Field(keys[i], extra[keys[i]]);
    assert ExtraFields(extra, [keys[i]]) == [f];
    LinesConcat(ExtraFields(extra, keys[..i]), [f]);
    assert Lines([f]) == Line(f.key, f.value) + Lines([]);
  }

  /** The text of the first i entries. */
  ghost predicate Marshalled(body: string, ks: seq<Keyed>, entries: seq<InsightEntry>, i: nat) {
    i <= |entries| && AllKeyed(ks) && Entries(ks) == entries[..i] && body == Body(ks)
  }

  /** The body part of InsightFile.Marshal. */
  method MarshalBody(entries: seq<InsightEntry>) returns (body: string, ghost ks: seq<Keyed>)
    ensures AllKeyed(ks) && Entries(ks) == entries && body == Body(ks)
    ensures ParseBody(body) == entries <==> AllFaithful(entries)
  {
    body, ks := "", [];
    for i := 0 to |entries|
      invariant Marshalled(body, ks, entries, i)
    {
      ghost var before := body;
      if i > 0 { body := body + "\n"; }
      body := body + "\n";
      var text;
      ghost var k;
      text, k := FormatEntry(entries[i]);
      body := body + text;
      MarshalOne(before, ks, entries, i, k);
      ks := ks + [k];
    }
    AllMarshalled(body, ks, entries);
  }

  /** One turn of the loop: line ends and the text of the next entry. */
  lemma MarshalOne(body: string, ks: seq<Keyed>, entries: seq<InsightEntry>, i: nat, k: Keyed)
    requires Marshalled(body, ks, entries, i) && i < |entries| && WellKeyed(k) && k.entry == entries[i]
    ensures Marshalled((if i == 0 then body else body + "\n") + "\n" + EntryText(k), ks + [k], entries, i + 1)
  {
    EntriesAre(ks);
    EntriesGrow(ks, k, entries, i);
    BodyGrows(ks, k, body);
    KeyedSnoc(ks, k);
  }

  lemma KeyedSnoc(ks: seq<Keyed>, k: Keyed)
    requires AllKeyed(ks) && WellKeyed(k)
    ensures AllKeyed(ks + [k])
  {
  }

  lemma AllMarshalled(body: string, ks: seq<Keyed>, entries: seq<InsightEntry>)
    requires Marshalled(body, ks, entries, |entries|)
    ensures AllKeyed(ks) && Entries(ks) == entries && body == Body(ks)
    ensures ParseBody(body) == entries <==> AllFaithful(entries)
  {
    assert entries[..|entries|] == entries;
    MarshalledIsRead(ks, entries);
  }

  lemma {:induction false} EntriesSnoc(ks: seq<Keyed>, k: Keyed)
    ensures Entries(ks + [k]) == Entries(ks) + [k.entry]
  {
    EntriesAre(ks);
    EntriesAre(ks + [k]);
  }

  lemma EntriesGrow(ks: seq<Keyed>, k: Keyed, entries: seq<InsightEntry>, i: nat)
    requires i < |entries| && Entries(ks) == entries[..i] && k.entry == entries[i]
    ensures Entries(ks + [k]) == entries[..i + 1]
  {
    EntriesSnoc(ks, k);
  }

  lemma LineEnds(body: string)
    ensures body + "\n" + "\n" == body + "\n\n"
  {
  }

  /** One turn of the loop: line ends and the text of the next entry. */
  lemma BodyGrows(ks: seq<Keyed>, k: Keyed, body: string)
    requires AllKeyed(ks) && WellKeyed(k) && body == Body(ks)
    ensures (if ks == [] then body else body + "\n") + "\n" + EntryText(k) == Body(ks + [k])
  {
    BodySnoc(ks, k);
    LineEnds(body);
  }

  ghost predicate AllFaithful(entries: seq<InsightEntry>) {
    forall i :: 0 <= i < |entries| ==> Faithful(entries[i])
  }

  lemma MarshalledIsRead(ks: seq<Keyed>, entries: seq<InsightEntry>)
    requires AllKeyed(ks) && Entries(ks) == entries
    ensures ParseBody(Body(ks)) == entries <==> AllFaithful(entries)
  {
    EntriesAre(ks);
    BodyRoundTripIff(ks);
  }

  lemma TailCons(k: Keyed, ks: seq<Keyed>)
    requires WellKeyed(k) && AllKeyed(ks)
    ensures Tail([k] + ks) == "\n\n" + (EntryText(k) + Tail(ks))
  {
    assert ([k] + ks)[1..] == ks;
  }

  lemma BodyCons(k: Keyed, ks: seq<Keyed>)
    requires WellKeyed(k) && AllKeyed(ks)
    ensures Body([k] + ks) == "\n" + (EntryText(k) + Tail(ks))
  {
    assert ([k] + ks)[1..] == ks;
  }

  lemma {:induction false} TailSnoc(ks: seq<Keyed>, k: Keyed)
    requires AllKeyed(ks) && WellKeyed(k)
    ensures Tail(ks + [k]) == Tail(ks) + ("\n\n" + EntryText(k))
  {
    if ks == [] {
      TailCons(k, []);
      ConcatEmpty([k]);
      ConcatEmpty(EntryText(k));
      ConcatEmpty("\n\n" + EntryText(k));
    } else {
      TailSnoc(ks[1..], k);
      HeadOfConcat(ks, [k]);
      TailCons(ks[0], ks[1..] + [k]);
      ConcatAssoc(EntryText(ks[0]), Tail(ks[1..]), "\n\n" + EntryText(k));
      ConcatAssoc("\n\n", EntryText(ks[0]) + Tail(ks[1..]), "\n\n" + EntryText(k));
    }
  }

  lemma BodySnoc(ks: seq<Keyed>, k: Keyed)
    requires AllKeyed(ks) && WellKeyed(k)
    ensures Body(ks + [k]) == Body(ks) + (if ks == [] then "\n" else "\n\n") + EntryText(k)
  {
    if ks == [] {
      BodyCons(k, []);
      ConcatEmpty([k]);
      ConcatEmpty(EntryText(k));
      ConcatEmpty("\n");
    } else {
      TailSnoc(ks[1..], k);
      HeadOfConcat(ks, [k]);
      BodyCons(ks[0], ks[1..] + [k]);
      ConcatAssoc(EntryText(ks[0]), Tail(ks[1..]), "\n\n" + EntryText(k));
      ConcatAssoc("\n", EntryText(ks[0]) + Tail(ks[1..]), "\n\n" + EntryText(k));
      ConcatAssoc("\n" + (EntryText(ks[0]) + Tail(ks[1..])), "\n\n", EntryText(k));
    }
  }

  // ---------- the file ----------

  /** The header is the YAML text between the delimiters. */
  function MarshalText(header: string, body: string): string { DELIMITER + (header + (DELIMITER + body)) }

  datatype Parts = Missing | Parts(before: string, header: string, body: string)

  /** strings.SplitN(text, "---\n", 3) */
  function SplitText(text: string): Parts {
    var first := IndexOf(text, DELIMITER);
    if first == -1 then Missing else
    var rest := text[first + |DELIMITER|..];
    var second := IndexOf(rest, DELIMITER);
    if second == -1 then Missing
    else Parts(text[..first], rest[..second], rest[second + |DELIMITER|..])
  }

  /** A marshalled file is split where it was put together exactly when the header holds no delimiter. */
  lemma SplitIff(header: string, body: string)
    ensures SplitText(MarshalText(header, body)) == Parts("", header, body) <==> !Contains(header, DELIMITER)
    ensures DELIMITER == "---\n"
  {
    var rest := header + (DELIMITER + body);
    assert At(MarshalText(header, body), DELIMITER, 0);
    assert MarshalText(header, body)[|DELIMITER|..] == rest;
    AtShift(header, DELIMITER + body, DELIMITER, 0);
    assert At(DELIMITER + body, DELIMITER, 0);
    if Contains(header, DELIMITER) {
      var i :| At(header, DELIMITER, i);
      AtPrefix(header, DELIMITER + body, DELIMITER, i);
    } else {
      forall i | i < |header| ensures !At(rest, DELIMITER, i) {
        if 0 <= i && i + |DELIMITER| <= |header| {
          AtPrefix(header, DELIMITER + body, DELIMITER, i);
        } else if 0 <= i {
          assert rest[i..i + 4][3] == rest[i + 3] == DELIMITER[i + 3 - |header|] == '-';
        }
      }
      assert rest[..|header|] == header && rest[|header| + |DELIMITER|..] == body;
    }
  }

  /** UnmarshalInsightFile, apart from the YAML header. */
  function Unmarshal(text: string): Option<seq<InsightEntry>> {
    match SplitText(text)
    case Missing => None
    case Parts(_, _, body) => Some(ParseBody(body))
  }

  ghost predicate HoldsEntries(text: string, entries: seq<InsightEntry>) {
    exists header, ks :: Holds(text, header, ks) && Entries(ks) == entries
  }

  ghost predicate Holds(text: string, header: string, ks: seq<Keyed>) {
    Readables(ks) && !Contains(header, DELIMITER) && text == MarshalText(header, Body(ks))
  }

  lemma HeldEntriesAreRead(text: string, entries: seq<InsightEntry>)
    requires HoldsEntries(text, entries)
    ensures Unmarshal(text) == Some(entries)
    ensures forall i :: 0 <= i < |entries| ==> Faithful(entries[i])
  {
    var header, ks :| Holds(text, header, ks) && Entries(ks) == entries;
    SplitIff(header, Body(ks));
    BodyRoundTripIff(ks);
    EntriesAre(ks);
  }

  ghost predicate HasTitle(entries: seq<InsightEntry>, title: string) {
    exists i :: 0 <= i < |entries| && entries[i].title == title
  }

  /** Append's effect on the entries. */
  ghost function Added(entries: seq<InsightEntry>, e: InsightEntry): seq<InsightEntry> {
    if HasTitle(entries, e.title) then entries else entries + [e]
  }

  method FindTitle(existing: seq<InsightEntry>, title: string) returns (found: bool)
    ensures found <==> HasTitle(existing, title)
  {
    for i := 0 to |existing|
      invariant forall j :: 0 <= j < i ==> existing[j].title != title
    {
      if existing[i].title == title { return true; }
    }
    found := false;
  }

  lemma WrittenHolds(existing: seq<InsightEntry>, e: InsightEntry, header: string, ks: seq<Keyed>)
    requires AllKeyed(ks) && Entries(ks) == existing + [e] && !Contains(header, DELIMITER)
    requires forall i :: 0 <= i < |existing| ==> Faithful(existing[i])
    requires Faithful(e)
    ensures HoldsEntries(MarshalText(header, Body(ks)), existing + [e])
  {
    EntriesAre(ks);
    forall i | 0 <= i < |ks| ensures WellKeyed(ks[i]) && Faithful(ks[i].entry) {
      assert ks[i].entry == (existing + [e])[i];
    }
    assert Holds(MarshalText(header, Body(ks)), header, ks);
  }

  /** The entries that Append finds, unless the file cannot be read. */
  function Existing(file: Option<string>): Option<seq<InsightEntry>> {
    if file.None? then Some([]) else Unmarshal(file.value)
  }

  /** The file is the marshalled form of the entries. */
  ghost predicate Written(file: Option<string>, header: string, entries: seq<InsightEntry>) {
    exists ks :: AllKeyed(ks) && Entries(ks) == entries && file == Some(MarshalText(header, Body(ks)))
  }

  /** What one Append does to the file, whatever is in it and whatever the entry is. */
  ghost predicate Appends(before: Option<string>, e: InsightEntry, header: string, ioOk: bool, after: Option<string>, ok: bool) {
    match Existing(before)
    case None => !ok && after == before
    case Some(existing) =>
      if HasTitle(existing, e.title) then ok && after == before
      else if ioOk then ok && Written(after, header, existing + [e])
      else !ok && after == before
  }

  /** The file holds exactly these entries, in a form that is read back unchanged. */
  ghost predicate Ledger(file: Option<string>, entries: seq<InsightEntry>) {
    match file
    case None => entries == []
    case Some(text) => HoldsEntries(text, entries)
  }

  /** Entries and headers that survive the round trip. */
  ghost predicate Storable(e: InsightEntry, header: string) {
    Faithful(e) && !Contains(header, DELIMITER)
  }

  lemma LedgerIsRead(file: Option<string>, entries: seq<InsightEntry>)
    requires Ledger(file, entries)
    ensures Existing(file) == Some(entries)
    ensures forall i :: 0 <= i < |entries| ==> Faithful(entries[i])
  {
    if file.Some? { HeldEntriesAreRead(file.value, entries); }
  }

  /** An Append of a storable entry to a ledger leaves a ledger with at most that entry more. */
  lemma AppendKeepsLedger(before: Option<string>, entries: seq<InsightEntry>, e: InsightEntry, header: string,
                          ioOk: bool, after: Option<string>, ok: bool)
    requires Ledger(before, entries) && Storable(e, header) && Appends(before, e, header, ioOk, after, ok)
    ensures Ledger(after, if ok then Added(entries, e) else entries)
    ensures ok <==> ioOk || HasTitle(entries, e.title)
  {
    LedgerIsRead(before, entries);
    if ioOk && !HasTitle(entries, e.title) {
      var ks :| AllKeyed(ks) && Entries(ks) == entries + [e] && after == Some(MarshalText(header, Body(ks)));
      WrittenHolds(entries, e, header, ks);
    }
  }

  /** One ledger file; the lock makes each Append atomic. `header` is the new YAML header. */
  class InsightWriter {
    var file: Option<string>

    constructor ()
      ensures Ledger(file, [])
    {
      file := None;
    }

    method Append(e: InsightEntry, header: string, ioOk: bool) returns (ok: bool)
      modifies this
      ensures Appends(old(file), e, header, ioOk, file, ok)
    {
      var existing := Existing(file);
      if existing.None? { return false; }
      var dup := FindTitle(existing.value, e.title);
      if dup { return true; }
      if !ioOk { return false; }
      ghost var ks;
      var body;
      body, ks := MarshalBody(existing.value + [e]);
      file := Some(MarshalText(header, body));
      ok := true;
    }

    method Read() returns (r: Option<seq<InsightEntry>>)
      ensures r == if file.None? then None else Existing(file)
      ensures forall entries :: file.Some? && Ledger(file, entries) ==> r == Some(entries)
    {
      forall entries | Ledger(file, entries) ensures Existing(file) == Some(entries) { LedgerIsRead(file, entries); }
      if file.None? { return None; }
      r := Unmarshal(file.value);
    }
  }

  // ---------- appending twice ----------

  ghost predicate HasSection(secs: seq<Section>, title: string) {
    exists i :: 0 <= i < |secs| && secs[i].title == title
  }

  lemma {:induction false} SetFieldsKeepTitle(e: InsightEntry, fs: seq<Field>)
    ensures SetFields(e, fs).title == e.title
    decreases |fs|
  {
    if fs != [] { SetFieldsKeepTitle(SetField(e, fs[0]), fs[1..]); }
  }

  lemma {:induction false} SectionIsEntry(secs: seq<Section>, title: string)
    ensures HasTitle(EntriesOf(secs), title) <==> HasSection(secs, title)
  {
    if secs != [] {
      SectionIsEntry(secs[1..], title);
      SetFieldsKeepTitle(EmptyEntry(secs[0].title), Fields(secs[0].body, true));
      TitleCons(EntryOf(secs[0]), EntriesOf(secs[1..]), title);
      SectionCons(secs[0], secs[1..], title);
      assert secs == [secs[0]] + secs[1..];
    }
  }

  lemma TitleCons(e: InsightEntry, es: seq<InsightEntry>, title: string)
    ensures HasTitle([e] + es, title) <==> e.title == title || HasTitle(es, title)
  {
    assert ([e] + es)[0] == e && forall i :: 0 <= i < |es| ==> ([e] + es)[i + 1] == es[i];
    if HasTitle([e] + es, title) && e.title != title {
      var i :| 0 <= i < |[e] + es| && ([e] + es)[i].title == title;
      assert es[i - 1].title == title;
    }
  }

  lemma SectionCons(a: Section, secs: seq<Section>, title: string)
    ensures HasSection([a] + secs, title) <==> a.title == title || HasSection(secs, title)
  {
    assert ([a] + secs)[0] == a && forall i :: 0 <= i < |secs| ==> ([a] + secs)[i + 1] == secs[i];
    if HasSection([a] + secs, title) && a.title != title {
      var i :| 0 <= i < |[a] + secs| && ([a] + secs)[i].title == title;
      assert secs[i - 1].title == title;
    }
  }

  predicate GoodTitle(title: string) { title != "" && '\n' !in title }

  /** Behind readable entries, an entry's title is found whatever the rest of the entry holds. */
  lemma {:induction false} LastTitleIsFound(ks: seq<Keyed>)
    requires AllKeyed(ks) && ks != [] && Readables(ks[..|ks| - 1]) && GoodTitle(ks[|ks| - 1].entry.title)
    ensures HasSection(Sections(EntryText(ks[0]) + Tail(ks[1..]), true).sections, ks[|ks| - 1].entry.title)
  {
    if |ks| == 1 {
      HeadIsFound(ks[0]);
      assert EntryText(ks[0]) + "" == EntryText(ks[0]);
    } else {
      var rest := ks[1..];
      assert rest[..|rest| - 1] == ks[..|ks| - 1][1..] && ks[0] == ks[..|ks| - 1][0];
      LastTitleIsFound(rest);
      EntrySections(ks[0], Tail(rest));
      TwoLineEnds(EntryText(rest[0]) + Tail(rest[1..]), true);
      var more := Sections(Tail(rest), true);
      SectionCons(Section(ks[0].entry.title, "\n\n" + (Lines(EntryFields(ks[0])) + more.preamble)), more.sections,
                  ks[|ks| - 1].entry.title);
    }
  }

  lemma HeadIsFound(k: Keyed)
    requires WellKeyed(k) && GoodTitle(k.entry.title)
    ensures HasSection(Sections(EntryText(k), true).sections, k.entry.title)
  {
    var lines := Lines(EntryFields(k));
    assert EntryText(k) == HEADING + (k.entry.title + ("\n\n" + lines));
    HeadingMatches(k.entry.title, lines);
    assert Sections(EntryText(k), true).sections[0].title == k.entry.title;
  }

  /** A title is found in a file that was written with readable entries and then this one, exactly when it
      is nonempty and on one line. */
  lemma TitleIsFoundIff(ks: seq<Keyed>, existing: seq<InsightEntry>, e: InsightEntry)
    requires AllKeyed(ks) && Entries(ks) == existing + [e]
    requires forall i :: 0 <= i < |existing| ==> Faithful(existing[i])
    ensures HasTitle(ParseBody(Body(ks)), e.title) <==> GoodTitle(e.title)
  {
    EntriesAre(ks);
    ParsedIsFaithful(Body(ks));
    if GoodTitle(e.title) {
      assert forall i :: 0 <= i < |ks| - 1 ==> ks[i].entry == existing[i];
      assert ks[|ks| - 1].entry == e;
      LastTitleIsFound(ks);
      NewlineStartsLine(EntryText(ks[0]) + Tail(ks[1..]));
      SectionIsEntry(Sections(Body(ks), true).sections, e.title);
    }
  }

  /** Appending an entry a second time changes nothing exactly when its title is nonempty and on one line,
      whatever the file held and whatever the rest of the entry is. */
  lemma AppendTwiceIff(before: Option<string>, e: InsightEntry, header: string, after: Option<string>)
    requires Existing(before).Some? && !HasTitle(Existing(before).value, e.title) && !Contains(header, DELIMITER)
    requires Appends(before, e, header, true, after, true)
    ensures Appends(after, e, header, true, after, true) && Existing(after).Some? && HasTitle(Existing(after).value, e.title)
       <==> GoodTitle(e.title)
  {
    if before.Some? { ExistingIsFaithful(before.value); }
    WrittenTitleIff(after, header, Existing(before).value, e);
  }

  /** The title is found in the written file exactly when it is nonempty and on one line. */
  lemma WrittenTitleIff(after: Option<string>, header: string, existing: seq<InsightEntry>, e: InsightEntry)
    requires Written(after, header, existing + [e]) && !Contains(header, DELIMITER) && AllFaithful(existing)
    ensures Existing(after).Some? && (HasTitle(Existing(after).value, e.title) <==> GoodTitle(e.title))
  {
    var ks :| AllKeyed(ks) && Entries(ks) == existing + [e] && after == Some(MarshalText(header, Body(ks)));
    SplitIff(header, Body(ks));
    TitleIsFoundIff(ks, existing, e);
  }

  lemma ExistingIsFaithful(text: string)
    ensures Unmarshal(text).Some? ==> forall i :: 0 <= i < |Unmarshal(text).value| ==> Faithful(Unmarshal(text).value[i])
  {
    match SplitText(text)
    case Missing =>
    case Parts(_, _, body) => ParsedIsFaithful(body);
  }

  // ---------- sequences of appends ----------

  /** The entries after a sequence of appends to an empty ledger. */
  ghost function AppendAll(es: seq<InsightEntry>): seq<InsightEntry> {
    if es == [] then [] else Added(AppendAll(es[..|es| - 1]), es[|es| - 1])
  }

  /** No earlier element has the title of the i-th one. */
  ghost predicate FirstOfTitle(es: seq<InsightEntry>, i: nat)
    requires i < |es|
  {
    forall j :: 0 <= j < i ==> es[j].title != es[i].title
  }

  /** The positions of the first occurrences, in order. */
  ghost function FirstPositions(es: seq<InsightEntry>, n: nat): (r: seq<nat>)
    requires n <= |es|
    ensures forall i :: 0 <= i < |r| ==> r[i] < n
  {
    if n == 0 then []
    else FirstPositions(es, n - 1) + (if FirstOfTitle(es, n - 1) then [n - 1] else [])
  }

  ghost function Pick(es: seq<InsightEntry>, at: seq<nat>): (r: seq<InsightEntry>)
    requires forall i :: 0 <= i < |at| ==> at[i] < |es|
    ensures |r| == |at| && forall i :: 0 <= i < |at| ==> r[i] == es[at[i]]
  {
    seq(|at|, i requires 0 <= i < |at| => es[at[i]])
  }

  /** One of the first n elements has the title. */
  ghost predicate Seen(es: seq<InsightEntry>, n: nat, title: string)
    requires n <= |es|
  {
    exists j :: 0 <= j < n && es[j].title == title
  }

  lemma SeenSnoc(es: seq<InsightEntry>, n: nat, title: string)
    requires n < |es|
    ensures Seen(es, n + 1, title) <==> Seen(es, n, title) || es[n].title == title
    ensures FirstOfTitle(es, n) <==> !Seen(es, n, es[n].title)
  {
  }

  lemma {:induction false} TitlesSeen(es: seq<InsightEntry>, n: nat, title: string)
    requires n <= |es|
    ensures HasTitle(Pick(es, FirstPositions(es, n)), title) <==> Seen(es, n, title)
  {
    if n > 0 {
      var p := FirstPositions(es, n - 1);
      TitlesSeen(es, n - 1, title);
      SeenSnoc(es, n - 1, title);
      PickSnoc(es, p, n - 1);
      TitleSnoc(Pick(es, p), es[n - 1], title);
      ConcatEmpty(p);
    }
  }

  lemma TitleSnoc(es: seq<InsightEntry>, e: InsightEntry, title: string)
    ensures HasTitle(es + [e], title) <==> HasTitle(es, title) || e.title == title
  {
    var r := es + [e];
    assert r[|es|] == e && forall i :: 0 <= i < |es| ==> r[i] == es[i];
    if HasTitle(es, title) {
      var i :| 0 <= i < |es| && es[i].title == title;
      assert r[i].title == title;
    }
    if HasTitle(r, title) && e.title != title {
      var i :| 0 <= i < |r| && r[i].title == title;
      assert es[i].title == title;
    }
  }

  lemma PickSnoc(es: seq<InsightEntry>, at: seq<nat>, i: nat)
    requires i < |es| && forall j :: 0 <= j < |at| ==> at[j] < |es|
    ensures Pick(es, at + [i]) == Pick(es, at) + [es[i]]
  {
  }

  lemma {:induction false} AppendsPickFirsts(es: seq<InsightEntry>, n: nat)
    requires n <= |es|
    ensures AppendAll(es[..n]) == Pick(es, FirstPositions(es, n))
  {
    if n > 0 {
      AppendsPickFirsts(es, n - 1);
      assert es[..n][..n - 1] == es[..n - 1];
      PickStep(es, n - 1);
    }
  }

  lemma PickStep(es: seq<InsightEntry>, n: nat)
    requires n < |es|
    ensures Added(Pick(es, FirstPositions(es, n)), es[n]) == Pick(es, FirstPositions(es, n + 1))
  {
    TitlesSeen(es, n, es[n].title);
    PickSnoc(es, FirstPositions(es, n), n);
  }

  /** A history of the file: every Append that succeeds adds its entry, in order, and the others fail. */
  ghost predicate History(files: seq<Option<string>>, es: seq<InsightEntry>, headers: seq<string>, ios: seq<bool>, oks: seq<bool>) {
    && |files| == |es| + 1 && |headers| == |es| && |ios| == |es| && |oks| == |es|
    && files[0] == None
    && forall i :: 0 <= i < |es| ==>
         Storable(es[i], headers[i]) && Appends(files[i], es[i], headers[i], ios[i], files[i + 1], oks[i])
  }

  /** The entries whose Append reported success. */
  ghost function Accepted(es: seq<InsightEntry>, oks: seq<bool>): seq<InsightEntry>
    requires |oks| == |es|
  {
    if es == [] then [] else
    var n := |es| - 1;
    Accepted(es[..n], oks[..n]) + (if oks[n] then [es[n]] else [])
  }

  lemma AppendAllSnoc(es: seq<InsightEntry>, e: InsightEntry)
    ensures AppendAll(es + [e]) == Added(AppendAll(es), e)
  {
    assert (es + [e])[..|es|] == es;
  }

  lemma HistoryPrefix(files: seq<Option<string>>, es: seq<InsightEntry>, headers: seq<string>, ios: seq<bool>, oks: seq<bool>)
    requires History(files, es, headers, ios, oks) && es != []
    ensures var n := |es| - 1; History(files[..n + 1], es[..n], headers[..n], ios[..n], oks[..n])
  {
  }

  /** At every moment of every history the file holds the first accepted entry of every title, in the
      order of acceptance, and reading it returns exactly these entries. */
  lemma {:induction false} FileIsLedger(files: seq<Option<string>>, es: seq<InsightEntry>, headers: seq<string>,
                                        ios: seq<bool>, oks: seq<bool>)
    requires History(files, es, headers, ios, oks)
    ensures Ledger(files[|es|], AppendAll(Accepted(es, oks)))
    ensures Existing(files[|es|]) == Some(AppendAll(Accepted(es, oks)))
    decreases |es|
  {
    if es != [] {
      var n := |es| - 1;
      HistoryPrefix(files, es, headers, ios, oks);
      FileIsLedger(files[..n + 1], es[..n], headers[..n], ios[..n], oks[..n]);
      var held := Accepted(es[..n], oks[..n]);
      AppendKeepsLedger(files[n], AppendAll(held), es[n], headers[n], ios[n], files[n + 1], oks[n]);
      AppendAllSnoc(held, es[n]);
      assert held + [] == held;
    }
    LedgerIsRead(files[|es|], AppendAll(Accepted(es, oks)));
  }

  /** After any sequence of appends the ledger holds, in first-append order, exactly the first entry of
      every title; so its titles are pairwise distinct. */
  lemma LedgerKeepsFirsts(es: seq<InsightEntry>)
    ensures AppendAll(es) == Pick(es, FirstPositions(es, |es|))
    ensures var r := AppendAll(es); forall i, j :: 0 <= i < j < |r| ==> r[i].title != r[j].title
  {
    AppendsPickFirsts(es, |es|);
    assert es[..|es|] == es;
    PositionsAscend(es, |es|);
  }

  ghost predicate FirstsInOrder(es: seq<InsightEntry>, r: seq<nat>) {
    && (forall i, j :: 0 <= i < j < |r| ==> r[i] < r[j])
    && (forall i :: 0 <= i < |r| ==> r[i] < |es| && FirstOfTitle(es, r[i]))
  }

  lemma {:induction false} PositionsAscend(es: seq<InsightEntry>, n: nat)
    requires n <= |es|
    ensures FirstsInOrder(es, FirstPositions(es, n))
  {
    if n > 0 { PositionsAscend(es, n - 1); }
  }
}
