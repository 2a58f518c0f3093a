/**
  The insight ledger: Markdown entries behind a YAML header, printed by `Format` and `Marshal`, read
  back with two regular expressions, and appended to without duplicating titles.
 */
module Insight {
  import opened Sequences
  import opened Text
  import opened Wrappers

  datatype InsightEntry = InsightEntry(
    title: string, what: string, why: string, how: string, when: string, who: string, constraints: string,
    extra: map<string, string>)

  const HEADING := "## Insight: "
  const FIELD := "- **"
  const COLON := "**: "
  const DELIMITER := "---\n"

  predicate Axis(key: string) {
    key == "what" || key == "why" || key == "how" || key == "when" || key == "who" || key == "constraints"
  }

  // ---------- printing ----------

  function Line(key: string, value: string): string { FIELD + (key + (COLON + (value + "\n"))) }

  datatype Field = Field(key: string, value: string)

  function Lines(fs: seq<Field>): string {
    if fs == [] then "" else Line(fs[0].key, fs[0].value) + Lines(fs[1..])
  }

  function AxisFields(e: InsightEntry): seq<Field> {
    [Field("what", e.what), Field("why", e.why), Field("how", e.how), Field("when", e.when), Field("who", e.who),
     Field("constraints", e.constraints)]
  }

  function ExtraFields(extra: map<string, string>, keys: seq<string>): seq<Field>
    requires forall i :: 0 <= i < |keys| ==> keys[i] in extra
  {
    if keys == [] then [] else [Field(keys[0], extra[keys[0]])] + ExtraFields(extra, keys[1..])
  }

  /** InsightEntry.Format, given the sorted extra keys. */
  function Format(e: InsightEntry, keys: seq<string>): string
    requires forall i :: 0 <= i < |keys| ==> keys[i] in e.extra
  {
    HEADING + (e.title + ("\n\n" + Lines(AxisFields(e) + ExtraFields(e.extra, keys))))
  }

  /** The text of a line of an entry. */
  lemma PrintedLine(key: string, value: string, rest: string)
    ensures Line(key, value) + rest == "- **" + key + "**: " + value + "\n" + rest
  {
    ConcatAssoc(FIELD, key, COLON + (value + "\n"));
    ConcatAssoc(FIELD + key, COLON, value + "\n");
    ConcatAssoc(FIELD + key + COLON, value, "\n");
  }

  lemma OneLine(a: Field, more: seq<Field>)
    ensures Lines([a] + more) == Line(a.key, a.value) + Lines(more)
  {
    assert ([a] + more)[1..] == more;
  }

  lemma LinesOfSix(a: Field, b: Field, c: Field, d: Field, e: Field, f: Field, more: seq<Field>)
    ensures Lines([a, b, c, d, e, f] + more)
         == Line(a.key, a.value) + (Line(b.key, b.value) + (Line(c.key, c.value)
            + (Line(d.key, d.value) + (Line(e.key, e.value) + (Line(f.key, f.value) + Lines(more))))))
  {
    OneLine(f, more);
    OneLine(e, [f] + more);
    OneLine(d, [e] + ([f] + more));
    OneLine(c, [d] + ([e] + ([f] + more)));
    OneLine(b, [c] + ([d] + ([e] + ([f] + more))));
    OneLine(a, [b] + ([c] + ([d] + ([e] + ([f] + more)))));
    assert [a, b, c, d, e, f] + more == [a] + ([b] + ([c] + ([d] + ([e] + ([f] + more)))));
  }

  /** The Markdown of an entry: the heading with the title, a blank line, one line for each axis in this order, and
      one line for each extra field in the order of its keys. */
  lemma EntryMarkdown(e: InsightEntry, keys: seq<string>)
    requires forall i :: 0 <= i < |keys| ==> keys[i] in e.extra
    ensures var what, why, how := "- **what**: " + e.what + "\n", "- **why**: " + e.why + "\n", "- **how**: " + e.how + "\n";
      var when, who := "- **when**: " + e.when + "\n", "- **who**: " + e.who + "\n";
      var limits, extras := "- **constraints**: " + e.constraints + "\n", Lines(ExtraFields(e.extra, keys));
      Format(e, keys) == "## Insight: " + (e.title + ("\n\n" + (what + (why + (how + (when + (who + (limits + extras))))))))
    ensures |ExtraFields(e.extra, keys)| == |keys|
    ensures forall i :: 0 <= i < |keys| ==> ExtraFields(e.extra, keys)[i] == Field(keys[i], e.extra[keys[i]])
  {
    ExtraAt(e.extra, keys);
    var more := ExtraFields(e.extra, keys);
    LinesOfSix(Field("what", e.what), Field("why", e.why), Field("how", e.how), Field("when", e.when), Field("who", e.who),
               Field("constraints", e.constraints), more);
    FirstAxes(e);
    LastAxes(e);
  }

  lemma FirstAxes(e: InsightEntry)
    ensures Line("what", e.what) == "- **what**: " + e.what + "\n"
    ensures Line("why", e.why) == "- **why**: " + e.why + "\n"
    ensures Line("how", e.how) == "- **how**: " + e.how + "\n"
  {
    AxisText("what", e.what);
    AxisText("why", e.why);
    AxisText("how", e.how);
    assert "- **" + "what" + "**: " == "- **what**: " && "- **" + "why" + "**: " == "- **why**: ";
    assert "- **" + "how" + "**: " == "- **how**: ";
  }

  lemma LastAxes(e: InsightEntry)
    ensures Line("when", e.when) == "- **when**: " + e.when + "\n"
    ensures Line("who", e.who) == "- **who**: " + e.who + "\n"
    ensures Line("constraints", e.constraints) == "- **constraints**: " + e.constraints + "\n"
  {
    AxisText("when", e.when);
    AxisText("who", e.who);
    AxisText("constraints", e.constraints);
    assert "- **" + "when" + "**: " == "- **when**: " && "- **" + "who" + "**: " == "- **who**: ";
    assert "- **" + "constraints" + "**: " == "- **constraints**: ";
  }

  lemma AxisText(key: string, value: string)
    ensures Line(key, value) == "- **" + key + "**: " + value + "\n"
  {
    PrintedLine(key, value, "");
    ConcatEmpty(Line(key, value));
    ConcatEmpty("- **" + key + "**: " + value + "\n");
  }

  lemma {:induction false} ExtraAt(extra: map<string, string>, keys: seq<string>)
    requires forall i :: 0 <= i < |keys| ==> keys[i] in extra
    ensures |ExtraFields(extra, keys)| == |keys|
    ensures forall i :: 0 <= i < |keys| ==> ExtraFields(extra, keys)[i] == Field(keys[i], extra[keys[i]])
  {
    if keys != [] { ExtraAt(extra, keys[1..]); }
  }

  // ---------- sorted keys ----------

  predicate Ascending(ks: seq<string>) {
    forall i, j :: 0 <= i < j < |ks| ==> Less(ks[i], ks[j])
  }

  /** sort.Strings on the keys of a map: ascending, and exactly the keys. */
  ghost predicate SortedKeys(ks: seq<string>, keys: set<string>) {
    Ascending(ks) && forall k :: k in ks <==> k in keys
  }

  /** The output of sorting does not depend on the iteration order of the map. */
  lemma {:induction false} SortedKeysUnique(a: seq<string>, b: seq<string>, keys: set<string>)
    requires SortedKeys(a, keys) && SortedKeys(b, keys)
    ensures a == b
    decreases |a|
  {
    assert (a != [] ==> a[0] in a) && (b != [] ==> b[0] in b);
    if a != [] && b != [] {
      LeastKey(a, b);
      TailKeys(a, keys);
      TailKeys(b, keys);
      SortedKeysUnique(a[1..], b[1..], keys - {a[0]});
      assert a == [a[0]] + a[1..] && b == [b[0]] + b[1..];
    }
  }

  lemma LeastKey(a: seq<string>, b: seq<string>)
    requires Ascending(a) && Ascending(b) && a != [] && b != [] && a[0] in b && b[0] in a
    ensures a[0] == b[0]
  {
    if a[0] != b[0] {
      assert Less(b[0], a[0]) && Less(a[0], b[0]);
      LessAsymmetric(a[0], b[0]);
    }
  }

  lemma TailKeys(a: seq<string>, keys: set<string>)
    requires SortedKeys(a, keys) && a != []
    ensures SortedKeys(a[1..], keys - {a[0]})
  {
    forall k ensures k in a[1..] <==> k in keys - {a[0]} {
      if k in keys && k != a[0] {
        var i :| 0 <= i < |a| && a[i] == k;
        assert a[1..][i - 1] == k;
      }
      if k in a[1..] {
        var i :| 0 <= i < |a[1..]| && a[1..][i] == k;
        assert Less(a[0], a[i + 1]) && a[i + 1] == k;
        LessIrreflexive(k);
      }
    }
  }

  function InsertKey(k: string, ks: seq<string>): seq<string> {
    if ks == [] || Less(k, ks[0]) then [k] + ks else [ks[0]] + InsertKey(k, ks[1..])
  }

  lemma {:induction false} InsertKeyMembers(k: string, ks: seq<string>)
    ensures forall x :: x in InsertKey(k, ks) <==> x == k || x in ks
  {
    if ks != [] && !Less(k, ks[0]) {
      InsertKeyMembers(k, ks[1..]);
      assert ks == [ks[0]] + ks[1..];
    }
  }

  lemma {:induction false} InsertKeySorts(k: string, ks: seq<string>)
    requires Ascending(ks) && k !in ks
    ensures Ascending(InsertKey(k, ks))
  {
    if ks == [] {
    } else if Less(k, ks[0]) {
      forall j | 0 <= j < |ks| ensures Less(k, ks[j]) {
        if j > 0 { LessTransitive(k, ks[0], ks[j]); }
      }
    } else {
      LessTotal(k, ks[0]);
      assert k != ks[0];
      InsertKeySorts(k, ks[1..]);
      InsertKeyMembers(k, ks[1..]);
      var r := InsertKey(k, ks[1..]);
      forall j | 0 <= j < |r| ensures Less(ks[0], r[j]) {
        assert r[j] in r;
        if r[j] != k {
          var i :| 0 <= i < |ks[1..]| && ks[1..][i] == r[j];
          assert ks[i + 1] == r[j];
        }
      }
    }
  }

  /** Collects the keys in any order and sorts them. */
  method SortKeys(extra: map<string, string>) returns (ks: seq<string>)
    ensures SortedKeys(ks, extra.Keys)
  {
    ks := [];
    var todo := extra.Keys;
    while todo != {}
      invariant todo <= extra.Keys && SortedKeys(ks, extra.Keys - todo)
      decreases todo
    {
      var k :| k in todo;
      InsertKeySorts(k, ks);
      InsertKeyMembers(k, ks);
      ks := InsertKey(k, ks);
      todo := todo - {k};
    }
  }

  // ---------- parsing ----------

  /** The longest prefix without newline: what `.*` matches. */
  function UpToNewline(s: string): (r: string)
    ensures r <= s && '\n' !in r
    ensures |r| < |s| ==> s[|r|] == '\n'
  {
    if s == "" || s[0] == '\n' then "" else [s[0]] + UpToNewline(s[1..])
  }

  /** The longest prefix without star: what `[^*]*` matches. */
  function UpToStar(s: string): (r: string)
    ensures r <= s && '*' !in r
    ensures |r| < |s| ==> s[|r|] == '*'
  {
    if s == "" || s[0] == '*' then "" else [s[0]] + UpToStar(s[1..])
  }

  /** The title, if the heading expression `^## Insight: (.+)$` matches at the start of s. */
  function MatchHeading(s: string): Option<string> {
    if !At(s, HEADING, 0) then None else
    var title := UpToNewline(s[|HEADING|..]);
    if title == "" then None else Some(title)
  }

  /** Key and value, if the field expression `^- \*\*([^*]+)\*\*: (.+)$` matches at the start of s. */
  function MatchField(s: string): Option<Field> {
    if !At(s, FIELD, 0) then None else
    var key := UpToStar(s[|FIELD|..]);
    var rest := s[|FIELD| + |key|..];
    if key == "" || !At(rest, COLON, 0) then None else
    var value := UpToNewline(rest[|COLON|..]);
    if value == "" then None else Some(Field(key, value))
  }

  datatype Section = Section(title: string, body: string)
  datatype Parsed = Parsed(preamble: string, sections: seq<Section>)

  /** All heading matches and the text between them; `bol` says that s starts at the start of a line. */
  function Sections(s: string, bol: bool): Parsed
    decreases |s|
  {
    if bol && MatchHeading(s).Some? then
      var title := MatchHeading(s).value;
      var rest := Sections(s[|HEADING| + |title|..], false);
      Parsed("", [Section(title, rest.preamble)] + rest.sections)
    else if s == "" then Parsed("", [])
    else
      var rest := Sections(s[1..], s[0] == '\n');
      Parsed([s[0]] + rest.preamble, rest.sections)
  }

  /** All field matches in a text. */
  function Fields(s: string, bol: bool): seq<Field>
    decreases |s|
  {
    if bol && MatchField(s).Some? then
      var f := MatchField(s).value;
      [f] + Fields(s[|FIELD| + |f.key| + |COLON| + |f.value|..], false)
    else if s == "" then []
    else Fields(s[1..], s[0] == '\n')
  }

  function SetField(e: InsightEntry, f: Field): InsightEntry {
    if f.key == "what" then e.(what := f.value)
    else if f.key == "why" then e.(why := f.value)
    else if f.key == "how" then e.(how := f.value)
    else if f.key == "when" then e.(when := f.value)
    else if f.key == "who" then e.(who := f.value)
    else if f.key == "constraints" then e.(constraints := f.value)
    else e.(extra := e.extra[f.key := f.value])
  }

  function SetFields(e: InsightEntry, fs: seq<Field>): InsightEntry
    decreases |fs|
  {
    if fs == [] then e else SetFields(SetField(e, fs[0]), fs[1..])
  }

  function EmptyEntry(title: string): InsightEntry {
    InsightEntry(title, "", "", "", "", "", "", map[])
  }

  function EntryOf(sec: Section): InsightEntry {
    SetFields(EmptyEntry(sec.title), Fields(sec.body, true))
  }

  function EntriesOf(secs: seq<Section>): seq<InsightEntry> {
    if secs == [] then [] else [EntryOf(secs[0])] + EntriesOf(secs[1..])
  }

  /** The entries of a Markdown body. */
  function ParseBody(body: string): seq<InsightEntry> { EntriesOf(Sections(body, true).sections) }

  // ---------- the marshalled body ----------

  /** An entry together with its sorted extra keys. */
  datatype Keyed = Keyed(entry: InsightEntry, keys: seq<string>)

  ghost predicate WellKeyed(k: Keyed) { SortedKeys(k.keys, k.entry.extra.Keys) }

  ghost predicate AllKeyed(ks: seq<Keyed>) { forall i :: 0 <= i < |ks| ==> WellKeyed(ks[i]) }

  lemma KeysInExtra(k: Keyed)
    requires WellKeyed(k)
    ensures forall i :: 0 <= i < |k.keys| ==> k.keys[i] in k.entry.extra
  {
    forall i | 0 <= i < |k.keys| ensures k.keys[i] in k.entry.extra { assert k.keys[i] in k.keys; }
  }

  ghost function EntryFields(k: Keyed): seq<Field>
    requires WellKeyed(k)
  {
    KeysInExtra(k);
    AxisFields(k.entry) + ExtraFields(k.entry.extra, k.keys)
  }

  ghost function EntryText(k: Keyed): string
    requires WellKeyed(k)
  {
    KeysInExtra(k);
    Format(k.entry, k.keys)
  }

  /** Entries that follow another one: each is preceded by two line ends. */
  ghost function Tail(ks: seq<Keyed>): string
    requires AllKeyed(ks)
  {
    if ks == [] then "" else "\n\n" + (EntryText(ks[0]) + Tail(ks[1..]))
  }

  /** The body that Marshal writes. */
  ghost function Body(ks: seq<Keyed>): string
    requires AllKeyed(ks)
  {
    if ks == [] then "" else "\n" + (EntryText(ks[0]) + Tail(ks[1..]))
  }

  ghost function Entries(ks: seq<Keyed>): seq<InsightEntry> {
    if ks == [] then [] else [ks[0].entry] + Entries(ks[1..])
  }

  // ---------- what the parser can return ----------

  /** What can be read back: single-line values, a title, and extra fields the expressions can see, whose
      keys may span lines. */
  predicate Faithful(e: InsightEntry) {
    && e.title != "" && '\n' !in e.title
    && '\n' !in e.what && '\n' !in e.why && '\n' !in e.how && '\n' !in e.when && '\n' !in e.who && '\n' !in e.constraints
    && forall k <- e.extra.Keys :: FaithfulExtra(k, e.extra[k])
  }

  predicate FaithfulExtra(k: string, v: string) {
    k != "" && '*' !in k && !Axis(k) && !HeadingIn(k, false) && v != "" && '\n' !in v
  }

  /** A heading starts here, if this is the start of a line and the key is followed by stars. */
  predicate StartsHeading(k: string) {
    At(k, HEADING, 0) && (|k| == |HEADING| || k[|HEADING|] != '\n')
  }

  /** A line inside the key reads as a heading. */
  predicate HeadingIn(k: string, bol: bool) {
    (bol && StartsHeading(k)) || (k != "" && HeadingIn(k[1..], k[0] == '\n'))
  }

  predicate Readable(f: Field) {
    f.key != "" && '*' !in f.key && !HeadingIn(f.key, false) && f.value != "" && '\n' !in f.value
  }

  /** No line of the text is a heading. */
  ghost predicate HeadingFree(s: string, bol: bool) {
    (bol ==> MatchHeading(s).None?) && (s == "" || HeadingFree(s[1..], s[0] == '\n'))
  }

  lemma {:induction false} HeadingFreeAfter(w: string, s: string, bol: bool)
    requires HeadingFree(w + s, bol) && w != ""
    ensures HeadingFree(s, false)
  {
    assert (w + s)[1..] == w[1..] + s;
    if |w| == 1 {
      assert w[1..] + s == s;
    } else {
      HeadingFreeAfter(w[1..], s, w[0] == '\n');
    }
  }

  /** Before a star, the key alone decides whether a heading starts. */
  lemma KeyHeading(k: string, tail: string)
    requires tail != "" && tail[0] == '*'
    ensures MatchHeading(k + tail).Some? <==> StartsHeading(k)
  {
    var s, n := k + tail, |HEADING|;
    if |k| < n {
      assert s[|k|] == '*';
      assert |s| >= n ==> s[0..n][|k|] == '*';
    } else {
      assert s[0..n] == k[0..n];
      assert s[n..] != "" && s[n..][0] == (if |k| == n then '*' else k[n]);
    }
  }

  lemma {:induction false} KeyHasNoHeading(k: string, tail: string, bol: bool)
    requires tail != "" && tail[0] == '*' && HeadingFree(k + tail, bol)
    ensures !HeadingIn(k, bol)
  {
    KeyHeading(k, tail);
    if k != "" {
      assert (k + tail)[1..] == k[1..] + tail;
      KeyHasNoHeading(k[1..], tail, k[0] == '\n');
    }
  }

  lemma MatchedText(s: string) returns (rest: string)
    requires MatchField(s).Some?
    ensures var f := MatchField(s).value;
            s == FIELD + (f.key + (COLON + (f.value + rest))) && f.key != "" && '*' !in f.key && f.value != "" && '\n' !in f.value
  {
    var f := MatchField(s).value;
    var a := s[|FIELD|..];
    var b := a[|f.key|..];
    var c := b[|COLON|..];
    rest := c[|f.value|..];
    FrontAndRest(s, FIELD);
    FrontAndRest(a, f.key);
    FrontAndRest(b, COLON);
    FrontAndRest(c, f.value);
  }

  lemma FrontAndRest(s: string, t: string)
    requires At(s, t, 0) || t <= s
    ensures s == t + s[|t|..]
  {
  }

  lemma SliceAfter(w: string, d: string, n: nat)
    requires n == |w|
    ensures (w + d)[n..] == d && n <= |w + d|
  {
  }

  /** A field found in a text without headings is readable, and so is the rest of the text. */
  lemma FoundIsReadable(s: string)
    requires MatchField(s).Some? && HeadingFree(s, true)
    ensures var f := MatchField(s).value; var n := |FIELD| + |f.key| + |COLON| + |f.value|;
            n <= |s| && Readable(f) && HeadingFree(s[n..], false)
  {
    var f := MatchField(s).value;
    var rest := MatchedText(s);
    HeadingFreeAfter(FIELD, f.key + (COLON + (f.value + rest)), true);
    KeyHasNoHeading(f.key, COLON + (f.value + rest), false);
    SplitFound(f, rest);
    HeadingFreeAfter(FIELD + f.key + COLON + f.value, rest, true);
    SliceAfter(FIELD + f.key + COLON + f.value, rest, |FIELD| + |f.key| + |COLON| + |f.value|);
  }

  lemma SplitFound(f: Field, rest: string)
    ensures (FIELD + f.key + COLON + f.value) + rest == FIELD + (f.key + (COLON + (f.value + rest)))
  {
  }

  lemma {:induction false} FieldsAreReadable(s: string, bol: bool)
    requires HeadingFree(s, bol)
    ensures forall i :: 0 <= i < |Fields(s, bol)| ==> Readable(Fields(s, bol)[i])
    decreases |s|
  {
    if bol && MatchField(s).Some? {
      FoundIsReadable(s);
      var f := MatchField(s).value;
      FieldsAreReadable(s[|FIELD| + |f.key| + |COLON| + |f.value|..], false);
    } else if s != "" {
      FieldsAreReadable(s[1..], s[0] == '\n');
    }
  }

  lemma {:induction false} SetFieldsFaithful(e: InsightEntry, fs: seq<Field>)
    requires Faithful(e) && forall i :: 0 <= i < |fs| ==> Readable(fs[i])
    ensures Faithful(SetFields(e, fs))
    decreases |fs|
  {
    if fs != [] {
      assert Readable(fs[0]);
      SetFieldsFaithful(SetField(e, fs[0]), fs[1..]);
    }
  }

  ghost predicate Titled(secs: seq<Section>) {
    forall i :: 0 <= i < |secs| ==> secs[i].title != "" && '\n' !in secs[i].title
  }

  lemma {:induction false} SectionTitles(s: string, bol: bool)
    ensures Titled(Sections(s, bol).sections)
    decreases |s|
  {
    if bol && MatchHeading(s).Some? {
      SectionTitles(s[|HEADING| + |MatchHeading(s).value|..], false);
    } else if s != "" {
      SectionTitles(s[1..], s[0] == '\n');
    }
  }

  /** A heading in a text is one in every longer text. */
  lemma HeadingExtends(a: string, b: string)
    ensures MatchHeading(a).Some? ==> MatchHeading(a + b).Some?
  {
    if MatchHeading(a).Some? {
      assert (a + b)[0..|HEADING|] == a[0..|HEADING|];
      assert (a + b)[|HEADING|..][0] == a[|HEADING|..][0];
    }
  }

  lemma {:induction false} PreambleIsFront(s: string, bol: bool)
    ensures Sections(s, bol).preamble <= s
    decreases |s|
  {
    if !(bol && MatchHeading(s).Some?) && s != "" {
      PreambleIsFront(s[1..], s[0] == '\n');
    }
  }

  /** The text between headings holds none. */
  ghost predicate BodiesFree(secs: seq<Section>) {
    forall i :: 0 <= i < |secs| ==> HeadingFree(secs[i].body, true)
  }

  lemma {:induction false} SectionsAreFree(s: string, bol: bool)
    ensures HeadingFree(Sections(s, bol).preamble, bol) && BodiesFree(Sections(s, bol).sections)
    decreases |s|
  {
    if bol && MatchHeading(s).Some? {
      var title := MatchHeading(s).value;
      var rest := s[|HEADING| + |title|..];
      SectionsAreFree(rest, false);
      AfterTitle(s);
      BodyStartsFree(rest);
    } else if s != "" {
      SectionsAreFree(s[1..], s[0] == '\n');
      PreambleIsFront(s, bol);
      var p := Sections(s, bol).preamble;
      HeadingExtends(p, s[|p|..]);
      assert p[1..] == Sections(s[1..], s[0] == '\n').preamble;
    }
  }

  lemma AfterTitle(s: string)
    requires MatchHeading(s).Some?
    ensures var n := |HEADING| + |MatchHeading(s).value|; n <= |s| && (s[n..] == "" || s[n..][0] == '\n')
  {
    var title := MatchHeading(s).value;
    assert s[|HEADING|..][|title|..] == s[|HEADING| + |title|..];
  }

  lemma BodyStartsFree(rest: string)
    requires rest == "" || rest[0] == '\n'
    requires HeadingFree(Sections(rest, false).preamble, false)
    ensures HeadingFree(Sections(rest, false).preamble, true)
  {
    var p := Sections(rest, false).preamble;
    assert rest == "" ==> p == "";
    assert rest != "" ==> p[0] == '\n';
    assert |p| >= |HEADING| ==> p[0..|HEADING|][0] == p[0];
  }

  lemma {:induction false} EntriesFaithful(secs: seq<Section>)
    requires Titled(secs) && BodiesFree(secs)
    ensures |EntriesOf(secs)| == |secs| && forall i :: 0 <= i < |secs| ==> Faithful(EntriesOf(secs)[i])
  {
    if secs != [] {
      FieldsAreReadable(secs[0].body, true);
      SetFieldsFaithful(EmptyEntry(secs[0].title), Fields(secs[0].body, true));
      EntriesFaithful(secs[1..]);
    }
  }

  /** Whatever the text, the parser returns faithful entries only. */
  lemma ParsedIsFaithful(body: string)
    ensures forall i :: 0 <= i < |ParseBody(body)| ==> Faithful(ParseBody(body)[i])
  {
    SectionTitles(body, true);
    SectionsAreFree(body, true);
    EntriesFaithful(Sections(body, true).sections);
  }

  // ---------- reading lines ----------

  lemma {:induction false} UpToNewlineIs(w: string, rest: string)
    requires '\n' !in w
    ensures UpToNewline(w + ("\n" + rest)) == w
  {
    var s := w + ("\n" + rest);
    if w != "" {
      UpToNewlineIs(w[1..], rest);
      assert s[1..] == w[1..] + ("\n" + rest);
    }
  }

  lemma {:induction false} UpToStarIs(w: string, rest: string)
    requires '*' !in w && rest != "" && rest[0] == '*'
    ensures UpToStar(w + rest) == w
  {
    if w == "" {
      assert w + rest == rest;
    } else {
      UpToStarIs(w[1..], rest);
      assert (w + rest)[1..] == w[1..] + rest;
    }
  }

  function Prepend(w: string, p: Parsed): Parsed { Parsed(w + p.preamble, p.sections) }

  lemma PrependTwice(a: string, b: string, p: Parsed)
    ensures Prepend(a, Prepend(b, p)) == Prepend(a + b, p)
  {
    assert a + (b + p.preamble) == (a + b) + p.preamble;
  }

  /** Inside a line nothing matches. */
  lemma {:induction false} FieldsInLine(w: string, rest: string)
    requires '\n' !in w
    ensures Fields(w + rest, false) == Fields(rest, false)
  {
    if w == "" {
      assert w + rest == rest;
    } else {
      FieldsInLine(w[1..], rest);
      assert (w + rest)[1..] == w[1..] + rest;
    }
  }

  lemma SectionsStep(c: char, rest: string, bol: bool)
    requires !bol || MatchHeading([c] + rest).None?
    ensures Sections([c] + rest, bol) == Prepend([c], Sections(rest, c == '\n'))
  {
    assert ([c] + rest)[1..] == rest;
  }

  lemma {:induction false} SectionsInLine(w: string, rest: string)
    requires '\n' !in w
    ensures Sections(w + rest, false) == Prepend(w, Sections(rest, false))
  {
    if w == "" {
      ConcatEmpty(rest);
      ConcatEmpty(Sections(rest, false).preamble);
    } else {
      SectionsInLine(w[1..], rest);
      HeadOfConcat(w, rest);
      SectionsStep(w[0], w[1..] + rest, false);
      PrependTwice([w[0]], w[1..], Sections(rest, false));
      assert [w[0]] + w[1..] == w;
    }
  }

  lemma NewlineStartsLine(rest: string)
    ensures Fields("\n" + rest, false) == Fields(rest, true) && Fields("\n" + rest, true) == Fields(rest, true)
    ensures forall bol :: Sections("\n" + rest, bol) == Prepend("\n", Sections(rest, true))
  {
    var s := "\n" + rest;
    assert s[1..] == rest && s[0] == '\n';
    assert |s| >= |FIELD| ==> s[0..|FIELD|][0] == '\n';
    assert |s| >= |HEADING| ==> s[0..|HEADING|][0] == '\n';
  }

  /** A field line is one match if it is readable at all; a line with an empty value is skipped. */
  lemma FieldLine(k: string, v: string, rest: string)
    requires k != "" && '*' !in k && '\n' !in v && (v == "" ==> '\n' !in k)
    ensures Fields(Line(k, v) + rest, true) == (if v == "" then [] else [Field(k, v)]) + Fields(rest, true)
  {
    MatchLine(k, v, rest);
    NewlineStartsLine(rest);
    if v == "" {
      LineText(k, v, rest);
      var w := FIELD[1..] + k + COLON + v;
      FieldsInLine(w, "\n" + rest);
      assert (['-'] + (w + ("\n" + rest)))[1..] == w + ("\n" + rest);
    } else {
      AfterLine(k, v, rest);
    }
  }

  lemma LineText(k: string, v: string, rest: string)
    ensures Line(k, v) + rest == ['-'] + (FIELD[1..] + k + COLON + v + ("\n" + rest))
  {
    assert FIELD == ['-'] + FIELD[1..];
  }

  lemma AfterLine(k: string, v: string, rest: string)
    ensures (Line(k, v) + rest)[|FIELD| + |k| + |COLON| + |v|..] == "\n" + rest
  {
    assert Line(k, v) + rest == (FIELD + k + COLON + v) + ("\n" + rest);
  }

  lemma LineParts(k: string, v: string, rest: string)
    ensures Line(k, v) + rest == FIELD + (k + (COLON + (v + ("\n" + rest))))
  {
  }

  lemma MatchLine(k: string, v: string, rest: string)
    requires k != "" && '*' !in k && '\n' !in v
    ensures MatchField(Line(k, v) + rest) == if v == "" then None else Some(Field(k, v))
  {
    LineParts(k, v, rest);
    MatchParts(k, v + ("\n" + rest));
    UpToNewlineIs(v, rest);
  }

  lemma MatchParts(k: string, tail: string)
    requires '*' !in k
    ensures var s := FIELD + (k + (COLON + tail));
            At(s, FIELD, 0) && UpToStar(s[|FIELD|..]) == k && At(s[|FIELD| + |k|..], COLON, 0)
            && s[|FIELD| + |k|..][|COLON|..] == tail
  {
    var s := FIELD + (k + (COLON + tail));
    assert s[|FIELD|..] == k + (COLON + tail);
    UpToStarIs(k, COLON + tail);
    assert s[|FIELD| + |k|..] == COLON + tail;
  }

  /** A key without headings, before a star, holds none. */
  lemma {:induction false} SectionsInKey(k: string, tail: string, bol: bool)
    requires tail != "" && tail[0] == '*' && !HeadingIn(k, bol)
    ensures Sections(k + tail, bol) == Prepend(k, Sections(tail, false))
  {
    KeyHeading(k, tail);
    if k == "" {
      assert k + tail == tail;
      SameFirstLine(tail, bol);
      assert Prepend("", Sections(tail, false)) == Sections(tail, false);
    } else {
      SectionsInKey(k[1..], tail, k[0] == '\n');
      assert k + tail == [k[0]] + (k[1..] + tail);
      SectionsStep(k[0], k[1..] + tail, bol);
      PrependTwice([k[0]], k[1..], Sections(tail, false));
      assert [k[0]] + k[1..] == k;
    }
  }

  lemma SameFirstLine(tail: string, bol: bool)
    requires tail != "" && MatchHeading(tail).None?
    ensures Sections(tail, bol) == Sections(tail, false)
  {
  }

  /** Field lines hold no heading. */
  lemma LineIsNoHeading(k: string, v: string, rest: string)
    requires '\n' !in v && !HeadingIn(k, false)
    ensures Sections(Line(k, v) + rest, true) == Prepend(Line(k, v), Sections(rest, true))
  {
    var tail := COLON + (v + ("\n" + rest));
    LineParts(k, v, rest);
    LineOpens(k + tail);
    SectionsInKey(k, tail, false);
    ValueEnds(v, rest);
    PrependTwice(k, COLON + (v + "\n"), Sections(rest, true));
    PrependTwice(FIELD, k + (COLON + (v + "\n")), Sections(rest, true));
  }

  lemma LineOpens(s: string)
    ensures Sections(FIELD + s, true) == Prepend(FIELD, Sections(s, false))
  {
    var w := FIELD[1..];
    assert FIELD + s == ['-'] + (w + s);
    assert |FIELD + s| >= |HEADING| ==> (FIELD + s)[0..|HEADING|][0] == '-';
    SectionsStep('-', w + s, true);
    SectionsInLine(w, s);
    PrependTwice(['-'], w, Sections(s, false));
    assert ['-'] + w == FIELD;
  }

  lemma ValueEnds(v: string, rest: string)
    requires '\n' !in v
    ensures Sections(COLON + (v + ("\n" + rest)), false) == Prepend(COLON + (v + "\n"), Sections(rest, true))
  {
    var w, p := COLON + v, Sections(rest, true);
    assert COLON + (v + ("\n" + rest)) == w + ("\n" + rest);
    SectionsInLine(w, "\n" + rest);
    NewlineStartsLine(rest);
    PrependTwice(w, "\n", p);
    assert w + "\n" == COLON + (v + "\n");
  }

  /** Fields whose lines are read as they are. */
  ghost predicate LinesOk(fs: seq<Field>) {
    forall i :: 0 <= i < |fs| ==> '\n' !in fs[i].value && !HeadingIn(fs[i].key, false) && (fs[i].value == "" ==> '\n' !in fs[i].key)
  }

  ghost predicate PlainKeys(fs: seq<Field>) {
    forall i :: 0 <= i < |fs| ==> fs[i].key != "" && '*' !in fs[i].key
  }

  function NonEmpty(fs: seq<Field>): seq<Field> {
    if fs == [] then [] else (if fs[0].value == "" then [] else [fs[0]]) + NonEmpty(fs[1..])
  }

  lemma LinesCons(fs: seq<Field>, rest: string)
    requires fs != []
    ensures Lines(fs) + rest == Line(fs[0].key, fs[0].value) + (Lines(fs[1..]) + rest)
    ensures Lines(fs) == Line(fs[0].key, fs[0].value) + Lines(fs[1..])
  {
  }

  lemma {:induction false} FieldsOfLines(fs: seq<Field>, rest: string)
    requires LinesOk(fs) && PlainKeys(fs)
    ensures Fields(Lines(fs) + rest, true) == NonEmpty(fs) + Fields(rest, true)
  {
    if fs == [] {
      assert Lines(fs) + rest == rest;
    } else {
      FieldsOfLines(fs[1..], rest);
      LinesCons(fs, rest);
      FieldLine(fs[0].key, fs[0].value, Lines(fs[1..]) + rest);
      NonEmptyCons(fs, Fields(rest, true));
    }
  }

  lemma NonEmptyCons(fs: seq<Field>, more: seq<Field>)
    requires fs != []
    ensures NonEmpty(fs) + more == (if fs[0].value == "" then [] else [Field(fs[0].key, fs[0].value)]) + (NonEmpty(fs[1..]) + more)
  {
  }

  lemma {:induction false} SectionsOfLines(fs: seq<Field>, rest: string)
    requires LinesOk(fs)
    ensures Sections(Lines(fs) + rest, true) == Prepend(Lines(fs), Sections(rest, true))
  {
    if fs == [] {
      assert Lines(fs) + rest == rest && Prepend("", Sections(rest, true)) == Sections(rest, true);
    } else {
      SectionsOfLines(fs[1..], rest);
      LinesCons(fs, rest);
      LineIsNoHeading(fs[0].key, fs[0].value, Lines(fs[1..]) + rest);
      PrependTwice(Line(fs[0].key, fs[0].value), Lines(fs[1..]), Sections(rest, true));
    }
  }

  // ---------- reading a marshalled body ----------

  lemma {:induction false} ExtraFieldsAre(extra: map<string, string>, keys: seq<string>)
    requires forall i :: 0 <= i < |keys| ==> keys[i] in extra
    ensures |ExtraFields(extra, keys)| == |keys|
    ensures forall i :: 0 <= i < |keys| ==> ExtraFields(extra, keys)[i] == Field(keys[i], extra[keys[i]])
  {
    if keys != [] { ExtraFieldsAre(extra, keys[1..]); }
  }

  lemma EntryFieldsAre(k: Keyed)
    requires WellKeyed(k) && Faithful(k.entry)
    ensures LinesOk(EntryFields(k)) && PlainKeys(EntryFields(k))
  {
    KeysInExtra(k);
    AxisFieldsAre(k.entry);
    ExtrasAreRead(k);
  }

  lemma AxisFieldsAre(e: InsightEntry)
    requires Faithful(e)
    ensures LinesOk(AxisFields(e)) && PlainKeys(AxisFields(e))
  {
    var fs := AxisFields(e);
    forall i | 0 <= i < |fs| ensures fs[i].key != "" && '*' !in fs[i].key && '\n' !in fs[i].key && !HeadingIn(fs[i].key, false) {
      AxisKeyIsPlain(fs[i].key);
      ShortHasNoHeading(fs[i].key, false);
    }
  }

  lemma AxisKeyIsPlain(k: string)
    requires Axis(k)
    ensures k != "" && '*' !in k && '\n' !in k && '#' !in k && |k| <= |HEADING|
  {
  }

  lemma {:induction false} ShortHasNoHeading(k: string, bol: bool)
    requires |k| <= |HEADING| && '#' !in k
    ensures !HeadingIn(k, bol)
  {
    assert |k| >= |HEADING| ==> k[0..|HEADING|][0] == k[0];
    if k != "" { ShortHasNoHeading(k[1..], k[0] == '\n'); }
  }

  lemma ExtrasAreRead(k: Keyed)
    requires WellKeyed(k) && Faithful(k.entry)
    requires forall i :: 0 <= i < |k.keys| ==> k.keys[i] in k.entry.extra
    ensures LinesOk(ExtraFields(k.entry.extra, k.keys)) && PlainKeys(ExtraFields(k.entry.extra, k.keys))
  {
    ExtraFieldsAre(k.entry.extra, k.keys);
    forall i | 0 <= i < |k.keys|
      ensures FaithfulExtra(k.keys[i], k.entry.extra[k.keys[i]])
    {
      assert k.keys[i] in k.entry.extra.Keys;
    }
  }

  ghost predicate Readables(ks: seq<Keyed>) {
    forall i :: 0 <= i < |ks| ==> WellKeyed(ks[i]) && Faithful(ks[i].entry)
  }

  /** The sections of a marshalled body: the field lines, with the separator of the next entry. */
  ghost function SectionsOf(ks: seq<Keyed>): seq<Section>
    requires AllKeyed(ks)
  {
    if ks == [] then [] else
    [Section(ks[0].entry.title, "\n\n" + (Lines(EntryFields(ks[0])) + if |ks| == 1 then "" else "\n\n"))] + SectionsOf(ks[1..])
  }

  lemma HeadingMatches(title: string, rest: string)
    requires title != "" && '\n' !in title
    ensures Sections(HEADING + (title + ("\n\n" + rest)), true)
         == Parsed("", [Section(title, "\n\n" + Sections(rest, true).preamble)] + Sections(rest, true).sections)
  {
    var s := HEADING + (title + ("\n\n" + rest));
    HeadingText(title, rest);
    TwoLineEnds(rest, false);
  }

  lemma TwoLineEnds(rest: string, bol: bool)
    ensures Sections("\n\n" + rest, bol) == Prepend("\n\n", Sections(rest, true))
  {
    NewlineStartsLine(rest);
    NewlineStartsLine("\n" + rest);
    PrependTwice("\n", "\n", Sections(rest, true));
    DoubleEnd(rest);
  }

  lemma DoubleEnd(rest: string)
    ensures "\n" + ("\n" + rest) == "\n\n" + rest && "\n" + "\n" == "\n\n"
  {
  }

  lemma HeadingText(title: string, rest: string)
    requires title != "" && '\n' !in title
    ensures var s := HEADING + (title + ("\n\n" + rest));
            MatchHeading(s) == Some(title) && s[|HEADING| + |title|..] == "\n\n" + rest
  {
    var s := HEADING + (title + ("\n\n" + rest));
    assert s[|HEADING|..] == title + ("\n\n" + rest);
    assert "\n\n" + rest == "\n" + ("\n" + rest);
    UpToNewlineIs(title, "\n" + rest);
  }

  lemma EntrySections(k: Keyed, rest: string)
    requires WellKeyed(k) && Faithful(k.entry)
    ensures Sections(EntryText(k) + rest, true)
         == Parsed("", [Section(k.entry.title, "\n\n" + (Lines(EntryFields(k)) + Sections(rest, true).preamble))]
                       + Sections(rest, true).sections)
  {
    var lines := Lines(EntryFields(k));
    assert EntryText(k) + rest == HEADING + (k.entry.title + ("\n\n" + (lines + rest)));
    HeadingMatches(k.entry.title, lines + rest);
    EntryFieldsAre(k);
    SectionsOfLines(EntryFields(k), rest);
  }

  lemma {:induction false} TailSections(ks: seq<Keyed>)
    requires Readables(ks)
    ensures Sections(Tail(ks), true) == Parsed(if ks == [] then "" else "\n\n", SectionsOf(ks))
  {
    if ks != [] {
      TailSections(ks[1..]);
      EntrySections(ks[0], Tail(ks[1..]));
      TwoLineEnds(EntryText(ks[0]) + Tail(ks[1..]), true);
      ConcatEmpty("\n\n");
    }
  }

  lemma BodySections(ks: seq<Keyed>)
    requires Readables(ks)
    ensures Sections(Body(ks), true).sections == SectionsOf(ks)
  {
    if ks != [] {
      TailSections(ks[1..]);
      EntrySections(ks[0], Tail(ks[1..]));
      NewlineStartsLine(EntryText(ks[0]) + Tail(ks[1..]));
    }
  }

  // ---------- reading the fields of an entry ----------

  lemma {:induction false} SetFieldsConcat(e: InsightEntry, a: seq<Field>, b: seq<Field>)
    ensures SetFields(e, a + b) == SetFields(SetFields(e, a), b)
    decreases |a|
  {
    if a == [] {
      assert a + b == b;
    } else {
      SetFieldsConcat(SetField(e, a[0]), a[1..], b);
      assert (a + b)[1..] == a[1..] + b;
    }
  }

  lemma {:induction false} NonEmptyConcat(a: seq<Field>, b: seq<Field>)
    ensures NonEmpty(a + b) == NonEmpty(a) + NonEmpty(b)
  {
    if a == [] {
      assert a + b == b;
    } else {
      NonEmptyConcat(a[1..], b);
      assert (a + b)[1..] == a[1..] + b;
      NonEmptyCons(a, NonEmpty(b));
    }
  }

  /** Skipping an axis whose value is empty leaves it empty. */
  lemma SetNonEmpty(e: InsightEntry, f: Field, rest: seq<Field>)
    requires f.value == "" ==> SetField(e, f) == e
    ensures SetFields(e, NonEmpty([f] + rest)) == SetFields(SetField(e, f), NonEmpty(rest))
  {
    assert ([f] + rest)[1..] == rest;
    if f.value != "" {
      assert ([f] + NonEmpty(rest))[1..] == NonEmpty(rest);
    } else {
      assert [] + NonEmpty(rest) == NonEmpty(rest);
    }
  }

  lemma AxesAreSet(e: InsightEntry)
    ensures SetFields(EmptyEntry(e.title), NonEmpty(AxisFields(e))) == e.(extra := map[])
  {
    var e0 := EmptyEntry(e.title);
    var e3 := e0.(what := e.what, why := e.why, how := e.how);
    SetThree(e0, Field("what", e.what), Field("why", e.why), Field("how", e.how));
    SetThree(e3, Field("when", e.when), Field("who", e.who), Field("constraints", e.constraints));
    var a := [Field("what", e.what), Field("why", e.why), Field("how", e.how)];
    var b := [Field("when", e.when), Field("who", e.who), Field("constraints", e.constraints)];
    assert AxisFields(e) == a + b;
    NonEmptyConcat(a, b);
    SetFieldsConcat(e0, NonEmpty(a), NonEmpty(b));
  }

  lemma SetThree(e: InsightEntry, f: Field, g: Field, h: Field)
    requires f.value == "" ==> SetField(e, f) == e
    requires g.value == "" ==> SetField(SetField(e, f), g) == SetField(e, f)
    requires h.value == "" ==> SetField(SetField(SetField(e, f), g), h) == SetField(SetField(e, f), g)
    ensures SetFields(e, NonEmpty([f, g, h])) == SetField(SetField(SetField(e, f), g), h)
  {
    assert [f, g, h] == [f] + [g, h] && [g, h] == [g] + [h] && [h] == [h] + [];
    SetNonEmpty(e, f, [g, h]);
    SetNonEmpty(SetField(e, f), g, [h]);
    SetNonEmpty(SetField(SetField(e, f), g), h, []);
  }

  /** Setting the extra fields one by one. */
  ghost function SetAll(m: map<string, string>, extra: map<string, string>, keys: seq<string>): map<string, string>
    requires forall i :: 0 <= i < |keys| ==> keys[i] in extra
    decreases |keys|
  {
    if keys == [] then m else SetAll(m[keys[0] := extra[keys[0]]], extra, keys[1..])
  }

  lemma {:induction false} SetAllMembers(m: map<string, string>, extra: map<string, string>, keys: seq<string>)
    requires forall i :: 0 <= i < |keys| ==> keys[i] in extra
    ensures forall k :: k in SetAll(m, extra, keys) <==> k in m || k in keys
    ensures forall k :: k in SetAll(m, extra, keys) ==> SetAll(m, extra, keys)[k] == if k in keys then extra[k] else m[k]
    decreases |keys|
  {
    if keys != [] {
      SetAllMembers(m[keys[0] := extra[keys[0]]], extra, keys[1..]);
      assert keys == [keys[0]] + keys[1..];
    }
  }

  lemma {:induction false} ExtrasAreSet(e: InsightEntry, extra: map<string, string>, keys: seq<string>)
    requires forall i :: 0 <= i < |keys| ==> keys[i] in extra && extra[keys[i]] != "" && !Axis(keys[i])
    ensures NonEmpty(ExtraFields(extra, keys)) == ExtraFields(extra, keys)
    ensures SetFields(e, ExtraFields(extra, keys)) == e.(extra := SetAll(e.extra, extra, keys))
    decreases |keys|
  {
    if keys != [] {
      ExtrasAreSet(e.(extra := e.extra[keys[0] := extra[keys[0]]]), extra, keys[1..]);
      var fs := ExtraFields(extra, keys);
      assert fs[1..] == ExtraFields(extra, keys[1..]);
    }
  }

  lemma EntryIsRead(k: Keyed, suffix: string)
    requires WellKeyed(k) && Faithful(k.entry)
    requires suffix == "" || suffix == "\n\n"
    ensures EntryOf(Section(k.entry.title, "\n\n" + (Lines(EntryFields(k)) + suffix))) == k.entry
  {
    var fs := EntryFields(k);
    EntryFieldsAre(k);
    FieldsOfLines(fs, suffix);
    BlankFields(Lines(fs) + suffix);
    SuffixHasNoFields(suffix);
    assert NonEmpty(fs) + [] == NonEmpty(fs);
    EntryIsSet(k);
  }

  lemma EntryIsSet(k: Keyed)
    requires WellKeyed(k) && Faithful(k.entry)
    ensures SetFields(EmptyEntry(k.entry.title), NonEmpty(EntryFields(k))) == k.entry
  {
    var e := k.entry;
    KeysInExtra(k);
    forall i | 0 <= i < |k.keys| ensures e.extra[k.keys[i]] != "" && !Axis(k.keys[i]) {
      assert k.keys[i] in e.extra.Keys;
    }
    var xs := ExtraFields(e.extra, k.keys);
    NonEmptyConcat(AxisFields(e), xs);
    ExtrasAreSet(e.(extra := map[]), e.extra, k.keys);
    SetFieldsConcat(EmptyEntry(e.title), NonEmpty(AxisFields(e)), xs);
    AxesAreSet(e);
    SetAllMembers(map[], e.extra, k.keys);
    assert SetAll(map[], e.extra, k.keys) == e.extra;
  }

  lemma BlankFields(rest: string)
    ensures Fields("\n\n" + rest, true) == Fields(rest, true)
  {
    NewlineStartsLine(rest);
    NewlineStartsLine("\n" + rest);
    assert "\n\n" + rest == "\n" + ("\n" + rest);
  }

  lemma SuffixHasNoFields(suffix: string)
    requires suffix == "" || suffix == "\n\n"
    ensures Fields(suffix, true) == []
  {
    BlankFields("");
    assert "\n\n" + "" == "\n\n";
  }

  lemma {:induction false} SectionsAreRead(ks: seq<Keyed>)
    requires Readables(ks)
    ensures EntriesOf(SectionsOf(ks)) == Entries(ks)
  {
    if ks != [] {
      EntryIsRead(ks[0], if |ks| == 1 then "" else "\n\n");
      SectionsAreRead(ks[1..]);
      assert SectionsOf(ks)[1..] == SectionsOf(ks[1..]);
    }
  }

  lemma {:induction false} EntriesAre(ks: seq<Keyed>)
    ensures |Entries(ks)| == |ks| && forall i :: 0 <= i < |ks| ==> Entries(ks)[i] == ks[i].entry
  {
    if ks != [] { EntriesAre(ks[1..]); }
  }

  /** A marshalled body is read back as the same entries exactly when every entry is faithful: titled,
      single-line, with extra keys that are nonempty, free of stars and of headings and no axis name, and
      with nonempty extra values. */
  lemma BodyRoundTripIff(ks: seq<Keyed>)
    requires AllKeyed(ks)
    ensures ParseBody(Body(ks)) == Entries(ks) <==> forall i :: 0 <= i < |ks| ==> Faithful(ks[i].entry)
  {
    EntriesAre(ks);
    if ParseBody(Body(ks)) == Entries(ks) {
      ParsedIsFaithful(Body(ks));
    }
    if forall i :: 0 <= i < |ks| ==> Faithful(ks[i].entry) {
      BodySections(ks);
      SectionsAreRead(ks);
    }
  }
}
