/**
  The review-gate section of a pull-request body: replacing the section is last-writer-wins and leaves
  the rest of the body alone.
 */
module ReviewGate {
  import opened Sequences
  import opened Text

  const HEADER := "## Review Gate"
  const NEXT_HEADER := "\n## "

  datatype Status = Status(passed: bool, skipped: bool, cycle: int, maxCycles: int)

  function Digits(n: nat): string {
    if n < 10 then [Digit(n)] else Digits(n / 10) + [Digit(n % 10)]
  }

  /** %d */
  function Decimal(n: int): string { if n < 0 then "-" + Digits(-n) else Digits(n) }

  const SKIPPED := "- Status: **SKIPPED** "
  const NO_COMMAND := "(no review command configured)"
  const PASSED := "- Status: **PASSED** (cycle "
  const NO_COMMENTS := ", 0 comments remaining)"
  const NOT_RESOLVED := "- Status: **NOT RESOLVED** ("
  const EXHAUSTED := " cycles exhausted, comments remaining)"

  /** The one line of the section. */
  function StatusLine(s: Status): string {
    if s.skipped then SKIPPED + NO_COMMAND
    else if s.passed then PASSED + Progress(s) + NO_COMMENTS
    else NOT_RESOLVED + Progress(s) + EXHAUSTED
  }

  function Progress(s: Status): string { Decimal(s.cycle) + "/" + Decimal(s.maxCycles) }

  function SectionTail(line: string): string { "\n\n" + (line + "\n") }

  function Section(line: string): string { HEADER + SectionTail(line) }

  function FormatSection(s: Status): string { Section(StatusLine(s)) }

  function AppendReviewGateSection(body: string, section: string): string {
    var idx := IndexOf(body, HEADER);
    if idx == -1 then TrimRightNewlines(body) + "\n\n" + section
    else
      var rest := body[idx + |HEADER|..];
      var next := IndexOf(rest, NEXT_HEADER);
      if next == -1 then body[..idx] + section
      else TrimRightNewlines(body[..idx] + section) + "\n" + rest[next..]
  }

  // ---------- the section's shape ----------

  /** A line that cannot be mistaken for the end of the section. */
  ghost predicate PlainLine(line: string) {
    line != "" && line[0] != '#' && '\n' !in line
  }

  lemma {:induction false} DigitsPlain(n: nat)
    ensures '\n' !in Digits(n)
  {
    if n >= 10 { DigitsPlain(n / 10); }
  }

  lemma ProgressPlain(s: Status)
    ensures '\n' !in Progress(s)
  {
    DigitsPlain(if s.cycle < 0 then -s.cycle else s.cycle);
    DigitsPlain(if s.maxCycles < 0 then -s.maxCycles else s.maxCycles);
    assert '\n' !in Decimal(s.cycle) && '\n' !in Decimal(s.maxCycles);
  }

  lemma StatusLineIsPlain(s: Status)
    ensures PlainLine(StatusLine(s))
  {
    ProgressPlain(s);
    if s.skipped {
      SkippedIsPlain();
    } else if s.passed {
      PassedIsPlain(Progress(s));
    } else {
      UnresolvedIsPlain(Progress(s));
    }
  }

  lemma SkippedIsPlain()
    ensures PlainLine(SKIPPED + NO_COMMAND)
  {
    assert '\n' !in SKIPPED && '\n' !in NO_COMMAND && SKIPPED[0] == '-';
    Framed(SKIPPED, NO_COMMAND, "");
    ConcatEmpty(SKIPPED + NO_COMMAND);
  }

  lemma PassedIsPlain(progress: string)
    requires '\n' !in progress
    ensures PlainLine(PASSED + progress + NO_COMMENTS)
  {
    assert '\n' !in PASSED && '\n' !in NO_COMMENTS && PASSED[0] == '-';
    Framed(PASSED, progress, NO_COMMENTS);
  }

  lemma UnresolvedIsPlain(progress: string)
    requires '\n' !in progress
    ensures PlainLine(NOT_RESOLVED + progress + EXHAUSTED)
  {
    assert '\n' !in NOT_RESOLVED && '\n' !in EXHAUSTED && NOT_RESOLVED[0] == '-';
    Framed(NOT_RESOLVED, progress, EXHAUSTED);
  }

  lemma Framed(a: string, b: string, c: string)
    requires a != "" && a[0] != '#' && '\n' !in a && '\n' !in b && '\n' !in c
    ensures PlainLine(a + b + c)
  {
  }

  // ---------- what the section says ----------

  /** The value of a decimal numeral. */
  function Value(s: string): int {
    if s != "" && s[0] == '-' then -Magnitude(s[1..]) else Magnitude(s)
  }

  ghost predicate Numeral(s: string) {
    && s != "" && (forall i :: 0 <= i < |s| ==> '0' <= s[i] <= '9' || (i == 0 && s[i] == '-' && |s| > 1))
    && (s[0] == '0' ==> s == "0") && (s[0] == '-' ==> s[1] != '0')
  }

  lemma {:induction false} DigitsValue(n: nat)
    ensures Magnitude(Digits(n)) == n && Digits(n) != "" && (Digits(n)[0] == '0' ==> n == 0)
    ensures forall i :: 0 <= i < |Digits(n)| ==> '0' <= Digits(n)[i] <= '9'
  {
    DigitValue(n % 10);
    if n < 10 {
      assert Digits(n)[..0] == "";
    } else {
      DigitsValue(n / 10);
      assert Digits(n)[..|Digits(n)| - 1] == Digits(n / 10);
    }
  }

  lemma DecimalValue(n: int)
    ensures Value(Decimal(n)) == n && Numeral(Decimal(n))
  {
    DigitsValue(if n < 0 then -n else n);
    if n < 0 { assert Decimal(n)[1..] == Digits(-n); }
  }

  /** The text is a front, the two numbers with a slash between them, and a back; there is no other slash. */
  ghost predicate ShowsProgress(text: string, front: string, a: string, b: string, back: string) {
    && text == front + (a + ("/" + (b + back))) && Numeral(a) && Numeral(b) && '/' !in front && '/' !in back
    && front != "" && (front[|front| - 1] == '(' || front[|front| - 1] == ' ')
    && back != "" && (back[0] == ',' || back[0] == ' ')
  }

  /** What stands around the numbers. */
  ghost predicate Surrounds(open: string, close: string) {
    && '/' !in open && '/' !in close && '*' !in close
    && open != "" && (open[|open| - 1] == '(' || open[|open| - 1] == ' ')
    && close != "" && (close[0] == ',' || close[0] == ' ')
  }

  lemma PassedSurrounds()
    ensures Surrounds(PASSED, NO_COMMENTS)
  {
    PassedOpens();
  }

  lemma PassedOpens()
    ensures '/' !in PASSED && PASSED[|PASSED| - 1] == ' '
  {
  }

  lemma UnresolvedSurrounds()
    ensures Surrounds(NOT_RESOLVED, EXHAUSTED)
  {
    UnresolvedOpens();
    UnresolvedCloses();
    UnresolvedIsStarless();
  }

  lemma UnresolvedOpens()
    ensures '/' !in NOT_RESOLVED && NOT_RESOLVED[|NOT_RESOLVED| - 1] == '('
  {
  }

  lemma UnresolvedCloses()
    ensures '/' !in EXHAUSTED && EXHAUSTED[0] == ' '
  {
  }

  lemma UnresolvedIsStarless()
    ensures '*' !in EXHAUSTED
  {
  }

  lemma ShownBetween(open: string, a: string, b: string, close: string)
    requires Surrounds(open, close) && Numeral(a) && Numeral(b)
    ensures ShowsProgress(Section(open + (a + "/" + b) + close), HEADER + ("\n\n" + open), a, b, close + "\n")
  {
    SectionParts(open, a, b, close);
    assert '/' !in HEADER && '/' !in "\n\n" && '/' !in "\n";
    var front := HEADER + ("\n\n" + open);
    assert front[|front| - 1] == open[|open| - 1];
  }

  lemma ShownIn(s: Status, open: string, close: string)
    requires StatusLine(s) == open + Progress(s) + close && Surrounds(open, close)
    ensures exists front, a, b, back ::
      ShowsProgress(FormatSection(s), front, a, b, back) && Value(a) == s.cycle && Value(b) == s.maxCycles
  {
    var a, b := Decimal(s.cycle), Decimal(s.maxCycles);
    DecimalValue(s.cycle);
    DecimalValue(s.maxCycles);
    ShownBetween(open, a, b, close);
    assert ShowsProgress(FormatSection(s), HEADER + ("\n\n" + open), a, b, close + "\n");
  }

  /** The cycle and the limit can be read from a section that is not skipped, in this order. */
  lemma ProgressIsShown(s: Status)
    requires !s.skipped
    ensures exists front, a, b, back ::
      ShowsProgress(FormatSection(s), front, a, b, back) && Value(a) == s.cycle && Value(b) == s.maxCycles
  {
    if s.passed {
      PassedSurrounds();
      ShownIn(s, PASSED, NO_COMMENTS);
    } else {
      UnresolvedSurrounds();
      ShownIn(s, NOT_RESOLVED, EXHAUSTED);
    }
  }

  lemma SectionParts(open: string, a: string, b: string, close: string)
    ensures Section(open + (a + "/" + b) + close) == (HEADER + ("\n\n" + open)) + (a + ("/" + (b + (close + "\n"))))
  {
    ConcatAssoc(HEADER, "\n\n" + open, a + ("/" + (b + (close + "\n"))));
    ConcatAssoc("\n\n", open, a + ("/" + (b + (close + "\n"))));
    ConcatAssoc(open, a + "/" + b, close);
    ConcatAssoc(open, a + "/" + b + close, "\n");
    ConcatAssoc(a + "/" + b, close, "\n");
    ConcatAssoc(a, "/" + b, close + "\n");
    ConcatAssoc("/", b, close + "\n");
    ConcatAssoc(a, "/", b);
  }

  /** In a text with one bold word, that word is the only one. */
  lemma OneBoldWord(text: string, front: string, word: string, back: string, other: string)
    requires text == front + ("**" + (word + ("**" + back)))
    requires '*' !in front && '*' !in word && '*' !in back && '*' !in other && word != "" && other != ""
    ensures Contains(text, "**" + (other + "**")) <==> other == word
  {
    var t := "**" + (other + "**");
    if other == word {
      assert text == front + (t + back);
      assert At(text, t, |front|);
    } else if i :| At(text, t, i) {
      BoldAt(text, front, word, back, other, i);
      assert false;
    }
  }

  /** Where the stars of the text are. */
  lemma Stars(text: string, front: string, word: string, back: string, i: int)
    requires text == front + ("**" + (word + ("**" + back))) && 0 <= i < |text|
    requires '*' !in front && '*' !in word && '*' !in back
    ensures var a := |front|; var b := a + 2 + |word|; text[i] == '*' <==> i == a || i == a + 1 || i == b || i == b + 1
    ensures |front| + 2 <= i < |front| + 2 + |word| ==> text[i] == word[i - |front| - 2]
  {
  }

  lemma BoldAt(text: string, front: string, word: string, back: string, other: string, i: int)
    requires text == front + ("**" + (word + ("**" + back)))
    requires '*' !in front && '*' !in word && '*' !in back && '*' !in other && word != "" && other != ""
    requires At(text, "**" + (other + "**"), i)
    ensures other == word
  {
    var t, n := "**" + (other + "**"), |other|;
    assert t[0] == '*' && t[1] == '*' && t[2] == other[0] && t[n + 2] == '*' && t[n + 3] == '*';
    forall k | 0 <= k < |t| ensures text[i + k] == t[k] { AtChars(text, t, i); }
    Stars(text, front, word, back, i);
    Stars(text, front, word, back, i + 1);
    Stars(text, front, word, back, i + 2);
    Stars(text, front, word, back, i + n + 2);
    Stars(text, front, word, back, i + n + 3);
    assert i == |front|;
    forall k | 0 <= k < n ensures other[k] == text[i + 2 + k] && text[i + 2 + k] != '*' {
      assert t[2 + k] == other[k];
      assert other[k] in other;
    }
    Stars(text, front, word, back, i + 2 + (if n < |word| then n else |word|));
    forall k | 0 <= k < n && k < |word| ensures other[k] == word[k] { Stars(text, front, word, back, i + 2 + k); }
  }

  /** The line up to the word, the word, and the rest of the line. */
  ghost predicate Bold(line: string, word: string, open: string, rest: string) {
    line == ("- Status: " + ("**" + (word + ("**" + open)))) + rest && '*' !in open && '*' !in rest
  }

  lemma ProgressIsStarless(s: Status)
    ensures '*' !in Progress(s)
  {
    DecimalValue(s.cycle);
    DecimalValue(s.maxCycles);
    assert '*' !in Decimal(s.cycle) && '*' !in Decimal(s.maxCycles) && '*' !in "/";
  }

  lemma SkippedIsBold()
    ensures Bold(SKIPPED + NO_COMMAND, "SKIPPED", " ", NO_COMMAND)
  {
    assert SKIPPED == "- Status: " + ("**" + ("SKIPPED" + ("**" + " ")));
  }

  lemma PassedIsBold(progress: string)
    requires '*' !in progress
    ensures Bold(PASSED + progress + NO_COMMENTS, "PASSED", " (cycle ", progress + NO_COMMENTS)
  {
    PassedSurrounds();
    ConcatAssoc(PASSED, progress, NO_COMMENTS);
    assert PASSED == "- Status: " + ("**" + ("PASSED" + ("**" + " (cycle ")));
  }

  lemma UnresolvedIsBold(progress: string)
    requires '*' !in progress
    ensures Bold(NOT_RESOLVED + progress + EXHAUSTED, "NOT RESOLVED", " (", progress + EXHAUSTED)
  {
    UnresolvedSurrounds();
    ConcatAssoc(NOT_RESOLVED, progress, EXHAUSTED);
    assert NOT_RESOLVED == "- Status: " + ("**" + ("NOT RESOLVED" + ("**" + " (")));
  }

  /** A section with one of the three words holds no other of them. */
  lemma BoldSays(line: string, word: string, open: string, rest: string)
    requires Bold(line, word, open, rest) && (word == "SKIPPED" || word == "PASSED" || word == "NOT RESOLVED")
    ensures Contains(Section(line), "**SKIPPED**") <==> word == "SKIPPED"
    ensures Contains(Section(line), "**PASSED**") <==> word == "PASSED"
    ensures Contains(Section(line), "**NOT RESOLVED**") <==> word == "NOT RESOLVED"
  {
    var front, back := HEADER + ("\n\n" + "- Status: "), open + (rest + "\n");
    BoldSection(word, open, rest);
    FrontIsStarless();
    WordsAreBold();
    assert '*' !in back && '*' !in word;
    OneBoldWord(Section(line), front, word, back, "SKIPPED");
    OneBoldWord(Section(line), front, word, back, "PASSED");
    OneBoldWord(Section(line), front, word, back, "NOT RESOLVED");
  }

  lemma FrontIsStarless()
    ensures '*' !in HEADER + ("\n\n" + "- Status: ")
  {
    assert '*' !in HEADER && '*' !in "\n\n" && '*' !in "- Status: ";
  }

  lemma WordsAreBold()
    ensures "**SKIPPED**" == "**" + ("SKIPPED" + "**") && "**PASSED**" == "**" + ("PASSED" + "**")
    ensures "**NOT RESOLVED**" == "**" + ("NOT RESOLVED" + "**")
  {
  }

  /** The section says what the status is. */
  lemma SectionSays(s: Status)
    ensures Contains(FormatSection(s), "**SKIPPED**") <==> s.skipped
    ensures Contains(FormatSection(s), "**PASSED**") <==> !s.skipped && s.passed
    ensures Contains(FormatSection(s), "**NOT RESOLVED**") <==> !s.skipped && !s.passed
  {
    ProgressIsStarless(s);
    if s.skipped {
      SkippedIsBold();
      BoldSays(SKIPPED + NO_COMMAND, "SKIPPED", " ", NO_COMMAND);
    } else if s.passed {
      PassedIsBold(Progress(s));
      BoldSays(PASSED + Progress(s) + NO_COMMENTS, "PASSED", " (cycle ", Progress(s) + NO_COMMENTS);
    } else {
      UnresolvedIsBold(Progress(s));
      BoldSays(NOT_RESOLVED + Progress(s) + EXHAUSTED, "NOT RESOLVED", " (", Progress(s) + EXHAUSTED);
    }
  }

  lemma BoldSection(word: string, open: string, rest: string)
    ensures Section(("- Status: " + ("**" + (word + ("**" + open)))) + rest)
         == (HEADER + ("\n\n" + "- Status: ")) + ("**" + (word + ("**" + (open + (rest + "\n")))))
  {
    var st := "- Status: ";
    ConcatAssoc(HEADER, "\n\n" + st, "**" + (word + ("**" + (open + (rest + "\n")))));
    ConcatAssoc("\n\n", st, "**" + (word + ("**" + (open + (rest + "\n")))));
    ConcatAssoc(st, "**" + (word + ("**" + open)), rest);
    ConcatAssoc("**", word + ("**" + open), rest);
    ConcatAssoc(word, "**" + open, rest);
    ConcatAssoc("**", open, rest);
    ConcatAssoc(st, "**" + (word + ("**" + (open + rest))), "\n");
    ConcatAssoc("**", word + ("**" + (open + rest)), "\n");
    ConcatAssoc(word, "**" + (open + rest), "\n");
    ConcatAssoc("**", open + rest, "\n");
    ConcatAssoc(open, rest, "\n");
  }

  /** Three sections in full. */
  lemma SectionTexts()
    ensures FormatSection(Status(false, true, 0, 0))
         == "## Review Gate" + ("\n\n" + ("- Status: **SKIPPED** " + "(no review command configured)" + "\n"))
    ensures FormatSection(Status(true, false, 1, 3))
         == "## Review Gate" + ("\n\n" + ("- Status: **PASSED** (cycle " + ("1" + "/" + "3") + ", 0 comments remaining)" + "\n"))
    ensures FormatSection(Status(false, false, 3, 3))
         == "## Review Gate" + ("\n\n" + ("- Status: **NOT RESOLVED** (" + ("3" + "/" + "3")
                                          + " cycles exhausted, comments remaining)" + "\n"))
  {
    assert Decimal(1) == "1" && Decimal(3) == "3";
  }

  // ---------- what Append does to a body ----------

  /** What stays in front of the section. */
  function Before(body: string): string {
    var idx := IndexOf(body, HEADER);
    if idx == -1 then TrimRightNewlines(body) + "\n\n" else body[..idx]
  }

  /** What stays behind the section: from the next heading on. */
  function After(body: string): string {
    var idx := IndexOf(body, HEADER);
    if idx == -1 then "" else
    var rest := body[idx + |HEADER|..];
    var next := IndexOf(rest, NEXT_HEADER);
    if next == -1 then "" else rest[next..]
  }

  lemma TrimOne(x: string)
    requires x != "" && x[|x| - 1] != '\n'
    ensures TrimRightNewlines(x + "\n") == x
  {
    assert (x + "\n")[..|x|] == x;
  }

  lemma SectionSplit(before: string, line: string)
    requires PlainLine(line)
    ensures var x := before + (HEADER + ("\n\n" + line)); x + "\n" == before + Section(line) && x[|x| - 1] != '\n'
  {
    var x := before + (HEADER + ("\n\n" + line));
    assert x[|x| - 1] == line[|line| - 1];
  }

  /** The section replaces the old one; the text around it is untouched. */
  lemma AppendReplaces(body: string, line: string)
    requires PlainLine(line)
    ensures AppendReviewGateSection(body, Section(line)) == Before(body) + (Section(line) + After(body))
  {
    EmptySuffix(Section(line));
    if IndexOf(body, HEADER) != -1 {
      NextIsNotEmpty(body);
      if After(body) != "" { Rejoin(Before(body), line, After(body)); }
    }
  }

  /** Trimming the section's line end and putting it back changes nothing. */
  lemma Rejoin(before: string, line: string, after: string)
    requires PlainLine(line)
    ensures TrimRightNewlines(before + Section(line)) + "\n" + after == before + (Section(line) + after)
  {
    var x := before + (HEADER + ("\n\n" + line));
    SectionSplit(before, line);
    TrimOne(x);
    assert before + Section(line) + after == before + (Section(line) + after);
  }

  lemma EmptySuffix(s: string)
    ensures s + "" == s
  {
  }

  lemma NextIsNotEmpty(body: string)
    requires IndexOf(body, HEADER) != -1
    ensures After(body) == "" <==> IndexOf(body[IndexOf(body, HEADER) + |HEADER|..], NEXT_HEADER) == -1
  {
  }

  // ---------- the replaced body is replaced again at the same place ----------

  /** No header starts in front of the section. */
  lemma HeaderStays(body: string, rest: string)
    ensures IndexOf(Before(body) + (HEADER + rest), HEADER) == |Before(body)|
  {
    var idx, b := IndexOf(body, HEADER), Before(body);
    var t := b + (HEADER + rest);
    AtShift(b, HEADER + rest, HEADER, 0);
    assert At(HEADER + rest, HEADER, 0);
    forall i | 0 <= i < |b| ensures !At(t, HEADER, i) {
      if idx != -1 {
        assert !At(body, HEADER, i);
        assert body[idx..idx + |HEADER|] == HEADER;
        SharedPrefix(body, t, idx + |HEADER|, i);
      } else {
        NoHeaderBeforeNewlines(body, HEADER + rest, i);
      }
    }
  }

  /** Two texts that agree on their first n characters have the same early occurrences. */
  lemma SharedPrefix(s: string, t: string, n: nat, i: nat)
    requires n <= |s| && n <= |t| && s[..n] == t[..n] && i + |HEADER| <= n
    ensures At(s, HEADER, i) == At(t, HEADER, i)
  {
    SliceOfFront(s, n, i, |HEADER|);
    SliceOfFront(t, n, i, |HEADER|);
  }

  lemma NoHeaderBeforeNewlines(body: string, rest: string, i: nat)
    requires !Contains(body, HEADER) && i < |TrimRightNewlines(body) + "\n\n"|
    ensures !At(TrimRightNewlines(body) + "\n\n" + rest, HEADER, i)
  {
    var b := TrimRightNewlines(body);
    var t := b + "\n\n" + rest;
    if i + |HEADER| <= |b| {
      SharedPrefix(body, t, |b|, i);
    } else if i + |HEADER| <= |t| {
      NewlineInside(t, i, if i <= |b| then |b| - i else |b| + 1 - i);
    }
  }

  /** The header holds no line end. */
  lemma NewlineInside(t: string, i: nat, k: nat)
    requires k < |HEADER| && i + |HEADER| <= |t| && t[i + k] == '\n'
    ensures !At(t, HEADER, i)
  {
    assert '\n' !in HEADER;
    assert HEADER[k] in HEADER;
    assert t[i..i + |HEADER|][k] == t[i + k];
  }

  /** The section itself holds no heading after its own. */
  lemma NextStays(line: string, after: string)
    requires PlainLine(line)
    requires after == "" || At(after, NEXT_HEADER, 0)
    ensures IndexOf(SectionTail(line) + after, NEXT_HEADER) == if after == "" then -1 else |SectionTail(line)|
  {
    var tail := SectionTail(line);
    var t := tail + after;
    AtShift(tail, after, NEXT_HEADER, 0);
    forall i | 0 <= i < |tail| ensures !At(t, NEXT_HEADER, i) {
      if i + |NEXT_HEADER| <= |t| {
        assert t[i] == tail[i] && t[i + 1] == if i + 1 < |tail| then tail[i + 1] else after[0];
        assert t[i..i + |NEXT_HEADER|][0] == t[i] && t[i..i + |NEXT_HEADER|][1] == t[i + 1];
        TailCharacters(line, i);
      }
    }
    if after == "" {
      assert t == tail;
    }
  }

  /** In the section's text a line end is never followed by '#'. */
  lemma TailCharacters(line: string, i: nat)
    requires PlainLine(line) && i < |SectionTail(line)|
    ensures var t := SectionTail(line); t[i] == '\n' ==> (if i + 1 < |t| then t[i + 1] != '#' else true)
  {
    var t := SectionTail(line);
    assert t[0] == '\n' && t[1] == '\n' && t[2] == line[0];
    assert forall k :: 0 <= k < |line| ==> t[k + 2] == line[k];
  }

  lemma AppendedBody(body: string, line: string)
    requires PlainLine(line)
    ensures var r := AppendReviewGateSection(body, Section(line)); Before(r) == Before(body) && After(r) == After(body)
  {
    var b, a := Before(body), After(body);
    var rest := SectionTail(line) + a;
    AppendReplaces(body, line);
    ConcatAssoc(HEADER, SectionTail(line), a);
    HeaderStays(body, rest);
    CutAfterHeader(b, rest);
    if a != "" { AfterIsSuffix(body); }
    NextStays(line, a);
    RestOfTail(line, a);
    PartsOfText(b + (HEADER + rest), b, rest, a);
  }

  lemma RestOfTail(line: string, a: string)
    ensures (SectionTail(line) + a)[|SectionTail(line)|..] == a
  {
  }

  /** The parts of a text whose header and next heading have been found. */
  lemma PartsOfText(t: string, b: string, rest: string, a: string)
    requires IndexOf(t, HEADER) == |b| && |b| + |HEADER| <= |t| && t[..|b|] == b && t[|b| + |HEADER|..] == rest
    requires var next := IndexOf(rest, NEXT_HEADER); if next == -1 then a == "" else next <= |rest| && rest[next..] == a
    ensures Before(t) == b && After(t) == a
  {
  }

  lemma CutAfterHeader(b: string, rest: string)
    ensures (b + (HEADER + rest))[..|b|] == b && (b + (HEADER + rest))[|b| + |HEADER|..] == rest
  {
  }

  /** Last writer wins: a second rewrite replaces the first one without a trace. */
  lemma LastWriterWins(body: string, s1: Status, s2: Status)
    ensures AppendReviewGateSection(AppendReviewGateSection(body, FormatSection(s1)), FormatSection(s2))
         == AppendReviewGateSection(body, FormatSection(s2))
  {
    StatusLineIsPlain(s1);
    StatusLineIsPlain(s2);
    AppendedBody(body, StatusLine(s1));
    AppendReplaces(body, StatusLine(s2));
    AppendReplaces(AppendReviewGateSection(body, FormatSection(s1)), StatusLine(s2));
  }

  /** The text around the gate survives: the body is what was in front, the section, and what follows
      from the next heading on. */
  lemma SurroundingsSurvive(body: string, s: Status)
    ensures AppendReviewGateSection(body, FormatSection(s)) == Before(body) + (FormatSection(s) + After(body))
    ensures !Contains(body, "## Review Gate") ==> Before(body) == TrimRightNewlines(body) + "\n\n" && After(body) == ""
    ensures Contains(body, "## Review Gate") ==> Before(body) <= body && IndexOf(body, "## Review Gate") == |Before(body)|
    ensures Contains(body, "## Review Gate") ==>
      After(body) == (var rest := body[|Before(body)| + |"## Review Gate"|..];
                      if Contains(rest, "\n## ") then rest[IndexOf(rest, "\n## ")..] else "")
    ensures After(body) != "" ==> At(After(body), NEXT_HEADER, 0) && |Before(body)| + |After(body)| <= |body|
    ensures After(body) != "" ==> body[..|Before(body)|] == Before(body) && body[|body| - |After(body)|..] == After(body)
  {
    StatusLineIsPlain(s);
    AppendReplaces(body, StatusLine(s));
    if After(body) != "" { AfterIsSuffix(body); }
  }

  lemma AfterIsSuffix(body: string)
    requires After(body) != ""
    ensures At(After(body), NEXT_HEADER, 0) && |Before(body)| + |After(body)| <= |body|
    ensures body[..|Before(body)|] == Before(body) && body[|body| - |After(body)|..] == After(body)
  {
    var idx := IndexOf(body, HEADER);
    var rest := body[idx + |HEADER|..];
    var next := IndexOf(rest, NEXT_HEADER);
    assert rest[next..][0..|NEXT_HEADER|] == rest[next..next + |NEXT_HEADER|];
  }
}
