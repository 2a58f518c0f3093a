/**
  Recovering a JSON value from a model's reply: `stripMarkdownCodeBlock`, the bracket scanner of
  `extractJSON`, and `SanitizeJSONFile` which combines them. Bytes are modelled as characters; every
  delimiter is ASCII, so the scanner behaves the same on UTF-8 bytes and on characters.

  The partner of the scanner is the grammar of RFC 8259 (sections 2, 4, 5 and 7): `Json` is a
  concrete syntax tree with arbitrary insignificant whitespace, `PrintJson` its text.
 */
module JsonExtract {
  import opened Sequences
  import opened Text
  import opened Wrappers

  // ---------- the scanner ----------

  datatype Scan = Scan(depth: int, inString: bool, escaped: bool)

  /** One byte of the scanner loop. */
  function Next(sc: Scan, c: char, open: char, close: char): Scan {
    if sc.escaped then sc.(escaped := false)
    else if c == '\\' && sc.inString then sc.(escaped := true)
    else if c == '"' then sc.(inString := !sc.inString)
    else if sc.inString then sc
    else if c == open then sc.(depth := sc.depth + 1)
    else if c == close then sc.(depth := sc.depth - 1)
    else sc
  }

  /** The scanner stops at a closing bracket outside strings that brings the depth to zero. */
  predicate Stops(sc: Scan, c: char, open: char, close: char) {
    !sc.escaped && !sc.inString && c != '"' && c != open && c == close && sc.depth == 1
  }

  /** How many bytes the scanner consumes from state `sc`. */
  function ScanLength(s: string, sc: Scan, open: char, close: char): (n: nat)
    ensures n <= |s|
  {
    if s == "" then 0
    else if Stops(sc, s[0], open, close) then 1
    else 1 + ScanLength(s[1..], Next(sc, s[0], open, close), open, close)
  }

  /** The offset of the first bracket and its kind, if there is one. */
  datatype Start = NoBracket | Found(offset: nat, open: char, close: char)

  function FindStart(data: string): (r: Start)
    ensures r.Found? ==> r.offset < |data|
  {
    var startObj, startArr := IndexOf(data, "{"), IndexOf(data, "[");
    if startObj >= 0 && (startArr < 0 || startObj < startArr) then Found(startObj, '{', '}')
    else if startArr >= 0 then Found(startArr, '[', ']')
    else NoBracket
  }

  function Extract(data: string): string {
    match FindStart(data)
    case NoBracket => data
    case Found(start, open, close) =>
      data[start..start + ScanLength(data[start..], Scan(0, false, false), open, close)]
  }

  lemma ScanFrom(data: string, i: nat, sc: Scan, open: char, close: char)
    requires i < |data|
    ensures ScanLength(data[i..], sc, open, close)
         == if Stops(sc, data[i], open, close) then 1
            else 1 + ScanLength(data[i + 1..], Next(sc, data[i], open, close), open, close)
  {
    assert data[i..][1..] == data[i + 1..];
  }

  method ExtractJSON(data: string) returns (r: string)
    ensures r == Extract(data)
  {
    var found := FindStart(data);
    if found.NoBracket? { return data; }
    r := ScanValue(data, found.offset, found.open, found.close);
  }

  /** The scanner loop: cuts the value that starts at `start`. */
  method ScanValue(data: string, start: nat, open: char, close: char) returns (r: string)
    requires start < |data|
    ensures r == data[start..start + ScanLength(data[start..], Scan(0, false, false), open, close)]
  {
    var depth, inString, escaped := 0, false, false;
    ghost var total := ScanLength(data[start..], Scan(0, false, false), open, close);
    for i := start to |data|
      invariant total == i - start + ScanLength(data[i..], Scan(depth, inString, escaped), open, close)
    {
      var c := data[i];
      ScanFrom(data, i, Scan(depth, inString, escaped), open, close);
      if escaped {
        escaped := false;
      } else if c == '\\' && inString {
        escaped := true;
      } else if c == '"' {
        inString := !inString;
      } else if !inString {
        if c == open {
          depth := depth + 1;
        } else if c == close {
          depth := depth - 1;
          if depth == 0 {
            return data[start..i + 1];
          }
        }
      }
    }
    r := data[start..];
  }

  // ---------- the grammar ----------

  datatype StrChar = Raw(c: char) | Escape(c: char) | Unicode(hex: string)

  datatype Json =
    | Atom(text: string)
    | Str(chars: seq<StrChar>)
    | Arr(pad: string, elems: seq<Element>)
    | Obj(pad: string, members: seq<Member>)

  datatype Element = Element(before: string, value: Json, after: string)
  datatype Member = Member(before: string, key: seq<StrChar>, mid: string, val: Element)

  predicate Whitespace(s: string) {
    forall i :: 0 <= i < |s| ==> s[i] == ' ' || s[i] == '\t' || s[i] == '\n' || s[i] == '\r'
  }

  predicate HexDigit(c: char) {
    '0' <= c <= '9' || 'a' <= c <= 'f' || 'A' <= c <= 'F'
  }

  predicate ValidChar(c: StrChar) {
    match c
    case Raw(c) => c != '"' && c != '\\' && c >= ' '
    case Escape(c) => c == '"' || c == '\\' || c == '/' || c == 'b' || c == 'f' || c == 'n' || c == 'r' || c == 't'
    case Unicode(h) => |h| == 4 && forall i :: 0 <= i < 4 ==> HexDigit(h[i])
  }

  predicate ValidString(cs: seq<StrChar>) {
    forall i :: 0 <= i < |cs| ==> ValidChar(cs[i])
  }

  predicate AtomChar(c: char) {
    '0' <= c <= '9' || 'a' <= c <= 'z' || c == 'E' || c == '+' || c == '-' || c == '.'
  }

  /** Numbers and the literal names true, false and null. */
  predicate ValidAtom(s: string) {
    forall i :: 0 <= i < |s| ==> AtomChar(s[i])
  }

  ghost predicate Valid(v: Json)
    decreases v
  {
    match v
    case Atom(t) => ValidAtom(t)
    case Str(cs) => ValidString(cs)
    case Arr(pad, es) => Whitespace(pad) && forall i :: 0 <= i < |es| ==> ValidElement(es[i])
    case Obj(pad, ms) => Whitespace(pad) && forall i :: 0 <= i < |ms| ==> ValidMember(ms[i])
  }

  ghost predicate ValidElement(e: Element)
    decreases e
  {
    Whitespace(e.before) && Whitespace(e.after) && Valid(e.value)
  }

  ghost predicate ValidMember(m: Member)
    decreases m
  {
    Whitespace(m.before) && ValidString(m.key) && Whitespace(m.mid) && ValidElement(m.val)
  }

  function PrintChar(c: StrChar): string {
    match c
    case Raw(c) => [c]
    case Escape(c) => ['\\', c]
    case Unicode(h) => "\\u" + h
  }

  function PrintChars(cs: seq<StrChar>): string {
    if cs == [] then "" else PrintChar(cs[0]) + PrintChars(cs[1..])
  }

  function PrintString(cs: seq<StrChar>): string {
    ['"'] + (PrintChars(cs) + ['"'])
  }

  function PrintElement(e: Element): string
    decreases e
  {
    e.before + (PrintJson(e.value) + e.after)
  }

  function PrintMember(m: Member): string
    decreases m
  {
    m.before + (PrintString(m.key) + (m.mid + ([':'] + PrintElement(m.val))))
  }

  function PrintElements(es: seq<Element>): string
    decreases es, 0
  {
    if es == [] then ""
    else if |es| == 1 then PrintElement(es[0])
    else PrintElement(es[0]) + ([','] + PrintElements(es[1..]))
  }

  function PrintMembers(ms: seq<Member>): string
    decreases ms, 0
  {
    if ms == [] then ""
    else if |ms| == 1 then PrintMember(ms[0])
    else PrintMember(ms[0]) + ([','] + PrintMembers(ms[1..]))
  }

  function PrintJson(v: Json): string
    decreases v
  {
    match v
    case Atom(t) => t
    case Str(cs) => PrintString(cs)
    case Arr(pad, es) => PrintArray(pad, es)
    case Obj(pad, ms) => PrintObject(pad, ms)
  }

  function PrintArray(pad: string, es: seq<Element>): string
    decreases es, 1
  {
    ['['] + ((pad + PrintElements(es)) + [']'])
  }

  function PrintObject(pad: string, ms: seq<Member>): string
    decreases ms, 1
  {
    ['{'] + ((pad + PrintMembers(ms)) + ['}'])
  }

  /** The characters of strings in RFC 8259 (section 7). */
  lemma StringCharacters(c: char)
    ensures ValidChar(Raw(c)) <==> c as int >= 0x20 && c as int != 0x22 && c as int != 0x5C
    ensures ValidChar(Escape(c)) <==> c in "\"\\/bfnrt"
  {
  }

  lemma HexCharacters(c: char)
    ensures HexDigit(c) <==> c in "0123456789abcdefABCDEF"
  {
  }

  /** All characters of numbers and literal names (sections 3 and 6) are allowed in atoms. */
  lemma AtomCharacters(c: char)
    ensures c in "-+.0123456789eE" || c in "true" || c in "false" || c in "null" ==> AtomChar(c)
  {
  }

  /** The texts of strings, and of arrays and objects with none, one and two parts. */
  lemma PrintedStrings(c: char)
    ensures PrintString([]) == "\"\"" && PrintString([Raw(c)]) == ['"', c, '"'] && PrintString([Escape(c)]) == ['"', '\\', c, '"']
  {
    assert [Raw(c)][1..] == [] && [Escape(c)][1..] == [];
    assert PrintChars([Raw(c)]) == [c] + "" == [c];
    assert PrintChars([Escape(c)]) == ['\\', c] + "" == ['\\', c];
  }

  lemma PrintedArrays(s: string, t: string)
    ensures PrintJson(Arr("", [])) == "[]"
    ensures PrintJson(Arr("", [Element("", Atom(s), "")])) == "[" + s + "]"
    ensures PrintJson(Arr("", [Element("", Atom(s), ""), Element("", Atom(t), "")])) == "[" + s + "," + t + "]"
  {
    PlainElement(s);
    PlainElement(t);
    var two := [Element("", Atom(s), ""), Element("", Atom(t), "")];
    var one := [Element("", Atom(s), "")];
    assert two[1..] == [Element("", Atom(t), "")];
    assert PrintElements(two) == s + ([','] + t);
    assert PrintElements(one) == s && "" + s == s;
    assert PrintJson(Arr("", one)) == ['['] + (s + [']']);
  }

  lemma PlainElement(s: string)
    ensures PrintElement(Element("", Atom(s), "")) == s
  {
    assert PrintJson(Atom(s)) == s;
  }

  lemma PrintedObjects(k: char, s: string, l: char, t: string)
    ensures PrintJson(Obj("", [])) == "{}"
    ensures var m, n := Member("", [Raw(k)], "", Element("", Atom(s), "")), Member("", [Raw(l)], "", Element("", Atom(t), ""));
      && PrintJson(Obj("", [m])) == "{" + (['"', k, '"'] + ":" + s) + "}"
      && PrintJson(Obj("", [m, n])) == "{" + (['"', k, '"'] + ":" + s) + "," + (['"', l, '"'] + ":" + t) + "}"
  {
    var m, n := Member("", [Raw(k)], "", Element("", Atom(s), "")), Member("", [Raw(l)], "", Element("", Atom(t), ""));
    PlainMember(k, s);
    PlainMember(l, t);
    assert [m, n][1..] == [n];
    assert PrintMembers([m, n]) == PrintMember(m) + ([','] + PrintMember(n));
    var one := ['"', k, '"'] + ":" + s;
    assert PrintMembers([m]) == one && "" + one == one;
    assert PrintJson(Obj("", [m])) == ['{'] + (one + ['}']);
  }

  lemma PlainMember(k: char, s: string)
    ensures PrintMember(Member("", [Raw(k)], "", Element("", Atom(s), ""))) == ['"', k, '"'] + ":" + s
  {
    PrintedStrings(k);
    PlainElement(s);
  }

  // ---------- the scanner on printed text ----------

  /** The scanner's state after all of `s`, unless it stops inside `s`. */
  ghost function After(s: string, sc: Scan, open: char, close: char): Option<Scan> {
    if s == "" then Some(sc)
    else if Stops(sc, s[0], open, close) then None
    else After(s[1..], Next(sc, s[0], open, close), open, close)
  }

  lemma {:induction false} AfterConcat(a: string, b: string, sc: Scan, mid: Scan, open: char, close: char)
    requires After(a, sc, open, close) == Some(mid)
    ensures After(a + b, sc, open, close) == After(b, mid, open, close)
    ensures ScanLength(a + b, sc, open, close) == |a| + ScanLength(b, mid, open, close)
  {
    if a == "" {
      assert a + b == b;
    } else {
      AfterConcat(a[1..], b, Next(sc, a[0], open, close), mid, open, close);
      assert (a + b)[1..] == a[1..] + b;
    }
  }

  predicate Brackets(open: char, close: char) {
    (open == '{' && close == '}') || (open == '[' && close == ']')
  }

  /** Scanning `s` at depth d, outside strings, ends at depth d outside strings. */
  ghost predicate Neutral(s: string, d: int, open: char, close: char) {
    After(s, Scan(d, false, false), open, close) == Some(Scan(d, false, false))
  }

  lemma NeutralConcat(a: string, b: string, d: int, open: char, close: char)
    requires Neutral(a, d, open, close) && Neutral(b, d, open, close)
    ensures Neutral(a + b, d, open, close)
  {
    AfterConcat(a, b, Scan(d, false, false), Scan(d, false, false), open, close);
  }

  predicate Inert(c: char) {
    c != '"' && c != '{' && c != '}' && c != '[' && c != ']'
  }

  lemma {:induction false} InertIsNeutral(s: string, d: int, open: char, close: char)
    requires Brackets(open, close) && forall i :: 0 <= i < |s| ==> Inert(s[i])
    ensures Neutral(s, d, open, close)
  {
    if s != "" {
      InertIsNeutral(s[1..], d, open, close);
    }
  }

  lemma WhitespaceIsNeutral(s: string, d: int, open: char, close: char)
    requires Brackets(open, close) && Whitespace(s)
    ensures Neutral(s, d, open, close)
  {
    InertIsNeutral(s, d, open, close);
  }

  /** Inside a string, a printed character leaves the scanner inside the string. */
  lemma CharStaysInside(c: StrChar, d: int, open: char, close: char)
    requires ValidChar(c)
    ensures After(PrintChar(c), Scan(d, true, false), open, close) == Some(Scan(d, true, false))
  {
    match c
    case Raw(x) =>
      assert PrintChar(c)[1..] == "";
    case Escape(x) =>
      EscapedStaysInside(x, "", d, open, close);
      assert ['\\', x] + "" == ['\\', x];
    case Unicode(h) =>
      EscapedStaysInside('u', h, d, open, close);
      assert "\\u" + h == ['\\', 'u'] + h;
  }

  lemma EscapedStaysInside(x: char, h: string, d: int, open: char, close: char)
    requires forall i :: 0 <= i < |h| ==> h[i] != '"' && h[i] != '\\'
    ensures After(['\\', x] + h, Scan(d, true, false), open, close) == Some(Scan(d, true, false))
  {
    PlainStaysInside(h, d, open, close);
    assert (['\\', x] + h)[1..] == [x] + h && ([x] + h)[1..] == h;
  }

  lemma {:induction false} PlainStaysInside(h: string, d: int, open: char, close: char)
    requires forall i :: 0 <= i < |h| ==> h[i] != '"' && h[i] != '\\'
    ensures After(h, Scan(d, true, false), open, close) == Some(Scan(d, true, false))
  {
    if h != "" { PlainStaysInside(h[1..], d, open, close); }
  }

  lemma {:induction false} CharsStayInside(cs: seq<StrChar>, d: int, open: char, close: char)
    requires ValidString(cs)
    ensures After(PrintChars(cs), Scan(d, true, false), open, close) == Some(Scan(d, true, false))
  {
    if cs != [] {
      CharStaysInside(cs[0], d, open, close);
      CharsStayInside(cs[1..], d, open, close);
      var inside := Scan(d, true, false);
      AfterConcat(PrintChar(cs[0]), PrintChars(cs[1..]), inside, inside, open, close);
    }
  }

  /** Brackets and escaped quotes inside a string are never counted. */
  lemma StringIsNeutral(cs: seq<StrChar>, d: int, open: char, close: char)
    requires Brackets(open, close) && ValidString(cs)
    ensures Neutral(PrintString(cs), d, open, close)
  {
    var inside := Scan(d, true, false);
    CharsStayInside(cs, d, open, close);
    AfterConcat(PrintChars(cs), ['"'], inside, inside, open, close);
    assert PrintString(cs)[1..] == PrintChars(cs) + ['"'];
    assert ['"'][1..] == "";
  }

  /** A bracketed text whose inside is neutral one level down, or at the same level for the
      other kind of bracket, is neutral. */
  lemma BracketedIsNeutral(l: char, body: string, r: char, d: int, open: char, close: char)
    requires Brackets(open, close) && Brackets(l, r) && d >= 1
    requires Neutral(body, if l == open then d + 1 else d, open, close)
    ensures Neutral([l] + (body + [r]), d, open, close)
  {
    var e := if l == open then d + 1 else d;
    AfterConcat(body, [r], Scan(e, false, false), Scan(e, false, false), open, close);
    assert ([l] + (body + [r]))[1..] == body + [r];
    assert [r][1..] == "";
  }

  lemma {:induction false} ValueIsNeutral(v: Json, d: int, open: char, close: char)
    requires Brackets(open, close) && d >= 1 && Valid(v)
    ensures Neutral(PrintJson(v), d, open, close)
    decreases v
  {
    match v
    case Atom(t) => InertIsNeutral(t, d, open, close);
    case Str(cs) => StringIsNeutral(cs, d, open, close);
    case Arr(pad, es) =>
      ArrayIsNeutral(pad, es, d, open, close);
    case Obj(pad, ms) =>
      ObjectIsNeutral(pad, ms, d, open, close);
  }

  lemma {:induction false} ArrayIsNeutral(pad: string, es: seq<Element>, d: int, open: char, close: char)
    requires Brackets(open, close) && d >= 1
    requires Whitespace(pad) && forall i :: 0 <= i < |es| ==> ValidElement(es[i])
    ensures Neutral(PrintArray(pad, es), d, open, close)
    decreases es, 2
  {
    ArrayBody(pad, es, if open == '[' then d + 1 else d, open, close);
    BracketedIsNeutral('[', pad + PrintElements(es), ']', d, open, close);
  }

  lemma {:induction false} ObjectIsNeutral(pad: string, ms: seq<Member>, d: int, open: char, close: char)
    requires Brackets(open, close) && d >= 1
    requires Whitespace(pad) && forall i :: 0 <= i < |ms| ==> ValidMember(ms[i])
    ensures Neutral(PrintObject(pad, ms), d, open, close)
    decreases ms, 2
  {
    ObjectBody(pad, ms, if open == '{' then d + 1 else d, open, close);
    BracketedIsNeutral('{', pad + PrintMembers(ms), '}', d, open, close);
  }

  lemma {:induction false} ArrayBody(pad: string, es: seq<Element>, d: int, open: char, close: char)
    requires Brackets(open, close) && d >= 1
    requires Whitespace(pad) && forall i :: 0 <= i < |es| ==> ValidElement(es[i])
    ensures Neutral(pad + PrintElements(es), d, open, close)
    decreases es, 1
  {
    WhitespaceIsNeutral(pad, d, open, close);
    ElementsAreNeutral(es, d, open, close);
    NeutralConcat(pad, PrintElements(es), d, open, close);
  }

  lemma {:induction false} ObjectBody(pad: string, ms: seq<Member>, d: int, open: char, close: char)
    requires Brackets(open, close) && d >= 1
    requires Whitespace(pad) && forall i :: 0 <= i < |ms| ==> ValidMember(ms[i])
    ensures Neutral(pad + PrintMembers(ms), d, open, close)
    decreases ms, 1
  {
    WhitespaceIsNeutral(pad, d, open, close);
    MembersAreNeutral(ms, d, open, close);
    NeutralConcat(pad, PrintMembers(ms), d, open, close);
  }

  lemma {:induction false} ElementIsNeutral(e: Element, d: int, open: char, close: char)
    requires Brackets(open, close) && d >= 1 && ValidElement(e)
    ensures Neutral(PrintElement(e), d, open, close)
    decreases e
  {
    WhitespaceIsNeutral(e.before, d, open, close);
    WhitespaceIsNeutral(e.after, d, open, close);
    ValueIsNeutral(e.value, d, open, close);
    NeutralConcat(PrintJson(e.value), e.after, d, open, close);
    NeutralConcat(e.before, PrintJson(e.value) + e.after, d, open, close);
  }

  lemma {:induction false} MemberIsNeutral(m: Member, d: int, open: char, close: char)
    requires Brackets(open, close) && d >= 1 && ValidMember(m)
    ensures Neutral(PrintMember(m), d, open, close)
    decreases m
  {
    WhitespaceIsNeutral(m.before, d, open, close);
    WhitespaceIsNeutral(m.mid, d, open, close);
    StringIsNeutral(m.key, d, open, close);
    InertIsNeutral([':'], d, open, close);
    ElementIsNeutral(m.val, d, open, close);
    NeutralConcat([':'], PrintElement(m.val), d, open, close);
    NeutralConcat(m.mid, [':'] + PrintElement(m.val), d, open, close);
    NeutralConcat(PrintString(m.key), m.mid + ([':'] + PrintElement(m.val)), d, open, close);
    NeutralConcat(m.before, PrintString(m.key) + (m.mid + ([':'] + PrintElement(m.val))), d, open, close);
  }

  lemma {:induction false} ElementsAreNeutral(es: seq<Element>, d: int, open: char, close: char)
    requires Brackets(open, close) && d >= 1 && forall i :: 0 <= i < |es| ==> ValidElement(es[i])
    ensures Neutral(PrintElements(es), d, open, close)
    decreases es, 0
  {
    if es != [] {
      ElementIsNeutral(es[0], d, open, close);
      if |es| > 1 {
        ElementsAreNeutral(es[1..], d, open, close);
        InertIsNeutral([','], d, open, close);
        NeutralConcat([','], PrintElements(es[1..]), d, open, close);
        NeutralConcat(PrintElement(es[0]), [','] + PrintElements(es[1..]), d, open, close);
      }
    }
  }

  lemma {:induction false} MembersAreNeutral(ms: seq<Member>, d: int, open: char, close: char)
    requires Brackets(open, close) && d >= 1 && forall i :: 0 <= i < |ms| ==> ValidMember(ms[i])
    ensures Neutral(PrintMembers(ms), d, open, close)
    decreases ms, 0
  {
    if ms != [] {
      MemberIsNeutral(ms[0], d, open, close);
      if |ms| > 1 {
        MembersAreNeutral(ms[1..], d, open, close);
        InertIsNeutral([','], d, open, close);
        NeutralConcat([','], PrintMembers(ms[1..]), d, open, close);
        NeutralConcat(PrintMember(ms[0]), [','] + PrintMembers(ms[1..]), d, open, close);
      }
    }
  }

  /** Scanning a bracketed text with a neutral inside consumes exactly that text. */
  lemma ScanBracketed(body: string, suffix: string, open: char, close: char)
    requires Brackets(open, close) && Neutral(body, 1, open, close)
    ensures ScanLength([open] + (body + [close]) + suffix, Scan(0, false, false), open, close) == |body| + 2
  {
    var text := [open] + (body + [close]) + suffix;
    assert text[1..] == body + ([close] + suffix);
    AfterConcat(body, [close] + suffix, Scan(1, false, false), Scan(1, false, false), open, close);
  }

  lemma StartAfterPrefix(prefix: string, open: char, close: char, rest: string)
    requires Brackets(open, close) && '{' !in prefix && '[' !in prefix
    ensures FindStart(prefix + ([open] + rest)) == Found(|prefix|, open, close)
  {
    var data := prefix + ([open] + rest);
    IndexOfChar(prefix, [open] + rest, open);
    var other := if open == '{' then "[" else "{";
    forall i | i <= |prefix| ensures !At(data, other, i) {
      if 0 <= i < |prefix| {
        assert data[i..i + 1][0] == prefix[i];
      } else if i == |prefix| {
        assert data[i..i + 1][0] == open;
      }
    }
  }

  /** Extraction returns exactly the printed object or array, whatever surrounds it, as long as no
      bracket comes before it. */
  lemma {:induction false} ExtractPrinted(prefix: string, v: Json, suffix: string)
    requires '{' !in prefix && '[' !in prefix
    requires Valid(v) && (v.Arr? || v.Obj?)
    ensures Extract(prefix + PrintJson(v) + suffix) == PrintJson(v)
  {
    var open, close := if v.Arr? then '[' else '{', if v.Arr? then ']' else '}';
    var body;
    if v.Arr? {
      body := v.pad + PrintElements(v.elems);
      ArrayBody(v.pad, v.elems, 1, open, close);
    } else {
      body := v.pad + PrintMembers(v.members);
      ObjectBody(v.pad, v.members, 1, open, close);
    }
    assert PrintJson(v) == [open] + (body + [close]);
    ExtractBracketed(prefix, open, body, close, suffix);
  }

  lemma ExtractBracketed(prefix: string, open: char, body: string, close: char, suffix: string)
    requires '{' !in prefix && '[' !in prefix
    requires Brackets(open, close) && Neutral(body, 1, open, close)
    ensures Extract(prefix + ([open] + (body + [close])) + suffix) == [open] + (body + [close])
  {
    var core := [open] + (body + [close]);
    var data := prefix + core + suffix;
    CoreInside(prefix, core, suffix);
    assert core + suffix == [open] + ((body + [close]) + suffix);
    StartAfterPrefix(prefix, open, close, (body + [close]) + suffix);
    ScanBracketed(body, suffix, open, close);
  }

  lemma CoreInside(prefix: string, core: string, suffix: string)
    ensures var data := prefix + core + suffix;
            data == prefix + (core + suffix) && data[|prefix|..] == core + suffix
            && data[|prefix|..|prefix| + |core|] == core
  {
    ConcatAssoc(prefix, core, suffix);
  }

  // ---------- code fences and the file sanitizer ----------

  const FENCE := "```"

  /** unicode.IsSpace */
  predicate IsSpace(c: char) {
    c == ' ' || '\t' <= c <= '\r' || c == '\U{85}' || c == '\U{A0}' || c == '\U{1680}' || '\U{2000}' <= c <= '\U{200A}'
    || c == '\U{2028}' || c == '\U{2029}' || c == '\U{202F}' || c == '\U{205F}' || c == '\U{3000}'
  }

  /** The white space of Unicode, by code point. */
  lemma SpaceCodes(c: char)
    ensures var n := c as int;
      IsSpace(c) <==> 0x9 <= n <= 0xD || n == 0x20 || n == 0x85 || n == 0xA0 || n == 0x1680 || 0x2000 <= n <= 0x200A
                      || n == 0x2028 || n == 0x2029 || n == 0x202F || n == 0x205F || n == 0x3000
  {
  }

  /** bytes.TrimSpace */
  function TrimSpace(s: string): string {
    Trim(s, IsSpace)
  }

  /** bytes.LastIndex */
  function LastIndexOf(s: string, t: string): (r: int)
    ensures r == -1 ==> !Contains(s, t)
    ensures r != -1 ==> At(s, t, r) && forall i :: r < i ==> !At(s, t, i)
  {
    LastIndexUpTo(s, t, |s|)
  }

  function LastIndexUpTo(s: string, t: string, to: nat): (r: int)
    requires forall i :: to < i ==> !At(s, t, i)
    ensures r == -1 ==> !Contains(s, t)
    ensures r != -1 ==> At(s, t, r) && forall i :: r < i ==> !At(s, t, i)
  {
    if At(s, t, to) then to else if to == 0 then -1 else LastIndexUpTo(s, t, to - 1)
  }

  function StripMarkdown(data: string): string {
    var trimmed := TrimSpace(data);
    if !At(trimmed, FENCE, 0) then trimmed else
    var newline := IndexOf(trimmed, "\n");
    if newline < 0 then trimmed else
    var inner := trimmed[newline + 1..];
    var close := LastIndexOf(inner, FENCE);
    TrimSpace(if close >= 0 then inner[..close] else inner)
  }

  datatype Result = Ok(json: string) | Invalid

  /** SanitizeJSONFile on the file's contents; `parses` stands for json.Unmarshal succeeding. */
  function Sanitize(data: string, parses: string -> bool): Result {
    var cleaned := StripMarkdown(data);
    Judged(cleaned, Extract(cleaned), parses)
  }

  /** The whole text if it parses, else the part if that parses. */
  function Judged(whole: string, part: string, parses: string -> bool): Result {
    if parses(whole) then Ok(whole) else if parses(part) then Ok(part) else Invalid
  }

  /** A fenced block, with any language tag and surrounding spaces, is reduced to its trimmed
      contents, even when the contents hold further fences: the last fence is the closing one. */
  lemma {:induction false} FencedIsStripped(left: string, lang: string, inner: string, right: string)
    requires AllOf(left, IsSpace) && AllOf(right, IsSpace)
    requires '\n' !in lang
    ensures StripMarkdown(left + ("```" + lang + "\n" + inner + "```") + right) == TrimSpace(inner)
  {
    BlockIsEdged(lang + "\n" + inner);
    FenceText(lang, inner);
    TrimSurrounded(left, FENCE + lang + "\n" + inner + FENCE, right, IsSpace);
    FenceOpens(lang, inner + FENCE);
    FenceCloses(inner);
  }

  lemma BlockIsEdged(s: string)
    ensures Edged(FENCE + s + FENCE, IsSpace)
  {
  }

  lemma FenceText(lang: string, inner: string)
    ensures FENCE + lang + "\n" + inner + FENCE == FENCE + (lang + "\n" + inner) + FENCE
    ensures FENCE + lang + "\n" + (inner + FENCE) == FENCE + lang + "\n" + inner + FENCE
  {
  }

  lemma FenceOpens(lang: string, tail: string)
    requires '\n' !in lang
    ensures var block := FENCE + lang + "\n" + tail;
            At(block, FENCE, 0) && IndexOf(block, "\n") == |FENCE + lang| && block[|FENCE + lang| + 1..] == tail
  {
    IndexOfChar(FENCE + lang, "\n" + tail, '\n');
    assert FENCE + lang + "\n" + tail == (FENCE + lang) + ("\n" + tail);
  }

  lemma FenceCloses(inner: string)
    ensures LastIndexOf(inner + FENCE, FENCE) == |inner| && (inner + FENCE)[..|inner|] == inner
  {
    assert At(inner + FENCE, FENCE, |inner|);
  }

  /** A text that survives trimming and is not a fence. */
  predicate Solid(s: string) {
    Edged(s, IsSpace) && s[0] != '`'
  }

  lemma PrintedIsSolid(v: Json)
    requires v.Arr? || v.Obj?
    ensures Solid(PrintJson(v))
  {
    PrintedEnds(v);
  }

  lemma PrintedEnds(v: Json)
    requires v.Arr? || v.Obj?
    ensures var p := PrintJson(v); |p| >= 2 && p[0] in {'{', '['} && p[|p| - 1] in {'}', ']'}
  {
  }

  /** A fenced JSON value is recovered exactly when the parser accepts it. */
  lemma {:induction false} SanitizeFenced(left: string, lang: string, l: string, v: Json, r: string, right: string, parses: string -> bool)
    requires AllOf(left, IsSpace) && AllOf(right, IsSpace) && AllOf(l, IsSpace) && AllOf(r, IsSpace)
    requires '\n' !in lang && Valid(v) && (v.Arr? || v.Obj?)
    ensures Sanitize(left + ("```" + lang + "\n" + (l + PrintJson(v) + r) + "```") + right, parses)
         == if parses(PrintJson(v)) then Ok(PrintJson(v)) else Invalid
  {
    PrintedIsSolid(v);
    ExtractSelf(v);
    FencedCore(left, lang, l, PrintJson(v), r, right);
  }

  lemma ExtractSelf(v: Json)
    requires Valid(v) && (v.Arr? || v.Obj?)
    ensures Extract(PrintJson(v)) == PrintJson(v)
  {
    ExtractPrinted("", v, "");
    assert "" + PrintJson(v) + "" == PrintJson(v);
  }

  lemma FencedCore(left: string, lang: string, l: string, core: string, r: string, right: string)
    requires Solid(core) && '\n' !in lang
    requires AllOf(left, IsSpace) && AllOf(right, IsSpace) && AllOf(l, IsSpace) && AllOf(r, IsSpace)
    ensures StripMarkdown(left + (FENCE + lang + "\n" + (l + core + r) + FENCE) + right) == core
  {
    FencedIsStripped(left, lang, l + core + r, right);
    TrimSurrounded(l, core, r, IsSpace);
  }

  /** After spaces, the text does not open with a backquote. */
  predicate Unfenced(s: string) {
    TrimLeft(s, IsSpace) == "" || TrimLeft(s, IsSpace)[0] != '`'
  }

  lemma UnfencedIsTrimmed(data: string)
    requires TrimSpace(data) == "" || TrimSpace(data)[0] != '`'
    ensures StripMarkdown(data) == TrimSpace(data)
  {
    var t := TrimSpace(data);
    assert |t| >= 3 ==> t[0..3][0] == t[0];
  }

  /** A value inside prose that is free of brackets before it and does not open with a fence: unless the
      parser accepts the trimmed reply as a whole, the value itself is what is judged and returned. */
  lemma {:induction false} SanitizeProse(prefix: string, v: Json, suffix: string, parses: string -> bool)
    requires '{' !in prefix && '[' !in prefix && Unfenced(prefix)
    requires Valid(v) && (v.Arr? || v.Obj?)
    ensures Sanitize(prefix + PrintJson(v) + suffix, parses)
         == Judged(TrimSpace(prefix + PrintJson(v) + suffix), PrintJson(v), parses)
  {
    PrintedIsSolid(v);
    ProseIsTrimmed(prefix, PrintJson(v), suffix);
    TrimKeepsCore(prefix, PrintJson(v), suffix, IsSpace);
    TrimLeftIs(prefix, IsSpace);
    ExtractPrinted(TrimLeft(prefix, IsSpace), v, TrimRight(suffix, IsSpace));
  }

  lemma ProseIsTrimmed(prefix: string, core: string, suffix: string)
    requires Solid(core)
    requires Unfenced(prefix)
    ensures StripMarkdown(prefix + core + suffix) == TrimSpace(prefix + core + suffix)
  {
    var p, q := TrimLeft(prefix, IsSpace), TrimRight(suffix, IsSpace);
    TrimKeepsCore(prefix, core, suffix, IsSpace);
    assert (p + core + q)[0] == if p == "" then core[0] else p[0];
    UnfencedIsTrimmed(prefix + core + suffix);
  }
}
