/**
  The two-pass `{key}` substitution of the prompt template engine, whose passes visit the variable map
  in an arbitrary order.

  `Subst` is the meaning the two passes are meant to have: one left-to-right substitution in which an
  inserted value is never looked at again. The passes have it for all orders exactly when no text
  between two references can be taken for the inside of a token.
 */
module Substitution {
  import opened Sequences
  import opened Text
  import opened Wrappers

  type Vars = map<string, string>

  const MARKER := "PROMPT_VAR_"

  // ---------- the two passes ----------

  function Placeholder(key: string): string { "{" + key + "}" }

  function Token(key: string): string { "\0" + MARKER + key + "\0" }

  /** First pass, visiting the keys in the given order. */
  function MarkAll(text: string, order: seq<string>): string
    decreases |order|
  {
    if order == [] then text
    else MarkAll(ReplaceAll(text, Placeholder(order[0]), Token(order[0])), order[1..])
  }

  /** Second pass, visiting the keys in the given order. */
  function FillAll(text: string, vars: Vars, order: seq<string>): string
    requires forall k <- order :: k in vars
    decreases |order|
  {
    if order == [] then text
    else FillAll(ReplaceAll(text, Token(order[0]), vars[order[0]]), vars, order[1..])
  }

  /** The order in which a `range` loop visits a map: every key once. */
  ghost predicate Enumerates(order: seq<string>, keys: set<string>) {
    && (forall k :: k in order <==> k in keys)
    && (forall i, j :: 0 <= i < j < |order| ==> order[i] != order[j])
  }

  lemma {:induction false} MarkAllSnoc(text: string, order: seq<string>, k: string)
    ensures MarkAll(text, order + [k]) == ReplaceAll(MarkAll(text, order), Placeholder(k), Token(k))
    decreases |order|
  {
    if order != [] {
      MarkAllSnoc(ReplaceAll(text, Placeholder(order[0]), Token(order[0])), order[1..], k);
      assert (order + [k])[1..] == order[1..] + [k];
    }
  }

  lemma {:induction false} FillAllSnoc(text: string, vars: Vars, order: seq<string>, k: string)
    requires (forall j <- order :: j in vars) && k in vars
    ensures FillAll(text, vars, order + [k]) == ReplaceAll(FillAll(text, vars, order), Token(k), vars[k])
    decreases |order|
  {
    if order != [] {
      FillAllSnoc(ReplaceAll(text, Token(order[0]), vars[order[0]]), vars, order[1..], k);
      assert (order + [k])[1..] == order[1..] + [k];
    }
  }

  // ---------- the intended meaning ----------

  /** The bound key whose placeholder starts the text, if any. */
  function KeyAt(text: string, keys: set<string>): Option<string> {
    if text == "" || text[0] != '{' then None else
    var close := IndexOf(text, "}");
    if close >= 1 && text[1..close] in keys then Some(text[1..close]) else None
  }

  datatype Piece = Ch(c: char) | Ref(key: string)

  /** Left-to-right reading of a text as characters and placeholders of bound keys. */
  function Parse(text: string, keys: set<string>): seq<Piece>
    decreases |text|
  {
    if text == "" then [] else
    match KeyAt(text, keys)
    case Some(k) => [Ref(k)] + Parse(text[|k| + 2..], keys)
    case None => [Ch(text[0])] + Parse(text[1..], keys)
  }

  function FillPiece(x: Piece, vars: Vars, filled: set<string>): string
    requires filled <= vars.Keys
  {
    match x case Ch(c) => [c] case Ref(k) => if k in filled then vars[k] else Token(k)
  }

  /** The pieces with the references in `filled` replaced by their values and the others by tokens. */
  function Fill(p: seq<Piece>, vars: Vars, filled: set<string>): string
    requires filled <= vars.Keys
  {
    if p == [] then "" else FillPiece(p[0], vars, filled) + Fill(p[1..], vars, filled)
  }

  /** Simultaneous substitution. */
  function Subst(text: string, vars: Vars): string {
    Fill(Parse(text, vars.Keys), vars, vars.Keys)
  }

  // ---------- side conditions ----------

  predicate CleanKeys(keys: set<string>) {
    forall k <- keys :: '{' !in k && '}' !in k && '\0' !in k
  }

  predicate CleanValues(vars: Vars) {
    forall k <- vars.Keys :: '\0' !in vars[k]
  }

  // ---------- the first pass ----------

  ghost function MarkPiece(x: Piece, marked: set<string>): string {
    match x case Ch(c) => [c] case Ref(k) => if k in marked then Token(k) else Placeholder(k)
  }

  /** The pieces with the references in `marked` replaced by tokens and the others left as placeholders. */
  ghost function Mark(p: seq<Piece>, marked: set<string>): string {
    if p == [] then "" else MarkPiece(p[0], marked) + Mark(p[1..], marked)
  }

  /** No placeholder of a bound key is hidden among the characters of the pieces. */
  ghost predicate Canonical(p: seq<Piece>, keys: set<string>) {
    p == [] ||
    (&& (match p[0]
         case Ch(c) => c != '\0' && KeyAt(Mark(p, {}), keys) == None
         case Ref(k) => k in keys)
     && Canonical(p[1..], keys))
  }

  lemma PlaceholderPrefix(text: string, k: string, keys: set<string>)
    requires KeyAt(text, keys) == Some(k)
    ensures |k| + 2 <= |text| && text == Placeholder(k) + text[|k| + 2..] && k in keys
  {
    assert text[|k| + 1..|k| + 2] == "}";
  }

  lemma MarkCons(x: Piece, p: seq<Piece>, marked: set<string>)
    ensures Mark([x] + p, marked) == MarkPiece(x, marked) + Mark(p, marked)
  {
    assert ([x] + p)[1..] == p;
  }

  lemma CanonicalRef(k: string, p: seq<Piece>, keys: set<string>)
    requires k in keys && Canonical(p, keys)
    ensures Canonical([Ref(k)] + p, keys)
  {
    assert ([Ref(k)] + p)[1..] == p;
  }

  lemma CanonicalChar(c: char, p: seq<Piece>, keys: set<string>)
    requires c != '\0' && KeyAt(Mark([Ch(c)] + p, {}), keys) == None && Canonical(p, keys)
    ensures Canonical([Ch(c)] + p, keys)
  {
    assert ([Ch(c)] + p)[1..] == p;
  }

  lemma {:induction false} ParseIsCanonical(text: string, keys: set<string>)
    requires '\0' !in text
    ensures Mark(Parse(text, keys), {}) == text
    ensures Canonical(Parse(text, keys), keys)
    decreases |text|
  {
    if text != "" {
      match KeyAt(text, keys)
      case Some(k) =>
        PlaceholderPrefix(text, k, keys);
        var p := Parse(text[|k| + 2..], keys);
        ParseIsCanonical(text[|k| + 2..], keys);
        MarkCons(Ref(k), p, {});
        CanonicalRef(k, p, keys);
      case None =>
        var p := Parse(text[1..], keys);
        ParseIsCanonical(text[1..], keys);
        SplitSeq(text, 1);
        assert text[..1] == [text[0]];
        MarkCons(Ch(text[0]), p, {});
        CanonicalChar(text[0], p, keys);
    }
  }

  lemma PlaceholderIsKey(text: string, k: string, keys: set<string>)
    requires k in keys && '}' !in k && At(text, Placeholder(k), 0)
    ensures KeyAt(text, keys) == Some(k)
  {
    var w := "{" + k;
    assert text == w + text[|w|..] by {
      assert text[..|w|] == text[0..|Placeholder(k)|][..|w|] == w;
    }
    assert text[|w|] == text[0..|Placeholder(k)|][|w|] == '}';
    IndexOfChar(w, text[|w|..], '}');
  }

  /** Different brace-free (or NUL-free) names give placeholders (or tokens) that cannot be confused. */
  lemma DelimitedUnique(pre: string, j: string, k: string, d: char, rest: string)
    requires d !in j && d !in k && j != k
    ensures !At(pre + j + [d] + rest, pre + k + [d], 0)
  {
    var s, t := pre + j + [d] + rest, pre + k + [d];
    if |j| == |k| {
      var i :| 0 <= i < |j| && j[i] != k[i];
      assert s[|pre| + i] == j[i] && t[|pre| + i] == k[i];
    } else if |k| < |j| {
      assert s[|pre| + |k|] == j[|k|] && t[|pre| + |k|] == d;
    } else {
      assert s[|pre| + |j|] == d && t[|pre| + |j|] == k[|j|];
    }
  }

  /** Text without braces and NULs at the front was there before any marking. */
  lemma {:induction false} UnmarkedPrefix(t: string, p: seq<Piece>, marked: set<string>)
    requires '{' !in t && '\0' !in t
    ensures t <= Mark(p, marked) ==> t <= Mark(p, {})
  {
    if t != "" && p != [] && p[0].Ch? {
      UnmarkedPrefix(t[1..], p[1..], marked);
      PrefixOfCons(t, p[0].c, Mark(p[1..], marked));
      PrefixOfCons(t, p[0].c, Mark(p[1..], {}));
    } else if t != "" && p != [] {
      var m := MarkPiece(p[0], marked);
      assert m[0] in {'{', '\0'} && (m + Mark(p[1..], marked))[0] == m[0];
    }
  }

  lemma PrefixOfCons(t: string, c: char, s: string)
    requires t != ""
    ensures t <= [c] + s <==> t[0] == c && t[1..] <= s
  {
    assert ([c] + s)[1..] == s && t == [t[0]] + t[1..];
  }

  lemma ReplaceHits(s: string, pat: string, rep: string)
    requires |pat| > 0
    ensures ReplaceAll(pat + s, pat, rep) == rep + ReplaceAll(s, pat, rep)
  {
    assert (pat + s)[|pat|..] == s;
  }

  lemma ReplaceMisses(c: char, s: string, pat: string, rep: string)
    requires |pat| > 0 && !At([c] + s, pat, 0)
    ensures ReplaceAll([c] + s, pat, rep) == [c] + ReplaceAll(s, pat, rep)
  {
    assert ([c] + s)[1..] == s;
  }

  lemma {:induction false} MarkStep(p: seq<Piece>, keys: set<string>, marked: set<string>, k: string)
    requires Canonical(p, keys) && CleanKeys(keys)
    requires marked <= keys && k in keys && k !in marked
    ensures ReplaceAll(Mark(p, marked), Placeholder(k), Token(k)) == Mark(p, marked + {k})
  {
    if p != [] {
      MarkStep(p[1..], keys, marked, k);
      MarkOne(p, keys, marked, k);
    }
  }

  /** The replacement acts on the first piece alone. */
  lemma MarkOne(p: seq<Piece>, keys: set<string>, marked: set<string>, k: string)
    requires p != [] && Canonical(p, keys) && CleanKeys(keys) && marked <= keys && k in keys && k !in marked
    ensures ReplaceAll(Mark(p, marked), Placeholder(k), Token(k))
         == MarkPiece(p[0], marked + {k}) + ReplaceAll(Mark(p[1..], marked), Placeholder(k), Token(k))
  {
    var rest := Mark(p[1..], marked);
    match p[0]
    case Ch(c) =>
      if c == '{' {
        CharIsNotPlaceholder(p, keys, marked, k);
      } else {
        OtherCharMisses(c, rest, k);
      }
      ReplaceMisses(c, rest, Placeholder(k), Token(k));
    case Ref(j) =>
      if j == k {
        ReplaceHits(rest, Placeholder(k), Token(k));
      } else if j in marked {
        ReplaceSkips(Token(j), rest, Placeholder(k), Token(k));
      } else {
        OtherPlaceholder(j, k, rest);
      }
  }

  lemma OtherCharMisses(c: char, rest: string, k: string)
    requires c != '{'
    ensures !At([c] + rest, Placeholder(k), 0)
  {
    assert ([c] + rest)[0] != Placeholder(k)[0];
  }

  /** Another key's placeholder survives. */
  lemma OtherPlaceholder(j: string, k: string, rest: string)
    requires '{' !in j && '}' !in j && '}' !in k && j != k
    ensures ReplaceAll(Placeholder(j) + rest, Placeholder(k), Token(k))
         == Placeholder(j) + ReplaceAll(rest, Placeholder(k), Token(k))
  {
    DelimitedUnique("{", j, k, '}', rest);
    assert Placeholder(j) + rest == ['{'] + (j + "}" + rest) == "{" + j + ['}'] + rest;
    ReplaceMisses('{', j + "}" + rest, Placeholder(k), Token(k));
    ReplaceSkips(j + "}", rest, Placeholder(k), Token(k));
  }

  lemma CharIsNotPlaceholder(p: seq<Piece>, keys: set<string>, marked: set<string>, k: string)
    requires p != [] && p[0] == Ch('{') && Canonical(p, keys) && CleanKeys(keys) && k in keys
    ensures !At(['{'] + Mark(p[1..], marked), Placeholder(k), 0)
  {
    var rest, t := Mark(p[1..], marked), k + "}";
    UnmarkedPrefix(t, p[1..], marked);
    assert Placeholder(k) == ['{'] + t;
    if At(['{'] + rest, Placeholder(k), 0) {
      AtCons('{', rest, t);
      AtCons('{', Mark(p[1..], {}), t);
      PlaceholderIsKey(Mark(p, {}), k, keys);
    }
  }

  lemma AtCons(c: char, s: string, t: string)
    ensures At([c] + s, [c] + t, 0) <==> t <= s
  {
    assert At([c] + s, [c] + t, 0) ==> ([c] + s)[1..] == s && ([c] + t)[1..] == t;
    assert t <= s ==> s == t + s[|t|..] && [c] + s == ([c] + t) + s[|t|..];
  }

  // ---------- the second pass ----------

  /** In the partly filled text a token other than k's is left whose closing NUL, with the text up to
      the next token and the opening NUL of that, reads as the token of k. */
  ghost predicate Exposed(p: seq<Piece>, vars: Vars, filled: set<string>, k: string)
    requires filled <= vars.Keys
  {
    p != [] &&
    (|| (p[0].Ref? && p[0].key !in filled && p[0].key != k && MARKER + k + "\0" <= Fill(p[1..], vars, filled))
     || Exposed(p[1..], vars, filled, k))
  }

  /** A step of the second pass that nothing is exposed to fills exactly the references of its key. */
  lemma {:induction false} FillStep(p: seq<Piece>, vars: Vars, filled: set<string>, k: string)
    requires CleanKeys(vars.Keys) && CleanValues(vars) && Canonical(p, vars.Keys)
    requires filled <= vars.Keys && k in vars && k !in filled && !Exposed(p, vars, filled, k)
    ensures ReplaceAll(Fill(p, vars, filled), Token(k), vars[k]) == Fill(p, vars, filled + {k})
  {
    if p != [] {
      var rest := Fill(p[1..], vars, filled);
      FillStep(p[1..], vars, filled, k);
      match p[0]
      case Ch(c) =>
        ReplaceSkips([c], rest, Token(k), vars[k]);
      case Ref(j) =>
        if j == k {
          ReplaceHits(rest, Token(k), vars[k]);
        } else if j in filled {
          ReplaceSkips(vars[j], rest, Token(k), vars[k]);
        } else {
          OtherToken(j, k, rest, vars[k]);
        }
    }
  }

  /** Another key's token survives if its closing NUL does not open a match. */
  lemma OtherToken(j: string, k: string, rest: string, v: string)
    requires '\0' !in j && '\0' !in k && j != k && !(MARKER + k + "\0" <= rest)
    ensures ReplaceAll(Token(j) + rest, Token(k), v) == Token(j) + ReplaceAll(rest, Token(k), v)
  {
    var name, tail := MARKER + j, ['\0'] + rest;
    TokenText(j, rest);
    OtherTokenMisses(j, k, rest);
    ReplaceMisses('\0', name + tail, Token(k), v);
    ReplaceSkips(name, tail, Token(k), v);
    TokenIs(k);
    AtCons('\0', rest, MARKER + k + "\0");
    ReplaceMisses('\0', rest, Token(k), v);
    TokenText(j, ReplaceAll(rest, Token(k), v));
  }

  lemma TokenText(j: string, rest: string)
    ensures Token(j) + rest == ['\0'] + ((MARKER + j) + (['\0'] + rest))
  {
  }

  lemma TokenIs(k: string)
    ensures Token(k) == ['\0'] + (MARKER + k + "\0")
  {
  }

  lemma OtherTokenMisses(j: string, k: string, rest: string)
    requires '\0' !in j && '\0' !in k && j != k
    ensures !At(['\0'] + ((MARKER + j) + (['\0'] + rest)), Token(k), 0)
  {
    DelimitedUnique("\0" + MARKER, j, k, '\0', rest);
    assert ['\0'] + ((MARKER + j) + (['\0'] + rest)) == "\0" + MARKER + j + ['\0'] + rest;
    assert Token(k) == "\0" + MARKER + k + ['\0'];
  }

  lemma EnumeratesTail(order: seq<string>, keys: set<string>)
    requires Enumerates(order, keys)
    ensures order == [] ==> keys == {}
    ensures order != [] ==> order[0] in keys && Enumerates(order[1..], keys - {order[0]})
  {
    if order == [] {
      assert forall k <- keys :: k in order;
    } else {
      assert order[0] in order;
      assert forall i :: 0 <= i < |order[1..]| ==> order[1..][i] == order[i + 1] != order[0];
      forall k ensures k in order[1..] <==> k in keys - {order[0]} {
        if k in keys && k != order[0] {
          var i :| 0 <= i < |order| && order[i] == k;
          assert order[1..][i - 1] == k;
        }
      }
    }
  }

  lemma {:induction false} MarkAllKeys(p: seq<Piece>, keys: set<string>, marked: set<string>, order: seq<string>)
    requires Canonical(p, keys) && CleanKeys(keys) && marked <= keys && Enumerates(order, keys - marked)
    ensures MarkAll(Mark(p, marked), order) == Mark(p, keys)
    decreases |order|
  {
    EnumeratesTail(order, keys - marked);
    if order == [] {
      assert forall k <- keys :: k !in keys - marked;
      assert marked == keys;
    } else {
      var k := order[0];
      MarkStep(p, keys, marked, k);
      assert keys - (marked + {k}) == keys - marked - {k};
      MarkAllKeys(p, keys, marked + {k}, order[1..]);
    }
  }

  lemma {:induction false} FillAllKeys(p: seq<Piece>, vars: Vars, filled: set<string>, order: seq<string>)
    requires CleanKeys(vars.Keys) && CleanValues(vars) && Canonical(p, vars.Keys)
    requires filled <= vars.Keys && Enumerates(order, vars.Keys - filled)
    requires !Forged(p, vars)
    ensures FillAll(Fill(p, vars, filled), vars, order) == Fill(p, vars, vars.Keys)
    decreases |order|
  {
    EnumeratesTail(order, vars.Keys - filled);
    if order == [] {
      assert forall k <- vars.Keys :: k !in vars.Keys - filled;
      assert filled == vars.Keys;
    } else {
      var k := order[0];
      if Exposed(p, vars, filled, k) { ExposedIsForged(p, vars, filled, k); }
      FillStep(p, vars, filled, k);
      assert vars.Keys - (filled + {k}) == vars.Keys - filled - {k};
      FillAllKeys(p, vars, filled + {k}, order[1..]);
    }
  }

  lemma {:induction false} MarkedIsUnfilled(p: seq<Piece>, vars: Vars)
    requires Canonical(p, vars.Keys)
    ensures Mark(p, vars.Keys) == Fill(p, vars, {})
  {
    if p != [] { MarkedIsUnfilled(p[1..], vars); }
  }

  // ---------- when a token can be forged ----------

  /** Between two references there is text whose value is the inside of the token of k, and some order
      of the keys fills all references in between before either of the two and before k. */
  ghost predicate ForgedBy(p: seq<Piece>, vars: Vars, i: nat, j: nat, k: string) {
    && i < j < |p| && p[i].Ref? && p[j].Ref? && k in vars && k != p[i].key
    && Fill(p[i + 1..j], vars, vars.Keys) == MARKER + k
    && forall m :: i < m < j && p[m].Ref? ==> p[m].key != p[i].key && p[m].key != p[j].key && p[m].key != k
  }

  ghost predicate Forged(p: seq<Piece>, vars: Vars) {
    exists i: nat, j: nat, k :: ForgedBy(p, vars, i, j, k)
  }

  ghost predicate Settled(p: seq<Piece>, filled: set<string>) {
    forall m :: 0 <= m < |p| && p[m].Ref? ==> p[m].key in filled
  }

  lemma FillCons(x: Piece, p: seq<Piece>, vars: Vars, filled: set<string>)
    requires filled <= vars.Keys
    ensures Fill([x] + p, vars, filled) == FillPiece(x, vars, filled) + Fill(p, vars, filled)
  {
    assert ([x] + p)[1..] == p;
  }

  lemma {:induction false} FillConcat(a: seq<Piece>, b: seq<Piece>, vars: Vars, filled: set<string>)
    requires filled <= vars.Keys
    ensures Fill(a + b, vars, filled) == Fill(a, vars, filled) + Fill(b, vars, filled)
  {
    if a == [] {
      ConcatEmpty(b);
      ConcatEmpty(Fill(b, vars, filled));
    } else {
      FillConcat(a[1..], b, vars, filled);
      HeadOfConcat(a, b);
      FillCons(a[0], a[1..] + b, vars, filled);
      ConcatAssoc(FillPiece(a[0], vars, filled), Fill(a[1..], vars, filled), Fill(b, vars, filled));
    }
  }

  lemma {:induction false} FillSettled(p: seq<Piece>, vars: Vars, filled: set<string>)
    requires filled <= vars.Keys && Settled(p, filled)
    ensures Fill(p, vars, filled) == Fill(p, vars, vars.Keys)
  {
    if p != [] {
      FillSettled(p[1..], vars, filled);
    }
  }

  /** The first reference that is not filled yet, and the text in front of it. */
  ghost predicate NextToken(p: seq<Piece>, vars: Vars, filled: set<string>, t: string, j: nat) {
    j < |p| && p[j].Ref? && p[j].key !in filled && Settled(p[..j], filled) && Fill(p[..j], vars, vars.Keys) == t
  }

  lemma NextTokenCons(p: seq<Piece>, vars: Vars, filled: set<string>, t: string, j: nat)
    requires p != [] && filled <= vars.Keys && NextToken(p[1..], vars, filled, t, j) && (p[0].Ref? ==> p[0].key in filled)
    ensures NextToken(p, vars, filled, FillPiece(p[0], vars, vars.Keys) + t, j + 1)
  {
    assert p[..j + 1][1..] == p[1..][..j];
    SettledCons(p[..j + 1], filled);
  }

  lemma SettledCons(p: seq<Piece>, filled: set<string>)
    requires p != [] && Settled(p[1..], filled) && (p[0].Ref? ==> p[0].key in filled)
    ensures Settled(p, filled)
  {
    assert forall m :: 0 < m < |p| ==> p[m] == p[1..][m - 1];
  }

  /** NUL-free text that is followed by a NUL ends where the next token starts. */
  lemma {:induction false} FindToken(p: seq<Piece>, vars: Vars, filled: set<string>, t: string) returns (j: nat)
    requires filled <= vars.Keys && CleanValues(vars) && Canonical(p, vars.Keys)
    requires '\0' !in t && t + "\0" <= Fill(p, vars, filled)
    ensures NextToken(p, vars, filled, t, j)
  {
    var rest := Fill(p[1..], vars, filled);
    match p[0]
    case Ch(c) =>
      SkipFront([c], t, rest);
      j := FindToken(p[1..], vars, filled, t[1..]);
      NextTokenCons(p, vars, filled, t[1..], j);
      j := j + 1;
    case Ref(k) =>
      if k in filled {
        SkipFront(vars[k], t, rest);
        j := FindToken(p[1..], vars, filled, t[|vars[k]|..]);
        NextTokenCons(p, vars, filled, t[|vars[k]|..], j);
        j := j + 1;
      } else {
        EmptyBeforeNul(t, Fill(p, vars, filled));
        j := 0;
      }
  }

  lemma EmptyBeforeNul(t: string, s: string)
    requires '\0' !in t && t + "\0" <= s && s[0] == '\0'
    ensures t == ""
  {
    assert (t + "\0")[0] == s[0];
  }

  /** NUL-free text in front of `rest` belongs to `t` if `t` is followed by a NUL. */
  lemma SkipFront(front: string, t: string, rest: string)
    requires '\0' !in front && t + "\0" <= front + rest
    ensures |front| <= |t| && t == front + t[|front|..] && t[|front|..] + "\0" <= rest
  {
    var s := front + rest;
    assert s[|t|] == (t + "\0")[|t|] == '\0';
    assert forall i :: 0 <= i < |front| ==> s[i] == front[i] != '\0';
    assert t == (t + "\0")[..|t|] == s[..|t|] && front == s[..|front|];
    assert (t + "\0")[|front|..] == t[|front|..] + "\0" && s[|front|..] == rest;
  }

  /** Conversely, the text up to the next token is followed by a NUL. */
  lemma TokenFollows(p: seq<Piece>, vars: Vars, filled: set<string>, t: string, j: nat)
    requires filled <= vars.Keys && NextToken(p, vars, filled, t, j)
    ensures Fill(p, vars, filled) == t + Token(p[j].key) + Fill(p[j + 1..], vars, filled)
  {
    SplitSeq(p, j);
    FillConcat(p[..j], p[j..], vars, filled);
    FillSettled(p[..j], vars, filled);
    TailOfTail(p, j);
    ConcatAssoc(t, Token(p[j].key), Fill(p[j + 1..], vars, filled));
  }

  lemma TailOfTail(p: seq<Piece>, j: nat)
    requires j < |p|
    ensures p[j..] != [] && p[j..][0] == p[j] && p[j..][1..] == p[j + 1..]
  {
  }

  /** What is exposed on the way is forged. */
  lemma {:induction false} ExposedIsForged(p: seq<Piece>, vars: Vars, filled: set<string>, k: string)
    requires filled <= vars.Keys && CleanKeys(vars.Keys) && CleanValues(vars) && Canonical(p, vars.Keys)
    requires k in vars && k !in filled && Exposed(p, vars, filled, k)
    ensures Forged(p, vars)
  {
    if Exposed(p[1..], vars, filled, k) {
      ExposedIsForged(p[1..], vars, filled, k);
      ForgedCons(p, vars);
    } else {
      var j := FindToken(p[1..], vars, filled, MARKER + k);
      assert p[1..j + 1] == p[1..][..j];
      assert forall m :: 0 < m < j + 1 ==> p[m] == p[1..][..j][m - 1];
      assert ForgedBy(p, vars, 0, j + 1, k);
    }
  }

  lemma ForgedCons(p: seq<Piece>, vars: Vars)
    requires p != [] && Forged(p[1..], vars)
    ensures Forged(p, vars)
  {
    var i: nat, j: nat, k :| ForgedBy(p[1..], vars, i, j, k);
    assert p[1..][i + 1..j] == p[i + 2..j + 1];
    assert forall m :: i + 1 < m < j + 1 ==> p[m] == p[1..][m - 1];
    assert ForgedBy(p, vars, i + 1, j + 1, k);
  }

  /** What is forged is exposed once exactly the references in between are filled. */
  lemma {:induction false} ForgedIsExposed(p: seq<Piece>, vars: Vars, filled: set<string>, i: nat, j: nat, k: string)
    requires filled <= vars.Keys && ForgedBy(p, vars, i, j, k)
    requires p[i].key !in filled && p[j].key !in filled && Settled(p[i + 1..j], filled)
    ensures Exposed(p, vars, filled, k)
    decreases i
  {
    if i == 0 {
      ExposedAtHead(p, vars, filled, j, k);
    } else {
      assert p[1..][i..j - 1] == p[i + 1..j];
      assert forall m :: i - 1 < m < j - 1 ==> p[1..][m] == p[m + 1];
      ForgedIsExposed(p[1..], vars, filled, i - 1, j - 1, k);
    }
  }

  lemma ExposedAtHead(p: seq<Piece>, vars: Vars, filled: set<string>, j: nat, k: string)
    requires filled <= vars.Keys && ForgedBy(p, vars, 0, j, k) && p[j].key !in filled && Settled(p[1..j], filled)
    ensures MARKER + k + "\0" <= Fill(p[1..], vars, filled)
  {
    assert p[1..][..j - 1] == p[1..j];
    TokenFollows(p[1..], vars, filled, MARKER + k, j - 1);
    OpeningNul(MARKER + k, p[j].key, Fill(p[1..][j..], vars, filled));
  }

  lemma OpeningNul(t: string, k: string, more: string)
    ensures t + "\0" <= t + Token(k) + more
  {
    TokenOpens(k, more);
    ConcatAssoc(t, Token(k), more);
    ConcatAssoc(t, "\0", MARKER + (k + ("\0" + more)));
  }

  // ---------- what a forged token leaves behind ----------

  /** An odd number of NULs. */
  predicate OddNuls(s: string) {
    s != "" && (s[0] == '\0') != OddNuls(s[1..])
  }

  lemma {:induction false} OddNulsConcat(a: string, b: string)
    ensures OddNuls(a + b) == (OddNuls(a) != OddNuls(b))
  {
    if a == "" {
      assert a + b == b;
    } else {
      OddNulsConcat(a[1..], b);
      assert (a + b)[1..] == a[1..] + b;
    }
  }

  lemma {:induction false} NoNuls(a: string)
    requires '\0' !in a
    ensures !OddNuls(a)
  {
    if a != "" { NoNuls(a[1..]); }
  }

  lemma TokenNuls(k: string)
    requires '\0' !in k
    ensures !OddNuls(Token(k))
  {
    assert Token(k) == "\0" + ((MARKER + k) + "\0");
    NoNuls(MARKER + k);
    OddNulsConcat(MARKER + k, "\0");
    OddNulsConcat("\0", (MARKER + k) + "\0");
    assert "\0"[1..] == "";
  }

  /** A marker after an odd (or even) number of NULs, and not directly after one. */
  ghost predicate StrayAt(s: string, odd: bool, x: int) {
    0 < x && At(s, MARKER, x) && s[x - 1] != '\0' && OddNuls(s[..x]) == odd
  }

  ghost predicate Stray(s: string, odd: bool) {
    exists x :: StrayAt(s, odd, x)
  }

  lemma StrayPrefix(w: string, s: string, odd: bool)
    requires Stray(s, odd)
    ensures Stray(w + s, OddNuls(w) != odd)
  {
    var x :| StrayAt(s, odd, x);
    AtShift(w, s, MARKER, x);
    assert (w + s)[..|w| + x] == w + s[..x];
    OddNulsConcat(w, s[..x]);
    assert (w + s)[|w| + x - 1] == s[x - 1];
    assert StrayAt(w + s, OddNuls(w) != odd, |w| + x);
  }

  /** The marker does not overlap itself. */
  lemma MarkerUnbordered(d: nat)
    requires 0 < d < |MARKER|
    ensures exists t :: 0 <= t < |MARKER| - d && MARKER[d + t] != MARKER[t]
  {
    if d == 4 {
      assert MARKER[4 + 1] != MARKER[1];
    } else {
      assert MARKER[d + 0] != MARKER[0];
    }
  }

  /** A stray marker lies behind a token that the text starts with. */
  lemma StrayBehindToken(s: string, k: string, x: int)
    requires 0 < x && At(s, MARKER, x) && s[x - 1] != '\0' && At(s, Token(k), 0) && !Contains(k, MARKER)
    ensures x > |Token(k)|
  {
    AtChars(s, Token(k), 0);
    AtChars(s, MARKER, x);
    TokenChars(k);
    if 1 < x < |Token(k)| {
      NoNulInMarker(s, x);
      NoOverlap(s, x);
      MarkerInKey(s, k, x);
    }
  }

  lemma NoNulInMarker(s: string, x: nat)
    requires x + |MARKER| <= |s| && forall d :: 0 <= d < |MARKER| ==> s[x + d] == MARKER[d]
    ensures forall y :: x <= y < x + |MARKER| ==> s[y] != '\0'
  {
    forall y | x <= y < x + |MARKER| ensures s[y] != '\0' { assert s[y] == MARKER[y - x]; }
  }

  lemma NoOverlap(s: string, x: nat)
    requires 1 < x && x + |MARKER| <= |s|
    requires forall d :: 0 <= d < |MARKER| ==> s[1 + d] == MARKER[d]
    requires forall d :: 0 <= d < |MARKER| ==> s[x + d] == MARKER[d]
    ensures x - 1 >= |MARKER|
  {
    if x - 1 < |MARKER| {
      var d := x - 1;
      forall t | 0 <= t < |MARKER| - d ensures MARKER[d + t] == MARKER[t] {
        assert s[1 + (d + t)] == s[x + t];
      }
      MarkerUnbordered(d);
    }
  }

  lemma TokenChars(k: string)
    ensures var t, n := Token(k), |MARKER| + |k| + 2;
            |t| == n && t[0] == '\0' && t[n - 1] == '\0' && (forall d :: 0 <= d < |MARKER| ==> t[1 + d] == MARKER[d])
            && (forall d :: 0 <= d < |k| ==> t[1 + |MARKER| + d] == k[d])
  {
  }

  lemma MarkerInKey(s: string, k: string, x: int)
    requires 1 + |MARKER| <= x && x + |MARKER| < |MARKER| + |k| + 2 <= |s|
    requires forall d :: 0 <= d < |k| ==> s[1 + |MARKER| + d] == k[d]
    requires forall d :: 0 <= d < |MARKER| ==> s[x + d] == MARKER[d]
    ensures Contains(k, MARKER)
  {
    var y := x - 1 - |MARKER|;
    forall d | 0 <= d < |MARKER| ensures k[y + d] == MARKER[d] {
      assert s[1 + |MARKER| + (y + d)] == s[x + d];
    }
    CharsAt(k, MARKER, y);
  }

  lemma CharsAt(s: string, t: string, i: nat)
    requires i + |t| <= |s| && forall d :: 0 <= d < |t| ==> s[i + d] == t[d]
    ensures At(s, t, i)
  {
    assert s[i..i + |t|] == t;
  }

  /** No step of the second pass removes a stray marker. */
  lemma {:induction false} StrayStays(s: string, k: string, v: string, odd: bool)
    requires Stray(s, odd) && '\0' !in k && '\0' !in v && !Contains(k, MARKER)
    ensures Stray(ReplaceAll(s, Token(k), v), odd)
    decreases |s|
  {
    var x :| StrayAt(s, odd, x);
    if At(s, Token(k), 0) {
      StrayBehindToken(s, k, x);
      var n := |Token(k)|;
      assert s == Token(k) + s[n..];
      StrayBehind(Token(k), s[n..], odd, x);
      TokenNuls(k);
      StrayStays(s[n..], k, v, odd);
      NoNuls(v);
      StrayPrefix(v, ReplaceAll(s[n..], Token(k), v), odd);
    } else {
      assert s == [s[0]] + s[1..];
      if x == 1 {
        StraySecond(s, k, v, odd);
      } else {
        StrayBehind([s[0]], s[1..], odd, x);
        StrayStays(s[1..], k, v, OddNuls([s[0]]) != odd);
        StrayPrefix([s[0]], ReplaceAll(s[1..], Token(k), v), OddNuls([s[0]]) != odd);
      }
    }
  }

  lemma StrayBehind(w: string, s: string, odd: bool, x: int)
    requires StrayAt(w + s, odd, x) && x > |w|
    ensures Stray(s, OddNuls(w) != odd)
  {
    var y := x - |w|;
    AtShift(w, s, MARKER, y);
    assert (w + s)[..x] == w + s[..y];
    OddNulsConcat(w, s[..y]);
    assert (w + s)[x - 1] == s[y - 1];
    assert StrayAt(s, OddNuls(w) != odd, y);
  }

  /** A marker in second place is copied with the character in front of it. */
  lemma StraySecond(s: string, k: string, v: string, odd: bool)
    requires StrayAt(s, odd, 1) && !At(s, Token(k), 0)
    ensures Stray(ReplaceAll(s, Token(k), v), odd)
  {
    var m := |MARKER|;
    var u := s[1 + m..];
    assert s == [s[0]] + (MARKER + u);
    ReplaceMisses(s[0], MARKER + u, Token(k), v);
    ReplaceSkips(MARKER, u, Token(k), v);
    MarkerSecond(s[0], ReplaceAll(u, Token(k), v));
    MarkerSecond(s[0], u);
    assert odd == false by { assert s[..1] == [s[0]]; NoNuls([s[0]]); }
  }

  lemma MarkerSecond(c: char, u: string)
    requires c != '\0'
    ensures Stray([c] + (MARKER + u), false)
  {
    var s := [c] + (MARKER + u);
    NoNuls([c]);
    assert s[..1] == [c] && s[1..1 + |MARKER|] == MARKER;
    assert StrayAt(s, false, 1);
  }

  lemma {:induction false} StrayStaysAll(s: string, vars: Vars, order: seq<string>)
    requires Stray(s, true) && CleanKeys(vars.Keys) && CleanValues(vars) && MarkerFree(vars.Keys)
    requires forall k <- order :: k in vars
    ensures Stray(FillAll(s, vars, order), true)
    decreases |order|
  {
    if order != [] {
      var k := order[0];
      StrayStays(s, k, vars[k], true);
      StrayStaysAll(ReplaceAll(s, Token(k), vars[k]), vars, order[1..]);
    }
  }

  /** Replacing a forged token tears the two real ones apart. */
  lemma Misfire(j: string, k: string, tail: string, v: string)
    requires '\0' !in j && '\0' !in k && j != k
    ensures ReplaceAll(Token(j) + (MARKER + k + ("\0" + (MARKER + tail))), Token(k), v)
         == ['\0'] + ((MARKER + j) + (v + (MARKER + ReplaceAll(tail, Token(k), v))))
  {
    var rest, name := MARKER + k + ("\0" + (MARKER + tail)), MARKER + j;
    TokenText(j, rest);
    OtherTokenMisses(j, k, rest);
    ReplaceMisses('\0', name + (['\0'] + rest), Token(k), v);
    ReplaceSkips(name, ['\0'] + rest, Token(k), v);
    ForgedToken(k, MARKER + tail);
    ReplaceHits(MARKER + tail, Token(k), v);
    ReplaceSkips(MARKER, tail, Token(k), v);
  }

  lemma ForgedToken(k: string, more: string)
    ensures ['\0'] + (MARKER + k + ("\0" + more)) == Token(k) + more
  {
  }

  lemma MisfireIsStray(j: string, v: string, u: string)
    requires '\0' !in j && '\0' !in v
    ensures Stray(['\0'] + ((MARKER + j) + (v + (MARKER + u))), true)
  {
    var w := MARKER + j + v;
    AfterNulFree(w, u);
    StrayPrefix(['\0'], w + (MARKER + u), false);
    assert OddNuls(['\0']) by { assert ['\0'][1..] == ""; }
    ConcatAssoc(MARKER + j, v, MARKER + u);
  }

  lemma AfterNulFree(w: string, u: string)
    requires w != "" && '\0' !in w
    ensures Stray(w + (MARKER + u), false)
  {
    var n := |w| - 1;
    MarkerSecond(w[n], u);
    assert w == w[..n] + [w[n]];
    NoNuls(w[..n]);
    StrayPrefix(w[..n], [w[n]] + (MARKER + u), false);
    ConcatAssoc(w[..n], [w[n]], MARKER + u);
  }

  /** A step that something is exposed to leaves a stray marker. */
  lemma {:induction false} ExposedMisfires(p: seq<Piece>, vars: Vars, filled: set<string>, k: string)
    requires filled <= vars.Keys && CleanKeys(vars.Keys) && CleanValues(vars) && Canonical(p, vars.Keys)
    requires k in vars && Exposed(p, vars, filled, k)
    ensures Stray(ReplaceAll(Fill(p, vars, filled), Token(k), vars[k]), true)
  {
    var rest := Fill(p[1..], vars, filled);
    if p[0].Ref? && p[0].key !in filled && p[0].key != k && MARKER + k + "\0" <= rest {
      ExposedHead(p, vars, filled, k);
    } else {
      ExposedMisfires(p[1..], vars, filled, k);
      var r := ReplaceAll(rest, Token(k), vars[k]);
      match p[0]
      case Ch(c) =>
        ReplaceSkips([c], rest, Token(k), vars[k]);
        NoNuls([c]);
        StrayPrefix([c], r, true);
      case Ref(j) =>
        if j in filled {
          ReplaceSkips(vars[j], rest, Token(k), vars[k]);
          NoNuls(vars[j]);
          StrayPrefix(vars[j], r, true);
        } else if j == k {
          ReplaceHits(rest, Token(k), vars[k]);
          NoNuls(vars[k]);
          StrayPrefix(vars[k], r, true);
        } else {
          OtherToken(j, k, rest, vars[k]);
          TokenNuls(j);
          StrayPrefix(Token(j), r, true);
        }
    }
  }

  lemma ExposedHead(p: seq<Piece>, vars: Vars, filled: set<string>, k: string)
    requires filled <= vars.Keys && CleanKeys(vars.Keys) && CleanValues(vars) && Canonical(p, vars.Keys) && k in vars
    requires p != [] && p[0].Ref? && p[0].key !in filled && p[0].key != k
    requires MARKER + k + "\0" <= Fill(p[1..], vars, filled)
    ensures Stray(ReplaceAll(Fill(p, vars, filled), Token(k), vars[k]), true)
  {
    var q, j := p[1..], p[0].key;
    var i := FindToken(q, vars, filled, MARKER + k);
    TokenFollows(q, vars, filled, MARKER + k, i);
    var more := Fill(q[i + 1..], vars, filled);
    var tail := q[i].key + ("\0" + more);
    TokenOpens(q[i].key, more);
    ConcatAssoc(MARKER + k, Token(q[i].key), more);
    Misfire(j, k, tail, vars[k]);
    MisfireIsStray(j, vars[k], ReplaceAll(tail, Token(k), vars[k]));
  }

  lemma TokenOpens(k: string, more: string)
    ensures Token(k) + more == "\0" + (MARKER + (k + ("\0" + more)))
  {
  }

  lemma {:induction false} FillIsNulFree(p: seq<Piece>, vars: Vars)
    requires CleanValues(vars) && Canonical(p, vars.Keys)
    ensures '\0' !in Fill(p, vars, vars.Keys)
  {
    if p != [] { FillIsNulFree(p[1..], vars); }
  }

  lemma {:induction false} StrayHasNul(s: string)
    requires Stray(s, true)
    ensures '\0' in s
  {
    var x :| StrayAt(s, true, x);
    if '\0' !in s { NoNuls(s[..x]); }
  }

  // ---------- the two passes are one substitution exactly when nothing is forged ----------

  predicate MarkerFree(keys: set<string>) {
    forall k <- keys :: IndexOf(k, "PROMPT_VAR_") == -1
  }

  /** Keys, values and text that a token cannot be split by. */
  predicate Clean(text: string, vars: Vars) {
    CleanKeys(vars.Keys) && CleanValues(vars) && '\0' !in text
  }

  lemma MarkedText(text: string, vars: Vars, first: seq<string>)
    requires Clean(text, vars) && Enumerates(first, vars.Keys)
    ensures MarkAll(text, first) == Fill(Parse(text, vars.Keys), vars, {})
    ensures Canonical(Parse(text, vars.Keys), vars.Keys)
  {
    var p := Parse(text, vars.Keys);
    ParseIsCanonical(text, vars.Keys);
    assert vars.Keys - {} == vars.Keys;
    MarkAllKeys(p, vars.Keys, {}, first);
    MarkedIsUnfilled(p, vars);
  }

  /** Whatever the two iteration orders, the two passes are one simultaneous substitution. */
  lemma TwoPassIsSimultaneous(text: string, vars: Vars, first: seq<string>, second: seq<string>)
    requires Enumerates(first, vars.Keys) && Enumerates(second, vars.Keys)
    requires Clean(text, vars) && !Forged(Parse(text, vars.Keys), vars)
    ensures FillAll(MarkAll(text, first), vars, second) == Subst(text, vars)
  {
    MarkedText(text, vars, first);
    assert vars.Keys - {} == vars.Keys;
    FillAllKeys(Parse(text, vars.Keys), vars, {}, second);
  }

  lemma {:induction false} SomeOrder(keys: set<string>) returns (order: seq<string>)
    ensures Enumerates(order, keys)
  {
    if keys == {} {
      order := [];
    } else {
      var k :| k in keys;
      order := SomeOrder(keys - {k});
      order := [k] + order;
    }
  }

  lemma EnumeratesConcat(a: seq<string>, k: string, b: seq<string>, inner: set<string>, keys: set<string>)
    requires Enumerates(a, inner) && k !in inner && Enumerates(b, keys - inner - {k}) && inner <= keys && k in keys
    ensures Enumerates(a + [k] + b, keys)
  {
    var order := a + [k] + b;
    forall x ensures x in order <==> x in keys {
      assert x in order <==> x in a || x == k || x in b;
    }
    forall i, j | 0 <= i < j < |order| ensures order[i] != order[j] {
      assert i < |a| ==> order[i] in a;
      assert j > |a| ==> order[j] in b;
    }
  }

  lemma {:induction false} FillAllConcat(s: string, vars: Vars, a: seq<string>, b: seq<string>)
    requires (forall k <- a :: k in vars) && (forall k <- b :: k in vars)
    ensures FillAll(s, vars, a + b) == FillAll(FillAll(s, vars, a), vars, b)
    decreases |a|
  {
    if a == [] {
      assert a + b == b;
    } else {
      FillAllConcat(ReplaceAll(s, Token(a[0]), vars[a[0]]), vars, a[1..], b);
      assert (a + b)[1..] == a[1..] + b;
    }
  }

  /** Filling some keys gives the partly filled text or leaves a stray marker. */
  lemma {:induction false} FilledOrStray(p: seq<Piece>, vars: Vars, filled: set<string>, order: seq<string>, keys: set<string>)
    requires CleanKeys(vars.Keys) && CleanValues(vars) && MarkerFree(vars.Keys) && Canonical(p, vars.Keys)
    requires filled <= vars.Keys && keys <= vars.Keys && filled !! keys && Enumerates(order, keys)
    ensures var r := FillAll(Fill(p, vars, filled), vars, order); r == Fill(p, vars, filled + keys) || Stray(r, true)
    decreases |order|
  {
    EnumeratesTail(order, keys);
    if order == [] {
      assert filled + keys == filled;
    } else {
      var k := order[0];
      if Exposed(p, vars, filled, k) {
        ExposedMisfires(p, vars, filled, k);
        StrayStaysAll(ReplaceAll(Fill(p, vars, filled), Token(k), vars[k]), vars, order[1..]);
      } else {
        FillStep(p, vars, filled, k);
        assert filled + {k} + (keys - {k}) == filled + keys;
        FilledOrStray(p, vars, filled + {k}, order[1..], keys - {k});
      }
    }
  }

  ghost function KeysBetween(p: seq<Piece>, i: nat, j: nat): set<string>
    requires i < j < |p|
  {
    set m | i < m < j && p[m].Ref? :: p[m].key
  }

  lemma SettledBetween(p: seq<Piece>, i: nat, j: nat)
    requires i < j < |p|
    ensures Settled(p[i + 1..j], KeysBetween(p, i, j))
  {
    var q := p[i + 1..j];
    forall m | 0 <= m < |q| && q[m].Ref? ensures q[m].key in KeysBetween(p, i, j) {
      assert q[m] == p[i + 1 + m];
    }
  }

  /** The order that fills the references in between first and then the forged key goes wrong. */
  lemma ForgedOrder(p: seq<Piece>, vars: Vars, i: nat, j: nat, k: string) returns (second: seq<string>)
    requires CleanKeys(vars.Keys) && CleanValues(vars) && MarkerFree(vars.Keys) && Canonical(p, vars.Keys)
    requires ForgedBy(p, vars, i, j, k) && KeysBetween(p, i, j) <= vars.Keys
    ensures Enumerates(second, vars.Keys) && Stray(FillAll(Fill(p, vars, {}), vars, second), true)
  {
    var inner := KeysBetween(p, i, j);
    var a := SomeOrder(inner);
    var b := SomeOrder(vars.Keys - inner - {k});
    EnumeratesConcat(a, k, b, inner, vars.Keys);
    second := a + [k] + b;
    var s := Fill(p, vars, {});
    FillAllConcat(s, vars, a + [k], b);
    FillAllSnoc(s, vars, a, k);
    FilledOrStray(p, vars, {}, a, inner);
    assert {} + inner == inner;
    var r := FillAll(s, vars, a);
    if Stray(r, true) {
      StrayStays(r, k, vars[k], true);
    } else {
      SettledBetween(p, i, j);
      ForgedIsExposed(p, vars, inner, i, j, k);
      ExposedMisfires(p, vars, inner, k);
    }
    StrayStaysAll(ReplaceAll(r, Token(k), vars[k]), vars, b);
  }

  lemma {:induction false} CanonicalKeys(p: seq<Piece>, keys: set<string>)
    requires Canonical(p, keys)
    ensures forall m :: 0 <= m < |p| && p[m].Ref? ==> p[m].key in keys
  {
    if p != [] {
      CanonicalKeys(p[1..], keys);
      assert forall m :: 0 < m < |p| ==> p[m] == p[1..][m - 1];
    }
  }

  /** If something is forged, there is an order of the second pass that goes wrong, whatever the first. */
  lemma ForgedGoesWrong(text: string, vars: Vars) returns (second: seq<string>)
    requires Clean(text, vars) && MarkerFree(vars.Keys) && Forged(Parse(text, vars.Keys), vars)
    ensures Enumerates(second, vars.Keys)
    ensures forall first :: Enumerates(first, vars.Keys) ==> FillAll(MarkAll(text, first), vars, second) != Subst(text, vars)
  {
    var p := Parse(text, vars.Keys);
    ParseIsCanonical(text, vars.Keys);
    CanonicalKeys(p, vars.Keys);
    var i: nat, j: nat, k :| ForgedBy(p, vars, i, j, k);
    second := ForgedOrder(p, vars, i, j, k);
    StrayHasNul(FillAll(Fill(p, vars, {}), vars, second));
    FillIsNulFree(p, vars);
    forall first | Enumerates(first, vars.Keys) ensures FillAll(MarkAll(text, first), vars, second) != Subst(text, vars) {
      MarkedText(text, vars, first);
    }
  }

  /** The two passes are right for this pair of orders. */
  ghost predicate RightFor(text: string, vars: Vars, first: seq<string>, second: seq<string>) {
    Enumerates(first, vars.Keys) && Enumerates(second, vars.Keys) ==> FillAll(MarkAll(text, first), vars, second) == Subst(text, vars)
  }

  /** The two passes are one simultaneous substitution for all pairs of iteration orders exactly when
      nothing in the text is forged. */
  lemma TwoPassIff(text: string, vars: Vars)
    requires Clean(text, vars) && MarkerFree(vars.Keys)
    ensures (forall first, second :: RightFor(text, vars, first, second)) <==> !Forged(Parse(text, vars.Keys), vars)
  {
    if Forged(Parse(text, vars.Keys), vars) {
      var second := ForgedGoesWrong(text, vars);
      assert !RightFor(text, vars, second, second);
    } else {
      forall first, second ensures RightFor(text, vars, first, second) {
        if Enumerates(first, vars.Keys) && Enumerates(second, vars.Keys) { TwoPassIsSimultaneous(text, vars, first, second); }
      }
    }
  }

  /** In particular a result without the marker means that nothing is forged. */
  lemma UnmarkedIsUnforged(text: string, vars: Vars)
    requires !Contains(Subst(text, vars), MARKER)
    ensures !Forged(Parse(text, vars.Keys), vars)
  {
    var p := Parse(text, vars.Keys);
    if i: nat, j: nat, k :| ForgedBy(p, vars, i, j, k) {
      ForgedHoldsMarker(p, vars, i, j, k);
    }
  }

  lemma ForgedHoldsMarker(p: seq<Piece>, vars: Vars, i: nat, j: nat, k: string)
    requires ForgedBy(p, vars, i, j, k)
    ensures Contains(Fill(p, vars, vars.Keys), MARKER)
  {
    FillMiddle(p, vars, i + 1, j);
    MarkerInside(Fill(p[..i + 1], vars, vars.Keys), k, Fill(p[j..], vars, vars.Keys));
  }

  lemma MarkerInside(a: string, k: string, c: string)
    ensures Contains(a + (MARKER + k + c), MARKER)
  {
    assert At(MARKER + k + c, MARKER, 0);
    AtShift(a, MARKER + k + c, MARKER, 0);
  }

  lemma FillMiddle(p: seq<Piece>, vars: Vars, i: nat, j: nat)
    requires i <= j <= |p|
    ensures Fill(p, vars, vars.Keys)
         == Fill(p[..i], vars, vars.Keys) + (Fill(p[i..j], vars, vars.Keys) + Fill(p[j..], vars, vars.Keys))
  {
    SplitSeq(p, i);
    FillConcat(p[..i], p[i..], vars, vars.Keys);
    SplitRest(p, i, j);
    FillConcat(p[i..j], p[j..], vars, vars.Keys);
  }

  lemma SplitRest(p: seq<Piece>, i: nat, j: nat)
    requires i <= j <= |p|
    ensures p[i..] == p[i..j] + p[j..]
  {
  }

  // ---------- structured text ----------

  datatype Segment = Plain(text: string) | Var(key: string)

  function PrintSegment(s: Segment): string {
    match s case Plain(t) => t case Var(k) => Placeholder(k)
  }

  function PrintSegments(ss: seq<Segment>): string {
    if ss == [] then "" else PrintSegment(ss[0]) + PrintSegments(ss[1..])
  }

  /** Bound references become their values verbatim; unbound ones stay as written. */
  function RenderSegments(ss: seq<Segment>, vars: Vars): string {
    if ss == [] then ""
    else (match ss[0]
          case Plain(t) => t
          case Var(k) => if k in vars then vars[k] else Placeholder(k)) + RenderSegments(ss[1..], vars)
  }

  lemma {:induction false} SubstPlain(w: string, s: string, vars: Vars)
    requires '{' !in w
    ensures Subst(w + s, vars) == w + Subst(s, vars)
  {
    if w == "" {
      assert w + s == s;
    } else {
      SubstPlain(w[1..], s, vars);
      HeadOfConcat(w, s);
      SubstCopies(w[0], w[1..] + s, vars);
      ConcatAssoc([w[0]], w[1..], Subst(s, vars));
    }
  }

  /** A character at which no placeholder of a bound key starts is copied. */
  lemma SubstCopies(c: char, s: string, vars: Vars)
    requires KeyAt([c] + s, vars.Keys) == None
    ensures Subst([c] + s, vars) == [c] + Subst(s, vars)
  {
    assert ([c] + s)[1..] == s;
    FillCons(Ch(c), Parse(s, vars.Keys), vars, vars.Keys);
  }

  lemma KeyAtPlaceholder(k: string, s: string, keys: set<string>)
    requires '{' !in k && '}' !in k
    ensures KeyAt(Placeholder(k) + s, keys) == if k in keys then Some(k) else None
    ensures (Placeholder(k) + s)[|k| + 2..] == s
  {
    var text := Placeholder(k) + s;
    assert text == ("{" + k) + ("}" + s);
    IndexOfChar("{" + k, "}" + s, '}');
    assert text[1..1 + |k|] == k;
  }

  lemma SubstVar(k: string, s: string, vars: Vars)
    requires '{' !in k && '}' !in k
    ensures Subst(Placeholder(k) + s, vars) == (if k in vars then vars[k] else Placeholder(k)) + Subst(s, vars)
  {
    KeyAtPlaceholder(k, s, vars.Keys);
    if k in vars {
      FillCons(Ref(k), Parse(s, vars.Keys), vars, vars.Keys);
    } else {
      UnboundText(k, s);
      SubstCopies('{', (k + "}") + s, vars);
      SubstPlain(k + "}", s, vars);
      UnboundText(k, Subst(s, vars));
    }
  }

  lemma UnboundText(k: string, s: string)
    ensures Placeholder(k) + s == ['{'] + ((k + "}") + s)
  {
  }

  function Chars(w: string): seq<Piece> {
    if w == "" then [] else [Ch(w[0])] + Chars(w[1..])
  }

  /** The pieces that segments stand for: unbound references are ordinary text. */
  function PiecesOf(ss: seq<Segment>, keys: set<string>): seq<Piece> {
    if ss == [] then []
    else (match ss[0]
          case Plain(t) => Chars(t)
          case Var(k) => if k in keys then [Ref(k)] else Chars(Placeholder(k))) + PiecesOf(ss[1..], keys)
  }

  lemma {:induction false} ParsePlain(w: string, s: string, keys: set<string>)
    requires '{' !in w
    ensures Parse(w + s, keys) == Chars(w) + Parse(s, keys)
  {
    if w == "" {
      assert w + s == s;
    } else {
      ParsePlain(w[1..], s, keys);
      HeadOfConcat(w, s);
      ParseCopies(w[0], w[1..] + s, keys);
      ConcatAssoc([Ch(w[0])], Chars(w[1..]), Parse(s, keys));
    }
  }

  lemma ParseCopies(c: char, s: string, keys: set<string>)
    requires KeyAt([c] + s, keys) == None
    ensures Parse([c] + s, keys) == [Ch(c)] + Parse(s, keys)
  {
    assert ([c] + s)[1..] == s;
  }

  lemma ParseVar(k: string, s: string, keys: set<string>)
    requires '{' !in k && '}' !in k
    ensures Parse(Placeholder(k) + s, keys) == (if k in keys then [Ref(k)] else Chars(Placeholder(k))) + Parse(s, keys)
  {
    KeyAtPlaceholder(k, s, keys);
    if k !in keys {
      UnboundText(k, s);
      ParseCopies('{', (k + "}") + s, keys);
      ParsePlain(k + "}", s, keys);
      assert Placeholder(k) == ['{'] + (k + "}") && Placeholder(k)[1..] == k + "}";
    }
  }

  /** Printed segments are read as their pieces. */
  lemma {:induction false} ParsePrinted(ss: seq<Segment>, keys: set<string>)
    requires forall s <- ss :: Unambiguous(s)
    ensures Parse(PrintSegments(ss), keys) == PiecesOf(ss, keys)
  {
    if ss != [] {
      ParsePrinted(ss[1..], keys);
      assert Unambiguous(ss[0]);
      match ss[0]
      case Plain(t) => ParsePlain(t, PrintSegments(ss[1..]), keys);
      case Var(k) => ParseVar(k, PrintSegments(ss[1..]), keys);
    }
  }

  predicate Unambiguous(s: Segment) {
    match s
    case Plain(t) => '{' !in t
    case Var(k) => '{' !in k && '}' !in k
  }

  /** `Subst` on printed segments replaces exactly the bound references; values are not rescanned. */
  lemma {:induction false} SubstIsStructural(ss: seq<Segment>, vars: Vars)
    requires forall s <- ss :: Unambiguous(s)
    ensures Subst(PrintSegments(ss), vars) == RenderSegments(ss, vars)
  {
    if ss != [] {
      SubstIsStructural(ss[1..], vars);
      assert Unambiguous(ss[0]);
      match ss[0]
      case Plain(t) => SubstPlain(t, PrintSegments(ss[1..]), vars);
      case Var(k) => SubstVar(k, PrintSegments(ss[1..]), vars);
    }
  }

  // ---------- a forged token ----------

  /** For all different clean keys a and b there is a text whose second pass goes wrong when b comes
      first: the closing NUL of the first token, the marker in the text and the opening NUL of the last
      token together look like the token of b. */
  lemma MarkerCollision(a: string, b: string, va: string, vb: string)
    requires a != b && CleanKeys({a, b}) && '\0' !in va && '\0' !in vb
    ensures var vars := map[a := va, b := vb];
            var text := Placeholder(a) + (MARKER + b) + Placeholder(a);
            FillAll(MarkAll(text, [a, b]), vars, [b, a]) != Subst(text, vars)
  {
    assert a in {a, b} && b in {a, b};
    CollisionFirstPass(a, b);
    CollisionSecondPass(a, b, va, vb);
    IntendedCollision(a, b, va, vb);
  }

  /** The intended result has no NULs at its start. */
  lemma IntendedCollision(a: string, b: string, va: string, vb: string)
    requires '{' !in a && '}' !in a && '{' !in b && '\0' !in va
    ensures var r := Subst(Placeholder(a) + (MARKER + b) + Placeholder(a), map[a := va, b := vb]);
            a != b ==> r != "" && r[0] != '\0'
  {
    var vars := map[a := va, b := vb];
    ConcatAssoc(Placeholder(a), MARKER + b, Placeholder(a));
    SubstVar(a, (MARKER + b) + Placeholder(a), vars);
    SubstPlain(MARKER + b, Placeholder(a), vars);
    assert (MARKER + b + Subst(Placeholder(a), vars))[0] == MARKER[0];
  }

  lemma CollisionFirstPass(a: string, b: string)
    requires CleanKeys({a, b}) && a in {a, b} && b in {a, b}
    ensures MarkAll(Placeholder(a) + (MARKER + b) + Placeholder(a), [a, b]) == Token(a) + (MARKER + b) + Token(a)
  {
    var mid := MARKER + b;
    var m := Token(a) + mid + Token(a);
    BothMarked(a, mid);
    ReplaceSkips(m, "", Placeholder(b), Token(b));
    ConcatEmpty(m);
    assert [a, b][1..] == [b] && [b][1..] == [];
    assert MarkAll(m, [b]) == MarkAll(m, []);
  }

  lemma BothMarked(a: string, mid: string)
    requires '{' !in mid
    ensures ReplaceAll(Placeholder(a) + mid + Placeholder(a), Placeholder(a), Token(a)) == Token(a) + mid + Token(a)
  {
    ConcatAssoc(Placeholder(a), mid, Placeholder(a));
    ReplaceHits(mid + Placeholder(a), Placeholder(a), Token(a));
    ReplaceSkips(mid, Placeholder(a), Placeholder(a), Token(a));
    ConcatEmpty(Placeholder(a));
    ReplaceHits("", Placeholder(a), Token(a));
    ConcatEmpty(Token(a));
    ConcatAssoc(Token(a), mid, Token(a));
  }

  /** What is left of the token of a is never filled. */
  lemma CollisionSecondPass(a: string, b: string, va: string, vb: string)
    requires a != b && '\0' !in a && '\0' !in b && '\0' !in vb
    ensures var r := FillAll(Token(a) + (MARKER + b) + Token(a), map[a := va, b := vb], [b, a]);
            r != "" && r[0] == '\0'
  {
    var vars := map[a := va, b := vb];
    var u := ReplaceAll(a + "\0", Token(b), vb);
    CollisionText(a, b);
    Misfire(a, b, a + "\0", vb);
    TornTokenStays(a, vb, u, va);
    assert [b, a][1..] == [a] && [a][1..] == [];
    var after := ['\0'] + ((MARKER + a) + (vb + (MARKER + u)));
    assert FillAll(after, vars, [a]) == FillAll(ReplaceAll(after, Token(a), va), vars, []);
  }

  lemma CollisionText(a: string, b: string)
    ensures Token(a) + (MARKER + b) + Token(a) == Token(a) + (MARKER + b + ("\0" + (MARKER + (a + "\0"))))
  {
  }

  lemma TornTokenStays(a: string, v: string, u: string, va: string)
    requires '\0' !in a && '\0' !in v
    ensures var r := ReplaceAll(['\0'] + ((MARKER + a) + (v + (MARKER + u))), Token(a), va); r != "" && r[0] == '\0'
  {
    var tail := (MARKER + a) + (v + (MARKER + u));
    var n := |MARKER + a|;
    assert tail[n] == (v + (MARKER + u))[0] != '\0';
    assert (['\0'] + tail)[n + 1] == tail[n] && Token(a)[n + 1] == '\0';
    ReplaceMisses('\0', tail, Token(a), va);
  }
}
