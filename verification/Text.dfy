/**
  The parts of Go's `strings` and `bytes` packages that the text codecs rely on:
  substring search, non-overlapping replacement, right trimming and the bytewise order.
 */
module Text {
  import opened Sequences

  /** The pattern `t` occurs in `s` at offset `i`. */
  predicate At(s: string, t: string, i: int) {
    0 <= i && i + |t| <= |s| && s[i..i + |t|] == t
  }

  ghost predicate Contains(s: string, t: string) {
    exists i :: At(s, t, i)
  }

  /** Offset of the first occurrence of `t` at or after `from`, or -1. */
  function IndexFrom(s: string, t: string, from: nat): (r: int)
    requires from <= |s|
    ensures r == -1 ==> forall i :: from <= i ==> !At(s, t, i)
    ensures r != -1 ==> from <= r && At(s, t, r) && forall i :: from <= i < r ==> !At(s, t, i)
    decreases |s| - from
  {
    if At(s, t, from) then from
    else if from == |s| then -1
    else IndexFrom(s, t, from + 1)
  }

  /** strings.Index */
  function IndexOf(s: string, t: string): (r: int)
    ensures r == -1 <==> !Contains(s, t)
    ensures r != -1 ==> At(s, t, r) && forall i :: i < r ==> !At(s, t, i)
  {
    IndexFrom(s, t, 0)
  }

  /** strings.ReplaceAll for a nonempty pattern: leftmost, non-overlapping. */
  function ReplaceAll(s: string, pat: string, rep: string): string
    requires |pat| > 0
    decreases |s|
  {
    if s == "" then ""
    else if At(s, pat, 0) then rep + ReplaceAll(s[|pat|..], pat, rep)
    else [s[0]] + ReplaceAll(s[1..], pat, rep)
  }

  /** strings.TrimRight(s, "\n") */
  function TrimRightNewlines(s: string): (r: string)
    ensures r <= s
    ensures r != "" ==> r[|r| - 1] != '\n'
    ensures forall i :: |r| <= i < |s| ==> s[i] == '\n'
  {
    if s != "" && s[|s| - 1] == '\n' then TrimRightNewlines(s[..|s| - 1]) else s
  }

  /** The bytewise order of Go's `<` on strings and of SQLite's BINARY collation. */
  predicate Less(a: string, b: string) {
    if b == "" then false
    else if a == "" then true
    else if a[0] != b[0] then a[0] < b[0]
    else Less(a[1..], b[1..])
  }

  /** A decimal digit. */
  function Digit(d: nat): (c: char)
    requires d < 10
    ensures '0' <= c <= '9'
  {
    if d == 0 then '0' else if d == 1 then '1' else if d == 2 then '2' else if d == 3 then '3' else if d == 4 then '4'
    else if d == 5 then '5' else if d == 6 then '6' else if d == 7 then '7' else if d == 8 then '8' else '9'
  }

  /** The value of a sequence of decimal digits. */
  function Magnitude(s: string): int {
    if s == "" then 0 else 10 * Magnitude(s[..|s| - 1]) + (s[|s| - 1] as int - '0' as int)
  }

  // ---------- lemmas ----------

  lemma DigitValue(d: nat)
    requires d < 10
    ensures Digit(d) as int - '0' as int == d
  {
  }

  /** Digits are ordered as their values. */
  lemma DigitOrder(a: nat, b: nat)
    requires a < 10 && b < 10
    ensures Digit(a) < Digit(b) <==> a < b
    ensures Digit(a) == Digit(b) <==> a == b
  {
  }

  lemma AtChars(s: string, t: string, i: nat)
    requires At(s, t, i)
    ensures forall d :: 0 <= d < |t| ==> s[i + d] == t[d]
  {
    forall d | 0 <= d < |t| ensures s[i + d] == t[d] { assert s[i..i + |t|][d] == t[d]; }
  }

  lemma AtShift(a: string, b: string, t: string, i: int)
    requires 0 <= i
    ensures At(a + b, t, |a| + i) == At(b, t, i)
  {
    if i + |t| <= |b| {
      assert (a + b)[|a| + i..|a| + i + |t|] == b[i..i + |t|];
    }
  }

  lemma AtPrefix(a: string, b: string, t: string, i: int)
    requires 0 <= i && i + |t| <= |a|
    ensures At(a + b, t, i) == At(a, t, i)
  {
    assert (a + b)[i..i + |t|] == a[i..i + |t|];
  }

  /** The character `c` occurs in `t` only as its first character. */
  predicate HeadOnly(t: string) {
    |t| > 0 && t[0] !in t[1..]
  }

  /** A pattern whose first character does not recur in it is found at a seam where it starts,
      unless it already occurs before the seam. */
  lemma IndexAtSeam(a: string, b: string, t: string)
    requires HeadOnly(t) && !Contains(a, t) && At(b, t, 0)
    ensures IndexOf(a + b, t) == |a|
  {
    AtShift(a, b, t, 0);
    forall i | i < |a| ensures !At(a + b, t, i) {
      NoStraddle(a, b, t, i);
    }
  }

  lemma NoStraddle(a: string, b: string, t: string, i: int)
    requires HeadOnly(t) && !Contains(a, t) && i < |a|
    requires b == "" || b[0] == t[0]
    ensures !At(a + b, t, i)
  {
    if 0 <= i && i + |t| <= |a| {
      AtPrefix(a, b, t, i);
    } else if 0 <= i && b != "" {
      assert t[|a| - i] in t[1..] && (a + b)[|a|] == t[0];
    }
  }

  /** A pattern whose first character does not recur in it does not arise at a seam where the second text
      starts with that character. */
  lemma SeamLacks(a: string, b: string, t: string)
    requires HeadOnly(t) && !Contains(a, t) && !Contains(b, t) && (b == "" || b[0] == t[0])
    ensures !Contains(a + b, t)
  {
    forall i ensures !At(a + b, t, i) {
      if i < |a| { NoStraddle(a, b, t, i); } else { AtShift(a, b, t, i - |a|); }
    }
  }

  lemma AbsentSeam(a: string, b: string, t: string)
    requires HeadOnly(t) && !Contains(a + b, t)
    ensures !Contains(a, t)
  {
    if i :| At(a, t, i) {
      AtPrefix(a, b, t, i);
    }
  }

  /** A single character pattern: the first occurrence is after a prefix free of it. */
  lemma IndexOfChar(a: string, b: string, c: char)
    requires c !in a && b != "" && b[0] == c
    ensures IndexOf(a + b, [c]) == |a|
  {
    assert At(a + b, [c], |a|);
    forall i | 0 <= i < |a| ensures !At(a + b, [c], i) {
      assert (a + b)[i] == a[i] != c;
    }
  }

  /** Replacement copies a prefix in which the pattern's first character does not occur. */
  lemma {:induction false} ReplaceSkips(w: string, s: string, pat: string, rep: string)
    requires |pat| > 0 && pat[0] !in w
    ensures ReplaceAll(w + s, pat, rep) == w + ReplaceAll(s, pat, rep)
  {
    if w == "" {
      assert w + s == s;
    } else {
      ReplaceSkips(w[1..], s, pat, rep);
      assert (w + s)[1..] == w[1..] + s;
      assert pat[0] != (w + s)[0];
    }
  }

  lemma {:induction false} LessIrreflexive(a: string)
    ensures !Less(a, a)
  {
    if a != "" { LessIrreflexive(a[1..]); }
  }

  lemma {:induction false} LessTotal(a: string, b: string)
    ensures Less(a, b) || a == b || Less(b, a)
  {
    if a != "" && b != "" && a[0] == b[0] {
      LessTotal(a[1..], b[1..]);
      assert a[1..] == b[1..] ==> a == [a[0]] + a[1..] == b;
    }
  }

  lemma {:induction false} LessTransitive(a: string, b: string, c: string)
    requires Less(a, b) && Less(b, c)
    ensures Less(a, c)
  {
    if a != "" && a[0] == b[0] == c[0] {
      LessTransitive(a[1..], b[1..], c[1..]);
    }
  }

  lemma LessAsymmetric(a: string, b: string)
    requires Less(a, b)
    ensures !Less(b, a)
  {
    if Less(b, a) {
      LessTransitive(a, b, a);
      LessIrreflexive(a);
    }
  }

  /** A common prefix does not affect the order. */
  lemma {:induction false} LessCommonPrefix(p: string, a: string, b: string)
    ensures Less(p + a, p + b) == Less(a, b)
  {
    if p == "" {
      assert p + a == a && p + b == b;
    } else {
      LessCommonPrefix(p[1..], a, b);
      assert (p + a)[1..] == p[1..] + a && (p + b)[1..] == p[1..] + b;
    }
  }

  /** Between different strings of one length, the order is decided before any suffix. */
  lemma {:induction false} LessFixedWidth(p: string, q: string, a: string, b: string)
    requires |p| == |q| && p != q
    ensures Less(p + a, q + b) == Less(p, q)
  {
    assert p == [p[0]] + p[1..] && q == [q[0]] + q[1..];
    assert (p + a)[1..] == p[1..] + a && (q + b)[1..] == q[1..] + b;
    if p[0] == q[0] {
      LessFixedWidth(p[1..], q[1..], a, b);
    }
  }

  // ---------- trimming ----------

  predicate AllOf(s: string, p: char -> bool) {
    forall i :: 0 <= i < |s| ==> p(s[i])
  }

  /** Nonempty, and nothing to trim at either end. */
  predicate Edged(s: string, p: char -> bool) {
    s != "" && !p(s[0]) && !p(s[|s| - 1])
  }

  /** strings.TrimLeftFunc */
  function TrimLeft(s: string, p: char -> bool): string {
    if s != "" && p(s[0]) then TrimLeft(s[1..], p) else s
  }

  /** What trimming on the left leaves: everything from the first character that stays. */
  lemma {:induction false} TrimLeftIs(s: string, p: char -> bool)
    ensures var r := TrimLeft(s, p); |r| <= |s| && s == s[..|s| - |r|] + r && AllOf(s[..|s| - |r|], p) && (r != "" ==> !p(r[0]))
  {
    if s != "" && p(s[0]) {
      TrimLeftIs(s[1..], p);
      var r := TrimLeft(s, p);
      assert s[..|s| - |r|] == [s[0]] + s[1..][..|s| - 1 - |r|];
    }
  }

  /** strings.TrimRightFunc */
  function TrimRight(s: string, p: char -> bool): string {
    if s != "" && p(s[|s| - 1]) then TrimRight(s[..|s| - 1], p) else s
  }

  /** What trimming on the right leaves: everything up to the last character that stays. */
  lemma {:induction false} TrimRightIs(s: string, p: char -> bool)
    ensures var r := TrimRight(s, p); |r| <= |s| && s == r + s[|r|..] && AllOf(s[|r|..], p) && (r != "" ==> !p(r[|r| - 1]))
  {
    if s != "" && p(s[|s| - 1]) {
      TrimRightIs(s[..|s| - 1], p);
      BackOf(s, |TrimRight(s, p)|);
    }
  }

  lemma BackOf(s: string, n: nat)
    requires s != "" && n <= |s| - 1
    ensures s[n..] == s[..|s| - 1][n..] + [s[|s| - 1]] && s == s[..n] + s[n..] && s[..|s| - 1][..n] == s[..n]
  {
  }

  /** strings.TrimFunc */
  function Trim(s: string, p: char -> bool): string { TrimRight(TrimLeft(s, p), p) }

  lemma {:induction false} TrimLeftPrefix(left: string, s: string, p: char -> bool)
    requires AllOf(left, p) && s != "" && !p(s[0])
    ensures TrimLeft(left + s, p) == s
  {
    if left == "" {
      assert left + s == s;
    } else {
      TrimLeftPrefix(left[1..], s, p);
      assert (left + s)[1..] == left[1..] + s;
    }
  }

  lemma {:induction false} TrimRightSuffix(s: string, right: string, p: char -> bool)
    requires AllOf(right, p) && s != "" && !p(s[|s| - 1])
    ensures TrimRight(s + right, p) == s
  {
    if right == "" {
      assert s + right == s;
    } else {
      TrimRightSuffix(s, right[..|right| - 1], p);
      assert (s + right)[..|s + right| - 1] == s + right[..|right| - 1];
    }
  }

  /** A text with nothing to trim at its ends is what remains of it when spaces surround it. */
  lemma TrimSurrounded(left: string, core: string, right: string, p: char -> bool)
    requires Edged(core, p) && AllOf(left, p) && AllOf(right, p)
    ensures Trim(left + core + right, p) == core
  {
    TrimLeftPrefix(left, core + right, p);
    ConcatAssoc(left, core, right);
    TrimRightSuffix(core, right, p);
  }

  lemma TrimLeftKeeps(prefix: string, s: string, p: char -> bool)
    requires s != "" && !p(s[0])
    ensures TrimLeft(prefix + s, p) == TrimLeft(prefix, p) + s
  {
    var kept := TrimLeft(prefix, p);
    TrimLeftIs(prefix, p);
    var left := prefix[..|prefix| - |kept|];
    ConcatAssoc(left, kept, s);
    TrimLeftPrefix(left, kept + s, p);
  }

  lemma TrimRightKeeps(s: string, suffix: string, p: char -> bool)
    requires s != "" && !p(s[|s| - 1])
    ensures TrimRight(s + suffix, p) == s + TrimRight(suffix, p)
  {
    var kept := TrimRight(suffix, p);
    TrimRightIs(suffix, p);
    var right := suffix[|kept|..];
    ConcatAssoc(s, kept, right);
    TrimRightSuffix(s + kept, right, p);
  }

  /** Trimming never cuts into a core with nothing to trim at its ends. */
  lemma TrimKeepsCore(prefix: string, core: string, suffix: string, p: char -> bool)
    requires Edged(core, p)
    ensures Trim(prefix + core + suffix, p) == TrimLeft(prefix, p) + core + TrimRight(suffix, p)
  {
    var kept := TrimLeft(prefix, p);
    TrimLeftKeeps(prefix, core + suffix, p);
    ConcatAssoc(prefix, core, suffix);
    TrimRightKeeps(kept + core, suffix, p);
    ConcatAssoc(kept, core, suffix);
  }
}
