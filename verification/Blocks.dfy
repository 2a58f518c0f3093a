/**
  The conditional blocks of the prompt template engine: `{#if key}…{#else}…{/if}`.
 */
module Blocks {
  import opened Sequences
  import opened Text
  import opened Wrappers
  import opened Substitution

  const IF_OPEN := "{#if "
  const ELSE_TAG := "{#else}"
  const IF_CLOSE := "{/if}"

  /** A key counts as true when it is bound to something other than "" and "false". */
  predicate Truthy(key: string, vars: Vars) {
    key in vars && vars[key] != "" && vars[key] != "false"
  }

  // ---------- the conditional loop ----------

  /** What one round of the conditional loop does. `Crash` is the slice with inverted bounds. */
  datatype Round = Stop | Crash | Next(text: string)

  /** Outcome of a Go function that may panic. */
  datatype Outcome = Rendered(text: string) | Panic

  function Choose(body: string, key: string, vars: Vars): string {
    var elseIdx := IndexOf(body, ELSE_TAG);
    if elseIdx == -1 then
      if Truthy(key, vars) then body else ""
    else
      if Truthy(key, vars) then body[..elseIdx] else body[elseIdx + |ELSE_TAG|..]
  }

  lemma KeyPrecedesClose(tail: string, close: int)
    requires At(tail, IF_OPEN, 0) && At(tail, "}", close)
    ensures close >= |IF_OPEN|
  {
    assert tail[close..close + 1][0] == '}';
    assert forall i :: 0 <= i < |IF_OPEN| ==> tail[i] == tail[0..|IF_OPEN|][i] != '}';
  }

  /** The round on the block whose opening tag starts `tail`. */
  function BlockRound(before: string, tail: string, vars: Vars): (r: Round)
    requires At(tail, IF_OPEN, 0)
    ensures r.Next? ==> |r.text| + |IF_OPEN| + 1 + |IF_CLOSE| <= |before| + |tail|
  {
    var closeTag := IndexOf(tail, "}");
    if closeTag == -1 then Stop else
    var endIdx := IndexOf(tail, IF_CLOSE);
    if endIdx == -1 then Stop
    else if closeTag + 1 > endIdx then Crash
    else
      assert closeTag >= |IF_OPEN| by { KeyPrecedesClose(tail, closeTag); }
      Next(Spliced(before, tail, closeTag, endIdx, vars))
  }

  /** The chosen branch in place of the block with the given tag positions. */
  function Spliced(before: string, tail: string, closeTag: int, endIdx: int, vars: Vars): (r: string)
    requires |IF_OPEN| <= closeTag < endIdx && endIdx + |IF_CLOSE| <= |tail|
    ensures |r| + |IF_OPEN| + 1 + |IF_CLOSE| <= |before| + |tail|
  {
    var key := tail[|IF_OPEN|..closeTag];
    var body := tail[closeTag + 1..endIdx];
    before + Choose(body, key, vars) + tail[endIdx + |IF_CLOSE|..]
  }

  function OneRound(tmpl: string, vars: Vars): (r: Round)
    ensures r.Next? ==> |r.text| + |IF_OPEN| + 1 + |IF_CLOSE| <= |tmpl|
  {
    var start := IndexOf(tmpl, IF_OPEN);
    if start == -1 then Stop
    else
      assert At(tmpl[start..], IF_OPEN, 0);
      BlockRound(tmpl[..start], tmpl[start..], vars)
  }

  function Conditionals(tmpl: string, vars: Vars): Outcome
    decreases |tmpl|
  {
    match OneRound(tmpl, vars)
    case Stop => Rendered(tmpl)
    case Crash => Panic
    case Next(t) => Conditionals(t, vars)
  }

  /** The conditional loop; each round shortens the text, so it ends on every template. */
  method ProcessConditionals(tmpl: string, vars: Vars) returns (r: Outcome)
    ensures r == Conditionals(tmpl, vars)
  {
    var cur := tmpl;
    while true
      invariant Conditionals(cur, vars) == Conditionals(tmpl, vars)
      decreases |cur|
    {
      match OneRound(cur, vars) {
        case Stop => return Rendered(cur);
        case Crash => return Panic;
        case Next(t) => cur := t;
      }
    }
  }

  // ---------- well-formed templates ----------

  /** A template as the author writes it: literal text and unnested conditional blocks. */
  datatype Block = Lit(text: string) | If(key: string, thn: string, els: Option<string>)

  function Body(b: Block): string
    requires b.If?
  {
    match b.els
    case None => b.thn
    case Some(e) => b.thn + ELSE_TAG + e
  }

  function PrintBlock(b: Block): string {
    match b
    case Lit(t) => t
    case If(k, _, _) => IF_OPEN + k + "}" + Body(b) + IF_CLOSE
  }

  function Print(bs: seq<Block>): string {
    if bs == [] then "" else PrintBlock(bs[0]) + Print(bs[1..])
  }

  function RenderBlock(b: Block, vars: Vars): string {
    match b
    case Lit(t) => t
    case If(k, thn, els) =>
      if Truthy(k, vars) then thn else match els case None => "" case Some(e) => e
  }

  function Render(bs: seq<Block>, vars: Vars): string {
    if bs == [] then "" else RenderBlock(bs[0], vars) + Render(bs[1..], vars)
  }

  /** The tags of a block can be told from its contents. */
  ghost predicate WellFormed(b: Block) {
    b.If? ==>
      && '{' !in b.key && '}' !in b.key
      && !Contains(Body(b), IF_CLOSE) && !Contains(b.thn, ELSE_TAG)
  }

  lemma ChooseRenders(b: Block, vars: Vars)
    requires b.If? && WellFormed(b)
    ensures Choose(Body(b), b.key, vars) == RenderBlock(b, vars)
  {
    if b.els.Some? {
      assert Body(b) == b.thn + (ELSE_TAG + b.els.value);
      assert At(ELSE_TAG + b.els.value, ELSE_TAG, 0);
      IndexAtSeam(b.thn, ELSE_TAG + b.els.value, ELSE_TAG);
    }
  }

  /** Neither the opening tag nor the body of a block contains its closing tag. */
  lemma OpenPartLacksClose(b: Block)
    requires b.If? && WellFormed(b)
    ensures !Contains(IF_OPEN + b.key + "}" + Body(b), IF_CLOSE)
  {
    var head, body := IF_OPEN + b.key + "}", Body(b);
    forall i ensures !At(head + body, IF_CLOSE, i) {
      if i >= |head| {
        AtShift(head, body, IF_CLOSE, i - |head|);
      } else if 0 < i {
        assert head[i] != '{';
        assert (head + body)[i] == head[i] && IF_CLOSE[0] == '{';
      } else {
        assert (head + body)[1] == '#' && IF_CLOSE[1] == '/';
      }
    }
  }

  lemma CloseTagPosition(b: Block, rest: string)
    requires b.If? && WellFormed(b)
    ensures IndexOf(PrintBlock(b) + rest, "}") == |IF_OPEN| + |b.key|
  {
    var head, afterKey := IF_OPEN + b.key, "}" + (Body(b) + IF_CLOSE + rest);
    assert PrintBlock(b) + rest == head + afterKey;
    IndexOfChar(head, afterKey, '}');
  }

  lemma EndTagPosition(b: Block, rest: string)
    requires b.If? && WellFormed(b)
    ensures IndexOf(PrintBlock(b) + rest, IF_CLOSE) == |IF_OPEN| + |b.key| + 1 + |Body(b)|
  {
    var front, back := IF_OPEN + b.key + "}" + Body(b), IF_CLOSE + rest;
    assert PrintBlock(b) + rest == front + back;
    OpenPartLacksClose(b);
    assert At(back, IF_CLOSE, 0);
    IndexAtSeam(front, back, IF_CLOSE);
  }

  lemma BlockSlices(key: string, body: string, rest: string)
    ensures var tail := IF_OPEN + key + "}" + body + IF_CLOSE + rest;
            var close, end := |IF_OPEN| + |key|, |IF_OPEN| + |key| + 1 + |body|;
            && At(tail, IF_OPEN, 0) && tail[|IF_OPEN|..close] == key && tail[close + 1..end] == body
            && tail[end + |IF_CLOSE|..] == rest
  {
  }

  /** The text starts with a block: where its tags are and what is between them. */
  ghost predicate StartsWithBlock(tail: string, b: Block, rest: string)
    requires b.If?
  {
    var c := |IF_OPEN| + |b.key|;
    var e := c + 1 + |Body(b)|;
    && At(tail, IF_OPEN, 0) && e + |IF_CLOSE| <= |tail| && IndexOf(tail, "}") == c && IndexOf(tail, IF_CLOSE) == e
    && tail[|IF_OPEN|..c] == b.key && tail[c + 1..e] == Body(b) && tail[e + |IF_CLOSE|..] == rest
  }

  lemma PrintedStarts(b: Block, rest: string)
    requires b.If? && WellFormed(b)
    ensures StartsWithBlock(PrintBlock(b) + rest, b, rest)
  {
    CloseTagPosition(b, rest);
    EndTagPosition(b, rest);
    PrintedSlices(b, rest);
  }

  lemma PrintedSlices(b: Block, rest: string)
    requires b.If?
    ensures var tail, c := PrintBlock(b) + rest, |IF_OPEN| + |b.key|;
            var e := c + 1 + |Body(b)|;
            && At(tail, IF_OPEN, 0) && e + |IF_CLOSE| <= |tail|
            && tail[|IF_OPEN|..c] == b.key && tail[c + 1..e] == Body(b) && tail[e + |IF_CLOSE|..] == rest
  {
    BlockSlices(b.key, Body(b), rest);
  }

  lemma RoundOnBlock(done: string, tail: string, b: Block, rest: string, vars: Vars)
    requires b.If? && WellFormed(b) && StartsWithBlock(tail, b, rest)
    ensures BlockRound(done, tail, vars) == Next(done + RenderBlock(b, vars) + rest)
  {
    var c := |IF_OPEN| + |b.key|;
    RoundWith(done, tail, c, c + 1 + |Body(b)|, b.key, Body(b), rest, vars);
    ChooseRenders(b, vars);
  }

  lemma RoundWith(done: string, tail: string, c: nat, e: nat, key: string, body: string, rest: string, vars: Vars)
    requires At(tail, IF_OPEN, 0) && |IF_OPEN| <= c < e && e + |IF_CLOSE| <= |tail|
    requires IndexOf(tail, "}") == c && IndexOf(tail, IF_CLOSE) == e
    requires tail[|IF_OPEN|..c] == key && tail[c + 1..e] == body && tail[e + |IF_CLOSE|..] == rest
    ensures BlockRound(done, tail, vars) == Next(done + Choose(body, key, vars) + rest)
  {
    RoundAt(done, tail, c, e, vars);
  }

  /** The round on a tail whose first closing brace and closing tag are known. */
  lemma RoundAt(done: string, tail: string, c: nat, e: nat, vars: Vars)
    requires At(tail, IF_OPEN, 0) && |IF_OPEN| <= c < e && e + |IF_CLOSE| <= |tail|
    requires IndexOf(tail, "}") == c && IndexOf(tail, IF_CLOSE) == e
    ensures BlockRound(done, tail, vars)
         == Next(done + Choose(tail[c + 1..e], tail[|IF_OPEN|..c], vars) + tail[e + |IF_CLOSE|..])
  {
    assert BlockRound(done, tail, vars) == Next(Spliced(done, tail, c, e, vars));
  }

  lemma RoundOnIf(done: string, tail: string, b: Block, rest: string, vars: Vars)
    requires b.If? && WellFormed(b) && !Contains(done, IF_OPEN) && StartsWithBlock(tail, b, rest)
    ensures OneRound(done + tail, vars) == Next(done + RenderBlock(b, vars) + rest)
  {
    IndexAtSeam(done, tail, IF_OPEN);
    CutAt(done, tail);
    RoundOnBlock(done, tail, b, rest, vars);
  }

  lemma CutAt(a: string, b: string)
    ensures (a + b)[|a|..] == b && (a + b)[..|a|] == a
  {
  }

  lemma ConditionalsStop(text: string, vars: Vars)
    requires !Contains(text, IF_OPEN)
    ensures Conditionals(text, vars) == Rendered(text)
  {
  }

  lemma ConditionalsIf(done: string, b: Block, rest: string, vars: Vars)
    requires b.If? && WellFormed(b) && !Contains(done, IF_OPEN)
    ensures Conditionals(done + (PrintBlock(b) + rest), vars) == Conditionals(done + RenderBlock(b, vars) + rest, vars)
  {
    PrintedStarts(b, rest);
    RoundOnIf(done, PrintBlock(b) + rest, b, rest, vars);
  }

  /** After a rendered prefix, the loop renders a printed sequence of blocks one by one and goes on with
      what follows it. */
  lemma {:induction false} ConditionalsThen(done: string, bs: seq<Block>, tail: string, vars: Vars)
    requires forall i :: 0 <= i < |bs| ==> WellFormed(bs[i])
    requires !Contains(done + Render(bs, vars), IF_OPEN)
    ensures Conditionals(done + Print(bs) + tail, vars) == Conditionals(done + Render(bs, vars) + tail, vars)
    decreases |bs|
  {
    if bs != [] {
      var b, rest := bs[0], bs[1..];
      ConcatAssoc(done, RenderBlock(b, vars), Render(rest, vars));
      ConditionalsThen(done + RenderBlock(b, vars), rest, tail, vars);
      ConcatAssoc(done, PrintBlock(b), Print(rest));
      if b.If? {
        AbsentSeam(done, Render(bs, vars), IF_OPEN);
        ConcatAssoc(done, Print(bs), tail);
        ConcatAssoc(PrintBlock(b), Print(rest), tail);
        ConcatAssoc(done + RenderBlock(b, vars), Print(rest), tail);
        ConditionalsIf(done, b, Print(rest) + tail, vars);
      }
    }
  }

  lemma ConditionalsFrom(done: string, bs: seq<Block>, vars: Vars)
    requires forall i :: 0 <= i < |bs| ==> WellFormed(bs[i])
    requires !Contains(done + Render(bs, vars), IF_OPEN)
    ensures Conditionals(done + Print(bs), vars) == Rendered(done + Render(bs, vars))
  {
    ConditionalsThen(done, bs, "", vars);
    EmptyPrefix(done + Print(bs));
    EmptyPrefix(done + Render(bs, vars));
    ConditionalsStop(done + Render(bs, vars), vars);
  }

  /** Which branch a condition chooses: an unbound key and the values "" and "false" choose the else branch,
      every other value the first one. */
  lemma ConditionMeans(k: string, thn: string, els: Option<string>, vars: Vars)
    requires WellFormed(If(k, thn, els)) && !Contains(thn, IF_OPEN) && (els.Some? ==> !Contains(els.value, IF_OPEN))
    ensures var body := match els case None => thn case Some(e) => thn + "{#else}" + e;
      var text := "{#if " + k + "}" + body + "{/if}";
      && (k !in vars || vars[k] == "" || vars[k] == "false" ==>
            Conditionals(text, vars) == Rendered(match els case None => "" case Some(e) => e))
      && (k in vars && vars[k] != "" && vars[k] != "false" ==> Conditionals(text, vars) == Rendered(thn))
  {
    var b := If(k, thn, els);
    EmptyLacks(IF_OPEN);
    ConditionalsIf("", b, "", vars);
    EmptyPrefix(PrintBlock(b));
    EmptyPrefix(RenderBlock(b, vars));
    ConditionalsStop(RenderBlock(b, vars), vars);
  }

  // ---------- where the engine falls short of its comments ----------

  /** The first `}` of the text is the end of its first `{/if}`. */
  ghost predicate BraceClosesBlock(tail: string) {
    Contains(tail, IF_CLOSE) && IndexOf(tail, "}") == IndexOf(tail, IF_CLOSE) + |IF_CLOSE| - 1
  }

  /** A round panics exactly when the first `}` after an opening tag closes the first `{/if}`. */
  lemma CrashIff(tmpl: string, vars: Vars)
    ensures OneRound(tmpl, vars) == Crash <==>
            Contains(tmpl, IF_OPEN) && BraceClosesBlock(tmpl[IndexOf(tmpl, IF_OPEN)..])
  {
    if Contains(tmpl, IF_OPEN) { FirstBrace(tmpl[IndexOf(tmpl, IF_OPEN)..]); }
  }

  /** The whole loop panics on well-formed blocks that are followed by such a tag. */
  lemma LoopPanics(bs: seq<Block>, tail: string, vars: Vars)
    requires forall i :: 0 <= i < |bs| ==> WellFormed(bs[i])
    requires !Contains(Render(bs, vars), IF_OPEN) && At(tail, IF_OPEN, 0) && BraceClosesBlock(tail)
    ensures Conditionals(Print(bs) + tail, vars) == Panic
  {
    var done := Render(bs, vars);
    EmptyPrefix(done);
    EmptyPrefix(Print(bs));
    ConditionalsThen("", bs, tail, vars);
    IndexAtSeam(done, tail, IF_OPEN);
    CutAt(done, tail);
    CrashIff(done + tail, vars);
  }

  lemma BraceAt(s: string, i: nat)
    requires i < |s| && s[i] == '}'
    ensures At(s, "}", i)
  {
  }

  /** Up to the end of a closing tag, the first brace is before the tag or its last character. */
  lemma FirstBrace(tail: string)
    ensures var close, e := IndexOf(tail, "}"), IndexOf(tail, IF_CLOSE);
            e != -1 ==> close != -1 && (close < e || close == e + |IF_CLOSE| - 1)
  {
    var close, e := IndexOf(tail, "}"), IndexOf(tail, IF_CLOSE);
    if e != -1 {
      AtChars(tail, IF_CLOSE, e);
      assert tail[e + (|IF_CLOSE| - 1)] == IF_CLOSE[|IF_CLOSE| - 1] == '}';
      BraceAt(tail, e + |IF_CLOSE| - 1);
      AtChars(tail, "}", close);
      assert tail[close + 0] == '}';
      assert close >= e ==> tail[e + (close - e)] == IF_CLOSE[close - e];
    }
  }

  // ---------- blocks in blocks ----------

  predicate TagFree(s: string) {
    IndexOf(s, IF_OPEN) == -1 && IndexOf(s, ELSE_TAG) == -1 && IndexOf(s, IF_CLOSE) == -1
  }

  function Otherwise(els: Option<string>): string {
    match els case None => "" case Some(e) => e
  }

  /** One block in the first branch of another; both may have an else branch. */
  function Nested(a: string, p: string, inner: Block, r: string, els: Option<string>): Block
  {
    If(a, p + PrintBlock(inner) + r, els)
  }

  /** What the author means by it. */
  function NestedMeaning(a: string, p: string, inner: Block, r: string, els: Option<string>, vars: Vars): string {
    if Truthy(a, vars) then p + RenderBlock(inner, vars) + r else Otherwise(els)
  }

  /** No text that the branches can be joined to holds a tag. */
  predicate Joinable(p: string, q: string, innerEls: Option<string>, r: string, els: Option<string>) {
    TagFree(p + q + r) && TagFree(p + Otherwise(els)) && TagFree(Otherwise(innerEls) + r)
  }

  /** The comment says that blocks can be nested. The outer tag is paired with the inner closing tag, so
      the outer block's else branch becomes that of the inner one. The code gives a nested block its
      intended meaning exactly when the outer condition holds and either the inner one does or the two
      else branches make no difference. */
  lemma {:induction false} NestedIff(a: string, p: string, b: string, q: string, innerEls: Option<string>, r: string,
                                     els: Option<string>, vars: Vars)
    requires BraceFree(a) && BraceFree(b) && Joinable(p, q, innerEls, r, els)
    ensures Conditionals(PrintBlock(Nested(a, p, If(b, q, innerEls), r, els)), vars)
         == Rendered(NestedMeaning(a, p, If(b, q, innerEls), r, els, vars))
       <==> Truthy(a, vars) && (Truthy(b, vars) || Otherwise(els) == Otherwise(innerEls) + r)
  {
    NestedResult(a, p, b, q, innerEls, r, els, vars);
    ConcatAssoc(p, q, r);
    ConcatAssoc(p, Otherwise(innerEls), r);
    SameFront(p, Otherwise(els), Otherwise(innerEls) + r);
    RestIsLonger(Otherwise(innerEls), r, els);
  }

  /** What the code gives for a nested block. */
  function NestedText(a: string, p: string, b: string, q: string, innerEls: Option<string>, r: string,
                      els: Option<string>, vars: Vars): string {
    if Truthy(a, vars) then p + (if Truthy(b, vars) then q + r else Otherwise(els))
    else Otherwise(innerEls) + Rest(r, els)
  }

  lemma {:induction false} NestedResult(a: string, p: string, b: string, q: string, innerEls: Option<string>, r: string,
                                        els: Option<string>, vars: Vars)
    requires BraceFree(a) && BraceFree(b) && Joinable(p, q, innerEls, r, els)
    ensures Conditionals(PrintBlock(Nested(a, p, If(b, q, innerEls), r, els)), vars)
         == Rendered(NestedText(a, p, b, q, innerEls, r, els, vars))
  {
    PartsOf(p, q, r);
    PartsOf(p, Otherwise(els), "");
    PartsOf(Otherwise(innerEls), r, "");
    NestedRound(a, p, b, q, innerEls, r, els, vars);
    if Truthy(a, vars) {
      ConcatAssoc(p, q, r);
      InnerRound(p, b, q + r, els, vars);
    } else {
      OuterRest(Otherwise(innerEls), r, els);
      ConditionalsStop(Otherwise(innerEls) + Rest(r, els), vars);
    }
  }

  lemma SameFront(p: string, a: string, b: string)
    ensures p + a == p + b <==> a == b
  {
    assert (p + a)[|p|..] == a && (p + b)[|p|..] == b;
  }

  /** What follows the inner closing tag. */
  function Rest(r: string, els: Option<string>): string { Branches(r, els) + IF_CLOSE }

  function Branches(thn: string, els: Option<string>): string {
    match els case None => thn case Some(e) => thn + ELSE_TAG + e
  }

  lemma RestIsLonger(front: string, r: string, els: Option<string>)
    ensures |front + Rest(r, els)| > |Otherwise(els)|
  {
  }

  lemma PartsOf(a: string, b: string, c: string)
    requires TagFree(a + b + c) || (c == "" && TagFree(a + b))
    ensures TagFree(a) && TagFree(b) && TagFree(c) && TagFree(b + c)
  {
    ConcatAssoc(a, b, c);
    if c == "" { assert b + c == b && a + b + c == a + b; }
    PartsLack(a, b + c, IF_OPEN);
    PartsLack(a, b + c, ELSE_TAG);
    PartsLack(a, b + c, IF_CLOSE);
    PartsLack(b, c, IF_OPEN);
    PartsLack(b, c, ELSE_TAG);
    PartsLack(b, c, IF_CLOSE);
  }

  lemma PartsLack(a: string, b: string, t: string)
    requires !Contains(a + b, t)
    ensures !Contains(a, t) && !Contains(b, t)
  {
    if i :| At(a, t, i) { AtPrefix(a, b, t, i); }
    if i :| At(b, t, i) { AtShift(a, b, t, i); }
  }

  /** A text that opens with another tag lacks `t` if the text after that tag does. */
  lemma TagThenLacks(h: string, s: string, t: string, c: nat)
    requires h != "" && '{' !in h[1..] && t != "" && t[0] == '{' && c < |h| && c < |t| && h[c] != t[c] && !Contains(s, t)
    ensures !Contains(h + s, t)
  {
    forall i ensures !At(h + s, t, i) {
      if i >= |h| {
        AtShift(h, s, t, i - |h|);
      } else if 0 <= i && i + |t| <= |h + s| {
        var found := (h + s)[i..i + |t|];
        assert i == 0 ==> found[c] == h[c];
        assert i > 0 ==> found[0] == h[1..][i - 1];
      }
    }
  }

  lemma OpenThenLacks(key: string, s: string, t: string)
    requires BraceFree(key) && (t == ELSE_TAG || t == IF_CLOSE) && !Contains(s, t)
    ensures !Contains(IF_OPEN + key + "}" + s, t)
  {
    TagThenLacks(IF_OPEN + key + "}", s, t, if t == ELSE_TAG then 2 else 1);
  }

  lemma BranchesLack(thn: string, els: Option<string>, t: string)
    requires TagFree(thn) && TagFree(Otherwise(els)) && (t == IF_OPEN || t == IF_CLOSE)
    ensures !Contains(Branches(thn, els), t)
  {
    if els.Some? {
      TagThenLacks(ELSE_TAG, els.value, t, if t == IF_OPEN then 2 else 1);
      SeamLacks(thn, ELSE_TAG + els.value, t);
      ConcatAssoc(thn, ELSE_TAG, els.value);
    }
  }

  /** The outer block as the first round sees it. */
  lemma OuterIsWellFormed(a: string, p: string, b: string, q: string, innerEls: Option<string>)
    requires BraceFree(a) && BraceFree(b) && TagFree(p) && TagFree(q) && TagFree(Otherwise(innerEls))
    ensures WellFormed(If(a, p + (IF_OPEN + b + "}" + q), innerEls))
  {
    var open := IF_OPEN + b + "}" + q;
    OpenThenLacks(b, q, ELSE_TAG);
    SeamLacks(p, open, ELSE_TAG);
    OpenThenLacks(b, q, IF_CLOSE);
    SeamLacks(p, open, IF_CLOSE);
    if innerEls.Some? {
      TagThenLacks(ELSE_TAG, innerEls.value, IF_CLOSE, 1);
      SeamLacks(p + open, ELSE_TAG + innerEls.value, IF_CLOSE);
      ConcatAssoc(p + open, ELSE_TAG, innerEls.value);
    }
  }

  lemma NestedPrint(a: string, p: string, b: string, q: string, innerEls: Option<string>, r: string, els: Option<string>)
    ensures PrintBlock(Nested(a, p, If(b, q, innerEls), r, els))
         == PrintBlock(If(a, p + (IF_OPEN + b + "}" + q), innerEls)) + Rest(r, els)
  {
    var head, open := IF_OPEN + a + "}", IF_OPEN + b + "}" + q;
    var outer, inner := If(a, p + open, innerEls), If(b, q, innerEls);
    InnerText(b, q, innerEls);
    assert Body(outer) == p + (open + ElsePart(innerEls)) by { ConcatAssoc(p, open, ElsePart(innerEls)); }
    var mid := open + ElsePart(innerEls);
    assert PrintBlock(inner) == mid + IF_CLOSE;
    BodyText(p + PrintBlock(inner) + r, els);
    BodyText(r, els);
    Flatten(head, p, mid, r + ElsePart(els));
    ConcatAssoc(p + PrintBlock(inner), r, ElsePart(els));
  }

  function ElsePart(els: Option<string>): string {
    match els case None => "" case Some(e) => ELSE_TAG + e
  }

  lemma BodyText(thn: string, els: Option<string>)
    ensures Branches(thn, els) == thn + ElsePart(els) && forall k :: Body(If(k, thn, els)) == thn + ElsePart(els)
  {
    if els.Some? { ConcatAssoc(thn, ELSE_TAG, els.value); } else { assert thn + "" == thn; }
  }

  lemma InnerText(b: string, q: string, els: Option<string>)
    ensures PrintBlock(If(b, q, els)) == (IF_OPEN + b + "}" + q) + ElsePart(els) + IF_CLOSE
  {
    BodyText(q, els);
    ConcatAssoc(IF_OPEN + b + "}", q, ElsePart(els));
  }

  lemma Flatten(head: string, p: string, mid: string, rest: string)
    ensures head + (p + (mid + IF_CLOSE) + rest) + IF_CLOSE == head + (p + mid) + IF_CLOSE + (rest + IF_CLOSE)
  {
    FlattenAny(head, p, mid, IF_CLOSE, rest);
  }

  lemma FlattenAny(h: string, p: string, m: string, c: string, r: string)
    ensures h + (p + (m + c) + r) + c == h + (p + m) + c + (r + c)
  {
    ConcatAssoc(p, m, c);
    ConcatAssoc(h, p + m + c + r, c);
    ConcatAssoc(p + m + c, r, c);
    ConcatAssoc(h, p + m + c, r + c);
    ConcatAssoc(h, p + m, c);
  }

  /** The first round takes the inner closing tag for the outer one. */
  lemma NestedRound(a: string, p: string, b: string, q: string, innerEls: Option<string>, r: string, els: Option<string>,
                    vars: Vars)
    requires BraceFree(a) && BraceFree(b) && TagFree(p) && TagFree(q) && TagFree(Otherwise(innerEls))
    ensures Conditionals(PrintBlock(Nested(a, p, If(b, q, innerEls), r, els)), vars)
         == Conditionals(if Truthy(a, vars) then p + PrintBlock(If(b, q + r, els)) else Otherwise(innerEls) + Rest(r, els), vars)
  {
    var open := IF_OPEN + b + "}" + q;
    var outer := If(a, p + open, innerEls);
    OuterIsWellFormed(a, p, b, q, innerEls);
    EmptyLacks(IF_OPEN);
    ConditionalsIf("", outer, Rest(r, els), vars);
    NestedPrint(a, p, b, q, innerEls, r, els);
    EmptyPrefix(PrintBlock(outer) + Rest(r, els));
    EmptyPrefix(RenderBlock(outer, vars));
    RemainderText(p, b, q, r, els);
  }

  lemma RemainderText(p: string, b: string, q: string, r: string, els: Option<string>)
    ensures p + (IF_OPEN + b + "}" + q) + Rest(r, els) == p + PrintBlock(If(b, q + r, els))
  {
    var head := IF_OPEN + b + "}";
    BodyText(r, els);
    InnerText(b, q + r, els);
    Regroup(p, head, q, r, ElsePart(els), IF_CLOSE);
  }

  lemma Regroup(p: string, h: string, q: string, r: string, e: string, c: string)
    ensures p + (h + q) + (r + e + c) == p + (h + (q + r) + e + c)
  {
    ConcatAssoc(p, h + q, r + e + c);
    ConcatAssoc(h + q, r + e, c);
    ConcatAssoc(h + q, r, e);
    ConcatAssoc(h, q, r);
  }

  lemma EmptyLacks(t: string)
    requires t != ""
    ensures !Contains("", t)
  {
  }

  lemma EmptyPrefix(s: string)
    ensures "" + s == s && s + "" == s
  {
  }

  /** The second round renders the inner block with the outer else branch. */
  lemma InnerRound(p: string, b: string, q: string, els: Option<string>, vars: Vars)
    requires BraceFree(b) && TagFree(p) && TagFree(q) && TagFree(Otherwise(els)) && TagFree(p + q) && TagFree(p + Otherwise(els))
    ensures Conditionals(p + PrintBlock(If(b, q, els)), vars) == Rendered(p + if Truthy(b, vars) then q else Otherwise(els))
  {
    var inner := If(b, q, els);
    BranchesLack(q, els, IF_CLOSE);
    ConditionalsIf(p, inner, "", vars);
    EmptyPrefix(PrintBlock(inner));
    EmptyPrefix(p + RenderBlock(inner, vars));
    ConditionalsStop(p + RenderBlock(inner, vars), vars);
  }

  /** With a false outer condition nothing opens a block any more, and the closing tag stays. */
  lemma OuterRest(front: string, r: string, els: Option<string>)
    requires TagFree(front + r) && TagFree(Otherwise(els))
    ensures !Contains(front + Rest(r, els), IF_OPEN)
  {
    BranchesLack(front + r, els, IF_OPEN);
    EmptyLacks(IF_OPEN);
    TagThenLacks(IF_CLOSE, "", IF_OPEN, 1);
    EmptyPrefix(IF_CLOSE);
    SeamLacks(Branches(front + r, els), IF_CLOSE, IF_OPEN);
    BodyText(front + r, els);
    BodyText(r, els);
    ConcatAssoc(front, r, ElsePart(els));
    ConcatAssoc(front, r + ElsePart(els), IF_CLOSE);
  }

  ghost predicate BraceFree(s: string) {
    '{' !in s && '}' !in s
  }

  // ---------- blocks in the else branch ----------

  /** One block in the else branch of another. */
  function ElseNested(a: string, x: string, p: string, inner: Block, r: string): Block {
    If(a, x, Some(p + PrintBlock(inner) + r))
  }

  function ElseNestedMeaning(a: string, x: string, p: string, inner: Block, r: string, vars: Vars): string {
    if Truthy(a, vars) then x else p + RenderBlock(inner, vars) + r
  }

  /** The branches of the block that the second round sees: the rest joins the inner block's last one. */
  function LateThen(q: string, innerEls: Option<string>, r: string): string {
    if innerEls.None? then q + r else q
  }

  function LateElse(innerEls: Option<string>, r: string): Option<string> {
    match innerEls case None => None case Some(e) => Some(e + r)
  }

  /** No text that the branches can be joined to holds a tag. */
  predicate ElseJoinable(x: string, p: string, q: string, innerEls: Option<string>, r: string) {
    TagFree(x + r) && TagFree(p + LateThen(q, innerEls, r)) && TagFree(p + Otherwise(LateElse(innerEls, r)))
  }

  /** A block nested in the else branch has its intended meaning exactly when the outer condition fails and
      either nothing follows the inner block or the inner block's last branch is the one chosen. */
  lemma {:induction false} ElseNestedIff(a: string, x: string, p: string, b: string, q: string,
                                         innerEls: Option<string>, r: string, vars: Vars)
    requires BraceFree(a) && BraceFree(b) && ElseJoinable(x, p, q, innerEls, r)
    ensures Conditionals(PrintBlock(ElseNested(a, x, p, If(b, q, innerEls), r)), vars)
         == Rendered(ElseNestedMeaning(a, x, p, If(b, q, innerEls), r, vars))
       <==> !Truthy(a, vars) && (r == "" || (Truthy(b, vars) <==> innerEls.None?))
  {
    ElseNestedResult(a, x, p, b, q, innerEls, r, vars);
    RestIsLonger(x, r, Some(x));
    ConcatAssoc(p, RenderBlock(If(b, q, innerEls), vars), r);
    SameFront(p, LateText(b, q, innerEls, r, vars), RenderBlock(If(b, q, innerEls), vars) + r);
    EmptyPrefix(q);
    EmptyPrefix(Otherwise(innerEls));
  }

  /** What the second round makes of the inner block. */
  function LateText(b: string, q: string, innerEls: Option<string>, r: string, vars: Vars): string {
    if Truthy(b, vars) then LateThen(q, innerEls, r) else Otherwise(LateElse(innerEls, r))
  }

  lemma {:induction false} ElseNestedResult(a: string, x: string, p: string, b: string, q: string,
                                            innerEls: Option<string>, r: string, vars: Vars)
    requires BraceFree(a) && BraceFree(b) && ElseJoinable(x, p, q, innerEls, r)
    ensures Conditionals(PrintBlock(ElseNested(a, x, p, If(b, q, innerEls), r)), vars)
         == Rendered(if Truthy(a, vars) then x + Rest(r, None) else p + LateText(b, q, innerEls, r, vars))
  {
    LatePartsAreTagFree(x, p, q, innerEls, r);
    ElseNestedRound(a, x, p, b, q, innerEls, r, vars);
    if Truthy(a, vars) {
      OuterRest(x, r, None);
      ConditionalsStop(x + Rest(r, None), vars);
    } else {
      InnerRound(p, b, LateThen(q, innerEls, r), LateElse(innerEls, r), vars);
    }
  }

  lemma LatePartsAreTagFree(x: string, p: string, q: string, innerEls: Option<string>, r: string)
    requires ElseJoinable(x, p, q, innerEls, r)
    ensures TagFree(x) && TagFree(p) && TagFree(q) && TagFree(Otherwise(innerEls))
    ensures TagFree(LateThen(q, innerEls, r)) && TagFree(Otherwise(LateElse(innerEls, r)))
  {
    EmptyIsTagFree();
    PartsOf(x, r, "");
    PartsOf(p, LateThen(q, innerEls, r), "");
    PartsOf(p, Otherwise(LateElse(innerEls, r)), "");
    if innerEls.None? { PartsOf(q, r, ""); } else { PartsOf(innerEls.value, r, ""); }
  }

  /** The first round takes the inner closing tag for the outer one. */
  lemma ElseNestedRound(a: string, x: string, p: string, b: string, q: string, innerEls: Option<string>, r: string, vars: Vars)
    requires BraceFree(a) && BraceFree(b) && TagFree(x) && TagFree(p) && TagFree(q) && TagFree(Otherwise(innerEls))
    ensures Conditionals(PrintBlock(ElseNested(a, x, p, If(b, q, innerEls), r)), vars)
         == Conditionals(if Truthy(a, vars) then x + Rest(r, None)
                         else p + PrintBlock(If(b, LateThen(q, innerEls, r), LateElse(innerEls, r))), vars)
  {
    var outer := CutOuter(a, x, p, b, q, innerEls);
    CutOuterIsWellFormed(a, x, p, b, q, innerEls);
    EmptyLacks(IF_OPEN);
    ConditionalsIf("", outer, Rest(r, None), vars);
    ElseNestedPrint(a, x, p, b, q, innerEls, r);
    EmptyPrefix(PrintBlock(outer) + Rest(r, None));
    EmptyPrefix(RenderBlock(outer, vars));
    LateRemainder(p, b, q, innerEls, r);
  }

  /** The outer block as the first round sees it. */
  function CutOuter(a: string, x: string, p: string, b: string, q: string, innerEls: Option<string>): Block {
    If(a, x, Some(p + (IF_OPEN + b + "}" + q + ElsePart(innerEls))))
  }

  lemma CutOuterIsWellFormed(a: string, x: string, p: string, b: string, q: string, innerEls: Option<string>)
    requires BraceFree(a) && BraceFree(b) && TagFree(x) && TagFree(p) && TagFree(q) && TagFree(Otherwise(innerEls))
    ensures WellFormed(CutOuter(a, x, p, b, q, innerEls))
  {
    var open := IF_OPEN + b + "}" + q;
    OpenThenLacks(b, q, IF_CLOSE);
    if innerEls.Some? {
      TagThenLacks(ELSE_TAG, innerEls.value, IF_CLOSE, 1);
      SeamLacks(open, ELSE_TAG + innerEls.value, IF_CLOSE);
    } else {
      EmptyPrefix(open);
    }
    SeamLacks(p, open + ElsePart(innerEls), IF_CLOSE);
    TagThenLacks(ELSE_TAG, p + (open + ElsePart(innerEls)), IF_CLOSE, 1);
    SeamLacks(x, ELSE_TAG + (p + (open + ElsePart(innerEls))), IF_CLOSE);
    ConcatAssoc(x, ELSE_TAG, p + (open + ElsePart(innerEls)));
  }

  lemma ElseNestedPrint(a: string, x: string, p: string, b: string, q: string, innerEls: Option<string>, r: string)
    ensures PrintBlock(ElseNested(a, x, p, If(b, q, innerEls), r))
         == PrintBlock(CutOuter(a, x, p, b, q, innerEls)) + Rest(r, None)
  {
    var head, front := IF_OPEN + a + "}", x + ELSE_TAG;
    var mid := IF_OPEN + b + "}" + q + ElsePart(innerEls);
    InnerText(b, q, innerEls);
    ConcatAssoc(head, front, p + (mid + IF_CLOSE) + r);
    ConcatAssoc(head, front, p + mid);
    FlattenAny(head + front, p, mid, IF_CLOSE, r);
  }

  lemma LateRemainder(p: string, b: string, q: string, innerEls: Option<string>, r: string)
    ensures p + (IF_OPEN + b + "}" + q + ElsePart(innerEls)) + Rest(r, None)
         == p + PrintBlock(If(b, LateThen(q, innerEls, r), LateElse(innerEls, r)))
  {
    var head := IF_OPEN + b + "}";
    InnerText(b, LateThen(q, innerEls, r), LateElse(innerEls, r));
    if innerEls.None? {
      EmptyPrefix(head + q);
      EmptyPrefix(head + (q + r));
      EmptyPrefix(r);
      Regroup(p, head, q, r, "", IF_CLOSE);
    } else {
      RegroupLate(p, head + q, ELSE_TAG, innerEls.value, r, IF_CLOSE);
    }
  }

  lemma RegroupLate(p: string, h: string, t: string, e: string, r: string, c: string)
    ensures p + (h + (t + e)) + (r + c) == p + (h + (t + (e + r)) + c)
  {
    ConcatAssoc(p, h + (t + e), r + c);
    ConcatAssoc(h + (t + e), r, c);
    ConcatAssoc(h, t + e, r);
    ConcatAssoc(t, e, r);
  }

  /** The code renders the block as its author means it. */
  ghost predicate AsMeant(b: Block, meaning: string, vars: Vars) {
    Conditionals(PrintBlock(b), vars) == Rendered(meaning)
  }

  /** A block nested in the first branch goes wrong for some bindings, one nested in the else branch too. */
  lemma NestingIsUnsafe(a: string, p: string, b: string, q: string, innerEls: Option<string>, r: string, els: Option<string>)
    requires BraceFree(a) && BraceFree(b) && Joinable(p, q, innerEls, r, els)
    ensures exists vars :: !AsMeant(Nested(a, p, If(b, q, innerEls), r, els),
                                    NestedMeaning(a, p, If(b, q, innerEls), r, els, vars), vars)
  {
    var none: Vars := map[];
    NestedIff(a, p, b, q, innerEls, r, els, none);
    assert !AsMeant(Nested(a, p, If(b, q, innerEls), r, els), NestedMeaning(a, p, If(b, q, innerEls), r, els, none), none);
  }

  lemma Holding(a: string) returns (vars: Vars)
    ensures Truthy(a, vars)
  {
    vars := map[a := "yes"];
  }

  lemma ElseNestingIsUnsafe(a: string, x: string, p: string, b: string, q: string, innerEls: Option<string>, r: string)
    requires BraceFree(a) && BraceFree(b) && ElseJoinable(x, p, q, innerEls, r)
    ensures exists vars :: !AsMeant(ElseNested(a, x, p, If(b, q, innerEls), r),
                                    ElseNestedMeaning(a, x, p, If(b, q, innerEls), r, vars), vars)
  {
    var yes := Holding(a);
    ElseNestedIff(a, x, p, b, q, innerEls, r, yes);
    assert !AsMeant(ElseNested(a, x, p, If(b, q, innerEls), r), ElseNestedMeaning(a, x, p, If(b, q, innerEls), r, yes), yes);
  }

  /** The condition on joined texts is needed: contents without tags can form one when the inner block's
      tags between them are gone, say "{#el" and "se}x". */
  lemma {:induction false} SplitTagIsRead(a: string, b: string, q: string, r: string, x: string, vars: Vars)
    requires BraceFree(a) && BraceFree(b) && Truthy(a, vars) && Truthy(b, vars)
    requires TagFree(q) && TagFree(r) && TagFree(x) && q + r == ELSE_TAG + x
    ensures Conditionals(PrintBlock(Nested(a, "", If(b, q, None), r, None)), vars) == Rendered("")
    ensures NestedMeaning(a, "", If(b, q, None), r, None, vars) == ELSE_TAG + x
  {
    EmptyIsTagFree();
    NestedRound(a, "", b, q, None, r, None, vars);
    OnlyElse(b, x, vars);
    SplitReading(b, q, r, x);
    EmptyPrefix(q);
  }

  lemma SplitReading(b: string, q: string, r: string, x: string)
    requires q + r == ELSE_TAG + x
    ensures "" + PrintBlock(If(b, q + r, None)) == PrintBlock(If(b, "", Some(x)))
  {
    EmptyPrefix(PrintBlock(If(b, q + r, None)));
    BodyText("", Some(x));
    EmptyPrefix(ELSE_TAG + x);
  }

  lemma OnlyElse(b: string, x: string, vars: Vars)
    requires BraceFree(b) && Truthy(b, vars) && TagFree(x)
    ensures Conditionals(PrintBlock(If(b, "", Some(x))), vars) == Rendered("")
  {
    var read := If(b, "", Some(x));
    EmptyIsTagFree();
    BodyText("", Some(x));
    EmptyPrefix(ELSE_TAG + x);
    TagThenLacks(ELSE_TAG, x, IF_CLOSE, 1);
    ConditionalsIf("", read, "", vars);
    EmptyPrefix(PrintBlock(read));
    EmptyPrefix("");
    ConditionalsStop("", vars);
  }

  lemma EmptyIsTagFree()
    ensures TagFree("")
  {
    EmptyLacks(IF_OPEN);
    EmptyLacks(ELSE_TAG);
    EmptyLacks(IF_CLOSE);
  }
}
