/**
  The prompt template engine: the conditional blocks are rendered, then the placeholders are replaced in
  two passes.
 */
module Template {
  import opened Sequences
  import opened Text
  import opened Wrappers
  import opened Substitution
  import opened Blocks

  /** `result` comes from the two passes over `text` for some pair of iteration orders. */
  ghost predicate Expands(text: string, vars: Vars, result: string) {
    exists first, second ::
      Enumerates(first, vars.Keys) && Enumerates(second, vars.Keys) && result == FillAll(MarkAll(text, first), vars, second)
  }

  /** The passes cannot be confused by the text, the keys or the values. */
  ghost predicate Unconfusable(text: string, vars: Vars) {
    Clean(text, vars) && !Forged(Parse(text, vars.Keys), vars)
  }

  method ExpandTemplate(tmpl: string, vars: Vars) returns (r: Outcome)
    ensures r.Panic? <==> Conditionals(tmpl, vars).Panic?
    ensures r.Rendered? ==> Expands(Conditionals(tmpl, vars).text, vars, r.text)
    ensures r.Rendered? && Unconfusable(Conditionals(tmpl, vars).text, vars) ==> r.text == Subst(Conditionals(tmpl, vars).text, vars)
  {
    var phase1 := ProcessConditionals(tmpl, vars);
    if phase1.Panic? { return Panic; }
    var result := phase1.text;
    ghost var first: seq<string>, second: seq<string> := [], [];
    var todo := vars.Keys;
    while todo != {}
      invariant todo <= vars.Keys && Enumerates(first, vars.Keys - todo)
      invariant result == MarkAll(phase1.text, first)
      decreases todo
    {
      var k :| k in todo;
      MarkAllSnoc(phase1.text, first, k);
      result := ReplaceAll(result, Placeholder(k), Token(k));
      first, todo := first + [k], todo - {k};
    }
    assert vars.Keys - todo == vars.Keys;
    ghost var marked := result;
    todo := vars.Keys;
    while todo != {}
      invariant todo <= vars.Keys && Enumerates(second, vars.Keys - todo)
      invariant result == FillAll(marked, vars, second)
      decreases todo
    {
      var k :| k in todo;
      FillAllSnoc(marked, vars, second, k);
      result := ReplaceAll(result, Token(k), vars[k]);
      second, todo := second + [k], todo - {k};
    }
    assert vars.Keys - todo == vars.Keys;
    assert Enumerates(first, vars.Keys) && Enumerates(second, vars.Keys);
    assert Expands(phase1.text, vars, result);
    ExpandsToSubst(phase1.text, vars, result);
    r := Rendered(result);
  }

  lemma ExpandsToSubst(text: string, vars: Vars, result: string)
    requires Expands(text, vars, result)
    ensures Unconfusable(text, vars) ==> result == Subst(text, vars)
  {
    var first, second :| Enumerates(first, vars.Keys) && Enumerates(second, vars.Keys)
                         && result == FillAll(MarkAll(text, first), vars, second);
    if Unconfusable(text, vars) {
      TwoPassIsSimultaneous(text, vars, first, second);
    }
  }

  /** The whole engine on well-formed blocks: no panic, and the structural rendering of the blocks
      followed by one simultaneous substitution, for all iteration orders. */
  lemma {:induction false} ExpandIsStructural(bs: seq<Block>, vars: Vars, result: string)
    requires forall i :: 0 <= i < |bs| ==> WellFormed(bs[i])
    requires !Contains(Render(bs, vars), IF_OPEN)
    requires Unconfusable(Render(bs, vars), vars)
    ensures Conditionals(Print(bs), vars) == Rendered(Render(bs, vars))
    ensures Expands(Render(bs, vars), vars, result) ==> result == Subst(Render(bs, vars), vars)
  {
    EmptyPrefix(Print(bs));
    EmptyPrefix(Render(bs, vars));
    ConditionalsFrom("", bs, vars);
    if Expands(Render(bs, vars), vars, result) { ExpandsToSubst(Render(bs, vars), vars, result); }
  }

  // ---------- templates as trees ----------

  /** A template as its author thinks of it: text with references, and conditionals over such text. */
  datatype Node = Always(ss: seq<Segment>) | Cond(key: string, thn: seq<Segment>, els: Option<seq<Segment>>)

  function BlockOf(n: Node): Block {
    match n
    case Always(ss) => Lit(PrintSegments(ss))
    case Cond(k, thn, els) =>
      If(k, PrintSegments(thn), match els case None => None case Some(ss) => Some(PrintSegments(ss)))
  }

  function BlocksOf(ns: seq<Node>): (r: seq<Block>)
    ensures |r| == |ns| && forall i :: 0 <= i < |ns| ==> r[i] == BlockOf(ns[i])
  {
    if ns == [] then [] else [BlockOf(ns[0])] + BlocksOf(ns[1..])
  }

  /** The text of a template. */
  function Source(ns: seq<Node>): string { Print(BlocksOf(ns)) }

  /** The branches that the conditions choose: the second one, if any, for an unbound key and for the values
      "" and "false", and the first one for every other value. */
  function Chosen(ns: seq<Node>, vars: Vars): seq<Segment> {
    if ns == [] then []
    else (match ns[0]
          case Always(ss) => ss
          case Cond(k, thn, els) =>
            if k !in vars || vars[k] == "" || vars[k] == "false" then (match els case None => [] case Some(ss) => ss)
            else thn) + Chosen(ns[1..], vars)
  }

  /** Literal text without opening braces, and names that are not the inside of a tag. */
  predicate ProperSegment(s: Segment) {
    match s
    case Plain(t) => '{' !in t && '\0' !in t
    case Var(k) => '{' !in k && '}' !in k && '\0' !in k && k != "/if" && k != "#else" && !("#if " <= k)
  }

  predicate ProperText(ss: seq<Segment>) {
    forall i :: 0 <= i < |ss| ==> ProperSegment(ss[i])
  }

  ghost predicate ProperNode(n: Node) {
    match n
    case Always(ss) => ProperText(ss)
    case Cond(k, thn, els) => BraceFree(k) && ProperText(thn) && (els.Some? ==> ProperText(els.value))
  }

  lemma {:induction false} SegmentsConcat(a: seq<Segment>, b: seq<Segment>)
    ensures PrintSegments(a + b) == PrintSegments(a) + PrintSegments(b)
  {
    if a == [] {
      ConcatEmpty(b);
      ConcatEmpty(PrintSegments(b));
    } else {
      SegmentsConcat(a[1..], b);
      HeadOfConcat(a, b);
      ConcatAssoc(PrintSegment(a[0]), PrintSegments(a[1..]), PrintSegments(b));
    }
  }

  /** Rendering the printed blocks prints the chosen branches. */
  lemma {:induction false} RenderIsChosen(ns: seq<Node>, vars: Vars)
    ensures Render(BlocksOf(ns), vars) == PrintSegments(Chosen(ns, vars))
  {
    if ns != [] {
      RenderIsChosen(ns[1..], vars);
      assert BlocksOf(ns)[1..] == BlocksOf(ns[1..]);
      var rest := Chosen(ns[1..], vars);
      match ns[0]
      case Always(ss) => SegmentsConcat(ss, rest);
      case Cond(k, thn, els) => SegmentsConcat(if Truthy(k, vars) then thn else if els.Some? then els.value else [], rest);
    }
  }

  /** The name in a reference that a tag matches. */
  lemma TagName(k: string, s: string, t: string)
    requires '}' !in k && (t == IF_OPEN || t == ELSE_TAG || t == IF_CLOSE) && At(Placeholder(k) + s, t, 0)
    ensures if t == IF_OPEN then "#if " <= k else k == t[1..|t| - 1]
  {
    var text := Placeholder(k) + s;
    AtChars(text, t, 0);
    PlaceholderChars(k, s);
    if t == IF_OPEN {
      NoBraceBefore(t, 5, |k| + 1);
      FrontOf(k, "#if ", text);
    } else {
      NoBraceBefore(t, |t| - 1, |k| + 1);
      assert text[|t| - 1] == '}';
      FrontOf(k, t[1..|t| - 1], text);
    }
  }

  lemma PlaceholderChars(k: string, s: string)
    ensures var text := Placeholder(k) + s;
            |text| >= |k| + 2 && text[|k| + 1] == '}' && forall d :: 0 <= d < |k| ==> text[1 + d] == k[d]
  {
  }

  /** Two names at the same place in a text. */
  lemma FrontOf(k: string, t: string, text: string)
    requires |t| <= |k| < |text| && forall d :: 0 <= d < |k| ==> text[1 + d] == k[d]
    requires forall d :: 0 <= d < |t| ==> text[1 + d] == t[d]
    ensures t <= k && (|t| == |k| ==> t == k)
  {
    assert forall d :: 0 <= d < |t| ==> k[d] == text[1 + d];
  }

  /** A reference is no tag. */
  lemma PlaceholderIsNoTag(k: string, s: string, t: string)
    requires ProperSegment(Var(k)) && (t == IF_OPEN || t == ELSE_TAG || t == IF_CLOSE)
    ensures !At(Placeholder(k) + s, t, 0)
  {
    if At(Placeholder(k) + s, t, 0) { TagName(k, s, t); }
  }

  /** A tag's only closing brace is at its end. */
  lemma NoBraceBefore(t: string, n: nat, i: nat)
    requires (t == IF_OPEN && n == 5) || ((t == ELSE_TAG || t == IF_CLOSE) && n == |t| - 1)
    ensures i < n ==> t[i] != '}'
  {
  }

  /** Proper text holds no tag. */
  lemma {:induction false} ProperIsTagFree(ss: seq<Segment>, t: string)
    requires ProperText(ss) && (t == IF_OPEN || t == ELSE_TAG || t == IF_CLOSE)
    ensures !Contains(PrintSegments(ss), t)
  {
    if ss != [] {
      var s := PrintSegments(ss[1..]);
      ProperIsTagFree(ss[1..], t);
      match ss[0]
      case Plain(w) => PlainThenLacks(w, s, t);
      case Var(k) =>
        PlaceholderIsNoTag(k, s, t);
        PlaceholderThenLacks(k, s, t);
    }
  }

  lemma PlainThenLacks(w: string, s: string, t: string)
    requires '{' !in w && t != "" && t[0] == '{' && !Contains(s, t)
    ensures !Contains(w + s, t)
  {
    forall i ensures !At(w + s, t, i) {
      if i >= |w| {
        AtShift(w, s, t, i - |w|);
      } else if 0 <= i && i + |t| <= |w + s| {
        assert (w + s)[i..i + |t|][0] == w[i];
      }
    }
  }

  lemma PlaceholderThenLacks(k: string, s: string, t: string)
    requires '{' !in k && t != "" && t[0] == '{' && !Contains(s, t) && !At(Placeholder(k) + s, t, 0)
    ensures !Contains(Placeholder(k) + s, t)
  {
    var tail := (k + "}") + s;
    PlainThenLacks(k + "}", s, t);
    UnboundText(k, s);
    forall i ensures !At(['{'] + tail, t, i) {
      if i > 0 { AtShift(['{'], tail, t, i - 1); }
    }
  }

  lemma ProperIsWellFormed(n: Node)
    requires ProperNode(n)
    ensures WellFormed(BlockOf(n))
  {
    if n.Cond? {
      var thn := PrintSegments(n.thn);
      ProperIsTagFree(n.thn, ELSE_TAG);
      ProperIsTagFree(n.thn, IF_CLOSE);
      if n.els.Some? {
        ProperIsTagFree(n.els.value, IF_CLOSE);
        TagThenLacks(ELSE_TAG, PrintSegments(n.els.value), IF_CLOSE, 1);
        SeamLacks(thn, ELSE_TAG + PrintSegments(n.els.value), IF_CLOSE);
        ConcatAssoc(thn, ELSE_TAG, PrintSegments(n.els.value));
      }
    }
  }

  lemma {:induction false} ChosenIsProper(ns: seq<Node>, vars: Vars)
    requires forall i :: 0 <= i < |ns| ==> ProperNode(ns[i])
    ensures ProperText(Chosen(ns, vars))
  {
    if ns != [] { ChosenIsProper(ns[1..], vars); }
  }

  lemma {:induction false} ProperIsNulFree(ss: seq<Segment>)
    requires ProperText(ss)
    ensures '\0' !in PrintSegments(ss)
  {
    if ss != [] { ProperIsNulFree(ss[1..]); }
  }

  /** The engine on a template given as a tree: it never panics, and whatever the iteration orders, its
      result is the chosen branches with every bound reference replaced by its value, provided that no
      text between two references of a chosen branch can be taken for the inside of a token. */
  lemma {:induction false} TemplateRenders(ns: seq<Node>, vars: Vars, result: string)
    requires forall i :: 0 <= i < |ns| ==> ProperNode(ns[i])
    requires CleanKeys(vars.Keys) && CleanValues(vars) && !Forged(PiecesOf(Chosen(ns, vars), vars.Keys), vars)
    ensures Conditionals(Source(ns), vars) == Rendered(PrintSegments(Chosen(ns, vars)))
    ensures Expands(PrintSegments(Chosen(ns, vars)), vars, result) ==> result == RenderSegments(Chosen(ns, vars), vars)
  {
    var bs, ss := BlocksOf(ns), Chosen(ns, vars);
    forall i | 0 <= i < |bs| ensures WellFormed(bs[i]) { ProperIsWellFormed(ns[i]); }
    ChosenIsProper(ns, vars);
    RenderIsChosen(ns, vars);
    ProperIsTagFree(ss, IF_OPEN);
    ProperIsNulFree(ss);
    UnambiguousText(ss);
    ParsePrinted(ss, vars.Keys);
    SubstIsStructural(ss, vars);
    ExpandIsStructural(bs, vars, result);
  }

  lemma UnambiguousText(ss: seq<Segment>)
    requires ProperText(ss)
    ensures forall s <- ss :: Unambiguous(s)
  {
  }
}
