/**
 * Written trees of parse.ts: each node records how many layers of
 * parentheses surround it, within what the grammar allows. Every written tree
 * is read back as the tree it stands for, whatever its layers, so redundant
 * parentheses around a whole input, an operand of a connective or the
 * argument of `Count` never change the parsed tree.
 */
module GrammarWritten {
  import opened Atoms
  import opened Operands
  import opened Grammar
  import opened GrammarRender
  import opened GrammarLayers

  /** A tree as written: each node with its layers of parentheses. */
  datatype Written =
    | WClause(layers: nat, lhs: string, op: string, rhs: Option<string>)
    | WConditional(layers: nat, left: Written, op: string, right: Written)
    | WCount(layers: nat, counted: Written, op: string, threshold: string)

  /** The tree a written tree stands for: the layers are dropped. */
  function Erase(w: Written): Expr {
    match w
    case WClause(_, lhs, op, rhs) => Clause(lhs, op, rhs)
    case WConditional(_, l, op, r) => Conditional(Erase(l), op, Erase(r))
    case WCount(_, c, op, n) => Count(Erase(c), op, n)
  }

  /**
   * The parts are well formed, and there are parentheses where the grammar
   * demands them: around a conditional's left operand and around its right
   * operand unless that is a further chain. The argument of `Count` keeps the
   * one layer the printer puts there, which the grammar does not demand.
   */
  predicate WellWritten(w: Written) {
    match w
    case WClause(_, lhs, op, rhs) => WellFormedClause(lhs, op, rhs)
    case WConditional(_, l, op, r) =>
      && op in CondOps && WellWritten(l) && WellWritten(r)
      && l.layers >= 1 && (r.layers >= 1 || r.WConditional?)
    case WCount(_, c, op, n) =>
      && op in NumOps && |n| >= 1 && AllIn(NumberChars, n)
      && WellWritten(c) && c.layers >= 1
  }

  /** The text inside a node's own layers. */
  function Body(w: Written): string
    decreases w, 0
  {
    match w
    case WClause(_, lhs, op, rhs) => ClauseText(lhs, op, rhs)
    case WConditional(_, l, op, r) => Text(l) + (" " + op + " ") + Text(r)
    case WCount(_, c, op, n) => "Count" + Text(c) + (" " + op + " ") + n
  }

  /** A written tree: its body in its layers. */
  function Text(w: Written): string
    decreases w, 1
  {
    Wrap(w.layers, Body(w))
  }

  /** The printed text of a conditional, piece by piece. */
  lemma ConditionalParts(s: string, pos: nat, tl: string, op: string, tr: string, lEnd: nat, q: nat, end: nat)
    requires Occurs(s, pos, tl + (" " + op + " ") + tr)
    requires lEnd == pos + |tl| && q == lEnd + |op| + 2 && end == q + |tr|
    ensures Occurs(s, pos, tl) && Occurs(s, lEnd, " " + op + " ") && Occurs(s, q, tr)
  {
    OccursConcat(s, pos, tl + (" " + op + " "), tr);
    OccursConcat(s, pos, tl, " " + op + " ");
  }

  /**
   * A written tree in one or more layers, wherever it occurs, is read by both
   * `parens` rules as the tree it stands for.
   */
  lemma {:induction false} TextReads(w: Written, s: string, pos: nat, end: nat)
    requires WellWritten(w) && w.layers >= 1
    requires Occurs(s, pos, Text(w)) && end == pos + |Text(w)|
    ensures pos < |s| && s[pos] == '('
    ensures Run(s, Parens(ChildChoice), pos) == Success(Erase(w), end)
    ensures Run(s, Parens(ExprChoice), pos) == Success(Erase(w), end)
    decreases w, 2
  {
    var k, b := w.layers, Body(w);
    WrapInside(s, pos, k, b);
    BodyReads(w, s, pos + k, pos + k + |b|);
    WrappedReads(s, pos, k, b, Erase(w));
  }

  /** `k >= 1` layers around a text that both choices read back. */
  lemma WrappedReads(s: string, pos: nat, k: nat, b: string, e: Expr)
    requires k >= 1 && Occurs(s, pos, Wrap(k, b))
    requires pos + k <= |s| && ReadsBack(s, pos + k, e, pos + k + |b|)
    ensures pos < |s| && s[pos] == '('
    ensures Run(s, Parens(ChildChoice), pos) == Success(e, pos + |Wrap(k, b)|)
    ensures Run(s, Parens(ExprChoice), pos) == Success(e, pos + |Wrap(k, b)|)
  {
    WrapNest(s, pos, k, b);
    LayersRead(k, e, s, pos, pos + k + |b|);
  }

  /**
   * The body of a written tree, followed by an end or a `)`, is read back by
   * `conditionalChild`'s and `expression`'s choices.
   */
  lemma {:induction false} BodyReads(w: Written, s: string, pos: nat, end: nat)
    requires WellWritten(w) && Occurs(s, pos, Body(w)) && end == pos + |Body(w)| && Follows(s, end)
    ensures pos <= |s| && ReadsBack(s, pos, Erase(w), end)
    ensures w.WConditional? ==> pos < |s| && s[pos] == '('
    decreases w, 1
  {
    match w
    case WClause(_, lhs, op, rhs) => ClauseReadsBack(s, pos, lhs, op, rhs, end);
    case WCount(_, _, _, _) => CountBodyReads(w, s, pos, end);
    case WConditional(_, _, _, _) => ConditionalBodyReads(w, s, pos, end);
  }

  lemma {:induction false} CountBodyReads(w: Written, s: string, pos: nat, end: nat)
    requires w.WCount? && WellWritten(w)
    requires Occurs(s, pos, Body(w)) && end == pos + |Body(w)| && Follows(s, end)
    ensures pos <= |s| && ReadsBack(s, pos, Erase(w), end)
    decreases w, 0
  {
    var c, op, n := w.counted, w.op, w.threshold;
    var cEnd := pos + 5 + |Text(c)|;
    var q := cEnd + |op| + 2;
    CountLayout(s, pos, Text(c), op, n, cEnd, q, end);
    TextReads(c, s, pos + 5, cEnd);
    CountArgument(s, pos + 5, Erase(c), cEnd, op);
    CountTail(s, cEnd, op, q, n, end);
    CountStep(s, pos, Erase(c), cEnd, op, q, n, end);
    OccursAt(s, pos, "Count", 0);
    CountReadsBack(s, pos, Erase(w), end);
  }

  lemma {:induction false} ConditionalBodyReads(w: Written, s: string, pos: nat, end: nat)
    requires w.WConditional? && WellWritten(w)
    requires Occurs(s, pos, Body(w)) && end == pos + |Body(w)| && Follows(s, end)
    ensures pos < |s| && s[pos] == '(' && ReadsBack(s, pos, Erase(w), end)
    decreases w, 0
  {
    var l, op, r := w.left, w.op, w.right;
    var lEnd := pos + |Text(l)|;
    var q := lEnd + |op| + 2;
    ConditionalParts(s, pos, Text(l), op, Text(r), lEnd, q, end);
    TextReads(l, s, pos, lEnd);
    RightReadsBack(r, s, q, end);
    ConditionalFinish(s, pos, Erase(l), lEnd, op, q, Erase(r), end);
    ConditionalReadsBack(s, pos, Erase(w), end);
  }

  /**
   * The right operand of a conditional: a further chain read by
   * `conditionalExpr`, or an operand in its layers read by `conditionalChild`
   * once no chain matches.
   */
  lemma {:induction false} RightReadsBack(r: Written, s: string, q: nat, end: nat)
    requires WellWritten(r) && (r.layers >= 1 || r.WConditional?)
    requires Occurs(s, q, Text(r)) && end == q + |Text(r)| && Follows(s, end)
    ensures q < |s| && s[q] == '(' && RightReads(s, q, Erase(r), end)
    decreases r, 3
  {
    if r.layers == 0 {
      BodyReads(r, s, q, end);
    } else {
      TextReads(r, s, q, end);
      ConnectiveFails(s, end);
      ConditionalStops(s, q, Erase(r), end);
    }
  }

  /** Every well-written tree, in any layers, comes back from its text. */
  lemma WrittenRoundTrip(w: Written)
    requires WellWritten(w)
    ensures ParseFilter(Text(w)) == Some(Erase(w))
  {
    var s := Text(w);
    assert s[0..|s|] == s;
    if w.layers == 0 {
      BodyReads(w, s, 0, |s|);
      ExpressionBare(s, 0, Erase(w), |s|);
    } else {
      TextReads(w, s, 0, |s|);
      LayeredChoicesFail(s, 0, Erase(w), |s|);
      ExpressionParens(s, 0, Erase(w), |s|);
    }
  }

  /**
   * The way `Render` writes a tree: the layers the grammar demands around the
   * operands of a connective, and one layer around the argument of `Count`.
   */
  function Canon(e: Expr): Written {
    match e
    case Clause(lhs, op, rhs) => WClause(0, lhs, op, rhs)
    case Conditional(l, op, r) =>
      var wr := if r.Conditional? then Canon(r) else Canon(r).(layers := 1);
      WConditional(0, Canon(l).(layers := 1), op, wr)
    case Count(c, op, n) => WCount(0, Canon(c).(layers := 1), op, n)
  }

  /** `Render` is the text of the canonical written tree. */
  lemma {:induction false} CanonPrints(e: Expr)
    requires WellFormed(e)
    ensures WellWritten(Canon(e)) && Erase(Canon(e)) == e && Canon(e).layers == 0
    ensures Text(Canon(e)) == Render(e)
  {
    match e
    case Clause(_, _, _) =>
    case Conditional(l, op, r) =>
      CanonPrints(l);
      CanonPrints(r);
      OneLayerText(Canon(l));
      if !r.Conditional? {
        OneLayerText(Canon(r));
      }
    case Count(c, op, n) =>
      CanonPrints(c);
      OneLayerText(Canon(c));
  }

  /** One layer around a bare written tree is its text in parentheses. */
  lemma OneLayerText(w: Written)
    requires w.layers == 0
    ensures Text(w.(layers := 1)) == Paren(Text(w))
  {
    assert Body(w.(layers := 1)) == Body(w);
  }

  /** Every well-formed tree comes back from its printed form. */
  lemma ParseFilterRoundTrip(e: Expr)
    requires WellFormed(e)
    ensures ParseFilter(Render(e)) == Some(e)
  {
    CanonPrints(e);
    WrittenRoundTrip(Canon(e));
  }

  /** Redundant layers around a whole printed expression do not change what `parseFilter` returns. */
  lemma ParseFilterLayers(e: Expr, k: nat)
    requires WellFormed(e)
    ensures ParseFilter(Wrap(k, Render(e))) == Some(e)
  {
    CanonPrints(e);
    var w := Canon(e).(layers := k);
    assert Text(w) == Wrap(k, Render(e));
    WrittenRoundTrip(w);
  }
}
