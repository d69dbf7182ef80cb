/**
 * The paren combinators of parse.ts. `parens(p)` reads one or more layers
 * and hands back p's value untouched; `optParens(p)` also reads none.
 */
module GrammarLayers {
  import opened Atoms
  import opened Operands
  import opened Grammar
  import opened GrammarRender

  /** `paren(p).or(paren(recur))`: one layer around `inner`, or one layer around a further `parens`. */
  lemma ParensCases(s: string, inner: Rule, pos: nat, v: Expr, e: nat) returns (once: bool)
    requires inner == ChildChoice || inner == ExprChoice
    requires pos <= |s| && Run(s, Parens(inner), pos) == Success(v, e)
    ensures pos < |s| && s[pos] == '(' && pos + 1 < e <= |s| && s[e - 1] == ')'
    ensures once ==> Run(s, inner, pos + 1) == Success(v, e - 1)
    ensures !once ==> Run(s, Parens(inner), pos + 1) == Success(v, e - 1)
  {
    once := SkipClose(s, Run(s, inner, pos + 1)).Success?;
  }

  /**
   * What `parens(inner)` accepted: a match of `inner`, from `pos + d` to
   * `stop`, in `d >= 1` layers of parentheses; the value is the inner rule's
   * own.
   */
  lemma {:induction false} ParensLayers(s: string, inner: Rule, pos: nat, v: Expr, e: nat) returns (d: nat, stop: nat)
    requires inner == ChildChoice || inner == ExprChoice
    requires pos <= |s| && Run(s, Parens(inner), pos) == Success(v, e)
    ensures 1 <= d && e == stop + d && Nest(s, pos, d, stop)
    ensures pos + d <= |s| && Run(s, inner, pos + d) == Success(v, stop)
    decreases |s| - pos
  {
    var once := ParensCases(s, inner, pos, v, e);
    if once {
      d, stop := 1, e - 1;
    } else {
      var d' := 0;
      d', stop := ParensLayers(s, inner, pos + 1, v, e - 1);
      d := d' + 1;
    }
  }

  /**
   * What `optParens(inner)` accepted: a match of `inner` in `d >= 0` layers
   * (none when `inner` matches bare); the value is the inner rule's own.
   */
  lemma OptParensLayers(s: string, inner: Rule, pos: nat, v: Expr, e: nat) returns (d: nat, stop: nat)
    requires inner == ChildChoice || inner == ExprChoice
    requires pos <= |s| && Run(s, OptParens(inner), pos) == Success(v, e)
    ensures e == stop + d && Nest(s, pos, d, stop)
    ensures pos + d <= |s| && Run(s, inner, pos + d) == Success(v, stop)
    ensures d == 0 <==> Run(s, inner, pos).Success?
  {
    if Run(s, inner, pos).Success? {
      d, stop := 0, e;
    } else {
      d, stop := ParensLayers(s, inner, pos, v, e);
    }
  }

  /** `paren(recur)`: one layer around a further `parens`, taken when the inner rule fails just inside. */
  lemma ParensRecurStep(s: string, pos: nat, inner: Rule, v: Expr, e: nat)
    requires inner == ChildChoice || inner == ExprChoice
    requires pos < |s| && s[pos] == '(' && Run(s, inner, pos + 1).Failure?
    requires Run(s, Parens(inner), pos + 1) == Success(v, e) && e < |s| && s[e] == ')'
    ensures Run(s, Parens(inner), pos) == Success(v, e + 1)
  {
  }

  /**
   * Under one or more layers around a text that both choices read back, neither
   * choice matches bare (the first operand of a would-be conditional is
   * followed by no connective), and both `parens` rules read the text.
   */
  lemma {:induction false} LayersRoundTrip(k: nat, e: Expr, s: string, pos: nat, stop: nat)
    requires k >= 1 && Nest(s, pos, k, stop) && Follows(s, stop + k)
    requires ReadsBack(s, pos + k, e, stop)
    ensures Run(s, ChildChoice, pos).Failure? && Run(s, ExprChoice, pos).Failure?
    ensures Run(s, Parens(ChildChoice), pos) == Success(e, stop + k)
    ensures Run(s, Parens(ExprChoice), pos) == Success(e, stop + k)
    decreases k
  {
    if k == 1 {
      OneLayer(s, pos, e, stop + 1);
    } else {
      LayersRoundTrip(k - 1, e, s, pos + 1, stop);
      MoreLayers(e, s, pos, stop + k);
    }
    LayeredChoicesFail(s, pos, e, stop + k);
  }

  /** One layer around a text that both choices read back. */
  lemma OneLayer(s: string, pos: nat, e: Expr, end: nat)
    requires pos + 1 < end <= |s| && s[pos] == '(' && s[end - 1] == ')'
    requires ReadsBack(s, pos + 1, e, end - 1)
    ensures Run(s, Parens(ChildChoice), pos) == Success(e, end)
    ensures Run(s, Parens(ExprChoice), pos) == Success(e, end)
  {
    ParensStep(s, pos, ChildChoice, e, end - 1);
    ParensStep(s, pos, ExprChoice, e, end - 1);
  }

  /** A further layer around text whose choices fail just inside and whose `parens` rules read it. */
  lemma MoreLayers(e: Expr, s: string, pos: nat, end: nat)
    requires pos + 1 < end <= |s| && s[pos] == '(' && s[end - 1] == ')'
    requires Run(s, ChildChoice, pos + 1).Failure? && Run(s, ExprChoice, pos + 1).Failure?
    requires Run(s, Parens(ChildChoice), pos + 1) == Success(e, end - 1)
    requires Run(s, Parens(ExprChoice), pos + 1) == Success(e, end - 1)
    ensures Run(s, Parens(ChildChoice), pos) == Success(e, end)
    ensures Run(s, Parens(ExprChoice), pos) == Success(e, end)
  {
    ParensRecurStep(s, pos, ChildChoice, e, end - 1);
    ParensRecurStep(s, pos, ExprChoice, e, end - 1);
  }

  /** At an opening parenthesis whose `conditionalChild` reads to the end, both choices fail. */
  lemma LayeredChoicesFail(s: string, pos: nat, e: Expr, end: nat)
    requires pos < |s| && s[pos] == '(' && Follows(s, end)
    requires Run(s, Parens(ChildChoice), pos) == Success(e, end)
    ensures Run(s, ChildChoice, pos).Failure? && Run(s, ExprChoice, pos).Failure?
  {
    ConnectiveFails(s, end);
    ConditionalStops(s, pos, e, end);
    OpenChoicesFail(s, pos);
  }

  /**
   * `k >= 1` layers around a text that both choices read back are read by
   * both `parens` rules, whatever follows the outer layer.
   */
  lemma LayersRead(k: nat, e: Expr, s: string, pos: nat, stop: nat)
    requires k >= 1 && Nest(s, pos, k, stop)
    requires ReadsBack(s, pos + k, e, stop)
    ensures pos < |s| && s[pos] == '('
    ensures Run(s, Parens(ChildChoice), pos) == Success(e, stop + k)
    ensures Run(s, Parens(ExprChoice), pos) == Success(e, stop + k)
  {
    if k == 1 {
      OneLayer(s, pos, e, stop + 1);
    } else {
      assert Nest(s, pos + 1, k - 1, stop);
      LayersRoundTrip(k - 1, e, s, pos + 1, stop);
      MoreLayers(e, s, pos, stop + k);
    }
  }
}
