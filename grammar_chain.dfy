/**
 * `conditionalExpr` is right-associative: a flat written chain
 * `(A) OP (B) OP (C)` of parenthesised operands reads as
 * `A OP (B OP C)`.
 */
module GrammarChain {
  import opened Atoms
  import opened Operands
  import opened Grammar
  import opened GrammarRender
  import opened GrammarWritten

  /** The right-nested tree of a chain of operands joined by connectives. */
  function Chain(operands: seq<Expr>, ops: seq<string>): Expr
    requires |operands| == |ops| + 1
    decreases |ops|
  {
    if |ops| == 0 then operands[0]
    else Conditional(operands[0], ops[0], Chain(operands[1..], ops[1..]))
  }

  /** The chain as written: every operand in its own parentheses, connectives between them. */
  function ChainText(operands: seq<Expr>, ops: seq<string>): string
    requires |operands| == |ops| + 1
    decreases |ops|
  {
    if |ops| == 0 then Paren(Render(operands[0]))
    else Paren(Render(operands[0])) + (" " + ops[0] + " ") + ChainText(operands[1..], ops[1..])
  }

  /** The operands are well formed and the connectives are AND or OR. */
  predicate FlatChain(operands: seq<Expr>, ops: seq<string>) {
    && |operands| == |ops| + 1
    && (forall i :: 0 <= i < |operands| ==> WellFormed(operands[i]))
    && (forall i :: 0 <= i < |ops| ==> ops[i] in CondOps)
  }

  lemma {:induction false} ChainWellFormed(operands: seq<Expr>, ops: seq<string>)
    requires FlatChain(operands, ops)
    ensures WellFormed(Chain(operands, ops))
    ensures |ops| >= 1 ==> Chain(operands, ops).Conditional?
    decreases |ops|
  {
    if |ops| > 0 {
      ChainWellFormed(operands[1..], ops[1..]);
    }
  }

  /** The chain as a written tree: each operand in one layer, the chain nodes bare. */
  function ChainWritten(operands: seq<Expr>, ops: seq<string>): Written
    requires |operands| == |ops| + 1
    decreases |ops|
  {
    var first := Canon(operands[0]).(layers := 1);
    if |ops| == 0 then first
    else WConditional(0, first, ops[0], ChainWritten(operands[1..], ops[1..]))
  }

  /** The flat text is the written chain's text, and the written chain stands for the right-nested tree. */
  lemma {:induction false} ChainPrints(operands: seq<Expr>, ops: seq<string>)
    requires FlatChain(operands, ops)
    ensures WellWritten(ChainWritten(operands, ops))
    ensures Erase(ChainWritten(operands, ops)) == Chain(operands, ops)
    ensures Text(ChainWritten(operands, ops)) == ChainText(operands, ops)
    ensures ChainWritten(operands, ops).layers >= 1 || ChainWritten(operands, ops).WConditional?
    decreases |ops|
  {
    CanonPrints(operands[0]);
    OneLayerText(Canon(operands[0]));
    assert WellWritten(Canon(operands[0]).(layers := 1));
    if |ops| > 0 {
      ChainPrints(operands[1..], ops[1..]);
    }
  }

  /** A flat chain of parenthesised operands parses to the right-nested tree. */
  lemma RightAssociative(operands: seq<Expr>, ops: seq<string>)
    requires FlatChain(operands, ops)
    ensures ParseFilter(ChainText(operands, ops)) == Some(Chain(operands, ops))
  {
    ChainPrints(operands, ops);
    WrittenRoundTrip(ChainWritten(operands, ops));
  }
}
