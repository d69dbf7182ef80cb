/**
 * Inputs that `parseFilter` of parse.ts rejects: a clause whose operator
 * wants an operand but reaches the end of the input, and a connective whose
 * left operand has no parentheses of its own.
 */
module GrammarRejects {
  import opened Atoms
  import opened Operands
  import opened Grammar
  import opened GrammarRender

  /** No quoted, numeric or date operand starts at the end of the input. */
  lemma NoOperandAtEnd(s: string, kind: Operand)
    requires kind != NoOperand
    ensures OperandOf(s, |s|, kind).Failure?
  {
  }

  /** `P.seq(field, op, operand)` fails when its operand does. */
  lemma OperandStops(s: string, pos: nat, kind: Operand, lhs: string, op: string, p1: nat, p2: nat)
    requires pos <= p1 <= p2 <= |s|
    requires Field(s, pos) == Success(lhs, p1)
    requires Operator(s, p1, OpsOf(kind)) == Success(op, p2)
    requires OperandOf(s, p2, kind).Failure?
    ensures ClauseSeq(s, pos, kind).Failure?
  {
  }

  /** The sequence of the keyword's own family reads the keyword, then finds no operand. */
  lemma OwnFamilyStops(s: string, pos: nat, lhs: string, op: string)
    requires AllIn(TextChars, lhs) && op in OpsOf(FamilyOf(op)) && FamilyOf(op) != NoOperand
    requires Occurs(s, pos, "[" + lhs + "]" + (" " + op)) && pos + |lhs| + 3 + |op| == |s|
    ensures ClauseSeq(s, pos, FamilyOf(op)).Failure?
  {
    var kind := FamilyOf(op);
    var p1 := pos + |lhs| + 2;
    FieldThenKeyword(s, pos, lhs, op, p1);
    assert " " + op + "" == " " + op;
    KeywordOf(s, p1, kind, op, "");
    NoOperandAtEnd(s, kind);
    OperandStops(s, pos, kind, lhs, op, p1, |s|);
  }

  /** `clause` fails on a field and a keyword that wants an operand, at the end of the input. */
  lemma MissingOperandClause(s: string, pos: nat, lhs: string, op: string)
    requires AllIn(TextChars, lhs) && op in OpsOf(FamilyOf(op)) && FamilyOf(op) != NoOperand
    requires Occurs(s, pos, "[" + lhs + "]" + (" " + op)) && pos + |lhs| + 3 + |op| == |s|
    ensures ClauseAlt(s, pos).Failure?
  {
    var kind := FamilyOf(op);
    OwnFamilyStops(s, pos, lhs, op);
    ClauseSeqFails(s, pos, NoOperand, lhs, op);
    if kind != QuotedOperand {
      ClauseSeqFails(s, pos, QuotedOperand, lhs, op);
    }
    if kind != NumberOperand {
      ClauseSeqFails(s, pos, NumberOperand, lhs, op);
    }
    if kind != DateOperand {
      ClauseSeqFails(s, pos, DateOperand, lhs, op);
    }
  }

  /** `expression` fails where neither its bare nor its parenthesised choice matches. */
  lemma ExpressionFails(s: string, pos: nat)
    requires pos <= |s| && Run(s, ExprChoice, pos).Failure? && Run(s, Parens(ExprChoice), pos).Failure?
    ensures Run(s, Expression, pos).Failure?
  {
  }

  /**
   * A clause whose operator wants an operand but is the last thing in the
   * input is rejected, as `[City] is equal to` is.
   */
  lemma MissingOperandRejected(s: string, lhs: string, op: string)
    requires AllIn(TextChars, lhs) && op in OpsOf(FamilyOf(op)) && FamilyOf(op) != NoOperand
    requires s == "[" + lhs + "]" + (" " + op)
    ensures ParseFilter(s) == None
  {
    assert Occurs(s, 0, "[" + lhs + "]" + (" " + op));
    MissingOperandClause(s, 0, lhs, op);
    assert s[0] == '[';
    ParensNeedOpen(s, 0, ExprChoice);
    NotCount(s, 0);
    ExprChoiceFails(s, 0);
    ExpressionFails(s, 0);
  }

  /** `[City] is equal to`: the binary sequence reads the keyword, then finds no `"`. */
  lemma MissingQuotedOperand()
    ensures ParseFilter("[City] is equal to") == None
  {
    assert AllIn(TextChars, "City");
    assert FamilyOf("is equal to") == QuotedOperand;
    assert "[City] is equal to" == "[" + "City" + "]" + (" " + "is equal to");
    MissingOperandRejected("[City] is equal to", "City", "is equal to");
  }

  /** The unary sequence reads a field and its keyword, and the trailing space. */
  lemma UnaryClauseReads(s: string, pos: nat, lhs: string, op: string, end: nat)
    requires AllIn(TextChars, lhs) && op in UnaryOps
    requires Occurs(s, pos, "[" + lhs + "]" + (" " + op + " ")) && end == pos + |lhs| + 4 + |op|
    requires end < |s| && !IsWhitespace(s[end])
    ensures ClauseAlt(s, pos) == Success(Clause(lhs, op, None), end)
  {
    var p1 := pos + |lhs| + 2;
    ClausePrefix(s, pos, NoOperand, lhs, op, " ", p1, end);
    ClauseSeqSteps(s, pos, NoOperand, lhs, op, None, p1, end, end);
  }

  /** `expression` reads only the bare clause at the start of the input. */
  lemma BareClauseExpression(s: string, lhs: string, op: string, end: nat)
    requires AllIn(TextChars, lhs) && op in UnaryOps
    requires Occurs(s, 0, "[" + lhs + "]" + (" " + op + " ")) && end == |lhs| + 4 + |op|
    requires end < |s| && !IsWhitespace(s[end])
    ensures Run(s, Expression, 0) == Success(Clause(lhs, op, None), end)
  {
    UnaryClauseReads(s, 0, lhs, op, end);
    assert s[0] == '[';
    ParensNeedOpen(s, 0, ExprChoice);
    NotCount(s, 0);
    ExprFromClause(s, 0, Clause(lhs, op, None), end);
    ExpressionBare(s, 0, Clause(lhs, op, None), end);
  }

  /**
   * An input that starts with a unary clause with no parentheses, followed by
   * anything more than whitespace, is rejected: `expression` reads the clause
   * alone and stops short of the end of the input.
   */
  lemma BareClauseFirst(s: string, lhs: string, op: string)
    requires AllIn(TextChars, lhs) && op in UnaryOps
    requires var prefix := "[" + lhs + "]" + (" " + op + " ");
             Occurs(s, 0, prefix) && |prefix| < |s| && !IsWhitespace(s[|prefix|])
    ensures ParseFilter(s) == None
  {
    BareClauseExpression(s, lhs, op, |lhs| + 4 + |op|);
  }

  /**
   * So a connective whose left operand is a unary clause with no parentheses
   * is rejected, whatever follows the connective.
   */
  lemma BareOperandRejected(s: string, lhs: string, op: string, cop: string, t: string)
    requires AllIn(TextChars, lhs) && op in UnaryOps && cop in CondOps
    requires s == "[" + lhs + "]" + (" " + op + " ") + (cop + " " + t)
    ensures ParseFilter(s) == None
  {
    var prefix := "[" + lhs + "]" + (" " + op + " ");
    assert Occurs(s, 0, prefix);
    assert s[|prefix|] == cop[0];
    BareClauseFirst(s, lhs, op);
  }

  /** `[a] is null OR ([b] is null)`: the left operand of `OR` lacks its parentheses. */
  lemma BareLeftOperand()
    ensures ParseFilter("[a] is null OR ([b] is null)") == None
  {
    var s := "[a] is null OR ([b] is null)";
    assert AllIn(TextChars, "a");
    assert s[..12] == "[" + "a" + "]" + (" " + "is null" + " ");
    BareClauseFirst(s, "a", "is null");
  }
}
