/**
 * A printer for the trees of parse.ts, and the steps by which the grammar reads
 * a printed tree back (the round trip itself is in `GrammarWritten`). The
 * printer writes the shape the query language is written in: conditional
 * operands in parentheses, a right-nested chain left bare after its
 * connective, the argument of `Count` in parentheses.
 */
module GrammarRender {
  import opened Atoms
  import opened Operands
  import opened Grammar

  function Render(e: Expr): string {
    match e
    case Clause(lhs, op, rhs) => ClauseText(lhs, op, rhs)
    case Conditional(left, op, right) =>
      // a further chain is left bare, anything else goes in parentheses
      var r := if right.Conditional? then Render(right) else Paren(Render(right));
      Paren(Render(left)) + (" " + op + " ") + r
    case Count(counted, op, n) => "Count" + Paren(Render(counted)) + (" " + op + " ") + n
  }

  /** What may follow a printed expression: the end of the input or a closing parenthesis. */
  predicate Follows(s: string, p: nat) {
    p == |s| || (p < |s| && s[p] == ')')
  }

  /** No keyword of `strs` occurs after the whitespace at `p`, so the operator fails. */
  lemma OperatorFails(s: string, p: nat, strs: seq<string>, o: string)
    requires Occurs(s, p, " " + o) && |o| > 0 && !IsWhitespace(o[0])
    requires forall j :: 0 <= j < |strs| ==> !Occurs(s, p + 1, strs[j])
    ensures p <= |s| && Operator(s, p, strs).Failure?
  {
    OccursConcat(s, p, " ", o);
    OccursAt(s, p + 1, o, 0);
    SpanExact(s, p, WhitespaceChars, " ");
    FirstOfFails(s, p + 1, strs);
  }
  /** The operator of a printed clause: a space, the keyword, and `after`. */
  lemma KeywordOf(s: string, p: nat, kind: Operand, op: string, after: string)
    requires op in OpsOf(kind) && (after == " " || after == "")
    requires Occurs(s, p, " " + op + after)
    requires var q := p + 1 + |op| + |after|; q == |s| || !IsWhitespace(s[q])
    ensures Operator(s, p, OpsOf(kind)) == Success(op, p + 1 + |op| + |after|)
  {
    OccursConcat(s, p, " " + op, after);
    OccursConcat(s, p, " ", op);
    var k := EarliestKeyword(s, p + 1, kind, op);
    KeywordVisible(kind, op);
    KeywordAt(s, p, OpsOf(kind), k, after);
  }

  /** `operator(strs)` after one space returns the earliest keyword that matches, and skips `after`. */
  lemma KeywordAt(s: string, p: nat, strs: seq<string>, k: nat, after: string)
    requires k < |strs| && |strs[k]| > 0 && !IsWhitespace(strs[k][0]) && (after == " " || after == "")
    requires Occurs(s, p, " " + strs[k] + after)
    requires forall j :: 0 <= j < k ==> !Occurs(s, p + 1, strs[j])
    requires var q := p + 1 + |strs[k]| + |after|; q == |s| || !IsWhitespace(s[q])
    ensures Operator(s, p, strs) == Success(strs[k], p + 1 + |strs[k]| + |after|)
  {
    assert AllIn(WhitespaceChars, " ");
    assert AllIn(WhitespaceChars, after);
    OperatorOf(s, p, strs, k, " ", after);
  }

  /**
   * The field and the operator of a printed clause, up to the start of its
   * operand at `p2`.
   */
  lemma ClausePrefix(s: string, pos: nat, kind: Operand, lhs: string, op: string, after: string, p1: nat, p2: nat)
    requires AllIn(TextChars, lhs) && op in OpsOf(kind) && (after == " " || after == "")
    requires p1 == pos + |lhs| + 2 && p2 == p1 + 1 + |op| + |after|
    requires Occurs(s, pos, "[" + lhs + "]" + (" " + op + after))
    requires p2 == |s| || !IsWhitespace(s[p2])
    ensures p1 <= |s| && Field(s, pos) == Success(lhs, p1)
    ensures Operator(s, p1, OpsOf(kind)) == Success(op, p2)
  {
    var field := "[" + lhs + "]";
    OccursConcat(s, pos, field, " " + op + after);
    assert field == ['['] + lhs + [']'];
    WrappedOf(s, pos, '[', ']', lhs);
    KeywordOf(s, p1, kind, op, after);
  }

  /** `P.seq(field, op, operand)` succeeds when its three parts do, one after the other. */
  lemma ClauseSeqSteps(s: string, pos: nat, kind: Operand, lhs: string, op: string, rhs: Option<string>,
                       p1: nat, p2: nat, end: nat)
    requires pos <= p1 <= p2 <= |s|
    requires Field(s, pos) == Success(lhs, p1)
    requires Operator(s, p1, OpsOf(kind)) == Success(op, p2)
    requires OperandOf(s, p2, kind) == Success(rhs, end)
    ensures ClauseSeq(s, pos, kind) == Success(Clause(lhs, op, rhs), end)
  {
  }

  /** The clause sequence of the operator's own family reads the printed clause. */
  lemma ClauseSeqParses(s: string, pos: nat, kind: Operand, lhs: string, op: string, rhs: Option<string>, end: nat)
    requires AllIn(TextChars, lhs) && OperandShape(kind, op, rhs)
    requires Occurs(s, pos, ClauseText(lhs, op, rhs)) && end == pos + |ClauseText(lhs, op, rhs)|
    requires Follows(s, end)
    ensures ClauseSeq(s, pos, kind) == Success(Clause(lhs, op, rhs), end)
  {
    var prefix := "[" + lhs + "]" + (" " + op + Gap(rhs));
    var rest := OperandText(op, rhs);
    OccursConcat(s, pos, prefix, rest);
    var p1 := pos + |lhs| + 2;
    var p2 := pos + |prefix|;
    OperandParses(s, p2, kind, op, rhs, end);
    ClausePrefix(s, pos, kind, lhs, op, Gap(rhs), p1, p2);
    ClauseSeqSteps(s, pos, kind, lhs, op, rhs, p1, p2, end);
  }
  /** `P.seq(field, op, operand)` fails when its operator does. */
  lemma ClauseSeqStops(s: string, pos: nat, kind: Operand, lhs: string, p1: nat)
    requires pos <= p1 <= |s|
    requires Field(s, pos) == Success(lhs, p1)
    requires Operator(s, p1, OpsOf(kind)).Failure?
    ensures ClauseSeq(s, pos, kind).Failure?
  {
  }

  /** The field of a printed clause, and the keyword after its space. */
  lemma FieldThenKeyword(s: string, pos: nat, lhs: string, op: string, p1: nat)
    requires AllIn(TextChars, lhs) && Occurs(s, pos, "[" + lhs + "]" + (" " + op)) && p1 == pos + |lhs| + 2
    ensures p1 <= |s| && Field(s, pos) == Success(lhs, p1) && Occurs(s, p1, " " + op)
  {
    var field := "[" + lhs + "]";
    OccursConcat(s, pos, field, " " + op);
    assert field == ['['] + lhs + [']'];
    WrappedOf(s, pos, '[', ']', lhs);
  }

  /** The operator of another family finds none of its keywords after the space. */
  lemma ForeignKeyword(s: string, p1: nat, kind: Operand, op: string)
    requires op in OpsOf(FamilyOf(op)) && kind != FamilyOf(op) && Occurs(s, p1, " " + op)
    ensures p1 <= |s| && Operator(s, p1, OpsOf(kind)).Failure?
  {
    OccursConcat(s, p1, " ", op);
    FamiliesExclude(s, p1 + 1, op, kind);
    KeywordVisible(FamilyOf(op), op);
    OperatorFails(s, p1, OpsOf(kind), op);
  }

  /** A clause sequence of another family fails on a printed clause: its keyword does not occur. */
  lemma ClauseSeqFails(s: string, pos: nat, kind: Operand, lhs: string, op: string)
    requires AllIn(TextChars, lhs) && op in OpsOf(FamilyOf(op)) && kind != FamilyOf(op)
    requires Occurs(s, pos, "[" + lhs + "]" + (" " + op))
    ensures ClauseSeq(s, pos, kind).Failure?
  {
    var p1 := pos + |lhs| + 2;
    FieldThenKeyword(s, pos, lhs, op, p1);
    ForeignKeyword(s, p1, kind, op);
    ClauseSeqStops(s, pos, kind, lhs, p1);
  }

  /** `clause` reads a printed clause: the families tried before its own do not match. */
  lemma ClauseAltParses(s: string, pos: nat, lhs: string, op: string, rhs: Option<string>, end: nat)
    requires WellFormedClause(lhs, op, rhs)
    requires Occurs(s, pos, ClauseText(lhs, op, rhs)) && end == pos + |ClauseText(lhs, op, rhs)|
    requires Follows(s, end)
    ensures pos <= |s| && ClauseAlt(s, pos) == Success(Clause(lhs, op, rhs), end)
  {
    var kind := FamilyOf(op);
    assert OperandShape(kind, op, rhs);
    KeywordPrefix(s, pos, lhs, op, rhs);
    ClauseSeqParses(s, pos, kind, lhs, op, rhs, end);
    if kind != NoOperand {
      ClauseSeqFails(s, pos, NoOperand, lhs, op);
    }
    if kind != QuotedOperand {
      ClauseSeqFails(s, pos, QuotedOperand, lhs, op);
    }
    if kind != NumberOperand {
      ClauseSeqFails(s, pos, NumberOperand, lhs, op);
    }
  }
  /** The first character of a printed expression tells its kind. */
  lemma RenderStart(e: Expr)
    ensures |Render(e)| > 0
    ensures e.Clause? ==> Render(e)[0] == '['
    ensures e.Conditional? ==> Render(e)[0] == '('
    ensures e.Count? ==> Render(e)[0] == 'C'
  {
    match e
    case Clause(lhs, op, rhs) =>
      var t := "[" + lhs + "]" + (" " + op + Gap(rhs));
      assert t[0] == '[';
    case Conditional(left, op, right) =>
      var t := Paren(Render(left));
      assert t[0] == '(';
    case Count(counted, op, n) =>
      var t := "Count" + Paren(Render(counted));
      assert t[0] == 'C';
  }

  /** No connective occurs where a printed expression may end. */
  lemma ConnectiveFails(s: string, p: nat)
    requires Follows(s, p)
    ensures Operator(s, p, CondOps).Failure?
  {
    SpanExact(s, p, WhitespaceChars, "");
    assert OptWhitespace(s, p) == p;
    if p < |s| {
      Mismatch(s, p, CondOps[0], 0);
      Mismatch(s, p, CondOps[1], 0);
    }
  }

  /** The connective of a printed conditional. */
  lemma ConnectiveOf(s: string, p: nat, op: string)
    requires op in CondOps && Occurs(s, p, " " + op + " ")
    requires p + |op| + 2 == |s| || !IsWhitespace(s[p + |op| + 2])
    ensures Operator(s, p, CondOps) == Success(op, p + |op| + 2)
  {
    OccursConcat(s, p, " " + op, " ");
    OccursConcat(s, p, " ", op);
    var k := if op == "AND" then 0 else 1;
    if k == 1 {
      Clash(s, p + 1, op, CondOps[0], 0);
    }
    OperatorOf(s, p, CondOps, k, " ", " ");
  }
  /** `paren(inner)`: an opening parenthesis, the inner rule, a closing parenthesis. */
  lemma ParensStep(s: string, pos: nat, inner: Rule, v: Expr, e: nat)
    requires inner == ChildChoice || inner == ExprChoice
    requires pos < |s| && s[pos] == '('
    requires Run(s, inner, pos + 1) == Success(v, e) && e < |s| && s[e] == ')'
    ensures Run(s, Parens(inner), pos) == Success(v, e + 1)
  {
  }

  /** Without an opening parenthesis, neither `parens` nor `conditionalExpr` matches. */
  lemma ParensNeedOpen(s: string, pos: nat, inner: Rule)
    requires pos <= |s| && (pos == |s| || s[pos] != '(')
    ensures Run(s, Parens(inner), pos).Failure? && Run(s, ConditionalExpr, pos).Failure?
  {
    assert Run(s, ConditionalChild, pos).Failure?;
  }

  /** Without a `C`, `countExpr` does not match. */
  lemma NotCount(s: string, pos: nat)
    requires pos < |s| && s[pos] != 'C'
    ensures Run(s, CountExpr, pos).Failure?
  {
    Mismatch(s, pos, "Count", 0);
  }

  /** Without a `[`, `clause` does not match. */
  lemma NotClause(s: string, pos: nat)
    requires pos < |s| && s[pos] != '['
    ensures Run(s, ClauseRule, pos).Failure?
  {
    assert Field(s, pos).Failure?;
  }

  /** `countExpr` succeeds when its four parts do, one after the other. */
  lemma CountStep(s: string, pos: nat, c: Expr, p: nat, op: string, q: nat, n: string, end: nat)
    requires pos + 5 <= |s| && Occurs(s, pos, "Count")
    requires Run(s, Expression, pos + 5) == Success(c, p)
    requires Operator(s, p, NumOps) == Success(op, q)
    requires q <= |s| && Number(s, q) == Success(n, end)
    ensures Run(s, CountExpr, pos) == Success(Count(c, op, n), end)
  {
  }

  /** `conditionalExpr` stops when no connective follows its first operand. */
  lemma ConditionalStops(s: string, pos: nat, l: Expr, p: nat)
    requires pos <= |s| && Run(s, ConditionalChild, pos) == Success(l, p)
    requires Operator(s, p, CondOps).Failure?
    ensures Run(s, ConditionalExpr, pos).Failure?
  {
  }

  /** `conditionalExpr` with a further chain after the connective. */
  lemma ChainStep(s: string, pos: nat, l: Expr, p: nat, op: string, q: nat, r: Expr, end: nat)
    requires pos <= |s| && Run(s, ConditionalChild, pos) == Success(l, p)
    requires Operator(s, p, CondOps) == Success(op, q)
    requires q <= |s| && Run(s, ConditionalExpr, q) == Success(r, end)
    ensures Run(s, ConditionalExpr, pos) == Success(Conditional(l, op, r), end)
  {
  }

  /** `conditionalExpr` with a single parenthesised operand after the connective. */
  lemma LastStep(s: string, pos: nat, l: Expr, p: nat, op: string, q: nat, r: Expr, end: nat)
    requires pos <= |s| && Run(s, ConditionalChild, pos) == Success(l, p)
    requires Operator(s, p, CondOps) == Success(op, q)
    requires q <= |s| && Run(s, ConditionalExpr, q).Failure?
    requires Run(s, ConditionalChild, q) == Success(r, end)
    ensures Run(s, ConditionalExpr, pos) == Success(Conditional(l, op, r), end)
  {
  }
  /** `conditionalChild`'s choice takes a count first. */
  lemma ChildFromCount(s: string, pos: nat, v: Expr, end: nat)
    requires pos <= |s| && Run(s, CountExpr, pos) == Success(v, end)
    ensures Run(s, ChildChoice, pos) == Success(v, end)
  {
  }

  /** `conditionalChild`'s choice takes a clause when no count matches. */
  lemma ChildFromClause(s: string, pos: nat, v: Expr, end: nat)
    requires pos <= |s| && Run(s, CountExpr, pos).Failure? && Run(s, ClauseRule, pos) == Success(v, end)
    ensures Run(s, ChildChoice, pos) == Success(v, end)
  {
  }

  /** `conditionalChild`'s choice takes a conditional last. */
  lemma ChildFromConditional(s: string, pos: nat, v: Expr, end: nat)
    requires pos <= |s| && Run(s, CountExpr, pos).Failure? && Run(s, ClauseRule, pos).Failure?
    requires Run(s, ConditionalExpr, pos) == Success(v, end)
    ensures Run(s, ChildChoice, pos) == Success(v, end)
  {
  }

  /** `expression`'s choice takes a conditional first. */
  lemma ExprFromConditional(s: string, pos: nat, v: Expr, end: nat)
    requires pos <= |s| && Run(s, ConditionalExpr, pos) == Success(v, end)
    ensures Run(s, ExprChoice, pos) == Success(v, end)
  {
  }

  /** `expression`'s choice takes a count when no conditional matches. */
  lemma ExprFromCount(s: string, pos: nat, v: Expr, end: nat)
    requires pos <= |s| && Run(s, ConditionalExpr, pos).Failure? && Run(s, CountExpr, pos) == Success(v, end)
    ensures Run(s, ExprChoice, pos) == Success(v, end)
  {
  }

  /** `expression`'s choice takes a clause last. */
  lemma ExprFromClause(s: string, pos: nat, v: Expr, end: nat)
    requires pos <= |s| && Run(s, ConditionalExpr, pos).Failure? && Run(s, CountExpr, pos).Failure?
    requires Run(s, ClauseRule, pos) == Success(v, end)
    ensures Run(s, ExprChoice, pos) == Success(v, end)
  {
  }

  /** `expression` takes the bare choice when it matches. */
  lemma ExpressionBare(s: string, pos: nat, v: Expr, end: nat)
    requires pos <= |s| && Run(s, ExprChoice, pos) == Success(v, end)
    ensures Run(s, Expression, pos) == Success(v, end)
  {
  }

  /** Every alternative of `expression`'s choice fails. */
  lemma ExprChoiceFails(s: string, pos: nat)
    requires pos <= |s|
    requires Run(s, ConditionalExpr, pos).Failure? && Run(s, CountExpr, pos).Failure?
    requires Run(s, ClauseRule, pos).Failure?
    ensures Run(s, ExprChoice, pos).Failure?
  {
  }

  /** `expression`: when the bare choice fails, the parenthesised one decides. */
  lemma ExpressionParens(s: string, pos: nat, v: Expr, end: nat)
    requires pos <= |s| && Run(s, ExprChoice, pos).Failure?
    requires Run(s, Parens(ExprChoice), pos) == Success(v, end)
    ensures Run(s, Expression, pos) == Success(v, end)
  {
  }

  /** A comparison keyword is not a connective. */
  lemma NotConnective(s: string, p: nat, op: string)
    requires op in NumOps && Occurs(s, p, " " + op)
    ensures p <= |s| && Operator(s, p, CondOps).Failure?
  {
    OccursConcat(s, p, " ", op);
    Clash(s, p + 1, op, CondOps[0], 0);
    Clash(s, p + 1, op, CondOps[1], 0);
    OperatorFails(s, p, CondOps, op);
  }

  /** At an opening parenthesis where `conditionalExpr` fails, both choices fail. */
  lemma OpenChoicesFail(s: string, pos: nat)
    requires pos < |s| && s[pos] == '(' && Run(s, ConditionalExpr, pos).Failure?
    ensures Run(s, ChildChoice, pos).Failure? && Run(s, ExprChoice, pos).Failure?
  {
    NotCount(s, pos);
    NotClause(s, pos);
    ChildChoiceFails(s, pos);
    ExprChoiceFails(s, pos);
  }

  /** Every alternative of `conditionalChild`'s choice fails. */
  lemma ChildChoiceFails(s: string, pos: nat)
    requires pos <= |s|
    requires Run(s, CountExpr, pos).Failure? && Run(s, ClauseRule, pos).Failure?
    requires Run(s, ConditionalExpr, pos).Failure?
    ensures Run(s, ChildChoice, pos).Failure?
  {
  }

  /**
   * Inside `Count`, `expression` at an opening parenthesis: the layers read as
   * a `conditionalChild` are followed by the comparison, not a connective, so
   * the bare choice fails and the parenthesised one reads the argument.
   */
  lemma CountArgument(s: string, open: nat, c: Expr, cEnd: nat, op: string)
    requires open < |s| && s[open] == '('
    requires Run(s, Parens(ChildChoice), open) == Success(c, cEnd)
    requires Run(s, Parens(ExprChoice), open) == Success(c, cEnd)
    requires op in NumOps && Occurs(s, cEnd, " " + op + " ")
    ensures Run(s, Expression, open) == Success(c, cEnd)
  {
    OccursConcat(s, cEnd, " " + op, " ");
    NotConnective(s, cEnd, op);
    ConditionalStops(s, open, c, cEnd);
    OpenChoicesFail(s, open);
    ExpressionParens(s, open, c, cEnd);
  }

  /** The comparison and the threshold of a printed count. */
  lemma CountTail(s: string, p: nat, op: string, q: nat, n: string, end: nat)
    requires op in NumOps && |n| >= 1 && AllIn(NumberChars, n)
    requires Occurs(s, p, " " + op + " ") && Occurs(s, q, n) && q == p + |op| + 2 && end == q + |n|
    requires Follows(s, end)
    ensures q <= |s| && Operator(s, p, NumOps) == Success(op, q) && Number(s, q) == Success(n, end)
  {
    OccursAt(s, q, n, 0);
    KeywordOf(s, p, NumberOperand, op, " ");
    NumberOf(s, q, n);
  }

  /** A printed expression is read back by `conditionalChild`'s and `expression`'s choices. */
  predicate ReadsBack(s: string, pos: nat, e: Expr, end: nat)
    requires pos <= |s|
  {
    && Run(s, ChildChoice, pos) == Success(e, end)
    && Run(s, ExprChoice, pos) == Success(e, end)
    && (e.Conditional? ==> Run(s, ConditionalExpr, pos) == Success(e, end))
  }

  /** A printed clause, followed by an end or a `)`, is read back by both choices. */
  lemma ClauseReadsBack(s: string, pos: nat, lhs: string, op: string, rhs: Option<string>, end: nat)
    requires WellFormedClause(lhs, op, rhs)
    requires Occurs(s, pos, ClauseText(lhs, op, rhs)) && end == pos + |ClauseText(lhs, op, rhs)|
    requires Follows(s, end)
    ensures ReadsBack(s, pos, Clause(lhs, op, rhs), end)
  {
    var e := Clause(lhs, op, rhs);
    RenderStart(e);
    OccursAt(s, pos, Render(e), 0);
    ClauseAltParses(s, pos, lhs, op, rhs, end);
    assert Run(s, ClauseRule, pos) == Success(e, end);
    NotCount(s, pos);
    ParensNeedOpen(s, pos, ChildChoice);
    ChildFromClause(s, pos, e, end);
    ExprFromClause(s, pos, e, end);
  }

  /** A count read by `countExpr` is read back by both choices. */
  lemma CountReadsBack(s: string, pos: nat, e: Expr, end: nat)
    requires pos < |s| && s[pos] == 'C' && Run(s, CountExpr, pos) == Success(e, end)
    ensures ReadsBack(s, pos, e, end)
  {
    ParensNeedOpen(s, pos, ChildChoice);
    ChildFromCount(s, pos, e, end);
    ExprFromCount(s, pos, e, end);
  }

  /** A conditional read by `conditionalExpr` at an opening parenthesis is read back by both choices. */
  lemma ConditionalReadsBack(s: string, pos: nat, e: Expr, end: nat)
    requires pos < |s| && s[pos] == '(' && Run(s, ConditionalExpr, pos) == Success(e, end)
    ensures ReadsBack(s, pos, e, end)
  {
    NotCount(s, pos);
    NotClause(s, pos);
    ChildFromConditional(s, pos, e, end);
    ExprFromConditional(s, pos, e, end);
  }

  /**
   * How `r.conditionalExpr.or(r.conditionalChild)` reads the right operand `r`
   * at `q`: as a further chain, or, when no chain matches, as one operand in
   * its layers.
   */
  predicate RightReads(s: string, q: nat, r: Expr, end: nat)
    requires q <= |s|
  {
    || Run(s, ConditionalExpr, q) == Success(r, end)
    || (Run(s, ConditionalExpr, q).Failure? && Run(s, ConditionalChild, q) == Success(r, end))
  }

  /** `conditionalExpr` once its operands and connective are read. */
  lemma ConditionalStep(s: string, pos: nat, l: Expr, p: nat, op: string, q: nat, r: Expr, end: nat)
    requires pos <= |s| && Run(s, ConditionalChild, pos) == Success(l, p)
    requires Operator(s, p, CondOps) == Success(op, q)
    requires q <= |s| && RightReads(s, q, r, end)
    ensures Run(s, ConditionalExpr, pos) == Success(Conditional(l, op, r), end)
  {
    if Run(s, ConditionalExpr, q).Success? {
      ChainStep(s, pos, l, p, op, q, r, end);
    } else {
      LastStep(s, pos, l, p, op, q, r, end);
    }
  }

  /** The connective between two operands that are read, and then the whole conditional. */
  lemma ConditionalFinish(s: string, pos: nat, l: Expr, p: nat, op: string, q: nat, r: Expr, end: nat)
    requires pos <= |s| && Run(s, ConditionalChild, pos) == Success(l, p)
    requires op in CondOps && Occurs(s, p, " " + op + " ") && q == p + |op| + 2
    requires q < |s| && s[q] == '(' && RightReads(s, q, r, end)
    ensures Run(s, ConditionalExpr, pos) == Success(Conditional(l, op, r), end)
  {
    ConnectiveOf(s, p, op);
    ConditionalStep(s, pos, l, p, op, q, r, end);
  }
}
