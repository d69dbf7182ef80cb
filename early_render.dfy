/**
 * A printer for what the local `parseFilter` of parse.test.ts reads, and the
 * proof that it reads every printed list back. A written group records how
 * many redundant layers of parentheses surround it (at least one, as
 * `unwrapParens` demands); the printed list separates groups by a connective
 * with one space on each side.
 */
module EarlyRender {
  import opened Atoms
  import opened Operands
  import opened EarlyGrammar
  import opened EarlyLayers
  import GrammarRender

  /** A group as written: its layers of parentheses and its parts. */
  datatype Written =
    | WClause(layers: nat, lhs: string, op: string, rhs: Option<string>)
    | WCount(layers: nat, counted: Written, op: string, threshold: string)

  /** The group a written group stands for: the layers are dropped. */
  function Erase(w: Written): Group {
    match w
    case WClause(_, lhs, op, rhs) => Clause(lhs, op, rhs)
    case WCount(_, c, op, n) => Count(Erase(c), op, n)
  }

  /** Every written group has at least one layer, and its parts are well formed. */
  predicate WellWritten(w: Written) {
    && w.layers >= 1
    && match w
       case WClause(_, lhs, op, rhs) => WellFormedClause(lhs, op, rhs)
       case WCount(_, c, op, n) => op in NumOps && |n| >= 1 && AllIn(NumberChars, n) && WellWritten(c)
  }

  /** The text inside the layers: a clause, or `Count`, the counted group, the comparison and the number. */
  function Body(w: Written): string
    decreases w, 0
  {
    match w
    case WClause(_, lhs, op, rhs) => ClauseText(lhs, op, rhs)
    case WCount(_, c, op, n) => "Count" + Text(c) + (" " + op + " ") + n
  }

  /** A written group: its body in its layers. */
  function Text(w: Written): string
    decreases w, 1
  {
    Wrap(w.layers, Body(w))
  }

  /** The connectives and groups after the first group. */
  function Tail(rest: seq<(string, Written)>): string {
    if |rest| == 0 then "" else (" " + rest[0].0 + " ") + Text(rest[0].1) + Tail(rest[1..])
  }

  /** A printed list: the first group, then each connective and group. */
  function ListText(first: Written, rest: seq<(string, Written)>): string {
    Text(first) + Tail(rest)
  }

  function ErasePairs(rest: seq<(string, Written)>): (pairs: seq<(string, Group)>)
    ensures |pairs| == |rest|
  {
    if |rest| == 0 then [] else [(rest[0].0, Erase(rest[0].1))] + ErasePairs(rest[1..])
  }

  predicate WellWrittenPairs(rest: seq<(string, Written)>) {
    forall i :: 0 <= i < |rest| ==> rest[i].0 in CondOps && WellWritten(rest[i].1)
  }

  /** A single space before a visible character is what `P.whitespace` consumes. */
  lemma OneSpace(s: string, p: nat)
    requires p + 1 < |s| && s[p] == ' ' && !IsWhitespace(s[p + 1])
    ensures Whitespace(s, p) == Success((), p + 1)
  {
    assert s[p..p + 1] == " ";
    SpanExact(s, p, WhitespaceChars, " ");
  }

  /** `P.alt` over a family's keywords, where one of them occurs, returns it. */
  lemma KeywordFirst(s: string, p: nat, kind: Operand, op: string)
    requires op in OpsOf(kind) && Occurs(s, p, op)
    ensures FirstOf(s, p, OpsOf(kind)) == Success(op, p + |op|)
  {
    var k := EarliestKeyword(s, p, kind, op);
    FirstOfPicks(s, p, OpsOf(kind), k);
  }

  /** One space, then a keyword of the family: `P.whitespace` takes the space and the family's `P.alt` the keyword. */
  lemma SpaceKeyword(s: string, p: nat, kind: Operand, op: string)
    requires op in OpsOf(kind) && Occurs(s, p, " " + op)
    ensures p + 1 + |op| <= |s| && Whitespace(s, p) == Success((), p + 1)
    ensures FirstOf(s, p + 1, OpsOf(kind)) == Success(op, p + 1 + |op|)
  {
    OccursConcat(s, p, " ", op);
    KeywordVisible(kind, op);
    OccursAt(s, p, " ", 0);
    OccursAt(s, p + 1, op, 0);
    OneSpace(s, p);
    KeywordFirst(s, p + 1, kind, op);
  }

  /** The field ends at `p1`, where `P.whitespace` takes exactly one character. */
  predicate FieldRead(s: string, pos: nat, lhs: string, p1: nat) {
    pos <= p1 < |s| && Field(s, pos) == Success(lhs, p1) && Whitespace(s, p1) == Success((), p1 + 1)
  }

  /** The keyword of the operator's own family, after the field and one space. */
  lemma FormPrefix(s: string, pos: nat, kind: Operand, lhs: string, op: string, p1: nat)
    requires AllIn(TextChars, lhs) && op in OpsOf(kind) && p1 == pos + |lhs| + 2
    requires Occurs(s, pos, "[" + lhs + "]" + (" " + op))
    ensures p1 + 1 + |op| <= |s| && FieldRead(s, pos, lhs, p1) && Occurs(s, p1, " " + op)
    ensures FirstOf(s, p1 + 1, OpsOf(kind)) == Success(op, p1 + 1 + |op|)
  {
    GrammarRender.FieldThenKeyword(s, pos, lhs, op, p1);
    SpaceKeyword(s, p1, kind, op);
  }

  /** The unary sequence succeeds when the field, the whitespace and the keyword do. */
  lemma UnaryFormSteps(s: string, pos: nat, lhs: string, p1: nat, op: string, q: nat)
    requires FieldRead(s, pos, lhs, p1)
    requires FirstOf(s, p1 + 1, OpsOf(NoOperand)) == Success(op, q)
    ensures Run(s, Form(NoOperand), pos) == Success(Clause(lhs, op, None), q)
  {
  }

  /** A sequence with an operand succeeds when its five parts do, one after the other. */
  lemma OperandFormSteps(s: string, pos: nat, kind: Operand, lhs: string, p1: nat, op: string, q: nat, rhs: Option<string>, end: nat)
    requires kind != NoOperand
    requires FieldRead(s, pos, lhs, p1)
    requires FirstOf(s, p1 + 1, OpsOf(kind)) == Success(op, q)
    requires q < |s| && Whitespace(s, q) == Success((), q + 1)
    requires OperandOf(s, q + 1, kind) == Success(rhs, end)
    ensures Run(s, Form(kind), pos) == Success(Clause(lhs, op, rhs), end)
  {
    OperandSeqSteps(s, pos, kind, lhs, p1, op, q, rhs, end);
  }

  lemma OperandSeqSteps(s: string, pos: nat, kind: Operand, lhs: string, p1: nat, op: string, q: nat, rhs: Option<string>, end: nat)
    requires kind != NoOperand
    requires FieldRead(s, pos, lhs, p1)
    requires FirstOf(s, p1 + 1, OpsOf(kind)) == Success(op, q)
    requires q < |s| && Whitespace(s, q) == Success((), q + 1)
    requires OperandOf(s, q + 1, kind) == Success(rhs, end)
    ensures FormSeq(s, pos, kind) == Success(Clause(lhs, op, rhs), end)
  {
  }

  /** A clause sequence fails when its keyword does not follow the field and the whitespace. */
  lemma FormStops(s: string, pos: nat, kind: Operand, lhs: string, p1: nat)
    requires FieldRead(s, pos, lhs, p1)
    requires FirstOf(s, p1 + 1, OpsOf(kind)).Failure?
    ensures Run(s, Form(kind), pos).Failure?
  {
  }

  /**
   * A form with an operand needs whitespace after its keyword as well as after
   * the field: where a visible character or the end follows the keyword, the
   * form fails.
   */
  lemma OperandNeedsGap(s: string, pos: nat, kind: Operand, lhs: string, op: string)
    requires kind != NoOperand && AllIn(TextChars, lhs) && op in OpsOf(kind)
    requires Occurs(s, pos, "[" + lhs + "]" + (" " + op))
    requires var q := pos + |lhs| + 3 + |op|; q == |s| || (q < |s| && !IsWhitespace(s[q]))
    ensures pos <= |s| && Run(s, Form(kind), pos).Failure?
  {
    var p1 := pos + |lhs| + 2;
    var q := p1 + 1 + |op|;
    FormPrefix(s, pos, kind, lhs, op, p1);
    assert Whitespace(s, q).Failure?;
    GapStops(s, pos, kind, lhs, p1, op, q);
  }

  /** A sequence with an operand fails when no whitespace follows its keyword. */
  lemma GapStops(s: string, pos: nat, kind: Operand, lhs: string, p1: nat, op: string, q: nat)
    requires kind != NoOperand && FieldRead(s, pos, lhs, p1)
    requires FirstOf(s, p1 + 1, OpsOf(kind)) == Success(op, q)
    requires q <= |s| && Whitespace(s, q).Failure?
    ensures Run(s, Form(kind), pos).Failure?
  {
  }

  /** The operator of a clause belongs to its family's table. */
  lemma ShapeOps(kind: Operand, op: string, rhs: Option<string>)
    requires OperandShape(kind, op, rhs)
    ensures op in OpsOf(kind) && (kind == NoOperand <==> rhs.None?)
  {
  }

  /** A printed clause is its field and keyword, then the gap and the operand. */
  lemma ClauseTextSplit(lhs: string, op: string, rhs: Option<string>)
    ensures ClauseText(lhs, op, rhs) == ("[" + lhs + "]" + (" " + op)) + (Gap(rhs) + OperandText(op, rhs))
  {
  }

  /** A space, then the operand of the clause's family, up to a closing parenthesis. */
  lemma GapThenOperand(s: string, q: nat, kind: Operand, op: string, rhs: Option<string>, end: nat)
    requires rhs.Some? && OperandShape(kind, op, rhs)
    requires Occurs(s, q, " " + OperandText(op, rhs)) && end == q + 1 + |OperandText(op, rhs)|
    requires end < |s| && s[end] == ')'
    ensures q < |s| && Whitespace(s, q) == Success((), q + 1) && OperandOf(s, q + 1, kind) == Success(rhs, end)
  {
    OccursConcat(s, q, " ", OperandText(op, rhs));
    OccursAt(s, q, " ", 0);
    OperandParses(s, q + 1, kind, op, rhs, end);
    OneSpace(s, q);
  }

  /** Where the parts of a printed clause lie: the field and keyword from `pos`, the operand part from `q`. */
  lemma ClauseLayout(s: string, pos: nat, lhs: string, op: string, rhs: Option<string>) returns (q: nat)
    requires Occurs(s, pos, ClauseText(lhs, op, rhs))
    ensures q == pos + |lhs| + 3 + |op| && Occurs(s, pos, "[" + lhs + "]" + (" " + op))
    ensures Occurs(s, q, Gap(rhs) + OperandText(op, rhs))
    ensures pos + |ClauseText(lhs, op, rhs)| == q + |Gap(rhs) + OperandText(op, rhs)|
  {
    var head := "[" + lhs + "]" + (" " + op);
    q := pos + |head|;
    ClauseTextSplit(lhs, op, rhs);
    OccursConcat(s, pos, head, Gap(rhs) + OperandText(op, rhs));
  }

  /** The clause sequence of the operator's own family reads a printed clause. */
  lemma FormParses(s: string, pos: nat, kind: Operand, lhs: string, op: string, rhs: Option<string>, q: nat, end: nat)
    requires AllIn(TextChars, lhs) && OperandShape(kind, op, rhs)
    requires Occurs(s, pos, "[" + lhs + "]" + (" " + op)) && q == pos + |lhs| + 3 + |op|
    requires Occurs(s, q, Gap(rhs) + OperandText(op, rhs)) && end == q + |Gap(rhs) + OperandText(op, rhs)|
    requires end < |s| && s[end] == ')'
    ensures Run(s, Form(kind), pos) == Success(Clause(lhs, op, rhs), end)
  {
    var p1 := pos + |lhs| + 2;
    ShapeOps(kind, op, rhs);
    FormPrefix(s, pos, kind, lhs, op, p1);
    if rhs.Some? {
      FormWithOperand(s, pos, kind, lhs, p1, op, q, rhs, end);
    } else {
      UnaryFormSteps(s, pos, lhs, p1, op, q);
    }
  }

  /** A clause sequence with an operand, once the field and its keyword are read. */
  lemma FormWithOperand(s: string, pos: nat, kind: Operand, lhs: string, p1: nat, op: string, q: nat, rhs: Option<string>, end: nat)
    requires rhs.Some? && OperandShape(kind, op, rhs)
    requires FieldRead(s, pos, lhs, p1)
    requires FirstOf(s, p1 + 1, OpsOf(kind)) == Success(op, q)
    requires Occurs(s, q, Gap(rhs) + OperandText(op, rhs)) && end == q + |Gap(rhs) + OperandText(op, rhs)|
    requires end < |s| && s[end] == ')'
    ensures Run(s, Form(kind), pos) == Success(Clause(lhs, op, rhs), end)
  {
    ShapeOps(kind, op, rhs);
    GapThenOperand(s, q, kind, op, rhs, end);
    OperandFormSteps(s, pos, kind, lhs, p1, op, q, rhs, end);
  }

  /** The clause sequence of another family fails on a printed clause: its keyword does not occur. */
  lemma FormFails(s: string, pos: nat, kind: Operand, lhs: string, op: string)
    requires AllIn(TextChars, lhs) && op in OpsOf(FamilyOf(op)) && kind != FamilyOf(op)
    requires Occurs(s, pos, "[" + lhs + "]" + (" " + op))
    ensures pos <= |s| && Run(s, Form(kind), pos).Failure?
  {
    var p1 := pos + |lhs| + 2;
    FormPrefix(s, pos, FamilyOf(op), lhs, op, p1);
    OtherKeywordFails(s, p1, kind, op);
    FormStops(s, pos, kind, lhs, p1);
  }

  /** After the space, no keyword of another family matches the operator. */
  lemma OtherKeywordFails(s: string, p1: nat, kind: Operand, op: string)
    requires op in OpsOf(FamilyOf(op)) && kind != FamilyOf(op)
    requires Occurs(s, p1, " " + op)
    ensures FirstOf(s, p1 + 1, OpsOf(kind)).Failure?
  {
    OccursConcat(s, p1, " ", op);
    FamiliesExclude(s, p1 + 1, op, kind);
    FirstOfFails(s, p1 + 1, OpsOf(kind));
  }

  /** The clause alternation reads a printed clause: the forms tried before its own do not match. */
  lemma ClauseParses(s: string, pos: nat, lhs: string, op: string, rhs: Option<string>, end: nat)
    requires WellFormedClause(lhs, op, rhs)
    requires Occurs(s, pos, ClauseText(lhs, op, rhs)) && end == pos + |ClauseText(lhs, op, rhs)|
    requires end < |s| && s[end] == ')'
    ensures pos <= |s| && Run(s, Bare(ClauseForms), pos) == Success(Clause(lhs, op, rhs), end)
  {
    var kind := FamilyOf(op);
    assert OperandShape(kind, op, rhs);
    var q := ClauseLayout(s, pos, lhs, op, rhs);
    FormParses(s, pos, kind, lhs, op, rhs, q, end);
    OtherFormsFail(s, pos, lhs, op);
    assert ClauseAlt(s, pos) == Success(Clause(lhs, op, rhs), end);
  }

  /** Every clause sequence of another family fails on a printed clause. */
  lemma OtherFormsFail(s: string, pos: nat, lhs: string, op: string)
    requires AllIn(TextChars, lhs) && op in OpsOf(FamilyOf(op))
    requires Occurs(s, pos, "[" + lhs + "]" + (" " + op))
    ensures pos <= |s|
    ensures FamilyOf(op) != QuotedOperand ==> Run(s, Form(QuotedOperand), pos).Failure?
    ensures FamilyOf(op) != DateOperand ==> Run(s, Form(DateOperand), pos).Failure?
    ensures FamilyOf(op) != NumberOperand ==> Run(s, Form(NumberOperand), pos).Failure?
  {
    var kind := FamilyOf(op);
    if kind != QuotedOperand {
      FormFails(s, pos, QuotedOperand, lhs, op);
    }
    if kind != DateOperand {
      FormFails(s, pos, DateOperand, lhs, op);
    }
    if kind != NumberOperand {
      FormFails(s, pos, NumberOperand, lhs, op);
    }
  }

  /** A body starts with `[` (a clause) or `C` (a count), never with `(`. */
  lemma BodyStart(w: Written)
    ensures |Body(w)| > 0
    ensures w.WClause? ==> Body(w)[0] == '['
    ensures w.WCount? ==> Body(w)[0] == 'C'
  {
    match w
    case WClause(_, lhs, op, rhs) =>
      var t := "[" + lhs + "]" + (" " + op + Gap(rhs));
      assert t[0] == '[';
    case WCount(_, c, op, n) =>
      var t := "Count" + Text(c);
      assert t[0] == 'C';
  }

  /** After the counted group: a space, the comparison, a space and the number. */
  lemma ThresholdRead(s: string, cEnd: nat, op: string, n: string, stop: nat)
    requires op in NumOps && |n| >= 1 && AllIn(NumberChars, n)
    requires Occurs(s, cEnd, " " + op + " ") && Occurs(s, cEnd + |op| + 2, n) && stop == cEnd + |op| + 2 + |n|
    requires stop < |s| && s[stop] == ')'
    ensures Threshold(s, cEnd) == Success((op, n), stop)
  {
    var q := cEnd + 1 + |op|;
    OccursConcat(s, cEnd, " " + op, " ");
    SpacedComparison(s, cEnd, op);
    SpacedNumber(s, q, n, stop);
    assert q + 1 == cEnd + |op| + 2;
    ThresholdSteps(s, cEnd, op, n, stop);
  }

  /** A space, then a comparison keyword: the whitespace and the keyword. */
  lemma SpacedComparison(s: string, cEnd: nat, op: string)
    requires op in NumOps && Occurs(s, cEnd, " " + op)
    ensures cEnd < |s| && Whitespace(s, cEnd) == Success((), cEnd + 1)
    ensures FirstOf(s, cEnd + 1, NumOps) == Success(op, cEnd + 1 + |op|)
  {
    OccursConcat(s, cEnd, " ", op);
    OccursAt(s, cEnd, " ", 0);
    OccursAt(s, cEnd + 1, op, 0);
    KeywordVisible(NumberOperand, op);
    OneSpace(s, cEnd);
    var k := EarliestKeyword(s, cEnd + 1, NumberOperand, op);
    FirstOfPicks(s, cEnd + 1, NumOps, k);
  }

  /** A space, then a number up to a closing parenthesis: the whitespace and the number. */
  lemma SpacedNumber(s: string, q: nat, n: string, stop: nat)
    requires |n| >= 1 && AllIn(NumberChars, n)
    requires Occurs(s, q, " ") && Occurs(s, q + 1, n) && stop == q + 1 + |n|
    requires stop < |s| && s[stop] == ')'
    ensures Whitespace(s, q) == Success((), q + 1) && Number(s, q + 1) == Success(n, stop)
  {
    OccursAt(s, q, " ", 0);
    OccursAt(s, q + 1, n, 0);
    OneSpace(s, q);
    NumberOf(s, q + 1, n);
  }

  /** `Threshold` succeeds when its four parts do, one after the other. */
  lemma ThresholdSteps(s: string, cEnd: nat, op: string, n: string, stop: nat)
    requires cEnd < |s| && Whitespace(s, cEnd) == Success((), cEnd + 1)
    requires FirstOf(s, cEnd + 1, NumOps) == Success(op, cEnd + 1 + |op|)
    requires Whitespace(s, cEnd + 1 + |op|) == Success((), cEnd + |op| + 2)
    requires Number(s, cEnd + |op| + 2) == Success(n, stop)
    ensures Threshold(s, cEnd) == Success((op, n), stop)
  {
  }

  /** The Count sequence succeeds when its parts do, one after the other. */
  lemma CountSteps(s: string, p: nat, c: Group, cEnd: nat, op: string, n: string, stop: nat)
    requires Occurs(s, p, "Count") && p + 5 <= cEnd
    requires Run(s, GroupRule, p + 5) == Success(c, cEnd)
    requires Threshold(s, cEnd) == Success((op, n), stop)
    ensures Run(s, Bare(CountSeq), p) == Success(Count(c, op, n), stop)
  {
    assert CountSeqRule(s, p) == Success(Count(c, op, n), stop);
  }

  /** `group` on a count: `countExpr` succeeds. */
  lemma GroupFromCount(s: string, pos: nat, v: Group, e: nat)
    requires pos <= |s| && Run(s, CountExpr, pos) == Success(v, e)
    ensures Run(s, GroupRule, pos) == Success(v, e)
  {
  }

  /** `group` on a clause: `countExpr` fails, `clause` succeeds. */
  lemma GroupFromClause(s: string, pos: nat, v: Group, e: nat)
    requires pos <= |s| && Run(s, CountExpr, pos).Failure? && Run(s, ClauseRule, pos) == Success(v, e)
    ensures Run(s, GroupRule, pos) == Success(v, e)
  {
  }

  /** `rule` reads `v` from `p` to `e`. */
  predicate Reads(s: string, rule: Rule, p: nat, v: Group, e: nat) {
    p <= |s| && Run(s, rule, p) == Success(v, e)
  }

  /** The body of a written group, read by its inner parser up to the first closing parenthesis. */
  lemma {:induction false} InnerReads(w: Written, s: string, p: nat, stop: nat)
    requires WellWritten(w) && Occurs(s, p, Body(w)) && stop == p + |Body(w)|
    requires stop < |s| && s[stop] == ')'
    ensures Reads(s, if w.WClause? then Bare(ClauseForms) else Bare(CountSeq), p, Erase(w), stop)
    decreases w, 0
  {
    match w
    case WClause(_, lhs, op, rhs) =>
      ClauseParses(s, p, lhs, op, rhs, stop);
    case WCount(_, c, op, n) =>
      var cEnd := p + 5 + |Text(c)|;
      CountLayout(s, p, Text(c), op, n, cEnd, cEnd + |op| + 2, stop);
      GroupRoundTrip(c, s, p + 5);
      CountInnerReads(s, p, Erase(c), cEnd, op, n, stop);
  }

  /** A printed count's body once its counted group is read. */
  lemma CountInnerReads(s: string, p: nat, c: Group, cEnd: nat, op: string, n: string, stop: nat)
    requires op in NumOps && |n| >= 1 && AllIn(NumberChars, n)
    requires Occurs(s, p, "Count") && p + 5 <= cEnd && Run(s, GroupRule, p + 5) == Success(c, cEnd)
    requires Occurs(s, cEnd, " " + op + " ") && Occurs(s, cEnd + |op| + 2, n) && stop == cEnd + |op| + 2 + |n|
    requires stop < |s| && s[stop] == ')'
    ensures Run(s, Bare(CountSeq), p) == Success(Count(c, op, n), stop)
  {
    ThresholdRead(s, cEnd, op, n, stop);
    CountSteps(s, p, c, cEnd, op, n, stop);
  }

  /** The layers around a body: opening parentheses, the body, closing parentheses. */
  lemma Layers(s: string, pos: nat, d: nat, b: string)
    requires Occurs(s, pos, Wrap(d, b)) && d >= 1 && |b| > 0
    ensures Opens(s, pos, d) && Occurs(s, pos + d, b) && pos + d < |s| && s[pos + d] == b[0]
    ensures pos + d + |b| < |s| && s[pos + d + |b|] == ')' && Closes(s, pos + d + |b|, d)
    ensures |Wrap(d, b)| == 2 * d + |b|
  {
    WrapNest(s, pos, d, b);
    WrapInside(s, pos, d, b);
    NestSplit(s, pos, d, pos + d + |b|);
    OccursAt(s, pos + d, b, 0);
  }

  /** `group` on a clause in `d` layers: `countExpr` fails at the `[`, `clause` unwraps the layers. */
  lemma GroupOfClause(s: string, pos: nat, d: nat, v: Group, stop: nat)
    requires d >= 1 && Opens(s, pos, d) && pos + d < |s| && s[pos + d] == '['
    requires Reads(s, Bare(ClauseForms), pos + d, v, stop) && Closes(s, stop, d)
    ensures Run(s, GroupRule, pos) == Success(v, stop + d)
  {
    UnwrapClosed(s, pos, d, pos + d, ClauseForms, v, stop);
    CountNeedsKeyword(s, pos + d);
    UnwrapFails(s, pos, d, pos + d, CountSeq);
    GroupFromClause(s, pos, v, stop + d);
  }

  /** `group` on a count in `d` layers: `countExpr` unwraps the layers. */
  lemma GroupOfCount(s: string, pos: nat, d: nat, v: Group, stop: nat)
    requires d >= 1 && Opens(s, pos, d) && pos + d < |s| && s[pos + d] == 'C'
    requires Reads(s, Bare(CountSeq), pos + d, v, stop) && Closes(s, stop, d)
    ensures Run(s, GroupRule, pos) == Success(v, stop + d)
  {
    UnwrapClosed(s, pos, d, pos + d, CountSeq, v, stop);
    GroupFromCount(s, pos, v, stop + d);
  }

  /** `group` reads a printed group back, whatever its layers. */
  lemma {:induction false} GroupRoundTrip(w: Written, s: string, pos: nat)
    requires WellWritten(w) && Occurs(s, pos, Text(w))
    ensures pos + |Text(w)| <= |s| && Run(s, GroupRule, pos) == Success(Erase(w), pos + |Text(w)|)
    decreases w, 1
  {
    var d := w.layers;
    var b := Body(w);
    var stop := pos + d + |b|;
    BodyStart(w);
    Layers(s, pos, d, b);
    InnerReads(w, s, pos + d, stop);
    if w.WClause? {
      GroupOfClause(s, pos, d, Erase(w), stop);
    } else {
      GroupOfCount(s, pos, d, Erase(w), stop);
    }
  }

  /**
   * A printed group with one more `(` before it and a space where its `)`
   * would be: the layers and the body, and the body read by its inner parser.
   */
  lemma OpenLayers(w: Written, s: string, q: nat) returns (d: nat, stop: nat)
    requires WellWritten(w) && Occurs(s, q, "(" + Text(w) + " ")
    ensures Opens(s, q, d) && q + d < |s| && s[q + d] == Body(w)[0]
    ensures Reads(s, if w.WClause? then Bare(ClauseForms) else Bare(CountSeq), q + d, Erase(w), stop)
    ensures !Closes(s, stop, d)
  {
    BodyStart(w);
    d, stop := OpenWrap(s, q, w.layers, Body(w));
    InnerReads(w, s, q + d, stop);
  }

  /** `(`, then `k >= 1` layers around `b`, then a space: `k + 1` openings and only `k` closings. */
  lemma OpenWrap(s: string, q: nat, k: nat, b: string) returns (d: nat, stop: nat)
    requires k >= 1 && |b| > 0 && Occurs(s, q, "(" + Wrap(k, b) + " ")
    ensures d == k + 1 && stop == q + d + |b|
    ensures Opens(s, q, d) && Occurs(s, q + d, b) && q + d < |s| && s[q + d] == b[0]
    ensures stop < |s| && s[stop] == ')' && !Closes(s, stop, d)
  {
    d, stop := k + 1, q + k + 1 + |b|;
    OccursConcat(s, q, "(" + Wrap(k, b), " ");
    OccursConcat(s, q, "(", Wrap(k, b));
    OccursAt(s, q, "(", 0);
    Layers(s, q + 1, k, b);
    OccursAt(s, q + 1 + |Wrap(k, b)|, " ", 0);
  }

  /**
   * `group` fails on a printed group that has an extra `(` before it but is
   * followed by a space instead of the matching `)`: the layer whose deeper
   * layers succeeded does not close, and `unwrapParens` does not retry.
   */
  lemma OpenGroupFails(w: Written, s: string, q: nat)
    requires WellWritten(w) && Occurs(s, q, "(" + Text(w) + " ")
    ensures q <= |s| && Run(s, GroupRule, q).Failure?
  {
    var d, stop := OpenLayers(w, s, q);
    BodyStart(w);
    if w.WClause? {
      OpenClauseFails(s, q, d, Erase(w), stop);
    } else {
      OpenCountFails(s, q, d, Erase(w), stop);
    }
  }

  /** `group` on a clause in `d` layers that do not all close: both alternatives fail. */
  lemma OpenClauseFails(s: string, q: nat, d: nat, v: Group, stop: nat)
    requires d >= 1 && Opens(s, q, d) && q + d < |s| && s[q + d] == '['
    requires Reads(s, Bare(ClauseForms), q + d, v, stop) && !Closes(s, stop, d)
    ensures Run(s, GroupRule, q).Failure?
  {
    UnwrapUnclosed(s, q, d, q + d, ClauseForms, v, stop);
    CountNeedsKeyword(s, q + d);
    UnwrapFails(s, q, d, q + d, CountSeq);
    GroupFails(s, q);
  }

  /** `group` on a count in `d` layers that do not all close: both alternatives fail. */
  lemma OpenCountFails(s: string, q: nat, d: nat, v: Group, stop: nat)
    requires d >= 1 && Opens(s, q, d) && q + d < |s| && s[q + d] == 'C'
    requires Reads(s, Bare(CountSeq), q + d, v, stop) && !Closes(s, stop, d)
    ensures Run(s, GroupRule, q).Failure?
  {
    UnwrapUnclosed(s, q, d, q + d, CountSeq, v, stop);
    ClauseNeedsField(s, q + d);
    UnwrapFails(s, q, d, q + d, ClauseForms);
    GroupFails(s, q);
  }

  /** `group` fails when both `countExpr` and `clause` do. */
  lemma GroupFails(s: string, pos: nat)
    requires pos <= |s| && Run(s, CountExpr, pos).Failure? && Run(s, ClauseRule, pos).Failure?
    ensures Run(s, GroupRule, pos).Failure?
  {
  }

  /** A printed group starts with its first opening parenthesis. */
  lemma TextStart(w: Written)
    requires w.layers >= 1
    ensures |Text(w)| > 0 && Text(w)[0] == '('
  {
    assert Text(w) == Paren(Wrap(w.layers - 1, Body(w)));
  }

  /**
   * `condOp` takes a connective with any whitespace, or none, on either
   * side: the whitespace around AND/OR is optional.
   */
  lemma CondOpSpacing(s: string, p: nat, op: string, before: string, after: string)
    requires op in CondOps && AllIn(WhitespaceChars, before) && AllIn(WhitespaceChars, after)
    requires Occurs(s, p, before + op + after)
    requires var q := p + |before| + |op| + |after|; q == |s| || !IsWhitespace(s[q])
    ensures p <= |s| && CondOp(s, p) == Success(op, p + |before| + |op| + |after|)
  {
    var k := if op == "AND" then 0 else 1;
    OccursConcat(s, p, before + op, after);
    OccursConcat(s, p, before, op);
    if k == 1 {
      Clash(s, p + |before|, op, CondOps[0], 0);
    }
    OperatorOf(s, p, CondOps, k, before, after);
    CondOpIsOperator(s, p);
  }

  /** No connective at the end of the input. */
  lemma CondOpAtEnd(s: string)
    ensures CondOp(s, |s|).Failure?
  {
    CondOpIsOperator(s, |s|);
  }

  /** `cond` succeeds when the connective and the group after it do. */
  lemma CondStep(s: string, p: nat, op: string, q: nat, g: Group, e: nat)
    requires p <= q <= |s| && CondOp(s, p) == Success(op, q) && Reads(s, GroupRule, q, g, e)
    ensures Cond(s, p) == Success((op, g), e)
  {
  }

  /** `cond.many()` takes one more `cond` and goes on after it. */
  lemma CondsStep(s: string, p: nat, pair: (string, Group), e: nat, rest: seq<(string, Group)>, end: nat)
    requires p <= e <= |s| && Cond(s, p) == Success(pair, e) && Conds(s, e) == Success(rest, end)
    ensures Conds(s, p) == Success([pair] + rest, end)
  {
  }

  /** Where the parts of a printed tail lie: the connective, the group from `q`, the rest from `e`. */
  lemma TailLayout(s: string, pos: nat, rest: seq<(string, Written)>) returns (q: nat, e: nat)
    requires |rest| > 0 && Occurs(s, pos, Tail(rest))
    ensures q == pos + |rest[0].0| + 2 && e == q + |Text(rest[0].1)|
    ensures Occurs(s, pos, " " + rest[0].0 + " ") && Occurs(s, q, Text(rest[0].1))
    ensures Occurs(s, e, Tail(rest[1..])) && pos + |Tail(rest)| == e + |Tail(rest[1..])|
  {
    var c := " " + rest[0].0 + " ";
    q, e := pos + |c|, pos + |c| + |Text(rest[0].1)|;
    OccursConcat(s, pos, c + Text(rest[0].1), Tail(rest[1..]));
    OccursConcat(s, pos, c, Text(rest[0].1));
  }

  /** `cond` reads a printed connective and the group after it. */
  lemma CondRead(s: string, pos: nat, op: string, q: nat, g: Group, e: nat)
    requires op in CondOps && Occurs(s, pos, " " + op + " ") && q == pos + |op| + 2
    requires q < |s| && s[q] == '(' && Reads(s, GroupRule, q, g, e)
    ensures Cond(s, pos) == Success((op, g), e)
  {
    GrammarRender.ConnectiveOf(s, pos, op);
    CondOpIsOperator(s, pos);
    CondStep(s, pos, op, q, g, e);
  }

  /** A printed group opens with `(` and `group` reads it back. */
  lemma GroupAt(w: Written, s: string, q: nat)
    requires WellWritten(w) && Occurs(s, q, Text(w))
    ensures q < |s| && s[q] == '(' && Reads(s, GroupRule, q, Erase(w), q + |Text(w)|)
  {
    TextStart(w);
    OccursAt(s, q, Text(w), 0);
    GroupRoundTrip(w, s, q);
  }

  /** `cond.many()` reads a printed tail that runs to the end of the input. */
  lemma {:induction false} CondsRoundTrip(rest: seq<(string, Written)>, s: string, pos: nat)
    requires WellWrittenPairs(rest) && Occurs(s, pos, Tail(rest)) && pos + |Tail(rest)| == |s|
    ensures Conds(s, pos) == Success(ErasePairs(rest), |s|)
    decreases |rest|
  {
    if |rest| == 0 {
      CondOpAtEnd(s);
    } else {
      var e := CondHead(rest, s, pos);
      CondsRoundTrip(rest[1..], s, e);
      CondsStep(s, pos, (rest[0].0, Erase(rest[0].1)), e, ErasePairs(rest[1..]), |s|);
    }
  }

  /** The first `cond` of a printed tail, and where the rest of the tail starts. */
  lemma CondHead(rest: seq<(string, Written)>, s: string, pos: nat) returns (e: nat)
    requires |rest| > 0 && WellWrittenPairs(rest) && Occurs(s, pos, Tail(rest))
    ensures pos <= e <= |s| && Cond(s, pos) == Success((rest[0].0, Erase(rest[0].1)), e)
    ensures Occurs(s, e, Tail(rest[1..])) && pos + |Tail(rest)| == e + |Tail(rest[1..])|
  {
    var q;
    q, e := TailLayout(s, pos, rest);
    GroupAt(rest[0].1, s, q);
    CondRead(s, pos, rest[0].0, q, Erase(rest[0].1), e);
  }

  /** `filter` on a group followed by `cond`s to the end of the input. */
  lemma FilterSteps(s: string, g: Group, p: nat, pairs: seq<(string, Group)>)
    requires Reads(s, GroupRule, 0, g, p) && Conds(s, p) == Success(pairs, |s|)
    ensures ParseFilter(s) == Some(Items([Term(g)] + Flat(pairs)))
  {
  }

  /**
   * The local `parseFilter` reads a printed list back as the flat list of
   * its groups and connectives, whatever the layers around each group; a
   * single group comes back as a one-element list.
   */
  lemma EarlyRoundTrip(first: Written, rest: seq<(string, Written)>)
    requires WellWritten(first) && WellWrittenPairs(rest)
    ensures ParseFilter(ListText(first, rest)) == Some(Items([Term(Erase(first))] + Flat(ErasePairs(rest))))
  {
    var s := ListText(first, rest);
    var n := |Text(first)|;
    Halves(s, Text(first), Tail(rest));
    GroupRoundTrip(first, s, 0);
    assert Reads(s, GroupRule, 0, Erase(first), n);
    CondsRoundTrip(rest, s, n);
    FilterSteps(s, Erase(first), n, ErasePairs(rest));
  }

  /** A text made of two parts holds the first at its start and the second after it. */
  lemma Halves(s: string, a: string, b: string)
    requires s == a + b
    ensures Occurs(s, 0, a) && Occurs(s, |a|, b) && |a| + |b| == |s|
  {
    assert s[0..|s|] == s;
    OccursConcat(s, 0, a, b);
  }

  /** `cond.many()` stops at once when the group after the connective fails. */
  lemma CondsStop(s: string, p: nat, op: string, q: nat)
    requires op in CondOps && Occurs(s, p, " " + op + " ") && q == p + |op| + 2
    requires q < |s| && s[q] == '(' && Run(s, GroupRule, q).Failure?
    ensures Conds(s, p) == Success([], p)
  {
    GrammarRender.ConnectiveOf(s, p, op);
    CondOpIsOperator(s, p);
  }

  /** `filter` stops before the end of the input: the local `parseFilter` fails. */
  lemma FilterStops(s: string, g: Group, p: nat)
    requires Reads(s, GroupRule, 0, g, p) && p < |s| && Conds(s, p) == Success([], p)
    ensures ParseFilter(s) == None
  {
  }

  /**
   * A parenthesised list after a connective is rejected: the `(` before its
   * first group opens a layer that the space after that group does not
   * close, so `cond` fails there and the input is not consumed. This is the
   * skipped "nested or" case: the local `parseFilter` has no nested lists.
   */
  lemma NestedListRejected(first: Written, op: string, inner: Written, rest: string)
    requires WellWritten(first) && WellWritten(inner) && op in CondOps
    ensures ParseFilter(Text(first) + (" " + op + " ") + ("(" + Text(inner) + " " + rest)) == None
  {
    var s := Text(first) + (" " + op + " ") + ("(" + Text(inner) + " " + rest);
    var n := |Text(first)|;
    var q := NestedLayout(s, Text(first), op, Text(inner), rest);
    GroupRoundTrip(first, s, 0);
    OpenGroupFails(inner, s, q);
    CondsStop(s, n, op, q);
    FilterStops(s, Erase(first), n);
  }

  /** Where the parts of a list with a parenthesised tail lie. */
  lemma NestedLayout(s: string, a: string, op: string, b: string, rest: string) returns (q: nat)
    requires s == a + (" " + op + " ") + ("(" + b + " " + rest)
    ensures q == |a| + |op| + 2 && Occurs(s, 0, a) && Occurs(s, |a|, " " + op + " ")
    ensures Occurs(s, q, "(" + b + " ") && q < |s| && s[q] == '('
  {
    q := |a| + |op| + 2;
    assert s[0..|s|] == s;
    OccursConcat(s, 0, a + (" " + op + " "), "(" + b + " " + rest);
    OccursConcat(s, 0, a, " " + op + " ");
    OccursConcat(s, q, "(" + b + " ", rest);
    OccursAt(s, q, "(" + b + " ", 0);
  }
}
