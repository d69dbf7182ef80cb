/**
 * The vocabulary both revisions of the grammar share: the operator tables,
 * the four operand families, the operand parsers, and the written form of a
 * single clause. parse.ts and parse.test.ts each declare these tables with
 * the same keywords; only the order in which the clause forms are tried
 * differs, and that order lives with each grammar.
 */
module Operands {
  import opened Atoms

  const UnaryOps: seq<string> := ["is null"]
  const BinaryOps: seq<string> := ["is equal to", "is not equal to"]
  const NumOps: seq<string> := ["<", ">"]
  const DateOps: seq<string> := ["is before"]
  const CondOps: seq<string> := ["AND", "OR"]

  /** The operand that follows the operator in each of the four clause sequences. */
  datatype Operand = NoOperand | QuotedOperand | NumberOperand | DateOperand

  /** What a clause of each operand kind may hold. */
  predicate OperandShape(kind: Operand, op: string, rhs: Option<string>) {
    match kind
    case NoOperand => op in UnaryOps && rhs.None?
    case QuotedOperand => op in BinaryOps && rhs.Some? && AllIn(TextChars, rhs.value)
    case NumberOperand => op in NumOps && rhs.Some? && |rhs.value| >= 1 && AllIn(NumberChars, rhs.value)
    case DateOperand => op in DateOps && rhs.Some? && AllIn(TextChars, rhs.value)
  }

  /** A clause either grammar can produce: text field, and an operator with the operand of its family. */
  predicate WellFormedClause(lhs: string, op: string, rhs: Option<string>) {
    && AllIn(TextChars, lhs)
    && (|| OperandShape(NoOperand, op, rhs) || OperandShape(QuotedOperand, op, rhs)
        || OperandShape(NumberOperand, op, rhs) || OperandShape(DateOperand, op, rhs))
  }

  /** The operator table of each family. */
  function OpsOf(kind: Operand): seq<string> {
    match kind
    case NoOperand => UnaryOps
    case QuotedOperand => BinaryOps
    case NumberOperand => NumOps
    case DateOperand => DateOps
  }

  /** An operand as the parser of its family finds it: quoted, between hashes, or bare. */
  function Enclosed(kind: Operand, t: string): string {
    match kind
    case QuotedOperand => "\"" + t + "\""
    case DateOperand => "#" + t + "#"
    case _ => t
  }

  /**
   * The operand parser of each family: none, `quoted`, `number` or `date`.
   * Only the unary family yields no operand; the others return the text
   * verbatim, from the class of their atom.
   */
  function OperandOf(s: string, pos: nat, kind: Operand): (r: Reply<Option<string>>)
    requires pos <= |s|
    ensures kind == NoOperand ==> r == Success(None, pos)
    ensures r.Success? && kind != NoOperand ==>
              && r.value.Some? && Occurs(s, pos, Enclosed(kind, r.value.value))
              && r.next == pos + |Enclosed(kind, r.value.value)|
              && AllIn(if kind == NumberOperand then NumberChars else TextChars, r.value.value)
              && (kind == NumberOperand ==> |r.value.value| >= 1)
  {
    match kind
    case NoOperand => Success(None, pos)
    case QuotedOperand => Present(Quoted(s, pos))
    case NumberOperand => Present(Number(s, pos))
    case DateOperand => Present(Date(s, pos))
  }

  function Present(a: Reply<string>): Reply<Option<string>> {
    match a
    case Failure => Failure
    case Success(t, p) => Success(Some(t), p)
  }

  /** Which family each operator belongs to; the families are disjoint. */
  function FamilyOf(op: string): Operand {
    if op in UnaryOps then NoOperand
    else if op in BinaryOps then QuotedOperand
    else if op in NumOps then NumberOperand
    else DateOperand
  }

  /** Where a keyword of one family occurs, no keyword of another family does. */
  lemma FamiliesExclude(s: string, p: nat, op: string, other: Operand)
    requires op in OpsOf(FamilyOf(op)) && other != FamilyOf(op) && Occurs(s, p, op)
    ensures forall j :: 0 <= j < |OpsOf(other)| ==> !Occurs(s, p, OpsOf(other)[j])
  {
    forall j | 0 <= j < |OpsOf(other)| ensures !Occurs(s, p, OpsOf(other)[j]) {
      var w := OpsOf(other)[j];
      if op[0] != w[0] {
        Clash(s, p, op, w, 0);
      } else if op[3] != w[3] {
        Clash(s, p, op, w, 3);
      } else {
        Clash(s, p, op, w, 4);
      }
    }
  }

  /** The keyword's position in its table, with no earlier keyword matching where it occurs. */
  lemma EarliestKeyword(s: string, p: nat, kind: Operand, op: string) returns (k: nat)
    requires op in OpsOf(kind) && Occurs(s, p, op)
    ensures k < |OpsOf(kind)| && OpsOf(kind)[k] == op
    ensures forall j :: 0 <= j < k ==> !Occurs(s, p, OpsOf(kind)[j])
  {
    var strs := OpsOf(kind);
    k :| 0 <= k < |strs| && strs[k] == op;
    if k == 1 {
      if kind == QuotedOperand {
        Clash(s, p, op, strs[0], 3);
      } else {
        Clash(s, p, op, strs[0], 0);
      }
    }
  }

  /** Every keyword of the four clause tables is non-empty and starts with a visible character. */
  lemma KeywordVisible(kind: Operand, op: string)
    requires op in OpsOf(kind)
    ensures |op| > 0 && !IsWhitespace(op[0])
  {
  }

  /** An operand in the delimiters of its family: quotes, hashes, or none for a number. */
  function Delimited(op: string, t: string): string {
    if op in BinaryOps then "\"" + t + "\""
    else if op in DateOps then "#" + t + "#"
    else t
  }

  /** The space between operator and operand, absent for the unary form. */
  function Gap(rhs: Option<string>): string {
    if rhs.Some? then " " else ""
  }

  /** The written operand, empty for the unary form. */
  function OperandText(op: string, rhs: Option<string>): string {
    match rhs
    case None => ""
    case Some(t) => Delimited(op, t)
  }

  /** A clause as written: the field in brackets, one space, the keyword, one space and the operand. */
  function ClauseText(lhs: string, op: string, rhs: Option<string>): string {
    "[" + lhs + "]" + (" " + op + Gap(rhs)) + OperandText(op, rhs)
  }

  /** The printed operand is what the operand parser of the clause's family reads. */
  lemma OperandParses(s: string, p: nat, kind: Operand, op: string, rhs: Option<string>, end: nat)
    requires OperandShape(kind, op, rhs)
    requires Occurs(s, p, OperandText(op, rhs)) && end == p + |OperandText(op, rhs)|
    requires end == |s| || !IsNumberChar(s[end])
    ensures OperandOf(s, p, kind) == Success(rhs, end)
    ensures rhs.Some? ==> p < |s| && !IsWhitespace(s[p])
  {
    var rest := OperandText(op, rhs);
    if rhs.Some? {
      var t := rhs.value;
      OccursAt(s, p, rest, 0);
      match kind
      case QuotedOperand =>
        assert rest == ['"'] + t + ['"'];
        WrappedOf(s, p, '"', '"', t);
      case DateOperand =>
        assert rest == ['#'] + t + ['#'];
        WrappedOf(s, p, '#', '#', t);
      case NumberOperand =>
        assert rest == t;
        NumberOf(s, p, t);
    }
  }

  /** The field and keyword of a written clause are a prefix of it. */
  lemma KeywordPrefix(s: string, pos: nat, lhs: string, op: string, rhs: Option<string>)
    requires Occurs(s, pos, ClauseText(lhs, op, rhs))
    ensures Occurs(s, pos, "[" + lhs + "]" + (" " + op))
  {
    var field := "[" + lhs + "]";
    OccursConcat(s, pos, field + (" " + op + Gap(rhs)), OperandText(op, rhs));
    OccursConcat(s, pos, field, " " + op + Gap(rhs));
    OccursConcat(s, pos + |field|, " " + op, Gap(rhs));
    OccursConcat(s, pos, field, " " + op);
  }

  /** Where the parts of a printed count lie. */
  lemma CountLayout(s: string, p: nat, rc: string, op: string, n: string, cEnd: nat, q: nat, stop: nat)
    requires Occurs(s, p, "Count" + rc + (" " + op + " ") + n)
    requires cEnd == p + 5 + |rc| && q == cEnd + |op| + 2 && stop == q + |n|
    ensures Occurs(s, p, "Count") && Occurs(s, p + 5, rc) && Occurs(s, cEnd, " " + op + " ") && Occurs(s, q, n)
  {
    OccursConcat(s, p, "Count" + rc + (" " + op + " "), n);
    OccursConcat(s, p, "Count" + rc, " " + op + " ");
    OccursConcat(s, p, "Count", rc);
  }
}
