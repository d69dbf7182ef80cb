/**
 * The earlier revision of the grammar: the `parseFilter` declared locally in
 * parse.test.ts, which its jest cases exercise. Its clause parts are
 * separated by mandatory whitespace, every group sits in one or more layers
 * of parentheses (`unwrapParens`), a group is a Count or a clause, and an
 * AND/OR chain comes out as a flat alternating list.
 */
module EarlyGrammar {
  import opened Atoms
  import opened Operands

  /**
   * What `group` produces: a clause `{ lhs, op, rhs }` (`rhs` undefined for
   * the unary form) or a count `{ type: "Count", clause, op, rhs }`, whose
   * `clause` is again a group (`threshold` is the count's `rhs`).
   */
  datatype Group =
    | Clause(lhs: string, op: string, rhs: Option<string>)
    | Count(clause: Group, op: string, threshold: string)

  /** An element of the list `conditional` returns: a group or a connective keyword. */
  datatype Item = Term(group: Group) | Connective(word: string)

  /**
   * What `filter` produces: the list of `conditional`, or the bare group of
   * its second alternative (which `FilterItems` shows is never taken).
   */
  datatype Outcome = Items(items: seq<Item>) | Single(single: Group)

  /** The groups the grammar can produce. */
  predicate WellFormedGroup(g: Group) {
    match g
    case Clause(lhs, op, rhs) => WellFormedClause(lhs, op, rhs)
    case Count(c, op, n) => op in NumOps && |n| >= 1 && AllIn(NumberChars, n) && WellFormedGroup(c)
  }

  /** A group, a connective, a group, ...: the shape of the list `conditional` returns. */
  predicate Alternating(items: seq<Item>)
    decreases |items|
  {
    && |items| >= 1 && items[0].Term? && WellFormedGroup(items[0].group)
    && (|items| == 1 || (|items| >= 3 && items[1].Connective? && items[1].word in CondOps && Alternating(items[2..])))
  }

  /** `.flat()` over the `[connective, group]` pairs that `cond.many()` collected. */
  function Flat(pairs: seq<(string, Group)>): (items: seq<Item>)
    ensures |items| == 2 * |pairs|
  {
    if |pairs| == 0 then [] else [Connective(pairs[0].0), Term(pairs[0].1)] + Flat(pairs[1..])
  }

  /**
   * `stringClause`, `dateClause`, `numClause`, `unaryClause`: the field and
   * the keyword each followed by `P.whitespace` (one or more whitespace
   * characters), then the operand; the unary form ends at its keyword.
   */
  function FormSeq(s: string, pos: nat, kind: Operand): (r: Reply<Group>)
    requires pos <= |s|
    ensures r.Success? ==> pos < r.next <= |s| && r.value.Clause?
                           && AllIn(TextChars, r.value.lhs) && OperandShape(kind, r.value.op, r.value.rhs)
    ensures r.Success? ==> var g := pos + |r.value.lhs| + 2; g < |s| && IsWhitespace(s[g])
  {
    match Field(s, pos)
    case Failure => Failure
    case Success(lhs, p) =>
      match Whitespace(s, p)
      case Failure => Failure
      case Success(_, p') =>
        match FirstOf(s, p', OpsOf(kind))
        case Failure => Failure
        case Success(op, q) =>
          if kind == NoOperand then Success(Clause(lhs, op, None), q)
          else
            match Whitespace(s, q)
            case Failure => Failure
            case Success(_, q') =>
              match OperandOf(s, q', kind)
              case Failure => Failure
              case Success(rhs, e) =>
                assert rhs.Some?;
                Success(Clause(lhs, op, rhs), e)
  }

  /** The two parsers `unwrapParens` is applied to. */
  datatype Inner =
    /** the clause alternation */
    | ClauseForms
    /** `P.seq(P.string("Count"), group, numOp, number)` */
    | CountSeq

  /** The parsers that `group` and `unwrapParens` are built from. */
  datatype Rule =
    /** one of the four clause sequences */
    | Form(kind: Operand)
    /** `inner` itself, before `unwrapParens` */
    | Bare(inner: Inner)
    /** `unwrapParens(inner)`: one or more layers */
    | Unwrap(inner: Inner)
    /** `group`: `countExpr.or(clause)` */
    | GroupRule

  /** `countExpr`. */
  const CountExpr: Rule := Unwrap(CountSeq)
  /** `clause`. */
  const ClauseRule: Rule := Unwrap(ClauseForms)

  function Rank(rule: Rule): nat {
    if rule == GroupRule || rule == Bare(ClauseForms) then 1 else 0
  }

  /** Runs `rule` at `pos`; every success consumes input and yields a well-formed group. */
  function Run(s: string, rule: Rule, pos: nat): (r: Reply<Group>)
    requires pos <= |s|
    ensures r.Success? ==> pos < r.next <= |s| && WellFormedGroup(r.value)
    decreases |s| - pos, Rank(rule), 2
  {
    match rule
    case Form(kind) => FormSeq(s, pos, kind)
    case Bare(inner) => InnerRule(s, inner, pos)
    case Unwrap(inner) => UnwrapRule(s, inner, pos)
    case GroupRule => GroupAlt(s, pos)
  }

  /** The parser `unwrapParens` was given. */
  function InnerRule(s: string, inner: Inner, pos: nat): (r: Reply<Group>)
    requires pos <= |s|
    ensures r.Success? ==> pos < r.next <= |s| && WellFormedGroup(r.value)
    decreases |s| - pos, Rank(Bare(inner)), 1
  {
    match inner
    case ClauseForms => ClauseAlt(s, pos)
    case CountSeq => CountSeqRule(s, pos)
  }

  /** `P.alt(stringClause, dateClause, numClause, unaryClause)`. */
  function ClauseAlt(s: string, pos: nat): (r: Reply<Group>)
    requires pos <= |s|
    ensures r.Success? ==> pos < r.next <= |s| && r.value.Clause?
                           && WellFormedClause(r.value.lhs, r.value.op, r.value.rhs)
    decreases |s| - pos, Rank(Bare(ClauseForms)), 0
  {
    var b := Run(s, Form(QuotedOperand), pos);
    if b.Success? then b else
    var d := Run(s, Form(DateOperand), pos);
    if d.Success? then d else
    var n := Run(s, Form(NumberOperand), pos);
    if n.Success? then n else
    Run(s, Form(NoOperand), pos)
  }

  /**
   * `Count`, a group followed by whitespace, a comparison keyword followed
   * by whitespace, and a number.
   */
  function CountSeqRule(s: string, pos: nat): (r: Reply<Group>)
    requires pos <= |s|
    ensures r.Success? ==> pos < r.next <= |s| && WellFormedGroup(r.value) && r.value.Count?
    decreases |s| - pos, Rank(Bare(CountSeq)), 0
  {
    match Str(s, pos, "Count")
    case Failure => Failure
    case Success(_, g) =>
      match Run(s, GroupRule, g)
      case Failure => Failure
      case Success(c, p) =>
        match Threshold(s, p)
        case Failure => Failure
        case Success((op, n), e) => Success(Count(c, op, n), e)
  }

  /** What follows the counted group: whitespace, a comparison keyword, whitespace and a number. */
  function Threshold(s: string, pos: nat): (r: Reply<(string, string)>)
    requires pos <= |s|
    ensures r.Success? ==> pos < r.next <= |s| && r.value.0 in NumOps && |r.value.1| >= 1
                           && AllIn(NumberChars, r.value.1)
  {
    match Whitespace(s, pos)
    case Failure => Failure
    case Success(_, p) =>
      match FirstOf(s, p, NumOps)
      case Failure => Failure
      case Success(op, q) =>
        match Whitespace(s, q)
        case Failure => Failure
        case Success(_, q') =>
          match Number(s, q')
          case Failure => Failure
          case Success(n, e) => Success((op, n), e)
  }

  /**
   * `unwrapParens(inner)`: `(`, then a deeper layer (tried first) or `inner`,
   * then `)`. Once the deeper layer has succeeded, a missing `)` fails the
   * layer: nothing is retried.
   */
  function UnwrapRule(s: string, inner: Inner, pos: nat): (r: Reply<Group>)
    requires pos <= |s|
    ensures r.Success? ==> pos < r.next <= |s| && WellFormedGroup(r.value)
    decreases |s| - pos, Rank(Unwrap(inner)), 0
  {
    if pos < |s| && s[pos] == '(' then
      var deeper := Run(s, Unwrap(inner), pos + 1);
      SkipClose(s, if deeper.Success? then deeper else Run(s, Bare(inner), pos + 1))
    else Failure
  }

  /** `group`: `countExpr.or(clause)`. */
  function GroupAlt(s: string, pos: nat): (r: Reply<Group>)
    requires pos <= |s|
    ensures r.Success? ==> pos < r.next <= |s| && WellFormedGroup(r.value)
    decreases |s| - pos, Rank(GroupRule), 0
  {
    var c := Run(s, CountExpr, pos);
    if c.Success? then c else Run(s, ClauseRule, pos)
  }

  /** `P.string(word).trim(P.optWhitespace)`. */
  function Trimmed(s: string, pos: nat, word: string): (r: Reply<string>)
    requires pos <= |s|
    ensures r.Success? <==> Occurs(s, OptWhitespace(s, pos), word)
    ensures r.Success? ==> r.value == word && pos <= r.next <= |s|
  {
    var p := OptWhitespace(s, pos);
    match Str(s, p, word)
    case Failure => Failure
    case Success(w, q) => Success(w, OptWhitespace(s, q))
  }

  /** `condOp`: `AND`, else `OR`, each with optional whitespace on both sides. */
  function CondOp(s: string, pos: nat): (r: Reply<string>)
    requires pos <= |s|
    ensures r.Success? ==> pos <= r.next <= |s|
  {
    var a := Trimmed(s, pos, "AND");
    if a.Success? then a else Trimmed(s, pos, "OR")
  }

  /** `cond`: a connective and the group after it. */
  function Cond(s: string, pos: nat): (r: Reply<(string, Group)>)
    requires pos <= |s|
    ensures r.Success? ==> pos < r.next <= |s| && r.value.0 in CondOps && WellFormedGroup(r.value.1)
  {
    match CondOp(s, pos)
    case Failure => Failure
    case Success(op, p) =>
      CondOpIsOperator(s, pos);
      match Run(s, GroupRule, p)
      case Failure => Failure
      case Success(g, e) => Success((op, g), e)
  }

  /**
   * `cond.many()`: the `[connective, group]` pairs of `cond`, as long as it
   * succeeds; it stops before the first `cond` that fails, so it always
   * succeeds.
   */
  function Conds(s: string, pos: nat): (r: Reply<seq<(string, Group)>>)
    requires pos <= |s|
    ensures r.Success? && pos <= r.next <= |s|
    ensures forall i :: 0 <= i < |r.value| ==> r.value[i].0 in CondOps && WellFormedGroup(r.value[i].1)
    decreases |s| - pos
  {
    match Cond(s, pos)
    case Failure => Success([], pos)
    case Success(pair, p) =>
      var rest := Conds(s, p);
      Success([pair] + rest.value, rest.next)
  }

  /** `conditional`: a group, then `cond.many()`, as the list `[group, ...conds.flat()]`. */
  function Conditional(s: string, pos: nat): (r: Reply<seq<Item>>)
    requires pos <= |s|
    ensures r.Success? <==> Run(s, GroupRule, pos).Success?
    ensures r.Success? ==> pos < r.next <= |s| && Alternating(r.value) && r.value[0] == Term(Run(s, GroupRule, pos).value)
  {
    match Run(s, GroupRule, pos)
    case Failure => Failure
    case Success(g, p) =>
      var rest := Conds(s, p);
      FlatAlternates(g, rest.value);
      Success([Term(g)] + Flat(rest.value), rest.next)
  }

  /** A group followed by flattened well-formed pairs alternates. */
  lemma {:induction false} FlatAlternates(g: Group, pairs: seq<(string, Group)>)
    requires WellFormedGroup(g)
    requires forall i :: 0 <= i < |pairs| ==> pairs[i].0 in CondOps && WellFormedGroup(pairs[i].1)
    ensures Alternating([Term(g)] + Flat(pairs))
    decreases |pairs|
  {
    if |pairs| > 0 {
      FlatAlternates(pairs[0].1, pairs[1..]);
      var items := [Term(g)] + Flat(pairs);
      assert items[2..] == [Term(pairs[0].1)] + Flat(pairs[1..]);
    }
  }

  /** `filter`: `P.alt(conditional, group)`. */
  function Filter(s: string, pos: nat): (r: Reply<Outcome>)
    requires pos <= |s|
    ensures r.Success? ==> pos < r.next <= |s|
  {
    match Conditional(s, pos)
    case Success(items, e) => Success(Items(items), e)
    case Failure =>
      match Run(s, GroupRule, pos)
      case Success(g, e) => Success(Single(g), e)
      case Failure => Failure
  }

  /**
   * The local `parseFilter`: `filter` followed by the end of the input. The
   * source throws parsimmon's failure object; here a failure is `None`. What
   * it returns is always an alternating list of groups and connectives.
   */
  function ParseFilter(s: string): (r: Option<Outcome>)
    ensures r.Some? ==> r.value.Items? && Alternating(r.value.items)
  {
    FilterItems(s, 0);
    match Filter(s, 0)
    case Success(v, e) => if e == |s| then Some(v) else None
    case Failure => None
  }

  /** `condOp` is parse.ts's `operator(["AND", "OR"])`: the trim on each alternative is the same as one trim around both. */
  lemma CondOpIsOperator(s: string, pos: nat)
    requires pos <= |s|
    ensures CondOp(s, pos) == Operator(s, pos, CondOps)
  {
    var p := OptWhitespace(s, pos);
    assert CondOps[0] == "AND" && CondOps[1..] == ["OR"] && CondOps[1..][1..] == [];
    if Occurs(s, p, "AND") {
      assert FirstOf(s, p, CondOps) == Success("AND", p + 3);
    } else if Occurs(s, p, "OR") {
      assert FirstOf(s, p, CondOps) == FirstOf(s, p, ["OR"]) == Success("OR", p + 2);
    } else {
      assert FirstOf(s, p, ["OR"]) == FirstOf(s, p, []) == Failure;
    }
  }

  /**
   * `filter` only ever yields the list: its second alternative, `group`, is
   * reached only when `conditional` failed, which happens exactly when `group`
   * fails. A single group comes back as a one-element list.
   */
  lemma FilterItems(s: string, pos: nat)
    requires pos <= |s|
    ensures Filter(s, pos).Success? <==> Run(s, GroupRule, pos).Success?
    ensures Filter(s, pos).Success? ==> Filter(s, pos).value.Items? && Alternating(Filter(s, pos).value.items)
  {
  }
}
