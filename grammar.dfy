/**
 * The current grammar (parse.ts). The rules of its `P.createLanguage` table
 * are the constructors of `Rule`; `Run` interprets a rule at a position and
 * looks sibling rules up by name, as the language table does, so that the
 * mutual recursion expression -> conditionalExpr -> conditionalChild ->
 * parens -> expression and countExpr -> expression is one recursive function.
 * Every re-entry at the same position goes to a rule of lower `Rank`; every
 * other re-entry is preceded by a consumed `(`, `Count` or AND/OR keyword.
 */
module Grammar {
  import opened Atoms
  import opened Operands

  /**
   * What the rules produce. `.map(([lhs, op, rhs]) => ({ lhs, op, rhs }))` gives
   * the same object shape for a clause and for a conditional; a clause's `lhs`
   * is the field text and its `rhs` is missing (undefined) for the unary form.
   * A count is tagged `type: "Count"`. Literals are bare strings. (Dafny needs
   * distinct field names where the types differ: `left`/`right` are a
   * conditional's `lhs`/`rhs`, `counted`/`threshold` a count's `lhs`/`rhs`.)
   */
  datatype Expr =
    | Clause(lhs: string, op: string, rhs: Option<string>)
    | Conditional(left: Expr, op: string, right: Expr)
    | Count(counted: Expr, op: string, threshold: string)

  /** The trees the grammar can produce. */
  predicate WellFormed(e: Expr) {
    match e
    case Clause(lhs, op, rhs) => WellFormedClause(lhs, op, rhs)
    case Conditional(lhs, op, rhs) => op in CondOps && WellFormed(lhs) && WellFormed(rhs)
    case Count(lhs, op, n) => op in NumOps && |n| >= 1 && AllIn(NumberChars, n) && WellFormed(lhs)
  }

  /**
   * `unaryClause`, `binaryClause`, `numClause`, `dateClause`: `P.seq(field, op, operand)`
   * mapped to `{ lhs, op, rhs }`.
   */
  function ClauseSeq(s: string, pos: nat, kind: Operand): (r: Reply<Expr>)
    requires pos <= |s|
    ensures r.Success? ==> pos < r.next <= |s| && r.value.Clause?
                           && AllIn(TextChars, r.value.lhs) && OperandShape(kind, r.value.op, r.value.rhs)
  {
    match Field(s, pos)
    case Failure => Failure
    case Success(lhs, p) =>
      match Operator(s, p, OpsOf(kind))
      case Failure => Failure
      case Success(op, q) =>
        match OperandOf(s, q, kind)
        case Failure => Failure
        case Success(rhs, e) =>
          assert kind != NoOperand ==> rhs.Some?;
          Success(Clause(lhs, op, rhs), e)
  }

  /** `clause`: the four sequences tried in order unary, binary, numeric, date. */
  function ClauseAlt(s: string, pos: nat): (r: Reply<Expr>)
    requires pos <= |s|
    ensures r.Success? ==> pos < r.next <= |s| && r.value.Clause?
                           && WellFormedClause(r.value.lhs, r.value.op, r.value.rhs)
  {
    var u := ClauseSeq(s, pos, NoOperand);
    if u.Success? then u else
    var b := ClauseSeq(s, pos, QuotedOperand);
    if b.Success? then b else
    var n := ClauseSeq(s, pos, NumberOperand);
    if n.Success? then n else
    ClauseSeq(s, pos, DateOperand)
  }

  /** The entries of the language table, plus the paren combinators applied to them. */
  datatype Rule =
    | ClauseRule
    | CountExpr
    | ConditionalExpr
    /** `P.alt(r.countExpr, r.clause, r.conditionalExpr)`, inside `conditionalChild` */
    | ChildChoice
    /** `P.alt(r.conditionalExpr, r.countExpr, r.clause)`, inside `expression` */
    | ExprChoice
    /** `parens(inner)`: one or more layers */
    | Parens(inner: Rule)
    /** `optParens(inner)`: zero or more layers */
    | OptParens(inner: Rule)

  /** `conditionalChild`. */
  const ConditionalChild: Rule := Parens(ChildChoice)
  /** `expression`, the entry rule. */
  const Expression: Rule := OptParens(ExprChoice)

  function Rank(rule: Rule): nat {
    match rule
    case ClauseRule => 0
    case CountExpr => 0
    case Parens(_) => 1
    case ConditionalExpr => 2
    case ChildChoice => 3
    case ExprChoice => 3
    case OptParens(inner) => Rank(inner) + 2
  }

  /**
   * Runs `rule` at `pos`, as a lookup in the language table; every success
   * consumes input and yields a well-formed tree.
   */
  function Run(s: string, rule: Rule, pos: nat): (r: Reply<Expr>)
    requires pos <= |s|
    ensures r.Success? ==> pos < r.next <= |s| && WellFormed(r.value)
    decreases |s| - pos, Rank(rule), 1
  {
    match rule
    case ClauseRule => ClauseAlt(s, pos)
    case CountExpr => CountRule(s, pos)
    case ConditionalExpr => ConditionalRule(s, pos)
    case ChildChoice => ChildRule(s, pos)
    case ExprChoice => ExprRule(s, pos)
    case Parens(inner) => ParensRule(s, inner, pos)
    case OptParens(inner) => OptParensRule(s, inner, pos)
  }

  /** `countExpr`: `Count`, an expression, a comparison keyword and a number. */
  function CountRule(s: string, pos: nat): (r: Reply<Expr>)
    requires pos <= |s|
    ensures r.Success? ==> pos < r.next <= |s| && WellFormed(r.value) && r.value.Count?
    decreases |s| - pos, Rank(CountExpr), 0
  {
    match Str(s, pos, "Count")
    case Failure => Failure
    case Success(_, c) =>
      match Run(s, Expression, c)
      case Failure => Failure
      case Success(lhs, p) =>
        match Operator(s, p, NumOps)
        case Failure => Failure
        case Success(op, q) =>
          match Number(s, q)
          case Failure => Failure
          case Success(n, e) => Success(Count(lhs, op, n), e)
  }

  /**
   * `conditionalExpr`: a parenthesised operand, a connective, then either a
   * further conditional (tried first) or one more parenthesised operand.
   */
  function ConditionalRule(s: string, pos: nat): (r: Reply<Expr>)
    requires pos <= |s|
    ensures r.Success? ==> pos < r.next <= |s| && WellFormed(r.value) && r.value.Conditional?
    decreases |s| - pos, Rank(ConditionalExpr), 0
  {
    match Run(s, ConditionalChild, pos)
    case Failure => Failure
    case Success(lhs, p) =>
      match Operator(s, p, CondOps)
      case Failure => Failure
      case Success(op, q) =>
        var chain := Run(s, ConditionalExpr, q);
        var rhs := if chain.Success? then chain else Run(s, ConditionalChild, q);
        match rhs
        case Failure => Failure
        case Success(v, e) => Success(Conditional(lhs, op, v), e)
  }

  /** `P.alt(r.countExpr, r.clause, r.conditionalExpr)`. */
  function ChildRule(s: string, pos: nat): (r: Reply<Expr>)
    requires pos <= |s|
    ensures r.Success? ==> pos < r.next <= |s| && WellFormed(r.value)
    decreases |s| - pos, Rank(ChildChoice), 0
  {
    var c := Run(s, CountExpr, pos);
    if c.Success? then c else
    var k := Run(s, ClauseRule, pos);
    if k.Success? then k else
    Run(s, ConditionalExpr, pos)
  }

  /** `P.alt(r.conditionalExpr, r.countExpr, r.clause)`. */
  function ExprRule(s: string, pos: nat): (r: Reply<Expr>)
    requires pos <= |s|
    ensures r.Success? ==> pos < r.next <= |s| && WellFormed(r.value)
    decreases |s| - pos, Rank(ExprChoice), 0
  {
    var k := Run(s, ConditionalExpr, pos);
    if k.Success? then k else
    var c := Run(s, CountExpr, pos);
    if c.Success? then c else
    Run(s, ClauseRule, pos)
  }

  /** `parens(p)`: `paren(p).or(paren(parens(p)))`, so one or more layers. */
  function ParensRule(s: string, inner: Rule, pos: nat): (r: Reply<Expr>)
    requires pos <= |s|
    ensures r.Success? ==> pos < r.next <= |s| && WellFormed(r.value)
    decreases |s| - pos, Rank(Parens(inner)), 0
  {
    if pos < |s| && s[pos] == '(' then
      var once := SkipClose(s, Run(s, inner, pos + 1));
      if once.Success? then once else SkipClose(s, Run(s, Parens(inner), pos + 1))
    else Failure
  }

  /** `optParens(p)`: `p.or(parens(p))`, so zero or more layers. */
  function OptParensRule(s: string, inner: Rule, pos: nat): (r: Reply<Expr>)
    requires pos <= |s|
    ensures r.Success? ==> pos < r.next <= |s| && WellFormed(r.value)
    decreases |s| - pos, Rank(OptParens(inner)), 0
  {
    var bare := Run(s, inner, pos);
    if bare.Success? then bare else Run(s, Parens(inner), pos)
  }

  /**
   * `parseFilter`: `expression` followed by the end of the input. The source
   * throws parsimmon's failure object; here a failure is `None`.
   */
  function ParseFilter(s: string): (r: Option<Expr>)
    ensures r.Some? ==> WellFormed(r.value)
  {
    match Run(s, Expression, 0)
    case Success(v, e) => if e == |s| then Some(v) else None
    case Failure => None
  }
}
