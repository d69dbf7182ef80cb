/**
 * `unwrapParens(inner)` of parse.test.ts, applied to the clause alternation
 * and to the Count sequence: what it accepts (one or more layers, the
 * inner value unchanged) and exactly when it succeeds on a given nesting.
 */
module EarlyLayers {
  import opened Atoms
  import opened EarlyGrammar

  /** `d` opening parentheses from `pos`. */
  predicate Opens(s: string, pos: nat, d: nat)
    decreases d
  {
    d == 0 || (pos < |s| && s[pos] == '(' && Opens(s, pos + 1, d - 1))
  }

  /** `d` closing parentheses from `c`. */
  predicate Closes(s: string, c: nat, d: nat)
    decreases d
  {
    d == 0 || (c + d - 1 < |s| && s[c + d - 1] == ')' && Closes(s, c, d - 1))
  }

  /** Nested layers are opening parentheses before and closing ones after. */
  lemma {:induction false} NestSplit(s: string, open: nat, d: nat, close: nat)
    requires Nest(s, open, d, close)
    ensures Opens(s, open, d) && Closes(s, close, d)
    decreases d
  {
    if d > 0 {
      NestSplit(s, open + 1, d - 1, close);
    }
  }

  /** The clause alternation needs the `[` of a field. */
  lemma ClauseNeedsField(s: string, p: nat)
    requires p < |s| && s[p] != '['
    ensures Run(s, Bare(ClauseForms), p).Failure?
  {
    assert Field(s, p).Failure?;
    assert forall kind :: Run(s, Form(kind), p).Failure?;
    assert ClauseAlt(s, p).Failure?;
  }

  /** The Count sequence needs its keyword. */
  lemma CountNeedsKeyword(s: string, p: nat)
    requires p < |s| && s[p] != 'C'
    ensures Run(s, Bare(CountSeq), p).Failure?
  {
    Mismatch(s, p, "Count", 0);
    assert CountSeqRule(s, p).Failure?;
  }

  /** Neither the clause alternation nor the Count sequence starts with `(`. */
  lemma InnerAtOpen(s: string, p: nat, inner: Inner)
    requires p < |s| && s[p] == '('
    ensures Run(s, Bare(inner), p).Failure?
  {
    if inner == CountSeq {
      CountNeedsKeyword(s, p);
    } else {
      ClauseNeedsField(s, p);
    }
  }

  /** `unwrapParens` needs an opening parenthesis. */
  lemma NotOpen(s: string, inner: Inner, p: nat)
    requires p <= |s| && (p == |s| || s[p] != '(')
    ensures Run(s, Unwrap(inner), p).Failure?
  {
  }

  /** A layer whose deeper layer succeeds closes after it; `inner` is not tried. */
  lemma UnwrapDeeper(s: string, inner: Inner, pos: nat, v: Group, e: nat)
    requires pos < |s| && s[pos] == '(' && Run(s, Unwrap(inner), pos + 1) == Success(v, e)
    ensures Run(s, Unwrap(inner), pos) == SkipClose(s, Success(v, e))
  {
  }

  /** A layer whose deeper layer fails tries `inner` and closes after it. */
  lemma UnwrapInner(s: string, inner: Inner, pos: nat)
    requires pos < |s| && s[pos] == '(' && Run(s, Unwrap(inner), pos + 1).Failure?
    ensures Run(s, Unwrap(inner), pos) == SkipClose(s, Run(s, Bare(inner), pos + 1))
  {
  }

  /**
   * Below `d` opening parentheses `unwrapParens(inner)` tries `inner` only at
   * each `(` and at the first other character, so it fails when `inner`
   * fails there.
   */
  lemma {:induction false} UnwrapFails(s: string, pos: nat, d: nat, q: nat, inner: Inner)
    requires d >= 1 && Opens(s, pos, d) && q == pos + d < |s| && s[q] != '('
    requires Run(s, Bare(inner), q).Failure?
    ensures Run(s, Unwrap(inner), pos).Failure?
    decreases d
  {
    if d > 1 {
      UnwrapFails(s, pos + 1, d - 1, q, inner);
      InnerAtOpen(s, pos + 1, inner);
    } else {
      NotOpen(s, inner, pos + 1);
    }
    UnwrapInner(s, inner, pos);
  }

  /**
   * On `d` opening parentheses followed by a match of `inner` up to `c` and
   * `d` closing parentheses, `unwrapParens(inner)` returns `inner`'s value:
   * the depth is invisible.
   */
  lemma {:induction false} UnwrapClosed(s: string, pos: nat, d: nat, q: nat, inner: Inner, v: Group, c: nat)
    requires d >= 1 && Opens(s, pos, d) && q == pos + d < |s| && s[q] != '('
    requires Run(s, Bare(inner), q) == Success(v, c) && Closes(s, c, d)
    ensures Run(s, Unwrap(inner), pos) == Success(v, c + d)
    decreases d
  {
    if d > 1 {
      UnwrapClosed(s, pos + 1, d - 1, q, inner, v, c);
      UnwrapDeeper(s, inner, pos, v, c + d - 1);
    } else {
      NotOpen(s, inner, pos + 1);
      UnwrapInner(s, inner, pos);
    }
  }

  /**
   * With fewer than `d` closing parentheses after the match of `inner`,
   * `unwrapParens(inner)` fails: a layer whose deeper layer succeeded does
   * not fall back to `inner`.
   */
  lemma {:induction false} UnwrapUnclosed(s: string, pos: nat, d: nat, q: nat, inner: Inner, v: Group, c: nat)
    requires d >= 1 && Opens(s, pos, d) && q == pos + d < |s| && s[q] != '('
    requires Run(s, Bare(inner), q) == Success(v, c) && !Closes(s, c, d)
    ensures Run(s, Unwrap(inner), pos).Failure?
    decreases d
  {
    if d == 1 {
      NotOpen(s, inner, pos + 1);
      UnwrapInner(s, inner, pos);
    } else if Closes(s, c, d - 1) {
      UnwrapClosed(s, pos + 1, d - 1, q, inner, v, c);
      UnwrapDeeper(s, inner, pos, v, c + d - 1);
    } else {
      UnwrapUnclosed(s, pos + 1, d - 1, q, inner, v, c);
      InnerAtOpen(s, pos + 1, inner);
      UnwrapInner(s, inner, pos);
    }
  }

  /** One layer of `unwrapParens`: the deeper layer, tried first, or `inner` itself. */
  lemma UnwrapCases(s: string, inner: Inner, pos: nat, v: Group, e: nat) returns (deep: bool)
    requires pos <= |s| && Run(s, Unwrap(inner), pos) == Success(v, e)
    ensures pos < |s| && s[pos] == '(' && pos + 1 < e <= |s| && s[e - 1] == ')'
    ensures deep ==> Run(s, Unwrap(inner), pos + 1) == Success(v, e - 1)
    ensures !deep ==> Run(s, Bare(inner), pos + 1) == Success(v, e - 1)
  {
    deep := Run(s, Unwrap(inner), pos + 1).Success?;
  }

  /**
   * What `unwrapParens(inner)` accepted: a match of `inner`, from `pos + d`
   * to `stop`, in `d >= 1` layers of parentheses (never zero); the value is
   * the inner parser's own.
   */
  lemma {:induction false} UnwrapLayers(s: string, inner: Inner, pos: nat, v: Group, e: nat) returns (d: nat, stop: nat)
    requires pos <= |s| && Run(s, Unwrap(inner), pos) == Success(v, e)
    ensures 1 <= d && e == stop + d && Nest(s, pos, d, stop)
    ensures pos + d <= |s| && Run(s, Bare(inner), pos + d) == Success(v, stop)
    decreases |s| - pos
  {
    var deep := UnwrapCases(s, inner, pos, v, e);
    if deep {
      var d' := 0;
      d', stop := UnwrapLayers(s, inner, pos + 1, v, e - 1);
      d := d' + 1;
    } else {
      d, stop := 1, e - 1;
    }
  }
}
