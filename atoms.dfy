/**
 * The lexical layer shared by both revisions of the filter grammar: the
 * parsimmon primitives they use (string, anchored greedy regexp, whitespace,
 * alternation over keywords, wrap and trim) and the atoms built from them.
 *
 * A parser is a total function from an input string and a cursor position to
 * a Reply. A failed alternative has no effect: the caller simply tries the
 * next alternative from the same position (ordered choice with backtracking).
 */
module Atoms {

  datatype Option<+T> = None | Some(value: T)

  /** The outcome of running a parser at a position: a value and the position after it. */
  datatype Reply<+T> = Failure | Success(value: T, next: nat)

  /**
   * JavaScript's `\s`, which parsimmon's `whitespace` and `optWhitespace` are
   * built on: space, tab to carriage return, and the Unicode spaces.
   */
  predicate IsWhitespace(c: char) {
    c == ' ' || ('\t' <= c <= '\r') || ('\U{00A0}' <= c && IsUnicodeSpace(c))
  }

  predicate IsUnicodeSpace(c: char) {
    || c == '\U{00A0}' || c == '\U{1680}' || ('\U{2000}' <= c <= '\U{200A}')
    || c == '\U{2028}' || c == '\U{2029}' || c == '\U{202F}' || c == '\U{205F}'
    || c == '\U{3000}' || c == '\U{FEFF}'
  }

  /** The class `[a-z ,A-Z0-9\\._:-]` of the `text` regexp. */
  predicate IsTextChar(c: char) {
    || ('a' <= c <= 'z') || c == ' ' || c == ',' || ('A' <= c <= 'Z') || ('0' <= c <= '9')
    || c == '\\' || c == '.' || c == '_' || c == ':' || c == '-'
  }

  /** The class `[0-9.]` of the `number` regexp. */
  predicate IsNumberChar(c: char) {
    ('0' <= c <= '9') || c == '.'
  }

  datatype CharClass = TextChars | NumberChars | WhitespaceChars

  predicate InClass(k: CharClass, c: char) {
    match k
    case TextChars => IsTextChar(c)
    case NumberChars => IsNumberChar(c)
    case WhitespaceChars => IsWhitespace(c)
  }

  predicate AllIn(k: CharClass, t: string) {
    forall i :: 0 <= i < |t| ==> InClass(k, t[i])
  }

  /** `t` occurs in `s` starting at `pos`. */
  predicate Occurs(s: string, pos: nat, t: string) {
    pos + |t| <= |s| && s[pos..pos + |t|] == t
  }

  /** The length of the longest run of class-`k` characters starting at `pos`. */
  function Span(s: string, pos: nat, k: CharClass): (n: nat)
    requires pos <= |s|
    ensures pos + n <= |s|
    ensures forall i :: pos <= i < pos + n ==> InClass(k, s[i])
    ensures pos + n == |s| || !InClass(k, s[pos + n])
    decreases |s| - pos
  {
    if pos < |s| && InClass(k, s[pos]) then 1 + Span(s, pos + 1, k) else 0
  }

  /**
   * `P.regexp` of one repeated character class, with `*` (min 0) or `+` (min 1): it is
   * anchored at the cursor and, being a single repeated class, greedy without
   * backtracking, so it matches the whole run or fails.
   */
  function Regexp(s: string, pos: nat, k: CharClass, min: nat): (r: Reply<string>)
    requires pos <= |s|
    ensures r.Success? <==> Span(s, pos, k) >= min
    ensures r.Success? ==> |r.value| == Span(s, pos, k)
    ensures r.Success? ==> r.next == pos + |r.value| && Occurs(s, pos, r.value) && AllIn(k, r.value)
  {
    var n := Span(s, pos, k);
    if n >= min then Success(s[pos..pos + n], pos + n) else Failure
  }

  /** `P.string(lit)`. */
  function Str(s: string, pos: nat, lit: string): (r: Reply<string>)
    ensures r.Success? <==> Occurs(s, pos, lit)
    ensures r.Success? ==> r.value == lit && r.next == pos + |lit|
  {
    if Occurs(s, pos, lit) then Success(lit, pos + |lit|) else Failure
  }

  /** `P.optWhitespace`: always succeeds, skipping the whole run of whitespace. */
  function OptWhitespace(s: string, pos: nat): (next: nat)
    requires pos <= |s|
    ensures pos <= next <= |s| && AllIn(WhitespaceChars, s[pos..next])
    ensures next == |s| || !IsWhitespace(s[next])
  {
    var r := Regexp(s, pos, WhitespaceChars, 0);
    r.next
  }

  /** `P.whitespace`: one or more whitespace characters. */
  function Whitespace(s: string, pos: nat): (r: Reply<()>)
    requires pos <= |s|
    ensures r.Success? <==> pos < |s| && IsWhitespace(s[pos])
    ensures r.Success? ==> r.next == OptWhitespace(s, pos)
  {
    match Regexp(s, pos, WhitespaceChars, 1)
    case Failure => Failure
    case Success(_, next) => Success((), next)
  }

  /**
   * `P.alt(...strs.map(P.string))`: the keywords are tried strictly in list
   * order (`FirstOfFails`, `FirstOfPicks` and `FirstOfEarliest` say which
   * one wins).
   */
  function FirstOf(s: string, pos: nat, strs: seq<string>): (r: Reply<string>)
    ensures r.Success? ==> r.value in strs && Occurs(s, pos, r.value) && r.next == pos + |r.value|
  {
    if |strs| == 0 then Failure
    else if Occurs(s, pos, strs[0]) then Success(strs[0], pos + |strs[0]|)
    else FirstOf(s, pos, strs[1..])
  }

  /** parse.ts `operator(strs)`, i.e. `P.alt(...strs.map(P.string)).trim(P.optWhitespace)`: whitespace before and after the keyword is skipped. */
  function Operator(s: string, pos: nat, strs: seq<string>): (r: Reply<string>)
    requires pos <= |s|
    ensures r.Success? <==> FirstOf(s, OptWhitespace(s, pos), strs).Success?
    ensures r.Success? ==> pos <= r.next <= |s| && r.value in strs
  {
    var p := OptWhitespace(s, pos);
    match FirstOf(s, p, strs)
    case Failure => Failure
    case Success(op, q) => Success(op, OptWhitespace(s, q))
  }

  /** `text.wrap(P.string(open), P.string(close))`, the shape of `field`, `quoted` and `date`. */
  function Wrapped(s: string, pos: nat, open: char, close: char): (r: Reply<string>)
    requires pos <= |s|
    requires !IsTextChar(close)
    ensures r.Success? <==> pos < |s| && s[pos] == open && pos + 1 + Span(s, pos + 1, TextChars) < |s|
                                  && s[pos + 1 + Span(s, pos + 1, TextChars)] == close
    ensures r.Success? ==> AllIn(TextChars, r.value) && Occurs(s, pos, [open] + r.value + [close])
                           && r.next == pos + |r.value| + 2
  {
    if pos < |s| && s[pos] == open then
      var t := Regexp(s, pos + 1, TextChars, 0);
      if t.next < |s| && s[t.next] == close then
        assert s[pos..t.next + 1] == [open] + t.value + [close];
        Success(t.value, t.next + 1)
      else Failure
    else Failure
  }

  /** `field`: `[` text `]`, returning the text between the brackets. */
  function Field(s: string, pos: nat): (r: Reply<string>)
    requires pos <= |s|
    ensures r.Success? ==> AllIn(TextChars, r.value) && Occurs(s, pos, "[" + r.value + "]")
                           && r.next == pos + |r.value| + 2
  {
    Wrapped(s, pos, '[', ']')
  }

  /** `quoted`: `"` text `"`. */
  function Quoted(s: string, pos: nat): (r: Reply<string>)
    requires pos <= |s|
    ensures r.Success? ==> AllIn(TextChars, r.value) && Occurs(s, pos, "\"" + r.value + "\"")
                           && r.next == pos + |r.value| + 2
  {
    Wrapped(s, pos, '"', '"')
  }

  /** `date`: `#` text `#`. */
  function Date(s: string, pos: nat): (r: Reply<string>)
    requires pos <= |s|
    ensures r.Success? ==> AllIn(TextChars, r.value) && Occurs(s, pos, "#" + r.value + "#")
                           && r.next == pos + |r.value| + 2
  {
    Wrapped(s, pos, '#', '#')
  }

  /** `number`: one or more digits or dots, kept as text. */
  function Number(s: string, pos: nat): (r: Reply<string>)
    requires pos <= |s|
    ensures r.Success? ==> |r.value| >= 1 && AllIn(NumberChars, r.value) && Occurs(s, pos, r.value)
                           && r.next == pos + |r.value|
  {
    Regexp(s, pos, NumberChars, 1)
  }
  /** Splitting an occurrence of a concatenation at the seam. */
  lemma OccursConcat(s: string, pos: nat, a: string, b: string)
    ensures Occurs(s, pos, a + b) <==> Occurs(s, pos, a) && Occurs(s, pos + |a|, b)
  {
    if Occurs(s, pos, a) && Occurs(s, pos + |a|, b) {
      assert s[pos..pos + |a + b|] == s[pos..pos + |a|] + s[pos + |a|..pos + |a| + |b|];
    }
    if Occurs(s, pos, a + b) {
      assert s[pos..pos + |a|] == (a + b)[..|a|];
      assert s[pos + |a|..pos + |a| + |b|] == (a + b)[|a|..];
    }
  }

  lemma OccursAt(s: string, pos: nat, t: string, i: nat)
    requires Occurs(s, pos, t) && i < |t|
    ensures pos + i < |s| && s[pos + i] == t[i]
  {
    assert s[pos..pos + |t|][i] == t[i];
  }

  /** One differing character rules an occurrence out. */
  lemma Mismatch(s: string, pos: nat, t: string, i: nat)
    requires i < |t| && pos + i < |s| && s[pos + i] != t[i]
    ensures !Occurs(s, pos, t)
  {
    if Occurs(s, pos, t) { OccursAt(s, pos, t, i); }
  }

  /** A run of class-`k` characters that ends where the class does is exactly what `Span` measures. */
  lemma {:induction false} SpanExact(s: string, pos: nat, k: CharClass, t: string)
    requires Occurs(s, pos, t) && AllIn(k, t)
    requires pos + |t| == |s| || !InClass(k, s[pos + |t|])
    ensures Span(s, pos, k) == |t|
    decreases |t|
  {
    if |t| > 0 {
      OccursAt(s, pos, t, 0);
      OccursConcat(s, pos, t[..1], t[1..]);
      assert t == t[..1] + t[1..];
      SpanExact(s, pos + 1, k, t[1..]);
    }
  }

  /** `field`, `quoted` and `date` give back the text between their delimiters verbatim. */
  lemma WrappedOf(s: string, pos: nat, open: char, close: char, t: string)
    requires !IsTextChar(close) && AllIn(TextChars, t)
    requires Occurs(s, pos, [open] + t + [close])
    ensures Wrapped(s, pos, open, close) == Success(t, pos + |t| + 2)
  {
    OccursConcat(s, pos, [open] + t, [close]);
    OccursConcat(s, pos, [open], t);
    OccursAt(s, pos, [open], 0);
    OccursAt(s, pos + 1 + |t|, [close], 0);
    SpanExact(s, pos + 1, TextChars, t);
  }

  /** `number` takes the whole run of digits and dots. */
  lemma NumberOf(s: string, pos: nat, t: string)
    requires |t| >= 1 && AllIn(NumberChars, t) && Occurs(s, pos, t)
    requires pos + |t| == |s| || !IsNumberChar(s[pos + |t|])
    ensures Number(s, pos) == Success(t, pos + |t|)
  {
    SpanExact(s, pos, NumberChars, t);
  }

  /**
   * `operator(strs)` on a keyword surrounded by whitespace returns the keyword
   * when no earlier keyword of the list matches there, and skips the
   * whitespace on both sides.
   */
  lemma OperatorOf(s: string, pos: nat, strs: seq<string>, k: nat, before: string, after: string)
    requires k < |strs| && |strs[k]| > 0 && !IsWhitespace(strs[k][0])
    requires AllIn(WhitespaceChars, before) && AllIn(WhitespaceChars, after)
    requires Occurs(s, pos, before + strs[k] + after)
    requires forall j :: 0 <= j < k ==> !Occurs(s, pos + |before|, strs[j])
    requires pos + |before| + |strs[k]| + |after| == |s|
             || !IsWhitespace(s[pos + |before| + |strs[k]| + |after|])
    ensures Operator(s, pos, strs) == Success(strs[k], pos + |before| + |strs[k]| + |after|)
  {
    var p := pos + |before|;
    var q := p + |strs[k]|;
    OccursConcat(s, pos, before + strs[k], after);
    OccursConcat(s, pos, before, strs[k]);
    OccursAt(s, p, strs[k], 0);
    OptWhitespaceOver(s, pos, before);
    OptWhitespaceOver(s, q, after);
    FirstOfPicks(s, p, strs, k);
    OperatorSteps(s, pos, strs, p, strs[k], q);
  }

  /** `operator` skips the whitespace, reads the keyword, then skips the whitespace after it. */
  lemma OperatorSteps(s: string, pos: nat, strs: seq<string>, p: nat, v: string, q: nat)
    requires pos <= |s| && OptWhitespace(s, pos) == p && FirstOf(s, p, strs) == Success(v, q)
    ensures q <= |s| && Operator(s, pos, strs) == Success(v, OptWhitespace(s, q))
  {
  }

  /** `P.optWhitespace` skips exactly a run of whitespace that ends where the whitespace does. */
  lemma OptWhitespaceOver(s: string, pos: nat, t: string)
    requires Occurs(s, pos, t) && AllIn(WhitespaceChars, t)
    requires pos + |t| == |s| || !IsWhitespace(s[pos + |t|])
    ensures OptWhitespace(s, pos) == pos + |t|
  {
    SpanExact(s, pos, WhitespaceChars, t);
  }

  /** `P.alt` over keywords fails exactly when none of them occurs. */
  lemma {:induction false} FirstOfFails(s: string, pos: nat, strs: seq<string>)
    ensures FirstOf(s, pos, strs).Failure? <==> forall j :: 0 <= j < |strs| ==> !Occurs(s, pos, strs[j])
    decreases |strs|
  {
    if |strs| > 0 {
      FirstOfFails(s, pos, strs[1..]);
      assert forall j :: 1 <= j < |strs| ==> strs[j] == strs[1..][j - 1];
    }
  }

  /** What `P.alt` over keywords returns is the earliest keyword of the list that occurs. */
  lemma {:induction false} FirstOfEarliest(s: string, pos: nat, strs: seq<string>) returns (k: nat)
    requires FirstOf(s, pos, strs).Success?
    ensures k < |strs| && FirstOf(s, pos, strs) == Success(strs[k], pos + |strs[k]|)
    ensures forall j :: 0 <= j < k ==> !Occurs(s, pos, strs[j])
    decreases |strs|
  {
    if Occurs(s, pos, strs[0]) {
      k := 0;
    } else {
      var k' := FirstOfEarliest(s, pos, strs[1..]);
      k := k' + 1;
      assert forall j :: 1 <= j < k ==> strs[j] == strs[1..][j - 1];
    }
  }

  /** The earliest keyword that matches is the one `P.alt` returns. */
  lemma {:induction false} FirstOfPicks(s: string, pos: nat, strs: seq<string>, k: nat)
    requires k < |strs| && Occurs(s, pos, strs[k])
    requires forall j :: 0 <= j < k ==> !Occurs(s, pos, strs[j])
    ensures FirstOf(s, pos, strs) == Success(strs[k], pos + |strs[k]|)
  {
    if k > 0 {
      assert !Occurs(s, pos, strs[0]);
      assert forall j :: 0 <= j < k - 1 ==> strs[1..][j] == strs[j + 1];
      FirstOfPicks(s, pos, strs[1..], k - 1);
    }
  }

  /** Two keywords that differ at index `i` cannot both occur at one position. */
  lemma Clash(s: string, p: nat, o: string, w: string, i: nat)
    requires Occurs(s, p, o) && i < |o| && i < |w| && o[i] != w[i]
    ensures !Occurs(s, p, w)
  {
    OccursAt(s, p, o, i);
    Mismatch(s, p, w, i);
  }

  /** `.skip(P.string(")"))`. */
  function SkipClose<T>(s: string, r: Reply<T>): (r': Reply<T>)
    ensures r'.Success? <==> r.Success? && r.next < |s| && s[r.next] == ')'
    ensures r'.Success? ==> r'.value == r.value && r'.next == r.next + 1
  {
    match r
    case Failure => Failure
    case Success(v, e) => if e < |s| && s[e] == ')' then Success(v, e + 1) else Failure
  }

  /** A text in one layer of parentheses. */
  function Paren(t: string): string {
    "(" + t + ")"
  }

  /** `k` opening parentheses, `t`, then `k` closing ones. */
  function Wrap(k: nat, t: string): (w: string)
    ensures |w| == |t| + 2 * k
  {
    if k == 0 then t else "(" + Wrap(k - 1, t) + ")"
  }

  /** A parenthesised text: its opening and closing parentheses around the text. */
  lemma ParenOccurs(s: string, pos: nat, t: string)
    ensures Occurs(s, pos, Paren(t)) <==>
      pos + |t| + 2 <= |s| && s[pos] == '(' && Occurs(s, pos + 1, t) && s[pos + 1 + |t|] == ')'
  {
    assert Paren(t) == "(" + t + ")";
    OccursConcat(s, pos, "(" + t, ")");
    OccursConcat(s, pos, "(", t);
  }

  /** The outer layer of a wrapped text. */
  lemma WrapOccurs(s: string, pos: nat, k: nat, t: string)
    requires k >= 1 && Occurs(s, pos, Wrap(k, t))
    ensures pos + |Wrap(k, t)| <= |s| && s[pos] == '(' && Occurs(s, pos + 1, Wrap(k - 1, t))
    ensures s[pos + |Wrap(k, t)| - 1] == ')'
  {
    assert Wrap(k, t) == Paren(Wrap(k - 1, t));
    ParenOccurs(s, pos, Wrap(k - 1, t));
  }

  /** The text inside `k` layers, and the innermost closing parenthesis after it. */
  lemma {:induction false} WrapInside(s: string, pos: nat, k: nat, t: string)
    requires Occurs(s, pos, Wrap(k, t))
    ensures Occurs(s, pos + k, t)
    ensures k >= 1 ==> pos + k + |t| < |s| && s[pos + k + |t|] == ')'
    decreases k
  {
    if k >= 1 {
      WrapOccurs(s, pos, k, t);
      WrapInside(s, pos + 1, k - 1, t);
    }
  }

  /**
   * `d` opening parentheses from `open` and `d` closing ones from `close`:
   * the text between is what the layers enclose.
   */
  predicate Nest(s: string, open: nat, d: nat, close: nat)
    ensures Nest(s, open, d, close) ==> open + d <= close && close + d <= |s|
    decreases d
  {
    if d == 0 then open <= close <= |s|
    else open < |s| && s[open] == '(' && close + d <= |s| && s[close + d - 1] == ')' && Nest(s, open + 1, d - 1, close)
  }

  /** Nested layers are the wrapped form of the text they enclose. */
  lemma {:induction false} NestWrap(s: string, open: nat, d: nat, close: nat)
    requires Nest(s, open, d, close)
    ensures open + d <= close <= |s| && Occurs(s, open, Wrap(d, s[open + d..close]))
    decreases d
  {
    if d == 0 {
      assert s[open..open + |s[open..close]|] == s[open..close];
    } else {
      NestWrap(s, open + 1, d - 1, close);
      var t := s[open + d..close];
      assert Wrap(d, t) == Paren(Wrap(d - 1, t));
      ParenOccurs(s, open, Wrap(d - 1, t));
    }
  }

  /** A wrapped text is nested in its layers. */
  lemma {:induction false} WrapNest(s: string, pos: nat, k: nat, t: string)
    requires Occurs(s, pos, Wrap(k, t))
    ensures Nest(s, pos, k, pos + k + |t|)
    decreases k
  {
    if k > 0 {
      WrapOccurs(s, pos, k, t);
      WrapNest(s, pos + 1, k - 1, t);
    }
  }
}
