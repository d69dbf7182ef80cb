# Filter-query parser

A model of a parser for a small filter-query language. Such a query is built from:

- clauses such as `[City] is equal to "Dubuque"`;
- counts such as `Count(([x] is null)) > 0`;
- AND/OR chains;
- redundant parentheses.

The parser turns a query into a tree. Both revisions of the grammar are built from parsimmon combinators, and both are modelled here.

- **parse.ts, the current grammar.** It is modelled in modules `Atoms`, `Operands`, `Grammar`, `GrammarRender`, `GrammarLayers`, `GrammarWritten`, `GrammarChain` and `GrammarRejects`.
  - It has an atom and operator layer, then the `paren`/`parens`/`optParens` combinators.
  - The four clause sequences are followed by the `createLanguage` rules: `clause`, `conditionalChild`, `conditionalExpr`, `countExpr` and `expression`.
  - `parseFilter` requires the whole input to match.
- **The local `parseFilter` of parse.test.ts, the earlier revision.** Its jest cases exercise it. It is modelled in modules `EarlyGrammar`, `EarlyLayers`, `EarlyRender` and `EarlyCases`.
  - Its clause parts are separated by mandatory whitespace.
  - Every group sits in one or more layers of parentheses (`unwrapParens`).
  - A group is a Count or a clause.
  - An AND/OR chain comes out as a flat alternating list.

How the combinators are modelled:

- **A parser** is a function from a string and a position to a `Reply`. A reply is either `Failure` or `Success(value, next)`.
- **Choice:**
  - `P.alt` and `.or` are ordered choice.
  - `P.seq` fails as soon as one part fails.
  - A regular expression is anchored and greedy, with maximal munch and no backtracking into it.
- **`.parse`** is the rule followed by the end of the input. The thrown failure object is modelled as `None`.
- **Mutual recursion** uses one `Run` function per grammar, which dispatches on a `Rule` datatype, as the `createLanguage` table and `P.lazy` do.
  - It terminates on (remaining input, rule rank).
  - Every re-entry at the same position goes to a rule of lower rank.
  - Every other re-entry follows a consumed `(`, `Count` or connective.

How the properties are stated:

- **A printer** is the partner of each parser. A written tree (`GrammarWritten.Written`, `EarlyRender.Written`) records how many layers of parentheses surround each node; its text (`GrammarWritten.Text`, `EarlyRender.Text`/`ListText`) prints it. `GrammarRender.Render` is the canonical printer of parse.ts: it writes the layers the grammar demands (around each operand of a connective, except a right operand that is a further chain) and, by its own choice, one layer around the argument of `Count`.
- **Round-trip lemmas** prove that each grammar reads every written tree back as the tree it stands for. In parse.ts the layers may be any number around the whole input, around each operand of a connective and around the argument of `Count`, as long as the operands of a connective keep the layer the grammar demands and the argument of `Count` keeps the one layer the printer puts there (the grammar itself does not demand it; see `GrammarWritten.WrittenRoundTrip` under Left out).
- **Further lemmas** prove:
  - right associativity of `conditionalExpr`;
  - the flat list of the earlier revision;
  - the paren combinators' layer structure;
  - every jest case;
  - inputs that parse.ts rejects: a keyword with its operand missing, and a connective whose left operand lacks its parentheses.

## Model

| member | source | states |
|---|---|---|
| Atoms.Span | parse.ts:20-21 | the greedy run of a character class from a position: every character in it is in the class and the next one is not (maximal munch) |
| Atoms.Regexp | parse.ts:20-21 | an anchored `P.regexp` over a class succeeds exactly when the run has the minimum length; its value is the whole run from the position (maximal munch), verbatim and drawn from the class, and it ends after it |
| Atoms.SpanExact | parse.ts:20-21 | a class run that is followed by a character outside the class is read exactly, so the regexp returns that text |
| Atoms.Str | parse.ts:55 | `P.string(lit)` succeeds exactly when `lit` occurs at the position, returns `lit` and moves past it |
| Atoms.OptWhitespace | parse.ts:5 | `optWhitespace` skips the longest run of JavaScript `\s` characters (possibly empty) and stops before a non-space |
| Atoms.Whitespace | parse.test.ts:21 | `P.whitespace` needs at least one whitespace character and then skips the same run as `optWhitespace` |
| Atoms.FirstOf | parse.ts:5 | `P.alt(...strs.map(P.string))`: a success returns one of the keywords, found at the position, and moves past it |
| Atoms.FirstOfFails | parse.ts:5 | the keyword alternation fails exactly when no keyword of the list occurs at the position (both directions) |
| Atoms.FirstOfEarliest | parse.ts:5 | a successful alternation returns the first keyword in list order that occurs; no earlier one occurs |
| Atoms.FirstOfPicks | parse.ts:5 | the converse: a keyword that occurs, with no earlier keyword occurring, is the one returned |
| Atoms.Operator | parse.ts:3-5 | `operator(strs)` succeeds exactly when a keyword follows the optional leading whitespace; it returns a keyword of the table |
| Atoms.OperatorOf | parse.ts:3-5 | a keyword between any two whitespace runs, with no earlier keyword occurring, is read with both runs trimmed |
| Atoms.Wrapped | parse.ts:30-32 | `text.wrap(open, close)` succeeds exactly when the text run after `open` is followed by `close`; its value is that text verbatim |
| Atoms.WrappedOf | parse.ts:30-32 | the converse: any text-class string between the delimiters, possibly empty, is returned verbatim |
| Atoms.Field | parse.ts:30 | `field` returns the text between `[` and `]`, from the text class |
| Atoms.Quoted | parse.ts:31 | `quoted` returns the text between the double quotes, from the text class |
| Atoms.Date | parse.ts:32 | `date` returns the text between the `#` signs, from the text class |
| Atoms.SkipClose | parse.ts:8 | `.skip(P.string(")"))` keeps the value and succeeds exactly when a `)` follows; both grammars use it |
| Atoms.Number | parse.ts:20 | `number` returns one or more digits or dots, kept as text |
| Atoms.NumberOf | parse.ts:20 | the converse: a non-empty digit-or-dot string followed by any other character is read whole as the number |
| Atoms.NestWrap | parse.ts:11-14 | `d` nested layers around a text are the text wrapped in `d` parentheses |
| Atoms.WrapNest | parse.ts:11-14 | the converse: a text wrapped in `d` parentheses is `d` nested layers around it |
| Operands.OperandOf | parse.ts:34-37 | the operand of each clause form: nothing, without consuming input, for `is null`; otherwise the verbatim text between the form's delimiters (`"…"`, `#…#`, or a bare number of one or more digits or dots), which ends the operand |
| Operands.FamiliesExclude | parse.ts:24-27 | no keyword of another operator table occurs where a keyword of one table occurs, so the four clause forms are mutually exclusive |
| Operands.EarliestKeyword | parse.ts:24-27 | every keyword of a table is the first one of its table to occur, so table order never hides one keyword behind another |
| Operands.OperandParses | parse.ts:34-37 | a printed operand is read back as the same `rhs`: none for the unary form, the verbatim text otherwise |
| Grammar.ClauseSeq | parse.ts:34-37 | each clause sequence `P.seq(field, op, operand)` yields a clause whose field is from the text class and whose operator and operand fit the form |
| Grammar.ClauseAlt | parse.ts:40-43 | `clause` yields `{lhs, op, rhs}` whose `rhs` is missing exactly for the unary operator |
| Grammar.Run | parse.ts:39-62 | every rule of the language table consumes input and produces a well-formed tree |
| Grammar.CountRule | parse.ts:54-57 | `countExpr` produces a well-formed `Count` node and consumes input |
| Grammar.ConditionalRule | parse.ts:47-52 | `conditionalExpr` produces a well-formed conditional node and consumes input |
| Grammar.ChildRule | parse.ts:44-45 | the choice inside `conditionalChild` produces a well-formed tree |
| Grammar.ExprRule | parse.ts:59-61 | the choice inside `expression` produces a well-formed tree |
| Grammar.ParensRule | parse.ts:11-14 | `parens(p)` consumes input and produces a well-formed tree; that the tree is `p`'s own is `GrammarLayers.ParensLayers` |
| Grammar.OptParensRule | parse.ts:17 | `optParens(p)` consumes input and produces a well-formed tree; that the tree is `p`'s own is `GrammarLayers.OptParensLayers` |
| Grammar.ParseFilter | parse.ts:64-68 | a result of `parseFilter` is always a well-formed tree |
| GrammarRender.ClauseSeqParses | parse.ts:34-37 | a printed clause of the right form is read back by its clause sequence as the same clause |
| GrammarRender.ClauseSeqFails | parse.ts:34-37 | a clause sequence fails on a clause whose operator belongs to another form |
| GrammarRender.ClauseAltParses | parse.ts:40-43 | `clause` reads any printed well-formed clause back, whichever of the four forms it is, trying them in order |
| GrammarRender.RenderStart | parse.ts:40-57 | a printed clause starts with `[`, a conditional with `(`, a count with `Count`: the first character decides which alternative can match (proved by `NotCount`, `NotClause` and `ParensNeedOpen`) |
| GrammarRender.ConnectiveOf | parse.ts:28 | `condOp` reads AND or OR with the surrounding whitespace |
| GrammarRender.ConnectiveFails | parse.ts:28 | `condOp` fails at the end of the input and before `)` |
| GrammarRender.NotConnective | parse.ts:26-28 | a numeric operator is not a connective, so a count's comparison never ends a conditional operand |
| GrammarRender.CountArgument | parse.ts:54-60 | inside `Count`, `expression` at a `(` reads the argument in its layers: the bare choice fails because the comparison after the layers is not a connective |
| GrammarRender.ClauseReadsBack | parse.ts:40-45 | a printed clause followed by the end or `)` is read by both `conditionalChild`'s choice and `expression`'s choice as the same clause |
| GrammarLayers.ParensCases | parse.ts:8-14 | a `parens` match starts with `(`, ends with `)`, and holds either `p` itself or a further `parens`, with the same value |
| GrammarLayers.ParensLayers | parse.ts:11-14 | a `parens(p)` match is one or more nested layers (never zero) around a match of `p`; the value is `p`'s own |
| GrammarLayers.OptParensLayers | parse.ts:16-17 | an `optParens(p)` match is zero or more layers around a match of `p`, zero exactly when `p` matches bare; the value is `p`'s own |
| GrammarLayers.LayersRead | parse.ts:7-14 | one or more layers around a text that both choices read are read by both `parens` rules as the same tree, whatever follows: depth is invisible |
| GrammarLayers.LayersRoundTrip | parse.ts:11-17 | when the end or `)` follows the outer layer, neither choice matches at the first `(`, so `optParens` must take its `parens` branch; both `parens` rules read the same tree |
| GrammarWritten.TextReads | parse.ts:44-45 | a written tree in one or more layers, wherever it occurs, is read by `parens` around either choice as the tree it stands for |
| GrammarWritten.BodyReads | parse.ts:39-62 | the body of a written tree, followed by the end or `)`, is read by `conditionalChild`'s and `expression`'s choices as the tree it stands for, and by `conditionalExpr` when it is a conditional |
| GrammarWritten.CountBodyReads | parse.ts:54-57 | a written count whose argument is in any number of layers, one or more, is read through `countExpr` by both choices as the same count |
| GrammarWritten.ConditionalBodyReads | parse.ts:47-52 | a written conditional whose left operand is in any number of layers, one or more, is read by `conditionalExpr` and by both choices as the same conditional |
| GrammarWritten.RightReadsBack | parse.ts:51 | a right operand is read by `r.conditionalExpr.or(r.conditionalChild)`: a bare further chain by the first, an operand in any layers by the second once no chain matches |
| GrammarWritten.WrittenRoundTrip | parse.ts:64-68 | `parseFilter` reads every well-written tree back as the tree with its layers dropped: redundant layers anywhere the grammar allows them never change the result |
| GrammarWritten.CanonPrints | parse.ts:39-62 | `Render`'s output is the text of a well-written tree that stands for the printed tree, with no layer around the whole |
| GrammarWritten.ParseFilterRoundTrip | parse.ts:64-68 | `parseFilter(Render(e)) == e` for every well-formed tree `e` |
| GrammarWritten.ParseFilterLayers | parse.ts:16-17 | `parseFilter` reads a printed tree in any number of layers, including none, as the same tree |
| GrammarRejects.MissingOperandClause | parse.ts:34-43 | `clause` fails on a field and a keyword of the binary, numeric or date family at the end of the input: its own sequence finds no operand, the others no keyword |
| GrammarRejects.MissingOperandRejected | parse.ts:35-37 | `parseFilter` rejects a field and a keyword that wants an operand with nothing after them |
| GrammarRejects.MissingQuotedOperand | parse.ts:64-66 | `parseFilter("[City] is equal to")` throws (is `None`) |
| GrammarRejects.BareClauseExpression | parse.ts:59-61 | at a unary clause with no parentheses, `expression` reads that clause alone and stops at whatever visible character follows it |
| GrammarRejects.BareClauseFirst | parse.ts:64-66 | `parseFilter` rejects an input that continues after an unparenthesised unary clause at its start, since `.parse` needs the end of the input there |
| GrammarRejects.BareOperandRejected | parse.ts:47-52 | a connective whose left operand is a unary clause with no parentheses is rejected, whatever follows the connective |
| GrammarRejects.BareLeftOperand | parse.ts:64-66 | `parseFilter("[a] is null OR ([b] is null)")` throws (is `None`) |
| GrammarChain.ChainWellFormed | parse.ts:47-52 | the right-nested tree of a chain is well formed, and a conditional whenever there is a connective |
| GrammarChain.ChainPrints | parse.ts:47-52 | a flat chain `(A) OP (B) OP (C)` is the text of a well-written tree that stands for the right-nested tree |
| GrammarChain.RightAssociative | parse.ts:47-52 | `(A) OP (B) OP (C)` parses as `{lhs: A, op, rhs: {lhs: B, op, rhs: C}}`, for chains of any length and any well-formed operands, conditionals included |
| EarlyGrammar.Flat | parse.test.ts:75-78 | spreading the `(connective, group)` pairs into the list gives two items per pair |
| EarlyGrammar.FormSeq | parse.test.ts:20-38 | each clause form of the earlier revision yields a fitting clause, and whitespace follows its field |
| EarlyRender.OperandNeedsGap | parse.test.ts:20-38 | a form with an operand also needs whitespace after its keyword: where a visible character or the end follows the keyword, the form fails |
| EarlyGrammar.Run | parse.test.ts:40-66 | every rule of the earlier grammar consumes input and produces a well-formed group |
| EarlyGrammar.InnerRule | parse.test.ts:40-63 | the parser that `unwrapParens` wraps, for either wrapper, produces a well-formed group |
| EarlyGrammar.ClauseAlt | parse.test.ts:40-48 | the four-form alternation yields `{lhs, op, rhs}` with `rhs` undefined exactly for the unary form |
| EarlyGrammar.CountSeqRule | parse.test.ts:51-63 | the Count sequence consumes input and yields a well-formed `Count` group |
| EarlyGrammar.Threshold | parse.test.ts:54-56 | the comparison after a counted group is a numeric operator and a number |
| EarlyGrammar.UnwrapRule | parse.test.ts:90-95 | `unwrapParens(p)` consumes input and produces a well-formed group; that the group is `p`'s own is `EarlyLayers.UnwrapLayers` |
| EarlyGrammar.GroupAlt | parse.test.ts:65 | `group` (`countExpr.or(clause)`) produces a well-formed group |
| EarlyGrammar.Trimmed | parse.test.ts:69-70 | a trimmed keyword succeeds exactly when the keyword follows the leading whitespace, and returns the keyword |
| EarlyGrammar.CondOp | parse.test.ts:68-71 | `condOp` never moves backwards |
| EarlyGrammar.CondOpIsOperator | parse.test.ts:68-71 | `condOp`, with a trim on each alternative, is parse.ts's `operator(["AND", "OR"])` |
| EarlyGrammar.Cond | parse.test.ts:73 | `cond` yields an AND/OR keyword and a well-formed group |
| EarlyGrammar.Conds | parse.test.ts:75 | `cond.many()` always succeeds, with a list of connective and group pairs |
| EarlyGrammar.Conditional | parse.test.ts:75-78 | `conditional` succeeds exactly when `group` does; its list starts with that group and alternates group, connective, group |
| EarlyGrammar.FlatAlternates | parse.test.ts:75-78 | a group followed by the flattened pairs is an alternating list |
| EarlyGrammar.Filter | parse.test.ts:80 | `filter` consumes input when it succeeds |
| EarlyGrammar.FilterItems | parse.test.ts:80 | `filter` succeeds exactly when `group` does, always through its first alternative, with an alternating list |
| EarlyGrammar.ParseFilter | parse.test.ts:82-87 | a result of the local `parseFilter` is always an alternating list of groups and connectives |
| EarlyLayers.UnwrapLayers | parse.test.ts:90-95 | a match of `unwrapParens(p)` is one or more layers (never zero) around a match of `p`, with `p`'s value |
| EarlyLayers.UnwrapCases | parse.test.ts:92 | a layer holds the deeper layer, tried first, or `p` itself |
| EarlyLayers.UnwrapClosed | parse.test.ts:90-95 | on `d` layers around a match of `p`, `unwrapParens(p)` returns `p`'s value: the depth is invisible |
| EarlyLayers.UnwrapUnclosed | parse.test.ts:90-95 | with fewer closing than opening parentheses, `unwrapParens(p)` fails: a layer whose deeper layer succeeded does not fall back to `p` |
| EarlyLayers.UnwrapFails | parse.test.ts:90-95 | below its layers `unwrapParens(p)` fails when `p` fails |
| EarlyLayers.NestSplit | parse.test.ts:90-95 | nested layers are opening parentheses before the match and closing ones after it |
| EarlyLayers.ClauseNeedsField | parse.test.ts:40-48 | the clause alternation needs the `[` of a field |
| EarlyLayers.CountNeedsKeyword | parse.test.ts:51-56 | the Count sequence needs the `Count` keyword |
| EarlyRender.ClauseParses | parse.test.ts:20-48 | the four-form alternation reads any printed well-formed clause back, with single spaces as the mandatory whitespace |
| EarlyRender.FormFails | parse.test.ts:20-38 | a clause form fails on a clause whose operator belongs to another form |
| EarlyRender.InnerReads | parse.test.ts:40-63 | the parser inside the layers reads the printed body of a group back: a clause, or `Count`, a group and the comparison |
| EarlyRender.GroupRoundTrip | parse.test.ts:50-66 | `group` reads a printed group in any number of layers, one or more, back as the same group |
| EarlyRender.OpenGroupFails | parse.test.ts:50-66 | `group` fails on a layer that holds a group followed by a connective: a parenthesised AND/OR list is not a group |
| EarlyRender.CondOpSpacing | parse.test.ts:68-71 | `condOp` reads AND or OR with any whitespace before and after it, trimmed on both sides |
| EarlyRender.CondsRoundTrip | parse.test.ts:68-75 | `cond.many()` reads the printed connectives and groups back as the same pairs, up to the end |
| EarlyRender.CondsStop | parse.test.ts:73-75 | `cond.many()` stops, with no pairs, before a connective whose group fails |
| EarlyRender.EarlyRoundTrip | parse.test.ts:75-87 | the local `parseFilter` reads every printed list back as the flat alternating list of its groups and connectives |
| EarlyRender.NestedListRejected | parse.test.ts:50-66 | a parenthesised AND/OR list after a connective makes the local `parseFilter` fail |
| EarlyCases.SingleGroup | parse.test.ts:75-87 | a single group with no connective comes back as a one-element list |
| EarlyCases.PairCase | parse.test.ts:75-87 | two groups joined by a connective come back as `[group, connective, group]` |
| EarlyCases.TripleCase | parse.test.ts:75-87 | three groups come back as the five-element alternating list |
| EarlyCases.ClauseCase | parse.test.ts:101-111 | "clause": a clause in four layers is the one-element list of that clause |
| EarlyCases.ClauseOrCase | parse.test.ts:113-129 | "clause or": two clauses joined by OR come back as three items |
| EarlyCases.ClauseOrOrCase | parse.test.ts:131-153 | "clause or or": three clauses joined by OR come back as five items |
| EarlyCases.NestedOrCase | parse.test.ts:155-179 | "nested or" (skipped in the source): the nested list is rejected |
| EarlyCases.NotEqualCase | parse.test.ts:181-191 | "not equal to": the string `Fennimore, WI` is kept verbatim, comma and space included |
| EarlyCases.NotEqualAndCase | parse.test.ts:193-209 | "not equal to and": two clauses joined by AND come back as three items |
| EarlyCases.EntryDateCase | parse.test.ts:211-221 | "entry date": the date text, with hyphens, spaces and colons, is kept verbatim |
| EarlyCases.NumberCase | parse.test.ts:223-233 | "number": `5.0` stays the string `"5.0"` |
| EarlyCases.CountCase | parse.test.ts:235-250 | "count": a count of a clause on a backslash-separated field path, in five layers, is the one-element list of the count |
| EarlyCases.UnaryCase | parse.test.ts:252-262 | "unary": the unary clause has no `rhs` and the field keeps its backslash |
| EarlyCases.CountOrCase | parse.test.ts:264-285 | "count or": a count joined by OR to a clause comes back as three items |
| EarlyCases.EnteredByIsText | parse.test.ts:10 | the field path of the "unary" case is drawn from the text class, backslash included |
| EarlyCases.BrianPathIsText | parse.test.ts:10 | the field path of the "count" case is drawn from the text class |

## Left out

- **The page module.** app/routes/index.tsx is not part of this model. It holds the React page, its state and the error-swallowing wrapper around `parseFilter`.
- **Parsimmon's failure object.** The furthest index and the expected tokens that `parseFilter` throws are not modelled. A failure is `None`, and only the fact that there is no result is modelled.
- **Missing features.** The `type: "Compare"`/`"AndOr"` tags, literal objects, relative-date operators and further comparison operators do not occur in the code. They are not modelled.
- **The `parseParens` fixture.** parse.test.ts:97 is unused and not modelled.
- **Runtime concerns.** Running time and stack depth are not modelled.
- **Character set.** The text class is the source's regular expression `[a-z ,A-Z0-9\\\._:-]`. It includes the backslash (and the jest cases depend on it), so the model includes it too.
- **Whitespace.** It is JavaScript's `\s`: space, tab to carriage return, no-break space, the Unicode space separators, the line and paragraph separators and the byte-order mark.
- **Threshold split.** `EarlyGrammar.Threshold` is a helper of the model. It splits the tail of the Count sequence (whitespace, `numOp`, whitespace, number) from `P.seq`. The result is the same.
- **The printers.** They write one space on each side of a connective and inside a clause.
  - `Atoms.OperatorOf` proves that any whitespace, including none, is trimmed around an operator or connective.
  - The round trips are stated for the printed spacing only.
- GrammarWritten.WrittenRoundTrip: covers the argument of `Count` in one or more layers only. The grammar also reads an argument with no layer of its own, such as `Count[x] is null > 0` or `Count([a] is null) AND ([b] is null) > 0`. A written count always gives its argument a layer, so these inputs are not covered.
- Grammar.ParensRule: its own contract states that the result is well formed and consumes input. That the value is `p`'s own, under one or more layers, is `GrammarLayers.ParensLayers`.
- Grammar.OptParensRule: likewise; the value being `p`'s own, under zero or more layers, is `GrammarLayers.OptParensLayers`.
- EarlyGrammar.UnwrapRule: likewise; the value being `p`'s own is `EarlyLayers.UnwrapLayers`.
- GrammarLayers.ParensLayers: stated for the two parsers that `parens` wraps in parse.ts (the choice of `conditionalChild` and that of `expression`), not for an arbitrary parser.
- GrammarLayers.ParensCases: likewise for those two parsers only.
- GrammarLayers.OptParensLayers: likewise for those two parsers only.
- **The jest inputs.**
  - Each jest input is stated as the printed form of groups (`EarlyRender.Text`/`ListText` of the written groups). The printed form has the layers, the spacing and the delimiters of the test's string.
  - The character-by-character equality with the test's string literals is not proved.
  - The expected values are the test's own: lists of groups and connective keywords.
- EarlyCases.NestedOrCase: the source skips this test, and its expected nested list is not what the code does. The model proves the input is rejected (`None`, where the source throws).
