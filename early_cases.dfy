/**
 * The jest cases of the local `parseFilter` in parse.test.ts. Each input is
 * stated as the printed form of the groups it is made of (`Text` and
 * `ListText` print the layers, the clause, `Count` and the connectives as
 * the test writes them), and each result is the flat list the test expects.
 */
module EarlyCases {
  import opened Atoms
  import opened Operands
  import opened EarlyGrammar
  import opened EarlyRender

  /** The field of the "unary" and "count or" cases. */
  const EnteredBy: string := "cgInspections\\" + "EnteredBy"

  /** The field of the "count" case: a path of six names. */
  const BrianPath: string :=
    "cgInspections\\" + "cgConditionCategories\\" + "ConditionCategory\\" + "cgImpacts\\" + "Activity\\" + "EnteredBy"

  lemma ClassConcat(k: CharClass, a: string, b: string)
    requires AllIn(k, a) && AllIn(k, b)
    ensures AllIn(k, a + b)
  {
    assert forall i :: |a| <= i < |a + b| ==> (a + b)[i] == b[i - |a|];
  }

  /** The field of the "unary" and "count or" cases is made of text characters. */
  lemma EnteredByIsText()
    ensures AllIn(TextChars, EnteredBy)
  {
    assert AllIn(TextChars, "cgInspections\\") && AllIn(TextChars, "EnteredBy");
    ClassConcat(TextChars, "cgInspections\\", "EnteredBy");
  }

  /** The field of the "count" case is made of text characters. */
  lemma BrianPathIsText()
    ensures AllIn(TextChars, BrianPath)
  {
    var p := "cgInspections\\" + "cgConditionCategories\\" + "ConditionCategory\\";
    assert AllIn(TextChars, "cgInspections\\") && AllIn(TextChars, "cgConditionCategories\\");
    ClassConcat(TextChars, "cgInspections\\", "cgConditionCategories\\");
    assert AllIn(TextChars, "ConditionCategory\\");
    ClassConcat(TextChars, "cgInspections\\" + "cgConditionCategories\\", "ConditionCategory\\");
    assert AllIn(TextChars, "cgImpacts\\") && AllIn(TextChars, "Activity\\") && AllIn(TextChars, "EnteredBy");
    ClassConcat(TextChars, p, "cgImpacts\\");
    ClassConcat(TextChars, p + "cgImpacts\\", "Activity\\");
    ClassConcat(TextChars, p + "cgImpacts\\" + "Activity\\", "EnteredBy");
  }

  /** A single printed group is read back as a one-element list. */
  lemma SingleGroup(w: Written)
    requires WellWritten(w)
    ensures ParseFilter(Text(w)) == Some(Items([Term(Erase(w))]))
  {
    var s := Text(w);
    assert s[0..|s|] == s;
    GroupRoundTrip(w, s, 0);
    CondsRoundTrip([], s, |s|);
    FilterSteps(s, Erase(w), |s|, []);
    assert Flat([]) == [];
    assert [Term(Erase(w))] + Flat([]) == [Term(Erase(w))];
  }

  /** A printed list is read back as the items of its groups and connectives. */
  lemma ListCase(a: Written, rest: seq<(string, Written)>, items: seq<Item>)
    requires WellWritten(a) && WellWrittenPairs(rest) && [Term(Erase(a))] + Flat(ErasePairs(rest)) == items
    ensures ParseFilter(ListText(a, rest)) == Some(Items(items))
  {
    EarlyRoundTrip(a, rest);
  }

  /** The items of a list of two groups. */
  lemma PairItems(a: Written, op: string, b: Written)
    ensures [Term(Erase(a))] + Flat(ErasePairs([(op, b)])) == [Term(Erase(a)), Connective(op), Term(Erase(b))]
  {
    assert [(op, b)][1..] == [];
    var f := [(op, Erase(b))];
    assert ErasePairs([(op, b)]) == f;
    assert f[1..] == [];
  }

  /** Two printed groups and their connective are read back as a three-element list. */
  lemma PairCase(a: Written, op: string, b: Written)
    requires WellWritten(a) && WellWritten(b) && op in CondOps
    ensures ParseFilter(ListText(a, [(op, b)])) == Some(Items([Term(Erase(a)), Connective(op), Term(Erase(b))]))
  {
    assert WellWrittenPairs([(op, b)]);
    PairItems(a, op, b);
    ListCase(a, [(op, b)], [Term(Erase(a)), Connective(op), Term(Erase(b))]);
  }

  /** The items of a tail of two pairs: each connective, then its group. */
  lemma TwoPairItems(op1: string, b: Written, op2: string, c: Written)
    ensures Flat(ErasePairs([(op1, b), (op2, c)])) == [Connective(op1), Term(Erase(b)), Connective(op2), Term(Erase(c))]
  {
    var rest := [(op1, b), (op2, c)];
    assert rest[1..] == [(op2, c)] && rest[1..][1..] == [];
    var f := [(op1, Erase(b)), (op2, Erase(c))];
    assert ErasePairs(rest) == f;
    assert f[1..] == [(op2, Erase(c))] && f[1..][1..] == [];
  }

  /** The items of a list of three groups. */
  lemma TripleItems(a: Written, op1: string, b: Written, op2: string, c: Written)
    ensures [Term(Erase(a))] + Flat(ErasePairs([(op1, b), (op2, c)]))
         == [Term(Erase(a)), Connective(op1), Term(Erase(b)), Connective(op2), Term(Erase(c))]
  {
    TwoPairItems(op1, b, op2, c);
    Prepend(Term(Erase(a)), Connective(op1), Term(Erase(b)), Connective(op2), Term(Erase(c)));
  }

  /** One item before a four-item list; kept apart so the sequence display is proved on its own. */
  lemma Prepend(x: Item, i0: Item, i1: Item, i2: Item, i3: Item)
    ensures [x] + [i0, i1, i2, i3] == [x, i0, i1, i2, i3]
  {
  }

  /** Both pairs of a three-group list are well written; kept apart for the same reason. */
  lemma TwoPairsWritten(op1: string, b: Written, op2: string, c: Written)
    requires WellWritten(b) && WellWritten(c) && op1 in CondOps && op2 in CondOps
    ensures WellWrittenPairs([(op1, b), (op2, c)])
  {
  }

  /** Three printed groups and their connectives are read back as a five-element list. */
  lemma TripleCase(a: Written, op1: string, b: Written, op2: string, c: Written)
    requires WellWritten(a) && WellWritten(b) && WellWritten(c) && op1 in CondOps && op2 in CondOps
    ensures ParseFilter(ListText(a, [(op1, b), (op2, c)]))
         == Some(Items([Term(Erase(a)), Connective(op1), Term(Erase(b)), Connective(op2), Term(Erase(c))]))
  {
    TwoPairsWritten(op1, b, op2, c);
    TripleItems(a, op1, b, op2, c);
    ListCase(a, [(op1, b), (op2, c)], [Term(Erase(a)), Connective(op1), Term(Erase(b)), Connective(op2), Term(Erase(c))]);
  }

  /** "clause": `(((([City] is equal to "Dubuque"))))`. */
  lemma ClauseCase()
    ensures ParseFilter(Text(WClause(4, "City", "is equal to", Some("Dubuque"))))
         == Some(Items([Term(Clause("City", "is equal to", Some("Dubuque")))]))
  {
    assert AllIn(TextChars, "City") && AllIn(TextChars, "Dubuque");
    SingleGroup(WClause(4, "City", "is equal to", Some("Dubuque")));
  }

  /** "clause or": `(([City] is equal to "Dubuque")) OR (([City] is equal to "Chicago"))`. */
  lemma ClauseOrCase()
    ensures ParseFilter(ListText(WClause(2, "City", "is equal to", Some("Dubuque")),
                                 [("OR", WClause(2, "City", "is equal to", Some("Chicago")))]))
         == Some(Items([Term(Clause("City", "is equal to", Some("Dubuque"))), Connective("OR"),
                        Term(Clause("City", "is equal to", Some("Chicago")))]))
  {
    assert AllIn(TextChars, "City") && AllIn(TextChars, "Dubuque") && AllIn(TextChars, "Chicago");
    PairCase(WClause(2, "City", "is equal to", Some("Dubuque")), "OR", WClause(2, "City", "is equal to", Some("Chicago")));
  }

  /** "count": five layers around `Count` of a two-layer clause on a path field. */
  lemma CountCase()
    ensures ParseFilter(Text(WCount(5, WClause(2, BrianPath, "is equal to", Some("Brian")), ">", "0")))
         == Some(Items([Term(Count(Clause(BrianPath, "is equal to", Some("Brian")), ">", "0"))]))
  {
    BrianPathIsText();
    assert AllIn(TextChars, "Brian") && AllIn(NumberChars, "0");
    SingleGroup(WCount(5, WClause(2, BrianPath, "is equal to", Some("Brian")), ">", "0"));
  }

  /**
   * "clause or or": `(([City] is equal to "Dubuque")) OR (([City] is equal to "Chicago"))
   * OR (([City] is equal to "New York"))`.
   */
  lemma ClauseOrOrCase()
    ensures ParseFilter(ListText(WClause(2, "City", "is equal to", Some("Dubuque")),
                                 [("OR", WClause(2, "City", "is equal to", Some("Chicago"))),
                                  ("OR", WClause(2, "City", "is equal to", Some("New York")))]))
         == Some(Items([Term(Clause("City", "is equal to", Some("Dubuque"))), Connective("OR"),
                        Term(Clause("City", "is equal to", Some("Chicago"))), Connective("OR"),
                        Term(Clause("City", "is equal to", Some("New York")))]))
  {
    assert AllIn(TextChars, "City") && AllIn(TextChars, "Dubuque");
    assert AllIn(TextChars, "Chicago") && AllIn(TextChars, "New York");
    TripleCase(WClause(2, "City", "is equal to", Some("Dubuque")),
               "OR", WClause(2, "City", "is equal to", Some("Chicago")),
               "OR", WClause(2, "City", "is equal to", Some("New York")));
  }

  /**
   * "nested or", a skipped test: `(([City] is equal to "Akron")) OR ((([City] is equal to
   * "Aubrey")) OR (([City] is equal to "Dubuque")))`. The test expects a nested list;
   * the local `parseFilter` has none and rejects the input.
   */
  lemma NestedOrCase()
    ensures ParseFilter(Text(WClause(2, "City", "is equal to", Some("Akron"))) + " OR "
                        + ("(" + Text(WClause(2, "City", "is equal to", Some("Aubrey"))) + " "
                           + ("OR " + Text(WClause(2, "City", "is equal to", Some("Dubuque"))) + ")")))
         == None
  {
    assert AllIn(TextChars, "City") && AllIn(TextChars, "Akron") && AllIn(TextChars, "Aubrey");
    assert " " + "OR" + " " == " OR ";
    NestedListRejected(WClause(2, "City", "is equal to", Some("Akron")), "OR",
                       WClause(2, "City", "is equal to", Some("Aubrey")),
                       "OR " + Text(WClause(2, "City", "is equal to", Some("Dubuque"))) + ")");
  }

  /** "not equal to": `(([City] is not equal to "Fennimore, WI"))`. */
  lemma NotEqualCase()
    ensures ParseFilter(Text(WClause(2, "City", "is not equal to", Some("Fennimore, WI"))))
         == Some(Items([Term(Clause("City", "is not equal to", Some("Fennimore, WI")))]))
  {
    assert AllIn(TextChars, "City") && AllIn(TextChars, "Fennimore, WI");
    SingleGroup(WClause(2, "City", "is not equal to", Some("Fennimore, WI")));
  }

  /** "not equal to and": `(([City] is not equal to "Fennimore, WI")) AND (([City] is not equal to "Chicago"))`. */
  lemma NotEqualAndCase()
    ensures ParseFilter(ListText(WClause(2, "City", "is not equal to", Some("Fennimore, WI")),
                                 [("AND", WClause(2, "City", "is not equal to", Some("Chicago")))]))
         == Some(Items([Term(Clause("City", "is not equal to", Some("Fennimore, WI"))), Connective("AND"),
                        Term(Clause("City", "is not equal to", Some("Chicago")))]))
  {
    assert AllIn(TextChars, "City") && AllIn(TextChars, "Fennimore, WI") && AllIn(TextChars, "Chicago");
    PairCase(WClause(2, "City", "is not equal to", Some("Fennimore, WI")),
             "AND", WClause(2, "City", "is not equal to", Some("Chicago")));
  }

  /** "entry date": `(([EntryDate] is before #2022-09-01 12:00:00 AM#))`. */
  lemma EntryDateCase()
    ensures ParseFilter(Text(WClause(2, "EntryDate", "is before", Some("2022-09-01 12:00:00 AM"))))
         == Some(Items([Term(Clause("EntryDate", "is before", Some("2022-09-01 12:00:00 AM")))]))
  {
    assert AllIn(TextChars, "EntryDate") && AllIn(TextChars, "2022-09-01 12:00:00 AM");
    SingleGroup(WClause(2, "EntryDate", "is before", Some("2022-09-01 12:00:00 AM")));
  }

  /** "number": `(([cgConsequenceOfFailureScore] < 5.0))`. */
  lemma NumberCase()
    ensures ParseFilter(Text(WClause(2, "cgConsequenceOfFailureScore", "<", Some("5.0"))))
         == Some(Items([Term(Clause("cgConsequenceOfFailureScore", "<", Some("5.0")))]))
  {
    assert AllIn(TextChars, "cgConsequenceOfFailureScore") && AllIn(NumberChars, "5.0");
    SingleGroup(WClause(2, "cgConsequenceOfFailureScore", "<", Some("5.0")));
  }

  /** "unary": `(([cgInspections\EnteredBy] is null))`; the clause has no operand. */
  lemma UnaryCase()
    ensures ParseFilter(Text(WClause(2, EnteredBy, "is null", None)))
         == Some(Items([Term(Clause(EnteredBy, "is null", None))]))
  {
    EnteredByIsText();
    SingleGroup(WClause(2, EnteredBy, "is null", None));
  }

  /** "count or": `(Count(([cgInspections\EnteredBy] is null)) > 0) OR (([City] is equal to "Dubuque"))`. */
  lemma CountOrCase()
    ensures ParseFilter(ListText(WCount(1, WClause(2, EnteredBy, "is null", None), ">", "0"),
                                 [("OR", WClause(2, "City", "is equal to", Some("Dubuque")))]))
         == Some(Items([Term(Count(Clause(EnteredBy, "is null", None), ">", "0")), Connective("OR"),
                        Term(Clause("City", "is equal to", Some("Dubuque")))]))
  {
    EnteredByIsText();
    assert AllIn(NumberChars, "0") && AllIn(TextChars, "City") && AllIn(TextChars, "Dubuque");
    PairCase(WCount(1, WClause(2, EnteredBy, "is null", None), ">", "0"),
             "OR", WClause(2, "City", "is equal to", Some("Dubuque")));
  }
}
