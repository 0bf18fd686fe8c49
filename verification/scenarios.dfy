/**
 Worked examples of the rule on concrete filters: the two-relation disjunction from
 the rule's documentation, a conjunct without OR, a branch with nothing for one
 relation, the first-branch-only seeding of qualifiers, and a key collision.
 */
module Scenarios {
  import opened Wrappers
  import opened Expressions
  import opened ExpressionUtils
  import opened Qualifiers
  import opened SingleTableExtraction
  import opened ExtractSingleTableRule

  /** `column = literal`, a comparison: an opaque node over a column and a literal. */
  function Eq(column: Slot, literal: string): (e: Expr)
    ensures InputSlots(e) == {column}
  {
    var e := Other("=", [Col(column), Other(literal, [])]);
    EqSlots(column, literal);
    e
  }

  /** The columns a comparison of a column with a literal reads: that column alone. */
  lemma EqSlots(column: Slot, literal: string)
    ensures InputSlots(Other("=", [Col(column), Other(literal, [])])) == {column}
  {
    var args := [Col(column), Other(literal, [])];
    assert InputSlots(args[0]) == {column};
    assert InputSlots(args[1]) == {};
    forall s | s in InputSlots(Other("=", args))
      ensures s == column
    {
      var i :| 0 <= i < |args| && s in InputSlots(args[i]);
    }
  }

  const N1Name := Slot(["n1"], "n_name")
  const N2Name := Slot(["n2"], "n_name")
  const N1X := Slot(["n1"], "x")
  const N2Y := Slot(["n2"], "y")

  /** A literal that reads no column. */
  const TrueLiteral := Other("true", [])

  /** The keys of the single-component paths n1 and n2. */
  lemma Keys()
    ensures QualifierKey(["n1"]) == "n1."
    ensures QualifierKey(["n2"]) == "n2."
  {
    assert QualifierKey(["n1"]) == "n1" + "." + QualifierKey([]);
    assert QualifierKey(["n2"]) == "n2" + "." + QualifierKey([]);
  }

  /** The parts of a two-part AND that read only `q`'s columns, rebuilt. */
  lemma ExtractFromPair(a: Expr, b: Expr, q: string)
    requires !a.And? && !b.And?
    ensures IsSingleTable(a, q) && IsSingleTable(b, q) ==> ExtractSingleTable(And(a, b), q) == Some(And(a, b))
    ensures IsSingleTable(a, q) && !IsSingleTable(b, q) ==> ExtractSingleTable(And(a, b), q) == Some(a)
    ensures !IsSingleTable(a, q) && IsSingleTable(b, q) ==> ExtractSingleTable(And(a, b), q) == Some(b)
    ensures !IsSingleTable(a, q) && !IsSingleTable(b, q) ==> ExtractSingleTable(And(a, b), q) == None
  {
    assert Conjuncts(And(a, b)) == [a, b];
    assert [a, b][1..] == [b];
    assert [b][1..] == [];
    assert KeepSingleTable([b], q) == (if IsSingleTable(b, q) then [b] else []);
    assert MakeAnd([a, b]) == And(a, b) by {
      assert [a, b][..1] == [a];
    }
  }

  /** With two branches, the candidate is the OR of the two extractions. */
  lemma CandidateOfPair(b0: Expr, b1: Expr, q: string)
    ensures Candidate([b0, b1], q).Some? <==>
      ExtractSingleTable(b0, q).Some? && ExtractSingleTable(b1, q).Some?
    ensures Candidate([b0, b1], q).Some? ==>
      Candidate([b0, b1], q).value == Or(ExtractSingleTable(b0, q).value, ExtractSingleTable(b1, q).value)
  {
    var bs := [b0, b1];
    var xs := ExtractEach(bs, q);
    if xs.Some? {
      var v := xs.value;
      assert ExtractSingleTable(bs[0], q) == Some(v[0]);
      assert ExtractSingleTable(bs[1], q) == Some(v[1]);
      assert v == [v[0], v[1]];
      assert v[..1] == [v[0]];
      assert MakeOr(v) == Or(v[0], v[1]);
      assert Candidate(bs, q) == Some(MakeOr(v));
    } else {
      var i :| 0 <= i < 2 && ExtractSingleTable(bs[i], q).None?;
      assert i == 0 || i == 1;
    }
  }

  /** A comparison reads only `q`'s columns exactly when its column has key `q`. */
  lemma EqSingleTable(column: Slot, literal: string, q: string)
    ensures IsSingleTable(Eq(column, literal), q) <==> QualifierKey(column.qualifier) == q
  {
    assert QualifiersOf(Eq(column, literal)) == {QualifierKey(column.qualifier)};
  }

  /** The relations read by an AND of two comparisons. */
  lemma QualifiersOfPair(c1: Slot, l1: string, c2: Slot, l2: string)
    ensures QualifiersOf(And(Eq(c1, l1), Eq(c2, l2)))
         == {QualifierKey(c1.qualifier), QualifierKey(c2.qualifier)}
  {
    assert InputSlots(And(Eq(c1, l1), Eq(c2, l2))) == {c1, c2};
  }

  const France1 := Eq(N1Name, "FRANCE")
  const Germany1 := Eq(N1Name, "GERMANY")
  const France2 := Eq(N2Name, "FRANCE")
  const Germany2 := Eq(N2Name, "GERMANY")

  /** For n1, each branch yields its n1 comparison. */
  lemma TwoRelationCandidateN1()
    ensures Candidate([And(France1, Germany2), And(Germany1, France2)], "n1.") == Some(Or(France1, Germany1))
  {
    Keys();
    EqSingleTable(N1Name, "FRANCE", "n1.");
    EqSingleTable(N1Name, "GERMANY", "n1.");
    EqSingleTable(N2Name, "FRANCE", "n1.");
    EqSingleTable(N2Name, "GERMANY", "n1.");
    ExtractFromPair(France1, Germany2, "n1.");
    ExtractFromPair(Germany1, France2, "n1.");
    CandidateOfPair(And(France1, Germany2), And(Germany1, France2), "n1.");
  }

  /** For n2, each branch yields its n2 comparison. */
  lemma TwoRelationCandidateN2()
    ensures Candidate([And(France1, Germany2), And(Germany1, France2)], "n2.") == Some(Or(Germany2, France2))
  {
    Keys();
    EqSingleTable(N1Name, "FRANCE", "n2.");
    EqSingleTable(N1Name, "GERMANY", "n2.");
    EqSingleTable(N2Name, "FRANCE", "n2.");
    EqSingleTable(N2Name, "GERMANY", "n2.");
    ExtractFromPair(France1, Germany2, "n2.");
    ExtractFromPair(Germany1, France2, "n2.");
    CandidateOfPair(And(France1, Germany2), And(Germany1, France2), "n2.");
  }

  /**
   (n1.n_name = 'FRANCE' and n2.n_name = 'GERMANY') or (n1.n_name = 'GERMANY' and n2.n_name = 'FRANCE')
   yields n1.n_name = 'FRANCE' or n1.n_name = 'GERMANY' and n2.n_name = 'GERMANY' or n2.n_name = 'FRANCE'.
   */
  lemma TwoRelationDisjunction()
    ensures
      var c := Or(And(France1, Germany2), And(Germany1, France2));
      RedundantsOf(c) == {Or(France1, Germany1), Or(Germany2, France2)}
  {
    var b0, b1 := And(France1, Germany2), And(Germany1, France2);
    var c := Or(b0, b1);
    assert Disjuncts(c) == [b0, b1];
    assert QualifiersOf(b0) == {"n1.", "n2."} by {
      Keys();
      QualifiersOfPair(N1Name, "FRANCE", N2Name, "GERMANY");
    }
    TwoRelationCandidateN1();
    TwoRelationCandidateN2();
    RedundantsForTwo([b0, b1], "n1.", "n2.");
  }

  /** What `f` yields on two keys: the value of each that has one. */
  lemma PresentPair<K, V>(k1: K, k2: K, f: K -> Option<V>, x: V)
    ensures x in Present({k1, k2}, f) <==> f(k1) == Some(x) || f(k2) == Some(x)
  {
    if f(k1) == Some(x) {
      assert k1 in {k1, k2};
    }
    if f(k2) == Some(x) {
      assert k2 in {k1, k2};
    }
  }

  /** Trying two qualifiers that both succeed yields their two candidates. */
  lemma RedundantsForTwo(branches: seq<Expr>, q1: string, q2: string)
    requires |branches| >= 1
    requires Candidate(branches, q1).Some? && Candidate(branches, q2).Some?
    ensures RedundantsFor(branches, {q1, q2}) == {Candidate(branches, q1).value, Candidate(branches, q2).value}
  {
    forall x
      ensures x in RedundantsFor(branches, {q1, q2}) <==> x == Candidate(branches, q1).value || x == Candidate(branches, q2).value
    {
      PresentPair(q1, q2, CandidateOf(branches), x);
    }
  }

  /** Extraction from a branch that is a single non-AND part. */
  lemma ExtractFromSingle(a: Expr, q: string)
    requires !a.And?
    ensures ExtractSingleTable(a, q) == if IsSingleTable(a, q) then Some(a) else None
  {
    assert Conjuncts(a) == [a];
    assert [a][1..] == [];
  }

  /** Trying two qualifiers of which only the second succeeds yields its candidate alone. */
  lemma RedundantsForSecond(branches: seq<Expr>, q1: string, q2: string)
    requires |branches| >= 1
    requires Candidate(branches, q1).None? && Candidate(branches, q2).Some?
    ensures RedundantsFor(branches, {q1, q2}) == {Candidate(branches, q2).value}
  {
    forall x
      ensures x in RedundantsFor(branches, {q1, q2}) <==> x == Candidate(branches, q2).value
    {
      PresentPair(q1, q2, CandidateOf(branches), x);
    }
  }

  /** A conjunct without a top-level OR adds nothing, and the flag is still set. */
  lemma NoDisjunctionScenario<Plan>(child: Plan)
    ensures
      var c := And(Eq(N1Name, "A"), Eq(N2Name, "B"));
      Rewrite(Filter({c}, false, child)) == Filter({c}, true, child)
  {
    var c := And(Eq(N1Name, "A"), Eq(N2Name, "B"));
    NonDisjunctionAddsNothing(c);
    assert Redundants({c}) == {};
  }

  const X1 := Eq(N1X, "1")
  const Y2 := Eq(N2Y, "2")
  const Y3 := Eq(N2Y, "3")

  /** For n1, the branch n2.y = 3 yields nothing, so there is no candidate. */
  lemma BranchWithoutPartCandidateN1()
    ensures Candidate([And(X1, Y2), Y3], "n1.").None?
  {
    Keys();
    EqSingleTable(N2Y, "3", "n1.");
    ExtractFromSingle(Y3, "n1.");
    CandidateOfPair(And(X1, Y2), Y3, "n1.");
  }

  /** For n2, the first branch yields n2.y = 2 and the second itself. */
  lemma BranchWithoutPartCandidateN2()
    ensures Candidate([And(X1, Y2), Y3], "n2.") == Some(Or(Y2, Y3))
  {
    Keys();
    EqSingleTable(N1X, "1", "n2.");
    EqSingleTable(N2Y, "2", "n2.");
    EqSingleTable(N2Y, "3", "n2.");
    ExtractFromPair(X1, Y2, "n2.");
    ExtractFromSingle(Y3, "n2.");
    CandidateOfPair(And(X1, Y2), Y3, "n2.");
  }

  /**
   (n1.x = 1 and n2.y = 2) or n2.y = 3: the second branch has nothing for n1, so only
   n2.y = 2 or n2.y = 3 is derived.
   */
  lemma BranchWithoutPartScenario()
    ensures
      var c := Or(And(X1, Y2), Y3);
      RedundantsOf(c) == {Or(Y2, Y3)}
  {
    var b0 := And(X1, Y2);
    var c := Or(b0, Y3);
    assert Disjuncts(c) == [b0, Y3];
    assert QualifiersOf(b0) == {"n1.", "n2."} by {
      Keys();
      QualifiersOfPair(N1X, "1", N2Y, "2");
    }
    BranchWithoutPartCandidateN1();
    BranchWithoutPartCandidateN2();
    RedundantsForSecond([b0, Y3], "n1.", "n2.");
  }

  /**
   true or n1.n_name = 'A': every branch yields a part for n1 (the literal reads no
   column, so it belongs to every relation), yet n1 is never tried because the first
   branch reads no column, and nothing is derived.
   */
  lemma FirstBranchOnlyScenario()
    ensures
      var c := Or(TrueLiteral, Eq(N1Name, "A"));
      && Candidate(Disjuncts(c), "n1.") == Some(c)
      && RedundantsOf(c) == {}
  {
    var a := Eq(N1Name, "A");
    var c := Or(TrueLiteral, a);
    assert Disjuncts(c) == [TrueLiteral, a];
    assert InputSlots(TrueLiteral) == {};
    assert QualifiersOf(TrueLiteral) == {};
    assert Candidate([TrueLiteral, a], "n1.") == Some(c) by {
      Keys();
      EqSingleTable(N1Name, "A", "n1.");
      ExtractFromSingle(TrueLiteral, "n1.");
      ExtractFromSingle(a, "n1.");
      CandidateOfPair(TrueLiteral, a, "n1.");
    }
  }

  /** Distinct qualifier paths can share a key when a component contains a '.'. */
  lemma KeyCollision()
    ensures ["a.b"] != ["a", "b"]
    ensures QualifierKey(["a.b"]) == QualifierKey(["a", "b"]) == "a.b."
  {
    assert ["a", "b"][1..] == ["b"];
    assert QualifierKey(["b"]) == "b.";
  }
}
