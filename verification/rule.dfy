/**
 The rewrite rule: for every conjunct of a filter that is an OR of several branches,
 and for every relation read by its first branch, extract from each branch the part
 that reads only that relation; when every branch yields one, the OR of those parts
 is a new conjunct implied by the original. The rule adds all such conjuncts, keeps
 the original ones, and sets the filter's run-once flag.
 */
module ExtractSingleTableRule {
  import opened Wrappers
  import opened Expressions
  import opened ExpressionUtils
  import opened Qualifiers
  import opened SingleTableExtraction

  /** A logical filter: its AND-ed conjuncts, the run-once flag and its child plan, carried opaquely. */
  datatype Filter<Plan> = Filter(conjuncts: set<Expr>, singleTableExtracted: bool, child: Plan)

  /** Every conjunct of `cs` holds under `v`. */
  ghost predicate Holds(cs: set<Expr>, v: Expr -> bool)
  {
    forall c :: c in cs ==> Eval(c, v)
  }

  /** Extraction for `q` on every branch in order, failing as soon as one branch fails. */
  function ExtractEach(branches: seq<Expr>, q: string): (r: Option<seq<Expr>>)
    ensures r.Some? <==> forall i :: 0 <= i < |branches| ==> ExtractSingleTable(branches[i], q).Some?
    ensures r.Some? ==> |r.value| == |branches|
    ensures r.Some? ==> forall i :: 0 <= i < |branches| ==> ExtractSingleTable(branches[i], q) == Some(r.value[i])
  {
    if branches == [] then Some([])
    else match ExtractSingleTable(branches[0], q)
      case None => None
      case Some(x) =>
        match ExtractEach(branches[1..], q)
        case None => None
        case Some(xs) => Some([x] + xs)
  }

  /** The OR of per-branch extractions holds whenever some branch holds. */
  lemma OrOfExtractionsImplied(branches: seq<Expr>, xs: seq<Expr>, q: string, v: Expr -> bool)
    requires |xs| == |branches| >= 1
    requires forall i :: 0 <= i < |branches| ==> ExtractSingleTable(branches[i], q) == Some(xs[i])
    requires AnyHolds(branches, v)
    ensures Eval(MakeOr(xs), v)
  {
    var i :| 0 <= i < |branches| && Eval(branches[i], v);
    ExtractSingleTableSound(branches[i], q);
    assert Eval(xs[i], v);
    MakeOrEval(xs, v);
  }

  /** The predicate derived for `q` from a list of branches, if every branch yields a part. */
  function Candidate(branches: seq<Expr>, q: string): (r: Option<Expr>)
    requires |branches| >= 1
    ensures r.Some? <==> forall i :: 0 <= i < |branches| ==> ExtractSingleTable(branches[i], q).Some?
  {
    match ExtractEach(branches, q)
    case None => None
    case Some(xs) => Some(MakeOr(xs))
  }

  /** A candidate reads only the columns keyed `q` and holds whenever some branch holds. */
  lemma CandidateSound(branches: seq<Expr>, q: string, v: Expr -> bool)
    requires |branches| >= 1
    requires Candidate(branches, q).Some?
    ensures IsSingleTable(Candidate(branches, q).value, q)
    ensures AnyHolds(branches, v) ==> Eval(Candidate(branches, q).value, v)
  {
    var xs := ExtractEach(branches, q).value;
    forall i | 0 <= i < |xs|
      ensures IsSingleTable(xs[i], q)
    {
      ExtractSingleTableSound(branches[i], q);
    }
    MakeOrSingleTable(xs, q);
    if AnyHolds(branches, v) {
      OrOfExtractionsImplied(branches, xs, q, v);
    }
  }

  /** The values `f` yields on the keys `keys` it yields one for. */
  function Present<K, V>(keys: set<K>, f: K -> Option<V>): set<V>
  {
    set k | k in keys && f(k).Some? :: f(k).value
  }

  /** Adding one key adds exactly what `f` yields on it, if anything. */
  lemma PresentInsert<K, V>(keys: set<K>, k: K, f: K -> Option<V>, x: V)
    ensures x in Present(keys + {k}, f) <==> x in Present(keys, f) || f(k) == Some(x)
  {
    if x in Present(keys + {k}, f) {
      var j :| j in keys + {k} && f(j).Some? && f(j).value == x;
      if j != k {
        assert j in keys;
      }
    }
    if f(k) == Some(x) {
      assert k in keys + {k};
    }
  }

  /** The candidate function of a list of branches, one qualifier at a time. */
  function CandidateOf(branches: seq<Expr>): (f: string -> Option<Expr>)
    requires |branches| >= 1
    ensures forall q :: f(q) == Candidate(branches, q)
  {
    q => Candidate(branches, q)
  }

  /** The predicates derived for each of the qualifiers `qs` that succeeds on every branch. */
  function RedundantsFor(branches: seq<Expr>, qs: set<string>): set<Expr>
    requires |branches| >= 1
  {
    Present(qs, CandidateOf(branches))
  }

  /** The predicates derived from one conjunct: nothing unless it is an OR, and only qualifiers of its first branch are tried. */
  function RedundantsOf(c: Expr): set<Expr>
  {
    var branches := Disjuncts(c);
    if |branches| == 1 then {} else RedundantsFor(branches, QualifiersOf(branches[0]))
  }

  /** All predicates derived from a set of conjuncts. */
  function Redundants(cs: set<Expr>): set<Expr>
  {
    set c, x | c in cs && x in RedundantsOf(c) :: x
  }

  /**
   The rule: the filter with the derived predicates added and the flag set. It only
   fires on a filter whose flag is still clear.
   */
  function Rewrite<Plan>(f: Filter<Plan>): (r: Filter<Plan>)
    requires !f.singleTableExtracted
    ensures f.conjuncts <= r.conjuncts
    ensures r.conjuncts == f.conjuncts + Redundants(f.conjuncts)
    ensures r.singleTableExtracted
    ensures r.child == f.child
  {
    var redundants := Redundants(f.conjuncts);
    if redundants == {} then Filter(f.conjuncts, true, f.child)
    else Filter(f.conjuncts + redundants, true, f.child)
  }

  /**
   The rule as the optimizer sees it: it matches a filter only while the flag is
   clear, and then yields the rewritten filter; None when it does not match.
   */
  function Apply<Plan>(f: Filter<Plan>): (r: Option<Filter<Plan>>)
    ensures r.None? <==> f.singleTableExtracted
  {
    if f.singleTableExtracted then None else Some(Rewrite(f))
  }

  /** The rule fires at most once on a filter: its own output never matches again. */
  lemma AppliesOnce<Plan>(f: Filter<Plan>)
    requires Apply(f).Some?
    ensures Apply(Apply(f).value).None?
    ensures Apply(f).value.conjuncts == f.conjuncts + Redundants(f.conjuncts)
  {
  }

  /**
   Every derived predicate is implied by the conjunct it comes from and reads only
   the columns of one relation, one that the conjunct's first branch reads.
   */
  lemma RedundantSound(c: Expr, x: Expr)
    requires x in RedundantsOf(c)
    ensures Implies(c, x)
    ensures exists q :: q in QualifiersOf(Disjuncts(c)[0]) && IsSingleTable(x, q)
  {
    var branches := Disjuncts(c);
    var q :| q in QualifiersOf(branches[0]) && Candidate(branches, q) == Some(x);
    forall v: Expr -> bool | Eval(c, v)
      ensures Eval(x, v)
    {
      DisjunctsEval(c, v);
      CandidateSound(branches, q, v);
    }
    CandidateSound(branches, q, v => true);
  }

  /**
   `x` is the OR, in branch order, of what each branch of `c` yields for `q`, where
   `c` has at least two branches and `q` is a relation the first branch reads.
   */
  ghost predicate DerivedFor(c: Expr, q: string, x: Expr)
  {
    var branches := Disjuncts(c);
    && |branches| >= 2
    && q in QualifiersOf(branches[0])
    && exists xs: seq<Expr> ::
         && |xs| == |branches|
         && (forall i :: 0 <= i < |branches| ==> ExtractSingleTable(branches[i], q) == Some(xs[i]))
         && x == MakeOr(xs)
  }

  /** Per-branch results that are all present are exactly what `ExtractEach` returns. */
  lemma ExtractEachUnique(branches: seq<Expr>, q: string, xs: seq<Expr>)
    requires |xs| == |branches|
    requires forall i :: 0 <= i < |branches| ==> ExtractSingleTable(branches[i], q) == Some(xs[i])
    ensures ExtractEach(branches, q) == Some(xs)
  {
    var r := ExtractEach(branches, q);
    assert r.Some?;
    assert r.value == xs;
  }

  /** Every derived predicate is the OR of the per-branch extractions for some qualifier. */
  lemma {:induction false} RedundantIsDerived(c: Expr, x: Expr)
    requires x in RedundantsOf(c)
    ensures exists q :: DerivedFor(c, q, x)
  {
    var branches := Disjuncts(c);
    var q :| q in QualifiersOf(branches[0]) && Candidate(branches, q) == Some(x);
    var xs := ExtractEach(branches, q).value;
    assert x == MakeOr(xs);
    assert DerivedFor(c, q, x);
  }

  /** Every OR of per-branch extractions for a qualifier of the first branch is derived. */
  lemma {:induction false} DerivedIsRedundant(c: Expr, q: string, x: Expr)
    requires DerivedFor(c, q, x)
    ensures x in RedundantsOf(c)
  {
    var branches := Disjuncts(c);
    var xs: seq<Expr> :| |xs| == |branches|
      && (forall i :: 0 <= i < |branches| ==> ExtractSingleTable(branches[i], q) == Some(xs[i]))
      && x == MakeOr(xs);
    ExtractEachUnique(branches, q, xs);
    assert Candidate(branches, q) == Some(x);
    assert x in RedundantsFor(branches, QualifiersOf(branches[0]));
  }

  /**
   The predicates derived from `c` are exactly those `DerivedFor` some qualifier:
   one per qualifier of the first branch for which every branch yields a part.
   */
  lemma RedundantsOfExact(c: Expr, x: Expr)
    ensures x in RedundantsOf(c) <==> exists q :: DerivedFor(c, q, x)
  {
    if x in RedundantsOf(c) {
      RedundantIsDerived(c, x);
    }
    if q :| DerivedFor(c, q, x) {
      DerivedIsRedundant(c, q, x);
    }
  }

  /** A conjunct that is not an OR has a single branch and yields nothing. */
  lemma NonDisjunctionAddsNothing(c: Expr)
    requires !c.Or?
    ensures |Disjuncts(c)| == 1
    ensures RedundantsOf(c) == {}
  {
  }

  /** The rewritten filter accepts exactly the rows the original one accepts. */
  lemma RewritePreservesSemantics<Plan>(f: Filter<Plan>, v: Expr -> bool)
    requires !f.singleTableExtracted
    ensures Holds(Rewrite(f).conjuncts, v) <==> Holds(f.conjuncts, v)
  {
    if Holds(f.conjuncts, v) {
      forall x | x in Rewrite(f).conjuncts
        ensures Eval(x, v)
      {
        if x !in f.conjuncts {
          var c :| c in f.conjuncts && x in RedundantsOf(c);
          RedundantSound(c, x);
        }
      }
    }
  }

  /**
   Every conjunct the rewrite adds comes from an original conjunct that implies it,
   and reads only the columns of one relation.
   */
  lemma RewriteAddsSingleTableImplied<Plan>(f: Filter<Plan>, x: Expr)
    requires !f.singleTableExtracted
    requires x in Rewrite(f).conjuncts && x !in f.conjuncts
    ensures exists c :: c in f.conjuncts && Implies(c, x)
    ensures exists q :: IsSingleTable(x, q)
  {
    var c :| c in f.conjuncts && x in RedundantsOf(c);
    RedundantSound(c, x);
  }

  /** The inner loop over the branches, stopping at the first branch with nothing to extract. */
  method ExtractForAll(branches: seq<Expr>, q: string) returns (success: bool, extracted: seq<Expr>)
    ensures success <==> forall i :: 0 <= i < |branches| ==> ExtractSingleTable(branches[i], q).Some?
    ensures success ==> |extracted| == |branches|
    ensures success ==> forall i :: 0 <= i < |branches| ==> ExtractSingleTable(branches[i], q) == Some(extracted[i])
  {
    extracted := [];
    var i := 0;
    while i < |branches|
      invariant 0 <= i <= |branches|
      invariant |extracted| == i
      invariant forall j :: 0 <= j < i ==> ExtractSingleTable(branches[j], q) == Some(extracted[j])
    {
      var x := ExtractSingleTableExpression(branches[i], q);
      if x.None? {
        return false, extracted;
      }
      extracted := extracted + [x.value];
      i := i + 1;
    }
    success := true;
  }

  /** Adding one conjunct to the scanned set adds exactly its own derived predicates. */
  lemma RedundantsInsert(cs: set<Expr>, c: Expr)
    ensures Redundants(cs + {c}) == Redundants(cs) + RedundantsOf(c)
  {
    forall x | x in Redundants(cs + {c})
      ensures x in Redundants(cs) + RedundantsOf(c)
    {
      var d :| d in cs + {c} && x in RedundantsOf(d);
      if d != c {
        assert x in Redundants(cs);
      }
    }
    forall x | x in RedundantsOf(c)
      ensures x in Redundants(cs + {c})
    {
      assert c in cs + {c};
    }
  }

  /** One step of the conjunct loop keeps its list equal, as a set, to the predicates derived so far. */
  lemma RedundantsStep(done: set<Expr>, c: Expr, redundants: seq<Expr>, derived: seq<Expr>)
    requires forall x :: x in redundants <==> x in Redundants(done)
    requires forall x :: x in derived <==> x in RedundantsOf(c)
    ensures forall x :: x in redundants + derived <==> x in Redundants(done + {c})
  {
    RedundantsInsert(done, c);
  }

  /** Trying one more qualifier adds exactly its candidate, if it has one. */
  lemma RedundantsForInsert(branches: seq<Expr>, qs: set<string>, q: string, x: Expr)
    requires |branches| >= 1
    ensures x in RedundantsFor(branches, qs + {q}) <==> x in RedundantsFor(branches, qs) || Candidate(branches, q) == Some(x)
  {
    PresentInsert(qs, q, CandidateOf(branches), x);
  }

  /** What the branch loop returns is the candidate for that qualifier. */
  lemma LoopResultIsCandidate(branches: seq<Expr>, q: string, success: bool, extracted: seq<Expr>)
    requires |branches| >= 1
    requires success <==> forall i :: 0 <= i < |branches| ==> ExtractSingleTable(branches[i], q).Some?
    requires success ==> |extracted| == |branches|
    requires success ==> forall i :: 0 <= i < |branches| ==> ExtractSingleTable(branches[i], q) == Some(extracted[i])
    ensures success <==> Candidate(branches, q).Some?
    ensures success ==> |extracted| >= 1 && Candidate(branches, q).value == MakeOr(extracted)
  {
    if success {
      assert extracted == ExtractEach(branches, q).value;
    }
  }

  /**
   The body of the loop over conjuncts for one conjunct: nothing unless it splits into
   several branches, else one predicate per qualifier of the first branch (in any
   order) that every branch yields a part for.
   */
  method DeriveFromConjunct(conjunct: Expr) returns (derived: seq<Expr>)
    ensures forall x :: x in derived <==> x in RedundantsOf(conjunct)
  {
    derived := [];
    var disjuncts := Disjuncts(conjunct);
    if |disjuncts| == 1 {
      return;
    }
    var qualifiers := QualifiersOf(disjuncts[0]);
    var pending := qualifiers;
    while pending != {}
      invariant pending <= qualifiers
      invariant forall x :: x in derived <==> x in RedundantsFor(disjuncts, qualifiers - pending)
      decreases pending
    {
      var qualifier :| qualifier in pending;
      forall x {
        RedundantsForInsert(disjuncts, qualifiers - pending, qualifier, x);
      }
      assert qualifiers - (pending - {qualifier}) == (qualifiers - pending) + {qualifier};
      var success, extractForAll := ExtractForAll(disjuncts, qualifier);
      LoopResultIsCandidate(disjuncts, qualifier, success, extractForAll);
      if success {
        derived := derived + [MakeOr(extractForAll)];
      }
      pending := pending - {qualifier};
    }
    assert qualifiers - pending == qualifiers;
  }

  /** The rule body as a loop over the filter's conjuncts, in any order. */
  method ApplyRule<Plan>(f: Filter<Plan>) returns (r: Filter<Plan>)
    requires !f.singleTableExtracted
    ensures r == Rewrite(f)
  {
    var redundants: seq<Expr> := [];
    var todo := f.conjuncts;
    while todo != {}
      invariant todo <= f.conjuncts
      invariant forall x :: x in redundants <==> x in Redundants(f.conjuncts - todo)
      decreases todo
    {
      var conjunct :| conjunct in todo;
      var derived := DeriveFromConjunct(conjunct);
      RedundantsStep(f.conjuncts - todo, conjunct, redundants, derived);
      assert f.conjuncts - (todo - {conjunct}) == (f.conjuncts - todo) + {conjunct};
      redundants := redundants + derived;
      todo := todo - {conjunct};
    }
    assert f.conjuncts - todo == f.conjuncts;
    if redundants == [] {
      r := Filter(f.conjuncts, true, f.child);
    } else {
      assert redundants[0] in Redundants(f.conjuncts);
      r := Filter(f.conjuncts + (set x | x in redundants), true, f.child);
    }
  }
}
