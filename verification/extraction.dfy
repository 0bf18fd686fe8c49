/**
 Per-branch extraction: from one branch of a disjunction, the AND of those of its
 parts that read only the columns of one relation.
 */
module SingleTableExtraction {
  import opened Wrappers
  import opened Expressions
  import opened ExpressionUtils
  import opened Qualifiers

  /** `a` is `b` with some elements left out and the rest in their original order. */
  ghost predicate IsSubsequence(a: seq<Expr>, b: seq<Expr>)
    decreases |b|
  {
    a == [] || (b != [] && ((a[0] == b[0] && IsSubsequence(a[1..], b[1..])) || IsSubsequence(a, b[1..])))
  }

  /** The parts that read only the columns keyed `q`, in their original order. */
  function KeepSingleTable(parts: seq<Expr>, q: string): (kept: seq<Expr>)
    ensures forall x :: x in kept <==> x in parts && IsSingleTable(x, q)
    ensures IsSubsequence(kept, parts)
  {
    if parts == [] then []
    else if IsSingleTable(parts[0], q) then [parts[0]] + KeepSingleTable(parts[1..], q)
    else KeepSingleTable(parts[1..], q)
  }

  /** Every passing part is kept as many times as it occurs, every other part never. */
  lemma {:induction false} KeepSingleTableCounts(parts: seq<Expr>, q: string, x: Expr)
    ensures multiset(KeepSingleTable(parts, q))[x] == if IsSingleTable(x, q) then multiset(parts)[x] else 0
  {
    if parts != [] {
      KeepSingleTableCounts(parts[1..], q, x);
      assert parts == [parts[0]] + parts[1..];
      assert multiset(parts) == multiset([parts[0]]) + multiset(parts[1..]);
      if IsSingleTable(parts[0], q) {
        var kept := KeepSingleTable(parts[1..], q);
        assert multiset([parts[0]] + kept) == multiset([parts[0]]) + multiset(kept);
      }
    }
  }

  /** Filtering a list extended by one part extends the filtered list by that part when it passes. */
  lemma {:induction false} KeepSingleTableAppend(parts: seq<Expr>, x: Expr, q: string)
    ensures KeepSingleTable(parts + [x], q)
         == KeepSingleTable(parts, q) + (if IsSingleTable(x, q) then [x] else [])
  {
    if parts == [] {
      assert parts + [x] == [x];
    } else {
      assert (parts + [x])[1..] == parts[1..] + [x];
      KeepSingleTableAppend(parts[1..], x, q);
    }
  }

  /** Filtering one more element of a prefix, the step of the extraction loop. */
  lemma KeepSingleTablePrefix(parts: seq<Expr>, i: nat, q: string)
    requires i < |parts|
    ensures KeepSingleTable(parts[..i + 1], q)
         == KeepSingleTable(parts[..i], q) + (if IsSingleTable(parts[i], q) then [parts[i]] else [])
  {
    KeepSingleTableAppend(parts[..i], parts[i], q);
    assert parts[..i + 1] == parts[..i] + [parts[i]];
  }

  /** The AND of some of `e`'s AND-ed parts is implied by `e`. */
  lemma ConjunctionOfPartsImplied(e: Expr, kept: seq<Expr>)
    requires |kept| >= 1
    requires forall x :: x in kept ==> x in Conjuncts(e)
    ensures Implies(e, MakeAnd(kept))
  {
    forall v: Expr -> bool | Eval(e, v)
      ensures Eval(MakeAnd(kept), v)
    {
      ConjunctsEval(e, v);
      forall i | 0 <= i < |kept|
        ensures Eval(kept[i], v)
      {
        var parts := Conjuncts(e);
        assert kept[i] in kept;
        var j :| 0 <= j < |parts| && parts[j] == kept[i];
      }
      MakeAndEval(kept, v);
    }
  }

  /**
   The AND of the parts of `e` that read only the relation keyed `q`, or None
   when no part does.
   */
  function ExtractSingleTable(e: Expr, q: string): (r: Option<Expr>)
    ensures r.Some? ==> Conjuncts(r.value) == KeepSingleTable(Conjuncts(e), q)
  {
    var parts := Conjuncts(e);
    var kept := KeepSingleTable(parts, q);
    if kept == [] then None
    else
      assert forall x :: x in parts ==> !x.And?;
      ConjunctsOfMakeAnd(kept);
      Some(MakeAnd(kept))
  }

  /** Extraction fails exactly when none of `e`'s AND-ed parts reads only the relation keyed `q`. */
  lemma ExtractSingleTableNone(e: Expr, q: string)
    ensures ExtractSingleTable(e, q).None? <==> forall i :: 0 <= i < |Conjuncts(e)| ==> !IsSingleTable(Conjuncts(e)[i], q)
  {
    var parts := Conjuncts(e);
    var kept := KeepSingleTable(parts, q);
    if kept == [] {
      forall i | 0 <= i < |parts|
        ensures !IsSingleTable(parts[i], q)
      {
        assert parts[i] in parts && parts[i] !in kept;
      }
      assert ExtractSingleTable(e, q) == None;
    } else {
      assert kept[0] in parts && IsSingleTable(kept[0], q);
      var j :| 0 <= j < |parts| && parts[j] == kept[0];
      assert 0 <= j < |Conjuncts(e)| && IsSingleTable(Conjuncts(e)[j], q);
      assert ExtractSingleTable(e, q).Some?;
    }
  }

  /** What extraction returns reads only the columns keyed `q` and is implied by `e`. */
  lemma ExtractSingleTableSound(e: Expr, q: string)
    requires ExtractSingleTable(e, q).Some?
    ensures IsSingleTable(ExtractSingleTable(e, q).value, q)
    ensures Implies(e, ExtractSingleTable(e, q).value)
  {
    var kept := KeepSingleTable(Conjuncts(e), q);
    MakeAndSingleTable(kept, q);
    ConjunctionOfPartsImplied(e, kept);
  }

  /** The list-building loop of the extraction, over `e`'s AND-ed parts in order. */
  method ExtractSingleTableExpression(e: Expr, q: string) returns (r: Option<Expr>)
    ensures r == ExtractSingleTable(e, q)
  {
    var parts := Conjuncts(e);
    var output: seq<Expr> := [];
    var i := 0;
    while i < |parts|
      invariant 0 <= i <= |parts|
      invariant output == KeepSingleTable(parts[..i], q)
    {
      var single := IsSingleTableExpression(parts[i], q);
      KeepSingleTablePrefix(parts, i, q);
      if single {
        output := output + [parts[i]];
      }
      i := i + 1;
    }
    assert parts[..i] == parts;
    assert output == KeepSingleTable(parts, q);
    if output == [] {
      r := None;
    } else {
      r := Some(MakeAnd(output));
    }
  }
}
