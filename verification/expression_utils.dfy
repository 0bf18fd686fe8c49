/**
 Splitting and rebuilding AND / OR trees. The rule calls these as
 `ExpressionUtils.extractConjunction`, `extractDisjunction`, `and` and `or`; their
 bodies are not part of this model, so they are defined here directly: flattening
 visits nested nodes left to right, rebuilding returns a single element unchanged
 and otherwise folds the list from the left into binary nodes.
 */
module ExpressionUtils {
  import opened Expressions

  /** The AND-ed parts of `e`, nested ANDs flattened left to right. */
  function Conjuncts(e: Expr): (parts: seq<Expr>)
    ensures |parts| >= 1
    ensures forall i :: 0 <= i < |parts| ==> !parts[i].And?
    ensures !e.And? ==> parts == [e]
  {
    match e
    case And(l, r) => Conjuncts(l) + Conjuncts(r)
    case _ => [e]
  }

  /** The OR-ed branches of `e`, nested ORs flattened left to right. */
  function Disjuncts(e: Expr): (branches: seq<Expr>)
    ensures |branches| >= 1
    ensures forall i :: 0 <= i < |branches| ==> !branches[i].Or?
    ensures !e.Or? ==> branches == [e]
    ensures e.Or? ==> |branches| >= 2
  {
    match e
    case Or(l, r) => Disjuncts(l) + Disjuncts(r)
    case _ => [e]
  }

  /** AND of a non-empty list: the element itself, or a left-deep AND tree. */
  function MakeAnd(xs: seq<Expr>): (r: Expr)
    requires |xs| >= 1
    decreases |xs|
  {
    if |xs| == 1 then xs[0] else And(MakeAnd(xs[..|xs| - 1]), xs[|xs| - 1])
  }

  /** OR of a non-empty list: the element itself, or a left-deep OR tree. */
  function MakeOr(xs: seq<Expr>): (r: Expr)
    requires |xs| >= 1
    decreases |xs|
  {
    if |xs| == 1 then xs[0] else Or(MakeOr(xs[..|xs| - 1]), xs[|xs| - 1])
  }

  /** An expression holds exactly when all of its AND-ed parts hold. */
  lemma {:induction false} ConjunctsEval(e: Expr, v: Expr -> bool)
    ensures Eval(e, v) <==> AllHold(Conjuncts(e), v)
  {
    match e
    case And(l, r) =>
      ConjunctsEval(l, v);
      ConjunctsEval(r, v);
      AllHoldAppend(Conjuncts(l), Conjuncts(r), v);
    case _ =>
      assert Conjuncts(e)[0] == e;
  }

  /** An expression holds exactly when one of its OR-ed branches holds. */
  lemma {:induction false} DisjunctsEval(e: Expr, v: Expr -> bool)
    ensures Eval(e, v) <==> AnyHolds(Disjuncts(e), v)
  {
    match e
    case Or(l, r) =>
      DisjunctsEval(l, v);
      DisjunctsEval(r, v);
      AnyHoldsAppend(Disjuncts(l), Disjuncts(r), v);
    case _ =>
      assert Disjuncts(e)[0] == e;
  }

  /** The rebuilt AND holds exactly when every listed element holds. */
  lemma {:induction false} MakeAndEval(xs: seq<Expr>, v: Expr -> bool)
    requires |xs| >= 1
    ensures Eval(MakeAnd(xs), v) <==> AllHold(xs, v)
    decreases |xs|
  {
    if |xs| > 1 {
      var last := |xs| - 1;
      MakeAndEval(xs[..last], v);
      assert xs == xs[..last] + [xs[last]];
      AllHoldAppend(xs[..last], [xs[last]], v);
    }
  }

  /** The rebuilt OR holds exactly when some listed element holds. */
  lemma {:induction false} MakeOrEval(xs: seq<Expr>, v: Expr -> bool)
    requires |xs| >= 1
    ensures Eval(MakeOr(xs), v) <==> AnyHolds(xs, v)
    decreases |xs|
  {
    if |xs| > 1 {
      var last := |xs| - 1;
      MakeOrEval(xs[..last], v);
      assert xs == xs[..last] + [xs[last]];
      AnyHoldsAppend(xs[..last], [xs[last]], v);
    } else {
      assert Eval(xs[0], v) == Eval(MakeOr(xs), v);
    }
  }

  /** Rebuilding a list of non-AND parts and splitting it again gives the list back. */
  lemma {:induction false} ConjunctsOfMakeAnd(xs: seq<Expr>)
    requires |xs| >= 1
    requires forall i :: 0 <= i < |xs| ==> !xs[i].And?
    ensures Conjuncts(MakeAnd(xs)) == xs
    decreases |xs|
  {
    if |xs| > 1 {
      var init := xs[..|xs| - 1];
      ConjunctsOfMakeAnd(init);
      assert xs == init + [xs[|xs| - 1]];
    }
  }

  /** Rebuilding a list of non-OR branches and splitting it again gives the list back. */
  lemma {:induction false} DisjunctsOfMakeOr(xs: seq<Expr>)
    requires |xs| >= 1
    requires forall i :: 0 <= i < |xs| ==> !xs[i].Or?
    ensures Disjuncts(MakeOr(xs)) == xs
    decreases |xs|
  {
    if |xs| > 1 {
      var init := xs[..|xs| - 1];
      DisjunctsOfMakeOr(init);
      assert xs == init + [xs[|xs| - 1]];
    }
  }

  /** Splitting an expression into its AND-ed parts and rebuilding them preserves its meaning. */
  lemma MakeAndOfConjuncts(e: Expr, v: Expr -> bool)
    ensures Eval(MakeAnd(Conjuncts(e)), v) == Eval(e, v)
  {
    ConjunctsEval(e, v);
    MakeAndEval(Conjuncts(e), v);
  }

  /** Splitting an expression into its OR-ed branches and rebuilding them preserves its meaning. */
  lemma MakeOrOfDisjuncts(e: Expr, v: Expr -> bool)
    ensures Eval(MakeOr(Disjuncts(e)), v) == Eval(e, v)
  {
    DisjunctsEval(e, v);
    MakeOrEval(Disjuncts(e), v);
  }

  /** The columns read by a rebuilt AND are exactly those read by its elements. */
  lemma {:induction false} MakeAndSlots(xs: seq<Expr>, s: Slot)
    requires |xs| >= 1
    ensures s in InputSlots(MakeAnd(xs)) <==> exists i :: 0 <= i < |xs| && s in InputSlots(xs[i])
    decreases |xs|
  {
    if |xs| > 1 {
      var init := xs[..|xs| - 1];
      MakeAndSlots(init, s);
      assert forall i :: 0 <= i < |init| ==> init[i] == xs[i];
    }
  }

  /** The columns read by a rebuilt OR are exactly those read by its elements. */
  lemma {:induction false} MakeOrSlots(xs: seq<Expr>, s: Slot)
    requires |xs| >= 1
    ensures s in InputSlots(MakeOr(xs)) <==> exists i :: 0 <= i < |xs| && s in InputSlots(xs[i])
    decreases |xs|
  {
    if |xs| > 1 {
      var init := xs[..|xs| - 1];
      MakeOrSlots(init, s);
      assert forall i :: 0 <= i < |init| ==> init[i] == xs[i];
    }
  }
}
