/**
 The fragment of the Nereids expression tree the rule looks at: binary AND and OR
 nodes, column references (slots) carrying their qualifier path, and every other
 node kind (comparisons, literals, function calls, ...) as an opaque node whose
 children may still read columns.
 */
module Expressions {

  /** A resolved column reference: the qualifier path of its relation and its name. */
  datatype Slot = Slot(qualifier: seq<string>, name: string)

  datatype Expr =
    | And(left: Expr, right: Expr)
    | Or(left: Expr, right: Expr)
    | Col(slot: Slot)
    | Other(tag: string, args: seq<Expr>)

  /** Every column reference reachable from `e` (the tree's `getInputSlots`). */
  function InputSlots(e: Expr): set<Slot>
  {
    match e
    case And(l, r) => InputSlots(l) + InputSlots(r)
    case Or(l, r) => InputSlots(l) + InputSlots(r)
    case Col(s) => {s}
    case Other(_, args) => set i, s | 0 <= i < |args| && s in InputSlots(args[i]) :: s
  }

  /**
   Two-valued semantics: AND and OR are the connectives, every other node is an
   atom whose truth value is given by the valuation `v`.
   */
  function Eval(e: Expr, v: Expr -> bool): bool
  {
    match e
    case And(l, r) => Eval(l, v) && Eval(r, v)
    case Or(l, r) => Eval(l, v) || Eval(r, v)
    case _ => v(e)
  }

  /** Every element of `xs` holds under `v`. */
  predicate AllHold(xs: seq<Expr>, v: Expr -> bool)
  {
    forall i :: 0 <= i < |xs| ==> Eval(xs[i], v)
  }

  /** Some element of `xs` holds under `v`. */
  predicate AnyHolds(xs: seq<Expr>, v: Expr -> bool)
  {
    exists i :: 0 <= i < |xs| && Eval(xs[i], v)
  }

  /** All of a concatenation hold exactly when all of both halves hold. */
  lemma AllHoldAppend(a: seq<Expr>, b: seq<Expr>, v: Expr -> bool)
    ensures AllHold(a + b, v) <==> AllHold(a, v) && AllHold(b, v)
  {
    if AllHold(a + b, v) {
      assert forall i :: 0 <= i < |a| ==> (a + b)[i] == a[i];
      assert forall i :: 0 <= i < |b| ==> (a + b)[|a| + i] == b[i];
    }
  }

  /** Some element of a concatenation holds exactly when one of either half does. */
  lemma AnyHoldsAppend(a: seq<Expr>, b: seq<Expr>, v: Expr -> bool)
    ensures AnyHolds(a + b, v) <==> AnyHolds(a, v) || AnyHolds(b, v)
  {
    if AnyHolds(a, v) {
      var i :| 0 <= i < |a| && Eval(a[i], v);
      assert (a + b)[i] == a[i];
    }
    if AnyHolds(b, v) {
      var i :| 0 <= i < |b| && Eval(b[i], v);
      assert (a + b)[|a| + i] == b[i];
    }
    if AnyHolds(a + b, v) {
      var i :| 0 <= i < |a + b| && Eval((a + b)[i], v);
      if i < |a| {
        assert (a + b)[i] == a[i];
      } else {
        assert (a + b)[i] == b[i - |a|];
      }
    }
  }

  /** `a` logically implies `b`: every valuation making `a` true makes `b` true. */
  ghost predicate Implies(a: Expr, b: Expr)
  {
    forall v: Expr -> bool :: Eval(a, v) ==> Eval(b, v)
  }
}
