/**
 Qualifier keys: a column's qualifier path flattened into one string, the unit by
 which the rule groups columns into relations, and the test that an expression
 reads columns of one relation only.
 */
module Qualifiers {
  import opened Expressions
  import opened ExpressionUtils

  /** Every path component followed by a '.', in path order. */
  function QualifierKey(path: seq<string>): string
  {
    if path == [] then "" else path[0] + "." + QualifierKey(path[1..])
  }

  /**
   A key is empty only for the empty path, has at least one character per component
   and ends in a '.' otherwise.
   */
  lemma {:induction false} QualifierKeyShape(path: seq<string>)
    ensures QualifierKey(path) == "" <==> path == []
    ensures |QualifierKey(path)| >= |path|
    ensures path != [] ==> QualifierKey(path)[|QualifierKey(path)| - 1] == '.'
  {
    if path != [] {
      QualifierKeyShape(path[1..]);
    }
  }

  /** Appending a component to the path appends that component and a '.' to the key. */
  lemma {:induction false} QualifierKeyAppend(path: seq<string>, c: string)
    ensures QualifierKey(path + [c]) == QualifierKey(path) + c + "."
  {
    if path == [] {
      assert path + [c] == [c];
    } else {
      var head := path[0] + ".";
      var rest := QualifierKey(path[1..]);
      assert (path + [c])[0] == path[0];
      assert (path + [c])[1..] == path[1..] + [c];
      QualifierKeyAppend(path[1..], c);
      assert QualifierKey(path + [c]) == head + (rest + c + ".");
      assert head + (rest + c + ".") == (head + rest) + c + ".";
    }
  }

  /** The string-builder loop that turns a slot's qualifier into its key. */
  method SlotQualifierAsString(path: seq<string>) returns (key: string)
    ensures key == QualifierKey(path)
  {
    key := "";
    var i := 0;
    while i < |path|
      invariant 0 <= i <= |path|
      invariant key == QualifierKey(path[..i])
    {
      QualifierKeyAppend(path[..i], path[i]);
      assert path[..i + 1] == path[..i] + [path[i]];
      key := key + path[i] + ".";
      i := i + 1;
    }
    assert path[..i] == path;
  }

  /** In `a + "." + s` with a dot-free `a`, the first '.' sits right after `a`. */
  lemma FirstDotAfter(a: string, s: string)
    requires '.' !in a
    ensures forall k :: 0 <= k < |a| ==> (a + "." + s)[k] != '.'
    ensures (a + "." + s)[|a|] == '.'
  {
    forall k | 0 <= k < |a|
      ensures (a + "." + s)[k] != '.'
    {
      assert (a + "." + s)[k] == a[k];
    }
  }

  /** Two keys whose first components contain no '.' share their first component and their rest. */
  lemma SplitAtFirstDot(a: string, b: string, s: string, t: string)
    requires '.' !in a && '.' !in b
    requires a + "." + s == b + "." + t
    ensures a == b && s == t
  {
    var x := a + "." + s;
    FirstDotAfter(a, s);
    FirstDotAfter(b, t);
    assert |a| == |b|;
    assert a == x[..|a|] == b;
    assert s == x[|a| + 1..] == t;
  }

  /** Keys identify paths as long as no component contains a '.'. */
  lemma {:induction false} QualifierKeyInjective(p: seq<string>, q: seq<string>)
    requires forall i :: 0 <= i < |p| ==> '.' !in p[i]
    requires forall i :: 0 <= i < |q| ==> '.' !in q[i]
    requires QualifierKey(p) == QualifierKey(q)
    ensures p == q
  {
    if p != [] && q != [] {
      SplitAtFirstDot(p[0], q[0], QualifierKey(p[1..]), QualifierKey(q[1..]));
      QualifierKeyInjective(p[1..], q[1..]);
      assert p == [p[0]] + p[1..];
      assert q == [q[0]] + q[1..];
    }
  }

  /** The qualifier keys of every column `e` reads. */
  function QualifiersOf(e: Expr): set<string>
  {
    set s | s in InputSlots(e) :: QualifierKey(s.qualifier)
  }

  /** Every column `e` reads belongs to the relation keyed `q`; true for column-free `e`. */
  function IsSingleTable(e: Expr, q: string): (b: bool)
    ensures b <==> QualifiersOf(e) <= {q}
    ensures InputSlots(e) == {} ==> b
  {
    QualifiersOfWithin(e, q);
    forall s :: s in InputSlots(e) ==> QualifierKey(s.qualifier) == q
  }

  /** The set form and the per-column form of the single-relation test agree. */
  lemma QualifiersOfWithin(e: Expr, q: string)
    ensures QualifiersOf(e) <= {q} <==> forall s :: s in InputSlots(e) ==> QualifierKey(s.qualifier) == q
  {
    if QualifiersOf(e) <= {q} {
      forall s | s in InputSlots(e)
        ensures QualifierKey(s.qualifier) == q
      {
        assert QualifierKey(s.qualifier) in QualifiersOf(e);
      }
    }
  }

  /** The early-exit loop over the input slots of `e`, in any iteration order. */
  method IsSingleTableExpression(e: Expr, q: string) returns (b: bool)
    ensures b <==> forall s :: s in InputSlots(e) ==> QualifierKey(s.qualifier) == q
  {
    var todo := InputSlots(e);
    while todo != {}
      invariant todo <= InputSlots(e)
      invariant forall s :: s in InputSlots(e) - todo ==> QualifierKey(s.qualifier) == q
      decreases todo
    {
      var s :| s in todo;
      var key := SlotQualifierAsString(s.qualifier);
      if key != q {
        return false;
      }
      todo := todo - {s};
    }
    return true;
  }

  /** A rebuilt AND reads one relation's columns exactly when each element does. */
  lemma MakeAndSingleTable(xs: seq<Expr>, q: string)
    requires |xs| >= 1
    ensures IsSingleTable(MakeAnd(xs), q) <==> forall i :: 0 <= i < |xs| ==> IsSingleTable(xs[i], q)
  {
    forall s | s in InputSlots(MakeAnd(xs)) || exists i :: 0 <= i < |xs| && s in InputSlots(xs[i])
      ensures s in InputSlots(MakeAnd(xs)) <==> exists i :: 0 <= i < |xs| && s in InputSlots(xs[i])
    {
      MakeAndSlots(xs, s);
    }
  }

  /** A rebuilt OR reads one relation's columns exactly when each element does. */
  lemma MakeOrSingleTable(xs: seq<Expr>, q: string)
    requires |xs| >= 1
    ensures IsSingleTable(MakeOr(xs), q) <==> forall i :: 0 <= i < |xs| ==> IsSingleTable(xs[i], q)
  {
    forall s | s in InputSlots(MakeOr(xs)) || exists i :: 0 <= i < |xs| && s in InputSlots(xs[i])
      ensures s in InputSlots(MakeOr(xs)) <==> exists i :: 0 <= i < |xs| && s in InputSlots(xs[i])
    {
      MakeOrSlots(xs, s);
    }
  }
}
