/** Ranks of references.

    A document whose references can be ranked, so that looking one up meets only references of
    lower rank, has no cycles.  Here is what is met along a path, and why merging meets no more. */
module Ranks {
  import opened ConfigValues
  import opened MergeAlgebra
  import opened Measures

  type Rank = Value -> nat

  /** Every reference in `v` has a rank below `b`. */
  ghost predicate AllBelow(v: Value, rank: Rank, b: nat)
    decreases v
  {
    match v
    case List(items) => forall i | 0 <= i < |items| :: AllBelow(items[i], rank, b)
    case Object(fields, _) => forall k | k in fields :: AllBelow(fields[k], rank, b)
    case Reference(_, _, _, _) => rank(v) < b
    case Concatenation(pieces) => forall i | 0 <= i < |pieces| :: AllBelow(pieces[i], rank, b)
    case DelayedMerge(_, stack) => forall i | 0 <= i < |stack| :: AllBelow(stack[i], rank, b)
    case _ => true
  }

  /** Every reference met when `v` is resolved along `r`, or in the leaf there, ranks below `b`. */
  ghost predicate Bounded(v: Value, r: Path, rank: Rank, b: nat)
    decreases v
  {
    if r == [] then AllBelow(v, rank, b)
    else
      match v
      case Object(fields, _) => r[0] in fields ==> Bounded(fields[r[0]], r[1..], rank, b)
      case Reference(_, _, _, _) => rank(v) < b
      case Concatenation(_) => AllBelow(v, rank, b)
      case DelayedMerge(_, stack) => forall i | 0 <= i < |stack| :: Bounded(stack[i], r, rank, b)
      case _ => true
  }

  lemma {:induction false} AllBelowIsBounded(v: Value, r: Path, rank: Rank, b: nat)
    requires AllBelow(v, rank, b)
    ensures Bounded(v, r, rank, b)
    decreases v
  {
    if r != [] {
      match v
      case Object(fields, _) =>
        if r[0] in fields {
          AllBelowIsBounded(fields[r[0]], r[1..], rank, b);
        }
      case DelayedMerge(_, stack) =>
        forall i | 0 <= i < |stack| ensures Bounded(stack[i], r, rank, b) {
          AllBelowIsBounded(stack[i], r, rank, b);
        }
      case _ =>
    }
  }

  lemma {:induction false} AllBelowHigher(v: Value, rank: Rank, b: nat, c: nat)
    requires AllBelow(v, rank, b) && b <= c
    ensures AllBelow(v, rank, c)
    decreases v
  {
    match v
    case List(items) =>
      forall i | 0 <= i < |items| ensures AllBelow(items[i], rank, c) { AllBelowHigher(items[i], rank, b, c); }
    case Object(fields, _) =>
      forall k | k in fields ensures AllBelow(fields[k], rank, c) { AllBelowHigher(fields[k], rank, b, c); }
    case Concatenation(pieces) =>
      forall i | 0 <= i < |pieces| ensures AllBelow(pieces[i], rank, c) { AllBelowHigher(pieces[i], rank, b, c); }
    case DelayedMerge(_, stack) =>
      forall i | 0 <= i < |stack| ensures AllBelow(stack[i], rank, c) { AllBelowHigher(stack[i], rank, b, c); }
    case _ =>
  }

  lemma {:induction false} BoundedHigher(v: Value, r: Path, rank: Rank, b: nat, c: nat)
    requires Bounded(v, r, rank, b) && b <= c
    ensures Bounded(v, r, rank, c)
    decreases v
  {
    if r == [] || v.Concatenation? {
      AllBelowHigher(v, rank, b, c);
    } else {
      match v
      case Object(fields, _) =>
        if r[0] in fields {
          BoundedHigher(fields[r[0]], r[1..], rank, b, c);
        }
      case DelayedMerge(_, stack) =>
        forall i | 0 <= i < |stack| ensures Bounded(stack[i], r, rank, c) {
          BoundedHigher(stack[i], r, rank, b, c);
        }
      case _ =>
    }
  }

  lemma {:induction false} ResolvedAllBelow(v: Value, rank: Rank, b: nat)
    requires Resolved(v)
    ensures AllBelow(v, rank, b)
    decreases v
  {
    match v
    case List(items) =>
      forall i | 0 <= i < |items| ensures AllBelow(items[i], rank, b) { ResolvedAllBelow(items[i], rank, b); }
    case Object(fields, _) =>
      forall k | k in fields ensures AllBelow(fields[k], rank, b) { ResolvedAllBelow(fields[k], rank, b); }
    case _ =>
  }

  /** What occurs in a value ranks no higher. */
  lemma {:induction false} AllBelowPart(n: Value, v: Value, rank: Rank, b: nat)
    requires AllBelow(v, rank, b) && Occurs(n, v)
    ensures AllBelow(n, rank, b)
    decreases v
  {
    if n != v {
      match v
      case List(items) =>
        var i :| 0 <= i < |items| && Occurs(n, items[i]);
        AllBelowPart(n, items[i], rank, b);
      case Object(fields, _) =>
        var k :| k in fields && Occurs(n, fields[k]);
        AllBelowPart(n, fields[k], rank, b);
      case Concatenation(pieces) =>
        var i :| 0 <= i < |pieces| && Occurs(n, pieces[i]);
        AllBelowPart(n, pieces[i], rank, b);
      case DelayedMerge(_, stack) =>
        var i :| 0 <= i < |stack| && Occurs(n, stack[i]);
        AllBelowPart(n, stack[i], rank, b);
      case _ =>
    }
  }

  /** Merging meets no new references along a path. */
  lemma {:induction false} WithFallbackBounded(a: Value, c: Value, r: Path, rank: Rank, b: nat)
    requires Bounded(a, r, rank, b) && Bounded(c, r, rank, b)
    ensures Bounded(WithFallback(a, c), r, rank, b)
    decreases a
  {
    if IgnoresFallbacks(a) {
    } else if !Unmergeable(c) && a.Object? && c.Object? {
      var m := WithFallback(a, c);
      if r == [] {
        forall k | k in m.fields ensures AllBelow(m.fields[k], rank, b) {
          if k in a.fields && k in c.fields {
            WithFallbackBounded(a.fields[k], c.fields[k], [], rank, b);
          }
        }
      } else if r[0] in a.fields && r[0] in c.fields {
        WithFallbackBounded(a.fields[r[0]], c.fields[r[0]], r[1..], rank, b);
      }
    } else if !Unmergeable(c) && a.Object? && Resolved(a) {
    } else {
      assert WithFallback(a, c) == DelayedMerge(IsObject(a), Layers(a) + Layers(c));
      LayersBounded(a, r, rank, b);
      LayersBounded(c, r, rank, b);
    }
  }

  lemma LayersBounded(v: Value, r: Path, rank: Rank, b: nat)
    requires Bounded(v, r, rank, b)
    ensures forall i | 0 <= i < |Layers(v)| :: Bounded(Layers(v)[i], r, rank, b)
    ensures r == [] ==> forall i | 0 <= i < |Layers(v)| :: AllBelow(Layers(v)[i], rank, b)
  {
  }

  // ---------------------------------------------------------------- a bound for all nodes

  lemma {:induction false} NodesBelow(v: Value, nodes: set<Value>, rank: Rank, b: nat)
    requires RefsIn(v, nodes) && forall n | n in nodes && n.Reference? :: rank(n) < b
    ensures AllBelow(v, rank, b)
    decreases v
  {
    match v
    case List(items) =>
      forall i | 0 <= i < |items| ensures AllBelow(items[i], rank, b) { NodesBelow(items[i], nodes, rank, b); }
    case Object(fields, _) =>
      forall k | k in fields ensures AllBelow(fields[k], rank, b) { NodesBelow(fields[k], nodes, rank, b); }
    case Concatenation(pieces) =>
      forall i | 0 <= i < |pieces| ensures AllBelow(pieces[i], rank, b) { NodesBelow(pieces[i], nodes, rank, b); }
    case DelayedMerge(_, stack) =>
      forall i | 0 <= i < |stack| ensures AllBelow(stack[i], rank, b) { NodesBelow(stack[i], nodes, rank, b); }
    case _ =>
  }
}
