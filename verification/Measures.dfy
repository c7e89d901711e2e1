/** Measures and static facts the resolver relies on: how heavy a value is, which references it
    holds, what occurs in it, and how far it has been resolved along a path. */
module Measures {
  import opened ConfigValues
  import opened MergeAlgebra

  // ---------------------------------------------------------------- weight

  /** The weight of a value.  A merge stack weighs what its layers weigh together, so that
      merging never makes values heavier and looking below a layer makes them lighter. */
  ghost function Weight(v: Value): (w: nat)
    ensures w >= 1
    decreases v, 0
  {
    match v
    case List(items) => 1 + TotalWeight(items)
    case Object(fields, _) => 1 + FieldsWeight(v, fields.Keys)
    case Concatenation(pieces) => 1 + TotalWeight(pieces)
    case DelayedMerge(_, stack) => if stack == [] then 1 else TotalWeight(stack)
    case _ => 1
  }

  ghost function TotalWeight(vs: seq<Value>): (w: nat)
    ensures w >= |vs|
    decreases vs, 0
  {
    if vs == [] then 0 else Weight(vs[0]) + TotalWeight(vs[1..])
  }

  /** The weight of the heaviest of the given fields. */
  ghost function FieldsWeight(o: Value, keys: set<string>): (w: nat)
    requires o.Object? && keys <= o.fields.Keys
    decreases o, 0, |keys|
  {
    if keys == {} then 0
    else
      var k :| k in keys;
      var one, others := Weight(o.fields[k]), FieldsWeight(o, keys - {k});
      if one < others then others else one
  }

  lemma {:induction false} FieldWeight(o: Value, keys: set<string>, k: string)
    requires o.Object? && keys <= o.fields.Keys && k in keys
    ensures Weight(o.fields[k]) <= FieldsWeight(o, keys)
    decreases |keys|
  {
    var first :| first in keys && FieldsWeight(o, keys) ==
      (var one, others := Weight(o.fields[first]), FieldsWeight(o, keys - {first});
       if one < others then others else one);
    if k != first {
      FieldWeight(o, keys - {first}, k);
    }
  }

  lemma {:induction false} FieldsWeightBound(o: Value, keys: set<string>, bound: nat)
    requires o.Object? && keys <= o.fields.Keys
    requires forall k | k in keys :: Weight(o.fields[k]) <= bound
    ensures FieldsWeight(o, keys) <= bound
    decreases |keys|
  {
    if keys != {} {
      var first :| first in keys && FieldsWeight(o, keys) ==
        (var one, others := Weight(o.fields[first]), FieldsWeight(o, keys - {first});
         if one < others then others else one);
      FieldsWeightBound(o, keys - {first}, bound);
    }
  }

  lemma {:induction false} TotalWeightAppend(xs: seq<Value>, ys: seq<Value>)
    ensures TotalWeight(xs + ys) == TotalWeight(xs) + TotalWeight(ys)
    decreases |xs|
  {
    if xs == [] {
      assert xs + ys == ys;
    } else {
      assert (xs + ys)[1..] == xs[1..] + ys;
      TotalWeightAppend(xs[1..], ys);
    }
  }

  /** A member of a sequence weighs no more than the sequence, and less when it has company. */
  lemma {:induction false} MemberWeight(vs: seq<Value>, i: nat)
    requires i < |vs|
    ensures Weight(vs[i]) + |vs| - 1 <= TotalWeight(vs)
    decreases |vs|
  {
    if i > 0 {
      MemberWeight(vs[1..], i - 1);
    }
  }

  lemma TailWeight(vs: seq<Value>, n: nat)
    requires 1 <= n <= |vs|
    ensures TotalWeight(vs[n..]) < TotalWeight(vs)
  {
    assert vs == vs[..n] + vs[n..];
    TotalWeightAppend(vs[..n], vs[n..]);
  }

  lemma LayersWeight(v: Value)
    requires WellFormed(v)
    ensures TotalWeight(Layers(v)) == Weight(v)
  {
    if !v.DelayedMerge? {
      assert Layers(v)[1..] == [];
    }
  }

  /** Merging never increases the total weight. */
  lemma {:induction false} WithFallbackWeight(a: Value, b: Value)
    requires WellFormed(a) && WellFormed(b)
    ensures Weight(WithFallback(a, b)) <= Weight(a) + Weight(b)
    decreases a
  {
    if IgnoresFallbacks(a) {
    } else if !Unmergeable(b) && a.Object? && b.Object? {
      var m := WithFallback(a, b);
      var bound := FieldsWeight(a, a.fields.Keys) + FieldsWeight(b, b.fields.Keys);
      forall k | k in m.fields
        ensures Weight(m.fields[k]) <= bound
      {
        if k in a.fields {
          FieldWeight(a, a.fields.Keys, k);
        }
        if k in b.fields {
          FieldWeight(b, b.fields.Keys, k);
        }
        if k in a.fields && k in b.fields {
          WithFallbackWeight(a.fields[k], b.fields[k]);
        }
      }
      FieldsWeightBound(m, m.fields.Keys, bound);
    } else if !Unmergeable(b) && a.Object? && Resolved(a) {
      var m := WithFallback(a, b);
      forall k | k in m.fields ensures Weight(m.fields[k]) <= FieldsWeight(a, a.fields.Keys) {
        FieldWeight(a, a.fields.Keys, k);
      }
      FieldsWeightBound(m, m.fields.Keys, FieldsWeight(a, a.fields.Keys));
    } else {
      assert WithFallback(a, b) == DelayedMerge(IsObject(a), Layers(a) + Layers(b));
      LayersWeight(a);
      LayersWeight(b);
      TotalWeightAppend(Layers(a), Layers(b));
    }
  }

  lemma {:induction false} MergeLayersWeight(layers: seq<Value>)
    requires layers != [] && forall i | 0 <= i < |layers| :: WellFormed(layers[i])
    ensures Weight(MergeLayers(layers)) <= TotalWeight(layers)
  {
    if |layers| == 1 {
      assert layers[1..] == [];
    } else {
      var upper, last := layers[..|layers| - 1], layers[|layers| - 1];
      MergeLayersWeight(upper);
      MergeLayersWellFormed(upper);
      WithFallbackWeight(MergeLayers(upper), last);
      assert layers == upper + [last] && [last][1..] == [];
      TotalWeightAppend(upper, [last]);
    }
  }

  // ---------------------------------------------------------------- references

  /** Every reference and every concatenation in `v` is one of the nodes of the document. */
  predicate RefsIn(v: Value, nodes: set<Value>) {
    match v
    case List(items) => forall i | 0 <= i < |items| :: RefsIn(items[i], nodes)
    case Object(fields, _) => forall k | k in fields :: RefsIn(fields[k], nodes)
    case Reference(_, _, _, _) => v in nodes
    case Concatenation(pieces) => v in nodes && forall i | 0 <= i < |pieces| :: RefsIn(pieces[i], nodes)
    case DelayedMerge(_, stack) => forall i | 0 <= i < |stack| :: RefsIn(stack[i], nodes)
    case _ => true
  }

  lemma ResolvedRefsIn(v: Value, nodes: set<Value>)
    requires Resolved(v)
    ensures RefsIn(v, nodes)
  {
  }

  /** Merging makes no new references. */
  lemma {:induction false} WithFallbackRefs(a: Value, b: Value, nodes: set<Value>)
    requires RefsIn(a, nodes) && RefsIn(b, nodes)
    ensures RefsIn(WithFallback(a, b), nodes)
    decreases a
  {
    if !IgnoresFallbacks(a) && !Unmergeable(b) && a.Object? && b.Object? {
      forall k | k in a.fields && k in b.fields
        ensures RefsIn(WithFallback(a.fields[k], b.fields[k]), nodes)
      {
        WithFallbackRefs(a.fields[k], b.fields[k], nodes);
      }
    }
  }

  lemma {:induction false} MergeLayersRefs(layers: seq<Value>, nodes: set<Value>)
    requires layers != [] && forall i | 0 <= i < |layers| :: RefsIn(layers[i], nodes)
    ensures RefsIn(MergeLayers(layers), nodes)
  {
    if |layers| > 1 {
      MergeLayersRefs(layers[..|layers| - 1], nodes);
      WithFallbackRefs(MergeLayers(layers[..|layers| - 1]), layers[|layers| - 1], nodes);
    }
  }

  // ---------------------------------------------------------------- occurrence

  /** `node` is `v` or part of it. */
  predicate Occurs(node: Value, v: Value)
    decreases v
  {
    || node == v
    || match v
       case List(items) => exists i | 0 <= i < |items| :: Occurs(node, items[i])
       case Object(fields, _) => exists k | k in fields :: Occurs(node, fields[k])
       case Concatenation(pieces) => exists i | 0 <= i < |pieces| :: Occurs(node, pieces[i])
       case DelayedMerge(_, stack) => exists i | 0 <= i < |stack| :: Occurs(node, stack[i])
       case _ => false
  }

  /** What occurs in a value is not heavier than it. */
  lemma {:induction false} OccursWeight(node: Value, v: Value)
    requires Occurs(node, v)
    ensures Weight(node) <= Weight(v)
    decreases v
  {
    if node != v {
      match v
      case List(items) =>
        var i :| 0 <= i < |items| && Occurs(node, items[i]);
        OccursWeight(node, items[i]);
        MemberWeight(items, i);
      case Object(fields, _) =>
        var k :| k in fields && Occurs(node, fields[k]);
        OccursWeight(node, fields[k]);
        FieldWeight(v, fields.Keys, k);
      case Concatenation(pieces) =>
        var i :| 0 <= i < |pieces| && Occurs(node, pieces[i]);
        OccursWeight(node, pieces[i]);
        MemberWeight(pieces, i);
      case DelayedMerge(_, stack) =>
        var i :| 0 <= i < |stack| && Occurs(node, stack[i]);
        OccursWeight(node, stack[i]);
        MemberWeight(stack, i);
      case _ =>
    }
  }

  // ---------------------------------------------------------------- partial resolution

  /** `v` has been resolved at least along the path `r`, the leaf excepted: nothing on the way is
      still a reference or a concatenation. */
  predicate PartlyResolved(v: Value, r: Path)
    requires r != []
    decreases v
  {
    match v
    case Object(fields, _) => |r| == 1 || r[0] !in fields || PartlyResolved(fields[r[0]], r[1..])
    case Reference(_, _, _, _) => false
    case Concatenation(_) => false
    case DelayedMerge(_, stack) => forall i | 0 <= i < |stack| :: PartlyResolved(stack[i], r)
    case _ => true
  }

  lemma {:induction false} ResolvedIsPartlyResolved(v: Value, r: Path)
    requires Resolved(v) && r != []
    ensures PartlyResolved(v, r)
    decreases v
  {
    if v.Object? && |r| > 1 && r[0] in v.fields {
      ResolvedIsPartlyResolved(v.fields[r[0]], r[1..]);
    }
  }

  /** Merging keeps what has been resolved along a path resolved along it. */
  lemma {:induction false} WithFallbackPartly(a: Value, b: Value, r: Path)
    requires r != [] && PartlyResolved(a, r) && PartlyResolved(b, r)
    ensures PartlyResolved(WithFallback(a, b), r)
    decreases a
  {
    if IgnoresFallbacks(a) {
    } else if !Unmergeable(b) && a.Object? && b.Object? {
      if |r| > 1 && r[0] in a.fields && r[0] in b.fields {
        WithFallbackPartly(a.fields[r[0]], b.fields[r[0]], r[1..]);
      }
    } else if !Unmergeable(b) && a.Object? && Resolved(a) {
    } else {
      assert WithFallback(a, b) == DelayedMerge(IsObject(a), Layers(a) + Layers(b));
      var stack := Layers(a) + Layers(b);
      forall i | 0 <= i < |stack| ensures PartlyResolved(stack[i], r) {
        if i < |Layers(a)| {
          assert stack[i] == Layers(a)[i];
        } else {
          assert stack[i] == Layers(b)[i - |Layers(a)|];
        }
      }
    }
  }
}
