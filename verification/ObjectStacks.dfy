/** Objects that are extended by themselves: a key set to objects, to `${key}` and to `${key} { ... }`
    in any order and number, so that it holds a merge stack with references to itself.

    Each reference stands for what is below its layer.  Merging in again what a merge already holds
    changes nothing, so the key means the merge of the objects from the top down. */
module ObjectStacks {
  import opened ConfigValues
  import opened MergeAlgebra

  // ---------------------------------------------------------------- merging again

  /** Merging a resolved value over itself changes nothing. */
  lemma {:induction false} MergeOverItself(a: Value)
    requires Resolved(a)
    ensures WithFallback(a, a) == a
    decreases a
  {
    if a.Object? && !a.ignoresFallbacks {
      forall k | k in a.fields ensures WithFallback(a.fields[k], a.fields[k]) == a.fields[k] {
        MergeOverItself(a.fields[k]);
      }
      MergedFields(a, a);
      assert WithFallback(a, a).fields == a.fields;
    }
  }

  /** Nor does merging in again, below, what is on top already. */
  lemma {:induction false} MergeAgain(a: Value, b: Value)
    requires Resolved(a) && Resolved(b)
    ensures WithFallback(WithFallback(a, b), a) == WithFallback(a, b)
    decreases a
  {
    hide Resolved, WithFallback;
    if a.Object? && b.Object? && !a.ignoresFallbacks && !b.ignoresFallbacks {
      MergedAt(a, b);
      var m := WithFallback(a, b);
      MergedAt(m, a);
      forall k ensures MergeOptional(FieldAt(m, k), FieldAt(a, k)) == FieldAt(m, k) {
        AgainAt(a, b, k);
        if k in a.fields && k in b.fields {
          MergeAgain(a.fields[k], b.fields[k]);
        } else if k in a.fields {
          MergeOverItself(a.fields[k]);
        }
      }
      SameEntries(WithFallback(m, a), m);
    } else {
      MergeOverItself(a);
      IgnoringOnTop(a, b);
    }
  }

  lemma AgainAt(a: Value, b: Value, k: string)
    requires a.Object? && b.Object? && Resolved(a) && Resolved(b)
    ensures k in a.fields ==> Resolved(a.fields[k])
    ensures k in b.fields ==> Resolved(b.fields[k])
  {
  }

  lemma IgnoringOnTop(a: Value, b: Value)
    requires Resolved(a) && Resolved(b)
    requires a.Object? && b.Object? && !a.ignoresFallbacks ==> b.ignoresFallbacks
    ensures WithFallback(a, b) == a || WithFallback(WithFallback(a, b), a) == WithFallback(a, b)
  {
  }

  /** `v` is an object that merging below `x` does not change. */
  predicate Absorbs(x: Value, v: Value) {
    v.Object? && Resolved(v) && WithFallback(x, v) == x
  }

  predicate ResolvedObject(v: Value) {
    v.Object? && Resolved(v)
  }

  lemma MergedObjects(a: Value, b: Value)
    requires ResolvedObject(a) && ResolvedObject(b)
    ensures ResolvedObject(WithFallback(a, b))
  {
    WithFallbackResolved(a, b);
  }

  /** A merge absorbs what its upper or its lower side absorbs. */
  lemma AbsorbedBySides(a: Value, b: Value, v: Value)
    requires ResolvedObject(a) && ResolvedObject(b) && (Absorbs(a, v) || Absorbs(b, v))
    ensures Absorbs(WithFallback(a, b), v)
  {
    hide WithFallback, Resolved;
    WithFallbackAssociative(a, b, v);
    if !Absorbs(b, v) {
      WithFallbackAssociative(a, v, b);
      MergeAgain(v, b);
      WithFallbackAssociative(v, b, v);
      MergedObjects(v, b);
      MergedObjects(b, v);
      WithFallbackAssociative(a, WithFallback(v, b), v);
      assert WithFallback(a, b) == WithFallback(a, WithFallback(v, b));
      assert WithFallback(WithFallback(a, b), v) == WithFallback(a, WithFallback(WithFallback(v, b), v));
    }
  }

  /** What absorbs two values absorbs their merge. */
  lemma AbsorbsMerge(x: Value, u: Value, v: Value)
    requires ResolvedObject(x) && Absorbs(x, u) && Absorbs(x, v)
    ensures Absorbs(x, WithFallback(u, v))
  {
    hide WithFallback, Resolved;
    WithFallbackAssociative(x, u, v);
    MergedObjects(u, v);
  }

  // ---------------------------------------------------------------- layers

  /** One setting of the key: an object, or a reference to the key itself, possibly joined with an
      object that follows it. */
  datatype Layer = Own(own: Value) | Itself(reference: Value, more: Option<Value>)

  function Shown(l: Layer): (v: Value) {
    match l
    case Own(o) => o
    case Itself(r, None) => r
    case Itself(r, Some(w)) => Concatenation([r, w])
  }

  function ShownAll(ls: seq<Layer>): (vs: seq<Value>)
    ensures |vs| == |ls| && forall i | 0 <= i < |ls| :: vs[i] == Shown(ls[i])
  {
    seq(|ls|, i requires 0 <= i < |ls| => Shown(ls[i]))
  }

  /** The object a layer brings along. */
  function Brought(l: Layer): (v: Option<Value>) {
    if l.Own? then Some(l.own) else l.more
  }

  predicate LayerOf(key: string, l: Layer) {
    && (Brought(l).Some? ==> ResolvedObject(Brought(l).value))
    && (l.Itself? ==> l.reference.Reference? && l.reference.path == [key] && l.reference.prefixLength == 0)
  }

  predicate Refers(ls: seq<Layer>, n: Value) {
    exists l | l in ls :: l.Itself? && l.reference == n
  }

  /** Layers for the key from the top down: each reference is a node of its own, and only the bottom
      object may ignore fallbacks, as in every stack that merging builds. */
  predicate Layered(key: string, ls: seq<Layer>) {
    && (forall i | 0 <= i < |ls| :: LayerOf(key, ls[i]))
    && (forall i, j | 0 <= i < j < |ls| && ls[i].Itself? && ls[j].Itself? :: ls[i].reference != ls[j].reference)
    && (forall i | 0 <= i < |ls| - 1 && ls[i].Own? :: !ls[i].own.ignoresFallbacks)
  }

  /** The merge of the objects of the layers from the top down. */
  function Total(ls: seq<Layer>): (r: Option<Value>) {
    if ls == [] then None else MergeOptional(Brought(ls[0]), Total(ls[1..]))
  }

  /** Below every required reference there is an object. */
  predicate Founded(ls: seq<Layer>) {
    ls == [] || (Founded(ls[1..]) && (Required(ls[0]) ==> Total(ls[1..]).Some?))
  }

  predicate Required(l: Layer) {
    l.Itself? && l.reference.Reference? && !l.reference.optional
  }

  lemma LayeredRest(key: string, ls: seq<Layer>, n: nat)
    requires Layered(key, ls) && n <= |ls|
    ensures Layered(key, ls[n..])
  {
  }

  lemma {:induction false} TotalIsObject(key: string, ls: seq<Layer>)
    requires Layered(key, ls)
    ensures Total(ls).Some? ==> ResolvedObject(Total(ls).value)
  {
    if ls != [] {
      LayeredRest(key, ls, 1);
      TotalIsObject(key, ls[1..]);
      if Brought(ls[0]).Some? && Total(ls[1..]).Some? {
        MergedObjects(Brought(ls[0]).value, Total(ls[1..]).value);
      }
    }
  }

  /** What the merge of lower layers absorbs, the merge of all layers absorbs. */
  lemma {:induction false} TotalAbsorbs(key: string, ls: seq<Layer>, n: nat, v: Value)
    requires Layered(key, ls) && n <= |ls| && Total(ls[n..]).Some? && Absorbs(Total(ls[n..]).value, v)
    ensures Total(ls).Some? && Absorbs(Total(ls).value, v)
    decreases n
  {
    if n == 0 {
      assert ls[n..] == ls;
    } else {
      assert ls[1..][n - 1..] == ls[n..];
      LayeredRest(key, ls, 1);
      TotalAbsorbs(key, ls[1..], n - 1, v);
      if Brought(ls[0]).Some? {
        TotalIsObject(key, ls[1..]);
        AbsorbedBySides(Brought(ls[0]).value, Total(ls[1..]).value, v);
      }
    }
  }

  /** It absorbs the object of each layer. */
  lemma TotalAbsorbsLayer(key: string, ls: seq<Layer>, i: nat)
    requires Layered(key, ls) && i < |ls| && Brought(ls[i]).Some?
    ensures Total(ls).Some? && Absorbs(Total(ls).value, Brought(ls[i]).value)
  {
    hide WithFallback, Resolved;
    var o, below := Brought(ls[i]).value, Total(ls[i + 1..]);
    assert ls[i..][0] == ls[i] && ls[i..][1..] == ls[i + 1..];
    LayeredRest(key, ls, i + 1);
    TotalIsObject(key, ls[i + 1..]);
    MergeOverItself(o);
    if below.Some? {
      AbsorbedBySides(o, below.value, o);
    }
    TotalAbsorbs(key, ls, i, o);
  }

  /** The objects of the layers. */
  function Objects(ls: seq<Layer>): (os: seq<Value>) {
    if ls == [] then []
    else (if Brought(ls[0]).Some? then [Brought(ls[0]).value] else []) + Objects(ls[1..])
  }

  /** Merging them from the top with any grouping gives the same. */
  lemma {:induction false} TotalIsMerge(key: string, ls: seq<Layer>)
    requires Layered(key, ls)
    ensures Total(ls) == if Objects(ls) == [] then None else Some(MergeLayers(Objects(ls)))
    ensures forall i | 0 <= i < |Objects(ls)| :: ResolvedObject(Objects(ls)[i])
  {
    hide WithFallback, ResolvedObject, MergeLayers;
    if ls != [] {
      LayeredRest(key, ls, 1);
      TotalIsMerge(key, ls[1..]);
      var more := Objects(ls[1..]);
      if Brought(ls[0]).None? {
        assert Objects(ls) == [] + more == more;
      } else {
        var top := Brought(ls[0]).value;
        assert Objects(ls) == [top] + more;
        if more != [] {
          MergeFromTop(top, more);
        } else {
          assert [top] + more == [top];
          MergeOfOne(top);
        }
      }
    }
  }

  lemma MergeOfOne(v: Value)
    ensures MergeLayers([v]) == v
  {
  }

  lemma {:induction false} MergeFromTop(top: Value, os: seq<Value>)
    requires os != [] && ResolvedObject(top) && forall i | 0 <= i < |os| :: ResolvedObject(os[i])
    ensures MergeLayers([top] + os) == WithFallback(top, MergeLayers(os)) && ResolvedObject(MergeLayers(os))
    decreases |os|
  {
    hide WithFallback, Resolved;
    var front, last := os[..|os| - 1], os[|os| - 1];
    assert ([top] + os)[..|os|] == [top] + front;
    if front == [] {
      assert [top] + front == [top] && os == [last];
      assert MergeLayers([top]) == top;
    } else {
      MergeFromTop(top, front);
      WithFallbackAssociative(top, MergeLayers(front), last);
      MergedObjects(MergeLayers(front), last);
    }
  }

  // ---------------------------------------------------------------- what is below a layer

  /** The value that layers make: a single layer, or a merge stack. */
  function Stacked(ls: seq<Layer>): (v: Value)
    requires ls != []
  {
    if |ls| == 1 then Shown(ls[0]) else DelayedMerge(ls[0].Own?, ShownAll(ls))
  }

  predicate TwoObjectsOnTop(ls: seq<Layer>) {
    |ls| >= 2 && ls[0].Own? && ls[1].Own?
  }

  function Joined(ls: seq<Layer>): (r: seq<Layer>)
    requires TwoObjectsOnTop(ls)
  {
    [Own(WithFallback(ls[0].own, ls[1].own))] + ls[2..]
  }

  /** The layers when objects on top have been merged. */
  function Settled(ls: seq<Layer>): (r: seq<Layer>)
    requires ls != []
    ensures r != [] && |r| <= |ls| && !TwoObjectsOnTop(r)
    decreases |ls|
  {
    if TwoObjectsOnTop(ls) then Settled(Joined(ls)) else ls
  }

  lemma JoinedLayers(key: string, ls: seq<Layer>)
    requires Layered(key, ls) && TwoObjectsOnTop(ls)
    ensures Layered(key, Joined(ls)) && Total(Joined(ls)) == Total(ls)
    ensures Founded(Joined(ls)) <==> Founded(ls)
    ensures forall l: Layer | l.Itself? :: l in Joined(ls) <==> l in ls
  {
    var a, b, rest := ls[0].own, ls[1].own, ls[2..];
    var joined := Joined(ls);
    MergedObjects(a, b);
    MergedFields(a, b);
    assert joined[1..] == rest && ls[1..][1..] == rest;
    LayeredRest(key, ls, 2);
    TotalIsObject(key, rest);
    assert Total(ls[1..]) == MergeOptional(Some(b), Total(rest));
    assert Total(ls) == MergeOptional(Some(a), Total(ls[1..]));
    assert Total(joined) == MergeOptional(Some(WithFallback(a, b)), Total(rest));
    if Total(rest).Some? {
      WithFallbackAssociative(a, b, Total(rest).value);
    }
    assert forall i | 1 <= i < |joined| :: joined[i] == ls[i + 1];
    assert Founded(ls[1..]) <==> Founded(rest);
    forall l: Layer | l.Itself? ensures l in joined <==> l in ls {
      if l in ls {
        var i :| 0 <= i < |ls| && ls[i] == l;
        assert joined[i - 1] == l;
      }
    }
  }

  /** Merging the layers of a stack from the top gives the stack of the settled layers, which mean the
      same. */
  lemma {:induction false} SettledLayers(key: string, ls: seq<Layer>)
    requires ls != [] && Layered(key, ls)
    ensures Layered(key, Settled(ls)) && Total(Settled(ls)) == Total(ls)
    ensures Founded(Settled(ls)) <==> Founded(ls)
    ensures forall l: Layer | l.Itself? :: l in Settled(ls) <==> l in ls
    ensures MergeLayers(ShownAll(ls)) == Stacked(Settled(ls))
    decreases |ls|
  {
    hide WithFallback, Resolved, MergeLayers;
    if TwoObjectsOnTop(ls) {
      var joined := Joined(ls);
      JoinedLayers(key, ls);
      SettledLayers(key, joined);
      var vs := ShownAll(ls);
      assert vs == [vs[0], vs[1]] + vs[2..] && ShownAll(joined) == [WithFallback(vs[0], vs[1])] + vs[2..];
      TopMerged(vs[0], vs[1], vs[2..]);
    } else {
      LayersStack(key, ls);
    }
  }

  lemma {:induction false} TopMerged(a: Value, b: Value, rest: seq<Value>)
    ensures MergeLayers([a, b] + rest) == MergeLayers([WithFallback(a, b)] + rest)
    decreases |rest|
  {
    hide WithFallback;
    var merged := WithFallback(a, b);
    if rest == [] {
      assert [a, b] + rest == [a, b] && [merged] + rest == [merged] && [a, b][..1] == [a];
      assert MergeLayers([a]) == a && MergeLayers([merged]) == merged;
    } else {
      var front := rest[..|rest| - 1];
      TopMerged(a, b, front);
      assert ([a, b] + rest)[..|rest| + 1] == [a, b] + front && ([merged] + rest)[..|rest|] == [merged] + front;
    }
  }

  lemma {:induction false} LayersStack(key: string, ls: seq<Layer>)
    requires ls != [] && Layered(key, ls) && !TwoObjectsOnTop(ls)
    ensures MergeLayers(ShownAll(ls)) == Stacked(ls)
    decreases |ls|
  {
    hide WithFallback, Resolved;
    if |ls| >= 2 {
      var front, last := ls[..|ls| - 1], ls[|ls| - 1];
      assert Layered(key, front);
      LayersStack(key, front);
      assert ShownAll(ls)[..|ls| - 1] == ShownAll(front);
      StackedOver(key, ls);
    }
  }

  lemma StackedOver(key: string, ls: seq<Layer>)
    requires |ls| >= 2 && Layered(key, ls) && !TwoObjectsOnTop(ls)
    ensures WithFallback(Stacked(ls[..|ls| - 1]), Shown(ls[|ls| - 1])) == Stacked(ls)
  {
    var front, last := ls[..|ls| - 1], Shown(ls[|ls| - 1]);
    var bottom := front[|front| - 1];
    assert bottom == ls[|ls| - 2] && !IgnoresFallbacks(Shown(bottom));
    assert ShownAll(ls) == ShownAll(front) + [last];
    assert !IgnoresFallbacks(Stacked(front));
    assert Layers(last) == [last];
    assert Layers(Stacked(front)) == ShownAll(front);
  }
}
