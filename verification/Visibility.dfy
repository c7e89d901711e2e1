/** Which lookups find what is there, told from the document before anything is resolved.

    The sense of a document is what its references and concatenations mean and how its references
    rank.  `Visible` follows a path through a document as the resolver would, through
    objects, merge stacks and references, and asks at every merge that it hides nothing. */
module Visibility {
  import opened ConfigValues
  import opened MergeAlgebra
  import opened Ranks
  import opened Lookups

  datatype Sense = Sense(root: Value, env: Env, rank: Rank)

  ghost function FirmOf(v: Value, env: Env): (r: Path -> bool) {
    path => Firm(v, path, env)
  }

  ghost function RootMeaning(w: Sense): (r: Option<Value>) {
    Meaning(w.root, w.env)
  }

  /** No layer hides, by being merged under those above it, what they hold along the path. */
  ghost predicate LayersHideNothing(stack: seq<Value>, path: Path, env: Env) {
    forall i | 0 <= i < |stack| ::
      HidesNothing(FirmOf(DelayedMerge(false, stack[..i]), env), StackMeaning(stack[..i], env),
                   Meaning(stack[i], env), path)
  }

  /** Looking along the path from `v` finds what is there; references on the way rank below `b`. */
  ghost predicate Visible(w: Sense, v: Value, path: Path, b: nat)
    decreases b, v
  {
    path != [] ==>
      match v
      case Object(fields, _) => path[0] in fields ==> Visible(w, fields[path[0]], path[1..], b)
      case Reference(_, target, _, prefixLength) =>
        && w.rank(v) < b && prefixLength <= |target|
        && Visible(w, w.root, target + path, w.rank(v))
        && (prefixLength > 0 && LookIn(RootMeaning(w), target).None? ==>
              Visible(w, w.root, target[prefixLength..] + path, w.rank(v)))
      case DelayedMerge(_, stack) =>
        LayersHideNothing(stack, path, w.env) && forall i | 0 <= i < |stack| :: Visible(w, stack[i], path, b)
      case _ => true
  }

  lemma {:induction false} VisibleHigher(w: Sense, v: Value, path: Path, b: nat, c: nat)
    requires Visible(w, v, path, b) && b <= c
    ensures Visible(w, v, path, c)
    decreases v
  {
    if path != [] {
      match v
      case Object(fields, _) =>
        if path[0] in fields {
          VisibleHigher(w, fields[path[0]], path[1..], b, c);
        }
      case DelayedMerge(_, stack) =>
        forall i | 0 <= i < |stack| ensures Visible(w, stack[i], path, c) {
          VisibleHigher(w, stack[i], path, b, c);
        }
      case _ =>
    }
  }

  lemma {:induction false} ResolvedVisible(w: Sense, v: Value, path: Path, b: nat)
    requires Resolved(v)
    ensures Visible(w, v, path, b)
    decreases v
  {
    if path != [] && v.Object? && path[0] in v.fields {
      ResolvedVisible(w, v.fields[path[0]], path[1..], b);
    }
  }

  /** Stacking keeps what is firm in the upper side, and what is firm in the lower side where the
      upper side is open. */
  lemma FirmAppend(a: Value, b: Value, env: Env)
    requires Assignment(env)
    ensures var both := FirmOf(DelayedMerge(false, Layers(a) + Layers(b)), env);
      Firmer(FirmOf(a, env), Meaning(a, env), both) && FirmBelow(Meaning(a, env), FirmOf(b, env), both)
  {
    hide Firm, Meaning, Assignment, Open, LookIn;
    var both := FirmOf(DelayedMerge(false, Layers(a) + Layers(b)), env);
    forall p: Path | p != [] && LookIn(Meaning(a, env), p).Some? && FirmOf(a, env)(p) ensures both(p) {
      if Open(Meaning(a, env), p) {
        OpenHoldsNothing(Meaning(a, env), p);
      }
      StackFirm(false, a, b, p, env);
    }
    forall p: Path | p != [] && Open(Meaning(a, env), p) && FirmOf(b, env)(p) ensures both(p) {
      OpenHoldsNothing(Meaning(a, env), p);
      FirmNothing(a, p, env);
      StackFirm(false, a, b, p, env);
    }
  }

  /** The layers of a stack under those of `a`. */
  lemma {:induction false} AppendedHideNothing(a: Value, lower: seq<Value>, n: nat, path: Path, env: Env)
    requires Assignment(env) && n <= |lower| && LayersHideNothing(lower, path, env)
    requires HidesNothing(FirmOf(a, env), Meaning(a, env), StackMeaning(lower[..n], env), path)
    ensures forall j | 0 <= j < n ::
      HidesNothing(FirmOf(DelayedMerge(false, Layers(a) + lower[..j]), env), StackMeaning(Layers(a) + lower[..j], env),
                   Meaning(lower[j], env), path)
    decreases n
  {
    hide Meaning, StackMeaning, HidesNothing, Assignment, MergeOptional, Firmer, FirmBelow, FirmOf, Layers;
    if n > 0 {
      var part := DelayedMerge(false, lower[..n - 1]);
      var x, y, z := Meaning(a, env), StackMeaning(lower[..n - 1], env), Meaning(lower[n - 1], env);
      PrefixMeaning(lower, n - 1, env);
      MeaningResolved(a, env);
      StackMeaningResolved(lower[..n - 1], env);
      MeaningResolved(lower[n - 1], env);
      FirmAppend(a, part, env);
      PartLayers(lower[..n - 1]);
      var both := FirmOf(DelayedMerge(false, Layers(a) + lower[..n - 1]), env);
      HidesNothingParts(FirmOf(a, env), FirmOf(part, env), both, x, y, z, path);
      StackMeaningAppend(Layers(a), lower[..n - 1], env);
      LayersMeaning(a, env);
      AppendedHideNothing(a, lower, n - 1, path, env);
    }
  }

  lemma PartLayers(stack: seq<Value>)
    ensures Layers(DelayedMerge(false, stack)) == stack
  {
  }

  lemma PrefixMeaning(stack: seq<Value>, i: nat, env: Env)
    requires i < |stack|
    ensures StackMeaning(stack[..i + 1], env) == MergeOptional(StackMeaning(stack[..i], env), Meaning(stack[i], env))
  {
    assert stack[..i + 1][..i] == stack[..i] && stack[..i + 1][i] == stack[i];
  }

  lemma LayersVisible(w: Sense, v: Value, path: Path, b: nat)
    requires Visible(w, v, path, b)
    ensures LayersHideNothing(Layers(v), path, w.env)
    ensures forall i | 0 <= i < |Layers(v)| :: Visible(w, Layers(v)[i], path, b)
  {
    if !v.DelayedMerge? {
      assert Layers(v)[..0] == [];
    } else if path != [] {
      assert forall i | 0 <= i < |v.stack| :: Visible(w, v.stack[i], path, b);
    }
  }

  /** Merging values along a path that is visible in both, hiding nothing, keeps it visible. */
  lemma {:induction false} WithFallbackVisible(w: Sense, a: Value, b: Value, path: Path, c: nat)
    requires Assignment(w.env) && Visible(w, a, path, c) && Visible(w, b, path, c)
    requires HidesNothing(FirmOf(a, w.env), Meaning(a, w.env), Meaning(b, w.env), path)
    ensures Visible(w, WithFallback(a, b), path, c)
    decreases a
  {
    hide Meaning, Assignment, HidesNothing;
    if path == [] || IgnoresFallbacks(a) {
    } else if !Unmergeable(b) && a.Object? && b.Object? {
      if path[0] in a.fields && path[0] in b.fields {
        EntriesHideNothing(a, b, path, w.env);
        WithFallbackVisible(w, a.fields[path[0]], b.fields[path[0]], path[1..], c);
      }
    } else if !Unmergeable(b) && a.Object? && Resolved(a) {
      ResolvedVisible(w, WithFallback(a, b), path, c);
    } else {
      assert WithFallback(a, b) == DelayedMerge(IsObject(a), Layers(a) + Layers(b));
      StackVisible(w, IsObject(a), a, b, path, c);
    }
  }

  lemma EntriesHideNothing(a: Value, b: Value, path: Path, env: Env)
    requires a.Object? && b.Object? && !a.ignoresFallbacks && path != [] && path[0] in a.fields && path[0] in b.fields
    requires HidesNothing(FirmOf(a, env), Meaning(a, env), Meaning(b, env), path)
    ensures HidesNothing(FirmOf(a.fields[path[0]], env), Meaning(a.fields[path[0]], env),
                         Meaning(b.fields[path[0]], env), path[1..])
  {
    hide Meaning, Firm;
    var k := path[0];
    MeaningEntry(a, k, env);
    MeaningEntry(b, k, env);
    if Meaning(a.fields[k], env).Some? {
      var f, g := Shift(FirmOf(a, env), k), FirmOf(a.fields[k], env);
      forall p: Path | p != [] && f(p) ensures g(p) {
        FirmEntry(a, [k] + p, env);
        assert ([k] + p)[1..] == p;
      }
      FirmerHidesNothing(f, Meaning(a.fields[k], env), g, Meaning(b.fields[k], env), path[1..]);
    }
  }

  lemma StackVisible(w: Sense, headed: bool, a: Value, b: Value, path: Path, c: nat)
    requires Assignment(w.env) && Visible(w, a, path, c) && Visible(w, b, path, c)
    requires HidesNothing(FirmOf(a, w.env), Meaning(a, w.env), Meaning(b, w.env), path)
    ensures Visible(w, DelayedMerge(headed, Layers(a) + Layers(b)), path, c)
  {
    hide HidesNothing, Assignment, Meaning, StackMeaning, FirmOf, LayersHideNothing;
    var upper, lower := Layers(a), Layers(b);
    var stack := upper + lower;
    LayersVisible(w, a, path, c);
    LayersVisible(w, b, path, c);
    forall i | 0 <= i < |stack| ensures Visible(w, stack[i], path, c) {
      if i < |upper| {
        assert stack[i] == upper[i];
      } else {
        assert stack[i] == lower[i - |upper|];
      }
    }
    StackHidesNothing(a, b, path, w.env);
  }

  lemma StackHidesNothing(a: Value, b: Value, path: Path, env: Env)
    requires Assignment(env) && LayersHideNothing(Layers(a), path, env) && LayersHideNothing(Layers(b), path, env)
    requires HidesNothing(FirmOf(a, env), Meaning(a, env), Meaning(b, env), path)
    ensures LayersHideNothing(Layers(a) + Layers(b), path, env)
  {
    hide HidesNothing, Assignment, Meaning, StackMeaning, FirmOf, Layers;
    var upper, lower := Layers(a), Layers(b);
    var stack := upper + lower;
    LayersMeaning(b, env);
    assert lower[..|lower|] == lower;
    AppendedHideNothing(a, lower, |lower|, path, env);
    forall i | 0 <= i < |stack|
      ensures HidesNothing(FirmOf(DelayedMerge(false, stack[..i]), env), StackMeaning(stack[..i], env),
                           Meaning(stack[i], env), path)
    {
      if i < |upper| {
        assert stack[..i] == upper[..i] && stack[i] == upper[i];
      } else {
        var j := i - |upper|;
        assert stack[..i] == upper + lower[..j] && stack[i] == lower[j];
      }
    }
  }

  // ---------------------------------------------------------------- paths that hold nothing

  /** Nothing is written at the path. */
  predicate Absent(v: Value, path: Path)
    decreases v
  {
    path != [] &&
    match v
    case Object(fields, _) => path[0] !in fields || Absent(fields[path[0]], path[1..])
    case Reference(_, _, _, _) => false
    case Concatenation(_) => false
    case DelayedMerge(_, stack) => stack != [] && forall i | 0 <= i < |stack| :: Absent(stack[i], path)
    case _ => true
  }

  lemma {:induction false} WithFallbackAbsent(a: Value, b: Value, path: Path)
    requires Absent(a, path) && Absent(b, path)
    ensures Absent(WithFallback(a, b), path)
    decreases a
  {
    if IgnoresFallbacks(a) {
    } else if !Unmergeable(b) && a.Object? && b.Object? {
      if path[0] in a.fields && path[0] in b.fields {
        WithFallbackAbsent(a.fields[path[0]], b.fields[path[0]], path[1..]);
      }
    } else if !Unmergeable(b) && a.Object? && Resolved(a) {
    } else {
      assert WithFallback(a, b) == DelayedMerge(IsObject(a), Layers(a) + Layers(b));
      assert forall i | 0 <= i < |Layers(a)| :: Absent(Layers(a)[i], path);
      assert forall i | 0 <= i < |Layers(b)| :: Absent(Layers(b)[i], path);
    }
  }

  /** What is absent is absent from what the value means. */
  lemma {:induction false} AbsentMeaning(v: Value, path: Path, env: Env)
    requires Assignment(env) && Absent(v, path)
    ensures Meaning(v, env).Some? && LookIn(Meaning(v, env), path).None?
    decreases v, 0
  {
    hide Assignment;
    match v
    case Object(fields, _) =>
      MeaningEntry(v, path[0], env);
      if path[0] in fields {
        AbsentMeaning(fields[path[0]], path[1..], env);
      }
    case DelayedMerge(_, stack) => AbsentStack(stack, path, env);
    case _ =>
  }

  lemma {:induction false} AbsentStack(stack: seq<Value>, path: Path, env: Env)
    requires Assignment(env) && stack != [] && forall i | 0 <= i < |stack| :: Absent(stack[i], path)
    ensures StackMeaning(stack, env).Some? && LookIn(StackMeaning(stack, env), path).None?
    decreases stack, 0
  {
    hide Assignment, Absent, LookIn;
    var upper, last := stack[..|stack| - 1], stack[|stack| - 1];
    AbsentMeaning(last, path, env);
    if upper != [] {
      assert forall i | 0 <= i < |upper| :: upper[i] == stack[i];
      AbsentStack(upper, path, env);
      StackMeaningResolved(upper, env);
      MeaningResolved(last, env);
      var x, y := StackMeaning(upper, env), Meaning(last, env);
      if Open(x, path) {
        LookInOpen(x, y, path);
      } else {
        LookInHidden(x, y, path);
      }
    }
  }

  // ---------------------------------------------------------------- resolving keeps all this

  /** Along the path, `y` is as visible, as firm, as absent and as low in rank as `v`. */
  ghost predicate KeepsAt(w: Sense, v: Value, y: Value, path: Path, b: nat) {
    && (Visible(w, v, path, b) ==> Visible(w, y, path, b))
    && (Bounded(v, path, w.rank, b) ==> Bounded(y, path, w.rank, b))
    && (Firm(v, path, w.env) ==> Firm(y, path, w.env))
    && (Absent(v, path) ==> Absent(y, path))
  }

  /** `y` may stand for `v`: it means the same, and what is known of `v` along any path holds of it. */
  ghost predicate Refines(w: Sense, v: Value, y: Value) {
    && Meaning(y, w.env) == Meaning(v, w.env)
    && forall path, b :: KeepsAt(w, v, y, path, b)
  }

  lemma RefinesItself(w: Sense, v: Value)
    ensures Refines(w, v, v)
  {
  }

  lemma {:induction false} ResolvedAbsent(v: Value, y: Value, path: Path, env: Env)
    requires Assignment(env) && Absent(v, path) && Meaning(v, env) == Some(y) && Resolved(y)
    ensures Absent(y, path)
    decreases v
  {
    AbsentMeaning(v, path, env);
    NothingThere(y, path);
  }

  lemma {:induction false} NothingThere(y: Value, path: Path)
    requires Resolved(y) && LookIn(Some(y), path).None?
    ensures Absent(y, path)
    decreases y
  {
    if y.Object? && path[0] in y.fields {
      NothingThere(y.fields[path[0]], path[1..]);
    }
  }

  /** The full result may stand for the value. */
  lemma MeaningRefines(w: Sense, v: Value, y: Value)
    requires Assignment(w.env) && Meaning(v, w.env) == Some(y) && Resolved(y)
    ensures Refines(w, v, y)
  {
    hide Meaning, Visible, Bounded, Firm, Absent, Assignment;
    ResolvedMeansItself(y, w.env);
    forall path, b ensures KeepsAt(w, v, y, path, b) {
      ResolvedVisible(w, y, path, b);
      ResolvedAllBelow(y, w.rank, b);
      AllBelowIsBounded(y, path, w.rank, b);
      if Firm(v, path, w.env) {
        MeaningFirm(v, path, w.env);
      }
      if Absent(v, path) {
        ResolvedAbsent(v, y, path, w.env);
      }
    }
  }

  /** An object whose children stand for those of another may stand for it. */
  lemma ObjectRefines(w: Sense, o: Value, fields: map<string, Value>)
    requires o.Object? && forall k | k in fields :: k in o.fields && Refines(w, o.fields[k], fields[k])
    requires forall k | k in o.fields && k !in fields :: Meaning(o.fields[k], w.env).None?
    ensures Refines(w, o, Object(fields, o.ignoresFallbacks))
  {
    hide Refines;
    var y := Object(fields, o.ignoresFallbacks);
    ChildrenMean(w, o, fields);
    forall path, b ensures KeepsAt(w, o, y, path, b) {
      if path == [] {
        ChildrenBelow(w, o, fields, b);
        NodeFirm(o, y, w.env);
      } else {
        ChildKeeps(w, o, fields, path, b);
      }
    }
    assert Refines(w, o, y) by { RefinesFromParts(w, o, y); }
  }

  lemma RefinesFromParts(w: Sense, v: Value, y: Value)
    requires Meaning(y, w.env) == Meaning(v, w.env) && forall path, b :: KeepsAt(w, v, y, path, b)
    ensures Refines(w, v, y)
  {
  }

  lemma ChildrenMean(w: Sense, o: Value, fields: map<string, Value>)
    requires o.Object? && forall k | k in fields :: k in o.fields && Refines(w, o.fields[k], fields[k])
    requires forall k | k in o.fields && k !in fields :: Meaning(o.fields[k], w.env).None?
    ensures Meaning(Object(fields, o.ignoresFallbacks), w.env) == Meaning(o, w.env)
  {
    hide KeepsAt;
    var y := Object(fields, o.ignoresFallbacks);
    forall k | k in fields ensures Meaning(fields[k], w.env) == Meaning(o.fields[k], w.env) {
      assert Refines(w, o.fields[k], fields[k]);
    }
    assert Meaning(y, w.env).value.fields == Meaning(o, w.env).value.fields;
  }

  lemma ChildrenBelow(w: Sense, o: Value, fields: map<string, Value>, b: nat)
    requires o.Object? && forall k | k in fields :: k in o.fields && Refines(w, o.fields[k], fields[k])
    ensures AllBelow(o, w.rank, b) ==> AllBelow(Object(fields, o.ignoresFallbacks), w.rank, b)
  {
    hide Refines;
    if AllBelow(o, w.rank, b) {
      forall k | k in fields ensures AllBelow(fields[k], w.rank, b) {
        RefinesAt(w, o.fields[k], fields[k], [], b);
      }
    }
  }

  lemma RefinesAt(w: Sense, v: Value, y: Value, path: Path, b: nat)
    requires Refines(w, v, y)
    ensures Meaning(y, w.env) == Meaning(v, w.env) && KeepsAt(w, v, y, path, b)
    ensures path == [] && AllBelow(v, w.rank, b) ==> AllBelow(y, w.rank, b)
  {
    assert KeepsAt(w, v, y, path, b);
  }

  lemma NodeFirm(o: Value, y: Value, env: Env)
    requires o.Object? && y.Object? && o.ignoresFallbacks == y.ignoresFallbacks
    ensures Firm(o, [], env) ==> Firm(y, [], env)
  {
  }

  lemma ChildKeeps(w: Sense, o: Value, fields: map<string, Value>, path: Path, b: nat)
    requires o.Object? && path != []
    requires forall k | k in fields :: k in o.fields && Refines(w, o.fields[k], fields[k])
    ensures KeepsAt(w, o, Object(fields, o.ignoresFallbacks), path, b)
  {
    hide Refines, Firm;
    var y := Object(fields, o.ignoresFallbacks);
    FirmEntry(o, path, w.env);
    FirmEntry(y, path, w.env);
    if path[0] in fields {
      RefinesAt(w, o.fields[path[0]], fields[path[0]], path[1..], b);
    }
  }

  /** One more layer, merged into what stands for the layers above it. */
  lemma MergeRefines(w: Sense, upper: seq<Value>, layer: Value, a: Value, y: Value)
    requires Assignment(w.env) && Refines(w, DelayedMerge(false, upper), a) && Refines(w, layer, y)
    requires StackMeaning(upper, w.env).Some?
    ensures Refines(w, DelayedMerge(false, upper + [layer]), WithFallback(a, y))
  {
    hide Refines, Assignment;
    var above, whole, merged := DelayedMerge(false, upper), DelayedMerge(false, upper + [layer]), WithFallback(a, y);
    RefinesAt(w, above, a, [], 0);
    RefinesAt(w, layer, y, [], 0);
    WithFallbackPreservesMeaning(a, y, w.env);
    OneMoreMeaning(upper, layer, w.env);
    forall path, b ensures KeepsAt(w, whole, merged, path, b) {
      MergeKeeps(w, upper, layer, a, y, path, b);
    }
    RefinesFromParts(w, whole, merged);
  }

  lemma OneMoreMeaning(upper: seq<Value>, layer: Value, env: Env)
    ensures Meaning(DelayedMerge(false, upper), env) == StackMeaning(upper, env)
    ensures Meaning(DelayedMerge(false, upper + [layer]), env) ==
      MergeOptional(StackMeaning(upper, env), Meaning(layer, env))
  {
    OneMoreLayer(upper, layer, env);
  }

  lemma OneMoreLayer(upper: seq<Value>, layer: Value, env: Env)
    ensures StackMeaning(upper + [layer], env) == MergeOptional(StackMeaning(upper, env), Meaning(layer, env))
  {
    hide Meaning, MergeOptional;
    assert (upper + [layer])[..|upper|] == upper;
  }

  /** A visible stack is visible without its last layer, which hides nothing. */
  lemma LastVisible(w: Sense, upper: seq<Value>, layer: Value, path: Path, b: nat)
    requires Visible(w, DelayedMerge(false, upper + [layer]), path, b) && path != []
    ensures Visible(w, DelayedMerge(false, upper), path, b) && Visible(w, layer, path, b)
    ensures HidesNothing(FirmOf(DelayedMerge(false, upper), w.env), StackMeaning(upper, w.env),
                         Meaning(layer, w.env), path)
  {
    hide HidesNothing, FirmOf, StackMeaning, Meaning;
    var stack := upper + [layer];
    assert stack[..|upper|] == upper && stack[|upper|] == layer;
    assert LayersHideNothing(upper, path, w.env) by {
      forall i | 0 <= i < |upper|
        ensures HidesNothing(FirmOf(DelayedMerge(false, upper[..i]), w.env), StackMeaning(upper[..i], w.env),
                             Meaning(upper[i], w.env), path)
      {
        assert stack[..i] == upper[..i] && stack[i] == upper[i];
      }
    }
    forall i | 0 <= i < |upper| ensures Visible(w, upper[i], path, b) {
      assert stack[i] == upper[i];
    }
  }

  lemma MergeVisible(w: Sense, upper: seq<Value>, layer: Value, a: Value, y: Value, path: Path, b: nat)
    requires Assignment(w.env) && Refines(w, DelayedMerge(false, upper), a) && Refines(w, layer, y)
    requires Visible(w, DelayedMerge(false, upper + [layer]), path, b)
    ensures Visible(w, WithFallback(a, y), path, b)
  {
    hide Refines, Assignment, HidesNothing, Firm, Visible;
    if path == [] {
      NoPathVisible(w, WithFallback(a, y), b);
    } else {
      var above := DelayedMerge(false, upper);
      LastVisible(w, upper, layer, path, b);
      RefinesAt(w, above, a, path, b);
      RefinesAt(w, layer, y, path, b);
      OneMoreMeaning(upper, layer, w.env);
      forall p: Path | FirmOf(above, w.env)(p) ensures FirmOf(a, w.env)(p) {
        RefinesAt(w, above, a, p, b);
      }
      FirmerHidesNothing(FirmOf(above, w.env), Meaning(a, w.env), FirmOf(a, w.env), Meaning(y, w.env), path);
      WithFallbackVisible(w, a, y, path, b);
    }
  }

  lemma NoPathVisible(w: Sense, v: Value, b: nat)
    ensures Visible(w, v, [], b)
  {
  }

  lemma MergeBounded(w: Sense, upper: seq<Value>, layer: Value, a: Value, y: Value, path: Path, b: nat)
    requires Refines(w, DelayedMerge(false, upper), a) && Refines(w, layer, y)
    requires Bounded(DelayedMerge(false, upper + [layer]), path, w.rank, b)
    ensures Bounded(WithFallback(a, y), path, w.rank, b)
  {
    hide Refines, Bounded, WithFallback;
    LastBounded(upper, layer, path, w.rank, b);
    RefinesAt(w, DelayedMerge(false, upper), a, path, b);
    RefinesAt(w, layer, y, path, b);
    WithFallbackBounded(a, y, path, w.rank, b);
  }

  lemma LastBounded(upper: seq<Value>, layer: Value, path: Path, rank: Rank, b: nat)
    requires Bounded(DelayedMerge(false, upper + [layer]), path, rank, b)
    ensures Bounded(DelayedMerge(false, upper), path, rank, b) && Bounded(layer, path, rank, b)
  {
    var stack := upper + [layer];
    assert stack[|upper|] == layer;
    assert forall i | 0 <= i < |upper| :: stack[i] == upper[i];
  }

  lemma MergeFirm(w: Sense, upper: seq<Value>, layer: Value, a: Value, y: Value, path: Path)
    requires Assignment(w.env) && Refines(w, DelayedMerge(false, upper), a) && Refines(w, layer, y)
    requires Firm(DelayedMerge(false, upper + [layer]), path, w.env)
    ensures Firm(WithFallback(a, y), path, w.env)
  {
    hide Refines, Assignment, WithFallback, Meaning, LookIn, Open;
    var above, env := DelayedMerge(false, upper), w.env;
    RefinesAt(w, above, a, path, 0);
    RefinesAt(w, layer, y, path, 0);
    WithFallbackPreservesMeaning(a, y, env);
    OneMoreMeaning(upper, layer, env);
    if LookIn(Meaning(WithFallback(a, y), env), path).None? {
      FirmNothing(WithFallback(a, y), path, env);
    } else if path == [] {
      LastIgnores(upper, layer, y, env);
      IgnoringFallback(a, y);
    } else {
      LayersFirm(upper, layer, path, env);
      WithFallbackFirm(a, y, path, env);
    }
  }

  lemma LastIgnores(upper: seq<Value>, layer: Value, y: Value, env: Env)
    requires Assignment(env) && Firm(DelayedMerge(false, upper + [layer]), [], env)
    requires LookIn(Meaning(DelayedMerge(false, upper + [layer]), env), []).Some?
    requires Meaning(y, env) == Meaning(layer, env) && (Firm(layer, [], env) ==> Firm(y, [], env))
    ensures IgnoresFallbacks(y)
  {
    hide Meaning;
    IgnoringMeaning(layer, env);
  }

  lemma LayersFirm(upper: seq<Value>, layer: Value, path: Path, env: Env)
    requires path != [] && Firm(DelayedMerge(false, upper + [layer]), path, env)
    requires LookIn(Meaning(DelayedMerge(false, upper + [layer]), env), path).Some?
    ensures Firm(DelayedMerge(false, upper), path, env)
    ensures Open(StackMeaning(upper, env), path) ==> Firm(layer, path, env)
  {
    hide LookIn, Open, Meaning, StackMeaning;
    var stack := upper + [layer];
    assert stack[..|upper|] == upper && stack[|upper|] == layer;
    forall j | 0 <= j < |upper| && Open(StackMeaning(upper[..j], env), path) ensures Firm(upper[j], path, env) {
      assert stack[..j] == upper[..j] && stack[j] == upper[j];
    }
    FirmFromLayers(false, upper, path, env);
  }

  lemma MergeAbsent(w: Sense, upper: seq<Value>, layer: Value, a: Value, y: Value, path: Path)
    requires Refines(w, DelayedMerge(false, upper), a) && Refines(w, layer, y)
    requires Absent(DelayedMerge(false, upper + [layer]), path) && StackMeaning(upper, w.env).Some?
    ensures Absent(WithFallback(a, y), path)
  {
    hide Refines;
    var stack := upper + [layer];
    assert stack[|upper|] == layer;
    assert forall i | 0 <= i < |upper| :: stack[i] == upper[i];
    RefinesAt(w, DelayedMerge(false, upper), a, path, 0);
    RefinesAt(w, layer, y, path, 0);
    WithFallbackAbsent(a, y, path);
  }

  lemma MergeKeeps(w: Sense, upper: seq<Value>, layer: Value, a: Value, y: Value, path: Path, b: nat)
    requires Assignment(w.env) && Refines(w, DelayedMerge(false, upper), a) && Refines(w, layer, y)
    requires StackMeaning(upper, w.env).Some?
    ensures KeepsAt(w, DelayedMerge(false, upper + [layer]), WithFallback(a, y), path, b)
  {
    hide Refines, Assignment, Visible, Bounded, Firm, Absent, WithFallback, StackMeaning;
    var whole := DelayedMerge(false, upper + [layer]);
    if Visible(w, whole, path, b) {
      MergeVisible(w, upper, layer, a, y, path, b);
    }
    if Bounded(whole, path, w.rank, b) {
      MergeBounded(w, upper, layer, a, y, path, b);
    }
    if Firm(whole, path, w.env) {
      MergeFirm(w, upper, layer, a, y, path);
    }
    if Absent(whole, path) {
      MergeAbsent(w, upper, layer, a, y, path);
    }
  }
}
