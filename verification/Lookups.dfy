/** When looking along a path finds what is there.

    A lookup resolves the root along a path and then peeks into the result.  Peeking into an
    object merged over a non-object passes over entries that do not ignore fallbacks, so it may
    miss what the merged object holds.  `Visible` says, of a value as it stands in the document,
    that this does not happen along a path; it follows references, and it is kept by merging. */
module Lookups {
  import opened ConfigValues
  import opened MergeAlgebra

  type Env = Value -> Option<Value>

  // ---------------------------------------------------------------- resolved values along a path

  /** What a resolved value holds at a path. */
  function LookIn(v: Option<Value>, path: Path): (r: Option<Value>)
    decreases |path|
  {
    if v.None? || path == [] then v
    else if v.value.Object? then LookIn(FieldAt(v.value, path[0]), path[1..])
    else None
  }

  /** Nothing at the path, and what is there may still be supplied by a fallback. */
  predicate Open(v: Option<Value>, path: Path)
    decreases |path|
  {
    || v.None?
    || (path != [] && v.value.Object? && !v.value.ignoresFallbacks && Open(FieldAt(v.value, path[0]), path[1..]))
  }

  lemma {:induction false} OpenHoldsNothing(v: Option<Value>, path: Path)
    requires Open(v, path)
    ensures LookIn(v, path).None?
    decreases |path|
  {
    if v.Some? {
      OpenHoldsNothing(FieldAt(v.value, path[0]), path[1..]);
    }
  }

  predicate ResolvedOption(v: Option<Value>) {
    v.Some? ==> Resolved(v.value)
  }

  /** The entry at a key of the merge of two objects. */
  lemma MergedEntry(x: Value, y: Value, k: string)
    requires x.Object? && y.Object? && !x.ignoresFallbacks
    ensures var m := WithFallback(x, y);
      m.Object? && m.ignoresFallbacks == y.ignoresFallbacks
      && FieldAt(m, k) == MergeOptional(FieldAt(x, k), FieldAt(y, k))
  {
  }

  /** A fallback can supply what neither side holds nor hides. */
  lemma {:induction false} OpenMerge(x: Option<Value>, y: Option<Value>, path: Path)
    requires ResolvedOption(x) && ResolvedOption(y)
    ensures Open(MergeOptional(x, y), path) <==> Open(x, path) && Open(y, path)
    decreases |path|
  {
    if x.Some? && y.Some? && path != [] && x.value.Object? && !x.value.ignoresFallbacks && y.value.Object? {
      MergedEntry(x.value, y.value, path[0]);
      OpenMerge(FieldAt(x.value, path[0]), FieldAt(y.value, path[0]), path[1..]);
    }
  }

  /** Where the upper side is open, the lower side answers. */
  lemma {:induction false} LookInOpen(x: Option<Value>, y: Option<Value>, path: Path)
    requires ResolvedOption(x) && ResolvedOption(y) && Open(x, path)
    ensures LookIn(MergeOptional(x, y), path) == LookIn(y, path)
    decreases |path|
  {
    if x.Some? && y.Some? {
      if y.value.Object? {
        MergedEntry(x.value, y.value, path[0]);
        LookInOpen(FieldAt(x.value, path[0]), FieldAt(y.value, path[0]), path[1..]);
      } else {
        OpenHoldsNothing(FieldAt(x.value, path[0]), path[1..]);
      }
    } else if x.Some? {
      OpenHoldsNothing(x, path);
    }
  }

  // ---------------------------------------------------------------- values that ignore fallbacks

  /** What `v` holds at the path, if anything, is written there and ignores fallbacks. */
  ghost predicate Firm(v: Value, path: Path, env: Env)
    decreases v
  {
    LookIn(Meaning(v, env), path).Some? ==>
      if path == [] then IgnoresFallbacks(v)
      else
        match v
        case Object(fields, _) => path[0] in fields && Firm(fields[path[0]], path[1..], env)
        case DelayedMerge(_, stack) =>
          forall j | 0 <= j < |stack| :: Open(StackMeaning(stack[..j], env), path) ==> Firm(stack[j], path, env)
        case _ => false
  }

  /** Merging with something that ignores fallbacks gives something that does. */
  lemma IgnoringFallback(a: Value, b: Value)
    requires IgnoresFallbacks(b)
    ensures IgnoresFallbacks(WithFallback(a, b))
  {
    if !IgnoresFallbacks(a) && b.DelayedMerge? {
      var stack := Layers(a) + Layers(b);
      assert stack[|stack| - 1] == b.stack[|b.stack| - 1];
    }
  }

  lemma LayerFirm(v: Value, path: Path, env: Env, j: nat)
    requires Firm(v, path, env) && path != [] && j < |Layers(v)| && LookIn(Meaning(v, env), path).Some?
    requires Open(StackMeaning(Layers(v)[..j], env), path)
    ensures Firm(Layers(v)[j], path, env)
  {
    if v.DelayedMerge? {
      assert Firm(v.stack[j], path, env);
    }
  }

  /** The entry at a key of what an object means. */
  lemma MeaningEntry(o: Value, k: string, env: Env)
    requires o.Object?
    ensures Meaning(o, env).Some? && Meaning(o, env).value.Object?
    ensures Meaning(o, env).value.ignoresFallbacks == o.ignoresFallbacks
    ensures FieldAt(Meaning(o, env).value, k) == if k in o.fields then Meaning(o.fields[k], env) else None
  {
  }

  /** An object is firm along a path as its entry is. */
  lemma FirmEntry(o: Value, path: Path, env: Env)
    requires o.Object? && path != []
    ensures Firm(o, path, env) <==> (path[0] in o.fields ==> Firm(o.fields[path[0]], path[1..], env))
  {
    hide Meaning, Open;
    MeaningEntry(o, path[0], env);
    assert LookIn(Meaning(o, env), path) == LookIn(FieldAt(Meaning(o, env).value, path[0]), path[1..]);
    if path[0] !in o.fields {
      assert LookIn(None, path[1..]).None?;
    } else if LookIn(Meaning(o.fields[path[0]], env), path[1..]).None? {
      FirmNothing(o.fields[path[0]], path[1..], env);
    }
  }

  /** What is held at a path by a merge is firm if it is firm in the upper side, or left open there
      and firm in the lower side. */
  lemma {:induction false} WithFallbackFirm(a: Value, b: Value, path: Path, env: Env)
    requires Assignment(env) && Firm(a, path, env) && (Open(Meaning(a, env), path) ==> Firm(b, path, env))
    ensures Firm(WithFallback(a, b), path, env)
    decreases a
  {
    hide Meaning, Assignment;
    if IgnoresFallbacks(a) {
    } else if path == [] {
      LeafFirm(a, b, env);
    } else if !Unmergeable(b) && a.Object? && b.Object? {
      hide WithFallback, Firm;
      MergedFields(a, b);
      FirmEntry(a, path, env);
      FirmEntry(b, path, env);
      FirmEntry(WithFallback(a, b), path, env);
      MeaningEntry(a, path[0], env);
      assert Open(Meaning(a, env), path) <==> Open(FieldAt(Meaning(a, env).value, path[0]), path[1..]);
      if path[0] in a.fields && path[0] in b.fields {
        WithFallbackFirm(a.fields[path[0]], b.fields[path[0]], path[1..], env);
      }
    } else if !Unmergeable(b) && a.Object? && Resolved(a) {
      FirmEntry(a, path, env);
      FirmEntry(WithFallback(a, b), path, env);
    } else {
      assert WithFallback(a, b) == DelayedMerge(IsObject(a), Layers(a) + Layers(b));
      StackFirm(IsObject(a), a, b, path, env);
    }
  }

  lemma LeafFirm(a: Value, b: Value, env: Env)
    requires Assignment(env) && Firm(a, [], env) && (Open(Meaning(a, env), []) ==> Firm(b, [], env))
    ensures Firm(WithFallback(a, b), [], env)
  {
    hide Meaning, WithFallback;
    WithFallbackPreservesMeaning(a, b, env);
    if Meaning(a, env).None? {
      if IgnoresFallbacks(b) {
        IgnoringFallback(a, b);
      }
    } else {
      assert WithFallback(a, b) == a by { IgnoringStays(a, b); }
    }
  }

  lemma IgnoringStays(a: Value, b: Value)
    requires IgnoresFallbacks(a)
    ensures WithFallback(a, b) == a
  {
  }

  lemma StackFirm(headed: bool, a: Value, b: Value, path: Path, env: Env)
    requires Assignment(env) && path != []
    requires Firm(a, path, env) && (Open(Meaning(a, env), path) ==> Firm(b, path, env))
    ensures Firm(DelayedMerge(headed, Layers(a) + Layers(b)), path, env)
  {
    hide Assignment, Firm, Open, StackMeaning, LookIn;
    var stack := Layers(a) + Layers(b);
    if LookIn(Meaning(DelayedMerge(headed, stack), env), path).Some? {
      forall j | 0 <= j < |stack| && Open(StackMeaning(stack[..j], env), path) ensures Firm(stack[j], path, env) {
        if j < |Layers(a)| {
          UpperLayerFirm(a, b, j, path, env);
        } else {
          LowerLayerFirm(a, b, j - |Layers(a)|, path, env);
        }
      }
      FirmFromLayers(headed, stack, path, env);
    } else {
      FirmNothing(DelayedMerge(headed, stack), path, env);
    }
  }

  lemma FirmNothing(v: Value, path: Path, env: Env)
    requires LookIn(Meaning(v, env), path).None?
    ensures Firm(v, path, env)
  {
  }

  lemma FirmFromLayers(headed: bool, stack: seq<Value>, path: Path, env: Env)
    requires path != []
    requires forall j | 0 <= j < |stack| && Open(StackMeaning(stack[..j], env), path) :: Firm(stack[j], path, env)
    ensures Firm(DelayedMerge(headed, stack), path, env)
  {
  }

  /** A layer of the upper side. */
  lemma UpperLayerFirm(a: Value, b: Value, j: nat, path: Path, env: Env)
    requires Assignment(env) && path != [] && Firm(a, path, env) && j < |Layers(a)|
    requires Open(StackMeaning((Layers(a) + Layers(b))[..j], env), path)
    requires Open(Meaning(a, env), path) ==> Firm(b, path, env)
    requires LookIn(StackMeaning(Layers(a) + Layers(b), env), path).Some?
    ensures Firm((Layers(a) + Layers(b))[j], path, env)
  {
    hide Meaning, Firm, StackMeaning, LookIn, Open, Assignment;
    assert (Layers(a) + Layers(b))[..j] == Layers(a)[..j] && (Layers(a) + Layers(b))[j] == Layers(a)[j];
    if LookIn(Meaning(a, env), path).Some? {
      LayerFirm(a, path, env, j);
    } else {
      MergedLayers(a, b, env);
      if Open(Meaning(a, env), path) {
        OpenLayer(Layers(a), j, path, env);
        FirmNothing(Layers(a)[j], path, env);
      } else {
        LookInHidden(Meaning(a, env), Meaning(b, env), path);
        assert false;
      }
    }
  }

  lemma MergedLayers(a: Value, b: Value, env: Env)
    requires Assignment(env)
    ensures StackMeaning(Layers(a), env) == Meaning(a, env)
    ensures StackMeaning(Layers(a) + Layers(b), env) == MergeOptional(Meaning(a, env), Meaning(b, env))
    ensures ResolvedOption(Meaning(a, env)) && ResolvedOption(Meaning(b, env))
  {
    StackMeaningAppend(Layers(a), Layers(b), env);
    LayersMeaning(a, env);
    LayersMeaning(b, env);
    MeaningResolved(a, env);
    MeaningResolved(b, env);
  }

  /** What neither holds the path nor leaves it open hides it. */
  lemma {:induction false} LookInHidden(x: Option<Value>, y: Option<Value>, path: Path)
    requires ResolvedOption(x) && ResolvedOption(y) && LookIn(x, path).None? && !Open(x, path)
    ensures LookIn(MergeOptional(x, y), path).None?
    decreases |path|
  {
    if y.Some? && x.value.Object? && !x.value.ignoresFallbacks && y.value.Object? {
      MergedEntry(x.value, y.value, path[0]);
      LookInHidden(FieldAt(x.value, path[0]), FieldAt(y.value, path[0]), path[1..]);
    }
  }

  /** Every layer of an open stack is open, so it holds nothing. */
  lemma {:induction false} OpenLayer(stack: seq<Value>, j: nat, path: Path, env: Env)
    requires Assignment(env) && j < |stack| && Open(StackMeaning(stack, env), path)
    ensures Open(Meaning(stack[j], env), path) && LookIn(Meaning(stack[j], env), path).None?
    decreases |stack|
  {
    hide Meaning, Open, LookIn, Assignment;
    var upper, last := stack[..|stack| - 1], stack[|stack| - 1];
    StackMeaningResolved(upper, env);
    MeaningResolved(last, env);
    OpenMerge(StackMeaning(upper, env), Meaning(last, env), path);
    if j < |upper| {
      OpenLayer(upper, j, path, env);
    } else {
      OpenHoldsNothing(Meaning(last, env), path);
    }
  }

  /** A layer of the lower side. */
  lemma LowerLayerFirm(a: Value, b: Value, j: nat, path: Path, env: Env)
    requires Assignment(env) && path != [] && j < |Layers(b)|
    requires Open(StackMeaning((Layers(a) + Layers(b))[..|Layers(a)| + j], env), path)
    requires Open(Meaning(a, env), path) ==> Firm(b, path, env)
    requires LookIn(StackMeaning(Layers(a) + Layers(b), env), path).Some?
    ensures Firm((Layers(a) + Layers(b))[|Layers(a)| + j], path, env)
  {
    hide Meaning, Firm, StackMeaning, LookIn, Open, Assignment;
    var upper, lower := Layers(a), Layers(b)[..j];
    assert (Layers(a) + Layers(b))[..|Layers(a)| + j] == upper + lower;
    MergedLayers(a, b, env);
    StackMeaningAppend(upper, lower, env);
    StackMeaningResolved(lower, env);
    OpenMerge(Meaning(a, env), StackMeaning(lower, env), path);
    LookInOpen(Meaning(a, env), Meaning(b, env), path);
    LayerFirm(b, path, env, j);
  }

  /** What is firm stays firm when it is resolved in full. */
  lemma {:induction false} MeaningFirm(v: Value, path: Path, env: Env)
    requires Assignment(env) && Firm(v, path, env) && Meaning(v, env).Some?
    ensures Firm(Meaning(v, env).value, path, env)
    decreases v, 0
  {
    hide Assignment;
    var y := Meaning(v, env).value;
    MeaningResolved(v, env);
    ResolvedMeansItself(y, env);
    if LookIn(Some(y), path).Some? {
      if path == [] {
        IgnoringMeaning(v, env);
      } else if v.Object? {
        MeaningEntry(v, path[0], env);
        MeaningFirm(v.fields[path[0]], path[1..], env);
      } else {
        StackMeaningFirm(v.stack, path, env);
      }
    }
  }

  lemma {:induction false} StackMeaningFirm(stack: seq<Value>, path: Path, env: Env)
    requires Assignment(env) && path != [] && StackMeaning(stack, env).Some?
    requires forall j | 0 <= j < |stack| && Open(StackMeaning(stack[..j], env), path) :: Firm(stack[j], path, env)
    ensures Firm(StackMeaning(stack, env).value, path, env)
    decreases stack, 0
  {
    hide Assignment, Firm, Open;
    var upper, last := stack[..|stack| - 1], stack[|stack| - 1];
    var x, y := StackMeaning(upper, env), Meaning(last, env);
    forall j | 0 <= j < |upper| && Open(StackMeaning(upper[..j], env), path) ensures Firm(upper[j], path, env) {
      assert upper[..j] == stack[..j] && upper[j] == stack[j];
    }
    if x.Some? {
      StackMeaningFirm(upper, path, env);
      StackMeaningResolved(upper, env);
      ResolvedMeansItself(x.value, env);
    }
    LastLayerFirm(last, path, env, Open(x, path));
    if x.Some? && y.Some? {
      WithFallbackFirm(x.value, y.value, path, env);
    } else if x.None? {
      assert Open(x, path) by { NothingIsOpen(path); }
    }
  }

  lemma NothingIsOpen(path: Path)
    ensures Open(None, path)
  {
  }

  lemma LastLayerFirm(last: Value, path: Path, env: Env, open: bool)
    requires Assignment(env) && (open ==> Firm(last, path, env))
    ensures open && Meaning(last, env).Some? ==> Firm(Meaning(last, env).value, path, env)
    decreases last, 1
  {
    if open && Meaning(last, env).Some? {
      MeaningFirm(last, path, env);
    }
  }

  // ---------------------------------------------------------------- merges that hide nothing

  ghost function Shift(firm: Path -> bool, k: string): (r: Path -> bool) {
    path => firm([k] + path)
  }

  /** Merging `x` over `y` hides nothing along the path from peeking: where an entry of the object
      `x` stands over something that ignores fallbacks, the entry is firm, or there is nothing at
      the path anyway.  `firm` tells which entries of `x` are firm. */
  ghost predicate HidesNothing(firm: Path -> bool, x: Option<Value>, y: Option<Value>, path: Path)
    decreases |path|
  {
    path != [] && x.Some? && y.Some? && x.value.Object? && !x.value.ignoresFallbacks && path[0] in x.value.fields ==>
      && (IgnoresFallbacks(y.value) ==> firm([path[0]]) || (!y.value.Object? && LookIn(x, path).None?))
      && (y.value.Object? ==>
            HidesNothing(Shift(firm, path[0]), FieldAt(x.value, path[0]), FieldAt(y.value, path[0]), path[1..]))
  }

  /** Entries of `x` that are firm by `f` are firm by `g`. */
  ghost predicate Firmer(f: Path -> bool, x: Option<Value>, g: Path -> bool) {
    forall p: Path | p != [] && LookIn(x, p).Some? && f(p) :: g(p)
  }

  /** What `x` leaves open and is firm by `f` is firm by `g`. */
  ghost predicate FirmBelow(x: Option<Value>, f: Path -> bool, g: Path -> bool) {
    forall p: Path | p != [] && Open(x, p) && f(p) :: g(p)
  }

  lemma LookInEntry(x: Value, k: string, p: Path)
    requires x.Object?
    ensures LookIn(Some(x), [k] + p) == LookIn(FieldAt(x, k), p)
    ensures Open(Some(x), [k] + p) <==> !x.ignoresFallbacks && Open(FieldAt(x, k), p)
  {
    assert ([k] + p)[1..] == p;
  }

  lemma FirmerEntry(f: Path -> bool, x: Value, g: Path -> bool, k: string)
    requires x.Object? && Firmer(f, Some(x), g)
    ensures Firmer(Shift(f, k), FieldAt(x, k), Shift(g, k))
  {
    forall p: Path | p != [] && LookIn(FieldAt(x, k), p).Some? && Shift(f, k)(p) ensures Shift(g, k)(p) {
      LookInEntry(x, k, p);
    }
  }

  lemma FirmBelowEntry(x: Value, f: Path -> bool, g: Path -> bool, k: string)
    requires x.Object? && !x.ignoresFallbacks && FirmBelow(Some(x), f, g)
    ensures FirmBelow(FieldAt(x, k), Shift(f, k), Shift(g, k))
  {
    forall p: Path | p != [] && Open(FieldAt(x, k), p) && Shift(f, k)(p) ensures Shift(g, k)(p) {
      LookInEntry(x, k, p);
    }
  }

  lemma HoldsEntry(x: Value, k: string)
    requires x.Object?
    ensures LookIn(Some(x), [k]).Some? <==> k in x.fields
    ensures !x.ignoresFallbacks ==> (Open(Some(x), [k]) <==> k !in x.fields)
  {
    assert [k][1..] == [];
  }

  lemma {:induction false} FirmerHidesNothing(f: Path -> bool, x: Option<Value>, g: Path -> bool, y: Option<Value>,
                                              path: Path)
    requires Firmer(f, x, g) && HidesNothing(f, x, y, path)
    ensures HidesNothing(g, x, y, path)
    decreases |path|
  {
    if path != [] && x.Some? && y.Some? && x.value.Object? && !x.value.ignoresFallbacks && path[0] in x.value.fields {
      HoldsEntry(x.value, path[0]);
      if y.value.Object? {
        FirmerEntry(f, x.value, g, path[0]);
        FirmerHidesNothing(Shift(f, path[0]), FieldAt(x.value, path[0]), Shift(g, path[0]), FieldAt(y.value, path[0]),
                           path[1..]);
      }
    }
  }

  /** A merge over a merge hides nothing exactly as its parts do. */
  lemma {:induction false} HidesNothingParts(fx: Path -> bool, fy: Path -> bool, fxy: Path -> bool,
                                             x: Option<Value>, y: Option<Value>, z: Option<Value>, path: Path)
    requires ResolvedOption(x) && ResolvedOption(y) && ResolvedOption(z)
    requires Firmer(fx, x, fxy) && FirmBelow(x, fy, fxy)
    requires HidesNothing(fx, x, MergeOptional(y, z), path) && HidesNothing(fy, y, z, path)
    ensures HidesNothing(fx, x, y, path) && HidesNothing(fxy, MergeOptional(x, y), z, path)
    decreases |path|
  {
    if path == [] {
    } else if x.None? {
      assert Firmer(fy, y, fxy);
      FirmerHidesNothing(fy, y, fxy, z, path);
    } else if y.None? {
      FirmerHidesNothing(fx, x, fxy, z, path);
    } else if z.Some? && x.value.Object? && !x.value.ignoresFallbacks && y.value.Object? && !y.value.ignoresFallbacks {
      PartsOfObjects(fx, fy, fxy, x.value, y.value, z.value, path);
    }
  }

  lemma {:induction false} PartsOfObjects(fx: Path -> bool, fy: Path -> bool, fxy: Path -> bool, x: Value, y: Value,
                                          z: Value, path: Path)
    requires Resolved(x) && Resolved(y) && Resolved(z) && path != []
    requires x.Object? && !x.ignoresFallbacks && y.Object? && !y.ignoresFallbacks
    requires Firmer(fx, Some(x), fxy) && FirmBelow(Some(x), fy, fxy)
    requires HidesNothing(fx, Some(x), MergeOptional(Some(y), Some(z)), path)
    requires HidesNothing(fy, Some(y), Some(z), path)
    ensures HidesNothing(fx, Some(x), Some(y), path)
    ensures HidesNothing(fxy, MergeOptional(Some(x), Some(y)), Some(z), path)
    decreases |path|, 0
  {
    var k := path[0];
    var xy, yz := WithFallback(x, y), WithFallback(y, z);
    MergedEntry(x, y, k);
    HoldsEntry(x, k);
    if z.Object? {
      MergedEntry(y, z, k);
      FirmerEntry(fx, x, fxy, k);
      FirmBelowEntry(x, fy, fxy, k);
      HidesNothingParts(Shift(fx, k), Shift(fy, k), Shift(fxy, k), FieldAt(x, k), FieldAt(y, k), FieldAt(z, k),
                        path[1..]);
    } else if k !in x.fields {
      assert LookIn(Some(xy), path) == LookIn(Some(y), path);
    }
  }
}
