/** `with_fallback` and its meaning.

    Merging two values that still hold substitutions cannot be done at once, so the source
    records the layers in a flat stack and merges them when the substitutions are resolved.
    This module models that construction, proves that merging resolved values is associative,
    and proves that postponing a merge never changes what the value finally means. */
module MergeAlgebra {
  import opened ConfigValues

  /** `unmerged_values()`, and the layers a value contributes when a merge is postponed. */
  function Layers(v: Value): (layers: seq<Value>)
  {
    if v.DelayedMerge? then v.stack else [v]
  }

  /** `with_fallback`: `a` wins, `b` fills the gaps. */
  function WithFallback(a: Value, b: Value): (r: Value)
    decreases a
  {
    if IgnoresFallbacks(a) then a
    else if Unmergeable(b) then DelayedMerge(IsObject(a), Layers(a) + Layers(b))
    else if a.Object? && b.Object? then
      Object(map k | k in a.fields.Keys + b.fields.Keys ::
               if k !in a.fields then b.fields[k]
               else if k !in b.fields then a.fields[k]
               else WithFallback(a.fields[k], b.fields[k]),
             b.ignoresFallbacks)
    else if a.Object? && Resolved(a) then a.(ignoresFallbacks := true)
    else DelayedMerge(IsObject(a), Layers(a) + [b])
  }

  /** `SimpleConfigObject::merged_with_object`: the loop over all keys, the status it tracks, and
      the copies it saves when nothing has changed. */
  method MergedWithObject(self: Value, fallback: Value) returns (r: Value, resolved: bool)
    requires self.Object? && fallback.Object? && !self.ignoresFallbacks
    ensures r == WithFallback(self, fallback) && resolved == Resolved(r)
  {
    hide WithFallback, Resolved;
    MergedFields(self, fallback);
    var changed, allResolved := false, true;
    var merged: map<string, Value> := map[];
    var allKeys := self.fields.Keys + fallback.fields.Keys;
    ghost var all := WithFallback(self, fallback).fields;
    while allKeys != {}
      invariant allKeys <= all.Keys && merged.Keys == all.Keys - allKeys
      invariant forall k | k in merged :: merged[k] == all[k]
      invariant allResolved <==> AllResolved(merged)
      invariant !changed ==> forall k | k in merged :: k in self.fields && self.fields[k] == merged[k]
    {
      var key :| key in allKeys;
      allKeys := allKeys - {key};
      var kept;
      if key !in self.fields {
        kept := fallback.fields[key];
        changed := true;
      } else if key !in fallback.fields {
        kept := self.fields[key];
      } else {
        kept := WithFallback(self.fields[key], fallback.fields[key]);
        if kept != self.fields[key] {
          changed := true;
        }
      }
      OneMoreField(merged, key, kept);
      merged := merged[key := kept];
      if !Resolved(kept) {
        allResolved := false;
      }
    }
    resolved := allResolved;
    if changed {
      r := Object(merged, fallback.ignoresFallbacks);
    } else {
      assert merged == self.fields;
      r := if fallback.ignoresFallbacks then self.(ignoresFallbacks := true) else self;
    }
    assert merged == all;
    ResolvedFields(r);
  }

  predicate AllResolved(fields: map<string, Value>) {
    forall k | k in fields :: Resolved(fields[k])
  }

  lemma OneMoreField(fields: map<string, Value>, key: string, v: Value)
    requires key !in fields
    ensures AllResolved(fields[key := v]) <==> AllResolved(fields) && Resolved(v)
  {
    hide Resolved;
    var more := fields[key := v];
    if AllResolved(more) {
      assert Resolved(more[key]);
      forall k | k in fields ensures Resolved(fields[k]) {
        assert Resolved(more[k]);
      }
    }
  }

  lemma ResolvedFields(o: Value)
    requires o.Object?
    ensures Resolved(o) <==> AllResolved(o.fields)
  {
  }

  /** What merging two objects puts at each key. */
  lemma MergedFields(a: Value, b: Value)
    requires a.Object? && b.Object? && !a.ignoresFallbacks
    ensures var m := WithFallback(a, b);
      && m.Object? && m.ignoresFallbacks == b.ignoresFallbacks && m.fields.Keys == a.fields.Keys + b.fields.Keys
      && forall k | k in m.fields :: m.fields[k] ==
           if k !in a.fields then b.fields[k]
           else if k !in b.fields then a.fields[k]
           else WithFallback(a.fields[k], b.fields[k])
  {
  }

  /** Merging the layers of a stack from the top, as `make_replacement` does. */
  function MergeLayers(layers: seq<Value>): (r: Value)
    requires layers != []
  {
    if |layers| == 1 then layers[0]
    else WithFallback(MergeLayers(layers[..|layers| - 1]), layers[|layers| - 1])
  }

  // ---------------------------------------------------------------- constructors' invariants

  /** Every stack that merging builds is flat, and an object stack has an object at its front;
      merging an object gives an object. */
  lemma {:induction false} WithFallbackWellFormed(a: Value, b: Value)
    requires WellFormed(a) && WellFormed(b)
    ensures WellFormed(WithFallback(a, b))
    ensures IsObject(WithFallback(a, b)) <==> IsObject(a)
    decreases a
  {
    if IgnoresFallbacks(a) {
    } else if !Unmergeable(b) && a.Object? && b.Object? {
      forall k | k in a.fields && k in b.fields
        ensures WellFormed(WithFallback(a.fields[k], b.fields[k]))
      {
        WithFallbackWellFormed(a.fields[k], b.fields[k]);
      }
    } else if !Unmergeable(b) && a.Object? && Resolved(a) {
    } else {
      var lower := if Unmergeable(b) then Layers(b) else [b];
      var stack := Layers(a) + lower;
      LayersWellFormed(a);
      LayersWellFormed(b);
      assert stack[0] == Layers(a)[0];
      if a.Object? {
        var i :| 0 <= i < |lower| && !lower[i].Object?;
        assert stack[|Layers(a)| + i] == lower[i];
      } else {
        var i :| 0 <= i < |Layers(a)| && !Layers(a)[i].Object?;
        assert stack[i] == Layers(a)[i];
      }
    }
  }

  lemma LayersWellFormed(v: Value)
    requires WellFormed(v)
    ensures |Layers(v)| >= 1 && (IsObject(v) <==> Layers(v)[0].Object?)
    ensures forall i | 0 <= i < |Layers(v)| :: !Layers(v)[i].DelayedMerge? && WellFormed(Layers(v)[i])
    ensures !v.Object? ==> exists i | 0 <= i < |Layers(v)| :: !Layers(v)[i].Object?
  {
    if !v.DelayedMerge? && !v.Object? {
      assert !Layers(v)[0].Object?;
    }
  }

  lemma {:induction false} MergeLayersWellFormed(layers: seq<Value>)
    requires layers != [] && forall i | 0 <= i < |layers| :: WellFormed(layers[i])
    ensures WellFormed(MergeLayers(layers))
    ensures IsObject(MergeLayers(layers)) <==> IsObject(layers[0])
  {
    if |layers| > 1 {
      MergeLayersWellFormed(layers[..|layers| - 1]);
      WithFallbackWellFormed(MergeLayers(layers[..|layers| - 1]), layers[|layers| - 1]);
    }
  }

  // ---------------------------------------------------------------- merging resolved values

  lemma {:induction false} WithFallbackResolved(a: Value, b: Value)
    requires Resolved(a) && Resolved(b)
    ensures Resolved(WithFallback(a, b))
    decreases a
  {
    if a.Object? && b.Object? && !a.ignoresFallbacks {
      forall k | k in a.fields && k in b.fields
        ensures Resolved(WithFallback(a.fields[k], b.fields[k]))
      {
        WithFallbackResolved(a.fields[k], b.fields[k]);
      }
    }
  }

  /** Among resolved values the grouping of merges is irrelevant, the `ignores_fallbacks` flags
      at every depth included. */
  lemma {:induction false} WithFallbackAssociative(a: Value, b: Value, c: Value)
    requires Resolved(a) && Resolved(b) && Resolved(c)
    ensures WithFallback(WithFallback(a, b), c) == WithFallback(a, WithFallback(b, c))
    decreases a
  {
    if a.Object? && !a.ignoresFallbacks && b.Object? && !b.ignoresFallbacks && c.Object? {
      forall k ensures AssociatesAt(a, b, c, k) {
        if k in a.fields && k in b.fields && k in c.fields {
          WithFallbackAssociative(a.fields[k], b.fields[k], c.fields[k]);
        }
      }
      AssociativeByKey(a, b, c);
    } else {
      WithFallbackResolved(a, b);
      WithFallbackResolved(b, c);
    }
  }

  /** What an object holds at a key. */
  function FieldAt(o: Value, k: string): (r: Option<Value>)
    requires o.Object?
  {
    if k in o.fields then Some(o.fields[k]) else None
  }

  predicate AssociatesAt(a: Value, b: Value, c: Value, k: string)
    requires a.Object? && b.Object? && c.Object?
  {
    MergeOptional(MergeOptional(FieldAt(a, k), FieldAt(b, k)), FieldAt(c, k)) ==
    MergeOptional(FieldAt(a, k), MergeOptional(FieldAt(b, k), FieldAt(c, k)))
  }

  /** Objects merge key by key. */
  lemma MergedAt(a: Value, b: Value)
    requires a.Object? && b.Object? && !a.ignoresFallbacks
    ensures var m := WithFallback(a, b);
      && m.Object? && m.ignoresFallbacks == b.ignoresFallbacks
      && forall k :: FieldAt(m, k) == MergeOptional(FieldAt(a, k), FieldAt(b, k))
  {
  }

  lemma SameEntries(a: Value, b: Value)
    requires a.Object? && b.Object? && a.ignoresFallbacks == b.ignoresFallbacks
    requires forall k :: FieldAt(a, k) == FieldAt(b, k)
    ensures a == b
  {
    assert forall k :: k in a.fields <==> FieldAt(a, k).Some?;
    assert forall k :: k in b.fields <==> FieldAt(b, k).Some?;
    assert a.fields.Keys == b.fields.Keys;
    forall k | k in a.fields ensures a.fields[k] == b.fields[k] {
      assert FieldAt(a, k) == FieldAt(b, k);
    }
    assert a.fields == b.fields;
  }

  lemma AssociativeByKey(a: Value, b: Value, c: Value)
    requires a.Object? && !a.ignoresFallbacks && b.Object? && !b.ignoresFallbacks && c.Object?
    requires forall k :: AssociatesAt(a, b, c, k)
    ensures WithFallback(WithFallback(a, b), c) == WithFallback(a, WithFallback(b, c))
  {
    hide WithFallback, FieldAt, MergeOptional;
    MergedAt(a, b);
    MergedAt(b, c);
    MergedAt(WithFallback(a, b), c);
    MergedAt(a, WithFallback(b, c));
    var left, right := WithFallback(WithFallback(a, b), c), WithFallback(a, WithFallback(b, c));
    forall k ensures FieldAt(left, k) == FieldAt(right, k) {
      assert AssociatesAt(a, b, c, k);
    }
    SameEntries(left, right);
  }

  /** A non-object, or an object that has fallen back to one, blocks every later fallback
      however the merges are grouped. */
  lemma NonObjectBlocksFallbacks(a: Value, blocker: Value, c: Value)
    requires Resolved(a) && Resolved(blocker) && Resolved(c) && !blocker.Object?
    ensures WithFallback(WithFallback(a, blocker), c) == WithFallback(a, blocker)
    ensures WithFallback(a, WithFallback(blocker, c)) == WithFallback(a, blocker)
  {
    WithFallbackAssociative(a, blocker, c);
  }

  /** A value that is no object drops its fallback exactly if it is resolved: what holds a substitution
      keeps every layer below it. */
  lemma FallbackKeptExactly(a: Value, b: Value)
    requires !a.Object? && !a.DelayedMerge?
    ensures WithFallback(a, b) == if Resolved(a) then a else DelayedMerge(false, [a] + Layers(b))
  {
    assert Layers(a) == [a];
    if !Unmergeable(b) {
      assert Layers(b) == [b];
    }
  }

  // ---------------------------------------------------------------- the meaning of a value

  /** A merge in which a side may have vanished. */
  function MergeOptional(a: Option<Value>, b: Option<Value>): (r: Option<Value>) {
    if a.None? then b
    else if b.None? then a
    else Some(WithFallback(a.value, b.value))
  }

  /** An assignment gives every reference and concatenation a resolved value, or nothing. */
  ghost predicate Assignment(env: Value -> Option<Value>) {
    forall n :: env(n).Some? ==> Resolved(env(n).value)
  }

  /** What `v` finally means when references and concatenations mean what `env` says. */
  ghost function Meaning(v: Value, env: Value -> Option<Value>): (r: Option<Value>)
    decreases v
  {
    match v
    case List(items) => Some(List(PresentItems(items, env)))
    case Object(fields, ignores) =>
      Some(Object(map k | k in fields && Meaning(fields[k], env).Some? :: Meaning(fields[k], env).value, ignores))
    case Reference(_, _, _, _) => env(v)
    case Concatenation(_) => env(v)
    case DelayedMerge(_, stack) => StackMeaning(stack, env)
    case _ => Some(v)
  }

  ghost function PresentItems(items: seq<Value>, env: Value -> Option<Value>): (r: seq<Value>)
    decreases items
  {
    if items == [] then []
    else
      var rest := PresentItems(items[..|items| - 1], env);
      var last := Meaning(items[|items| - 1], env);
      if last.Some? then rest + [last.value] else rest
  }

  /** The layers that did not vanish, merged from the top. */
  ghost function StackMeaning(stack: seq<Value>, env: Value -> Option<Value>): (r: Option<Value>)
    decreases stack
  {
    if stack == [] then None
    else MergeOptional(StackMeaning(stack[..|stack| - 1], env), Meaning(stack[|stack| - 1], env))
  }

  lemma {:induction false} MeaningResolved(v: Value, env: Value -> Option<Value>)
    requires Assignment(env)
    ensures Meaning(v, env).Some? ==> Resolved(Meaning(v, env).value)
    decreases v
  {
    match v
    case List(items) => PresentItemsResolved(items, env);
    case Object(fields, _) =>
      forall k | k in fields
        ensures Meaning(fields[k], env).Some? ==> Resolved(Meaning(fields[k], env).value)
      {
        MeaningResolved(fields[k], env);
      }
    case DelayedMerge(_, stack) => StackMeaningResolved(stack, env);
    case _ =>
  }

  lemma {:induction false} PresentItemsResolved(items: seq<Value>, env: Value -> Option<Value>)
    requires Assignment(env)
    ensures forall i | 0 <= i < |PresentItems(items, env)| :: Resolved(PresentItems(items, env)[i])
    decreases items
  {
    if items != [] {
      PresentItemsResolved(items[..|items| - 1], env);
      MeaningResolved(items[|items| - 1], env);
    }
  }

  lemma {:induction false} StackMeaningResolved(stack: seq<Value>, env: Value -> Option<Value>)
    requires Assignment(env)
    ensures StackMeaning(stack, env).Some? ==> Resolved(StackMeaning(stack, env).value)
    decreases stack
  {
    if stack != [] {
      StackMeaningResolved(stack[..|stack| - 1], env);
      MeaningResolved(stack[|stack| - 1], env);
      var a, b := StackMeaning(stack[..|stack| - 1], env), Meaning(stack[|stack| - 1], env);
      if a.Some? && b.Some? {
        WithFallbackResolved(a.value, b.value);
      }
    }
  }

  lemma MergeOptionalAssociative(a: Option<Value>, b: Option<Value>, c: Option<Value>)
    requires a.Some? ==> Resolved(a.value)
    requires b.Some? ==> Resolved(b.value)
    requires c.Some? ==> Resolved(c.value)
    ensures MergeOptional(MergeOptional(a, b), c) == MergeOptional(a, MergeOptional(b, c))
  {
    if a.Some? && b.Some? && c.Some? {
      WithFallbackAssociative(a.value, b.value, c.value);
    }
  }

  /** Stacking stacks is merging their meanings. */
  lemma {:induction false} StackMeaningAppend(upper: seq<Value>, lower: seq<Value>, env: Value -> Option<Value>)
    requires Assignment(env)
    ensures StackMeaning(upper + lower, env) == MergeOptional(StackMeaning(upper, env), StackMeaning(lower, env))
    decreases |lower|
  {
    if lower == [] {
      assert upper + lower == upper;
    } else {
      var shorter, last := lower[..|lower| - 1], lower[|lower| - 1];
      assert (upper + lower)[..|upper + lower| - 1] == upper + shorter;
      StackMeaningAppend(upper, shorter, env);
      StackMeaningResolved(upper, env);
      StackMeaningResolved(shorter, env);
      MeaningResolved(last, env);
      MergeOptionalAssociative(StackMeaning(upper, env), StackMeaning(shorter, env), Meaning(last, env));
    }
  }

  /** A value that ignores fallbacks means something that ignores fallbacks. */
  lemma {:induction false} IgnoringMeaning(v: Value, env: Value -> Option<Value>)
    requires Assignment(env) && IgnoresFallbacks(v)
    ensures Meaning(v, env).Some? && IgnoresFallbacks(Meaning(v, env).value)
    decreases v
  {
    MeaningResolved(v, env);
    match v
    case DelayedMerge(_, stack) =>
      IgnoringMeaning(stack[|stack| - 1], env);
      StackMeaningResolved(stack[..|stack| - 1], env);
      MeaningResolved(stack[|stack| - 1], env);
    case _ =>
  }

  lemma LayersMeaning(v: Value, env: Value -> Option<Value>)
    ensures StackMeaning(Layers(v), env) == Meaning(v, env)
  {
    if !v.DelayedMerge? {
      assert Layers(v)[..0] == [];
    }
  }

  /** A resolved value means itself. */
  lemma {:induction false} ResolvedMeansItself(v: Value, env: Value -> Option<Value>)
    requires Resolved(v)
    ensures Meaning(v, env) == Some(v)
    decreases v
  {
    match v
    case List(items) => ResolvedItems(items, env);
    case Object(fields, _) =>
      forall k | k in fields ensures Meaning(fields[k], env) == Some(fields[k]) {
        ResolvedMeansItself(fields[k], env);
      }
      assert (map k | k in fields && Meaning(fields[k], env).Some? :: Meaning(fields[k], env).value) == fields;
    case _ =>
  }

  lemma {:induction false} ResolvedItems(items: seq<Value>, env: Value -> Option<Value>)
    requires forall i | 0 <= i < |items| :: Resolved(items[i])
    ensures PresentItems(items, env) == items
    decreases items
  {
    if items != [] {
      ResolvedItems(items[..|items| - 1], env);
      ResolvedMeansItself(items[|items| - 1], env);
    }
  }

  /** Postponing a merge preserves its meaning: for every assignment, what `a.with_fallback(b)`
      means is the merge of what `a` means and what `b` means, absence being the identity. */
  lemma {:induction false} WithFallbackPreservesMeaning(a: Value, b: Value, env: Value -> Option<Value>)
    requires Assignment(env)
    ensures Meaning(WithFallback(a, b), env) == MergeOptional(Meaning(a, env), Meaning(b, env))
    decreases a
  {
    if IgnoresFallbacks(a) {
      IgnoringMeaning(a, env);
    } else if !Unmergeable(b) && a.Object? && b.Object? {
      ObjectMergePreservesMeaning(a, b, env);
    } else if !Unmergeable(b) && a.Object? && Resolved(a) {
      BlockedObjectMeaning(a, b, env);
    } else {
      assert WithFallback(a, b) == DelayedMerge(IsObject(a), Layers(a) + Layers(b));
      StackedMeaning(a, b, env);
    }
  }

  /** A resolved object over a non-object only starts to ignore fallbacks. */
  lemma BlockedObjectMeaning(a: Value, b: Value, env: Value -> Option<Value>)
    requires Assignment(env)
    requires a.Object? && !a.ignoresFallbacks && Resolved(a) && !Unmergeable(b) && !b.Object?
    ensures Meaning(WithFallback(a, b), env) == MergeOptional(Meaning(a, env), Meaning(b, env))
  {
    ResolvedMeansItself(a, env);
    ResolvedMeansItself(a.(ignoresFallbacks := true), env);
    MeaningResolved(b, env);
  }

  /** A postponed merge means the merge of its two sides. */
  lemma StackedMeaning(a: Value, b: Value, env: Value -> Option<Value>)
    requires Assignment(env)
    ensures forall objectHeaded ::
      Meaning(DelayedMerge(objectHeaded, Layers(a) + Layers(b)), env) == MergeOptional(Meaning(a, env), Meaning(b, env))
  {
    StackMeaningAppend(Layers(a), Layers(b), env);
    LayersMeaning(a, env);
    LayersMeaning(b, env);
  }

  lemma {:induction false} ObjectMergePreservesMeaning(a: Value, b: Value, env: Value -> Option<Value>)
    requires Assignment(env)
    requires a.Object? && b.Object? && !a.ignoresFallbacks
    ensures Meaning(WithFallback(a, b), env) == MergeOptional(Meaning(a, env), Meaning(b, env))
    decreases a, 0
  {
    var merged := WithFallback(a, b);
    forall k | k in a.fields && k in b.fields
      ensures Meaning(merged.fields[k], env) == MergeOptional(Meaning(a.fields[k], env), Meaning(b.fields[k], env))
    {
      WithFallbackPreservesMeaning(a.fields[k], b.fields[k], env);
    }
    var left, right := Meaning(merged, env).value, MergeOptional(Meaning(a, env), Meaning(b, env)).value;
    assert left.fields == right.fields;
  }

  /** Hence merging the layers of a stack early or late is the same. */
  lemma {:induction false} MergeLayersPreservesMeaning(layers: seq<Value>, env: Value -> Option<Value>)
    requires Assignment(env) && layers != []
    ensures Meaning(MergeLayers(layers), env) == StackMeaning(layers, env)
  {
    if |layers| == 1 {
      assert layers[..0] == [];
    } else {
      MergeLayersPreservesMeaning(layers[..|layers| - 1], env);
      WithFallbackPreservesMeaning(MergeLayers(layers[..|layers| - 1]), layers[|layers| - 1], env);
    }
  }
}
