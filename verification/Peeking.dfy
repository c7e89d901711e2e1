/** Peeking finds what is there, after a resolution along the path, wherever merging hides nothing;
    and exactly when peeking into a surviving merge stack agrees with merging it. */
module Peeking {
  import opened ConfigValues
  import opened MergeAlgebra
  import opened Measures
  import opened Resolution
  import opened Ranks
  import opened Lookups
  import opened Visibility

  // ---------------------------------------------------------------- after a restricted resolution

  /** What has been resolved along a path means something, an object exactly if it is one; and a
      stack that has survived ignores fallbacks once it is resolved. */
  lemma PartlyMeaning(v: Value, r: Path, env: Env)
    requires Assignment(env) && WellFormed(v) && r != [] && PartlyResolved(v, r)
    ensures Meaning(v, env).Some? && Resolved(Meaning(v, env).value) && (Meaning(v, env).value.Object? <==> IsObject(v))
    ensures v.DelayedMerge? ==> IgnoresFallbacks(Meaning(v, env).value)
  {
    MeaningResolved(v, env);
    if v.DelayedMerge? {
      forall i | 0 <= i < |v.stack| ensures !Unmergeable(v.stack[i]) {
        assert PartlyResolved(v.stack[i], r);
      }
      PlainStack(v.stack, |v.stack|, env);
      assert v.stack[..|v.stack|] == v.stack;
    }
  }

  /** A stack of objects and plain values. */
  lemma {:induction false} PlainStack(stack: seq<Value>, n: nat, env: Env)
    requires Assignment(env) && 1 <= n <= |stack| && forall i | 0 <= i < |stack| :: !Unmergeable(stack[i])
    ensures var m := StackMeaning(stack[..n], env);
      && m.Some? && Resolved(m.value) && (m.value.Object? <==> stack[0].Object?)
      && ((exists i | 0 <= i < n :: !stack[i].Object?) ==> IgnoresFallbacks(m.value))
    decreases n
  {
    hide Assignment;
    PrefixMeaning(stack, n - 1, env);
    StackMeaningResolved(stack[..n], env);
    PlainLayer(stack[n - 1], env);
    if n > 1 {
      PlainStack(stack, n - 1, env);
      Absorbs(StackMeaning(stack[..n - 1], env).value, Meaning(stack[n - 1], env).value);
    } else {
      assert stack[..0] == [];
    }
  }

  lemma PlainLayer(v: Value, env: Env)
    requires Assignment(env) && !Unmergeable(v)
    ensures Meaning(v, env).Some? && Resolved(Meaning(v, env).value) && (Meaning(v, env).value.Object? <==> v.Object?)
  {
    MeaningResolved(v, env);
  }

  lemma Absorbs(x: Value, y: Value)
    requires Resolved(x) && Resolved(y)
    ensures var m := WithFallback(x, y);
      (m.Object? <==> x.Object?) && (IgnoresFallbacks(m) <==> IgnoresFallbacks(x) || IgnoresFallbacks(y))
  {
  }

  // ---------------------------------------------------------------- peeking rightly

  ghost function PeekedMeaning(p: Peeked, env: Env): (r: Option<Value>) {
    if p.Found? && p.value.Some? then Meaning(p.value.value, env) else None
  }

  /** Peeking along `r` finds what means the value at that path. */
  ghost predicate PeeksRight(v: Value, r: Path, env: Env) {
    r != [] && IsObject(v) ==>
      PeekPath(v, r).Found? && PeekedMeaning(PeekPath(v, r), env) == LookIn(Meaning(v, env), r)
  }

  /** An object is peeked into rightly as its entry is. */
  lemma PeeksEntry(o: Value, r: Path, env: Env)
    requires Assignment(env) && o.Object? && WellFormed(o) && r != [] && PartlyResolved(o, r)
    ensures PeeksRight(o, r, env) <==> (|r| > 1 && r[0] in o.fields ==> PeeksRight(o.fields[r[0]], r[1..], env))
  {
    hide Meaning, Assignment;
    MeaningEntry(o, r[0], env);
    assert LookIn(Meaning(o, env), r) == LookIn(FieldAt(Meaning(o, env).value, r[0]), r[1..]);
    if r[0] in o.fields {
      var child := o.fields[r[0]];
      if |r| > 1 {
        PartlyMeaning(child, r[1..], env);
        assert !IsObject(child) ==> LookIn(Meaning(child, env), r[1..]).None?;
      } else {
        assert r[1..] == [];
        assert LookIn(Meaning(child, env), []) == Meaning(child, env);
      }
    } else {
      assert LookIn(None, r[1..]).None?;
    }
  }

  /** Merging keeps peeking right where it hides nothing. */
  lemma {:induction false} WithFallbackPeeksRight(a: Value, b: Value, r: Path, env: Env)
    requires Assignment(env) && r != [] && WellFormed(a) && WellFormed(b) && PartlyResolved(a, r)
    requires PartlyResolved(b, r)
    requires PeeksRight(a, r, env) && PeeksRight(b, r, env)
    requires HidesNothing(FirmOf(a, env), Meaning(a, env), Meaning(b, env), r)
    ensures PeeksRight(WithFallback(a, b), r, env)
    decreases a
  {
    hide Meaning, Assignment, HidesNothing, PeeksRight, PartlyResolved, WellFormed;
    WithFallbackWellFormed(a, b);
    WithFallbackPartly(a, b, r);
    if IgnoresFallbacks(a) {
    } else if !Unmergeable(b) && a.Object? && b.Object? {
      hide WithFallback;
      MergedFields(a, b);
      PeeksEntry(a, r, env);
      PeeksEntry(b, r, env);
      PeeksEntry(WithFallback(a, b), r, env);
      if |r| > 1 && r[0] in a.fields && r[0] in b.fields {
        EntryParts(a, r);
        EntryParts(b, r);
        EntriesHideNothing(a, b, r, env);
        WithFallbackPeeksRight(a.fields[r[0]], b.fields[r[0]], r[1..], env);
      }
    } else if !Unmergeable(b) && a.Object? && Resolved(a) {
      PeeksEntry(a, r, env);
      PeeksEntry(WithFallback(a, b), r, env);
    } else if a.Object? {
      OverSealed(a, b, r, env);
    } else if IsObject(a) {
      StackOnTop(a, b, r, env);
    } else {
      assert !IsObject(WithFallback(a, b));
      NoObjectPeeks(WithFallback(a, b), r, env);
    }
  }

  lemma NoObjectPeeks(v: Value, r: Path, env: Env)
    requires !IsObject(v)
    ensures PeeksRight(v, r, env)
  {
  }

  lemma EntryParts(o: Value, r: Path)
    requires o.Object? && WellFormed(o) && |r| > 1 && PartlyResolved(o, r) && r[0] in o.fields
    ensures WellFormed(o.fields[r[0]]) && PartlyResolved(o.fields[r[0]], r[1..])
  {
  }

  /** Peeking depends on the value only through the first key. */
  lemma SamePeek(m: Value, v: Value, r: Path, env: Env)
    requires r != [] && IsObject(m) && IsObject(v) && PeeksRight(v, r, env)
    requires AttemptPeek(m, r[0]) == AttemptPeek(v, r[0]) && LookIn(Meaning(m, env), r) == LookIn(Meaning(v, env), r)
    ensures PeeksRight(m, r, env)
  {
    assert PeekPath(m, r) == PeekPath(v, r);
  }

  lemma {:induction false} PeekUpperLayers(upper: seq<Value>, lower: seq<Value>, k: string)
    requires exists i | 0 <= i < |upper| :: !upper[i].Object?
    ensures PeekLayers(upper + lower, k) == PeekLayers(upper, k)
    decreases |upper|
  {
    assert (upper + lower)[0] == upper[0];
    if upper[0].Object? {
      var i :| 0 <= i < |upper| && !upper[i].Object?;
      assert upper[1..][i - 1] == upper[i];
      assert (upper + lower)[1..] == upper[1..] + lower;
      PeekUpperLayers(upper[1..], lower, k);
    }
  }

  /** More layers under a surviving stack. */
  lemma StackOnTop(a: Value, b: Value, r: Path, env: Env)
    requires Assignment(env) && r != [] && WellFormed(a) && WellFormed(b) && PartlyResolved(a, r)
    requires PartlyResolved(b, r)
    requires a.DelayedMerge? && IsObject(a) && !IgnoresFallbacks(a) && PeeksRight(a, r, env)
    ensures PeeksRight(WithFallback(a, b), r, env)
  {
    hide Meaning, Assignment, PeeksRight, PartlyResolved, PeekLayers;
    var m := WithFallback(a, b);
    assert m == DelayedMerge(true, a.stack + Layers(b));
    PartlyMeaning(a, r, env);
    WithFallbackPreservesMeaning(a, b, env);
    if Meaning(b, env).Some? {
      IgnoringStays(Meaning(a, env).value, Meaning(b, env).value);
    }
    PeekUpperLayers(a.stack, Layers(b), r[0]);
    SamePeek(m, a, r, env);
  }

  /** What stands under an object: a non-object, or an object stack. */
  lemma OverSealed(a: Value, b: Value, r: Path, env: Env)
    requires Assignment(env) && r != [] && WellFormed(a) && WellFormed(b) && PartlyResolved(a, r)
    requires PartlyResolved(b, r)
    requires a.Object? && !a.ignoresFallbacks && !b.Object? && (Unmergeable(b) || !Resolved(a))
    requires PeeksRight(a, r, env) && PeeksRight(b, r, env)
    requires HidesNothing(FirmOf(a, env), Meaning(a, env), Meaning(b, env), r)
    ensures PeeksRight(WithFallback(a, b), r, env)
  {
    hide Meaning, Assignment, HidesNothing, PeeksRight, PartlyResolved, WellFormed, PeekLayers;
    var m := WithFallback(a, b);
    assert m == DelayedMerge(true, [a] + Layers(b));
    SealedFacts(a, b, r, env);
    OverLayers(a, Layers(b), r[0]);
    if r[0] in a.fields && IgnoresFallbacks(a.fields[r[0]]) {
      EntryWins(a, b, r, env);
      SamePeek(m, a, r, env);
    } else if IsObject(b) {
      EntryBelow(a, b, r, env);
      SamePeek(m, b, r, env);
    } else {
      NothingBelow(a, b, r, env);
      assert AttemptPeek(m, r[0]) == Found(None);
      FoundNothing(m, r, env);
    }
  }

  lemma FoundNothing(m: Value, r: Path, env: Env)
    requires r != [] && IsObject(m) && AttemptPeek(m, r[0]) == Found(None) && LookIn(Meaning(m, env), r).None?
    ensures PeeksRight(m, r, env)
  {
  }

  lemma OverLayers(a: Value, lower: seq<Value>, k: string)
    requires a.Object? && lower != []
    ensures PeekLayers([a] + lower, k) ==
      if k in a.fields && IgnoresFallbacks(a.fields[k]) then Found(Some(a.fields[k])) else PeekLayers(lower, k)
    ensures !lower[0].Object? && !Unmergeable(lower[0]) ==> PeekLayers(lower, k) == Found(None)
  {
    assert ([a] + lower)[1..] == lower;
  }

  lemma SealedFacts(a: Value, b: Value, r: Path, env: Env)
    requires Assignment(env) && r != [] && WellFormed(a) && WellFormed(b) && PartlyResolved(a, r)
    requires PartlyResolved(b, r)
    requires a.Object? && !a.ignoresFallbacks && !b.Object?
    ensures Meaning(b, env).Some? && IgnoresFallbacks(Meaning(b, env).value)
    ensures Meaning(b, env).value.Object? <==> IsObject(b)
    ensures |Layers(b)| >= 1 && (!IsObject(b) ==> !Layers(b)[0].Object? && !Unmergeable(Layers(b)[0]))
    ensures IsObject(b) ==> b.DelayedMerge?
    ensures Meaning(WithFallback(a, b), env) == MergeOptional(Meaning(a, env), Meaning(b, env))
  {
    PartlyMeaning(b, r, env);
    WithFallbackPreservesMeaning(a, b, env);
    if b.DelayedMerge? {
      assert PartlyResolved(b.stack[0], r);
    }
  }

  /** An entry that ignores fallbacks is what the merge holds. */
  lemma EntryWins(a: Value, b: Value, r: Path, env: Env)
    requires Assignment(env) && a.Object? && !a.ignoresFallbacks && r != []
    requires r[0] in a.fields && IgnoresFallbacks(a.fields[r[0]])
    requires Meaning(b, env).Some? && IgnoresFallbacks(Meaning(b, env).value)
    ensures LookIn(MergeOptional(Meaning(a, env), Meaning(b, env)), r) == LookIn(Meaning(a, env), r)
  {
    hide Meaning, Assignment;
    MeaningResolved(a, env);
    MeaningResolved(b, env);
    MeaningEntry(a, r[0], env);
    IgnoringMeaning(a.fields[r[0]], env);
    var x, y := Meaning(a, env).value, Meaning(b, env).value;
    if y.Object? {
      MergedEntry(x, y, r[0]);
    }
  }

  /** Where peeking passes over the object, merging leaves what is below. */
  lemma EntryBelow(a: Value, b: Value, r: Path, env: Env)
    requires Assignment(env) && a.Object? && !a.ignoresFallbacks && r != []
    requires r[0] in a.fields ==> !IgnoresFallbacks(a.fields[r[0]])
    requires Meaning(b, env).Some? && IgnoresFallbacks(Meaning(b, env).value) && Meaning(b, env).value.Object?
    requires HidesNothing(FirmOf(a, env), Meaning(a, env), Meaning(b, env), r)
    ensures LookIn(MergeOptional(Meaning(a, env), Meaning(b, env)), r) == LookIn(Meaning(b, env), r)
  {
    hide Meaning, Assignment;
    MeaningEntry(a, r[0], env);
    NotFirm(a, r[0], env);
    MergedEntry(Meaning(a, env).value, Meaning(b, env).value, r[0]);
  }

  lemma NotFirm(a: Value, k: string, env: Env)
    requires a.Object? && (k in a.fields ==> !IgnoresFallbacks(a.fields[k]))
    ensures Meaning(a, env).Some? && Meaning(a, env).value.Object?
    ensures k in Meaning(a, env).value.fields ==> !Firm(a, [k], env)
  {
    hide Meaning;
    MeaningEntry(a, k, env);
    FirmEntry(a, [k], env);
    assert [k][1..] == [];
  }

  lemma NothingBelow(a: Value, b: Value, r: Path, env: Env)
    requires Assignment(env) && a.Object? && !a.ignoresFallbacks && r != []
    requires r[0] in a.fields ==> !IgnoresFallbacks(a.fields[r[0]])
    requires Meaning(b, env).Some? && !Meaning(b, env).value.Object? && IgnoresFallbacks(Meaning(b, env).value)
    requires HidesNothing(FirmOf(a, env), Meaning(a, env), Meaning(b, env), r)
    ensures LookIn(MergeOptional(Meaning(a, env), Meaning(b, env)), r).None?
  {
    hide Meaning, Assignment;
    MeaningResolved(a, env);
    MeaningResolved(b, env);
    MeaningEntry(a, r[0], env);
    NotFirm(a, r[0], env);
    var x := Meaning(a, env).value;
    assert MergeOptional(Meaning(a, env), Meaning(b, env)) == Some(x.(ignoresFallbacks := true));
    assert LookIn(Some(x.(ignoresFallbacks := true)), r) == LookIn(FieldAt(x, r[0]), r[1..]) == LookIn(Some(x), r);
    if r[0] !in x.fields {
      assert LookIn(None, r[1..]).None?;
    }
  }

  // ---------------------------------------------------------------- what peeking finds is a part

  /** What peeking finds along `r` is visible along whatever was visible beyond `r`. */
  lemma {:induction false} PeekedVisible(w: Sense, o: Value, r: Path, q: Value, path: Path, b: nat)
    requires r != [] && IsObject(o) && PeekPath(o, r) == Found(Some(q))
    ensures Visible(w, o, r + path, b) ==> Visible(w, q, path, b)
    ensures Bounded(o, r, w.rank, b) ==> AllBelow(q, w.rank, b)
    decreases |r|
  {
    var peeked := AttemptPeek(o, r[0]);
    var child := peeked.value.value;
    assert (r + path)[1..] == r[1..] + path;
    if o.DelayedMerge? {
      var i := PeekedLayer(o.stack, r[0]);
      var layer := o.stack[i];
      assert Visible(w, o, r + path, b) ==> Visible(w, layer, r + path, b);
      assert Bounded(o, r, w.rank, b) ==> Bounded(layer, r, w.rank, b);
    }
    if |r| == 1 {
      assert r[1..] == [] && r[1..] + path == path;
      assert Bounded(o, r, w.rank, b) ==> Bounded(child, [], w.rank, b);
    } else {
      PeekedVisible(w, child, r[1..], q, path, b);
    }
  }

  lemma {:induction false} PeekedLayer(stack: seq<Value>, k: string) returns (i: nat)
    requires PeekLayers(stack, k).Found? && PeekLayers(stack, k).value.Some?
    ensures i < |stack| && stack[i].Object? && k in stack[i].fields
    ensures PeekLayers(stack, k) == Found(Some(stack[i].fields[k]))
    decreases |stack|
  {
    var layer := stack[0];
    if layer.Object? && k in layer.fields && IgnoresFallbacks(layer.fields[k]) {
      i := 0;
    } else {
      var j := PeekedLayer(stack[1..], k);
      i := j + 1;
    }
  }

  /** Where nothing is written, peeking finds nothing. */
  lemma {:induction false} PeeksAbsent(o: Value, r: Path)
    requires r != [] && IsObject(o) && Absent(o, r) && PeekPath(o, r).Found?
    ensures PeekPath(o, r) == Found(None)
    decreases |r|
  {
    var peeked := AttemptPeek(o, r[0]);
    if peeked.Found? && peeked.value.Some? {
      if o.DelayedMerge? {
        var i := PeekedLayer(o.stack, r[0]);
        assert Absent(o.stack[i], r);
      }
      if |r| > 1 && IsObject(peeked.value.value) {
        PeeksAbsent(peeked.value.value, r[1..]);
      }
    }
  }

  // ---------------------------------------------------------------- peeking and merging, exactly

  /** The objects on top of a stack, above the first layer that is no object. */
  function ObjectsOnTop(stack: seq<Value>): (r: seq<Value>)
    ensures |r| <= |stack| && r == stack[..|r|] && (forall i | 0 <= i < |r| :: r[i].Object?)
    ensures |r| < |stack| ==> !stack[|r|].Object?
  {
    if stack == [] || !stack[0].Object? then [] else [stack[0]] + ObjectsOnTop(stack[1..])
  }

  /** What objects hold at a key, from the top. */
  function HeldAt(objects: seq<Value>, k: string): (r: seq<Value>)
    requires forall i | 0 <= i < |objects| :: objects[i].Object?
  {
    if objects == [] then []
    else HeldAt(objects[..|objects| - 1], k) + Present(FieldAt(objects[|objects| - 1], k))
  }

  /** An object stack as a restricted resolution leaves it: nothing unmergeable is left in it. */
  predicate Survived(stack: seq<Value>) {
    WellFormed(DelayedMerge(true, stack)) && forall i | 0 <= i < |stack| :: !Unmergeable(stack[i])
  }

  lemma PartlyResolvedSurvived(v: Value, r: Path)
    requires v.DelayedMerge? && IsObject(v) && WellFormed(v) && r != [] && PartlyResolved(v, r)
    ensures Survived(v.stack)
  {
    forall i | 0 <= i < |v.stack| ensures !Unmergeable(v.stack[i]) {
      assert PartlyResolved(v.stack[i], r);
    }
  }

  function FirstIgnoring(values: seq<Value>): (r: Option<Value>) {
    if values == [] then None
    else if IgnoresFallbacks(values[0]) then Some(values[0])
    else FirstIgnoring(values[1..])
  }

  /** Peeking finds the first held value that ignores fallbacks. */
  lemma PeekFindsIgnoring(stack: seq<Value>, k: string)
    requires Survived(stack)
    ensures PeekLayers(stack, k) == Found(FirstIgnoring(HeldAt(ObjectsOnTop(stack), k)))
  {
    var i :| 0 <= i < |stack| && !stack[i].Object?;
    PeekWalks(stack, k);
  }

  lemma {:induction false} PeekWalks(stack: seq<Value>, k: string)
    requires (forall i | 0 <= i < |stack| :: !Unmergeable(stack[i])) && exists i | 0 <= i < |stack| :: !stack[i].Object?
    ensures PeekLayers(stack, k) == Found(FirstIgnoring(HeldAt(ObjectsOnTop(stack), k)))
    decreases |stack|
  {
    var objects := ObjectsOnTop(stack);
    if stack[0].Object? {
      var i :| 0 <= i < |stack| && !stack[i].Object?;
      assert stack[1..][i - 1] == stack[i];
      PeekWalks(stack[1..], k);
      var below := ObjectsOnTop(stack[1..]);
      assert objects == [stack[0]] + below;
      HeldFromTop(stack[0], below, k);
      FirstIgnoringFromTop(FieldAt(stack[0], k), HeldAt(below, k));
    }
  }

  lemma {:induction false} HeldFromTop(top: Value, below: seq<Value>, k: string)
    requires top.Object? && forall i | 0 <= i < |below| :: below[i].Object?
    ensures HeldAt([top] + below, k) == Present(FieldAt(top, k)) + HeldAt(below, k)
    decreases |below|
  {
    var all := [top] + below;
    if below == [] {
      assert all[..0] == [] && all[0] == top;
    } else {
      var shorter := below[..|below| - 1];
      assert all[..|all| - 1] == [top] + shorter && all[|all| - 1] == below[|below| - 1];
      HeldFromTop(top, shorter, k);
      var first, last := Present(FieldAt(top, k)), Present(FieldAt(below[|below| - 1], k));
      assert (first + HeldAt(shorter, k)) + last == first + (HeldAt(shorter, k) + last);
    }
  }

  lemma FirstIgnoringFromTop(top: Option<Value>, held: seq<Value>)
    ensures FirstIgnoring(Present(top) + held) ==
      if top.Some? && IgnoresFallbacks(top.value) then top else FirstIgnoring(held)
  {
    if top.Some? {
      assert ([top.value] + held)[1..] == held;
    } else {
      assert [] + held == held;
    }
  }

  /** Merging the objects merges what they hold. */
  lemma {:induction false} MergeHolds(objects: seq<Value>, k: string)
    requires objects != [] && forall i | 0 <= i < |objects| :: objects[i].Object? && !objects[i].ignoresFallbacks
    ensures var m := MergeLayers(objects); var held := HeldAt(objects, k);
      m.Object? && !m.ignoresFallbacks && FieldAt(m, k) == if held == [] then None else Some(MergeLayers(held))
    decreases |objects|
  {
    var last := objects[|objects| - 1];
    if |objects| == 1 {
      assert objects[..0] == [];
      assert HeldAt(objects, k) == Present(FieldAt(last, k));
    } else {
      var upper := objects[..|objects| - 1];
      MergeHolds(upper, k);
      MergedEntry(MergeLayers(upper), last, k);
      var held := HeldAt(upper, k);
      if k in last.fields {
        var more := held + [last.fields[k]];
        assert HeldAt(objects, k) == more && more[..|more| - 1] == held;
      } else {
        assert HeldAt(objects, k) == held + [] == held;
      }
    }
  }

  /** Merging `a` over `u` leaves `u` as it is. */
  predicate Subsumed(a: Value, u: Value)
    decreases a
  {
    if IgnoresFallbacks(a) then a == u
    else a.Object? && u.Object? && forall k | k in a.fields :: k in u.fields && Subsumed(a.fields[k], u.fields[k])
  }

  lemma {:induction false} SubsumedExactly(a: Value, u: Value)
    requires WellFormed(a)
    ensures WithFallback(a, u) == u <==> Subsumed(a, u)
    decreases a
  {
    if !IgnoresFallbacks(a) {
      if a.Object? && u.Object? {
        var m := WithFallback(a, u);
        forall k | k in a.fields && k in u.fields
          ensures m.fields[k] == u.fields[k] <==> Subsumed(a.fields[k], u.fields[k])
        {
          SubsumedExactly(a.fields[k], u.fields[k]);
        }
        if m == u {
          forall k | k in a.fields ensures k in u.fields && Subsumed(a.fields[k], u.fields[k]) {
            assert k in m.fields;
          }
        }
        if Subsumed(a, u) {
          assert m.fields == u.fields;
        }
      } else if Unmergeable(u) {
        assert |Layers(a)| >= 1;
        assert WithFallback(a, u).DelayedMerge? && |WithFallback(a, u).stack| > |Layers(u)|;
      }
    }
  }

  /** How many values precede the first one that ignores fallbacks. */
  function Passed(values: seq<Value>): (n: nat)
    ensures n <= |values| && (forall i | 0 <= i < n :: !IgnoresFallbacks(values[i]))
    ensures n < |values| ==> IgnoresFallbacks(values[n])
    ensures FirstIgnoring(values) == if n < |values| then Some(values[n]) else None
  {
    if values == [] || IgnoresFallbacks(values[0]) then 0 else 1 + Passed(values[1..])
  }

  /** Whether the first value that ignores fallbacks is what merging all of them gives: there is no
      value, or the topmost one ignores fallbacks, or those passed over add nothing to it. */
  predicate PeekAgrees(held: seq<Value>) {
    || held == []
    || IgnoresFallbacks(held[0])
    || (0 < Passed(held) < |held| && Subsumed(MergeLayers(held[..Passed(held)]), held[Passed(held)]))
  }

  lemma {:induction false} MergeStops(values: seq<Value>, n: nat)
    requires n < |values| && IgnoresFallbacks(values[n])
    ensures IgnoresFallbacks(MergeLayers(values[..n + 1])) && MergeLayers(values) == MergeLayers(values[..n + 1])
    decreases |values|
  {
    if |values| == n + 1 {
      assert values[..n + 1] == values;
      if n > 0 {
        IgnoringFallback(MergeLayers(values[..n]), values[n]);
      }
    } else {
      var upper := values[..|values| - 1];
      assert upper[..n + 1] == values[..n + 1];
      MergeStops(upper, n);
    }
  }

  lemma FirstIgnoringExactly(held: seq<Value>)
    requires forall i | 0 <= i < |held| :: WellFormed(held[i])
    ensures FirstIgnoring(held) == (if held == [] then None else Some(MergeLayers(held))) <==> PeekAgrees(held)
  {
    hide WellFormed, IgnoresFallbacks, Subsumed, WithFallback, MergeLayers;
    var n := Passed(held);
    if n < |held| {
      MergeStops(held, n);
      MergeOneMore(held, n);
      if n > 0 {
        var upper := held[..n];
        MergeLayersWellFormed(upper);
        SubsumedExactly(MergeLayers(upper), held[n]);
      }
    }
  }

  lemma MergeOneMore(values: seq<Value>, n: nat)
    requires n < |values|
    ensures MergeLayers(values[..n + 1]) ==
      if n == 0 then values[0] else WithFallback(MergeLayers(values[..n]), values[n])
  {
    assert values[..n + 1][..n] == values[..n];
  }

  lemma {:induction false} HeldWellFormed(objects: seq<Value>, k: string)
    requires forall i | 0 <= i < |objects| :: objects[i].Object? && WellFormed(objects[i])
    ensures forall i | 0 <= i < |HeldAt(objects, k)| :: WellFormed(HeldAt(objects, k)[i])
    decreases |objects|
  {
    if objects != [] {
      HeldWellFormed(objects[..|objects| - 1], k);
    }
  }

  /** How many objects count when they are merged: those up to the first that ignores fallbacks. */
  function Counted(objects: seq<Value>): (n: nat)
    requires forall i | 0 <= i < |objects| :: objects[i].Object?
    ensures n <= |objects| && (objects != [] ==> n > 0)
    ensures forall i | 0 <= i < n - 1 :: !objects[i].ignoresFallbacks
    ensures n < |objects| ==> objects[n - 1].ignoresFallbacks
  {
    if objects == [] then 0 else if objects[0].ignoresFallbacks then 1 else 1 + Counted(objects[1..])
  }

  /** Merging the objects is merging those that count. */
  lemma CountedMerge(objects: seq<Value>)
    requires objects != [] && forall i | 0 <= i < |objects| :: objects[i].Object?
    ensures MergeLayers(objects) == MergeLayers(objects[..Counted(objects)])
  {
    var n := Counted(objects);
    if n == |objects| {
      assert objects[..n] == objects;
    } else {
      MergeStops(objects, n - 1);
    }
  }

  /** Merging the objects that count merges what they hold. */
  lemma CountedHolds(objects: seq<Value>, k: string)
    requires objects != [] && (forall i | 0 <= i < |objects| :: objects[i].Object?)
    requires forall i | 0 <= i < |objects| - 1 :: !objects[i].ignoresFallbacks
    ensures var m := MergeLayers(objects); var held := HeldAt(objects, k);
      m.Object? && FieldAt(m, k) == if held == [] then None else Some(MergeLayers(held))
  {
    var upper, last := objects[..|objects| - 1], objects[|objects| - 1];
    if upper == [] {
      assert HeldAt(objects, k) == [] + Present(FieldAt(last, k)) == Present(FieldAt(last, k));
    } else {
      MergeHolds(upper, k);
      MergedEntry(MergeLayers(upper), last, k);
      var held := HeldAt(upper, k);
      if k in last.fields {
        var more := held + [last.fields[k]];
        assert HeldAt(objects, k) == more && more[..|more| - 1] == held;
      } else {
        assert HeldAt(objects, k) == held + [] == held;
      }
    }
  }

  lemma {:induction false} HeldInPieces(upper: seq<Value>, lower: seq<Value>, k: string)
    requires forall i | 0 <= i < |upper| :: upper[i].Object?
    requires forall i | 0 <= i < |lower| :: lower[i].Object?
    ensures HeldAt(upper + lower, k) == HeldAt(upper, k) + HeldAt(lower, k)
    decreases |lower|
  {
    var all := upper + lower;
    if lower == [] {
      assert all == upper && HeldAt(upper, k) + [] == HeldAt(upper, k);
    } else {
      var shorter, last := lower[..|lower| - 1], lower[|lower| - 1];
      assert all[..|all| - 1] == upper + shorter && all[|all| - 1] == last;
      HeldInPieces(upper, shorter, k);
      var more := Present(FieldAt(last, k));
      assert (HeldAt(upper, k) + HeldAt(shorter, k)) + more == HeldAt(upper, k) + (HeldAt(shorter, k) + more);
    }
  }

  lemma {:induction false} FirstIgnoringInPieces(upper: seq<Value>, lower: seq<Value>)
    ensures FirstIgnoring(upper + lower) ==
      if FirstIgnoring(upper).Some? then FirstIgnoring(upper) else FirstIgnoring(lower)
    decreases |upper|
  {
    if upper == [] {
      assert upper + lower == lower;
    } else {
      assert (upper + lower)[1..] == upper[1..] + lower;
      FirstIgnoringInPieces(upper[1..], lower);
    }
  }

  /** Whether walking over the objects on top of a stack finds at a key what merging them holds.  Of
      the objects that count: none holds the key, or the topmost value held ignores fallbacks, or the
      values passed over add nothing to the first one that does.  Where none of their values ignores
      fallbacks the walk goes on below them, and must find nothing if they hold nothing, and
      otherwise just what they hold. */
  predicate WalkAgrees(objects: seq<Value>, k: string)
    requires forall i | 0 <= i < |objects| :: objects[i].Object?
  {
    var n := Counted(objects);
    var held, below := HeldAt(objects[..n], k), FirstIgnoring(HeldAt(objects[n..], k));
    if held == [] then below.None?
    else if Passed(held) < |held| then PeekAgrees(held)
    else below == Some(MergeLayers(held))
  }

  lemma WalkExactly(objects: seq<Value>, k: string)
    requires objects != [] && forall i | 0 <= i < |objects| :: objects[i].Object? && WellFormed(objects[i])
    ensures MergeLayers(objects).Object?
    ensures FirstIgnoring(HeldAt(objects, k)) == FieldAt(MergeLayers(objects), k) <==> WalkAgrees(objects, k)
  {
    hide MergeLayers, HeldAt, PeekAgrees, FirstIgnoring, WellFormed;
    var n := Counted(objects);
    var upper, lower := objects[..n], objects[n..];
    assert upper + lower == objects;
    CountedMerge(objects);
    CountedHolds(upper, k);
    HeldInPieces(upper, lower, k);
    FirstIgnoringInPieces(HeldAt(upper, k), HeldAt(lower, k));
    HeldWellFormed(upper, k);
    FirstIgnoringExactly(HeldAt(upper, k));
    assert HeldAt(upper, k) == [] ==> FirstIgnoring(HeldAt(upper, k)) == None by { FirstOfNone(); }
  }

  lemma FirstOfNone()
    ensures FirstIgnoring([]) == None
  {
  }

  /** For a stack that survived a restricted resolution, peeking at a key finds what merging the
      objects above the first non-object holds there, exactly under this condition. */
  lemma PeekLayersExactly(stack: seq<Value>, k: string)
    requires Survived(stack)
    ensures ObjectsOnTop(stack) != [] && MergeLayers(ObjectsOnTop(stack)).Object?
    ensures PeekLayers(stack, k) == Found(FieldAt(MergeLayers(ObjectsOnTop(stack)), k))
      <==> WalkAgrees(ObjectsOnTop(stack), k)
  {
    hide PeekLayers, MergeLayers, FirstIgnoring, HeldAt, WalkAgrees;
    var objects := ObjectsOnTop(stack);
    assert objects != [] && forall i | 0 <= i < |objects| :: objects[i] == stack[i];
    PeekFindsIgnoring(stack, k);
    WalkExactly(objects, k);
  }

  /** With one object on top: exactly if it does not hold the key, or holds a value that ignores
      fallbacks. */
  lemma PeekOneObjectExactly(stack: seq<Value>, k: string)
    requires Survived(stack) && |ObjectsOnTop(stack)| == 1
    ensures var o := stack[0];
      PeekLayers(stack, k) == Found(FieldAt(o, k)) <==> k !in o.fields || IgnoresFallbacks(o.fields[k])
  {
    var objects := ObjectsOnTop(stack);
    PeekLayersExactly(stack, k);
    assert objects == [stack[0]] && objects[..0] == [] && objects[..1] == objects && objects[1..] == [];
    assert HeldAt(objects, k) == [] + Present(FieldAt(stack[0], k)) == Present(FieldAt(stack[0], k));
  }

  // ---------------------------------------------------------------- stacks that merging builds

  predicate NothingIgnored(stack: seq<Value>) {
    forall i | 0 <= i < |stack| - 1 :: !IgnoresFallbacks(stack[i])
  }

  /** Merging puts nothing below a layer that ignores fallbacks. */
  lemma MergingIgnoresNothing(a: Value, b: Value)
    requires NothingIgnored(Layers(a)) && NothingIgnored(Layers(b)) && WellFormed(a)
    ensures NothingIgnored(Layers(WithFallback(a, b)))
  {
    if !IgnoresFallbacks(a) && WithFallback(a, b).DelayedMerge? {
      var upper, stack := Layers(a), Layers(a) + Layers(b);
      assert Layers(WithFallback(a, b)) == stack;
      forall i | 0 <= i < |stack| - 1 ensures !IgnoresFallbacks(stack[i]) {
        if i < |upper| {
          assert stack[i] == upper[i];
        } else {
          assert stack[i] == Layers(b)[i - |upper|];
        }
      }
    }
  }

  lemma {:induction false} MergedIgnoreNothing(layers: seq<Value>)
    requires layers != [] && forall i | 0 <= i < |layers| :: WellFormed(layers[i]) && NothingIgnored(Layers(layers[i]))
    ensures NothingIgnored(Layers(MergeLayers(layers)))
    decreases |layers|
  {
    if |layers| > 1 {
      var upper, last := layers[..|layers| - 1], layers[|layers| - 1];
      MergedIgnoreNothing(upper);
      MergeLayersWellFormed(upper);
      MergingIgnoresNothing(MergeLayers(upper), last);
    }
  }

  /** On a stack merged from such layers all objects on top count, and the first three ways decide. */
  lemma PeekMergedExactly(layers: seq<Value>, k: string)
    requires layers != [] && forall i | 0 <= i < |layers| :: WellFormed(layers[i]) && NothingIgnored(Layers(layers[i]))
    requires var m := MergeLayers(layers); m.DelayedMerge? && Survived(m.stack)
    ensures var objects := ObjectsOnTop(MergeLayers(layers).stack);
      && objects != [] && MergeLayers(objects).Object?
      && (PeekLayers(MergeLayers(layers).stack, k) == Found(FieldAt(MergeLayers(objects), k))
          <==> PeekAgrees(HeldAt(objects, k)))
  {
    hide MergeLayers, PeekLayers, PeekAgrees, HeldAt;
    var stack := MergeLayers(layers).stack;
    var objects := ObjectsOnTop(stack);
    MergedIgnoreNothing(layers);
    PeekLayersExactly(stack, k);
    AllCount(stack);
    var n := Counted(objects);
    assert objects[..n] == objects && objects[n..] == [];
    NothingHeld(k);
    AgreeingOnNothing(HeldAt(objects, k));
  }

  /** Above a non-object that is not ignored no object ignores fallbacks. */
  lemma AllCount(stack: seq<Value>)
    requires Survived(stack) && NothingIgnored(stack)
    ensures Counted(ObjectsOnTop(stack)) == |ObjectsOnTop(stack)|
  {
    var objects := ObjectsOnTop(stack);
    var i :| 0 <= i < |stack| && !stack[i].Object?;
    forall j | 0 <= j < |objects| ensures !objects[j].ignoresFallbacks {
      assert objects[j] == stack[j] && !IgnoresFallbacks(stack[j]);
    }
  }

  lemma NothingHeld(k: string)
    ensures HeldAt([], k) == [] && FirstIgnoring(HeldAt([], k)) == None
  {
  }

  lemma AgreeingOnNothing(held: seq<Value>)
    ensures held == [] ==> PeekAgrees(held)
    ensures held != [] && Passed(held) == |held| ==> !PeekAgrees(held)
  {
    if held != [] && Passed(held) == |held| {
      assert !IgnoresFallbacks(held[0]);
    }
  }

  // ---------------------------------------------------------------- what the resolver returns

  /** At every merge stack met while peeking along the path, peeking finds what merging the objects
      on top of the stack holds. */
  predicate WalksRight(o: Value, path: Path)
    requires IsObject(o) && path != []
    decreases |path|
  {
    var peeked := AttemptPeek(o, path[0]);
    && (o.DelayedMerge? ==>
          var objects := ObjectsOnTop(o.stack);
          && objects != [] && MergeLayers(objects).Object? && peeked == Found(FieldAt(MergeLayers(objects), path[0])))
    && (|path| > 1 && peeked.Found? && peeked.value.Some? && IsObject(peeked.value.value) ==>
          WalksRight(peeked.value.value, path[1..]))
  }

  /** At every merge stack met there, the condition holds. */
  predicate WalksAgree(o: Value, path: Path)
    requires IsObject(o) && path != []
    decreases |path|
  {
    var peeked := AttemptPeek(o, path[0]);
    && (o.DelayedMerge? ==> WalkAgrees(ObjectsOnTop(o.stack), path[0]))
    && (|path| > 1 && peeked.Found? && peeked.value.Some? && IsObject(peeked.value.value) ==>
          WalksAgree(peeked.value.value, path[1..]))
  }

  lemma {:induction false} WalksExactly(src: Source, o: Value, path: Path)
    requires IsObject(o) && path != [] && WellFormed(o) && RefsIn(o, src.nodes) && PartlyResolved(o, path)
    ensures WalksRight(o, path) <==> WalksAgree(o, path)
    decreases |path|
  {
    hide WalkAgrees, MergeLayers, PeekLayers;
    if o.DelayedMerge? {
      PartlyResolvedSurvived(o, path);
      PeekLayersExactly(o.stack, path[0]);
      PeekLayersSafe(src, o.stack, path);
    }
    var peeked := AttemptPeek(o, path[0]);
    if |path| > 1 && peeked.Found? && peeked.value.Some? && IsObject(peeked.value.value) {
      WalksExactly(src, peeked.value.value, path[1..]);
    }
  }

  /** For every restricted request the resolver answers with an object: walking into the answer along
      the restriction is right at every stack it meets exactly if the condition holds there. */
  lemma ReturnedWalksExactly(src: Source, v: Value, r: Path, table: Replacements, memos: Memos)
    requires r != [] && Ready(src, v, table, memos)
    ensures var outcome := Resolve(src, v, r, table, memos).outcome;
      outcome.Done? && outcome.value.Some? && IsObject(outcome.value.value) ==>
        (WalksRight(outcome.value.value, r) <==> WalksAgree(outcome.value.value, r))
  {
    hide Resolve, WalksRight, WalksAgree;
    var outcome := Resolve(src, v, r, table, memos).outcome;
    if outcome.Done? && outcome.value.Some? && IsObject(outcome.value.value) {
      WalksExactly(src, outcome.value.value, r);
    }
  }

  const Blank := Object(map[], false)
  const Sealed := Object(map[], true)
  const Upper := Object(map["k" := Blank, "c" := Reference(0, ["q"], true, 0)], false)
  const Lower := Object(map["k" := Sealed], false)
  const Passing := [Upper, Lower, Number(5, "5")]

  /** The third way is no empty case: what is passed over here is an empty object, and the merge is
      the empty object below it, which ignores fallbacks. */
  lemma PassedOverAddsNothing()
    ensures Survived(Passing) && !IgnoresFallbacks(Upper.fields["k"])
    ensures ObjectsOnTop(Passing) == [Upper, Lower] && MergeLayers([Upper, Lower]).Object?
    ensures PeekLayers(Passing, "k") == Found(Some(Sealed)) == Found(FieldAt(MergeLayers([Upper, Lower]), "k"))
  {
    hide WithFallback, MergeLayers, WellFormed;
    PassingMerged();
    PassingWellFormed();
    assert Passing[1..] == [Lower, Number(5, "5")] && Passing[1..][1..] == [Number(5, "5")];
    assert ObjectsOnTop(Passing[1..]) == [Lower] + [] && ObjectsOnTop(Passing) == [Upper] + [Lower];
  }

  lemma PassingMerged()
    ensures MergeLayers([Upper, Lower]).Object? && FieldAt(MergeLayers([Upper, Lower]), "k") == Some(Sealed)
  {
    assert Upper.fields["k"] == Blank && Lower.fields["k"] == Sealed;
    assert [Upper, Lower][..1] == [Upper] && MergeLayers([Upper, Lower]) == WithFallback(Upper, Lower);
    assert WithFallback(Blank, Sealed) == Sealed by { assert WithFallback(Blank, Sealed).fields == map[]; }
  }

  lemma PassingWellFormed()
    ensures WellFormed(DelayedMerge(true, Passing))
  {
    assert WellFormed(Blank) && WellFormed(Sealed) && WellFormed(Reference(0, ["q"], true, 0));
    assert WellFormed(Upper) && WellFormed(Lower);
    assert forall i | 0 <= i < 3 :: Passing[i] == Upper || Passing[i] == Lower || Passing[i] == Number(5, "5");
    assert !Passing[2].Object?;
  }
}
