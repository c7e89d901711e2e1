/** How the resolver resolves a key that holds layers of objects and references to the key itself.

    While a layer is resolved, its reference leads through the stacks in flight to what is below the
    layer; what is remembered on the way is always absorbed by the final merge. */
module ObjectStackRuns {
  import opened ConfigValues
  import opened MergeAlgebra
  import opened Concatenations
  import opened Measures
  import opened Resolution
  import opened ObjectStacks

  // ---------------------------------------------------------------- what a value in flight stands for

  /** Where looking below leads from `v`: to a value that is not in flight, or nowhere. */
  ghost function Bottom(v: Value, table: Replacements): (r: Option<Value>)
    requires WellFormed(v) && TableOk(table)
    ensures r.Some? ==> r.value !in table
    decreases Weight(v)
  {
    if v !in table then Some(v)
    else if table[v].CycleReplacer? || table[v].skipping == |v.stack| then None
    else
      BelowLighter(v, table[v].skipping);
      Bottom(MergeLayers(v.stack[table[v].skipping..]), table)
  }

  lemma BelowLighter(v: Value, n: nat)
    requires WellFormed(v) && v.DelayedMerge? && 1 <= n < |v.stack|
    ensures WellFormed(MergeLayers(v.stack[n..])) && Weight(MergeLayers(v.stack[n..])) < Weight(v)
  {
    var below := v.stack[n..];
    assert forall i | 0 <= i < |below| :: below[i] == v.stack[n + i];
    MergeLayersWellFormed(below);
    MergeLayersWeight(below);
    TailWeight(v.stack, n);
  }

  /** Putting more in flight extends the way. */
  lemma {:induction false} BottomExtended(v: Value, table: Replacements, inner: Replacements)
    requires WellFormed(v) && TableOk(table) && TableOk(inner)
    requires forall k | k in table :: k in inner && inner[k] == table[k]
    ensures Bottom(v, table).Some? ==>
      WellFormed(Bottom(v, table).value) && Bottom(v, inner) == Bottom(Bottom(v, table).value, inner)
    decreases Weight(v)
  {
    if v in table && !table[v].CycleReplacer? && table[v].skipping < |v.stack| {
      BelowLighter(v, table[v].skipping);
      BottomExtended(MergeLayers(v.stack[table[v].skipping..]), table, inner);
    }
  }

  // ---------------------------------------------------------------- the document and its memos

  /** A document whose key holds the layers. */
  datatype Extended = Extended(src: Source, key: string, layers: seq<Layer>)

  ghost predicate Valid(d: Extended) {
    && Sound(d.src) && d.src.remembers
    && d.layers != [] && Layered(d.key, d.layers) && !Resolved(Stacked(d.layers))
    && d.key in d.src.root.fields && d.src.root.fields[d.key] == Stacked(d.layers)
  }

  function RootKey(d: Extended): (k: MemoKey) {
    MemoKey(d.src.root, [d.key])
  }

  /** The root is remembered only as itself, along the key; resolved values only as themselves; of
      references and stacks only objects that `x` absorbs, and of concatenations that `y` absorbs. */
  ghost predicate Tidy(d: Extended, x: Option<Value>, y: Option<Value>, memos: Memos) {
    && MemosOk(d.src, memos)
    && MemoKey(d.src.root, []) !in memos
    && (RootKey(d) in memos ==> memos[RootKey(d)] == Some(d.src.root))
    && forall k | k in memos && k.restriction == [] && memos[k].Some? :: TidyMemo(x, y, k.value, memos[k].value)
  }

  predicate TidyMemo(x: Option<Value>, y: Option<Value>, v: Value, result: Value) {
    && (v.Reference? || v.DelayedMerge? ==> x.Some? && Absorbs(x.value, result))
    && (v.Concatenation? ==> y.Some? && Absorbs(y.value, result))
    && (Resolved(v) ==> result == v)
  }

  /** No concatenation of the layers is remembered. */
  predicate Fresh(ls: seq<Layer>, memos: Memos) {
    forall l | l in ls && Shown(l).Concatenation? :: Get(memos, MemoKey(Shown(l), [])).None?
  }

  /** `y` absorbs what `x` absorbs. */
  ghost predicate AtLeast(y: Option<Value>, x: Option<Value>) {
    x.Some? ==> y.Some? && forall v | Absorbs(x.value, v) :: Absorbs(y.value, v)
  }

  lemma TidyAbove(d: Extended, x: Option<Value>, y: Option<Value>, x': Option<Value>, y': Option<Value>, memos: Memos)
    requires AtLeast(x', x) && AtLeast(y', y) && Tidy(d, x, y, memos)
    ensures Tidy(d, x', y', memos)
  {
    hide Absorbs, Resolved, MemosOk;
  }

  /** No reference and no stack is remembered to begin with. */
  lemma Unremembered(d: Extended, y: Option<Value>, v: Value, memos: Memos)
    requires Tidy(d, None, y, memos) && (v.Reference? || v.DelayedMerge?)
    ensures Recalled(d.src, memos, v, []).None?
  {
    hide MemosOk;
  }

  /** One more memo. */
  lemma TidyPut(d: Extended, x: Option<Value>, y: Option<Value>, memos: Memos, v: Value, result: Option<Value>)
    requires Tidy(d, x, y, memos) && !v.Object?
    requires result.Some? ==> TidyMemo(x, y, v, result.value) && Resolved(result.value)
    requires d.src.root.Object?
    ensures Tidy(d, x, y, memos[MemoKey(v, []) := result])
  {
    hide Absorbs, Resolved, Legal, TidyMemo;
    if result.Some? {
      ResolvedLegal(d.src, result.value, []);
    }
  }

  // ---------------------------------------------------------------- through the stacks in flight

  /** Resolving what is in flight resolves what it stands for, and remembers the same for all on the way. */
  lemma {:induction false} StandsFor(d: Extended, y: Option<Value>, v: Value, table: Replacements, memos: Memos)
    requires d.src.remembers && Ready(d.src, v, table, memos) && Tidy(d, None, y, memos)
    ensures Bottom(v, table).Some? ==> Ready(d.src, Bottom(v, table).value, table, memos)
    ensures var bottom := Bottom(v, table);
      var a := Resolve(d.src, v, [], table, memos);
      if bottom.None? then a == Answer(NotPossible, memos)
      else
        var b := Resolve(d.src, bottom.value, [], table, memos);
        if b.outcome.Done? then a.outcome == b.outcome && OnTheWay(v in table, v, b.outcome.value, b.memos, a.memos)
        else a == b
    decreases Weight(v)
  {
    hide MemosOk, Tidy, Resolve, MergeLayers, Sound, WellFormed, RefsIn, Guarded;
    if v in table {
      var replacer := table[v];
      Unremembered(d, y, v, memos);
      if replacer.CycleReplacer? || replacer.skipping == |v.stack| {
        NothingBelow(d.src, v, table, memos);
      } else {
        var below := MergeLayers(v.stack[replacer.skipping..]);
        BelowIsReady(d.src, v, table, memos);
        ReenteredStack(d.src, v, [], table, memos);
        StandsFor(d, y, below, table, memos);
        assert Bottom(v, table) == Bottom(below, table);
        if Bottom(v, table).Some? {
          var b := Resolve(d.src, Bottom(v, table).value, [], table, memos);
          var mid := Resolve(d.src, below, [], table, memos);
          OneMoreOnTheWay(d.src, below in table, below, v, b, mid);
        }
      }
    }
  }

  lemma NothingBelow(src: Source, v: Value, table: Replacements, memos: Memos)
    requires Ready(src, v, table, memos) && v in table && Recalled(src, memos, v, []).None?
    requires table[v].CycleReplacer? || (v.DelayedMerge? && table[v].skipping == |v.stack|)
    ensures Resolve(src, v, [], table, memos) == Answer(NotPossible, memos)
  {
    assert ResolveCheckingReplacement(src, v, [], table, memos) == Answer(NotPossible, memos);
  }

  lemma OneMoreOnTheWay(src: Source, itself: bool, w: Value, v: Value, b: Answer<Option<Value>>,
                        mid: Answer<Option<Value>>)
    requires src.remembers && v.DelayedMerge? && mid.outcome == b.outcome && (!b.outcome.Done? ==> mid == b)
    requires b.outcome.Done? && b.outcome.value.Some? ==> Resolved(b.outcome.value.value)
    requires b.outcome.Done? ==> OnTheWay(itself, w, b.outcome.value, b.memos, mid.memos)
    ensures var a := Remembered(src, v, [], mid);
      if b.outcome.Done? then a.outcome == b.outcome && OnTheWay(true, v, b.outcome.value, b.memos, a.memos)
      else a == b
  {
    hide Resolved;
  }

  /** `after` remembers more than `before` only of stacks, all of them as the result. */
  predicate OnTheWay(itself: bool, v: Value, result: Option<Value>, before: Memos, after: Memos) {
    && (itself ==> Get(after, MemoKey(v, [])) == result)
    && before.Keys <= after.Keys
    && forall k | k in after ::
         || (k in before && after[k] == before[k])
         || (k.value.DelayedMerge? && k.restriction == [] && after[k] == result)
  }

  // ---------------------------------------------------------------- single steps

  /** A resolved value other than a reference or a stack resolves to itself. */
  lemma OwnResolves(d: Extended, x: Option<Value>, y: Option<Value>, o: Value, table: Replacements, memos: Memos)
    requires Valid(d) && Ready(d.src, o, table, memos) && Resolved(o) && Tidy(d, x, y, memos)
    ensures var a := Resolve(d.src, o, [], table, memos);
      && a.outcome == Done(Some(o)) && Tidy(d, x, y, a.memos)
      && forall k: MemoKey | k.value != o :: Get(a.memos, k) == Get(memos, k)
  {
    hide MemosOk, Resolve, Sound, Layered, RefsIn, Guarded, Stacked, Tidy;
    RootUnresolved(d);
    if Recalled(d.src, memos, o, []).None? {
      FreshValue(d.src, o, table, memos);
      ItselfPut(d, x, y, memos, o);
    } else {
      RecalledValue(d.src, o, table, memos);
      OnlyAsItself(d, x, y, o, memos);
    }
  }

  lemma OnlyAsItself(d: Extended, x: Option<Value>, y: Option<Value>, o: Value, memos: Memos)
    requires Tidy(d, x, y, memos) && Resolved(o) && Recalled(d.src, memos, o, []).Some?
    ensures Recalled(d.src, memos, o, []).value == o
  {
    hide MemosOk;
  }

  lemma FreshValue(src: Source, o: Value, table: Replacements, memos: Memos)
    requires Ready(src, o, table, memos) && Resolved(o) && src.remembers && Recalled(src, memos, o, []).None?
    ensures Resolve(src, o, [], table, memos) == Answer(Done(Some(o)), memos[MemoKey(o, []) := Some(o)])
  {
    hide MemosOk, Resolve, Sound, RefsIn, Guarded;
    assert o !in table;
    ResolveFresh(src, o, [], table, memos);
  }

  lemma RecalledValue(src: Source, v: Value, table: Replacements, memos: Memos)
    requires Ready(src, v, table, memos) && Recalled(src, memos, v, []).Some?
    ensures Resolve(src, v, [], table, memos) == Answer(Done(Recalled(src, memos, v, [])), memos)
  {
  }

  lemma ItselfPut(d: Extended, x: Option<Value>, y: Option<Value>, memos: Memos, o: Value)
    requires Tidy(d, x, y, memos) && Resolved(o) && o != d.src.root
    ensures Tidy(d, x, y, memos[MemoKey(o, []) := Some(o)])
  {
    hide Absorbs, Legal;
    ResolvedLegal(d.src, o, []);
  }

  lemma RootUnresolved(d: Extended)
    requires Valid(d)
    ensures !Resolved(d.src.root) && d.src.root.Object?
  {
    hide Layered;
    assert !Resolved(d.src.root.fields[d.key]);
  }

  /** Looking the key up finds the layers. */
  lemma KeyIsFound(d: Extended, x: Option<Value>, y: Option<Value>, table: Replacements, memos: Memos)
    requires Valid(d) && TableOk(table) && ReferenceInFlight(table) && Tidy(d, x, y, memos)
    ensures FindInRoot(d.src, [d.key], table, memos)
      == Answer(Done(Some(Stacked(d.layers))), memos[RootKey(d) := Some(d.src.root)])
    ensures Tidy(d, x, y, memos[RootKey(d) := Some(d.src.root)])
  {
    hide Resolve, Resolved, WellFormed, RefsIn, TidyMemo, Layered;
    var root := d.src.root;
    RootUnresolved(d);
    RootAlong(d, x, y, table, memos);
    assert PeekPath(root, [d.key]) == Found(Some(Stacked(d.layers)));
  }

  lemma RootAlong(d: Extended, x: Option<Value>, y: Option<Value>, table: Replacements, memos: Memos)
    requires Valid(d) && TableOk(table) && ReferenceInFlight(table) && Tidy(d, x, y, memos)
    ensures Ready(d.src, d.src.root, table, memos)
    ensures Resolve(d.src, d.src.root, [d.key], table, memos)
      == Answer(Done(Some(d.src.root)), memos[RootKey(d) := Some(d.src.root)])
    ensures Tidy(d, x, y, memos[RootKey(d) := Some(d.src.root)])
  {
    hide Weight, RefsIn, WellFormed, Contained, Resolved, Resolve, Lawful, Layered, TidyMemo;
    var src, root := d.src, d.src.root;
    RootUnresolved(d);
    assert root !in table;
    var after := memos[RootKey(d) := Some(root)];
    if RootKey(d) in memos {
      RecalledAlong(src, root, [d.key], table, memos);
      assert after == memos;
    } else {
      ObjectParts(src, root, table);
      OrderedKeys(src.order, root.fields.Keys);
      AllKept(src, root, [d.key], src.order(root.fields.Keys), map[], table, memos);
      ResolveFresh(src, root, [d.key], table, memos);
      assert ResolveSubstitutions(src, root, [d.key], table, memos) == Answer(Done(Some(root)), memos);
      assert MemosOk(src, after);
    }
  }

  lemma RecalledAlong(src: Source, v: Value, r: Path, table: Replacements, memos: Memos)
    requires Ready(src, v, table, memos) && Recalled(src, memos, v, r).Some?
    ensures Resolve(src, v, r, table, memos) == Answer(Done(Recalled(src, memos, v, r)), memos)
  {
  }

  /** A reference to the key, while it is in flight. */
  function Inner(r: Value, table: Replacements): (inner: Replacements) {
    table[r := CycleReplacer]
  }

  function Primed(d: Extended, memos: Memos): (m: Memos) {
    memos[RootKey(d) := Some(d.src.root)]
  }

  /** A reference to the key resolves to what the held value resolves to. */
  lemma ReferenceResolves(d: Extended, x: Option<Value>, y: Option<Value>, r: Value, table: Replacements, memos: Memos)
    requires Valid(d) && Ready(d.src, r, table, memos) && r !in table && Tidy(d, x, y, memos)
    requires r.Reference? && r.path == [d.key] && r.prefixLength == 0 && Recalled(d.src, memos, r, []).None?
    ensures TableOk(Inner(r, table)) && ReferenceInFlight(Inner(r, table))
    ensures Ready(d.src, Stacked(d.layers), Inner(r, table), Primed(d, memos)) && Tidy(d, x, y, Primed(d, memos))
    ensures var held := Resolve(d.src, Stacked(d.layers), [], Inner(r, table), Primed(d, memos));
      Resolve(d.src, r, [], table, memos)
        == Remembered(d.src, r, [], Answer(FirewalledOutcome(r, held.outcome), held.memos))
  {
    hide Resolve, Valid, FirewalledOutcome, Tidy, LookupSubst, Fit;
    ReferenceReady(d.src, r, table, memos);
    assert r in Inner(r, table);
    FreshReference(d.src, r, table, memos);
    KeyLooksUp(d, x, y, r, Inner(r, table), memos);
  }

  lemma FreshReference(src: Source, r: Value, table: Replacements, memos: Memos)
    requires r.Reference? && Ready(src, r, table, memos) && r !in table && Recalled(src, memos, r, []).None?
    ensures Ready(src, r, Inner(r, table), memos)
    ensures var found := LookupSubst(src, r, [], Inner(r, table), memos);
      Resolve(src, r, [], table, memos)
        == Remembered(src, r, [], Answer(FirewalledOutcome(r, found.outcome), found.memos))
  {
    hide Resolve, FirewalledOutcome, LookupSubst, Fit, MemosOk;
    ReferenceReady(src, r, table, memos);
    ResolveFresh(src, r, [], table, memos);
    var a := ResolveReference(src, r, [], table, memos);
    assert ResolveSubstitutions(src, r, [], table, memos) == a;
  }

  lemma KeyLooksUp(d: Extended, x: Option<Value>, y: Option<Value>, r: Value, table: Replacements, memos: Memos)
    requires Valid(d) && Ready(d.src, r, table, memos) && r in table && Tidy(d, x, y, memos)
    requires r.Reference? && r.path == [d.key] && r.prefixLength == 0
    ensures TableOk(table) && ReferenceInFlight(table)
    ensures Ready(d.src, Stacked(d.layers), table, Primed(d, memos)) && Tidy(d, x, y, Primed(d, memos))
    ensures LookupSubst(d.src, r, [], table, memos)
      == Resolve(d.src, Stacked(d.layers), [], table, Primed(d, memos))
  {
    hide Resolve, Layered, Resolved, Tidy;
    KeyIsFound(d, x, y, table, memos);
    HeldIsReady(d, table, Primed(d, memos), x, y);
  }

  lemma HeldIsReady(d: Extended, table: Replacements, memos: Memos, x: Option<Value>, y: Option<Value>)
    requires Valid(d) && TableOk(table) && ReferenceInFlight(table) && Tidy(d, x, y, memos)
    ensures Ready(d.src, Stacked(d.layers), table, memos)
  {
  }

  /** A reference joined with an object. */
  lemma JoinedResolves(d: Extended, r: Value, w: Value, table: Replacements, memos: Memos)
    requires Valid(d) && Ready(d.src, Concatenation([r, w]), table, memos) && ResolvedObject(w)
    requires Recalled(d.src, memos, Concatenation([r, w]), []).None?
    ensures Ready(d.src, r, table, memos)
    ensures var c := Concatenation([r, w]);
      var first := Resolve(d.src, r, [], table, memos);
      if !first.outcome.Done? then Resolve(d.src, c, [], table, memos) == first
      else
        && Ready(d.src, w, table, first.memos)
        && var second := Resolve(d.src, w, [], table, first.memos);
           second.outcome == Done(Some(w)) && (first.outcome.value.Some? ==> first.outcome.value.value.Object?) ==>
             Resolve(d.src, c, [], table, memos)
               == Remembered(d.src, c, [], Answer(Done(Some(Over(w, first.outcome.value))), second.memos))
  {
    hide Resolve, MemosOk, Valid, WithFallback, ResolveItems, Remembered, Consolidated, JoinedOutcome, Fit, Over;
    hide Lawful, Resolved;
    var c := Concatenation([r, w]);
    assert c.pieces[0] == r && c.pieces[1] == w;
    FreshConcatenation(d.src, c, table, memos);
    TwoItems(d.src, r, w, table, memos);
    var first := Resolve(d.src, r, [], table, memos);
    if first.outcome.Done? {
      if first.outcome.value.Some? ==> first.outcome.value.value.Object? {
        ObjectsJoin(first.outcome.value, w);
      }
    } else {
      StoppedIsNotRemembered(d.src, c, first);
    }
  }

  lemma StoppedIsNotRemembered(src: Source, v: Value, a: Answer<Option<Value>>)
    requires !a.outcome.Done?
    ensures Remembered(src, v, [], a) == a
    ensures Remembered(src, v, [], Answer(a.outcome.Propagate<seq<Value>>().Propagate(), a.memos)) == a
  {
  }

  lemma FreshConcatenation(src: Source, c: Value, table: Replacements, memos: Memos)
    requires c.Concatenation? && Ready(src, c, table, memos) && Recalled(src, memos, c, []).None?
    ensures forall i | 0 <= i < |c.pieces| :: Fit(src, c.pieces[i], table)
    ensures var items := ResolveItems(src, c.pieces, [], table, memos);
      Resolve(src, c, [], table, memos) ==
        Remembered(src, c, [],
                   if items.outcome.Done? then Answer(JoinedOutcome(Consolidated(items.outcome.value)), items.memos)
                   else Answer(items.outcome.Propagate(), items.memos))
  {
    hide Resolve, Sound, WellFormed, RefsIn, Guarded, MemosOk, ResolveItems, JoinedOutcome, Consolidated;
    ItemParts(src, c, c.pieces, table);
    assert c !in table;
    ResolveFresh(src, c, [], table, memos);
    var a := ResolveConcatenation(src, c, [], table, memos);
    assert ResolveSubstitutions(src, c, [], table, memos) == a;
  }

  lemma TwoItems(src: Source, r: Value, w: Value, table: Replacements, memos: Memos)
    requires Ready(src, r, table, memos) && Fit(src, w, table)
    ensures var first := Resolve(src, r, [], table, memos);
      var items := ResolveItems(src, [r, w], [], table, memos);
      if !first.outcome.Done? then items == Answer(first.outcome.Propagate(), first.memos)
      else
        && Ready(src, w, table, first.memos)
        && var second := Resolve(src, w, [], table, first.memos);
           second.outcome == Done(Some(w)) ==>
             items == Answer(Done(Present(first.outcome.value) + [w]), second.memos)
  {
    hide Resolve, Fit, MemosOk, Legal, Contained;
    assert [r, w][1..] == [w] && [w][1..] == [];
    var first := Resolve(src, r, [], table, memos);
    if first.outcome.Done? {
      var present := Present(first.outcome.value);
      assert [] + present == present;
      var second := Resolve(src, w, [], table, first.memos);
      if second.outcome == Done(Some(w)) {
        assert present + Present(Some(w)) == present + [w];
        assert ResolveItems(src, [w], present, table, first.memos)
          == ResolveItems(src, [], present + [w], table, second.memos);
      }
    }
  }

  function Over(w: Value, below: Option<Value>): (v: Value) {
    if below.Some? then WithFallback(w, below.value) else w
  }

  lemma ObjectsJoin(below: Option<Value>, w: Value)
    requires w.Object? && (below.Some? ==> below.value.Object?)
    ensures JoinedOutcome(Consolidated(Present(below) + [w])) == Done(Some(Over(w, below)))
  {
    hide WithFallback;
    if below.Some? {
      assert Present(below) + [w] == [below.value, w];
      ConsolidatedTwo(below.value, w);
      assert [below.value][..0] + [WithFallback(w, below.value)] == [WithFallback(w, below.value)];
    } else {
      assert Present(below) + [w] == [w];
    }
  }

  // ---------------------------------------------------------------- looking below

  function HeldValue(d: Extended): (v: Value)
    requires d.layers != []
  {
    Stacked(d.layers)
  }

  /** Looking the key up while `table` is in flight leads to the layers `ls`. */
  ghost predicate LeadsTo(d: Extended, ls: seq<Layer>, table: Replacements) {
    && Valid(d) && ls != [] && Layered(d.key, ls)
    && Fit(d.src, Stacked(ls), table) && WellFormed(HeldValue(d))
    && Bottom(HeldValue(d), table) == Some(Stacked(ls))
    && (forall k | k in table && k.Reference? :: !Refers(ls, k))
    && (forall k | k in table && k.DelayedMerge? :: Weight(Stacked(ls)) < Weight(k))
  }

  /** Where layer `j` of a stack and its reference are in flight. */
  function Within(ls: seq<Layer>, j: nat, table: Replacements): (inner: Replacements)
    requires |ls| >= 2 && j < |ls| && ls[j].Itself?
  {
    Inner(ls[j].reference, LayerTable(Stacked(ls), j, table))
  }

  /** Then looking the key up leads to what is below the layer, or nowhere. */
  lemma LeadsBelow(d: Extended, ls: seq<Layer>, j: nat, table: Replacements)
    requires LeadsTo(d, ls, table) && |ls| >= 2 && j < |ls| && ls[j].Itself?
    ensures ls[j].reference !in LayerTable(Stacked(ls), j, table)
    ensures var inner := Within(ls, j, table);
      && TableOk(inner) && HeldValue(d) in inner
      && if j + 1 == |ls| then Bottom(HeldValue(d), inner).None? else LeadsTo(d, Settled(ls[j + 1..]), inner)
  {
    hide Layered, MergeLayers, Sound, Resolved;
    var stacked, r := Stacked(ls), ls[j].reference;
    var inner := Within(ls, j, table);
    LayerShape(d.key, ls, j);
    assert Refers(ls, r) by { assert ls[j] in ls; }
    assert LayerTable(stacked, j, table) == table[stacked := BelowReplacer(stacked.stack, j + 1)];
    assert TableOk(inner);
    BottomExtended(HeldValue(d), table, inner);
    if j + 1 < |ls| {
      BelowIsNew(d, ls, j, table);
    }
  }

  lemma LayerShape(key: string, ls: seq<Layer>, j: nat)
    requires |ls| >= 2 && Layered(key, ls) && j < |ls| && ls[j].Itself?
    ensures Unmergeable(Stacked(ls).stack[j]) && LayerOf(key, ls[j]) && ls[j].reference.Reference?
    ensures Stacked(ls).stack[j + 1..] == ShownAll(ls[j + 1..]) && Layered(key, ls[j + 1..])
    ensures !Refers(ls[j + 1..], ls[j].reference)
  {
    LayeredRest(key, ls, j + 1);
  }

  lemma BelowIsNew(d: Extended, ls: seq<Layer>, j: nat, table: Replacements)
    requires LeadsTo(d, ls, table) && |ls| >= 2 && j + 1 < |ls| && ls[j].Itself?
    requires TableOk(Within(ls, j, table))
    requires LayerTable(Stacked(ls), j, table) == table[Stacked(ls) := BelowReplacer(Stacked(ls).stack, j + 1)]
    requires Bottom(HeldValue(d), Within(ls, j, table)) == Bottom(Stacked(ls), Within(ls, j, table))
    ensures LeadsTo(d, Settled(ls[j + 1..]), Within(ls, j, table))
  {
    hide Layered, MergeLayers, Sound, Resolved, Stacked, LayerTable, Valid;
    var stacked, rest := Stacked(ls), ls[j + 1..];
    var inner := Within(ls, j, table);
    StackShape(ls);
    LayerShape(d.key, ls, j);
    SettledLayers(d.key, rest);
    assert MergeLayers(stacked.stack[j + 1..]) == Stacked(Settled(rest));
    BelowLighter(stacked, j + 1);
    BelowRefs(d.src, stacked, j + 1);
    assert ls[j].reference in inner;
    assert ReferenceInFlight(inner);
    ApartFromFlight(d, ls, j, table);
  }

  lemma ApartFromFlight(d: Extended, ls: seq<Layer>, j: nat, table: Replacements)
    requires LeadsTo(d, ls, table) && |ls| >= 2 && j + 1 < |ls| && ls[j].Itself?
    requires LayerTable(Stacked(ls), j, table) == table[Stacked(ls) := BelowReplacer(Stacked(ls).stack, j + 1)]
    requires TableOk(Within(ls, j, table)) && Layered(d.key, Settled(ls[j + 1..]))
    requires forall l: Layer | l.Itself? :: l in Settled(ls[j + 1..]) <==> l in ls[j + 1..]
    requires Weight(Stacked(Settled(ls[j + 1..]))) < Weight(Stacked(ls))
    ensures var inner := Within(ls, j, table);
      && Stacked(Settled(ls[j + 1..])) !in inner
      && (forall k | k in inner && k.Reference? :: !Refers(Settled(ls[j + 1..]), k))
      && (forall k | k in inner && k.DelayedMerge? :: Weight(Stacked(Settled(ls[j + 1..]))) < Weight(k))
  {
    hide Layered, Sound, Resolved, Stacked, Valid, Bottom, Fit, Refers;
    var settled, inner := Settled(ls[j + 1..]), Within(ls, j, table);
    LayerShape(d.key, ls, j);
    RefersRest(ls, j + 1, settled);
    if Stacked(settled).Reference? {
      SingleRefers(d.key, settled);
    }
  }

  lemma StackShape(ls: seq<Layer>)
    requires |ls| >= 2
    ensures Stacked(ls) == DelayedMerge(ls[0].Own?, ShownAll(ls))
  {
  }

  lemma BelowRefs(src: Source, v: Value, n: nat)
    requires v.DelayedMerge? && RefsIn(v, src.nodes) && n < |v.stack|
    ensures RefsIn(MergeLayers(v.stack[n..]), src.nodes)
  {
    var below := v.stack[n..];
    assert forall i | 0 <= i < |below| :: below[i] == v.stack[n + i];
    MergeLayersRefs(below, src.nodes);
  }

  lemma RefersRest(ls: seq<Layer>, n: nat, settled: seq<Layer>)
    requires n <= |ls| && forall l: Layer | l.Itself? :: l in settled <==> l in ls[n..]
    ensures forall k :: Refers(settled, k) ==> Refers(ls[n..], k) && Refers(ls, k)
  {
    forall k | Refers(settled, k) ensures Refers(ls[n..], k) && Refers(ls, k) {
      var l :| l in settled && l.Itself? && l.reference == k;
      assert l in ls[n..] && l in ls;
    }
  }

  lemma SingleRefers(key: string, ls: seq<Layer>)
    requires ls != [] && Layered(key, ls) && Stacked(ls).Reference?
    ensures Refers(ls, Stacked(ls))
  {
    assert ls[0] in ls;
  }

  // ---------------------------------------------------------------- what the layers resolve to

  /** The outcome of layers: the merge of their objects, or a failure where a required reference has no
      object below it. */
  function Promised(ls: seq<Layer>): (r: Outcome<Option<Value>>) {
    if Founded(ls) then Done(Total(ls)) else Failed(UnresolvedSubstitution)
  }

  function Either(a: Option<Value>, b: Option<Value>): (r: Option<Value>) {
    if a.Some? then a else b
  }

  /** The held value is a stack that is remembered. */
  predicate HeldIsKnown(d: Extended, memos: Memos)
    requires d.layers != []
  {
    HeldValue(d).DelayedMerge? && Get(memos, MemoKey(HeldValue(d), [])).Some?
  }

  /** Where nothing is below the reference in flight: the way ends at it, or at the concatenation it
      stands in. */
  ghost predicate EndsAt(d: Extended, r: Value, table: Replacements)
    requires Valid(d) && TableOk(table)
  {
    && WellFormed(HeldValue(d))
    && var bottom := Bottom(HeldValue(d), table);
       bottom.None? || (bottom.value.Concatenation? && |bottom.value.pieces| > 0 && bottom.value.pieces[0] == r)
  }

  /** Then the key resolves to nothing there. */
  lemma NothingThere(d: Extended, y: Option<Value>, r: Value, table: Replacements, memos: Memos)
    requires Valid(d) && Ready(d.src, HeldValue(d), table, memos) && Tidy(d, None, y, memos)
    requires r.Reference? && r in table && EndsAt(d, r, table)
    requires var bottom := Bottom(HeldValue(d), table);
      bottom.Some? ==> Get(memos, MemoKey(bottom.value, [])).None?
    ensures Resolve(d.src, HeldValue(d), [], table, memos) == Answer(NotPossible, memos)
  {
    hide Resolve, Tidy, Stacked, Sound, WellFormed, RefsIn, Guarded, MemosOk;
    StandsFor(d, y, HeldValue(d), table, memos);
    var bottom := Bottom(HeldValue(d), table);
    if bottom.Some? {
      Circular(d, y, r, bottom.value, table, memos);
    }
  }

  lemma Circular(d: Extended, y: Option<Value>, r: Value, c: Value, table: Replacements, memos: Memos)
    requires Ready(d.src, c, table, memos) && c.Concatenation? && c.pieces != [] && c.pieces[0] == r
    requires r.Reference? && r in table && Tidy(d, None, y, memos) && Get(memos, MemoKey(c, [])).None?
    ensures Resolve(d.src, c, [], table, memos) == Answer(NotPossible, memos)
  {
    hide Resolve, Tidy, Sound, WellFormed, RefsIn, Guarded, MemosOk;
    FreshConcatenation(d.src, c, table, memos);
    Unremembered(d, y, r, memos);
    NothingBelow(d.src, r, table, memos);
    assert ResolveItems(d.src, c.pieces, [], table, memos) == Answer(NotPossible, memos);
  }

  /** A reference stands for what is below its layer. */
  lemma {:induction false} ReferenceBelow(d: Extended, y: Option<Value>, r: Value, rest: seq<Layer>,
                                          table: Replacements, memos: Memos)
    requires Valid(d) && Ready(d.src, r, table, memos) && r !in table && Layered(d.key, rest)
    requires r.Reference? && r.path == [d.key] && r.prefixLength == 0
    requires Tidy(d, None, y, memos) && (Total(rest).Some? ==> y.None?) && Fresh(rest, memos)
    requires TableOk(Inner(r, table))
    requires if rest == [] then AloneIn(d, r, Inner(r, table), memos)
             else HeldValue(d) in Inner(r, table) && LeadsTo(d, Settled(rest), Inner(r, table))
    ensures var a := Resolve(d.src, r, [], table, memos);
      if Founded(rest) && (r.optional || Total(rest).Some?)
      then && a.outcome == Done(Total(rest)) && Tidy(d, Total(rest), Either(Total(rest), y), a.memos)
           && (Total(rest).Some? ==> HeldIsKnown(d, a.memos))
      else a.outcome == Failed(UnresolvedSubstitution)
    decreases |rest|, 4
  {
    hide Resolve, Layered, Tidy, Fit, Stacked, MemosOk, LeadsTo, Sound, Resolved, Remembered, Settled, Fresh, Total;
    hide Founded;
    var inner, primed := Inner(r, table), Primed(d, memos);
    Unremembered(d, y, r, memos);
    ReferenceResolves(d, None, y, r, table, memos);
    NoLayers();
    var held := Resolve(d.src, HeldValue(d), [], inner, primed);
    var found := Answer(FirewalledOutcome(r, held.outcome), held.memos);
    if rest == [] {
      NothingThere(d, y, r, inner, primed);
    } else {
      SettledLayers(d.key, rest);
      FreshSettled(d.key, rest, memos, primed);
      Arrives(d, Settled(rest), None, y, inner, primed);
      StacksResolve(d, y, Settled(rest), inner, primed);
      HeldResolves(d, y, Settled(rest), inner, primed);
    }
    if found.outcome.Done? {
      TotalIsObject(d.key, rest);
      RememberedReference(d, Total(rest), Either(Total(rest), y), r, found);
    } else {
      StoppedIsNotRemembered(d.src, r, found);
    }
  }

  lemma NoLayers()
    ensures Total([]).None? && Founded([])
  {
  }

  ghost predicate AloneIn(d: Extended, r: Value, table: Replacements, memos: Memos)
    requires Valid(d) && TableOk(table)
  {
    && EndsAt(d, r, table)
    && var bottom := Bottom(HeldValue(d), table);
       bottom.Some? ==> Get(memos, MemoKey(bottom.value, [])).None?
  }

  lemma Arrives(d: Extended, ls: seq<Layer>, x: Option<Value>, y: Option<Value>, table: Replacements, memos: Memos)
    requires LeadsTo(d, ls, table) && Tidy(d, x, y, memos)
    ensures Ready(d.src, Stacked(ls), table, memos)
  {
    hide Layered, Sound;
  }

  lemma FreshSettled(key: string, rest: seq<Layer>, memos: Memos, primed: Memos)
    requires rest != [] && Fresh(rest, memos) && Layered(key, Settled(rest))
    requires forall l: Layer | l.Itself? :: l in Settled(rest) <==> l in rest
    requires forall k: MemoKey | k.restriction == [] :: Get(primed, k) == Get(memos, k)
    ensures Fresh(Settled(rest), primed)
  {
    forall l | l in Settled(rest) && Shown(l).Concatenation?
      ensures Get(primed, MemoKey(Shown(l), [])).None?
    {
      assert LayerOf(key, l);
    }
  }

  /** What a reference leaves in the memo table. */
  lemma RememberedReference(d: Extended, x: Option<Value>, y: Option<Value>, r: Value, a: Answer<Option<Value>>)
    requires Valid(d) && r.Reference? && a.outcome == Done(x) && Tidy(d, x, y, a.memos)
    requires x.Some? ==> ResolvedObject(x.value)
    ensures var b := Remembered(d.src, r, [], a);
      && b.outcome == Done(x) && Tidy(d, x, y, b.memos)
      && (HeldIsKnown(d, a.memos) ==> HeldIsKnown(d, b.memos))
  {
    hide Layered, Tidy, Stacked;
    if x.Some? {
      MergeOverItself(x.value);
    }
    TidyPut(d, x, y, a.memos, r, x);
  }

  /** On the way to the layers only their merge is remembered. */
  lemma HeldResolves(d: Extended, y: Option<Value>, ls: seq<Layer>, table: Replacements, memos: Memos)
    requires LeadsTo(d, ls, table) && Tidy(d, None, y, memos) && HeldValue(d) in table
    requires Ready(d.src, HeldValue(d), table, memos) && Ready(d.src, Stacked(ls), table, memos)
    requires var b := Resolve(d.src, Stacked(ls), [], table, memos);
      b.outcome == Promised(ls) && (Founded(ls) ==> Tidy(d, Total(ls), Either(Total(ls), y), b.memos))
    ensures var a := Resolve(d.src, HeldValue(d), [], table, memos);
      && a.outcome == Promised(ls)
      && (Founded(ls) ==> Tidy(d, Total(ls), Either(Total(ls), y), a.memos)
                          && (Total(ls).Some? ==> HeldIsKnown(d, a.memos)))
  {
    hide Resolve, Layered, Tidy, Fit, Stacked, MemosOk, Founded, Total;
    StandsFor(d, y, HeldValue(d), table, memos);
    var a, b := Resolve(d.src, HeldValue(d), [], table, memos), Resolve(d.src, Stacked(ls), [], table, memos);
    if Founded(ls) {
      TotalIsObject(d.key, ls);
      TidyOnTheWay(d, HeldValue(d), Total(ls), Either(Total(ls), y), b.memos, a.memos);
      WayStarts(d, ls, table);
    }
  }

  /** The way to layers starts at a stack. */
  lemma WayStarts(d: Extended, ls: seq<Layer>, table: Replacements)
    requires LeadsTo(d, ls, table) && HeldValue(d) in table
    ensures HeldValue(d).DelayedMerge?
  {
    hide Layered, Stacked, Sound, WellFormed, RefsIn, Guarded;
  }

  lemma TidyOnTheWay(d: Extended, v: Value, x: Option<Value>, y: Option<Value>, before: Memos, after: Memos)
    requires Tidy(d, x, y, before) && MemosOk(d.src, after) && OnTheWay(true, v, x, before, after)
    requires x.Some? ==> ResolvedObject(x.value)
    requires d.src.root.Object?
    ensures Tidy(d, x, y, after)
  {
    hide MemosOk, Absorbs;
    if x.Some? {
      AbsorbsItself(x.value);
    }
  }

  /** So does a layer with a reference, joined with the object that follows it. */
  lemma {:induction false} LayerResolves(d: Extended, y: Option<Value>, ls: seq<Layer>, table: Replacements,
                                         memos: Memos)
    requires Valid(d) && ls != [] && ls[0].Itself? && Layered(d.key, ls)
    requires Ready(d.src, Shown(ls[0]), table, memos) && ls[0].reference !in table
    requires Tidy(d, None, y, memos) && (Total(ls).Some? ==> y.None?) && Fresh(ls, memos)
    requires TableOk(Inner(ls[0].reference, table))
    requires var inner := Inner(ls[0].reference, table);
      if |ls| == 1 then AloneIn(d, ls[0].reference, inner, memos)
      else HeldValue(d) in inner && LeadsTo(d, Settled(ls[1..]), inner)
    ensures var a := Resolve(d.src, Shown(ls[0]), [], table, memos);
      && a.outcome == Promised(ls)
      && (Founded(ls) ==> Tidy(d, Total(ls[1..]), Either(Total(ls), y), a.memos)
                          && (Total(ls[1..]).Some? ==> HeldIsKnown(d, a.memos)))
    decreases |ls| - 1, 5
  {
    hide Resolve, Layered, Tidy, MemosOk, LeadsTo, Valid, AloneIn, Stacked, Fit;
    var r, rest := ls[0].reference, ls[1..];
    LayeredRest(d.key, ls, 1);
    FirstLayer(d.key, ls);
    assert Fresh(rest, memos);
    if ls[0].more.None? {
      ReferenceBelow(d, y, r, rest, table, memos);
    } else {
      var w := ls[0].more.value;
      var c := Concatenation([r, w]);
      assert ls[0] in ls;
      JoinedResolves(d, r, w, table, memos);
      ReferenceBelow(d, y, r, rest, table, memos);
      if Founded(ls) {
        var first := Resolve(d.src, r, [], table, memos);
        TotalIsObject(d.key, rest);
        OwnResolves(d, Total(rest), Total(rest), w, table, first.memos);
        var second := Resolve(d.src, w, [], table, first.memos);
        JoinedRemembered(d, ls, second.memos);
      }
    }
  }

  lemma FirstLayer(key: string, ls: seq<Layer>)
    requires ls != [] && Layered(key, ls)
    ensures LayerOf(key, ls[0]) && Total(ls) == MergeOptional(Brought(ls[0]), Total(ls[1..]))
    ensures Founded(ls) <==> Founded(ls[1..]) && (Required(ls[0]) ==> Total(ls[1..]).Some?)
  {
  }

  /** What such a layer leaves in the memo table. */
  lemma JoinedRemembered(d: Extended, ls: seq<Layer>, memos: Memos)
    requires Valid(d) && ls != [] && ls[0].Itself? && ls[0].more.Some? && Layered(d.key, ls)
    requires Tidy(d, Total(ls[1..]), Total(ls[1..]), memos)
    ensures var c := Shown(ls[0]);
      var a := Remembered(d.src, c, [], Answer(Done(Some(Over(ls[0].more.value, Total(ls[1..])))), memos));
      && a.outcome == Done(Total(ls)) && Tidy(d, Total(ls[1..]), Total(ls), a.memos)
      && (HeldIsKnown(d, memos) ==> HeldIsKnown(d, a.memos))
  {
    hide Layered, Tidy, Stacked, WithFallback;
    var x, total, c := Total(ls[1..]), Total(ls), Shown(ls[0]);
    FirstLayer(d.key, ls);
    TotalIsObject(d.key, ls);
    MergeOverItself(total.value);
    LowerAtMost(d.key, ls, 1);
    TidyAbove(d, x, x, x, total, memos);
    TidyPut(d, x, total, memos, c, total);
  }

  lemma LowerAtMost(key: string, ls: seq<Layer>, n: nat)
    requires Layered(key, ls) && n <= |ls|
    ensures AtLeast(Total(ls), Total(ls[n..]))
  {
    hide Layered, Absorbs, Total;
    LayeredRest(key, ls, n);
    if Total(ls[n..]).Some? {
      forall v | Absorbs(Total(ls[n..]).value, v) ensures Total(ls).Some? && Absorbs(Total(ls).value, v) {
        TotalAbsorbs(key, ls, n, v);
      }
      TotalIsObject(key, ls[n..]);
      AbsorbsItself(Total(ls[n..]).value);
    }
  }

  lemma AbsorbsItself(v: Value)
    requires ResolvedObject(v)
    ensures Absorbs(v, v)
  {
    MergeOverItself(v);
  }

  /** Layers with a reference, while the key leads to them, resolve as promised. */
  lemma {:induction false} StacksResolve(d: Extended, y: Option<Value>, ls: seq<Layer>, table: Replacements,
                                         memos: Memos)
    requires LeadsTo(d, ls, table) && Ready(d.src, Stacked(ls), table, memos)
    requires Tidy(d, None, y, memos) && (Total(ls).Some? ==> y.None?) && Fresh(ls, memos)
    ensures var a := Resolve(d.src, Stacked(ls), [], table, memos);
      && a.outcome == Promised(ls)
      && (Founded(ls) ==> Tidy(d, Total(ls), Either(Total(ls), y), a.memos))
    decreases |ls|, 3
  {
    hide Resolve, Layered, Tidy, Fit, MemosOk, Founded, Total;
    if |ls| >= 2 {
      StackResolves(d, y, ls, table, memos);
    } else {
      OneLayerResolves(d, y, ls, table, memos);
    }
  }

  lemma {:induction false} OneLayerResolves(d: Extended, y: Option<Value>, ls: seq<Layer>, table: Replacements,
                                            memos: Memos)
    requires LeadsTo(d, ls, table) && Ready(d.src, Stacked(ls), table, memos) && |ls| == 1
    requires Tidy(d, None, y, memos) && (Total(ls).Some? ==> y.None?) && Fresh(ls, memos)
    ensures var a := Resolve(d.src, Stacked(ls), [], table, memos);
      && a.outcome == Promised(ls)
      && (Founded(ls) ==> Tidy(d, Total(ls), Either(Total(ls), y), a.memos))
    decreases |ls|, 2
  {
    hide Resolve, Layered, Tidy, Fit, MemosOk;
    FirstLayer(d.key, ls);
    assert ls[1..] == [] && ls[0] in ls;
    if ls[0].Own? {
      OwnResolves(d, None, y, ls[0].own, table, memos);
      var a := Resolve(d.src, Stacked(ls), [], table, memos);
      TidyAbove(d, None, y, Total(ls), Either(Total(ls), y), a.memos);
    } else {
      Alone(d, ls, table, memos);
      LayerResolves(d, y, ls, table, memos);
      var a := Resolve(d.src, Stacked(ls), [], table, memos);
      if Founded(ls) {
        TidyAbove(d, None, Either(Total(ls), y), Total(ls), Either(Total(ls), y), a.memos);
      }
    }
  }

  lemma Alone(d: Extended, ls: seq<Layer>, table: Replacements, memos: Memos)
    requires LeadsTo(d, ls, table) && |ls| == 1 && ls[0].Itself? && Fresh(ls, memos) && LayerOf(d.key, ls[0])
    ensures ls[0].reference !in table && TableOk(Inner(ls[0].reference, table))
    ensures AloneIn(d, ls[0].reference, Inner(ls[0].reference, table), memos)
  {
    hide Layered, Sound, Resolved, RefsIn, Guarded;
    var r := ls[0].reference;
    assert ls[0] in ls && Refers(ls, r);
    var inner := Inner(r, table);
    assert TableOk(inner);
    BottomExtended(HeldValue(d), table, inner);
  }

  lemma {:induction false} StackResolves(d: Extended, y: Option<Value>, ls: seq<Layer>, table: Replacements,
                                         memos: Memos)
    requires LeadsTo(d, ls, table) && Ready(d.src, Stacked(ls), table, memos) && |ls| >= 2
    requires Tidy(d, None, y, memos) && (Total(ls).Some? ==> y.None?) && Fresh(ls, memos)
    ensures var a := Resolve(d.src, Stacked(ls), [], table, memos);
      && a.outcome == Promised(ls)
      && (Founded(ls) ==> Tidy(d, Total(ls), Either(Total(ls), y), a.memos))
    decreases |ls|, 2
  {
    hide Resolve, Layered, Tidy, Fit, MemosOk, Founded, Total, Stacked, ResolveLayers, Resolved;
    var stacked := Stacked(ls);
    StackShape(ls);
    WayEnds(d, ls, table);
    Unremembered(d, y, stacked, memos);
    FreshStack(d.src, stacked, table, memos);
    assert ls[0..] == ls;
    TotalIsObject(d.key, ls);
    LayersFromTop(d, y, ls, 0, None, table, memos);
    var a := ResolveLayers(d.src, stacked, 0, None, [], table, memos);
    if Founded(ls) {
      if ls[0].Own? {
        ObjectOnTop(ls);
      }
      StackRemembered(d, Total(ls), Either(Total(ls), y), stacked, a);
    }
  }

  lemma WayEnds(d: Extended, ls: seq<Layer>, table: Replacements)
    requires LeadsTo(d, ls, table)
    ensures Stacked(ls) !in table && Valid(d) && Layered(d.key, ls)
  {
  }

  lemma ObjectOnTop(ls: seq<Layer>)
    requires ls != [] && ls[0].Own?
    ensures Total(ls).Some?
  {
  }

  lemma FreshStack(src: Source, v: Value, table: Replacements, memos: Memos)
    requires v.DelayedMerge? && Ready(src, v, table, memos) && v !in table && Recalled(src, memos, v, []).None?
    ensures LayersReady(src, v, 0, None, [], table, memos)
    ensures var a := ResolveLayers(src, v, 0, None, [], table, memos);
      (a.outcome.Done? && v.objectHeaded ==> a.outcome.value.Some? && IsObject(a.outcome.value.value)) ==>
        Resolve(src, v, [], table, memos) == Remembered(src, v, [], a)
  {
    hide Resolve, Fit, MemosOk, ResolveLayers;
    ResolveFresh(src, v, [], table, memos);
    var a := ResolveDelayedMerge(src, v, [], table, memos);
    assert ResolveSubstitutions(src, v, [], table, memos) == a;
  }

  lemma StackRemembered(d: Extended, x: Option<Value>, y: Option<Value>, v: Value, a: Answer<Option<Value>>)
    requires Valid(d) && v.DelayedMerge? && a.outcome == Done(x) && Tidy(d, x, y, a.memos)
    requires x.Some? ==> ResolvedObject(x.value)
    ensures var b := Remembered(d.src, v, [], a); b.outcome == Done(x) && Tidy(d, x, y, b.memos)
  {
    hide Layered, Tidy, Stacked;
    if x.Some? {
      MergeOverItself(x.value);
    }
    TidyPut(d, x, y, a.memos, v, x);
  }

  /** The loop over the layers, until a reference has found an object below it. */
  lemma {:induction false} LayersFromTop(d: Extended, y: Option<Value>, ls: seq<Layer>, i: nat, merged: Option<Value>,
                                         table: Replacements, memos: Memos)
    requires LeadsTo(d, ls, table) && |ls| >= 2 && i <= |ls|
    requires LayersReady(d.src, Stacked(ls), i, merged, [], table, memos)
    requires MergeOptional(merged, Total(ls[i..])) == Total(ls) && (merged.Some? ==> ResolvedObject(merged.value))
    requires Tidy(d, None, y, memos) && (Total(ls[i..]).Some? ==> y.None?) && Fresh(ls[i..], memos)
    requires Total(ls).Some? ==> AtLeast(Total(ls), y)
    ensures var a := ResolveLayers(d.src, Stacked(ls), i, merged, [], table, memos);
      if Founded(ls[i..])
      then a.outcome == Done(Total(ls)) && Tidy(d, Total(ls), Either(Total(ls), y), a.memos)
      else a.outcome == Failed(UnresolvedSubstitution)
    decreases |ls|, 1, |ls| - i, 1
  {
    hide Resolve, Layered, Tidy, Fit, MemosOk, Founded, Total, Stacked, Resolved, ResolveLayers, LeadsTo, Fresh;
    hide WithFallback, MergedSoFar;
    var stacked := Stacked(ls);
    StackShape(ls);
    WayEnds(d, ls, table);
    NoLayers();
    if i == |ls| {
      assert ls[i..] == [];
      assert ResolveLayers(d.src, stacked, i, merged, [], table, memos) == Answer(Done(merged), memos) by {
        LayersDone(d.src, stacked, merged, table, memos);
      }
      EitherAbove(d, Total(ls), y, memos);
    } else {
      var rest := ls[i..];
      assert rest[0] == ls[i] && rest[1..] == ls[i + 1..];
      LayersStep(d.src, stacked, i, merged, [], table, memos);
      LayeredRest(d.key, ls, i);
      FirstLayer(d.key, rest);
      if ls[i].Own? {
        OwnLayer(d, y, ls, i, merged, table, memos);
      } else {
        ItselfLayer(d, y, ls, i, merged, table, memos);
      }
    }
  }

  lemma LayersDone(src: Source, stacked: Value, merged: Option<Value>, table: Replacements, memos: Memos)
    requires stacked.DelayedMerge? && LayersReady(src, stacked, |stacked.stack|, merged, [], table, memos)
    ensures ResolveLayers(src, stacked, |stacked.stack|, merged, [], table, memos) == Answer(Done(merged), memos)
  {
    hide Fit, MemosOk, Resolve, MergedSoFar;
  }

  lemma EitherAbove(d: Extended, x: Option<Value>, y: Option<Value>, memos: Memos)
    requires Tidy(d, None, y, memos) && (x.Some? ==> AtLeast(x, y))
    ensures Tidy(d, x, Either(x, y), memos)
  {
    hide Absorbs;
    TidyAbove(d, None, y, x, Either(x, y), memos);
  }

  /** An object among the layers is merged below what there is already. */
  lemma {:induction false} OwnLayer(d: Extended, y: Option<Value>, ls: seq<Layer>, i: nat, merged: Option<Value>,
                                    table: Replacements, memos: Memos)
    requires LeadsTo(d, ls, table) && |ls| >= 2 && i < |ls|
    requires LayersReady(d.src, Stacked(ls), i, merged, [], table, memos)
    requires MergeOptional(merged, Total(ls[i..])) == Total(ls) && (merged.Some? ==> ResolvedObject(merged.value))
    requires Tidy(d, None, y, memos) && (Total(ls[i..]).Some? ==> y.None?) && Fresh(ls[i..], memos)
    requires Total(ls).Some? ==> AtLeast(Total(ls), y)
    requires ls[i].Own?
    ensures var a := ResolveLayers(d.src, Stacked(ls), i, merged, [], table, memos);
      if Founded(ls[i..])
      then a.outcome == Done(Total(ls)) && Tidy(d, Total(ls), Either(Total(ls), y), a.memos)
      else a.outcome == Failed(UnresolvedSubstitution)
    decreases |ls|, 1, |ls| - i, 0
  {
    hide Resolve, Layered, Tidy, Fit, MemosOk, Founded, Total, ResolveLayers, LeadsTo, Fresh;
    hide WithFallback, MergedSoFar, Stacked;
    StackShape(ls);
    var o, rest, table' := ls[i].own, ls[i..], LayerTable(Stacked(ls), i, table);
    WayEnds(d, ls, table);
    assert rest[0] == ls[i] && rest[1..] == ls[i + 1..];
    LayeredRest(d.key, ls, i);
    FirstLayer(d.key, rest);
    LayersStep(d.src, Stacked(ls), i, merged, [], table, memos);
    OwnResolves(d, None, y, o, table', memos);
    var a := Resolve(d.src, o, [], table', memos);
    FreshAfter(d.key, rest, o, memos, a.memos);
    OneMoreObject(d.key, merged, rest);
    LayersFromTop(d, y, ls, i + 1, MergeOptional(merged, Some(o)), table, a.memos);
  }

  lemma FreshAfter(key: string, ls: seq<Layer>, o: Value, before: Memos, after: Memos)
    requires ls != [] && Fresh(ls, before) && o.Object?
    requires forall k: MemoKey | k.value != o :: Get(after, k) == Get(before, k)
    ensures Fresh(ls[1..], after)
  {
  }

  lemma OneMoreObject(key: string, merged: Option<Value>, ls: seq<Layer>)
    requires ls != [] && Layered(key, ls) && ls[0].Own? && (merged.Some? ==> ResolvedObject(merged.value))
    ensures var more := MergeOptional(merged, Some(ls[0].own));
      && more.Some? && ResolvedObject(more.value)
      && MergeOptional(more, Total(ls[1..])) == MergeOptional(merged, Total(ls))
      && (Total(ls[1..]).Some? ==> Total(ls).Some?)
  {
    hide WithFallback, Resolved, Layered;
    FirstLayer(key, ls);
    LayeredRest(key, ls, 1);
    TotalIsObject(key, ls[1..]);
    if merged.Some? {
      MergedObjects(merged.value, ls[0].own);
    }
    MergeOptionalAssociative(merged, Some(ls[0].own), Total(ls[1..]));
  }

  /** A reference among the layers. */
  lemma {:induction false} ItselfLayer(d: Extended, y: Option<Value>, ls: seq<Layer>, i: nat, merged: Option<Value>,
                                       table: Replacements, memos: Memos)
    requires LeadsTo(d, ls, table) && |ls| >= 2 && i < |ls|
    requires LayersReady(d.src, Stacked(ls), i, merged, [], table, memos)
    requires MergeOptional(merged, Total(ls[i..])) == Total(ls) && (merged.Some? ==> ResolvedObject(merged.value))
    requires Tidy(d, None, y, memos) && (Total(ls[i..]).Some? ==> y.None?) && Fresh(ls[i..], memos)
    requires Total(ls).Some? ==> AtLeast(Total(ls), y)
    requires ls[i].Itself?
    ensures var a := ResolveLayers(d.src, Stacked(ls), i, merged, [], table, memos);
      if Founded(ls[i..])
      then a.outcome == Done(Total(ls)) && Tidy(d, Total(ls), Either(Total(ls), y), a.memos)
      else a.outcome == Failed(UnresolvedSubstitution)
    decreases |ls|, 1, |ls| - i, 0
  {
    hide Resolve, Layered, Tidy, Fit, MemosOk, Founded, Total, ResolveLayers, LeadsTo, Fresh;
    hide WithFallback, MergedSoFar, Stacked, AtLeast;
    StackShape(ls);
    var rest, table' := ls[i..], LayerTable(Stacked(ls), i, table);
    WayEnds(d, ls, table);
    LayeredRest(d.key, ls, i);
    FirstLayer(d.key, rest);
    assert rest[1..] == ls[i + 1..];
    LayersStep(d.src, Stacked(ls), i, merged, [], table, memos);
    LayerOnItsWay(d, y, ls, i, table, memos);
    if Founded(rest) {
      var a := Resolve(d.src, Shown(ls[i]), [], table', memos);
      AfterReference(d, y, ls, i, merged, a.memos);
      if Total(ls[i + 1..]).Some? {
        LayersKnown(d, ls, i + 1, table, a.memos);
      } else {
        LayersFromTop(d, Either(Total(rest), y), ls, i + 1, Total(ls), table, a.memos);
      }
    }
  }

  lemma {:induction false} LayerOnItsWay(d: Extended, y: Option<Value>, ls: seq<Layer>, i: nat, table: Replacements,
                                         memos: Memos)
    requires LeadsTo(d, ls, table) && |ls| >= 2 && i < |ls| && ls[i].Itself?
    requires Stacked(ls).DelayedMerge? && |Stacked(ls).stack| == |ls|
    requires Ready(d.src, Shown(ls[i]), LayerTable(Stacked(ls), i, table), memos)
    requires Tidy(d, None, y, memos) && (Total(ls[i..]).Some? ==> y.None?) && Fresh(ls[i..], memos)
    ensures var a := Resolve(d.src, Shown(ls[i]), [], LayerTable(Stacked(ls), i, table), memos);
      && a.outcome == Promised(ls[i..])
      && (Founded(ls[i..]) ==> Tidy(d, Total(ls[i + 1..]), Either(Total(ls[i..]), y), a.memos)
                               && (Total(ls[i + 1..]).Some? ==> HeldIsKnown(d, a.memos)))
    decreases |ls|, 0
  {
    hide Resolve, Layered, Tidy, Fit, MemosOk, Founded, Total, LeadsTo, Fresh, Stacked;
    var rest := ls[i..];
    WayEnds(d, ls, table);
    assert rest[0] == ls[i] && rest[1..] == ls[i + 1..];
    LayeredRest(d.key, ls, i);
    LeadsBelow(d, ls, i, table);
    WayOfLayer(d, ls, i, table, memos);
    LayerResolves(d, y, rest, LayerTable(Stacked(ls), i, table), memos);
  }

  lemma WayOfLayer(d: Extended, ls: seq<Layer>, i: nat, table: Replacements, memos: Memos)
    requires LeadsTo(d, ls, table) && |ls| >= 2 && i < |ls| && ls[i].Itself?
    requires TableOk(Within(ls, i, table))
    requires i + 1 == |ls| ==> Bottom(HeldValue(d), Within(ls, i, table)).None?
    ensures i + 1 == |ls| ==> AloneIn(d, ls[i].reference, Within(ls, i, table), memos)
  {
  }

  /** What is known after a reference. */
  lemma AfterReference(d: Extended, y: Option<Value>, ls: seq<Layer>, i: nat, merged: Option<Value>, memos: Memos)
    requires i < |ls| && Layered(d.key, ls) && ls[i].Itself?
    requires MergeOptional(merged, Total(ls[i..])) == Total(ls)
    requires Tidy(d, Total(ls[i + 1..]), Either(Total(ls[i..]), y), memos)
    requires (Total(ls[i..]).Some? ==> y.None?) && (Total(ls).Some? ==> AtLeast(Total(ls), y))
    ensures Total(ls).Some? ==> ResolvedObject(Total(ls).value)
    ensures Total(ls[i + 1..]).Some? ==> Total(ls).Some? && Tidy(d, Total(ls), Total(ls), memos)
    ensures Total(ls[i + 1..]).None? ==>
      var y' := Either(Total(ls[i..]), y);
      && Fresh(ls[i + 1..], memos) && (Total(ls).Some? ==> AtLeast(Total(ls), y'))
      && Either(Total(ls), y') == Either(Total(ls), y)
      && MergeOptional(Total(ls), Total(ls[i + 1..])) == Total(ls)
  {
    hide Layered, Tidy, Total, AtLeast, WithFallback, Resolved;
    TotalIsObject(d.key, ls);
    LowerAtMost(d.key, ls, i);
    LowerAtMost(d.key, ls, i + 1);
    var y' := Either(Total(ls[i..]), y);
    if Total(ls[i + 1..]).Some? {
      SomeAtLeast(d.key, ls, i + 1);
      LayeredRest(d.key, ls, i);
      assert ls[i..][1..] == ls[i + 1..];
      SomeAtLeast(d.key, ls[i..], 1);
      TidyAbove(d, Total(ls[i + 1..]), y', Total(ls), Total(ls), memos);
    } else {
      LayeredRest(d.key, ls, i + 1);
      NoObjectNoConcatenation(d.key, ls[i + 1..], memos);
    }
  }

  lemma SomeAtLeast(key: string, ls: seq<Layer>, n: nat)
    requires Layered(key, ls) && n <= |ls| && Total(ls[n..]).Some?
    ensures Total(ls).Some?
  {
    LowerAtMost(key, ls, n);
  }

  lemma {:induction false} NoObjectNoConcatenation(key: string, ls: seq<Layer>, memos: Memos)
    requires Layered(key, ls) && Total(ls).None?
    ensures forall l | l in ls :: Brought(l).None?
    ensures Fresh(ls, memos)
  {
    if ls != [] {
      LayeredRest(key, ls, 1);
      FirstLayer(key, ls);
      NoObjectNoConcatenation(key, ls[1..], memos);
      assert forall l | l in ls :: l == ls[0] || l in ls[1..];
    }
    forall l | l in ls && Shown(l).Concatenation? ensures Get(memos, MemoKey(Shown(l), [])).None? {
      assert Brought(l).None?;
      var i :| 0 <= i < |ls| && ls[i] == l;
      assert LayerOf(key, ls[i]);
    }
  }

  // ---------------------------------------------------------------- once an object has been found below

  /** Then the rest of the loop changes nothing. */
  lemma {:induction false} LayersKnown(d: Extended, ls: seq<Layer>, i: nat, table: Replacements, memos: Memos)
    requires LeadsTo(d, ls, table) && |ls| >= 2 && i <= |ls| && Total(ls).Some?
    requires LayersReady(d.src, Stacked(ls), i, Total(ls), [], table, memos)
    requires Tidy(d, Total(ls), Total(ls), memos) && HeldIsKnown(d, memos)
    ensures var a := ResolveLayers(d.src, Stacked(ls), i, Total(ls), [], table, memos);
      a.outcome == Done(Total(ls)) && Tidy(d, Total(ls), Total(ls), a.memos)
    decreases |ls| - i
  {
    hide Resolve, Layered, Tidy, Fit, MemosOk, Total, ResolveLayers, LeadsTo, HeldIsKnown;
    hide WithFallback, MergedSoFar, Stacked;
    StackShape(ls);
    if i == |ls| {
      LayersDone(d.src, Stacked(ls), Total(ls), table, memos);
    } else {
      LayersStep(d.src, Stacked(ls), i, Total(ls), [], table, memos);
      LayerKnown(d, ls, i, table, memos);
      var a := Resolve(d.src, Shown(ls[i]), [], LayerTable(Stacked(ls), i, table), memos);
      LayersKnown(d, ls, i + 1, table, a.memos);
    }
  }

  /** One layer more gives an object that is absorbed. */
  lemma LayerKnown(d: Extended, ls: seq<Layer>, i: nat, table: Replacements, memos: Memos)
    requires LeadsTo(d, ls, table) && |ls| >= 2 && i < |ls| && Total(ls).Some?
    requires Ready(d.src, Shown(ls[i]), LayerTable(Stacked(ls), i, table), memos)
    requires Tidy(d, Total(ls), Total(ls), memos) && HeldIsKnown(d, memos)
    ensures var a := Resolve(d.src, Shown(ls[i]), [], LayerTable(Stacked(ls), i, table), memos);
      Knows(d, Total(ls).value, a)
  {
    hide Resolve, Layered, Tidy, Fit, MemosOk, Total, Resolved, LeadsTo, WithFallback, Stacked;
    StackShape(ls);
    WayEnds(d, ls, table);
    var x, table' := Total(ls).value, LayerTable(Stacked(ls), i, table);
    LayerOk(d.key, ls, i);
    if Brought(ls[i]).Some? {
      TotalAbsorbsLayer(d.key, ls, i);
    }
    if ls[i].Own? {
      ResolvedOwn(ls[i].own);
      OwnResolves(d, Some(x), Some(x), ls[i].own, table', memos);
    } else {
      LeadsBelow(d, ls, i, table);
      if ls[i].more.None? {
        ReferenceKnown(d, x, ls[i].reference, table', memos);
      } else {
        TotalIsObject(d.key, ls);
        JoinedKnown(d, x, ls[i].reference, ls[i].more.value, table', memos);
      }
    }
  }

  lemma LayerOk(key: string, ls: seq<Layer>, i: nat)
    requires Layered(key, ls) && i < |ls|
    ensures LayerOf(key, ls[i])
  {
  }

  lemma ResolvedOwn(v: Value)
    requires ResolvedObject(v)
    ensures Resolved(v)
  {
  }

  /** An answer that the merge `x` absorbs, with memos that it absorbs. */
  ghost predicate Knows(d: Extended, x: Value, a: Answer<Option<Value>>)
    requires d.layers != []
  {
    && a.outcome.Done? && a.outcome.value.Some? && Absorbs(x, a.outcome.value.value)
    && Tidy(d, Some(x), Some(x), a.memos) && HeldIsKnown(d, a.memos)
  }

  lemma KnownMemo(d: Extended, x: Value, v: Value, memos: Memos)
    requires Tidy(d, Some(x), Some(x), memos) && Unmergeable(v) && Recalled(d.src, memos, v, []).Some?
    ensures Absorbs(x, Recalled(d.src, memos, v, []).value)
  {
    hide MemosOk, Absorbs;
  }

  lemma ReferenceKnown(d: Extended, x: Value, r: Value, table: Replacements, memos: Memos)
    requires Valid(d) && Ready(d.src, r, table, memos) && r !in table
    requires r.Reference? && r.path == [d.key] && r.prefixLength == 0
    requires Tidy(d, Some(x), Some(x), memos) && HeldIsKnown(d, memos)
    ensures Knows(d, x, Resolve(d.src, r, [], table, memos))
  {
    hide Resolve, Layered, Tidy, Fit, MemosOk, Resolved, Stacked, Sound, Absorbs;
    if Recalled(d.src, memos, r, []).Some? {
      RecalledValue(d.src, r, table, memos);
      KnownMemo(d, x, r, memos);
    } else {
      ReferenceResolves(d, Some(x), Some(x), r, table, memos);
      var primed := Primed(d, memos);
      assert Get(primed, MemoKey(HeldValue(d), [])) == Get(memos, MemoKey(HeldValue(d), []));
      RecalledValue(d.src, HeldValue(d), Inner(r, table), primed);
      KnownMemo(d, x, HeldValue(d), primed);
      AbsorbedRemembered(d, x, r, Recalled(d.src, primed, HeldValue(d), []).value, primed);
    }
  }

  lemma AbsorbedRemembered(d: Extended, x: Value, v: Value, result: Value, memos: Memos)
    requires Valid(d) && (v.Reference? || v.Concatenation?) && Absorbs(x, result)
    requires Tidy(d, Some(x), Some(x), memos) && HeldIsKnown(d, memos)
    ensures Knows(d, x, Remembered(d.src, v, [], Answer(Done(Some(result)), memos)))
  {
    hide Layered, Tidy, Stacked, WithFallback;
    TidyPut(d, Some(x), Some(x), memos, v, Some(result));
  }

  lemma JoinedKnown(d: Extended, x: Value, r: Value, w: Value, table: Replacements, memos: Memos)
    requires Valid(d) && Ready(d.src, Concatenation([r, w]), table, memos) && r !in table
    requires r.Reference? && r.path == [d.key] && r.prefixLength == 0
    requires ResolvedObject(x) && ResolvedObject(w) && Absorbs(x, w)
    requires Tidy(d, Some(x), Some(x), memos) && HeldIsKnown(d, memos)
    ensures Knows(d, x, Resolve(d.src, Concatenation([r, w]), [], table, memos))
  {
    hide Resolve, Layered, Tidy, Fit, MemosOk, Resolved, Stacked, Sound, WithFallback;
    var c := Concatenation([r, w]);
    if Recalled(d.src, memos, c, []).Some? {
      RecalledValue(d.src, c, table, memos);
      KnownMemo(d, x, c, memos);
    } else {
      JoinedResolves(d, r, w, table, memos);
      ReferenceKnown(d, x, r, table, memos);
      var first := Resolve(d.src, r, [], table, memos);
      ResolvedOwn(w);
      OwnResolves(d, Some(x), Some(x), w, table, first.memos);
      var second := Resolve(d.src, w, [], table, first.memos);
      AbsorbsMerge(x, w, first.outcome.value.value);
      AbsorbedRemembered(d, x, c, WithFallback(w, first.outcome.value.value), second.memos);
    }
  }
}
