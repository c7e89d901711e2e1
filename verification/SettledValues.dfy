/** Values that a restricted resolution leaves as they are, and references that find nothing in a
    document of such values. */
module SettledValues {
  import opened ConfigValues
  import opened MergeAlgebra
  import opened Measures
  import opened Resolution

  /** Resolving `v` along `r` changes nothing: there is nothing to resolve on the way. */
  ghost predicate Settled(v: Value, r: Path)
    requires r != []
    decreases v
  {
    match v
    case Object(fields, _) => |r| == 1 || r[0] !in fields || Settled(fields[r[0]], r[1..])
    case Reference(_, _, _, _) => false
    case Concatenation(_) => false
    case DelayedMerge(_, stack) =>
      stack != [] && MergeLayers(stack) == v && forall i | 0 <= i < |stack| :: Settled(stack[i], r)
    case _ => true
  }

  /** Every memo says that a value resolves to itself, or to nothing; nothing is remembered for the
      request `open`. */
  predicate Harmless(memos: Memos, open: MemoKey) {
    && (forall k | k in memos && memos[k].Some? :: memos[k].value == k.value)
    && open !in memos
  }

  /** Resolving `v` along `r` neither is the restricted request `open` nor contains it. */
  ghost predicate Elsewhere(v: Value, r: Path, open: MemoKey) {
    open.restriction != [] && if v == open.value then r != open.restriction else Weight(v) < Weight(open.value)
  }

  predicate NoStackInFlight(table: Replacements) {
    forall k | k in table :: k.Reference?
  }

  lemma LighterElsewhere(v: Value, r: Path, part: Value, s: Path, open: MemoKey)
    requires Elsewhere(v, r, open) && Weight(part) < Weight(v)
    ensures Elsewhere(part, s, open)
  {
  }

  ghost predicate Itself(v: Value, a: Answer<Option<Value>>, open: MemoKey) {
    a.outcome == Done(Some(v)) && Harmless(a.memos, open)
  }

  lemma {:induction false} SettledResolve(src: Source, v: Value, r: Path, table: Replacements, memos: Memos,
                                          open: MemoKey)
    requires Ready(src, v, table, memos) && NoStackInFlight(table) && Harmless(memos, open)
    requires (Resolved(v) || (r != [] && Settled(v, r))) && Elsewhere(v, r, open)
    ensures Itself(v, Resolve(src, v, r, table, memos), open)
    decreases |src.nodes - table.Keys|, Weight(v), 4
  {
    hide Resolve, Fit, MemosOk, Harmless, Elsewhere, Lawful, Recalled, Weight, Settled;
    if Recalled(src, memos, v, r).None? {
      SettledInFlight(src, v, r, table);
      SettledFresh(src, v, r, table, memos, open);
      ResolveFresh(src, v, r, table, memos);
      RememberedItself(src, v, r, ResolveSubstitutions(src, v, r, table, memos), open);
    } else {
      RecalledItself(src, v, r, table, memos, open);
    }
  }

  /** No stack is in flight, and references are not settled. */
  lemma SettledInFlight(src: Source, v: Value, r: Path, table: Replacements)
    requires NoStackInFlight(table) && (Resolved(v) || (r != [] && Settled(v, r)))
    ensures v !in table
  {
  }

  lemma RememberedItself(src: Source, v: Value, r: Path, a: Answer<Option<Value>>, open: MemoKey)
    requires Itself(v, a, open) && Elsewhere(v, r, open) && (Resolved(v) || r != [])
    ensures Itself(v, Remembered(src, v, r, a), open)
  {
  }

  lemma RecalledItself(src: Source, v: Value, r: Path, table: Replacements, memos: Memos, open: MemoKey)
    requires Ready(src, v, table, memos) && Harmless(memos, open) && Recalled(src, memos, v, r).Some?
    ensures Itself(v, Resolve(src, v, r, table, memos), open)
  {
  }

  lemma {:induction false} SettledFresh(src: Source, v: Value, r: Path, table: Replacements, memos: Memos,
                                        open: MemoKey)
    requires Ready(src, v, table, memos) && NoStackInFlight(table) && Harmless(memos, open) && v !in table
    requires (Resolved(v) || (r != [] && Settled(v, r))) && Elsewhere(v, r, open)
    ensures Itself(v, ResolveSubstitutions(src, v, r, table, memos), open)
    decreases |src.nodes - table.Keys|, Weight(v), 3
  {
    if !Resolved(v) {
      hide Fit, MemosOk, Harmless, Elsewhere, Lawful, Weight;
      match v
      case Object(_, _) => SettledObject(src, v, r, table, memos, open);
      case DelayedMerge(_, _) => SettledLayers(src, v, 0, None, r, table, memos, open);
      case List(_) =>
    }
  }

  lemma {:induction false} SettledObject(src: Source, o: Value, r: Path, table: Replacements, memos: Memos,
                                         open: MemoKey)
    requires o.Object? && Ready(src, o, table, memos) && NoStackInFlight(table) && Harmless(memos, open)
    requires r != [] && Settled(o, r) && Elsewhere(o, r, open)
    ensures Itself(o, ResolveObject(src, o, r, table, memos), open)
    decreases |src.nodes - table.Keys|, Weight(o), 1
  {
    ObjectParts(src, o, table);
    OrderedKeys(src.order, o.fields.Keys);
    SettledFields(src, o, src.order(o.fields.Keys), map[], r, table, memos, open);
  }

  lemma {:induction false} SettledFields(src: Source, o: Value, keys: seq<string>, kept: map<string, Value>, r: Path,
                                         table: Replacements, memos: Memos, open: MemoKey)
    requires o.Object? && Ready(src, o, table, memos) && NoStackInFlight(table) && Harmless(memos, open)
    requires r != [] && Settled(o, r) && Elsewhere(o, r, open)
    requires forall i | 0 <= i < |keys| :: keys[i] in o.fields
    requires forall k | k in o.fields :: Fit(src, o.fields[k], table) && Weight(o.fields[k]) < Weight(o)
    requires FieldsLegal(src, r, kept)
    requires forall k | k in kept :: k in o.fields && kept[k] == o.fields[k]
    requires forall k | k in o.fields :: k in kept || k in keys
    ensures var a := ResolveFields(src, o, keys, kept, r, table, memos);
      a.outcome == Done(o.fields) && Harmless(a.memos, open)
    decreases |src.nodes - table.Keys|, Weight(o), 0, |keys|
  {
    hide Resolve, FieldLegal, Lawful, Contained, Weight, MemosOk, Harmless, Elsewhere, Fit;
    if keys == [] {
      assert kept == o.fields;
    } else {
      var key := keys[0];
      if key == r[0] && |r| > 1 {
        LighterElsewhere(o, r, o.fields[key], r[1..], open);
        SettledResolve(src, o.fields[key], r[1..], table, memos, open);
      }
      var child := ResolveChild(src, o, key, r, table, memos);
      assert child.outcome == Done(Some(o.fields[key])) && Harmless(child.memos, open);
      SettledFields(src, o, keys[1..], kept[key := o.fields[key]], r, table, child.memos, open);
    }
  }

  lemma {:induction false} SettledLayers(src: Source, stacked: Value, i: nat, merged: Option<Value>, r: Path,
                                         table: Replacements, memos: Memos, open: MemoKey)
    requires LayersReady(src, stacked, i, merged, r, table, memos)
    requires LayersSettled(stacked, i, merged, r, table, memos, open)
    ensures Itself(stacked, ResolveLayers(src, stacked, i, merged, r, table, memos), open)
    decreases |src.nodes - table.Keys|, Weight(stacked), 0, |stacked.stack| - i
  {
    hide Resolve, MemosOk, MergedSoFar, Weight, LayersSettled, Lawful, Contained;
    if i == |stacked.stack| {
      LastLayer(stacked, i, merged, r, table, memos, open);
    } else {
      hide ResolveLayers, Fit;
      var layer := stacked.stack[i];
      LayersStep(src, stacked, i, merged, r, table, memos);
      OneLayer(src, stacked, i, merged, r, table, memos, open);
      SettledResolve(src, layer, r, table, memos, open);
      var a := Resolve(src, layer, r, table, memos);
      SettledLayers(src, stacked, i + 1, MergeOptional(merged, a.outcome.value), r, table, a.memos, open);
    }
  }

  ghost predicate LayersSettled(stacked: Value, i: nat, merged: Option<Value>, r: Path, table: Replacements,
                                memos: Memos, open: MemoKey)
    requires stacked.DelayedMerge? && i <= |stacked.stack|
  {
    && NoStackInFlight(table) && Harmless(memos, open)
    && WellFormed(stacked) && r != [] && Settled(stacked, r) && Elsewhere(stacked, r, open)
    && if i == 0 then merged == None else merged == Some(MergeLayers(stacked.stack[..i]))
  }

  lemma LastLayer(stacked: Value, i: nat, merged: Option<Value>, r: Path, table: Replacements, memos: Memos,
                  open: MemoKey)
    requires stacked.DelayedMerge? && i == |stacked.stack| && LayersSettled(stacked, i, merged, r, table, memos, open)
    ensures merged == Some(stacked) && Harmless(memos, open)
  {
    SettledStack(stacked, r);
    assert stacked.stack[..i] == stacked.stack;
  }

  lemma OneLayer(src: Source, stacked: Value, i: nat, merged: Option<Value>, r: Path, table: Replacements,
                 memos: Memos, open: MemoKey)
    requires stacked.DelayedMerge? && i < |stacked.stack| && LayersSettled(stacked, i, merged, r, table, memos, open)
    requires Weight(stacked.stack[i]) < Weight(stacked)
    ensures var layer := stacked.stack[i];
      && LayerTable(stacked, i, table) == table && NoStackInFlight(table) && Harmless(memos, open)
      && r != [] && Settled(layer, r) && Elsewhere(layer, r, open)
      && forall after | Harmless(after, open) ::
           LayersSettled(stacked, i + 1, MergeOptional(merged, Some(layer)), r, table, after, open)
  {
    hide WellFormed, Settled, MergeLayers, MergeOptional, Weight;
    SettledLayer(stacked, i, r);
    LighterElsewhere(stacked, r, stacked.stack[i], r, open);
    MergedPrefix(stacked.stack, i, merged);
  }

  lemma SettledStack(stacked: Value, r: Path)
    requires stacked.DelayedMerge? && r != [] && Settled(stacked, r)
    ensures stacked.stack != [] && MergeLayers(stacked.stack) == stacked
  {
  }

  lemma SettledLayer(stacked: Value, i: nat, r: Path)
    requires stacked.DelayedMerge? && WellFormed(stacked) && i < |stacked.stack| && r != [] && Settled(stacked, r)
    ensures Settled(stacked.stack[i], r) && !Unmergeable(stacked.stack[i])
  {
    assert Settled(stacked.stack[i], r);
  }

  lemma MergedPrefix(stack: seq<Value>, i: nat, merged: Option<Value>)
    requires i < |stack|
    requires if i == 0 then merged == None else merged == Some(MergeLayers(stack[..i]))
    ensures MergeOptional(merged, Some(stack[i])) == Some(MergeLayers(stack[..i + 1]))
  {
    assert stack[..i + 1][..i] == stack[..i] && stack[..i + 1][i] == stack[i];
  }

  // ---------------------------------------------------------------- references that find nothing

  /** An optional reference to a path where the root, settled along it, shows nothing. */
  ghost predicate Dangling(src: Source, n: Value) {
    && n.Reference? && n.optional && n.prefixLength == 0 && n.path != []
    && Settled(src.root, n.path) && src.root.Object? && PeekPath(src.root, n.path) == Found(None)
  }

  lemma DanglingResolves(src: Source, n: Value, memos: Memos, open: MemoKey)
    requires Dangling(src, n) && Elsewhere(src.root, n.path, open) && n != open.value
    requires Ready(src, n, map[], memos) && Harmless(memos, open)
    ensures var a := Resolve(src, n, [], map[], memos); a.outcome == Done(None) && Harmless(a.memos, open)
  {
    hide Resolve, Fit, MemosOk, Harmless, Elsewhere, PeekPath, Recalled, Settled;
    var inner: Replacements := map[n := CycleReplacer];
    assert map[][n := CycleReplacer] == inner;
    InFlightAlone(src, n, memos);
    NotRecalled(src, n, memos, open);
    SettledResolve(src, src.root, n.path, inner, memos, open);
    ResolveFresh(src, n, [], map[], memos);
    var found := FindInRoot(src, n.path, inner, memos);
    assert found.outcome == Done(None) && Harmless(found.memos, open);
    assert LookupSubst(src, n, [], inner, memos) == found;
    var a := ResolveReference(src, n, [], map[], memos);
    assert a == Answer(FirewalledOutcome(n, found.outcome), found.memos);
    NothingRemembered(src, n, a, open);
  }

  /** A harmless memo of a reference could only be the reference itself, which is not resolved. */
  lemma NotRecalled(src: Source, n: Value, memos: Memos, open: MemoKey)
    requires n.Reference? && MemosOk(src, memos) && Harmless(memos, open)
    ensures Recalled(src, memos, n, []).None?
  {
    if Recalled(src, memos, n, []).Some? {
      RecallLegal(src, memos, n, []);
    }
  }

  lemma InFlightAlone(src: Source, n: Value, memos: Memos)
    requires n.Reference? && Ready(src, n, map[], memos)
    ensures var inner: Replacements := map[n := CycleReplacer];
      && Ready(src, n, inner, memos) && Ready(src, src.root, inner, memos)
      && ReferenceInFlight(inner) && NoStackInFlight(inner) && Sound(src) && TableOk(inner)
  {
    var inner: Replacements := map[n := CycleReplacer];
    ReferenceReady(src, n, map[], memos);
    assert map[][n := CycleReplacer] == inner;
    assert n in inner;
  }

  lemma NothingRemembered(src: Source, n: Value, a: Answer<Option<Value>>, open: MemoKey)
    requires n != open.value && a.outcome == Done(None) && Harmless(a.memos, open)
    ensures var b := Remembered(src, n, [], a); b.outcome == Done(None) && Harmless(b.memos, open)
  {
  }
}
