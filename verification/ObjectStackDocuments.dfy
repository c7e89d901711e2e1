/** Documents in which a key is set to objects, to `${key}` and to `${key} { ... }`: the key resolves to
    the merge of the objects, the latest setting on top. */
module ObjectStackDocuments {
  import opened ConfigValues
  import opened MergeAlgebra
  import opened Concatenations
  import opened Measures
  import opened Resolution
  import opened Parsing
  import opened ObjectStacks
  import opened ObjectStackRuns

  // ---------------------------------------------------------------- the key holds layers

  function RootOf(others: map<string, Value>, key: string, held: Value): (root: Value) {
    Object(others[key := held], false)
  }

  ghost function DocumentOf(others: map<string, Value>, key: string, ls: seq<Layer>,
                            order: set<string> -> seq<string>): (d: Extended)
    requires ls != []
  {
    var root := RootOf(others, key, Stacked(ls));
    Extended(Document(root, root, order), key, ls)
  }

  /** A key with layers of which one is a reference, beside resolved entries. */
  predicate Given(others: map<string, Value>, key: string, ls: seq<Layer>) {
    && Layered(key, ls) && (exists l | l in ls :: l.Itself?)
    && key !in others && forall k | k in others :: Resolved(others[k])
  }

  lemma StackedIsWellFormed(key: string, ls: seq<Layer>)
    requires ls != [] && Layered(key, ls) && exists l | l in ls :: l.Itself?
    ensures WellFormed(Stacked(ls)) && !Resolved(Stacked(ls))
  {
    forall i | 0 <= i < |ls| ensures WellFormed(Shown(ls[i])) && !Shown(ls[i]).DelayedMerge? {
      assert LayerOf(key, ls[i]);
      LayerIsWellFormed(key, ls[i]);
    }
    var l :| l in ls && l.Itself?;
    var i :| 0 <= i < |ls| && ls[i] == l;
    assert LayerOf(key, ls[i]) && !Shown(ls[i]).Object?;
  }

  lemma LayerIsWellFormed(key: string, l: Layer)
    requires LayerOf(key, l)
    ensures WellFormed(Shown(l)) && !Shown(l).DelayedMerge? && (l.Own? <==> Shown(l).Object?)
  {
    if Brought(l).Some? {
      ResolvedIsWellFormed(Brought(l).value);
    }
    if l.Itself? && l.more.Some? {
      assert [l.reference, l.more.value][0] == l.reference;
    }
  }

  lemma DocumentIsValid(others: map<string, Value>, key: string, ls: seq<Layer>, order: set<string> -> seq<string>)
    requires ls != [] && Given(others, key, ls) && Ordering(order)
    ensures var d := DocumentOf(others, key, ls, order);
      && Valid(d) && Ready(d.src, d.src.root, map[], map[]) && LeadsTo(d, ls, map[])
      && Tidy(d, None, None, map[]) && Fresh(ls, map[])
  {
    hide Layered, Stacked, Resolved;
    var d := DocumentOf(others, key, ls, order);
    var root := d.src.root;
    StackedIsWellFormed(key, ls);
    forall k | k in others ensures WellFormed(others[k]) {
      ResolvedIsWellFormed(others[k]);
    }
    assert WellFormed(root);
    OutermostResolve(root, root, order);
    assert root.fields[key] == Stacked(ls) && RefsIn(root.fields[key], d.src.nodes);
  }

  /** What the document resolves to. */
  function Merged(others: map<string, Value>, key: string, ls: seq<Layer>): (fields: map<string, Value>) {
    if Total(ls).Some? then others[key := Total(ls).value] else others
  }

  /** The entries still to visit. */
  lemma {:induction false} EntriesResolve(others: map<string, Value>, key: string, ls: seq<Layer>,
                                          order: set<string> -> seq<string>, keys: seq<string>,
                                          kept: map<string, Value>, memos: Memos)
    requires ls != [] && Given(others, key, ls) && Ordering(order)
    requires forall i | 0 <= i < |keys| :: keys[i] in others || keys[i] == key
    requires forall i, j | 0 <= i < j < |keys| :: keys[i] != keys[j]
    requires forall k | k in kept :: k in Merged(others, key, ls) && kept[k] == Merged(others, key, ls)[k]
    requires forall k | k in Merged(others, key, ls) :: k in kept <==> k !in keys
    requires var d := DocumentOf(others, key, ls, order);
      if key in keys then Tidy(d, None, None, memos) && Fresh(ls, memos)
      else Founded(ls) && Tidy(d, Total(ls), Either(Total(ls), None), memos)
    requires var d := DocumentOf(others, key, ls, order);
      && Ready(d.src, d.src.root, map[], memos) && FieldsLegal(d.src, [], kept)
      && forall k | k in d.src.root.fields ::
           Fit(d.src, d.src.root.fields[k], map[]) && Weight(d.src.root.fields[k]) < Weight(d.src.root)
    ensures var d := DocumentOf(others, key, ls, order);
      ResolveFields(d.src, d.src.root, keys, kept, [], map[], memos).outcome ==
        if Founded(ls) then Done(Merged(others, key, ls)) else Failed(UnresolvedSubstitution)
    decreases |keys|
  {
    hide Resolve, Layered, Tidy, Fit, MemosOk, Stacked, Resolved, Weight, FieldLegal, Founded, Total, Fresh, Kept;
    hide ResolveFields, References, LeadsTo, Valid;
    var d := DocumentOf(others, key, ls, order);
    var root, goal := d.src.root, Merged(others, key, ls);
    FieldsStep(d.src, root, keys, kept, map[], memos);
    if keys == [] {
      assert kept == goal;
    } else {
      DocumentIsValid(others, key, ls, order);
      var k, rest := keys[0], keys[1..];
      var child := Resolve(d.src, root.fields[k], [], map[], memos);
      assert key in keys <==> key == k || key in rest;
      if k == key {
        StacksResolve(d, None, ls, map[], memos);
      } else {
        EntryResolves(others, key, ls, order, k, key in keys, memos);
      }
      if child.outcome.Done? {
        KeptStep(goal, keys, kept, child.outcome.value);
        EntriesResolve(others, key, ls, order, rest, Kept(kept, k, child.outcome.value), child.memos);
      } else {
        StoppedChild(d.src, root, keys, kept, memos);
      }
    }
  }

  lemma KeptStep(goal: map<string, Value>, keys: seq<string>, kept: map<string, Value>, value: Option<Value>)
    requires keys != [] && forall i, j | 0 <= i < j < |keys| :: keys[i] != keys[j]
    requires forall k | k in kept :: k in goal && kept[k] == goal[k]
    requires forall k | k in goal :: k in kept <==> k !in keys
    requires value == if keys[0] in goal then Some(goal[keys[0]]) else None
    ensures var more := Kept(kept, keys[0], value);
      && (forall k | k in more :: k in goal && more[k] == goal[k])
      && (forall k | k in goal :: k in more <==> k !in keys[1..])
    ensures forall i, j | 0 <= i < j < |keys[1..]| :: keys[1..][i] != keys[1..][j]
    ensures keys[0] !in keys[1..]
  {
    assert keys[0] !in keys[1..];
    assert forall k :: k in keys <==> k == keys[0] || k in keys[1..];
  }

  lemma EntryResolves(others: map<string, Value>, key: string, ls: seq<Layer>, order: set<string> -> seq<string>,
                      k: string, before: bool, memos: Memos)
    requires ls != [] && Given(others, key, ls) && Ordering(order) && k in others
    requires var d := DocumentOf(others, key, ls, order);
      && Ready(d.src, others[k], map[], memos)
      && if before then Tidy(d, None, None, memos) && Fresh(ls, memos)
         else Tidy(d, Total(ls), Either(Total(ls), None), memos)
    ensures var d := DocumentOf(others, key, ls, order);
      var a := Resolve(d.src, others[k], [], map[], memos);
      && a.outcome == Done(Some(others[k]))
      && if before then Tidy(d, None, None, a.memos) && Fresh(ls, a.memos)
         else Tidy(d, Total(ls), Either(Total(ls), None), a.memos)
  {
    hide Resolve, Layered, Tidy, Fit, MemosOk, Stacked, Total;
    var d := DocumentOf(others, key, ls, order);
    DocumentIsValid(others, key, ls, order);
    var x := if before then None else Total(ls);
    OwnResolves(d, x, Either(x, None), others[k], map[], memos);
  }

  lemma StoppedChild(src: Source, o: Value, keys: seq<string>, kept: map<string, Value>, memos: Memos)
    requires o.Object? && Ready(src, o, map[], memos) && FieldsLegal(src, [], kept) && keys != []
    requires forall i | 0 <= i < |keys| :: keys[i] in o.fields
    requires forall k | k in o.fields :: Fit(src, o.fields[k], map[]) && Weight(o.fields[k]) < Weight(o)
    requires !Resolve(src, o.fields[keys[0]], [], map[], memos).outcome.Done?
    ensures ResolveFields(src, o, keys, kept, [], map[], memos).outcome
      == Resolve(src, o.fields[keys[0]], [], map[], memos).outcome.Propagate()
  {
    hide Resolve, Fit, Weight, FieldLegal, MemosOk;
    assert ResolveChild(src, o, keys[0], [], map[], memos) == Resolve(src, o.fields[keys[0]], [], map[], memos);
  }

  /** In every visiting order the outermost resolve gives the key the merge of the objects of its layers
      from the top down and leaves the other entries as they are; the key vanishes when there is no
      object, and the resolve fails exactly if a required reference has no object below it. */
  lemma LayersResolve(others: map<string, Value>, key: string, ls: seq<Layer>, order: set<string> -> seq<string>)
    requires ls != [] && Given(others, key, ls) && Ordering(order)
    ensures var root := Object(others[key := Stacked(ls)], false);
      var src := Document(root, root, order);
      && Ready(src, root, map[], map[])
      && Resolve(src, root, [], map[], map[]).outcome ==
           if Founded(ls) then Done(Some(Object(Merged(others, key, ls), false)))
           else Failed(UnresolvedSubstitution)
    ensures Total(ls) == if Objects(ls) == [] then None else Some(MergeLayers(Objects(ls)))
  {
    hide Resolve, Layered, Tidy, Fit, MemosOk, Stacked, Weight, FieldLegal, Founded, Total, Fresh, ResolveFields;
    hide LeadsTo, Resolved, References, MergeLayers, Objects;
    var d := DocumentOf(others, key, ls, order);
    var root := d.src.root;
    TotalIsMerge(key, ls);
    DocumentIsValid(others, key, ls, order);
    RootUnresolved(d);
    ObjectParts(d.src, root, map[]);
    OrderedKeys(order, root.fields.Keys);
    EachKeyOnce(order, root.fields.Keys);
    EntriesResolve(others, key, ls, order, order(root.fields.Keys), map[], map[]);
    FreshRoot(d, map[]);
    MergedIsResolved(others, key, ls);
  }

  lemma FreshRoot(d: Extended, memos: Memos)
    requires Ready(d.src, d.src.root, map[], memos) && d.src.root.Object? && !Resolved(d.src.root)
    requires Recalled(d.src, memos, d.src.root, []).None?
    ensures Resolve(d.src, d.src.root, [], map[], memos)
      == Remembered(d.src, d.src.root, [], ResolveObject(d.src, d.src.root, [], map[], memos))
  {
    hide Resolve, ResolveObject, Fit, MemosOk;
    ResolveFresh(d.src, d.src.root, [], map[], memos);
  }

  lemma MergedIsResolved(others: map<string, Value>, key: string, ls: seq<Layer>)
    requires Layered(key, ls) && forall k | k in others :: Resolved(others[k])
    ensures Resolved(Object(Merged(others, key, ls), false))
  {
    hide Layered, Total;
    TotalIsObject(key, ls);
  }

  // ---------------------------------------------------------------- the settings of a document

  /** What the parser makes of `${key}` followed by an object. */
  lemma LayerIsConcatenated(key: string, l: Layer)
    requires LayerOf(key, l) && l.Itself? && l.more.Some?
    ensures Concatenated([l.reference, l.more.value]) == Fine(Some(Shown(l)))
  {
    ConsolidatedTwo(l.reference, l.more.value);
    assert [l.reference] + [l.more.value] == [l.reference, l.more.value];
  }

  /** The fields after the settings of the key, of which the first of `ls` is the latest. */
  function AfterSettings(fields: map<string, Value>, key: string, ls: seq<Layer>): (r: Option<map<string, Value>>) {
    if ls == [] then Some(fields)
    else
      var before := AfterSettings(fields, key, ls[1..]);
      if before.None? then None else Store(Conf, before.value, [key], Shown(ls[0]))
  }

  /** The layers they make: objects at the bottom are merged at once. */
  function Compact(ls: seq<Layer>): (r: seq<Layer>)
    requires ls != []
    ensures r != []
  {
    if |ls| == 1 then ls
    else
      var below := Compact(ls[1..]);
      if ls[0].Own? && |below| == 1 && below[0].Own? then [Own(WithFallback(ls[0].own, below[0].own))]
      else [ls[0]] + below
  }

  lemma {:induction false} CompactLayers(key: string, ls: seq<Layer>)
    requires ls != [] && Layered(key, ls)
    ensures Layered(key, Compact(ls)) && Total(Compact(ls)) == Total(ls)
    ensures Founded(Compact(ls)) <==> Founded(ls)
    ensures forall l: Layer | l.Itself? :: l in Compact(ls) <==> l in ls
    ensures (forall l | l in ls :: l.Own?) ==> |Compact(ls)| == 1
  {
    hide WithFallback, Resolved;
    if |ls| >= 2 {
      var below := Compact(ls[1..]);
      LayeredRest(key, ls, 1);
      CompactLayers(key, ls[1..]);
      assert forall l :: l in ls <==> l == ls[0] || l in ls[1..];
      FirstLayer(key, ls);
      if ls[0].Own? && |below| == 1 && below[0].Own? {
        CompactObjects(key, ls[0], below);
      } else {
        CompactOnTop(key, ls, below);
      }
    }
  }

  lemma CompactObjects(key: string, l: Layer, below: seq<Layer>)
    requires l.Own? && |below| == 1 && below[0].Own? && LayerOf(key, l) && Layered(key, below)
    ensures var r := [Own(WithFallback(l.own, below[0].own))];
      Layered(key, r) && Total(r) == MergeOptional(Some(l.own), Total(below)) && Founded(r) && Founded(below)
  {
    hide WithFallback, Resolved;
    MergedObjects(l.own, below[0].own);
    assert below[1..] == [];
    assert [Own(WithFallback(l.own, below[0].own))][1..] == [];
  }

  lemma CompactOnTop(key: string, ls: seq<Layer>, below: seq<Layer>)
    requires |ls| >= 2 && Layered(key, ls) && below != [] && Layered(key, below)
    requires Total(below) == Total(ls[1..]) && (Founded(below) <==> Founded(ls[1..]))
    requires forall l: Layer | l.Itself? :: l in below <==> l in ls[1..]
    ensures var r := [ls[0]] + below;
      && Layered(key, r) && Total(r) == Total(ls) && (Founded(r) <==> Founded(ls))
      && forall l :: l in r <==> l == ls[0] || l in below
  {
    hide WithFallback, Resolved;
    var r := [ls[0]] + below;
    assert r[1..] == below;
    forall j | 0 < j < |r| && r[j].Itself? && ls[0].Itself? ensures r[j].reference != ls[0].reference {
      assert r[j] in below && r[j] in ls[1..];
      var i :| 0 <= i < |ls[1..]| && ls[1..][i] == r[j];
      assert ls[i + 1] == r[j];
    }
    assert forall j | 0 < j < |r| :: r[j] == below[j - 1];
  }

  /** After any settings of a new key it holds these layers, and no other field has changed. */
  lemma {:induction false} SettingsStack(others: map<string, Value>, key: string, ls: seq<Layer>)
    requires ls != [] && Layered(key, ls) && key !in others
    ensures AfterSettings(others, key, ls) == Some(others[key := Stacked(Compact(ls))])
  {
    hide WithFallback, Resolved, Layered;
    var top := Shown(ls[0]);
    if |ls| == 1 {
      assert ls[1..] == [];
      assert AfterSettings(others, key, ls[1..]) == Some(others);
    } else {
      LayeredRest(key, ls, 1);
      SettingsStack(others, key, ls[1..]);
      SettingOnTop(key, ls);
      var before := others[key := Stacked(Compact(ls[1..]))];
      assert before[key := Stacked(Compact(ls))] == others[key := Stacked(Compact(ls))];
    }
  }

  lemma SettingOnTop(key: string, ls: seq<Layer>)
    requires |ls| >= 2 && Layered(key, ls)
    ensures WithFallback(Shown(ls[0]), Stacked(Compact(ls[1..]))) == Stacked(Compact(ls))
  {
    hide Resolved, WithFallback, Compact, Layered, Stacked;
    LayeredRest(key, ls, 1);
    CompactLayers(key, ls[1..]);
    CompactStep(ls);
    var top, below := ls[0], Compact(ls[1..]);
    TopLayer(key, ls);
    StackShapes(below);
    if top.Own? && |below| == 1 && below[0].Own? {
      StackShapes(Compact(ls));
    } else {
      StackOnTop(key, top, below);
    }
  }

  lemma CompactStep(ls: seq<Layer>)
    requires |ls| >= 2
    ensures Compact(ls) ==
      if ls[0].Own? && |Compact(ls[1..])| == 1 && Compact(ls[1..])[0].Own?
      then [Own(WithFallback(ls[0].own, Compact(ls[1..])[0].own))]
      else [ls[0]] + Compact(ls[1..])
  {
  }

  lemma TopLayer(key: string, ls: seq<Layer>)
    requires |ls| >= 2 && Layered(key, ls)
    ensures LayerOf(key, ls[0]) && !IgnoresFallbacks(Shown(ls[0])) && Layers(Shown(ls[0])) == [Shown(ls[0])]
  {
  }

  lemma StackShapes(ls: seq<Layer>)
    requires ls != []
    ensures Stacked(ls) == if |ls| == 1 then Shown(ls[0]) else DelayedMerge(ls[0].Own?, ShownAll(ls))
  {
  }

  lemma StackOnTop(key: string, top: Layer, below: seq<Layer>)
    requires below != [] && LayerOf(key, top) && Layered(key, below) && !(top.Own? && |below| == 1 && below[0].Own?)
    requires !IgnoresFallbacks(Shown(top)) && Layers(Shown(top)) == [Shown(top)]
    ensures WithFallback(Shown(top), Stacked(below)) == Stacked([top] + below)
  {
    hide Resolved, IgnoresFallbacks;
    assert LayerOf(key, below[0]);
    assert ShownAll([top] + below) == [Shown(top)] + ShownAll(below);
    assert |below| == 1 ==> ShownAll(below) == [Shown(below[0])];
    assert !Stacked(below).Object? ==> Layers(Stacked(below)) == ShownAll(below);
    if Stacked(below).Object? {
      assert top.Itself?;
    }
  }

  /** Any settings of a new key to objects, to `${key}` and to `${key} { ... }`, in any order: the
      outermost resolve of the document gives the key the merge of the objects, later ones on top, or
      fails exactly if some required reference is set before any object. */
  lemma SettingsResolve(others: map<string, Value>, key: string, ls: seq<Layer>, order: set<string> -> seq<string>)
    requires ls != [] && Layered(key, ls) && key !in others && (forall k | k in others :: Resolved(others[k]))
    requires Ordering(order)
    ensures AfterSettings(others, key, ls).Some?
    ensures var root := Object(AfterSettings(others, key, ls).value, false);
      var src := Document(root, root, order);
      && Ready(src, root, map[], map[])
      && Resolve(src, root, [], map[], map[]).outcome ==
           if forall i | 0 <= i < |ls| && ls[i].Itself? && !ls[i].reference.optional :: Objects(ls[i + 1..]) != []
           then Done(Some(Object(if Objects(ls) == [] then others else others[key := MergeLayers(Objects(ls))], false)))
           else Failed(UnresolvedSubstitution)
  {
    hide Resolve, Fit, MemosOk, Stacked, Founded, Total, WithFallback, MergeLayers, Compact, Layered, Objects, Given;
    hide Resolved, References;
    var compact := Compact(ls);
    CompactLayers(key, ls);
    GivenCompact(others, key, ls, compact);
    SettingsStack(others, key, ls);
    TotalIsMerge(key, ls);
    FoundedExactly(key, ls);
    if exists l | l in ls :: l.Itself? {
      LayersResolve(others, key, compact, order);
    } else {
      assert compact[0] in compact;
      ObjectsResolve(others, key, compact, order);
    }
  }

  lemma GivenCompact(others: map<string, Value>, key: string, ls: seq<Layer>, compact: seq<Layer>)
    requires Layered(key, compact) && key !in others && forall k | k in others :: Resolved(others[k])
    requires forall l: Layer | l.Itself? :: l in compact <==> l in ls
    ensures (exists l | l in ls :: l.Itself?) ==> Given(others, key, compact)
    ensures !(exists l | l in ls :: l.Itself?) ==> forall l | l in compact :: l.Own?
  {
    hide Layered, Resolved;
  }

  lemma {:induction false} FoundedExactly(key: string, ls: seq<Layer>)
    requires Layered(key, ls)
    ensures Founded(ls) <==>
      forall i | 0 <= i < |ls| && ls[i].Itself? && !ls[i].reference.optional :: Objects(ls[i + 1..]) != []
  {
    hide Objects, Total, Layered;
    if ls != [] {
      FirstLayer(key, ls);
      LayeredRest(key, ls, 1);
      FoundedExactly(key, ls[1..]);
      TotalIsMerge(key, ls[1..]);
      forall i | 1 <= i < |ls| ensures ls[i] == ls[1..][i - 1] && ls[i + 1..] == ls[1..][i..] {
      }
    }
  }

  lemma ObjectsResolve(others: map<string, Value>, key: string, ls: seq<Layer>, order: set<string> -> seq<string>)
    requires |ls| == 1 && ls[0].Own? && Layered(key, ls) && (forall k | k in others :: Resolved(others[k]))
    requires Ordering(order)
    ensures var root := Object(others[key := Stacked(ls)], false);
      var src := Document(root, root, order);
      && Ready(src, root, map[], map[])
      && Resolve(src, root, [], map[], map[]).outcome == Done(Some(root))
    ensures Founded(ls) && Total(ls) == Some(Stacked(ls))
  {
    hide Resolve, Fit, MemosOk;
    var root := Object(others[key := Stacked(ls)], false);
    assert LayerOf(key, ls[0]) && ls[1..] == [];
    assert Resolved(root);
    ResolvedIsWellFormed(root);
    OutermostResolve(root, root, order);
    var src := Document(root, root, order);
    ResolveFresh(src, root, [], map[], map[]);
  }

  /** For example `a = {x = 1}`, `a = ${a}`, `a = {y = 2}` gives `a = {x = 1, y = 2}`. */
  lemma ObjectHeadedExample(order: set<string> -> seq<string>, one: Value, two: Value)
    requires Ordering(order) && one == Number(1, "1") && two == Number(2, "2")
    ensures var n := Reference(0, ["a"], false, 0);
      var stack := [Object(map["y" := two], false), n, Object(map["x" := one], false)];
      var root := Object(map["a" := DelayedMerge(true, stack)], false);
      && Ready(Document(root, root, order), root, map[], map[])
      && Resolve(Document(root, root, order), root, [], map[], map[]).outcome
           == Done(Some(Object(map["a" := Object(map["x" := one, "y" := two], false)], false)))
  {
    hide Resolve, Fit, MemosOk, Given, WithFallback;
    var y, x, n := Object(map["y" := two], false), Object(map["x" := one], false), Reference(0, ["a"], false, 0);
    var ls := [Own(y), Itself(n, None), Own(x)];
    assert Resolved(one) && Resolved(two);
    ExampleLayers(x, y, n, ls);
    assert ShownAll(ls) == [y, n, x];
    assert map[]["a" := Stacked(ls)] == map["a" := DelayedMerge(true, [y, n, x])];
    MergedFields(y, x);
    assert WithFallback(y, x).fields == map["x" := one, "y" := two];
    LayersResolve(map[], "a", ls, order);
    assert Merged(map[], "a", ls) == map["a" := WithFallback(y, x)];
  }

  lemma ExampleLayers(x: Value, y: Value, n: Value, ls: seq<Layer>)
    requires ls == [Own(y), Itself(n, None), Own(x)] && n == Reference(0, ["a"], false, 0)
    requires ResolvedObject(x) && ResolvedObject(y) && !x.ignoresFallbacks && !y.ignoresFallbacks
    ensures Given(map[], "a", ls) && Founded(ls) && Total(ls) == Some(WithFallback(y, x))
  {
    hide WithFallback, ResolvedObject;
    assert ls[1] in ls;
    assert forall i | 0 <= i < |ls| :: LayerOf("a", ls[i]);
    assert ls[1..] == [Itself(n, None), Own(x)] && ls[1..][1..] == [Own(x)] && ls[1..][1..][1..] == [];
    assert Total([Own(x)]) == Some(x) && Total(ls[1..]) == Some(x);
    assert Founded([Own(x)]) && Founded(ls[1..]);
  }
}
