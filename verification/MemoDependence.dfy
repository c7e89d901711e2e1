/** Why memo agreement needs a condition: a document whose outermost resolve depends on the order
    in which the entries of its root are visited.

    In `x = 5, x = { a = { b = 1 }, c = ${?q} }, y = ${?x.a.b}` an object that is not yet resolved
    is merged over a number, so a lookup restricted to `x.a.b` leaves a stack.  Peeking into the
    stack passes over the object, because `a` does not ignore fallbacks, and stops at the number:
    nothing is found, and `y` is dropped.  When `x` has been visited before, the memo of its full
    result answers instead, and `y` is 1. */
module MemoDependence {
  import opened ConfigValues
  import opened MergeAlgebra
  import opened Measures
  import opened Resolution
  import opened SettledValues
  import opened Ranks
  import opened Lookups
  import opened Visibility
  import opened MemoAgreement
  import Denotation
  import MemoFree

  const One := Number(1, "1")
  const Inner := Object(map["b" := One], false)
  const Missing := Reference(0, ["q"], true, 0)
  const Outer := Object(map["a" := Inner, "c" := Missing], false)
  const Five := Number(5, "5")
  const Mixed := DelayedMerge(true, [Outer, Five])
  const Lookup := Reference(1, ["x", "a", "b"], true, 0)
  const Root := Object(map["x" := Mixed, "y" := Lookup], false)
  const OuterResult := Object(map["a" := Inner], false)
  const MixedResult := Object(map["a" := Inner], true)

  /** The request that is decisive: the root along the path of the lookup. */
  const Decisive := MemoKey(Root, ["x", "a", "b"])

  ghost predicate IsDoc(src: Source) {
    src.root == Root && Sound(src) && src.remembers
  }

  // ---------------------------------------------------------------- the document

  lemma Parts()
    ensures Root.fields.Keys == {"x", "y"} && Root.fields["x"] == Mixed && Root.fields["y"] == Lookup
    ensures Outer.fields.Keys == {"a", "c"} && Outer.fields["a"] == Inner && Outer.fields["c"] == Missing
    ensures Resolved(Inner) && Resolved(OuterResult) && Resolved(MixedResult)
    ensures !Resolved(Outer) && !Resolved(Mixed) && !Resolved(Root)
  {
    assert !Resolved(Outer.fields["c"]);
    assert !Resolved(Root.fields["x"]);
  }

  lemma Merges()
    ensures WithFallback(Outer, Five) == Mixed && MergeLayers([Outer, Five]) == Mixed
    ensures MergeOptional(None, Some(OuterResult)) == Some(OuterResult)
    ensures MergeOptional(Some(OuterResult), Some(Five)) == Some(MixedResult)
  {
    Parts();
    assert [Outer, Five][..1] == [Outer];
    assert Layers(Outer) + [Five] == [Outer, Five];
  }

  lemma {:induction false} RootIsWellFormed()
    ensures WellFormed(Inner) && WellFormed(Outer) && WellFormed(Mixed) && WellFormed(Root)
  {
    assert Mixed.stack[1] == Five && Mixed.stack[0] == Outer && !Five.Object?;
    assert WellFormed(Missing) && WellFormed(Lookup);
    assert forall i | 0 <= i < |Mixed.stack| :: Mixed.stack[i] == Outer || Mixed.stack[i] == Five;
  }

  lemma {:induction false} PartsFit(src: Source, table: Replacements)
    requires IsDoc(src) && TableOk(table) && (table == map[] || ReferenceInFlight(table))
    ensures Fit(src, Root, table) && Fit(src, Mixed, table) && Fit(src, Outer, table)
    ensures Fit(src, Lookup, table) && Fit(src, Missing, table) && Fit(src, Five, table)
  {
    Parts();
    RootIsWellFormed();
    var nodes := src.nodes;
    assert RefsIn(Root.fields["x"], nodes) && RefsIn(Root.fields["y"], nodes);
    assert RefsIn(Mixed.stack[0], nodes);
    assert RefsIn(Outer.fields["c"], nodes);
  }

  lemma Weights()
    ensures Weight(Inner) < Weight(Outer) < Weight(Mixed) < Weight(Root) && Weight(Five) < Weight(Root)
    ensures Weight(Lookup) < Weight(Root) && Weight(Missing) < Weight(Root)
  {
    Parts();
    FieldWeight(Outer, Outer.fields.Keys, "a");
    FieldWeight(Inner, Inner.fields.Keys, "b");
    FieldWeight(Root, Root.fields.Keys, "x");
    MemberWeight(Mixed.stack, 0);
    MemberWeight(Mixed.stack, 1);
  }

  /** The walk over the stack passes over the object and stops at the number. */
  lemma PeeksNothing()
    ensures PeekPath(Root, ["x", "a", "b"]) == Found(None) && PeekPath(Root, ["q"]) == Found(None)
  {
    var s := ["x", "a", "b"][1..];
    assert s == ["a", "b"];
    assert [Outer, Five][1..] == [Five];
    assert PeekLayers([Outer, Five], "a") == PeekLayers([Five], "a") == Found(None);
    assert PeekPath(Mixed, s) == Found(None);
  }

  lemma BothDangle(src: Source)
    requires IsDoc(src)
    ensures Dangling(src, Missing) && Dangling(src, Lookup)
  {
    Merges();
    PeeksNothing();
    var s := ["x", "a", "b"][1..];
    assert s == ["a", "b"] && s[1..] == ["b"];
    assert Settled(Inner, ["b"]);
    assert Settled(Outer, s) && Settled(Five, s);
    assert forall i | 0 <= i < |Mixed.stack| :: Settled(Mixed.stack[i], s);
    assert Settled(Mixed, s);
  }

  // ---------------------------------------------------------------- resolving the stack in full

  /** Harmless except for what is remembered of the given values. */
  predicate HarmlessBut(memos: Memos, values: set<Value>, open: MemoKey) {
    && (forall k | k in memos && k.value !in values && memos[k].Some? :: memos[k].value == k.value)
    && open !in memos
  }

  /** A request along the root that neither reference makes on the way. */
  predicate Open(open: MemoKey) {
    open.value == Root && open.restriction != [] && open.restriction != ["q"]
  }

  /** `a` stays, `c` vanishes. */
  lemma OuterChild(src: Source, key: string, memos: Memos, open: MemoKey)
    requires IsDoc(src) && MemosOk(src, memos) && Harmless(memos, open) && Open(open) && key in Outer.fields
    ensures Ready(src, Outer.fields[key], map[], memos) && Weight(Outer.fields[key]) < Weight(Outer)
    ensures var a := ResolveChild(src, Outer, key, [], map[], memos);
      a.outcome == Done(if key == "a" then Some(Inner) else None) && Harmless(a.memos, open)
  {
    hide Resolve, MemosOk, Harmless, Fit, Weight;
    Parts();
    Weights();
    PartsFit(src, map[]);
    ObjectParts(src, Outer, map[]);
    if key == "a" {
      SettledResolve(src, Inner, [], map[], memos, open);
    } else {
      BothDangle(src);
      DanglingResolves(src, Missing, memos, open);
    }
  }

  lemma {:induction false} OuterFields(src: Source, keys: seq<string>, kept: map<string, Value>, memos: Memos,
                                       open: MemoKey)
    requires IsDoc(src) && Ready(src, Outer, map[], memos) && Harmless(memos, open) && Open(open)
    requires forall i | 0 <= i < |keys| :: keys[i] in Outer.fields
    requires kept == map[] || kept == map["a" := Inner]
    requires "a" in kept || "a" in keys
    requires FieldsLegal(src, [], map["a" := Inner])
    requires forall k | k in Outer.fields :: Fit(src, Outer.fields[k], map[]) && Weight(Outer.fields[k]) < Weight(Outer)
    ensures var a := ResolveFields(src, Outer, keys, kept, [], map[], memos);
      a.outcome == Done(map["a" := Inner]) && Harmless(a.memos, open)
    decreases |keys|
  {
    hide ResolveChild, MemosOk, Harmless, Fit, Weight, IsDoc, Open;
    if keys != [] {
      OuterChild(src, keys[0], memos, open);
      var child := ResolveChild(src, Outer, keys[0], [], map[], memos);
      assert kept["a" := Inner] == map["a" := Inner];
      OuterFields(src, keys[1..], Kept(kept, keys[0], child.outcome.value), child.memos, open);
    }
  }

  lemma OuterResolves(src: Source, memos: Memos, open: MemoKey)
    requires IsDoc(src) && MemosOk(src, memos) && Harmless(memos, open) && Open(open)
    ensures Ready(src, Outer, map[], memos)
    ensures var a := Resolve(src, Outer, [], map[], memos);
      a.outcome == Done(Some(OuterResult)) && HarmlessBut(a.memos, {Outer}, open)
  {
    hide ResolveFields, Fit, Weight, Resolve, MemosOk, Harmless, HarmlessBut, Legal;
    Parts();
    PartsFit(src, map[]);
    ObjectParts(src, Outer, map[]);
    InnerIsLegal(src);
    OrderedKeys(src.order, Outer.fields.Keys);
    OuterFields(src, src.order(Outer.fields.Keys), map[], memos, open);
    NotRemembered(src, Outer, memos, open);
    ResolveFresh(src, Outer, [], map[], memos);
    var a := ResolveObject(src, Outer, [], map[], memos);
    assert ResolveSubstitutions(src, Outer, [], map[], memos) == a;
    OuterRemembered(src, a, open);
  }

  lemma InnerIsLegal(src: Source)
    ensures FieldsLegal(src, [], map["a" := Inner])
  {
    Parts();
    ResolvedLegal(src, Inner, []);
  }

  lemma OuterRemembered(src: Source, a: Answer<Option<Value>>, open: MemoKey)
    requires Open(open) && a.outcome == Done(Some(OuterResult)) && Harmless(a.memos, open)
    ensures var b := Remembered(src, Outer, [], a);
      b.outcome == Done(Some(OuterResult)) && HarmlessBut(b.memos, {Outer}, open)
  {
    Parts();
  }

  /** What is not resolved has no harmless full memo. */
  lemma NotRemembered(src: Source, v: Value, memos: Memos, open: MemoKey)
    requires MemosOk(src, memos) && !Resolved(v) && (v.Object? || v.DelayedMerge? || v.Reference?)
    requires Harmless(memos, open) || (exists values :: v !in values && HarmlessBut(memos, values, open))
    ensures Recalled(src, memos, v, []).None?
  {
    RecallLegal(src, memos, v, []);
  }

  /** A resolved value resolves to itself. */
  lemma ResolvesToItself(src: Source, v: Value, table: Replacements, memos: Memos, values: set<Value>, open: MemoKey)
    requires Ready(src, v, table, memos) && v !in table && Resolved(v) && v !in values
    requires HarmlessBut(memos, values, open) && open.restriction != []
    ensures var a := Resolve(src, v, [], table, memos);
      a.outcome == Done(Some(v)) && HarmlessBut(a.memos, values, open)
  {
    if Recalled(src, memos, v, []).None? {
      ResolveFresh(src, v, [], table, memos);
    }
  }

  /** Resolved in full, `x` is the object, and the memo says so. */
  lemma MixedResolves(src: Source, memos: Memos, open: MemoKey)
    requires IsDoc(src) && MemosOk(src, memos) && Harmless(memos, open) && Open(open)
    ensures Ready(src, Mixed, map[], memos)
    ensures var a := Resolve(src, Mixed, [], map[], memos);
      && a.outcome == Done(Some(MixedResult))
      && HarmlessBut(a.memos, {Outer, Mixed}, open)
      && Get(a.memos, MemoKey(Mixed, [])) == Some(MixedResult)
  {
    hide Weight, Resolve, ResolveLayers, HarmlessBut, Fit, Harmless;
    Parts();
    PartsFit(src, map[]);
    NotRemembered(src, Mixed, memos, open);
    ResolveFresh(src, Mixed, [], map[], memos);
    MixedLayers(src, memos, open);
    var a := ResolveDelayedMerge(src, Mixed, [], map[], memos);
    assert ResolveSubstitutions(src, Mixed, [], map[], memos) == a;
    MixedRemembered(src, a, open);
  }

  lemma MixedRemembered(src: Source, a: Answer<Option<Value>>, open: MemoKey)
    requires src.remembers && Open(open) && a.outcome == Done(Some(MixedResult)) && HarmlessBut(a.memos, {Outer}, open)
    ensures var b := Remembered(src, Mixed, [], a);
      && b.outcome == Done(Some(MixedResult)) && HarmlessBut(b.memos, {Outer, Mixed}, open)
      && Get(b.memos, MemoKey(Mixed, [])) == Some(MixedResult)
  {
    Parts();
  }

  lemma MixedLayers(src: Source, memos: Memos, open: MemoKey)
    requires IsDoc(src) && MemosOk(src, memos) && Harmless(memos, open) && Open(open)
    ensures Ready(src, Mixed, map[], memos)
    ensures var a := ResolveLayers(src, Mixed, 0, None, [], map[], memos);
      a.outcome == Done(Some(MixedResult)) && HarmlessBut(a.memos, {Outer}, open)
  {
    hide Weight, Resolve, HarmlessBut, MemosOk, Fit, WellFormed, RefsIn, Lawful, MergeOptional, Resolved;
    PartsFit(src, map[]);
    assert LayersReady(src, Mixed, 0, None, [], map[], memos);
    LayersStep(src, Mixed, 0, None, [], map[], memos);
    OuterResolves(src, memos, open);
    var first := Resolve(src, Outer, [], map[], memos);
    assert LayerTable(Mixed, 0, map[]) == map[] && LayerTable(Mixed, 1, map[]) == map[];
    Merges();
    LayersStep(src, Mixed, 1, Some(OuterResult), [], map[], first.memos);
    FiveIsPlain();
    ResolvesToItself(src, Five, map[], first.memos, {Outer}, open);
  }

  lemma FiveIsPlain()
    ensures Resolved(Five) && Five != Outer
  {
  }

  // ---------------------------------------------------------------- the lookup with the memo

  /** Along the path of the lookup, `x` is answered from the memo and `y` is left alone. */
  lemma {:induction false} RootFields(src: Source, keys: seq<string>, kept: map<string, Value>, table: Replacements,
                                      memos: Memos)
    requires Ready(src, Root, table, memos) && src.remembers && Get(memos, MemoKey(Mixed, [])) == Some(MixedResult)
    requires forall i | 0 <= i < |keys| :: keys[i] in Root.fields
    requires forall k | k in kept :: k in Root.fields && kept[k] == if k == "x" then MixedResult else Root.fields[k]
    requires forall k | k in Root.fields :: k in kept || k in keys
    requires FieldsLegal(src, Lookup.path, kept)
    requires forall k | k in Root.fields :: Fit(src, Root.fields[k], table) && Weight(Root.fields[k]) < Weight(Root)
    ensures ResolveFields(src, Root, keys, kept, Lookup.path, table, memos)
      == Answer(Done(Root.fields["x" := MixedResult]), memos)
    decreases |keys|
  {
    hide Resolve, Fit, Weight, MemosOk, FieldLegal, ResolveChild, Contained, Get;
    if keys == [] {
      assert kept == Root.fields["x" := MixedResult];
    } else {
      var key := keys[0];
      RootChild(src, key, table, memos);
      var child := ResolveChild(src, Root, key, Lookup.path, table, memos);
      RootFields(src, keys[1..], Kept(kept, key, child.outcome.value), table, memos);
    }
  }

  lemma RootChild(src: Source, key: string, table: Replacements, memos: Memos)
    requires key in Root.fields && Ready(src, Root.fields[key], table, memos) && Weight(Root.fields[key]) < Weight(Root)
    requires src.remembers && Get(memos, MemoKey(Mixed, [])) == Some(MixedResult)
    ensures ResolveChild(src, Root, key, Lookup.path, table, memos)
      == Answer(Done(Some(if key == "x" then MixedResult else Root.fields[key])), memos)
  {
    hide Resolve, Fit, Weight, MemosOk;
    assert Root.fields["x"] == Mixed;
    if key == "x" {
      FullMemoAnswers(src, Mixed, Lookup.path[1..], table, memos);
    }
  }

  lemma FullMemoAnswers(src: Source, v: Value, r: Path, table: Replacements, memos: Memos)
    requires Ready(src, v, table, memos) && src.remembers && Get(memos, MemoKey(v, [])).Some?
    ensures Resolve(src, v, r, table, memos) == Answer(Done(Get(memos, MemoKey(v, []))), memos)
  {
  }

  const Seen := Object(Root.fields["x" := MixedResult], false)

  /** What is remembered of `v` in full, if anything, is `v`. */
  predicate Plain(memos: Memos, v: Value) {
    Get(memos, MemoKey(v, [])).Some? ==> Get(memos, MemoKey(v, [])).value == v
  }

  /** The root along the path of the lookup, when `x` is remembered. */
  lemma RootSeen(src: Source, table: Replacements, memos: Memos)
    requires IsDoc(src) && Ready(src, Root, table, memos)
    requires HarmlessBut(memos, {Outer, Mixed}, Decisive) && Get(memos, MemoKey(Mixed, [])) == Some(MixedResult)
    ensures var a := Resolve(src, Root, Lookup.path, table, memos);
      a.outcome == Done(Some(Seen)) && Plain(a.memos, One)
  {
    hide Weight, ResolveFields, Fit, Resolved, Resolve, MemosOk, HarmlessBut, Plain;
    Parts();
    ObjectNotInFlight(src, Root, table);
    RootNotRemembered(src, memos);
    ObjectParts(src, Root, table);
    OrderedKeys(src.order, Root.fields.Keys);
    RootFields(src, src.order(Root.fields.Keys), map[], table, memos);
    ResolveFresh(src, Root, Lookup.path, table, memos);
    var a := ResolveObject(src, Root, Lookup.path, table, memos);
    assert ResolveSubstitutions(src, Root, Lookup.path, table, memos) == a;
    assert a == Answer(Done(Some(Seen)), memos);
    SeenRemembered(src, memos);
  }

  lemma ObjectNotInFlight(src: Source, o: Value, table: Replacements)
    requires o.Object? && Fit(src, o, table)
    ensures o !in table
  {
  }

  lemma SeenRemembered(src: Source, memos: Memos)
    requires HarmlessBut(memos, {Outer, Mixed}, Decisive)
    ensures var a := Remembered(src, Root, Lookup.path, Answer(Done(Some(Seen)), memos));
      a.outcome == Done(Some(Seen)) && Plain(a.memos, One)
  {
  }

  lemma RootNotRemembered(src: Source, memos: Memos)
    requires MemosOk(src, memos) && HarmlessBut(memos, {Outer, Mixed}, Decisive)
    ensures Recalled(src, memos, Root, Lookup.path).None?
  {
    Parts();
  }

  lemma PeeksOne()
    ensures PeekPath(Seen, Lookup.path) == Found(Some(One))
  {
    assert Lookup.path[1..] == ["a", "b"] && ["a", "b"][1..] == ["b"];
    assert PeekPath(Inner, ["b"]) == Found(Some(One));
    assert PeekPath(MixedResult, ["a", "b"]) == Found(Some(One));
  }

  lemma OneResolves(src: Source, table: Replacements, memos: Memos)
    requires Ready(src, One, table, memos) && Plain(memos, One)
    ensures Resolve(src, One, [], table, memos).outcome == Done(Some(One))
  {
    assert One !in table && Resolved(One);
    if Recalled(src, memos, One, []).None? {
      ResolveFresh(src, One, [], table, memos);
    }
  }

  /** With the memo of `x` the lookup finds 1. */
  lemma LookupFindsOne(src: Source, memos: Memos)
    requires IsDoc(src) && MemosOk(src, memos)
    requires HarmlessBut(memos, {Outer, Mixed}, Decisive) && Get(memos, MemoKey(Mixed, [])) == Some(MixedResult)
    ensures Ready(src, Lookup, map[], memos)
    ensures Resolve(src, Lookup, [], map[], memos).outcome == Done(Some(One))
  {
    hide Resolve, Fit, MemosOk, HarmlessBut, PeekPath;
    PartsFit(src, map[]);
    var inner: Replacements := map[Lookup := CycleReplacer];
    assert map[][Lookup := CycleReplacer] == inner;
    InFlightAlone(src, Lookup, memos);
    LookupNotRemembered(src, memos);
    RootSeen(src, inner, memos);
    PeeksOne();
    var partial := Resolve(src, Root, Lookup.path, inner, memos);
    var found := FindInRoot(src, Lookup.path, inner, memos);
    assert found == Answer(Done(Some(One)), partial.memos);
    OneResolves(src, inner, found.memos);
    ResolveFresh(src, Lookup, [], map[], memos);
    assert LookupSubst(src, Lookup, [], inner, memos).outcome == Done(Some(One));
    assert ResolveReference(src, Lookup, [], map[], memos).outcome == Done(Some(One));
  }

  lemma LookupNotRemembered(src: Source, memos: Memos)
    requires MemosOk(src, memos) && HarmlessBut(memos, {Outer, Mixed}, Decisive)
    ensures Recalled(src, memos, Lookup, []).None?
  {
    NotRemembered(src, Lookup, memos, Decisive);
  }

  // ---------------------------------------------------------------- one document, two results

  /** The order that visits the entries of the root as `first` says, and everything else as `order`
      does. */
  function Visiting(first: seq<string>, order: set<string> -> seq<string>): (r: set<string> -> seq<string>) {
    keys => if keys == {"x", "y"} then first else order(keys)
  }

  lemma VisitingIsOrdering(first: seq<string>, order: set<string> -> seq<string>)
    requires Ordering(order) && (first == ["x", "y"] || first == ["y", "x"])
    ensures Ordering(Visiting(first, order))
  {
    var r := Visiting(first, order);
    forall keys: set<string> ensures multiset(r(keys)) == multiset(keys) {
      if keys == {"x", "y"} {
        assert multiset(first) == multiset({"x", "y"});
      }
    }
  }

  ghost function Doc(first: seq<string>, order: set<string> -> seq<string>): (src: Source) {
    Document(Root, Root, Visiting(first, order))
  }

  lemma DocReady(first: seq<string>, order: set<string> -> seq<string>)
    requires Ordering(order) && (first == ["x", "y"] || first == ["y", "x"])
    ensures IsDoc(Doc(first, order)) && Ready(Doc(first, order), Root, map[], map[])
    ensures Doc(first, order).order(Root.fields.Keys) == first
  {
    hide Fit, WellFormed;
    VisitingIsOrdering(first, order);
    RootIsWellFormed();
    OutermostResolve(Root, Root, Visiting(first, order));
    Parts();
  }

  /** Two entries visited in turn. */
  lemma TwoFields(src: Source, first: string, second: string)
    requires IsDoc(src) && Ready(src, Root, map[], map[]) && src.order(Root.fields.Keys) == [first, second]
    requires {first, second} == {"x", "y"}
    ensures Ready(src, Root.fields[first], map[], map[])
    ensures var one := Resolve(src, Root.fields[first], [], map[], map[]);
      one.outcome.Done? ==>
        && Ready(src, Root.fields[second], map[], one.memos)
        && var two := Resolve(src, Root.fields[second], [], map[], one.memos);
           two.outcome.Done? ==>
             ResolveObject(src, Root, [], map[], map[]).outcome == Done(Some(Object(
               Kept(Kept(map[], first, one.outcome.value), second, two.outcome.value), false)))
  {
    hide Resolve, Fit, Weight, WellFormed, RefsIn, ResolveFields, MemosOk, IsDoc, FieldLegal;
    Parts();
    PartsFit(src, map[]);
    ObjectParts(src, Root, map[]);
    assert [first, second][1..] == [second] && [second][1..] == [];
    var one := Resolve(src, Root.fields[first], [], map[], map[]);
    if one.outcome.Done? {
      var two := Resolve(src, Root.fields[second], [], map[], one.memos);
      var kept := Kept(map[], first, one.outcome.value);
      FieldsStep(src, Root, [first, second], map[], map[], map[]);
      if two.outcome.Done? {
        FieldsStep(src, Root, [second], kept, map[], one.memos);
        FieldsStep(src, Root, [], Kept(kept, second, two.outcome.value), map[], two.memos);
      }
    }
  }

  /** The outermost resolve of one and the same document keeps `y` when `x` is visited first, and
      drops it when `y` is. */
  lemma OrderMatters(order: set<string> -> seq<string>)
    requires Ordering(order)
    ensures Ready(Doc(["x", "y"], order), Root, map[], map[]) && Ready(Doc(["y", "x"], order), Root, map[], map[])
    ensures Resolve(Doc(["x", "y"], order), Root, [], map[], map[]).outcome ==
      Done(Some(Object(map["x" := MixedResult, "y" := One], false)))
    ensures Resolve(Doc(["y", "x"], order), Root, [], map[], map[]).outcome ==
      Done(Some(Object(map["x" := MixedResult], false)))
  {
    hide Resolve, Ready, IsDoc;
    DocReady(["x", "y"], order);
    DocReady(["y", "x"], order);
    XFirst(Doc(["x", "y"], order));
    YFirst(Doc(["y", "x"], order));
  }

  lemma RootResolves(src: Source, result: Value)
    requires IsDoc(src) && Ready(src, Root, map[], map[]) && Resolved(result)
    requires ResolveObject(src, Root, [], map[], map[]).outcome == Done(Some(result))
    ensures Resolve(src, Root, [], map[], map[]).outcome == Done(Some(result))
  {
    hide ResolveObject, Fit, Weight;
    Parts();
    ResolveFresh(src, Root, [], map[], map[]);
  }

  lemma XFirst(src: Source)
    requires IsDoc(src) && Ready(src, Root, map[], map[]) && src.order(Root.fields.Keys) == ["x", "y"]
    ensures Resolve(src, Root, [], map[], map[]).outcome ==
      Done(Some(Object(map["x" := MixedResult, "y" := One], false)))
  {
    hide Resolve, Fit, Weight, HarmlessBut, ResolveObject, MemosOk;
    Parts();
    TwoFields(src, "x", "y");
    NothingYet(src, Decisive);
    MixedResolves(src, map[], Decisive);
    LookupFindsOne(src, Resolve(src, Mixed, [], map[], map[]).memos);
    assert map["x" := MixedResult]["y" := One] == map["x" := MixedResult, "y" := One];
    RootResolves(src, Object(map["x" := MixedResult, "y" := One], false));
  }

  lemma NothingYet(src: Source, open: MemoKey)
    ensures MemosOk(src, map[]) && Harmless(map[], open)
  {
  }

  lemma YFirst(src: Source)
    requires IsDoc(src) && Ready(src, Root, map[], map[]) && src.order(Root.fields.Keys) == ["y", "x"]
    ensures Resolve(src, Root, [], map[], map[]).outcome == Done(Some(Object(map["x" := MixedResult], false)))
  {
    hide Resolve, Fit, Weight, HarmlessBut, ResolveObject, MemosOk, Harmless;
    var open := MemoKey(Root, ["elsewhere"]);
    Parts();
    TwoFields(src, "y", "x");
    NothingYet(src, open);
    BothDangle(src);
    DanglingResolves(src, Lookup, map[], open);
    MixedResolves(src, Resolve(src, Lookup, [], map[], map[]).memos, open);
    assert map[]["x" := MixedResult] == map["x" := MixedResult];
    RootResolves(src, Object(map["x" := MixedResult], false));
  }

  /** So this document is not one whose lookups are visible, however its references are ranked. */
  lemma NotLookable(rank: Rank, order: set<string> -> seq<string>)
    requires Ordering(order)
    ensures !MemoFree.Lookable(Root, rank)
  {
    hide Resolve, Ready, Meaning;
    OrderMatters(order);
    assert "y" in map["x" := MixedResult, "y" := One] && "y" !in map["x" := MixedResult];
    if MemoFree.Lookable(Root, rank) {
      LookableMeaning(rank, ["x", "y"], order);
      LookableMeaning(rank, ["y", "x"], order);
    }
  }

  lemma LookableMeaning(rank: Rank, first: seq<string>, order: set<string> -> seq<string>)
    requires Ordering(order) && (first == ["x", "y"] || first == ["y", "x"]) && MemoFree.Lookable(Root, rank)
    ensures Ready(Doc(first, order), Root, map[], map[])
    ensures Resolve(Doc(first, order), Root, [], map[], map[]).outcome ==
      Done(Meaning(Root, Denotation.SenseOf(Root, rank).env))
  {
    hide Resolve, MemoFree.Lookable, Coherent;
    var src := Doc(first, order);
    DocReady(first, order);
    MemoFree.DenotationIsCoherent(Root, rank, src);
    var w := MemoFree.WorldOf(Root, rank, src, false);
    NothingRequired(w.sense.env);
    MemoFree.SureWorld(w, Root);
    MemoFree.RootRequest(w.(sure := true), Root);
    MemoFree.ResolvesToMeaning(w.(sure := true), Root, map[]);
  }

  /** All references of the document are optional. */
  lemma NothingRequired(env: Env)
    ensures MemoFree.Settles(Root, env)
  {
    Parts();
    assert MemoFree.Settles(Missing, env) && MemoFree.Settles(Lookup, env);
    MemoFree.ResolvedSettles(Inner, env);
    assert MemoFree.Settles(Outer, env) && MemoFree.Settles(Five, env);
    assert forall i | 0 <= i < |Mixed.stack| :: Mixed.stack[i] == Outer || Mixed.stack[i] == Five;
    assert MemoFree.Settles(Mixed, env);
  }

  // ---------------------------------------------------------------- a neighbour that is visible

  const FirmOuter := Object(map["a" := One, "c" := Missing], false)
  const FirmMixed := DelayedMerge(true, [FirmOuter, Five])
  const FirmLookup := Reference(1, ["x", "a"], false, 0)
  const FirmRoot := Object(map["x" := FirmMixed, "y" := FirmLookup], false)

  function NoRank(n: Value): (r: nat) {
    0
  }

  /** In `x = 5, x = { a = 1, c = ${?q} }, y = ${x.a}` an object is merged over a number just the same,
      but what it holds at `a` ignores fallbacks: the lookups of this document are visible. */
  lemma FirmIsLookable()
    ensures MemoFree.Lookable(FirmRoot, NoRank)
  {
    var w := Denotation.SenseOf(FirmRoot, NoRank);
    assert FirmRoot.fields["x"] == FirmMixed && FirmRoot.fields.Keys == {"x", "y"};
    FirmNodes();
    FirmVisible(w);
    forall n | n in {Missing, FirmLookup} ensures MemoFree.NodeLookable(w, n) {
      assert n.path[0..] == n.path;
      assert n == FirmLookup ==> n.path == ["x", "a"] && n.path[1..] == ["a"];
    }
  }

  lemma FirmNodes()
    ensures References(FirmRoot) <= {Missing, FirmLookup}
  {
    assert FirmRoot.fields["x"] == FirmMixed && FirmRoot.fields["y"] == FirmLookup;
    assert FirmOuter.fields["a"] == One && FirmOuter.fields["c"] == Missing;
    assert References(FirmOuter) <= {Missing};
    assert References(Five) == {};
    assert forall i | 0 <= i < |FirmMixed.stack| :: FirmMixed.stack[i] == FirmOuter || FirmMixed.stack[i] == Five;
    assert References(FirmMixed) <= {Missing};
    assert References(FirmLookup) == {FirmLookup};
  }

  lemma FirmVisible(w: Sense)
    requires w.root == FirmRoot && w.rank == NoRank
    ensures Visible(w, FirmRoot, ["x", "a"], 0) && Bounded(FirmRoot, ["x", "a"], NoRank, 0)
  {
    assert ["x", "a"][1..] == ["a"] && ["a"][1..] == [];
    var stack := FirmMixed.stack;
    assert FirmRoot.fields["x"] == FirmMixed && FirmOuter.fields["a"] == One;
    assert Bounded(One, [], NoRank, 0);
    assert Bounded(FirmOuter, ["a"], NoRank, 0) && Bounded(Five, ["a"], NoRank, 0);
    assert Bounded(FirmMixed, ["a"], NoRank, 0);
    assert Visible(w, One, [], 0);
    assert Visible(w, FirmOuter, ["a"], 0) && Visible(w, Five, ["a"], 0);
    assert stack[..0] == [] && stack[..1] == [FirmOuter];
    FirmHeld(w.env);
    assert LayersHideNothing(stack, ["a"], w.env);
    assert Visible(w, FirmMixed, ["a"], 0);
  }

  lemma FirmHeld(env: Env)
    ensures Firm(DelayedMerge(false, [FirmOuter]), ["a"], env)
  {
    assert ["a"][1..] == [] && FirmOuter.fields["a"] == One;
    assert Firm(One, [], env);
    FirmEntry(FirmOuter, ["a"], env);
    assert forall j | 0 <= j < |[FirmOuter]| :: [FirmOuter][j] == FirmOuter;
    FirmFromLayers(false, [FirmOuter], ["a"], env);
  }
}
