/** The converse of memo agreement fails: memos can make a document resolve that does not resolve
    without them.

    In `s = 5, x = { b = ${missing} }, x = ${s}, y = ${?x.a}` the entry `x` is a merge stack whose
    lower layer holds a required reference to nothing.  Looking up `x.a` resolves the stack along
    `a`, which leaves the lower layer alone and gives 5; being resolved, it is remembered as the full
    result of `x`, and the failing reference is never met when `y` is visited first. */
module MemoSuccess {
  import opened ConfigValues
  import opened MergeAlgebra
  import opened Measures
  import opened Resolution
  import opened Ranks
  import opened Lookups
  import opened Visibility
  import opened Denotation
  import opened MemoFree

  const Five := Number(5, "5")
  const Missing := Reference(0, ["missing"], false, 0)
  const Lower := Object(map["b" := Missing], false)
  const ToS := Reference(1, ["s"], false, 0)
  const Stack := DelayedMerge(false, [ToS, Lower])
  const Lookup := Reference(2, ["x", "a"], true, 0)
  const Root := Object(map["s" := Five, "x" := Stack, "y" := Lookup], false)
  const Result := Object(map["s" := Five, "x" := Five], false)

  // ---------------------------------------------------------------- the document

  lemma Parts()
    ensures Root.fields.Keys == {"s", "x", "y"}
    ensures Root.fields["s"] == Five && Root.fields["x"] == Stack && Root.fields["y"] == Lookup
    ensures Lower.fields.Keys == {"b"} && Lower.fields["b"] == Missing
    ensures Resolved(Five) && !Resolved(Lower) && !Resolved(Root) && !Resolved(Stack)
  {
    assert !Resolved(Lower.fields["b"]) && !Resolved(Root.fields["x"]);
  }

  lemma {:induction false} RootIsWellFormed()
    ensures WellFormed(Lower) && WellFormed(Stack) && WellFormed(Root)
  {
    assert WellFormed(Missing) && WellFormed(ToS) && WellFormed(Lookup) && WellFormed(Five);
    assert Stack.stack[0] == ToS && Stack.stack[1] == Lower;
    assert forall i | 0 <= i < |Stack.stack| :: Stack.stack[i] == ToS || Stack.stack[i] == Lower;
  }

  ghost predicate IsDoc(src: Source) {
    src.root == Root && Sound(src) && src.remembers
  }

  lemma {:induction false} PartsFit(src: Source, table: Replacements)
    requires IsDoc(src) && TableOk(table) && (table == map[] || ReferenceInFlight(table))
    ensures Fit(src, Root, table) && Fit(src, Stack, table) && Fit(src, Lower, table)
    ensures Fit(src, Lookup, table) && Fit(src, ToS, table) && Fit(src, Five, table)
  {
    Parts();
    RootIsWellFormed();
    assert RefsIn(Root.fields["x"], src.nodes) && RefsIn(Root.fields["y"], src.nodes);
    assert RefsIn(Stack.stack[0], src.nodes) && RefsIn(Stack.stack[1], src.nodes);
  }

  // ---------------------------------------------------------------- its meaning

  function ByNode(n: Value): (r: nat) {
    if n == Lookup then 1 else 0
  }

  lemma RefMeanings()
    ensures var env := SenseOf(Root, ByNode).env; env(ToS) == Some(Five) && env(Missing) == None
  {
    hide RefValue;
    RootPlainly(ToS);
    RootPlainly(Missing);
    assert SenseOf(Root, ByNode).env(ToS) == RefValue(Root, ByNode, ToS);
    assert SenseOf(Root, ByNode).env(Missing) == RefValue(Root, ByNode, Missing);
  }

  lemma RootPlainly(n: Value)
    requires n == ToS || n == Missing
    ensures RefValue(Root, ByNode, n) == if n == ToS then Some(Five) else None
  {
    var full := Full(Root, RefsBelow(Root, ByNode, 0));
    Parts();
    FullEntry(Root, n.path[0], RefsBelow(Root, ByNode, 0));
    assert n.path[1..] == [] && n.path[0..] == n.path;
    assert LookIn(full, n.path) == LookIn(FieldAt(full.value, n.path[0]), []);
  }

  lemma NotSettled()
    ensures !Settles(Root, SenseOf(Root, ByNode).env)
  {
    var env := SenseOf(Root, ByNode).env;
    RefMeanings();
    Parts();
    assert !Settles(Missing, env);
    assert !Settles(Lower.fields["b"], env);
    assert !Settles(Stack.stack[1], env);
    assert !Settles(Root.fields["x"], env);
  }

  lemma RootNodes()
    ensures References(Root) <= {Missing, ToS, Lookup}
  {
    Parts();
    assert References(Lower) <= {Missing};
    assert forall i | 0 <= i < |Stack.stack| :: Stack.stack[i] == ToS || Stack.stack[i] == Lower;
    assert References(ToS) == {ToS} && References(Lookup) == {Lookup} && References(Five) == {};
    assert References(Stack) <= {Missing, ToS};
  }

  lemma LookupIsVisible(w: Sense)
    requires w == SenseOf(Root, ByNode)
    ensures Visible(w, Root, ["x", "a"], 1) && Bounded(Root, ["x", "a"], ByNode, 1)
  {
    Parts();
    assert ["x", "a"][1..] == ["a"] && Stack.stack == [ToS, Lower];
    LayersAreVisible(w);
    LayersShowAll(w);
    assert Visible(w, Stack, ["a"], 1);
    assert Bounded(Stack, ["a"], ByNode, 1);
  }

  lemma LayersAreVisible(w: Sense)
    requires w == SenseOf(Root, ByNode)
    ensures Visible(w, ToS, ["a"], 1) && Visible(w, Lower, ["a"], 1)
    ensures Bounded(ToS, ["a"], ByNode, 1) && Bounded(Lower, ["a"], ByNode, 1)
  {
    Parts();
    RefMeanings();
    assert ["s"] + ["a"] == ["s", "a"] && ["s", "a"][1..] == ["a"];
    assert Visible(w, Five, ["a"], 0) && Visible(w, Root, ["s", "a"], 0);
  }

  lemma LayersShowAll(w: Sense)
    requires w == SenseOf(Root, ByNode)
    ensures LayersHideNothing([ToS, Lower], ["a"], w.env)
  {
    Parts();
    RefMeanings();
    assert [ToS, Lower][..0] == [] && [ToS, Lower][..1] == [ToS] && [ToS][..0] == [];
    assert StackMeaning([ToS], w.env) == Some(Five);
  }

  /** Its lookups are visible. */
  lemma RootIsLookable()
    ensures Lookable(Root, ByNode)
  {
    var w := SenseOf(Root, ByNode);
    Parts();
    RootNodes();
    LookupIsVisible(w);
    forall n | n in {Missing, ToS, Lookup} ensures NodeLookable(w, n) {
      assert n.path[0..] == n.path;
      if n != Lookup {
        assert n.path[1..] == [];
        assert Bounded(Five, [], ByNode, 0) && Visible(w, Five, [], 0);
      }
    }
  }

  // ---------------------------------------------------------------- the run

  const M1: Memos := map[MemoKey(Root, ["s"]) := Some(Root)]
  const M2: Memos := M1[MemoKey(Five, []) := Some(Five)]
  const M3: Memos := M2[MemoKey(ToS, []) := Some(Five)]
  const M4: Memos := M3[MemoKey(Lower, ["a"]) := Some(Lower)]
  const M5: Memos := M4[MemoKey(Stack, []) := Some(Five)]
  const Seen := Object(Root.fields["x" := Five], false)
  const M6: Memos := M5[MemoKey(Root, ["x", "a"]) := Some(Seen)]
  const M7: Memos := M6[MemoKey(Lookup, []) := None]

  lemma MemosAreOk(src: Source)
    requires IsDoc(src)
    ensures MemosOk(src, M1) && MemosOk(src, M2) && MemosOk(src, M3) && MemosOk(src, M4) && MemosOk(src, M5)
  {
    Parts();
    PartsFit(src, map[]);
    assert PartlyResolved(Root, ["s"]) && PartlyResolved(Lower, ["a"]);
    ResolvedLegal(src, Five, []);
  }

  /** The root along `s` stays as it is. */
  lemma RootAlongS(src: Source, table: Replacements)
    requires IsDoc(src) && TableOk(table) && ReferenceInFlight(table)
    ensures Ready(src, Root, table, map[])
    ensures Resolve(src, Root, ["s"], table, map[]) == Answer(Done(Some(Root)), M1)
  {
    hide Weight, Fit, Resolved, ResolveFields, Resolve;
    Parts();
    PartsFit(src, table);
    ObjectParts(src, Root, table);
    OrderedKeys(src.order, Root.fields.Keys);
    AllKept(src, Root, ["s"], src.order(Root.fields.Keys), map[], table, map[]);
    ResolveFresh(src, Root, ["s"], table, map[]);
    var a := ResolveObject(src, Root, ["s"], table, map[]);
    assert a == Answer(Done(Some(Root)), map[]);
    assert ResolveSubstitutions(src, Root, ["s"], table, map[]) == a;
  }

  lemma FiveResolves(src: Source, r: Path, table: Replacements)
    requires IsDoc(src) && TableOk(table) && ReferenceInFlight(table)
    ensures Ready(src, Five, table, M1) && Resolve(src, Five, r, table, M1) == Answer(Done(Some(Five)), M2)
  {
    hide Weight, Fit, Resolve, MemosOk, Recalled;
    Parts();
    MemosAreOk(src);
    PartsFit(src, table);
    FiveIsNew(src, r);
    ResolveFresh(src, Five, r, table, M1);
  }

  lemma FiveIsNew(src: Source, r: Path)
    ensures Recalled(src, M1, Five, r).None?
  {
    assert MemoKey(Five, []) !in M1 && MemoKey(Five, r) !in M1;
  }

  /** The reference to `s`, along any path. */
  lemma ToSResolves(src: Source, table: Replacements)
    requires IsDoc(src) && TableOk(table) && ReferenceInFlight(table) && ToS !in table
    ensures Ready(src, ToS, table, map[]) && Resolve(src, ToS, ["a"], table, map[]) == Answer(Done(Some(Five)), M3)
  {
    hide Weight, Fit, Resolve, PeekPath;
    Parts();
    PartsFit(src, table);
    var inner := table[ToS := CycleReplacer];
    ReferenceReady(src, ToS, table, map[]);
    assert ToS in inner;
    InnerTable(src, table);
    RootAlongS(src, inner);
    PeeksFive();
    assert FindInRoot(src, ["s"], inner, map[]) == Answer(Done(Some(Five)), M1);
    FiveResolves(src, ["a"], inner);
    assert LookupSubst(src, ToS, ["a"], inner, map[]) == Answer(Done(Some(Five)), M2);
    var a := ResolveReference(src, ToS, ["a"], table, map[]);
    assert a == Answer(Done(Some(Five)), M2);
    ResolveFresh(src, ToS, ["a"], table, map[]);
    assert ResolveSubstitutions(src, ToS, ["a"], table, map[]) == a;
  }

  lemma InnerTable(src: Source, table: Replacements)
    requires TableOk(table) && ReferenceInFlight(table) && ToS !in table
    ensures TableOk(table[ToS := CycleReplacer]) && ReferenceInFlight(table[ToS := CycleReplacer])
  {
    var n :| n in table && n.Reference?;
    assert n in table[ToS := CycleReplacer];
  }

  lemma PeeksFive()
    ensures PeekPath(Root, ["s"]) == Found(Some(Five)) && PeekPath(Seen, ["x", "a"]) == Found(None)
  {
    Parts();
    assert ["x", "a"][1..] == ["a"];
  }

  /** The lower layer stays as it is along `a`. */
  lemma LowerResolves(src: Source, table: Replacements)
    requires IsDoc(src) && TableOk(table) && ReferenceInFlight(table)
    ensures Ready(src, Lower, table, M3) && Resolve(src, Lower, ["a"], table, M3) == Answer(Done(Some(Lower)), M4)
  {
    hide Weight, Fit, Resolved, ResolveObject, Resolve, MemosOk, Recalled;
    Parts();
    MemosAreOk(src);
    PartsFit(src, table);
    LowerObject(src, table);
    LowerIsNew(src);
    assert Lower !in table;
    ResolveFresh(src, Lower, ["a"], table, M3);
  }

  lemma LowerObject(src: Source, table: Replacements)
    requires IsDoc(src) && Ready(src, Lower, table, M3)
    ensures ResolveObject(src, Lower, ["a"], table, M3) == Answer(Done(Some(Lower)), M3)
  {
    hide Weight, Fit, Resolved, ResolveFields, Resolve, MemosOk;
    Parts();
    ObjectParts(src, Lower, table);
    OrderedKeys(src.order, Lower.fields.Keys);
    AllKept(src, Lower, ["a"], src.order(Lower.fields.Keys), map[], table, M3);
  }

  lemma LowerIsNew(src: Source)
    ensures Recalled(src, M3, Lower, ["a"]).None?
  {
    assert MemoKey(Lower, []) !in M3 && MemoKey(Lower, ["a"]) !in M3;
  }

  const Looking: Replacements := map[Lookup := CycleReplacer]

  lemma LookingTable()
    ensures TableOk(Looking) && ReferenceInFlight(Looking)
    ensures var t := LayerTable(Stack, 0, Looking); TableOk(t) && ReferenceInFlight(t) && ToS !in t
    ensures LayerTable(Stack, 1, Looking) == Looking
  {
    assert Lookup in Looking && Lookup in LayerTable(Stack, 0, Looking);
  }

  /** The stack along `a` is 5, which is remembered as its full result. */
  lemma StackResolves(src: Source)
    requires IsDoc(src)
    ensures Ready(src, Stack, Looking, map[])
    ensures Resolve(src, Stack, ["a"], Looking, map[]) == Answer(Done(Some(Five)), M5)
  {
    hide Weight, Fit, Resolve, ResolveLayers, MergeOptional;
    Parts();
    LookingTable();
    PartsFit(src, Looking);
    LayersAre(src);
    var a := ResolveDelayedMerge(src, Stack, ["a"], Looking, map[]);
    assert a == Answer(Done(Some(Five)), M4);
    ResolveFresh(src, Stack, ["a"], Looking, map[]);
    assert ResolveSubstitutions(src, Stack, ["a"], Looking, map[]) == a;
  }

  lemma LayersAre(src: Source)
    requires IsDoc(src)
    ensures LayersReady(src, Stack, 0, None, ["a"], Looking, map[])
    ensures ResolveLayers(src, Stack, 0, None, ["a"], Looking, map[]) == Answer(Done(Some(Five)), M4)
  {
    hide Weight, Fit, Resolve, MemosOk, WellFormed, RefsIn, Resolved;
    LookingTable();
    PartsFit(src, Looking);
    MergesAre();
    NothingKnown(src);
    LayersStep(src, Stack, 0, None, ["a"], Looking, map[]);
    ToSResolves(src, LayerTable(Stack, 0, Looking));
    LayersStep(src, Stack, 1, Some(Five), ["a"], Looking, M3);
    LowerResolves(src, Looking);
  }

  lemma NothingKnown(src: Source)
    ensures MemosOk(src, map[])
  {
  }

  lemma MergesAre()
    ensures MergeOptional(None, Some(Five)) == Some(Five) && MergeOptional(Some(Five), Some(Lower)) == Some(Five)
  {
  }

  /** Along the path of the lookup only `x` changes. */
  lemma {:induction false} RootFields(src: Source, keys: seq<string>, kept: map<string, Value>)
    requires IsDoc(src) && (forall i | 0 <= i < |keys| :: keys[i] in Root.fields)
    requires forall i, j | 0 <= i < j < |keys| :: keys[i] != keys[j]
    requires forall k | k in kept :: k in Seen.fields && kept[k] == Seen.fields[k]
    requires forall k | k in Seen.fields :: k in kept <==> k !in keys
    requires FieldsLegal(src, Lookup.path, kept)
    requires forall k | k in Root.fields :: Fit(src, Root.fields[k], Looking) && Weight(Root.fields[k]) < Weight(Root)
    requires Ready(src, Root, Looking, if "x" in keys then map[] else M5)
    ensures ResolveFields(src, Root, keys, kept, Lookup.path, Looking, if "x" in keys then map[] else M5)
      == Answer(Done(Seen.fields), M5)
    decreases |keys|
  {
    hide Resolve, Fit, Weight, MemosOk, FieldLegal, Contained, ResolveChild;
    var memos := if "x" in keys then map[] else M5;
    if keys == [] {
      assert kept == Seen.fields;
    } else {
      var key := keys[0];
      assert "x" in keys[1..] <==> "x" in keys && key != "x";
      EntryAlong(src, key, memos);
      var child := ResolveChild(src, Root, key, Lookup.path, Looking, memos);
      RootFields(src, keys[1..], kept[key := Seen.fields[key]]);
    }
  }

  lemma EntryAlong(src: Source, key: string, memos: Memos)
    requires IsDoc(src) && key in Root.fields && Fit(src, Root.fields[key], Looking) && MemosOk(src, memos)
    requires Weight(Root.fields[key]) < Weight(Root) && (key == "x" ==> memos == map[])
    ensures key in Seen.fields
    ensures ResolveChild(src, Root, key, Lookup.path, Looking, memos)
      == Answer(Done(Some(Seen.fields[key])), if key == "x" then M5 else memos)
  {
    hide Resolve, Fit, Weight, MemosOk;
    Parts();
    assert Lookup.path[1..] == ["a"];
    if key == "x" {
      StackResolves(src);
    }
  }

  lemma RootSeen(src: Source)
    requires IsDoc(src)
    ensures Ready(src, Root, Looking, map[])
    ensures Resolve(src, Root, Lookup.path, Looking, map[]) == Answer(Done(Some(Seen)), M6)
  {
    hide Weight, Fit, ResolveFields, Resolve, ResolveObject, MemosOk;
    Parts();
    LookingTable();
    NothingKnown(src);
    PartsFit(src, Looking);
    RootObject(src);
    SeenIsUnresolved();
    ResolveFresh(src, Root, Lookup.path, Looking, map[]);
  }

  lemma SeenIsUnresolved()
    ensures !Resolved(Seen)
  {
    Parts();
    assert !Resolved(Seen.fields["y"]);
  }

  lemma RootObject(src: Source)
    requires IsDoc(src) && Ready(src, Root, Looking, map[])
    ensures ResolveObject(src, Root, Lookup.path, Looking, map[]) == Answer(Done(Some(Seen)), M5)
  {
    hide Weight, Fit, ResolveFields, MemosOk;
    Parts();
    PartsFit(src, Looking);
    ObjectParts(src, Root, Looking);
    OrderedKeys(src.order, Root.fields.Keys);
    EachKeyOnce(src.order, Root.fields.Keys);
    assert Seen.fields.Keys == Root.fields.Keys;
    RootFields(src, src.order(Root.fields.Keys), map[]);
  }

  /** So the lookup finds nothing, and `x` is remembered as 5. */
  lemma LookupVanishes(src: Source)
    requires IsDoc(src)
    ensures Ready(src, Lookup, map[], map[]) && Resolve(src, Lookup, [], map[], map[]) == Answer(Done(None), M7)
  {
    hide Resolve, Fit, MemosOk, Weight, LookupSubst;
    PartsFit(src, map[]);
    NothingKnown(src);
    LookedUp(src);
    assert map[][Lookup := CycleReplacer] == Looking;
    assert ResolveReference(src, Lookup, [], map[], map[]) == Answer(Done(None), M6);
    ResolveFresh(src, Lookup, [], map[], map[]);
  }

  lemma LookedUp(src: Source)
    requires IsDoc(src)
    ensures Ready(src, Lookup, Looking, map[]) && Lookup in Looking
    ensures LookupSubst(src, Lookup, [], Looking, map[]) == Answer(Done(None), M6)
  {
    hide Resolve, Fit, MemosOk, Weight, PeekPath;
    LookingTable();
    PartsFit(src, Looking);
    NothingKnown(src);
    RootSeen(src);
    PeeksFive();
    assert Lookup in Looking;
    assert FindInRoot(src, Lookup.path, Looking, map[]) == Answer(Done(None), M6);
  }

  // ---------------------------------------------------------------- the whole document

  /** An order that visits `y` before `x`, and otherwise is `order`. */
  function YFirst(order: set<string> -> seq<string>): (r: set<string> -> seq<string>) {
    keys => if keys == {"s", "x", "y"} then ["y", "x", "s"] else order(keys)
  }

  lemma YFirstIsOrdering(order: set<string> -> seq<string>)
    requires Ordering(order)
    ensures Ordering(YFirst(order))
  {
    forall keys: set<string> ensures multiset(YFirst(order)(keys)) == multiset(keys) {
      if keys == {"s", "x", "y"} {
        assert multiset(["y", "x", "s"]) == multiset({"s", "x", "y"});
      }
    }
  }

  lemma Remembers(src: Source, v: Value, memos: Memos)
    requires Ready(src, v, map[], memos) && src.remembers && Get(memos, MemoKey(v, [])) == Some(Five)
    ensures Resolve(src, v, [], map[], memos) == Answer(Done(Some(Five)), memos)
  {
  }

  lemma DocumentResolves(src: Source)
    requires IsDoc(src) && Ready(src, Root, map[], map[]) && src.order(Root.fields.Keys) == ["y", "x", "s"]
    ensures Resolve(src, Root, [], map[], map[]).outcome == Done(Some(Result))
  {
    hide Resolve, Fit, Weight, MemosOk, WellFormed, RefsIn, FieldsLegal, Contained, ResolveFields;
    Parts();
    PartsFit(src, map[]);
    ObjectParts(src, Root, map[]);
    LookupVanishes(src);
    KnownAfterwards();
    Remembers(src, Stack, M7);
    Remembers(src, Five, M7);
    assert ["y", "x", "s"][1..] == ["x", "s"] && ["x", "s"][1..] == ["s"] && ["s"][1..] == [];
    NothingKept(src);
    FieldsStep(src, Root, ["y", "x", "s"], map[], map[], map[]);
    FieldsStep(src, Root, ["x", "s"], map[], map[], M7);
    FieldsStep(src, Root, ["s"], map["x" := Five], map[], M7);
    FieldsStep(src, Root, [], map["x" := Five, "s" := Five], map[], M7);
    var a := ResolveObject(src, Root, [], map[], map[]);
    assert a == Answer(Done(Some(Result)), M7);
    ResolveFresh(src, Root, [], map[], map[]);
    assert ResolveSubstitutions(src, Root, [], map[], map[]) == a;
  }

  lemma NothingKept(src: Source)
    ensures FieldsLegal(src, [], map[]) && Kept(map[], "y", None) == map[]
    ensures Kept(map[], "x", Some(Five)) == map["x" := Five]
    ensures Kept(map["x" := Five], "s", Some(Five)) == map["x" := Five, "s" := Five]
    ensures Object(map["x" := Five, "s" := Five], false) == Result && Resolved(Result)
  {
  }

  lemma KnownAfterwards()
    ensures Get(M7, MemoKey(Stack, [])) == Some(Five) && Get(M7, MemoKey(Five, [])) == Some(Five)
  {
  }

  /** The lookups of the document are visible, and it does not resolve without memos, in any visiting
      order; but its outermost resolve succeeds when `y` is visited first. */
  lemma MemosCanSucceedAlone(order: set<string> -> seq<string>)
    requires Ordering(order)
    ensures Lookable(Root, ByNode)
    ensures Ready(WithoutMemos(Root, order), Root, map[], map[])
    ensures !Resolve(WithoutMemos(Root, order), Root, [], map[], map[]).outcome.Done?
    ensures Ready(Document(Root, Root, YFirst(order)), Root, map[], map[])
    ensures Resolve(Document(Root, Root, YFirst(order)), Root, [], map[], map[]).outcome == Done(Some(Result))
  {
    hide Resolve, Lookable, Settles, Fit;
    RootIsWellFormed();
    RootIsLookable();
    NotSettled();
    SucceedsExactly(Root, ByNode, order);
    YFirstIsOrdering(order);
    SucceedsExactly(Root, ByNode, YFirst(order));
    DocumentsSound(Root, YFirst(order));
    Parts();
    DocumentResolves(Document(Root, Root, YFirst(order)));
  }
}
