/** Whole documents with `+=` steps, and entries that refer to the extended key. */
module SelfReferenceDocuments {
  import opened ConfigValues
  import opened MergeAlgebra
  import opened Measures
  import opened Resolution
  import opened Lookups
  import opened Visibility
  import opened MemoAgreement
  import opened Denotation
  import opened MemoFree
  import opened SelfReference
  import opened SelfReferenceRuns

  /** The other entries as they resolve, and the key and the references to it with the list and the
      appended values. */
  ghost function Result(e: Extension): (r: map<string, Value>)
    requires |e.steps| >= 1
  {
    var list := Expected(e, |e.steps|);
    (Full(Object(e.others, false), OwnRefs(e)).value.fields + (map k | k in e.readers :: list))[e.key := list]
  }

  /** The entries that hold the list: the key, and the references to it. */
  predicate Hot(e: Extension, k: string) {
    k == e.key || k in e.readers
  }

  /** What an entry of the document resolves to. */
  ghost function EntryResult(e: Extension, k: string): (r: Option<Value>)
    requires |e.steps| >= 1 && k in Root(e).fields
  {
    if Hot(e, k) then Some(Expected(e, |e.steps|)) else Full(e.others[k], OwnRefs(e))
  }

  lemma ResultEntries(e: Extension)
    requires Plausible(e) && e.key !in e.others
    ensures forall k | k in Result(e) :: k in Root(e).fields && EntryResult(e, k) == Some(Result(e)[k])
    ensures forall k | k in Root(e).fields && EntryResult(e, k).Some? :: k in Result(e)
  {
    hide Expected, OwnRefs, Held, Stack;
  }

  /** What is remembered once the list has been resolved. */
  ghost predicate Late(e: Extension, memos: Memos)
    requires |e.steps| >= 1
  {
    Settled(e, 0, memos) && Get(memos, MemoKey(Held(e, |e.steps|), [])) == Some(Expected(e, |e.steps|))
  }

  /** What may be remembered while entries are visited, before and after the first that holds the list. */
  ghost predicate Visited(e: Extension, early: bool, memos: Memos)
    requires |e.steps| >= 1
  {
    if early then Known(WorldFor(e, true), memos) && Clear(WorldFor(e, true), memos) else Late(e, memos)
  }

  lemma EntryResolves(e: Extension, k: string, early: bool, memos: Memos)
    requires Given(e, map[]) && k in Root(e).fields && Visited(e, early, memos)
    ensures Ready(Src(e), Root(e).fields[k], map[], memos)
    ensures var a := Resolve(Src(e), Root(e).fields[k], [], map[], memos);
      && a.outcome == Done(EntryResult(e, k)) && Visited(e, early && !Hot(e, k), a.memos)
  {
    hide Given, Visited, Late, Resolve, MemosOk, Fit, Src, WorldFor, Expected, Full, OwnRefs, Held, Plausible;
    GivenPlausible(e, map[]);
    if k == e.key {
      KeyResolves(e, early, memos);
    } else if k in e.readers {
      ReaderResolves(e, k, early, memos);
    } else {
      OtherResolves(e, k, early, memos);
    }
  }

  lemma StartAnew(e: Extension, memos: Memos)
    requires Given(e, map[]) && Visited(e, true, memos)
    ensures Given(e, memos)
  {
    hide Stated, Settles, Known, Clear;
  }

  /** A full result is remembered. */
  lemma ResolveRemembers(src: Source, v: Value, table: Replacements, memos: Memos)
    requires Ready(src, v, table, memos) && src.remembers
    ensures var a := Resolve(src, v, [], table, memos);
      a.outcome.Done? && a.outcome.value.Some? ==> Get(a.memos, MemoKey(v, [])) == a.outcome.value
  {
  }

  lemma LateAnswers(e: Extension, table: Replacements, memos: Memos)
    requires Given(e, map[]) && Late(e, memos) && TableOk(table) && (table == map[] || ReferenceInFlight(table))
    ensures Ready(Src(e), Held(e, |e.steps|), table, memos)
    ensures Resolve(Src(e), Held(e, |e.steps|), [], table, memos) == Answer(Done(Some(Expected(e, |e.steps|))), memos)
  {
    hide Given, Stated, Held, Expected, Agrees, MemosOk, WellFormed, RefsIn, Weight;
    GivenPlausible(e, map[]);
    AtLeastOne(e);
    SrcSound(e);
    HeldFit(e, |e.steps|);
    KnownAnswers(Src(e), Held(e, |e.steps|), table, memos);
  }

  /** The list resolved for the first time, for the entry itself or on behalf of a reference. */
  lemma FirstTime(e: Extension, outer: Replacements, start: Memos, memos: Memos)
    requires Given(e, start) && Outside(e, outer) && Quiet(e, start, memos)
    ensures Ready(Src(e), Held(e, |e.steps|), outer, memos)
    ensures var a := Resolve(Src(e), Held(e, |e.steps|), [], outer, memos);
      a.outcome == Done(Some(Expected(e, |e.steps|))) && Late(e, a.memos)
  {
    hide Given, Stated, Resolve, Ready, Held, Known, Expected, Src, WorldFor, Plausible, Outside, Quiet;
    GivenPlausible(e, start);
    AtLeastOne(e);
    var n := |e.steps|;
    assert Busy(e, outer, n) == outer;
    HeldReady(e, outer, start, n, memos);
    var _ := HeldResolves(e, outer, start, n, memos);
    ResolveRemembers(Src(e), Held(e, n), outer, memos);
  }

  lemma KeyResolves(e: Extension, early: bool, memos: Memos)
    requires Given(e, map[]) && Visited(e, early, memos)
    ensures Ready(Src(e), Held(e, |e.steps|), map[], memos)
    ensures var a := Resolve(Src(e), Held(e, |e.steps|), [], map[], memos);
      a.outcome == Done(Some(Expected(e, |e.steps|))) && Visited(e, false, a.memos)
  {
    hide Given, Resolve, Ready, Held, Late, Known, Clear, Expected, Src, WorldFor;
    if early {
      StartAnew(e, memos);
      NothingOutside(e);
      FirstTime(e, map[], memos, memos);
    } else {
      LateAnswers(e, map[], memos);
    }
  }

  /** The state in which a reference to the key is looked up. */
  lemma ReaderReady(e: Extension, n: Value, memos: Memos)
    requires Given(e, map[]) && n in e.readers.Values && MemosOk(Src(e), memos)
    ensures n.Reference? && n.path == [e.key] && n.prefixLength == 0 && High(e, n)
    ensures Ready(Src(e), n, map[], memos)
    ensures var outer: Replacements := map[n := CycleReplacer];
      Ready(Src(e), n, outer, memos) && Outside(e, outer) && ReferenceInFlight(outer) && TableOk(outer)
    ensures map[][n := CycleReplacer] == map[n := CycleReplacer]
  {
    hide Given, Stated, MemosOk, Known, Clear, NodeLookable, Src;
    GivenPlausible(e, map[]);
    GivenStated(e, map[]);
    var k :| k in e.readers && e.readers[k] == n;
    ReaderFit(e, k);
    ReaderIsHigh(e, n);
    var outer: Replacements := map[n := CycleReplacer];
    assert map[][n := CycleReplacer] == outer;
    ReferenceReady(Src(e), n, map[], memos);
    assert n in outer;
  }

  /** What looking the key up gives a reference. */
  lemma ReaderAnswered(e: Extension, n: Value, memos: Memos, found: Answer<Option<Value>>)
    requires Given(e, map[]) && n in e.readers.Values && MemosOk(Src(e), memos) && Recall(memos, n, []).None?
    requires n.Reference? && Ready(Src(e), n, map[n := CycleReplacer], memos)
    requires LookupSubst(Src(e), n, [], map[n := CycleReplacer], memos) == found
    requires found.outcome == Done(Some(Expected(e, |e.steps|))) && Late(e, found.memos)
    ensures Ready(Src(e), n, map[], memos)
    ensures var a := Resolve(Src(e), n, [], map[], memos);
      a.outcome == Done(Some(Expected(e, |e.steps|))) && Late(e, a.memos)
  {
    hide Given, Stated, MemosOk, Fit, Weight, LookupSubst, Expected, High, Resolved, Settled, Plausible;
    GivenPlausible(e, map[]);
    AtLeastOne(e);
    ReaderReady(e, n, memos);
    ExpectedResolved(e, |e.steps|);
    var src, list := Src(e), Some(Expected(e, |e.steps|));
    var a := ResolveReference(src, n, [], map[], memos);
    assert a == found;
    assert !Resolved(n) by { ReferencesAreUnresolved(n); }
    ResolveFresh(src, n, [], map[], memos);
    assert ResolveSubstitutions(src, n, [], map[], memos) == a;
    HighPut(e, 0, found.memos, n, list);
    HeldIsNoReference(e);
  }

  lemma ReferencesAreUnresolved(n: Value)
    requires n.Reference?
    ensures !Resolved(n)
  {
  }

  lemma HeldIsNoReference(e: Extension)
    requires Plausible(e)
    ensures !Held(e, |e.steps|).Reference?
  {
    StackAt(e, |e.steps|, 0);
  }

  lemma ReaderResolves(e: Extension, k: string, early: bool, memos: Memos)
    requires Given(e, map[]) && k in e.readers && Visited(e, early, memos)
    ensures Ready(Src(e), e.readers[k], map[], memos)
    ensures var a := Resolve(Src(e), e.readers[k], [], map[], memos);
      a.outcome == Done(Some(Expected(e, |e.steps|))) && Visited(e, false, a.memos)
  {
    hide Given, Late, Resolve, Ready, Known, Clear, Expected, Src, WorldFor, MemosOk;
    assert e.readers[k] in e.readers.Values;
    if early {
      EarlyReader(e, e.readers[k], memos);
    } else {
      LateReader(e, e.readers[k], memos);
    }
  }

  lemma EarlyReader(e: Extension, n: Value, memos: Memos)
    requires Given(e, map[]) && n in e.readers.Values && Visited(e, true, memos)
    ensures Ready(Src(e), n, map[], memos)
    ensures var a := Resolve(Src(e), n, [], map[], memos);
      a.outcome == Done(Some(Expected(e, |e.steps|))) && Late(e, a.memos)
  {
    hide Given, Stated, Late, Resolve, Fit, MemosOk, Agrees, Expected, Held, Src, Writable, High, Plausible, Outside;
    hide Readable;
    GivenPlausible(e, map[]);
    AtLeastOne(e);
    StartAnew(e, memos);
    KnownIsOk(e, memos);
    ReaderReady(e, n, memos);
    HighKey(e, n, []);
    assert MemoKey(n, []) !in memos;
    var outer: Replacements := map[n := CycleReplacer];
    KeyLookup(e, memos, n, outer, memos);
    PrimedIsQuiet(e, memos);
    FirstTime(e, outer, memos, Primed(e, memos));
    ReaderAnswered(e, n, memos, Resolve(Src(e), Held(e, |e.steps|), [], outer, Primed(e, memos)));
  }

  lemma LateReader(e: Extension, n: Value, memos: Memos)
    requires Given(e, map[]) && n in e.readers.Values && Late(e, memos)
    ensures Ready(Src(e), n, map[], memos)
    ensures var a := Resolve(Src(e), n, [], map[], memos);
      a.outcome == Done(Some(Expected(e, |e.steps|))) && Late(e, a.memos)
  {
    hide Given, Stated, Resolve, Fit, MemosOk, Agrees, Expected, Held, Src, High, Plausible, Outside;
    GivenPlausible(e, map[]);
    AtLeastOne(e);
    KnownIsOk(e, memos);
    ReaderReady(e, n, memos);
    if Get(memos, MemoKey(n, [])).Some? {
      KnownAnswers(Src(e), n, map[], memos);
    } else {
      var outer: Replacements := map[n := CycleReplacer];
      LateLookup(e, n, outer, memos);
      ReaderAnswered(e, n, memos, LookupSubst(Src(e), n, [], outer, memos));
    }
  }

  /** Once the list is known, a reference to the key is answered from memory. */
  lemma LateLookup(e: Extension, n: Value, table: Replacements, memos: Memos)
    requires Given(e, map[]) && Late(e, memos) && n.Reference? && n.path == [e.key] && n.prefixLength == 0
    requires n in table && Ready(Src(e), n, table, memos)
    ensures var a := LookupSubst(Src(e), n, [], table, memos);
      a.outcome == Done(Some(Expected(e, |e.steps|))) && Late(e, a.memos)
  {
    hide Given, Stated, Resolve, Expected, Held, MemosOk, Weight, Lawful, Contained, WellFormed, RefsIn, Plausible;
    hide Agrees;
    GivenPlausible(e, map[]);
    AtLeastOne(e);
    var src, root := Src(e), Root(e);
    var primed := memos[MemoKey(root, [e.key]) := Some(root)];
    assert ReferenceInFlight(table);
    LateRoot(e, table, memos);
    LatePrimed(e, memos);
    LateAnswers(e, table, primed);
    assert PeekPath(root, [e.key]) == Found(Some(Held(e, |e.steps|)));
    assert FindInRoot(src, [e.key], table, memos) == Answer(Done(Some(Held(e, |e.steps|))), primed);
  }

  lemma LateRoot(e: Extension, table: Replacements, memos: Memos)
    requires Given(e, map[]) && Late(e, memos) && TableOk(table) && ReferenceInFlight(table)
    ensures Sound(Src(e)) && Ready(Src(e), Root(e), table, memos)
    ensures Resolve(Src(e), Root(e), [e.key], table, memos) ==
      Answer(Done(Some(Root(e))), memos[MemoKey(Root(e), [e.key]) := Some(Root(e))])
  {
    hide Given, Stated, Expected, Held, MemosOk, Weight, WellFormed, RefsIn, Plausible, Agrees, Resolved;
    GivenPlausible(e, map[]);
    AtLeastOne(e);
    SrcSound(e);
    RootFit(e, table);
    KnownIsOk(e, memos);
    if MemoKey(Root(e), [e.key]) in memos {
      assert Recall(memos, Root(e), [e.key]) == Some(Root(e));
      assert memos[MemoKey(Root(e), [e.key]) := Some(Root(e))] == memos;
    } else {
      RootAlong(e, table, memos);
    }
  }

  lemma LatePrimed(e: Extension, memos: Memos)
    requires Given(e, map[]) && Late(e, memos)
    ensures Late(e, memos[MemoKey(Root(e), [e.key]) := Some(Root(e))])
  {
    hide Given, Stated, Expected, Known, Readable, Legal, Held, Writable;
    GivenPlausible(e, map[]);
    AtLeastOne(e);
    RootKeys(e);
    RootIsLegal(e);
    UnreadablePut(WorldFor(e, true), memos, MemoKey(Root(e), [e.key]), Some(Root(e)));
    HeldFit(e, |e.steps|);
    forall n | n in e.readers.Values ensures n != Root(e) {
      ReaderIsHigh(e, n);
    }
  }

  lemma RootIsLegal(e: Extension)
    requires Stated(e)
    ensures Legal(Src(e), Root(e), [e.key])
  {
    hide Stated, Held, Src, Resolved, WellFormed, RefsIn;
    StatedPlausible(e);
    SrcSound(e);
    HeldFit(e, |e.steps|);
  }

  lemma OtherResolves(e: Extension, k: string, early: bool, memos: Memos)
    requires Given(e, map[]) && k in e.others && Visited(e, early, memos)
    ensures Ready(Src(e), e.others[k], map[], memos)
    ensures var a := Resolve(Src(e), e.others[k], [], map[], memos);
      a.outcome == Done(Full(e.others[k], OwnRefs(e))) && Visited(e, early, a.memos)
  {
    hide Given, Known, Resolve, MemosOk, Fit, Src, Full, OwnRefs, Writable, Part, Stated, WorldFor, Held, Expected;
    hide High;
    hide Plausible;
    GivenPlausible(e, map[]);
    AtLeastOne(e);
    OthersArePart(e);
    NothingInFlight(e, e.others[k]);
    if early {
      ClearForgets(e, memos);
    }
    PartResolves(e, map[], 0, e.others[k], map[], memos);
    StepValuesHigh(e, |e.steps|);
    HighKey(e, Held(e, |e.steps|), []);
  }

  lemma NothingInFlight(e: Extension, v: Value)
    ensures HighTable(e, map[]) && Shielded(map[], v)
  {
  }

  /** Every entry that holds the list is still to be visited. */
  predicate Ahead(e: Extension, keys: seq<string>) {
    e.key in keys && forall k | k in e.readers :: k in keys
  }

  lemma OneVisited(e: Extension, keys: seq<string>)
    requires keys != [] && forall i, j | 0 <= i < j < |keys| :: keys[i] != keys[j]
    ensures Ahead(e, keys[1..]) <==> Ahead(e, keys) && !Hot(e, keys[0])
  {
    assert keys[0] !in keys[1..];
    assert forall k | k in keys && k != keys[0] :: k in keys[1..];
    assert forall k | k in keys[1..] :: k in keys;
  }

  lemma {:induction false} EntriesResolve(e: Extension, keys: seq<string>, kept: map<string, Value>, memos: Memos)
    requires Given(e, map[]) && Ready(Src(e), Root(e), map[], memos) && Visited(e, Ahead(e, keys), memos)
    requires forall k | k in Root(e).fields ::
      Fit(Src(e), Root(e).fields[k], map[]) && Weight(Root(e).fields[k]) < Weight(Root(e))
    requires forall i | 0 <= i < |keys| :: keys[i] in Root(e).fields
    requires forall i, j | 0 <= i < j < |keys| :: keys[i] != keys[j]
    requires FieldsLegal(Src(e), [], kept)
    requires forall k | k in kept :: k in Root(e).fields && EntryResult(e, k) == Some(kept[k])
    requires forall k | k in Root(e).fields :: k in kept || k in keys || EntryResult(e, k).None?
    ensures ResolveFields(Src(e), Root(e), keys, kept, [], map[], memos).outcome == Done(Result(e))
    decreases |keys|
  {
    hide Resolve, Fit, MemosOk, Weight, Given, Contained, Visited, Stated, Src, Held, EntryResult, Result, FieldLegal;
    hide Plausible, Ahead, Hot, ResolveFields, FieldsLegal;
    GivenPlausible(e, map[]);
    AtLeastOne(e);
    FieldsStep(Src(e), Root(e), keys, kept, map[], memos);
    if keys == [] {
      KeptIsResult(e, map[], kept);
    } else {
      var key := keys[0];
      EntryResolves(e, key, Ahead(e, keys), memos);
      OneVisited(e, keys);
      var child := Resolve(Src(e), Root(e).fields[key], [], map[], memos);
      EntriesResolve(e, keys[1..], Kept(kept, key, child.outcome.value), child.memos);
    }
  }

  lemma KeptIsResult(e: Extension, start: Memos, kept: map<string, Value>)
    requires Given(e, start)
    requires forall k | k in kept :: k in Root(e).fields && EntryResult(e, k) == Some(kept[k])
    requires forall k | k in Root(e).fields :: k in kept || EntryResult(e, k).None?
    ensures kept == Result(e)
  {
    hide Given, Root, EntryResult, Result;
    GivenPlausible(e, start);
    StatedPlausible(e);
    ResultEntries(e);
  }

  /** A document of this kind resolves, in every visiting order, to its other entries as they resolve
      by themselves, with the key and every reference to it holding the elements of what it was first
      set to followed by the appended values in order. */
  lemma DocumentResolves(e: Extension)
    requires Given(e, map[])
    ensures Ready(Src(e), Root(e), map[], map[])
    ensures Resolve(Src(e), Root(e), [], map[], map[]).outcome == Done(Some(Object(Result(e), false)))
  {
    hide Weight, Stack, RefsIn, WellFormed, Legal, Contained, ResolveFields, Given, Stated, Result, EntryResult;
    hide Known, Clear, Ahead, Plausible;
    hide Resolved, Coherent, Apart, Agrees, MemosOk, Resolve, Held, Visited;
    GivenStated(e, map[]);
    AtLeastOne(e);
    NothingRemembered(e, map[]);
    SrcSound(e);
    var src, root := Src(e), Root(e);
    ObjectParts(src, root, map[]);
    OrderedKeys(src.order, root.fields.Keys);
    EachKeyOnce(src.order, root.fields.Keys);
    AllAhead(e, src.order(root.fields.Keys));
    EntriesResolve(e, src.order(root.fields.Keys), map[], map[]);
    ResolveFresh(src, root, [], map[], map[]);
    var a := ResolveObject(src, root, [], map[], map[]);
    assert ResolveSubstitutions(src, root, [], map[], map[]) == a;
    ResultResolved(e);
  }

  lemma AllAhead(e: Extension, keys: seq<string>)
    requires |e.steps| >= 1 && forall k | k in Root(e).fields :: k in keys
    ensures Ahead(e, keys)
  {
    hide Held;
    assert e.key in Root(e).fields && forall k | k in e.readers :: k in Root(e).fields;
  }

  lemma NothingRemembered(e: Extension, memos: Memos)
    requires 1 <= |e.steps| && memos == map[]
    ensures MemosOk(Src(e), memos) && Visited(e, true, memos)
  {
  }

  lemma ResultResolved(e: Extension)
    requires |e.steps| >= 1
    ensures Resolved(Object(Result(e), false))
  {
    hide Expected;
    ExpectedResolved(e, |e.steps|);
    OwnRefsAssign(e);
    FullResolved(Object(e.others, false), OwnRefs(e));
  }

  // ---------------------------------------------------------------- parts that resolve

  /** The parts of the document, resolved in it without memos. */
  ghost function PartsAlone(e: Extension): (a: Answer<Option<Value>>)
    requires Stated(e) && Ready(Src(e).(remembers := false), Parts(e), map[], map[])
  {
    Resolve(Src(e).(remembers := false), Parts(e), [], map[], map[])
  }

  lemma PartsReady(e: Extension)
    requires Stated(e)
    ensures Ready(Src(e).(remembers := false), Parts(e), map[], map[])
    ensures Coherent(WorldFor(e, false).(src := Src(e).(remembers := false)))
    ensures Calm(WorldFor(e, false).(src := Src(e).(remembers := false)), e.top, Parts(e), [], map[])
  {
    hide Stated, Coherent, Apart, Plausible, Parts, Root, Meant;
    StatedPlausible(e);
    AtLeastOne(e);
    SrcSound(e);
    MeantFacts(e);
    PartsArePart(e);
    WorldIsCoherent(e, false);
    var w := WorldFor(e, false).(src := Src(e).(remembers := false));
    SameCoherent(WorldFor(e, false), w);
    NoPathVisible(w.sense, Parts(e), e.top);
  }

  /** If what the key is first set to, the appended values and the other entries resolve without
      memos, the document with all its `+=` steps resolves, with memos and in every visiting order:
      to the other entries as they resolve, and for the key and every entry that refers to it the
      elements of what the key was first set to followed by the appended values in order. */
  lemma DocumentWithPlusEquals(e: Extension)
    requires Stated(e)
    ensures Ready(Src(e).(remembers := false), Parts(e), map[], map[])
    ensures PartsAlone(e).outcome.Done? ==>
      && PartsAlone(e).outcome == Done(Full(Parts(e), OwnRefs(e)))
      && Given(e, map[]) && Ready(Src(e), Root(e), map[], map[])
      && Resolve(Src(e), Root(e), [], map[], map[]).outcome == Done(Some(Object(Result(e), false)))
  {
    hide Stated, Coherent, Resolve, Result, Settles, Full, Calm, Right, Extends, OwnRefs, Root;
    StatedPlausible(e);
    PartsReady(e);
    var w := WorldFor(e, false).(src := Src(e).(remembers := false));
    if PartsAlone(e).outcome.Done? {
      SuccessSettles(w, e.top, Parts(e), map[], map[]);
      AgreeResolve(w, e.top, Parts(e), [], map[], map[]);
      FullAnswer(w, Parts(e), PartsAlone(e).outcome, map[]);
      PartsArePart(e);
      PartMeans(e, Parts(e));
      DocumentResolves(e);
    }
  }

  // ---------------------------------------------------------------- the outermost resolve

  lemma {:induction false} ResolvedHasNoNodes(v: Value)
    requires Resolved(v)
    ensures References(v) == {}
    decreases v
  {
    match v
    case List(items) =>
      forall i | 0 <= i < |items| ensures References(items[i]) == {} { ResolvedHasNoNodes(items[i]); }
    case Object(fields, _) =>
      forall k | k in fields ensures References(fields[k]) == {} { ResolvedHasNoNodes(fields[k]); }
    case _ =>
  }

  /** The nodes of what is appended by the first `k` steps. */
  ghost function AddedNodes(e: Extension, k: nat): (r: set<Value>)
    requires k <= |e.steps|
  {
    set j, n | 1 <= j <= k && n in References(Added(e, j)) :: n
  }

  ghost function BaseNodes(e: Extension): (r: set<Value>) {
    if e.base.Some? then References(e.base.value) else {}
  }

  lemma StepReferences(e: Extension, k: nat)
    requires Plausible(e) && 1 <= k <= |e.steps|
    ensures References(Step(e, k)) == {Step(e, k), Ref(e, k)} + References(Added(e, k))
  {
    RefFit(e, k);
    var step, list := Step(e, k), List([Added(e, k)]);
    assert list.items[0] == Added(e, k);
    assert References(list) == References(Added(e, k));
    assert step.pieces[0] == Ref(e, k) && step.pieces[1] == list;
    assert References(Ref(e, k)) == {Ref(e, k)};
    forall n ensures n in References(step) <==> n in {step, Ref(e, k)} + References(Added(e, k)) {
      if n in References(list) {
        assert n in References(step.pieces[1]);
      }
      if n == Ref(e, k) {
        assert n in References(step.pieces[0]);
      }
    }
  }

  ghost function NodesOfStep(e: Extension, k: nat): (r: set<Value>)
    requires 1 <= k <= |e.steps|
  {
    {Step(e, k), Ref(e, k)} + References(Added(e, k))
  }

  lemma LayerNodes(e: Extension, i: nat)
    requires Plausible(e) && i < |Stack(e, |e.steps|)|
    ensures References(Stack(e, |e.steps|)[i]) == if i < |e.steps| then NodesOfStep(e, |e.steps| - i) else BaseNodes(e)
  {
    hide References, Plausible;
    StackAt(e, |e.steps|, i);
    if i < |e.steps| {
      StepReferences(e, |e.steps| - i);
    }
  }

  /** The nodes of the steps are those of the single steps. */
  lemma StepNodesExactly(e: Extension, n: Value)
    ensures n in StepNodes(e) + AddedNodes(e, |e.steps|) <==> exists k :: 1 <= k <= |e.steps| && n in NodesOfStep(e, k)
  {
    hide References;
    if n in StepNodes(e) + AddedNodes(e, |e.steps|) {
      var k :| 1 <= k <= |e.steps| && (n == Ref(e, k) || n == Step(e, k) || n in References(Added(e, k)));
      assert n in NodesOfStep(e, k);
    }
  }

  lemma HeldReferences(e: Extension, n: Value)
    requires Plausible(e)
    ensures n in References(Held(e, |e.steps|)) <==> n in StepNodes(e) + AddedNodes(e, |e.steps|) + BaseNodes(e)
  {
    hide References, NodesOfStep, StepNodes, AddedNodes, BaseNodes, Plausible;
    AtLeastOne(e);
    var top := |e.steps|;
    var stack := Stack(e, top);
    StackedReferences(stack, n);
    StepNodesExactly(e, n);
    if n in References(Stacked(stack)) {
      var i :| 0 <= i < |stack| && n in References(stack[i]);
      LayerNodes(e, i);
    }
    if k :| 1 <= k <= top && n in NodesOfStep(e, k) {
      LayerNodes(e, top - k);
      assert n in References(stack[top - k]);
    }
    if n in BaseNodes(e) {
      assert e.base.Some? by { NoBase(e, n); }
      LayerNodes(e, top);
      assert n in References(stack[top]);
    }
  }

  lemma NoBase(e: Extension, n: Value)
    requires n in BaseNodes(e)
    ensures e.base.Some?
  {
  }

  lemma StackedReferences(stack: seq<Value>, n: Value)
    requires stack != []
    ensures n in References(Stacked(stack)) <==> exists i :: 0 <= i < |stack| && n in References(stack[i])
  {
    if |stack| == 1 {
      assert Stacked(stack) == stack[0];
      if n in References(Stacked(stack)) {
        assert n in References(stack[0]);
      }
    }
  }

  lemma PartsReferences(e: Extension, n: Value)
    ensures n in References(Parts(e)) <==>
      n in BaseNodes(e) + AddedNodes(e, |e.steps|) + References(Object(e.others, false))
  {
    hide Values;
    var top, base, items := |e.steps|, Present(e.base), Parts(e).items;
    var values := Values(e, top);
    assert items == base + values + [Object(e.others, false)];
    forall k | 1 <= k <= top ensures values[k - 1] == Added(e, k) == items[|base| + k - 1] {
      ValuesAt(e, top, k);
    }
    if n in References(Parts(e)) {
      var i :| 0 <= i < |items| && n in References(items[i]);
      if |base| <= i < |base| + top {
        assert n in References(Added(e, i - |base| + 1));
      }
    }
    if n in BaseNodes(e) {
      assert n in References(items[0]);
    }
    if n in AddedNodes(e, top) {
      var k :| 1 <= k <= top && n in References(Added(e, k));
      assert n in References(items[|base| + k - 1]);
    }
    if n in References(Object(e.others, false)) {
      assert n in References(items[|base| + top]);
    }
  }

  lemma RootReferences(e: Extension, n: Value)
    requires Plausible(e) && e.key !in e.others
    ensures n in References(Root(e)) <==>
      n in References(Held(e, |e.steps|)) + e.readers.Values + References(Object(e.others, false))
  {
    hide Held;
    var fields := Root(e).fields;
    forall k | k in e.readers ensures fields[k] == e.readers[k] && References(fields[k]) == {e.readers[k]} {
      ReaderFit(e, k);
    }
    if n in References(Held(e, |e.steps|)) {
      assert n in References(fields[e.key]);
    }
    if n in e.readers.Values {
      var k :| k in e.readers && e.readers[k] == n;
      assert n in References(fields[k]);
    }
    if n in References(Object(e.others, false)) {
      var k :| k in e.others && n in References(e.others[k]);
      assert fields[k] == e.others[k];
    }
    if n in References(Root(e)) {
      var k :| k in fields && n in References(fields[k]);
      assert k in e.others && k !in e.readers && k != e.key ==> fields[k] == e.others[k];
    }
  }

  /** This is the document of an outermost resolve. */
  lemma SrcIsDocument(e: Extension)
    requires Plausible(e) && e.key !in e.others
    ensures Src(e) == Document(Root(e), Root(e), e.order)
  {
    hide References, Held, Parts, StepNodes, AddedNodes, BaseNodes;
    forall n ensures n in Src(e).nodes <==> n in References(Root(e)) {
      RootReferences(e, n);
      HeldReferences(e, n);
      PartsReferences(e, n);
    }
    assert Src(e).nodes == References(Root(e));
  }

  /** In particular: a document without other substitutions. */
  lemma PlainDocument(e: Extension)
    requires Plausible(e) && Ordering(e.order) && e.key !in e.others && e.top == 0 && Resolved(Parts(e))
    requires e.base.Some? ==> e.base.value.List?
    ensures Ready(Document(Root(e), Root(e), e.order), Root(e), map[], map[])
    ensures var list := List((if e.base.Some? then e.base.value.items else []) + Values(e, |e.steps|));
      Resolve(Document(Root(e), Root(e), e.order), Root(e), [], map[], map[]).outcome ==
        Done(Some(Object((e.others + (map k | k in e.readers :: list))[e.key := list], false)))
  {
    hide Resolve, Held, Resolved, Full, FullItems, OwnRefs, References;
    ResolvedHasNoNodes(Parts(e));
    ResolvedIsWellFormed(Parts(e));
    PlainParts(e);
    assert Stated(e);
    DocumentWithPlusEquals(e);
    PartsReady(e);
    PlainResolves(Src(e).(remembers := false), Parts(e));
    SrcIsDocument(e);
    var list := List((if e.base.Some? then e.base.value.items else []) + Values(e, |e.steps|));
    assert Expected(e, |e.steps|) == list;
    assert Result(e) == (e.others + (map k | k in e.readers :: list))[e.key := list];
  }

  lemma PlainResolves(src: Source, v: Value)
    requires Resolved(v) && Ready(src, v, map[], map[])
    ensures Resolve(src, v, [], map[], map[]).outcome.Done?
  {
    ResolveFresh(src, v, [], map[], map[]);
  }

  lemma PlainParts(e: Extension)
    requires |e.steps| >= 1 && Resolved(Parts(e))
    ensures e.base.Some? ==> Full(e.base.value, OwnRefs(e)) == Some(e.base.value)
    ensures FullItems(Values(e, |e.steps|), OwnRefs(e)) == Values(e, |e.steps|)
    ensures Full(Object(e.others, false), OwnRefs(e)) == Some(Object(e.others, false))
  {
    hide Full, OwnRefs, Values;
    var refs, items := OwnRefs(e), Parts(e).items;
    var base, values := Present(e.base), Values(e, |e.steps|);
    assert forall i | 0 <= i < |items| :: Resolved(items[i]);
    if e.base.Some? {
      assert items[0] == e.base.value;
      PlainFull(e.base.value, refs);
    }
    assert items[|items| - 1] == Object(e.others, false);
    PlainFull(Object(e.others, false), refs);
    forall i | 0 <= i < |values| ensures Resolved(values[i]) {
      assert items[|base| + i] == values[i];
    }
    ItemsAreFull(values, refs);
    ResolvedItems(values, EnvOf(refs));
  }

  lemma PlainFull(v: Value, refs: Env)
    requires Resolved(v)
    ensures Full(v, refs) == Some(v)
  {
    MeaningIsFull(v, refs);
    ResolvedMeansItself(v, EnvOf(refs));
  }
}
