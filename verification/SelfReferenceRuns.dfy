/** Resolving a document with `+=` steps: what is in flight and what is remembered on the way down to
    what the key was first set to and back up again. */
module SelfReferenceRuns {
  import opened ConfigValues
  import opened MergeAlgebra
  import opened Concatenations
  import opened Measures
  import opened Resolution
  import opened Ranks
  import opened Visibility
  import opened MemoAgreement
  import opened Denotation
  import opened MemoFree
  import opened SelfReference

  // ---------------------------------------------------------------- memos

  ghost predicate High(e: Extension, v: Value) {
    forall r :: !Bounded(v, r, e.rank, e.top)
  }

  lemma StepValuesHigh(e: Extension, k: nat)
    requires Stated(e) && 1 <= k <= |e.steps|
    ensures High(e, Ref(e, k)) && High(e, Step(e, k)) && High(e, Held(e, k))
  {
    hide Stated;
    StatedPlausible(e);
    forall r ensures !Bounded(Ref(e, k), r, e.rank, e.top) && !Bounded(Step(e, k), r, e.rank, e.top)
      && !Bounded(Held(e, k), r, e.rank, e.top)
    {
      StepsAreHigh(e, k, r);
    }
  }

  lemma HighKey(e: Extension, v: Value, r: Path)
    requires 1 <= |e.steps| && High(e, v)
    ensures !Readable(WorldFor(e, true), MemoKey(v, r)) && !Writable(WorldFor(e, true), MemoKey(v, r))
  {
  }

  /** What is remembered of the root as a whole, or along the key, concerns the steps. */
  lemma RootKeys(e: Extension)
    requires Stated(e)
    ensures !Readable(WorldFor(e, true), MemoKey(Root(e), [e.key]))
    ensures !Writable(WorldFor(e, true), MemoKey(Root(e), [e.key]))
    ensures !Writable(WorldFor(e, true), MemoKey(Root(e), []))
  {
    hide Stated, AllBelow;
    StatedPlausible(e);
    var n := |e.steps|;
    StepValuesHigh(e, n);
    HeldFit(e, n);
    var root := Root(e);
    assert root.fields[e.key] == Held(e, n);
    assert [e.key][1..] == [];
    assert !Bounded(Held(e, n), [], e.rank, e.top);
    assert !Bounded(root, [e.key], e.rank, e.top);
    assert !AllBelow(root, e.rank, e.top) by { RootIsHigh(e); }
    forall r | r != [] && Bounded(root, r, e.rank, e.top) ensures Anchored(root, r) {
      assert !Bounded(Held(e, n), r[1..], e.rank, e.top);
      assert e.key in root.fields && e.key != r[0];
    }
  }

  lemma RootIsHigh(e: Extension)
    requires Stated(e)
    ensures !AllBelow(Root(e), e.rank, e.top)
  {
    hide Stated;
    StatedPlausible(e);
    StepsAreHigh(e, |e.steps|, []);
    assert !AllBelow(Root(e).fields[e.key], e.rank, e.top);
  }

  /** The memos on the way down: none of the steps, or only that the root has nothing to resolve
      along the key. */
  function Primed(e: Extension, start: Memos): (r: Memos)
    requires |e.steps| >= 1
  {
    start[MemoKey(Root(e), [e.key]) := Some(Root(e))]
  }

  predicate Quiet(e: Extension, start: Memos, memos: Memos)
    requires |e.steps| >= 1
  {
    memos == start || memos == Primed(e, start)
  }

  lemma GivenStated(e: Extension, start: Memos)
    requires Given(e, start)
    ensures Stated(e) && Plausible(e) && Apart(e) && Coherent(WorldFor(e, true)) && Sound(Src(e))
    ensures Known(WorldFor(e, true), start) && Clear(WorldFor(e, true), start)
  {
    hide Stated, Settles, Coherent, Known, Clear;
    StatedPlausible(e);
    WorldIsCoherent(e, true);
    SrcSound(e);
  }

  lemma GivenPlausible(e: Extension, start: Memos)
    requires Given(e, start)
    ensures Stated(e) && Plausible(e) && Src(e).remembers
  {
  }

  lemma QuietOk(e: Extension, start: Memos, memos: Memos)
    requires Given(e, start) && Quiet(e, start, memos)
    ensures Known(WorldFor(e, true), memos)
  {
    hide Given, Stated, Right, Readable, Clear;
    GivenStated(e, start);
    SrcSound(e);
    RootKeys(e);
  }

  /** Nothing about the steps is remembered on the way down. */
  lemma QuietForgets(e: Extension, start: Memos, memos: Memos, k: nat)
    requires Given(e, start) && Quiet(e, start, memos) && 1 <= k <= |e.steps|
    ensures Recall(memos, Ref(e, k), []).None? && Recall(memos, Step(e, k), []).None?
    ensures Recall(memos, Held(e, k), []).None?
  {
    hide Given, Stated, Writable, Known, High;
    GivenStated(e, start);
    StepValuesHigh(e, k);
    HighKey(e, Ref(e, k), []);
    HighKey(e, Step(e, k), []);
    HighKey(e, Held(e, k), []);
  }

  /** The memos on the way up: the first `k` steps are known, and all else is right. */
  ghost predicate Settled(e: Extension, k: nat, memos: Memos)
    requires 1 <= |e.steps| && k <= |e.steps|
  {
    && Known(WorldFor(e, true), memos)
    && (forall j | 1 <= j <= k :: Get(memos, MemoKey(Step(e, j), [])) == Some(Expected(e, j)))
    && RootKnown(e, memos) && ReadersKnown(e, memos)
  }

  /** The root is not remembered in full, and along the key at most as itself. */
  predicate RootKnown(e: Extension, memos: Memos)
    requires 1 <= |e.steps|
  {
    && MemoKey(Root(e), []) !in memos
    && (MemoKey(Root(e), [e.key]) in memos ==> memos[MemoKey(Root(e), [e.key])] == Some(Root(e)))
  }

  /** The other references to the key are remembered, if at all, as the whole list. */
  ghost predicate ReadersKnown(e: Extension, memos: Memos)
    requires 1 <= |e.steps|
  {
    forall n | n in e.readers.Values && Get(memos, MemoKey(n, [])).Some? ::
      Get(memos, MemoKey(n, [])).value == Expected(e, |e.steps|)
  }

  lemma ReaderIsHigh(e: Extension, n: Value)
    requires Stated(e) && n in e.readers.Values
    ensures n.Reference? && High(e, n)
  {
    hide NodeLookable;
    var k :| k in e.readers && e.readers[k] == n;
    ReaderFit(e, k);
  }

  lemma NoReader(e: Extension, v: Value)
    requires Plausible(e) && (v in StepRefs(e) || !v.Reference?)
    ensures v !in e.readers.Values
  {
    if v in e.readers.Values {
      var k :| k in e.readers && e.readers[k] == v;
      ReaderFit(e, k);
    }
  }

  lemma ClearForgets(e: Extension, memos: Memos)
    requires Stated(e) && Clear(WorldFor(e, true), memos)
    ensures RootKnown(e, memos) && ReadersKnown(e, memos) && MemoKey(Root(e), [e.key]) !in memos
  {
    hide Stated, Writable, High;
    StatedPlausible(e);
    RootKeys(e);
    forall n | n in e.readers.Values ensures MemoKey(n, []) !in memos {
      ReaderIsHigh(e, n);
      HighKey(e, n, []);
    }
  }

  lemma QuietSettled(e: Extension, start: Memos, memos: Memos)
    requires Given(e, start) && Quiet(e, start, memos)
    ensures Settled(e, 0, memos)
  {
    hide Given, Known, Clear, Stated;
    QuietOk(e, start, memos);
    GivenPlausible(e, start);
    GivenStated(e, start);
    ClearForgets(e, start);
    PrimedReaders(e, start);
  }

  lemma PrimedReaders(e: Extension, start: Memos)
    requires Plausible(e) && ReadersKnown(e, start)
    ensures ReadersKnown(e, Primed(e, start))
  {
    forall n | n in e.readers.Values ensures n != Root(e) {
      var k :| k in e.readers && e.readers[k] == n;
      ReaderFit(e, k);
    }
  }

  /** What no run below the top may ask for can be remembered. */
  lemma UnreadablePut(w: World, memos: Memos, key: MemoKey, value: Option<Value>)
    requires Known(w, memos) && !Readable(w, key)
    requires value.Some? ==> Legal(w.src, value.value, key.restriction)
    requires key.value.Object? ==> value.Some? && value.value.Object?
    ensures Known(w, memos[key := value])
  {
    hide Right, Readable, Legal;
  }

  /** Remembering something about a step is no memo for the rest of the document. */
  lemma HighPut(e: Extension, k: nat, memos: Memos, v: Value, value: Option<Value>)
    requires 1 <= |e.steps| && k <= |e.steps| && Settled(e, k, memos)
    requires High(e, v) && !v.Object? && (value.Some? ==> Resolved(value.value))
    requires forall j | 1 <= j <= k && v == Step(e, j) :: value == Some(Expected(e, j))
    requires v in e.readers.Values ==> value == Some(Expected(e, |e.steps|))
    ensures Settled(e, k, memos[MemoKey(v, []) := value])
  {
    hide Known, High, Held, Expected, Resolved;
    HighKey(e, v, []);
    if value.Some? {
      ResolvedLegal(Src(e), value.value, []);
    }
    UnreadablePut(WorldFor(e, true), memos, MemoKey(v, []), value);
  }

  // ---------------------------------------------------------------- the parts resolve

  /** A table of which nothing occurs in the parts of the document. */
  ghost predicate HighTable(e: Extension, table: Replacements) {
    TableOk(table) && forall key | key in table :: !AllBelow(key, e.rank, e.top)
  }

  lemma PartFit(e: Extension, start: Memos, v: Value, table: Replacements)
    requires Given(e, start) && Part(e, v) && HighTable(e, table)
    ensures Fit(Src(e), v, table) && Above(table, e.rank, e.top)
  {
    hide Given, AllBelow;
    GivenStated(e, start);
    forall key | key in table ensures !Occurs(key, v) {
      if Occurs(key, v) {
        AllBelowPart(key, v, e.rank, e.top);
        assert false;
      }
    }
    forall n | n in table && n.Reference? ensures e.top <= e.rank(n) {
      NotBelow(n, e.rank, e.top);
    }
  }

  lemma NotBelow(n: Value, rank: Rank, b: nat)
    requires n.Reference? && !AllBelow(n, rank, b)
    ensures b <= rank(n)
  {
  }

  lemma PartResolves(e: Extension, start: Memos, k: nat, v: Value, table: Replacements, memos: Memos)
    requires Given(e, start) && k <= |e.steps| && Part(e, v) && HighTable(e, table) && Shielded(table, v)
    requires Settled(e, k, memos)
    ensures Ready(Src(e), v, table, memos)
    ensures var a := Resolve(Src(e), v, [], table, memos);
      a.outcome == Done(Full(v, OwnRefs(e))) && Settled(e, k, a.memos) && Extends(WorldFor(e, true), memos, a.memos)
  {
    hide Given, Stated, Coherent, Agrees, MemosOk, Right, Extends, Resolve, Fit, Shielded;
    GivenStated(e, start);
    PartFit(e, start, v, table);
    var w := WorldFor(e, true);
    NoPathVisible(w.sense, v, e.top);
    assert Calm(w, e.top, v, [], table);
    AgreeResolve(w, e.top, v, [], table, memos);
    var a := Resolve(w.src, v, [], table, memos);
    FullAnswer(w, v, a.outcome, table);
    PartMeans(e, v);
    StepsKept(e, k, memos, a.memos);
  }

  lemma StepsKept(e: Extension, k: nat, before: Memos, after: Memos)
    requires Stated(e) && k <= |e.steps| && Settled(e, k, before) && Extends(WorldFor(e, true), before, after)
    requires Known(WorldFor(e, true), after)
    ensures Settled(e, k, after)
  {
    hide Known, Stated, Writable, High;
    StatedPlausible(e);
    RootKeys(e);
    forall n | n in e.readers.Values && Get(after, MemoKey(n, [])).Some?
      ensures Get(before, MemoKey(n, [])) == Get(after, MemoKey(n, []))
    {
      ReaderIsHigh(e, n);
      HighKey(e, n, []);
    }
    forall j | 1 <= j <= k ensures Get(after, MemoKey(Step(e, j), [])) == Some(Expected(e, j)) {
      StepValuesHigh(e, j);
      HighKey(e, Step(e, j), []);
      assert MemoKey(Step(e, j), []) in before;
    }
  }

  lemma BusyIsHigh(e: Extension, outer: Replacements, k: nat)
    requires Stated(e) && Outside(e, outer) && k <= |e.steps|
    ensures HighTable(e, Busy(e, outer, k)) && AllCored(Busy(e, outer, k))
  {
    hide Stated, AllBelow, Busy, Held;
    StatedPlausible(e);
    BusyFacts(e, outer, k);
    forall key | key in Busy(e, outer, k)
      ensures !AllBelow(key, e.rank, e.top) && (key.DelayedMerge? ==> Cored(key, Busy(e, outer, k)))
    {
      assert Later(e, outer, k, key);
      if key in outer {
        OutsideIsHigh(e, outer, key);
      } else {
        var m :| k < m <= |e.steps| && (key == Ref(e, m) || (|Stack(e, m)| >= 2 && key == Held(e, m)));
        StepsAreHigh(e, m, []);
        if key.DelayedMerge? {
          RefFit(e, m);
          BusyHolds(e, outer, k, m);
          HeldCore(e, m);
        }
      }
    }
  }

  lemma OutsideIsHigh(e: Extension, outer: Replacements, n: Value)
    requires Outside(e, outer) && n in outer
    ensures n.Reference? && !AllBelow(n, e.rank, e.top)
  {
  }

  lemma HeldCore(e: Extension, m: nat)
    requires Plausible(e) && 1 <= m <= |e.steps| && |Stack(e, m)| >= 2
    ensures CoreReference(Ref(e, m), Held(e, m))
  {
    RefFit(e, m);
    StackAt(e, m, 0);
    assert Held(e, m).stack[0] == Step(e, m);
    assert Occurs(Ref(e, m), Step(e, m).pieces[0]);
  }

  lemma OnTopIsHigh(e: Extension, outer: Replacements, k: nat)
    requires Stated(e) && Outside(e, outer) && 1 <= k <= |e.steps|
    ensures HighTable(e, OnTop(e, outer, k)) && Shielded(OnTop(e, outer, k), List([Added(e, k)]))
  {
    hide Stated, AllBelow, Busy, OnTop, Held, Stack;
    StatedPlausible(e);
    BusyIsHigh(e, outer, k);
    OnTopOk(e, outer, k);
    StepsAreHigh(e, k, []);
    forall key | key in OnTop(e, outer, k) ensures !AllBelow(key, e.rank, e.top) {
    }
    HeldNotBusy(e, outer, k);
    OnTopShields(e, outer, k);
  }

  lemma HeldNotBusy(e: Extension, outer: Replacements, k: nat)
    requires Plausible(e) && Outside(e, outer) && 1 <= k <= |e.steps|
    ensures Held(e, k) !in Busy(e, outer, k)
  {
    hide Busy;
    BusyFacts(e, outer, k);
    StackAt(e, k, 0);
    NotLater(e, outer, k, Held(e, k));
  }

  lemma OnTopShields(e: Extension, outer: Replacements, k: nat)
    requires Plausible(e) && Outside(e, outer) && 1 <= k <= |e.steps| && AllCored(Busy(e, outer, k))
    requires Held(e, k) !in Busy(e, outer, k)
    ensures Shielded(OnTop(e, outer, k), List([Added(e, k)]))
  {
    hide Busy;
    AllCoredShields(Busy(e, outer, k), Held(e, k));
    StackAt(e, k, 0);
    if |Stack(e, k)| >= 2 {
      LayerShields(Busy(e, outer, k), Held(e, k), 0);
      ItemOccurs(Step(e, k), Step(e, k).pieces, 1);
      PartShielded(OnTop(e, outer, k), Step(e, k), List([Added(e, k)]));
    } else {
      AllCoredShields(Busy(e, outer, k), List([Added(e, k)]));
    }
  }

  // ---------------------------------------------------------------- the run

  /** Resolving the root along the key leaves it as it is. */
  lemma RootAlong(e: Extension, table: Replacements, memos: Memos)
    requires Stated(e) && TableOk(table) && ReferenceInFlight(table) && MemosOk(Src(e), memos)
    requires Recall(memos, Root(e), [e.key]).None?
    ensures Ready(Src(e), Root(e), table, memos)
    ensures Resolve(Src(e), Root(e), [e.key], table, memos) ==
      Answer(Done(Some(Root(e))), memos[MemoKey(Root(e), [e.key]) := Some(Root(e))])
  {
    hide Weight, Held, RefsIn, WellFormed, Contained, Stated, Resolved, MemosOk, Plausible, Resolve, Fit, Lawful;
    StatedPlausible(e);
    AtLeastOne(e);
    SrcSound(e);
    var src, root := Src(e), Root(e);
    RootFit(e, table);
    ObjectParts(src, root, table);
    OrderedKeys(src.order, root.fields.Keys);
    AllKept(src, root, [e.key], src.order(root.fields.Keys), map[], table, memos);
    var a := ResolveObject(src, root, [e.key], table, memos);
    assert a == Answer(Done(Some(root)), memos);
    assert ResolveSubstitutions(src, root, [e.key], table, memos) == a;
    ResolveFresh(src, root, [e.key], table, memos);
  }

  lemma RootAlongKey(e: Extension, start: Memos, table: Replacements)
    requires Given(e, start) && TableOk(table) && ReferenceInFlight(table)
    ensures Ready(Src(e), Root(e), table, start)
    ensures Resolve(Src(e), Root(e), [e.key], table, start) == Answer(Done(Some(Root(e))), Primed(e, start))
  {
    hide Given, Stated, Resolve, Fit, Root, Agrees, MemosOk, Coherent, Apart, Clear;
    GivenStated(e, start);
    RootForgotten(e, start);
    RootAlong(e, table, start);
  }

  lemma RootFit(e: Extension, table: Replacements)
    requires Stated(e) && TableOk(table) && ReferenceInFlight(table)
    ensures Fit(Src(e), Root(e), table) && Root(e) !in table
  {
    hide Stated, Held, Src;
    StatedPlausible(e);
    SrcSound(e);
  }

  lemma RootForgotten(e: Extension, start: Memos)
    requires Given(e, start)
    ensures Recall(start, Root(e), [e.key]).None?
  {
    hide Given, Stated, Writable, Readable, Known, Coherent, Root;
    GivenStated(e, start);
    RootKeys(e);
  }

  /** So the key is found as the document holds it. */
  lemma KeyFound(e: Extension, start: Memos, table: Replacements, memos: Memos)
    requires Given(e, start) && TableOk(table) && ReferenceInFlight(table) && Quiet(e, start, memos)
    ensures Sound(Src(e)) && MemosOk(Src(e), memos)
    ensures FindInRoot(Src(e), [e.key], table, memos) == Answer(Done(Some(Held(e, |e.steps|))), Primed(e, start))
  {
    hide Given, Stated, Resolve, Agrees, MemosOk, Fit, Writable, Weight;
    GivenStated(e, start);
    RootKeys(e);
    QuietOk(e, start, memos);
    var root := Root(e);
    RootAlongKey(e, start, table);
    if memos != start {
      RootRemembered(e, start, table, memos);
    }
    assert PeekPath(root, [e.key]) == Found(Some(Held(e, |e.steps|)));
  }

  lemma RootRemembered(e: Extension, start: Memos, table: Replacements, memos: Memos)
    requires Stated(e) && memos == Primed(e, start) && Ready(Src(e), Root(e), table, memos)
    requires MemoKey(Root(e), []) !in start
    ensures Resolve(Src(e), Root(e), [e.key], table, memos) == Answer(Done(Some(Root(e))), memos)
  {
    assert Recall(memos, Root(e), [e.key]) == Some(Root(e));
  }

  /** An unrestricted resolution in this document. */
  ghost function At(e: Extension, v: Value, table: Replacements, memos: Memos): (a: Answer<Option<Value>>)
    requires |e.steps| >= 1
  {
    if Ready(Src(e), v, table, memos) then Resolve(Src(e), v, [], table, memos) else Answer(Failed(BugOrBroken), memos)
  }

  /** The stacks of the steps from `k` on are in flight in `table`, and none is remembered. */
  ghost predicate InFlight(e: Extension, k: nat, table: Replacements, memos: Memos)
    requires |e.steps| >= 1
  {
    && Sound(Src(e)) && TableOk(table) && ReferenceInFlight(table) && MemosOk(Src(e), memos)
    && forall m | k <= m <= |e.steps| && m >= 1 && |Stack(e, m)| >= 2 ::
         && Held(e, m) in table && table[Held(e, m)] == BelowReplacer(Stack(e, m), 1)
         && Get(memos, MemoKey(Held(e, m), [])).None?
  }

  lemma BusyInFlight(e: Extension, outer: Replacements, start: Memos, k: nat)
    requires Given(e, start) && Outside(e, outer) && 1 <= k <= |e.steps|
    ensures InFlight(e, k, Busy(e, outer, k - 1), Primed(e, start))
  {
    hide Given, Stated, Agrees, MemosOk, Busy, Held, Stack, Primed, Coherent, Apart, Clear, Later, TableOk, Sound;
    hide Quiet;
    GivenStated(e, start);
    PrimedIsQuiet(e, start);
    QuietOk(e, start, Primed(e, start));
    BusyFacts(e, outer, k - 1);
    RefFit(e, k);
    BusyHolds(e, outer, k - 1, k);
    forall m | k <= m <= |e.steps| && |Stack(e, m)| >= 2
      ensures Held(e, m) in Busy(e, outer, k - 1) && Busy(e, outer, k - 1)[Held(e, m)] == BelowReplacer(Stack(e, m), 1)
      ensures Get(Primed(e, start), MemoKey(Held(e, m), [])).None?
    {
      BusyHolds(e, outer, k - 1, m);
      QuietForgets(e, start, Primed(e, start), m);
    }
  }

  lemma PrimedIsQuiet(e: Extension, start: Memos)
    requires |e.steps| >= 1
    ensures Quiet(e, start, Primed(e, start))
  {
  }

  /** So each stands for what is below its top. */
  lemma ReenteredHeld(e: Extension, start: Memos, k: nat, m: nat, table: Replacements, memos: Memos)
    requires Given(e, start) && 1 <= k <= m <= |e.steps| && (m >= 2 || e.base.Some?) && InFlight(e, k, table, memos)
    ensures At(e, Held(e, m), table, memos) == Remembered(Src(e), Held(e, m), [], At(e, Held(e, m - 1), table, memos))
    ensures Held(e, m).DelayedMerge?
  {
    hide Given, Stated, WellFormed, RefsIn, MemosOk, Weight, Resolve;
    GivenStated(e, start);
    HeldFit(e, m);
    BelowIsHeld(e, m);
    ReenteredStack(Src(e), Held(e, m), [], table, memos);
  }

  /** What holds after the first `k` steps have been resolved. */
  ghost predicate Finished(e: Extension, k: nat, a: Answer<Option<Value>>)
    requires 1 <= |e.steps| && k <= |e.steps|
  {
    a.outcome == Done(Some(Expected(e, k))) && Settled(e, k, a.memos)
  }

  /** What resolving the stacks of the steps after `k` remembers around the answer for step `k`. */
  ghost function Climb(e: Extension, k: nat, m: nat, a: Answer<Option<Value>>): (r: Answer<Option<Value>>)
    requires 1 <= |e.steps| && k <= m <= |e.steps| && (k >= 1 || e.base.Some?)
  {
    if m == k then a else Remembered(Src(e), Held(e, m), [], Climb(e, k, m - 1, a))
  }

  /** Re-entering the stack while a layer is resolved looks below that layer, stack by stack. */
  lemma {:induction false} LooksBelow(e: Extension, start: Memos, k: nat, m: nat, table: Replacements, memos: Memos)
    requires Given(e, start) && 1 <= k <= |e.steps| && (k >= 2 || e.base.Some?) && k - 1 <= m <= |e.steps|
    requires InFlight(e, k, table, memos)
    ensures At(e, Held(e, m), table, memos) == Climb(e, k - 1, m, At(e, Held(e, k - 1), table, memos))
    decreases m
  {
    hide At, InFlight, Given;
    if m >= k {
      LooksBelow(e, start, k, m - 1, table, memos);
      ReenteredHeld(e, start, k, m, table, memos);
    }
  }

  lemma {:induction false} ClimbFinished(e: Extension, start: Memos, k: nat, m: nat, a: Answer<Option<Value>>)
    requires Given(e, start) && k <= m <= |e.steps| && (k >= 1 || e.base.Some?) && Finished(e, k, a)
    ensures Finished(e, k, Climb(e, k, m, a))
    decreases m
  {
    hide Given, Finished, Remembered;
    if m > k {
      ClimbFinished(e, start, k, m - 1, a);
      StackAt(e, m, 0);
      FinishedRemembered(e, start, k, m, Climb(e, k, m - 1, a));
    }
  }

  /** A stack that is remembered around the answer. */
  lemma FinishedRemembered(e: Extension, start: Memos, k: nat, m: nat, a: Answer<Option<Value>>)
    requires Given(e, start) && k <= m <= |e.steps| && m >= 1 && Finished(e, k, a) && Held(e, m).DelayedMerge?
    ensures Finished(e, k, Remembered(Src(e), Held(e, m), [], a))
  {
    hide Given, Settled, High, Expected, Stated, Resolved, Held;
    GivenStated(e, start);
    ExpectedResolved(e, k);
    StepValuesHigh(e, m);
    HighPut(e, k, a.memos, Held(e, m), a.outcome.value);
  }

  /** Without anything to begin with the first step finds only itself: a cycle, so nothing. */
  lemma {:induction false} NothingBelow(e: Extension, outer: Replacements, start: Memos, m: nat)
    requires Given(e, start) && Outside(e, outer) && e.base.None? && 1 <= m <= |e.steps|
    ensures At(e, Held(e, m), Busy(e, outer, 0), Primed(e, start)) == Answer(NotPossible, Primed(e, start))
    decreases m
  {
    hide At, InFlight, Given, Stack, Busy, Primed;
    if m == 1 {
      FirstStepAlone(e, outer, start);
    } else {
      NothingBelow(e, outer, start, m - 1);
      BusyInFlight(e, outer, start, 1);
      ReenteredHeld(e, start, 1, m, Busy(e, outer, 0), Primed(e, start));
    }
  }

  lemma FirstStepAlone(e: Extension, outer: Replacements, start: Memos)
    requires Given(e, start) && Outside(e, outer) && e.base.None?
    ensures Held(e, 1) == Step(e, 1)
    ensures At(e, Step(e, 1), Busy(e, outer, 0), Primed(e, start)) == Answer(NotPossible, Primed(e, start))
  {
    hide Given, Stated, Busy, Primed, MemosOk, Agrees, RefsIn, WellFormed, Weight, Coherent, Apart, Clear, Quiet, Later;
    GivenStated(e, start);
    PrimedIsQuiet(e, start);
    var src, table, memos, step := Src(e), Busy(e, outer, 0), Primed(e, start), Step(e, 1);
    QuietOk(e, start, memos);
    QuietForgets(e, start, memos, 1);
    BusyFacts(e, outer, 0);
    BusyHolds(e, outer, 0, 1);
    BusyOmitsSteps(e, outer, 0, 1);
    StepFit(e, 1);
    RefFit(e, 1);
    StackAt(e, 1, 0);
    assert Ref(e, 1) in table;
    ItemParts(src, step, step.pieces, table);
    assert step.pieces[0] == Ref(e, 1);
    CycleFound(src, Ref(e, 1), table, memos);
    assert ResolveItems(src, step.pieces, [], table, memos) == Answer(NotPossible, memos);
    assert ResolveConcatenation(src, step, [], table, memos) == Answer(NotPossible, memos);
    ResolveFresh(src, step, [], table, memos);
  }

  lemma CycleFound(src: Source, n: Value, table: Replacements, memos: Memos)
    requires n.Reference? && n in table && Ready(src, n, table, memos) && Recall(memos, n, []).None?
    ensures Resolve(src, n, [], table, memos) == Answer(NotPossible, memos)
  {
  }

  lemma BusyOmitsSteps(e: Extension, outer: Replacements, k: nat, m: nat)
    requires Plausible(e) && Outside(e, outer) && k <= |e.steps| && 1 <= m <= |e.steps|
    ensures Step(e, m) !in Busy(e, outer, k)
  {
    hide Busy;
    BusyFacts(e, outer, k);
    forall key | key in Busy(e, outer, k) ensures key.Reference? || key.DelayedMerge? {
      assert Later(e, outer, k, key);
      if i :| k < i <= |e.steps| && key == Ref(e, i) {
        RefFit(e, i);
      }
    }
  }

  /** A reference to the key finds it as the document holds it. */
  lemma KeyLookup(e: Extension, start: Memos, n: Value, table: Replacements, memos: Memos)
    requires Given(e, start) && Quiet(e, start, memos) && n.Reference? && n.path == [e.key] && n.prefixLength == 0
    requires n in table && Ready(Src(e), n, table, memos)
    ensures LookupSubst(Src(e), n, [], table, memos) == At(e, Held(e, |e.steps|), table, Primed(e, start))
  {
    hide Weight, Lawful, Contained, Resolve, WellFormed, RefsIn, MemosOk, Given, Stated, Agrees, Known, Held, Src;
    hide FindInRoot, Primed, Plausible, Quiet;
    GivenPlausible(e, start);
    AtLeastOne(e);
    assert ReferenceInFlight(table);
    KeyFound(e, start, table, memos);
    HeldFit(e, |e.steps|);
    PrimedIsQuiet(e, start);
    QuietOk(e, start, Primed(e, start));
    KnownIsOk(e, Primed(e, start));
  }

  /** So does the reference of the `k`-th step. */
  lemma RefLookup(e: Extension, outer: Replacements, start: Memos, k: nat, memos: Memos)
    requires Given(e, start) && Outside(e, outer) && 1 <= k <= |e.steps| && Quiet(e, start, memos)
    ensures Ref(e, k).Reference?
    ensures Ready(Src(e), Ref(e, k), OnTop(e, outer, k), memos) && Ref(e, k) !in OnTop(e, outer, k)
    ensures Ready(Src(e), Ref(e, k), Busy(e, outer, k - 1), memos) && Ref(e, k) in Busy(e, outer, k - 1)
    ensures LookupSubst(Src(e), Ref(e, k), [], Busy(e, outer, k - 1), memos) ==
      At(e, Held(e, |e.steps|), Busy(e, outer, k - 1), Primed(e, start))
  {
    hide Fit, MemosOk, Given, Stated, Primed, Outside, Plausible, Busy, OnTop, Known, Held, Src, Quiet, At, LookupSubst;
    GivenPlausible(e, start);
    AtLeastOne(e);
    var src, table, ref := Src(e), OnTop(e, outer, k), Ref(e, k);
    QuietOk(e, start, memos);
    KnownIsOk(e, memos);
    OnTopFacts(e, outer, k);
    RefFit(e, k);
    RefIsFit(e, outer, k);
    ReferenceReady(src, ref, table, memos);
    BusyStep(e, outer, k);
    assert ref in Busy(e, outer, k - 1);
    KeyLookup(e, start, ref, Busy(e, outer, k - 1), memos);
  }

  lemma KnownIsOk(e: Extension, memos: Memos)
    requires 1 <= |e.steps| && Known(WorldFor(e, true), memos)
    ensures MemosOk(Src(e), memos)
  {
  }

  /** The reference is not part of what is in flight. */
  lemma RefIsFit(e: Extension, outer: Replacements, k: nat)
    requires Stated(e) && Outside(e, outer) && 1 <= k <= |e.steps|
    ensures Fit(Src(e), Ref(e, k), OnTop(e, outer, k))
  {
    hide Stated, OnTop;
    StatedPlausible(e);
    SrcSound(e);
    OnTopFacts(e, outer, k);
    RefFit(e, k);
    assert forall key :: Occurs(key, Ref(e, k)) ==> key == Ref(e, k);
  }

  /** `below` is the answer for the first `k - 1` steps, if there are any. */
  ghost predicate BelowKnown(e: Extension, outer: Replacements, start: Memos, k: nat, below: Answer<Option<Value>>)
    requires 1 <= k <= |e.steps|
  {
    k >= 2 || e.base.Some? ==>
      Finished(e, k - 1, below) && below == At(e, Held(e, k - 1), Busy(e, outer, k - 1), Primed(e, start))
  }

  lemma HeldBelow(e: Extension, outer: Replacements, start: Memos, k: nat, below: Answer<Option<Value>>)
    returns (a: Answer<Option<Value>>)
    requires Given(e, start) && Outside(e, outer) && 1 <= k <= |e.steps| && BelowKnown(e, outer, start, k, below)
    ensures a == At(e, Held(e, |e.steps|), Busy(e, outer, k - 1), Primed(e, start))
    ensures Settled(e, k - 1, a.memos)
    ensures a.outcome == if Earlier(e, k).Some? then Done(Earlier(e, k)) else NotPossible
  {
    hide At, InFlight, Ready, Busy, Held, Given, Expected, Settled, Quiet, Climb, Primed;
    var n := |e.steps|;
    if k >= 2 || e.base.Some? {
      BusyInFlight(e, outer, start, k);
      LooksBelow(e, start, k, n, Busy(e, outer, k - 1), Primed(e, start));
      ClimbFinished(e, start, k - 1, n, below);
      a := Climb(e, k - 1, n, below);
    } else {
      NothingBelow(e, outer, start, n);
      PrimedIsQuiet(e, start);
      QuietSettled(e, start, Primed(e, start));
      a := Answer(NotPossible, Primed(e, start));
    }
  }

  /** The reference of the `k`-th step stands for the first `k - 1` steps, or for nothing. */
  lemma RefResolves(e: Extension, outer: Replacements, start: Memos, k: nat, memos: Memos, below: Answer<Option<Value>>)
    returns (a: Answer<Option<Value>>)
    requires Given(e, start) && Outside(e, outer) && 1 <= k <= |e.steps| && Quiet(e, start, memos)
    requires BelowKnown(e, outer, start, k, below)
    ensures a == At(e, Ref(e, k), OnTop(e, outer, k), memos) && a.outcome == Done(Earlier(e, k))
    ensures Settled(e, k - 1, a.memos)
  {
    hide At, Given, Settled, BelowKnown, Busy, OnTop, Held, Ready, Expected, Quiet;
    RefLookup(e, outer, start, k, memos);
    var found := HeldBelow(e, outer, start, k, below);
    ExpectedResolved(e, k - 1);
    a := RefRemembered(e, outer, start, k, memos, found);
  }

  lemma BusyStep(e: Extension, outer: Replacements, k: nat)
    requires 1 <= k <= |e.steps|
    ensures OnTop(e, outer, k)[Ref(e, k) := CycleReplacer] == Busy(e, outer, k - 1)
  {
  }

  lemma RefRemembered(e: Extension, outer: Replacements, start: Memos, k: nat, memos: Memos,
                      found: Answer<Option<Value>>)
    returns (a: Answer<Option<Value>>)
    requires Given(e, start) && Outside(e, outer) && 1 <= k <= |e.steps| && Quiet(e, start, memos)
    requires Ref(e, k).Reference?
    requires Ready(Src(e), Ref(e, k), OnTop(e, outer, k), memos) && Ref(e, k) !in OnTop(e, outer, k)
    requires Ready(Src(e), Ref(e, k), Busy(e, outer, k - 1), memos) && Ref(e, k) in Busy(e, outer, k - 1)
    requires LookupSubst(Src(e), Ref(e, k), [], Busy(e, outer, k - 1), memos) == found && Settled(e, k - 1, found.memos)
    requires found.outcome.NotPossible? ||
      (found.outcome.Done? && found.outcome.value.Some? && Resolved(found.outcome.value.value))
    ensures a == At(e, Ref(e, k), OnTop(e, outer, k), memos) && Settled(e, k - 1, a.memos)
    ensures a.outcome == if found.outcome.NotPossible? then Done(None) else found.outcome
  {
    hide Given, Settled, Stated, MemosOk, Fit, Weight, LookupSubst, High, Quiet, Plausible, Src, Busy, OnTop;
    GivenPlausible(e, start);
    var src, table, ref := Src(e), OnTop(e, outer, k), Ref(e, k);
    RefFit(e, k);
    BusyStep(e, outer, k);
    var outcome := FirewalledOutcome(ref, found.outcome);
    assert ResolveReference(src, ref, [], table, memos) == Answer(outcome, found.memos);
    QuietForgets(e, start, memos, k);
    ResolveFresh(src, ref, [], table, memos);
    a := Remembered(src, ref, [], Answer(outcome, found.memos));
    StepValuesHigh(e, k);
    NoReader(e, ref);
    HighPut(e, k - 1, found.memos, ref, outcome.value);
  }

  lemma StepReady(e: Extension, outer: Replacements, start: Memos, k: nat, memos: Memos)
    requires Given(e, start) && Outside(e, outer) && 1 <= k <= |e.steps| && Quiet(e, start, memos)
    ensures Ready(Src(e), Step(e, k), OnTop(e, outer, k), memos)
    ensures Fit(Src(e), Ref(e, k), OnTop(e, outer, k)) && Fit(Src(e), List([Added(e, k)]), OnTop(e, outer, k))
  {
    hide Given, Stated, Agrees, MemosOk, OnTop, WellFormed, RefsIn, Quiet, Coherent, Part;
    GivenStated(e, start);
    QuietOk(e, start, memos);
    OnTopFacts(e, outer, k);
    StepFit(e, k);
    RefIsFit(e, outer, k);
    AddedIsPart(e, k);
    OnTopIsHigh(e, outer, k);
    PartFit(e, start, List([Added(e, k)]), OnTop(e, outer, k));
    StepGuarded(e, outer, k);
  }

  lemma StepGuarded(e: Extension, outer: Replacements, k: nat)
    requires Plausible(e) && Outside(e, outer) && 1 <= k <= |e.steps|
    requires Fit(Src(e), Ref(e, k), OnTop(e, outer, k)) && Fit(Src(e), List([Added(e, k)]), OnTop(e, outer, k))
    ensures Guarded(OnTop(e, outer, k), Step(e, k))
  {
    hide OnTop, Sound, WellFormed, RefsIn;
    OnTopFacts(e, outer, k);
    if !ReferenceInFlight(OnTop(e, outer, k)) {
      forall key | key in OnTop(e, outer, k) ensures !Occurs(key, Step(e, k)) {
        assert !Occurs(key, Ref(e, k)) && !Occurs(key, List([Added(e, k)]));
        assert forall i | 0 <= i < 2 ::
          Step(e, k).pieces[i] == Ref(e, k) || Step(e, k).pieces[i] == List([Added(e, k)]);
      }
    }
  }

  /** The one element of the `k`-th step, or none if it vanishes. */
  ghost function AddedItems(e: Extension, k: nat): (r: seq<Value>)
    requires 1 <= k <= |e.steps|
  {
    FullItems([Added(e, k)], OwnRefs(e))
  }

  /** The pieces of the `k`-th step. */
  lemma StepPieces(e: Extension, outer: Replacements, start: Memos, k: nat, memos: Memos, below: Answer<Option<Value>>)
    returns (a: Answer<seq<Value>>)
    requires Given(e, start) && Outside(e, outer) && 1 <= k <= |e.steps| && Quiet(e, start, memos)
    requires BelowKnown(e, outer, start, k, below)
    requires Ready(Src(e), Step(e, k), OnTop(e, outer, k), memos)
    requires Fit(Src(e), Ref(e, k), OnTop(e, outer, k)) && Fit(Src(e), List([Added(e, k)]), OnTop(e, outer, k))
    ensures forall i | 0 <= i < |Step(e, k).pieces| :: Fit(Src(e), Step(e, k).pieces[i], OnTop(e, outer, k))
    ensures a == ResolveItems(Src(e), Step(e, k).pieces, [], OnTop(e, outer, k), memos) && Settled(e, k - 1, a.memos)
    ensures a.outcome == Done(Present(Earlier(e, k)) + [List(AddedItems(e, k))])
  {
    hide Given, Stated, Fit, MemosOk, Resolve, Settled, BelowKnown, OnTop, Part, Shielded, HighTable, Extends, Quiet;
    hide Earlier;
    hide ResolveItems, Plausible, Src, Lawful, Contained, Expected, FullItems;
    var last := List([Added(e, k)]);
    var one := RefResolves(e, outer, start, k, memos, below);
    GivenPlausible(e, start);
    AddedIsPart(e, k);
    OnTopIsHigh(e, outer, k);
    PartResolves(e, start, k - 1, last, OnTop(e, outer, k), one.memos);
    ResolvePair(Src(e), Ref(e, k), last, OnTop(e, outer, k), memos);
    var two := Resolve(Src(e), last, [], OnTop(e, outer, k), one.memos);
    assert Step(e, k).pieces == [Ref(e, k), last];
    a := Answer(Done(Present(Earlier(e, k)) + Present(two.outcome.value)), two.memos);
  }

  lemma ResolvePair(src: Source, first: Value, second: Value, table: Replacements, memos: Memos)
    requires MemosOk(src, memos) && Fit(src, first, table) && Fit(src, second, table)
    ensures var one := Resolve(src, first, [], table, memos);
      one.outcome.Done? ==>
        var two := Resolve(src, second, [], table, one.memos);
        two.outcome.Done? ==>
          ResolveItems(src, [first, second], [], table, memos) ==
          Answer(Done(Present(one.outcome.value) + Present(two.outcome.value)), two.memos)
  {
    var one := Resolve(src, first, [], table, memos);
    assert [first, second][1..] == [second] && [second][1..] == [];
    if one.outcome.Done? {
      var two := Resolve(src, second, [], table, one.memos);
      if two.outcome.Done? {
        assert [] + Present(one.outcome.value) == Present(one.outcome.value);
        assert ResolveItems(src, [second], Present(one.outcome.value), table, one.memos) ==
          Answer(Done(Present(one.outcome.value) + Present(two.outcome.value)), two.memos);
      }
    }
  }

  lemma StepJoins(e: Extension, k: nat)
    requires 1 <= k <= |e.steps|
    ensures JoinedOutcome(Consolidated(Present(Earlier(e, k)) + [List(AddedItems(e, k))])) == Done(Some(Expected(e, k)))
  {
    hide Consolidated, Full, OwnRefs;
    ExpectedStep(e, k);
    var added := AddedItems(e, k);
    if Earlier(e, k).Some? {
      var before := Expected(e, k - 1).items;
      ConsolidatedLists(before, added);
      assert Present(Some(Expected(e, k - 1))) + [List(added)] == [List(before), List(added)];
    } else {
      ConsolidatedOne(List(added));
      assert Present(None) + [List(added)] == [List(added)];
      assert Expected(e, k) == List([] + added) == List(added);
    }
  }

  lemma ExpectedStep(e: Extension, k: nat)
    requires 1 <= k <= |e.steps|
    ensures Expected(e, k).items == Expected(e, k - 1).items + AddedItems(e, k)
    ensures k == 1 && e.base.None? ==> Expected(e, 0).items == []
  {
    hide Full, OwnRefs;
    var refs := OwnRefs(e);
    assert Values(e, k)[..k - 1] == Values(e, k - 1) && Values(e, k)[k - 1] == Added(e, k);
    assert [Added(e, k)][..0] == [];
    assert FullItems([Added(e, k)], refs) == [] + Present(Full(Added(e, k), refs));
  }

  lemma ConsolidatedOne(v: Value)
    requires v.List?
    ensures Consolidated([v]) == Fine([v])
  {
    assert [v][..0] == [];
    assert Flatten([v]) == Flatten([]) + [v] == [v];
    assert JoinAll([], [v]) == ThenJoin(JoinAll([], []), v) == Fine([v]);
  }

  /** The `k`-th step resolves to the elements so far, given that the steps below do. */
  lemma StepResolves(e: Extension, outer: Replacements, start: Memos, k: nat, memos: Memos,
                     below: Answer<Option<Value>>)
    returns (a: Answer<Option<Value>>)
    requires Given(e, start) && Outside(e, outer) && 1 <= k <= |e.steps| && Quiet(e, start, memos)
    requires BelowKnown(e, outer, start, k, below)
    ensures a == At(e, Step(e, k), OnTop(e, outer, k), memos) && Finished(e, k, a)
  {
    hide Given, Stated, Fit, MemosOk, Resolve, Settled, BelowKnown, OnTop, Quiet, Earlier, Expected, Consolidated;
    hide AddedItems, ResolveItems, Finished, Resolved;
    GivenStated(e, start);
    StepReady(e, outer, start, k, memos);
    var pieces := StepPieces(e, outer, start, k, memos, below);
    StepJoins(e, k);
    OnTopFacts(e, outer, k);
    StepFit(e, k);
    QuietForgets(e, start, memos, k);
    var src, table, step := Src(e), OnTop(e, outer, k), Step(e, k);
    var joined := Answer(Done(Some(Expected(e, k))), pieces.memos);
    assert ResolveConcatenation(src, step, [], table, memos) == joined;
    ResolveFresh(src, step, [], table, memos);
    assert ResolveSubstitutions(src, step, [], table, memos) == joined;
    StepRemembered(e, start, k, pieces.memos);
    a := Remembered(src, step, [], joined);
  }

  lemma StepRemembered(e: Extension, start: Memos, k: nat, memos: Memos)
    requires Given(e, start) && 1 <= k <= |e.steps| && Settled(e, k - 1, memos)
    ensures Finished(e, k, Remembered(Src(e), Step(e, k), [], Answer(Done(Some(Expected(e, k))), memos)))
  {
    hide Given, Stated, High, Expected, Resolved, Known, Plausible, Src;
    GivenPlausible(e, start);
    ExpectedResolved(e, k);
    StepValuesHigh(e, k);
    DifferentSteps(e, k);
    NoReader(e, Step(e, k));
    HighPut(e, k - 1, memos, Step(e, k), Some(Expected(e, k)));
  }

  lemma DifferentSteps(e: Extension, k: nat)
    requires Plausible(e) && 1 <= k <= |e.steps|
    ensures forall j | 1 <= j < k :: Step(e, j) != Step(e, k)
  {
    forall j | 1 <= j < k ensures Step(e, j) != Step(e, k) {
      assert e.steps[j - 1].reference != e.steps[k - 1].reference;
      assert Step(e, j).pieces[0] != Step(e, k).pieces[0];
    }
  }

  /** The lower layers no longer matter once the top one has become a list. */
  lemma {:induction false} LowerLayers(e: Extension, outer: Replacements, start: Memos, k: nat, i: nat, memos: Memos)
    requires Given(e, start) && Outside(e, outer) && 1 <= k <= |e.steps| && 1 <= i <= |Stack(e, k)|
    requires Settled(e, k, memos)
    requires Held(e, k).DelayedMerge? && Held(e, k).stack == Stack(e, k)
    requires LayersReady(Src(e), Held(e, k), i, Some(Expected(e, k)), [], Busy(e, outer, k), memos)
    ensures Finished(e, k, ResolveLayers(Src(e), Held(e, k), i, Some(Expected(e, k)), [], Busy(e, outer, k), memos))
    decreases |Stack(e, k)| - i
  {
    hide Weight, MemosOk, Lawful, Contained, MergedSoFar, Fit, Settled, Expected, Busy, Resolve, WithFallback, Given;
    hide Src;
    hide Stack, Held, Known;
    var src, held, table := Src(e), Held(e, k), Busy(e, outer, k);
    if i < |Stack(e, k)| {
      LayersStep(src, held, i, Some(Expected(e, k)), [], table, memos);
      LowerLayer(e, outer, start, k, i, memos);
      var a := Resolve(src, Stack(e, k)[i], [], LayerTable(held, i, table), memos);
      LowerLayers(e, outer, start, k, i + 1, a.memos);
    }
  }

  /** A lower layer is known, or it is what the key was first set to; it disappears behind the list. */
  lemma LowerLayer(e: Extension, outer: Replacements, start: Memos, k: nat, i: nat, memos: Memos)
    requires Given(e, start) && Outside(e, outer) && 1 <= k <= |e.steps| && 1 <= i < |Stack(e, k)|
    requires Settled(e, k, memos)
    requires Held(e, k).DelayedMerge? && Held(e, k).stack == Stack(e, k)
    requires Ready(Src(e), Stack(e, k)[i], LayerTable(Held(e, k), i, Busy(e, outer, k)), memos)
    ensures var a := Resolve(Src(e), Stack(e, k)[i], [], LayerTable(Held(e, k), i, Busy(e, outer, k)), memos);
      && a.outcome.Done? && Settled(e, k, a.memos)
      && MergeOptional(Some(Expected(e, k)), a.outcome.value) == Some(Expected(e, k))
  {
    hide Weight, MemosOk, Fit, Given, Stated, Known, Busy, Src, Expected, Plausible, Part, HighTable, Shielded, Held;
    hide Extends;
    GivenPlausible(e, start);
    StackAt(e, k, i);
    ListHides(e, k);
    var layer, table := Stack(e, k)[i], LayerTable(Held(e, k), i, Busy(e, outer, k));
    if i < k {
      KnownAnswers(Src(e), layer, table, memos);
    } else {
      BaseIsPart(e);
      BaseShielded(e, outer, k, i);
      PartResolves(e, start, k, layer, table, memos);
    }
  }

  lemma KnownAnswers(src: Source, v: Value, table: Replacements, memos: Memos)
    requires src.remembers && Ready(src, v, table, memos) && Get(memos, MemoKey(v, [])).Some?
    ensures Resolve(src, v, [], table, memos) == Answer(Done(Get(memos, MemoKey(v, []))), memos)
  {
  }

  lemma ListHides(e: Extension, k: nat)
    requires 1 <= |e.steps| && k <= |e.steps|
    ensures forall v :: MergeOptional(Some(Expected(e, k)), v) == Some(Expected(e, k))
  {
    hide Expected;
    ExpectedResolved(e, k);
  }

  /** While the last layer of the stack is resolved. */
  lemma BaseShielded(e: Extension, outer: Replacements, k: nat, i: nat)
    requires Stated(e) && Outside(e, outer) && 1 <= k <= |e.steps| && i < |Stack(e, k)|
    requires Held(e, k).DelayedMerge? && Held(e, k).stack == Stack(e, k)
    ensures HighTable(e, LayerTable(Held(e, k), i, Busy(e, outer, k)))
    ensures Shielded(LayerTable(Held(e, k), i, Busy(e, outer, k)), Stack(e, k)[i])
  {
    hide Stated, AllBelow, Busy, Held, Stack, Shielded;
    StatedPlausible(e);
    BusyIsHigh(e, outer, k);
    HeldNotBusy(e, outer, k);
    AllCoredShields(Busy(e, outer, k), Held(e, k));
    LayerShields(Busy(e, outer, k), Held(e, k), i);
    StepsAreHigh(e, k, []);
  }

  lemma HeldReady(e: Extension, outer: Replacements, start: Memos, k: nat, memos: Memos)
    requires Given(e, start) && Outside(e, outer) && k <= |e.steps| && (k >= 1 || e.base.Some?)
    requires Quiet(e, start, memos)
    ensures Ready(Src(e), Held(e, k), Busy(e, outer, k), memos)
    ensures k >= 1 ==> Held(e, k) !in Busy(e, outer, k) && Recall(memos, Held(e, k), []).None?
  {
    hide Weight, WellFormed, RefsIn, Given, Stated, Coherent, Agrees, MemosOk, Apart, Clear, Quiet, Held;
    GivenStated(e, start);
    QuietOk(e, start, memos);
    BusyFacts(e, outer, k);
    HeldFit(e, k);
    if k >= 1 {
      HeldNotBusy(e, outer, k);
      QuietForgets(e, start, memos, k);
    }
    if k < |e.steps| {
      RefFit(e, k + 1);
      BusyHolds(e, outer, k, k + 1);
      assert ReferenceInFlight(Busy(e, outer, k));
    }
  }

  /** Every prefix of the steps resolves to its elements. */
  lemma {:induction false} HeldResolves(e: Extension, outer: Replacements, start: Memos, k: nat, memos: Memos)
    returns (a: Answer<Option<Value>>)
    requires Given(e, start) && Outside(e, outer) && k <= |e.steps| && (k >= 1 || e.base.Some?)
    requires Quiet(e, start, memos)
    ensures a == At(e, Held(e, k), Busy(e, outer, k), memos) && Finished(e, k, a)
    decreases k
  {
    hide At, Finished, Given, Stack, Expected, Held, Busy, OnTop, Primed;
    if k == 0 {
      a := BaseResolves(e, outer, start, memos);
    } else {
      var below: Answer<Option<Value>> := Answer(NotPossible, map[]);
      if k >= 2 || e.base.Some? {
        PrimedIsQuiet(e, start);
        below := HeldResolves(e, outer, start, k - 1, Primed(e, start));
      }
      var top := StepResolves(e, outer, start, k, memos, below);
      a := StackResolves(e, outer, start, k, memos, top);
    }
  }

  lemma BaseResolves(e: Extension, outer: Replacements, start: Memos, memos: Memos) returns (a: Answer<Option<Value>>)
    requires Given(e, start) && Outside(e, outer) && e.base.Some? && Quiet(e, start, memos)
    ensures a == At(e, Held(e, 0), Busy(e, outer, 0), memos) && Finished(e, 0, a)
  {
    hide Given, Stated, Busy, Known, Src, Part, HighTable, Shielded, Plausible, OwnRefs, Full, Extends, Resolve;
    hide MemosOk, Fit;
    GivenPlausible(e, start);
    QuietSettled(e, start, memos);
    BaseIsPart(e);
    BusyIsHigh(e, outer, 0);
    AllCoredShields(Busy(e, outer, 0), e.base.value);
    PartResolves(e, start, 0, e.base.value, Busy(e, outer, 0), memos);
    BaseExpected(e);
    a := At(e, Held(e, 0), Busy(e, outer, 0), memos);
  }

  lemma BaseExpected(e: Extension)
    requires Stated(e) && e.base.Some?
    ensures Full(e.base.value, OwnRefs(e)) == Some(Expected(e, 0)) && Held(e, 0) == e.base.value
  {
    hide Full, OwnRefs, Apart;
    assert FullItems([], OwnRefs(e)) == [];
    assert BaseItems(e) + [] == BaseItems(e);
  }

  /** The stack resolves to what its top layer resolves to. */
  lemma StackResolves(e: Extension, outer: Replacements, start: Memos, k: nat, memos: Memos, top: Answer<Option<Value>>)
    returns (a: Answer<Option<Value>>)
    requires Given(e, start) && Outside(e, outer) && 1 <= k <= |e.steps| && Quiet(e, start, memos)
    requires top == At(e, Step(e, k), OnTop(e, outer, k), memos) && Finished(e, k, top)
    ensures a == At(e, Held(e, k), Busy(e, outer, k), memos) && Finished(e, k, a)
  {
    hide Given, Stated, Busy, Finished, Quiet, MemosOk, Fit, Weight, Resolve, ResolveLayers, Src, Remembered, Plausible;
    GivenPlausible(e, start);
    var src, held, table := Src(e), Held(e, k), Busy(e, outer, k);
    StackAt(e, k, 0);
    if |Stack(e, k)| == 1 {
      assert OnTop(e, outer, k) == Busy(e, outer, k) && Held(e, k) == Step(e, k);
      a := top;
    } else {
      HeldReady(e, outer, start, k, memos);
      TopLayer(e, outer, k);
      HeldFit(e, k);
      var layers := LayersResolve(e, outer, start, k, memos, top);
      assert ResolveDelayedMerge(src, held, [], table, memos) == layers;
      assert ResolveSubstitutions(src, held, [], table, memos) == layers;
      ResolveFresh(src, held, [], table, memos);
      FinishedRemembered(e, start, k, k, layers);
      a := Remembered(src, held, [], layers);
    }
  }

  /** The top layer of the stack is the last step, and it is in flight while it is resolved. */
  lemma TopLayer(e: Extension, outer: Replacements, k: nat)
    requires 1 <= k <= |e.steps| && |Stack(e, k)| >= 2
    ensures Held(e, k) == DelayedMerge(false, Stack(e, k)) && Stack(e, k)[0] == Step(e, k)
    ensures LayerTable(Held(e, k), 0, Busy(e, outer, k)) == OnTop(e, outer, k)
  {
    StackAt(e, k, 0);
  }

  lemma LayersResolve(e: Extension, outer: Replacements, start: Memos, k: nat, memos: Memos, top: Answer<Option<Value>>)
    returns (a: Answer<Option<Value>>)
    requires Given(e, start) && Outside(e, outer) && 1 <= k <= |e.steps| && |Stack(e, k)| >= 2 && Quiet(e, start, memos)
    requires LayersReady(Src(e), Held(e, k), 0, None, [], Busy(e, outer, k), memos)
    requires top == At(e, Step(e, k), OnTop(e, outer, k), memos) && Finished(e, k, top)
    ensures a == ResolveLayers(Src(e), Held(e, k), 0, None, [], Busy(e, outer, k), memos) && Finished(e, k, a)
  {
    hide Weight, Lawful, Contained, MemosOk, Fit, ResolveLayers, Resolve, Stack, Busy, OnTop, Step, Held, Given, Src;
    hide Expected;
    hide Settled, Quiet;
    TopLayer(e, outer, k);
    var src, held, table := Src(e), Held(e, k), Busy(e, outer, k);
    StepReady(e, outer, start, k, memos);
    LayersStep(src, held, 0, None, [], table, memos);
    LowerLayers(e, outer, start, k, 1, top.memos);
    a := ResolveLayers(src, held, 1, Some(Expected(e, k)), [], table, top.memos);
  }

  /** The key, in any document of this kind and whatever of it is remembered, resolves to the elements
      of what it was first set to followed by the appended values in order; also on behalf of other
      references in flight. */
  lemma PlusEqualsAppends(e: Extension, outer: Replacements, start: Memos)
    requires Given(e, start) && Outside(e, outer)
    ensures Extended(e, |e.steps|) == Fine(Some(Held(e, |e.steps|)))
    ensures Ready(Src(e), Held(e, |e.steps|), outer, start)
    ensures Resolve(Src(e), Held(e, |e.steps|), [], outer, start).outcome ==
      Done(Some(List(BaseItems(e) + FullItems(Values(e, |e.steps|), OwnRefs(e)))))
  {
    hide Given, Stated, Resolve, Ready, Held, Settled, BaseItems, FullItems, OwnRefs, Plausible, Src, Outside;
    var n := |e.steps|;
    GivenPlausible(e, start);
    assert n >= 1 by { AtLeastOne(e); }
    ExtendedIsHeld(e, n);
    HeldReady(e, outer, start, n, start);
    var _ := HeldResolves(e, outer, start, n, start);
  }
}
