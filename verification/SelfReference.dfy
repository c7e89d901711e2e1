/** Self-reference looks only below itself: `key = L` followed by `key += x` steps.

    Each `+=` step turns the value into a concatenation of an optional reference to the key itself
    with a one-element list, merged over what the key held before.  Resolving the document gives
    the elements of `L` followed by the appended values in order, for any number of steps.  What
    the key is first set to, the appended values and the other entries of the document may hold
    substitutions themselves, as long as those resolve and do not lead back to the key. */
module SelfReference {
  import opened ConfigValues
  import opened MergeAlgebra
  import opened Concatenations
  import opened Measures
  import opened Resolution
  import opened Ranks
  import opened Lookups
  import opened Visibility
  import opened MemoAgreement
  import opened Denotation
  import opened MemoFree

  /** One `+=` step: its reference to the key, and the value it appends. */
  datatype Appending = Appending(reference: Value, value: Value)

  /** A top-level key, what it is first set to (if anything), the steps that extend it, what else the
      document holds, the entries that are references to the key, and the visiting order of the
      resolver; and a ranking of references in which those to the key come last, from `top` on. */
  datatype Extension = Extension(key: string, base: Option<Value>, steps: seq<Appending>, others: map<string, Value>,
                                 readers: map<string, Value>, order: set<string> -> seq<string>, rank: Rank, top: nat)

  /** The reference of the `k`-th step. */
  function Ref(e: Extension, k: nat): (r: Value)
    requires 1 <= k <= |e.steps|
  {
    e.steps[k - 1].reference
  }

  /** The value appended by the `k`-th step. */
  function Added(e: Extension, k: nat): (r: Value)
    requires 1 <= k <= |e.steps|
  {
    e.steps[k - 1].value
  }

  /** What the parser makes of one `+=` step. */
  function PlusEquals(existing: Option<Value>, reference: Value, x: Value): (r: Joined<Option<Value>>) {
    match Concatenated([reference, List([x])])
    case Refused(err) => Refused(err)
    case Fine(None) => Fine(existing)
    case Fine(Some(v)) => Fine(Some(if existing.Some? then WithFallback(v, existing.value) else v))
  }

  /** The value of the key after `k` steps. */
  function Extended(e: Extension, k: nat): (r: Joined<Option<Value>>)
    requires k <= |e.steps|
  {
    if k == 0 then Fine(e.base)
    else
      var before := Extended(e, k - 1);
      if before.Refused? then before else PlusEquals(before.value, Ref(e, k), Added(e, k))
  }

  /** The steps refer to the key, each by a reference of its own. */
  predicate Plausible(e: Extension) {
    && |e.steps| >= 1
    && (forall i | 0 <= i < |e.steps| ::
          var n := e.steps[i].reference; n.Reference? && n.path == [e.key] && n.optional && n.prefixLength == 0)
    && (forall i, j | 0 <= i < j < |e.steps| :: e.steps[i].reference != e.steps[j].reference)
    && (e.base.Some? ==> e.base.value.List? || e.base.value.Concatenation? || e.base.value.Reference?)
    && (forall k | k in e.readers :: RefersToKey(e, e.readers[k]) && k != e.key && k !in e.others)
  }

  /** A reference to the key that belongs to no step. */
  predicate RefersToKey(e: Extension, n: Value) {
    && n.Reference? && n.path == [e.key] && n.prefixLength == 0
    && forall i | 0 <= i < |e.steps| :: n != e.steps[i].reference
  }

  lemma AtLeastOne(e: Extension)
    requires Plausible(e)
    ensures |e.steps| >= 1
  {
  }

  // ---------------------------------------------------------------- the shape of the document

  function Step(e: Extension, k: nat): (r: Value)
    requires 1 <= k <= |e.steps|
  {
    Concatenation([Ref(e, k), List([Added(e, k)])])
  }

  /** The layers after `k` steps, the latest on top. */
  function Stack(e: Extension, k: nat): (r: seq<Value>)
    requires k <= |e.steps|
    ensures |r| == k + (if e.base.Some? then 1 else 0)
  {
    if k == 0 then Present(e.base) else [Step(e, k)] + Stack(e, k - 1)
  }

  /** The value of the key after `k` steps: a stack, or its single layer. */
  function Held(e: Extension, k: nat): (r: Value)
    requires k <= |e.steps| && (k >= 1 || e.base.Some?)
  {
    Stacked(Stack(e, k))
  }

  lemma {:induction false} StackAt(e: Extension, k: nat, i: nat)
    requires k <= |e.steps| && i < |Stack(e, k)|
    ensures i < k ==> Stack(e, k)[i] == Step(e, k - i)
    ensures i >= k ==> e.base.Some? && Stack(e, k)[i] == e.base.value
    decreases k
  {
    if k > 0 && i > 0 {
      StackAt(e, k - 1, i - 1);
    }
  }

  /** A layer that can be stacked over others, and at the bottom possibly a list. */
  predicate Stackable(layers: seq<Value>) {
    && layers != []
    && (forall i | 0 <= i < |layers| :: StackableLayer(layers[i]))
    && (forall i | 0 <= i < |layers| - 1 :: !layers[i].List?)
  }

  predicate StackableLayer(v: Value) {
    v.Concatenation? || v.Reference? || v.List?
  }

  function Stacked(layers: seq<Value>): (r: Value)
    requires layers != []
  {
    if |layers| == 1 then layers[0] else DelayedMerge(false, layers)
  }

  /** Merging a step over what was held puts it on top of the stack. */
  lemma StackUnder(step: Value, below: seq<Value>)
    requires step.Concatenation? && Stackable(below)
    ensures WithFallback(step, Stacked(below)) == Stacked([step] + below)
  {
    if |below| == 1 {
      assert below == [below[0]];
    }
  }

  lemma StackOver(top: seq<Value>, b: Value)
    requires top != [] && StackableLayer(top[|top| - 1]) && !top[|top| - 1].List? && StackableLayer(b)
    ensures WithFallback(Stacked(top), b) == DelayedMerge(false, top + [b])
  {
    assert !IgnoresFallbacks(top[|top| - 1]);
    assert !IgnoresFallbacks(Stacked(top));
    assert Layers(Stacked(top)) == top && Layers(b) == [b];
  }

  /** Merging the layers of such a stack from the top gives the stack again. */
  lemma {:induction false} MergeStackable(layers: seq<Value>)
    requires Stackable(layers)
    ensures MergeLayers(layers) == Stacked(layers)
  {
    if |layers| >= 2 {
      var top, last := layers[..|layers| - 1], layers[|layers| - 1];
      assert forall i | 0 <= i < |top| :: top[i] == layers[i];
      MergeStackable(top);
      StackOver(top, last);
      assert top + [last] == layers;
    }
  }

  lemma StackStackable(e: Extension, k: nat)
    requires Plausible(e) && k <= |e.steps| && (k >= 1 || e.base.Some?)
    ensures Stackable(Stack(e, k))
  {
    forall i | 0 <= i < |Stack(e, k)|
      ensures StackableLayer(Stack(e, k)[i]) && (i < |Stack(e, k)| - 1 ==> !Stack(e, k)[i].List?)
    {
      StackAt(e, k, i);
    }
  }

  /** One `+=` step puts its concatenation on top of what was held. */
  lemma PlusEqualsStacks(existing: Option<Value>, below: seq<Value>, reference: Value, x: Value)
    requires reference.Reference?
    requires if existing.None? then below == [] else Stackable(below) && existing.value == Stacked(below)
    ensures PlusEquals(existing, reference, x) == Fine(Some(Stacked([Concatenation([reference, List([x])])] + below)))
  {
    StepConcatenated(reference, x);
    if existing.Some? {
      StackUnder(Concatenation([reference, List([x])]), below);
    }
  }

  lemma {:induction false} ExtendedIsHeld(e: Extension, k: nat)
    requires Plausible(e) && k <= |e.steps|
    ensures Extended(e, k) == Fine(if k >= 1 || e.base.Some? then Some(Held(e, k)) else None)
  {
    hide Concatenated, WithFallback, Stackable, PlusEquals;
    if k >= 1 {
      ExtendedIsHeld(e, k - 1);
      if k >= 2 || e.base.Some? {
        StackStackable(e, k - 1);
      }
      assert Ref(e, k).Reference?;
      PlusEqualsStacks(Extended(e, k - 1).value, Stack(e, k - 1), Ref(e, k), Added(e, k));
    }
  }

  lemma StepConcatenated(reference: Value, x: Value)
    requires reference.Reference?
    ensures Concatenated([reference, List([x])]) == Fine(Some(Concatenation([reference, List([x])])))
  {
    ConsolidatedTwo(reference, List([x]));
    assert [reference] + [List([x])] == [reference, List([x])];
  }

  lemma BelowIsHeld(e: Extension, k: nat)
    requires Plausible(e) && 1 <= k <= |e.steps| && (k >= 2 || e.base.Some?)
    ensures Stack(e, k)[1..] == Stack(e, k - 1) && MergeLayers(Stack(e, k)[1..]) == Held(e, k - 1)
  {
    StackStackable(e, k - 1);
    MergeStackable(Stack(e, k - 1));
  }

  // ---------------------------------------------------------------- the document and its meaning

  function Root(e: Extension): (r: Value)
    requires |e.steps| >= 1
  {
    Object((e.others + e.readers)[e.key := Held(e, |e.steps|)], false)
  }

  function Values(e: Extension, k: nat): (r: seq<Value>)
    requires k <= |e.steps|
    ensures |r| == k
  {
    if k == 0 then [] else Values(e, k - 1) + [Added(e, k)]
  }

  /** What the document holds besides the steps themselves. */
  function Parts(e: Extension): (r: Value) {
    List(Present(e.base) + Values(e, |e.steps|) + [Object(e.others, false)])
  }

  ghost function Src(e: Extension): (r: Source)
    requires |e.steps| >= 1
  {
    Source(Root(e), e.order, StepNodes(e) + e.readers.Values + References(Parts(e)), true)
  }

  ghost function StepNodes(e: Extension): (r: set<Value>) {
    StepRefs(e) + (set k | 1 <= k <= |e.steps| :: Step(e, k))
  }

  ghost function StepRefs(e: Extension): (r: set<Value>) {
    set k | 1 <= k <= |e.steps| :: Ref(e, k)
  }

  /** The values of the references that do not belong to the steps. */
  ghost function OwnRefs(e: Extension): (r: Env)
    requires |e.steps| >= 1
  {
    RefsBelow(Root(e), e.rank, e.top)
  }

  /** The elements of what the key is first set to. */
  ghost function BaseItems(e: Extension): (r: seq<Value>)
    requires |e.steps| >= 1
  {
    if e.base.None? then []
    else
      var list := Full(e.base.value, OwnRefs(e));
      if list.Some? && list.value.List? then list.value.items else []
  }

  /** The list the first `k` steps should resolve to. */
  ghost function Expected(e: Extension, k: nat): (r: Value)
    requires 1 <= |e.steps| && k <= |e.steps|
  {
    List(BaseItems(e) + FullItems(Values(e, k), OwnRefs(e)))
  }

  /** What the key stands for below step `k`: the elements of the earlier steps, if there are any. */
  ghost function Earlier(e: Extension, k: nat): (r: Option<Value>)
    requires 1 <= k <= |e.steps|
  {
    if k >= 2 || e.base.Some? then Some(Expected(e, k - 1)) else None
  }

  /** All references: those of the steps stand for what is below their step, the other ones to the key
      for all of it. */
  ghost function AllRefs(e: Extension): (r: Env)
    requires |e.steps| >= 1
  {
    (n: Value) =>
      if n in StepRefs(e) then Earlier(e, StepOf(e, n))
      else if n in e.readers.Values then Some(Expected(e, |e.steps|))
      else OwnRefs(e)(n)
  }

  ghost function StepOf(e: Extension, n: Value): (k: nat)
    requires n in StepRefs(e)
    ensures 1 <= k <= |e.steps| && Ref(e, k) == n
  {
    var k :| 1 <= k <= |e.steps| && Ref(e, k) == n;
    k
  }

  ghost function Meant(e: Extension): (r: Sense)
    requires |e.steps| >= 1
  {
    Sense(Root(e), EnvOf(AllRefs(e)), e.rank)
  }

  ghost function WorldFor(e: Extension, sure: bool): (w: World)
    requires |e.steps| >= 1
  {
    World(Src(e), Meant(e), e.top, sure)
  }

  /** The references to the key rank last, and the lookups of all others meet only lower ranks, so that
      they do not lead to the key, and are visible. */
  ghost predicate Apart(e: Extension)
    requires |e.steps| >= 1
  {
    && (forall k | 1 <= k <= |e.steps| :: e.top <= e.rank(Ref(e, k)))
    && (forall n | n in e.readers.Values :: e.top <= e.rank(n))
    && (forall n | n in References(Parts(e)) && n.Reference? :: e.rank(n) < e.top && NodeLookable(Meant(e), n))
  }

  /** Nothing is remembered but what a run that keeps below the steps may remember. */
  ghost predicate Clear(w: World, memos: Memos) {
    forall k | k in memos :: Writable(w, k)
  }

  ghost predicate Stated(e: Extension) {
    && Plausible(e) && Ordering(e.order) && e.key !in e.others && WellFormed(Parts(e)) && Apart(e)
    && (e.base.Some? ==> Full(e.base.value, OwnRefs(e)).Some? && Full(e.base.value, OwnRefs(e)).value.List?)
  }

  /** The document as described, whose parts resolve, and what is remembered to begin with. */
  ghost predicate Given(e: Extension, start: Memos) {
    && Stated(e) && Settles(Parts(e), Meant(e).env)
    && Known(WorldFor(e, true), start) && Clear(WorldFor(e, true), start)
  }

  // ---------------------------------------------------------------- the parts and the steps

  lemma {:induction false} ValuesAt(e: Extension, n: nat, k: nat)
    requires 1 <= k <= n <= |e.steps|
    ensures Values(e, n)[k - 1] == Added(e, k)
    decreases n
  {
    if k < n {
      ValuesAt(e, n - 1, k);
    }
  }

  /** A part of the document: well-formed, of the document's nodes, and below the steps in rank. */
  ghost predicate Part(e: Extension, v: Value)
    requires |e.steps| >= 1
  {
    WellFormed(v) && RefsIn(v, Src(e).nodes) && AllBelow(v, e.rank, e.top)
  }

  lemma PartsArePart(e: Extension)
    requires Stated(e)
    ensures Part(e, Parts(e)) && forall n | n in References(Parts(e)) :: IsNode(n)
  {
    hide WellFormed, NodeLookable;
    ReferencesCover(Parts(e), References(Parts(e)));
    ReferencesCover(Parts(e), Src(e).nodes);
    NodesBelow(Parts(e), References(Parts(e)), e.rank, e.top);
  }

  lemma ItemIsPart(e: Extension, i: nat)
    requires Stated(e) && i < |Parts(e).items|
    ensures Part(e, Parts(e).items[i])
  {
    hide Stated;
    PartsArePart(e);
  }

  lemma BaseIsPart(e: Extension)
    requires Stated(e) && e.base.Some?
    ensures Part(e, e.base.value)
  {
    hide Stated, Part;
    ItemIsPart(e, 0);
  }

  lemma AddedIsPart(e: Extension, k: nat)
    requires Stated(e) && 1 <= k <= |e.steps|
    ensures Part(e, Added(e, k)) && Part(e, List([Added(e, k)]))
  {
    hide Stated;
    var i := |Present(e.base)| + k - 1;
    ValuesAt(e, |e.steps|, k);
    assert Parts(e).items[i] == Values(e, |e.steps|)[k - 1];
    ItemIsPart(e, i);
  }

  lemma OthersArePart(e: Extension)
    requires Stated(e)
    ensures Part(e, Object(e.others, false)) && forall k | k in e.others :: Part(e, e.others[k])
  {
    hide Stated;
    var i := |Parts(e).items| - 1;
    assert Parts(e).items[i] == Object(e.others, false);
    ItemIsPart(e, i);
  }

  lemma RefFit(e: Extension, k: nat)
    requires Plausible(e) && 1 <= k <= |e.steps|
    ensures var n := Ref(e, k);
      && n.Reference? && n.path == [e.key] && n.optional && n.prefixLength == 0
      && WellFormed(n) && RefsIn(n, Src(e).nodes) && n in Src(e).nodes
  {
    assert Ref(e, k) in StepNodes(e);
  }

  lemma StepFit(e: Extension, k: nat)
    requires Stated(e) && 1 <= k <= |e.steps|
    ensures WellFormed(Step(e, k)) && RefsIn(Step(e, k), Src(e).nodes) && !Resolved(Step(e, k))
    ensures Step(e, k).pieces == [Ref(e, k), List([Added(e, k)])]
  {
    hide Stated;
    assert Plausible(e) by { StatedPlausible(e); }
    RefFit(e, k);
    AddedIsPart(e, k);
    assert Step(e, k) in StepNodes(e);
    assert Unmergeable(Step(e, k).pieces[0]);
  }

  lemma StatedPlausible(e: Extension)
    requires Stated(e)
    ensures Plausible(e) && Apart(e) && e.key !in e.others
  {
  }

  lemma LayerFit(e: Extension, k: nat, i: nat)
    requires Stated(e) && k <= |e.steps| && i < |Stack(e, k)|
    ensures var layer := Stack(e, k)[i];
      && WellFormed(layer) && RefsIn(layer, Src(e).nodes)
      && !layer.DelayedMerge? && !layer.Object? && (i < k ==> !Resolved(layer))
  {
    hide Src, RefsIn, Stated, WellFormed, Resolved, Part;
    StatedPlausible(e);
    StackAt(e, k, i);
    if i < k {
      StepFit(e, k - i);
    } else {
      BaseIsPart(e);
      PartIsFit(e, e.base.value);
    }
  }

  lemma PartIsFit(e: Extension, v: Value)
    requires |e.steps| >= 1 && Part(e, v)
    ensures WellFormed(v) && RefsIn(v, Src(e).nodes)
  {
  }

  lemma StackedFit(stack: seq<Value>, nodes: set<Value>)
    requires stack != []
    requires forall i | 0 <= i < |stack| ::
      WellFormed(stack[i]) && RefsIn(stack[i], nodes) && !stack[i].DelayedMerge? && !stack[i].Object?
    ensures WellFormed(Stacked(stack)) && RefsIn(Stacked(stack), nodes) && !Stacked(stack).Object?
    ensures !Resolved(stack[0]) ==> !Resolved(Stacked(stack))
  {
  }

  lemma HeldFit(e: Extension, k: nat)
    requires Stated(e) && k <= |e.steps| && (k >= 1 || e.base.Some?)
    ensures WellFormed(Held(e, k)) && RefsIn(Held(e, k), Src(e).nodes) && (k >= 1 ==> !Resolved(Held(e, k)))
    ensures !Held(e, k).Object? && (|Stack(e, k)| >= 2 ==> Held(e, k) == DelayedMerge(false, Stack(e, k)))
  {
    hide Src, Stated, Plausible, WellFormed, RefsIn, Resolved;
    StatedPlausible(e);
    AtLeastOne(e);
    var stack := Stack(e, k);
    forall i | 0 <= i < |stack|
      ensures WellFormed(stack[i]) && RefsIn(stack[i], Src(e).nodes) && !stack[i].DelayedMerge? && !stack[i].Object?
      ensures i < k ==> !Resolved(stack[i])
    {
      LayerFit(e, k, i);
    }
    StackedFit(stack, Src(e).nodes);
  }

  lemma RootEntries(e: Extension)
    requires Stated(e)
    ensures forall k | k in Root(e).fields :: WellFormed(Root(e).fields[k]) && RefsIn(Root(e).fields[k], Src(e).nodes)
    ensures e.key in Root(e).fields && !Resolved(Root(e).fields[e.key])
  {
    hide Src, Stated, Held, WellFormed, RefsIn, Resolved, AllBelow, Plausible;
    StatedPlausible(e);
    AtLeastOne(e);
    HeldFit(e, |e.steps|);
    OthersArePart(e);
    forall k | k in e.readers ensures WellFormed(e.readers[k]) && RefsIn(e.readers[k], Src(e).nodes) {
      ReaderFit(e, k);
    }
  }

  lemma ReaderFit(e: Extension, k: string)
    requires Plausible(e) && k in e.readers
    ensures var n := e.readers[k];
      && n.Reference? && n.path == [e.key] && n.prefixLength == 0 && n !in StepRefs(e)
      && WellFormed(n) && RefsIn(n, Src(e).nodes) && n in Src(e).nodes && n in e.readers.Values
  {
    assert RefersToKey(e, e.readers[k]);
  }

  lemma NodesAreNodes(e: Extension)
    requires Stated(e)
    ensures forall n | n in Src(e).nodes :: n.Reference? || n.Concatenation?
  {
    hide Stated, Part, References;
    StatedPlausible(e);
    PartsArePart(e);
    forall n | n in e.readers.Values ensures n.Reference? {
      var k :| k in e.readers && e.readers[k] == n;
      ReaderFit(e, k);
    }
    forall n | n in StepNodes(e) ensures n.Reference? || n.Concatenation? {
      if n in StepRefs(e) {
        RefFit(e, StepOf(e, n));
      }
    }
  }

  lemma SrcSound(e: Extension)
    requires Stated(e)
    ensures Sound(Src(e)) && !Resolved(Root(e)) && WellFormed(Root(e)) && RefsIn(Root(e), Src(e).nodes)
  {
    hide Held, Apart, Plausible, Parts, References;
    AtLeastOne(e);
    RootEntries(e);
    NodesAreNodes(e);
  }

  /** No step, and nothing that holds one, is below the steps in rank. */
  lemma StepsAreHigh(e: Extension, k: nat, r: Path)
    requires Stated(e) && 1 <= k <= |e.steps|
    ensures !Bounded(Ref(e, k), r, e.rank, e.top) && !Bounded(Step(e, k), r, e.rank, e.top)
    ensures !Bounded(Held(e, k), r, e.rank, e.top)
  {
    hide Stated, Stack, NodeLookable;
    StatedPlausible(e);
    RefFit(e, k);
    assert e.top <= e.rank(Ref(e, k));
    assert !AllBelow(Step(e, k).pieces[0], e.rank, e.top);
    StackAt(e, k, 0);
    HighLayer(Stack(e, k), r, e.rank, e.top);
  }

  lemma HighLayer(stack: seq<Value>, r: Path, rank: Rank, b: nat)
    requires stack != [] && !Bounded(stack[0], r, rank, b)
    ensures !Bounded(Stacked(stack), r, rank, b)
  {
    if |stack| >= 2 && r == [] {
      assert !AllBelow(stack[0], rank, b);
    }
  }

  // ---------------------------------------------------------------- the meaning of the document

  lemma ExpectedResolved(e: Extension, k: nat)
    requires 1 <= |e.steps| && k <= |e.steps|
    ensures Resolved(Expected(e, k)) && Expected(e, k).List?
  {
    OwnRefsAssign(e);
    FullItemsResolved(Values(e, k), OwnRefs(e));
    if e.base.Some? {
      FullResolved(e.base.value, OwnRefs(e));
    }
  }

  lemma OwnRefsAssign(e: Extension)
    requires 1 <= |e.steps|
    ensures Assignment(OwnRefs(e))
  {
    forall n ensures ResolvedOption(OwnRefs(e)(n)) {
      if n.Reference? {
        RefResolved(Root(e), e.rank, n);
      }
    }
  }

  lemma AllRefsAssign(e: Extension)
    requires 1 <= |e.steps|
    ensures Assignment(AllRefs(e)) && Assignment(Meant(e).env)
  {
    OwnRefsAssign(e);
    forall n ensures ResolvedOption(AllRefs(e)(n)) {
      if n in StepRefs(e) {
        ExpectedResolved(e, StepOf(e, n) - 1);
      } else if n in e.readers.Values {
        ExpectedResolved(e, |e.steps|);
      }
    }
    forall n ensures ResolvedOption(EnvOf(AllRefs(e))(n)) {
      FullResolved(n, AllRefs(e));
    }
  }

  lemma OwnRefsSame(e: Extension, b: nat)
    requires Plausible(e) && Apart(e) && b <= e.top
    ensures SameBelow(RefsBelow(Root(e), e.rank, b), AllRefs(e), e.rank, b)
    ensures SameBelow(OwnRefs(e), AllRefs(e), e.rank, e.top)
  {
    hide NodeLookable;
    forall n: Value | n.Reference? && e.rank(n) < e.top ensures AllRefs(e)(n) == RefValue(Root(e), e.rank, n) {
      assert n !in StepRefs(e) && n !in e.readers.Values;
      assert OwnRefs(e)(n) == RefValue(Root(e), e.rank, n);
    }
  }

  /** What is below the steps in rank means what its own references say. */
  lemma PartMeans(e: Extension, v: Value)
    requires Plausible(e) && Apart(e) && AllBelow(v, e.rank, e.top)
    ensures Meaning(v, Meant(e).env) == Full(v, OwnRefs(e))
  {
    hide Apart;
    MeaningIsFull(v, AllRefs(e));
    OwnRefsSame(e, 0);
    SameFull(v, OwnRefs(e), AllRefs(e), e.rank, e.top);
  }

  /** What a reference outside the steps finds. */
  lemma OwnRefFound(e: Extension, n: Value)
    requires Plausible(e) && Apart(e) && n in References(Parts(e)) && n.Reference?
    ensures var s := Meant(e); var full := LookIn(RootMeaning(s), n.path);
      && NodeLookable(s, n) && e.rank(n) < e.top
      && s.env(n) == if full.Some? then full else LookIn(RootMeaning(s), n.path[n.prefixLength..])
  {
    hide LookIn, Absent, Visible;
    var all := AllRefs(e);
    AllRefsAssign(e);
    OwnRefsSame(e, e.rank(n));
    MeaningIsFull(Root(e), all);
    assert NodeLookable(Meant(e), n);
    RefFound(Root(e), e.rank, n, n.path, all);
    if LookIn(RootMeaning(Meant(e)), n.path).None? {
      RefFound(Root(e), e.rank, n, n.path[n.prefixLength..], all);
    }
    OwnRefsSame(e, e.top);
    assert all(n) == RefValue(Root(e), e.rank, n);
  }

  lemma OwnNode(e: Extension, n: Value)
    requires Stated(e) && n in Src(e).nodes
    ensures n.Reference? && e.rank(n) < e.top ==> n in References(Parts(e))
    ensures n.Concatenation? && AllBelow(n, e.rank, e.top) ==> n in References(Parts(e))
  {
    hide Stated;
    if n in StepRefs(e) {
      StepsAreHigh(e, StepOf(e, n), []);
    } else if n in e.readers.Values {
      StatedPlausible(e);
      var k :| k in e.readers && e.readers[k] == n;
      ReaderFit(e, k);
    } else if n !in References(Parts(e)) {
      var k :| 1 <= k <= |e.steps| && n == Step(e, k);
      StepsAreHigh(e, k, []);
    }
  }

  /** The equations of the document hold for everything below the steps. */
  lemma WorldIsCoherent(e: Extension, sure: bool)
    requires Stated(e) && (sure ==> Settles(Parts(e), Meant(e).env))
    ensures Coherent(WorldFor(e, sure))
  {
    hide LookIn, Absent, Meant, Sound, LooksAlong, AllBelow, Settles, Stated, Consolidated;
    StatedPlausible(e);
    var w := WorldFor(e, sure);
    SrcSound(e);
    MeantFacts(e);
    forall n | n in w.src.nodes && n.Reference? && e.rank(n) < e.top ensures NodeSolved(w, n) {
      OwnNode(e, n);
      OwnRefFound(e, n);
      LooksSame(w, n);
      if sure {
        SettledNodes(Parts(e), w.sense.env, n);
      }
    }
    forall c | c in w.src.nodes && c.Concatenation? && AllBelow(c, e.rank, e.top) ensures ConcatenationSolved(w, c) {
      OwnNode(e, c);
      StepJoined(e, c);
      if sure {
        SettledNodes(Parts(e), w.sense.env, c);
      }
    }
  }

  lemma MeantFacts(e: Extension)
    requires 1 <= |e.steps|
    ensures var s := Meant(e); s.root == Root(e) == Src(e).root && s.rank == e.rank && Assignment(s.env)
  {
    AllRefsAssign(e);
  }

  lemma StepJoined(e: Extension, c: Value)
    requires 1 <= |e.steps| && c.Concatenation?
    ensures var env := Meant(e).env;
      var joined := JoinedOutcome(Consolidated(PresentItems(c.pieces, env)));
      joined.Done? ==> env(c) == joined.value
  {
    ItemsAreFull(c.pieces, AllRefs(e));
  }

  // ---------------------------------------------------------------- the resolver's tables

  /** References in flight that are no steps' references, and not below the steps in rank. */
  ghost predicate Outside(e: Extension, outer: Replacements) {
    TableOk(outer) && forall n | n in outer :: n.Reference? && n !in StepRefs(e) && e.top <= e.rank(n)
  }

  lemma NothingOutside(e: Extension)
    ensures Outside(e, map[])
  {
  }

  /** The replacement table while the first `k` steps are resolved on behalf of the later ones, and all
      of them on behalf of what is in flight in `outer`. */
  function Busy(e: Extension, outer: Replacements, k: nat): (r: Replacements)
    requires |e.steps| >= 1 && k <= |e.steps|
    decreases |e.steps| - k, 0
  {
    if k == |e.steps| then outer else OnTop(e, outer, k + 1)[Ref(e, k + 1) := CycleReplacer]
  }

  /** The same while the top layer of the first `k` steps is resolved. */
  function OnTop(e: Extension, outer: Replacements, k: nat): (r: Replacements)
    requires 1 <= k <= |e.steps|
    decreases |e.steps| - k, 1
  {
    if |Stack(e, k)| >= 2 then Busy(e, outer, k)[Held(e, k) := BelowReplacer(Stack(e, k), 1)] else Busy(e, outer, k)
  }

  /** What is in flight: references of later steps, stacks of more layers, and what lies outside. */
  predicate Later(e: Extension, outer: Replacements, k: nat, v: Value)
    requires k <= |e.steps|
  {
    || (exists m :: k < m <= |e.steps| && v == Ref(e, m))
    || (exists m :: k < m <= |e.steps| && |Stack(e, m)| >= 2 && v == Held(e, m))
    || v in outer
  }

  lemma {:induction false} BusyFacts(e: Extension, outer: Replacements, k: nat)
    requires Plausible(e) && Outside(e, outer) && k <= |e.steps|
    ensures TableOk(Busy(e, outer, k))
    ensures forall key | key in Busy(e, outer, k) :: Later(e, outer, k, key)
    decreases |e.steps| - k
  {
    hide Held, Stack, Plausible, Later, Outside;
    if k == |e.steps| {
      OutsideFacts(e, outer);
    } else {
      BusyFacts(e, outer, k + 1);
      RefFit(e, k + 1);
      OnTopOk(e, outer, k + 1);
      forall key | key in Busy(e, outer, k) ensures Later(e, outer, k, key) {
        assert key == Ref(e, k + 1) || key in OnTop(e, outer, k + 1);
        LaterStill(e, outer, k, key);
      }
    }
  }

  lemma OutsideFacts(e: Extension, outer: Replacements)
    requires Outside(e, outer)
    ensures TableOk(outer) && forall v | v in outer :: Later(e, outer, |e.steps|, v)
  {
  }

  lemma LaterStill(e: Extension, outer: Replacements, k: nat, key: Value)
    requires k < |e.steps|
    requires key == Ref(e, k + 1) || Later(e, outer, k + 1, key) || (|Stack(e, k + 1)| >= 2 && key == Held(e, k + 1))
    ensures Later(e, outer, k, key)
  {
    hide Held, Stack;
  }

  lemma OnTopOk(e: Extension, outer: Replacements, k: nat)
    requires Plausible(e) && 1 <= k <= |e.steps| && TableOk(Busy(e, outer, k))
    ensures TableOk(OnTop(e, outer, k))
    ensures forall key | key in Busy(e, outer, k) :: key in OnTop(e, outer, k)
    ensures forall key | key in OnTop(e, outer, k) ::
      key in Busy(e, outer, k) || (|Stack(e, k)| >= 2 && key == Held(e, k))
  {
    hide Busy;
  }

  /** What is in flight on behalf of later steps stays in flight. */
  lemma OneStepDown(e: Extension, outer: Replacements, k: nat, v: Value)
    requires k < |e.steps|
    ensures Ref(e, k + 1) in Busy(e, outer, k)
    ensures |Stack(e, k + 1)| >= 2 && Held(e, k + 1) != Ref(e, k + 1) ==>
      && Held(e, k + 1) in Busy(e, outer, k)
      && Busy(e, outer, k)[Held(e, k + 1)] == BelowReplacer(Stack(e, k + 1), 1)
    ensures v in Busy(e, outer, k + 1) ==> v in Busy(e, outer, k)
    ensures v in Busy(e, outer, k + 1) && v != Ref(e, k + 1) && (|Stack(e, k + 1)| >= 2 ==> v != Held(e, k + 1)) ==>
      Busy(e, outer, k)[v] == Busy(e, outer, k + 1)[v]
  {
    hide Stack, Held;
  }

  /** Each later stack is replaced by what is below its top. */
  lemma {:induction false} BusyHolds(e: Extension, outer: Replacements, k: nat, m: nat)
    requires Plausible(e) && k < m <= |e.steps|
    ensures Ref(e, m) in Busy(e, outer, k)
    ensures |Stack(e, m)| >= 2 ==>
      Held(e, m) in Busy(e, outer, k) && Busy(e, outer, k)[Held(e, m)] == BelowReplacer(Stack(e, m), 1)
    decreases |e.steps| - k
  {
    hide Plausible, Busy, OnTop;
    RefFit(e, k + 1);
    OneStepDown(e, outer, k, Ref(e, m));
    OneStepDown(e, outer, k, Held(e, m));
    if k + 1 < m {
      BusyHolds(e, outer, k + 1, m);
      if |Stack(e, m)| >= 2 {
        DifferentStacks(e, k + 1, m);
      }
    }
  }

  lemma DifferentStacks(e: Extension, k: nat, m: nat)
    requires 1 <= k < m <= |e.steps| && |Stack(e, m)| >= 2
    ensures Held(e, m).DelayedMerge? && (|Stack(e, k)| >= 2 ==> Held(e, k) != Held(e, m))
  {
  }

  lemma NotLater(e: Extension, outer: Replacements, k: nat, v: Value)
    requires Plausible(e) && Outside(e, outer) && 1 <= k <= |e.steps|
    requires v == Ref(e, k) || v == Step(e, k) || (v.DelayedMerge? && |v.stack| <= |Stack(e, k)|)
    ensures !Later(e, outer, k, v)
  {
    RefFit(e, k);
    assert Ref(e, k) in StepRefs(e);
    forall m | k < m <= |e.steps| ensures v != Ref(e, m) {
      RefFit(e, m);
      assert e.steps[k - 1].reference != e.steps[m - 1].reference;
    }
    forall m | k < m <= |e.steps| && |Stack(e, m)| >= 2 ensures v != Held(e, m) {
      assert Held(e, m) == DelayedMerge(false, Stack(e, m));
    }
  }

  lemma OnTopFacts(e: Extension, outer: Replacements, k: nat)
    requires Plausible(e) && Outside(e, outer) && 1 <= k <= |e.steps|
    ensures TableOk(OnTop(e, outer, k))
    ensures Ref(e, k) !in OnTop(e, outer, k) && Step(e, k) !in OnTop(e, outer, k)
    ensures k < |e.steps| ==> ReferenceInFlight(OnTop(e, outer, k))
    ensures forall key | key in OnTop(e, outer, k) :: key.Reference? || key.DelayedMerge?
  {
    hide Plausible, Outside, Busy, OnTop, Held, Stack, Later;
    BusyFacts(e, outer, k);
    OnTopOk(e, outer, k);
    RefFit(e, k);
    NotLater(e, outer, k, Ref(e, k));
    NotLater(e, outer, k, Step(e, k));
    if |Stack(e, k)| >= 2 {
      assert Held(e, k).DelayedMerge? by { StackIsHeld(e, k); }
    }
    if k < |e.steps| {
      RefFit(e, k + 1);
      OneStepDown(e, outer, k, Ref(e, k));
      assert Ref(e, k + 1) in OnTop(e, outer, k);
    }
  }

  lemma StackIsHeld(e: Extension, k: nat)
    requires k <= |e.steps| && |Stack(e, k)| >= 2
    ensures Held(e, k) == DelayedMerge(false, Stack(e, k))
  {
  }
}
