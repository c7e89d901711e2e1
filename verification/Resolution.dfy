/** What the substitution resolver computes.

    The resolver is a recursive state machine over a replacement table (which breaks cycles and
    makes a merge stack look below the layer being resolved), a memo table, and a path
    restriction.  Here every step is a function from the tables to an outcome and new memos; the
    class `Resolver` runs the same steps on mutable tables.

    The contracts below hold for every finite document, cyclic or not: resolution terminates, the
    cycle exception only travels inside the resolution of a reference, and an unrestricted
    resolution returns fully resolved values.  Of the exceptions that report internal errors only
    one can be reached, the one for a concatenation all of whose pieces resolve to nothing, and
    only in a document with a concatenation all of whose pieces may vanish. */
module Resolution {
  import opened ConfigValues
  import opened MergeAlgebra
  import opened Concatenations
  import opened Measures

  // ---------------------------------------------------------------- tables and outcomes

  /** What stands in for a value while it is being resolved: for a reference the cycle exception,
      for a merge stack the layers below the one being resolved. */
  datatype Replacer = CycleReplacer | BelowReplacer(stack: seq<Value>, skipping: nat)

  type Replacements = map<Value, Replacer>

  /** A memo is kept for a value and a restriction; the empty path is "no restriction". */
  datatype MemoKey = MemoKey(value: Value, restriction: Path)

  type Memos = map<MemoKey, Option<Value>>

  /** The exceptions of the resolver other than the cycle exception.  `VanishedConcatenation`,
      `NotYetResolved` and `BugOrBroken` report internal errors; the first is the source's
      `ConfigExceptionBugOrBroken` for a concatenation that did not join to one value. */
  datatype Failure =
    | UnresolvedSubstitution
    | IncompatibleConcatenation
    | VanishedConcatenation
    | NotYetResolved
    | BugOrBroken

  /** A value (absent when optional substitutions vanish), `NotPossibleToResolve`, or a failure. */
  datatype Outcome<+T> = Done(value: T) | NotPossible | Failed(failure: Failure) {
    function Propagate<U>(): (r: Outcome<U>)
      requires !Done?
    {
      if NotPossible? then NotPossible else Failed(failure)
    }
  }

  datatype Answer<+T> = Answer(outcome: Outcome<T>, memos: Memos)

  /** The document under resolution: its root, the order in which the entries of an object are
      visited, its references and concatenations, and whether results are remembered.  The source
      always remembers; without it these functions are the memo-free resolver. */
  datatype Source = Source(root: Value, order: set<string> -> seq<string>, nodes: set<Value>, remembers: bool)

  // ---------------------------------------------------------------- invariants

  /** `order` lists every set of keys, each key once. */
  ghost predicate Ordering(order: set<string> -> seq<string>) {
    forall keys: set<string> :: multiset(order(keys)) == multiset(keys)
  }

  /** The keys of a set, picked one after the other. */
  ghost function Listing(keys: set<string>): (r: seq<string>)
    decreases |keys|
  {
    if keys == {} then [] else var k :| k in keys; [k] + Listing(keys - {k})
  }

  /** There is such an order. */
  lemma OrderingExists()
    ensures Ordering(Listing)
  {
    forall keys: set<string> ensures multiset(Listing(keys)) == multiset(keys) {
      ListsOnce(keys);
    }
  }

  lemma {:induction false} ListsOnce(keys: set<string>)
    ensures multiset(Listing(keys)) == multiset(keys)
    decreases |keys|
  {
    if keys != {} {
      var k :| k in keys && Listing(keys) == [k] + Listing(keys - {k});
      ListsOnce(keys - {k});
      assert multiset([k] + Listing(keys - {k})) == multiset{k} + multiset(Listing(keys - {k}));
    }
  }

  ghost predicate Sound(src: Source) {
    && src.root.Object? && WellFormed(src.root) && RefsIn(src.root, src.nodes)
    && (forall n | n in src.nodes :: n.Reference? || n.Concatenation?)
    && Ordering(src.order)
  }

  predicate TableOk(table: Replacements) {
    forall k | k in table ::
      || (k.Reference? && table[k] == CycleReplacer)
      || (k.DelayedMerge? && table[k].BelowReplacer? && table[k].stack == k.stack &&
          1 <= table[k].skipping <= |k.stack|)
  }

  /** A value the resolver may return under a restriction. */
  predicate Legal(src: Source, v: Value, restriction: Path) {
    && WellFormed(v)
    && RefsIn(v, src.nodes)
    && if restriction == [] then Resolved(v) else PartlyResolved(v, restriction)
  }

  predicate MemosOk(src: Source, memos: Memos) {
    forall k | k in memos ::
      && (memos[k].Some? ==> Legal(src, memos[k].value, k.restriction))
      && (k.value.Object? ==> memos[k].Some? && memos[k].value.Object?)
  }

  predicate ReferenceInFlight(table: Replacements) {
    exists k | k in table :: k.Reference?
  }

  /** Unless a reference is being resolved, nothing that is being resolved occurs in `v`. */
  predicate Guarded(table: Replacements, v: Value) {
    ReferenceInFlight(table) || forall k | k in table :: !Occurs(k, v)
  }

  ghost predicate Fit(src: Source, v: Value, table: Replacements) {
    && Sound(src) && TableOk(table)
    && WellFormed(v) && RefsIn(v, src.nodes) && Guarded(table, v)
  }

  ghost predicate Ready(src: Source, v: Value, table: Replacements, memos: Memos) {
    Fit(src, v, table) && MemosOk(src, memos)
  }

  /** The values that may resolve to nothing. */
  predicate MayVanish(v: Value) {
    (v.Reference? && v.optional) || v.DelayedMerge?
  }

  /** A concatenation all of whose pieces may vanish. */
  predicate Brittle(c: Value) {
    c.Concatenation? && forall i | 0 <= i < |c.pieces| :: MayVanish(c.pieces[i])
  }

  predicate HasBrittle(src: Source) {
    exists c | c in src.nodes :: Brittle(c)
  }

  /** The cycle exception only when a reference is in flight, and no internal error but the one for
      vanished concatenations, where the document has a brittle one. */
  predicate Contained<T>(src: Source, table: Replacements, outcome: Outcome<T>) {
    && (outcome.NotPossible? ==> ReferenceInFlight(table))
    && (outcome.Failed? ==> outcome.failure != BugOrBroken && outcome.failure != NotYetResolved)
    && (outcome.Failed? && outcome.failure == VanishedConcatenation ==> HasBrittle(src))
  }

  /** A lawful outcome of resolving `v`. */
  predicate Lawful(src: Source, v: Value, restriction: Path, table: Replacements, outcome: Outcome<Option<Value>>) {
    && Contained(src, table, outcome)
    && (outcome.Done? && outcome.value.Some? ==> Legal(src, outcome.value.value, restriction))
    && (outcome.Done? && v.Object? ==> outcome.value.Some? && outcome.value.value.Object?)
    && (outcome.Done? && outcome.value.None? ==> MayVanish(v))
  }

  // ---------------------------------------------------------------- memos

  /** `ResolveMemos::get`: a remembered absence counts as nothing remembered. */
  function Get(memos: Memos, key: MemoKey): (r: Option<Value>) {
    if key in memos then memos[key] else None
  }

  /** The full result answers every request; otherwise a restricted result answers its own. */
  function Recall(memos: Memos, v: Value, restriction: Path): (r: Option<Value>) {
    var full := Get(memos, MemoKey(v, []));
    if full.None? && restriction != [] then Get(memos, MemoKey(v, restriction)) else full
  }

  /** What the resolver finds remembered. */
  function Recalled(src: Source, memos: Memos, v: Value, restriction: Path): (r: Option<Value>) {
    if src.remembers then Recall(memos, v, restriction) else None
  }

  lemma RecallLegal(src: Source, memos: Memos, v: Value, restriction: Path)
    requires MemosOk(src, memos)
    ensures Recall(memos, v, restriction).Some? ==>
      Legal(src, Recall(memos, v, restriction).value, restriction) &&
      (v.Object? ==> Recall(memos, v, restriction).value.Object?)
  {
    var full := Get(memos, MemoKey(v, []));
    if full.Some? && restriction != [] {
      ResolvedIsPartlyResolved(full.value, restriction);
    }
  }

  // ---------------------------------------------------------------- looking up without resolving

  datatype Peeked = Found(value: Option<Value>) | PeekFailed(failure: Failure)

  function PeekedOutcome(peeked: Peeked): (r: Outcome<Option<Value>>) {
    if peeked.Found? then Done(peeked.value) else Failed(peeked.failure)
  }

  /** `attempt_peek_with_partial_resolve`. */
  function AttemptPeek(o: Value, key: string): (r: Peeked)
    requires IsObject(o)
  {
    if o.Object? then Found(if key in o.fields then Some(o.fields[key]) else None)
    else PeekLayers(o.stack, key)
  }

  /** The walk over the layers of an object stack: the first layer that has the key with a value
      that ignores fallbacks answers; a non-object layer hides what is below. */
  function PeekLayers(stack: seq<Value>, key: string): (r: Peeked)
  {
    if stack == [] then PeekFailed(BugOrBroken)
    else
      var layer := stack[0];
      if layer.Object? then
        if key in layer.fields && IgnoresFallbacks(layer.fields[key]) then Found(Some(layer.fields[key]))
        else PeekLayers(stack[1..], key)
      else if Unmergeable(layer) then PeekFailed(NotYetResolved)
      else Found(None)
  }

  /** `peek_path` without a resolve context. */
  function PeekPath(o: Value, path: Path): (r: Peeked)
    requires IsObject(o) && path != []
    decreases |path|
  {
    var peeked := AttemptPeek(o, path[0]);
    if peeked.PeekFailed? || |path| == 1 then peeked
    else if peeked.value.Some? && IsObject(peeked.value.value) then PeekPath(peeked.value.value, path[1..])
    else Found(None)
  }

  lemma {:induction false} PeekLayersSafe(src: Source, stack: seq<Value>, path: Path)
    requires path != []
    requires forall i | 0 <= i < |stack| ::
      !stack[i].DelayedMerge? && WellFormed(stack[i]) && RefsIn(stack[i], src.nodes) && PartlyResolved(stack[i], path)
    requires exists i | 0 <= i < |stack| :: !stack[i].Object?
    ensures var p := PeekLayers(stack, path[0]);
      p.Found? && (p.value.Some? ==>
        WellFormed(p.value.value) && RefsIn(p.value.value, src.nodes) &&
        (|path| > 1 ==> PartlyResolved(p.value.value, path[1..])))
    decreases |stack|
  {
    if stack[0].Object? {
      var i :| 0 <= i < |stack| && !stack[i].Object?;
      assert stack[1..][i - 1] == stack[i];
      PeekLayersSafe(src, stack[1..], path);
    }
  }

  /** After a resolution restricted to a path, looking the path up cannot fail. */
  lemma {:induction false} PeekPathSafe(src: Source, o: Value, path: Path)
    requires IsObject(o) && path != [] && WellFormed(o) && RefsIn(o, src.nodes) && PartlyResolved(o, path)
    ensures var p := PeekPath(o, path);
      p.Found? && (p.value.Some? ==> WellFormed(p.value.value) && RefsIn(p.value.value, src.nodes))
    decreases |path|
  {
    if o.DelayedMerge? {
      PeekLayersSafe(src, o.stack, path);
    }
    var peeked := AttemptPeek(o, path[0]);
    if |path| > 1 && peeked.value.Some? && IsObject(peeked.value.value) {
      PeekPathSafe(src, peeked.value.value, path[1..]);
    }
  }

  // ---------------------------------------------------------------- resolving

  /** `ResolveContext::resolve`: memo, else resolve and remember. */
  ghost function Resolve(src: Source, v: Value, restriction: Path, table: Replacements, memos: Memos)
    : (a: Answer<Option<Value>>)
    requires Ready(src, v, table, memos)
    ensures MemosOk(src, a.memos) && Lawful(src, v, restriction, table, a.outcome)
    decreases |src.nodes - table.Keys|, Weight(v), 4
  {
    RecallLegal(src, memos, v, restriction);
    var cached := Recalled(src, memos, v, restriction);
    if cached.Some? then Answer(Done(cached), memos)
    else Remembered(src, v, restriction, ResolveCheckingReplacement(src, v, restriction, table, memos))
  }

  /** The memo a finished resolution leaves: under the full key when nothing is left unresolved,
      otherwise under the restriction. */
  function Remembered(src: Source, v: Value, restriction: Path, a: Answer<Option<Value>>): (r: Answer<Option<Value>>)
  {
    if !a.outcome.Done? then a
    else
      var result := a.outcome.value;
      if result.None? || Resolved(result.value) then Answer(a.outcome, Put(src, a.memos, MemoKey(v, []), result))
      else if restriction != [] then Answer(a.outcome, Put(src, a.memos, MemoKey(v, restriction), result))
      else Answer(Failed(BugOrBroken), a.memos)
  }

  /** `ResolveMemos::put`, unless nothing is remembered. */
  function Put(src: Source, memos: Memos, key: MemoKey, result: Option<Value>): (r: Memos) {
    if src.remembers then memos[key := result] else memos
  }

  /** `ResolveSource::resolve_checking_replacement`. */
  ghost function ResolveCheckingReplacement(src: Source, v: Value, restriction: Path, table: Replacements, memos: Memos)
    : (a: Answer<Option<Value>>)
    requires Ready(src, v, table, memos)
    ensures MemosOk(src, a.memos) && Lawful(src, v, restriction, table, a.outcome)
    decreases |src.nodes - table.Keys|, Weight(v), 3
  {
    if v in table then
      if table[v].CycleReplacer? || table[v].skipping == |v.stack| then
        OccursInItself(v);
        Answer(NotPossible, memos)
      else
        var below := v.stack[table[v].skipping..];
        BelowIsReady(src, v, table, memos);
        Resolve(src, MergeLayers(below), restriction, table, memos)
    else ResolveSubstitutions(src, v, restriction, table, memos)
  }

  lemma OccursInItself(v: Value)
    ensures Occurs(v, v)
  {
  }

  /** What stands in for a merge stack is lighter than the stack. */
  lemma BelowIsReady(src: Source, v: Value, table: Replacements, memos: Memos)
    requires Ready(src, v, table, memos)
    requires v in table && v.DelayedMerge? && table[v].skipping < |v.stack|
    ensures var below := v.stack[table[v].skipping..];
      Ready(src, MergeLayers(below), table, memos) && Weight(MergeLayers(below)) < Weight(v)
  {
    var below := v.stack[table[v].skipping..];
    assert forall i | 0 <= i < |below| :: below[i] == v.stack[table[v].skipping + i];
    MergeLayersWellFormed(below);
    MergeLayersRefs(below, src.nodes);
    MergeLayersWeight(below);
    TailWeight(v.stack, table[v].skipping);
    OccursInItself(v);
  }

  /** What is neither remembered nor in flight is resolved by its own class. */
  lemma ResolveFresh(src: Source, v: Value, restriction: Path, table: Replacements, memos: Memos)
    requires Ready(src, v, table, memos) && v !in table && Recalled(src, memos, v, restriction).None?
    ensures Resolve(src, v, restriction, table, memos) ==
      Remembered(src, v, restriction, ResolveSubstitutions(src, v, restriction, table, memos))
  {
  }

  /** Re-entering a stack that is being resolved resolves the layers below instead. */
  lemma ReenteredStack(src: Source, v: Value, restriction: Path, table: Replacements, memos: Memos)
    requires Ready(src, v, table, memos) && v in table && v.DelayedMerge? && table[v].skipping < |v.stack|
    requires Recalled(src, memos, v, restriction).None?
    ensures Ready(src, MergeLayers(v.stack[table[v].skipping..]), table, memos)
    ensures Resolve(src, v, restriction, table, memos) ==
      Remembered(src, v, restriction,
                 Resolve(src, MergeLayers(v.stack[table[v].skipping..]), restriction, table, memos))
  {
    BelowIsReady(src, v, table, memos);
  }

  /** The virtual `resolve_substitutions`: resolved values resolve to themselves, every other class
      has its own way. */
  ghost function ResolveSubstitutions(src: Source, v: Value, restriction: Path, table: Replacements, memos: Memos)
    : (a: Answer<Option<Value>>)
    requires Ready(src, v, table, memos) && v !in table
    ensures MemosOk(src, a.memos) && Lawful(src, v, restriction, table, a.outcome)
    decreases |src.nodes - table.Keys|, Weight(v), 2
  {
    if Resolved(v) then
      ResolvedLegal(src, v, restriction);
      Answer(Done(Some(v)), memos)
    else
      match v
      case Object(_, _) => ResolveObject(src, v, restriction, table, memos)
      case List(_) => ResolveList(src, v, restriction, table, memos)
      case Concatenation(_) => ResolveConcatenation(src, v, restriction, table, memos)
      case DelayedMerge(_, _) => ResolveDelayedMerge(src, v, restriction, table, memos)
      case Reference(_, _, _, _) => ResolveReference(src, v, restriction, table, memos)
  }

  /** `SimpleConfigObject::resolve_substitutions`. */
  ghost function ResolveObject(src: Source, v: Value, restriction: Path, table: Replacements, memos: Memos)
    : (a: Answer<Option<Value>>)
    requires v.Object? && Ready(src, v, table, memos)
    ensures MemosOk(src, a.memos) && Lawful(src, v, restriction, table, a.outcome)
    decreases |src.nodes - table.Keys|, Weight(v), 1
  {
    ObjectParts(src, v, table);
    var a := ResolveFields(src, v, src.order(v.fields.Keys), map[], restriction, table, memos);
    if !a.outcome.Done? then Answer(a.outcome.Propagate(), a.memos)
    else Answer(Done(Some(Object(a.outcome.value, v.ignoresFallbacks))), a.memos)
  }

  /** `SimpleConfigList::resolve_substitutions`: a list has no child paths, so a restricted
      resolution leaves it alone. */
  ghost function ResolveList(src: Source, v: Value, restriction: Path, table: Replacements, memos: Memos)
    : (a: Answer<Option<Value>>)
    requires v.List? && Ready(src, v, table, memos)
    ensures MemosOk(src, a.memos) && Lawful(src, v, restriction, table, a.outcome)
    decreases |src.nodes - table.Keys|, Weight(v), 1
  {
    if restriction != [] then Answer(Done(Some(v)), memos)
    else
      ItemParts(src, v, v.items, table);
      var a := ResolveItems(src, v.items, [], table, memos);
      if !a.outcome.Done? then Answer(a.outcome.Propagate(), a.memos)
      else Answer(Done(Some(List(a.outcome.value))), a.memos)
  }

  /** `ConfigConcatenation::resolve_substitutions`: the pieces are resolved without restriction
      and joined. */
  ghost function ResolveConcatenation(src: Source, v: Value, restriction: Path, table: Replacements, memos: Memos)
    : (a: Answer<Option<Value>>)
    requires v.Concatenation? && Ready(src, v, table, memos)
    ensures MemosOk(src, a.memos) && Lawful(src, v, restriction, table, a.outcome)
    decreases |src.nodes - table.Keys|, Weight(v), 1
  {
    ItemParts(src, v, v.pieces, table);
    var a := ResolveItems(src, v.pieces, [], table, memos);
    if !a.outcome.Done? then Answer(a.outcome.Propagate(), a.memos)
    else
      JoinedLegal(src, a.outcome.value, restriction);
      assert a.outcome.value == [] ==> Brittle(v) && v in src.nodes;
      Answer(JoinedOutcome(Consolidated(a.outcome.value)), a.memos)
  }

  /** `ConfigDelayedMerge::resolve_substitutions`, with the check an object stack adds. */
  ghost function ResolveDelayedMerge(src: Source, v: Value, restriction: Path, table: Replacements, memos: Memos)
    : (a: Answer<Option<Value>>)
    requires v.DelayedMerge? && Ready(src, v, table, memos) && v !in table
    ensures MemosOk(src, a.memos) && Lawful(src, v, restriction, table, a.outcome)
    decreases |src.nodes - table.Keys|, Weight(v), 1
  {
    var a := ResolveLayers(src, v, 0, None, restriction, table, memos);
    if a.outcome.Done? && v.objectHeaded && !(a.outcome.value.Some? && IsObject(a.outcome.value.value))
    then Answer(Failed(BugOrBroken), a.memos)
    else a
  }

  /** `ConfigReference::resolve_substitutions`: in flight while it is looked up. */
  ghost function ResolveReference(src: Source, v: Value, restriction: Path, table: Replacements, memos: Memos)
    : (a: Answer<Option<Value>>)
    requires v.Reference? && Ready(src, v, table, memos) && v !in table
    ensures MemosOk(src, a.memos) && Lawful(src, v, restriction, table, a.outcome)
    decreases |src.nodes - table.Keys|, Weight(v), 1
  {
    InFlightCount(src, v, table);
    var a := LookupSubst(src, v, restriction, table[v := CycleReplacer], memos);
    Answer(FirewalledOutcome(v, a.outcome), a.memos)
  }

  /** `ConfigReference::resolve_substitutions` is a firewall: the cycle exception becomes absence
      or an unresolved substitution. */
  function FirewalledOutcome(reference: Value, outcome: Outcome<Option<Value>>): (r: Outcome<Option<Value>>)
    requires reference.Reference?
    ensures !r.NotPossible?
  {
    match outcome
    case NotPossible => if reference.optional then Done(None) else Failed(UnresolvedSubstitution)
    case Done(None) => if reference.optional then Done(None) else Failed(UnresolvedSubstitution)
    case _ => outcome
  }

  /** The end of `ConfigConcatenation::resolve_substitutions`: exactly one joined value.  When all
      pieces have vanished the source raises its internal-error exception, on legal documents. */
  function JoinedOutcome(joined: Joined<seq<Value>>): (r: Outcome<Option<Value>>) {
    match joined
    case Refused(WrongType) => Failed(IncompatibleConcatenation)
    case Refused(Unflattened) => Failed(BugOrBroken)
    case Fine(pieces) => if |pieces| == 1 then Done(Some(pieces[0])) else Failed(VanishedConcatenation)
  }

  /** `SimpleConfigObject::modify_may_throw` over the entries still to visit: the children that
      remain, each replaced by what it resolved to, are added to those already `kept`. */
  ghost function ResolveFields(src: Source, o: Value, keys: seq<string>, kept: map<string, Value>, restriction: Path,
                               table: Replacements, memos: Memos)
    : (a: Answer<map<string, Value>>)
    requires o.Object? && Ready(src, o, table, memos)
    requires forall i | 0 <= i < |keys| :: keys[i] in o.fields
    requires forall k | k in o.fields :: Fit(src, o.fields[k], table) && Weight(o.fields[k]) < Weight(o)
    requires FieldsLegal(src, restriction, kept)
    ensures MemosOk(src, a.memos) && Contained(src, table, a.outcome)
    ensures a.outcome.Done? ==> FieldsLegal(src, restriction, a.outcome.value)
    decreases |src.nodes - table.Keys|, Weight(o), 0, |keys|
  {
    if keys == [] then Answer(Done(kept), memos)
    else
      var child := ResolveChild(src, o, keys[0], restriction, table, memos);
      if !child.outcome.Done? then Answer(child.outcome.Propagate(), child.memos)
      else ResolveFields(src, o, keys[1..], Kept(kept, keys[0], child.outcome.value), restriction, table, child.memos)
  }

  /** A child that resolved to nothing is removed. */
  function Kept(kept: map<string, Value>, key: string, child: Option<Value>): (r: map<string, Value>) {
    if child.Some? then kept[key := child.value] else kept
  }

  predicate FieldsLegal(src: Source, restriction: Path, fields: map<string, Value>) {
    forall k | k in fields :: FieldLegal(src, restriction, k, fields[k])
  }

  /** A child of a resolved object: resolved, or on the restriction's way resolved along it. */
  predicate FieldLegal(src: Source, restriction: Path, key: string, v: Value) {
    && WellFormed(v)
    && RefsIn(v, src.nodes)
    && if restriction == [] then Resolved(v)
       else |restriction| > 1 && key == restriction[0] ==> PartlyResolved(v, restriction[1..])
  }

  /** `SimpleConfigObjectModifier::modify_child_may_throw`: under a restriction only the child on
      its way is resolved, and the leaf is left alone. */
  ghost function ResolveChild(src: Source, o: Value, key: string, restriction: Path, table: Replacements, memos: Memos)
    : (a: Answer<Option<Value>>)
    requires o.Object? && key in o.fields && Ready(src, o.fields[key], table, memos)
    requires Weight(o.fields[key]) < Weight(o)
    ensures MemosOk(src, a.memos) && Contained(src, table, a.outcome)
    ensures a.outcome.Done? && a.outcome.value.Some? ==> FieldLegal(src, restriction, key, a.outcome.value.value)
    decreases |src.nodes - table.Keys|, Weight(o), 0, 0
  {
    if restriction == [] then Resolve(src, o.fields[key], [], table, memos)
    else if key == restriction[0] && |restriction| > 1 then Resolve(src, o.fields[key], restriction[1..], table, memos)
    else Answer(Done(Some(o.fields[key])), memos)
  }

  /** Items of a list, or pieces of a concatenation: resolved in order and added to those already
      `kept`, the absent ones dropped. */
  ghost function ResolveItems(src: Source, items: seq<Value>, kept: seq<Value>, table: Replacements, memos: Memos)
    : (a: Answer<seq<Value>>)
    requires MemosOk(src, memos) && forall i | 0 <= i < |items| :: Fit(src, items[i], table)
    requires forall i | 0 <= i < |kept| :: Legal(src, kept[i], [])
    ensures MemosOk(src, a.memos) && Contained(src, table, a.outcome)
    ensures a.outcome.Done? ==> forall i | 0 <= i < |a.outcome.value| :: Legal(src, a.outcome.value[i], [])
    ensures a.outcome.Done? && a.outcome.value == [] ==>
      kept == [] && forall i | 0 <= i < |items| :: MayVanish(items[i])
    decreases |src.nodes - table.Keys|, TotalWeight(items), 5
  {
    if items == [] then Answer(Done(kept), memos)
    else
      var first := Resolve(src, items[0], [], table, memos);
      if !first.outcome.Done? then Answer(first.outcome.Propagate(), first.memos)
      else ResolveItems(src, items[1..], kept + Present(first.outcome.value), table, first.memos)
  }

  function Present(v: Option<Value>): (r: seq<Value>) {
    if v.Some? then [v.value] else []
  }

  /** The loop of `ConfigDelayedMerge::resolve_substitutions`, from layer `i` on.  While an
      unmergeable layer is resolved, the stack is replaced by the layers below it. */
  ghost function ResolveLayers(src: Source, stacked: Value, i: nat, merged: Option<Value>, restriction: Path,
                               table: Replacements, memos: Memos)
    : (a: Answer<Option<Value>>)
    requires LayersReady(src, stacked, i, merged, restriction, table, memos)
    ensures MemosOk(src, a.memos) && Contained(src, table, a.outcome)
    ensures a.outcome.Done? ==> MergedSoFar(src, stacked, |stacked.stack|, a.outcome.value, restriction)
    decreases |src.nodes - table.Keys|, Weight(stacked), 0, |stacked.stack| - i
  {
    if i == |stacked.stack| then Answer(Done(merged), memos)
    else
      LayerParts(src, stacked, i, table);
      var layer := stacked.stack[i];
      var a := Resolve(src, layer, restriction, LayerTable(stacked, i, table), memos);
      if !a.outcome.Done? then a
      else
        LayerMerged(src, stacked, i, merged, a.outcome.value, restriction);
        ResolveLayers(src, stacked, i + 1, MergeOptional(merged, a.outcome.value), restriction, table, a.memos)
  }

  ghost predicate LayersReady(src: Source, stacked: Value, i: nat, merged: Option<Value>, restriction: Path,
                              table: Replacements, memos: Memos) {
    && stacked.DelayedMerge? && Ready(src, stacked, table, memos) && stacked !in table && i <= |stacked.stack|
    && MergedSoFar(src, stacked, i, merged, restriction)
  }

  /** One step of that loop. */
  lemma LayersStep(src: Source, stacked: Value, i: nat, merged: Option<Value>, restriction: Path,
                   table: Replacements, memos: Memos)
    requires LayersReady(src, stacked, i, merged, restriction, table, memos) && i < |stacked.stack|
    ensures Fit(src, stacked.stack[i], LayerTable(stacked, i, table)) && Weight(stacked.stack[i]) < Weight(stacked)
    ensures src.nodes - LayerTable(stacked, i, table).Keys == src.nodes - table.Keys
    ensures var a := Resolve(src, stacked.stack[i], restriction, LayerTable(stacked, i, table), memos);
      && (a.outcome.Done? ==>
           LayersReady(src, stacked, i + 1, MergeOptional(merged, a.outcome.value), restriction, table, a.memos))
      && ResolveLayers(src, stacked, i, merged, restriction, table, memos) ==
         if a.outcome.Done?
         then ResolveLayers(src, stacked, i + 1, MergeOptional(merged, a.outcome.value), restriction, table, a.memos)
         else a
  {
    LayerParts(src, stacked, i, table);
    var a := Resolve(src, stacked.stack[i], restriction, LayerTable(stacked, i, table), memos);
    if a.outcome.Done? {
      LayerMerged(src, stacked, i, merged, a.outcome.value, restriction);
    }
  }

  /** What has been merged of the first `i` layers: lawful, and an object for an object stack. */
  predicate MergedSoFar(src: Source, stacked: Value, i: nat, merged: Option<Value>, restriction: Path)
    requires stacked.DelayedMerge?
  {
    && (i == 0 ==> merged.None?)
    && (merged.Some? ==> Legal(src, merged.value, restriction))
    && (stacked.objectHeaded && i > 0 ==> merged.Some? && IsObject(merged.value))
  }

  lemma LayerMerged(src: Source, stacked: Value, i: nat, merged: Option<Value>, layer: Option<Value>, restriction: Path)
    requires stacked.DelayedMerge? && WellFormed(stacked) && i < |stacked.stack|
    requires MergedSoFar(src, stacked, i, merged, restriction)
    requires layer.Some? ==> Legal(src, layer.value, restriction)
    requires stacked.stack[i].Object? ==> layer.Some? && layer.value.Object?
    ensures MergedSoFar(src, stacked, i + 1, MergeOptional(merged, layer), restriction)
  {
    MergeOptionalLegal(src, merged, layer, restriction);
  }

  /** The replacement table while layer `i` is resolved. */
  function LayerTable(stacked: Value, i: nat, table: Replacements): (r: Replacements)
    requires stacked.DelayedMerge? && i < |stacked.stack|
  {
    if Unmergeable(stacked.stack[i]) then table[stacked := BelowReplacer(stacked.stack, i + 1)] else table
  }

  /** `ResolveSource::lookup_subst`: the full path, then the path without the prefix added by
      inclusion; what is found is resolved in turn. */
  ghost function LookupSubst(src: Source, reference: Value, restriction: Path, table: Replacements, memos: Memos)
    : (a: Answer<Option<Value>>)
    requires reference.Reference? && Ready(src, reference, table, memos) && reference in table
    ensures MemosOk(src, a.memos) && Contained(src, table, a.outcome)
    ensures a.outcome.Done? && a.outcome.value.Some? ==> Legal(src, a.outcome.value.value, restriction)
    decreases |src.nodes - table.Keys| + 1, 0, 2
  {
    var found := FindInRoot(src, reference.path, table, memos);
    if !found.outcome.Done? then found
    else if found.outcome.value.Some? then Resolve(src, found.outcome.value.value, restriction, table, found.memos)
    else if reference.prefixLength == 0 then found
    else
      var unprefixed := FindInRoot(src, reference.path[reference.prefixLength..], table, found.memos);
      if !unprefixed.outcome.Done? || unprefixed.outcome.value.None? then unprefixed
      else Resolve(src, unprefixed.outcome.value.value, restriction, table, unprefixed.memos)
  }

  /** `peek_path` with a resolve context: resolve the root along the path, then look it up. */
  ghost function FindInRoot(src: Source, path: Path, table: Replacements, memos: Memos)
    : (a: Answer<Option<Value>>)
    requires Sound(src) && TableOk(table) && MemosOk(src, memos) && path != [] && ReferenceInFlight(table)
    ensures MemosOk(src, a.memos) && Contained(src, table, a.outcome)
    ensures a.outcome.Done? && a.outcome.value.Some? ==>
      WellFormed(a.outcome.value.value) && RefsIn(a.outcome.value.value, src.nodes)
    decreases |src.nodes - table.Keys| + 1, 0, 1
  {
    var partial := Resolve(src, src.root, path, table, memos);
    if !partial.outcome.Done? then partial
    else if partial.outcome.value.Some? && IsObject(partial.outcome.value.value) then
      PeekPathSafe(src, partial.outcome.value.value, path);
      Answer(PeekedOutcome(PeekPath(partial.outcome.value.value, path)), partial.memos)
    else Answer(Failed(BugOrBroken), partial.memos)
  }

  // ---------------------------------------------------------------- lemmas for the contracts

  lemma ResolvedLegal(src: Source, v: Value, restriction: Path)
    requires Resolved(v)
    ensures Legal(src, v, restriction)
  {
    ResolvedIsWellFormed(v);
    ResolvedRefsIn(v, src.nodes);
    if restriction != [] {
      ResolvedIsPartlyResolved(v, restriction);
    }
  }

  lemma ObjectParts(src: Source, o: Value, table: Replacements)
    requires o.Object? && Fit(src, o, table)
    ensures forall k | k in o.fields :: Fit(src, o.fields[k], table) && Weight(o.fields[k]) < Weight(o)
    ensures forall i | 0 <= i < |src.order(o.fields.Keys)| :: src.order(o.fields.Keys)[i] in o.fields
  {
    forall k | k in o.fields ensures Fit(src, o.fields[k], table) && Weight(o.fields[k]) < Weight(o) {
      FieldWeight(o, o.fields.Keys, k);
    }
    OrderedKeys(src.order, o.fields.Keys);
  }

  /** An ordering lists exactly the given keys. */
  lemma OrderedKeys(order: set<string> -> seq<string>, keys: set<string>)
    requires Ordering(order)
    ensures forall k :: k in order(keys) <==> k in keys
  {
    forall k ensures k in order(keys) <==> k in keys {
      assert k in multiset(order(keys)) <==> k in multiset(keys);
    }
  }

  lemma EachKeyOnce(order: set<string> -> seq<string>, keys: set<string>)
    requires Ordering(order)
    ensures forall i, j | 0 <= i < j < |order(keys)| :: order(keys)[i] != order(keys)[j]
  {
    var s := order(keys);
    forall i, j | 0 <= i < j < |s| ensures s[i] != s[j] {
      assert multiset(s) == multiset(keys);
      assert s == s[..j] + s[j..] && s[i] in s[..j] && s[j] in s[j..];
      assert multiset(s)[s[j]] == multiset(s[..j])[s[j]] + multiset(s[j..])[s[j]];
      assert multiset(keys)[s[j]] <= 1;
    }
  }

  lemma ItemParts(src: Source, v: Value, items: seq<Value>, table: Replacements)
    requires Fit(src, v, table)
    requires (v.List? && v.items == items) || (v.Concatenation? && v.pieces == items)
    ensures forall i | 0 <= i < |items| :: Fit(src, items[i], table)
  {
  }

  lemma LayerParts(src: Source, stacked: Value, i: nat, table: Replacements)
    requires stacked.DelayedMerge? && Fit(src, stacked, table) && stacked !in table && i < |stacked.stack|
    ensures Fit(src, stacked.stack[i], LayerTable(stacked, i, table))
    ensures Weight(stacked.stack[i]) < Weight(stacked)
    ensures src.nodes - LayerTable(stacked, i, table).Keys == src.nodes - table.Keys
    ensures ReferenceInFlight(LayerTable(stacked, i, table)) <==> ReferenceInFlight(table)
  {
    var layer, inner := stacked.stack[i], LayerTable(stacked, i, table);
    MemberWeight(stacked.stack, i);
    if Occurs(stacked, layer) {
      OccursWeight(stacked, layer);
    }
    if ReferenceInFlight(table) {
      var k :| k in table && k.Reference?;
      assert k in inner;
    }
  }

  lemma InFlightCount(src: Source, reference: Value, table: Replacements)
    requires reference in src.nodes && reference !in table
    ensures |src.nodes - table[reference := CycleReplacer].Keys| == |src.nodes - table.Keys| - 1
  {
    assert src.nodes - table[reference := CycleReplacer].Keys == (src.nodes - table.Keys) - {reference};
  }

  lemma Restored(table: Replacements, key: Value, replacer: Replacer)
    requires key !in table
    ensures table[key := replacer] - {key} == table
  {
  }

  /** A reference can be looked up once it is in flight. */
  lemma ReferenceReady(src: Source, reference: Value, table: Replacements, memos: Memos)
    requires reference.Reference? && Ready(src, reference, table, memos) && reference !in table
    ensures Ready(src, reference, table[reference := CycleReplacer], memos)
    ensures table[reference := CycleReplacer] - {reference} == table
    ensures |src.nodes - table[reference := CycleReplacer].Keys| == |src.nodes - table.Keys| - 1
  {
    InFlightCount(src, reference, table);
    Restored(table, reference, CycleReplacer);
    var inner := table[reference := CycleReplacer];
    assert reference in inner;
    assert TableOk(inner) by {
      forall k | k in inner && k != reference ensures k in table && inner[k] == table[k] {
      }
    }
  }

  lemma MergeOptionalLegal(src: Source, a: Option<Value>, b: Option<Value>, restriction: Path)
    requires a.Some? ==> Legal(src, a.value, restriction)
    requires b.Some? ==> Legal(src, b.value, restriction)
    ensures var m := MergeOptional(a, b);
      && (m.Some? ==> Legal(src, m.value, restriction))
      && (a.Some? ==> m.Some? && (IsObject(m.value) <==> IsObject(a.value)))
  {
    if a.Some? && b.Some? {
      WithFallbackWellFormed(a.value, b.value);
      WithFallbackRefs(a.value, b.value, src.nodes);
      if restriction == [] {
        WithFallbackResolved(a.value, b.value);
      } else {
        WithFallbackPartly(a.value, b.value, restriction);
      }
    }
  }

  lemma JoinedLegal(src: Source, pieces: seq<Value>, restriction: Path)
    requires forall i | 0 <= i < |pieces| :: Resolved(pieces[i])
    ensures var r := JoinedOutcome(Consolidated(pieces));
      && !r.NotPossible?
      && (r.Failed? ==> r.failure == IncompatibleConcatenation || r.failure == VanishedConcatenation)
      && (r.Done? ==> r.value.Some? && Legal(src, r.value.value, restriction))
      && (r == Failed(VanishedConcatenation) <==> pieces == [])
  {
    ResolvedPiecesJoin(pieces);
    var r := JoinedOutcome(Consolidated(pieces));
    if r.Done? {
      ResolvedLegal(src, r.value.value, restriction);
    }
  }

  /** The first of the entries still to visit, without restriction. */
  lemma FieldsStep(src: Source, o: Value, keys: seq<string>, kept: map<string, Value>, table: Replacements,
                   memos: Memos)
    requires o.Object? && Ready(src, o, table, memos) && FieldsLegal(src, [], kept)
    requires forall i | 0 <= i < |keys| :: keys[i] in o.fields
    requires forall k | k in o.fields :: Fit(src, o.fields[k], table) && Weight(o.fields[k]) < Weight(o)
    ensures
      if keys == [] then ResolveFields(src, o, keys, kept, [], table, memos) == Answer(Done(kept), memos)
      else
        var child := Resolve(src, o.fields[keys[0]], [], table, memos);
        child.outcome.Done? ==>
          && FieldsLegal(src, [], Kept(kept, keys[0], child.outcome.value))
          && ResolveFields(src, o, keys, kept, [], table, memos)
             == ResolveFields(src, o, keys[1..], Kept(kept, keys[0], child.outcome.value), [], table, child.memos)
  {
    hide Resolve, Fit, Weight, FieldLegal, MemosOk;
    if keys != [] {
      assert ResolveChild(src, o, keys[0], [], table, memos) == Resolve(src, o.fields[keys[0]], [], table, memos);
    }
  }

  /** Along a path of one key no child is resolved. */
  lemma {:induction false} AllKept(src: Source, root: Value, path: Path, keys: seq<string>, kept: map<string, Value>,
                                   table: Replacements, memos: Memos)
    requires root.Object? && |path| == 1 && Ready(src, root, table, memos)
    requires forall i | 0 <= i < |keys| :: keys[i] in root.fields
    requires forall k | k in root.fields :: Fit(src, root.fields[k], table) && Weight(root.fields[k]) < Weight(root)
    requires FieldsLegal(src, path, kept)
    requires forall k | k in kept :: k in root.fields && kept[k] == root.fields[k]
    requires forall k | k in root.fields :: k in kept || k in keys
    ensures ResolveFields(src, root, keys, kept, path, table, memos) == Answer(Done(root.fields), memos)
    decreases |keys|
  {
    hide Fit, Weight, MemosOk, Contained;
    if keys == [] {
      assert kept == root.fields;
    } else {
      var key := keys[0];
      assert ResolveChild(src, root, key, path, table, memos) == Answer(Done(Some(root.fields[key])), memos);
      AllKept(src, root, path, keys[1..], kept[key := root.fields[key]], table, memos);
    }
  }

  // ---------------------------------------------------------------- the outermost resolve

  predicate IsNode(n: Value) {
    n.Reference? || n.Concatenation?
  }

  /** The references and concatenations of a value. */
  ghost function References(v: Value): (r: set<Value>)
    decreases v
  {
    match v
    case List(items) => set i, n | 0 <= i < |items| && n in References(items[i]) :: n
    case Object(fields, _) => set k, n | k in fields && n in References(fields[k]) :: n
    case Reference(_, _, _, _) => {v}
    case Concatenation(pieces) => {v} + set i, n | 0 <= i < |pieces| && n in References(pieces[i]) :: n
    case DelayedMerge(_, stack) => set i, n | 0 <= i < |stack| && n in References(stack[i]) :: n
    case _ => {}
  }

  lemma {:induction false} ReferencesCover(v: Value, nodes: set<Value>)
    requires References(v) <= nodes
    ensures RefsIn(v, nodes)
    ensures forall n | n in References(v) :: IsNode(n)
    decreases v
  {
    match v
    case List(items) =>
      forall i | 0 <= i < |items| ensures RefsIn(items[i], nodes) && forall n | n in References(items[i]) :: IsNode(n) {
        assert forall n | n in References(items[i]) :: n in References(v);
        ReferencesCover(items[i], nodes);
      }
    case Object(fields, _) =>
      forall k | k in fields ensures RefsIn(fields[k], nodes) && forall n | n in References(fields[k]) :: IsNode(n) {
        assert forall n | n in References(fields[k]) :: n in References(v);
        ReferencesCover(fields[k], nodes);
      }
    case Concatenation(pieces) =>
      forall i | 0 <= i < |pieces|
        ensures RefsIn(pieces[i], nodes) && forall n | n in References(pieces[i]) :: IsNode(n)
      {
        assert forall n | n in References(pieces[i]) :: n in References(v);
        ReferencesCover(pieces[i], nodes);
      }
    case DelayedMerge(_, stack) =>
      forall i | 0 <= i < |stack| ensures RefsIn(stack[i], nodes) && forall n | n in References(stack[i]) :: IsNode(n) {
        assert forall n | n in References(stack[i]) :: n in References(v);
        ReferencesCover(stack[i], nodes);
      }
    case _ =>
  }

  /** The source of an outermost resolve of `v` against `root`. */
  ghost function Document(v: Value, root: Value, order: set<string> -> seq<string>): (src: Source) {
    Source(root, order, References(v) + References(root), true)
  }

  /** `ResolveContext::resolve(value, root)`: for every document and visiting order, the cycle
      exception never leaves the outermost resolve, what is returned is absent or resolved at every
      depth, and no internal error is raised unless the document has a concatenation all of whose
      pieces may vanish. */
  lemma OutermostResolve(v: Value, root: Value, order: set<string> -> seq<string>)
    requires WellFormed(v) && WellFormed(root) && root.Object? && Ordering(order)
    ensures Sound(Document(v, root, order)) && Ready(Document(v, root, order), v, map[], map[])
    ensures
      match Resolve(Document(v, root, order), v, [], map[], map[]).outcome
      case Done(result) =>
        (result.Some? ==> Resolved(result.value)) && (v.Object? ==> result.Some? && result.value.Object?)
      case NotPossible => false
      case Failed(failure) =>
        || failure in {UnresolvedSubstitution, IncompatibleConcatenation}
        || (failure == VanishedConcatenation && HasBrittle(Document(v, root, order)))
  {
    var src := Document(v, root, order);
    ReferencesCover(v, src.nodes);
    ReferencesCover(root, src.nodes);
    assert Ready(src, v, map[], map[]);
    assert Lawful(src, v, [], map[], Resolve(src, v, [], map[], map[]).outcome);
  }
}
