/** The resolver as the source runs it: one object with a mutable replacement table and a mutable
    memo table.  Exceptions are outcomes; what a `finally` does is done before they go on.

    Every method is proved to compute what `Resolution` says and to leave the replacement table
    exactly as it found it, whatever the outcome. */
module Resolvers {
  import opened ConfigValues
  import opened MergeAlgebra
  import opened Concatenations
  import opened Measures
  import opened Resolution

  /** `make_replacement`: a new merge of the layers below. */
  method MakeReplacement(stack: seq<Value>, skipping: nat) returns (r: Option<Value>)
    requires skipping <= |stack|
    ensures r == if skipping == |stack| then None else Some(MergeLayers(stack[skipping..]))
  {
    var below := stack[skipping..];
    r := None;
    for i := 0 to |below|
      invariant r == if i == 0 then None else Some(MergeLayers(below[..i]))
    {
      assert i > 0 ==> below[..i + 1][..i] == below[..i];
      r := if r.None? then Some(below[i]) else Some(WithFallback(r.value, below[i]));
    }
    assert below[..|below|] == below;
  }

  class Resolver {
    const src: Source
    var replacements: Replacements
    var memos: Memos

    constructor (src: Source)
      ensures this.src == src && replacements == map[] && memos == map[]
    {
      this.src := src;
      replacements := map[];
      memos := map[];
    }

    /** The values the tables hold are in order for resolving `v`. */
    ghost predicate ReadyFor(v: Value)
      reads this
    {
      src.remembers && Ready(src, v, replacements, memos)
    }

    /** `ResolveSource::replace`; `twice` is its "should not have replaced the same value twice". */
    method Replace(value: Value, replacer: Replacer) returns (twice: bool)
      modifies this`replacements
      ensures twice <==> value in old(replacements)
      ensures replacements == if twice then old(replacements) else old(replacements)[value := replacer]
    {
      twice := value in replacements;
      if !twice {
        replacements := replacements[value := replacer];
      }
    }

    /** `ResolveSource::unreplace`; `missing` is its "unreplace() without replace()". */
    method Unreplace(value: Value) returns (missing: bool)
      modifies this`replacements
      ensures missing <==> value !in old(replacements)
      ensures replacements == old(replacements) - {value}
    {
      missing := value !in replacements;
      replacements := replacements - {value};
    }

    /** `ResolveMemos::put`. */
    method Put(key: MemoKey, value: Option<Value>)
      modifies this`memos
      ensures memos == old(memos)[key := value]
    {
      memos := memos[key := value];
    }

    /** `ResolveContext::resolve`. */
    method Resolve(v: Value, restriction: Path) returns (outcome: Outcome<Option<Value>>)
      requires ReadyFor(v)
      modifies this
      ensures replacements == old(replacements)
      ensures Answer(outcome, memos) == Resolution.Resolve(src, v, restriction, old(replacements), old(memos))
      decreases |src.nodes - replacements.Keys|, Weight(v), 4
    {
      var cached := Get(memos, MemoKey(v, []));
      if cached.None? && restriction != [] {
        cached := Get(memos, MemoKey(v, restriction));
      }
      if cached.Some? {
        return Done(cached);
      }
      outcome := ResolveCheckingReplacement(v, restriction);
      if outcome.Done? {
        var resolved := outcome.value;
        if resolved.None? || Resolved(resolved.value) {
          Put(MemoKey(v, []), resolved);
        } else if restriction != [] {
          Put(MemoKey(v, restriction), resolved);
        } else {
          outcome := Failed(BugOrBroken);
        }
      }
    }

    /** `ResolveSource::resolve_checking_replacement`, with the replacer it consults. */
    method ResolveCheckingReplacement(v: Value, restriction: Path) returns (outcome: Outcome<Option<Value>>)
      requires ReadyFor(v)
      modifies this
      ensures replacements == old(replacements)
      ensures Answer(outcome, memos) ==
        Resolution.ResolveCheckingReplacement(src, v, restriction, old(replacements), old(memos))
      decreases |src.nodes - replacements.Keys|, Weight(v), 3
    {
      if v in replacements {
        var replacement := None;
        if replacements[v].BelowReplacer? {
          replacement := MakeReplacement(replacements[v].stack, replacements[v].skipping);
        }
        if replacement.None? {
          outcome := NotPossible;
        } else {
          BelowIsReady(src, v, replacements, memos);
          outcome := Resolve(replacement.value, restriction);
        }
      } else {
        outcome := ResolveSubstitutions(v, restriction);
      }
    }

    method ResolveSubstitutions(v: Value, restriction: Path) returns (outcome: Outcome<Option<Value>>)
      requires ReadyFor(v) && v !in replacements
      modifies this
      ensures replacements == old(replacements)
      ensures Answer(outcome, memos) ==
        Resolution.ResolveSubstitutions(src, v, restriction, old(replacements), old(memos))
      decreases |src.nodes - replacements.Keys|, Weight(v), 2
    {
      if Resolved(v) {
        return Done(Some(v));
      }
      match v
      case Object(_, _) => outcome := ResolveObject(v, restriction);
      case List(_) => outcome := ResolveList(v, restriction);
      case Concatenation(_) => outcome := ResolveConcatenation(v, restriction);
      case DelayedMerge(_, _) => outcome := ResolveDelayedMerge(v, restriction);
      case Reference(_, _, _, _) => outcome := ResolveReference(v, restriction);
    }

    /** `SimpleConfigObject::resolve_substitutions` with the loop of `modify_may_throw`. */
    method ResolveObject(v: Value, restriction: Path) returns (outcome: Outcome<Option<Value>>)
      requires v.Object? && ReadyFor(v)
      modifies this
      ensures replacements == old(replacements)
      ensures Answer(outcome, memos) == Resolution.ResolveObject(src, v, restriction, old(replacements), old(memos))
      decreases |src.nodes - replacements.Keys|, Weight(v), 1
    {
      hide Fit, MemosOk, Legal, Weight, FieldLegal, Contained, Resolution.ResolveChild;
      ObjectParts(src, v, replacements);
      var keys := src.order(v.fields.Keys);
      var modified: map<string, Value> := map[];
      ghost var whole := ResolveFields(src, v, keys, map[], restriction, replacements, memos);
      for i := 0 to |keys|
        invariant replacements == old(replacements)
        invariant MemosOk(src, memos) && FieldsLegal(src, restriction, modified)
        invariant whole == ResolveFields(src, v, keys[i..], modified, restriction, replacements, memos)
      {
        assert keys[i..][0] == keys[i] && keys[i..][1..] == keys[i + 1..];
        var child := ResolveChild(v, keys[i], restriction);
        if !child.Done? {
          return child.Propagate();
        }
        modified := if child.value.Some? then modified[keys[i] := child.value.value] else modified;
      }
      outcome := Done(Some(Object(modified, v.ignoresFallbacks)));
    }

    method ResolveChild(o: Value, key: string, restriction: Path) returns (outcome: Outcome<Option<Value>>)
      requires o.Object? && key in o.fields && ReadyFor(o.fields[key]) && Weight(o.fields[key]) < Weight(o)
      modifies this
      ensures replacements == old(replacements)
      ensures Answer(outcome, memos) == Resolution.ResolveChild(src, o, key, restriction, old(replacements), old(memos))
      decreases |src.nodes - replacements.Keys|, Weight(o), 0, 0
    {
      if restriction == [] {
        outcome := Resolve(o.fields[key], []);
      } else if key == restriction[0] && |restriction| > 1 {
        outcome := Resolve(o.fields[key], restriction[1..]);
      } else {
        outcome := Done(Some(o.fields[key]));
      }
    }

    method ResolveList(v: Value, restriction: Path) returns (outcome: Outcome<Option<Value>>)
      requires v.List? && ReadyFor(v)
      modifies this
      ensures replacements == old(replacements)
      ensures Answer(outcome, memos) == Resolution.ResolveList(src, v, restriction, old(replacements), old(memos))
      decreases |src.nodes - replacements.Keys|, Weight(v), 1
    {
      if restriction != [] {
        return Done(Some(v));
      }
      ItemParts(src, v, v.items, replacements);
      var items := ResolveItems(v.items);
      outcome := if items.Done? then Done(Some(List(items.value))) else items.Propagate();
    }

    method ResolveConcatenation(v: Value, restriction: Path) returns (outcome: Outcome<Option<Value>>)
      requires v.Concatenation? && ReadyFor(v)
      modifies this
      ensures replacements == old(replacements)
      ensures Answer(outcome, memos) ==
        Resolution.ResolveConcatenation(src, v, restriction, old(replacements), old(memos))
      decreases |src.nodes - replacements.Keys|, Weight(v), 1
    {
      ItemParts(src, v, v.pieces, replacements);
      var pieces := ResolveItems(v.pieces);
      if pieces.Done? {
        var joined := Consolidate(pieces.value);
        outcome := JoinedOutcome(joined);
      } else {
        outcome := pieces.Propagate();
      }
    }

    /** The loop over list items or concatenation pieces; what resolves to nothing is dropped. */
    method ResolveItems(items: seq<Value>) returns (outcome: Outcome<seq<Value>>)
      requires src.remembers && MemosOk(src, memos)
      requires forall i | 0 <= i < |items| :: Fit(src, items[i], replacements)
      modifies this
      ensures replacements == old(replacements)
      ensures Answer(outcome, memos) == Resolution.ResolveItems(src, items, [], old(replacements), old(memos))
      decreases |src.nodes - replacements.Keys|, TotalWeight(items), 5
    {
      hide Fit, MemosOk, Legal, Contained, Weight, TotalWeight, Resolution.Resolve;
      var kept: seq<Value> := [];
      ghost var whole := Resolution.ResolveItems(src, items, [], replacements, memos);
      for i := 0 to |items|
        invariant replacements == old(replacements) && MemosOk(src, memos)
        invariant forall j | 0 <= j < |kept| :: Legal(src, kept[j], [])
        invariant whole == Resolution.ResolveItems(src, items[i..], kept, replacements, memos)
      {
        assert items[i..][0] == items[i] && items[i..][1..] == items[i + 1..];
        MemberWeight(items, i);
        var resolved := Resolve(items[i], []);
        if !resolved.Done? {
          return resolved.Propagate();
        }
        kept := kept + (if resolved.value.Some? then [resolved.value.value] else []);
      }
      outcome := Done(kept);
    }

    /** An object stack must have merged to an object. */
    method ResolveDelayedMerge(v: Value, restriction: Path) returns (outcome: Outcome<Option<Value>>)
      requires v.DelayedMerge? && ReadyFor(v) && v !in replacements
      modifies this
      ensures replacements == old(replacements)
      ensures Answer(outcome, memos) ==
        Resolution.ResolveDelayedMerge(src, v, restriction, old(replacements), old(memos))
      decreases |src.nodes - replacements.Keys|, Weight(v), 1
    {
      outcome := ResolveLayers(v, restriction);
      if outcome.Done? && v.objectHeaded && !(outcome.value.Some? && IsObject(outcome.value.value)) {
        outcome := Failed(BugOrBroken);
      }
    }

    /** The static `ConfigDelayedMerge::resolve_substitutions`: the layers resolved in turn and
        merged. */
    method ResolveLayers(v: Value, restriction: Path) returns (outcome: Outcome<Option<Value>>)
      requires src.remembers && LayersReady(src, v, 0, None, restriction, replacements, memos)
      modifies this
      ensures replacements == old(replacements)
      ensures Answer(outcome, memos) ==
        Resolution.ResolveLayers(src, v, 0, None, restriction, old(replacements), old(memos))
      decreases |src.nodes - replacements.Keys|, Weight(v), 0, 1
    {
      var merged: Option<Value> := None;
      for i := 0 to |v.stack|
        invariant replacements == old(replacements)
        invariant LayersReady(src, v, i, merged, restriction, replacements, memos)
        invariant Resolution.ResolveLayers(src, v, 0, None, restriction, old(replacements), old(memos)) ==
                  Resolution.ResolveLayers(src, v, i, merged, restriction, replacements, memos)
      {
        LayersStep(src, v, i, merged, restriction, replacements, memos);
        var resolved := ResolveLayer(v, i, restriction);
        if !resolved.Done? {
          return resolved;
        }
        merged := MergeOptional(merged, resolved.value);
      }
      outcome := Done(merged);
    }

    /** One layer of a stack: while an unmergeable layer is resolved, the stack is replaced by what
        is below that layer, and put back whatever happens. */
    method ResolveLayer(v: Value, i: nat, restriction: Path) returns (outcome: Outcome<Option<Value>>)
      requires src.remembers && v.DelayedMerge? && v !in replacements && i < |v.stack| && MemosOk(src, memos)
      requires Fit(src, v.stack[i], LayerTable(v, i, replacements)) && Weight(v.stack[i]) < Weight(v)
      requires src.nodes - LayerTable(v, i, replacements).Keys == src.nodes - replacements.Keys
      modifies this
      ensures replacements == old(replacements)
      ensures Answer(outcome, memos) ==
        Resolution.Resolve(src, v.stack[i], restriction, LayerTable(v, i, old(replacements)), old(memos))
      decreases |src.nodes - replacements.Keys|, Weight(v), 0, 0
    {
      if Unmergeable(v.stack[i]) {
        var twice := Replace(v, BelowReplacer(v.stack, i + 1));
        assert !twice && replacements == LayerTable(v, i, old(replacements));
        outcome := Resolve(v.stack[i], restriction);
        Restored(old(replacements), v, BelowReplacer(v.stack, i + 1));
        var missing := Unreplace(v);
        assert !missing;
      } else {
        outcome := Resolve(v.stack[i], restriction);
      }
    }

    /** `ConfigReference::resolve_substitutions`: the reference is in flight while it is looked up;
        the cycle exception stops here. */
    method ResolveReference(v: Value, restriction: Path) returns (outcome: Outcome<Option<Value>>)
      requires v.Reference? && ReadyFor(v) && v !in replacements
      modifies this
      ensures replacements == old(replacements) && !outcome.NotPossible?
      ensures Answer(outcome, memos) == Resolution.ResolveReference(src, v, restriction, old(replacements), old(memos))
      decreases |src.nodes - replacements.Keys|, Weight(v), 1
    {
      hide Fit, MemosOk, Weight, Contained, Resolution.LookupSubst;
      ReferenceReady(src, v, replacements, memos);
      var twice := Replace(v, CycleReplacer);
      assert !twice;
      outcome := LookupSubst(v, restriction);
      if outcome.NotPossible? || (outcome.Done? && outcome.value.None?) {
        outcome := if v.optional then Done(None) else Failed(UnresolvedSubstitution);
      }
      var missing := Unreplace(v);
      assert !missing;
    }

    method LookupSubst(reference: Value, restriction: Path) returns (outcome: Outcome<Option<Value>>)
      requires reference.Reference? && ReadyFor(reference) && reference in replacements
      modifies this
      ensures replacements == old(replacements)
      ensures Answer(outcome, memos) ==
        Resolution.LookupSubst(src, reference, restriction, old(replacements), old(memos))
      decreases |src.nodes - replacements.Keys| + 1, 0, 2
    {
      outcome := FindInRoot(reference.path);
      if outcome.Done? && outcome.value.None? && reference.prefixLength > 0 {
        outcome := FindInRoot(reference.path[reference.prefixLength..]);
      }
      if outcome.Done? && outcome.value.Some? {
        outcome := Resolve(outcome.value.value, restriction);
      }
    }

    method FindInRoot(path: Path) returns (outcome: Outcome<Option<Value>>)
      requires src.remembers && Sound(src) && TableOk(replacements) && MemosOk(src, memos)
      requires path != [] && ReferenceInFlight(replacements)
      modifies this
      ensures replacements == old(replacements)
      ensures Answer(outcome, memos) == Resolution.FindInRoot(src, path, old(replacements), old(memos))
      decreases |src.nodes - replacements.Keys| + 1, 0, 1
    {
      outcome := Resolve(src.root, path);
      if outcome.Done? {
        if outcome.value.Some? && IsObject(outcome.value.value) {
          outcome := PeekedOutcome(PeekPath(outcome.value.value, path));
        } else {
          outcome := Failed(BugOrBroken);
        }
      }
    }
  }

  /** `ResolveContext::resolve(value, root)`: a fresh resolver, and the check that turns an escaped
      cycle exception into an internal error, neither of which is ever seen. */
  method ResolveOutermost(src: Source, v: Value) returns (outcome: Outcome<Option<Value>>)
    requires src.remembers && Ready(src, v, map[], map[])
    ensures outcome == Resolution.Resolve(src, v, [], map[], map[]).outcome
    ensures !outcome.NotPossible?
    ensures outcome.Failed? ==> outcome.failure != BugOrBroken && outcome.failure != NotYetResolved
    ensures outcome.Failed? && outcome.failure == VanishedConcatenation ==> HasBrittle(src)
    ensures outcome.Done? && outcome.value.Some? ==> Resolved(outcome.value.value)
  {
    var resolver := new Resolver(src);
    outcome := resolver.Resolve(v, []);
    assert Lawful(src, v, [], map[], outcome);
    if outcome.NotPossible? {
      outcome := Failed(BugOrBroken);
    }
  }
}
