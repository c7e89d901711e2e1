/** Memoised resolution agrees with what a document means.

    In a world the references and concatenations of a document have a meaning that knows no memos,
    no replacement table, no restriction and no visiting order.  On a document whose references
    rank (so that nothing in flight is ever re-entered) and whose lookups are visible, whatever the
    resolver returns has that meaning, whatever has been memoised before: a full entry may answer a
    restricted request, and a restricted result may be stored under the full key. */
module MemoAgreement {
  import opened ConfigValues
  import opened MergeAlgebra
  import opened Concatenations
  import opened Measures
  import opened Resolution
  import opened Ranks
  import opened Lookups
  import opened Visibility
  import opened Peeking

  // ---------------------------------------------------------------- coherent worlds

  /** A document under resolution with its sense.  `top` bounds the ranks it is trusted for; in a
      world that is `sure` every required reference of such a rank is found and every concatenation
      of such references joins. */
  datatype World = World(src: Source, sense: Sense, top: nat, sure: bool)

  /** Looking the path up in the root meets only references of ranks below `b`, and finds what is
      there. */
  ghost predicate Looks(w: World, path: Path, b: nat) {
    Bounded(w.sense.root, path, w.sense.rank, b) && Visible(w.sense, w.sense.root, path, b)
  }

  /** A reference means what the root holds at its path, or else at its path without the prefix; if
      the full path means nothing, then because nothing is written there or because there is nothing
      without the prefix either. */
  ghost predicate NodeSolved(w: World, n: Value)
    requires n.Reference?
  {
    && 0 <= n.prefixLength < |n.path|
    && var full, short := LookIn(RootMeaning(w.sense), n.path), LookIn(RootMeaning(w.sense), n.path[n.prefixLength..]);
    && w.sense.env(n) == (if full.Some? then full else short)
    && (full.None? ==> Absent(w.sense.root, n.path) || short.None?)
    && Looks(w, n.path, w.sense.rank(n)) && (full.None? ==> Looks(w, n.path[n.prefixLength..], w.sense.rank(n)))
    && (w.sure && w.sense.env(n).None? ==> n.optional)
  }

  /** A concatenation means the join of its pieces. */
  ghost predicate ConcatenationSolved(w: World, c: Value)
    requires c.Concatenation?
  {
    var joined := JoinedOutcome(Consolidated(PresentItems(c.pieces, w.sense.env)));
    (joined.Done? ==> w.sense.env(c) == joined.value) && (w.sure ==> joined.Done?)
  }

  ghost predicate Coherent(w: World) {
    && Sound(w.src) && Assignment(w.sense.env) && w.sense.root == w.src.root
    && (forall n | n in w.src.nodes && n.Reference? && w.sense.rank(n) < w.top :: NodeSolved(w, n))
    && (forall c | c in w.src.nodes && c.Concatenation? && AllBelow(c, w.sense.rank, w.top) ::
          ConcatenationSolved(w, c))
  }

  // ---------------------------------------------------------------- right answers

  /** `y` is a right answer to the request for `v` along `r`. */
  ghost predicate Right(w: World, v: Value, r: Path, y: Option<Value>) {
    if y.None? then Meaning(v, w.sense.env).None?
    else Refines(w.sense, v, y.value) && PeeksRight(y.value, r, w.sense.env)
  }

  /** Off the path `r` the object `o` holds something unresolved, which a resolution along `r` leaves. */
  predicate Anchored(o: Value, r: Path) {
    o.Object? && r != [] && exists k | k in o.fields :: k != r[0] && !Resolved(o.fields[k])
  }

  /** A run that meets only ranks below the top may ask for this memo. */
  ghost predicate Readable(w: World, k: MemoKey) {
    || Bounded(k.value, k.restriction, w.sense.rank, w.top)
    || (k.restriction == [] && exists r :: r != [] && Bounded(k.value, r, w.sense.rank, w.top))
  }

  /** A run that meets only ranks below the top may write this memo. */
  ghost predicate Writable(w: World, k: MemoKey) {
    || Bounded(k.value, k.restriction, w.sense.rank, w.top)
    || (k.restriction == [] && exists r :: r != [] && Bounded(k.value, r, w.sense.rank, w.top) && !Anchored(k.value, r))
  }

  /** Every memo that may be asked for is a right answer to its key. */
  ghost predicate Agrees(w: World, memos: Memos) {
    forall k | k in memos && Readable(w, k) :: Right(w, k.value, k.restriction, memos[k])
  }

  /** Memos are never lost, and only writable ones are new or changed. */
  ghost predicate Extends(w: World, before: Memos, after: Memos) {
    && before.Keys <= after.Keys
    && forall k | k in after && !Writable(w, k) :: k in before && after[k] == before[k]
  }

  /** The run neither stops at a cycle nor, in a sure world, fails; and its answer is right. */
  ghost predicate Agreed(w: World, v: Value, r: Path, memos: Memos, a: Answer<Option<Value>>) {
    && !a.outcome.NotPossible? && (w.sure ==> a.outcome.Done?)
    && (a.outcome.Done? ==> Right(w, v, r, a.outcome.value) && Agrees(w, a.memos) && Extends(w, memos, a.memos))
  }

  lemma ExtendsItself(w: World, memos: Memos)
    ensures Extends(w, memos, memos)
  {
  }

  lemma ExtendsOn(w: World, one: Memos, two: Memos, three: Memos)
    requires Extends(w, one, two) && Extends(w, two, three)
    ensures Extends(w, one, three)
  {
    hide Writable;
    forall k | k in three && !Writable(w, k) ensures k in one && three[k] == one[k] {
      assert k in two;
    }
  }

  lemma {:induction false} ResolvedPeeksRight(v: Value, r: Path, env: Env)
    requires Assignment(env) && Resolved(v)
    ensures PeeksRight(v, r, env)
    decreases v
  {
    if r != [] && v.Object? {
      ResolvedIsWellFormed(v);
      ResolvedIsPartlyResolved(v, r);
      PeeksEntry(v, r, env);
      if r[0] in v.fields {
        ResolvedPeeksRight(v.fields[r[0]], r[1..], env);
      }
    }
  }

  /** A full answer answers every request. */
  lemma FullAnswersAll(w: World, v: Value, y: Option<Value>, r: Path, other: Path)
    requires Assignment(w.sense.env) && Right(w, v, r, y) && (y.Some? ==> Resolved(y.value))
    ensures Right(w, v, other, y)
  {
    hide Refines, PeeksRight, Assignment;
    if y.Some? {
      ResolvedPeeksRight(y.value, other, w.sense.env);
    }
  }

  /** The meaning itself is a right answer to every request. */
  lemma MeaningIsRight(w: World, v: Value, r: Path, y: Value)
    requires Assignment(w.sense.env) && Meaning(v, w.sense.env) == Some(y) && Resolved(y)
    ensures Right(w, v, r, Some(y))
  {
    hide Refines, PeeksRight, Assignment, Meaning;
    MeaningRefines(w.sense, v, y);
    ResolvedPeeksRight(y, r, w.sense.env);
  }

  lemma RecalledIsRight(w: World, v: Value, r: Path, memos: Memos)
    requires MemosOk(w.src, memos) && Assignment(w.sense.env) && Agrees(w, memos) && Recalled(w.src, memos, v, r).Some?
    requires Bounded(v, r, w.sense.rank, w.top)
    ensures Right(w, v, r, Recalled(w.src, memos, v, r))
  {
    hide Right, Bounded, Assignment;
    var full := Get(memos, MemoKey(v, []));
    if full.Some? {
      assert Readable(w, MemoKey(v, []));
      assert MemoKey(v, []) in memos;
      FullAnswersAll(w, v, full, [], r);
    } else {
      assert MemoKey(v, r) in memos && Readable(w, MemoKey(v, r));
    }
  }

  lemma RememberedIsRight(w: World, v: Value, r: Path, memos: Memos, a: Answer<Option<Value>>)
    requires Assignment(w.sense.env) && Agreed(w, v, r, memos, a) && Bounded(v, r, w.sense.rank, w.top)
    requires a.outcome.Done? && a.outcome.value.Some? && r == [] ==> Resolved(a.outcome.value.value)
    requires a.outcome.Done? && Anchored(v, r) ==> a.outcome.value.Some? && !Resolved(a.outcome.value.value)
    ensures Agreed(w, v, r, memos, Remembered(w.src, v, r, a))
  {
    hide Right, Bounded, Assignment, Anchored;
    if a.outcome.Done? {
      var y := a.outcome.value;
      if y.None? || Resolved(y.value) {
        FullAnswersAll(w, v, y, r, []);
        assert Writable(w, MemoKey(v, []));
      } else {
        assert Writable(w, MemoKey(v, r));
      }
    }
  }

  // ---------------------------------------------------------------- nothing in flight is re-entered

  /** `n` is met whenever the stack `k` is resolved, along any path. */
  predicate CoreReference(n: Value, k: Value) {
    n.Reference? && k.DelayedMerge? && exists i | 0 <= i < |k.stack| :: Unmergeable(k.stack[i]) && Occurs(n, k.stack[i])
  }

  predicate Cored(k: Value, table: Replacements) {
    exists n | n in table :: CoreReference(n, k)
  }

  /** `v` is part of the layer of `k` that is being resolved. */
  predicate WithinLayer(v: Value, k: Value, replacer: Replacer) {
    && k.DelayedMerge? && replacer.BelowReplacer? && 1 <= replacer.skipping <= |k.stack|
    && Unmergeable(k.stack[replacer.skipping - 1]) && Occurs(v, k.stack[replacer.skipping - 1])
  }

  /** Every stack in flight has a core reference in flight, or `v` is part of its layer. */
  predicate Shielded(table: Replacements, v: Value) {
    forall k | k in table && k.DelayedMerge? :: Cored(k, table) || WithinLayer(v, k, table[k])
  }

  /** References in flight have ranks of at least `b`. */
  ghost predicate Above(table: Replacements, rank: Rank, b: nat) {
    forall k | k in table && k.Reference? :: b <= rank(k)
  }

  /** A request the resolver makes in the course of such a run. */
  ghost predicate Calm(w: World, b: nat, v: Value, r: Path, table: Replacements) {
    && Coherent(w) && Fit(w.src, v, table) && b <= w.top
    && Bounded(v, r, w.sense.rank, b) && Visible(w.sense, v, r, b)
    && Above(table, w.sense.rank, b) && Shielded(table, v)
  }

  ghost predicate Known(w: World, memos: Memos) {
    MemosOk(w.src, memos) && Agrees(w, memos)
  }

  lemma CoreIsBelow(n: Value, k: Value, r: Path, rank: Rank, b: nat)
    requires WellFormed(k) && CoreReference(n, k) && Bounded(k, r, rank, b)
    ensures rank(n) < b
  {
    var i :| 0 <= i < |k.stack| && Unmergeable(k.stack[i]) && Occurs(n, k.stack[i]);
    var layer := k.stack[i];
    assert AllBelow(layer, rank, b);
    AllBelowPart(n, layer, rank, b);
  }

  /** What is resolved is never in flight already. */
  lemma NotInFlight(w: World, b: nat, v: Value, r: Path, table: Replacements)
    requires Calm(w, b, v, r, table)
    ensures v !in table
  {
    if v in table {
      assert v.Reference? || v.DelayedMerge?;
      if v.DelayedMerge? {
        if Cored(v, table) {
          var n :| n in table && CoreReference(n, v);
          CoreIsBelow(n, v, r, w.sense.rank, b);
        } else {
          var i := table[v].skipping - 1;
          OccursWeight(v, v.stack[i]);
          MemberWeight(v.stack, i);
        }
      }
    }
  }

  lemma {:induction false} OccursTransitive(x: Value, y: Value, z: Value)
    requires Occurs(x, y) && Occurs(y, z)
    ensures Occurs(x, z)
    decreases z
  {
    if y != z {
      match z
      case List(items) =>
        var i :| 0 <= i < |items| && Occurs(y, items[i]);
        OccursTransitive(x, y, items[i]);
      case Object(fields, _) =>
        var k :| k in fields && Occurs(y, fields[k]);
        OccursTransitive(x, y, fields[k]);
      case Concatenation(pieces) =>
        var i :| 0 <= i < |pieces| && Occurs(y, pieces[i]);
        OccursTransitive(x, y, pieces[i]);
      case DelayedMerge(_, stack) =>
        var i :| 0 <= i < |stack| && Occurs(y, stack[i]);
        OccursTransitive(x, y, stack[i]);
      case _ =>
    }
  }

  /** A part of a value is shielded like the value. */
  lemma PartShielded(table: Replacements, v: Value, part: Value)
    requires Shielded(table, v) && Occurs(part, v)
    ensures Shielded(table, part)
  {
    forall k | k in table && k.DelayedMerge? ensures Cored(k, table) || WithinLayer(part, k, table[k]) {
      if !Cored(k, table) {
        OccursTransitive(part, v, k.stack[table[k].skipping - 1]);
      }
    }
  }

  lemma ItemOccurs(v: Value, items: seq<Value>, i: nat)
    requires i < |items|
    requires (v.List? && v.items == items) || (v.Concatenation? && v.pieces == items) ||
      (v.DelayedMerge? && v.stack == items)
    ensures Occurs(items[i], v)
  {
    OccursInItself(items[i]);
  }

  lemma FieldOccurs(v: Value, k: string)
    requires v.Object? && k in v.fields
    ensures Occurs(v.fields[k], v)
  {
    OccursInItself(v.fields[k]);
  }

  predicate AllCored(table: Replacements) {
    forall k | k in table && k.DelayedMerge? :: Cored(k, table)
  }

  lemma AllCoredShields(table: Replacements, v: Value)
    requires AllCored(table)
    ensures Shielded(table, v)
  {
  }

  /** Putting a reference in flight shields everything. */
  lemma ReferenceShields(table: Replacements, n: Value)
    requires n.Reference? && n !in table && Shielded(table, n)
    ensures AllCored(table[n := CycleReplacer])
  {
    var inner := table[n := CycleReplacer];
    forall k | k in inner && k.DelayedMerge? ensures Cored(k, inner) {
      assert k in table;
      if Cored(k, table) {
        var m :| m in table && CoreReference(m, k);
        assert m in inner;
      } else {
        assert CoreReference(n, k);
      }
    }
  }

  /** Putting a stack in flight shields the layer being resolved. */
  lemma LayerShields(table: Replacements, stacked: Value, i: nat)
    requires stacked.DelayedMerge? && stacked !in table && i < |stacked.stack| && Shielded(table, stacked)
    ensures Shielded(LayerTable(stacked, i, table), stacked.stack[i])
  {
    var layer, inner := stacked.stack[i], LayerTable(stacked, i, table);
    ItemOccurs(stacked, stacked.stack, i);
    PartShielded(table, stacked, layer);
    OccursInItself(layer);
    forall k | k in inner && k.DelayedMerge? ensures Cored(k, inner) || WithinLayer(layer, k, inner[k]) {
      if k != stacked {
        assert k in table && inner[k] == table[k];
        if Cored(k, table) {
          var m :| m in table && CoreReference(m, k);
          assert m in inner;
        }
      }
    }
  }

  // ---------------------------------------------------------------- the resolver agrees

  /** Parts of a value that are resolved in their turn. */
  lemma CalmPart(w: World, b: nat, v: Value, r: Path, part: Value, s: Path, table: Replacements)
    requires Calm(w, b, v, r, table)
    requires Occurs(part, v) && Fit(w.src, part, table) && Bounded(part, s, w.sense.rank, b)
    requires Visible(w.sense, part, s, b)
    ensures Calm(w, b, part, s, table)
  {
    hide Coherent, Fit, Bounded, Visible;
    PartShielded(table, v, part);
  }

  lemma CalmIsFit(w: World, b: nat, v: Value, r: Path, table: Replacements)
    requires Calm(w, b, v, r, table)
    ensures Fit(w.src, v, table) && Assignment(w.sense.env) && Coherent(w) && b <= w.top
    ensures Bounded(v, r, w.sense.rank, b) && Bounded(v, r, w.sense.rank, w.top) && Visible(w.sense, v, r, b)
  {
    hide Fit, Visible;
    BoundedHigher(v, r, w.sense.rank, b, w.top);
  }

  lemma {:induction false} AgreeResolve(w: World, b: nat, v: Value, r: Path, table: Replacements, memos: Memos)
    requires Calm(w, b, v, r, table) && Known(w, memos)
    ensures Ready(w.src, v, table, memos)
    ensures Agreed(w, v, r, memos, Resolve(w.src, v, r, table, memos))
    decreases |w.src.nodes - table.Keys|, Weight(v), 4
  {
    hide Calm, Agrees, Right, Recalled, MemosOk, Lawful, Fit, Coherent, Bounded, Visible, Extends;
    CalmIsFit(w, b, v, r, table);
    NotInFlight(w, b, v, r, table);
    if Recalled(w.src, memos, v, r).Some? {
      RecalledIsRight(w, v, r, memos);
      ExtendsItself(w, memos);
    } else {
      AgreeFresh(w, b, v, r, table, memos);
      ResolveFresh(w.src, v, r, table, memos);
      var a := ResolveSubstitutions(w.src, v, r, table, memos);
      FullIsResolved(w.src, v, r, table, a.outcome);
      RememberedIsRight(w, v, r, memos, a);
    }
  }

  lemma FullIsResolved(src: Source, v: Value, r: Path, table: Replacements, outcome: Outcome<Option<Value>>)
    requires Lawful(src, v, r, table, outcome)
    ensures outcome.Done? && outcome.value.Some? && r == [] ==> Resolved(outcome.value.value)
  {
  }

  lemma {:induction false} AgreeFresh(w: World, b: nat, v: Value, r: Path, table: Replacements, memos: Memos)
    requires Calm(w, b, v, r, table) && Known(w, memos) && v !in table
    ensures Ready(w.src, v, table, memos)
    ensures var a := ResolveSubstitutions(w.src, v, r, table, memos);
      && Agreed(w, v, r, memos, a)
      && (a.outcome.Done? && Anchored(v, r) ==> a.outcome.value.Some? && !Resolved(a.outcome.value.value))
    decreases |w.src.nodes - table.Keys|, Weight(v), 3
  {
    hide Calm, Agrees, Right, MemosOk, Lawful, Fit, Coherent, Bounded, Visible, Extends, Agreed, Assignment;
    CalmIsFit(w, b, v, r, table);
    if Resolved(v) {
      AgreeResolved(w, v, r, memos);
    } else {
      match v
      case Object(_, _) => AgreeObject(w, b, v, r, table, memos);
      case List(_) => AgreeList(w, b, v, r, table, memos);
      case Concatenation(_) => AgreeConcatenation(w, b, v, r, table, memos);
      case DelayedMerge(_, _) => AgreeStack(w, b, v, r, table, memos);
      case Reference(_, _, _, _) => AgreeReference(w, b, v, r, table, memos);
    }
  }

  lemma AgreeResolved(w: World, v: Value, r: Path, memos: Memos)
    requires Assignment(w.sense.env) && Resolved(v) && Agrees(w, memos)
    ensures Agreed(w, v, r, memos, Answer(Done(Some(v)), memos)) && !Anchored(v, r)
  {
    hide Agrees, Extends, Right, Assignment;
    ResolvedMeansItself(v, w.sense.env);
    MeaningIsRight(w, v, r, v);
    ExtendsItself(w, memos);
  }

  // ---- references

  lemma {:induction false} AgreeReference(w: World, b: nat, n: Value, r: Path, table: Replacements, memos: Memos)
    requires n.Reference? && Calm(w, b, n, r, table) && Known(w, memos) && n !in table && Fit(w.src, n, table)
    ensures Agreed(w, n, r, memos, ResolveReference(w.src, n, r, table, memos))
    decreases |w.src.nodes - table.Keys|, Weight(n), 1
  {
    hide Agrees, MemosOk, Lawful, Contained, Weight, LookupSubst, AllCored, Right, Extends, Calm, Fit, Coherent;
    var inner := table[n := CycleReplacer];
    ReferenceReady(w.src, n, table, memos);
    CalmReference(w, b, n, r, table);
    LookingNow(w, b, n, r, table, memos);
    AgreeLookup(w, n, r, b, inner, memos);
    AnswerToReference(w, n, r, memos, LookupSubst(w.src, n, r, inner, memos));
  }

  /** A reference that goes in flight ranks below those in flight, and shields every stack. */
  lemma CalmReference(w: World, b: nat, n: Value, r: Path, table: Replacements)
    requires n.Reference? && n !in table && Calm(w, b, n, r, table)
    ensures Coherent(w) && NodeSolved(w, n) && w.sense.rank(n) < b <= w.top && Visible(w.sense, n, r, b)
    ensures AllCored(table[n := CycleReplacer]) && Above(table[n := CycleReplacer], w.sense.rank, w.sense.rank(n))
  {
    hide Visible, NodeSolved, Sound, Assignment, ConcatenationSolved;
    ReferenceShields(table, n);
  }

  lemma AnswerToReference(w: World, n: Value, r: Path, memos: Memos, a: Answer<Option<Value>>)
    requires n.Reference? && NodeSolved(w, n) && Agreed(w, n, r, memos, a)
    ensures Agreed(w, n, r, memos, Answer(FirewalledOutcome(n, a.outcome), a.memos))
  {
    hide Refines, PeeksRight, Agrees, Extends, Looks, LookIn, Absent;
  }

  /** The state in which a reference is looked up. */
  ghost predicate Looking(w: World, n: Value, inner: Replacements, memos: Memos) {
    && n.Reference? && n in inner && Coherent(w) && Ready(w.src, n, inner, memos) && Agrees(w, memos)
    && NodeSolved(w, n) && w.sense.rank(n) < w.top && AllCored(inner) && Above(inner, w.sense.rank, w.sense.rank(n))
  }

  /** `q` is what the root shows at `path`, on behalf of `n`. */
  ghost predicate Shown(w: World, n: Value, path: Path, q: Value)
    requires n.Reference?
  {
    && Meaning(q, w.sense.env) == LookIn(RootMeaning(w.sense), path) && AllBelow(q, w.sense.rank, w.sense.rank(n))
    && WellFormed(q) && RefsIn(q, w.src.nodes)
    && forall p :: Visible(w.sense, w.sense.root, path + p, w.sense.rank(n)) ==> Visible(w.sense, q, p, w.sense.rank(n))
  }

  /** Resolving the root along the path and peeking finds what is there. */
  lemma {:induction false} AgreeFind(w: World, n: Value, path: Path, inner: Replacements, memos: Memos)
    requires Looking(w, n, inner, memos) && path != [] && Looks(w, path, w.sense.rank(n))
    ensures ReferenceInFlight(inner) && Sound(w.src) && TableOk(inner)
    ensures var a := FindInRoot(w.src, path, inner, memos);
      && !a.outcome.NotPossible? && (w.sure ==> a.outcome.Done?)
      && (a.outcome.Done? ==>
           && Agrees(w, a.memos) && Extends(w, memos, a.memos)
           && (a.outcome.value.None? ==> LookIn(RootMeaning(w.sense), path).None?)
           && (a.outcome.value.Some? ==> !Absent(w.sense.root, path) && Shown(w, n, path, a.outcome.value.value)))
    decreases |w.src.nodes - inner.Keys| + 1, 0, 1
  {
    hide Agrees, MemosOk, Resolve, Above, AllCored, TableOk, Bounded, Visible, Extends, NodeSolved, Shown, LookIn;
    hide Coherent;
    LookingCalm(w, n, path, inner, memos);
    AgreeResolve(w, w.sense.rank(n), w.src.root, path, inner, memos);
    var partial := Resolve(w.src, w.src.root, path, inner, memos);
    if partial.outcome.Done? {
      var o := partial.outcome.value.value;
      ShownByPeeking(w, n, path, o, inner);
    }
  }

  lemma LookingCalm(w: World, n: Value, path: Path, inner: Replacements, memos: Memos)
    requires Looking(w, n, inner, memos) && Looks(w, path, w.sense.rank(n))
    ensures Calm(w, w.sense.rank(n), w.src.root, path, inner) && Known(w, memos) && w.sense.root == w.src.root
    ensures ReferenceInFlight(inner) && Sound(w.src) && TableOk(inner)
  {
    hide Agrees, MemosOk, Bounded, Visible, NodeSolved, Assignment, ConcatenationSolved;
    assert ReferenceInFlight(inner);
    AllCoredShields(inner, w.sense.root);
  }

  lemma ShownByPeeking(w: World, n: Value, path: Path, o: Value, table: Replacements)
    requires n.Reference? && path != [] && Coherent(w) && Looks(w, path, w.sense.rank(n))
    requires Right(w, w.sense.root, path, Some(o)) && o.Object? && Legal(w.src, o, path)
    ensures var p := PeekPath(o, path);
      && p.Found?
      && (p.value.None? ==> LookIn(RootMeaning(w.sense), path).None?)
      && (p.value.Some? ==> !Absent(w.sense.root, path) && Shown(w, n, path, p.value.value))
  {
    hide Bounded, Visible, LookIn, Coherent, PeekPath, Refines, WellFormed, RefsIn, PartlyResolved, Absent;
    PeekPathSafe(w.src, o, path);
    RefinesAt(w.sense, w.sense.root, o, path, w.sense.rank(n));
    var p := PeekPath(o, path);
    if p.value.Some? {
      if Absent(w.sense.root, path) {
        PeeksAbsent(o, path);
        assert false;
      }
      var q := p.value.value;
      forall s | Visible(w.sense, w.sense.root, path + s, w.sense.rank(n))
        ensures Visible(w.sense, q, s, w.sense.rank(n))
      {
        RefinesAt(w.sense, w.sense.root, o, path + s, w.sense.rank(n));
        PeekedVisible(w.sense, o, path, q, s, w.sense.rank(n));
      }
      PeekedVisible(w.sense, o, path, q, [], w.sense.rank(n));
    }
  }

  /** A reference is visible as what it leads to at `path`. */
  ghost predicate LeadsTo(w: World, n: Value, path: Path)
    requires n.Reference?
  {
    forall p, c | p != [] && Visible(w.sense, n, p, c) :: Visible(w.sense, w.sense.root, path + p, w.sense.rank(n))
  }

  lemma Leads(w: World, n: Value)
    requires n.Reference? && NodeSolved(w, n)
    ensures LeadsTo(w, n, n.path)
    ensures LookIn(RootMeaning(w.sense), n.path).None? ==> LeadsTo(w, n, n.path[n.prefixLength..])
  {
    hide Looks, LookIn, Absent;
    assert n.path[0..] == n.path;
  }

  /** A right answer for what the root shows at the path is a right answer for the reference. */
  lemma ShownIsRight(w: World, n: Value, path: Path, q: Value, r: Path, y: Option<Value>)
    requires n.Reference? && Shown(w, n, path, q) && LeadsTo(w, n, path) && w.sense.env(n) == Meaning(q, w.sense.env)
    requires Right(w, q, r, y)
    ensures Right(w, n, r, y)
  {
    hide PeeksRight, Refines, Shown, LeadsTo;
    if y.Some? {
      forall p, c ensures KeepsAt(w.sense, n, y.value, p, c) {
        ShownKeeps(w, n, path, q, y.value, p, c);
      }
      RefinesAt(w.sense, q, y.value, [], 0);
      RefinesFromParts(w.sense, n, y.value);
    }
  }

  lemma ShownKeeps(w: World, n: Value, path: Path, q: Value, y: Value, p: Path, c: nat)
    requires n.Reference? && Shown(w, n, path, q) && LeadsTo(w, n, path) && w.sense.env(n) == Meaning(q, w.sense.env)
    requires Refines(w.sense, q, y)
    ensures KeepsAt(w.sense, n, y, p, c)
  {
    hide Refines, LookIn, LeadsTo, Shown;
    var b := w.sense.rank(n);
    RefinesAt(w.sense, q, y, p, b);
    if Visible(w.sense, n, p, c) && p != [] {
      ShownVisible(w, n, path, q, p, c);
      VisibleHigher(w.sense, y, p, b, c);
    }
    if Bounded(n, p, w.sense.rank, c) {
      ShownBelow(w, n, path, q);
      AllBelowIsBounded(q, p, w.sense.rank, b);
      BoundedHigher(y, p, w.sense.rank, b, c);
    }
    if Firm(n, p, w.sense.env) {
      FirmNothing(y, p, w.sense.env);
    }
  }

  lemma ShownVisible(w: World, n: Value, path: Path, q: Value, p: Path, c: nat)
    requires n.Reference? && Shown(w, n, path, q) && LeadsTo(w, n, path) && p != [] && Visible(w.sense, n, p, c)
    ensures Visible(w.sense, q, p, w.sense.rank(n))
  {
    hide Visible;
    assert Visible(w.sense, w.sense.root, path + p, w.sense.rank(n));
  }

  lemma ShownBelow(w: World, n: Value, path: Path, q: Value)
    requires n.Reference? && Shown(w, n, path, q)
    ensures AllBelow(q, w.sense.rank, w.sense.rank(n))
  {
  }

  /** What the root shows is resolved in turn. */
  lemma {:induction false} AgreeShown(w: World, n: Value, path: Path, q: Value, r: Path, c: nat, inner: Replacements,
                                      memos: Memos)
    requires Looking(w, n, inner, memos) && Shown(w, n, path, q) && LeadsTo(w, n, path) && Visible(w.sense, n, r, c)
    requires w.sense.env(n) == Meaning(q, w.sense.env)
    ensures Ready(w.src, q, inner, memos)
    ensures Agreed(w, n, r, memos, Resolve(w.src, q, r, inner, memos))
    decreases |w.src.nodes - inner.Keys| + 1, 0, 1
  {
    hide Resolve, Agrees, MemosOk, Right, Extends, Shown, LeadsTo, Visible, Coherent, Looking;
    CalmShown(w, n, path, q, r, c, inner, memos);
    AgreeResolve(w, w.sense.rank(n), q, r, inner, memos);
    var a := Resolve(w.src, q, r, inner, memos);
    if a.outcome.Done? {
      assert n.Reference? by { LookingReference(w, n, inner, memos); }
      ShownIsRight(w, n, path, q, r, a.outcome.value);
    }
  }

  lemma LookingReference(w: World, n: Value, inner: Replacements, memos: Memos)
    requires Looking(w, n, inner, memos)
    ensures n.Reference? && NodeSolved(w, n) && Ready(w.src, n, inner, memos)
  {
  }

  lemma CalmShown(w: World, n: Value, path: Path, q: Value, r: Path, c: nat, inner: Replacements, memos: Memos)
    requires Looking(w, n, inner, memos) && Shown(w, n, path, q) && LeadsTo(w, n, path) && Visible(w.sense, n, r, c)
    ensures n.Reference? && Calm(w, w.sense.rank(n), q, r, inner) && Known(w, memos)
  {
    hide Agrees, MemosOk, Bounded, Visible, NodeSolved, Assignment, ConcatenationSolved;
    ShownBelow(w, n, path, q);
    AllBelowIsBounded(q, r, w.sense.rank, w.sense.rank(n));
    AllCoredShields(inner, q);
    if r == [] {
      NoPathVisible(w.sense, q, w.sense.rank(n));
    } else {
      ShownVisible(w, n, path, q, r, c);
    }
  }

  lemma {:induction false} AgreeLookup(w: World, n: Value, r: Path, c: nat, inner: Replacements, memos: Memos)
    requires Looking(w, n, inner, memos) && Visible(w.sense, n, r, c)
    ensures n.Reference? && Ready(w.src, n, inner, memos) && n in inner
    ensures Agreed(w, n, r, memos, LookupSubst(w.src, n, r, inner, memos))
    decreases |w.src.nodes - inner.Keys| + 1, 0, 2
  {
    hide Agrees, MemosOk, Resolve, Visible, Extends, Shown, LeadsTo, Looking, Coherent, Refines, LookIn, Fit;
    hide FindInRoot;
    LookingReference(w, n, inner, memos);
    LookingState(w, n, inner, memos);
    Leads(w, n);
    AgreeFind(w, n, n.path, inner, memos);
    var found := FindInRoot(w.src, n.path, inner, memos);
    if found.outcome.Done? {
      LookingOn(w, n, inner, memos, found.memos);
      if found.outcome.value.Some? {
        var q := found.outcome.value.value;
        ShownMeans(w, n, n.path, q);
        AgreeShown(w, n, n.path, q, r, c, inner, found.memos);
        AgreedOn(w, n, r, memos, found.memos, Resolve(w.src, q, r, inner, found.memos));
      } else if n.prefixLength == 0 {
        assert n.path[0..] == n.path;
      } else {
        var short := n.path[n.prefixLength..];
        AgreeFind(w, n, short, inner, found.memos);
        var unprefixed := FindInRoot(w.src, short, inner, found.memos);
        if unprefixed.outcome.Done? {
          LookingOn(w, n, inner, found.memos, unprefixed.memos);
          ExtendsOn(w, memos, found.memos, unprefixed.memos);
          if unprefixed.outcome.value.Some? {
            var q := unprefixed.outcome.value.value;
            ShownMeans(w, n, short, q);
            AgreeShown(w, n, short, q, r, c, inner, unprefixed.memos);
            AgreedOn(w, n, r, memos, unprefixed.memos, Resolve(w.src, q, r, inner, unprefixed.memos));
          }
        }
      }
    }
  }

  lemma LookingNow(w: World, b: nat, n: Value, r: Path, table: Replacements, memos: Memos)
    requires n.Reference? && n !in table && Calm(w, b, n, r, table) && Known(w, memos)
    ensures Looking(w, n, table[n := CycleReplacer], memos)
  {
    hide Agrees, MemosOk, Coherent, NodeSolved, AllCored, Above, Fit;
    CalmIsFit(w, b, n, r, table);
    CalmReference(w, b, n, r, table);
    ReferenceReady(w.src, n, table, memos);
  }

  lemma LookingState(w: World, n: Value, inner: Replacements, memos: Memos)
    requires Looking(w, n, inner, memos)
    ensures n in inner && Sound(w.src) && TableOk(inner) && MemosOk(w.src, memos)
    ensures Looks(w, n.path, w.sense.rank(n))
    ensures LookIn(RootMeaning(w.sense), n.path).None? ==> Looks(w, n.path[n.prefixLength..], w.sense.rank(n))
    ensures 0 <= n.prefixLength < |n.path|
  {
    hide Looks, LookIn;
  }

  lemma LookingOn(w: World, n: Value, inner: Replacements, memos: Memos, after: Memos)
    requires Looking(w, n, inner, memos) && MemosOk(w.src, after) && Agrees(w, after)
    ensures Looking(w, n, inner, after)
  {
    hide MemosOk, Agrees, Coherent, NodeSolved, AllCored, Above, Fit;
  }

  /** What is shown means what the reference does. */
  lemma ShownMeans(w: World, n: Value, path: Path, q: Value)
    requires n.Reference? && NodeSolved(w, n) && Shown(w, n, path, q)
    requires path == n.path || (path == n.path[n.prefixLength..] && LookIn(RootMeaning(w.sense), n.path).None?)
    requires path == n.path ==> !Absent(w.sense.root, path)
    ensures w.sense.env(n) == Meaning(q, w.sense.env)
  {
    hide Looks, LookIn, Absent, Visible;
    assert n.path[0..] == n.path;
  }

  lemma AgreedOn(w: World, v: Value, r: Path, memos: Memos, mid: Memos, a: Answer<Option<Value>>)
    requires Agreed(w, v, r, mid, a) && Extends(w, memos, mid)
    ensures Agreed(w, v, r, memos, a)
  {
    hide Right, Agrees, Extends;
    if a.outcome.Done? {
      ExtendsOn(w, memos, mid, a.memos);
    }
  }

  // ---- lists and concatenations

  lemma {:induction false} AgreeList(w: World, b: nat, v: Value, r: Path, table: Replacements, memos: Memos)
    requires v.List? && Calm(w, b, v, r, table) && Known(w, memos) && Fit(w.src, v, table)
    ensures Agreed(w, v, r, memos, ResolveList(w.src, v, r, table, memos))
    decreases |w.src.nodes - table.Keys|, Weight(v), 1
  {
    hide Agrees, MemosOk, Fit, Extends, Calm, Right, Assignment;
    CalmIsFit(w, b, v, r, table);
    if r == [] {
      AgreeParts(w, b, v, v.items, r, table, memos);
      PresentItemsResolved(v.items, w.sense.env);
      MeaningIsRight(w, v, r, List(PresentItems(v.items, w.sense.env)));
    } else {
      ListIsRight(w, v, r);
      ExtendsItself(w, memos);
    }
  }

  lemma ListIsRight(w: World, v: Value, r: Path)
    requires v.List?
    ensures Right(w, v, r, Some(v))
  {
    hide Refines;
    RefinesItself(w.sense, v);
  }

  lemma {:induction false} AgreeConcatenation(w: World, b: nat, v: Value, r: Path, table: Replacements, memos: Memos)
    requires v.Concatenation? && Calm(w, b, v, r, table) && Known(w, memos) && Fit(w.src, v, table)
    ensures Agreed(w, v, r, memos, ResolveConcatenation(w.src, v, r, table, memos))
    decreases |w.src.nodes - table.Keys|, Weight(v), 1
  {
    hide Agrees, MemosOk, Fit, Extends, Calm, Right, Assignment, Consolidated;
    CalmIsFit(w, b, v, r, table);
    SolvedConcatenation(w, v, r, table);
    AgreeParts(w, b, v, v.pieces, r, table, memos);
    PresentItemsResolved(v.pieces, w.sense.env);
    JoinedLegal(w.src, PresentItems(v.pieces, w.sense.env), []);
    if ResolveItems(w.src, v.pieces, [], table, memos).outcome.Done? && w.sense.env(v).Some? {
      MeaningIsRight(w, v, r, w.sense.env(v).value);
    }
  }

  lemma SolvedConcatenation(w: World, v: Value, r: Path, table: Replacements)
    requires v.Concatenation? && Coherent(w) && Fit(w.src, v, table) && Bounded(v, r, w.sense.rank, w.top)
    ensures ConcatenationSolved(w, v)
    ensures w.sense.env(v).Some? ==> Resolved(w.sense.env(v).value)
  {
    hide ConcatenationSolved, NodeSolved;
  }

  /** The items or pieces resolve to what is present of them. */
  lemma {:induction false} AgreeParts(w: World, b: nat, v: Value, items: seq<Value>, r: Path, table: Replacements,
                                      memos: Memos)
    requires Calm(w, b, v, r, table) && Known(w, memos)
    requires (v.List? && v.items == items && r == []) || (v.Concatenation? && v.pieces == items)
    ensures forall i | 0 <= i < |items| :: Fit(w.src, items[i], table)
    ensures var a := ResolveItems(w.src, items, [], table, memos);
      && !a.outcome.NotPossible? && (w.sure ==> a.outcome.Done?)
      && (a.outcome.Done? ==>
            a.outcome == Done(PresentItems(items, w.sense.env)) && Agrees(w, a.memos) && Extends(w, memos, a.memos))
    decreases |w.src.nodes - table.Keys|, Weight(v), 0
  {
    hide Agrees, MemosOk, Fit, Calm, Extends, Visible;
    CalmIsFit(w, b, v, r, table);
    ItemParts(w.src, v, items, table);
    forall i | 0 <= i < |items| ensures Calm(w, b, items[i], [], table) {
      ItemOccurs(v, items, i);
      NoPathVisible(w.sense, items[i], b);
      CalmPart(w, b, v, r, items[i], [], table);
    }
    assert items[..0] == [] && items[0..] == items;
    AgreeItems(w, b, items, 0, table, memos);
  }

  lemma {:induction false} AgreeItems(w: World, b: nat, items: seq<Value>, i: nat, table: Replacements, memos: Memos)
    requires i <= |items| && Known(w, memos) && Assignment(w.sense.env)
    requires forall j | 0 <= j < |items| :: Calm(w, b, items[j], [], table) && Fit(w.src, items[j], table)
    ensures forall j | 0 <= j < |PresentItems(items[..i], w.sense.env)| ::
      Legal(w.src, PresentItems(items[..i], w.sense.env)[j], [])
    ensures var a := ResolveItems(w.src, items[i..], PresentItems(items[..i], w.sense.env), table, memos);
      && !a.outcome.NotPossible? && (w.sure ==> a.outcome.Done?)
      && (a.outcome.Done? ==>
            a.outcome == Done(PresentItems(items, w.sense.env)) && Agrees(w, a.memos) && Extends(w, memos, a.memos))
    decreases |w.src.nodes - table.Keys|, TotalWeight(items[i..]), 5
  {
    hide Agrees, MemosOk, Fit, Calm, Legal, Extends, Assignment, Right, Contained, Meaning;
    PresentIsLegal(w.src, items[..i], w.sense.env);
    if i == |items| {
      assert items[..i] == items && items[i..] == [];
      ExtendsItself(w, memos);
    } else {
      var rest := items[i..];
      assert rest[0] == items[i] && rest[1..] == items[i + 1..];
      AgreeResolve(w, b, items[i], [], table, memos);
      var first := Resolve(w.src, items[i], [], table, memos);
      if first.outcome.Done? {
        FullAnswer(w, items[i], first.outcome, table);
        PresentItemsStep(items, i, w.sense.env);
        AgreeItems(w, b, items, i + 1, table, first.memos);
        var a := ResolveItems(w.src, items[i + 1..], PresentItems(items[..i + 1], w.sense.env), table, first.memos);
        if a.outcome.Done? {
          ExtendsOn(w, memos, first.memos, a.memos);
        }
      }
    }
  }

  lemma PresentItemsStep(items: seq<Value>, i: nat, env: Env)
    requires i < |items|
    ensures PresentItems(items[..i + 1], env) == PresentItems(items[..i], env) + Present(Meaning(items[i], env))
  {
    assert items[..i + 1][..i] == items[..i] && items[..i + 1][i] == items[i];
  }

  lemma PresentIsLegal(src: Source, items: seq<Value>, env: Env)
    requires Assignment(env)
    ensures forall j | 0 <= j < |PresentItems(items, env)| :: Legal(src, PresentItems(items, env)[j], [])
  {
    PresentItemsResolved(items, env);
    forall j | 0 <= j < |PresentItems(items, env)| ensures Legal(src, PresentItems(items, env)[j], []) {
      ResolvedLegal(src, PresentItems(items, env)[j], []);
    }
  }

  /** A full answer is the meaning itself. */
  lemma FullAnswer(w: World, v: Value, outcome: Outcome<Option<Value>>, table: Replacements)
    requires outcome.Done? && Right(w, v, [], outcome.value) && Lawful(w.src, v, [], table, outcome)
    ensures outcome.value == Meaning(v, w.sense.env)
  {
    if outcome.value.Some? {
      ResolvedMeansItself(outcome.value.value, w.sense.env);
    }
  }

  // ---- objects

  /** A right answer for the child at `k` of an object resolved along `r`. */
  ghost predicate RightChild(w: World, o: Value, k: string, r: Path, y: Value)
    requires o.Object? && k in o.fields
  {
    && Refines(w.sense, o.fields[k], y)
    && (r != [] && k != r[0] ==> y == o.fields[k])
    && (r != [] && k == r[0] ==> PeeksRight(y, r[1..], w.sense.env))
  }

  /** The children kept so far; those neither kept nor still to visit mean nothing. */
  ghost predicate RightChildren(w: World, o: Value, r: Path, keys: seq<string>, kept: map<string, Value>)
    requires o.Object?
  {
    && (forall k | k in kept :: k in o.fields && RightChild(w, o, k, r, kept[k]))
    && (forall k | k in o.fields :: k in kept || k in keys || Dropped(w, o, k, r))
  }

  ghost predicate Dropped(w: World, o: Value, k: string, r: Path)
    requires o.Object? && k in o.fields
  {
    Meaning(o.fields[k], w.sense.env).None? && (r != [] ==> k == r[0])
  }

  lemma KeptIsRight(w: World, o: Value, r: Path, keys: seq<string>, kept: map<string, Value>, y: Option<Value>)
    requires o.Object? && keys != [] && keys[0] in o.fields && RightChildren(w, o, r, keys, kept)
    requires y.Some? ==> RightChild(w, o, keys[0], r, y.value)
    requires y.None? ==> Dropped(w, o, keys[0], r)
    ensures RightChildren(w, o, r, keys[1..], Kept(kept, keys[0], y))
  {
    hide RightChild, Dropped;
    var more := Kept(kept, keys[0], y);
    forall k | k in o.fields ensures k in more || k in keys[1..] || Dropped(w, o, k, r) {
      assert k in keys ==> k == keys[0] || k in keys[1..];
    }
  }

  /** An object of right children is right. */
  lemma RightObject(w: World, o: Value, r: Path, fields: map<string, Value>)
    requires Assignment(w.sense.env) && o.Object? && RightChildren(w, o, r, [], fields)
    requires Legal(w.src, Object(fields, o.ignoresFallbacks), r)
    ensures Right(w, o, r, Some(Object(fields, o.ignoresFallbacks)))
    ensures Anchored(o, r) ==> !Resolved(Object(fields, o.ignoresFallbacks))
  {
    hide Refines, PeeksRight, Assignment;
    var y := Object(fields, o.ignoresFallbacks);
    forall k | k in fields ensures k in o.fields && Refines(w.sense, o.fields[k], fields[k]) {
      assert RightChild(w, o, k, r, fields[k]);
    }
    ObjectRefines(w.sense, o, fields);
    if r == [] {
      ResolvedPeeksRight(y, r, w.sense.env);
    } else {
      PeeksEntry(y, r, w.sense.env);
    }
    if Anchored(o, r) {
      var k :| k in o.fields && k != r[0] && !Resolved(o.fields[k]);
      assert k in fields && fields[k] == o.fields[k];
    }
  }

  lemma {:induction false} AgreeObject(w: World, b: nat, v: Value, r: Path, table: Replacements, memos: Memos)
    requires v.Object? && Calm(w, b, v, r, table) && Known(w, memos) && Fit(w.src, v, table)
    ensures var a := ResolveObject(w.src, v, r, table, memos);
      && Agreed(w, v, r, memos, a)
      && (a.outcome.Done? && Anchored(v, r) ==> a.outcome.value.Some? && !Resolved(a.outcome.value.value))
    decreases |w.src.nodes - table.Keys|, Weight(v), 1
  {
    hide Calm, Agrees, MemosOk, Fit, Right, RightChild, Extends, Legal, Assignment, Anchored, Dropped, Resolved;
    CalmIsFit(w, b, v, r, table);
    ObjectParts(w.src, v, table);
    OrderedKeysOf(w.src, v, table);
    var keys := w.src.order(v.fields.Keys);
    AgreeFields(w, b, v, keys, map[], r, table, memos);
    if ResolveFields(w.src, v, keys, map[], r, table, memos).outcome.Done? {
      var a := ResolveObject(w.src, v, r, table, memos);
      RightObject(w, v, r, a.outcome.value.value.fields);
    }
  }

  lemma OrderedKeysOf(src: Source, v: Value, table: Replacements)
    requires v.Object? && Fit(src, v, table)
    ensures forall k | k in v.fields :: k in src.order(v.fields.Keys)
  {
    OrderedKeys(src.order, v.fields.Keys);
  }

  lemma {:induction false} AgreeFields(w: World, b: nat, o: Value, keys: seq<string>, kept: map<string, Value>, r: Path,
                                       table: Replacements, memos: Memos)
    requires o.Object? && Calm(w, b, o, r, table) && Known(w, memos)
    requires Fit(w.src, o, table) && forall i | 0 <= i < |keys| :: keys[i] in o.fields
    requires forall k | k in o.fields :: Fit(w.src, o.fields[k], table) && Weight(o.fields[k]) < Weight(o)
    requires FieldsLegal(w.src, r, kept) && RightChildren(w, o, r, keys, kept)
    ensures var a := ResolveFields(w.src, o, keys, kept, r, table, memos);
      && !a.outcome.NotPossible? && (w.sure ==> a.outcome.Done?)
      && (a.outcome.Done? ==>
            RightChildren(w, o, r, [], a.outcome.value) && Agrees(w, a.memos) && Extends(w, memos, a.memos))
    decreases |w.src.nodes - table.Keys|, Weight(o), 0, |keys|
  {
    hide Calm, Agrees, MemosOk, Fit, RightChild, FieldLegal, Meaning, RightChildren, ResolveChild, Extends, Dropped;
    hide Contained;
    if keys == [] {
      ExtendsItself(w, memos);
    } else {
      var key := keys[0];
      AgreeChild(w, b, o, key, r, table, memos);
      var child := ResolveChild(w.src, o, key, r, table, memos);
      if child.outcome.Done? {
        var more := Kept(kept, key, child.outcome.value);
        KeptIsRight(w, o, r, keys, kept, child.outcome.value);
        AgreeFields(w, b, o, keys[1..], more, r, table, child.memos);
        var a := ResolveFields(w.src, o, keys[1..], more, r, table, child.memos);
        if a.outcome.Done? {
          ExtendsOn(w, memos, child.memos, a.memos);
        }
      }
    }
  }

  lemma {:induction false} AgreeChild(w: World, b: nat, o: Value, key: string, r: Path, table: Replacements,
                                      memos: Memos)
    requires o.Object? && Calm(w, b, o, r, table) && Known(w, memos)
    requires key in o.fields && Fit(w.src, o.fields[key], table) && Weight(o.fields[key]) < Weight(o)
    ensures var a := ResolveChild(w.src, o, key, r, table, memos);
      && !a.outcome.NotPossible? && (w.sure ==> a.outcome.Done?)
      && (a.outcome.Done? ==>
            && Agrees(w, a.memos) && Extends(w, memos, a.memos)
            && (a.outcome.value.Some? ==> RightChild(w, o, key, r, a.outcome.value.value))
            && (a.outcome.value.None? ==> Dropped(w, o, key, r)))
    decreases |w.src.nodes - table.Keys|, Weight(o), 0, 0
  {
    hide Agrees, MemosOk, Fit, Meaning, Refines, Resolve, Extends, PeeksRight, Calm;
    var child := o.fields[key];
    CalmIsFit(w, b, o, r, table);
    FieldOccurs(o, key);
    if r == [] {
      NoPathVisible(w.sense, child, b);
      CalmPart(w, b, o, r, child, [], table);
      AgreeResolve(w, b, child, [], table, memos);
    } else if key == r[0] && |r| > 1 {
      CalmPart(w, b, o, r, child, r[1..], table);
      AgreeResolve(w, b, child, r[1..], table, memos);
    } else {
      RefinesItself(w.sense, child);
      ExtendsItself(w, memos);
      if key == r[0] {
        NoPathPeeks(child, r[1..], w.sense.env);
      }
    }
  }

  lemma NoPathPeeks(v: Value, r: Path, env: Env)
    requires r == []
    ensures PeeksRight(v, r, env)
  {
  }

  // ---- merge stacks

  /** What has been merged of the first `i` layers is right for them. */
  ghost predicate RightMerge(w: World, stacked: Value, i: nat, r: Path, merged: Option<Value>)
    requires stacked.DelayedMerge? && i <= |stacked.stack|
  {
    Right(w, DelayedMerge(false, stacked.stack[..i]), r, merged)
  }

  lemma {:induction false} AgreeStack(w: World, b: nat, v: Value, r: Path, table: Replacements, memos: Memos)
    requires v.DelayedMerge? && Calm(w, b, v, r, table) && Known(w, memos) && v !in table && Fit(w.src, v, table)
    ensures Agreed(w, v, r, memos, ResolveDelayedMerge(w.src, v, r, table, memos))
    decreases |w.src.nodes - table.Keys|, Weight(v), 1
  {
    hide Calm, Agrees, MemosOk, Fit, Right, Extends, RightMerge, MergedSoFar, Resolve, ResolveLayers, Lawful, Contained;
    StackBegins(w, v, r, table);
    AgreeLayers(w, b, v, 0, None, r, table, memos);
    var a := ResolveLayers(w.src, v, 0, None, r, table, memos);
    if a.outcome.Done? {
      StackEnds(w, v, r, a.outcome.value);
    }
  }

  lemma StackBegins(w: World, v: Value, r: Path, table: Replacements)
    requires v.DelayedMerge? && Fit(w.src, v, table)
    ensures WellFormed(v) && MergedSoFar(w.src, v, 0, None, r) && RightMerge(w, v, 0, r, None)
  {
    assert v.stack[..0] == [];
  }

  lemma StackEnds(w: World, v: Value, r: Path, merged: Option<Value>)
    requires v.DelayedMerge? && WellFormed(v) && RightMerge(w, v, |v.stack|, r, merged)
    requires MergedSoFar(w.src, v, |v.stack|, merged, r)
    ensures Right(w, v, r, merged)
    ensures v.objectHeaded ==> merged.Some? && IsObject(merged.value)
  {
    hide PeeksRight, KeepsAt;
    var whole := DelayedMerge(false, v.stack);
    assert v.stack[..|v.stack|] == v.stack;
    if merged.Some? {
      forall p, c ensures KeepsAt(w.sense, v, merged.value, p, c) {
        assert KeepsAt(w.sense, whole, merged.value, p, c);
        HeadIsIrrelevant(w, v, merged.value, p, c);
      }
    }
  }

  lemma HeadIsIrrelevant(w: World, v: Value, y: Value, p: Path, c: nat)
    requires v.DelayedMerge? && KeepsAt(w.sense, DelayedMerge(false, v.stack), y, p, c)
    ensures KeepsAt(w.sense, v, y, p, c)
  {
    var whole := DelayedMerge(false, v.stack);
    assert Meaning(whole, w.sense.env) == Meaning(v, w.sense.env);
    assert Visible(w.sense, v, p, c) ==> Visible(w.sense, whole, p, c);
    assert Bounded(v, p, w.sense.rank, c) ==> Bounded(whole, p, w.sense.rank, c);
    assert Firm(v, p, w.sense.env) ==> Firm(whole, p, w.sense.env);
    assert Absent(v, p) ==> Absent(whole, p);
  }

  lemma {:induction false} AgreeLayers(w: World, b: nat, stacked: Value, i: nat, merged: Option<Value>, r: Path,
                                       table: Replacements, memos: Memos)
    requires LayersReady(w.src, stacked, i, merged, r, table, memos)
    requires Calm(w, b, stacked, r, table) && Agrees(w, memos) && RightMerge(w, stacked, i, r, merged)
    ensures var a := ResolveLayers(w.src, stacked, i, merged, r, table, memos);
      && !a.outcome.NotPossible? && (w.sure ==> a.outcome.Done?)
      && (a.outcome.Done? ==>
            && RightMerge(w, stacked, |stacked.stack|, r, a.outcome.value)
            && Agrees(w, a.memos) && Extends(w, memos, a.memos))
    decreases |w.src.nodes - table.Keys|, Weight(stacked), 0, |stacked.stack| - i
  {
    hide Calm, Agrees, MemosOk, Fit, RightMerge, Right, MergedSoFar, Resolve, MergeOptional, Weight, Lawful, Contained;
    hide WellFormed, Meaning, Bounded, Extends;
    if i == |stacked.stack| {
      ExtendsItself(w, memos);
    } else {
      hide ResolveLayers;
      var layer, inner := stacked.stack[i], LayerTable(stacked, i, table);
      LayersStep(w.src, stacked, i, merged, r, table, memos);
      CalmLayer(w, b, stacked, i, r, table);
      AgreeResolve(w, b, layer, r, inner, memos);
      var a := Resolve(w.src, layer, r, inner, memos);
      if a.outcome.Done? {
        LayerIsLegal(w.src, layer, r, inner, a.outcome);
        OneMoreMerge(w, b, stacked, i, r, table, merged, a.outcome.value);
        var more := MergeOptional(merged, a.outcome.value);
        AgreeLayers(w, b, stacked, i + 1, more, r, table, a.memos);
        var rest := ResolveLayers(w.src, stacked, i + 1, more, r, table, a.memos);
        if rest.outcome.Done? {
          ExtendsOn(w, memos, a.memos, rest.memos);
        }
      }
    }
  }

  lemma LayerIsLegal(src: Source, v: Value, r: Path, table: Replacements, outcome: Outcome<Option<Value>>)
    requires Lawful(src, v, r, table, outcome)
    ensures outcome.Done? && outcome.value.Some? ==> Legal(src, outcome.value.value, r)
  {
  }

  lemma CalmLayer(w: World, b: nat, stacked: Value, i: nat, r: Path, table: Replacements)
    requires stacked.DelayedMerge? && stacked !in table && i < |stacked.stack|
    requires Calm(w, b, stacked, r, table) && Fit(w.src, stacked.stack[i], LayerTable(stacked, i, table))
    ensures Calm(w, b, stacked.stack[i], r, LayerTable(stacked, i, table))
  {
    hide Fit, Shielded, Coherent, LayersHideNothing;
    LayerShields(table, stacked, i);
    if r == [] {
      NoPathVisible(w.sense, stacked.stack[i], b);
    }
  }

  lemma OneMoreMerge(w: World, b: nat, stacked: Value, i: nat, r: Path, table: Replacements, merged: Option<Value>,
                     y: Option<Value>)
    requires stacked.DelayedMerge? && i < |stacked.stack| && Calm(w, b, stacked, r, table)
    requires RightMerge(w, stacked, i, r, merged) && MergedSoFar(w.src, stacked, i, merged, r)
    requires Right(w, stacked.stack[i], r, y) && (y.Some? ==> Legal(w.src, y.value, r))
    ensures RightMerge(w, stacked, i + 1, r, MergeOptional(merged, y))
  {
    hide Refines, PeeksRight, Visible, Bounded, Coherent, Fit, Calm, MergeOptional, Meaning;
    CalmIsFit(w, b, stacked, r, table);
    var upper, layer := stacked.stack[..i], stacked.stack[i];
    assert stacked.stack[..i + 1] == upper + [layer];
    MergedSome(merged, y);
    if merged.None? || y.None? {
      MergedOption(w, upper, layer, r, merged, y);
    } else {
      LegalMeans(w, merged.value, r);
      RefinesAt(w.sense, DelayedMerge(false, upper), merged.value, [], 0);
      OneMoreMeaning(upper, layer, w.sense.env);
      MergeRefines(w.sense, upper, layer, merged.value, y.value);
      MergePeeksRight(w, b, stacked, i, r, merged.value, y.value);
    }
  }

  lemma MergedSome(a: Option<Value>, b: Option<Value>)
    ensures a.Some? && b.Some? ==> MergeOptional(a, b) == Some(WithFallback(a.value, b.value))
    ensures a.None? ==> MergeOptional(a, b) == b
    ensures b.None? ==> MergeOptional(a, b) == a
  {
  }

  lemma LegalMeans(w: World, v: Value, r: Path)
    requires Assignment(w.sense.env) && Legal(w.src, v, r)
    ensures Meaning(v, w.sense.env).Some? && WellFormed(v) && (r != [] ==> PartlyResolved(v, r))
  {
    if r == [] {
      ResolvedMeansItself(v, w.sense.env);
    } else {
      PartlyMeaning(v, r, w.sense.env);
    }
  }

  lemma MergePeeksRight(w: World, b: nat, stacked: Value, i: nat, r: Path, a: Value, y: Value)
    requires stacked.DelayedMerge? && i < |stacked.stack| && Assignment(w.sense.env) && Visible(w.sense, stacked, r, b)
    requires Refines(w.sense, DelayedMerge(false, stacked.stack[..i]), a) && Refines(w.sense, stacked.stack[i], y)
    requires Legal(w.src, a, r) && Legal(w.src, y, r) && PeeksRight(a, r, w.sense.env) && PeeksRight(y, r, w.sense.env)
    ensures PeeksRight(WithFallback(a, y), r, w.sense.env)
  {
    hide Refines, Assignment, Legal, HidesNothing, Firm, WithFallback;
    if r == [] {
      NoPathPeeks(WithFallback(a, y), r, w.sense.env);
    } else {
      hide PeeksRight;
      var above := DelayedMerge(false, stacked.stack[..i]);
      LegalMeans(w, a, r);
      LegalMeans(w, y, r);
      RefinesAt(w.sense, above, a, r, b);
      RefinesAt(w.sense, stacked.stack[i], y, r, b);
      forall p: Path | FirmOf(above, w.sense.env)(p) ensures FirmOf(a, w.sense.env)(p) {
        RefinesAt(w.sense, above, a, p, b);
      }
      assert LayersHideNothing(stacked.stack, r, w.sense.env);
      var env := w.sense.env;
      FirmerHidesNothing(FirmOf(above, env), Meaning(a, env), FirmOf(a, env), Meaning(y, env), r);
      WithFallbackPeeksRight(a, y, r, w.sense.env);
    }
  }

  /** A layer, or all layers above one, that vanished. */
  lemma MergedOption(w: World, upper: seq<Value>, layer: Value, r: Path, merged: Option<Value>, y: Option<Value>)
    requires Assignment(w.sense.env) && Right(w, DelayedMerge(false, upper), r, merged) && Right(w, layer, r, y)
    requires merged.None? || y.None?
    ensures Right(w, DelayedMerge(false, upper + [layer]), r, MergeOptional(merged, y))
  {
    hide Refines, PeeksRight, Assignment, Meaning, MergeOptional;
    var whole := DelayedMerge(false, upper + [layer]);
    OneMoreMeaning(upper, layer, w.sense.env);
    MergedSome(merged, y);
    MergedSome(StackMeaning(upper, w.sense.env), Meaning(layer, w.sense.env));
    if y.Some? {
      forall p, c ensures KeepsAt(w.sense, whole, y.value, p, c) {
        RefinesAt(w.sense, layer, y.value, p, c);
        OnlyLayer(w, upper, layer, y.value, p, c);
      }
      RefinesAt(w.sense, layer, y.value, [], 0);
      RefinesFromParts(w.sense, whole, y.value);
    } else if merged.Some? {
      forall p, c ensures KeepsAt(w.sense, whole, merged.value, p, c) {
        RefinesAt(w.sense, DelayedMerge(false, upper), merged.value, p, c);
        VanishedLayer(w, upper, layer, merged.value, p, c);
      }
      RefinesAt(w.sense, DelayedMerge(false, upper), merged.value, [], 0);
      RefinesFromParts(w.sense, whole, merged.value);
    }
  }

  lemma OnlyLayer(w: World, upper: seq<Value>, layer: Value, y: Value, p: Path, c: nat)
    requires StackMeaning(upper, w.sense.env).None? && KeepsAt(w.sense, layer, y, p, c)
    requires Meaning(y, w.sense.env) == Meaning(layer, w.sense.env)
    ensures KeepsAt(w.sense, DelayedMerge(false, upper + [layer]), y, p, c)
  {
    hide Meaning, StackMeaning, LookIn, Visible;
    var whole := DelayedMerge(false, upper + [layer]);
    OneMoreMeaning(upper, layer, w.sense.env);
    assert (upper + [layer])[|upper|] == layer;
    if Visible(w.sense, whole, p, c) {
      if p == [] {
        NoPathVisible(w.sense, y, c);
      } else {
        LastVisible(w.sense, upper, layer, p, c);
      }
    }
    if Firm(whole, p, w.sense.env) {
      if LookIn(Meaning(layer, w.sense.env), p).None? {
        FirmNothing(y, p, w.sense.env);
      } else if p != [] {
        LayersFirm(upper, layer, p, w.sense.env);
      }
    }
  }

  lemma VanishedLayer(w: World, upper: seq<Value>, layer: Value, a: Value, p: Path, c: nat)
    requires Assignment(w.sense.env) && Meaning(layer, w.sense.env).None?
    requires KeepsAt(w.sense, DelayedMerge(false, upper), a, p, c)
    requires Meaning(a, w.sense.env) == StackMeaning(upper, w.sense.env)
    ensures KeepsAt(w.sense, DelayedMerge(false, upper + [layer]), a, p, c)
  {
    hide Meaning, StackMeaning, LookIn, Visible, Bounded, Firm, Absent, Assignment;
    var whole := DelayedMerge(false, upper + [layer]);
    if Visible(w.sense, whole, p, c) {
      if p == [] {
        NoPathVisible(w.sense, a, c);
      } else {
        LastVisible(w.sense, upper, layer, p, c);
      }
    }
    if Bounded(whole, p, w.sense.rank, c) {
      LastBounded(upper, layer, p, w.sense.rank, c);
    }
    if Firm(whole, p, w.sense.env) {
      VanishedFirm(upper, layer, a, p, w.sense.env);
    }
    if Absent(whole, p) {
      LastAbsent(upper, layer, p);
      AbsentMeaning(layer, p, w.sense.env);
      assert false;
    }
  }

  lemma LastAbsent(upper: seq<Value>, layer: Value, p: Path)
    requires Absent(DelayedMerge(false, upper + [layer]), p)
    ensures Absent(layer, p)
  {
    assert (upper + [layer])[|upper|] == layer;
  }

  lemma VanishedFirm(upper: seq<Value>, layer: Value, a: Value, p: Path, env: Env)
    requires Assignment(env) && Meaning(layer, env).None? && Meaning(a, env) == StackMeaning(upper, env)
    requires Firm(DelayedMerge(false, upper), p, env) ==> Firm(a, p, env)
    requires Firm(DelayedMerge(false, upper + [layer]), p, env)
    ensures Firm(a, p, env)
  {
    hide Meaning, StackMeaning, LookIn, Assignment;
    OneMoreMeaning(upper, layer, env);
    if LookIn(Meaning(a, env), p).None? {
      FirmNothing(a, p, env);
    } else if p != [] {
      LayersFirm(upper, layer, p, env);
    } else {
      IgnoringMeaning(layer, env);
      assert false;
    }
  }
}
