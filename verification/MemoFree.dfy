/** Memo-free resolution and memoised resolution agree.

    The memo-free resolver is the same resolver that remembers nothing.  Whenever it succeeds on a
    document whose references rank and whose lookups are visible, memoised resolution returns an
    equal value, in every visiting order and from every table of right memos. */
module MemoFree {
  import opened ConfigValues
  import opened MergeAlgebra
  import opened Concatenations
  import opened Measures
  import opened Resolution
  import opened Ranks
  import opened Lookups
  import opened Visibility
  import opened MemoAgreement
  import opened Denotation

  // ---------------------------------------------------------------- what a run establishes

  /** Every rank of the document is below the top. */
  ghost predicate Capped(w: World) {
    forall n | n in w.src.nodes && n.Reference? :: w.sense.rank(n) < w.top
  }

  /** A request from outside. */
  ghost predicate Request(w: World, v: Value, memos: Memos) {
    && Coherent(w) && Capped(w) && WellFormed(v) && RefsIn(v, w.src.nodes)
    && MemosOk(w.src, memos) && Agrees(w, memos)
  }

  lemma RequestIsCalm(w: World, v: Value, memos: Memos)
    requires Request(w, v, memos)
    ensures Calm(w, w.top, v, [], map[]) && Known(w, memos) && Ready(w.src, v, map[], memos)
  {
    hide NodeSolved, ConcatenationSolved, Agrees, MemosOk;
    NodesBelow(v, w.src.nodes, w.sense.rank, w.top);
    NoPathVisible(w.sense, v, w.top);
  }

  /** A successful resolution returns what the document means, and leaves right memos behind; in a
      sure world every resolution is successful. */
  lemma ResolvesToMeaning(w: World, v: Value, memos: Memos)
    requires Request(w, v, memos)
    ensures Ready(w.src, v, map[], memos)
    ensures var a := Resolve(w.src, v, [], map[], memos);
      && (a.outcome.Done? ==> a.outcome == Done(Meaning(v, w.sense.env)) && Request(w, v, a.memos))
      && (w.sure ==> a.outcome.Done?)
  {
    hide Agrees, MemosOk, Calm, Coherent, Right, Resolve, Extends;
    RequestIsCalm(w, v, memos);
    AgreeResolve(w, w.top, v, [], map[], memos);
    var a := Resolve(w.src, v, [], map[], memos);
    if a.outcome.Done? {
      FullAnswer(w, v, a.outcome, map[]);
    }
  }

  /** Neither the order in which objects are visited nor what was memoised before matters. */
  lemma OrderAndMemosDoNotMatter(w: World, order: set<string> -> seq<string>, v: Value, memos: Memos)
    requires w.sure && Request(w, v, memos) && Ordering(order)
    ensures Ready(w.src, v, map[], memos) && Ready(w.src.(order := order), v, map[], map[])
    ensures Resolve(w.src, v, [], map[], memos).outcome == Resolve(w.src.(order := order), v, [], map[], map[]).outcome
  {
    ResolvesToMeaning(w, v, memos);
    var other := w.(src := w.src.(order := order));
    SameWorld(w, other, v);
    ResolvesToMeaning(other, v, map[]);
  }

  /** A document has at most one meaning: all senses in which it is coherent agree. */
  lemma SensesAgree(w: World, other: World, v: Value)
    requires w.src == other.src && w.sure && other.sure && Request(w, v, map[]) && Request(other, v, map[])
    ensures Meaning(v, w.sense.env) == Meaning(v, other.sense.env)
  {
    ResolvesToMeaning(w, v, map[]);
    ResolvesToMeaning(other, v, map[]);
  }

  /** The order, and whether results are remembered, are no part of what a document means. */
  lemma SameCoherent(w: World, other: World)
    requires Coherent(w) && Ordering(other.src.order)
    requires other.sense == w.sense && other.top == w.top && (other.sure ==> w.sure)
    requires other.src.root == w.src.root && other.src.nodes == w.src.nodes
    ensures Coherent(other)
  {
    hide Looks, LookIn, Absent, Consolidated, Assignment, PresentItems;
    forall n | n in other.src.nodes && n.Reference? && w.sense.rank(n) < w.top ensures NodeSolved(other, n) {
      assert NodeSolved(w, n);
      SameLooks(w, other, n);
    }
    forall c | c in other.src.nodes && c.Concatenation? && AllBelow(c, w.sense.rank, w.top)
      ensures ConcatenationSolved(other, c)
    {
      assert ConcatenationSolved(w, c);
    }
  }

  lemma SameWorld(w: World, other: World, v: Value)
    requires Coherent(w) && Capped(w) && WellFormed(v) && RefsIn(v, w.src.nodes) && Ordering(other.src.order)
    requires other.sense == w.sense && other.top == w.top && (other.sure ==> w.sure)
    requires other.src.root == w.src.root && other.src.nodes == w.src.nodes
    ensures Request(other, v, map[])
  {
    hide Coherent;
    SameCoherent(w, other);
  }

  lemma SameLooks(w: World, other: World, n: Value)
    requires other.sense == w.sense
    ensures forall path, b :: Looks(other, path, b) == Looks(w, path, b)
  {
  }

  // ---------------------------------------------------------------- success without memos

  /** Every required reference of `v` is found and every concatenation of `v` joins. */
  ghost predicate Settles(v: Value, env: Env)
    decreases v
  {
    match v
    case List(items) => forall i | 0 <= i < |items| :: Settles(items[i], env)
    case Object(fields, _) => forall k | k in fields :: Settles(fields[k], env)
    case Reference(_, _, optional, _) => env(v).None? ==> optional
    case Concatenation(pieces) =>
      && (forall i | 0 <= i < |pieces| :: Settles(pieces[i], env))
      && JoinedOutcome(Consolidated(PresentItems(pieces, env))).Done?
    case DelayedMerge(_, stack) => forall i | 0 <= i < |stack| :: Settles(stack[i], env)
    case _ => true
  }

  lemma {:induction false} ResolvedSettles(v: Value, env: Env)
    requires Resolved(v)
    ensures Settles(v, env)
    decreases v
  {
    match v
    case List(items) =>
      forall i | 0 <= i < |items| ensures Settles(items[i], env) { ResolvedSettles(items[i], env); }
    case Object(fields, _) =>
      forall k | k in fields ensures Settles(fields[k], env) { ResolvedSettles(fields[k], env); }
    case _ =>
  }

  /** Without memos, what resolves in full has been gone through in full. */
  lemma {:induction false} SuccessSettles(w: World, b: nat, v: Value, table: Replacements, memos: Memos)
    requires !w.src.remembers && Calm(w, b, v, [], table) && Known(w, memos)
    ensures Ready(w.src, v, table, memos)
    ensures Resolve(w.src, v, [], table, memos).outcome.Done? ==> Settles(v, w.sense.env)
    decreases |w.src.nodes - table.Keys|, Weight(v), 4
  {
    hide Calm, MemosOk, Agrees, Fit, Coherent, Resolved, Weight, Settles;
    CalmIsFit(w, b, v, [], table);
    NotInFlight(w, b, v, [], table);
    ResolveFresh(w.src, v, [], table, memos);
    if Resolve(w.src, v, [], table, memos).outcome.Done? {
      if Resolved(v) {
        ResolvedSettles(v, w.sense.env);
      } else {
        SuccessSettlesClass(w, b, v, table, memos);
      }
    }
  }

  lemma {:induction false} SuccessSettlesClass(w: World, b: nat, v: Value, table: Replacements, memos: Memos)
    requires !w.src.remembers && Calm(w, b, v, [], table) && Known(w, memos)
    requires !Resolved(v) && v !in table && Ready(w.src, v, table, memos)
    requires ResolveSubstitutions(w.src, v, [], table, memos).outcome.Done?
    ensures Settles(v, w.sense.env)
    decreases |w.src.nodes - table.Keys|, Weight(v), 3
  {
    hide Calm, MemosOk, Agrees, Fit, Coherent, Weight, Lawful, Contained, Consolidated;
    match v
    case Object(_, _) =>
      ObjectParts(w.src, v, table);
      OrderedKeysOf(w.src, v, table);
      FieldsSettle(w, b, v, w.src.order(v.fields.Keys), map[], table, memos);
    case List(items) =>
      ItemParts(w.src, v, items, table);
      PartsSettle(w, b, v, items, table, memos);
    case Concatenation(pieces) =>
      ItemParts(w.src, v, pieces, table);
      PartsSettle(w, b, v, pieces, table, memos);
      AgreeParts(w, b, v, pieces, [], table, memos);
    case DelayedMerge(_, _) => LayersSettle(w, b, v, 0, None, table, memos);
    case Reference(_, _, _, _) => ReferenceSettles(w, b, v, table, memos);
  }

  lemma ReferenceSettles(w: World, b: nat, n: Value, table: Replacements, memos: Memos)
    requires n.Reference? && Calm(w, b, n, [], table) && Known(w, memos) && n !in table && Fit(w.src, n, table)
    requires ResolveReference(w.src, n, [], table, memos).outcome.Done?
    ensures Settles(n, w.sense.env)
  {
    hide Calm, MemosOk, Agrees, Fit, Weight, LookupSubst, Extends, Right;
    AgreeReference(w, b, n, [], table, memos);
    FullAnswer(w, n, ResolveReference(w.src, n, [], table, memos).outcome, table);
  }

  lemma {:induction false} FieldsSettle(w: World, b: nat, o: Value, keys: seq<string>, kept: map<string, Value>,
                                        table: Replacements, memos: Memos)
    requires !w.src.remembers && o.Object? && Calm(w, b, o, [], table) && Known(w, memos)
    requires Fit(w.src, o, table) && forall i | 0 <= i < |keys| :: keys[i] in o.fields
    requires forall k | k in o.fields :: Fit(w.src, o.fields[k], table) && Weight(o.fields[k]) < Weight(o)
    requires FieldsLegal(w.src, [], kept) && ResolveFields(w.src, o, keys, kept, [], table, memos).outcome.Done?
    ensures forall i | 0 <= i < |keys| :: Settles(o.fields[keys[i]], w.sense.env)
    decreases |w.src.nodes - table.Keys|, Weight(o), 0, |keys|
  {
    hide Calm, Agrees, MemosOk, Fit, FieldLegal, Extends, Settles, Contained, RightChild, Dropped;
    if keys != [] {
      var key := keys[0];
      ChildCalm(w, b, o, key, table);
      SuccessSettles(w, b, o.fields[key], table, memos);
      AgreeChild(w, b, o, key, [], table, memos);
      var child := ResolveChild(w.src, o, key, [], table, memos);
      FieldsSettle(w, b, o, keys[1..], Kept(kept, key, child.outcome.value), table, child.memos);
      forall i | 0 <= i < |keys| ensures Settles(o.fields[keys[i]], w.sense.env) {
        assert i > 0 ==> keys[i] == keys[1..][i - 1];
      }
    }
  }

  lemma ChildCalm(w: World, b: nat, o: Value, key: string, table: Replacements)
    requires o.Object? && key in o.fields && Calm(w, b, o, [], table) && Fit(w.src, o.fields[key], table)
    ensures Calm(w, b, o.fields[key], [], table)
  {
    hide Coherent, Fit;
    FieldOccurs(o, key);
    NoPathVisible(w.sense, o.fields[key], b);
    assert Bounded(o.fields[key], [], w.sense.rank, b);
    CalmPart(w, b, o, [], o.fields[key], [], table);
  }

  lemma {:induction false} PartsSettle(w: World, b: nat, v: Value, items: seq<Value>, table: Replacements, memos: Memos)
    requires !w.src.remembers && Calm(w, b, v, [], table) && Known(w, memos)
    requires (v.List? && v.items == items) || (v.Concatenation? && v.pieces == items)
    requires forall i | 0 <= i < |items| :: Fit(w.src, items[i], table)
    requires ResolveItems(w.src, items, [], table, memos).outcome.Done?
    ensures forall i | 0 <= i < |items| :: Settles(items[i], w.sense.env)
    decreases |w.src.nodes - table.Keys|, Weight(v), 0
  {
    hide Agrees, MemosOk, Fit, Calm, Settles, Visible;
    CalmIsFit(w, b, v, [], table);
    forall i | 0 <= i < |items| ensures Calm(w, b, items[i], [], table) {
      ItemOccurs(v, items, i);
      NoPathVisible(w.sense, items[i], b);
      CalmPart(w, b, v, [], items[i], [], table);
    }
    ItemsSettle(w, b, items, [], table, memos);
  }

  lemma {:induction false} ItemsSettle(w: World, b: nat, items: seq<Value>, kept: seq<Value>, table: Replacements,
                                       memos: Memos)
    requires !w.src.remembers && Known(w, memos)
    requires forall i | 0 <= i < |items| :: Calm(w, b, items[i], [], table) && Fit(w.src, items[i], table)
    requires forall i | 0 <= i < |kept| :: Legal(w.src, kept[i], [])
    requires ResolveItems(w.src, items, kept, table, memos).outcome.Done?
    ensures forall i | 0 <= i < |items| :: Settles(items[i], w.sense.env)
    decreases |w.src.nodes - table.Keys|, TotalWeight(items), 5
  {
    hide Agrees, MemosOk, Fit, Calm, Legal, Settles, Extends, Right, Contained;
    if items != [] {
      SuccessSettles(w, b, items[0], table, memos);
      AgreeResolve(w, b, items[0], [], table, memos);
      var first := Resolve(w.src, items[0], [], table, memos);
      LayerIsLegal(w.src, items[0], [], table, first.outcome);
      ItemsSettle(w, b, items[1..], kept + Present(first.outcome.value), table, first.memos);
      forall i | 0 <= i < |items| ensures Settles(items[i], w.sense.env) {
        assert i > 0 ==> items[i] == items[1..][i - 1];
      }
    }
  }

  lemma {:induction false} LayersSettle(w: World, b: nat, stacked: Value, i: nat, merged: Option<Value>,
                                        table: Replacements, memos: Memos)
    requires !w.src.remembers && LayersReady(w.src, stacked, i, merged, [], table, memos)
    requires Calm(w, b, stacked, [], table) && Agrees(w, memos)
    requires ResolveLayers(w.src, stacked, i, merged, [], table, memos).outcome.Done?
    ensures forall j | i <= j < |stacked.stack| :: Settles(stacked.stack[j], w.sense.env)
    decreases |w.src.nodes - table.Keys|, Weight(stacked), 0, |stacked.stack| - i
  {
    hide Calm, Agrees, MemosOk, Fit, MergedSoFar, Resolve, MergeOptional, Weight, Lawful, Contained, ResolveLayers;
    hide Settles;
    hide Extends, Right;
    if i < |stacked.stack| {
      var layer, inner := stacked.stack[i], LayerTable(stacked, i, table);
      LayersStep(w.src, stacked, i, merged, [], table, memos);
      CalmLayer(w, b, stacked, i, [], table);
      SuccessSettles(w, b, layer, inner, memos);
      AgreeResolve(w, b, layer, [], inner, memos);
      var a := Resolve(w.src, layer, [], inner, memos);
      LayersSettle(w, b, stacked, i + 1, MergeOptional(merged, a.outcome.value), table, a.memos);
    }
  }

  // ---------------------------------------------------------------- the theorem

  /** Every reference or concatenation of a value that settles is sure. */
  lemma {:induction false} SettledNodes(v: Value, env: Env, n: Value)
    requires Settles(v, env) && n in References(v)
    ensures n.Reference? && env(n).None? ==> n.optional
    ensures n.Concatenation? ==> JoinedOutcome(Consolidated(PresentItems(n.pieces, env))).Done?
    decreases v
  {
    if n != v {
      match v
      case List(items) =>
        var i :| 0 <= i < |items| && n in References(items[i]);
        SettledNodes(items[i], env, n);
      case Object(fields, _) =>
        var k :| k in fields && n in References(fields[k]);
        SettledNodes(fields[k], env, n);
      case Concatenation(pieces) =>
        var i :| 0 <= i < |pieces| && n in References(pieces[i]);
        SettledNodes(pieces[i], env, n);
      case DelayedMerge(_, stack) =>
        var i :| 0 <= i < |stack| && n in References(stack[i]);
        SettledNodes(stack[i], env, n);
    }
  }

  /** The lookup of every reference meets only references of lower rank and finds what is there; and
      where a full path means nothing, nothing is written there or nothing is found without the
      prefix either.  This is told from the document by its denotation. */
  ghost predicate Lookable(root: Value, rank: Rank) {
    forall n | n in References(root) && n.Reference? :: NodeLookable(SenseOf(root, rank), n)
  }

  ghost predicate NodeLookable(w: Sense, n: Value)
    requires n.Reference?
  {
    && 0 <= n.prefixLength < |n.path|
    && LooksAlong(w, n.path, w.rank(n))
    && (LookIn(RootMeaning(w), n.path).None? ==>
          && LooksAlong(w, n.path[n.prefixLength..], w.rank(n))
          && (Absent(w.root, n.path) || LookIn(RootMeaning(w), n.path[n.prefixLength..]).None?))
  }

  ghost predicate LooksAlong(w: Sense, path: Path, b: nat) {
    Bounded(w.root, path, w.rank, b) && Visible(w, w.root, path, b)
  }

  /** The world of a document, not trusted to resolve. */
  ghost function WorldOf(root: Value, rank: Rank, src: Source, sure: bool): (w: World) {
    var top := RankTop(References(root), rank);
    World(src, SenseOf(root, rank), top, sure)
  }

  ghost function RankTop(nodes: set<Value>, rank: Rank): (b: nat)
    ensures forall n | n in nodes :: rank(n) < b
  {
    if nodes == {} then 0
    else
      var n :| n in nodes;
      var c := RankTop(nodes - {n}, rank);
      assert forall m | m in nodes :: m == n || m in nodes - {n};
      if rank(n) < c then c else rank(n) + 1
  }

  /** The denotation solves the equations of a document whose references rank. */
  lemma DenotationIsCoherent(root: Value, rank: Rank, src: Source)
    requires Sound(src) && src.root == root && src.nodes == References(root) && Lookable(root, rank)
    ensures Coherent(WorldOf(root, rank, src, false)) && Capped(WorldOf(root, rank, src, false))
  {
    hide Sound, SenseOf, NodeSolved, ConcatenationSolved, Lookable, AllBelow;
    var w := WorldOf(root, rank, src, false);
    SenseFacts(root, rank);
    forall n | n in src.nodes && n.Reference? ensures NodeSolved(w, n) {
      NodeIsSolved(root, rank, src, n);
    }
    forall c | c in src.nodes && c.Concatenation? ensures ConcatenationSolved(w, c) {
      ConcatenationFound(root, rank, src, c);
    }
  }

  lemma NodeIsSolved(root: Value, rank: Rank, src: Source, n: Value)
    requires n in References(root) && n.Reference? && Lookable(root, rank)
    ensures NodeSolved(WorldOf(root, rank, src, false), n)
  {
    hide LooksAlong, Looks, Absent, LookIn, SenseOf, References;
    var w := WorldOf(root, rank, src, false);
    SenseFacts(root, rank);
    assert NodeLookable(w.sense, n);
    NodeFound(root, rank, n);
    LooksSame(w, n);
  }

  lemma SenseFacts(root: Value, rank: Rank)
    ensures var s := SenseOf(root, rank); s.root == root && s.rank == rank && Assignment(s.env)
  {
    SenseAssigns(root, rank);
  }

  lemma LooksSame(w: World, n: Value)
    ensures forall path, b :: Looks(w, path, b) == LooksAlong(w.sense, path, b)
  {
  }

  lemma ConcatenationFound(root: Value, rank: Rank, src: Source, c: Value)
    requires c.Concatenation?
    ensures ConcatenationSolved(WorldOf(root, rank, src, false), c)
  {
    ItemsAreFull(c.pieces, Refs(root, rank));
  }

  lemma NodeFound(root: Value, rank: Rank, n: Value)
    requires n.Reference? && NodeLookable(SenseOf(root, rank), n)
    ensures var s := SenseOf(root, rank); var full := LookIn(RootMeaning(s), n.path);
      s.env(n) == if full.Some? then full else LookIn(RootMeaning(s), n.path[n.prefixLength..])
  {
    hide LookIn, Absent, Visible;
    var refs := Refs(root, rank);
    MeaningIsFull(root, refs);
    RefsAssign(root, rank);
    RefFound(root, rank, n, n.path, refs);
    if LookIn(RootMeaning(SenseOf(root, rank)), n.path).None? {
      RefFound(root, rank, n, n.path[n.prefixLength..], refs);
    }
  }

  /** The resolver that remembers nothing. */
  ghost function WithoutMemos(root: Value, order: set<string> -> seq<string>): (src: Source) {
    Document(root, root, order).(remembers := false)
  }

  lemma DocumentsSound(root: Value, order: set<string> -> seq<string>)
    requires WellFormed(root) && root.Object? && Ordering(order)
    ensures Sound(Document(root, root, order)) && Sound(WithoutMemos(root, order))
    ensures Document(root, root, order).nodes == References(root)
  {
    OutermostResolve(root, root, order);
  }

  /** The world of a document that resolves without memos. */
  lemma SuccessIsSure(root: Value, rank: Rank, order: set<string> -> seq<string>)
    requires WellFormed(root) && root.Object? && Ordering(order) && Lookable(root, rank)
    ensures Request(WorldOf(root, rank, WithoutMemos(root, order), false), root, map[])
    ensures Ready(WithoutMemos(root, order), root, map[], map[])
    ensures var outcome := Resolve(WithoutMemos(root, order), root, [], map[], map[]).outcome;
      outcome.Done? ==>
        && outcome == Done(Meaning(root, SenseOf(root, rank).env))
        && Coherent(WorldOf(root, rank, WithoutMemos(root, order), true))
  {
    hide Resolve, Coherent, Sound, SenseOf, Lookable;
    var src := WithoutMemos(root, order);
    var w := WorldOf(root, rank, src, false);
    DocumentsSound(root, order);
    DenotationIsCoherent(root, rank, src);
    RootRequest(w, root);
    ResolvesToMeaning(w, root, map[]);
    RequestIsCalm(w, root, map[]);
    if Resolve(src, root, [], map[], map[]).outcome.Done? {
      SuccessSettles(w, w.top, root, map[], map[]);
      SureWorld(w, root);
    }
  }

  lemma RootRequest(w: World, root: Value)
    requires Coherent(w) && Capped(w) && w.src.root == root
    ensures Request(w, root, map[])
  {
    hide NodeSolved, ConcatenationSolved;
  }

  lemma SureWorld(w: World, root: Value)
    requires Coherent(w) && w.src.nodes == References(root) && Settles(root, w.sense.env)
    ensures Coherent(w.(sure := true))
  {
    hide LookIn, Absent, Sound, Assignment, Settles, Consolidated, PresentItems, Looks;
    var sure := w.(sure := true);
    SameLooks(w, sure, root);
    forall n | n in w.src.nodes && n.Reference? && w.sense.rank(n) < w.top ensures NodeSolved(sure, n) {
      assert NodeSolved(w, n);
      SettledNodes(root, w.sense.env, n);
    }
    forall c | c in w.src.nodes && c.Concatenation? && AllBelow(c, w.sense.rank, w.top)
      ensures ConcatenationSolved(sure, c)
    {
      assert ConcatenationSolved(w, c);
      SettledNodes(root, w.sense.env, c);
    }
  }

  /** Whenever memo-free resolution of a document whose references rank and whose lookups are visible
      succeeds, memoised resolution returns the equal value: in any visiting order, and from any
      table of right memos. */
  lemma MemosPreserveSuccess(root: Value, rank: Rank, order: set<string> -> seq<string>,
                             other: set<string> -> seq<string>, memos: Memos)
    requires WellFormed(root) && root.Object? && Ordering(order) && Ordering(other) && Lookable(root, rank)
    requires Ready(WithoutMemos(root, order), root, map[], map[])
    requires Resolve(WithoutMemos(root, order), root, [], map[], map[]).outcome.Done?
    requires Known(WorldOf(root, rank, Document(root, root, other), true), memos)
    ensures Ready(Document(root, root, other), root, map[], memos)
    ensures Resolve(Document(root, root, other), root, [], map[], memos).outcome ==
      Resolve(WithoutMemos(root, order), root, [], map[], map[]).outcome
  {
    hide Resolve, Coherent, Sound, SenseOf, Lookable, Agrees, MemosOk;
    SuccessIsSure(root, rank, order);
    DocumentsSound(root, order);
    DocumentsSound(root, other);
    var w := WorldOf(root, rank, WithoutMemos(root, order), true);
    var u := WorldOf(root, rank, Document(root, root, other), true);
    SameWorld(w, u, root);
    ResolvesToMeaning(u, root, memos);
  }

  /** Without memos such a document resolves exactly if every required reference of it is found and
      every concatenation of it joins; and then it resolves with memos too. */
  lemma SucceedsExactly(root: Value, rank: Rank, order: set<string> -> seq<string>)
    requires WellFormed(root) && root.Object? && Ordering(order) && Lookable(root, rank)
    ensures Ready(WithoutMemos(root, order), root, map[], map[])
    ensures Ready(Document(root, root, order), root, map[], map[])
    ensures Resolve(WithoutMemos(root, order), root, [], map[], map[]).outcome.Done?
      <==> Settles(root, SenseOf(root, rank).env)
    ensures Settles(root, SenseOf(root, rank).env) ==>
      Resolve(Document(root, root, order), root, [], map[], map[]).outcome ==
        Done(Meaning(root, SenseOf(root, rank).env))
  {
    hide Resolve, Coherent, Sound, SenseOf, Lookable, Settles, Meaning;
    DocumentsSound(root, order);
    SettledSucceeds(root, rank, WithoutMemos(root, order));
    SettledSucceeds(root, rank, Document(root, root, order));
    var w := WorldOf(root, rank, WithoutMemos(root, order), false);
    RequestIsCalm(w, root, map[]);
    if Resolve(WithoutMemos(root, order), root, [], map[], map[]).outcome.Done? {
      SuccessSettles(w, w.top, root, map[], map[]);
    }
  }

  lemma SettledSucceeds(root: Value, rank: Rank, src: Source)
    requires Sound(src) && src.root == root && src.nodes == References(root) && Lookable(root, rank)
    ensures Request(WorldOf(root, rank, src, false), root, map[]) && Ready(src, root, map[], map[])
    ensures Settles(root, SenseOf(root, rank).env) ==>
      Resolve(src, root, [], map[], map[]).outcome == Done(Meaning(root, SenseOf(root, rank).env))
  {
    hide Resolve, Coherent, SenseOf, Lookable, Settles, Meaning;
    var w := WorldOf(root, rank, src, false);
    DenotationIsCoherent(root, rank, src);
    RootRequest(w, root);
    RequestIsCalm(w, root, map[]);
    if Settles(root, SenseOf(root, rank).env) {
      SureWorld(w, root);
      RootRequest(w.(sure := true), root);
      ResolvesToMeaning(w.(sure := true), root, map[]);
    }
  }
}
