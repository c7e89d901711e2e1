/** The one internal error a legal document can provoke: a concatenation whose pieces all resolve
    to nothing does not join to exactly one value, and the source raises
    `ConfigExceptionBugOrBroken`. */
module Vanishing {
  import opened ConfigValues
  import opened Concatenations
  import opened Measures
  import opened Resolution
  import opened SettledValues

  /** Every one of the items, resolved in turn, resolves to nothing. */
  ghost predicate AllVanish(src: Source, items: seq<Value>, table: Replacements, memos: Memos)
    requires MemosOk(src, memos) && forall i | 0 <= i < |items| :: Fit(src, items[i], table)
    decreases |items|
  {
    items == [] ||
    (var first := Resolve(src, items[0], [], table, memos);
     first.outcome == Done(None) && AllVanish(src, items[1..], table, first.memos))
  }

  /** Nothing is left of the items exactly when every one of them resolves to nothing. */
  lemma {:induction false} NothingLeftExactly(src: Source, items: seq<Value>, kept: seq<Value>, table: Replacements,
                                              memos: Memos)
    requires MemosOk(src, memos) && forall i | 0 <= i < |items| :: Fit(src, items[i], table)
    requires forall i | 0 <= i < |kept| :: Legal(src, kept[i], [])
    ensures ResolveItems(src, items, kept, table, memos).outcome == Done([])
      <==> kept == [] && AllVanish(src, items, table, memos)
    decreases |items|
  {
    hide Resolve, Fit, MemosOk, Legal, Contained;
    if items != [] {
      var first := Resolve(src, items[0], [], table, memos);
      if first.outcome.Done? {
        FullIsLegal(src, items[0], first.outcome, table);
        NothingLeftExactly(src, items[1..], kept + Present(first.outcome.value), table, first.memos);
      }
    }
  }

  lemma FullIsLegal(src: Source, v: Value, outcome: Outcome<Option<Value>>, table: Replacements)
    requires Lawful(src, v, [], table, outcome)
    ensures outcome.Done? && outcome.value.Some? ==> Legal(src, outcome.value.value, [])
  {
  }

  /** A concatenation raises the internal error exactly when every piece resolves to nothing, or
      when a concatenation inside one of its pieces does; never when one of its pieces is neither
      an optional reference nor a merge stack. */
  lemma VanishesExactly(src: Source, c: Value, r: Path, table: Replacements, memos: Memos)
    requires c.Concatenation? && Ready(src, c, table, memos)
    ensures forall i | 0 <= i < |c.pieces| :: Fit(src, c.pieces[i], table)
    ensures ResolveConcatenation(src, c, r, table, memos).outcome == Failed(VanishedConcatenation)
      <==> || AllVanish(src, c.pieces, table, memos)
           || ResolveItems(src, c.pieces, [], table, memos).outcome == Failed(VanishedConcatenation)
    ensures AllVanish(src, c.pieces, table, memos) ==> Brittle(c)
  {
    hide Resolve, Fit, Consolidated;
    assert MemosOk(src, memos) && Fit(src, c, table);
    ItemParts(src, c, c.pieces, table);
    NothingLeftExactly(src, c.pieces, [], table, memos);
    var a := ResolveItems(src, c.pieces, [], table, memos);
    if a.outcome.Done? {
      JoinedLegal(src, a.outcome.value, r);
    }
  }

  // ---------------------------------------------------------------- a document that does it

  const NoX := Reference(0, ["x"], true, 0)
  const NoY := Reference(1, ["y"], true, 0)
  const Both := Concatenation([NoX, NoY])
  const Root := Object(map["a" := Both], false)

  ghost function Doc(order: set<string> -> seq<string>): (src: Source) {
    Document(Root, Root, order)
  }

  lemma RootIsWellFormed()
    ensures WellFormed(Root) && WellFormed(Both) && WellFormed(NoX) && WellFormed(NoY) && !Resolved(Root)
    ensures Root.fields.Keys == {"a"} && Root.fields["a"] == Both
  {
    assert Unmergeable(Both.pieces[0]) && !Resolved(Root.fields["a"]);
    assert forall i | 0 <= i < 2 :: Both.pieces[i] == NoX || Both.pieces[i] == NoY;
  }

  lemma NothingThere(src: Source, n: Value)
    requires src.root == Root && (n == NoX || n == NoY)
    ensures Dangling(src, n)
  {
  }

  /** `a = ${?x}${?y}`, and nothing else: the outermost resolve ends in the internal error. */
  lemma VanishedDocument(order: set<string> -> seq<string>)
    requires Ordering(order)
    ensures Ready(Doc(order), Root, map[], map[])
    ensures Resolve(Doc(order), Root, [], map[], map[]).outcome == Failed(VanishedConcatenation)
  {
    hide Resolve, Fit, Weight, Ordering;
    var src := Doc(order);
    RootIsWellFormed();
    OutermostResolve(Root, Root, order);
    assert Sound(src) && Fit(src, Root, map[]) && MemosOk(src, map[]);
    ObjectParts(src, Root, map[]);
    OrderedKeys(order, Root.fields.Keys);
    var keys := order(Root.fields.Keys);
    assert "a" in keys;
    assert keys[0] in keys;
    BothVanish(src);
    assert ResolveChild(src, Root, "a", [], map[], map[]).outcome == Failed(VanishedConcatenation);
    assert ResolveFields(src, Root, keys, map[], [], map[], map[]).outcome == Failed(VanishedConcatenation);
    ResolveFresh(src, Root, [], map[], map[]);
  }

  lemma BothVanish(src: Source)
    requires src.root == Root && Ready(src, Both, map[], map[]) && Sound(src)
    ensures Resolve(src, Both, [], map[], map[]).outcome == Failed(VanishedConcatenation)
  {
    hide Resolve, Fit, MemosOk, Weight, Consolidated;
    var open := MemoKey(Root, ["elsewhere"]);
    VanishesExactly(src, Both, [], map[], map[]);
    NothingThere(src, NoX);
    NothingThere(src, NoY);
    assert Both.pieces[0] == NoX && Both.pieces[1..] == [NoY] && [NoY][1..] == [];
    assert Fit(src, Both.pieces[0], map[]) && Fit(src, Both.pieces[1], map[]);
    DanglingResolves(src, NoX, map[], open);
    var first := Resolve(src, NoX, [], map[], map[]);
    DanglingResolves(src, NoY, first.memos, open);
    var second := Resolve(src, NoY, [], map[], first.memos);
    assert AllVanish(src, [], map[], second.memos);
    assert AllVanish(src, [NoY], map[], first.memos);
    assert AllVanish(src, Both.pieces, map[], map[]);
    ResolveFresh(src, Both, [], map[], map[]);
    assert ResolveSubstitutions(src, Both, [], map[], map[]) == ResolveConcatenation(src, Both, [], map[], map[]);
  }
}
