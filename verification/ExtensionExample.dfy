/** `x = 1, key = [${x}], key += ${x}, y = ${key}`: substitutions in the first list and in what is
    appended, and another entry that refers to the key. */
module ExtensionExample {
  import opened ConfigValues
  import opened MergeAlgebra
  import opened Resolution
  import opened Ranks
  import opened Lookups
  import opened Visibility
  import opened Denotation
  import opened MemoFree
  import opened SelfReference
  import opened SelfReferenceDocuments

  const One := Number(1, "1")
  const First := Reference(4, ["x"], false, 0)
  const Second := Reference(2, ["x"], false, 0)
  const Itself := Reference(1, ["key"], true, 0)
  const Reader := Reference(0, ["key"], false, 0)

  function Last(n: Value): (r: nat) {
    if n == Itself || n == Reader then 1 else 0
  }

  function Example(order: set<string> -> seq<string>): (e: Extension) {
    Extension("key", Some(List([First])), [Appending(Itself, Second)], map["x" := One], map["y" := Reader], order,
              Last, 1)
  }

  lemma ExampleParts(e: Extension)
    requires e == Example(e.order)
    ensures Plausible(e) && e.key !in e.others
    ensures Parts(e) == List([List([First]), Second, Object(map["x" := One], false)])
    ensures "x" in Root(e).fields && Root(e).fields["x"] == One
    ensures WellFormed(Parts(e)) && References(Parts(e)) <= {First, Second}
  {
    assert Values(e, 1) == Values(e, 0) + [Added(e, 1)] == [Second];
    var parts := Parts(e);
    assert parts == List([List([First])] + [Second] + [Object(map["x" := One], false)]);
    assert parts.items == [List([First]), Second, Object(map["x" := One], false)];
    assert References(List([First])) <= {First};
    assert References(Object(map["x" := One], false)) == {} by { ResolvedHasNoNodes(Object(map["x" := One], false)); }
    assert References(Second) == {Second};
    assert forall i | 0 <= i < 3 :: References(parts.items[i]) <= {First, Second};
  }

  /** Both references find 1. */
  lemma ExampleRefs(e: Extension, n: Value)
    requires e == Example(e.order) && (n == First || n == Second)
    ensures OwnRefs(e)(n) == Some(One) && AllRefs(e)(n) == Some(One)
  {
    var below := RefsBelow(Root(e), e.rank, 0);
    ExampleParts(e);
    FullEntry(Root(e), "x", below);
    assert n.path[1..] == [];
    assert LookIn(Full(Root(e), below), n.path) == LookIn(FieldAt(Full(Root(e), below).value, "x"), []);
    assert e.rank(n) == 0 && RefValue(Root(e), e.rank, n) == Some(One);
    assert n !in StepRefs(e);
  }

  lemma ExampleStated(e: Extension)
    requires e == Example(e.order) && Ordering(e.order)
    ensures Stated(e)
  {
    ExampleParts(e);
    var w := Meant(e);
    MeaningEntry(Root(e), "x", w.env);
    forall n | n in {First, Second} ensures NodeLookable(w, n) && e.rank(n) < e.top {
      assert n.path[1..] == [];
      assert Bounded(One, [], e.rank, 0) && Visible(w, One, [], 0);
      assert LookIn(RootMeaning(w), n.path) == LookIn(FieldAt(RootMeaning(w).value, "x"), []);
    }
    assert Ref(e, 1) == Itself;
    assert Full(List([First]), OwnRefs(e)).value.List?;
  }

  lemma ExampleSettles(e: Extension)
    requires e == Example(e.order)
    ensures Settles(Parts(e), Meant(e).env)
  {
    hide Root, Values, OwnRefs, AllRefs;
    ExampleParts(e);
    ExampleRefs(e, First);
    ExampleRefs(e, Second);
    var env := Meant(e).env;
    assert Settles(First, env) && Settles(Second, env);
    assert Settles(List([First]), env);
    ResolvedSettles(Object(map["x" := One], false), env);
    var parts := Parts(e).items;
    assert forall i | 0 <= i < |parts| :: parts[i] in {List([First]), Second, Object(map["x" := One], false)};
  }

  /** The document resolves to `x = 1, key = [1, 1], y = [1, 1]`, in every visiting order. */
  lemma ExampleResolves(order: set<string> -> seq<string>)
    requires Ordering(order)
    ensures var root := Root(Example(order));
      && Ready(Document(root, root, order), root, map[], map[])
      && Resolve(Document(root, root, order), root, [], map[], map[]).outcome ==
           Done(Some(Object(map["x" := One, "key" := List([One, One]), "y" := List([One, One])], false)))
  {
    hide Resolve, Stated, Settles;
    var e := Example(order);
    ExampleStated(e);
    ExampleSettles(e);
    assert Given(e, map[]) by { NothingRemembered(e, map[]); }
    DocumentResolves(e);
    ExampleParts(e);
    SrcIsDocument(e);
    ExampleResult(e);
  }

  lemma ExampleResult(e: Extension)
    requires e == Example(e.order)
    ensures Result(e) == map["x" := One, "key" := List([One, One]), "y" := List([One, One])]
  {
    hide Full, FullItems, OwnRefs;
    var refs := OwnRefs(e);
    ExampleRefs(e, First);
    ExampleRefs(e, Second);
    OneItem(First, refs);
    OneItem(Second, refs);
    assert Values(e, 1) == Values(e, 0) + [Second] == [Second];
    assert BaseItems(e) == [One];
    assert Expected(e, 1) == List([One] + [One]) == List([One, One]);
    PlainFull(Object(map["x" := One], false), refs);
    var list := List([One, One]);
    assert (map k | k in e.readers :: list) == map["y" := list];
    assert (map["x" := One] + map["y" := list])["key" := list] == map["x" := One, "key" := list, "y" := list];
  }

  lemma OneItem(n: Value, refs: Env)
    requires n.Reference? && refs(n) == Some(One)
    ensures FullItems([n], refs) == [One] && Full(List([n]), refs) == Some(List([One]))
  {
    assert [n][..0] == [];
    assert FullItems([n], refs) == FullItems([], refs) + [One];
  }
}
