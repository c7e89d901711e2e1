# A verified model of the HOCON engine, the worker pool and base64

This Dafny project models the configuration engine under `AsrServiceProxy/config` and two small
cores of `AsrServiceProxy/utils`, and proves what they are for.

- **Values and merging** (`ConfigValues`, `MergeAlgebra`, `Concatenation`, `Numerals`).
  `with_fallback` over scalars, lists, objects, references, concatenations and delayed-merge
  stacks; what a postponed merge means; joining of neighbouring pieces.
- **Resolving** (`Measures`, `Resolution`, `Resolver`, `SettledValues`, `Vanishing`). The
  substitution resolver with its replacement table, memo table, path restriction and cycle
  exception. `Resolution` says what each step computes, `Resolver` runs the steps on mutable
  tables and is proved to compute just that. Exceptions are outcomes.
- **Memos** (`Ranks`, `Lookups`, `Visibility`, `Peeking`, `MemoAgreement`, `Denotation`,
  `MemoFree`, `MemoDependence`, `MemoSuccess`). What a document means without any
  table, when looking along a path finds what is there, and why the memoised resolver then
  computes that meaning.
- **Self-reference** (`SelfReference`, `SelfReferenceRuns`, `SelfReferenceDocuments`,
  `ExtensionExample`, `ParsedExtensions`, `ParsedExample`). Keys extended by `+=`, from the text to
  the resolved list; and objects extended by `${key}` (`ObjectStacks`, `ObjectStackRuns`,
  `ObjectStackDocuments`).
- **Syntax** (`Characters`, `Tokenization`, `TokenStream`, `PathSyntax`, `Parsing`,
  `ParseContext`, `ParsedDocuments`, `ParsedNodes`, `Substitutions`, `PlainText`, `JsonGrammar`,
  `HoconGrammar`, `JsonInConf`, `JsonRoundTrip`). The tokenizer with push-back, the fast and the full path parser,
  the document parser in both flavours, rendering.
  `Tokenization` and `Parsing` are functions of the text or tokens still to be read;
  `TokenStream` and `ParseContext` are the classes with mutable state, proved against them.
- **Path maps** (`PathMap`), the **thread pool** as an interleaved step machine (`ThreadPool`) and
  **base64** (`Base64`, `Base64Masks`).

The main results join these parts: every text the parser accepts yields a document whose
resolution is safe (`AcceptedTextResolvesSafely`), JSON is contained in HOCON down to the text,
memoised resolution returns what memo-free resolution returns (`MemosPreserveSuccess`), a key
with any number of `+=` settings resolves to what it was set to followed by the appended values
(`ParsedExtensionResolves`), a key set to objects and to itself in any order resolves to the merge
of the objects (`SettingsResolve`), JSON is accepted exactly as its grammar says (`JsonExactly`), and
HOCON's liberties with it change nothing (`HoconIsAccepted`).

Some promises hold only under a condition.

*Memo agreement* is false in general, even without cycles: one and the same document resolves to
two different objects, depending on the order in which its entries are visited
(`MemoDependence.OrderMatters`). The branch that fails is the walk over a merge stack that a
restricted resolution leaves behind. `Peeking.PeekLayersExactly` says exactly when that walk is
right at a key: on a stack built by merging, when no object above the first non-object holds the
key, or the topmost value held ignores fallbacks, or the values passed over add nothing to the
first one that does; with a single object on top only the first two can apply.
`Peeking.ReturnedWalksExactly` applies this to every answer of the resolver. For a whole
document this becomes the predicate `Visible`, which follows each lookup through objects, stacks
and further references and asks at every merge on its way that an entry of an object over something
that ignores fallbacks be firm (written there and ignoring fallbacks itself), or that there be
nothing at the path anyway. It is evaluated from the document by `Denotation`, reference by
reference, with no table, memo, restriction or visiting order. `MemosPreserveSuccess` then holds
for documents whose references rank: looking a reference up meets only references of lower rank, so
that nothing in flight is re-entered. For a whole document the condition is sufficient: a walk that would go wrong may never
be taken, or may be answered by a memo in every visiting order. Without memos such a document
resolves exactly if every required reference is found and every concatenation joins
(`SucceedsExactly`); with memos that is sufficient but not necessary, and success itself can depend
on the visiting order (`MemoSuccess`).

*No internal error* is false on legal documents: `a = ${?x}${?y}` raises the exception for internal
errors (`Vanishing.VanishedDocument`), exactly because every piece of a concatenation resolves to
nothing (`Vanishing.VanishesExactly`). It is the only one that can be raised, and never in a
document each of whose concatenations has a piece that is neither an optional reference nor a merge
stack.

*The fast path parser* agrees with the full one if and only if the text has no newline. *A path
element without quotes* is read back if and only if the tokenizer reads all of it
(`LoneElementExactly`): `true-` is not.

Conventions: a path is a sequence of keys, and the empty sequence is "no path" or "no
restriction". Values are compared by content; every reference carries a number that tells it from
all others (`ParsedNodes`), so two stacks are the same node exactly when they are equal. Text is
7-bit, because the reader sign-extends other bytes
(`AsrServiceProxy/config/src/detail/string_reader.cpp:16`).
The mechanical renames in the source (`_path::`, `'_e'`, `"0123456789e_e+-."`) are read as the
evident `Path::`, `'E'` and `"0123456789eE+-."`.

Where code and comments disagree the code is followed: the comment on peeking into an object stack
says that a partial resolve always yields a plain object
(`AsrServiceProxy/config/src/detail/config_delayed_merge_object.cpp:232-240`), and it does not;
`create_value_under_path` stops at an empty key
(`AsrServiceProxy/config/src/detail/parser.cpp:404-413`), so `a.b."".c` sets `a.b`, and when the
first key below the top is empty it has no key to use, which the model rejects; the exception for
internal errors that a vanished concatenation raises is the outcome `VanishedConcatenation`, to tell
it from those that are never raised.

`dafny verify dfyconfig.toml` checks the whole project.

## Model

| member | source | states |
|---|---|---|
| MergeAlgebra.MergedWithObject | AsrServiceProxy/config/src/detail/simple_config_object.cpp:195-260 | the loop over all keys with its `changed`/`all_resolved` bookkeeping and the copies it saves returns exactly the fallback merge, and the status it tracks is whether the result is resolved at every depth |
| MergeAlgebra.WithFallbackWellFormed | AsrServiceProxy/config/src/detail/config_delayed_merge.cpp:14-27 | every stack that merging builds is flat, has at least two layers, an object at its front exactly when it is an object stack, and never objects alone; merging an object gives an object |
| MergeAlgebra.MergeLayersWellFormed | AsrServiceProxy/config/src/detail/config_delayed_merge.cpp:122-143 | the same for the replacement built from the layers below |
| MergeAlgebra.WithFallbackResolved | AsrServiceProxy/config/src/detail/simple_config_object.cpp:195-260 | resolved values merge to resolved values |
| MergeAlgebra.WithFallbackAssociative | AsrServiceProxy/config/src/detail/simple_config_object.cpp:195-260 | among resolved values `with_fallback` is associative, the `ignores_fallbacks` flag at every depth included |
| MergeAlgebra.NonObjectBlocksFallbacks | AsrServiceProxy/config/src/detail/abstract_config_value.cpp:129-144 | a non-object blocks every later fallback however the merges are grouped |
| MergeAlgebra.FallbackKeptExactly | AsrServiceProxy/config/src/detail/abstract_config_value.cpp:93-144 | a value that is no object drops its fallback if and only if it is resolved; one that holds a substitution, a list included, keeps every layer below it |
| MergeAlgebra.IgnoringMeaning | AsrServiceProxy/config/src/detail/config_delayed_merge.cpp:159-166 | a value or stack that says it ignores fallbacks means something that ignores fallbacks, under every assignment |
| MergeAlgebra.WithFallbackPreservesMeaning | AsrServiceProxy/config/src/detail/abstract_config_value.cpp:93-196 | for every assignment of optional resolved values to references and concatenations, `a.with_fallback(b)` means the merge of what `a` and `b` mean, absence being the identity |
| MergeAlgebra.MergeLayersPreservesMeaning | AsrServiceProxy/config/src/detail/config_delayed_merge.cpp:122-143 | merging the layers of a stack early or late means the same |
| Concatenations.Consolidate | AsrServiceProxy/config/src/detail/config_concatenation.cpp:108-139 | the flattening loop and the joining loop compute the left fold of `join` over the flattened pieces, or its refusal |
| Concatenations.JoinTwoAssociative | AsrServiceProxy/config/src/detail/config_concatenation.cpp:68-106 | joining resolved neighbours is associative wherever both joins exist, for objects, lists and texts |
| Concatenations.ConsolidationIgnoresGrouping | AsrServiceProxy/config/src/detail/config_concatenation.cpp:68-153 | consolidating two runs apart and then together gives what consolidating them at once gives, or fails exactly when it fails; no two neighbours of a result can still be joined |
| Concatenations.ResolvedPiecesJoin | AsrServiceProxy/config/src/detail/config_concatenation.cpp:155-182 | resolved pieces join to exactly one resolved value, to none only when all pieces vanished, or are refused as incompatible; never the internal error for nested concatenations |
| Measures.WithFallbackWeight | AsrServiceProxy/config/src/detail/abstract_config_value.cpp:93-144 | merging never increases the total size |
| Measures.MergeLayersWeight | AsrServiceProxy/config/src/detail/config_delayed_merge.cpp:122-143 | the replacement of a stack is no bigger than the layers it is made from |
| Measures.WithFallbackPartly | AsrServiceProxy/config/src/detail/simple_config_object.cpp:195-260 | what has been resolved along a path stays resolved along it when merged |
| Resolution.RecallLegal | AsrServiceProxy/config/src/detail/resolve_context.cpp:86-104 | a memo that answers a request is a lawful answer to it; a full entry answers every restriction |
| Resolution.Resolve | AsrServiceProxy/config/src/detail/resolve_context.cpp:86-130 | terminates on every document, cyclic or not; the cycle exception only while a reference is in flight; of the internal errors only the one for vanished concatenations, and only if the document has a concatenation all of whose pieces may vanish; an unrestricted result is absent or resolved at every depth, a restricted one resolved along its path, an object stays an object, only optional references and stacks resolve to nothing; every memo left behind keeps this |
| Resolution.ResolveCheckingReplacement | AsrServiceProxy/config/src/detail/resolve_source.cpp:94-107 | terminates on every document, cyclic or not; the cycle exception only while a reference is in flight; of the internal errors only the one for vanished concatenations, and only if the document has a concatenation all of whose pieces may vanish; results and memos are lawful whether the value stands for itself or for the layers below |
| Resolution.ReenteredStack | AsrServiceProxy/config/src/detail/config_delayed_merge.cpp:122-143 | re-entering a stack that is in flight is resolving the merge of the layers below the one in flight, and remembering the answer for the stack |
| Resolution.BelowIsReady | AsrServiceProxy/config/src/detail/config_delayed_merge.cpp:122-143 | what stands in for a stack in flight is strictly lighter than the stack and satisfies all that a resolve demands |
| Resolution.ResolveObject | AsrServiceProxy/config/src/detail/simple_config_object.cpp:326-341 | terminates on every document, cyclic or not; the cycle exception only while a reference is in flight; of the internal errors only the one for vanished concatenations, and only if the document has a concatenation all of whose pieces may vanish; an object resolves to an object |
| Resolution.ResolveFields | AsrServiceProxy/config/src/detail/simple_config_object.cpp:273-324 | every child that stays is lawful for the restriction it was resolved under |
| Resolution.ResolveChild | AsrServiceProxy/config/src/detail/simple_config_object.cpp:348-369 | a child that stays is fully resolved without restriction, and resolved along the rest of the path when it is the one on the way of the restriction |
| Resolution.ResolveList | AsrServiceProxy/config/src/detail/simple_config_list.cpp:94-116 | terminates on every document, cyclic or not; the cycle exception only while a reference is in flight; of the internal errors only the one for vanished concatenations, and only if the document has a concatenation all of whose pieces may vanish; a full resolution leaves no substitution in any item |
| Resolution.ResolveItems | AsrServiceProxy/config/src/detail/simple_config_list.cpp:59-92 | every item that stays is fully resolved, and nothing is left only of items that may vanish |
| Resolution.ResolveConcatenation | AsrServiceProxy/config/src/detail/config_concatenation.cpp:155-182 | terminates on every document, cyclic or not; the cycle exception only while a reference is in flight; of the internal errors only the one for vanished concatenations, and only if the document has a concatenation all of whose pieces may vanish; a result is one fully resolved value, never nothing |
| Resolution.ResolveDelayedMerge | AsrServiceProxy/config/src/detail/config_delayed_merge_object.cpp:42-52 | the check that an object stack has merged to an object never fires; results are lawful for the restriction |
| Resolution.ResolveLayers | AsrServiceProxy/config/src/detail/config_delayed_merge.cpp:42-105 | what has been merged is lawful for the restriction after every layer, and an object for an object stack |
| Resolution.ResolveReference | AsrServiceProxy/config/src/detail/config_reference.cpp:48-82 | terminates on every document, cyclic or not; the cycle exception only while a reference is in flight; of the internal errors only the one for vanished concatenations, and only if the document has a concatenation all of whose pieces may vanish; the result is lawful for the restriction |
| Resolution.FirewalledOutcome | AsrServiceProxy/config/src/detail/config_reference.cpp:48-82 | the cycle exception never passes a reference |
| Resolution.LookupSubst | AsrServiceProxy/config/src/detail/resolve_source.cpp:24-66 | a value that is returned is lawful for the restriction, and only contained exceptions are raised |
| Resolution.FindInRoot | AsrServiceProxy/config/src/detail/abstract_config_object.cpp:52-68 | looking along a path after resolving the root along it fails only with user errors or the contained cycle exception |
| Resolution.PeekLayersSafe | AsrServiceProxy/config/src/detail/config_delayed_merge_object.cpp:230-300 | walking the layers of a stack that was resolved along the path never meets an unresolved layer or the end of the stack |
| Resolution.PeekPathSafe | AsrServiceProxy/config/src/detail/abstract_config_object.cpp:70-84 | after a resolution restricted to a path, looking the path up cannot fail |
| Resolution.OutermostResolve | AsrServiceProxy/config/src/detail/resolve_context.cpp:132-143 | for every document and visiting order the cycle exception never leaves the outermost resolve, what is returned is absent or resolved at every depth, and the only internal error is the one for vanished concatenations, in a document that has a concatenation all of whose pieces may vanish |
| Resolution.OrderingExists | AsrServiceProxy/config/src/detail/simple_config_object.cpp:273-324 | the entries of objects can be visited in an order that lists every key once, as all results about visiting orders demand |
| Resolvers.MakeReplacement | AsrServiceProxy/config/src/detail/config_delayed_merge.cpp:122-143 | the loop merges the layers below from the top; nothing when there are none |
| Resolvers.Resolver.Replace | AsrServiceProxy/config/src/detail/resolve_source.cpp:68-76 | adds the replacer, and reports when the value was replaced already |
| Resolvers.Resolver.Unreplace | AsrServiceProxy/config/src/detail/resolve_source.cpp:78-82 | removes the replacer, and reports when there was none |
| Resolvers.Resolver.Resolve | AsrServiceProxy/config/src/detail/resolve_context.cpp:86-130 | the replacement table is left as it was found, whatever the outcome, and outcome and memos are those of the specification |
| Resolvers.Resolver.ResolveCheckingReplacement | AsrServiceProxy/config/src/detail/resolve_source.cpp:94-107 | the replacement table is left as it was found, whatever the outcome, and outcome and memos are those of the specification |
| Resolvers.Resolver.ResolveObject | AsrServiceProxy/config/src/detail/simple_config_object.cpp:273-341 | the replacement table is left as it was found, whatever the outcome, and outcome and memos are those of the specification |
| Resolvers.Resolver.ResolveChild | AsrServiceProxy/config/src/detail/simple_config_object.cpp:348-369 | the replacement table is left as it was found, whatever the outcome, and outcome and memos are those of the specification |
| Resolvers.Resolver.ResolveList | AsrServiceProxy/config/src/detail/simple_config_list.cpp:94-116 | the replacement table is left as it was found, whatever the outcome, and outcome and memos are those of the specification |
| Resolvers.Resolver.ResolveItems | AsrServiceProxy/config/src/detail/simple_config_list.cpp:59-92 | the replacement table is left as it was found, whatever the outcome, and outcome and memos are those of the specification |
| Resolvers.Resolver.ResolveConcatenation | AsrServiceProxy/config/src/detail/config_concatenation.cpp:155-182 | the replacement table is left as it was found, whatever the outcome, and outcome and memos are those of the specification |
| Resolvers.Resolver.ResolveDelayedMerge | AsrServiceProxy/config/src/detail/config_delayed_merge_object.cpp:42-52 | the replacement table is left as it was found, whatever the outcome, and outcome and memos are those of the specification |
| Resolvers.Resolver.ResolveLayers | AsrServiceProxy/config/src/detail/config_delayed_merge.cpp:42-105 | the replacement table is left as it was found, whatever the outcome, and outcome and memos are those of the specification |
| Resolvers.Resolver.ResolveLayer | AsrServiceProxy/config/src/detail/config_delayed_merge.cpp:62-91 | the replacement table is left as it was found, whatever the outcome, and outcome and memos are those of the specification; `replaced twice` and `unreplace without replace` cannot happen |
| Resolvers.Resolver.ResolveReference | AsrServiceProxy/config/src/detail/config_reference.cpp:48-82 | the replacement table is left as it was found, whatever the outcome, and outcome and memos are those of the specification; the cycle exception never passes; `replaced twice` and `unreplace without replace` cannot happen |
| Resolvers.Resolver.LookupSubst | AsrServiceProxy/config/src/detail/resolve_source.cpp:24-66 | the replacement table is left as it was found, whatever the outcome, and outcome and memos are those of the specification |
| Resolvers.Resolver.FindInRoot | AsrServiceProxy/config/src/detail/abstract_config_object.cpp:52-84 | the replacement table is left as it was found, whatever the outcome, and outcome and memos are those of the specification |
| Resolvers.ResolveOutermost | AsrServiceProxy/config/src/detail/resolve_context.cpp:132-143 | a fresh resolver returns the specified outcome: never the cycle exception, an internal error only where a concatenation all of whose pieces may vanish exists, and a value only when fully resolved |
| SettledValues.SettledResolve | AsrServiceProxy/config/src/detail/simple_config_object.cpp:326-369 | resolving a value along a path on which there is nothing to resolve leaves it as it is, merge stacks included |
| SettledValues.DanglingResolves | AsrServiceProxy/config/src/detail/config_reference.cpp:48-82 | an optional reference to a path where such a root shows nothing resolves to nothing |
| Vanishing.NothingLeftExactly | AsrServiceProxy/config/src/detail/config_concatenation.cpp:155-172 | of items or pieces resolved in turn nothing is left if and only if every one of them resolves to nothing |
| Vanishing.VanishesExactly | AsrServiceProxy/config/src/detail/config_concatenation.cpp:155-182 | a concatenation raises the internal error if and only if every piece resolves to nothing or a concatenation inside a piece raises it; never when a piece is neither an optional reference nor a merge stack |
| Vanishing.VanishedDocument | AsrServiceProxy/config/src/detail/config_concatenation.cpp:174-178 | the outermost resolve of `a = ${?x}${?y}` ends in the internal error, in every visiting order |
| Lookups.WithFallbackFirm | AsrServiceProxy/config/src/detail/abstract_config_value.cpp:93-144 | what a merge holds at a path is written there and ignores fallbacks if it does so in the upper side, or is left open there and does so in the lower side |
| Lookups.MeaningFirm | AsrServiceProxy/config/src/detail/config_delayed_merge.cpp:159-166 | what ignores fallbacks as it is written still does once it is fully resolved |
| Lookups.HidesNothingParts | AsrServiceProxy/config/src/detail/config_delayed_merge_object.cpp:242-262 | if a merge over a merge hides nothing from peeking along a path, neither do its parts, in either grouping |
| Visibility.WithFallbackVisible | AsrServiceProxy/config/src/detail/abstract_config_value.cpp:93-144 | merging two values along a path that is visible in both, hiding nothing, keeps it visible, postponed merges included |
| Visibility.MergeRefines | AsrServiceProxy/config/src/detail/config_delayed_merge.cpp:42-105 | merging what stands for one more layer into what stands for the layers above stands for all of them: same meaning, and as visible, as low in rank, as firm and as absent along every path |
| Visibility.MeaningRefines | AsrServiceProxy/config/src/detail/resolve_context.cpp:105-128 | so does a full result for the value it is the result of, which is why it may answer every restricted request |
| Peeking.PartlyMeaning | AsrServiceProxy/config/src/detail/config_delayed_merge_object.cpp:230-300 | what a restricted resolution returns means something, an object exactly if it is one; a stack that survives means something that ignores fallbacks |
| Peeking.WithFallbackPeeksRight | AsrServiceProxy/config/src/detail/config_delayed_merge_object.cpp:230-300 | merging values into which peeking along the path is right keeps it right wherever the merge hides nothing |
| Peeking.PeekedVisible | AsrServiceProxy/config/src/detail/abstract_config_object.cpp:70-84 | what peeking finds is visible along whatever was visible beyond the path, and its references rank as low |
| Peeking.MergingIgnoresNothing | AsrServiceProxy/config/src/detail/abstract_config_value.cpp:93-144 | merging puts nothing below a layer that ignores fallbacks |
| Peeking.MergedIgnoreNothing | AsrServiceProxy/config/src/detail/config_delayed_merge.cpp:122-143 | nor does merging any number of layers |
| Peeking.SubsumedExactly | AsrServiceProxy/config/src/detail/simple_config_object.cpp:195-260 | merging a value over another leaves the other as it is if and only if everything in it is in the other already |
| Peeking.PeekLayersExactly | AsrServiceProxy/config/src/detail/config_delayed_merge_object.cpp:242-300 | for every well-formed object stack with nothing unmergeable left in it, peeking at a key finds what merging the objects above the first non-object holds there if and only if, of the objects up to the first that ignores fallbacks, none holds the key, or the topmost value held ignores fallbacks, or the values passed over add nothing to the first one that does; where none of their values ignores fallbacks, what the walk finds below them must be nothing if they hold nothing, and else just what they hold |
| Peeking.ReturnedWalksExactly | AsrServiceProxy/config/src/detail/config_delayed_merge_object.cpp:242-300 | for every restricted request the resolver answers with an object: peeking into the answer along the restriction is right at every stack it meets if and only if this condition holds there |
| Peeking.PeekMergedExactly | AsrServiceProxy/config/src/detail/config_delayed_merge_object.cpp:242-300 | on a stack merged from layers below none of which anything is ignored, the first three of these ways decide |
| Peeking.PeekOneObjectExactly | AsrServiceProxy/config/src/detail/config_delayed_merge_object.cpp:242-300 | with one object on top: if and only if it does not hold the key or holds a value that ignores fallbacks |
| Peeking.PassedOverAddsNothing | AsrServiceProxy/config/src/detail/config_delayed_merge_object.cpp:242-300 | the third way is not empty: a stack whose topmost value does not ignore fallbacks and where peeking is still right |
| MemoAgreement.NotInFlight | AsrServiceProxy/config/src/detail/resolve_source.cpp:84-107 | where references rank, nothing that is in flight is re-entered |
| MemoAgreement.RecalledIsRight | AsrServiceProxy/config/src/detail/resolve_context.cpp:86-104 | a memo that is recalled, a full entry for a restricted request included, is a right answer to the request |
| MemoAgreement.RememberedIsRight | AsrServiceProxy/config/src/detail/resolve_context.cpp:105-128 | storing a restricted result under the full key when it is fully resolved keeps every memo right |
| MemoAgreement.AgreeFind | AsrServiceProxy/config/src/detail/abstract_config_object.cpp:52-84 | resolving the root along the path of a reference and peeking finds what means the value there, whatever the memos hold |
| MemoAgreement.AgreeLookup | AsrServiceProxy/config/src/detail/resolve_source.cpp:24-66 | so does looking up the full path and then the path without its prefix, found or not |
| MemoAgreement.AgreeResolve | AsrServiceProxy/config/src/detail/resolve_context.cpp:86-130 | at every nested resolve, under any restriction, table and right memos that occur: never the cycle exception; whatever is returned means what the request means, peeking into it along the restriction is right, and all memos stay right; and it succeeds where every required reference is found and every concatenation joins |
| Denotation.MeaningIsFull | AsrServiceProxy/config/src/detail/resolve_source.cpp:24-66 | the value of a document evaluated reference by reference in the order of ranks is its meaning under the assignment this evaluation gives |
| Denotation.SameAlongPath | AsrServiceProxy/config/src/detail/abstract_config_object.cpp:52-84 | what a value holds along a path depends only on the references met there |
| Denotation.RefFound | AsrServiceProxy/config/src/detail/resolve_source.cpp:24-66 | so a reference that is evaluated with the lower ranks only has the value found in the whole document |
| MemoFree.ResolvesToMeaning | AsrServiceProxy/config/src/detail/resolve_context.cpp:86-130 | whatever succeeds, from every table of right memos, returns exactly what the value means and leaves right memos |
| MemoFree.OrderAndMemosDoNotMatter | AsrServiceProxy/config/src/detail/resolve_context.cpp:86-130 | neither the order in which objects are visited nor what was memoised before changes the outcome |
| MemoFree.SensesAgree | AsrServiceProxy/config/src/detail/resolve_context.cpp:86-130 | a document has at most one meaning |
| MemoFree.SuccessSettles | AsrServiceProxy/config/src/detail/resolve_context.cpp:86-130 | if the resolver that remembers nothing succeeds on a value, every required reference in it is found and every concatenation in it joins |
| MemoFree.DenotationIsCoherent | AsrServiceProxy/config/src/detail/resolve_source.cpp:24-66 | on a document whose references rank and whose lookups are visible the denotation satisfies the equations of all references and concatenations |
| MemoFree.MemosPreserveSuccess | AsrServiceProxy/config/src/detail/resolve_context.cpp:86-130 | whenever memo-free resolution of a document whose references rank and whose lookups are visible succeeds, memoised resolution returns the equal value, in every visiting order and from every table of right memos |
| MemoFree.SucceedsExactly | AsrServiceProxy/config/src/detail/config_reference.cpp:48-82 | on such a document memo-free resolution succeeds if and only if in its denotation every required reference is found and every concatenation joins; memoised resolution then returns the denotation |
| MemoSuccess.MemosCanSucceedAlone | AsrServiceProxy/config/src/detail/resolve_context.cpp:105-128 | the converse fails: `s = 5, x = { b = ${missing} }, x = ${s}, y = ${?x.a}` never resolves without memos, and its outermost resolve succeeds when `y` is visited first, because a restricted result is remembered in full |
| MemoDependence.PeeksNothing | AsrServiceProxy/config/src/detail/config_delayed_merge_object.cpp:230-300 | the walk over a stack passes over an object whose entry does not ignore fallbacks and stops at a number below it with nothing found |
| MemoDependence.OrderMatters | AsrServiceProxy/config/src/detail/config_delayed_merge_object.cpp:230-300 | one outermost resolve of `x = 5, x = { a = { b = 1 }, c = ${?q} }, y = ${?x.a.b}` keeps `y = 1` when the entry `x` is visited first, and drops `y` when `y` is |
| MemoDependence.NotLookable | AsrServiceProxy/config/src/detail/config_delayed_merge_object.cpp:230-300 | the lookups of that document are not visible, however its references are ranked |
| MemoDependence.FirmIsLookable | AsrServiceProxy/config/src/detail/config_delayed_merge_object.cpp:250-253 | the lookups of `x = 5, x = { a = 1, c = ${?q} }, y = ${x.a}` are, although an object is merged over a number there too |
| SelfReference.ExtendedIsHeld | AsrServiceProxy/config/src/detail/parser.cpp:629-670 | any number of `+=` steps makes a flat stack with the latest step on top and what the key was first set to at the bottom |
| SelfReference.WorldIsCoherent | AsrServiceProxy/config/src/detail/config_reference.cpp:48-82 | with every step's own reference meaning what is below the step, the rest of the document satisfies its equations |
| SelfReferenceRuns.LooksBelow | AsrServiceProxy/config/src/detail/config_delayed_merge.cpp:53-143 | while a step is resolved, the key stands for the steps below it, however many stacks lie above |
| SelfReferenceRuns.NothingBelow | AsrServiceProxy/config/src/detail/config_reference.cpp:48-82 | without anything to begin with the first step finds only itself, which is a cycle and therefore nothing |
| SelfReferenceRuns.PlusEqualsAppends | AsrServiceProxy/config/src/detail/parser.cpp:629-637 | a top-level key set to a list, a reference or a concatenation and extended by any number of `+=` steps, whose references are any pairwise different ones, resolves to the elements it was first set to followed by the appended values in order, from any memos of the rest of the document, and also on behalf of other references in flight |
| SelfReferenceDocuments.ReaderResolves | AsrServiceProxy/config/src/detail/config_reference.cpp:48-82 | another entry that is a reference to the key resolves to the same list, visited before the key or after it |
| SelfReferenceDocuments.SrcIsDocument | AsrServiceProxy/config/src/detail/resolve_context.cpp:132-143 | this is the document of an outermost resolve |
| SelfReferenceDocuments.DocumentWithPlusEquals | AsrServiceProxy/config/src/detail/parser.cpp:629-637 | if what the key is first set to, the appended values and the other entries, which may all hold substitutions that do not lead to the key, resolve without memos, then the whole document resolves with memos and in every visiting order, to the other entries as they resolve, and that key and every entry `${key}` or `${?key}` holding the list |
| SelfReferenceDocuments.PlainDocument | AsrServiceProxy/config/src/detail/parser.cpp:629-637 | in particular a document without other substitutions resolves to itself with the key and every reference to it holding the list and the values |
| ExtensionExample.ExampleResolves | AsrServiceProxy/config/src/detail/parser.cpp:629-637 | `x = 1, key = [${x}], key += ${x}, y = ${key}` resolves to `x = 1, key = [1, 1], y = [1, 1]` |
| ObjectStacks.MergeAgain | AsrServiceProxy/config/src/detail/simple_config_object.cpp:195-260 | among resolved values `a` over `b` over `a` again is `a` over `b`: merging in again what a merge holds already changes nothing |
| ObjectStacks.SettledLayers | AsrServiceProxy/config/src/detail/config_delayed_merge.cpp:122-143 | the replacement made from layers of objects and references to the key is the stack of these layers with the objects on top merged, and means the same merge |
| ObjectStackRuns.StandsFor | AsrServiceProxy/config/src/detail/config_delayed_merge.cpp:122-143 | resolving a stack in flight, through any number of stacks in flight below one another, is resolving the value that this leads to, and leaves its result remembered for every stack on the way; it is the cycle exception where the way ends in nothing |
| ObjectStackRuns.LeadsBelow | AsrServiceProxy/config/src/detail/config_delayed_merge.cpp:62-74 | while a layer with a reference to the key is resolved, looking the key up leads to exactly the layers below, for object stacks and other stacks alike, or to nothing below the last layer |
| ObjectStackRuns.ReferenceBelow | AsrServiceProxy/config/src/detail/config_reference.cpp:48-82 | such a reference resolves to the merge of the objects below its layer; without any, an optional one vanishes and a required one fails |
| ObjectStackRuns.StacksResolve | AsrServiceProxy/config/src/detail/config_delayed_merge.cpp:42-105 | layers of objects, `${key}` and `${key} { ... }` resolve to the merge of their objects from the top down, or fail, for any number of layers and whatever stacks are in flight; of references and stacks only what that merge absorbs is remembered |
| ObjectStackDocuments.LayersResolve | AsrServiceProxy/config/src/detail/resolve_context.cpp:132-143 | a document whose key holds such layers, object-headed or not, resolves in every visiting order to that merge under the key with the other entries unchanged; it fails if and only if a required reference has no object below it |
| ObjectStackDocuments.SettingsStack | AsrServiceProxy/config/src/detail/parser.cpp:646-688 | any settings of a new key to objects, `${key}` and `${key} { ... }`, in any order, leave it holding these layers, objects set first merged at once, and change no other field |
| ObjectStackDocuments.SettingsResolve | AsrServiceProxy/config/src/detail/parser.cpp:646-688 | so after any such settings the document resolves with the key holding the merge of all its objects, later ones on top, or fails if and only if a required reference was set before any object |
| ObjectStackDocuments.ObjectHeadedExample | AsrServiceProxy/config/src/detail/config_delayed_merge.cpp:62-74 | `a = {x = 1}, a = ${a}, a = {y = 2}`, whose stack is headed by an object, resolves to `a = {x = 1, y = 2}` |
| TokenStreams.WhitespaceSaver.Check | AsrServiceProxy/config/src/detail/tokenizer.cpp:43-77 | saved whitespace becomes a token exactly between two simple values, and the saver is reset |
| TokenStreams.TokenStream.NextCharRaw | AsrServiceProxy/config/src/detail/tokenizer.cpp:107-119 | reads the next character of buffer and input, or the end of the file, which it can read again |
| TokenStreams.TokenStream.PutBack | AsrServiceProxy/config/src/detail/tokenizer.cpp:121-127 | puts a character or the end of the file back in front; with at most one character waiting, so the look-ahead bug exception is never thrown |
| TokenStreams.TokenStream.StartOfComment | AsrServiceProxy/config/src/detail/tokenizer.cpp:137-161 | tells whether a comment starts and consumes nothing |
| TokenStreams.TokenStream.NextCharAfterWhitespace | AsrServiceProxy/config/src/detail/tokenizer.cpp:163-178 | skips exactly the blanks, saves them after a simple value, and stops at a newline |
| TokenStreams.TokenStream.PullComment | AsrServiceProxy/config/src/detail/tokenizer.cpp:205-226 | the token, the text left to read and the push-back buffer are those of the specification |
| TokenStreams.TokenStream.PullUnquotedText | AsrServiceProxy/config/src/detail/tokenizer.cpp:228-268 | the token, the text left to read and the push-back buffer are those of the specification, keywords split off at the front included |
| TokenStreams.TokenStream.PullNumber | AsrServiceProxy/config/src/detail/tokenizer.cpp:270-299 | the longest run of number characters is read, and is an integer in the 64-bit range, a floating-point text or a problem |
| TokenStreams.TokenStream.PullEscapeSequence | AsrServiceProxy/config/src/detail/tokenizer.cpp:301-366 | the escaped character per section 7 of RFC 8259, hexadecimal digits read as `strtol` reads them, or a problem |
| TokenStreams.TokenStream.AppendTripleQuotedString | AsrServiceProxy/config/src/detail/tokenizer.cpp:368-393 | ends at the last three of a run of three or more quotes |
| TokenStreams.TokenStream.PullQuotedString | AsrServiceProxy/config/src/detail/tokenizer.cpp:395-431 | the token, the text left to read and the push-back buffer are those of the specification |
| TokenStreams.TokenStream.PullSubstitutionToken | AsrServiceProxy/config/src/detail/tokenizer.cpp:445-492 | the token, the text left to read and the push-back buffer are those of the specification, nested substitutions included |
| TokenStreams.TokenStream.PullNextToken | AsrServiceProxy/config/src/detail/tokenizer.cpp:494-577 | the token, the text left to read and the push-back buffer are those of the specification |
| TokenStreams.TokenStream.QueueNextToken | AsrServiceProxy/config/src/detail/tokenizer.cpp:583-592 | queues the next token, with saved whitespace before it, and changes nothing about the tokens still to come |
| TokenStreams.TokenStream.Next | AsrServiceProxy/config/src/detail/tokenizer.cpp:598-616 | delivers the tokens of the text one by one |
| PathSyntax.RenderJsonString | AsrServiceProxy/config/src/detail/config_impl_util.cpp:13-59 | the loop computes the quoted text in which quotes, backslashes and control characters are escaped |
| PathSyntax.QuotedReadsBack | AsrServiceProxy/config/src/detail/tokenizer.cpp:395-431 | a rendered 7-bit JSON string is read back as the string |
| PathSyntax.PathBuilder.AppendKey | AsrServiceProxy/config/src/detail/path_builder.cpp:14-18 | keys pushed to the front are the path in the order they were appended |
| PathSyntax.PathBuilder.Result | AsrServiceProxy/config/src/detail/path_builder.cpp:38-54 | linking up the pushed keys gives the appended path |
| PathSyntax.AddTextInPieces | AsrServiceProxy/config/src/detail/parser.cpp:833-853 | text without quotes can be added to a path in any two pieces |
| PathSyntax.ParsePathTokens | AsrServiceProxy/config/src/detail/parser.cpp:855-923 | the loops over tokens and elements compute the path, or reject a token or an empty element that was not quoted |
| PathSyntax.FastRefinesFull | AsrServiceProxy/config/src/detail/parser.cpp:956-997 | if the fast parser returns a path, tokenizing and running the full parser returns the same path if and only if the text has no newline; with one, the full parser rejects it |
| PathSyntax.ParsePathIsFull | AsrServiceProxy/config/src/detail/parser.cpp:925-954 | without newlines `parse_path` is the full parser |
| PathSyntax.SplitUndoesJoin | AsrServiceProxy/config/src/detail/config_impl_util.cpp:88-102 | `split_path(join_path(es)) == es` for every non-empty list of 7-bit elements, empty and dotted ones included, unless the first is written without quotes and what follows the keywords true, false and null it begins with starts with a digit or a hyphen |
| PathSyntax.PlainPathExactly | AsrServiceProxy/config/src/detail/parser.cpp:855-923 | a text of letters and periods between spaces is a path for the full parser if and only if it is on one line and no period is first, last or next to another; the path is then the keys that the periods separate |
| PathSyntax.BareKeyExactly | AsrServiceProxy/config/src/detail/path.cpp:158-197 | a key is written bare if and only if it is a letter followed by letters, digits, hyphens and underscores; otherwise between quotes |
| PathSyntax.EmptyKeysReadBack | AsrServiceProxy/config/src/detail/parser.cpp:911-916 | an empty key, written as two quotes, is accepted at every position of a path |
| PathSyntax.LoneElementExactly | AsrServiceProxy/config/src/detail/tokenizer.cpp:228-299 | a single element written without quotes is read back if and only if after the keywords it begins with no digit or hyphen starts a run that is no number, and so on to its end; otherwise it is rejected |
| ParseContexts.ParseContext.FullCurrentPath | AsrServiceProxy/config/src/detail/parser.cpp:308-321 | the path of the value being parsed, outermost key first |
| ParseContexts.ParseContext.ConsolidateCommentBlock | AsrServiceProxy/config/src/detail/parser.cpp:79-118 | comments vanish, newlines and the concluding token stay in order |
| ParseContexts.ParseContext.PopToken | AsrServiceProxy/config/src/detail/parser.cpp:120-137 | the next token of the stream without its comments |
| ParseContexts.ParseContext.NextToken | AsrServiceProxy/config/src/detail/parser.cpp:139-167 | problems raise, and in JSON so do unquoted text and substitutions |
| ParseContexts.ParseContext.PutBack | AsrServiceProxy/config/src/detail/parser.cpp:169-171 | the token is read again next |
| ParseContexts.ParseContext.NextTokenIgnoringNewline | AsrServiceProxy/config/src/detail/parser.cpp:173-185 | returns and leaves what the specification says, or raises exactly when it rejects |
| ParseContexts.ParseContext.CheckElementSeparator | AsrServiceProxy/config/src/detail/parser.cpp:187-220 | returns and leaves what the specification says, or raises exactly when it rejects |
| ParseContexts.ParseContext.ConsolidateValueTokens | AsrServiceProxy/config/src/detail/parser.cpp:231-288 | returns and leaves what the specification says, or raises exactly when it rejects |
| ParseContexts.ParseContext.ParseValueToken | AsrServiceProxy/config/src/detail/parser.cpp:376-393 | returns and leaves what the specification says, or raises exactly when it rejects |
| ParseContexts.ParseContext.ParseKeyPath | AsrServiceProxy/config/src/detail/parser.cpp:432-458 | returns and leaves what the specification says, or raises exactly when it rejects |
| ParseContexts.ParseContext.ExtendValue | AsrServiceProxy/config/src/detail/parser.cpp:629-637 | `+=` makes an optional reference to the current path followed by a one-element list |
| ParseContexts.ParseContext.ParseFieldInto | AsrServiceProxy/config/src/detail/parser.cpp:597-690 | returns and leaves what the specification says, or raises exactly when it rejects; the path stack is restored |
| ParseContexts.ParseContext.ParseObject | AsrServiceProxy/config/src/detail/parser.cpp:569-718 | returns and leaves what the specification says, or raises exactly when it rejects |
| ParseContexts.ParseContext.EndObject | AsrServiceProxy/config/src/detail/parser.cpp:692-713 | returns and leaves what the specification says, or raises exactly when it rejects |
| ParseContexts.ParseContext.ParseArrayItems | AsrServiceProxy/config/src/detail/parser.cpp:720-742 | returns and leaves what the specification says, or raises exactly when it rejects |
| ParseContexts.ParseContext.ParseMoreItems | AsrServiceProxy/config/src/detail/parser.cpp:744-778 | returns and leaves what the specification says, or raises exactly when it rejects |
| ParseContexts.ParseTokens | AsrServiceProxy/config/src/detail/parser.cpp:780-822 | a fresh context parses a token stream to the specified value, in both flavours |
| ParsedDocuments.ConcatenatedGood | AsrServiceProxy/config/src/detail/parser.cpp:282-287 | what values on a line are joined to satisfies the constructors' checks |
| ParsedDocuments.ParsedIsWellFormed | AsrServiceProxy/config/src/detail/parser.cpp:569-822 | every document the parser accepts, in either flavour, satisfies the constructors' checks at every depth |
| ParsedDocuments.AcceptedTextResolvesSafely | AsrServiceProxy/config/src/detail/resolve_context.cpp:132-143 | tokenizing, parsing and resolving any text whose root is an object ends in a resolved object or an error; never the cycle exception, and an internal error only where the document has a concatenation all of whose pieces may vanish |
| ParsedDocuments.SettingIsMerging | AsrServiceProxy/config/src/detail/parser.cpp:646-688 | under every assignment an object after a setting `path = v` means the nested object for the path merged over what it meant before: later settings win and objects are combined at every depth |
| ParsedDocuments.SettingIsFound | AsrServiceProxy/config/src/detail/parser.cpp:395-430 | after a setting of a path whose first key is new, the path leads to the value through objects that hold exactly the next key each, and no other field has changed; an empty key below the first ends the path there, and right below the first is refused |
| Substitutions.SubstitutionPulled | AsrServiceProxy/config/src/detail/tokenizer.cpp:445-492 | between `${` or `${?` and a closing brace any text that is a path is tokenized to a substitution whose tokens are that path, optional exactly with the question mark, whatever follows |
| Substitutions.ReferenceIsParsed | AsrServiceProxy/config/src/detail/parser.cpp:222-229 | and parsed to a reference to that path, optional exactly with the question mark and without a prefix |
| Substitutions.RenderedReference | AsrServiceProxy/config/src/detail/parser.cpp:222-229 | in particular `${`, a rendered path, `}` refers to just that path, for every 7-bit path for which splitting undoes joining |
| PlainText.CommentSaysNothing | AsrServiceProxy/config/src/detail/tokenizer.cpp:205-226 | wherever the tokenizer stands, a comment up to the end of its line, with `#` or `//`, leaves the parser the same tokens as no comment |
| PlainText.StringExactly | AsrServiceProxy/config/src/detail/tokenizer.cpp:301-431 | after its opening quote a string is read up to a closing quote if and only if each of its characters is written as it is, by the short escape of RFC 8259 for it, or by `\u` and four characters, and none that must be escaped stands alone |
| PlainText.TripleQuotedIsVerbatim | AsrServiceProxy/config/src/detail/tokenizer.cpp:368-393 | between triple quotes any text that has three quotes in a row only at its end is read as it stands, quotes at its end included |
| PlainText.WordsSayThemselves | AsrServiceProxy/config/src/detail/parser.cpp:231-288 | words on a line, with periods, are joined to the string with exactly this text, the blanks between the words kept; `true`, `false` and `null` alone are that value |
| ParsedNodes.WithFallbackScattered | AsrServiceProxy/config/src/detail/abstract_config_value.cpp:93-196 | merging neither makes references nor copies them |
| ParsedNodes.ConcatenatedScattered | AsrServiceProxy/config/src/detail/config_concatenation.cpp:68-153 | nor does joining |
| ParsedNodes.ParsedIsScattered | AsrServiceProxy/config/src/detail/parser.cpp:569-822 | no two references of a parsed document carry the same number, in either flavour |
| ParsedNodes.AcceptedTextIsScattered | AsrServiceProxy/config/src/detail/parser.cpp:780-822 | from the text: the references of every accepted document are told apart by their numbers |
| ParsedExtensions.AppendedIsStored | AsrServiceProxy/config/src/detail/parser.cpp:597-690 | what is stored for a setting `key += x` is the step with the parser's own reference, merged over what the key held |
| ParsedExtensions.KeyAfterAll | AsrServiceProxy/config/src/detail/parser.cpp:569-718 | whatever other settings there are, with braces or without, and whether or not a separator follows the last one, the key ends up with all its `+=` settings taken over what it held before the first |
| ParsedExtensions.NumbersFall | AsrServiceProxy/config/src/detail/parser.cpp:629-637 | the references made for these settings are references to the key with falling numbers |
| ParsedExtensions.ParsedPlausible | AsrServiceProxy/config/src/detail/parser.cpp:629-637 | so they are pairwise different references, as self-reference demands |
| ParsedExtensions.ParsedExtension | AsrServiceProxy/config/src/detail/parser.cpp:780-822 | a document in which the key is set by `+=` only after its first `+=` parses to the document for which self-reference is proved, for any number of settings |
| ParsedExtensions.ParsedExtensionResolves | AsrServiceProxy/config/src/detail/parser.cpp:780-822 | from the text to the resolved document: it resolves to its other entries as they resolve, and the key and the entries that refer to it holding what the key was set to before followed by the values of all its `+=` settings in order |
| ParsedExample.TextResolves | AsrServiceProxy/config/src/detail/parser.cpp:629-637 | the text `key=[1]`, newline, `key+=2` is tokenized, parsed and resolved to `key = [1, 2]` |
| HoconGrammar.WrittenIsParsed | AsrServiceProxy/config/src/detail/parser.cpp:569-778 | a value written with line breaks for commas, a comma or line breaks after the last member, `=` or nothing for the colon before an object, and keys with or without quotes is parsed to the value it has with these liberties undone, and nothing more is read |
| HoconGrammar.HoconIsAccepted | AsrServiceProxy/config/src/detail/parser.cpp:780-822 | a document written so between braces or brackets, comments anywhere, is accepted with that value |
| HoconGrammar.BareHoconIsAccepted | AsrServiceProxy/config/src/detail/parser.cpp:780-822 | and so is one without braces |
| JsonInConf.SameSeparator | AsrServiceProxy/config/src/detail/parser.cpp:187-220 | a separator in JSON is one in CONF with the same rest; where JSON sees none, CONF may only have seen newlines |
| JsonInConf.LoneValue | AsrServiceProxy/config/src/detail/parser.cpp:231-288 | a value followed by a delimiter is consolidated to itself |
| JsonInConf.JsonAcceptedInConf | AsrServiceProxy/config/src/detail/parser.cpp:569-822 | every token stream accepted in JSON flavour is accepted in CONF flavour with the same value |
| JsonInConf.AcceptedIsClean | AsrServiceProxy/config/src/detail/parser.cpp:139-167 | an accepted JSON stream is read to its end and holds no problem, unquoted text or substitution |
| JsonInConf.SameTokens | AsrServiceProxy/config/src/detail/tokenizer.cpp:137-161 | where tokenizing without comments gives only JSON tokens, allowing comments changes nothing |
| JsonInConf.JsonTextAcceptedInConf | AsrServiceProxy/config/src/detail/tokenizer.cpp:28-31 | every text accepted as JSON is accepted as HOCON with the same value |
| JsonGrammar.ValueIsWritten | AsrServiceProxy/config/src/detail/parser.cpp:376-393 | whatever the parser reads as a JSON value is written by the grammar, line breaks apart, with that value |
| JsonGrammar.WrittenIsParsed | AsrServiceProxy/config/src/detail/parser.cpp:569-778 | whatever the grammar writes is parsed to its value and nothing more is read |
| JsonGrammar.JsonExactly | AsrServiceProxy/config/src/detail/parser.cpp:569-822 | a token stream is accepted as JSON with a value if and only if, apart from comments and line breaks, it is one object or list of that value, with single commas between members, none after the last, and string keys that differ within each object |
| JsonRoundTrip.Render | AsrServiceProxy/config/src/detail/abstract_config_value.cpp:237-275 | appends the text of the value for some order of its map entries |
| JsonRoundTrip.RenderItems | AsrServiceProxy/config/src/detail/simple_config_list.cpp:175-223 | appends the text of the list: a comma after every element and the last one chopped leave single commas between them |
| JsonRoundTrip.RenderEntries | AsrServiceProxy/config/src/detail/simple_config_object.cpp:386-451 | appends the text of the object with every entry exactly once, in any order |
| JsonRoundTrip.IntTextReadsBack | AsrServiceProxy/config/src/detail/tokenizer.cpp:286-296 | the decimal text of an integer is read back as the integer if and only if it is in the signed 64-bit range |
| JsonRoundTrip.TextTokens | AsrServiceProxy/config/src/detail/tokenizer.cpp:494-577 | the rendered text of a value is tokenized to the tokens of the value, whatever delimiter follows |
| JsonRoundTrip.LayoutIsWritten | AsrServiceProxy/config/src/detail/abstract_config_value.cpp:237-275 | the tokens of a rendered value are the JSON grammar's for a value that is read back |
| JsonRoundTrip.RereadIsSame | AsrServiceProxy/config/src/detail/abstract_config_value.cpp:202-212 | what is read back equals the value in the sense of `equals`, whatever the order of the entries |
| JsonRoundTrip.RenderedTextParsesBack | AsrServiceProxy/config/src/detail/simple_config_object.cpp:386-451 | rendering any resolved object or list of null, booleans, 64-bit integers and 7-bit strings concisely, in whatever key order, then tokenizing and parsing it as JSON, gives back an equal value |
| JsonRoundTrip.RenderParsesBack | AsrServiceProxy/config/src/detail/abstract_config_value.cpp:277-285 | whatever `render` returned for an object or a list, tokenizing and parsing it as JSON gives an equal value |
| JsonRoundTrip.RenderedTextIsHocon | AsrServiceProxy/config/src/detail/parser.cpp:569-822 | the same text is HOCON for the same value |
| PathMaps.CollectPaths | AsrServiceProxy/config/src/detail/config_impl.cpp:185-202 | the value paths are the map's, the scope paths exactly their non-empty proper prefixes |
| PathMaps.StoreValues | AsrServiceProxy/config/src/detail/config_impl.cpp:211-228 | every scope map holds exactly the values directly below it |
| PathMaps.SortByLength | AsrServiceProxy/config/src/detail/config_impl.cpp:230-238 | the same paths, longest first |
| PathMaps.HangScopes | AsrServiceProxy/config/src/detail/config_impl.cpp:240-252 | hanging scopes into parents from the longest path to the shortest gives the tree built top-down |
| PathMaps.FromPathMap | AsrServiceProxy/config/src/detail/config_impl.cpp:176-253 | the bottom-up construction is the top-down tree, and is refused exactly when one path is a proper prefix of another |
| PathMaps.TreeHoldsTheMap | AsrServiceProxy/config/src/detail/abstract_config_object.cpp:70-84 | in the tree of a prefix-free map every path peeks to its value, a proper prefix to an object, and nothing else exists |
| PathMaps.FindPaths | AsrServiceProxy/config/src/detail/simple_config.cpp:63-82 | inserts exactly the non-null leaves with their paths into the accumulator |
| PathMaps.FlatteningUndoesBuilding | AsrServiceProxy/config/src/detail/simple_config.cpp:63-88 | flattening what a prefix-free map built gives back its non-null entries |
| ThreadPools.ThreadPool.Enqueue | AsrServiceProxy/utils/include/thread_pool.hpp:76-88 | admits at the back of the queue, or refuses a stopped pool or a full queue and changes nothing |
| ThreadPools.ThreadPool.NextTurn | AsrServiceProxy/utils/include/thread_pool.hpp:48-56 | waits, returns when stopped and drained, or takes the front task |
| ThreadPools.RunInvariant | AsrServiceProxy/utils/include/thread_pool.hpp:44-104 | in every interleaving: accepted tasks are those started, in order, followed by those queued; started ones are running or finished, none duplicated; the queue keeps its bound; either someone is awake or every queued task has a notify to come; after the stop's notify-all nobody is blocked; workers return only when stopped and drained |
| ThreadPools.QueueStaysWithinSize | AsrServiceProxy/utils/include/thread_pool.hpp:76-88 | a pool whose size is not negative and never changed never queues more tasks than that |
| ThreadPools.EnqueueExactly | AsrServiceProxy/utils/include/thread_pool.hpp:76-88 | in every state a task is queued and accepted if and only if the pool is not stopped and its queue is shorter than its size, a negative size counting as 2^64 plus it; otherwise nothing changes |
| ThreadPools.AcceptsWhatFits | AsrServiceProxy/utils/include/thread_pool.hpp:76-88 | of any tasks brought to a running pool while no worker takes one, the first that fit are accepted in order and all later ones refused |
| ThreadPools.FreshPoolFills | AsrServiceProxy/utils/include/thread_pool.hpp:76-88 | a fresh pool of size n accepts n tasks and refuses the next |
| ThreadPools.AllAcceptedTasksRan | AsrServiceProxy/utils/include/thread_pool.hpp:94-104 | once all of at least one worker have returned, exactly the accepted tasks have run |
| ThreadPools.StoppedPoolWindsDown | AsrServiceProxy/utils/include/thread_pool.hpp:94-104 | after the stop every step of the pool brings it nearer to rest and callers change nothing |
| ThreadPools.RestingPool | AsrServiceProxy/utils/include/thread_pool.hpp:48-56 | no lost wake-up: a pool that owes no step has nothing queued or running, and after the stop every worker has returned |
| ThreadPools.ShutdownTerminates | AsrServiceProxy/utils/include/thread_pool.hpp:94-104 | a stopped pool comes to rest after a bounded number of its own steps |
| Base64Masks.SplitMasks | AsrServiceProxy/utils/src/base64.cpp:25-28 | the masks, shifts and sums of the encoder compute these sextets |
| Base64Masks.MergeMasks | AsrServiceProxy/utils/src/base64.cpp:72-74 | those of the decoder, stored in an `unsigned char`, compute the bytes, for every value of the four indices |
| Base64.Encode | AsrServiceProxy/utils/src/base64.cpp:13-53 | the loop with its carry buffers computes the encoding of section 4 of RFC 4648 |
| Base64.Decode | AsrServiceProxy/utils/src/base64.cpp:55-101 | the loop with its carry buffers decodes the leading alphabet characters, unused slots of the tail filled with not-found indices included |
| Base64.EncodedLength | AsrServiceProxy/utils/src/base64.cpp:13-53 | the encoding of n bytes has 4 * ceil(n / 3) characters |
| Base64.EncodedIsStandard | AsrServiceProxy/utils/src/base64.cpp:13-53 | every character of an encoding is the character of the RFC 4648 table for its six bits of the input, and `=` exactly where a group lacks the bytes for it |
| Base64.DecodeUndoesEncode | AsrServiceProxy/utils/src/base64.cpp:13-101 | decode undoes encode for every byte sequence whose encoding fits the int length |

## Left out

- Environment variables in `lookup_subst`: the option is taken to be off.
- `include`, files, includers and relativizing included documents: an `include` is rejected by the parser model.
- MemoFree.MemosPreserveSuccess: excludes references whose full path holds something that vanishes while the path without the inclusion prefix is found; the visibility of all lookups is sufficient for a whole document, not necessary.
- SelfReferenceDocuments.DocumentWithPlusEquals: top-level keys that are first set to a list, a reference or a concatenation; of the other entries those that lead to the key are references to the whole key, the rest do not lead there.
- ParsedExtensions.ParsedExtensionResolves: a key that is set anew after a `+=` setting, and `+=` on nested paths.
- ObjectStackDocuments.SettingsResolve: the objects of the settings and the other entries are resolved, and an object that ignores fallbacks is the first one set, as merging leaves it; `{ ... } ${key}`, with an object before the reference, is not covered.
- HoconGrammar.HoconIsAccepted: one direction; keys of one element, set once, and values that stand alone on their line, which `SettingIsFound`, `SettingIsMerging` and `WordsSayThemselves` go beyond.
- PlainText.WordsSayThemselves: words of letters and periods; digits and other characters in words are not covered.
- ParsedNodes.AcceptedTextIsScattered: floating-point texts are assumed to become values without references.
- PathSyntax.LoneElementExactly: floating-point texts are assumed to keep their text.
- ParsedDocuments.AcceptedTextResolvesSafely: floating-point texts are assumed to become numbers; a document whose root is a list is not resolved.
- Floating-point numbers: their conversion is a parameter of the tokenizer, and the JSON round trip covers integers only.
- Node identity: equal stacks and concatenations in two places of a document share their memo entries in the model, separate objects in memory do not.
- PathMaps.FromPathMap: starts from parsed paths and converted values; two expressions for one path, and map values that are path maps themselves, are not modelled.
- PathMaps.FindPaths: collects paths, not their rendered texts.
- ParseContexts.ParseContext.NextToken: reading past the end of a token stream, which the tokenizer never allows, counts as a parse error.
- TokenStreams.TokenStream.Next: after a tokenizer problem only the problem itself is specified, because every consumer stops there.
- Base64.Decode: texts of 2^31 characters or more, whose length does not fit an int.
- The lazily assigned `replacement` field of a replacer (`AsrServiceProxy/config/src/detail/resolve_replacer.cpp:7-13`): the replacement is computed anew, which gives the same value.
- The expression trace, origins, comments, line numbers and the texts of error messages.
- Formatted and non-JSON rendering, hashing, `equals` on unresolved values, typed getters, `check_valid`, durations and byte sizes.
- `set_queue_size` racing with `enqueue` outside the mutex: it is a step of its own in the pool's machine.
- The servers and HTTP clients of `app/`, URI coding, shared memory, logging, events and time utilities.
