/** The `+=` settings of a key in a parsed document are the steps that self-reference is about. */
module ParsedExtensions {
  import opened ConfigValues
  import opened MergeAlgebra
  import opened Concatenations
  import opened Tokenization
  import opened Parsing
  import opened Resolution
  import opened Ranks
  import opened SelfReference
  import opened SelfReferenceDocuments

  // ---------------------------------------------------------------- settings

  /** If the setting at the front of the stream is `key += x`: `x`, and the stream after it. */
  function Appended(key: string, ts: seq<Token>): (r: Parse<Value>)
    ensures r.Parsed? ==> |r.rest| < |ts|
  {
    var first := NextOnAnyLine(Conf, ts);
    if first.Rejected? then Rejected
    else
      var path := ParseKey(Conf, first.result, first.rest);
      if path.Rejected? || path.result != [key] then Rejected
      else
        var sign := NextOnAnyLine(Conf, path.rest);
        if sign.Rejected? || !sign.result.PlusEquals? then Rejected
        else
          var consolidated := ConsolidateValues(Conf, sign.rest, [key]);
          if consolidated.Rejected? then Rejected
          else
            var value := NextOnAnyLine(Conf, consolidated.rest);
            if value.Rejected? then Rejected else ParseValue(Conf, value.result, value.rest, [key])
  }

  /** The fields after a setting, and whether a separator follows it. */
  datatype Progress = Progress(fields: map<string, Value>, more: bool)

  /** One setting in the loop of `parse_object`, and the separator after it. */
  function Setting(ts: seq<Token>, fields: map<string, Value>): (r: Parse<Progress>)
    ensures r.Parsed? ==> |r.rest| < |ts|
  {
    var first := NextOnAnyLine(Conf, ts);
    if first.Rejected? || first.result.CloseCurly? || first.result.End? || first.result == Unquoted("include")
    then Rejected
    else
      var field := ParseField(Conf, first.result, first.rest, fields, []);
      if field.Rejected? then Rejected
      else
        var separator := Separator(Conf, field.rest);
        if separator.Parsed? then Parsed(Progress(field.result, separator.result), separator.rest) else Rejected
  }

  /** The loop of `parse_object` at a setting. */
  lemma OneSetting(hadOpenCurly: bool, ts: seq<Token>, fields: map<string, Value>, afterComma: bool)
    requires ParseFields(Conf, hadOpenCurly, ts, fields, afterComma, []).Parsed?
    ensures var setting := Setting(ts, fields); var p := ParseFields(Conf, hadOpenCurly, ts, fields, afterComma, []);
      if setting.Rejected? then p.result == Object(fields, false)
      else
        p == if setting.result.more then ParseFields(Conf, hadOpenCurly, setting.rest, setting.result.fields, true, [])
             else EndFields(Conf, hadOpenCurly, setting.rest, setting.result.fields)
  {
    hide ParseField, Separator, NextOnAnyLine, EndFields;
    var first := NextOnAnyLine(Conf, ts);
    if !first.result.CloseCurly? && !(first.result.End? && !hadOpenCurly) {
      EndIsNoField(first.rest, fields);
      var field := ParseField(Conf, first.result, first.rest, fields, []);
      var separator := Separator(Conf, field.rest);
      assert Setting(ts, fields) == Parsed(Progress(field.result, separator.result), separator.rest);
    }
  }

  lemma EndIsNoField(ts: seq<Token>, fields: map<string, Value>)
    ensures ParseField(Conf, End, ts, fields, []).Rejected?
  {
    assert CollectKey(End, ts, []) == Parsed([], [End] + ts);
  }

  lemma EndOfFields(hadOpenCurly: bool, ts: seq<Token>, fields: map<string, Value>)
    requires EndFields(Conf, hadOpenCurly, ts, fields).Parsed?
    ensures EndFields(Conf, hadOpenCurly, ts, fields).result == Object(fields, false)
  {
  }

  /** The reference the parser makes for a setting that ends before `rest`. */
  function Previous(key: string, rest: seq<Token>): (r: Value) {
    Reference(2 * |rest| + 1, [key], true, 0)
  }

  /** What the parser stores for `key += x`: the step merged over what the key held. */
  lemma AppendedIsStored(key: string, ts: seq<Token>, fields: map<string, Value>)
    requires Appended(key, ts).Parsed? && Setting(ts, fields).Parsed?
    ensures var appended := Appended(key, ts);
      var extended := SelfReference.PlusEquals(FieldAt(Object(fields, false), key), Previous(key, appended.rest),
                                               appended.result);
      && extended.Fine? && extended.value.Some?
      && Setting(ts, fields).result.fields == fields[key := extended.value.value]
      && |Setting(ts, fields).rest| <= |appended.rest|
  {
    hide ParseKey, ConsolidateValues, ParseValue, WithFallback, NextOnAnyLine, Separator;
    var appended := Appended(key, ts);
    var x, rest := appended.result, appended.rest;
    StepConcatenated(Previous(key, rest), x);
    assert [] + [key] == [key];
    var first := NextOnAnyLine(Conf, ts);
    var path := ParseKey(Conf, first.result, first.rest);
    var sign := NextOnAnyLine(Conf, path.rest);
    assert ParseFieldValue(Conf, sign.result, sign.rest, [key]) == Extend(Parsed(x, rest), [key]);
  }

  // ---------------------------------------------------------------- all settings of a document

  /** The `+=` settings of the key from `ts` on, as steps. */
  function Appendings(key: string, ts: seq<Token>, fields: map<string, Value>): (r: seq<Appending>)
    decreases |ts|
  {
    var setting, appended := Setting(ts, fields), Appended(key, ts);
    if setting.Rejected? then []
    else
      (if appended.Parsed? then [Appending(Previous(key, appended.rest), appended.result)] else []) +
      (if setting.result.more then Appendings(key, setting.rest, setting.result.fields) else [])
  }

  /** What the key holds before its first `+=` setting. */
  function Beginning(key: string, ts: seq<Token>, fields: map<string, Value>): (r: Option<Value>)
    decreases |ts|
  {
    var setting := Setting(ts, fields);
    if setting.Rejected? || Appended(key, ts).Parsed? then FieldAt(Object(fields, false), key)
    else if setting.result.more then Beginning(key, setting.rest, setting.result.fields)
    else FieldAt(Object(setting.result.fields, false), key)
  }

  /** After its first `+=` setting the key is set by further ones only. */
  predicate OnlyAppended(key: string, ts: seq<Token>, fields: map<string, Value>, begun: bool)
    decreases |ts|
  {
    var setting, appended := Setting(ts, fields), Appended(key, ts);
    setting.Parsed? ==>
      && (begun && appended.Rejected? ==>
            FieldAt(Object(setting.result.fields, false), key) == FieldAt(Object(fields, false), key))
      && (setting.result.more ==>
            OnlyAppended(key, setting.rest, setting.result.fields, begun || appended.Parsed?))
  }

  /** The steps taken one after the other. */
  function ExtendAll(existing: Option<Value>, steps: seq<Appending>): (r: Joined<Option<Value>>)
    decreases |steps|
  {
    if steps == [] then Fine(existing)
    else
      var one := SelfReference.PlusEquals(existing, steps[0].reference, steps[0].value);
      if one.Refused? then one else ExtendAll(one.value, steps[1..])
  }

  lemma {:induction false} ExtendAllIsExtended(e: Extension, i: nat)
    requires i <= |e.steps| && Extended(e, i).Fine?
    ensures ExtendAll(Extended(e, i).value, e.steps[i..]) == Extended(e, |e.steps|) || Extended(e, |e.steps|).Refused?
    decreases |e.steps| - i
  {
    hide SelfReference.PlusEquals;
    if i < |e.steps| {
      assert e.steps[i..][0] == e.steps[i] && e.steps[i..][1..] == e.steps[i + 1..];
      if Extended(e, i + 1).Fine? {
        ExtendAllIsExtended(e, i + 1);
      } else {
        RefusedStays(e, i + 1, |e.steps|);
      }
    }
  }

  lemma {:induction false} RefusedStays(e: Extension, i: nat, k: nat)
    requires i <= k <= |e.steps| && Extended(e, i).Refused?
    ensures Extended(e, k).Refused?
    decreases k
  {
    if i < k {
      RefusedStays(e, i, k - 1);
    }
  }

  /** The key ends up with all its steps taken. */
  lemma {:induction false} KeyAfterAll(key: string, hadOpenCurly: bool, ts: seq<Token>, fields: map<string, Value>,
                                       afterComma: bool, begun: bool)
    requires ParseFields(Conf, hadOpenCurly, ts, fields, afterComma, []).Parsed?
    requires OnlyAppended(key, ts, fields, begun)
    ensures var o := ParseFields(Conf, hadOpenCurly, ts, fields, afterComma, []).result;
      var existing := if begun then FieldAt(Object(fields, false), key) else Beginning(key, ts, fields);
      o.Object? && !o.ignoresFallbacks && ExtendAll(existing, Appendings(key, ts, fields)) == Fine(FieldAt(o, key))
    decreases |ts|
  {
    hide Setting, Appended, SelfReference.PlusEquals, ParseFields, EndFields;
    OneSetting(hadOpenCurly, ts, fields, afterComma);
    var setting, appended := Setting(ts, fields), Appended(key, ts);
    if setting.Parsed? {
      var more := setting.result.fields;
      var tail := if setting.result.more then Appendings(key, setting.rest, more) else [];
      if appended.Parsed? {
        AppendedIsStored(key, ts, fields);
        var step := Appending(Previous(key, appended.rest), appended.result);
        assert Appendings(key, ts, fields) == [step] + tail && ([step] + tail)[1..] == tail;
      } else {
        assert Appendings(key, ts, fields) == [] + tail == tail;
      }
      if setting.result.more {
        KeyAfterAll(key, hadOpenCurly, setting.rest, more, true, begun || appended.Parsed?);
      } else {
        EndOfFields(hadOpenCurly, setting.rest, more);
      }
    }
  }

  /** A reference to the key made while fewer than `bound` tokens were left. */
  predicate MadeWithin(n: Value, key: string, bound: nat) {
    n.Reference? && n.path == [key] && n.optional && n.prefixLength == 0 && n.node < 2 * bound
  }

  predicate MadeAfter(n: Value, m: Value) {
    n.Reference? && m.Reference? && n.node > m.node
  }

  /** References to the key made while fewer than `bound` tokens were left, each after the next. */
  predicate Numbered(steps: seq<Appending>, key: string, bound: nat) {
    && (forall j | 0 <= j < |steps| :: MadeWithin(steps[j].reference, key, bound))
    && (forall j, k | 0 <= j < k < |steps| :: MadeAfter(steps[j].reference, steps[k].reference))
  }

  lemma OneNumberMore(step: Appending, key: string, left: nat, steps: seq<Appending>, less: nat, bound: nat)
    requires Numbered(steps, key, less) && less <= left < bound
    requires step.reference == Reference(2 * left + 1, [key], true, 0)
    ensures Numbered([step] + steps, key, bound)
  {
    var all := [step] + steps;
    forall j | 0 <= j < |all| ensures MadeWithin(all[j].reference, key, bound) {
      assert j > 0 ==> all[j] == steps[j - 1];
    }
    forall j, k | 0 <= j < k < |all| ensures MadeAfter(all[j].reference, all[k].reference) {
      assert all[k] == steps[k - 1] && (j > 0 ==> all[j] == steps[j - 1]);
      assert MadeWithin(steps[k - 1].reference, key, less);
    }
  }

  lemma FewerNumbers(steps: seq<Appending>, key: string, less: nat, bound: nat)
    requires Numbered(steps, key, less) && less <= bound
    ensures Numbered(steps, key, bound)
  {
  }

  /** The later a setting, the smaller the number of its reference. */
  lemma {:induction false} NumbersFall(key: string, ts: seq<Token>, fields: map<string, Value>)
    ensures Numbered(Appendings(key, ts, fields), key, |ts|)
    decreases |ts|
  {
    hide Setting, Appended, Numbered;
    var setting, appended := Setting(ts, fields), Appended(key, ts);
    if setting.Parsed? {
      var tail := if setting.result.more then Appendings(key, setting.rest, setting.result.fields) else [];
      NoNumbers(key, |setting.rest|);
      if setting.result.more {
        NumbersFall(key, setting.rest, setting.result.fields);
      }
      if appended.Parsed? {
        AppendedIsStored(key, ts, fields);
        var step := Appending(Previous(key, appended.rest), appended.result);
        assert Appendings(key, ts, fields) == [step] + tail;
        OneNumberMore(step, key, |appended.rest|, tail, |setting.rest|, |ts|);
      } else {
        assert Appendings(key, ts, fields) == [] + tail == tail;
        FewerNumbers(tail, key, |setting.rest|, |ts|);
      }
    } else {
      NoNumbers(key, |ts|);
    }
  }

  lemma NoNumbers(key: string, bound: nat)
    ensures Numbered([], key, bound)
  {
  }

  // ---------------------------------------------------------------- documents

  /** The stream at which the settings of a document begin, and whether braces are around them; `None`
      for a document that is a list, or is not begun properly. */
  function SettingsOf(tokens: seq<Token>): (r: Option<(bool, seq<Token>)>) {
    var start := NextOnAnyLine(Conf, WithoutComments(tokens));
    if start.Rejected? || !start.result.Start? then None
    else
      var first := NextOnAnyLine(Conf, start.rest);
      if first.Rejected? || first.result.OpenSquare? then None
      else if first.result.OpenCurly? then Some((true, first.rest))
      else Some((false, [first.result] + first.rest))
  }

  lemma DocumentIsFields(tokens: seq<Token>)
    requires ParseDocument(Conf, tokens).Some? && SettingsOf(tokens).Some?
    ensures var (braces, ts) := SettingsOf(tokens).value;
      var p := ParseFields(Conf, braces, ts, map[], false, []);
      p.Parsed? && ParseDocument(Conf, tokens) == Some(p.result)
  {
    hide ParseFields, NextOnAnyLine;
  }

  /** The extension a document makes of a key: its `+=` settings, what it held before, and the rest of
      the document, of which some entries are references to the key. */
  function ExtensionOf(tokens: seq<Token>, key: string, readers: set<string>, order: set<string> -> seq<string>,
                       rank: Rank, top: nat): (e: Extension)
    requires SettingsOf(tokens).Some? && ParseDocument(Conf, tokens).Some? && ParseDocument(Conf, tokens).value.Object?
  {
    var (_, ts) := SettingsOf(tokens).value;
    var fields := ParseDocument(Conf, tokens).value.fields;
    Extension(key, Beginning(key, ts, map[]), Appendings(key, ts, map[]), fields - readers - {key},
              map k | k in fields && k in readers && k != key :: fields[k], order, rank, top)
  }

  /** After its first `+=` setting the document sets the key by further ones only. */
  predicate Extends(tokens: seq<Token>, key: string) {
    SettingsOf(tokens).Some? && OnlyAppended(key, SettingsOf(tokens).value.1, map[], false)
  }

  /** The references of the steps are references to the key, all different. */
  lemma ParsedPlausible(tokens: seq<Token>, key: string, readers: set<string>, order: set<string> -> seq<string>,
                        rank: Rank, top: nat)
    requires ParseDocument(Conf, tokens).Some? && ParseDocument(Conf, tokens).value.Object? && SettingsOf(tokens).Some?
    ensures var e := ExtensionOf(tokens, key, readers, order, rank, top);
      && (|e.steps| >= 1 && (e.base.Some? ==> StackableLayer(e.base.value))
          && (forall k | k in e.readers :: RefersToKey(e, e.readers[k]))
          ==> Plausible(e))
  {
    hide Appendings, Beginning, ParseDocument, SettingsOf;
    var (_, ts) := SettingsOf(tokens).value;
    NumbersFall(key, ts, map[]);
    var e := ExtensionOf(tokens, key, readers, order, rank, top);
    assert Numbered(e.steps, key, |ts|);
    forall i | 0 <= i < |e.steps| ensures MadeWithin(e.steps[i].reference, key, |ts|) {
    }
    forall i, j | 0 <= i < j < |e.steps| ensures e.steps[i].reference != e.steps[j].reference {
      assert MadeAfter(e.steps[i].reference, e.steps[j].reference);
    }
  }

  /** A document with `+=` settings of a key parses to the document for which self-reference is proved. */
  lemma ParsedExtension(tokens: seq<Token>, key: string, readers: set<string>, order: set<string> -> seq<string>,
                        rank: Rank, top: nat)
    requires ParseDocument(Conf, tokens).Some? && Extends(tokens, key)
    ensures ParseDocument(Conf, tokens).value.Object?
    ensures var e := ExtensionOf(tokens, key, readers, order, rank, top);
      Plausible(e) ==> ParseDocument(Conf, tokens).value == Root(e)
  {
    hide Appendings, Beginning, ParseFields, Plausible, OnlyAppended, Held, ExtendAll, SelfReference.PlusEquals;
    var (braces, ts) := SettingsOf(tokens).value;
    DocumentIsFields(tokens);
    KeyAfterAll(key, braces, ts, map[], false, false);
    var e := ExtensionOf(tokens, key, readers, order, rank, top);
    if Plausible(e) {
      AtLeastOne(e);
      ExtendedIsHeld(e, |e.steps|);
      ExtendAllIsExtended(e, 0);
      assert e.steps[0..] == e.steps && Extended(e, 0) == Fine(e.base);
      SameRoot(e, ParseDocument(Conf, tokens).value, readers);
    }
  }

  lemma SameRoot(e: Extension, root: Value, readers: set<string>)
    requires 1 <= |e.steps| && root.Object? && !root.ignoresFallbacks
    requires FieldAt(root, e.key) == Some(Held(e, |e.steps|))
    requires e.others == root.fields - readers - {e.key}
    requires e.readers == map k | k in root.fields && k in readers && k != e.key :: root.fields[k]
    ensures root == Root(e)
  {
    hide Held;
    assert (e.others + e.readers)[e.key := Held(e, |e.steps|)] == root.fields;
  }

  /** From the text to the resolved document.  Where the parts of such a document resolve without memos,
      the document parsed from the text resolves to its other entries as they resolve, and the key and
      the entries that refer to it holding the elements of what the key was set to before its `+=`
      settings followed by the values of these settings in order. */
  lemma ParsedExtensionResolves(lex: Lexing, text: string, key: string, readers: set<string>,
                                order: set<string> -> seq<string>, rank: Rank, top: nat)
    requires ParseDocument(Conf, Tokenized(lex, text)).Some? && Extends(Tokenized(lex, text), key)
    requires ParseDocument(Conf, Tokenized(lex, text)).value.Object?
    requires Stated(ExtensionOf(Tokenized(lex, text), key, readers, order, rank, top))
    ensures var root := ParseDocument(Conf, Tokenized(lex, text)).value;
      var e := ExtensionOf(Tokenized(lex, text), key, readers, order, rank, top);
      && Ready(Src(e).(remembers := false), Parts(e), map[], map[])
      && (PartsAlone(e).outcome.Done? ==>
            && Ready(Document(root, root, order), root, map[], map[])
            && Resolve(Document(root, root, order), root, [], map[], map[]).outcome ==
                 Done(Some(Object(Result(e), false))))
  {
    hide Resolve, Result, Stated, Held, Parts, Ready, ParseDocument, OnlyAppended, SettingsOf, Tokenized;
    var tokens := Tokenized(lex, text);
    var e := ExtensionOf(tokens, key, readers, order, rank, top);
    StatedPlausible(e);
    ParsedExtension(tokens, key, readers, order, rank, top);
    DocumentWithPlusEquals(e);
    SrcIsDocument(e);
    assert e.order == order;
  }
}
