/** What the parser accepts as JSON, stated by a grammar that knows nothing of the parser.

    Apart from line breaks an accepted stream is one object or list written with single commas between
    its members and none after the last, with string keys that are different within an object; and it
    is parsed into just the value the grammar gives it. */
module JsonGrammar {
  import opened ConfigValues
  import opened Tokenization
  import opened Parsing

  // ---------------------------------------------------------------- the grammar

  datatype Json = Leaf(value: Value) | Array(items: seq<Json>) | Record(members: seq<Member>)

  datatype Member = Member(key: string, value: Json)

  /** The tokens of a value. */
  function Written(j: Json): (ts: seq<Token>)
    ensures ts != [] && StartsValue(ts[0])
    decreases j, 0
  {
    match j
    case Leaf(v) => [Literal(v)]
    case Array(items) =>
      [OpenSquare] + (if items == [] then [] else Written(items[0]) + MoreItems(items[1..])) + [CloseSquare]
    case Record(members) =>
      [OpenCurly] + (if members == [] then [] else WrittenMember(members[0]) + MoreMembers(members[1..])) + [CloseCurly]
  }

  function WrittenMember(m: Member): (ts: seq<Token>)
    decreases m, 1
  {
    [Literal(Str(m.key)), Colon] + Written(m.value)
  }

  /** Further items, each after a comma. */
  function MoreItems(items: seq<Json>): (ts: seq<Token>)
    decreases items, 2
  {
    if items == [] then [] else [Comma] + Written(items[0]) + MoreItems(items[1..])
  }

  function MoreMembers(members: seq<Member>): (ts: seq<Token>)
    decreases members, 2
  {
    if members == [] then [] else [Comma] + WrittenMember(members[0]) + MoreMembers(members[1..])
  }

  /** No object has a key twice. */
  predicate Strict(j: Json) {
    match j
    case Leaf(_) => true
    case Array(items) => forall i | 0 <= i < |items| :: Strict(items[i])
    case Record(members) => NewKeys(map[], members) && forall i | 0 <= i < |members| :: Strict(members[i].value)
  }

  /** The members have different keys that the fields do not have. */
  predicate NewKeys(fields: map<string, Value>, members: seq<Member>) {
    && (forall i | 0 <= i < |members| :: members[i].key !in fields)
    && (forall i, j | 0 <= i < j < |members| :: members[i].key != members[j].key)
  }

  function ValueOf(j: Json): (v: Value)
    decreases j, 0
  {
    match j
    case Leaf(v) => v
    case Array(items) => List(ValuesOf(items))
    case Record(members) => Object(WithMembers(map[], members), false)
  }

  function ValuesOf(items: seq<Json>): (vs: seq<Value>)
    decreases items, 1
  {
    if items == [] then [] else [ValueOf(items[0])] + ValuesOf(items[1..])
  }

  /** The fields with the members added. */
  function WithMembers(fields: map<string, Value>, members: seq<Member>): (r: map<string, Value>)
    decreases members, 1
  {
    if members == [] then fields else WithMembers(fields[members[0].key := ValueOf(members[0].value)], members[1..])
  }

  /** The stream without line breaks. */
  function OneLine(ts: seq<Token>): (r: seq<Token>) {
    if ts == [] then [] else (if ts[0].Newline? then [] else [ts[0]]) + OneLine(ts[1..])
  }

  // ---------------------------------------------------------------- single tokens

  predicate JsonToken(t: Token) {
    !t.Problem? && !t.Unquoted? && !t.Substitution? && !t.Newline?
  }

  /** Reading a token skips line breaks in front of it. */
  lemma {:induction false} NextIsFirst(ts: seq<Token>)
    ensures var next := NextOnAnyLine(Json, ts);
      && (next.Parsed? ==> JsonToken(next.result) && OneLine(ts) == [next.result] + OneLine(next.rest))
      && (OneLine(ts) != [] && JsonToken(OneLine(ts)[0]) ==> next.Parsed?)
    decreases |ts|
  {
    hide OneLine;
    OneLineStep(ts);
    if ts != [] && ts[0].Newline? {
      NextIsFirst(ts[1..]);
    }
  }

  lemma OneLineStep(ts: seq<Token>)
    ensures OneLine(ts) ==
      if ts == [] then [] else if ts[0].Newline? then OneLine(ts[1..]) else [ts[0]] + OneLine(ts[1..])
  {
  }

  /** A token put back. */
  lemma PutBackFirst(t: Token, ts: seq<Token>)
    requires !t.Newline?
    ensures OneLine([t] + ts) == [t] + OneLine(ts)
  {
    assert ([t] + ts)[1..] == ts;
  }

  /** A separator is a comma; otherwise nothing is read. */
  lemma SeparatorIsComma(ts: seq<Token>)
    ensures var s := Separator(Json, ts);
      && (s.Parsed? ==> OneLine(ts) == (if s.result then [Comma] else []) + OneLine(s.rest))
      && (s.Parsed? && !s.result ==> OneLine(ts) != [] && !OneLine(ts)[0].Comma?)
      && (OneLine(ts) != [] && JsonToken(OneLine(ts)[0]) ==> s.Parsed? && s.result == OneLine(ts)[0].Comma?)
  {
    hide NextOnAnyLine;
    NextIsFirst(ts);
    var next := NextOnAnyLine(Json, ts);
    if next.Parsed? && !next.result.Comma? {
      PutBackFirst(next.result, next.rest);
    }
  }

  // ---------------------------------------------------------------- what is accepted is written by the grammar

  /** A parsed value and the tokens it was written with. */
  lemma {:induction false} ValueIsWritten(t: Token, ts: seq<Token>, parents: Path) returns (j: Json)
    requires ParseValue(Json, t, ts, parents).Parsed?
    ensures var p := ParseValue(Json, t, ts, parents);
      Strict(j) && ValueOf(j) == p.result && [t] + OneLine(ts) == Written(j) + OneLine(p.rest)
    ensures !t.Literal? ==> !j.Leaf?
    decreases |ts|, 4
  {
    hide ParseFields, ParseArray, OneLine, Strict, Written;
    match t
    case Literal(v) =>
      j := Leaf(v);
      LeafIsWritten(v);
    case OpenCurly => j := ObjectIsWritten(ts, parents);
    case OpenSquare => j := ArrayIsWritten(ts, parents);
  }

  lemma LeafIsWritten(v: Value)
    ensures Written(Leaf(v)) == [Literal(v)] && Strict(Leaf(v)) && ValueOf(Leaf(v)) == v
  {
  }

  lemma {:induction false} ArrayIsWritten(ts: seq<Token>, parents: Path) returns (j: Json)
    requires ParseArray(Json, ts, parents).Parsed?
    ensures var p := ParseArray(Json, ts, parents);
      && j.Array? && Strict(j) && ValueOf(j) == p.result && [OpenSquare] + OneLine(ts) == Written(j) + OneLine(p.rest)
    decreases |ts|, 3
  {
    hide NextOnAnyLine, ParseValue, ParseItems, OneLine, Strict, Written, MoreItems, ValueOf;
    NextIsFirst(ts);
    var next := NextOnAnyLine(Json, ts);
    var rest := OneLine(ParseArray(Json, ts, parents).rest);
    if next.result.CloseSquare? {
      j := Array([]);
      EmptyArray();
      assert [OpenSquare] + OneLine(ts) == [OpenSquare, CloseSquare] + rest;
    } else {
      var first := ValueIsWritten(next.result, next.rest, parents);
      var value := ParseValue(Json, next.result, next.rest, parents);
      var more := ItemsAreWritten(value.rest, [value.result], parents);
      j := Array([first] + more);
      ArrayOf(first, more);
      assert [OpenSquare] + (Written(first) + (MoreItems(more) + [CloseSquare] + rest)) == Written(j) + rest;
    }
  }

  lemma EmptyArray()
    ensures Written(Array([])) == [OpenSquare, CloseSquare] && Strict(Array([])) && ValueOf(Array([])) == List([])
  {
  }

  lemma ArrayOf(first: Json, more: seq<Json>)
    requires Strict(first) && forall i | 0 <= i < |more| :: Strict(more[i])
    ensures var j := Array([first] + more);
      && Written(j) == [OpenSquare] + Written(first) + MoreItems(more) + [CloseSquare] && Strict(j)
      && ValueOf(j) == List([ValueOf(first)] + ValuesOf(more))
  {
    hide Written, MoreItems, Strict;
    var items := [first] + more;
    assert items[1..] == more && items[0] == first;
    ArrayWritten(items);
    assert forall i | 0 <= i < |items| :: Strict(items[i]);
    ArrayStrict(items);
  }

  lemma ArrayWritten(items: seq<Json>)
    requires items != []
    ensures Written(Array(items)) == [OpenSquare] + (Written(items[0]) + MoreItems(items[1..])) + [CloseSquare]
  {
  }

  lemma ArrayStrict(items: seq<Json>)
    ensures Strict(Array(items)) <==> forall i | 0 <= i < |items| :: Strict(items[i])
  {
  }

  /** The items after those read already. */
  lemma {:induction false} ItemsAreWritten(ts: seq<Token>, done: seq<Value>, parents: Path) returns (more: seq<Json>)
    requires ParseItems(Json, ts, done, parents).Parsed?
    ensures var p := ParseItems(Json, ts, done, parents);
      && (forall i | 0 <= i < |more| :: Strict(more[i])) && p.result == List(done + ValuesOf(more))
      && OneLine(ts) == MoreItems(more) + [CloseSquare] + OneLine(p.rest)
    decreases |ts|, 2
  {
    hide NextOnAnyLine, ParseValue, OneLine, Strict, Written, Separator, ValueOf;
    SeparatorIsComma(ts);
    var separator := Separator(Json, ts);
    NextIsFirst(separator.rest);
    var next := NextOnAnyLine(Json, separator.rest);
    var rest := OneLine(ParseItems(Json, ts, done, parents).rest);
    if !separator.result {
      more := [];
      assert done + [] == done;
      assert [] + OneLine(separator.rest) == OneLine(ts);
    } else {
      var first := ValueIsWritten(next.result, next.rest, parents);
      var value := ParseValue(Json, next.result, next.rest, parents);
      var others := ItemsAreWritten(value.rest, done + [value.result], parents);
      more := [first] + others;
      assert more[1..] == others && more[0] == first;
      assert done + [value.result] + ValuesOf(others) == done + ValuesOf(more);
      assert [Comma] + (Written(first) + (MoreItems(others) + [CloseSquare] + rest))
        == MoreItems(more) + [CloseSquare] + rest;
    }
  }

  lemma {:induction false} ObjectIsWritten(ts: seq<Token>, parents: Path) returns (j: Json)
    requires ParseFields(Json, true, ts, map[], false, parents).Parsed?
    ensures var p := ParseFields(Json, true, ts, map[], false, parents);
      && j.Record? && Strict(j) && ValueOf(j) == p.result && [OpenCurly] + OneLine(ts) == Written(j) + OneLine(p.rest)
    decreases |ts|, 3, 1
  {
    hide NextOnAnyLine, ParseFields, OneLine, Strict, Written, MoreMembers, ValueOf;
    FieldsBegin(ts, parents);
    NextIsFirst(ts);
    var rest := OneLine(ParseFields(Json, true, ts, map[], false, parents).rest);
    if NextOnAnyLine(Json, ts).result.CloseCurly? {
      j := Record([]);
      NoFields(ts, parents);
      assert [OpenCurly] + OneLine(ts) == [OpenCurly, CloseCurly] + rest;
    } else {
      var members := FieldsAreWritten(ts, map[], false, parents);
      j := Record(members);
      RecordOf(members);
      assert [OpenCurly] + (WrittenMember(members[0]) + MoreMembers(members[1..]) + [CloseCurly] + rest)
        == Written(j) + rest;
    }
  }

  lemma FieldsBegin(ts: seq<Token>, parents: Path)
    requires ParseFields(Json, true, ts, map[], false, parents).Parsed?
    ensures NextOnAnyLine(Json, ts).Parsed?
  {
  }

  lemma NoFields(ts: seq<Token>, parents: Path)
    requires NextOnAnyLine(Json, ts).Parsed? && NextOnAnyLine(Json, ts).result.CloseCurly?
    ensures ParseFields(Json, true, ts, map[], false, parents)
      == Parsed(Object(map[], false), NextOnAnyLine(Json, ts).rest)
    ensures var j := Record([]);
      Written(j) == [OpenCurly, CloseCurly] && Strict(j) && ValueOf(j) == Object(map[], false)
  {
  }

  lemma RecordOf(members: seq<Member>)
    requires members != [] && NewKeys(map[], members) && forall i | 0 <= i < |members| :: Strict(members[i].value)
    ensures var j := Record(members);
      && Written(j) == [OpenCurly] + (WrittenMember(members[0]) + MoreMembers(members[1..])) + [CloseCurly]
      && Strict(j) && ValueOf(j) == Object(WithMembers(map[], members), false)
  {
  }

  /** At least one more field. */
  lemma {:induction false} FieldsAreWritten(ts: seq<Token>, fields: map<string, Value>, afterComma: bool, parents: Path)
    returns (members: seq<Member>)
    requires ParseFields(Json, true, ts, fields, afterComma, parents).Parsed?
    requires afterComma || (NextOnAnyLine(Json, ts).Parsed? && !NextOnAnyLine(Json, ts).result.CloseCurly?)
    ensures var p := ParseFields(Json, true, ts, fields, afterComma, parents);
      && members != [] && NewKeys(fields, members) && (forall i | 0 <= i < |members| :: Strict(members[i].value))
      && p.result == Object(WithMembers(fields, members), false)
      && OneLine(ts) == WrittenMember(members[0]) + MoreMembers(members[1..]) + [CloseCurly] + OneLine(p.rest)
    decreases |ts|, 3, 0
  {
    hide NextOnAnyLine, ParseField, ParseFields, OneLine, Strict, WrittenMember, Separator, ValueOf, EndFields;
    NextIsFirst(ts);
    OneField(ts, fields, afterComma, parents);
    var first := NextOnAnyLine(Json, ts);
    var field := ParseField(Json, first.result, first.rest, fields, parents);
    var m := FieldIsWritten(first.result, first.rest, fields, parents);
    SeparatorIsComma(field.rest);
    var separator := Separator(Json, field.rest);
    var rest := OneLine(ParseFields(Json, true, ts, fields, afterComma, parents).rest);
    if separator.result {
      var others := FieldsAreWritten(separator.rest, field.result, true, parents);
      members := [m] + others;
      assert members[1..] == others && members[0] == m;
      MembersRegroup(WrittenMember(m), others, rest);
    } else {
      members := [m];
      NextIsFirst(separator.rest);
      FieldsClosed(separator.rest, field.result);
      assert members[1..] == [];
      assert [] + OneLine(separator.rest) == OneLine(field.rest);
      assert WrittenMember(m) + ([CloseCurly] + rest) == WrittenMember(m) + MoreMembers([]) + [CloseCurly] + rest;
    }
  }

  lemma MembersRegroup(first: seq<Token>, more: seq<Member>, rest: seq<Token>)
    requires more != []
    ensures first + ([Comma] + (WrittenMember(more[0]) + MoreMembers(more[1..]) + [CloseCurly] + rest))
      == first + MoreMembers(more) + [CloseCurly] + rest
  {
    hide WrittenMember, MoreMembers;
    MoreStep(more);
    SixParts(first, [Comma], WrittenMember(more[0]), MoreMembers(more[1..]), [CloseCurly], rest);
  }

  lemma MoreStep(more: seq<Member>)
    requires more != []
    ensures MoreMembers(more) == [Comma] + WrittenMember(more[0]) + MoreMembers(more[1..])
  {
  }

  lemma SixParts<T>(a: seq<T>, b: seq<T>, c: seq<T>, d: seq<T>, e: seq<T>, f: seq<T>)
    ensures a + (b + (c + d + e + f)) == a + (b + c + d) + e + f
  {
    assert b + (c + d + e + f) == (b + c + d) + (e + f);
  }

  /** The loop of `parse_object` at a field. */
  lemma OneField(ts: seq<Token>, fields: map<string, Value>, afterComma: bool, parents: Path)
    requires NextOnAnyLine(Json, ts).Parsed? ==> afterComma || !NextOnAnyLine(Json, ts).result.CloseCurly?
    ensures var first := NextOnAnyLine(Json, ts);
      ParseFields(Json, true, ts, fields, afterComma, parents) ==
        if first.Rejected? || first.result.CloseCurly? || first.result == Unquoted("include") then Rejected
        else
          var field := ParseField(Json, first.result, first.rest, fields, parents);
          if field.Rejected? || Separator(Json, field.rest).Rejected? then Rejected
          else
            var separator := Separator(Json, field.rest);
            if separator.result then ParseFields(Json, true, separator.rest, field.result, true, parents)
            else EndFields(Json, true, separator.rest, field.result)
  {
    hide NextOnAnyLine, ParseField, Separator, EndFields;
  }

  lemma FieldsClosed(ts: seq<Token>, fields: map<string, Value>)
    ensures EndFields(Json, true, ts, fields) ==
      if NextOnAnyLine(Json, ts).Parsed? && NextOnAnyLine(Json, ts).result.CloseCurly?
      then Parsed(Object(fields, false), NextOnAnyLine(Json, ts).rest) else Rejected
  {
    hide NextOnAnyLine;
  }

  lemma {:induction false} FieldIsWritten(t: Token, ts: seq<Token>, fields: map<string, Value>, parents: Path)
    returns (m: Member)
    requires ParseField(Json, t, ts, fields, parents).Parsed?
    ensures var p := ParseField(Json, t, ts, fields, parents);
      && m.key !in fields && Strict(m.value) && p.result == fields[m.key := ValueOf(m.value)]
      && [t] + OneLine(ts) == WrittenMember(m) + OneLine(p.rest)
    decreases |ts|, 5
  {
    hide NextOnAnyLine, ParseValue, OneLine, Strict, Written, ValueOf;
    NextIsFirst(ts);
    var afterKey := NextOnAnyLine(Json, ts);
    NextIsFirst(afterKey.rest);
    var next := NextOnAnyLine(Json, afterKey.rest);
    var path := parents + [t.value.text];
    JsonFieldValue(afterKey.result, afterKey.rest, path);
    var j := ValueIsWritten(next.result, next.rest, path);
    m := Member(t.value.text, j);
    var rest := OneLine(ParseValue(Json, next.result, next.rest, path).rest);
    assert [t] + ([Colon] + (Written(j) + rest)) == [t, Colon] + Written(j) + rest;
  }

  /** The value of a field: nothing is joined in JSON. */
  lemma JsonFieldValue(afterKey: Token, ts: seq<Token>, path: Path)
    ensures ParseFieldValue(Json, afterKey, ts, path) ==
      if !afterKey.Colon? || NextOnAnyLine(Json, ts).Rejected? then Rejected
      else ParseValue(Json, NextOnAnyLine(Json, ts).result, NextOnAnyLine(Json, ts).rest, path)
  {
    hide NextOnAnyLine, ParseValue;
    assert ConsolidateValues(Json, ts, path) == Parsed(false, ts);
  }

  // ---------------------------------------------------------------- what the grammar writes is accepted

  lemma NextFrom(ts: seq<Token>, t: Token, rest: seq<Token>)
    requires OneLine(ts) == [t] + rest && JsonToken(t)
    ensures var next := NextOnAnyLine(Json, ts); next.Parsed? && next.result == t && OneLine(next.rest) == rest
  {
    hide OneLine, NextOnAnyLine;
    NextIsFirst(ts);
    assert ([t] + rest)[1..] == rest;
  }

  lemma {:induction false} WrittenIsParsed(j: Json, t: Token, ts: seq<Token>, rest: seq<Token>, parents: Path)
    requires Strict(j) && [t] + OneLine(ts) == Written(j) + rest
    ensures var p := ParseValue(Json, t, ts, parents);
      p.Parsed? && p.result == ValueOf(j) && OneLine(p.rest) == rest
    decreases j, 0
  {
    hide OneLine, ParseFields, ParseArray, ValueOf, Strict, ParseItems, Written;
    SplitFirst(t, OneLine(ts), Written(j), rest);
    match j
    case Leaf(v) => LeafIsWritten(v);
    case Array(items) =>
      if items == [] {
        EmptyArray();
        NextFrom(ts, CloseSquare, rest);
        JsonArray(ts, parents);
      } else {
        ArrayWritten(items);
        ArrayStrict(items);
        var more := MoreItems(items[1..]) + [CloseSquare] + rest;
        assert OneLine(ts) == Written(items[0]) + more;
        ValueFrom(items[0], ts, more, parents);
        JsonArray(ts, parents);
        var next := NextOnAnyLine(Json, ts);
        var value := ParseValue(Json, next.result, next.rest, parents);
        ItemsAreParsed(items[1..], value.rest, [ValueOf(items[0])], rest, parents);
        ArrayValue(items);
      }
    case Record(members) =>
      if members == [] {
        NoMembers();
        NextFrom(ts, CloseCurly, rest);
        NoFields(ts, parents);
      } else {
        RecordIs(members);
        assert OneLine(ts) == WrittenMember(members[0]) + MoreMembers(members[1..]) + [CloseCurly] + rest;
        MembersAreParsed(members, ts, map[], false, rest, parents);
      }
  }

  lemma SplitFirst(t: Token, ts: seq<Token>, written: seq<Token>, rest: seq<Token>)
    requires written != [] && [t] + ts == written + rest
    ensures t == written[0] && ts == written[1..] + rest
  {
    assert ([t] + ts)[0] == t && ([t] + ts)[1..] == ts;
    assert (written + rest)[1..] == written[1..] + rest;
  }

  lemma JsonArray(ts: seq<Token>, parents: Path)
    requires NextOnAnyLine(Json, ts).Parsed?
    ensures var next := NextOnAnyLine(Json, ts);
      ParseArray(Json, ts, parents) ==
        if next.result.CloseSquare? then Parsed(List([]), next.rest)
        else
          var value := ParseValue(Json, next.result, next.rest, parents);
          if value.Rejected? then Rejected else ParseItems(Json, value.rest, [value.result], parents)
  {
    hide NextOnAnyLine, ParseValue, ParseItems;
    assert ConsolidateValues(Json, ts, parents) == Parsed(false, ts);
  }

  lemma ArrayValue(items: seq<Json>)
    requires items != []
    ensures ValueOf(Array(items)) == List([ValueOf(items[0])] + ValuesOf(items[1..]))
  {
  }

  lemma NoMembers()
    ensures Written(Record([])) == [OpenCurly, CloseCurly] && ValueOf(Record([])) == Object(map[], false)
  {
  }

  lemma RecordIs(members: seq<Member>)
    requires members != []
    ensures var j := Record(members);
      && Written(j) == [OpenCurly] + (WrittenMember(members[0]) + MoreMembers(members[1..])) + [CloseCurly]
      && ValueOf(j) == Object(WithMembers(map[], members), false)
      && (Strict(j) ==> NewKeys(map[], members) && forall i | 0 <= i < |members| :: Strict(members[i].value))
  {
  }

  /** A value at the front of a stream. */
  lemma {:induction false} ValueFrom(j: Json, ts: seq<Token>, rest: seq<Token>, parents: Path)
    requires Strict(j) && OneLine(ts) == Written(j) + rest
    ensures var next := NextOnAnyLine(Json, ts);
      && next.Parsed? && StartsValue(next.result)
      && var p := ParseValue(Json, next.result, next.rest, parents);
         p.Parsed? && p.result == ValueOf(j) && OneLine(p.rest) == rest
    decreases j, 1
  {
    hide OneLine, NextOnAnyLine, ParseValue, ValueOf, Strict, Written;
    var t := Written(j)[0];
    assert Written(j) + rest == [t] + (Written(j)[1..] + rest);
    NextFrom(ts, t, Written(j)[1..] + rest);
    WrittenIsParsed(j, t, NextOnAnyLine(Json, ts).rest, rest, parents);
  }

  lemma {:induction false} ItemsAreParsed(items: seq<Json>, ts: seq<Token>, done: seq<Value>, rest: seq<Token>,
                                          parents: Path)
    requires (forall i | 0 <= i < |items| :: Strict(items[i]))
    requires OneLine(ts) == MoreItems(items) + [CloseSquare] + rest
    ensures var p := ParseItems(Json, ts, done, parents);
      p.Parsed? && p.result == List(done + ValuesOf(items)) && OneLine(p.rest) == rest
    decreases items, 2
  {
    hide OneLine, NextOnAnyLine, ParseValue, ValueOf, Strict, Written, Separator;
    SeparatorIsComma(ts);
    var separator := Separator(Json, ts);
    if items == [] {
      assert OneLine(ts) == [CloseSquare] + rest && [] + OneLine(separator.rest) == OneLine(separator.rest);
      NextFrom(separator.rest, CloseSquare, rest);
      assert done + [] == done;
    } else {
      var more := Written(items[0]) + (MoreItems(items[1..]) + [CloseSquare] + rest);
      assert OneLine(ts) == [Comma] + more;
      assert ([Comma] + OneLine(separator.rest))[1..] == OneLine(separator.rest) && ([Comma] + more)[1..] == more;
      ValueFrom(items[0], separator.rest, MoreItems(items[1..]) + [CloseSquare] + rest, parents);
      var next := NextOnAnyLine(Json, separator.rest);
      var value := ParseValue(Json, next.result, next.rest, parents);
      ItemsAreParsed(items[1..], value.rest, done + [value.result], rest, parents);
      assert done + [value.result] + ValuesOf(items[1..]) == done + ValuesOf(items);
      assert ConsolidateValues(Json, separator.rest, parents) == Parsed(false, separator.rest);
    }
  }

  lemma {:induction false} MembersAreParsed(members: seq<Member>, ts: seq<Token>, fields: map<string, Value>,
                                            afterComma: bool, rest: seq<Token>, parents: Path)
    requires members != [] && NewKeys(fields, members) && forall i | 0 <= i < |members| :: Strict(members[i].value)
    requires OneLine(ts) == WrittenMember(members[0]) + MoreMembers(members[1..]) + [CloseCurly] + rest
    ensures var p := ParseFields(Json, true, ts, fields, afterComma, parents);
      p.Parsed? && p.result == Object(WithMembers(fields, members), false) && OneLine(p.rest) == rest
    decreases members, 3
  {
    hide OneLine, NextOnAnyLine, ParseField, ParseFields, ValueOf, Strict, Separator, WrittenMember, EndFields;
    var m, more := members[0], members[1..];
    var after := MoreMembers(more) + [CloseCurly] + rest;
    MemberStarts(m);
    var key := Literal(Str(m.key));
    assert OneLine(ts) == [key] + (WrittenMember(m)[1..] + after);
    NextFrom(ts, key, WrittenMember(m)[1..] + after);
    var first := NextOnAnyLine(Json, ts);
    MemberIsParsed(m, first.rest, fields, after, parents);
    OneField(ts, fields, afterComma, parents);
    var field := ParseField(Json, first.result, first.rest, fields, parents);
    SeparatorIsComma(field.rest);
    var separator := Separator(Json, field.rest);
    if more == [] {
      assert after == [CloseCurly] + rest && [] + OneLine(separator.rest) == OneLine(separator.rest);
      NextFrom(separator.rest, CloseCurly, rest);
      FieldsClosed(separator.rest, field.result);
    } else {
      var stream := WrittenMember(more[0]) + MoreMembers(more[1..]) + [CloseCurly] + rest;
      assert after == [Comma] + stream;
      assert ([Comma] + OneLine(separator.rest))[1..] == OneLine(separator.rest) && ([Comma] + stream)[1..] == stream;
      MembersAreParsed(more, separator.rest, field.result, true, rest, parents);
    }
  }

  lemma MemberStarts(m: Member)
    ensures WrittenMember(m) == [Literal(Str(m.key)), Colon] + Written(m.value)
    ensures WrittenMember(m) == [Literal(Str(m.key))] + WrittenMember(m)[1..]
    ensures WrittenMember(m)[1..] == [Colon] + Written(m.value)
  {
  }

  lemma {:induction false} MemberIsParsed(m: Member, ts: seq<Token>, fields: map<string, Value>, rest: seq<Token>,
                                          parents: Path)
    requires m.key !in fields && Strict(m.value) && OneLine(ts) == WrittenMember(m)[1..] + rest
    ensures var p := ParseField(Json, Literal(Str(m.key)), ts, fields, parents);
      p.Parsed? && p.result == fields[m.key := ValueOf(m.value)] && OneLine(p.rest) == rest
    decreases m, 2
  {
    hide OneLine, NextOnAnyLine, ParseValue, ValueOf, Strict, Written, WrittenMember;
    MemberStarts(m);
    assert OneLine(ts) == [Colon] + (Written(m.value) + rest);
    NextFrom(ts, Colon, Written(m.value) + rest);
    var afterKey := NextOnAnyLine(Json, ts);
    var path := parents + [m.key];
    JsonFieldValue(afterKey.result, afterKey.rest, path);
    ValueFrom(m.value, afterKey.rest, rest, path);
  }

  // ---------------------------------------------------------------- documents

  /** A document begins with the stream's start and ends at its first end; comments do not count. */
  predicate IsWritten(j: Json, tokens: seq<Token>) {
    !j.Leaf? && Strict(j) && [Start] + Written(j) + [End] <= OneLine(WithoutComments(tokens))
  }

  /** A stream is accepted as JSON with a value exactly if the grammar writes that value so. */
  lemma JsonExactly(tokens: seq<Token>, v: Value)
    ensures ParseDocument(Json, tokens) == Some(v) <==> exists j :: IsWritten(j, tokens) && ValueOf(j) == v
  {
    hide IsWritten, ParseDocument, ValueOf;
    if ParseDocument(Json, tokens) == Some(v) {
      var j := AcceptedIsWritten(tokens);
    }
    if exists j :: IsWritten(j, tokens) && ValueOf(j) == v {
      var j :| IsWritten(j, tokens) && ValueOf(j) == v;
      WrittenIsAccepted(j, tokens);
    }
  }

  lemma AcceptedIsWritten(tokens: seq<Token>) returns (j: Json)
    requires ParseDocument(Json, tokens).Some?
    ensures IsWritten(j, tokens) && ValueOf(j) == ParseDocument(Json, tokens).value
  {
    hide NextOnAnyLine, ParseValue, OneLine, ValueOf, Strict, Written;
    var ts := WithoutComments(tokens);
    NextIsFirst(ts);
    var start := NextOnAnyLine(Json, ts);
    NextIsFirst(start.rest);
    var first := NextOnAnyLine(Json, start.rest);
    var result := ParseValue(Json, first.result, first.rest, []);
    j := ValueIsWritten(first.result, first.rest, []);
    NextIsFirst(result.rest);
    var last := NextOnAnyLine(Json, result.rest);
    assert OneLine(ts) == [Start] + Written(j) + [End] + OneLine(last.rest);
  }

  lemma WrittenIsAccepted(j: Json, tokens: seq<Token>)
    requires IsWritten(j, tokens)
    ensures ParseDocument(Json, tokens) == Some(ValueOf(j))
  {
    hide NextOnAnyLine, ParseValue, OneLine, ValueOf, Strict;
    var ts := WithoutComments(tokens);
    var whole := [Start] + Written(j) + [End];
    var rest := OneLine(ts)[|whole|..];
    assert OneLine(ts) == whole + rest == [Start] + (Written(j) + ([End] + rest));
    NextFrom(ts, Start, Written(j) + ([End] + rest));
    var start := NextOnAnyLine(Json, ts);
    ValueFrom(j, start.rest, [End] + rest, []);
    var first := NextOnAnyLine(Json, start.rest);
    NextFrom(ParseValue(Json, first.result, first.rest, []).rest, End, rest);
    NextIsFirst(start.rest);
    NoLeaf(j);
    assert first.result == OneLine(start.rest)[0] == Written(j)[0];
  }

  lemma NoLeaf(j: Json)
    requires !j.Leaf?
    ensures Written(j)[0].OpenCurly? || Written(j)[0].OpenSquare?
  {
  }
}
