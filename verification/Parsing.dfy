/** The document parser in its two flavours, as functions of the tokens still to be read.

    Comments are dropped from the token stream first, which is all `consolidate_comment_block`
    does to it.  A reference is numbered by the length of the stream at the point where it is
    made.  `include` is not part of this model and is rejected. */
module Parsing {
  import opened ConfigValues
  import opened MergeAlgebra
  import opened Concatenations
  import opened Tokenization
  import opened PathSyntax

  datatype Flavor = Json | Conf

  datatype Parse<+T> = Parsed(result: T, rest: seq<Token>) | Rejected

  // ---------------------------------------------------------------- single tokens

  /** `next_token`: problems are errors, and in JSON so are unquoted text and substitutions. */
  function Next(flavor: Flavor, ts: seq<Token>): (r: Parse<Token>)
    ensures r.Parsed? ==> |r.rest| < |ts|
  {
    if ts == [] || ts[0].Problem? || (flavor.Json? && (ts[0].Unquoted? || ts[0].Substitution?)) then Rejected
    else Parsed(ts[0], ts[1..])
  }

  function NextOnAnyLine(flavor: Flavor, ts: seq<Token>): (r: Parse<Token>)
    ensures r.Parsed? ==> |r.rest| < |ts| && !r.result.Newline? && !r.result.Problem?
  {
    var next := Next(flavor, ts);
    if next.Parsed? && next.result.Newline? then NextOnAnyLine(flavor, next.rest) else next
  }

  /** `check_element_separator`: a comma, or in CONF also newlines. */
  function Separator(flavor: Flavor, ts: seq<Token>): (r: Parse<bool>)
    ensures r.Parsed? ==> |r.rest| <= |ts| && (r.result ==> |r.rest| < |ts|)
  {
    if flavor.Json? then
      var next := NextOnAnyLine(flavor, ts);
      if next.Rejected? then Rejected
      else if next.result.Comma? then Parsed(true, next.rest)
      else Parsed(false, [next.result] + next.rest)
    else SeparatorOnLines(ts, false)
  }

  function SeparatorOnLines(ts: seq<Token>, sawNewline: bool): (r: Parse<bool>)
    ensures r.Parsed? ==> |r.rest| <= |ts| && (r.result && !sawNewline ==> |r.rest| < |ts|)
    decreases |ts|
  {
    var next := Next(Conf, ts);
    if next.Rejected? then Rejected
    else if next.result.Newline? then SeparatorOnLines(next.rest, true)
    else if next.result.Comma? then Parsed(true, next.rest)
    else Parsed(sawNewline, ts)
  }

  // ---------------------------------------------------------------- keys

  /** The value and unquoted-text tokens from `t` on, added to `expression`; the token that ends
      them is put back. */
  function CollectKey(t: Token, ts: seq<Token>, expression: seq<Token>): (r: Parse<seq<Token>>)
    ensures r.Parsed? ==> |r.rest| + |r.result| == |ts| + 1 + |expression|
    decreases |ts|
  {
    if t.Literal? || t.Unquoted? then
      var next := Next(Conf, ts);
      if next.Rejected? then Rejected else CollectKey(next.result, next.rest, expression + [t])
    else Parsed(expression, [t] + ts)
  }

  /** `parse_key`, whose first token has been read already. */
  function ParseKey(flavor: Flavor, t: Token, ts: seq<Token>): (r: Parse<Path>)
    ensures r.Parsed? ==> |r.rest| <= |ts| && r.result != []
  {
    if flavor.Json? then
      if t.Literal? && t.value.Str? then Parsed([t.value.text], ts) else Rejected
    else
      var key := CollectKey(t, ts, []);
      if key.Rejected? || key.result == [] then Rejected
      else
        var path := ParsePathExpression(key.result);
        if path.Some? then Parsed(path.value, key.rest) else Rejected
  }

  /** The keys `create_value_under_path` collects: it stops at an empty one. */
  function KeysBeforeEmpty(p: Path): (r: Path) {
    if p == [] || p[0] == "" then [] else [p[0]] + KeysBeforeEmpty(p[1..])
  }

  function Nested(keys: Path, v: Value): (r: Value) {
    if keys == [] then v else Object(map[keys[0] := Nested(keys[1..], v)], false)
  }

  /** The fields after the setting of `path` to `v`; `None` for a duplicate key in JSON, or when
      there is no key to put the value under. */
  function Store(flavor: Flavor, fields: map<string, Value>, path: Path, v: Value): (r: Option<map<string, Value>>)
    requires path != []
  {
    var key, keys := path[0], KeysBeforeEmpty(path[1..]);
    if |path| > 1 && (flavor.Json? || keys == []) then None
    else
      var added := Nested(if |path| == 1 then [] else keys, v);
      if key !in fields then Some(fields[key := added])
      else if flavor.Json? then None
      else Some(fields[key := WithFallback(added, fields[key])])
  }

  // ---------------------------------------------------------------- values

  predicate StartsValue(t: Token) {
    t.Literal? || t.OpenCurly? || t.OpenSquare?
  }

  /** `parse_value` on a token that has been read; `parents` are the keys on the path stack. */
  function ParseValue(flavor: Flavor, t: Token, ts: seq<Token>, parents: Path): (r: Parse<Value>)
    ensures r.Parsed? ==> |r.rest| <= |ts|
    decreases |ts|, 4
  {
    match t
    case Literal(v) => Parsed(v, ts)
    case OpenCurly => ParseFields(flavor, true, ts, map[], false, parents)
    case OpenSquare => ParseArray(flavor, ts, parents)
    case _ => Rejected
  }

  /** The value of one token in a CONF value; the rest is after it. */
  function ParsePiece(t: Token, ts: seq<Token>, parents: Path): (r: Parse<Value>)
    ensures r.Parsed? ==> |r.rest| <= |ts|
    decreases |ts|, 5
  {
    match t
    case Unquoted(text) => Parsed(Str(text), ts)
    case Substitution(optional, expression) =>
      var path := ParsePathExpression(expression);
      if path.Some? then Parsed(Reference(2 * |ts|, path.value, optional, 0), ts) else Rejected
    case _ => ParseValue(Conf, t, ts, parents)
  }

  /** `consolidate_value_tokens`: the stream with the values in front joined into one value token,
      which stand on one line. */
  function ConsolidateValues(flavor: Flavor, ts: seq<Token>, parents: Path): (r: Parse<bool>)
    ensures r.Parsed? ==> |r.rest| <= |ts|
    decreases |ts|, 1
  {
    if flavor.Json? then Parsed(false, ts)
    else
      var first := NextOnAnyLine(Conf, ts);
      if first.Rejected? then Rejected else ConsolidateFrom([first.result] + first.rest, [], parents)
  }

  function ConsolidateFrom(ts: seq<Token>, values: seq<Value>, parents: Path): (r: Parse<bool>)
    ensures r.Parsed? ==> |r.rest| <= |ts| + if values == [] then 0 else 1
    decreases |ts|, 0
  {
    var next := Next(Conf, ts);
    if next.Rejected? then Rejected
    else if StartsValue(next.result) || next.result.Unquoted? || next.result.Substitution? then
      var piece := ParsePiece(next.result, next.rest, parents);
      if piece.Rejected? then Rejected else ConsolidateFrom(piece.rest, values + [piece.result], parents)
    else if values == [] then Parsed(false, ts)
    else
      var joined := Concatenated(values);
      if joined.Fine? && joined.value.Some? then Parsed(true, [Literal(joined.value.value)] + ts) else Rejected
  }

  predicate SeparatesKey(flavor: Flavor, t: Token) {
    t.Colon? || (flavor.Conf? && (t.EqualsSign? || t.PlusEquals?))
  }

  /** The value of one field, from the token after its key. */
  function ParseFieldValue(flavor: Flavor, afterKey: Token, ts: seq<Token>, path: Path): (r: Parse<Value>)
    ensures r.Parsed? ==> |r.rest| <= |ts|
    decreases |ts|, 5
  {
    if flavor.Conf? && afterKey.OpenCurly? then ParseValue(flavor, afterKey, ts, path)
    else if !SeparatesKey(flavor, afterKey) then Rejected
    else
      var consolidated := ConsolidateValues(flavor, ts, path);
      if consolidated.Rejected? then Rejected
      else
        var next := NextOnAnyLine(flavor, consolidated.rest);
        if next.Rejected? then Rejected
        else
          var value := ParseValue(flavor, next.result, next.rest, path);
          if value.Parsed? && afterKey.PlusEquals? then Extend(value, path) else value
  }

  /** `+=`: the earlier value of the same path, then one more element. */
  function Extend(value: Parse<Value>, path: Path): (r: Parse<Value>)
    requires value.Parsed?
    ensures r.Parsed? ==> r.rest == value.rest
  {
    var previous := Reference(2 * |value.rest| + 1, path, true, 0);
    var joined := Concatenated([previous, List([value.result])]);
    if joined.Fine? && joined.value.Some? then Parsed(joined.value.value, value.rest) else Rejected
  }

  /** The loop of `parse_object`. */
  function ParseFields(flavor: Flavor, hadOpenCurly: bool, ts: seq<Token>, fields: map<string, Value>,
                       afterComma: bool, parents: Path): (r: Parse<Value>)
    ensures r.Parsed? ==> |r.rest| <= |ts|
    decreases |ts|, 3
  {
    var first := NextOnAnyLine(flavor, ts);
    if first.Rejected? then Rejected
    else if first.result.CloseCurly? then
      if (flavor.Json? && afterComma) || !hadOpenCurly then Rejected else Parsed(Object(fields, false), first.rest)
    else if first.result.End? && !hadOpenCurly then Parsed(Object(fields, false), [End] + first.rest)
    else if first.result == Unquoted("include") then Rejected
    else
      var field := ParseField(flavor, first.result, first.rest, fields, parents);
      if field.Rejected? then Rejected
      else
        var separator := Separator(flavor, field.rest);
        if separator.Rejected? then Rejected
        else if separator.result then ParseFields(flavor, hadOpenCurly, separator.rest, field.result, true, parents)
        else EndFields(flavor, hadOpenCurly, separator.rest, field.result)
  }

  /** Key, separator and value, stored. */
  function ParseField(flavor: Flavor, t: Token, ts: seq<Token>, fields: map<string, Value>, parents: Path)
    : (r: Parse<map<string, Value>>)
    ensures r.Parsed? ==> |r.rest| <= |ts|
    decreases |ts|, 5
  {
    var key := ParseKey(flavor, t, ts);
    if key.Rejected? then Rejected
    else
      var afterKey := NextOnAnyLine(flavor, key.rest);
      if afterKey.Rejected? then Rejected
      else
        var value := ParseFieldValue(flavor, afterKey.result, afterKey.rest, parents + key.result);
        if value.Rejected? then Rejected
        else
          var stored := Store(flavor, fields, key.result, value.result);
          if stored.Some? then Parsed(stored.value, value.rest) else Rejected
  }

  /** What may follow the last field. */
  function EndFields(flavor: Flavor, hadOpenCurly: bool, ts: seq<Token>, fields: map<string, Value>): (r: Parse<Value>)
    ensures r.Parsed? ==> |r.rest| <= |ts|
  {
    var next := NextOnAnyLine(flavor, ts);
    if next.Rejected? then Rejected
    else if hadOpenCurly then
      if next.result.CloseCurly? then Parsed(Object(fields, false), next.rest) else Rejected
    else
      if next.result.End? then Parsed(Object(fields, false), [End] + next.rest) else Rejected
  }

  /** `parse_array`, up to its first element. */
  function ParseArray(flavor: Flavor, ts: seq<Token>, parents: Path): (r: Parse<Value>)
    ensures r.Parsed? ==> |r.rest| <= |ts|
    decreases |ts|, 3
  {
    var consolidated := ConsolidateValues(flavor, ts, parents);
    if consolidated.Rejected? then Rejected
    else
      var next := NextOnAnyLine(flavor, consolidated.rest);
      if next.Rejected? then Rejected
      else if next.result.CloseSquare? then Parsed(List([]), next.rest)
      else
        var value := ParseValue(flavor, next.result, next.rest, parents);
        if value.Rejected? then Rejected else ParseItems(flavor, value.rest, [value.result], parents)
  }

  /** The loop of `parse_array`, just after an element. */
  function ParseItems(flavor: Flavor, ts: seq<Token>, items: seq<Value>, parents: Path): (r: Parse<Value>)
    ensures r.Parsed? ==> |r.rest| <= |ts|
    decreases |ts|, 2
  {
    var separator := Separator(flavor, ts);
    if separator.Rejected? then Rejected
    else if !separator.result then
      var next := NextOnAnyLine(flavor, separator.rest);
      if next.Parsed? && next.result.CloseSquare? then Parsed(List(items), next.rest) else Rejected
    else
      var consolidated := ConsolidateValues(flavor, separator.rest, parents);
      if consolidated.Rejected? then Rejected
      else
        var next := NextOnAnyLine(flavor, consolidated.rest);
        if next.Rejected? then Rejected
        else if flavor.Conf? && next.result.CloseSquare? then
          ParseItems(flavor, [CloseSquare] + next.rest, items, parents)
        else
          var value := ParseValue(flavor, next.result, next.rest, parents);
          if value.Rejected? then Rejected else ParseItems(flavor, value.rest, items + [value.result], parents)
  }

  // ---------------------------------------------------------------- documents

  function WithoutComments(ts: seq<Token>): (r: seq<Token>) {
    if ts == [] then []
    else if ts[0].Comment? then WithoutComments(ts[1..])
    else [ts[0]] + WithoutComments(ts[1..])
  }

  /** `ParseContext::parse`. */
  function ParseDocument(flavor: Flavor, tokens: seq<Token>): (r: Option<Value>) {
    var start := NextOnAnyLine(flavor, WithoutComments(tokens));
    if start.Rejected? || !start.result.Start? then None
    else
      var first := NextOnAnyLine(flavor, start.rest);
      if first.Rejected? then None
      else
        var result :=
          if first.result.OpenCurly? || first.result.OpenSquare? then ParseValue(flavor, first.result, first.rest, [])
          else if flavor.Json? then Rejected
          else ParseFields(flavor, false, [first.result] + first.rest, map[], false, []);
        if result.Rejected? then None
        else
          var last := NextOnAnyLine(flavor, result.rest);
          if last.Parsed? && last.result.End? then Some(result.result) else None
  }
}
