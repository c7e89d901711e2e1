/** The document parser as the source runs it: a token iterator with a push-back buffer, a stack
    of the paths being parsed, and loops that fill maps and vectors.

    Every method is proved against its counterpart in `Parsing`; `None` is a parse exception. */
module ParseContexts {
  import opened ConfigValues
  import opened Concatenations
  import opened Tokenization
  import opened PathSyntax
  import opened Parsing

  /** The path of the value being parsed: the innermost path is at the front of the stack. */
  function FullPath(stack: seq<Path>): (p: Path) {
    if stack == [] then [] else FullPath(stack[1..]) + stack[0]
  }

  lemma {:induction false} FullPathAppend(inner: seq<Path>, outer: Path)
    ensures FullPath(inner + [outer]) == outer + FullPath(inner)
  {
    if inner == [] {
      assert inner + [outer] == [outer] && FullPath([outer]) == FullPath([outer][1..]) + outer;
    } else {
      assert (inner + [outer])[1..] == inner[1..] + [outer];
      FullPathAppend(inner[1..], outer);
    }
  }

  class ParseContext {
    const flavor: Flavor
    var tokens: seq<Token>
    var buffer: seq<Token>
    var pathStack: seq<Path>

    constructor (flavor: Flavor, tokens: seq<Token>)
      ensures this.flavor == flavor && Stream() == WithoutComments(tokens) && pathStack == []
    {
      this.flavor, this.tokens, buffer, pathStack := flavor, tokens, [], [];
    }

    /** The tokens still to be read, comments left out. */
    ghost function Stream(): (ts: seq<Token>)
      reads this`tokens, this`buffer
    {
      buffer + WithoutComments(tokens)
    }

    /** `full_current_path`: outer paths are put in front. */
    method FullCurrentPath() returns (full: Path)
      ensures full == FullPath(pathStack)
    {
      full := [];
      var i := 0;
      while i < |pathStack|
        invariant i <= |pathStack| && full == FullPath(pathStack[..i])
      {
        FullPathAppend(pathStack[..i], pathStack[i]);
        assert pathStack[..i] + [pathStack[i]] == pathStack[..i + 1];
        full := pathStack[i] + full;
        i := i + 1;
      }
      assert pathStack[..i] == pathStack;
    }

    /** A comment block gives way to its newlines and the token that concludes it. */
    method ConsolidateCommentBlock()
      requires buffer == []
      modifies this`tokens, this`buffer
      ensures Stream() == old(Stream()) && (buffer == [] ==> tokens == [])
    {
      var newlines: seq<Token> := [];
      while tokens != [] && (tokens[0].Newline? || tokens[0].Comment?)
        invariant newlines + WithoutComments(tokens) == old(Stream())
        decreases |tokens|
      {
        if tokens[0].Newline? {
          newlines := newlines + [tokens[0]];
        }
        tokens := tokens[1..];
      }
      if tokens == [] {
        buffer := newlines;
      } else {
        ghost var after := WithoutComments(tokens[1..]);
        assert newlines + ([tokens[0]] + after) == (newlines + [tokens[0]]) + after;
        buffer := newlines + [tokens[0]];
        tokens := tokens[1..];
      }
    }

    /** The next token of the stream. */
    method PopToken() returns (t: Option<Token>)
      modifies this`tokens, this`buffer
      ensures old(Stream()) == [] ==> t == None && Stream() == []
      ensures old(Stream()) != [] ==> t == Some(old(Stream())[0]) && Stream() == old(Stream())[1..]
    {
      if buffer == [] && tokens != [] && tokens[0].Comment? {
        ConsolidateCommentBlock();
        if buffer == [] {
          return None;
        }
      }
      if buffer != [] {
        t := Some(buffer[0]);
        buffer := buffer[1..];
      } else if tokens == [] {
        t := None;
      } else {
        t := Some(tokens[0]);
        tokens := tokens[1..];
      }
    }

    /** `next_token`. */
    method NextToken() returns (t: Option<Token>)
      modifies this`tokens, this`buffer
      ensures Reads(t, Stream(), Next(flavor, old(Stream())))
    {
      t := PopToken();
      if t == None || t.value.Problem? || (flavor.Json? && (t.value.Unquoted? || t.value.Substitution?)) {
        return None;
      }
    }

    method PutBack(t: Token)
      modifies this`buffer
      ensures Stream() == [t] + old(Stream())
    {
      buffer := [t] + buffer;
    }

    method NextTokenIgnoringNewline() returns (t: Option<Token>)
      modifies this`tokens, this`buffer
      ensures Reads(t, Stream(), NextOnAnyLine(flavor, old(Stream())))
    {
      hide Stream;
      ghost var from := Stream();
      t := NextToken();
      while t != None && t.value.Newline?
        invariant Reads(t, Stream(), Next(flavor, from))
        invariant NextOnAnyLine(flavor, old(Stream())) == NextOnAnyLine(flavor, from)
        decreases |from|
      {
        from := Stream();
        t := NextToken();
      }
    }

    method CheckElementSeparator() returns (separated: Option<bool>)
      modifies this`tokens, this`buffer
      ensures Reads(separated, Stream(), Separator(flavor, old(Stream())))
    {
      hide Stream;
      if flavor.Json? {
        var t := NextTokenIgnoringNewline();
        if t == None {
          return None;
        }
        if t.value.Comma? {
          return Some(true);
        }
        PutBack(t.value);
        return Some(false);
      }
      var saw := false;
      ghost var from := Stream();
      var t := NextToken();
      while true
        invariant Reads(t, Stream(), Next(flavor, from))
        invariant SeparatorOnLines(old(Stream()), false) == SeparatorOnLines(from, saw)
        decreases |from|
      {
        if t == None {
          return None;
        }
        if t.value.Newline? {
          saw := true;
        } else if t.value.Comma? {
          return Some(true);
        } else {
          PutBack(t.value);
          return Some(saw);
        }
        from := Stream();
        t := NextToken();
      }
    }

    /** `parse_key`, on a token that has been read. */
    method ParseKeyPath(token: Token) returns (path: Option<Path>)
      modifies this`tokens, this`buffer
      ensures Reads(path, Stream(), ParseKey(flavor, token, old(Stream())))
    {
      hide Stream;
      if flavor.Json? {
        return if token.Literal? && token.value.Str? then Some([token.value.text]) else None;
      }
      var expression: seq<Token> := [];
      var t := token;
      while t.Literal? || t.Unquoted?
        invariant CollectKey(token, old(Stream()), []) == CollectKey(t, Stream(), expression)
        decreases |Stream()|
      {
        expression := expression + [t];
        var next := NextToken();
        if next == None {
          return None;
        }
        t := next.value;
      }
      if expression == [] {
        return None;
      }
      PutBack(t);
      path := ParsePathTokens(expression);
    }

    /** `parse_value`, on a token that has been read. */
    method ParseValueToken(t: Token) returns (v: Option<Value>)
      modifies this
      ensures pathStack == old(pathStack) || v == None
      ensures Reads(v, Stream(), ParseValue(flavor, t, old(Stream()), FullPath(old(pathStack))))
      decreases |Stream()|, 4
    {
      hide Stream, FullPath;
      match t
      case Literal(value) => v := Some(value);
      case OpenCurly => v := ParseObject(true);
      case OpenSquare => v := ParseArrayItems();
      case _ => v := None;
    }

    /** `consolidate_value_tokens`: joined values are put back as one token. */
    method ConsolidateValueTokens() returns (ok: bool)
      modifies this
      ensures ok ==> pathStack == old(pathStack)
      ensures var spec := ConsolidateValues(flavor, old(Stream()), FullPath(old(pathStack)));
        ok == spec.Parsed? && (ok ==> Stream() == spec.rest)
      decreases |Stream()|, 1
    {
      hide Stream, FullPath, ParsePiece, Concatenated, NextOnAnyLine;
      if flavor.Json? {
        return true;
      }
      var values: seq<Value> := [];
      var t := NextTokenIgnoringNewline();
      ghost var parents := FullPath(pathStack);
      if t == None {
        return false;
      }
      while true
        invariant t.Some? && pathStack == old(pathStack) && |Stream()| < old(|Stream()|)
        invariant !t.value.Problem?
        invariant ConsolidateValues(flavor, old(Stream()), parents)
          == ConsolidateFrom([t.value] + Stream(), values, parents)
        decreases |Stream()|
      {
        ghost var here := [t.value] + Stream();
        assert Next(Conf, here) == Parsed(t.value, Stream());
        if !(StartsValue(t.value) || t.value.Unquoted? || t.value.Substitution?) {
          break;
        }
        var v := ParsePieceToken(t.value);
        if v == None {
          return false;
        }
        values := values + [v.value];
        ghost var rest := Stream();
        t := NextToken();
        if t == None {
          return false;
        }
        assert [t.value] + Stream() == rest;
      }
      PutBack(t.value);
      if values == [] {
        return true;
      }
      var consolidated := Concatenate(values);
      if consolidated.Refused? || consolidated.value.None? {
        return false;
      }
      PutBack(Literal(consolidated.value.value));
      return true;
    }

    method ParsePieceToken(t: Token) returns (v: Option<Value>)
      requires flavor.Conf?
      modifies this
      ensures pathStack == old(pathStack) || v == None
      ensures Reads(v, Stream(), ParsePiece(t, old(Stream()), FullPath(old(pathStack))))
      decreases |Stream()|, 5
    {
      hide FullPath;
      match t
      case Unquoted(text) => v := Some(Str(text));
      case Substitution(optional, expression) =>
        var path := ParsePathTokens(expression);
        if path == None {
          return None;
        }
        v := Some(Reference(2 * (|buffer| + |WithoutComments(tokens)|), path.value, optional, 0));
      case _ => v := ParseValueToken(t);
    }

    /** The value of a field, from the token after its key; the path is on the stack. */
    method ParseFieldValueTokens(afterKey: Token) returns (v: Option<Value>)
      modifies this
      ensures pathStack == old(pathStack) || v == None
      ensures Reads(v, Stream(), ParseFieldValue(flavor, afterKey, old(Stream()), FullPath(old(pathStack))))
      decreases |Stream()|, 5
    {
      hide Stream, FullPath, ParseValue, ConsolidateValues, NextOnAnyLine, Extend;
      if flavor.Conf? && afterKey.OpenCurly? {
        v := ParseValueToken(afterKey);
        return;
      }
      if !SeparatesKey(flavor, afterKey) {
        return None;
      }
      var ok := ConsolidateValueTokens();
      if !ok {
        return None;
      }
      var t := NextTokenIgnoringNewline();
      if t == None {
        return None;
      }
      v := ParseValueToken(t.value);
      if v == None {
        return None;
      }
      if afterKey.PlusEquals? {
        v := ExtendValue(v.value);
      }
    }

    /** `+=`: the optional earlier value of the current path, then one more element. */
    method ExtendValue(v: Value) returns (r: Option<Value>)
      ensures Reads(r, Stream(), Extend(Parsed(v, Stream()), FullPath(pathStack)))
    {
      hide Concatenated, FullPath;
      var full := FullCurrentPath();
      var previous := Reference(2 * (|buffer| + |WithoutComments(tokens)|) + 1, full, true, 0);
      var concat := Concatenate([previous, List([v])]);
      r := if concat.Refused? then None else concat.value;
    }

    /** One turn of the loop of `parse_object`: key, separator, value, and the updated map. */
    method ParseFieldInto(t: Token, values: map<string, Value>) returns (stored: Option<map<string, Value>>)
      modifies this
      ensures pathStack == old(pathStack) || stored == None
      ensures Reads(stored, Stream(), ParseField(flavor, t, old(Stream()), values, FullPath(old(pathStack))))
      decreases |Stream()|, 6
    {
      hide Stream, ParseFieldValue, ParseKey, NextOnAnyLine;
      var path := ParseKeyPath(t);
      if path == None {
        return None;
      }
      var afterKey := NextTokenIgnoringNewline();
      if afterKey == None {
        return None;
      }
      pathStack := [path.value] + pathStack;
      assert FullPath(pathStack) == FullPath(old(pathStack)) + path.value;
      var v := ParseFieldValueTokens(afterKey.value);
      if v == None {
        return None;
      }
      pathStack := pathStack[1..];
      stored := Store(flavor, values, path.value, v.value);
    }

    /** `parse_object`. */
    method ParseObject(hadOpenCurly: bool) returns (o: Option<Value>)
      modifies this
      ensures pathStack == old(pathStack) || o == None
      ensures Reads(o, Stream(), ParseFields(flavor, hadOpenCurly, old(Stream()), map[], false,
                               FullPath(old(pathStack))))
      decreases |Stream()|, 3
    {
      hide Stream, FullPath, ParseField, NextOnAnyLine, Separator;
      var values: map<string, Value> := map[];
      var afterComma := false;
      ghost var parents := FullPath(pathStack);
      while true
        invariant pathStack == old(pathStack) && |Stream()| <= old(|Stream()|)
        invariant ParseFields(flavor, hadOpenCurly, old(Stream()), map[], false, parents)
          == ParseFields(flavor, hadOpenCurly, Stream(), values, afterComma, parents)
        decreases |Stream()|
      {
        var t := NextTokenIgnoringNewline();
        if t == None {
          return None;
        }
        if t.value.CloseCurly? {
          return if (flavor.Json? && afterComma) || !hadOpenCurly then None else Some(Object(values, false));
        }
        if t.value.End? && !hadOpenCurly {
          PutBack(t.value);
          return Some(Object(values, false));
        }
        if t.value == Unquoted("include") {
          return None;
        }
        var stored := ParseFieldInto(t.value, values);
        if stored == None {
          return None;
        }
        values := stored.value;
        var separated := CheckElementSeparator();
        if separated == None {
          return None;
        }
        afterComma := true;
        if !separated.value {
          o := EndObject(hadOpenCurly, values);
          return;
        }
      }
    }

    /** After the last field: the closing brace, or the end of the document. */
    method EndObject(hadOpenCurly: bool, values: map<string, Value>) returns (o: Option<Value>)
      modifies this`tokens, this`buffer
      ensures Reads(o, Stream(), EndFields(flavor, hadOpenCurly, old(Stream()), values))
    {
      hide Stream, NextOnAnyLine;
      var t := NextTokenIgnoringNewline();
      if t == None {
        return None;
      }
      if hadOpenCurly {
        return if t.value.CloseCurly? then Some(Object(values, false)) else None;
      }
      if !t.value.End? {
        return None;
      }
      PutBack(t.value);
      return Some(Object(values, false));
    }

    /** `parse_array`, up to its first element. */
    method ParseArrayItems() returns (list: Option<Value>)
      modifies this
      ensures pathStack == old(pathStack) || list == None
      ensures Reads(list, Stream(), ParseArray(flavor, old(Stream()), FullPath(old(pathStack))))
      decreases |Stream()|, 3
    {
      hide Stream, FullPath, ParseValue, NextOnAnyLine, ConsolidateValues, ParseItems;
      var ok := ConsolidateValueTokens();
      if !ok {
        return None;
      }
      var t := NextTokenIgnoringNewline();
      if t == None {
        return None;
      }
      if t.value.CloseSquare? {
        return Some(List([]));
      }
      var first := ParseValueToken(t.value);
      if first == None {
        return None;
      }
      list := ParseMoreItems(first.value);
    }

    /** The loop of `parse_array`, just after an element. */
    method ParseMoreItems(first: Value) returns (list: Option<Value>)
      modifies this
      ensures pathStack == old(pathStack) || list == None
      ensures Reads(list, Stream(), ParseItems(flavor, old(Stream()), [first], FullPath(old(pathStack))))
      decreases |Stream()|, 2
    {
      hide Stream, FullPath, ParseValue, NextOnAnyLine, ConsolidateValues, Separator;
      var values := [first];
      ghost var parents := FullPath(pathStack);
      while true
        invariant pathStack == old(pathStack) && |Stream()| <= old(|Stream()|)
        invariant ParseItems(flavor, old(Stream()), [first], parents) == ParseItems(flavor, Stream(), values, parents)
        decreases |Stream()|
      {
        var separated := CheckElementSeparator();
        if separated == None {
          return None;
        }
        if !separated.value {
          var last := NextTokenIgnoringNewline();
          return if last != None && last.value.CloseSquare? then Some(List(values)) else None;
        }
        var ok := ConsolidateValueTokens();
        if !ok {
          return None;
        }
        var t := NextTokenIgnoringNewline();
        if t == None {
          return None;
        }
        if flavor.Conf? && t.value.CloseSquare? {
          PutBack(t.value);
        } else {
          var v := ParseValueToken(t.value);
          if v == None {
            return None;
          }
          values := values + [v.value];
        }
      }
    }
  }

  /** `ParseContext::parse` on a fresh context. */
  method ParseTokens(flavor: Flavor, tokens: seq<Token>) returns (result: Option<Value>)
    ensures result == ParseDocument(flavor, tokens)
  {
    var context := new ParseContext(flavor, tokens);
    hide ParseContext.Stream, ParseValue, ParseFields, NextOnAnyLine;
    var t := context.NextTokenIgnoringNewline();
    if t == None || !t.value.Start? {
      return None;
    }
    t := context.NextTokenIgnoringNewline();
    if t == None {
      return None;
    }
    if t.value.OpenCurly? || t.value.OpenSquare? {
      result := context.ParseValueToken(t.value);
    } else if flavor.Json? {
      return None;
    } else {
      context.PutBack(t.value);
      result := context.ParseObject(false);
    }
    if result == None {
      return None;
    }
    t := context.NextTokenIgnoringNewline();
    if t == None || !t.value.End? {
      return None;
    }
  }

  /** What a method that reads tokens returns and leaves. */
  ghost predicate Reads<T>(r: Option<T>, rest: seq<Token>, spec: Parse<T>) {
    if spec.Rejected? then r == None else r == Some(spec.result) && rest == spec.rest
  }
}
