/** What the tokenizer makes of a text, as functions of the text still to be read.

    Line numbers and error messages are dropped.  The conversion of floating-point numbers is a
    parameter, `Lexing.floating`, because it is a library's; everything else is exact. */
module Tokenization {
  import opened ConfigValues
  import opened Characters

  datatype Token =
    | Start | End | Newline | Comma | EqualsSign | Colon | PlusEquals
    | OpenCurly | CloseCurly | OpenSquare | CloseSquare
    | Comment(text: string)
    | Unquoted(text: string)
    | Literal(value: Value)
    | Substitution(optional: bool, expression: seq<Token>)
    | Problem

  /** `allowComments` is false for JSON; `floating` turns the text of a number with a period or
      an exponent into a value, or rejects it. */
  datatype Lexing = Lexing(allowComments: bool, floating: string -> Option<Value>)

  datatype Scan<+T> = Scanned(result: T, rest: string) | Bad

  predicate Simple(t: Token) {
    t.Substitution? || t.Unquoted? || t.Literal?
  }

  predicate StopsUnquoted(c: char) {
    c in "$\"{}[]:=,+#`^?!@*&\\"
  }

  predicate StartsComment(lex: Lexing, s: string) {
    lex.allowComments && s != [] && (s[0] == '#' || (s[0] == '/' && |s| > 1 && s[1] == '/'))
  }

  // ---------------------------------------------------------------- runs of characters

  /** The length of the longest prefix of blanks. */
  function BlankRun(s: string): (n: nat)
    ensures n <= |s| && (n < |s| ==> !IsBlank(s[n]))
  {
    if s != [] && IsBlank(s[0]) then 1 + BlankRun(s[1..]) else 0
  }

  /** The length of the longest prefix without a newline. */
  function LineRun(s: string): (n: nat)
    ensures n <= |s|
  {
    if s != [] && s[0] != '\n' then 1 + LineRun(s[1..]) else 0
  }

  predicate NumberChar(c: char) {
    IsDigit(c) || c in "eE+-."
  }

  function NumberRun(s: string): (n: nat)
    ensures n <= |s|
  {
    if s != [] && NumberChar(s[0]) then 1 + NumberRun(s[1..]) else 0
  }

  // ---------------------------------------------------------------- unquoted text

  function Keyword(s: string): (r: Option<Value>) {
    if s == "true" then Some(Bool(true))
    else if s == "false" then Some(Bool(false))
    else if s == "null" then Some(Null)
    else None
  }

  predicate EndsUnquoted(lex: Lexing, s: string) {
    s == [] || StopsUnquoted(s[0]) || IsSpace(s[0]) || StartsComment(lex, s)
  }

  /** The loop of `pull_unquoted_text` with `sb` read so far: true, false and null are split off
      as soon as they are complete. */
  function ScanUnquoted(lex: Lexing, s: string, sb: string): (r: (Token, string))
    ensures |r.1| <= |s|
    ensures !EndsUnquoted(lex, s) ==> |r.1| < |s|
    ensures r.0.Unquoted? || r.0.Literal?
  {
    if EndsUnquoted(lex, s) then (Unquoted(sb), s)
    else
      var sb' := sb + [s[0]];
      var keyword := Keyword(sb');
      if keyword.Some? then (Literal(keyword.value), s[1..]) else ScanUnquoted(lex, s[1..], sb')
  }

  /** One turn of the loop. */
  lemma ScanStep(lex: Lexing, s: string, sb: string)
    ensures EndsUnquoted(lex, s) ==> ScanUnquoted(lex, s, sb) == (Unquoted(sb), s)
    ensures !EndsUnquoted(lex, s) && Keyword(sb + [s[0]]).None? ==>
      ScanUnquoted(lex, s, sb) == ScanUnquoted(lex, s[1..], sb + [s[0]])
    ensures !EndsUnquoted(lex, s) && Keyword(sb + [s[0]]).Some? ==>
      ScanUnquoted(lex, s, sb) == (Literal(Keyword(sb + [s[0]]).value), s[1..])
  {
  }

  // ---------------------------------------------------------------- numbers

  function DigitsValue(s: string): (n: Option<nat>)
  {
    if s == [] then Some(0)
    else
      var init := DigitsValue(s[..|s| - 1]);
      var c := s[|s| - 1];
      if init.Some? && IsDigit(c) then Some(10 * init.value + (c as int - '0' as int)) else None
  }

  predicate Int64(n: int) {
    -0x8000_0000_0000_0000 <= n < 0x8000_0000_0000_0000
  }

  /** `boost::lexical_cast<int64_t>`. */
  function ParseInt64(s: string): (r: Option<int>)
    ensures r.Some? ==> Int64(r.value)
  {
    var signed := s != [] && (s[0] == '-' || s[0] == '+');
    var digits := if signed then s[1..] else s;
    var magnitude := DigitsValue(digits);
    if digits == [] || magnitude.None? then None
    else
      var n := if signed && s[0] == '-' then 0 - magnitude.value else magnitude.value;
      if Int64(n) then Some(n) else None
  }

  /** The text asks for a floating-point number. */
  predicate Fractional(text: string) {
    '.' in text || 'e' in text || 'E' in text
  }

  function NumberToken(lex: Lexing, text: string): (r: Option<Token>) {
    if Fractional(text) then
      var v := lex.floating(text);
      if v.Some? then Some(Literal(v.value)) else None
    else
      var n := ParseInt64(text);
      if n.Some? then Some(Literal(Number(n.value, text))) else None
  }

  // ---------------------------------------------------------------- quoted strings

  /** The character after a backslash, and what follows a `u`. */
  function PullEscape(s: string): (r: Scan<char>)
    ensures r.Scanned? ==> |r.rest| < |s|
  {
    if s == [] then Bad
    else if s[0] == '"' || s[0] == '\\' || s[0] == '/' then Scanned(s[0], s[1..])
    else if s[0] == 'b' then Scanned(8 as char, s[1..])
    else if s[0] == 'f' then Scanned(12 as char, s[1..])
    else if s[0] == 'n' then Scanned('\n', s[1..])
    else if s[0] == 'r' then Scanned('\r', s[1..])
    else if s[0] == 't' then Scanned('\t', s[1..])
    else if s[0] == 'u' && |s| >= 5 then Scanned((StrToL(s[1..5]) % 256) as char, s[5..])
    else Bad
  }

  /** The loop of `pull_quoted_string`, after the opening quote. */
  function ScanQuoted(s: string, text: string): (r: Scan<string>)
    ensures r.Scanned? ==> |r.rest| < |s|
    decreases |s|
  {
    if s == [] then Bad
    else if s[0] == '\\' then
      var escaped := PullEscape(s[1..]);
      if escaped.Bad? then Bad else ScanQuoted(escaped.rest, text + [escaped.result])
    else if s[0] == '"' then Scanned(text, s[1..])
    else if IsControl(s[0]) then Bad
    else ScanQuoted(s[1..], text + [s[0]])
  }

  /** The loop of `append_triple_quoted_string`: the last three of a run of quotes end it. */
  function ScanTriple(s: string, text: string, quotes: nat): (r: Scan<string>)
    requires quotes <= |text|
    ensures r.Scanned? ==> |r.rest| <= |s|
  {
    if s != [] && s[0] == '"' then ScanTriple(s[1..], text + ['"'], quotes + 1)
    else if quotes >= 3 then Scanned(text[..|text| - 3], s)
    else if s == [] then Bad
    else ScanTriple(s[1..], text + [s[0]], 0)
  }

  function PullQuoted(s: string): (r: Scan<Token>)
    ensures r.Scanned? ==> |r.rest| < |s| && r.result.Literal?
  {
    var quoted := ScanQuoted(s, "");
    if quoted.Scanned? && quoted.result == "" && quoted.rest != [] && quoted.rest[0] == '"' then
      var triple := ScanTriple(quoted.rest[1..], "", 0);
      if triple.Bad? then Bad else Scanned(Literal(Str(triple.result)), triple.rest)
    else if quoted.Bad? then Bad
    else Scanned(Literal(Str(quoted.result)), quoted.rest)
  }

  // ---------------------------------------------------------------- tokens

  function Punctuation(c: char): (t: Option<Token>) {
    match c
    case ':' => Some(Colon)
    case ',' => Some(Comma)
    case '=' => Some(EqualsSign)
    case '{' => Some(OpenCurly)
    case '}' => Some(CloseCurly)
    case '[' => Some(OpenSquare)
    case ']' => Some(CloseSquare)
    case _ => None
  }

  /** `pull_next_token`: blanks are skipped first. */
  function PullToken(lex: Lexing, s: string): (r: Scan<Token>)
    ensures r.Scanned? ==> |r.rest| <= |s| && (r.result.End? <==> BlankRun(s) == |s|)
    ensures r.Scanned? && !r.result.End? ==> |r.rest| < |s|
    ensures r.Scanned? ==> !r.result.Problem? && !r.result.Start?
    decreases |s|, 1
  {
    PullVisible(lex, s[BlankRun(s)..])
  }

  /** The token at the front of a text that does not start with a blank. */
  function PullVisible(lex: Lexing, s: string): (r: Scan<Token>)
    requires s != [] ==> !IsBlank(s[0])
    ensures r.Scanned? ==> |r.rest| <= |s| && (r.result.End? <==> s == [])
    ensures r.Scanned? && s != [] ==> |r.rest| < |s|
    ensures r.Scanned? ==> !r.result.Problem? && !r.result.Start?
    decreases |s|, 0
  {
    if s == [] then Scanned(End, s)
    else if s[0] == '\n' then Scanned(Newline, s[1..])
    else if StartsComment(lex, s) then
      var body := if s[0] == '/' then s[2..] else s[1..];
      Scanned(Comment(body[..LineRun(body)]), body[LineRun(body)..])
    else if s[0] == '"' then PullQuoted(s[1..])
    else if s[0] == '$' then PullSubstitution(lex, s)
    else if Punctuation(s[0]).Some? then Scanned(Punctuation(s[0]).value, s[1..])
    else if s[0] == '+' then
      if |s| > 1 && s[1] == '=' then Scanned(PlusEquals, s[2..]) else Bad
    else if IsDigit(s[0]) || s[0] == '-' then
      var n := NumberRun(s);
      var t := NumberToken(lex, s[..n]);
      if t.Some? then Scanned(t.value, s[n..]) else Bad
    else if StopsUnquoted(s[0]) then Bad
    else
      var text := ScanUnquoted(lex, s, "");
      Scanned(text.0, text.1)
  }

  function PullSubstitution(lex: Lexing, s: string): (r: Scan<Token>)
    requires s != [] && s[0] == '$'
    ensures r.Scanned? ==> |r.rest| < |s| && r.result.Substitution?
    decreases |s|, 0, 0
  {
    if |s| < 2 || s[1] != '{' then Bad
    else
      var optional := |s| > 2 && s[2] == '?';
      var expression := PullExpression(lex, s[if optional then 3 else 2..], false, []);
      if expression.Bad? then Bad else Scanned(Substitution(optional, expression.result), expression.rest)
  }

  /** The tokens up to the closing brace of a substitution. */
  function PullExpression(lex: Lexing, s: string, afterSimple: bool, expression: seq<Token>): (r: Scan<seq<Token>>)
    ensures r.Scanned? ==> |r.rest| < |s|
    decreases |s|, 2
  {
    var pulled := PullToken(lex, s);
    if pulled.Bad? || pulled.result.End? then Bad
    else if pulled.result.CloseCurly? then Scanned(expression, pulled.rest)
    else
      PullExpression(lex, pulled.rest, Simple(pulled.result),
                     expression + Spacing(s, afterSimple, pulled.result) + [pulled.result])
  }

  /** What the whitespace saver contributes: the blanks between two simple values. */
  function Spacing(s: string, afterSimple: bool, t: Token): (r: seq<Token>)
    ensures |r| <= 1
  {
    if afterSimple && Simple(t) && BlankRun(s) > 0 then [Unquoted(s[..BlankRun(s)])] else []
  }

  /** The tokens of a text up to its end or its first problem. */
  function Tokens(lex: Lexing, s: string, afterSimple: bool): (r: seq<Token>)
    ensures r != []
    decreases |s|
  {
    var pulled := PullToken(lex, s);
    if pulled.Bad? then [Problem]
    else if pulled.result.End? then [End]
    else Spacing(s, afterSimple, pulled.result) + [pulled.result] + Tokens(lex, pulled.rest, Simple(pulled.result))
  }

  /** What the tokenizer delivers for a document. */
  function Tokenized(lex: Lexing, s: string): (r: seq<Token>) {
    [Start] + Tokens(lex, s, false)
  }

  lemma PullNewline(lex: Lexing, s: string)
    requires BlankRun(s) < |s| && s[BlankRun(s)] == '\n'
    ensures PullToken(lex, s) == Scanned(Newline, s[BlankRun(s) + 1..])
  {
    hide BlankRun, PullSubstitution, PullQuoted, ScanUnquoted, NumberToken, StartsComment, Punctuation;
  }

  lemma PullEnd(lex: Lexing, s: string)
    requires BlankRun(s) == |s|
    ensures PullToken(lex, s) == Scanned(End, [])
  {
    hide BlankRun, PullSubstitution, PullQuoted, ScanUnquoted, NumberToken, StartsComment, Punctuation;
  }

  /** One step of the token stream, from what was pulled. */
  lemma TokensFrom(lex: Lexing, s: string, afterSimple: bool, t: Token, rest: string)
    requires PullToken(lex, s) == Scanned(t, rest)
    ensures t.End? ==> Tokens(lex, s, afterSimple) == [End]
    ensures !t.End? ==> Tokens(lex, s, afterSimple) == Spacing(s, afterSimple, t) + [t] + Tokens(lex, rest, Simple(t))
  {
    hide PullToken;
  }
}
