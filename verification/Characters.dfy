/** The C locale's character classes, on 7-bit characters. */
module Characters {

  predicate SevenBit(s: string) {
    forall i | 0 <= i < |s| :: s[i] < 128 as char
  }

  /** `std::isspace`: space, tab, newline, vertical tab, form feed, carriage return. */
  predicate IsSpace(c: char) {
    c == ' ' || '\t' <= c <= '\r'
  }

  /** The whitespace that does not end a line. */
  predicate IsBlank(c: char) {
    IsSpace(c) && c != '\n'
  }

  predicate IsControl(c: char) {
    c < ' ' || c == 127 as char
  }

  predicate IsDigit(c: char) {
    '0' <= c <= '9'
  }

  predicate IsAlpha(c: char) {
    'a' <= c <= 'z' || 'A' <= c <= 'Z'
  }

  /** The value of a hexadecimal digit. */
  function HexValue(c: char): (d: int)
    ensures -1 <= d < 16
  {
    if IsDigit(c) then c as int - '0' as int
    else if 'a' <= c <= 'f' then c as int - 'a' as int + 10
    else if 'A' <= c <= 'F' then c as int - 'A' as int + 10
    else -1
  }

  function HexDigit(d: nat): (c: char)
    requires d < 16
    ensures HexValue(c) == d
  {
    "0123456789abcdef"[d]
  }

  /** The value of the longest run of hexadecimal digits at the front, added to `acc`. */
  function HexRun(s: string, acc: nat): (n: nat) {
    if s != [] && HexValue(s[0]) >= 0 then HexRun(s[1..], 16 * acc + HexValue(s[0])) else acc
  }

  /** `strtol(s, 0, 16)`: blanks, a sign, an optional `0x` and as many digits as there are. */
  function StrToL(s: string): (n: int) {
    if s == [] then 0
    else if IsSpace(s[0]) then StrToL(s[1..])
    else if s[0] == '-' then 0 - Unsigned(s[1..])
    else if s[0] == '+' then Unsigned(s[1..])
    else Unsigned(s)
  }

  function Unsigned(s: string): (n: nat) {
    if |s| >= 3 && s[0] == '0' && (s[1] == 'x' || s[1] == 'X') && HexValue(s[2]) >= 0 then HexRun(s[2..], 0)
    else HexRun(s, 0)
  }

  /** A 7-bit code as four lower-case hexadecimal digits, which read back as that code. */
  function FourHex(n: nat): (s: string)
    requires n < 128
    ensures |s| == 4 && StrToL(s) == n
  {
    var s := ['0', '0', HexDigit(n / 16), HexDigit(n % 16)];
    assert HexRun(s[1..], 0) == HexRun(s[1..][1..], 0);
    assert s[1..][1..] == [s[2], s[3]] && [s[2], s[3]][1..] == [s[3]];
    assert HexRun([s[2], s[3]], 0) == HexRun([s[3]], n / 16);
    assert HexRun([s[3]], n / 16) == HexRun([s[3]][1..], n);
    s
  }
}
