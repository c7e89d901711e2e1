/** Base64 as in section 4 of RFC 4648, with the loops and carry buffers of the source. */
module Base64 {

  /** An `unsigned char`; the masks and shifts of the source are written as division and remainder,
      which the module `Base64Masks` relates to them. */
  type Byte = x: int | 0 <= x < 256

  const ALPHABET := "ABCDEFGHIJKLMNOPQRSTUVWXYZ" + "abcdefghijklmnopqrstuvwxyz" + "0123456789+/"

  /** `std::string::npos` stored in an `unsigned char`. */
  const NOT_FOUND: Byte := 255

  function Sextet(i: int): (c: char)
    requires 0 <= i < 64
  {
    if i < 26 then 'A' + i as char
    else if i < 52 then 'a' + (i - 26) as char
    else if i < 62 then '0' + (i - 52) as char
    else if i == 62 then '+' else '/'
  }

  /** `base64_chars.find(c)`, truncated to an `unsigned char`. */
  function Find(c: char): (i: Byte)
    ensures i < 64 ==> Sextet(i) == c
    ensures i < 64 || i == NOT_FOUND
  {
    if 'A' <= c <= 'Z' then c as int - 'A' as int
    else if 'a' <= c <= 'z' then c as int - 'a' as int + 26
    else if '0' <= c <= '9' then c as int - '0' as int + 52
    else if c == '+' then 62
    else if c == '/' then 63
    else NOT_FOUND
  }

  predicate IsBase64(c: char) {
    'A' <= c <= 'Z' || 'a' <= c <= 'z' || '0' <= c <= '9' || c == '+' || c == '/'
  }

  /** The alphabet of the source, character by character. */
  lemma AlphabetIsSextet(i: int)
    requires 0 <= i < 64
    ensures |ALPHABET| == 64 && ALPHABET[i] == Sextet(i) && Find(ALPHABET[i]) == i
  {
    var upper, lower, rest := "ABCDEFGHIJKLMNOPQRSTUVWXYZ", "abcdefghijklmnopqrstuvwxyz", "0123456789+/";
    assert |upper| == 26 && |lower| == 26 && |rest| == 12;
    if i < 26 {
      assert ALPHABET[i] == upper[i];
    } else if i < 52 {
      assert ALPHABET[i] == lower[i - 26];
    } else {
      assert ALPHABET[i] == rest[i - 52];
    }
  }

  // ---------------------------------------------------------------- groups

  /** The four sextets of three bytes. */
  function Split(a: Byte, b: Byte, c: Byte): (r: seq<int>)
    ensures |r| == 4 && forall i | 0 <= i < 4 :: 0 <= r[i] < 64
  {
    [a / 4, a % 4 * 16 + b / 16, b % 16 * 4 + c / 64, c % 64]
  }

  /** The three bytes of four stored indices, each computed modulo 256. */
  function Merge(p: Byte, q: Byte, r: Byte, s: Byte): (bytes: seq<Byte>)
    ensures |bytes| == 3
  {
    [(p * 4 + q / 16 % 4) % 256, (q % 16 * 16 + r / 4 % 16) % 256, (r % 4 * 64 + s) % 256]
  }

  lemma SplitIsTheGroup(a: Byte, b: Byte, c: Byte)
    ensures var g := Split(a, b, c);
      g[0] * 262144 + g[1] * 4096 + g[2] * 64 + g[3] == a * 65536 + b * 256 + c
  {
  }

  function Text(sextets: seq<int>): (s: string)
    requires forall i | 0 <= i < |sextets| :: 0 <= sextets[i] < 64
    ensures |s| == |sextets| && forall i | 0 <= i < |s| :: s[i] == Sextet(sextets[i])
  {
    if sextets == [] then "" else [Sextet(sextets[0])] + Text(sextets[1..])
  }

  /** The last group of one or two bytes, padded with zero bits and `=`. */
  function Padded(rest: seq<Byte>): (s: string)
    requires 1 <= |rest| <= 2
  {
    if |rest| == 1 then Text(Split(rest[0], 0, 0)[..2]) + "==" else Text(Split(rest[0], rest[1], 0)[..3]) + "="
  }

  function Encoded(bytes: seq<Byte>): (s: string)
  {
    if bytes == [] then ""
    else if |bytes| < 3 then Padded(bytes)
    else Text(Split(bytes[0], bytes[1], bytes[2])) + Encoded(bytes[3..])
  }

  /** How many leading characters belong to the alphabet. */
  function AlphabetPrefix(s: string): (n: nat)
    ensures n <= |s| && (forall i | 0 <= i < n :: IsBase64(s[i])) && (n < |s| ==> !IsBase64(s[n]))
  {
    if s == "" || !IsBase64(s[0]) then 0 else 1 + AlphabetPrefix(s[1..])
  }

  /** Decoding characters of the alphabet: whole groups, then a tail whose missing characters are
      looked up as the not-found index. */
  function DecodedChars(s: string): (bytes: seq<Byte>)
  {
    if |s| >= 4 then Merge(Find(s[0]), Find(s[1]), Find(s[2]), Find(s[3])) + DecodedChars(s[4..])
    else if |s| >= 1 then
      Merge(Find(s[0]), FindAt(s, 1), FindAt(s, 2), FindAt(s, 3))[..|s| - 1]
    else []
  }

  function FindAt(s: string, i: nat): (r: Byte) {
    if i < |s| then Find(s[i]) else NOT_FOUND
  }

  function Decoded(s: string): (bytes: seq<Byte>) {
    DecodedChars(s[..AlphabetPrefix(s)])
  }

  // ---------------------------------------------------------------- the loops of the source

  lemma {:induction false} EncodedAppend(front: seq<Byte>, rest: seq<Byte>)
    requires |front| % 3 == 0
    ensures Encoded(front + rest) == Encoded(front) + Encoded(rest)
    decreases |front|
  {
    if front == [] {
      assert front + rest == rest;
    } else {
      assert (front + rest)[3..] == front[3..] + rest;
      EncodedAppend(front[3..], rest);
    }
  }

  /** `base64_encode`. */
  method Encode(bytes: seq<Byte>) returns (dst: string)
    requires |bytes| < 0x1_0000_0000
    ensures dst == Encoded(bytes)
  {
    hide Split, Text, Padded;
    dst := "";
    var i := 0;
    var charArray3 := new Byte[3](_ => 0);
    ghost var groups: nat := 0;
    for n := 0 to |bytes|
      invariant 0 <= i < 3 && n == 3 * groups + i
      invariant forall k | 0 <= k < i :: charArray3[k] == bytes[n - i + k]
      invariant dst == Encoded(bytes[..n - i])
    {
      charArray3[i] := bytes[n];
      i := i + 1;
      if i == 3 {
        var charArray4 := Split(charArray3[0], charArray3[1], charArray3[2]);
        var group := Characters(charArray4, 4);
        EncodedGroup(bytes[..n + 1]);
        assert bytes[..n + 1][..n - 2] == bytes[..n - 2];
        assert charArray3[0] == bytes[n - 2] && charArray3[1] == bytes[n - 1];
        dst := dst + group;
        i := 0;
        groups := groups + 1;
      }
    }
    ghost var front, rest := bytes[..|bytes| - i], bytes[|bytes| - i..];
    assert bytes == front + rest;
    EncodedAppend(front, rest);
    if i != 0 {
      assert charArray3[..i] == rest;
      var tail := EncodeTail(charArray3, i);
      dst := dst + tail;
    }
  }

  /** The encoding of whole groups grows by the characters of the last group. */
  lemma EncodedGroup(bytes: seq<Byte>)
    requires |bytes| >= 3 && |bytes| % 3 == 0
    ensures var n := |bytes|;
      var g := Split(bytes[n - 3], bytes[n - 2], bytes[n - 1]);
      Encoded(bytes) == Encoded(bytes[..n - 3]) + Text(g[..4])
  {
    hide Split, Text, Padded;
    var front, three := bytes[..|bytes| - 3], bytes[|bytes| - 3..];
    assert bytes == front + three;
    EncodedAppend(front, three);
    EncodedThree(three);
    var g := Split(three[0], three[1], three[2]);
    assert g[..4] == g;
  }

  lemma EncodedThree(three: seq<Byte>)
    requires |three| == 3
    ensures Encoded(three) == Text(Split(three[0], three[1], three[2]))
  {
    hide Split, Text, Padded;
    assert three[3..] == [];
    assert Encoded(three) == Text(Split(three[0], three[1], three[2])) + Encoded([]);
  }

  /** The inner loop: the characters of the first `count` sextets. */
  method Characters(charArray4: seq<int>, count: nat) returns (s: string)
    requires count <= |charArray4| && forall i | 0 <= i < |charArray4| :: 0 <= charArray4[i] < 64
    ensures s == Text(charArray4[..count])
  {
    s := "";
    for j := 0 to count
      invariant s == Text(charArray4[..j])
    {
      AlphabetIsSextet(charArray4[j]);
      TextAppend(charArray4[..j], charArray4[j]);
      assert charArray4[..j + 1] == charArray4[..j] + [charArray4[j]];
      s := s + [ALPHABET[charArray4[j]]];
    }
  }

  /** The bytes left in the buffer: filled up with zeros, and the padding added. */
  method EncodeTail(charArray3: array<Byte>, i: nat) returns (s: string)
    requires charArray3.Length == 3 && 1 <= i <= 2
    modifies charArray3
    ensures s == Padded(old(charArray3[..i]))
  {
    for j := i to 3
      invariant charArray3[..i] == old(charArray3[..i])
      invariant forall k | i <= k < j :: charArray3[k] == 0
    {
      charArray3[j] := 0;
    }
    s := Characters(Split(charArray3[0], charArray3[1], charArray3[2]), i + 1);
    ghost var rest := old(charArray3[..i]);
    assert charArray3[..i] == rest && charArray3[2] == 0;
    assert charArray3[0] == rest[0] && charArray3[1] == (if i == 1 then 0 else rest[1]);
    ghost var before := s;
    assert Padded(rest) == before + (if i == 1 then "==" else "=");
    var k := i;
    while k < 3
      invariant i <= k <= 3
      invariant s == before + (if k - i == 0 then "" else if k - i == 1 then "=" else "==")
    {
      s := s + "=";
      k := k + 1;
    }
  }

  lemma {:induction false} TextAppend(sextets: seq<int>, x: int)
    requires 0 <= x < 64 && forall i | 0 <= i < |sextets| :: 0 <= sextets[i] < 64
    ensures Text(sextets + [x]) == Text(sextets) + [Sextet(x)]
  {
  }

  lemma {:induction false} DecodedAppend(front: string, rest: string)
    requires |front| % 4 == 0
    ensures DecodedChars(front + rest) == DecodedChars(front) + DecodedChars(rest)
    decreases |front|
  {
    if front == [] {
      assert front + rest == rest;
    } else {
      assert (front + rest)[4..] == front[4..] + rest;
      DecodedAppend(front[4..], rest);
    }
  }

  /** `base64_decode`; its length counter is an `int`. */
  method Decode(encoded: string) returns (ret: seq<Byte>)
    requires |encoded| < 0x8000_0000
    ensures ret == Decoded(encoded)
  {
    hide Merge, Find, DecodedChars, AlphabetPrefix;
    ret := [];
    var i := 0;
    var charArray4 := new char[4](_ => '\0');
    var n := 0;
    ghost var groups: nat := 0;
    NothingDecoded();
    while n < |encoded| && encoded[n] != '=' && IsBase64(encoded[n])
      invariant 0 <= n <= |encoded| && forall k | 0 <= k < n :: IsBase64(encoded[k])
      invariant 0 <= i < 4 && n == 4 * groups + i
      invariant forall k | 0 <= k < i :: charArray4[k] == encoded[n - i + k]
      invariant ret == DecodedChars(encoded[..n - i])
    {
      charArray4[i] := encoded[n];
      i := i + 1;
      n := n + 1;
      if i == 4 {
        DecodedGroup(encoded[..n]);
        assert encoded[..n][..n - 4] == encoded[..n - 4];
        assert forall k | 0 <= k < 4 :: charArray4[k] == encoded[..n][n - 4 + k];
        ret := ret + Merge(Find(charArray4[0]), Find(charArray4[1]), Find(charArray4[2]), Find(charArray4[3]));
        i := 0;
        groups := groups + 1;
      }
    }
    PrefixIs(encoded, n);
    ghost var front, rest := encoded[..n - i], encoded[n - i..n];
    assert encoded[..n] == front + rest;
    DecodedAppend(front, rest);
    if i != 0 {
      assert charArray4[..i] == rest;
      var tail := DecodeTail(charArray4, i);
      ret := ret + tail;
    }
  }

  lemma NothingDecoded()
    ensures DecodedChars("") == []
  {
  }

  lemma DecodedGroup(s: string)
    requires |s| >= 4 && |s| % 4 == 0
    ensures var n := |s|;
      DecodedChars(s) == DecodedChars(s[..n - 4]) +
        Merge(Find(s[n - 4]), Find(s[n - 3]), Find(s[n - 2]), Find(s[n - 1]))
  {
    var front, four := s[..|s| - 4], s[|s| - 4..];
    assert s == front + four;
    DecodedAppend(front, four);
    assert four[4..] == [];
    assert DecodedChars(four) == Merge(Find(four[0]), Find(four[1]), Find(four[2]), Find(four[3])) + DecodedChars([]);
  }

  /** The characters left in the buffer: the unused slots are zeroed and looked up like the rest. */
  method DecodeTail(charArray4: array<char>, i: nat) returns (bytes: seq<Byte>)
    requires charArray4.Length == 4 && 1 <= i <= 3
    modifies charArray4
    ensures bytes == DecodedChars(old(charArray4[..i]))
  {
    ghost var rest := charArray4[..i];
    for j := i to 4
      invariant charArray4[..i] == rest
      invariant forall k | i <= k < j :: charArray4[k] == '\0'
    {
      charArray4[j] := '\0';
    }
    assert forall k | 0 <= k < i :: rest[k] == charArray4[..i][k];
    assert forall k | 0 <= k < 4 :: Find(charArray4[k]) == FindAt(rest, k);
    bytes := Merge(Find(charArray4[0]), Find(charArray4[1]), Find(charArray4[2]), Find(charArray4[3]))[..i - 1];
  }

  lemma {:induction false} PrefixIs(s: string, n: nat)
    requires n <= |s| && (forall k | 0 <= k < n :: IsBase64(s[k])) && (n == |s| || !IsBase64(s[n]))
    ensures AlphabetPrefix(s) == n
    decreases n
  {
    if n > 0 {
      PrefixIs(s[1..], n - 1);
    }
  }

  // ---------------------------------------------------------------- round trip

  /** The encoding is four characters for every group of three bytes, a partial group included. */
  lemma {:induction false} EncodedLength(bytes: seq<Byte>)
    ensures |Encoded(bytes)| == 4 * ((|bytes| + 2) / 3)
    decreases |bytes|
  {
    if |bytes| >= 3 {
      EncodedLength(bytes[3..]);
    }
  }

  /** The table of RFC 4648. */
  const STANDARD := "ABCDEFGHIJKLMNOPQRSTUVWXYZ" + "abcdefghijklmnopqrstuvwxyz" + "0123456789" + "+/"

  /** Three bytes from position `j` on as one number of 24 bits, zeros beyond the end. */
  function BitGroup(bytes: seq<Byte>, j: nat): (g: nat) {
    ByteAt(bytes, j) * 0x1_0000 + ByteAt(bytes, j + 1) * 0x100 + ByteAt(bytes, j + 2)
  }

  function ByteAt(bytes: seq<Byte>, j: nat): (b: Byte) {
    if j < |bytes| then bytes[j] else 0
  }

  /** The `d`-th six bits of 24. */
  function Digit(g: nat, d: nat): (r: nat)
    requires d < 4
    ensures r < 64
    decreases 4 - d
  {
    if d == 3 then g % 64 else Digit(g / 64, d + 1)
  }

  /** Every character of an encoding: six bits of the input as the digit of the standard, and `=` where
      a group lacks the bytes for it. */
  lemma {:induction false} EncodedIsStandard(bytes: seq<Byte>, i: nat)
    requires i < 4 * ((|bytes| + 2) / 3)
    ensures |Encoded(bytes)| == 4 * ((|bytes| + 2) / 3) && |STANDARD| == 64
    ensures var j, d := i / 4 * 3, i % 4;
      Encoded(bytes)[i] == if j + d > |bytes| then '=' else STANDARD[Digit(BitGroup(bytes, j), d)]
    decreases |bytes|
  {
    hide Text, Split, Sextet, Digit, BitGroup;
    EncodedLength(bytes);
    StandardIsSextet(0);
    if |bytes| >= 3 && i >= 4 {
      EncodedIsStandard(bytes[3..], i - 4);
      SameGroup(bytes, i / 4 * 3);
    } else {
      FirstGroup(bytes, i);
    }
  }

  lemma FirstGroup(bytes: seq<Byte>, d: nat)
    requires bytes != [] && d < 4
    ensures |Encoded(bytes)| > d && |STANDARD| == 64
    ensures Encoded(bytes)[d] == if d > |bytes| then '=' else STANDARD[Digit(BitGroup(bytes, 0), d)]
  {
    hide Text, Split, Sextet, Digit;
    var a, b, c := ByteAt(bytes, 0), ByteAt(bytes, 1), ByteAt(bytes, 2);
    var g := Split(a, b, c);
    SplitDigit(a, b, c, d);
    StandardIsSextet(g[d]);
    if |bytes| == 1 {
      assert Encoded(bytes) == Text(g[..2]) + "==";
    } else if |bytes| == 2 {
      assert Encoded(bytes) == Text(g[..3]) + "=";
    } else {
      assert Encoded(bytes) == Text(g) + Encoded(bytes[3..]);
    }
  }

  lemma SameGroup(bytes: seq<Byte>, j: nat)
    requires 3 <= j && |bytes| >= 3
    ensures BitGroup(bytes[3..], j - 3) == BitGroup(bytes, j)
  {
  }

  lemma StandardIsSextet(i: int)
    requires 0 <= i < 64
    ensures |STANDARD| == 64 && STANDARD[i] == Sextet(i)
  {
    var upper, lower, digits, others := "ABCDEFGHIJKLMNOPQRSTUVWXYZ", "abcdefghijklmnopqrstuvwxyz", "0123456789", "+/";
    assert |upper| == 26 && |lower| == 26 && |digits| == 10;
    if i < 26 {
      assert STANDARD[i] == upper[i];
    } else if i < 52 {
      assert STANDARD[i] == lower[i - 26];
    } else if i < 62 {
      assert STANDARD[i] == digits[i - 52];
    } else {
      assert STANDARD[i] == others[i - 62];
    }
  }

  /** The sextets are the 24-bit group read six bits at a time. */
  lemma SplitDigit(a: Byte, b: Byte, c: Byte, d: nat)
    requires d < 4
    ensures Split(a, b, c)[d] == Digit(a * 0x1_0000 + b * 0x100 + c, d)
  {
    hide Digit;
    var g := Split(a, b, c);
    SplitIsTheGroup(a, b, c);
    Shifted(g[0], g[1], g[2], g[3], d);
  }

  lemma Shifted(p: nat, q: nat, r: nat, s: nat, d: nat)
    requires p < 64 && q < 64 && r < 64 && s < 64 && d < 4
    ensures Digit(p * 262144 + q * 4096 + r * 64 + s, d) == [p, q, r, s][d]
  {
    var g := p * 262144 + q * 4096 + r * 64 + s;
    assert g / 64 == p * 4096 + q * 64 + r && g % 64 == s;
    assert (p * 4096 + q * 64 + r) / 64 == p * 64 + q && (p * 4096 + q * 64 + r) % 64 == r;
    assert (p * 64 + q) / 64 == p && (p * 64 + q) % 64 == q;
    assert Digit(g, 0) == Digit(g / 64, 1) == Digit(g / 64 / 64, 2) == Digit(g / 64 / 64 / 64, 3);
  }

  lemma FindSextet(i: int)
    requires 0 <= i < 64
    ensures Find(Sextet(i)) == i && IsBase64(Sextet(i)) && Sextet(i) != '='
  {
  }

  /** Putting two bit fields together and taking them apart again. */
  lemma Fields(high: nat, low: nat)
    ensures low < 16 ==> (high * 16 + low) / 16 == high && (high * 16 + low) % 16 == low
    ensures low < 4 ==> (high * 4 + low) / 4 == high && (high * 4 + low) % 4 == low
  {
  }

  lemma GroupRoundTrip(a: Byte, b: Byte, c: Byte)
    ensures var g := Split(a, b, c); Merge(g[0], g[1], g[2], g[3]) == [a, b, c]
  {
    Fields(a % 4, b / 16);
    Fields(b % 16, c / 64);
    var g := Split(a, b, c);
    assert g[1] / 16 == a % 4 && g[1] % 16 == b / 16 && g[2] / 4 == b % 16 && g[2] % 4 == c / 64;
    Recombine(a, 4);
    Recombine(b, 16);
    Recombine(c, 64);
  }

  lemma Recombine(x: Byte, width: nat)
    requires width > 0
    ensures x / width * width + x % width == x
  {
  }

  /** A tail decodes to its bytes whatever index the missing characters are given. */
  lemma TailRoundTrip(a: Byte, b: Byte, r: Byte, s: Byte)
    ensures var g := Split(a, 0, 0); Merge(g[0], g[1], r, s)[..1] == [a]
    ensures var g := Split(a, b, 0); Merge(g[0], g[1], g[2], s)[..2] == [a, b]
  {
    GroupRoundTrip(a, 0, 0);
    GroupRoundTrip(a, b, 0);
    assert Split(a, 0, 0)[..2] == [a / 4, a % 4 * 16];
  }

  /** The characters of an encoding without its padding. */
  function Core(bytes: seq<Byte>): (s: string)
  {
    if |bytes| >= 3 then Text(Split(bytes[0], bytes[1], bytes[2])) + Core(bytes[3..])
    else if |bytes| == 2 then Text(Split(bytes[0], bytes[1], 0)[..3])
    else if |bytes| == 1 then Text(Split(bytes[0], 0, 0)[..2])
    else ""
  }

  function Padding(bytes: seq<Byte>): (s: string) {
    if |bytes| % 3 == 0 then "" else if |bytes| % 3 == 1 then "==" else "="
  }

  lemma {:induction false} EncodedIsCore(bytes: seq<Byte>)
    ensures Encoded(bytes) == Core(bytes) + Padding(bytes)
    ensures forall i | 0 <= i < |Core(bytes)| :: IsBase64(Core(bytes)[i])
    decreases |bytes|
  {
    hide Split, Sextet, IsBase64;
    forall i | 0 <= i < 64 ensures IsBase64(Sextet(i)) {
      FindSextet(i);
    }
    if |bytes| >= 3 {
      EncodedIsCore(bytes[3..]);
      assert |bytes[3..]| % 3 == |bytes| % 3;
    }
  }

  lemma {:induction false} CoreRoundTrip(bytes: seq<Byte>)
    ensures DecodedChars(Core(bytes)) == bytes
    decreases |bytes|
  {
    if |bytes| >= 3 {
      var g := Split(bytes[0], bytes[1], bytes[2]);
      forall i | 0 <= i < 4 ensures Find(Text(g)[i]) == g[i] {
        FindSextet(g[i]);
      }
      GroupRoundTrip(bytes[0], bytes[1], bytes[2]);
      DecodedAppend(Text(g), Core(bytes[3..]));
      assert Text(g)[4..] == [];
      CoreRoundTrip(bytes[3..]);
      assert bytes == [bytes[0], bytes[1], bytes[2]] + bytes[3..];
    } else if |bytes| == 2 {
      var g := Split(bytes[0], bytes[1], 0);
      var s := Core(bytes);
      assert s == Text(g[..3]);
      forall i | 0 <= i < 3 ensures Find(s[i]) == g[i] {
        FindSextet(g[i]);
      }
      TailRoundTrip(bytes[0], bytes[1], 0, NOT_FOUND);
      assert bytes == [bytes[0], bytes[1]];
    } else if |bytes| == 1 {
      var g := Split(bytes[0], 0, 0);
      var s := Core(bytes);
      assert s == Text(g[..2]);
      forall i | 0 <= i < 2 ensures Find(s[i]) == g[i] {
        FindSextet(g[i]);
      }
      TailRoundTrip(bytes[0], 0, NOT_FOUND, NOT_FOUND);
      assert bytes == [bytes[0]];
    }
  }

  /** Decoding undoes encoding, for every byte sequence. */
  lemma DecodeUndoesEncode(bytes: seq<Byte>)
    ensures Decoded(Encoded(bytes)) == bytes
  {
    EncodedIsCore(bytes);
    CoreRoundTrip(bytes);
    var s := Encoded(bytes);
    PrefixIs(s, |Core(bytes)|);
    assert s[..|Core(bytes)|] == Core(bytes);
  }
}
