/** The masks and shifts of the Base64 source compute the sextets and bytes of the model. */
module Base64Masks {
  import opened Base64

  /** A byte promoted to a wider integer, as the operators of the source promote it.  The functions
      below are the source's masks and shifts; each contract says what they compute. */
  type Word = w: bv16 | w < 256

  lemma Quarter(w: Word)
    ensures (w >> 2) as int == w as int / 4
  {
  }

  lemma Sixteenth(w: Word)
    ensures (w >> 4) as int == w as int / 16
  {
  }

  lemma LowFour(w: Word)
    ensures (w & 0xf) as int == w as int % 16
  {
  }

  lemma LowTwo(w: Word)
    ensures (w & 0x3) as int == w as int % 4
  {
  }

  function TopSix(w: Word): (r: int)
    ensures r == w as int / 4
  {
    ((w & 0xfc) >> 2) as int
  }

  function LastTwoRaised(w: Word): (r: int)
    ensures r == w as int % 4 * 16
  {
    LowTwo(w);
    ((w & 0x03) << 4) as int
  }

  function TopFour(w: Word): (r: int)
    ensures r == w as int / 16
  {
    ((w & 0xf0) >> 4) as int
  }

  function LastFourRaised(w: Word): (r: int)
    ensures r == w as int % 16 * 4
  {
    LowFour(w);
    ((w & 0x0f) << 2) as int
  }

  function TopTwo(w: Word): (r: int)
    ensures r == w as int / 64
  {
    ((w & 0xc0) >> 6) as int
  }

  function LastSix(w: Word): (r: int)
    ensures r == w as int % 64
  {
    (w & 0x3f) as int
  }

  function RaisedByTwo(w: Word): (r: int)
    ensures r == w as int * 4
  {
    (w << 2) as int
  }

  function MiddleTwo(w: Word): (r: int)
    ensures r == w as int / 16 % 4
  {
    assert (w & 0x30) >> 4 == (w >> 4) & 0x3;
    Sixteenth(w);
    LowTwo(w >> 4);
    ((w & 0x30) >> 4) as int
  }

  function LastFourOnTop(w: Word): (r: int)
    ensures r == w as int % 16 * 16
  {
    LowFour(w);
    ((w & 0xf) << 4) as int
  }

  function MiddleFour(w: Word): (r: int)
    ensures r == w as int / 4 % 16
  {
    assert (w & 0x3c) >> 2 == (w >> 2) & 0xf;
    Quarter(w);
    LowFour(w >> 2);
    ((w & 0x3c) >> 2) as int
  }

  function LastTwoOnTop(w: Word): (r: int)
    ensures r == w as int % 4 * 64
  {
    LowTwo(w);
    ((w & 0x3) << 6) as int
  }

  /** The sextets, as the encoder masks, shifts and adds them. */
  lemma SplitMasks(a: Word, b: Word, c: Word)
    ensures 0 <= a as int < 256 && 0 <= b as int < 256 && 0 <= c as int < 256
    ensures Split(a as int, b as int, c as int) ==
      [TopSix(a), LastTwoRaised(a) + TopFour(b), LastFourRaised(b) + TopTwo(c), LastSix(c)]
  {
    hide TopSix, LastTwoRaised, TopFour, LastFourRaised, TopTwo, LastSix;
    WordIsByte(a);
    WordIsByte(b);
    WordIsByte(c);
  }

  lemma WordIsByte(w: Word)
    ensures 0 <= w as int < 256
  {
  }

  /** The bytes, as the decoder masks, shifts and adds them and stores them in an `unsigned char`. */
  lemma MergeMasks(p: Word, q: Word, r: Word, s: Word)
    ensures 0 <= p as int < 256 && 0 <= q as int < 256 && 0 <= r as int < 256 && 0 <= s as int < 256
    ensures Merge(p as int, q as int, r as int, s as int) ==
      [(RaisedByTwo(p) + MiddleTwo(q)) % 256, (LastFourOnTop(q) + MiddleFour(r)) % 256,
       (LastTwoOnTop(r) + s as int) % 256]
  {
    hide RaisedByTwo, MiddleTwo, LastFourOnTop, MiddleFour, LastTwoOnTop;
    WordIsByte(p);
    WordIsByte(q);
    WordIsByte(r);
    WordIsByte(s);
  }
}
