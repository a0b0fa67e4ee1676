/** Bytes, 16-bit words and the two ways the TLE5012 driver turns bytes into words:
    the big-endian split of a command word, and the shift expression the driver uses
    to rebuild a received word. */
module Words {

  /** An 8-bit unsigned value (Rust `u8`). */
  type Byte = x: int | 0 <= x < 0x100

  /** A 16-bit unsigned value (Rust `u16`). */
  type U16 = x: int | 0 <= x < 0x1_0000

  datatype Option<T> = None | Some(value: T)

  /** 2 to the power n. */
  function Pow2(n: nat): (p: nat)
    ensures p >= 1
  {
    if n == 0 then 1 else 2 * Pow2(n - 1)
  }

  lemma {:induction false} Pow2Add(a: nat, b: nat)
    ensures Pow2(a + b) == Pow2(a) * Pow2(b)
  {
    if a > 0 {
      Pow2Add(a - 1, b);
      assert Pow2(a + b) == 2 * Pow2(a - 1 + b);
    }
  }

  lemma Pow2Bytes()
    ensures Pow2(8) == 0x100 && Pow2(16) == 0x1_0000
  {
    assert Pow2(4) == 16;
    assert Pow2(8) == 0x100 by { Pow2Add(4, 4); }
    Pow2Add(8, 8);
  }

  /** `w.to_be_bytes()`: the most significant byte first. */
  function ToBeBytes(w: U16): (b: seq<Byte>)
    ensures |b| == 2 && (b[0] as int) * 0x100 + b[1] == w
  {
    [w / 0x100, w % 0x100]
  }

  /** `u16::from_be_bytes([hi, lo])`: the big-endian combination of two bytes. */
  function FromBeBytes(hi: Byte, lo: Byte): (w: U16)
    ensures w / 0x100 == hi && w % 0x100 == lo
  {
    hi * 0x100 + lo
  }

  /** Splitting a word and combining its bytes gives the word back. */
  lemma BeBytesRoundTrip(w: U16)
    ensures FromBeBytes(ToBeBytes(w)[0], ToBeBytes(w)[1]) == w
  {
  }

  /** Combining two bytes and splitting the word gives the bytes back. */
  lemma BeBytesSplitRoundTrip(hi: Byte, lo: Byte)
    ensures ToBeBytes(FromBeBytes(hi, lo)) == [hi, lo]
  {
  }

  /** `x << s` on a `u16` in a debug build: a shift amount of 16 or more fails the
      overflow check (None, a panic); otherwise the bits moved past bit 15 are lost. */
  function Shl(x: U16, s: nat): (r: Option<U16>)
    ensures r.Some? <==> s < 16
  {
    if s < 16 then Some((x * Pow2(s)) % 0x1_0000) else None
  }

  /** A shift that does not overflow yields the low 16 - s bits of x moved up s places. */
  lemma ShlValue(x: U16, s: nat)
    requires s < 16
    ensures Shl(x, s).value == (x % Pow2(16 - s)) * Pow2(s)
  {
    var p, q := Pow2(s), Pow2(16 - s);
    Pow2Add(16 - s, s);
    Pow2Bytes();
    assert q * p == 0x1_0000;
    var k, m := x / q, x % q;
    MulLess(m, q, p);
    assert m * p < 0x1_0000;
    SplitProduct(x, q, p);
    assert x * p == k * 0x1_0000 + m * p;
    DivModUnique(x * p, 0x1_0000, k, m * p);
  }

  /** x * p splits into whole multiples of q * p and a part below q * p. */
  lemma SplitProduct(x: nat, q: nat, p: nat)
    requires q > 0
    ensures x * p == (x / q) * (q * p) + (x % q) * p
  {
    var k, m := x / q, x % q;
    assert x == k * q + m;
    DistributeOver(k, q, m, p);
  }

  lemma MulLess(a: nat, b: nat, c: nat)
    requires a < b && c > 0
    ensures a * c < b * c
  {
  }

  lemma DistributeOver(k: int, q: int, m: int, p: int)
    ensures (k * q + m) * p == k * (q * p) + m * p
  {
  }

  /** A remainder in range that completes a quotient is the remainder. */
  lemma DivModUnique(a: int, n: int, q: int, r: int)
    requires n > 0 && 0 <= r < n && a == q * n + r
    ensures a % n == r
  {
    var q', r' := a / n, a % n;
    var d := q' - q;
    MulSub(q', q, n);
    assert d * n == r - r';
    if d > 0 {
      MulAtLeast(d, n);
    } else if d < 0 {
      MulAtLeast(-d, n);
      MulNeg(d, n);
    }
  }

  lemma MulSub(a: int, b: int, n: int)
    ensures a * n - b * n == (a - b) * n
  {
  }

  lemma MulAtLeast(d: int, n: int)
    requires d >= 1 && n > 0
    ensures d * n >= n
  {
  }

  lemma MulNeg(d: int, n: int)
    ensures (-d) * n == -(d * n)
  {
  }

  /** The driver's word extraction `(hi as u16) << 8 + lo as u16`. Rust's `+` binds
      tighter than `<<`, so this is hi << (8 + lo), not (hi << 8) + lo: it overflows
      (panics) unless lo < 8. */
  function ShiftedWord(hi: Byte, lo: Byte): (r: Option<U16>)
    ensures r.Some? <==> lo < 8
  {
    Shl(hi, 8 + lo)
  }

  /** An extraction that does not overflow keeps only the low 8 - lo bits of hi, moved up
      8 + lo places. */
  lemma ShiftedWordValue(hi: Byte, lo: Byte)
    requires lo < 8
    ensures ShiftedWord(hi, lo).value == (hi % Pow2(8 - lo)) * Pow2(8 + lo)
  {
    ShlValue(hi, 8 + lo);
  }

  /** The low byte of an extracted word is always zero, since hi moves up at least 8 places;
      with lo == 0 the word is exactly hi * 256. */
  lemma ShiftedWordLowByte(hi: Byte, lo: Byte)
    requires lo < 8
    ensures ShiftedWord(hi, lo).value % 0x100 == 0
    ensures lo == 0 ==> ShiftedWord(hi, lo).value == hi * 0x100
  {
    ShiftedWordValue(hi, lo);
    Pow2Add(8, lo);
    Pow2Bytes();
    var m, p := hi % Pow2(8 - lo), Pow2(lo);
    MulAssoc(m, p, 0x100);
    assert ShiftedWord(hi, lo).value == (m * p) * 0x100;
    DivModUnique((m * p) * 0x100, 0x100, m * p, 0);
  }

  lemma MulAssoc(a: int, b: int, c: int)
    ensures a * (c * b) == (a * b) * c
  {
  }

  /** The extraction agrees with the big-endian combination exactly when the low byte is zero. */
  lemma ShiftedWordIsBigEndianIff(hi: Byte, lo: Byte)
    ensures ShiftedWord(hi, lo) == Some(FromBeBytes(hi, lo)) <==> lo == 0
  {
    if lo < 8 {
      ShiftedWordLowByte(hi, lo);
    }
  }

  /** Two concrete inputs: a low byte of 0x34 overflows the shift, and a low byte of 1
      yields 0x2400 where the big-endian word is 0x1201. */
  lemma ShiftedWordCounterexamples()
    ensures ShiftedWord(0x12, 0x34) == None && FromBeBytes(0x12, 0x34) == 0x1234
    ensures ShiftedWord(0x12, 0x01) == Some(0x2400) && FromBeBytes(0x12, 0x01) == 0x1201
  {
  }
}
