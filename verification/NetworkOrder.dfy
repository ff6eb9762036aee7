/** Signed integers of fixed width in network byte order, and what the buffer's readers make of them. */
module NetworkOrder {
  const TWO_32: int := 0x1_0000_0000

  function Modulus(width: nat): (m: nat)
    ensures m > 0 && (width > 0 ==> m % 2 == 0)
  {
    if width == 0 then 1 else 256 * Modulus(width - 1)
  }

  lemma Moduli()
    ensures Modulus(1) == 0x100 && Modulus(2) == 0x1_0000 && Modulus(4) == TWO_32
    ensures Modulus(8) == TWO_32 * TWO_32
  {
    assert Modulus(2) == 256 * Modulus(1);
    assert Modulus(3) == 256 * Modulus(2);
    assert Modulus(4) == 256 * Modulus(3);
    assert Modulus(5) == 256 * Modulus(4);
    assert Modulus(6) == 256 * Modulus(5);
    assert Modulus(7) == 256 * Modulus(6);
  }

  /** The range of a two's complement integer of `width` bytes. */
  predicate Fits(x: int, width: nat) {
    -(Modulus(width) as int) <= 2 * x < Modulus(width)
  }

  function Unsigned(x: int, width: nat): (n: nat)
    requires Fits(x, width)
    ensures n < Modulus(width)
  {
    if x < 0 then x + Modulus(width) else x
  }

  function Signed(n: nat, width: nat): (x: int)
    requires n < Modulus(width) && width > 0
    ensures Fits(x, width) && Unsigned(x, width) == n
  {
    if 2 * n < Modulus(width) then n else n - Modulus(width)
  }

  function BigEndian(n: nat, width: nat): (s: string)
    ensures |s| == width
  {
    if width == 0 then "" else BigEndian(n / 256, width - 1) + [(n % 256) as char]
  }

  function FromBigEndian(s: string): (n: nat)
    ensures n < Modulus(|s|)
  {
    if s == "" then 0 else 256 * FromBigEndian(s[..|s| - 1]) + s[|s| - 1] as int % 256
  }

  lemma {:induction false} BigEndianRoundTrip(n: nat, width: nat)
    requires n < Modulus(width)
    ensures FromBigEndian(BigEndian(n, width)) == n
  {
    if width > 0 {
      BigEndianRoundTrip(n / 256, width - 1);
      var s := BigEndian(n, width);
      assert s[..|s| - 1] == BigEndian(n / 256, width - 1);
      assert s[|s| - 1] as int == n % 256;
    }
  }

  function Encode(x: int, width: nat): (s: string)
    requires Fits(x, width)
    ensures |s| == width
  {
    BigEndian(Unsigned(x, width), width)
  }

  function Decode(s: string): (x: int)
    requires s != ""
    ensures Fits(x, |s|)
  {
    Signed(FromBigEndian(s), |s|)
  }

  lemma DecodeEncode(x: int, width: nat)
    requires Fits(x, width) && width > 0
    ensures Decode(Encode(x, width)) == x
  {
    BigEndianRoundTrip(Unsigned(x, width), width);
  }

  /** Network order: the byte at place `i` carries the digit of that weight, most significant first, of the
      value taken modulo 256^width. */
  lemma EncodedByte(x: int, width: nat, i: nat)
    requires Fits(x, width) && i < width
    ensures var n := if x < 0 then x + Modulus(width) else x;
            Encode(x, width)[i] as int == n / Modulus(width - 1 - i) % 256
  {
    DigitAt(Unsigned(x, width), width, i);
  }

  lemma {:induction false} DigitAt(n: nat, width: nat, i: nat)
    requires i < width
    ensures BigEndian(n, width)[i] as int == n / Modulus(width - 1 - i) % 256
  {
    if i < width - 1 {
      DigitAt(n / 256, width - 1, i);
      DividedTwice(n, Modulus(width - 2 - i));
    }
  }

  lemma DividedTwice(n: nat, m: nat)
    requires m > 0
    ensures n / 256 / m == n / (256 * m)
  {
    var q, r := n / 256, n % 256;
    var a, b := q / m, q % m;
    assert n == 256 * (a * m + b) + r;
    Quotient(n, 256 * m, a, 256 * b + r);
  }

  lemma Quotient(n: nat, d: nat, a: nat, rest: nat)
    requires n == a * d + rest && rest < d
    ensures n / d == a
  {
    var k := a - n / d;
    assert k * d == n % d - rest;
    Multiple(k, d);
  }

  lemma Multiple(k: int, d: nat)
    ensures k >= 1 ==> k * d >= d
    ensures k <= -1 ==> k * d + d <= 0
  {
    if k >= 1 {
      assert (k - 1) * d >= 0;
    } else if k <= -1 {
      assert (-1 - k) * d >= 0;
    }
  }

  /** A 32-bit value is sent most significant byte first, and a negative one in two's complement. */
  lemma EncodedExamples()
    ensures Fits(0x0102_0304, 4) && Fits(-2, 2)
    ensures Encode(0x0102_0304, 4) == [1 as char, 2 as char, 3 as char, 4 as char]
    ensures Encode(-2, 2) == [255 as char, 254 as char]
  {
    Moduli();
    hide Modulus;
    assert Unsigned(-2, 2) == 0xFFFE;
    assert BigEndian(0x0102_0304, 4) == BigEndian(0x0102, 2) + [3 as char] + [4 as char];
  }

  // ---- 64-bit values in two halves ------------------------------------------------------------

  function HighHalf(x: int): (h: int)
    requires Fits(x, 8)
    ensures Fits(h, 4)
  {
    Moduli();
    Signed(Unsigned(x, 8) / TWO_32, 4)
  }

  function LowHalf(x: int): (l: int)
    requires Fits(x, 8)
    ensures Fits(l, 4)
  {
    Moduli();
    Signed(Unsigned(x, 8) % TWO_32, 4)
  }

  /** (int64(high) << 32) | uint32(low) */
  function Combine(high: int, low: int): (x: int)
    requires Fits(high, 4) && Fits(low, 4)
    ensures Fits(x, 8)
  {
    Moduli();
    high * TWO_32 + Unsigned(low, 4)
  }

  lemma CombineHalves(x: int)
    requires Fits(x, 8)
    ensures Combine(HighHalf(x), LowHalf(x)) == x
    ensures forall h, l | Fits(h, 4) && Fits(l, 4) ::
              HighHalf(Combine(h, l)) == h && LowHalf(Combine(h, l)) == l
  {
    Moduli();
  }

  /** Writing the halves one after the other puts all eight bytes in network order. */
  lemma HalvesAreNetworkOrder(x: int)
    requires Fits(x, 8)
    ensures Encode(HighHalf(x), 4) + Encode(LowHalf(x), 4) == Encode(x, 8)
  {
    Moduli();
    var u := Unsigned(x, 8);
    LowBytes(u, 4);
    HighWord(u);
    HighBytesIgnored(u % TWO_32, u / TWO_32, 4);
  }

  function Shift(u: nat, k: nat): nat {
    if k == 0 then u else Shift(u / 256, k - 1)
  }

  lemma {:induction false} LowBytes(u: nat, k: nat)
    ensures BigEndian(u, 4 + k) == BigEndian(Shift(u, k), 4) + BigEndian(u, k)
  {
    if k > 0 {
      LowBytes(u / 256, k - 1);
    }
  }

  lemma HighWord(u: nat)
    ensures Shift(u, 4) == u / TWO_32
  {
    assert Shift(u, 4) == Shift(u / 256, 3) == Shift(u / 256 / 256, 2);
    assert Shift(u / 256 / 256, 2) == Shift(u / 256 / 256 / 256, 1) == u / 256 / 256 / 256 / 256;
  }

  /** The encoding of `k` bytes ignores everything above them. */
  lemma {:induction false} HighBytesIgnored(w: nat, q: nat, k: nat)
    ensures BigEndian(w + q * Modulus(k), k) == BigEndian(w, k)
  {
    if k > 0 {
      var t := q * Modulus(k - 1);
      Regroup(q, Modulus(k - 1));
      LastByte(w, t, k);
      HighBytesIgnored(w / 256, q, k - 1);
    }
  }

  lemma Regroup(q: nat, m: nat)
    ensures q * (256 * m) == 256 * (q * m)
  {
  }

  lemma LastByte(w: nat, t: nat, k: nat)
    requires k > 0
    ensures BigEndian(w + 256 * t, k) == BigEndian(w / 256 + t, k - 1) + [(w % 256) as char]
  {
    assert (w + 256 * t) / 256 == w / 256 + t && (w + 256 * t) % 256 == w % 256;
  }

  // ---- a queue of mixed values ----------------------------------------------------------------

  datatype Width = W8 | W16 | W32 | W64

  datatype Value = Value(width: Width, x: int) {
    ghost predicate InRange() {
      Fits(x, Bytes(width))
    }
  }

  function Bytes(w: Width): nat {
    match w
    case W8 => 1
    case W16 => 2
    case W32 => 4
    case W64 => 8
  }

  /** peek_int8, peek_int16, peek_int32 and, with the first word read twice, peek_int64. */
  function Peek(w: Width, s: string): int
    requires Bytes(w) <= |s|
  {
    if w == W64 then Combine(Decode(s[..4]), Decode(s[..4])) else Decode(s[..Bytes(w)])
  }

  /** peek_int64 with the second word read at offset 4. */
  function PeekBothWords(w: Width, s: string): int
    requires Bytes(w) <= |s|
  {
    if w == W64 then Combine(Decode(s[..4]), Decode(s[4..8])) else Decode(s[..Bytes(w)])
  }

  /** The values the readers return: everything as written, except that the high half of a 64-bit
      value stands in for both of its halves. */
  function Seen(v: Value): Value
    requires v.InRange()
  {
    if v.width == W64 then v.(x := Combine(HighHalf(v.x), HighHalf(v.x))) else v
  }

  lemma PeekEncoded(v: Value, rest: string)
    requires v.InRange()
    ensures Peek(v.width, Encode(v.x, Bytes(v.width)) + rest) == Seen(v).x
    ensures PeekBothWords(v.width, Encode(v.x, Bytes(v.width)) + rest) == v.x
  {
    var e := Encode(v.x, Bytes(v.width));
    var s := e + rest;
    if v.width == W64 {
      var high, low := Encode(HighHalf(v.x), 4), Encode(LowHalf(v.x), 4);
      HalvesAreNetworkOrder(v.x);
      assert s[..4] == high && s[4..8] == low;
      DecodeEncode(HighHalf(v.x), 4);
      DecodeEncode(LowHalf(v.x), 4);
      CombineHalves(v.x);
    } else {
      assert s[..|e|] == e;
      DecodeEncode(v.x, Bytes(v.width));
    }
  }

  /** A 64-bit value survives the written reader exactly when its two 32-bit halves are equal. */
  lemma SeenUnchangedIff(v: Value)
    requires v.InRange()
    ensures Seen(v) == v <==> HalvesEqual(v)
  {
    if v.width == W64 {
      CombineHalves(v.x);
    }
  }

  /** The greatest 64-bit value reads back as another one. */
  lemma GreatestIsMisread()
    ensures var v := Value(W64, 0x7FFF_FFFF_FFFF_FFFF);
            v.InRange() && Seen(v).x == 0x7FFF_FFFF_7FFF_FFFF
  {
  }

  ghost predicate AllInRange(vs: seq<Value>) {
    forall i | 0 <= i < |vs| :: vs[i].InRange()
  }

  ghost predicate HalvesEqual(v: Value)
    requires v.InRange()
  {
    v.width == W64 ==> HighHalf(v.x) == LowHalf(v.x)
  }

  function EncodeAll(vs: seq<Value>): string
    requires AllInRange(vs)
  {
    if vs == [] then "" else Encode(vs[0].x, Bytes(vs[0].width)) + EncodeAll(vs[1..])
  }

  function TotalBytes(ws: seq<Width>): nat {
    if ws == [] then 0 else Bytes(ws[0]) + TotalBytes(ws[1..])
  }

  /** Reading a list of widths off the front of the queue; the rest stays queued. */
  function ReadAll(ws: seq<Width>, s: string): (seq<Value>, string)
    requires TotalBytes(ws) <= |s|
  {
    if ws == [] then ([], s)
    else
      var (vs, rest) := ReadAll(ws[1..], s[Bytes(ws[0])..]);
      ([Value(ws[0], Peek(ws[0], s))] + vs, rest)
  }

  function Widths(vs: seq<Value>): seq<Width> {
    seq(|vs|, i requires 0 <= i < |vs| => vs[i].width)
  }

  /** Mixed values leave the queue in order, each consuming exactly its width, whatever follows. */
  lemma {:induction false} MixedFifo(vs: seq<Value>, rest: string)
    requires AllInRange(vs)
    ensures TotalBytes(Widths(vs)) == |EncodeAll(vs)|
    ensures var (out, left) := ReadAll(Widths(vs), EncodeAll(vs) + rest);
            && left == rest && |out| == |vs|
            && forall i | 0 <= i < |vs| :: out[i] == Seen(vs[i])
  {
    if vs == [] {
    } else {
      var e, tail := Encode(vs[0].x, Bytes(vs[0].width)), EncodeAll(vs[1..]);
      assert Widths(vs)[1..] == Widths(vs[1..]);
      assert EncodeAll(vs) + rest == e + (tail + rest);
      assert (e + (tail + rest))[|e|..] == tail + rest;
      PeekEncoded(vs[0], tail + rest);
      MixedFifo(vs[1..], rest);
    }
  }

  /** The whole list reads back unchanged exactly when every 64-bit value in it has equal halves. */
  lemma MixedFifoExact(vs: seq<Value>, rest: string)
    requires AllInRange(vs)
    requires TotalBytes(Widths(vs)) <= |EncodeAll(vs) + rest|
    ensures ReadAll(Widths(vs), EncodeAll(vs) + rest).0 == vs
       <==> forall i | 0 <= i < |vs| :: HalvesEqual(vs[i])
  {
    MixedFifo(vs, rest);
    var out := ReadAll(Widths(vs), EncodeAll(vs) + rest).0;
    forall i | 0 <= i < |vs| ensures out[i] == vs[i] <==> HalvesEqual(vs[i]) {
      SeenUnchangedIff(vs[i]);
    }
    assert out == vs <==> forall i | 0 <= i < |vs| :: out[i] == vs[i];
  }
}
