/** Bytes as most-significant-first bits. */
module BitStream {

  type byte = x: int | 0 <= x < 256

  /** The place value of bit k of a byte, most significant first. */
  function Weight(k: nat): nat
    requires k < 8
  {
    match k
    case 0 => 128
    case 1 => 64
    case 2 => 32
    case 3 => 16
    case 4 => 8
    case 5 => 4
    case 6 => 2
    case 7 => 1
  }

  /** (b >> (7 - k)) & 1. */
  function BitOf(b: byte, k: nat): bool
    requires k < 8
  {
    (b / Weight(k)) % 2 == 1
  }

  function BitAt(data: seq<byte>, i: nat): bool
    requires i < 8 * |data|
  {
    BitOf(data[i / 8], i % 8)
  }

  function Bits(data: seq<byte>): seq<bool> {
    seq(8 * |data|, i requires 0 <= i < 8 * |data| => BitAt(data, i))
  }

  function BitValue(b: bool): nat {
    if b then 1 else 0
  }

  /** The number a bit string stands for. */
  function Number(bits: seq<bool>): nat {
    if bits == [] then 0 else 2 * Number(bits[..|bits| - 1]) + BitValue(bits[|bits| - 1])
  }

  lemma NumberOfEight(bits: seq<bool>)
    requires |bits| == 8
    ensures Number(bits) == 128 * BitValue(bits[0]) + 64 * BitValue(bits[1]) + 32 * BitValue(bits[2])
                            + 16 * BitValue(bits[3]) + 8 * BitValue(bits[4]) + 4 * BitValue(bits[5])
                            + 2 * BitValue(bits[6]) + BitValue(bits[7])
    ensures 0 <= Number(bits) < 256
  {
    hide Number;
    NumberOfFour(bits);
    NumberStep(bits, 5);
    NumberStep(bits, 6);
    NumberStep(bits, 7);
    NumberStep(bits, 8);
    assert bits[..8] == bits;
  }

  lemma NumberOfFour(bits: seq<bool>)
    requires |bits| >= 4
    ensures Number(bits[..4])
         == 8 * BitValue(bits[0]) + 4 * BitValue(bits[1]) + 2 * BitValue(bits[2]) + BitValue(bits[3])
  {
    hide Number, BitValue;
    NumberOfNone(bits);
    NumberStep(bits, 1);
    NumberStep(bits, 2);
    NumberStep(bits, 3);
    NumberStep(bits, 4);
  }

  lemma NumberOfNone(bits: seq<bool>)
    ensures Number(bits[..0]) == 0
  {
  }

  lemma NumberStep(bits: seq<bool>, n: nat)
    requires 0 < n <= |bits|
    ensures Number(bits[..n]) == 2 * Number(bits[..n - 1]) + BitValue(bits[n - 1])
  {
    assert bits[..n][..n - 1] == bits[..n - 1];
  }

  /** The bits of an eight-bit number are the bits it was made of. */
  lemma BitsOfNumber(bits: seq<bool>, k: nat)
    requires |bits| == 8 && k < 8
    ensures Number(bits) < 256 && BitOf(Number(bits), k) == bits[k]
  {
    hide Number, BitOf;
    NumberOfEight(bits);
    EightBits(Number(bits), BitValue(bits[0]), BitValue(bits[1]), BitValue(bits[2]), BitValue(bits[3]),
              BitValue(bits[4]), BitValue(bits[5]), BitValue(bits[6]), BitValue(bits[7]));
  }

  lemma EightBits(b: nat, p: nat, q: nat, r: nat, s: nat, t: nat, u: nat, v: nat, w: nat)
    requires p <= 1 && q <= 1 && r <= 1 && s <= 1 && t <= 1 && u <= 1 && v <= 1 && w <= 1
    requires b == 128 * p + 64 * q + 32 * r + 16 * s + 8 * t + 4 * u + 2 * v + w
    ensures b < 256
    ensures BitOf(b, 0) == (p == 1) && BitOf(b, 1) == (q == 1) && BitOf(b, 2) == (r == 1) && BitOf(b, 3) == (s == 1)
    ensures BitOf(b, 4) == (t == 1) && BitOf(b, 5) == (u == 1) && BitOf(b, 6) == (v == 1) && BitOf(b, 7) == (w == 1)
  {
    hide BitOf;
    BitFrom(b, 0, 0, p, 64 * q + 32 * r + 16 * s + 8 * t + 4 * u + 2 * v + w);
    BitFrom(b, 1, p, q, 32 * r + 16 * s + 8 * t + 4 * u + 2 * v + w);
    BitFrom(b, 2, 2 * p + q, r, 16 * s + 8 * t + 4 * u + 2 * v + w);
    BitFrom(b, 3, 4 * p + 2 * q + r, s, 8 * t + 4 * u + 2 * v + w);
    BitFrom(b, 4, 8 * p + 4 * q + 2 * r + s, t, 4 * u + 2 * v + w);
    BitFrom(b, 5, 16 * p + 8 * q + 4 * r + 2 * s + t, u, 2 * v + w);
    BitFrom(b, 6, 32 * p + 16 * q + 8 * r + 4 * s + 2 * t + u, v, w);
    BitFrom(b, 7, 64 * p + 32 * q + 16 * r + 8 * s + 4 * t + 2 * u + v, w, 0);
  }

  lemma BitFrom(b: byte, k: nat, high: nat, bit: nat, low: nat)
    requires k < 8 && bit <= 1 && b == Weight(k) * (2 * high + bit) + low && low < Weight(k)
    ensures BitOf(b, k) == (bit == 1)
  {
    Quotient(b, Weight(k), 2 * high + bit, low);
  }

  lemma Quotient(b: nat, d: nat, q: nat, r: nat)
    requires b == d * q + r && r < d
    ensures b / d == q
  {
    var p := b / d;
    Order(d, p + 1, q);
    Order(d, q + 1, p);
  }

  lemma Order(d: nat, x: nat, y: nat)
    ensures x <= y ==> d * x <= d * y
  {
  }

  /** Bits into bytes; the last byte is filled up with zeros. */
  function Pack(bits: seq<bool>): seq<byte> {
    if bits == [] then []
    else if |bits| < 8 then [NumberByte(bits + Zeros(8 - |bits|))]
    else [NumberByte(bits[..8])] + Pack(bits[8..])
  }

  function Zeros(n: nat): seq<bool> {
    seq(n, _ => false)
  }

  function NumberByte(bits: seq<bool>): byte
    requires |bits| == 8
  {
    NumberOfEight(bits);
    Number(bits)
  }

  lemma BitsOfCons(b: byte, tail: seq<byte>, i: nat)
    requires i < 8 + 8 * |tail|
    ensures Bits([b] + tail)[i] == if i < 8 then BitOf(b, i) else Bits(tail)[i - 8]
  {
    hide BitOf;
    if i >= 8 {
      assert i / 8 == (i - 8) / 8 + 1 && i % 8 == (i - 8) % 8;
    }
  }

  lemma BitsOfPacked(eight: seq<bool>, tail: seq<byte>)
    requires |eight| == 8
    ensures Bits([NumberByte(eight)] + tail) == eight + Bits(tail)
  {
    hide BitOf, Number, BitAt;
    var packed := [NumberByte(eight)] + tail;
    forall i | 0 <= i < 8 + 8 * |tail|
      ensures Bits(packed)[i] == (eight + Bits(tail))[i]
    {
      BitsOfCons(NumberByte(eight), tail, i);
      if i < 8 {
        BitsOfNumber(eight, i);
      }
    }
  }

  /** Packing loses no bit. */
  lemma {:induction false} PackKeepsBits(bits: seq<bool>)
    ensures bits <= Bits(Pack(bits))
    decreases |bits|
  {
    hide NumberByte, Bits;
    if bits != [] {
      if |bits| < 8 {
        BitsOfPacked(bits + Zeros(8 - |bits|), []);
        assert Pack(bits) == [NumberByte(bits + Zeros(8 - |bits|))] + [];
      } else {
        PackKeepsBits(bits[8..]);
        BitsOfPacked(bits[..8], Pack(bits[8..]));
      }
    }
  }
}
