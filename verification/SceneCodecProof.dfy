/** Decoding a scene inverts encoding it, for every tree with distinct leaves and any padding. */
module SceneCodecProof {
  import opened Options
  import opened BitStream
  import opened SceneCodec

  // ----- The encoder -------------------------------------------------------

  function ByteBits(b: byte): seq<bool> {
    seq(8, k requires 0 <= k < 8 => BitOf(b, k))
  }

  function TreeBits(t: Tree): seq<bool> {
    match t
    case Leaf(symbol) => [true] + ByteBits(symbol)
    case Node(zero, one) => [false] + (TreeBits(zero) + TreeBits(one))
  }

  function Leaves(t: Tree): set<byte> {
    match t
    case Leaf(symbol) => {symbol}
    case Node(zero, one) => Leaves(zero) + Leaves(one)
  }

  /** No symbol occurs at two leaves. */
  predicate Distinct(t: Tree) {
    match t
    case Leaf(_) => true
    case Node(zero, one) => Distinct(zero) && Distinct(one) && Leaves(zero) !! Leaves(one)
  }

  function Depth(t: Tree): nat {
    match t
    case Leaf(_) => 0
    case Node(zero, one) => 1 + if Depth(zero) < Depth(one) then Depth(one) else Depth(zero)
  }

  /** The path to a symbol; a tree of one leaf has the empty code. */
  function Code(t: Tree, symbol: byte): seq<bool>
    requires symbol in Leaves(t)
  {
    match t
    case Leaf(_) => []
    case Node(zero, one) =>
      if symbol in Leaves(zero) then [false] + Code(zero, symbol) else [true] + Code(one, symbol)
  }

  predicate Spelled(t: Tree, symbols: seq<byte>) {
    forall i :: 0 <= i < |symbols| ==> symbols[i] in Leaves(t)
  }

  function Codes(t: Tree, symbols: seq<byte>): seq<bool>
    requires Spelled(t, symbols)
  {
    if symbols == [] then []
    else Codes(t, symbols[..|symbols| - 1]) + Code(t, symbols[|symbols| - 1])
  }

  // ----- Symbols -----------------------------------------------------------

  lemma ByteOfBits(b: byte)
    ensures Number(ByteBits(b)) == b
  {
    hide Number, BitOf;
    NumberOfEight(ByteBits(b));
    Halves(b);
  }

  lemma Halves(b: byte)
    ensures b == 128 * BitValue(BitOf(b, 0)) + 64 * BitValue(BitOf(b, 1)) + 32 * BitValue(BitOf(b, 2))
                 + 16 * BitValue(BitOf(b, 3)) + 8 * BitValue(BitOf(b, 4)) + 4 * BitValue(BitOf(b, 5))
                 + 2 * BitValue(BitOf(b, 6)) + BitValue(BitOf(b, 7))
  {
    hide Shifted, BitOf, BitValue;
    Ends(b);
    Doubles(b, 1);
    Doubles(b, 2);
    Doubles(b, 3);
    Doubles(b, 4);
    Doubles(b, 5);
    Doubles(b, 6);
    Doubles(b, 7);
  }

  function Shifted(b: byte, k: nat): nat
    requires k < 8
  {
    b / Weight(k)
  }

  lemma Ends(b: byte)
    ensures Shifted(b, 7) == b && Shifted(b, 0) == BitValue(BitOf(b, 0))
  {
  }

  lemma Doubles(b: byte, k: nat)
    requires 0 < k < 8
    ensures Shifted(b, k) == 2 * Shifted(b, k - 1) + BitValue(BitOf(b, k))
  {
    HalfStep(b, Weight(k));
    assert Weight(k - 1) == 2 * Weight(k);
  }

  lemma HalfStep(n: nat, d: nat)
    requires d > 0
    ensures n / d == 2 * (n / (2 * d)) + (n / d) % 2
  {
    var q, r := n / d, n % d;
    var p, e := q / 2, q % 2;
    assert n == d * q + r;
    assert d * q == (2 * d) * p + d * e;
    assert d * e + r < 2 * d;
    Quotient(n, 2 * d, p, d * e + r);
  }

  lemma ReadByteIff(bits: seq<bool>, at: nat, b: byte)
    ensures at + 8 <= |bits| && bits[at..at + 8] == ByteBits(b) <==> ReadByte(bits, at) == Some(Parsed(b, at + 8))
  {
    hide Number, BitOf;
    ByteOfBits(b);
    if at + 8 <= |bits| {
      OneByte(bits, at);
      if Number(bits[at..at + 8]) == b {
        forall k | 0 <= k < 8
          ensures bits[at..at + 8][k] == ByteBits(b)[k]
        {
          BitsOfNumber(bits[at..at + 8], k);
        }
      }
    }
  }

  // ----- Trees -------------------------------------------------------------

  /** A tree with distinct leaves is never deeper than it has further leaves. */
  lemma {:induction false} DepthBelowLeaves(t: Tree)
    requires Distinct(t)
    ensures Depth(t) < |Leaves(t)|
  {
    match t
    case Leaf(_) =>
    case Node(zero, one) =>
      DepthBelowLeaves(zero);
      DepthBelowLeaves(one);
      DisjointSizes(Leaves(zero), Leaves(one));
  }

  lemma DisjointSizes(a: set<byte>, b: set<byte>)
    requires a !! b
    ensures |a + b| == |a| + |b|
  {
    assert (a + b) - b == a;
  }

  lemma {:induction false} FewBytes(s: set<byte>, n: nat)
    requires forall b :: b in s ==> b < n
    ensures |s| <= n
  {
    if n > 0 {
      var rest := set b | b in s && b < n - 1;
      FewBytes(rest, n - 1);
      if n - 1 < 256 {
        assert s <= rest + {n - 1};
        SubsetSize(s, rest + {n - 1});
      } else {
        assert s == rest;
      }
    }
  }

  lemma SubsetSize(a: set<byte>, b: set<byte>)
    requires a <= b
    ensures |a| <= |b|
  {
    assert a + (b - a) == b;
    DisjointSizes(a, b - a);
  }

  /** So the depth guard never rejects such a tree. */
  lemma DepthGuardHolds(t: Tree)
    requires Distinct(t)
    ensures Depth(t) <= MAX_DEPTH
  {
    DepthBelowLeaves(t);
    FewBytes(Leaves(t), 256);
  }

  /** The bits from at on start with the given ones. */
  predicate StartsAt(bits: seq<bool>, at: nat, prefix: seq<bool>) {
    at + |prefix| <= |bits| && bits[at..at + |prefix|] == prefix
  }

  lemma StartsAtConcat(bits: seq<bool>, at: nat, a: seq<bool>, b: seq<bool>)
    ensures StartsAt(bits, at, a + b) <==> StartsAt(bits, at, a) && StartsAt(bits, at + |a|, b)
  {
    if at + |a + b| <= |bits| {
      assert bits[at..at + |a + b|] == bits[at..at + |a|] + bits[at + |a|..at + |a + b|];
      assert bits[at..at + |a + b|][..|a|] == bits[at..at + |a|];
      assert bits[at..at + |a + b|][|a|..] == bits[at + |a|..at + |a + b|];
    }
  }

  /** Reading an encoded tree gives the tree. */
  lemma {:induction false} TreeIsRead(bits: seq<bool>, at: nat, t: Tree, leaves: set<byte>, depth: nat)
    requires StartsAt(bits, at, TreeBits(t)) && Distinct(t) && Leaves(t) !! leaves && depth + Depth(t) <= MAX_DEPTH
    ensures ParseTree(bits, at, leaves, depth) == Some(Parsed((t, leaves + Leaves(t)), at + |TreeBits(t)|))
    decreases t
  {
    hide ReadByte, StartsAt, ByteBits;
    match t
    case Leaf(symbol) =>
      StartsAtConcat(bits, at, [true], ByteBits(symbol));
      FirstBit(bits, at, true);
      ByteIsRead(bits, at + 1, symbol);
    case Node(zero, one) =>
      StartsAtConcat(bits, at, [false], TreeBits(zero) + TreeBits(one));
      StartsAtConcat(bits, at + 1, TreeBits(zero), TreeBits(one));
      FirstBit(bits, at, false);
      TreeIsRead(bits, at + 1, zero, leaves, depth + 1);
      TreeIsRead(bits, at + 1 + |TreeBits(zero)|, one, leaves + Leaves(zero), depth + 1);
      assert leaves + Leaves(zero) + Leaves(one) == leaves + Leaves(t);
  }

  lemma FirstBit(bits: seq<bool>, at: nat, b: bool)
    ensures StartsAt(bits, at, [b]) <==> at < |bits| && bits[at] == b
  {
    if at < |bits| {
      assert bits[at..at + 1] == [bits[at]];
    }
  }

  lemma ByteIsRead(bits: seq<bool>, at: nat, b: byte)
    ensures |ByteBits(b)| == 8
    ensures StartsAt(bits, at, ByteBits(b)) <==> ReadByte(bits, at) == Some(Parsed(b, at + 8))
  {
    hide ReadByte;
    ReadByteIff(bits, at, b);
  }

  lemma ReadByteMoves(bits: seq<bool>, at: nat)
    ensures ReadByte(bits, at).Some? ==> ReadByte(bits, at).value.at == at + 8
  {
  }

  /** What is read as a tree is the encoding of a tree with distinct leaves. */
  lemma {:induction false} ReadTreeIsEncoded(bits: seq<bool>, at: nat, leaves: set<byte>, depth: nat)
    requires ParseTree(bits, at, leaves, depth).Some?
    ensures var p := ParseTree(bits, at, leaves, depth).value;
            var t := p.value.0;
            && Distinct(t) && Leaves(t) !! leaves && p.value.1 == leaves + Leaves(t)
            && StartsAt(bits, at, TreeBits(t)) && p.at == at + |TreeBits(t)|
    decreases MAX_DEPTH + 1 - depth
  {
    hide ReadByte, StartsAt, ByteBits;
    FirstBit(bits, at, bits[at]);
    var p := ParseTree(bits, at, leaves, depth).value;
    if bits[at] {
      var symbol := ReadByte(bits, at + 1).value.value;
      ReadByteMoves(bits, at + 1);
      ByteIsRead(bits, at + 1, symbol);
      StartsAtConcat(bits, at, [true], ByteBits(symbol));
    } else {
      ReadTreeIsEncoded(bits, at + 1, leaves, depth + 1);
      var zero := ParseTree(bits, at + 1, leaves, depth + 1).value;
      ReadTreeIsEncoded(bits, zero.at, zero.value.1, depth + 1);
      var one := ParseTree(bits, zero.at, zero.value.1, depth + 1).value;
      StartsAtConcat(bits, at + 1, TreeBits(zero.value.0), TreeBits(one.value.0));
      StartsAtConcat(bits, at, [false], TreeBits(zero.value.0) + TreeBits(one.value.0));
      assert leaves + Leaves(zero.value.0) + Leaves(one.value.0) == leaves + Leaves(p.value.0);
    }
  }

  // ----- Symbol lists ------------------------------------------------------

  /** A symbol is read exactly where its code stands. */
  lemma {:induction false} SymbolIff(bits: seq<bool>, at: nat, t: Tree, symbol: byte)
    requires Distinct(t) && symbol in Leaves(t) && at <= |bits|
    ensures StartsAt(bits, at, Code(t, symbol))
       <==> ParseSymbol(bits, at, t) == Some(Parsed(symbol, at + |Code(t, symbol)|))
    decreases t
  {
    hide StartsAt;
    match t
    case Leaf(_) =>
      EmptyStarts(bits, at);
    case Node(zero, one) =>
      var first := symbol !in Leaves(zero);
      var branch := if first then one else zero;
      FirstBit(bits, at, first);
      StartsAtConcat(bits, at, [first], Code(branch, symbol));
      if at < |bits| && bits[at] == first {
        SymbolIff(bits, at + 1, branch, symbol);
      } else if at < |bits| {
        OtherBranch(bits, at + 1, if first then zero else one);
      }
  }

  lemma EmptyStarts(bits: seq<bool>, at: nat)
    ensures StartsAt(bits, at, []) <==> at <= |bits|
  {
  }

  /** A symbol that is read is a leaf of the tree it is read with. */
  lemma {:induction false} OtherBranch(bits: seq<bool>, at: nat, t: Tree)
    ensures ParseSymbol(bits, at, t).Some? ==> ParseSymbol(bits, at, t).value.value in Leaves(t)
    decreases t
  {
    if t.Node? && at < |bits| {
      OtherBranch(bits, at + 1, if bits[at] then t.one else t.zero);
    }
  }

  /** Reading an encoded list of symbols gives the list. */
  lemma {:induction false} SymbolsAreRead(bits: seq<bool>, at: nat, t: Tree, symbols: seq<byte>)
    requires Distinct(t) && Spelled(t, symbols) && StartsAt(bits, at, Codes(t, symbols))
    ensures ParseSymbols(bits, at, t, |symbols|) == Some(Parsed(symbols, at + |Codes(t, symbols)|))
  {
    hide StartsAt, ParseSymbol, Code, Distinct;
    if symbols != [] {
      var front, last := symbols[..|symbols| - 1], symbols[|symbols| - 1];
      StartsAtConcat(bits, at, Codes(t, front), Code(t, last));
      SymbolsAreRead(bits, at, t, front);
      WithinBits(bits, at + |Codes(t, front)|, Code(t, last));
      SymbolIff(bits, at + |Codes(t, front)|, t, last);
      assert symbols == front + [last];
    }
  }

  lemma WithinBits(bits: seq<bool>, at: nat, prefix: seq<bool>)
    requires StartsAt(bits, at, prefix)
    ensures at + |prefix| <= |bits|
  {
  }

  /** What is read as a symbol is the code of a leaf. */
  lemma {:induction false} ReadSymbolIsEncoded(bits: seq<bool>, at: nat, t: Tree)
    requires Distinct(t) && at <= |bits| && ParseSymbol(bits, at, t).Some?
    ensures var p := ParseSymbol(bits, at, t).value;
            && p.value in Leaves(t) && StartsAt(bits, at, Code(t, p.value)) && p.at == at + |Code(t, p.value)|
    decreases t
  {
    hide StartsAt;
    match t
    case Leaf(_) => EmptyStarts(bits, at);
    case Node(zero, one) =>
      var branch := if bits[at] then one else zero;
      ReadSymbolIsEncoded(bits, at + 1, branch);
      FirstBit(bits, at, bits[at]);
      StartsAtConcat(bits, at, [bits[at]], Code(branch, ParseSymbol(bits, at + 1, branch).value.value));
  }

  lemma {:induction false} ReadSymbolsAreEncoded(bits: seq<bool>, at: nat, t: Tree, n: nat)
    requires Distinct(t) && at <= |bits| && ParseSymbols(bits, at, t, n).Some?
    ensures var p := ParseSymbols(bits, at, t, n).value;
            && |p.value| == n && Spelled(t, p.value)
            && StartsAt(bits, at, Codes(t, p.value)) && p.at == at + |Codes(t, p.value)|
  {
    hide StartsAt, ParseSymbol, Code, Distinct;
    if n == 0 {
      EmptyStarts(bits, at);
    } else {
      ReadSymbolsAreEncoded(bits, at, t, n - 1);
      var front := ParseSymbols(bits, at, t, n - 1).value;
      WithinBits(bits, at, Codes(t, front.value));
      ReadSymbolIsEncoded(bits, front.at, t);
      var last := ParseSymbol(bits, front.at, t).value;
      var all := front.value + [last.value];
      assert all[..|all| - 1] == front.value && all[|all| - 1] == last.value;
      StartsAtConcat(bits, at, Codes(t, front.value), Code(t, last.value));
    }
  }

  // ----- The payload -------------------------------------------------------

  /** The bits start with a tree of distinct leaves, followed by the codes of the symbols. */
  ghost predicate Encodes(bits: seq<bool>, t: Tree, symbols: seq<byte>) {
    Distinct(t) && Spelled(t, symbols) && StartsAt(bits, 0, TreeBits(t) + Codes(t, symbols))
  }

  /** Decompression inverts compression: it returns a list exactly when the bits encode it under some tree. */
  lemma DecompressedIff(bits: seq<bool>, size: nat, symbols: seq<byte>)
    ensures Decompressed(bits, size) == Some(symbols)
       <==> |symbols| == size && exists t :: Encodes(bits, t, symbols)
  {
    if Decompressed(bits, size) == Some(symbols) {
      DecompressedIsEncoded(bits, size, symbols);
    }
    if |symbols| == size && exists t :: Encodes(bits, t, symbols) {
      var t :| Encodes(bits, t, symbols);
      EncodedIsDecompressed(bits, t, symbols);
    }
  }

  lemma DecompressedIsEncoded(bits: seq<bool>, size: nat, symbols: seq<byte>)
    requires Decompressed(bits, size) == Some(symbols)
    ensures |symbols| == size && exists t :: Encodes(bits, t, symbols)
  {
    hide ParseTree, ParseSymbols, StartsAt, TreeBits, Codes, Distinct;
    var root := ParseTree(bits, 0, {}, 0).value;
    var t := root.value.0;
    ReadTreeIsEncoded(bits, 0, {}, 0);
    WithinBits(bits, 0, TreeBits(t));
    ReadSymbolsAreEncoded(bits, root.at, t, size);
    StartsAtConcat(bits, 0, TreeBits(t), Codes(t, symbols));
    assert Encodes(bits, t, symbols);
  }

  /** Any bits that start with an encoding are decompressed to its symbols, whatever follows. */
  lemma EncodedIsDecompressed(bits: seq<bool>, t: Tree, symbols: seq<byte>)
    requires Encodes(bits, t, symbols)
    ensures Decompressed(bits, |symbols|) == Some(symbols)
  {
    hide ParseTree, ParseSymbols, StartsAt, TreeBits, Codes, Distinct;
    StartsAtConcat(bits, 0, TreeBits(t), Codes(t, symbols));
    DepthGuardHolds(t);
    TreeIsRead(bits, 0, t, {}, 0);
    SymbolsAreRead(bits, |TreeBits(t)|, t, symbols);
  }

  // ----- Whole scenes ------------------------------------------------------

  function FourBytes(n: nat): seq<byte>
    requires n < 4294967296
  {
    [n % 256, (n / 256) % 256, (n / 65536) % 256, n / 16777216]
  }

  function ZeroBytes(n: nat): seq<byte> {
    seq(n, _ => 0)
  }

  /** A version-25 header with the given compression mode and size. */
  function HeaderBytes(mode: byte, size: nat): seq<byte>
    requires size < 4294967296
  {
    MAGIC + FourBytes(25) + ZeroBytes(4) + [mode] + FourBytes(size) + ZeroBytes(HEADER - 17)
  }

  function CompressedScene(t: Tree, symbols: seq<byte>, padding: seq<byte>): seq<byte>
    requires Spelled(t, symbols) && |symbols| <= MAX_SCENE
  {
    HeaderBytes(1, |symbols|) + Pack(TreeBits(t) + Codes(t, symbols)) + padding
  }

  lemma FourBytesRead(n: nat)
    requires n < 4294967296
    ensures LittleEndian(FourBytes(n), 0) == n
  {
    var m := n / 256;
    var k := m / 256;
    assert n / 65536 == k && n / 16777216 == k / 256;
  }

  lemma HeaderIsRead(mode: byte, size: nat, rest: seq<byte>)
    requires 0 < size <= MAX_SCENE
    ensures var raw := HeaderBytes(mode, size) + rest;
            SupportedHeader(raw) && raw[12] == mode && LittleEndian(raw, 13) == size && raw[HEADER..] == rest
  {
    hide FourBytes;
    var raw := HeaderBytes(mode, size) + rest;
    FourBytesRead(25);
    FourBytesRead(size);
    assert |FourBytes(25)| == 4 && |FourBytes(size)| == 4 by {
      FourLong(25);
      FourLong(size);
    }
    assert raw[4..8] == FourBytes(25) && raw[13..17] == FourBytes(size);
    SameNumber(raw, 4, FourBytes(25));
    SameNumber(raw, 13, FourBytes(size));
    assert raw[..4] == MAGIC;
  }

  lemma FourLong(n: nat)
    requires n < 4294967296
    ensures |FourBytes(n)| == 4
  {
  }

  lemma SameNumber(raw: seq<byte>, at: nat, four: seq<byte>)
    requires at + 4 <= |raw| && |four| == 4 && raw[at..at + 4] == four
    ensures LittleEndian(raw, at) == LittleEndian(four, 0)
  {
    assert four[0] == raw[at] && four[1] == raw[at + 1] && four[2] == raw[at + 2] && four[3] == raw[at + 3];
  }

  /**
    A compressed scene decodes to its symbols, for every tree of distinct leaves, one leaf included, and any
    padding.
    */
  lemma SceneRoundTrip(t: Tree, symbols: seq<byte>, padding: seq<byte>)
    requires Distinct(t) && Spelled(t, symbols) && 0 < |symbols| <= MAX_SCENE
    ensures DecodedScene(CompressedScene(t, symbols, padding)) == Some(symbols)
  {
    hide Bits, Pack, TreeBits, Codes, Distinct, SupportedHeader, HeaderBytes, Decompressed, LittleEndian;
    var payload := TreeBits(t) + Codes(t, symbols);
    var rest := Pack(payload) + padding;
    HeaderIsRead(1, |symbols|, rest);
    assert CompressedScene(t, symbols, padding) == HeaderBytes(1, |symbols|) + rest;
    PackKeepsBits(payload);
    BitsOfPrefix(Pack(payload), padding);
    assert Bits(rest)[0..|payload|] == payload;
    EncodedIsDecompressed(Bits(rest), t, symbols);
  }

  lemma BitsOfPrefix(a: seq<byte>, b: seq<byte>)
    ensures Bits(a) <= Bits(a + b)
  {
    hide BitOf;
  }

  /** An uncompressed scene is its payload, and only if the announced size is right. */
  lemma PlainScene(size: nat, payload: seq<byte>)
    requires 0 < size <= MAX_SCENE
    ensures DecodedScene(HeaderBytes(0, size) + payload) == if |payload| == size then Some(payload) else None
  {
    hide SupportedHeader, HeaderBytes, Decompressed, LittleEndian, Bits;
    HeaderIsRead(0, size, payload);
  }

  /** What every accepted scene starts with, byte by byte: "VREP", version 25, a mode of 0 or 1, and its true size. */
  lemma AcceptedHeader(raw: seq<byte>)
    requires DecodedScene(raw).Some?
    ensures |raw| >= 1021 && raw[0] == 86 && raw[1] == 82 && raw[2] == 69 && raw[3] == 80
    ensures raw[4] == 25 && raw[5] == 0 && raw[6] == 0 && raw[7] == 0 && (raw[12] == 0 || raw[12] == 1)
    ensures var size := |DecodedScene(raw).value|;
            && 0 < size <= 100000000
            && raw[13] as int + 256 * raw[14] as int + 65536 * raw[15] as int + 16777216 * raw[16] as int == size
  {
    hide Bits, ParseTree, ParseSymbol;
    assert raw[..4][0] == 86 && raw[..4][1] == 82 && raw[..4][2] == 69 && raw[..4][3] == 80;
    if raw[12] == 1 {
      DecompressedLength(Bits(raw[HEADER..]), LittleEndian(raw, 13));
    }
  }

  lemma DecompressedLength(bits: seq<bool>, size: nat)
    requires Decompressed(bits, size).Some?
    ensures |Decompressed(bits, size).value| == size
  {
    hide ParseTree;
    var root := ParseTree(bits, 0, {}, 0);
    SymbolCount(bits, root.value.at, root.value.value.0, size);
  }

  lemma {:induction false} SymbolCount(bits: seq<bool>, at: nat, tree: Tree, n: nat)
    requires ParseSymbols(bits, at, tree, n).Some?
    ensures |ParseSymbols(bits, at, tree, n).value.value| == n
  {
    hide ParseSymbol;
    if n > 0 {
      SymbolCount(bits, at, tree, n - 1);
    }
  }
}
