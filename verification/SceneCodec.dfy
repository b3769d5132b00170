/** decode_scene: the header, the Huffman tree and the symbols of a serialised scene. */
module SceneCodec {
  import opened Options
  import opened BitStream

  // ----- Specification over bits -------------------------------------------

  /** A decoding tree; code bit 0 goes to the first branch. */
  datatype Tree = Leaf(symbol: byte) | Node(zero: Tree, one: Tree)

  const MAX_DEPTH := 255

  datatype Parsed<+T> = Parsed(value: T, at: nat)

  /** The number in the next count bits. */
  function ReadNumber(bits: seq<bool>, at: nat, count: nat): Option<Parsed<nat>> {
    if at + count > |bits| then None else Some(Parsed(Number(bits[at..at + count]), at + count))
  }

  function ReadByte(bits: seq<bool>, at: nat): Option<Parsed<byte>> {
    if at + 8 > |bits| then None
    else
      NumberOfEight(bits[at..at + 8]);
      Some(Parsed(Number(bits[at..at + 8]), at + 8))
  }

  /** A tree in prefix order: 1 and a fresh symbol for a leaf, 0 and two trees for a node. */
  function ParseTree(bits: seq<bool>, at: nat, leaves: set<byte>, depth: nat): Option<Parsed<(Tree, set<byte>)>>
    decreases MAX_DEPTH + 1 - depth
  {
    if depth > MAX_DEPTH || at >= |bits| then None
    else if bits[at] then
      var symbol := ReadByte(bits, at + 1);
      if symbol == None || symbol.value.value in leaves then None
      else Some(Parsed((Leaf(symbol.value.value), leaves + {symbol.value.value}), symbol.value.at))
    else
      var zero := ParseTree(bits, at + 1, leaves, depth + 1);
      if zero == None then None
      else
        var one := ParseTree(bits, zero.value.at, zero.value.value.1, depth + 1);
        if one == None then None
        else Some(Parsed((Node(zero.value.value.0, one.value.value.0), one.value.value.1), one.value.at))
  }

  /** One symbol: down the tree, a bit at each node. */
  function ParseSymbol(bits: seq<bool>, at: nat, tree: Tree): Option<Parsed<byte>>
    decreases tree
  {
    match tree
    case Leaf(symbol) => Some(Parsed(symbol, at))
    case Node(zero, one) =>
      if at >= |bits| then None else ParseSymbol(bits, at + 1, if bits[at] then one else zero)
  }

  function ParseSymbols(bits: seq<bool>, at: nat, tree: Tree, n: nat): Option<Parsed<seq<byte>>> {
    if n == 0 then Some(Parsed([], at))
    else
      var front := ParseSymbols(bits, at, tree, n - 1);
      if front == None then None
      else
        var last := ParseSymbol(bits, front.value.at, tree);
        if last == None then None else Some(Parsed(front.value.value + [last.value.value], last.value.at))
  }

  /** A compressed payload: the tree, then size symbols; whatever follows is ignored. */
  function Decompressed(bits: seq<bool>, size: nat): Option<seq<byte>> {
    var root := ParseTree(bits, 0, {}, 0);
    if root == None then None
    else
      var symbols := ParseSymbols(bits, root.value.at, root.value.value.0, size);
      if symbols == None then None else Some(symbols.value.value)
  }

  // ----- The header --------------------------------------------------------

  const HEADER := 1021
  const MAX_SCENE := 100000000
  const MAGIC: seq<byte> := [86, 82, 69, 80]

  /** A little-endian 32-bit number. */
  function LittleEndian(raw: seq<byte>, at: nat): nat
    requires at + 4 <= |raw|
  {
    var b0: nat, b1: nat, b2: nat, b3: nat := raw[at], raw[at + 1], raw[at + 2], raw[at + 3];
    b0 + 256 * b1 + 65536 * b2 + 16777216 * b3
  }

  predicate SupportedHeader(raw: seq<byte>) {
    |raw| >= HEADER && raw[..4] == MAGIC && LittleEndian(raw, 4) == 25 && 0 < LittleEndian(raw, 13) <= MAX_SCENE
  }

  function DecodedScene(raw: seq<byte>): Option<seq<byte>> {
    if !SupportedHeader(raw) then None
    else
      var size, data := LittleEndian(raw, 13), raw[HEADER..];
      if raw[12] == 0 then (if |data| == size then Some(data) else None)
      else if raw[12] == 1 then Decompressed(Bits(data), size)
      else None
  }

  // ----- The decoder -------------------------------------------------------

  /** The nested readers of decode_scene share the bit position and the set of leaves. */
  class Decoder {
    const data: seq<byte>
    var bit: nat
    var leaves: set<byte>

    constructor (data: seq<byte>)
      ensures this.data == data && bit == 0 && leaves == {}
    {
      this.data := data;
      bit, leaves := 0, {};
    }

    ghost predicate Valid()
      reads this
    {
      bit <= 8 * |data|
    }

    /** Shifts in count bits, most significant first; fails at the end of the data. */
    method ReadBits(count: nat) returns (value: Option<nat>)
      requires Valid()
      modifies this`bit
      ensures Valid()
      ensures value.Some? <==> ReadNumber(Bits(data), old(bit), count).Some?
      ensures value.Some? ==> ReadNumber(Bits(data), old(bit), count) == Some(Parsed(value.value, bit))
    {
      hide BitAt;
      var number := 0;
      for i := 0 to count
        invariant Valid() && bit == old(bit) + i && number == Number(Bits(data)[old(bit)..bit])
      {
        if bit >= 8 * |data| {
          return None;
        }
        assert Bits(data)[old(bit)..bit + 1][..i] == Bits(data)[old(bit)..bit];
        number := 2 * number + BitValue(BitAt(data, bit));
        bit := bit + 1;
      }
      return Some(number);
    }

    /** Reads a tree; fails when it is too deep, repeats a symbol, or does not end. */
    method ReadTree(depth: nat) returns (tree: Option<Tree>)
      requires Valid() && depth <= MAX_DEPTH + 1
      modifies this`bit, this`leaves
      ensures Valid()
      ensures tree.Some? <==> ParseTree(Bits(data), old(bit), old(leaves), depth).Some?
      ensures tree.Some? ==>
                ParseTree(Bits(data), old(bit), old(leaves), depth) == Some(Parsed((tree.value, leaves), bit))
      decreases MAX_DEPTH + 1 - depth
    {
      hide Number, Bits;
      if depth > MAX_DEPTH {
        return None;
      }
      var leaf := ReadBits(1);
      if leaf == None {
        return None;
      }
      OneBit(Bits(data), old(bit));
      if leaf.value == 1 {
        var symbol := ReadBits(8);
        if symbol == None || symbol.value in leaves {
          return None;
        }
        OneByte(Bits(data), old(bit) + 1);
        leaves := leaves + {symbol.value};
        return Some(Leaf(symbol.value));
      }
      var zero := ReadTree(depth + 1);
      if zero == None {
        return None;
      }
      var one := ReadTree(depth + 1);
      if one == None {
        return None;
      }
      return Some(Node(zero.value, one.value));
    }

    /** Walks down the tree, a bit at each node. */
    method ReadSymbol(tree: Tree) returns (symbol: Option<byte>)
      requires Valid()
      modifies this`bit
      ensures Valid()
      ensures symbol.Some? <==> ParseSymbol(Bits(data), old(bit), tree).Some?
      ensures symbol.Some? ==> ParseSymbol(Bits(data), old(bit), tree) == Some(Parsed(symbol.value, bit))
    {
      hide Number, Bits;
      var node := tree;
      while node.Node?
        invariant Valid() && ParseSymbol(Bits(data), bit, node) == ParseSymbol(Bits(data), old(bit), tree)
        decreases node
      {
        ghost var at := bit;
        var branch := ReadBits(1);
        if branch == None {
          return None;
        }
        OneBit(Bits(data), at);
        node := if branch.value == 1 then node.one else node.zero;
      }
      return Some(node.symbol);
    }
  }

  lemma OneBit(bits: seq<bool>, at: nat)
    requires at < |bits|
    ensures Number(bits[at..at + 1]) == BitValue(bits[at])
  {
    assert bits[at..at + 1] == [bits[at]];
  }

  lemma OneByte(bits: seq<bool>, at: nat)
    requires at + 8 <= |bits|
    ensures Number(bits[at..at + 8]) < 256
    ensures ReadByte(bits, at) == Some(Parsed(Number(bits[at..at + 8]), at + 8))
  {
    NumberOfEight(bits[at..at + 8]);
  }

  /**
    Decodes a scene: every input yields exactly the announced number of bytes or fails, and no byte past the end
    is ever read.
    */
  method DecodeScene(raw: seq<byte>) returns (scene: Option<seq<byte>>)
    ensures scene == DecodedScene(raw)
    ensures scene.Some? ==> |scene.value| == LittleEndian(raw, 13)
  {
    hide Bits, ParseTree, ParseSymbol;
    if !SupportedHeader(raw) {
      return None;
    }
    var size, data := LittleEndian(raw, 13), raw[HEADER..];
    if raw[12] == 0 {
      return if |data| == size then Some(data) else None;
    }
    if raw[12] != 1 {
      return None;
    }
    var decoder := new Decoder(data);
    var root := decoder.ReadTree(0);
    if root == None {
      return None;
    }
    var output: seq<byte> := [];
    ghost var start := decoder.bit;
    for i := 0 to size
      invariant decoder.Valid() && |output| == i
      invariant ParseSymbols(Bits(data), start, root.value, i) == Some(Parsed(output, decoder.bit))
    {
      var symbol := decoder.ReadSymbol(root.value);
      if symbol == None {
        StopsEarly(Bits(data), start, root.value, i + 1, size);
        return None;
      }
      output := output + [symbol.value];
    }
    return Some(output);
  }

  /** Once a symbol cannot be read, no longer list can be read either. */
  lemma StopsEarly(bits: seq<bool>, at: nat, tree: Tree, n: nat, size: nat)
    requires ParseSymbols(bits, at, tree, n) == None && n <= size
    ensures ParseSymbols(bits, at, tree, size) == None
  {
    if n < size {
      StopsEarly(bits, at, tree, n, size - 1);
    }
  }
}
