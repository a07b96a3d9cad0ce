// The UF2 container: 512-byte blocks with a 32-byte header, a payload of up to 476 bytes
// and a trailing magic word, as the Microsoft UF2 specification lays them out.

module Uf2 {
  import opened Bytes

  const BLOCK_SIZE := 512
  const HEADER_SIZE := 32
  const MAX_PAYLOAD := 476
  const MAGIC_START0 := 0x0A324655
  const MAGIC_START1 := 0x9E5D5157
  const MAGIC_END := 0x0AB16F30
  const WORD := 0x1_0000_0000

  datatype Block = Block(flags: nat, target: nat, payload: seq<Byte>, family: nat)
  {
    // Bit 0 marks a block that is not part of the flash image.
    predicate Main() { flags % 2 == 0 }

    predicate Fits() { flags < WORD && target < WORD && family < WORD && |payload| <= MAX_PAYLOAD }

    predicate Covers(a: int) { Main() && target <= a < target + |payload| }
  }

  datatype Error =
    | NotContainer | BadMagic(offset: nat) | BadPayload(offset: nat)
    | BadLength | Gap(address: int) | NoFlash
    | Misaligned | Overlaps(target: nat) | DoesNotPack

  datatype Result<T> = Ok(value: T) | Err(error: Error)

  // ----- little-endian words -----

  function Le32(n: nat): (w: seq<Byte>)
    requires n < WORD
    ensures |w| == 4
  {
    var m := n / 0x100;
    var k := m / 0x100;
    [n % 0x100, m % 0x100, k % 0x100, k / 0x100]
  }

  function Word(data: seq<Byte>, at: nat): (n: nat)
    requires at + 4 <= |data|
    ensures n < WORD
  {
    var b0: nat, b1: nat, b2: nat, b3: nat := data[at], data[at + 1], data[at + 2], data[at + 3];
    b0 + 0x100 * b1 + 0x1_0000 * b2 + 0x100_0000 * b3
  }

  lemma WordRead(data: seq<Byte>, at: nat, n: nat)
    requires n < WORD && at + 4 <= |data| && data[at..at + 4] == Le32(n)
    ensures Word(data, at) == n
  {
    var w := data[at..at + 4];
    assert data[at] == w[0] && data[at + 1] == w[1] && data[at + 2] == w[2] && data[at + 3] == w[3];
    var m := n / 0x100;
    var k := m / 0x100;
    assert k == k % 0x100 + 0x100 * (k / 0x100) && m == m % 0x100 + 0x100 * k && n == n % 0x100 + 0x100 * m;
  }

  // ----- reading a container -----

  function DecodeBlock(data: seq<Byte>, offset: nat): (r: Result<Block>)
    requires offset + BLOCK_SIZE <= |data|
    ensures r.Ok? ==> r.value.Fits()
  {
    var size := Word(data, offset + 16);
    if Word(data, offset) != MAGIC_START0 || Word(data, offset + 4) != MAGIC_START1
       || Word(data, offset + BLOCK_SIZE - 4) != MAGIC_END then Err(BadMagic(offset))
    else if size > MAX_PAYLOAD then Err(BadPayload(offset))
    else Ok(Block(Word(data, offset + 8), Word(data, offset + 12),
                  data[offset + HEADER_SIZE..offset + HEADER_SIZE + size], Word(data, offset + 28)))
  }

  // The first n blocks, or the first thing wrong with them.
  function DecodeFirst(data: seq<Byte>, n: nat): (r: Result<seq<Block>>)
    requires n * BLOCK_SIZE <= |data|
    ensures r.Ok? ==> |r.value| == n && forall i | 0 <= i < n :: r.value[i].Fits()
  {
    if n == 0 then Ok([]) else
      var before := DecodeFirst(data, n - 1);
      if before.Err? then before else
        var last := DecodeBlock(data, (n - 1) * BLOCK_SIZE);
        if last.Err? then Err(last.error) else Ok(before.value + [last.value])
  }

  predicate IsContainerSize(data: seq<Byte>) { data != [] && |data| % BLOCK_SIZE == 0 }

  function Decode(data: seq<Byte>): (r: Result<seq<Block>>)
    ensures r.Ok? ==> |r.value| * BLOCK_SIZE == |data| && forall i | 0 <= i < |r.value| :: r.value[i].Fits()
  {
    if IsContainerSize(data) then DecodeFirst(data, |data| / BLOCK_SIZE) else Err(NotContainer)
  }

  lemma {:induction false} DecodeStops(data: seq<Byte>, m: nat, n: nat)
    requires m <= n && n * BLOCK_SIZE <= |data| && DecodeFirst(data, m).Err?
    ensures DecodeFirst(data, n) == DecodeFirst(data, m)
    decreases n
  {
    if m < n { DecodeStops(data, m, n - 1); }
  }

  method ReadBlocks(data: seq<Byte>) returns (r: Result<seq<Block>>)
    ensures r == Decode(data)
  {
    if |data| % BLOCK_SIZE != 0 || data == [] {
      return Err(NotContainer);
    }
    var out := [];
    var count := |data| / BLOCK_SIZE;
    for i := 0 to count
      invariant Ok(out) == DecodeFirst(data, i)
    {
      var block := DecodeBlock(data, i * BLOCK_SIZE);
      if block.Err? {
        assert DecodeFirst(data, i + 1) == Err(block.error);
        DecodeStops(data, i + 1, count);
        return Err(block.error);
      }
      out := out + [block.value];
    }
    r := Ok(out);
  }

  // ----- writing one -----

  function Zeros(n: nat): (z: seq<Byte>)
    ensures |z| == n
  {
    seq(n, _ => 0)
  }

  // The eight header words, the payload padded with zeros, the end magic.
  function Pack(b: Block, number: nat, count: nat): (data: seq<Byte>)
    requires b.Fits() && number < WORD && count < WORD
    ensures |data| == BLOCK_SIZE
  {
    Le32(MAGIC_START0) + Le32(MAGIC_START1) + Le32(b.flags) + Le32(b.target)
    + Le32(|b.payload|) + Le32(number) + Le32(count) + Le32(b.family)
    + (b.payload + Zeros(MAX_PAYLOAD - |b.payload|)) + Le32(MAGIC_END)
  }

  predicate AllFit(blocks: seq<Block>) { forall i | 0 <= i < |blocks| :: blocks[i].Fits() }

  // The first n of the blocks, numbered from 0 under one total.
  function PackFirst(blocks: seq<Block>, n: nat): (data: seq<Byte>)
    requires AllFit(blocks) && n <= |blocks| < WORD
    ensures |data| == n * BLOCK_SIZE
  {
    if n == 0 then [] else PackFirst(blocks, n - 1) + Pack(blocks[n - 1], n - 1, |blocks|)
  }

  function PackAll(blocks: seq<Block>): seq<Byte>
    requires AllFit(blocks) && |blocks| < WORD
  {
    PackFirst(blocks, |blocks|)
  }

  function NumberAt(data: seq<Byte>, i: nat): nat
    requires (i + 1) * BLOCK_SIZE <= |data|
  {
    Word(data, i * BLOCK_SIZE + 20)
  }

  function CountAt(data: seq<Byte>, i: nat): nat
    requires (i + 1) * BLOCK_SIZE <= |data|
  {
    Word(data, i * BLOCK_SIZE + 24)
  }

  lemma PackParts(b: Block, number: nat, count: nat)
    requires b.Fits() && number < WORD && count < WORD
    ensures var p := Pack(b, number, count);
            && p[0..4] == Le32(MAGIC_START0) && p[4..8] == Le32(MAGIC_START1)
            && p[8..12] == Le32(b.flags) && p[12..16] == Le32(b.target)
            && p[16..20] == Le32(|b.payload|) && p[20..24] == Le32(number)
            && p[24..28] == Le32(count) && p[28..32] == Le32(b.family)
            && p[32..32 + |b.payload|] == b.payload && p[508..512] == Le32(MAGIC_END)
  {
    hide Le32, Zeros;
  }

  lemma PackedWords(data: seq<Byte>, offset: nat, b: Block, number: nat, count: nat)
    requires b.Fits() && number < WORD && count < WORD
    requires offset + BLOCK_SIZE <= |data| && data[offset..offset + BLOCK_SIZE] == Pack(b, number, count)
    ensures DecodeBlock(data, offset) == Ok(b)
    ensures Word(data, offset + 20) == number && Word(data, offset + 24) == count
  {
    hide Le32, Word, Zeros, Pack;
    var p := Pack(b, number, count);
    PackParts(b, number, count);
    Slice(data, offset, p, 0, 4);
    Slice(data, offset, p, 4, 8);
    Slice(data, offset, p, 8, 12);
    Slice(data, offset, p, 12, 16);
    Slice(data, offset, p, 16, 20);
    Slice(data, offset, p, 20, 24);
    Slice(data, offset, p, 24, 28);
    Slice(data, offset, p, 28, 32);
    Slice(data, offset, p, 508, 512);
    Slice(data, offset, p, 32, 32 + |b.payload|);
    WordRead(data, offset, MAGIC_START0);
    WordRead(data, offset + 4, MAGIC_START1);
    WordRead(data, offset + 8, b.flags);
    WordRead(data, offset + 12, b.target);
    WordRead(data, offset + 16, |b.payload|);
    WordRead(data, offset + 20, number);
    WordRead(data, offset + 24, count);
    WordRead(data, offset + 28, b.family);
    WordRead(data, offset + 508, MAGIC_END);
  }

  lemma Slice(data: seq<Byte>, offset: nat, part: seq<Byte>, i: nat, j: nat)
    requires i <= j <= |part| && offset + |part| <= |data| && data[offset..offset + |part|] == part
    ensures data[offset + i..offset + j] == part[i..j]
  {
    var whole, a, b := data[offset..offset + |part|], data[offset + i..offset + j], part[i..j];
    forall q | 0 <= q < |a| ensures a[q] == b[q] { assert whole[i + q] == data[offset + i + q]; }
  }

  lemma {:induction false} PackedAt(blocks: seq<Block>, n: nat, i: nat)
    requires AllFit(blocks) && i < n <= |blocks| < WORD
    ensures PackFirst(blocks, n)[i * BLOCK_SIZE..(i + 1) * BLOCK_SIZE] == Pack(blocks[i], i, |blocks|)
  {
    hide Pack;
    var before := PackFirst(blocks, n - 1);
    if i < n - 1 {
      PackedAt(blocks, n - 1, i);
      assert PackFirst(blocks, n)[i * BLOCK_SIZE..(i + 1) * BLOCK_SIZE] == before[i * BLOCK_SIZE..(i + 1) * BLOCK_SIZE];
    }
  }

  lemma {:induction false} DecodedFirst(blocks: seq<Block>, n: nat)
    requires AllFit(blocks) && n <= |blocks| < WORD
    ensures DecodeFirst(PackAll(blocks), n) == Ok(blocks[..n])
  {
    hide Pack, DecodeBlock;
    if n > 0 {
      DecodedFirst(blocks, n - 1);
      PackedAt(blocks, |blocks|, n - 1);
      assert (n - 1) * BLOCK_SIZE + BLOCK_SIZE == n * BLOCK_SIZE;
      PackedWords(PackAll(blocks), (n - 1) * BLOCK_SIZE, blocks[n - 1], n - 1, |blocks|);
      assert blocks[..n] == blocks[..n - 1] + [blocks[n - 1]];
    }
  }

  // A packed list of blocks decodes to those blocks, numbered 0 to n-1, each with count n.
  lemma PackedDecodes(blocks: seq<Block>)
    requires AllFit(blocks) && 0 < |blocks| < WORD
    ensures Decode(PackAll(blocks)) == Ok(blocks)
    ensures forall i | 0 <= i < |blocks| ::
              NumberAt(PackAll(blocks), i) == i && CountAt(PackAll(blocks), i) == |blocks|
  {
    hide Pack, DecodeBlock;
    DecodedFirst(blocks, |blocks|);
    assert blocks[..|blocks|] == blocks;
    forall i | 0 <= i < |blocks|
      ensures NumberAt(PackAll(blocks), i) == i && CountAt(PackAll(blocks), i) == |blocks|
    {
      PackedAt(blocks, |blocks|, i);
      PackedWords(PackAll(blocks), i * BLOCK_SIZE, blocks[i], i, |blocks|);
    }
  }

  // ----- one block, byte by byte -----

  lemma WordIs(data: seq<Byte>, at: nat, a: Byte, b: Byte, c: Byte, d: Byte)
    requires at + 4 <= |data| && data[at..at + 4] == [a, b, c, d]
    ensures Word(data, at) == a + 0x100 * b + 0x1_0000 * c + 0x100_0000 * d
  {
    var w := data[at..at + 4];
    assert data[at] == w[0] && data[at + 1] == w[1] && data[at + 2] == w[2] && data[at + 3] == w[3];
  }

  lemma OneBlock(data: seq<Byte>)
    requires |data| == 512 && DecodeBlock(data, 0).Ok?
    ensures Decode(data) == Ok([DecodeBlock(data, 0).value])
  {
    hide DecodeBlock;
    assert DecodeFirst(data, 0) == Ok([]);
    var block := DecodeBlock(data, 0).value;
    assert [] + [block] == [block];
    assert DecodeFirst(data, 1) == Ok([block]);
  }

  // Four bytes for 0x10000000, in the RP2040's family.
  lemma BlockLaid(data: seq<Byte>)
    requires |data| == 512
    requires data[0..4] == [0x55, 0x46, 0x32, 0x0a] && data[4..8] == [0x57, 0x51, 0x5d, 0x9e]
    requires data[8..12] == [0, 0x20, 0, 0] && data[12..16] == [0, 0, 0, 0x10] && data[16..20] == [4, 0, 0, 0]
    requires data[28..32] == [0x56, 0xff, 0x8b, 0xe4] && data[508..512] == [0x30, 0x6f, 0xb1, 0x0a]
    ensures Decode(data) == Ok([Block(0x2000, 0x1000_0000, data[32..36], 0xe48b_ff56)])
  {
    hide Word, Decode;
    WordIs(data, 0, 0x55, 0x46, 0x32, 0x0a);
    WordIs(data, 4, 0x57, 0x51, 0x5d, 0x9e);
    WordIs(data, 8, 0, 0x20, 0, 0);
    WordIs(data, 12, 0, 0, 0, 0x10);
    WordIs(data, 16, 4, 0, 0, 0);
    WordIs(data, 28, 0x56, 0xff, 0x8b, 0xe4);
    WordIs(data, 508, 0x30, 0x6f, 0xb1, 0x0a);
    OneBlock(data);
  }
}
