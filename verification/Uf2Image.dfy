// What a container puts in flash, and the container that also blanks one sector.

module Uf2Image {
  import opened Text
  import opened Bytes
  import opened Uf2

  // The byte the last main-flash block in list order supplies at an address.
  function ByteAt(blocks: seq<Block>, a: int): Option<Byte> {
    if blocks == [] then None else
      var last := blocks[|blocks| - 1];
      if last.Covers(a) then Some(last.payload[a - last.target]) else ByteAt(blocks[..|blocks| - 1], a)
  }

  // The bytes an image must hold: every address supplied, each by its last block.
  ghost predicate IsImage(blocks: seq<Block>, start: int, image: seq<Byte>) {
    forall i | 0 <= i < |image| :: ByteAt(blocks, start + i) == Some(image[i])
  }

  ghost predicate FirstGap(blocks: seq<Block>, start: int, length: int, address: int) {
    && start <= address < start + length && ByteAt(blocks, address).None?
    && forall a | start <= a < address :: ByteAt(blocks, a).Some?
  }

  // The answer extract_image must give.
  ghost predicate Extracts(data: seq<Byte>, start: int, length: int, r: Result<seq<Byte>>) {
    if length <= 0 then r == Err(BadLength) else
      match Decode(data)
      case Err(e) => r == Err(e)
      case Ok(blocks) =>
        match r
        case Ok(image) => |image| == length && IsImage(blocks, start, image)
        case Err(Gap(address)) => FirstGap(blocks, start, length, address)
        case _ => false
  }

  // What the image so far holds is what the blocks so far supply.
  ghost predicate Holds(image: seq<Byte>, covered: seq<bool>, blocks: seq<Block>, start: int) {
    && |image| == |covered|
    && forall s | 0 <= s < |image| ::
         ByteAt(blocks, start + s) == if covered[s] then Some(image[s]) else None
  }

  method ExtractImage(data: seq<Byte>, start: int, length: int) returns (r: Result<seq<Byte>>)
    ensures Extracts(data, start, length, r)
  {
    if length <= 0 {
      return Err(BadLength);
    }
    var image, covered := new Byte[length](_ => 0), new bool[length](_ => false);
    var decoded := ReadBlocks(data);
    if decoded.Err? {
      return Err(decoded.error);
    }
    var blocks := decoded.value;
    for j := 0 to |blocks|
      invariant Holds(image[..], covered[..], blocks[..j], start)
    {
      var block := blocks[j];
      assert blocks[..j + 1] == blocks[..j] + [block];
      if !block.Main() {
        NotMain(blocks[..j], block, image[..], covered[..], start);
        continue;
      }
      Deliver(image, covered, block, start, blocks[..j]);
    }
    assert blocks[..|blocks|] == blocks;
    var missing := Uncovered(covered[..]);
    Judge(blocks, start, image[..], covered[..], missing);
    r := if missing < length then Err(Gap(start + missing)) else Ok(image[..]);
  }

  // A block's bytes, each to its slot if it has one.
  method Deliver(image: array<Byte>, covered: array<bool>, block: Block, start: int, ghost before: seq<Block>)
    requires Holds(image[..], covered[..], before, start) && block.Main()
    modifies image, covered
    ensures Holds(image[..], covered[..], before + [block], start)
  {
    NothingYet(before, block, image[..], covered[..], start);
    for index := 0 to |block.payload|
      invariant Holds(image[..], covered[..], before + [Part(block, index)], start)
    {
      hide Holds;
      var slot := block.target + index - start;
      ghost var was, had := image[..], covered[..];
      SameLength(was, had, before + [Part(block, index)], start);
      if 0 <= slot < image.Length {
        image[slot] := block.payload[index];
        covered[slot] := true;
        assert image[..] == was[slot := block.payload[index]] && covered[..] == had[slot := true];
      }
      OneMore(before, block, index, was, had, image[..], covered[..], start);
    }
    assert Part(block, |block.payload|) == block;
  }

  lemma SameLength(image: seq<Byte>, covered: seq<bool>, blocks: seq<Block>, start: int)
    requires Holds(image, covered, blocks, start)
    ensures |image| == |covered|
  {
  }

  // covered.index(0), or the length when every flag is set.
  method Uncovered(covered: seq<bool>) returns (n: nat)
    ensures n <= |covered| && (forall s | 0 <= s < n :: covered[s]) && (n < |covered| ==> !covered[n])
  {
    n := 0;
    while n < |covered| && covered[n]
      invariant n <= |covered| && forall s | 0 <= s < n :: covered[s]
    {
      n := n + 1;
    }
  }

  lemma Judge(blocks: seq<Block>, start: int, image: seq<Byte>, covered: seq<bool>, n: nat)
    requires Holds(image, covered, blocks, start)
    requires n <= |covered| && (forall s | 0 <= s < n :: covered[s]) && (n < |covered| ==> !covered[n])
    ensures n == |image| ==> IsImage(blocks, start, image)
    ensures n < |image| ==> FirstGap(blocks, start, |image|, start + n)
  {
    hide ByteAt;
    forall a | start <= a < start + n ensures ByteAt(blocks, a).Some? {
      var s := a - start;
      assert ByteAt(blocks, start + s) == Some(image[s]);
    }
  }

  // A block that has delivered its first n bytes.
  function Part(b: Block, n: nat): Block
    requires n <= |b.payload|
  {
    b.(payload := b.payload[..n])
  }

  lemma ByteAtLast(blocks: seq<Block>, b: Block, a: int)
    ensures ByteAt(blocks + [b], a) == if b.Covers(a) then Some(b.payload[a - b.target]) else ByteAt(blocks, a)
  {
    assert (blocks + [b])[..|blocks|] == blocks;
  }

  lemma NotMain(blocks: seq<Block>, b: Block, image: seq<Byte>, covered: seq<bool>, start: int)
    requires Holds(image, covered, blocks, start) && !b.Main()
    ensures Holds(image, covered, blocks + [b], start)
  {
    forall a ensures ByteAt(blocks + [b], a) == ByteAt(blocks, a) {
      ByteAtLast(blocks, b, a);
    }
  }

  lemma NothingYet(blocks: seq<Block>, b: Block, image: seq<Byte>, covered: seq<bool>, start: int)
    requires Holds(image, covered, blocks, start)
    ensures Holds(image, covered, blocks + [Part(b, 0)], start)
  {
    forall a ensures ByteAt(blocks + [Part(b, 0)], a) == ByteAt(blocks, a) {
      ByteAtLast(blocks, Part(b, 0), a);
    }
  }

  lemma OneMore(blocks: seq<Block>, b: Block, n: nat, was: seq<Byte>, had: seq<bool>,
                image: seq<Byte>, covered: seq<bool>, start: int)
    requires b.Main() && n < |b.payload| && Holds(was, had, blocks + [Part(b, n)], start)
    requires var slot := b.target + n - start;
             if 0 <= slot < |was| then image == was[slot := b.payload[n]] && covered == had[slot := true]
             else image == was && covered == had
    ensures Holds(image, covered, blocks + [Part(b, n + 1)], start)
  {
    forall s | 0 <= s < |image|
      ensures ByteAt(blocks + [Part(b, n + 1)], start + s) == if covered[s] then Some(image[s]) else None
    {
      ByteAtLast(blocks, Part(b, n + 1), start + s);
      ByteAtLast(blocks, Part(b, n), start + s);
      assert ByteAt(blocks + [Part(b, n)], start + s) == if had[s] then Some(was[s]) else None;
    }
  }

  // ----- how far it reaches -----

  predicate Counts(b: Block) { b.Main() && b.payload != [] }

  // The smallest interval that holds every non-empty main-flash payload.
  ghost predicate IsExtent(blocks: seq<Block>, start: nat, length: nat) {
    && (forall b | b in blocks && Counts(b) :: start <= b.target && b.target + |b.payload| <= start + length)
    && (exists b | b in blocks && Counts(b) :: b.target == start)
    && (exists b | b in blocks && Counts(b) :: b.target + |b.payload| == start + length)
  }

  lemma CountsIff(b: Block)
    ensures Counts(b) <==> exists a: int :: b.Covers(a)
  {
    if Counts(b) { assert b.Covers(b.target); }
  }

  lemma {:induction false} ByteIffCovered(blocks: seq<Block>, a: int)
    ensures ByteAt(blocks, a).Some? <==> exists b :: b in blocks && b.Covers(a)
  {
    if blocks != [] {
      var n := |blocks| - 1;
      assert blocks == blocks[..n] + [blocks[n]];
      ByteIffCovered(blocks[..n], a);
      ByteAtLast(blocks[..n], blocks[n], a);
      assert forall b :: b in blocks <==> b in blocks[..n] || b == blocks[n];
    }
  }

  // The container puts no byte outside its extent, and one at either end of it.
  lemma ExtentHolds(blocks: seq<Block>, start: nat, length: nat)
    requires IsExtent(blocks, start, length)
    ensures forall a | ByteAt(blocks, a).Some? :: start <= a < start + length
    ensures ByteAt(blocks, start).Some? && ByteAt(blocks, start + length - 1).Some?
  {
    hide ByteAt;
    forall a | ByteAt(blocks, a).Some? ensures start <= a < start + length {
      ByteIffCovered(blocks, a);
      var b :| b in blocks && b.Covers(a);
      CountsIff(b);
    }
    ByteIffCovered(blocks, start);
    ByteIffCovered(blocks, start + length - 1);
    var low :| low in blocks && Counts(low) && low.target == start;
    var high :| high in blocks && Counts(high) && high.target + |high.payload| == start + length;
    assert low.Covers(start) && high.Covers(start + length - 1);
  }

  method ImageExtent(data: seq<Byte>) returns (r: Result<(nat, nat)>)
    ensures match Decode(data)
            case Err(e) => r == Err(e)
            case Ok(blocks) =>
              (r.Ok? ==> IsExtent(blocks, r.value.0, r.value.1) && r.value.1 > 0)
              && (r.Err? ==> r == Err(NoFlash) && forall b | b in blocks :: !Counts(b))
  {
    var decoded := ReadBlocks(data);
    if decoded.Err? {
      return Err(decoded.error);
    }
    var blocks := decoded.value;
    var found, start, end := false, 0, 0;
    for i := 0 to |blocks|
      invariant !found ==> forall j | 0 <= j < i :: !Counts(blocks[j])
      invariant found ==>
        && start < end
        && (forall j | 0 <= j < i && Counts(blocks[j]) ::
              start <= blocks[j].target && blocks[j].target + |blocks[j].payload| <= end)
        && (exists j | 0 <= j < i :: Counts(blocks[j]) && blocks[j].target == start)
        && (exists j | 0 <= j < i :: Counts(blocks[j]) && blocks[j].target + |blocks[j].payload| == end)
    {
      var b := blocks[i];
      if Counts(b) {
        var stop := b.target + |b.payload|;
        start := if !found || b.target < start then b.target else start;
        end := if !found || stop > end then stop else end;
        found := true;
      }
    }
    r := if found then Ok((start, end - start)) else Err(NoFlash);
  }

  // The length of the image when the raw file staged beside the container can say.
  method LinkedLength(data: seq<Byte>, start: int, length: nat, bin: Option<seq<Byte>>) returns (r: Result<nat>)
    ensures r.Ok? && r.value != length ==>
              bin.Some? && bin.value != [] && |bin.value| == r.value < length
              && Decode(data).Ok? && IsImage(Decode(data).value, start, bin.value)
    ensures bin.Some? && 0 < |bin.value| <= length && Decode(data).Ok? && IsImage(Decode(data).value, start, bin.value)
            ==> r == Ok(|bin.value|)
    ensures r.Err? ==> bin.Some? && 0 < |bin.value| <= length && Extracts(data, start, |bin.value|, Err(r.error))
  {
    if bin.None? {
      return Ok(length);
    }
    var linked := bin.value;
    if linked == [] || |linked| > length {
      return Ok(length);
    }
    hide ByteAt, Decode;
    var image := ExtractImage(data, start, |linked|);
    if image.Err? {
      GapIsNoImage(data, start, linked, image.error);
      return Err(image.error);
    }
    if image.value != linked {
      OneImage(Decode(data).value, start, image.value, linked);
      return Ok(length);
    }
    r := Ok(|linked|);
  }

  lemma GapIsNoImage(data: seq<Byte>, start: int, image: seq<Byte>, e: Error)
    requires image != [] && Extracts(data, start, |image|, Err(e))
    ensures Decode(data).Ok? ==> !IsImage(Decode(data).value, start, image)
  {
    hide ByteAt, Decode;
    if Decode(data).Ok? {
      var i := e.address - start;
      assert 0 <= i < |image|;
      assert ByteAt(Decode(data).value, start + i) != Some(image[i]);
    }
  }

  lemma OneImage(blocks: seq<Block>, start: int, x: seq<Byte>, y: seq<Byte>)
    requires IsImage(blocks, start, x) && |x| == |y| && x != y
    ensures !IsImage(blocks, start, y)
  {
    var i :| 0 <= i < |x| && x[i] != y[i];
    assert ByteAt(blocks, start + i) == Some(x[i]);
  }
}
