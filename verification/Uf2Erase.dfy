// A container rewritten so that it also blanks one sector, and what it then puts in flash.

module Uf2Erase {
  import opened Text
  import opened Bytes
  import opened Uf2
  import opened Uf2Image

  const SECTOR_SIZE := 4096
  const PAGE_SIZE := 256
  const PAGES := 16

  function Blank(): (page: seq<Byte>)
    ensures |page| == PAGE_SIZE && forall i | 0 <= i < |page| :: page[i] == 0xFF
  {
    seq(PAGE_SIZE, _ => 0xFF)
  }

  // The first n erased pages of the sector.
  function Pages(flags: nat, family: nat, address: nat, n: nat): (pages: seq<Block>)
    ensures |pages| == n
    ensures forall i | 0 <= i < n :: pages[i] == Block(flags, address + PAGE_SIZE * i, Blank(), family)
  {
    if n == 0 then []
    else Pages(flags, family, address, n - 1) + [Block(flags, address + PAGE_SIZE * (n - 1), Blank(), family)]
  }

  // ----- a stable sort by target -----

  function Insert(sorted: seq<Block>, b: Block): seq<Block> {
    if sorted == [] || sorted[|sorted| - 1].target <= b.target then sorted + [b]
    else Insert(sorted[..|sorted| - 1], b) + [sorted[|sorted| - 1]]
  }

  function Sorted(blocks: seq<Block>): seq<Block> {
    if blocks == [] then [] else Insert(Sorted(blocks[..|blocks| - 1]), blocks[|blocks| - 1])
  }

  predicate Ascending(blocks: seq<Block>) {
    forall i, j | 0 <= i < j < |blocks| :: blocks[i].target <= blocks[j].target
  }

  lemma {:induction false} InsertSorts(sorted: seq<Block>, b: Block)
    requires Ascending(sorted)
    ensures Ascending(Insert(sorted, b))
    ensures multiset(Insert(sorted, b)) == multiset(sorted) + multiset{b}
  {
    hide Ascending;
    if sorted != [] && sorted[|sorted| - 1].target > b.target {
      var init, last := sorted[..|sorted| - 1], sorted[|sorted| - 1];
      assert sorted == init + [last];
      InitSorts(init, last);
      InsertSorts(init, b);
      AppendSorts(init, b, Insert(init, b), last);
    } else {
      EndSorts(sorted, b);
    }
  }

  lemma InitSorts(init: seq<Block>, last: Block)
    requires Ascending(init + [last])
    ensures Ascending(init)
  {
    assert forall i | 0 <= i < |init| :: (init + [last])[i] == init[i];
  }

  lemma EndSorts(sorted: seq<Block>, b: Block)
    requires Ascending(sorted) && (sorted != [] ==> sorted[|sorted| - 1].target <= b.target)
    ensures Ascending(sorted + [b])
  {
  }

  lemma AppendSorts(init: seq<Block>, b: Block, rest: seq<Block>, last: Block)
    requires Ascending(init + [last]) && last.target > b.target
    requires Ascending(rest) && multiset(rest) == multiset(init) + multiset{b}
    ensures Ascending(rest + [last])
  {
    forall i | 0 <= i < |rest| ensures rest[i].target <= last.target {
      assert rest[i] in multiset(rest);
      if rest[i] != b {
        assert rest[i] in init;
        var j :| 0 <= j < |init| && init[j] == rest[i];
        assert (init + [last])[j] == init[j] && (init + [last])[|init|] == last;
      }
    }
  }

  // The output is the input's blocks, in target order.
  lemma {:induction false} SortedSorts(blocks: seq<Block>)
    ensures Ascending(Sorted(blocks)) && multiset(Sorted(blocks)) == multiset(blocks)
    ensures |Sorted(blocks)| == |blocks|
  {
    if blocks != [] {
      var n := |blocks| - 1;
      assert blocks == blocks[..n] + [blocks[n]];
      SortedSorts(blocks[..n]);
      InsertSorts(Sorted(blocks[..n]), blocks[n]);
    }
    assert |multiset(Sorted(blocks))| == |Sorted(blocks)|;
  }

  // The last main-flash block in list order that covers an address.
  function LastOver(blocks: seq<Block>, a: int): (r: Option<Block>)
    ensures r.Some? ==> r.value.Covers(a) && r.value in blocks
    ensures r.None? ==> forall b | b in blocks :: !b.Covers(a)
    ensures ByteAt(blocks, a) == if r.Some? then Some(r.value.payload[a - r.value.target]) else None
  {
    if blocks == [] then None else
      var last := blocks[|blocks| - 1];
      if last.Covers(a) then Some(last) else LastOver(blocks[..|blocks| - 1], a)
  }

  // Of the main-flash blocks that cover an address, the one with the highest target; the
  // later one in list order of those with the same.
  function HighestOver(blocks: seq<Block>, a: int): (r: Option<Block>)
    ensures r.Some? ==> r.value.Covers(a) && r.value in blocks
    ensures r.None? ==> forall b | b in blocks :: !b.Covers(a)
    ensures r.Some? ==> forall b | b in blocks && b.Covers(a) :: b.target <= r.value.target
  {
    if blocks == [] then None else
      var last, before := blocks[|blocks| - 1], HighestOver(blocks[..|blocks| - 1], a);
      if !last.Covers(a) || (before.Some? && before.value.target > last.target) then before else Some(last)
  }

  lemma LastOverNext(blocks: seq<Block>, b: Block, a: int)
    ensures LastOver(blocks + [b], a) == if b.Covers(a) then Some(b) else LastOver(blocks, a)
  {
    hide Block.Covers;
    assert (blocks + [b])[..|blocks|] == blocks;
  }

  lemma LastOverAtMost(sorted: seq<Block>, a: int)
    requires Ascending(sorted) && LastOver(sorted, a).Some?
    ensures sorted != [] && LastOver(sorted, a).value.target <= sorted[|sorted| - 1].target
  {
    hide Block.Covers;
    var i :| 0 <= i < |sorted| && sorted[i] == LastOver(sorted, a).value;
  }

  lemma {:induction false} InsertOver(sorted: seq<Block>, b: Block, a: int)
    requires Ascending(sorted)
    ensures var over := LastOver(sorted, a);
            LastOver(Insert(sorted, b), a) ==
            if !b.Covers(a) || (over.Some? && over.value.target > b.target) then over else Some(b)
  {
    hide LastOver, Block.Covers;
    if sorted == [] || sorted[|sorted| - 1].target <= b.target {
      LastOverNext(sorted, b, a);
      if LastOver(sorted, a).Some? { LastOverAtMost(sorted, a); }
    } else {
      var n := |sorted| - 1;
      InsertOver(sorted[..n], b, a);
      LastOverNext(Insert(sorted[..n], b), sorted[n], a);
      LastOverNext(sorted[..n], sorted[n], a);
      assert sorted == sorted[..n] + [sorted[n]];
    }
  }

  // What sorting by target does to an address, with nothing assumed of the blocks: the
  // highest-placed block over it wins.
  lemma {:induction false} SortedOver(blocks: seq<Block>, a: int)
    ensures LastOver(Sorted(blocks), a) == HighestOver(blocks, a)
  {
    if blocks != [] {
      var n := |blocks| - 1;
      SortedOver(blocks[..n], a);
      SortedSorts(blocks[..n]);
      InsertOver(Sorted(blocks[..n]), blocks[n], a);
    }
  }

  // A main-flash block that starts higher than a later one does not reach into it.
  ghost predicate InOrder(blocks: seq<Block>) {
    forall i, j | 0 <= i < j < |blocks| && blocks[i].Main() && blocks[j].Main() &&
      blocks[i].target > blocks[j].target ::
      blocks[j].target + |blocks[j].payload| <= blocks[i].target || blocks[i].payload == []
  }

  ghost predicate NonOverlapping(blocks: seq<Block>) {
    forall i, j | 0 <= i < j < |blocks| && blocks[i].Main() && blocks[j].Main() ::
      || blocks[i].target + |blocks[i].payload| <= blocks[j].target
      || blocks[j].target + |blocks[j].payload| <= blocks[i].target
  }

  lemma {:induction false} InOrderOver(blocks: seq<Block>, a: int)
    requires InOrder(blocks)
    ensures HighestOver(blocks, a) == LastOver(blocks, a)
  {
    if blocks != [] {
      var n := |blocks| - 1;
      var init := blocks[..n];
      assert forall i | 0 <= i < n :: init[i] == blocks[i];
      InOrderOver(init, a);
      if HighestOver(init, a).Some? {
        var i :| 0 <= i < n && init[i] == HighestOver(init, a).value;
        assert blocks[i] == init[i];
      }
    }
  }

  // ----- the rewrite -----

  predicate HitsSector(b: Block, address: int) {
    b.Main() && b.target < address + SECTOR_SIZE && b.target + |b.payload| > address
  }

  // The first main-flash block, whose flags and family the erased pages take.
  function FirstMain(blocks: seq<Block>): (r: Option<Block>)
    ensures r.Some? ==> r.value.Main() && r.value in blocks
    ensures r.None? ==> forall b | b in blocks :: !b.Main()
  {
    if blocks == [] then None else if blocks[0].Main() then Some(blocks[0]) else FirstMain(blocks[1..])
  }

  function FirstHit(blocks: seq<Block>, address: int): (r: Option<Block>)
    ensures r.Some? ==> r.value in blocks && HitsSector(r.value, address)
    ensures r.None? ==> forall b | b in blocks :: !HitsSector(b, address)
  {
    if blocks == [] then None
    else if HitsSector(blocks[0], address) then Some(blocks[0]) else FirstHit(blocks[1..], address)
  }

  // Every block and sixteen erased pages, in target order.
  function Extended(blocks: seq<Block>, address: nat): seq<Block>
    requires FirstMain(blocks).Some?
  {
    var first := FirstMain(blocks).value;
    Sorted(blocks + Pages(first.flags, first.family, address, PAGES))
  }

  // Whether the sector's page addresses and the block count fit 32-bit header words.
  predicate Packs(count: nat, address: int) { 0 <= address <= WORD - SECTOR_SIZE && count + PAGES < WORD }

  lemma ExtendedFits(blocks: seq<Block>, address: nat)
    requires FirstMain(blocks).Some? && AllFit(blocks) && Packs(|blocks|, address)
    ensures AllFit(Extended(blocks, address)) && |Extended(blocks, address)| == |blocks| + PAGES
  {
    var first := FirstMain(blocks).value;
    var all := blocks + Pages(first.flags, first.family, address, PAGES);
    SortedSorts(all);
    var out := Sorted(all);
    forall i | 0 <= i < |out| ensures out[i].Fits() {
      assert out[i] in multiset(out);
      assert out[i] in all;
    }
  }

  function ErasedSector(data: seq<Byte>, address: int): Result<seq<Byte>> {
    if address % SECTOR_SIZE != 0 then Err(Misaligned) else
      var decoded := Decode(data);
      if decoded.Err? then Err(decoded.error) else
        var blocks := decoded.value;
        if FirstMain(blocks).None? then Err(NoFlash)
        else if FirstHit(blocks, address).Some? then Err(Overlaps(FirstHit(blocks, address).value.target))
        else if !Packs(|blocks|, address) then Err(DoesNotPack) else
          ExtendedFits(blocks, address);
          Ok(PackAll(Extended(blocks, address)))
  }

  method WithErasedSector(data: seq<Byte>, address: int) returns (r: Result<seq<Byte>>)
    ensures r == ErasedSector(data, address)
  {
    hide Extended, Pack, Decode, FirstMain, FirstHit;
    if address % SECTOR_SIZE != 0 {
      return Err(Misaligned);
    }
    var decoded := ReadBlocks(data);
    if decoded.Err? {
      return Err(decoded.error);
    }
    var blocks := decoded.value;
    var first := FirstMain(blocks);
    if first.None? {
      return Err(NoFlash);
    }
    var hit := FirstHit(blocks, address);
    if hit.Some? {
      return Err(Overlaps(hit.value.target));
    }
    if !Packs(|blocks|, address) {
      return Err(DoesNotPack);
    }
    ExtendedFits(blocks, address);
    var ordered := Extended(blocks, address);
    var out := [];
    for number := 0 to |ordered|
      invariant out == PackFirst(ordered, number)
    {
      out := out + Pack(ordered[number], number, |ordered|);
    }
    r := Ok(out);
  }

  // ----- what is refused -----

  // The first of some blocks, in the container's order.
  ghost predicate Leads(blocks: seq<Block>, i: nat, hit: Block -> bool) {
    i < |blocks| && hit(blocks[i]) && forall j | 0 <= j < i :: !hit(blocks[j])
  }

  // The pages take the flags and the family of the first main-flash block.
  lemma {:induction false} FirstMainLeads(blocks: seq<Block>) returns (i: nat)
    requires FirstMain(blocks).Some?
    ensures Leads(blocks, i, (b: Block) => b.Main()) && FirstMain(blocks) == Some(blocks[i])
  {
    if blocks[0].Main() {
      i := 0;
    } else {
      var k := FirstMainLeads(blocks[1..]);
      i := k + 1;
      assert forall j | 0 < j < i :: blocks[j] == blocks[1..][j - 1];
    }
  }

  // Of the blocks that reach into the sector the first is the one reported.
  lemma {:induction false} FirstHitLeads(blocks: seq<Block>, address: int) returns (i: nat)
    requires FirstHit(blocks, address).Some?
    ensures Leads(blocks, i, (b: Block) => HitsSector(b, address)) && FirstHit(blocks, address) == Some(blocks[i])
  {
    if HitsSector(blocks[0], address) {
      i := 0;
    } else {
      var k := FirstHitLeads(blocks[1..], address);
      i := k + 1;
      assert forall j | 0 < j < i :: blocks[j] == blocks[1..][j - 1];
    }
  }

  // A rewrite goes through exactly at a sector's start, on a container that decodes and has a
  // main-flash block, none of them reaching into the sector, when what it writes fits the
  // header words.
  lemma ErasedIff(data: seq<Byte>, address: int)
    ensures ErasedSector(data, address).Ok? <==>
            && address % 4096 == 0 && Decode(data).Ok?
            && (exists b :: b in Decode(data).value && b.Main())
            && (forall b | b in Decode(data).value && b.Main() ::
                  b.target >= address + 4096 || b.target + |b.payload| <= address)
            && 0 <= address <= 0x1_0000_0000 - 4096 && |Decode(data).value| + 16 < 0x1_0000_0000
  {
    hide Decode, Extended, PackAll, FirstMain, FirstHit;
  }

  // ----- what it means -----

  predicate InSector(address: int, a: int) { address <= a < address + SECTOR_SIZE }

  lemma HighestWithLast(blocks: seq<Block>, b: Block, a: int)
    ensures var h := HighestOver(blocks, a);
            HighestOver(blocks + [b], a) ==
            if !b.Covers(a) || (h.Some? && h.value.target > b.target) then h else Some(b)
  {
    assert (blocks + [b])[..|blocks|] == blocks;
  }

  lemma {:induction false} ConcatOver(x: seq<Block>, y: seq<Block>, a: int)
    ensures HighestOver(x + y, a) ==
            (var h, k := HighestOver(x, a), HighestOver(y, a);
             if k.None? || (h.Some? && h.value.target > k.value.target) then h else k)
  {
    if y == [] {
      assert x + y == x;
    } else {
      hide HighestOver;
      var init, last := y[..|y| - 1], y[|y| - 1];
      assert y == init + [last] && x + y == (x + init) + [last];
      ConcatOver(x, init, a);
      HighestWithLast(x + init, last, a);
      HighestWithLast(init, last, a);
    }
  }

  lemma PagesOver(flags: nat, family: nat, address: nat, a: int)
    requires flags % 2 == 0
    ensures var r := HighestOver(Pages(flags, family, address, PAGES), a);
            && (r.Some? <==> InSector(address, a))
            && (r.Some? ==> r.value.payload[a - r.value.target] == 0xFF)
  {
    var pages := Pages(flags, family, address, PAGES);
    if InSector(address, a) {
      var i := (a - address) / PAGE_SIZE;
      assert pages[i].Covers(a);
      assert pages[i] in pages;
    }
  }

  // A container that passes the overlap check supplies nothing inside the sector.
  lemma SectorFree(blocks: seq<Block>, address: int, a: int)
    requires FirstHit(blocks, address).None?
    ensures InSector(address, a) ==> ByteAt(blocks, a).None? && HighestOver(blocks, a).None?
  {
    assert forall b | b in blocks :: b.Covers(a) && InSector(address, a) ==> HitsSector(b, address);
    var over := LastOver(blocks, a);
  }

  // The rewritten container decodes to the original blocks and the sixteen erased pages,
  // in target order, numbered from 0 under their own total.
  lemma ErasedDecodes(data: seq<Byte>, address: int)
    requires ErasedSector(data, address).Ok?
    ensures var out := ErasedSector(data, address).value;
            var blocks := Decode(data).value;
            var first := FirstMain(blocks).value;
            var now := Decode(out);
            && now.Ok?
            && Ascending(now.value)
            && multiset(now.value) == multiset(blocks + Pages(first.flags, first.family, address, PAGES))
            && forall i | 0 <= i < |now.value| :: NumberAt(out, i) == i && CountAt(out, i) == |now.value|
  {
    hide Decode, Pack, PackFirst, NumberAt, CountAt, Sorted;
    var blocks := Decode(data).value;
    ExtendedFits(blocks, address);
    PackedDecodes(Extended(blocks, address));
    var first := FirstMain(blocks).value;
    SortedSorts(blocks + Pages(first.flags, first.family, address, PAGES));
  }

  // What the rewritten container puts in flash, with nothing assumed of the original: 0xff
  // over the sector, and elsewhere the highest-placed original block over each address.
  lemma ErasedMeaning(data: seq<Byte>, address: int, a: int)
    requires ErasedSector(data, address).Ok?
    ensures var blocks, now := Decode(data).value, Decode(ErasedSector(data, address).value);
            && now.Ok?
            && ByteAt(now.value, a) ==
               if InSector(address, a) then Some(0xFF)
               else
                 var high := HighestOver(blocks, a);
                 if high.Some? then Some(high.value.payload[a - high.value.target]) else None
  {
    hide Decode, Pack, PackFirst, Sorted;
    var blocks := Decode(data).value;
    var first := FirstMain(blocks).value;
    var pages := Pages(first.flags, first.family, address, PAGES);
    ExtendedFits(blocks, address);
    PackedDecodes(Extended(blocks, address));
    SortedOver(blocks + pages, a);
    ConcatOver(blocks, pages, a);
    PagesOver(first.flags, first.family, address, a);
    SectorFree(blocks, address, a);
  }

  // Erasing preserves meaning: where no main-flash block starts inside a later one, the
  // rewrite changes nothing outside the sector, so every image the original gave is still
  // what it gives.
  lemma ErasedKeeps(data: seq<Byte>, address: int)
    requires ErasedSector(data, address).Ok? && InOrder(Decode(data).value)
    ensures var blocks, now := Decode(data).value, Decode(ErasedSector(data, address).value);
            && now.Ok?
            && (forall a :: ByteAt(now.value, a) == if InSector(address, a) then Some(0xFF) else ByteAt(blocks, a))
            && (forall start, image | IsImage(blocks, start, image) :: IsImage(now.value, start, image))
  {
    hide Decode, PackAll, Extended;
    ErasedMeaning(data, address, address);
    var blocks, now := Decode(data).value, Decode(ErasedSector(data, address).value).value;
    forall a ensures ByteAt(now, a) == if InSector(address, a) then Some(0xFF) else ByteAt(blocks, a) {
      ErasedMeaning(data, address, a);
      InOrderOver(blocks, a);
    }
    forall start, image | IsImage(blocks, start, image) ensures IsImage(now, start, image) {
      forall i | 0 <= i < |image| ensures ByteAt(now, start + i) == Some(image[i]) {
        SectorFree(blocks, address, start + i);
        assert ByteAt(blocks, start + i) == Some(image[i]);
      }
    }
  }

  // At an address, the highest-placed block and the last one supply the same byte.
  ghost predicate SameOver(blocks: seq<Block>, a: int) {
    var high, last := HighestOver(blocks, a), LastOver(blocks, a);
    && (high.Some? <==> last.Some?)
    && (high.Some? ==> high.value.payload[a - high.value.target] == last.value.payload[a - last.value.target])
  }

  // For any container: the rewrite keeps what it means outside the sector exactly when, at
  // every address, the highest-placed block over it and the last one agree.
  lemma ErasedKeepsIff(data: seq<Byte>, address: int)
    requires ErasedSector(data, address).Ok?
    ensures var blocks, now := Decode(data).value, Decode(ErasedSector(data, address).value);
            && now.Ok?
            && ((forall a :: !InSector(address, a) ==> ByteAt(now.value, a) == ByteAt(blocks, a)) <==>
                (forall a :: SameOver(blocks, a)))
  {
    hide Decode, PackAll, Extended, FirstHit;
    ErasedMeaning(data, address, address);
    var blocks, now := Decode(data).value, Decode(ErasedSector(data, address).value).value;
    forall a ensures InSector(address, a) ==> SameOver(blocks, a)
             ensures !InSector(address, a) ==> (ByteAt(now, a) == ByteAt(blocks, a) <==> SameOver(blocks, a)) {
      ErasedMeaning(data, address, a);
      if InSector(address, a) { ErasedFree(data, address, a); }
      LastReads(blocks, a);
    }
  }

  lemma LastReads(blocks: seq<Block>, a: int)
    ensures ByteAt(blocks, a) ==
            if LastOver(blocks, a).Some? then Some(LastOver(blocks,
               a).value.payload[a - LastOver(blocks, a).value.target]) else None
  {
    var over := LastOver(blocks, a);
  }

  lemma ErasedFree(data: seq<Byte>, address: int, a: int)
    requires ErasedSector(data, address).Ok? && InSector(address, a)
    ensures SameOver(Decode(data).value, a)
  {
    hide Decode, Extended;
    SectorFree(Decode(data).value, address, a);
    LastReads(Decode(data).value, a);
  }

  lemma NonOverlappingInOrder(blocks: seq<Block>)
    requires NonOverlapping(blocks)
    ensures InOrder(blocks)
  {
  }

  // Two blocks, the first placed higher and reaching into the second: sorting keeps what
  // the pair puts at an address exactly when they agree on it.
  lemma ReversedPair(x: Block, y: Block, a: int)
    requires x.Main() && y.Main() && x.target > y.target
    ensures ByteAt(Sorted([x, y]), a) == ByteAt([x, y], a) <==>
            (x.Covers(a) && y.Covers(a) ==> x.payload[a - x.target] == y.payload[a - y.target])
  {
    assert [x, y][..1] == [x] && [x][..0] == [];
    assert Sorted([x]) == [x] && Insert([x], y) == [y, x] by { assert Insert([], y) == [y]; }
    PairReads(x, y, a);
    PairReads(y, x, a);
  }

  function PairAt(x: Block, y: Block, a: int): Option<Byte> {
    if y.Covers(a) then Some(y.payload[a - y.target])
    else if x.Covers(a) then Some(x.payload[a - x.target]) else None
  }

  lemma PairReads(x: Block, y: Block, a: int)
    ensures ByteAt([x, y], a) == PairAt(x, y, a)
  {
    assert [x, y] == [x] + [y] && [x] == [] + [x];
    ByteAtLast([x], y, a);
    ByteAtLast([], x, a);
  }
}
