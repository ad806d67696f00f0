/** Bounce buffering around an ADMA2 transfer: what is copied in before a write, what
    is copied back after a read, and the driver methods that do it. */
module Bounce {
  import opened Mmc
  import opened Memory
  import opened Adma2

  function Area(b: Block): Region {
    Region(b.addr, Size(b))
  }

  /** Client blocks and the bounce buffer are memory, and what is left of the bounce
      buffer can take the blocks that need it. */
  ghost predicate Placeable(a: Dma, size: nat, blocks: seq<Block>, offs: nat) {
    if blocks == [] then
      offs <= a.bbSize && (a.bbSize != 0 ==> a.bbPhys + a.bbSize <= size)
    else
      && blocks[0].addr + Size(blocks[0]) <= size
      && Placeable(a, size, blocks[1..], After(a, blocks[0], offs))
  }

  /** No client block touches the bounce buffer. */
  ghost predicate ClearOfBounce(a: Dma, blocks: seq<Block>) {
    blocks == [] || (Disjoint(Area(blocks[0]), a.Bounce()) && ClearOfBounce(a, blocks[1..]))
  }

  /** The blocks that are transferred directly do not touch `r`. */
  ghost predicate DirectApart(a: Dma, blocks: seq<Block>, r: Region) {
    || blocks == []
    || ((!a.NeedsBounce(blocks[0]) ==> Disjoint(Area(blocks[0]), r)) && DirectApart(a, blocks[1..], r))
  }

  /** A bounced block shares no byte with a later block that is transferred directly. */
  ghost predicate BouncedApart(a: Dma, blocks: seq<Block>) {
    || blocks == []
    || (&& (a.NeedsBounce(blocks[0]) ==> DirectApart(a, blocks[1..], Area(blocks[0])))
        && BouncedApart(a, blocks[1..]))
  }

  lemma {:induction false} PlaceableBound(a: Dma, size: nat, blocks: seq<Block>, offs: nat)
    requires Placeable(a, size, blocks, offs)
    ensures offs + BounceBytes(a, blocks) <= a.bbSize
    ensures a.bbSize != 0 ==> a.bbPhys + a.bbSize <= size
    ensures AllInside(size, Client(blocks))
    ensures AllInside(size, Place(a, blocks, offs))
  {
    if blocks == [] {
    } else {
      PlaceableBound(a, size, blocks[1..], After(a, blocks[0], offs));
    }
  }

  /** Memory after one block of a write request has been copied to its slot. */
  function BlockIn(a: Dma, m: Mem, b: Block, offs: nat): (m': Mem)
    requires b.addr + Size(b) <= |m| && (a.NeedsBounce(b) ==> a.bbPhys + offs + Size(b) <= |m|)
    ensures |m'| == |m|
  {
    if a.NeedsBounce(b) then Write(m, a.bbPhys + offs, Read(m, Area(b))) else m
  }

  /** Memory after the driver has copied the unreachable blocks of a write request into
      the bounce buffer. */
  function CopyIn(a: Dma, m: Mem, blocks: seq<Block>, offs: nat): (m': Mem)
    requires Placeable(a, |m|, blocks, offs)
    ensures |m'| == |m|
    decreases |blocks|
  {
    if blocks == [] then m
    else
      PlaceableBound(a, |m|, blocks, offs);
      CopyIn(a, BlockIn(a, m, blocks[0], offs), blocks[1..], After(a, blocks[0], offs))
  }

  /** Memory after the driver has copied the unreachable blocks of a read request back
      to the client, recomputing the bounce offsets from the block list. */
  function CopyBack(a: Dma, m: Mem, blocks: seq<Block>, offs: nat): (m': Mem)
    requires Placeable(a, |m|, blocks, offs)
    ensures |m'| == |m|
    decreases |blocks|
  {
    if blocks == [] then m
    else if a.NeedsBounce(blocks[0]) then
      PlaceableBound(a, |m|, blocks, offs);
      var d := Read(m, Region(a.bbPhys + offs, Size(blocks[0])));
      CopyBack(a, Write(m, blocks[0].addr, d), blocks[1..], offs + Size(blocks[0]))
    else
      CopyBack(a, m, blocks[1..], offs)
  }

  // ---- Writes ----

  /** What is left of the bounce buffer when `offs` bytes are taken. */
  function Left(a: Dma, offs: nat): Region {
    Region(a.bbPhys + offs, if offs <= a.bbSize then a.bbSize - offs else 0)
  }

  /** Copying in touches the bounce buffer from `offs` on and nothing else. */
  lemma {:induction false} CopyInFrame(a: Dma, m: Mem, blocks: seq<Block>, offs: nat)
    requires Placeable(a, |m|, blocks, offs)
    ensures SameOutside(Left(a, offs), m, CopyIn(a, m, blocks, offs))
    decreases |blocks|
  {
    if blocks == [] {
    } else {
      PlaceableBound(a, |m|, blocks, offs);
      if a.NeedsBounce(blocks[0]) {
        var d, o := Read(m, Area(blocks[0])), offs + Size(blocks[0]);
        var m1 := Write(m, a.bbPhys + offs, d);
        CopyInFrame(a, m1, blocks[1..], o);
        WriteWithin(Left(a, offs), m, a.bbPhys + offs, d);
        SameOutsideTrans(Left(a, offs), Left(a, o), m, m1, CopyIn(a, m1, blocks[1..], o));
      } else {
        CopyInFrame(a, m, blocks[1..], offs);
      }
    }
  }

  lemma {:induction false} ReadSame(r: Region, m: Mem, m': Mem, s: Region)
    requires SameOutside(r, m, m') && Inside(m, s) && Disjoint(s, r)
    ensures Read(m, s) == Read(m', s)
  {
    if s.len > 0 && r.len > 0 {
      forall x | s.addr <= x < s.addr + s.len ensures m[x] == m'[x] {
      }
    }
  }

  lemma {:induction false} GatherSame(r: Region, m: Mem, m': Mem, rs: seq<Region>)
    requires SameOutside(r, m, m') && AllInside(|m|, rs) && AllDisjoint(rs, r)
    ensures Gather(m, rs) == Gather(m', rs)
  {
    if rs == [] {
    } else {
      ReadSame(r, m, m', rs[0]);
      GatherSame(r, m, m', rs[1..]);
    }
  }

  lemma {:induction false} ClientClear(a: Dma, blocks: seq<Block>)
    requires ClearOfBounce(a, blocks)
    ensures AllDisjoint(Client(blocks), a.Bounce())
  {
    if blocks == [] {
    } else {
      ClientClear(a, blocks[1..]);
    }
  }

  /** What the controller gathers through the placed regions is the concatenation of
      the client blocks. */
  lemma {:induction false} WriteMeaning(a: Dma, m: Mem, blocks: seq<Block>, offs: nat)
    requires Placeable(a, |m|, blocks, offs) && ClearOfBounce(a, blocks)
    ensures AllInside(|m|, Client(blocks)) && AllInside(|m|, Place(a, blocks, offs))
    ensures Gather(CopyIn(a, m, blocks, offs), Place(a, blocks, offs)) == Gather(m, Client(blocks))
    decreases |blocks|
  {
    PlaceableBound(a, |m|, blocks, offs);
    if blocks == [] {
    } else {
      var b, rest := blocks[0], blocks[1..];
      HeadWritten(a, m, blocks, offs);
      WriteMeaning(a, BlockIn(a, m, b, offs), rest, After(a, b, offs));
    }
  }

  /** After all copies the place of the first block holds that block, and copying it
      has not disturbed the later blocks. */
  lemma {:induction false} HeadWritten(a: Dma, m: Mem, blocks: seq<Block>, offs: nat)
    requires Placeable(a, |m|, blocks, offs) && ClearOfBounce(a, blocks) && blocks != []
    ensures AllInside(|m|, Place(a, blocks, offs)) && AllInside(|m|, Client(blocks))
    ensures offs + Size(blocks[0]) <= a.bbSize || !a.NeedsBounce(blocks[0])
    ensures Read(CopyIn(a, m, blocks, offs), Place(a, blocks, offs)[0]) == Read(m, Area(blocks[0]))
    ensures Gather(BlockIn(a, m, blocks[0], offs), Client(blocks[1..])) == Gather(m, Client(blocks[1..]))
  {
    var b, rest, o := blocks[0], blocks[1..], After(a, blocks[0], offs);
    PlaceableBound(a, |m|, blocks, offs);
    PlaceableBound(a, |m|, rest, o);
    var m1 := BlockIn(a, m, b, offs);
    var last := CopyIn(a, m1, rest, o);
    CopyInFrame(a, m1, rest, o);
    if a.NeedsBounce(b) {
      ReadSame(Left(a, o), m1, last, Region(a.bbPhys + offs, Size(b)));
      ClientClear(a, rest);
      WriteWithin(a.Bounce(), m, a.bbPhys + offs, Read(m, Area(b)));
      GatherSame(a.Bounce(), m, m1, Client(rest));
    } else {
      ReadSame(Left(a, o), m, last, Area(b));
    }
  }

  // ---- Reads ----

  /** A region clear of what is left of the bounce buffer and of the direct blocks is
      clear of everything placed. */
  lemma {:induction false} PlaceApart(a: Dma, size: nat, blocks: seq<Block>, offs: nat, r: Region)
    requires Placeable(a, size, blocks, offs)
    requires Disjoint(Left(a, offs), r)
    requires DirectApart(a, blocks, r)
    ensures AllDisjoint(Place(a, blocks, offs), r)
  {
    if blocks == [] {
    } else {
      PlaceableBound(a, size, blocks, offs);
      PlaceApart(a, size, blocks[1..], After(a, blocks[0], offs), r);
    }
  }

  lemma {:induction false} SlotApart(a: Dma, blocks: seq<Block>, slot: Region)
    requires ClearOfBounce(a, blocks)
    requires a.bbPhys <= slot.addr && slot.addr + slot.len <= a.bbPhys + a.bbSize
    ensures DirectApart(a, blocks, slot)
  {
    if blocks == [] {
    } else {
      SlotApart(a, blocks[1..], slot);
    }
  }

  /** The placed regions touch neither a slot nor the block it belongs to. */
  ghost predicate KeepsClear(size: nat, slot: Region, owner: nat, placed: seq<Region>) {
    && slot.addr + slot.len <= size && owner + slot.len <= size && AllInside(size, placed)
    && AllDisjoint(placed, slot) && AllDisjoint(placed, Region(owner, slot.len))
  }

  /** A bounced block and its slot are clear of everything placed after it. */
  lemma {:induction false} BouncedClear(a: Dma, size: nat, blocks: seq<Block>, offs: nat)
    requires Placeable(a, size, blocks, offs) && ClearOfBounce(a, blocks) && BouncedApart(a, blocks)
    requires blocks != [] && a.NeedsBounce(blocks[0])
    ensures KeepsClear(size, Region(a.bbPhys + offs, Size(blocks[0])), blocks[0].addr,
                       Place(a, blocks[1..], offs + Size(blocks[0])))
  {
    var rest, o := blocks[1..], offs + Size(blocks[0]);
    var slot := Region(a.bbPhys + offs, Size(blocks[0]));
    PlaceableBound(a, size, blocks, offs);
    PlaceableBound(a, size, rest, o);
    SlotApart(a, rest, slot);
    PlaceApart(a, size, rest, o, slot);
    PlaceApart(a, size, rest, o, Area(blocks[0]));
  }

  /** Data `d0` in a slot survives the delivery of `d` to other regions, and copying it
      to its owner commutes with that delivery. */
  lemma {:induction false} SlotKept(m: Mem, slot: Region, owner: nat, placed: seq<Region>, d0: seq<Byte>, d: seq<Byte>)
    returns (s: Mem, s': Mem)
    requires KeepsClear(|m|, slot, owner, placed) && |d0| == slot.len && |d| == Length(placed)
    ensures s == Scatter(Write(m, slot.addr, d0), placed, d) && Read(s, slot) == d0
    ensures s' == Write(s, owner, d0) == Scatter(Write(Write(m, slot.addr, d0), owner, d0), placed, d)
  {
    var mb := Write(m, slot.addr, d0);
    s := Scatter(mb, placed, d);
    s' := Write(s, owner, d0);
    assert Read(mb, slot) == d0;
    ScatterFrame(mb, placed, d, slot);
    ScatterCommutes(mb, owner, d0, placed, d);
  }

  /** The data fits the blocks, which can be placed. */
  ghost predicate Deliverable(a: Dma, size: nat, blocks: seq<Block>, offs: nat, d: seq<Byte>) {
    && Placeable(a, size, blocks, offs) && |d| == Sum(blocks) * SECTOR_SIZE
    && AllInside(size, Client(blocks)) && AllInside(size, Place(a, blocks, offs))
  }

  /** Memory after a delivery through the placed regions and the copy-back. */
  ghost function Bounced(a: Dma, m: Mem, blocks: seq<Block>, offs: nat, d: seq<Byte>): (m': Mem)
    requires Deliverable(a, |m|, blocks, offs, d)
    ensures |m'| == |m|
  {
    CopyBack(a, Scatter(m, Place(a, blocks, offs), d), blocks, offs)
  }

  /** That is, but for the bounce buffer, a delivery to the client blocks. */
  ghost predicate SameDelivery(a: Dma, m: Mem, blocks: seq<Block>, offs: nat, d: seq<Byte>)
    requires Deliverable(a, |m|, blocks, offs, d)
  {
    SameOutside(a.Bounce(), Scatter(m, Client(blocks), d), Bounced(a, m, blocks, offs, d))
  }

  /** The first block goes through the bounce buffer, and the blocks keep clear of it and
      of each other. */
  ghost predicate BouncesHead(a: Dma, blocks: seq<Block>) {
    blocks != [] && a.NeedsBounce(blocks[0]) && ClearOfBounce(a, blocks) && BouncedApart(a, blocks)
  }

  /** Delivering data through the placed regions and copying back leaves the memory,
      except for the bounce buffer, as if the data had been delivered to the client
      blocks directly. */
  lemma {:induction false} ReadMeaning(a: Dma, m: Mem, blocks: seq<Block>, offs: nat, d: seq<Byte>)
    requires Placeable(a, |m|, blocks, offs) && ClearOfBounce(a, blocks) && BouncedApart(a, blocks)
    requires |d| == Sum(blocks) * SECTOR_SIZE
    ensures AllInside(|m|, Client(blocks)) && AllInside(|m|, Place(a, blocks, offs))
    ensures SameOutside(a.Bounce(), Scatter(m, Client(blocks), d),
                        CopyBack(a, Scatter(m, Place(a, blocks, offs), d), blocks, offs))
  {
    PlaceableBound(a, |m|, blocks, offs);
    Delivered(a, m, blocks, offs, d);
  }

  lemma {:induction false} Delivered(a: Dma, m: Mem, blocks: seq<Block>, offs: nat, d: seq<Byte>)
    requires Deliverable(a, |m|, blocks, offs, d) && ClearOfBounce(a, blocks) && BouncedApart(a, blocks)
    ensures SameDelivery(a, m, blocks, offs, d)
    decreases |blocks|
  {
    if blocks == [] {
    } else {
      var n, rest := Size(blocks[0]), blocks[1..];
      if a.NeedsBounce(blocks[0]) {
        RestReady(a, |m|, blocks, offs, d);
        var m2 := HeadTwice(a, m, blocks[0], offs, d);
        Delivered(a, m2, rest, offs + n, d[n..]);
        HeadBack(a, m, blocks, offs, d);
        DeliverSame(a, m, blocks, offs, d);
      } else {
        DirectHead(a, m, blocks, offs, d);
        Delivered(a, Write(m, blocks[0].addr, d[..n]), rest, offs, d[n..]);
      }
    }
  }

  /** A block that needs no bounce buffer is delivered at once. */
  lemma {:induction false} DirectHead(a: Dma, m: Mem, blocks: seq<Block>, offs: nat, d: seq<Byte>)
    requires Deliverable(a, |m|, blocks, offs, d) && blocks != [] && !a.NeedsBounce(blocks[0])
    ensures var n := Size(blocks[0]);
            var m1 := Write(m, blocks[0].addr, d[..n]);
            && Deliverable(a, |m|, blocks[1..], offs, d[n..])
            && Bounced(a, m, blocks, offs, d) == Bounced(a, m1, blocks[1..], offs, d[n..])
            && Scatter(m, Client(blocks), d) == Scatter(m1, Client(blocks[1..]), d[n..])
  {
    PlaceableBound(a, |m|, blocks[1..], offs);
    assert Client(blocks)[0] == Area(blocks[0]) && Client(blocks)[1..] == Client(blocks[1..]);
    assert Place(a, blocks, offs)[0] == Area(blocks[0]);
    assert Place(a, blocks, offs)[1..] == Place(a, blocks[1..], offs);
  }

  /** The other blocks can be delivered once the head has been. */
  lemma {:induction false} RestReady(a: Dma, size: nat, blocks: seq<Block>, offs: nat, d: seq<Byte>)
    requires Deliverable(a, size, blocks, offs, d) && BouncesHead(a, blocks)
    ensures var n := Size(blocks[0]);
            && Deliverable(a, size, blocks[1..], offs + n, d[n..])
            && offs + n <= a.bbSize && a.bbPhys + a.bbSize <= size && blocks[0].addr + n <= size
  {
    PlaceableBound(a, size, blocks[1..], offs + Size(blocks[0]));
  }

  /** The head delivered to its slot and to the client. */
  function HeadTwice(a: Dma, m: Mem, b: Block, offs: nat, d: seq<Byte>): (m2: Mem)
    requires a.bbPhys + offs + Size(b) <= |m| && b.addr + Size(b) <= |m| && Size(b) <= |d|
    ensures |m2| == |m|
  {
    Write(Write(m, a.bbPhys + offs, d[..Size(b)]), b.addr, d[..Size(b)])
  }

  /** The head is delivered into its slot, the rest as for the other blocks. */
  lemma {:induction false} ScatterHead(a: Dma, m: Mem, blocks: seq<Block>, offs: nat, d: seq<Byte>)
    requires Deliverable(a, |m|, blocks, offs, d) && blocks != [] && a.NeedsBounce(blocks[0])
    requires Deliverable(a, |m|, blocks[1..], offs + Size(blocks[0]), d[Size(blocks[0])..])
    requires a.bbPhys + offs + Size(blocks[0]) <= |m|
    ensures var n := Size(blocks[0]);
            Scatter(m, Place(a, blocks, offs), d)
            == Scatter(Write(m, a.bbPhys + offs, d[..n]), Place(a, blocks[1..], offs + n), d[n..])
  {
    var placed := Place(a, blocks, offs);
    assert placed[0] == Region(a.bbPhys + offs, Size(blocks[0]));
    assert placed[1..] == Place(a, blocks[1..], offs + Size(blocks[0]));
  }

  /** The head is copied back first. */
  lemma {:induction false} CopyHead(a: Dma, m: Mem, blocks: seq<Block>, offs: nat, d: seq<Byte>, m': Mem)
    requires Placeable(a, |m|, blocks, offs) && blocks != [] && a.NeedsBounce(blocks[0])
    requires a.bbPhys + offs + Size(blocks[0]) <= |m| && d == Read(m, Region(a.bbPhys + offs, Size(blocks[0])))
    requires m' == Write(m, blocks[0].addr, d)
    ensures CopyBack(a, m, blocks, offs) == CopyBack(a, m', blocks[1..], offs + Size(blocks[0]))
  {
  }

  /** Memory `s` after the delivery, and `s'` after the head has been copied back. */
  lemma {:induction false} HeadStored(a: Dma, m: Mem, blocks: seq<Block>, offs: nat, d: seq<Byte>)
    returns (s: Mem, s': Mem)
    requires Deliverable(a, |m|, blocks, offs, d) && BouncesHead(a, blocks)
    requires Deliverable(a, |m|, blocks[1..], offs + Size(blocks[0]), d[Size(blocks[0])..])
    requires a.bbPhys + offs + Size(blocks[0]) <= |m|
    ensures var n := Size(blocks[0]);
            && s == Scatter(Write(m, a.bbPhys + offs, d[..n]), Place(a, blocks[1..], offs + n), d[n..]) && |s| == |m|
            && Read(s, Region(a.bbPhys + offs, n)) == d[..n]
            && s' == Write(s, blocks[0].addr, d[..n]) && |s'| == |m|
            && s' == Scatter(HeadTwice(a, m, blocks[0], offs, d), Place(a, blocks[1..], offs + n), d[n..])
  {
    var n, placed := Size(blocks[0]), Place(a, blocks[1..], offs + Size(blocks[0]));
    BouncedClear(a, |m|, blocks, offs);
    s, s' := SlotKept(m, Region(a.bbPhys + offs, n), blocks[0].addr, placed, d[..n], d[n..]);
  }

  /** Copying the head back is like having delivered it to both places before. */
  lemma {:induction false} HeadBack(a: Dma, m: Mem, blocks: seq<Block>, offs: nat, d: seq<Byte>)
    requires Deliverable(a, |m|, blocks, offs, d) && BouncesHead(a, blocks)
    requires Deliverable(a, |m|, blocks[1..], offs + Size(blocks[0]), d[Size(blocks[0])..])
    requires a.bbPhys + offs + Size(blocks[0]) <= |m|
    ensures var n := Size(blocks[0]);
            Bounced(a, m, blocks, offs, d)
            == Bounced(a, HeadTwice(a, m, blocks[0], offs, d), blocks[1..], offs + n, d[n..])
  {
    var s, s' := HeadStored(a, m, blocks, offs, d);
    ScatterHead(a, m, blocks, offs, d);
    CopyHead(a, s, blocks, offs, d[..Size(blocks[0])], s');
  }

  /** A direct delivery does not see what is in the bounce buffer. */
  lemma {:induction false} DeliverSame(a: Dma, m: Mem, blocks: seq<Block>, offs: nat, d: seq<Byte>)
    requires blocks != [] && AllInside(|m|, Client(blocks)) && |d| == Sum(blocks) * SECTOR_SIZE
    requires offs + Size(blocks[0]) <= a.bbSize && a.bbPhys + a.bbSize <= |m|
    ensures var n := Size(blocks[0]);
            var m2 := HeadTwice(a, m, blocks[0], offs, d);
            SameOutside(a.Bounce(), Scatter(m, Client(blocks), d), Scatter(m2, Client(blocks[1..]), d[n..]))
  {
    var b, n, at := blocks[0], Size(blocks[0]), a.bbPhys + offs;
    var mb := Write(m, at, d[..n]);
    WriteWithin(a.Bounce(), m, at, d[..n]);
    WriteSame(a.Bounce(), m, mb, b.addr, d[..n]);
    ScatterSame(a.Bounce(), Write(m, b.addr, d[..n]), Write(mb, b.addr, d[..n]), Client(blocks[1..]), d[n..]);
  }
}
