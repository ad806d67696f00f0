/** The driver methods that build the descriptor table in place and move data to and
    from the bounce buffer. */
module Sdhci {
  import opened Mmc
  import opened Memory
  import opened Adma2
  import opened Bounce

  /** The client blocks are memory. */
  ghost predicate InMemory(size: nat, blocks: seq<Block>) {
    blocks == [] || (blocks[0].addr + Size(blocks[0]) <= size && InMemory(size, blocks[1..]))
  }

  /** Without an exception the bounce buffer was large enough. */
  lemma {:induction false} BuildOkMeans(a: Dma, size: nat, blocks: seq<Block>, d: nat, offs: nat)
    requires BuildOk(a, blocks, d, offs) && InMemory(size, blocks)
    requires offs <= a.bbSize && (a.bbSize != 0 ==> a.bbPhys + a.bbSize <= size)
    ensures Placeable(a, size, blocks, offs)
  {
    if blocks == [] {
    } else {
      BuildOkMeans(a, size, blocks[1..], d + Count(Size(blocks[0])), After(a, blocks[0], offs));
    }
  }

  /** Entering one region after the descriptors `t` of a table of `cap` slots, None for
      an exception. */
  ghost function Emit(a: Dma, t: seq<Desc>, cap: nat, r: Region, last: bool): Option<seq<Desc>>
    decreases r.len
  {
    if r.len == 0 then Some(t)
    else if |t| >= cap || r.addr >= a.MaxAddr() then None
    else
      Emit(a, t + [Encode(a, Region(r.addr, Min(r.len, MAX_LENGTH)), last && r.len <= MAX_LENGTH)], cap, Rest(r), last)
  }

  lemma {:induction false} EmitMeans(a: Dma, t: seq<Desc>, cap: nat, r: Region, last: bool)
    requires |t| <= cap
    ensures Emit(a, t, cap, r, last)
         == if |t| + Count(r.len) <= cap && AddrOk(a, r) then Some(t + Pieces(a, r, last)) else None
    decreases r.len
  {
    if r.len == 0 {
      assert t + Pieces(a, r, last) == t;
    } else if |t| < cap && r.addr < a.MaxAddr() {
      var e := Encode(a, Region(r.addr, Min(r.len, MAX_LENGTH)), last && r.len <= MAX_LENGTH);
      EmitMeans(a, t + [e], cap, Rest(r), last);
      assert t + [e] + Pieces(a, Rest(r), last) == t + ([e] + Pieces(a, Rest(r), last));
    }
  }

  /** Memory, descriptors and bounce bytes once a request is entered. */
  datatype Entered = Entered(mem: Mem, descs: seq<Desc>, bounced: nat)

  ghost predicate Enterable(a: Dma, size: nat, blocks: seq<Block>, offs: nat) {
    InMemory(size, blocks) && offs <= a.bbSize && (a.bbSize != 0 ==> a.bbPhys + a.bbSize <= size)
  }

  /** Entering the remaining blocks after the descriptors `t`, None for an exception. */
  ghost function Enter(a: Dma, m: Mem, t: seq<Desc>, blocks: seq<Block>, d: nat, offs: nat, read: bool): Option<Entered>
    requires Enterable(a, |m|, blocks, offs)
    decreases |blocks|
  {
    if blocks == [] then Some(Entered(m, t, offs))
    else if !BlockOk(a, blocks[0], d, offs) then None
    else
      Enter(a, if read then m else BlockIn(a, m, blocks[0], offs),
            t + Pieces(a, Slot(a, blocks[0], offs), |blocks| == 1),
            blocks[1..], d + Count(Size(blocks[0])), After(a, blocks[0], offs), read)
  }

  /** An exception is thrown exactly when `BuildOk` fails. Otherwise the table holds
      the pieces of the placed regions, and memory is unchanged for a read. */
  lemma {:induction false} EnterMeans(a: Dma, m: Mem, t: seq<Desc>, blocks: seq<Block>, d: nat, offs: nat, read: bool)
    requires Enterable(a, |m|, blocks, offs)
    ensures var e := Enter(a, m, t, blocks, d, offs, read);
            && (e.Some? <==> BuildOk(a, blocks, d, offs))
            && (e.Some? ==>
                  && Placeable(a, |m|, blocks, offs)
                  && e.value.descs == t + Table(a, Place(a, blocks, offs))
                  && e.value.bounced == offs + BounceBytes(a, blocks)
                  && e.value.mem == if read then m else CopyIn(a, m, blocks, offs))
    decreases |blocks|
  {
    if blocks == [] {
      assert t + Table(a, Place(a, blocks, offs)) == t;
    } else if BlockOk(a, blocks[0], d, offs) {
      var b, o := blocks[0], After(a, blocks[0], offs);
      var ps, more := Pieces(a, Slot(a, b, offs), |blocks| == 1), Table(a, Place(a, blocks[1..], o));
      EnterMeans(a, if read then m else BlockIn(a, m, b, offs), t + ps, blocks[1..], d + Count(Size(b)), o, read);
      assert Place(a, blocks, offs) == [Slot(a, b, offs)] + Place(a, blocks[1..], o);
      assert t + ps + more == t + (ps + more);
    }
  }

  /** One block of a request. */
  lemma {:induction false} EnterStep(a: Dma, m: Mem, t: seq<Desc>, blocks: seq<Block>, i: nat, d: nat, offs: nat,
                                     read: bool)
    requires i < |blocks| && Enterable(a, |m|, blocks[i..], offs)
    ensures var b := blocks[i];
            && b.addr + Size(b) <= |m| && offs <= a.bbSize
            && if BlockOk(a, b, d, offs) then
                 var m' := if read then m else BlockIn(a, m, b, offs);
                 && Enterable(a, |m|, blocks[i + 1..], After(a, b, offs))
                 && Enter(a, m, t, blocks[i..], d, offs, read)
                    == Enter(a, m', t + Pieces(a, Slot(a, b, offs), i + 1 == |blocks|), blocks[i + 1..],
                             d + Count(Size(b)), After(a, b, offs), read)
               else Enter(a, m, t, blocks[i..], d, offs, read).None?
  {
    assert blocks[i..][0] == blocks[i] && blocks[i..][1..] == blocks[i + 1..];
  }

  lemma {:induction false} NoCopyBack(a: Dma, m: Mem, blocks: seq<Block>, offs: nat)
    requires Placeable(a, |m|, blocks, offs) && BounceBytes(a, blocks) == 0
    ensures CopyBack(a, m, blocks, offs) == m
  {
    if blocks == [] {
    } else {
      PlaceableBound(a, |m|, blocks, offs);
      if a.NeedsBounce(blocks[0]) {
        assert Write(m, blocks[0].addr, Read(m, Region(a.bbPhys + offs, 0))) == m;
      }
      NoCopyBack(a, m, blocks[1..], After(a, blocks[0], offs));
    }
  }

  /** Memory after one block has been copied back. */
  function BlockBack(a: Dma, m: Mem, b: Block, offs: nat): (m': Mem)
    requires b.addr + Size(b) <= |m| && (a.NeedsBounce(b) ==> a.bbPhys + offs + Size(b) <= |m|)
    ensures |m'| == |m|
  {
    if a.NeedsBounce(b) then Write(m, b.addr, Read(m, Region(a.bbPhys + offs, Size(b)))) else m
  }

  lemma {:induction false} BackStep(a: Dma, m: Mem, blocks: seq<Block>, offs: nat)
    requires Placeable(a, |m|, blocks, offs) && blocks != []
    ensures blocks[0].addr + Size(blocks[0]) <= |m|
    ensures a.NeedsBounce(blocks[0]) ==> offs + Size(blocks[0]) <= a.bbSize && a.bbPhys + a.bbSize <= |m|
    ensures Placeable(a, |m|, blocks[1..], After(a, blocks[0], offs))
    ensures CopyBack(a, m, blocks, offs)
         == CopyBack(a, BlockBack(a, m, blocks[0], offs), blocks[1..], After(a, blocks[0], offs))
  {
    PlaceableBound(a, |m|, blocks, offs);
  }

  class Sdhci {
    const a: Dma
    const table: array<Desc>
    var mem: Mem

    ghost predicate Valid()
      reads this
    {
      && table.Length == a.entries
      && (a.bbSize != 0 ==> a.bbPhys + a.bbSize <= |mem|)
    }

    constructor (dma: Dma, memory: Mem, descs: array<Desc>)
      requires descs.Length == dma.entries
      requires dma.bbSize != 0 ==> dma.bbPhys + dma.bbSize <= |memory|
      ensures Valid() && a == dma && table == descs && mem == memory
    {
      a, table, mem := dma, descs, memory;
    }

    /** Descriptors for one region from slot `d` on. `ok == false` is one of the two
        exceptions: table full, or address out of the descriptor's range. */
    method SetDescsMemRegion(d: nat, r: Region, terminate: bool) returns (ok: bool, next: nat)
      requires d <= table.Length
      modifies table
      ensures ok <==> d + Count(r.len) <= table.Length && AddrOk(a, r)
      ensures ok ==> next == d + Count(r.len)
      ensures ok ==> table[..next] == old(table[..d]) + Pieces(a, r, terminate)
    {
      next := d;
      var phys: nat, size: nat := r.addr, r.len;
      EmitMeans(a, table[..d], table.Length, r, terminate);
      while size > 0
        invariant next <= table.Length
        invariant Emit(a, table[..next], table.Length, Region(phys, size), terminate)
               == Emit(a, old(table[..d]), table.Length, r, terminate)
      {
        ghost var t, left := table[..next], Region(phys, size);
        if next >= table.Length {
          return false, next;
        }
        if phys >= a.MaxAddr() {
          return false, next;
        }
        var length := Min(size, MAX_LENGTH);
        table[next] := Encode(a, Region(phys, length), false);
        phys, size := phys + length, size - length;
        if size == 0 && terminate {
          table[next] := table[next].(end := true);
        }
        assert table[..next + 1] == t + [Encode(a, Region(left.addr, length), terminate && left.len <= MAX_LENGTH)];
        assert Rest(left) == Region(phys, size);
        next := next + 1;
      }
      return true, next;
    }

    /** One block of `SetDescs`: redirect it through the bounce buffer if needed, then
        write its descriptors. */
    method SetBlock(b: Block, read: bool, last: bool, d: nat, offs: nat) returns (ok: bool, d': nat, offs': nat)
      requires Valid() && d <= table.Length && b.addr + Size(b) <= |mem| && offs <= a.bbSize
      modifies table, this`mem
      ensures Valid() && |mem| == old(|mem|)
      ensures ok <==> BlockOk(a, b, d, offs)
      ensures ok ==> offs' == After(a, b, offs) && d' == d + Count(Size(b))
      ensures ok ==> table[..d'] == old(table[..d]) + Pieces(a, Slot(a, b, offs), last)
      ensures ok ==> mem == if read then old(mem) else BlockIn(a, old(mem), b, offs)
    {
      var addr := b.addr;
      offs' := offs;
      if a.NeedsBounce(b) {
        if offs + Size(b) > a.bbSize {
          return false, d, offs;
        }
        if !read {
          mem := Write(mem, a.bbPhys + offs, Read(mem, Area(b)));
        }
        addr := a.bbPhys + offs;
        offs' := offs + Size(b);
      }
      ok, d' := SetDescsMemRegion(d, Region(addr, Size(b)), last);
    }

    /** Descriptors for a whole request, with unreachable blocks redirected through the
        bounce buffer. `bounced` is the flag that triggers the copy-back. */
    method SetDescs(blocks: seq<Block>, read: bool) returns (ok: bool, bounced: bool)
      requires Valid() && InMemory(|mem|, blocks)
      modifies table, this`mem
      ensures Valid() && |mem| == old(|mem|)
      ensures var e := Enter(a, old(mem), [], blocks, 0, 0, read);
              && (ok <==> e.Some?)
              && (ok ==> mem == e.value.mem && e.value.descs <= table[..])
              && (ok ==> (bounced <==> read && e.value.bounced > 0))
    {
      var offs: nat, d: nat, i: nat := 0, 0, 0;
      assert blocks[0..] == blocks && table[..0] == [];
      while i < |blocks|
        invariant 0 <= i <= |blocks| && d <= table.Length && |mem| == old(|mem|)
        invariant Enterable(a, |mem|, blocks[i..], offs)
        invariant Enter(a, mem, table[..d], blocks[i..], d, offs, read)
               == Enter(a, old(mem), [], blocks, 0, 0, read)
      {
        EnterStep(a, mem, table[..d], blocks, i, d, offs, read);
        var ok;
        ok, d, offs := SetBlock(blocks[i], read, i + 1 == |blocks|, d, offs);
        if !ok {
          return false, false;
        }
        i := i + 1;
      }
      return true, read && offs > 0;
    }

    /** One block of the copy-back. */
    method CopyBackBlock(b: Block, offs: nat) returns (offs': nat)
      requires Valid() && a.bbSize != 0 && b.addr + Size(b) <= |mem|
      requires a.NeedsBounce(b) ==> offs + Size(b) <= a.bbSize
      modifies this`mem
      ensures Valid() && mem == BlockBack(a, old(mem), b, offs) && offs' == After(a, b, offs)
    {
      offs' := offs;
      if !a.Accessible(b.addr, Size(b)) {
        mem := Write(mem, b.addr, Read(mem, Region(a.bbPhys + offs, Size(b))));
        offs' := offs + Size(b);
      }
    }

    /** The copy-back half of fetching a response. */
    method CopyBackBounce(blocks: seq<Block>, bounced: bool)
      requires Valid() && Placeable(a, |mem|, blocks, 0)
      requires bounced <==> BounceBytes(a, blocks) > 0
      modifies this`mem
      ensures Valid() && mem == CopyBack(a, old(mem), blocks, 0)
    {
      if !bounced {
        NoCopyBack(a, mem, blocks, 0);
        return;
      }
      PlaceableBound(a, |mem|, blocks, 0);
      var offs: nat, i: nat := 0, 0;
      assert blocks[0..] == blocks;
      while i < |blocks|
        invariant 0 <= i <= |blocks| && Valid() && |mem| == old(|mem|)
        invariant Placeable(a, |mem|, blocks[i..], offs) && a.bbSize != 0
        invariant CopyBack(a, mem, blocks[i..], offs) == CopyBack(a, old(mem), blocks, 0)
      {
        assert blocks[i..][0] == blocks[i] && blocks[i..][1..] == blocks[i + 1..];
        BackStep(a, mem, blocks[i..], offs);
        offs := CopyBackBlock(blocks[i], offs);
        i := i + 1;
      }
    }
  }

  // ---- One ADMA2 transfer from end to end ----

  /** The request's last block is not empty. */
  predicate Terminated(blocks: seq<Block>) {
    blocks != [] && blocks[|blocks| - 1].sectors > 0
  }

  /** A write: whatever the table held before, the controller that walks the finished
      table reads exactly the concatenation of the client blocks. */
  lemma {:induction false} WriteTransfer(a: Dma, m: Mem, blocks: seq<Block>, stale: seq<Desc>)
    requires Enterable(a, |m|, blocks, 0) && Enter(a, m, [], blocks, 0, 0, false).Some?
    requires Terminated(blocks) && ClearOfBounce(a, blocks)
    ensures var e := Enter(a, m, [], blocks, 0, 0, false).value;
            var fetched := Fetch(a, e.descs + stale);
            && fetched.Some? && AllInside(|e.mem|, fetched.value) && AllInside(|m|, Client(blocks))
            && Gather(e.mem, fetched.value) == Gather(m, Client(blocks))
  {
    var e := Enter(a, m, [], blocks, 0, 0, false).value;
    var rs := Place(a, blocks, 0);
    EnterMeans(a, m, [], blocks, 0, 0, false);
    assert e.descs == Table(a, rs);
    BuildOkMeans(a, |m|, blocks, 0, 0);
    PlacedOk(a, blocks, 0, 0);
    FetchTable(a, rs, stale);
    WriteMeaning(a, m, blocks, 0);
    GatherChopAll(e.mem, rs);
  }

  /** A read: delivering `d` along the finished table and copying back leaves every
      byte outside the bounce buffer as if `d` had been delivered to the client blocks
      one after the other. */
  lemma {:induction false} ReadTransfer(a: Dma, m: Mem, blocks: seq<Block>, stale: seq<Desc>, d: seq<Byte>)
    requires Enterable(a, |m|, blocks, 0) && Enter(a, m, [], blocks, 0, 0, true).Some?
    requires Terminated(blocks) && ClearOfBounce(a, blocks) && BouncedApart(a, blocks)
    requires |d| == Sum(blocks) * SECTOR_SIZE
    ensures var e := Enter(a, m, [], blocks, 0, 0, true).value;
            var fetched := Fetch(a, e.descs + stale);
            && e.mem == m && Placeable(a, |m|, blocks, 0) && AllInside(|m|, Client(blocks))
            && fetched.Some? && AllInside(|m|, fetched.value) && Length(fetched.value) == |d|
            && SameOutside(a.Bounce(), Scatter(m, Client(blocks), d),
                           CopyBack(a, Scatter(m, fetched.value, d), blocks, 0))
  {
    var e := Enter(a, m, [], blocks, 0, 0, true).value;
    var rs := Place(a, blocks, 0);
    EnterMeans(a, m, [], blocks, 0, 0, true);
    assert e.descs == Table(a, rs);
    BuildOkMeans(a, |m|, blocks, 0, 0);
    PlacedOk(a, blocks, 0, 0);
    FetchTable(a, rs, stale);
    ReadMeaning(a, m, blocks, 0, d);
    ScatterChopAll(m, rs, d);
  }

  /** Blocks that do not overlap each hold their slice of the data after a read. */
  lemma {:induction false} ReadDelivers(a: Dma, m: Mem, blocks: seq<Block>, stale: seq<Desc>, d: seq<Byte>, i: nat)
    requires Enterable(a, |m|, blocks, 0) && Enter(a, m, [], blocks, 0, 0, true).Some?
    requires Terminated(blocks) && ClearOfBounce(a, blocks) && BouncedApart(a, blocks)
    requires |d| == Sum(blocks) * SECTOR_SIZE && Apart(Client(blocks)) && i < |blocks|
    ensures var fetched := Fetch(a, Enter(a, m, [], blocks, 0, 0, true).value.descs + stale);
            && fetched.Some? && AllInside(|m|, fetched.value) && Length(fetched.value) == |d|
            && Placeable(a, |m|, blocks, 0)
            && var final := CopyBack(a, Scatter(m, fetched.value, d), blocks, 0);
               var k := SumTo(blocks, i) * SECTOR_SIZE;
               && Area(blocks[i]).addr + Size(blocks[i]) <= |m| && k + Size(blocks[i]) <= |d|
               && Read(final, Area(blocks[i])) == d[k..k + Size(blocks[i])]
  {
    ReadTransfer(a, m, blocks, stale, d);
    SliceDelivered(m, blocks, d, i);
    BlockClear(a, blocks, i);
    var fetched := Fetch(a, Enter(a, m, [], blocks, 0, 0, true).value.descs + stale).value;
    ReadSame(a.Bounce(), Scatter(m, Client(blocks), d), CopyBack(a, Scatter(m, fetched, d), blocks, 0),
             Area(blocks[i]));
  }

  lemma {:induction false} SliceDelivered(m: Mem, blocks: seq<Block>, d: seq<Byte>, i: nat)
    requires AllInside(|m|, Client(blocks)) && Apart(Client(blocks)) && |d| == Sum(blocks) * SECTOR_SIZE && i < |blocks|
    ensures var k := SumTo(blocks, i) * SECTOR_SIZE;
            && Inside(m, Area(blocks[i])) && k + Size(blocks[i]) <= |d|
            && Read(Scatter(m, Client(blocks), d), Area(blocks[i])) == d[k..k + Size(blocks[i])]
  {
    ClientAt(blocks, i);
    ScatterSlice(m, Client(blocks), d, i);
  }

  lemma {:induction false} ClientAt(blocks: seq<Block>, i: nat)
    requires i < |blocks|
    ensures Client(blocks)[i] == Area(blocks[i])
    ensures Length(Client(blocks)[..i]) == SumTo(blocks, i) * SECTOR_SIZE
  {
    if i == 0 {
      assert Client(blocks)[..0] == [];
    } else {
      ClientAt(blocks, i - 1);
      var c := Client(blocks);
      assert c[..i] == c[..i - 1] + [c[i - 1]];
      LengthAppend(c[..i - 1], [c[i - 1]]);
      ClientIndex(blocks, i);
    }
  }

  lemma {:induction false} ClientIndex(blocks: seq<Block>, i: nat)
    requires i < |blocks|
    ensures Client(blocks)[i] == Area(blocks[i])
  {
    if i == 0 {
    } else {
      ClientIndex(blocks[1..], i - 1);
    }
  }

  lemma {:induction false} BlockClear(a: Dma, blocks: seq<Block>, i: nat)
    requires ClearOfBounce(a, blocks) && i < |blocks|
    ensures Disjoint(Area(blocks[i]), a.Bounce())
  {
    if i == 0 {
    } else {
      BlockClear(a, blocks[1..], i - 1);
    }
  }
}
