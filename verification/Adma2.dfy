/** The ADMA2 descriptor table: how the driver builds it, with blocks the DMA engine
    cannot reach redirected through a bounce buffer, and how the controller walks it
    (section 1.13 of the SD Host Controller Simplified Specification). */
module Adma2 {
  import opened Mmc
  import opened Memory

  /** Bytes the driver puts into one descriptor. */
  const MAX_LENGTH := 32768

  datatype Action = Nop | Reserved | Tran | Link

  /** `length` is a 16-bit field in which 0 stands for 65536 bytes. */
  datatype Desc = Desc(valid: bool, end: bool, act: Action, addr: nat, length: nat)

  /** What the driver knows about the DMA engine: descriptor width and table entries,
      offset between CPU and bus addresses, highest reachable address, and the bounce
      buffer (`bbSize == 0` when none was provided). */
  datatype Dma = Dma(bits64: bool, entries: nat, offset: nat, limit: nat, bbPhys: nat, bbSize: nat)
  {
    function AddrSpace(): nat {
      if bits64 then WORD64 else WORD32
    }

    /** Exclusive bound the driver checks descriptor addresses against. */
    function MaxAddr(): nat {
      AddrSpace() - 1
    }

    /** `addr + size - 1` is computed in 64 bits: it wraps only for 0 + 0 - 1. */
    predicate Accessible(addr: nat, size: nat) {
      addr <= limit && 1 <= addr + size <= limit + 1
    }

    predicate NeedsBounce(b: Block) {
      bbSize != 0 && !Accessible(b.addr, Size(b))
    }

    function Bounce(): Region {
      Region(bbPhys, bbSize)
    }

    /** What the driver's set-up code checks: a 32-bit DMA limit, and a bounce buffer
        below it. */
    ghost predicate Valid() {
      && limit < WORD32
      && bbSize < WORD32
      && (bbSize != 0 ==> bbPhys + bbSize - 1 <= limit)
    }
  }

  function Size(b: Block): nat {
    b.sectors * SECTOR_SIZE
  }

  /** Client memory of a request, block by block. */
  function Client(blocks: seq<Block>): (rs: seq<Region>)
    ensures |rs| == |blocks|
    ensures Length(rs) == Sum(blocks) * SECTOR_SIZE
  {
    if blocks == [] then [] else [Region(blocks[0].addr, Size(blocks[0]))] + Client(blocks[1..])
  }

  /** Where the controller finds a block when `offs` bytes of the bounce buffer are
      taken. */
  function Slot(a: Dma, b: Block, offs: nat): Region {
    Region(if a.NeedsBounce(b) then a.bbPhys + offs else b.addr, Size(b))
  }

  /** Bytes of the bounce buffer taken after one more block. */
  function After(a: Dma, b: Block, offs: nat): nat {
    if a.NeedsBounce(b) then offs + Size(b) else offs
  }

  /** Memory the controller is pointed at, block by block. */
  function Place(a: Dma, blocks: seq<Block>, offs: nat): (rs: seq<Region>)
    ensures |rs| == |blocks|
    ensures Length(rs) == Sum(blocks) * SECTOR_SIZE
    ensures forall i | 0 <= i < |rs| :: rs[i].len == Size(blocks[i])
  {
    if blocks == [] then []
    else [Slot(a, blocks[0], offs)] + Place(a, blocks[1..], After(a, blocks[0], offs))
  }

  /** Bytes of a request that travel through the bounce buffer. */
  function BounceBytes(a: Dma, blocks: seq<Block>): nat {
    if blocks == [] then 0
    else (if a.NeedsBounce(blocks[0]) then Size(blocks[0]) else 0) + BounceBytes(a, blocks[1..])
  }

  // ---- Table layout ----

  function Min(x: nat, y: nat): nat {
    if x < y then x else y
  }

  function Rest(r: Region): Region {
    Region(r.addr + Min(r.len, MAX_LENGTH), r.len - Min(r.len, MAX_LENGTH))
  }

  /** The pieces one region is cut into. */
  function Chop(r: Region): (ps: seq<Region>)
    ensures Length(ps) == r.len
    decreases r.len
  {
    if r.len == 0 then [] else [Region(r.addr, Min(r.len, MAX_LENGTH))] + Chop(Rest(r))
  }

  function Encode(a: Dma, p: Region, end: bool): Desc {
    Desc(true, end, Tran, (p.addr + a.offset) % a.AddrSpace(), p.len)
  }

  function Pieces(a: Dma, r: Region, last: bool): (ds: seq<Desc>)
    ensures |ds| == Count(r.len)
    decreases r.len
  {
    if r.len == 0 then []
    else [Encode(a, Region(r.addr, Min(r.len, MAX_LENGTH)), last && r.len <= MAX_LENGTH)]
         + Pieces(a, Rest(r), last)
  }

  /** Descriptors a region of `len` bytes takes. */
  function Count(len: nat): nat {
    (len + MAX_LENGTH - 1) / MAX_LENGTH
  }

  function Table(a: Dma, rs: seq<Region>): seq<Desc> {
    if rs == [] then [] else Pieces(a, rs[0], |rs| == 1) + Table(a, rs[1..])
  }

  function ChopAll(rs: seq<Region>): seq<Region> {
    if rs == [] then [] else Chop(rs[0]) + ChopAll(rs[1..])
  }

  /** Every descriptor address of the region passes the driver's check. */
  predicate AddrOk(a: Dma, r: Region)
    decreases r.len
  {
    r.len == 0 || (r.addr < a.MaxAddr() && AddrOk(a, Rest(r)))
  }

  ghost predicate AllAddrOk(a: Dma, rs: seq<Region>) {
    forall i | 0 <= i < |rs| :: AddrOk(a, rs[i])
  }

  /** No exception is thrown while one block is entered from slot `d` on with `offs`
      bytes of the bounce buffer taken. */
  predicate BlockOk(a: Dma, b: Block, d: nat, offs: nat) {
    && (a.NeedsBounce(b) ==> offs + Size(b) <= a.bbSize)
    && d + Count(Size(b)) <= a.entries
    && AddrOk(a, Slot(a, b, offs))
  }

  predicate BuildOk(a: Dma, blocks: seq<Block>, d: nat, offs: nat) {
    || blocks == []
    || (&& BlockOk(a, blocks[0], d, offs)
        && BuildOk(a, blocks[1..], d + Count(Size(blocks[0])), After(a, blocks[0], offs)))
  }

  /** A piece of a region has 1 to 32768 bytes and starts where its predecessor ends. */
  lemma {:induction false} ChopShape(r: Region, k: nat)
    requires k < Count(r.len)
    ensures |Chop(r)| == Count(r.len)
    ensures Chop(r)[k] == Region(r.addr + k * MAX_LENGTH, Min(r.len - k * MAX_LENGTH, MAX_LENGTH))
    ensures 1 <= Chop(r)[k].len <= MAX_LENGTH
    decreases r.len
  {
    if k > 0 {
      ChopShape(Rest(r), k - 1);
    } else if r.len > MAX_LENGTH {
      ChopShape(Rest(r), 0);
    } else {
      assert Chop(Rest(r)) == [];
    }
  }

  // ---- What the engine can reach ----

  /** The last byte of the region, if there is one, is at or below the limit. */
  ghost predicate Below(limit: nat, r: Region) {
    r.len == 0 || r.addr + r.len - 1 <= limit
  }

  ghost predicate AllBelow(limit: nat, rs: seq<Region>) {
    forall i | 0 <= i < |rs| :: Below(limit, rs[i])
  }

  /** A block that is not empty stays where it is if the engine can reach all of it. With a
      bounce buffer it does so only then; otherwise it goes to the buffer, at `offs`. */
  lemma {:induction false} SlotExact(a: Dma, b: Block, offs: nat)
    requires a.Valid() && Size(b) > 0
    ensures Below(a.limit, Region(b.addr, Size(b))) ==> Slot(a, b, offs) == Region(b.addr, Size(b))
    ensures !Below(a.limit, Region(b.addr, Size(b))) ==>
              Slot(a, b, offs) == Region(if a.bbSize != 0 then a.bbPhys + offs else b.addr, Size(b))
  {
  }

  lemma {:induction false} PlacedBelow(a: Dma, blocks: seq<Block>, d: nat, offs: nat)
    requires a.Valid() && a.bbSize != 0 && BuildOk(a, blocks, d, offs)
    ensures AllBelow(a.limit, Place(a, blocks, offs))
    decreases |blocks|
  {
    if blocks == [] {
    } else {
      PlacedBelow(a, blocks[1..], d + Count(Size(blocks[0])), After(a, blocks[0], offs));
    }
  }

  /** Without a bounce buffer nothing is redirected. */
  lemma {:induction false} PlacedDirect(a: Dma, blocks: seq<Block>, offs: nat)
    requires a.bbSize == 0
    ensures Place(a, blocks, offs) == Client(blocks)
  {
    if blocks == [] {
    } else {
      PlacedDirect(a, blocks[1..], offs);
    }
  }

  /** The controller is pointed at nothing it cannot reach if and only if there is a bounce
      buffer or the client blocks are all within reach. */
  lemma {:induction false} ReachExact(a: Dma, blocks: seq<Block>)
    requires a.Valid() && BuildOk(a, blocks, 0, 0)
    ensures AllBelow(a.limit, Place(a, blocks, 0)) <==> a.bbSize != 0 || AllBelow(a.limit, Client(blocks))
  {
    if a.bbSize != 0 {
      PlacedBelow(a, blocks, 0, 0);
    } else {
      PlacedDirect(a, blocks, 0);
    }
  }

  lemma {:induction false} ChopBelow(limit: nat, r: Region)
    requires Below(limit, r)
    ensures AllBelow(limit, Chop(r))
    decreases r.len
  {
    if r.len == 0 {
    } else {
      ChopBelow(limit, Rest(r));
    }
  }

  lemma {:induction false} ChopAllBelow(limit: nat, rs: seq<Region>)
    requires AllBelow(limit, rs)
    ensures AllBelow(limit, ChopAll(rs))
  {
    if rs == [] {
    } else {
      ChopBelow(limit, rs[0]);
      ChopAllBelow(limit, rs[1..]);
    }
  }

  /** Every placed region has descriptor addresses the driver lets through. */
  lemma {:induction false} PlacedOk(a: Dma, blocks: seq<Block>, d: nat, offs: nat)
    requires BuildOk(a, blocks, d, offs)
    ensures AllAddrOk(a, Place(a, blocks, offs))
    decreases |blocks|
  {
    if blocks == [] {
    } else {
      PlacedOk(a, blocks[1..], d + Count(Size(blocks[0])), After(a, blocks[0], offs));
    }
  }

  /** With a bounce buffer the pieces the controller finds in the table are within its
      reach. */
  lemma {:induction false} FetchBelow(a: Dma, blocks: seq<Block>, stale: seq<Desc>)
    requires a.Valid() && a.bbSize != 0 && BuildOk(a, blocks, 0, 0)
    requires blocks != [] && blocks[|blocks| - 1].sectors > 0
    ensures var f := Fetch(a, Table(a, Place(a, blocks, 0)) + stale);
            f.Some? && AllBelow(a.limit, f.value)
  {
    PlacedOk(a, blocks, 0, 0);
    PlacedBelow(a, blocks, 0, 0);
    ChopAllBelow(a.limit, Place(a, blocks, 0));
    FetchTable(a, Place(a, blocks, 0), stale);
  }

  /** Where piece `k` of a region starts. */
  function StartOf(r: Region, k: nat): nat {
    r.addr + k * MAX_LENGTH
  }

  /** The address check is that of the source: no piece starts at or above the highest
      value of an address field. */
  lemma {:induction false} AddrOkMeans(a: Dma, r: Region)
    ensures AddrOk(a, r) <==>
              forall k: nat | k < Count(r.len) :: StartOf(r, k) < (if a.bits64 then WORD64 else WORD32) - 1
    decreases r.len
  {
    var m := (if a.bits64 then WORD64 else WORD32) - 1;
    if r.len == 0 {
    } else {
      var rest := Rest(r);
      AddrOkMeans(a, rest);
      assert StartOf(r, 0) == r.addr;
      assert forall k: nat :: rest.len > 0 ==> StartOf(rest, k) == StartOf(r, k + 1);
      if AddrOk(a, r) {
        forall k: nat | k < Count(r.len) ensures StartOf(r, k) < m {
          if k > 0 {
            assert StartOf(rest, k - 1) < m;
          }
        }
      } else if r.addr < m {
        var k: nat :| k < Count(rest.len) && !(StartOf(rest, k) < m);
        assert !(StartOf(r, k + 1) < m);
      }
    }
  }

  // ---- The controller's walk ----

  function BusToPhys(a: Dma, bus: nat): nat {
    (bus - a.offset) % a.AddrSpace()
  }

  function Prepend(ps: seq<Region>, tail: Option<seq<Region>>): Option<seq<Region>> {
    match tail
    case None => None
    case Some(rs) => Some(ps + rs)
  }

  lemma {:induction false} PrependTwice(ps: seq<Region>, qs: seq<Region>, tail: Option<seq<Region>>)
    ensures Prepend(ps, Prepend(qs, tail)) == Prepend(ps + qs, tail)
    ensures Prepend([], tail) == tail
  {
    if tail.Some? {
      assert ps + (qs + tail.value) == (ps + qs) + tail.value;
      assert [] + tail.value == tail.value;
    }
  }

  /** The transfers a controller performs: descriptor by descriptor up to the one with
      `end`. None is an ADMA error: an invalid or non-transfer line, or no end. */
  function Fetch(a: Dma, t: seq<Desc>): Option<seq<Region>> {
    if t == [] || !t[0].valid || t[0].act != Tran then None
    else
      var r := [Region(BusToPhys(a, t[0].addr), if t[0].length == 0 then 65536 else t[0].length)];
      if t[0].end then Some(r) else Prepend(r, Fetch(a, t[1..]))
  }

  lemma {:induction false} BusRoundTrip(a: Dma, addr: nat)
    requires addr < a.AddrSpace()
    ensures BusToPhys(a, (addr + a.offset) % a.AddrSpace()) == addr
  {
    var m := a.AddrSpace();
    var q := (addr + a.offset) / m;
    assert (addr + a.offset) % m - a.offset == addr - q * m;
    ModShift(addr, q, m);
  }

  lemma {:induction false} ModShift(x: nat, q: int, m: nat)
    requires m == WORD32 || m == WORD64
    requires x < m
    ensures (x - q * m) % m == x
  {
  }

  lemma {:induction false} FetchPieces(a: Dma, r: Region, last: bool, more: seq<Desc>)
    requires AddrOk(a, r)
    ensures Fetch(a, Pieces(a, r, last) + more)
         == if last && r.len > 0 then Some(Chop(r)) else Prepend(Chop(r), Fetch(a, more))
    decreases r.len
  {
    if r.len == 0 {
      assert Pieces(a, r, last) + more == more;
      PrependTwice([], [], Fetch(a, more));
    } else {
      FetchPiece(a, r, last, more);
      FetchPieces(a, Rest(r), last, more);
      PrependTwice(Chop(r)[..1], Chop(Rest(r)), Fetch(a, more));
      assert Chop(r) == Chop(r)[..1] + Chop(Rest(r));
      if Rest(r).len == 0 {
        assert Chop(r) == Chop(r)[..1];
      }
    }
  }

  /** The first piece. */
  lemma {:induction false} FetchPiece(a: Dma, r: Region, last: bool, more: seq<Desc>)
    requires AddrOk(a, r) && r.len > 0
    ensures Fetch(a, Pieces(a, r, last) + more)
         == if last && Rest(r).len == 0 then Some(Chop(r)[..1])
            else Prepend(Chop(r)[..1], Fetch(a, Pieces(a, Rest(r), last) + more))
  {
    var t := Pieces(a, r, last) + more;
    BusRoundTrip(a, r.addr);
    assert t[0] == Pieces(a, r, last)[0] && t[1..] == Pieces(a, Rest(r), last) + more;
  }

  /** Whatever the table held before, the controller performs exactly the pieces of the
      placed regions if the last region is not empty. If it is empty, no descriptor
      carries `end` and the controller runs on into the stale entries. */
  lemma {:induction false} FetchTable(a: Dma, rs: seq<Region>, stale: seq<Desc>)
    requires rs != [] && AllAddrOk(a, rs)
    ensures Fetch(a, Table(a, rs) + stale)
         == if rs[|rs| - 1].len > 0 then Some(ChopAll(rs)) else Prepend(ChopAll(rs), Fetch(a, stale))
  {
    var more := Table(a, rs[1..]) + stale;
    assert Table(a, rs) + stale == Pieces(a, rs[0], |rs| == 1) + more;
    FetchPieces(a, rs[0], |rs| == 1, more);
    if |rs| == 1 {
      assert more == stale && ChopAll(rs) == Chop(rs[0]);
    } else {
      FetchTable(a, rs[1..], stale);
      PrependTwice(Chop(rs[0]), ChopAll(rs[1..]), Fetch(a, stale));
    }
  }

  /** All descriptors are valid transfer lines of at most 32768 bytes, and `end` is on
      the last one and on no other, exactly when the last region is not empty. */
  lemma {:induction false} TableShape(a: Dma, rs: seq<Region>, k: nat)
    requires rs != [] && k < |Table(a, rs)|
    ensures var d := Table(a, rs)[k];
            && d.valid && d.act == Tran && 1 <= d.length <= MAX_LENGTH
            && (d.end <==> k == |Table(a, rs)| - 1 && rs[|rs| - 1].len > 0)
  {
    var ps := Pieces(a, rs[0], |rs| == 1);
    if k < |ps| {
      PiecesShape(a, rs[0], |rs| == 1, k);
      if |rs| > 1 && rs[|rs| - 1].len > 0 {
        TableNotEmpty(a, rs[1..]);
      }
    } else {
      TableShape(a, rs[1..], k - |ps|);
    }
  }

  /** Descriptor `k` holds the bus address and the length of piece `k`. */
  lemma {:induction false} TableAddresses(a: Dma, rs: seq<Region>, k: nat)
    requires k < |Table(a, rs)|
    ensures k < |ChopAll(rs)|
    ensures var d, p := Table(a, rs)[k], ChopAll(rs)[k];
            d.addr == (p.addr + a.offset) % (if a.bits64 then WORD64 else WORD32) && d.length == p.len
    decreases |rs|
  {
    var ps := Pieces(a, rs[0], |rs| == 1);
    if k < |ps| {
      PieceAddress(a, rs[0], |rs| == 1, k);
    } else {
      PiecesCount(rs[0]);
      TableAddresses(a, rs[1..], k - |ps|);
    }
  }

  lemma {:induction false} PiecesCount(r: Region)
    ensures |Chop(r)| == Count(r.len)
  {
    if r.len == 0 {
    } else {
      ChopShape(r, 0);
    }
  }

  lemma {:induction false} PieceAddress(a: Dma, r: Region, last: bool, k: nat)
    requires k < |Pieces(a, r, last)|
    ensures k < |Chop(r)|
    ensures var d, p := Pieces(a, r, last)[k], Chop(r)[k];
            d.addr == (p.addr + a.offset) % (if a.bits64 then WORD64 else WORD32) && d.length == p.len
    decreases r.len
  {
    if k == 0 {
    } else {
      PieceAddress(a, Rest(r), last, k - 1);
    }
  }

  lemma {:induction false} TableNotEmpty(a: Dma, rs: seq<Region>)
    requires rs != [] && rs[|rs| - 1].len > 0
    ensures |Table(a, rs)| > 0
  {
    if |rs| == 1 {
    } else {
      TableNotEmpty(a, rs[1..]);
    }
  }

  lemma {:induction false} PiecesShape(a: Dma, r: Region, last: bool, k: nat)
    requires k < Count(r.len)
    ensures var d := Pieces(a, r, last)[k];
            && d.valid && d.act == Tran && 1 <= d.length <= MAX_LENGTH
            && (d.end <==> last && k == Count(r.len) - 1)
    decreases r.len
  {
    if k == 0 {
    } else {
      PiecesShape(a, Rest(r), last, k - 1);
    }
  }

  // ---- The transfer means the block list ----

  lemma {:induction false} ChopInside(size: nat, r: Region)
    requires r.addr + r.len <= size
    ensures AllInside(size, Chop(r))
    decreases r.len
  {
    if r.len == 0 {
    } else {
      ChopInside(size, Rest(r));
    }
  }

  lemma {:induction false} ChopAllInside(size: nat, rs: seq<Region>)
    requires AllInside(size, rs)
    ensures AllInside(size, ChopAll(rs)) && Length(ChopAll(rs)) == Length(rs)
  {
    if rs == [] {
    } else {
      ChopInside(size, rs[0]);
      ChopAllInside(size, rs[1..]);
      InsideAppend(size, Chop(rs[0]), ChopAll(rs[1..]));
      LengthAppend(Chop(rs[0]), ChopAll(rs[1..]));
    }
  }

  lemma {:induction false} GatherChop(m: Mem, r: Region)
    requires Inside(m, r)
    ensures AllInside(|m|, Chop(r)) && Gather(m, Chop(r)) == Read(m, r)
    decreases r.len
  {
    ChopInside(|m|, r);
    if r.len == 0 {
    } else {
      var p := Region(r.addr, Min(r.len, MAX_LENGTH));
      GatherChop(m, Rest(r));
      assert Chop(r)[1..] == Chop(Rest(r));
      assert Gather(m, Chop(r)) == Read(m, p) + Read(m, Rest(r));
      assert Read(m, p) + Read(m, Rest(r)) == Read(m, r);
    }
  }

  lemma {:induction false} ScatterChop(m: Mem, r: Region, d: seq<Byte>)
    requires Inside(m, r) && |d| == r.len
    ensures AllInside(|m|, Chop(r)) && Scatter(m, Chop(r), d) == Write(m, r.addr, d)
    decreases r.len
  {
    ChopInside(|m|, r);
    if r.len == 0 {
      assert Write(m, r.addr, d) == m;
    } else {
      var n := Min(r.len, MAX_LENGTH);
      var m1 := Write(m, r.addr, d[..n]);
      assert Chop(r)[1..] == Chop(Rest(r));
      ScatterChop(m1, Rest(r), d[n..]);
      assert Scatter(m, Chop(r), d) == Write(m1, r.addr + n, d[n..]);
      WriteAdjacent(m, r.addr, d[..n], d[n..]);
      assert d[..n] + d[n..] == d;
    }
  }

  /** Cutting regions into pieces changes nothing in what is gathered ... */
  lemma {:induction false} GatherChopAll(m: Mem, rs: seq<Region>)
    requires AllInside(|m|, rs)
    ensures AllInside(|m|, ChopAll(rs)) && Gather(m, ChopAll(rs)) == Gather(m, rs)
  {
    ChopAllInside(|m|, rs);
    if rs == [] {
    } else {
      GatherChop(m, rs[0]);
      GatherChopAll(m, rs[1..]);
      GatherAppend(m, Chop(rs[0]), ChopAll(rs[1..]));
    }
  }

  /** ... and nothing in what is scattered. */
  lemma {:induction false} ScatterChopAll(m: Mem, rs: seq<Region>, d: seq<Byte>)
    requires AllInside(|m|, rs) && |d| == Length(rs)
    ensures AllInside(|m|, ChopAll(rs)) && Length(ChopAll(rs)) == |d|
    ensures Scatter(m, ChopAll(rs), d) == Scatter(m, rs, d)
    decreases |rs|
  {
    ChopAllInside(|m|, rs);
    if rs == [] {
    } else {
      var n := rs[0].len;
      ChopInside(|m|, rs[0]);
      ChopAllInside(|m|, rs[1..]);
      ScatterAppend(m, Chop(rs[0]), ChopAll(rs[1..]), d[..n], d[n..]);
      assert d[..n] + d[n..] == d;
      ScatterChop(m, rs[0], d[..n]);
      ScatterChopAll(Write(m, rs[0].addr, d[..n]), rs[1..], d[n..]);
    }
  }
}
