/** Sizes the driver advertises to its clients, sizes it reserves, and the theorem that
    the two agree: an admitted request cannot fail for lack of room. */
module Capacity {
  import opened Mmc
  import opened Memory
  import opened Adma2

  const PAGE_SIZE := 4096
  const MAX_BLOCKS := 65535                        // 16-bit block count fields
  const MAX_REQUEST := MAX_BLOCKS * SECTOR_SIZE    // bytes of one request

  // ---- Arithmetic ----

  lemma {:induction false} MulMonotone(x: int, y: int, k: nat)
    requires x <= y
    ensures x * k <= y * k
  {
  }

  lemma {:induction false} MulStep(n: int, k: int)
    ensures n * k == k + (n - 1) * k
  {
  }

  lemma {:induction false} DivTimes(x: nat, k: nat)
    requires k > 0
    ensures x / k * k <= x < (x / k + 1) * k
  {
    MulStep(x / k + 1, k);
  }

  lemma {:induction false} RoundedShare(total: nat, k: nat)
    requires k > 0
    ensures (total / k - total / k % SECTOR_SIZE) * k <= total
    ensures (total / k - total / k % SECTOR_SIZE) % SECTOR_SIZE == 0
  {
    var each := total / k;
    DivTimes(total, k);
    MulMonotone(each - each % SECTOR_SIZE, each, k);
    Aligned(each);
  }

  lemma {:induction false} Aligned(x: nat)
    ensures (x - x % SECTOR_SIZE) % SECTOR_SIZE == 0
  {
  }

  function RoundPage(n: nat): nat {
    (n + PAGE_SIZE - 1) / PAGE_SIZE * PAGE_SIZE
  }

  function DescSize(bits64: bool): nat {
    if bits64 then 16 else 8
  }

  /** Entries of the descriptor table reserved for `maxSeg` segments. */
  function Entries(maxSeg: nat, bits64: bool): nat {
    RoundPage(maxSeg * (MAX_REQUEST / MAX_LENGTH) * DescSize(bits64)) / DescSize(bits64)
  }

  /** Bytes that all segments together may take. */
  function Total(a: Dma): nat {
    if a.bbSize != 0 then a.bbSize else MAX_REQUEST
  }

  /** Largest segment in bytes: a multiple of the sector size. */
  function MaxSize(a: Dma, maxSeg: nat): (n: nat)
    requires maxSeg > 0
    ensures n % SECTOR_SIZE == 0 && n * maxSeg <= Total(a)
  {
    var total := if a.bbSize != 0 then a.bbSize else MAX_REQUEST;
    RoundedShare(total, maxSeg);
    total / maxSeg - total / maxSeg % SECTOR_SIZE
  }

  lemma {:induction false} MultipleBelow(m: nat, n: nat)
    requires m % SECTOR_SIZE == 0 && m <= n
    ensures m <= n - n % SECTOR_SIZE
  {
  }

  /** It is the largest such size: a multiple of the sector size is within it if and only if
      `maxSeg` times as much is within the total. */
  lemma {:induction false} MaxSizeExact(a: Dma, maxSeg: nat, m: nat)
    requires maxSeg > 0 && m % SECTOR_SIZE == 0
    ensures m <= MaxSize(a, maxSeg) <==> m * maxSeg <= Total(a)
  {
    var total := Total(a);
    if m <= MaxSize(a, maxSeg) {
      MulMonotone(m, MaxSize(a, maxSeg), maxSeg);
    } else if m * maxSeg <= total {
      DivTimes(total, maxSeg);
      LessFactor(m, total / maxSeg + 1, maxSeg);
      MultipleBelow(m, total / maxSeg);
    }
  }

  /** The configurations the driver comes up with. */
  ghost predicate Configured(a: Dma, maxSeg: nat) {
    && 1 <= maxSeg <= 128
    && a.Valid()
    && a.entries == Entries(maxSeg, a.bits64)
  }

  /** The size check of `inout_data` and the segment limit of the client protocol. */
  predicate Admitted(a: Dma, maxSeg: nat, blocks: seq<Block>)
    requires maxSeg > 0
  {
    && 1 <= |blocks| <= maxSeg
    && forall b | b in blocks :: Size(b) <= MaxSize(a, maxSeg)
  }

  /** Every block fits `maxSeg` times. */
  predicate SharesFit(a: Dma, maxSeg: nat, blocks: seq<Block>) {
    forall b | b in blocks :: Size(b) * maxSeg <= Total(a)
  }

  /** Admitted are exactly the requests of at most `maxSeg` blocks each of which would fit
      that many times. */
  lemma {:induction false} AdmittedExact(a: Dma, maxSeg: nat, blocks: seq<Block>)
    requires maxSeg > 0
    ensures Admitted(a, maxSeg, blocks) <==> 1 <= |blocks| <= maxSeg && SharesFit(a, maxSeg, blocks)
  {
    forall b | b in blocks ensures Size(b) <= MaxSize(a, maxSeg) <==> Size(b) * maxSeg <= Total(a) {
      MaxSizeExact(a, maxSeg, Size(b));
    }
  }

  /** DMA addresses are 64-bit, and without a bounce buffer they suit the descriptors. */
  predicate Reachable(a: Dma, blocks: seq<Block>) {
    forall b | b in blocks ::
      && b.addr + Size(b) <= WORD64
      && (a.bbSize != 0 || a.bits64 || a.Accessible(b.addr, Size(b)))
  }

  /** Submitting the transfer throws no exception. */
  predicate Submittable(a: Dma, blocks: seq<Block>) {
    BuildOk(a, blocks, 0, 0) && Sum(blocks) <= MAX_BLOCKS
  }

  lemma {:induction false} AddrOkWithin(a: Dma, r: Region)
    requires r.len % SECTOR_SIZE == 0 && r.addr + r.len <= a.AddrSpace()
    ensures AddrOk(a, r)
    decreases r.len
  {
    if r.len == 0 {
    } else {
      AddrOkWithin(a, Rest(r));
    }
  }

  lemma {:induction false} SlotAddrOk(a: Dma, b: Block, offs: nat)
    requires a.Valid() && Reachable(a, [b])
    requires a.NeedsBounce(b) ==> offs + Size(b) <= a.bbSize
    ensures AddrOk(a, Slot(a, b, offs))
  {
    assert b in [b];
    if Size(b) > 0 {
      AddrOkWithin(a, Slot(a, b, offs));
    }
  }

  /** Room for `k` descriptors and `m` bytes per block is enough. */
  lemma {:induction false} BuildFits(a: Dma, blocks: seq<Block>, d: nat, offs: nat, k: nat, m: nat)
    requires a.Valid() && Reachable(a, blocks)
    requires forall b | b in blocks :: Size(b) <= m
    requires Count(m) <= k && d + |blocks| * k <= a.entries
    requires a.bbSize != 0 ==> offs + |blocks| * m <= a.bbSize
    ensures BuildOk(a, blocks, d, offs)
    decreases |blocks|
  {
    if blocks == [] {
    } else {
      var b, rest := blocks[0], blocks[1..];
      assert b in blocks;
      assert forall c | c in rest :: c in blocks;
      MulStep(|blocks|, k);
      MulStep(|blocks|, m);
      MulMonotone(0, k, |rest|);
      MulMonotone(0, m, |rest|);
      assert Count(Size(b)) <= k;
      SlotAddrOk(a, b, offs);
      BuildFits(a, rest, d + Count(Size(b)), After(a, b, offs), k, m);
    }
  }

  lemma {:induction false} SumBound(blocks: seq<Block>, m: nat)
    requires forall b | b in blocks :: Size(b) <= m
    ensures Sum(blocks) * SECTOR_SIZE <= |blocks| * m
  {
    if blocks == [] {
    } else {
      assert blocks[0] in blocks;
      assert forall c | c in blocks[1..] :: c in blocks;
      SumBound(blocks[1..], m);
      MulStep(|blocks|, m);
    }
  }

  lemma {:induction false} PagesCover(n: nat, unit: nat)
    requires unit == 8 || unit == 16
    ensures RoundPage(n * unit) / unit >= n
  {
  }

  lemma {:induction false} HalfRequest(maxSeg: nat, m: nat)
    requires 2 <= maxSeg && maxSeg * m <= MAX_REQUEST
    ensures Count(m) <= 512
  {
    MulMonotone(2, maxSeg, m);
    assert m <= MAX_REQUEST / 2;
  }

  lemma {:induction false} SeveralSegments(maxSeg: nat, bits64: bool, c: nat)
    requires c <= 512
    ensures maxSeg * c <= Entries(maxSeg, bits64)
  {
    PagesCover(maxSeg * (MAX_REQUEST / MAX_LENGTH), DescSize(bits64));
    MulMonotone(c, 512, maxSeg);
  }

  lemma {:induction false} OneSegment(bits64: bool, m: nat)
    requires m <= MAX_REQUEST
    ensures Count(m) <= Entries(1, bits64)
  {
  }

  /** The table has room for `maxSeg` segments of `m` bytes if these fit one request.
      For a single segment this needs the 1024th entry, which only the rounding to
      pages provides. */
  lemma {:induction false} EntriesSuffice(maxSeg: nat, bits64: bool, m: nat)
    requires 1 <= maxSeg <= 128 && maxSeg * m <= MAX_REQUEST
    ensures maxSeg * Count(m) <= Entries(maxSeg, bits64)
  {
    if maxSeg == 1 {
      OneSegment(bits64, m);
    } else {
      HalfRequest(maxSeg, m);
      SeveralSegments(maxSeg, bits64, Count(m));
    }
  }

  /** An admitted request is submitted without an exception whenever `maxSeg` segments
      of the advertised size make no more than one request. */
  lemma {:induction false} AdmittedIsSubmittable(a: Dma, maxSeg: nat, blocks: seq<Block>)
    requires Configured(a, maxSeg) && maxSeg * MaxSize(a, maxSeg) <= MAX_REQUEST
    requires Admitted(a, maxSeg, blocks) && Reachable(a, blocks)
    ensures Submittable(a, blocks)
  {
    var m := MaxSize(a, maxSeg);
    EntriesSuffice(maxSeg, a.bits64, m);
    MulMonotone(|blocks|, maxSeg, Count(m));
    MulMonotone(|blocks|, maxSeg, m);
    BuildFits(a, blocks, 0, 0, Count(m), m);
    SumBound(blocks, m);
  }

  lemma {:induction false} BounceBound(a: Dma, blocks: seq<Block>, m: nat)
    requires forall b | b in blocks :: Size(b) <= m
    ensures BounceBytes(a, blocks) <= |blocks| * m
  {
    if blocks == [] {
    } else {
      assert blocks[0] in blocks;
      assert forall c | c in blocks[1..] :: c in blocks;
      BounceBound(a, blocks[1..], m);
      MulStep(|blocks|, m);
    }
  }

  /** The driver keeps block sizes and bounce buffer offsets in 32 bits; for an admitted
      request that loses nothing. */
  lemma {:induction false} NoTruncation(a: Dma, maxSeg: nat, blocks: seq<Block>)
    requires Configured(a, maxSeg) && Admitted(a, maxSeg, blocks)
    ensures BounceBytes(a, blocks) < WORD32
    ensures forall b | b in blocks :: Size(b) < WORD32
  {
    var m := MaxSize(a, maxSeg);
    BounceBound(a, blocks, m);
    MulMonotone(|blocks|, maxSeg, m);
    MulMonotone(1, maxSeg, m);
  }

  /** Blocks of `k` sectors that make `total` sectors, the last one perhaps shorter. */
  function Fill(total: nat, k: nat): (blocks: seq<Block>)
    requires 0 < k < WORD32
    ensures Sum(blocks) == total
    ensures forall b | b in blocks :: b.addr == 0 && b.sectors <= k
    ensures total > 0 ==> |blocks| > 0 && (|blocks| - 1) * k < total
    decreases total
  {
    if total == 0 then []
    else if total <= k then [Block(0, total)]
    else
      var rest := Fill(total - k, k);
      MulStep(|rest|, k);
      [Block(0, k)] + rest
  }

  lemma {:induction false} LessFactor(x: int, y: int, k: nat)
    requires x * k < y * k
    ensures x < y
  {
    if y <= x {
      MulMonotone(y, x, k);
    }
  }

  /** More bytes than one request are more sectors than the count field can hold. */
  lemma {:induction false} ManySectors(maxSeg: nat, m: nat)
    requires m % SECTOR_SIZE == 0 && maxSeg * m > MAX_REQUEST
    ensures maxSeg * (m / SECTOR_SIZE) >= MAX_BLOCKS + 1
  {
    var k := m / SECTOR_SIZE;
    assert m == k * SECTOR_SIZE;
    assert maxSeg * (k * SECTOR_SIZE) == (maxSeg * k) * SECTOR_SIZE;
  }

  /** The condition is exact: where it fails, an admitted request of 65536 sectors does
      not fit the block count field. That happens only with a bounce buffer larger
      than one request. */
  lemma {:induction false} OversizedRequest(a: Dma, maxSeg: nat) returns (blocks: seq<Block>)
    requires Configured(a, maxSeg) && maxSeg * MaxSize(a, maxSeg) > MAX_REQUEST
    ensures Admitted(a, maxSeg, blocks) && Reachable(a, blocks) && !Submittable(a, blocks)
    ensures Sum(blocks) == MAX_BLOCKS + 1 && a.bbSize > MAX_REQUEST
  {
    var k := MaxSize(a, maxSeg) / SECTOR_SIZE;
    ManySectors(maxSeg, MaxSize(a, maxSeg));
    LessFactor(0, k, maxSeg);
    blocks := Fill(MAX_BLOCKS + 1, k);
    LessFactor(|blocks| - 1, maxSeg, k);
  }

  /** Admission is safe if and only if the configuration meets the condition. */
  lemma {:induction false} AdmissionSafe(a: Dma, maxSeg: nat)
    requires Configured(a, maxSeg)
    ensures (forall blocks | Admitted(a, maxSeg, blocks) && Reachable(a, blocks) :: Submittable(a, blocks))
       <==> maxSeg * MaxSize(a, maxSeg) <= MAX_REQUEST
  {
    if maxSeg * MaxSize(a, maxSeg) <= MAX_REQUEST {
      forall blocks | Admitted(a, maxSeg, blocks) && Reachable(a, blocks) ensures Submittable(a, blocks) {
        AdmittedIsSubmittable(a, maxSeg, blocks);
      }
    } else {
      var blocks := OversizedRequest(a, maxSeg);
    }
  }

  /** Without rounding to pages the table would be one descriptor short for the largest
      request in a single segment. */
  lemma {:induction false} TightForOneSegment(bits64: bool)
    ensures Count(MAX_REQUEST) == Entries(1, bits64) == MAX_REQUEST / MAX_LENGTH + 1
  {
  }
}
