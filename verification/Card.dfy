/** What the commands mean: an abstract card, the controller's DMA, and the theorem that
    the ADMA2 plan has the effect of the SDMA plan. */
module Card {
  import opened Mmc
  import opened Memory
  import opened Adma2
  import opened Bounce
  import opened Sdhci
  import opened Capacity
  import opened Protocol
  import opened Runs
  import opened Wires

  /** Host memory, descriptor table, card contents as flat bytes, block count announced by
      CMD23, and whether an open-ended transfer waits for CMD12. */
  datatype World = World(mem: Mem, table: seq<Desc>, card: Mem, pending: Option<nat>, open: bool)

  function Bytes(n: nat): nat {
    n * SECTOR_SIZE
  }

  /** Byte of the card a command argument denotes. */
  function Offset(cfg: Config, sector: nat): nat {
    if cfg.byteMode then Arg(cfg, sector) else Arg(cfg, sector) * SECTOR_SIZE
  }

  /** One transfer by SDMA: `count` sectors between byte `off` of the card and memory at
      the 32-bit address of the first block. */
  ghost function MoveSdma(w: World, read: bool, off: nat, count: nat, list: seq<Block>): Option<World> {
    if list == [] then None
    else
      var r := Region(list[0].addr % WORD32, Bytes(count));
      if !Inside(w.mem, r) || !Inside(w.card, Region(off, Bytes(count))) then None
      else if read then Some(w.(mem := Write(w.mem, r.addr, Read(w.card, Region(off, Bytes(count))))))
      else Some(w.(card := Write(w.card, off, Read(w.mem, r))))
  }

  /** One transfer by ADMA2: the driver overwrites the head of the descriptor table, the
      controller walks the table, and after a read the driver copies bounced blocks back. */
  ghost function MoveAdma2(a: Dma, w: World, read: bool, off: nat, count: nat, list: seq<Block>): Option<World> {
    if !Enterable(a, |w.mem|, list, 0) || !Inside(w.card, Region(off, Bytes(count))) then None
    else
      match Enter(a, w.mem, [], list, 0, 0, read)
      case None => None
      case Some(e) =>
        if |e.descs| > |w.table| then None
        else
          var t := e.descs + w.table[|e.descs|..];
          match Fetch(a, t)
          case None => None
          case Some(rs) =>
            if !AllInside(|e.mem|, rs) || Length(rs) != Bytes(count) then None
            else if !read then
              Some(w.(mem := e.mem, table := t, card := Write(w.card, off, Gather(e.mem, rs))))
            else
              var m := Scatter(e.mem, rs, Read(w.card, Region(off, Bytes(count))));
              if Placeable(a, |m|, list, 0) then Some(w.(mem := CopyBack(a, m, list, 0), table := t)) else None
  }

  ghost function Move(cfg: Config, w: World, c: BusCmd): Option<World>
    requires c.SingleCmd? || c.MultiCmd?
  {
    var off := Offset(cfg, c.sector);
    if cfg.adma2 then MoveAdma2(cfg.dma, w, c.read, off, Sectors(c), c.dma)
    else MoveSdma(w, c.read, off, Sectors(c), c.dma)
  }

  predicate SameSizes(w: World, x: World) {
    |w.mem| == |x.mem| && |w.card| == |x.card| && |w.table| == |x.table|
  }

  lemma {:induction false} MoveSizes(cfg: Config, w: World, c: BusCmd)
    requires (c.SingleCmd? || c.MultiCmd?) && Move(cfg, w, c).Some?
    ensures SameSizes(w, Move(cfg, w, c).value)
  {
    if cfg.adma2 {
      EnterMeans(cfg.dma, w.mem, [], c.dma, 0, 0, c.read);
    }
  }

  /** What a transfer moves does not depend on what the card waits for. */
  lemma {:induction false} MoveAnyhow(cfg: Config, w: World, c: BusCmd, open: bool)
    requires c.SingleCmd? || c.MultiCmd?
    ensures Move(cfg, w.(open := open), c)
         == match Move(cfg, w, c)
            case None => None
            case Some(w') => Some(w'.(open := open))
  {
  }

  /** Block count announced by CMD23, whose argument has 16 bits for it; 0 announces
      nothing, the transfer is open-ended then. */
  function Known(n: nat): Option<nat> {
    if n % 65536 == 0 then None else Some(n % 65536)
  }

  /** Block count the card knows of when a transfer of several sectors starts. */
  function Announced(w: World, c: BusCmd): Option<nat>
    requires c.MultiCmd?
  {
    if c.auto23 then Known(c.count) else w.pending
  }

  /** Effect of one command; None if the card would be asked for something else than the
      controller expects, or is still waiting for CMD12. */
  ghost function Exec(cfg: Config, w: World, c: BusCmd): Option<World> {
    match c
    case StopCmd(_) => if w.open then Some(w.(open := false)) else None
    case CountCmd(n) => if w.open then None else Some(w.(pending := Known(n)))
    case SingleCmd(_, _, _) =>
      if w.open then None else Move(cfg, w.(pending := None), c)
    case MultiCmd(_, _, count, _, _) =>
      var known := Announced(w, c);
      if w.open || (known.Some? && known.value != count) then None
      else Move(cfg, w.(pending := None, open := known.None?), c)
  }

  ghost function ExecAll(cfg: Config, w: World, cmds: seq<BusCmd>): Option<World>
    decreases |cmds|
  {
    if cmds == [] then Some(w)
    else
      match Exec(cfg, w, cmds[0])
      case None => None
      case Some(w') => ExecAll(cfg, w', cmds[1..])
  }

  lemma {:induction false} ExecStep(cfg: Config, w: World, c: BusCmd, more: seq<BusCmd>)
    ensures ExecAll(cfg, w, [c] + more)
         == match Exec(cfg, w, c)
            case None => None
            case Some(w') => ExecAll(cfg, w', more)
  {
    assert ([c] + more)[1..] == more;
  }

  // ---- What goes over the wire ----

  /** The transfer that a command on the wire starts: its count and block list are those
      of the controller's registers, its place on the card that of the argument. */
  ghost function MoveWire(cfg: Config, w: World, read: bool, x: Wire): Option<World> {
    if x.data.None? then None
    else
      var off := if cfg.byteMode then x.arg else x.arg * SECTOR_SIZE;
      if cfg.adma2 then MoveAdma2(cfg.dma, w, read, off, x.data.value.count, x.data.value.dma)
      else MoveSdma(w, read, off, x.data.value.count, x.data.value.dma)
  }

  /** Effect of a command as card and controller get it. */
  ghost function ExecWire(cfg: Config, w: World, x: Wire): Option<World> {
    match x.op
    case StopRead | StopWrite => if w.open then Some(w.(open := false)) else None
    case SetBlockCount => if w.open then None else Some(w.(pending := Known(x.arg)))
    case ReadSingle | WriteSingle =>
      if w.open then None else MoveWire(cfg, w.(pending := None), x.op.ReadSingle?, x)
    case ReadMultiple | WriteMultiple =>
      if x.data.None? then None
      else
        var known := if x.data.value.auto23 then Known(x.data.value.count) else w.pending;
        if w.open || (known.Some? && known.value != x.data.value.count) then None
        else MoveWire(cfg, w.(pending := None, open := known.None?), x.op.ReadMultiple?, x)
    case _ => None
  }

  ghost function ExecWires(cfg: Config, w: World, xs: seq<Wire>): Option<World> {
    if xs == [] then Some(w)
    else
      var n := |xs| - 1;
      match ExecWires(cfg, w, xs[..n])
      case None => None
      case Some(w') => ExecWire(cfg, w', xs[n])
  }

  /** The block count is not cut. */
  predicate Uncut(c: BusCmd) {
    c.MultiCmd? ==> c.count < WORD32
  }

  lemma {:induction false} KnownCut(n: nat)
    ensures Known(n % 65536) == Known(n)
  {
  }

  lemma {:induction false} MoveMeans(cfg: Config, w: World, c: BusCmd)
    requires (c.SingleCmd? || c.MultiCmd?) && Uncut(c)
    ensures MoveWire(cfg, w, c.read, OnWire(cfg, c)) == Move(cfg, w, c)
  {
    FieldsMean(cfg, c);
  }

  lemma {:induction false} FieldsMean(cfg: Config, c: BusCmd)
    requires (c.SingleCmd? || c.MultiCmd?) && Uncut(c)
    ensures var x := OnWire(cfg, c);
            x.arg == Arg(cfg, c.sector) && x.data.Some? && x.data.value.count == Sectors(c) && x.data.value.dma == c.dma
  {
  }

  lemma {:induction false} MultiMeans(cfg: Config, w: World, c: BusCmd)
    requires c.MultiCmd? && Uncut(c)
    ensures ExecWire(cfg, w, OnWire(cfg, c)) == Exec(cfg, w, c)
  {
    var known := Announced(w, c);
    MoveMeans(cfg, w.(pending := None, open := known.None?), c);
    assert OnWire(cfg, c).data.value.count == c.count;
  }

  /** A command does on the wire what it stands for. */
  lemma {:induction false} WireMeans(cfg: Config, w: World, c: BusCmd)
    requires Uncut(c)
    ensures ExecWire(cfg, w, OnWire(cfg, c)) == Exec(cfg, w, c)
  {
    match c
    case StopCmd(_) =>
    case CountCmd(n) => KnownCut(n);
    case SingleCmd(_, _, _) => MoveMeans(cfg, w.(pending := None), c);
    case MultiCmd(_, _, _, _, _) => MultiMeans(cfg, w, c);
  }

  /** A transfer is refused exactly when 16 bits do not hold its block count, or when the
      driver throws in entering it into the descriptor table. */
  lemma {:induction false} SubmitExact(cfg: Config, m: Mem, c: BusCmd)
    requires (c.SingleCmd? || c.MultiCmd?) && Enterable(cfg.dma, |m|, c.dma, 0)
    ensures SubmitFails(cfg, c) <==>
              || OnWire(cfg, c).data.value.count >= 65536
              || (cfg.adma2 && Enter(cfg.dma, m, [], c.dma, 0, 0, c.read).None?)
  {
    EnterMeans(cfg.dma, m, [], c.dma, 0, 0, c.read);
  }

  lemma {:induction false} ExecAppend(cfg: Config, w: World, xs: seq<BusCmd>, ys: seq<BusCmd>)
    ensures ExecAll(cfg, w, xs + ys)
         == match ExecAll(cfg, w, xs)
            case None => None
            case Some(w') => ExecAll(cfg, w', ys)
    decreases |xs|
  {
    if xs == [] {
      assert xs + ys == ys;
    } else {
      assert xs + ys == [xs[0]] + (xs[1..] + ys) && xs == [xs[0]] + xs[1..];
      ExecStep(cfg, w, xs[0], xs[1..] + ys);
      ExecStep(cfg, w, xs[0], xs[1..]);
      var next := Exec(cfg, w, xs[0]);
      if next.Some? {
        ExecAppend(cfg, next.value, xs[1..], ys);
      }
    }
  }

  /** So does a whole log. */
  lemma {:induction false} WiresMean(cfg: Config, w: World, bus: seq<BusCmd>)
    requires forall c | c in bus :: Uncut(c)
    ensures ExecWires(cfg, w, WireLog(cfg, bus)) == ExecAll(cfg, w, bus)
    decreases |bus|
  {
    if bus == [] {
    } else {
      var n := |bus| - 1;
      assert bus == bus[..n] + [bus[n]];
      WiresMean(cfg, w, bus[..n]);
      ExecAppend(cfg, w, bus[..n], [bus[n]]);
      var before := ExecAll(cfg, w, bus[..n]);
      if before.Some? {
        WireMeans(cfg, before.value, bus[n]);
        ExecStep(cfg, before.value, bus[n], []);
      }
    }
  }

  // ---- The ideal transfer ----

  ghost predicate Fits(w: World, off: nat, blocks: seq<Block>) {
    AllInside(|w.mem|, Client(blocks)) && off + Bytes(Sum(blocks)) <= |w.card|
  }

  /** All blocks are transferred, one after the other, from byte `off` of the card on. */
  ghost function Ideal(w: World, read: bool, off: nat, blocks: seq<Block>): World
    requires Fits(w, off, blocks)
  {
    if read then w.(mem := Scatter(w.mem, Client(blocks), Read(w.card, Region(off, Bytes(Sum(blocks))))))
    else w.(card := Write(w.card, off, Gather(w.mem, Client(blocks))))
  }

  ghost function Ideal1(w: World, read: bool, off: nat, b: Block): World
    requires b.addr + Size(b) <= |w.mem| && off + Size(b) <= |w.card|
  {
    if read then w.(mem := Write(w.mem, b.addr, Read(w.card, Region(off, Size(b)))))
    else w.(card := Write(w.card, off, Read(w.mem, Region(b.addr, Size(b)))))
  }

  lemma {:induction false} ReadSplit(w: World, off: nat, blocks: seq<Block>)
    requires blocks != [] && Fits(w, off, blocks)
    ensures var b, rest, n := blocks[0], blocks[1..], Size(blocks[0]);
            var w1 := Ideal1(w, true, off, b);
            Fits(w1, off + n, rest) && Ideal(w, true, off, blocks) == Ideal(w1, true, off + n, rest)
  {
    var b, rest, n := blocks[0], blocks[1..], Size(blocks[0]);
    var d := Read(w.card, Region(off, Bytes(Sum(blocks))));
    assert Client(blocks)[0] == Region(b.addr, n) && Client(blocks)[1..] == Client(rest);
    assert d[..n] == Read(w.card, Region(off, n));
    assert d[n..] == Read(w.card, Region(off + n, Bytes(Sum(rest))));
  }

  lemma {:induction false} WriteSplit(w: World, off: nat, blocks: seq<Block>)
    requires blocks != [] && Fits(w, off, blocks)
    ensures var b, rest, n := blocks[0], blocks[1..], Size(blocks[0]);
            var w1 := Ideal1(w, false, off, b);
            Fits(w1, off + n, rest) && Ideal(w, false, off, blocks) == Ideal(w1, false, off + n, rest)
  {
    var b, rest, n := blocks[0], blocks[1..], Size(blocks[0]);
    assert Client(blocks)[0] == Region(b.addr, n) && Client(blocks)[1..] == Client(rest);
    WriteAdjacent(w.card, off, Read(w.mem, Region(b.addr, n)), Gather(w.mem, Client(rest)));
  }

  // ---- The SDMA plan ----

  /** Between requests the card expects nothing. */
  predicate Idle(w: World) {
    w.pending == None && !w.open
  }

  /** The sectors up to `last` have 32-bit arguments. */
  predicate Addressable(cfg: Config, last: nat) {
    last * cfg.AddrMult() <= WORD32
  }

  lemma {:induction false} OffsetExact(cfg: Config, sector: nat, last: nat)
    requires Addressable(cfg, last) && sector < last
    ensures Offset(cfg, sector) == Bytes(sector)
  {
  }

  /** Blocks that SDMA can transfer one by one; empty ones are skipped. */
  ghost predicate SdmaReach(blocks: seq<Block>) {
    blocks == [] || (&& (blocks[0].sectors > 0 ==> blocks[0].sectors <= MAX_BLOCKS && blocks[0].addr < WORD32)
                     && SdmaReach(blocks[1..]))
  }

  lemma {:induction false} MoveBlock(w: World, read: bool, off: nat, n: nat, list: seq<Block>)
    requires list != [] && n == list[0].sectors && list[0].addr < WORD32
    requires list[0].addr + Bytes(n) <= |w.mem| && off + Bytes(n) <= |w.card|
    ensures MoveSdma(w, read, off, n, list) == Some(Ideal1(w, read, off, list[0]))
  {
  }

  /** A transfer announced by CMD23. */
  lemma {:induction false} CountedExec(cfg: Config, w: World, c: BusCmd, later: seq<BusCmd>)
    requires Idle(w) && c.MultiCmd? && 0 < c.count <= MAX_BLOCKS && !c.auto23
    ensures ExecAll(cfg, w, [CountCmd(c.count)] + ([c] + later))
         == match Move(cfg, w, c)
            case None => None
            case Some(w') => ExecAll(cfg, w', later)
  {
    var w1 := w.(pending := Some(c.count));
    ExecStep(cfg, w, CountCmd(c.count), [c] + later);
    ExecStep(cfg, w1, c, later);
    assert w1.(pending := None, open := false) == w;
  }

  /** A transfer the controller announces by itself. */
  lemma {:induction false} AutoExec(cfg: Config, w: World, c: BusCmd, later: seq<BusCmd>)
    requires Idle(w) && c.MultiCmd? && 0 < c.count <= MAX_BLOCKS && c.auto23
    ensures ExecAll(cfg, w, [c] + later)
         == match Move(cfg, w, c)
            case None => None
            case Some(w') => ExecAll(cfg, w', later)
  {
    ExecStep(cfg, w, c, later);
    assert w.(pending := None, open := false) == w;
  }

  /** A transfer closed by CMD12. */
  lemma {:induction false} StoppedExec(cfg: Config, w: World, c: BusCmd, later: seq<BusCmd>)
    requires Idle(w) && c.MultiCmd? && !c.auto23
    ensures ExecAll(cfg, w, [c] + ([StopCmd(c.read)] + later))
         == match Move(cfg, w.(open := true), c)
            case None => None
            case Some(w') => if w'.open then ExecAll(cfg, w'.(open := false), later) else None
  {
    var stop := StopCmd(c.read);
    ExecStep(cfg, w, c, [stop] + later);
    var m := Move(cfg, w.(open := true), c);
    if m.Some? {
      ExecStep(cfg, m.value, stop, later);
    }
  }

  /** The commands for one block transfer it and leave the card idle. */
  lemma {:induction false} BlockExec(cfg: Config, w: World, req: Request, pos: nat, off: nat,
                                     later: seq<BusCmd>)
    requires !cfg.adma2 && Idle(w) && pos < |req.blocks|
    requires 0 < req.blocks[pos].sectors <= MAX_BLOCKS && req.blocks[pos].addr < WORD32
    requires req.blocks[pos].addr + Size(req.blocks[pos]) <= |w.mem| && off + Size(req.blocks[pos]) <= |w.card|
    requires Offset(cfg, req.sector + SumTo(req.blocks, pos)) == off
    ensures ExecAll(cfg, w, PlanBlock(cfg, req, pos, later))
         == ExecAll(cfg, Ideal1(w, req.read, off, req.blocks[pos]), later)
  {
    var b, n := req.blocks[pos], req.blocks[pos].sectors;
    var s, list := req.sector + SumTo(req.blocks, pos), req.blocks[pos..];
    var multi := MultiCmd(req.read, s, n, false, list);
    assert list[0] == b;
    MoveBlock(w, req.read, off, n, list);
    if n == 1 {
      ExecStep(cfg, w, SingleCmd(req.read, s, list), later);
    } else if cfg.hasCmd23 {
      CountedExec(cfg, w, multi, later);
    } else {
      MoveBlock(w.(open := true), req.read, off, n, list);
      StoppedExec(cfg, w, multi, later);
      assert Ideal1(w.(open := true), req.read, off, b).(open := false) == Ideal1(w, req.read, off, b);
    }
  }

  lemma {:induction false} IdealSplit(w: World, read: bool, off: nat, blocks: seq<Block>)
    requires blocks != [] && Fits(w, off, blocks)
    ensures var w1 := Ideal1(w, read, off, blocks[0]);
            && Fits(w1, off + Size(blocks[0]), blocks[1..]) && (Idle(w) ==> Idle(w1))
            && Ideal(w, read, off, blocks) == Ideal(w1, read, off + Size(blocks[0]), blocks[1..])
  {
    if read {
      ReadSplit(w, off, blocks);
    } else {
      WriteSplit(w, off, blocks);
    }
  }

  /** The blocks from `pos` on can be transferred. */
  ghost predicate Reaches(cfg: Config, w: World, req: Request, pos: nat) {
    && !cfg.adma2 && Idle(w) && pos <= |req.blocks| && SdmaReach(req.blocks[pos..])
    && Addressable(cfg, req.sector + Sum(req.blocks))
    && Fits(w, Bytes(req.sector + SumTo(req.blocks, pos)), req.blocks[pos..])
  }

  /** So they can, and the transfer starts with a block that is not empty. */
  ghost predicate Ready(cfg: Config, w: World, req: Request, pos: nat) {
    Reaches(cfg, w, req, pos) && (pos < |req.blocks| ==> req.blocks[pos].sectors > 0)
  }

  ghost function IdealFrom(cfg: Config, w: World, req: Request, pos: nat): World
    requires Reaches(cfg, w, req, pos)
  {
    Ideal(w, req.read, Bytes(req.sector + SumTo(req.blocks, pos)), req.blocks[pos..])
  }

  lemma {:induction false} ReadyHead(cfg: Config, w: World, req: Request, pos: nat)
    requires Ready(cfg, w, req, pos) && pos < |req.blocks|
    ensures var b, off := req.blocks[pos], Bytes(req.sector + SumTo(req.blocks, pos));
            && 0 < b.sectors <= MAX_BLOCKS && b.addr < WORD32
            && b.addr + Size(b) <= |w.mem| && off + Size(b) <= |w.card|
            && Bytes(req.sector + SumTo(req.blocks, pos + 1)) == off + Size(b)
            && Offset(cfg, req.sector + SumTo(req.blocks, pos)) == off
  {
    var rest := req.blocks[pos..];
    assert rest[0] == req.blocks[pos] && rest[1..] == req.blocks[pos + 1..];
    SumSplit(req.blocks, pos);
    OffsetExact(cfg, req.sector + SumTo(req.blocks, pos), req.sector + Sum(req.blocks));
  }

  /** The world after the first block. */
  ghost function FirstDone(cfg: Config, w: World, req: Request, pos: nat): World
    requires Ready(cfg, w, req, pos) && pos < |req.blocks|
  {
    ReadyHead(cfg, w, req, pos);
    Ideal1(w, req.read, Bytes(req.sector + SumTo(req.blocks, pos)), req.blocks[pos])
  }

  lemma {:induction false} StillReady(cfg: Config, w: World, req: Request, pos: nat)
    requires Ready(cfg, w, req, pos) && pos < |req.blocks|
    ensures Reaches(cfg, FirstDone(cfg, w, req, pos), req, pos + 1)
  {
    var rest := req.blocks[pos..];
    assert rest[0] == req.blocks[pos] && rest[1..] == req.blocks[pos + 1..];
    ReadyHead(cfg, w, req, pos);
    IdealSplit(w, req.read, Bytes(req.sector + SumTo(req.blocks, pos)), rest);
  }

  lemma {:induction false} FirstBlock(cfg: Config, w: World, req: Request, pos: nat)
    requires Ready(cfg, w, req, pos) && pos < |req.blocks|
    requires Reaches(cfg, FirstDone(cfg, w, req, pos), req, pos + 1)
    ensures IdealFrom(cfg, w, req, pos) == IdealFrom(cfg, FirstDone(cfg, w, req, pos), req, pos + 1)
  {
    ReadyHead(cfg, w, req, pos);
    var off, next := Bytes(req.sector + SumTo(req.blocks, pos)), Bytes(req.sector + SumTo(req.blocks, pos + 1));
    IdealOn(w, req.read, off, req.blocks, pos, next);
  }

  lemma {:induction false} IdealOn(w: World, read: bool, off: nat, blocks: seq<Block>, pos: nat, next: nat)
    requires pos < |blocks| && Fits(w, off, blocks[pos..]) && next == off + Size(blocks[pos])
    requires blocks[pos].addr + Size(blocks[pos]) <= |w.mem| && next <= |w.card|
    ensures var w1 := Ideal1(w, read, off, blocks[pos]);
            && Fits(w1, next, blocks[pos + 1..])
            && Ideal(w, read, off, blocks[pos..]) == Ideal(w1, read, next, blocks[pos + 1..])
  {
    assert blocks[pos..][0] == blocks[pos] && blocks[pos..][1..] == blocks[pos + 1..];
    IdealSplit(w, read, off, blocks[pos..]);
  }

  /** Nothing is transferred for an empty block. */
  lemma {:induction false} EmptyBlock(w: World, read: bool, off: nat, b: Block)
    requires b.sectors == 0 && b.addr <= |w.mem| && off <= |w.card|
    ensures Ideal1(w, read, off, b) == w
  {
    assert Read(w.card, Region(off, 0)) == [] && Read(w.mem, Region(b.addr, 0)) == [];
    assert Write(w.mem, b.addr, []) == w.mem && Write(w.card, off, []) == w.card;
  }

  lemma {:induction false} SkipOne(cfg: Config, w: World, req: Request, pos: nat)
    requires Reaches(cfg, w, req, pos) && pos < |req.blocks| && req.blocks[pos].sectors == 0
    ensures Reaches(cfg, w, req, pos + 1) && IdealFrom(cfg, w, req, pos) == IdealFrom(cfg, w, req, pos + 1)
  {
    var off, rest := Bytes(req.sector + SumTo(req.blocks, pos)), req.blocks[pos..];
    assert rest[0] == req.blocks[pos] && rest[1..] == req.blocks[pos + 1..];
    assert SumTo(req.blocks, pos + 1) == SumTo(req.blocks, pos);
    assert Client(rest)[0] == Region(req.blocks[pos].addr, 0);
    EmptyBlock(w, req.read, off, req.blocks[pos]);
    IdealOn(w, req.read, off, req.blocks, pos, off);
  }

  /** Skipping empty blocks leaves out nothing. */
  lemma {:induction false} SkipAll(cfg: Config, w: World, req: Request, pos: nat)
    requires Reaches(cfg, w, req, pos)
    ensures var p := SkipEmpty(req.blocks, pos);
            Ready(cfg, w, req, p) && IdealFrom(cfg, w, req, pos) == IdealFrom(cfg, w, req, p)
    decreases |req.blocks| - pos
  {
    if pos < |req.blocks| && req.blocks[pos].sectors == 0 {
      SkipOne(cfg, w, req, pos);
      SkipAll(cfg, w, req, pos + 1);
    }
  }

  /** The plan transfers its first block, and goes on with the next one that is not
      empty. */
  lemma {:induction false} SdmaStep(cfg: Config, w: World, req: Request, pos: nat)
    requires Ready(cfg, w, req, pos) && pos < |req.blocks|
    ensures ExecAll(cfg, w, PlanFrom(cfg, req, pos))
         == ExecAll(cfg, FirstDone(cfg, w, req, pos), PlanFrom(cfg, req, SkipEmpty(req.blocks, pos + 1)))
  {
    ReadyHead(cfg, w, req, pos);
    var later := PlanFrom(cfg, req, SkipEmpty(req.blocks, pos + 1));
    BlockExec(cfg, w, req, pos, Bytes(req.sector + SumTo(req.blocks, pos)), later);
  }

  /** In SDMA mode the blocks from `pos` on are transferred as they should be. */
  lemma {:induction false} SdmaExec(cfg: Config, w: World, req: Request, pos: nat)
    requires Ready(cfg, w, req, pos)
    ensures ExecAll(cfg, w, PlanFrom(cfg, req, pos)) == Some(IdealFrom(cfg, w, req, pos))
    decreases |req.blocks| - pos
  {
    if pos == |req.blocks| {
      assert req.blocks[pos..] == [];
      NothingLeft(w, req.read, Bytes(req.sector + SumTo(req.blocks, pos)));
    } else {
      SdmaStep(cfg, w, req, pos);
      StillReady(cfg, w, req, pos);
      FirstBlock(cfg, w, req, pos);
      var w1 := FirstDone(cfg, w, req, pos);
      SkipAll(cfg, w1, req, pos + 1);
      SdmaExec(cfg, w1, req, SkipEmpty(req.blocks, pos + 1));
    }
  }

  lemma {:induction false} NothingLeft(w: World, read: bool, off: nat)
    requires off <= |w.card|
    ensures Fits(w, off, []) && Ideal(w, read, off, []) == w
  {
    assert Write(w.card, off, []) == w.card;
  }

  // ---- An empty first block ----

  /** A transfer of no sector moves nothing. */
  lemma {:induction false} MoveNothing(cfg: Config, w: World, c: BusCmd)
    requires !cfg.adma2 && c.MultiCmd? && c.count == 0 && c.dma != []
    requires c.dma[0].addr <= |w.mem| && Bytes(c.sector) <= |w.card|
    ensures Move(cfg, w, c) == Some(w)
  {
    var off, at := Offset(cfg, c.sector), c.dma[0].addr % WORD32;
    assert Read(w.card, Region(off, 0)) == [] && Read(w.mem, Region(at, 0)) == [];
    assert Write(w.mem, at, []) == w.mem && Write(w.card, off, []) == w.card;
  }

  /** Announced by CMD23 with count 0 it stays open, and the card takes no further
      transfer. */
  lemma {:induction false} EmptyCounted(cfg: Config, w: World, c: BusCmd, later: seq<BusCmd>)
    requires Idle(w) && c.MultiCmd? && c.count == 0 && !c.auto23
    requires Move(cfg, w.(open := true), c) == Some(w.(open := true)) && (later == [] || !later[0].StopCmd?)
    ensures ExecAll(cfg, w, [CountCmd(0)] + ([c] + later)) == if later == [] then Some(w.(open := true)) else None
  {
    assert w.(pending := Known(0)) == w;
    ExecStep(cfg, w, CountCmd(0), [c] + later);
    ExecStep(cfg, w, c, later);
    assert w.(pending := None, open := true) == w.(open := true);
  }

  lemma {:induction false} EmptyMove(cfg: Config, w: World, req: Request, c: BusCmd)
    requires Reaches(cfg, w.(open := false), req, 0) && req.blocks != [] && req.blocks[0].sectors == 0
    requires c == MultiCmd(req.read, req.sector, 0, false, req.blocks)
    ensures Move(cfg, w, c) == Some(w)
  {
    assert req.blocks[0..] == req.blocks && Client(req.blocks)[0] == Region(req.blocks[0].addr, 0);
    MoveNothing(cfg, w, c);
  }

  lemma {:induction false} EmptyPlan(cfg: Config, req: Request, c: BusCmd, later: seq<BusCmd>)
    requires req.blocks != [] && req.blocks[0].sectors == 0 && c == MultiCmd(req.read, req.sector, 0, false, req.blocks)
    ensures PlanBlock(cfg, req, 0, later)
         == if cfg.hasCmd23 then [CountCmd(0)] + ([c] + later) else [c] + ([StopCmd(req.read)] + later)
  {
    assert req.blocks[0..] == req.blocks;
  }

  /** What the plan of a request whose first block is empty comes to. */
  lemma {:induction false} EmptyFirst(cfg: Config, w: World, req: Request)
    requires Reaches(cfg, w, req, 0) && req.blocks != [] && req.blocks[0].sectors == 0
    ensures var later := PlanFrom(cfg, req, SkipEmpty(req.blocks, 1));
            ExecAll(cfg, w, PlanFrom(cfg, req, 0))
            == if !cfg.hasCmd23 then ExecAll(cfg, w, later)
               else if later == [] then Some(w.(open := true)) else None
  {
    var later := PlanFrom(cfg, req, SkipEmpty(req.blocks, 1));
    var c := MultiCmd(req.read, req.sector, 0, false, req.blocks);
    EmptyMove(cfg, w.(open := true), req, c);
    EmptyPlan(cfg, req, c, later);
    LaterOpens(cfg, req, 0);
    if cfg.hasCmd23 {
      EmptyCounted(cfg, w, c, later);
    } else {
      StoppedExec(cfg, w, c, later);
    }
  }

  /** SDMA can carry out the request: the first block is not empty, or no CMD23 is used. */
  ghost predicate SdmaReady(cfg: Config, w: World, req: Request) {
    req.blocks != [] && Reaches(cfg, w, req, 0) && (req.blocks[0].sectors > 0 || !cfg.hasCmd23)
  }

  /** The SDMA plan has the ideal effect if and only if the first block is not empty or no
      CMD23 is used. */
  lemma {:induction false} SdmaExact(cfg: Config, w: World, req: Request)
    requires Reaches(cfg, w, req, 0) && req.blocks != []
    ensures ExecAll(cfg, w, Plan(cfg, req)) == Some(Ideal(w, req.read, Bytes(req.sector), req.blocks))
       <==> req.blocks[0].sectors > 0 || !cfg.hasCmd23
  {
    assert req.blocks[0..] == req.blocks;
    if req.blocks[0].sectors > 0 {
      SdmaExec(cfg, w, req, 0);
    } else {
      EmptyExact(cfg, w, req);
    }
  }

  lemma {:induction false} EmptyExact(cfg: Config, w: World, req: Request)
    requires Reaches(cfg, w, req, 0) && req.blocks != [] && req.blocks[0].sectors == 0
    ensures ExecAll(cfg, w, Plan(cfg, req)) == Some(Ideal(w, req.read, Bytes(req.sector), req.blocks))
       <==> !cfg.hasCmd23
  {
    assert req.blocks[0..] == req.blocks;
    EmptyFirst(cfg, w, req);
    SkipAll(cfg, w, req, 0);
    SdmaExec(cfg, w, req, SkipEmpty(req.blocks, 0));
  }

  // ---- The ADMA2 plan ----

  /** What a transfer by ADMA2 relies on: the table and the bounce buffer suffice (see
      module Capacity), and client memory overlaps neither with the bounce buffer nor, for
      a read, bounced with direct blocks. */
  ghost predicate Adma2Reaches(cfg: Config, w: World, req: Request) {
    && cfg.adma2 && Idle(w)
    && |w.table| == cfg.dma.entries
    && Enterable(cfg.dma, |w.mem|, req.blocks, 0) && Submittable(cfg.dma, req.blocks)
    && ClearOfBounce(cfg.dma, req.blocks)
    && (req.read ==> BouncedApart(cfg.dma, req.blocks))
    && Addressable(cfg, req.sector + Sum(req.blocks))
    && Fits(w, Bytes(req.sector), req.blocks)
  }

  /** So it can, and the last block is not empty. */
  ghost predicate Adma2Ready(cfg: Config, w: World, req: Request) {
    Adma2Reaches(cfg, w, req) && Terminated(req.blocks)
  }

  /** Same card, same protocol state, same memory outside the bounce buffer; the
      descriptors in the table do not matter. */
  ghost predicate Alike(a: Dma, x: World, y: World) {
    && |x.table| == |y.table| && x.card == y.card && x.pending == y.pending && x.open == y.open
    && SameOutside(a.Bounce(), x.mem, y.mem)
  }

  /** The descriptors of a request that can be submitted fit the table. */
  lemma {:induction false} TableFits(a: Dma, blocks: seq<Block>, d: nat, offs: nat)
    requires BuildOk(a, blocks, d, offs) && d <= a.entries
    ensures d + |Table(a, Place(a, blocks, offs))| <= a.entries
    decreases |blocks|
  {
    if blocks == [] {
    } else {
      TableFits(a, blocks[1..], d + Count(Size(blocks[0])), After(a, blocks[0], offs));
    }
  }

  /** The driver enters the request, and the table is large enough. */
  lemma {:induction false} Entering(a: Dma, w: World, list: seq<Block>, read: bool)
    requires Enterable(a, |w.mem|, list, 0) && BuildOk(a, list, 0, 0) && |w.table| == a.entries
    ensures var e := Enter(a, w.mem, [], list, 0, 0, read);
            e.Some? && |e.value.descs| <= |w.table|
  {
    EnterMeans(a, w.mem, [], list, 0, 0, read);
    TableFits(a, list, 0, 0);
    assert [] + Table(a, Place(a, list, 0)) == Table(a, Place(a, list, 0));
  }

  lemma {:induction false} ReadAll(a: Dma, w: World, off: nat, list: seq<Block>)
    requires Enterable(a, |w.mem|, list, 0) && BuildOk(a, list, 0, 0) && Terminated(list) && |w.table| == a.entries
    requires ClearOfBounce(a, list) && BouncedApart(a, list) && Fits(w, off, list)
    ensures var r := MoveAdma2(a, w, true, off, Sum(list), list);
            r.Some? && Alike(a, Ideal(w, true, off, list), r.value)
  {
    Entering(a, w, list, true);
    var e := Enter(a, w.mem, [], list, 0, 0, true).value;
    ReadTransfer(a, w.mem, list, w.table[|e.descs|..], Read(w.card, Region(off, Bytes(Sum(list)))));
  }

  lemma {:induction false} WriteAll(a: Dma, w: World, off: nat, list: seq<Block>)
    requires Enterable(a, |w.mem|, list, 0) && BuildOk(a, list, 0, 0) && Terminated(list) && |w.table| == a.entries
    requires ClearOfBounce(a, list) && Fits(w, off, list)
    ensures var r := MoveAdma2(a, w, false, off, Sum(list), list);
            r.Some? && Alike(a, Ideal(w, false, off, list), r.value)
  {
    Entering(a, w, list, false);
    var e := Enter(a, w.mem, [], list, 0, 0, false).value;
    EnterMeans(a, w.mem, [], list, 0, 0, false);
    WriteTransfer(a, w.mem, list, w.table[|e.descs|..]);
    CopyInFrame(a, w.mem, list, 0);
    assert Left(a, 0) == a.Bounce();
    assert Length(Client(list)) == Bytes(Sum(list));
  }

  lemma {:induction false} NotEmpty(blocks: seq<Block>)
    requires Terminated(blocks)
    ensures Sum(blocks) > 0
  {
    if |blocks| == 1 {
    } else {
      assert blocks[1..][|blocks| - 2] == blocks[|blocks| - 1];
      NotEmpty(blocks[1..]);
    }
  }

  /** The one transfer of the ADMA2 plan. */
  lemma {:induction false} MoveAll(cfg: Config, w: World, req: Request, auto23: bool)
    requires Adma2Ready(cfg, w.(open := false), req) && w.pending == None
    ensures var c := MultiCmd(req.read, req.sector, Sum(req.blocks), auto23, req.blocks);
            var r := Move(cfg, w, c);
            r.Some? && Alike(cfg.dma, Ideal(w, req.read, Bytes(req.sector), req.blocks), r.value)
  {
    NotEmpty(req.blocks);
    OffsetExact(cfg, req.sector, req.sector + Sum(req.blocks));
    if req.read {
      ReadAll(cfg.dma, w, Bytes(req.sector), req.blocks);
    } else {
      WriteAll(cfg.dma, w, Bytes(req.sector), req.blocks);
    }
  }

  lemma {:induction false} StoppedAll(cfg: Config, w: World, req: Request)
    requires Adma2Ready(cfg, w, req) && !cfg.hasCmd23
    ensures var r := ExecAll(cfg, w, Plan(cfg, req));
            r.Some? && Alike(cfg.dma, Ideal(w, req.read, Bytes(req.sector), req.blocks), r.value)
  {
    var c := MultiCmd(req.read, req.sector, Sum(req.blocks), false, req.blocks);
    MoveAll(cfg, w.(open := true), req, false);
    StoppedExec(cfg, w, c, []);
    assert Plan(cfg, req) == [c] + ([StopCmd(req.read)] + []);
  }

  lemma {:induction false} CountedAll(cfg: Config, w: World, req: Request)
    requires Adma2Ready(cfg, w, req) && cfg.hasCmd23 && !cfg.autoCmd23
    ensures var r := ExecAll(cfg, w, Plan(cfg, req));
            r.Some? && Alike(cfg.dma, Ideal(w, req.read, Bytes(req.sector), req.blocks), r.value)
  {
    var c := MultiCmd(req.read, req.sector, Sum(req.blocks), false, req.blocks);
    NotEmpty(req.blocks);
    MoveAll(cfg, w, req, false);
    CountedExec(cfg, w, c, []);
    assert Plan(cfg, req) == [CountCmd(c.count)] + ([c] + []);
  }

  lemma {:induction false} AutoAll(cfg: Config, w: World, req: Request)
    requires Adma2Ready(cfg, w, req) && cfg.hasCmd23 && cfg.autoCmd23
    ensures var r := ExecAll(cfg, w, Plan(cfg, req));
            r.Some? && Alike(cfg.dma, Ideal(w, req.read, Bytes(req.sector), req.blocks), r.value)
  {
    var c := MultiCmd(req.read, req.sector, Sum(req.blocks), true, req.blocks);
    NotEmpty(req.blocks);
    MoveAll(cfg, w, req, true);
    AutoExec(cfg, w, c, []);
    assert Plan(cfg, req) == [c] + [];
  }

  /** The ADMA2 plan, with CMD23, automatic CMD23 or CMD12, has the ideal effect. */
  lemma {:induction false} Adma2Exec(cfg: Config, w: World, req: Request)
    requires Adma2Ready(cfg, w, req)
    ensures var r := ExecAll(cfg, w, Plan(cfg, req));
            r.Some? && Alike(cfg.dma, Ideal(w, req.read, Bytes(req.sector), req.blocks), r.value)
  {
    if !cfg.hasCmd23 {
      StoppedAll(cfg, w, req);
    } else if cfg.autoCmd23 {
      AutoAll(cfg, w, req);
    } else {
      CountedAll(cfg, w, req);
    }
  }

  // ---- An empty last block ----

  /** What a controller finds in a table is never empty. */
  lemma {:induction false} FetchMoves(a: Dma, t: seq<Desc>)
    requires Fetch(a, t).Some?
    ensures Length(Fetch(a, t).value) > 0
    decreases |t|
  {
    if t[0].end {
    } else {
      FetchMoves(a, t[1..]);
    }
  }

  /** Without an `end` descriptor the controller does not move what was asked for. */
  lemma {:induction false} NoEnd(a: Dma, w: World, read: bool, off: nat, list: seq<Block>)
    requires Enterable(a, |w.mem|, list, 0) && BuildOk(a, list, 0, 0) && |w.table| == a.entries
    requires list != [] && !Terminated(list)
    ensures MoveAdma2(a, w, read, off, Sum(list), list) == None
  {
    Entering(a, w, list, read);
    var e := Enter(a, w.mem, [], list, 0, 0, read).value;
    var rs, stale := Place(a, list, 0), w.table[|e.descs|..];
    EnterMeans(a, w.mem, [], list, 0, 0, read);
    BuildOkMeans(a, |w.mem|, list, 0, 0);
    PlacedOk(a, list, 0, 0);
    assert e.descs == Table(a, rs);
    FetchTable(a, rs, stale);
    if Fetch(a, stale).Some? {
      FetchMoves(a, stale);
      LengthAppend(ChopAll(rs), Fetch(a, stale).value);
      ChopAllLength(rs);
    }
  }

  lemma {:induction false} ChopAllLength(rs: seq<Region>)
    ensures Length(ChopAll(rs)) == Length(rs)
  {
    if rs == [] {
    } else {
      LengthAppend(Chop(rs[0]), ChopAll(rs[1..]));
      ChopAllLength(rs[1..]);
    }
  }

  lemma {:induction false} NoTransfer(cfg: Config, w: World, req: Request)
    requires Adma2Reaches(cfg, w, req) && req.blocks != [] && !Terminated(req.blocks)
    ensures ExecAll(cfg, w, Plan(cfg, req)) == None
  {
    var n, auto := Sum(req.blocks), cfg.hasCmd23 && cfg.autoCmd23;
    var c := MultiCmd(req.read, req.sector, n, auto, req.blocks);
    forall x: World | x.mem == w.mem && x.table == w.table ensures Exec(cfg, x, c) == None {
      NoEnd(cfg.dma, x.(pending := None), req.read, Offset(cfg, req.sector), req.blocks);
      NoEnd(cfg.dma, x.(pending := None, open := Announced(x, c).None?), req.read, Offset(cfg, req.sector), req.blocks);
    }
    ExecStep(cfg, w, c, []);
    ExecStep(cfg, w, c, [StopCmd(req.read)]);
    ExecStep(cfg, w, CountCmd(n), [c]);
    ExecStep(cfg, w.(pending := Known(n)), c, []);
  }

  /** The ADMA2 plan has the ideal effect, whatever the table held, if and only if the last
      block is not empty. */
  lemma {:induction false} Adma2Exact(cfg: Config, w: World, req: Request)
    requires Adma2Reaches(cfg, w, req) && req.blocks != []
    ensures var r := ExecAll(cfg, w, Plan(cfg, req));
            (r.Some? && Alike(cfg.dma, Ideal(w, req.read, Bytes(req.sector), req.blocks), r.value))
            <==> Terminated(req.blocks)
  {
    if Terminated(req.blocks) {
      Adma2Exec(cfg, w, req);
    } else {
      NoTransfer(cfg, w, req);
    }
  }

  // ---- The fast form refines the simple form ----

  /** For every request and all settings of CMD23 and automatic CMD23: one ADMA2 transfer
      through a descriptor table and the bounce buffer leaves the same card, and the same
      memory outside the bounce buffer, as one SDMA transfer per block. */
  lemma {:induction false} Adma2RefinesSdma(fast: Config, simple: Config, w: World, req: Request)
    requires Adma2Ready(fast, w, req) && SdmaReady(simple, w, req)
    ensures var x, y := ExecAll(simple, w, Plan(simple, req)), ExecAll(fast, w, Plan(fast, req));
            && x == Some(Ideal(w, req.read, Bytes(req.sector), req.blocks))
            && y.Some? && Alike(fast.dma, x.value, y.value)
  {
    SdmaExact(simple, w, req);
    Adma2Exec(fast, w, req);
  }
}
