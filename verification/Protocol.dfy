/** How one request becomes a sequence of MMC commands: the plan a request calls for,
    and the job that the driver advances command by command. */
module Protocol {
  import opened Mmc
  import opened Adma2
  import opened Capacity

  /** `adma2` and `autoCmd23` are fixed by the driver, `hasCmd23` by the medium. */
  datatype Config = Config(adma2: bool, hasCmd23: bool, autoCmd23: bool, byteMode: bool, dma: Dma, maxSeg: nat)
  {
    /** Sectors are addressed in bytes or in sectors. */
    function AddrMult(): nat {
      if byteMode then SECTOR_SIZE else 1
    }

    ghost predicate Valid() {
      (autoCmd23 ==> adma2) && Configured(dma, maxSeg)
    }
  }

  /** A command of a request, in sectors counted without wrap-around. `dma` is the block
      list the DMA engine is set up with: in ADMA2 mode all of it is transferred, in
      SDMA mode its head. */
  datatype BusCmd =
    | CountCmd(n: nat)
    | SingleCmd(read: bool, sector: nat, dma: seq<Block>)
    | MultiCmd(read: bool, sector: nat, count: nat, auto23: bool, dma: seq<Block>)
    | StopCmd(read: bool)

  /** Sectors transferred by a command. */
  function Sectors(c: BusCmd): nat {
    match c
    case SingleCmd(_, _, _) => 1
    case MultiCmd(_, _, count, _, _) => count
    case _ => 0
  }

  /** Argument of a transfer: the sector number is kept in 32 bits, its product with the
      address unit is cut to 32 bits. */
  function Arg(cfg: Config, sector: nat): uint32 {
    sector % WORD32 * cfg.AddrMult() % WORD32
  }

  /** Only the last truncation can be seen. */
  lemma {:induction false} ArgMeaning(cfg: Config, sector: nat)
    ensures Arg(cfg, sector) == sector * cfg.AddrMult() % WORD32
  {
  }

  /** First non-empty block from `pos` on, or the end of the list. */
  function SkipEmpty(blocks: seq<Block>, pos: nat): (p: nat)
    requires pos <= |blocks|
    ensures pos <= p <= |blocks|
    ensures p < |blocks| ==> blocks[p].sectors > 0
    ensures SumTo(blocks, p) == SumTo(blocks, pos)
    decreases |blocks| - pos
  {
    if pos < |blocks| && blocks[pos].sectors == 0 then SkipEmpty(blocks, pos + 1) else pos
  }

  // ---- The plan ----

  /** SDMA: the transfer of one block, introduced by CMD23 or closed by CMD12 unless it is
      a single sector, before the commands `later`. */
  function PlanBlock(cfg: Config, req: Request, pos: nat, later: seq<BusCmd>): seq<BusCmd>
    requires pos < |req.blocks|
  {
    var n, sector, list := req.blocks[pos].sectors, req.sector + SumTo(req.blocks, pos), req.blocks[pos..];
    if n == 1 then [SingleCmd(req.read, sector, list)] + later
    else if cfg.hasCmd23 then [CountCmd(n)] + ([MultiCmd(req.read, sector, n, false, list)] + later)
    else [MultiCmd(req.read, sector, n, false, list)] + ([StopCmd(req.read)] + later)
  }

  /** SDMA: one transfer per block; empty blocks are skipped, except for the first. */
  function PlanFrom(cfg: Config, req: Request, pos: nat): seq<BusCmd>
    requires pos <= |req.blocks|
    decreases |req.blocks| - pos
  {
    if pos == |req.blocks| then []
    else PlanBlock(cfg, req, pos, PlanFrom(cfg, req, SkipEmpty(req.blocks, pos + 1)))
  }

  /** ADMA2: one transfer for all blocks. */
  function PlanAll(cfg: Config, req: Request): seq<BusCmd> {
    var n := Sum(req.blocks);
    var xfer := MultiCmd(req.read, req.sector, n, cfg.hasCmd23 && cfg.autoCmd23, req.blocks);
    if !cfg.hasCmd23 then [xfer, StopCmd(req.read)]
    else if cfg.autoCmd23 then [xfer]
    else [CountCmd(n), xfer]
  }

  function Plan(cfg: Config, req: Request): seq<BusCmd> {
    if cfg.adma2 then PlanAll(cfg, req) else PlanFrom(cfg, req, 0)
  }

  // ---- The job ----

  /** What the driver waits for: CMD23, the data transfer, or the CMD12 that closes a
      transfer whose own outcome is kept in `ok`. */
  datatype Phase = SetCount | Data | Stop(ok: bool)

  datatype Job = Job(req: Request, pos: nat, phase: Phase)

  datatype Outcome = Continue(job: Job) | Finish(ok: bool, done: nat)

  predicate WellFormed(cfg: Config, j: Job) {
    && j.pos < |j.req.blocks|
    && (cfg.adma2 ==> j.pos == 0)
    && (match j.phase
        case SetCount => cfg.hasCmd23 && (if cfg.adma2 then !cfg.autoCmd23 else j.req.blocks[j.pos].sectors != 1)
        case Data => true
        case Stop(_) => UsesStop(cfg, j))
  }

  /** The transfer is open-ended and has to be closed by CMD12. */
  predicate UsesStop(cfg: Config, j: Job)
    requires j.pos < |j.req.blocks|
  {
    !cfg.hasCmd23 && (cfg.adma2 || j.req.blocks[j.pos].sectors != 1)
  }

  function StartAt(cfg: Config, req: Request, pos: nat): (j: Job)
    requires pos < |req.blocks| && (cfg.adma2 ==> pos == 0)
    ensures WellFormed(cfg, j)
  {
    var counted := if cfg.adma2 then !cfg.autoCmd23 else req.blocks[pos].sectors != 1;
    Job(req, pos, if cfg.hasCmd23 && counted then SetCount else Data)
  }

  function Start(cfg: Config, req: Request): Job
    requires req.blocks != []
  {
    StartAt(cfg, req, 0)
  }

  function CmdOf(cfg: Config, j: Job): BusCmd
    requires WellFormed(cfg, j)
  {
    var n := if cfg.adma2 then Sum(j.req.blocks) else j.req.blocks[j.pos].sectors;
    var sector := j.req.sector + SumTo(j.req.blocks, j.pos);
    match j.phase
    case SetCount => CountCmd(n)
    case Data =>
      if !cfg.adma2 && n == 1 then SingleCmd(j.req.read, sector, j.req.blocks[j.pos..])
      else MultiCmd(j.req.read, sector, n, cfg.adma2 && cfg.hasCmd23 && cfg.autoCmd23, j.req.blocks[j.pos..])
    case Stop(_) => StopCmd(j.req.read)
  }

  /** Sectors the driver counts as done before block `pos`: never advanced in ADMA2
      mode. */
  function Done(cfg: Config, req: Request, pos: nat): nat
    requires pos <= |req.blocks|
  {
    if cfg.adma2 then 0 else SumTo(req.blocks, pos)
  }

  /** After a transfer, closed by CMD12 where needed, with outcome `ok`. */
  function AfterTransfer(cfg: Config, j: Job, ok: bool): Outcome
    requires WellFormed(cfg, j)
  {
    if !ok then Finish(false, Done(cfg, j.req, j.pos))
    else if cfg.adma2 then Finish(true, Done(cfg, j.req, j.pos))
    else
      var p := SkipEmpty(j.req.blocks, j.pos + 1);
      if p == |j.req.blocks| then Finish(true, Done(cfg, j.req, p)) else Continue(StartAt(cfg, j.req, p))
  }

  /** The command of the job has completed with outcome `ok`. */
  function Next(cfg: Config, j: Job, ok: bool): (o: Outcome)
    requires WellFormed(cfg, j)
    ensures o.Continue? ==> WellFormed(cfg, o.job) && o.job.req == j.req
  {
    match j.phase
    case SetCount => if ok then Continue(j.(phase := Data)) else Finish(false, Done(cfg, j.req, j.pos))
    case Data => if UsesStop(cfg, j) then Continue(j.(phase := Stop(ok))) else AfterTransfer(cfg, j, ok)
    case Stop(saved) => AfterTransfer(cfg, j, saved)
  }

  /** Commands put on the bus by a job whose commands complete with the given outcomes. */
  function Trace(cfg: Config, j: Job, oks: seq<bool>): seq<BusCmd>
    requires WellFormed(cfg, j)
    decreases |oks|
  {
    [CmdOf(cfg, j)] +
    if oks == [] then []
    else
      match Next(cfg, j, oks[0])
      case Continue(j') => Trace(cfg, j', oks[1..])
      case Finish(_, _) => []
  }

  /** What the job is after the given outcomes; outcomes after its end are ignored. */
  function Advance(cfg: Config, j: Job, oks: seq<bool>): (o: Outcome)
    requires WellFormed(cfg, j)
    ensures o.Continue? ==> WellFormed(cfg, o.job) && o.job.req == j.req
    decreases |oks|
  {
    if oks == [] then Continue(j)
    else
      match Next(cfg, j, oks[0])
      case Continue(j') => Advance(cfg, j', oks[1..])
      case Finish(ok, done) => Finish(ok, done)
  }

  // ---- The job follows the plan ----

  /** The commands of a plan that go over the bus when they complete with the given
      outcomes: everything up to the first failure, and a CMD12 that closes the failed
      transfer. The outcome of CMD12 itself is ignored. */
  function Issued(plan: seq<BusCmd>, oks: seq<bool>): seq<BusCmd>
    decreases |oks|
  {
    if plan == [] then []
    else if oks == [] then [plan[0]]
    else if oks[0] || plan[0].StopCmd? then [plan[0]] + Issued(plan[1..], oks[1..])
    else if |plan| > 1 && plan[1].StopCmd? then [plan[0]] + [plan[1]]
    else [plan[0]]
  }

  lemma {:induction false} IssuedIsPrefix(plan: seq<BusCmd>, oks: seq<bool>)
    ensures Issued(plan, oks) <= plan
  {
    if plan != [] && oks != [] && (oks[0] || plan[0].StopCmd?) {
      IssuedIsPrefix(plan[1..], oks[1..]);
    }
  }

  /** What is left once the block at `pos`, or the whole request, is done. */
  function Later(cfg: Config, req: Request, pos: nat): seq<BusCmd>
    requires pos < |req.blocks|
  {
    if cfg.adma2 then [] else PlanFrom(cfg, req, SkipEmpty(req.blocks, pos + 1))
  }

  /** The commands a job still has to go through if all succeed. */
  function Ahead(cfg: Config, j: Job): (r: seq<BusCmd>)
    requires WellFormed(cfg, j)
    ensures |r| > 0 && r[0] == CmdOf(cfg, j)
  {
    var later := Later(cfg, j.req, j.pos);
    var fromData := [CmdOf(cfg, j.(phase := Data))] + if UsesStop(cfg, j) then [StopCmd(j.req.read)] + later else later;
    match j.phase
    case SetCount => [CmdOf(cfg, j)] + fromData
    case Data => fromData
    case Stop(_) => [StopCmd(j.req.read)] + later
  }

  /** A job started at a block has the plan from that block on before it. */
  lemma {:induction false} StartAtAhead(cfg: Config, req: Request, p: nat)
    requires !cfg.adma2 && p < |req.blocks|
    ensures Ahead(cfg, StartAt(cfg, req, p)) == PlanFrom(cfg, req, p)
  {
    var later := Later(cfg, req, p);
    assert PlanFrom(cfg, req, p) == PlanBlock(cfg, req, p, later);
    if req.blocks[p].sectors == 1 {
      assert !UsesStop(cfg, StartAt(cfg, req, p));
    } else if cfg.hasCmd23 {
      assert StartAt(cfg, req, p).phase.SetCount?;
    } else {
      assert UsesStop(cfg, StartAt(cfg, req, p));
    }
  }

  lemma {:induction false} StartAhead(cfg: Config, req: Request)
    requires req.blocks != []
    ensures Ahead(cfg, Start(cfg, req)) == Plan(cfg, req)
  {
    if cfg.adma2 {
      assert req.blocks[0..] == req.blocks;
    } else {
      StartAtAhead(cfg, req, 0);
    }
  }

  /** When the last command of a block completes, what is left starts with the next
      non-empty block. */
  lemma {:induction false} LastOfBlock(cfg: Config, j: Job, ok: bool)
    requires WellFormed(cfg, j)
    ensures match AfterTransfer(cfg, j, ok)
            case Continue(j') => ok && Ahead(cfg, j') == Later(cfg, j.req, j.pos)
            case Finish(r, _) => r == ok && (r ==> Later(cfg, j.req, j.pos) == [])
  {
    if ok && !cfg.adma2 {
      SdmaLastOfBlock(cfg, j);
    }
  }

  lemma {:induction false} SdmaLastOfBlock(cfg: Config, j: Job)
    requires WellFormed(cfg, j) && !cfg.adma2
    ensures match AfterTransfer(cfg, j, true)
            case Continue(j') => Ahead(cfg, j') == Later(cfg, j.req, j.pos)
            case Finish(r, _) => r && Later(cfg, j.req, j.pos) == []
  {
    var p := SkipEmpty(j.req.blocks, j.pos + 1);
    if p < |j.req.blocks| {
      NextBlockAhead(cfg, j, p);
    } else {
      NoBlockAhead(cfg, j, p);
    }
  }

  lemma {:induction false} NoBlockAhead(cfg: Config, j: Job, p: nat)
    requires WellFormed(cfg, j) && !cfg.adma2 && p == SkipEmpty(j.req.blocks, j.pos + 1) && p == |j.req.blocks|
    ensures AfterTransfer(cfg, j, true).Finish? && AfterTransfer(cfg, j, true).ok
    ensures Later(cfg, j.req, j.pos) == []
  {
  }

  lemma {:induction false} NextBlockAhead(cfg: Config, j: Job, p: nat)
    requires WellFormed(cfg, j) && !cfg.adma2 && p == SkipEmpty(j.req.blocks, j.pos + 1) && p < |j.req.blocks|
    ensures AfterTransfer(cfg, j, true) == Continue(StartAt(cfg, j.req, p))
    ensures Ahead(cfg, StartAt(cfg, j.req, p)) == Later(cfg, j.req, j.pos)
  {
    StartAtAhead(cfg, j.req, p);
    assert Later(cfg, j.req, j.pos) == PlanFrom(cfg, j.req, p);
  }

  /** One completion takes one command off the rest of the plan, or ends the job. */
  lemma {:induction false} NextAhead(cfg: Config, j: Job, ok: bool)
    requires WellFormed(cfg, j)
    ensures match Next(cfg, j, ok)
            case Continue(j') => Ahead(cfg, j) == [CmdOf(cfg, j)] + Ahead(cfg, j')
            case Finish(r, _) => r ==> Ahead(cfg, j) == [CmdOf(cfg, j)]
  {
    match j.phase {
      case SetCount =>
      case Stop(saved) => LastOfBlock(cfg, j, saved);
      case Data =>
        if !UsesStop(cfg, j) {
          LastOfBlock(cfg, j, ok);
        }
    }
  }

  /** No plan starts with CMD12. */
  lemma {:induction false} LaterOpens(cfg: Config, req: Request, pos: nat)
    requires pos < |req.blocks|
    ensures var l := Later(cfg, req, pos); l == [] || !l[0].StopCmd?
  {
  }

  /** For all outcomes the commands a job puts on the bus are those of the plan. */
  lemma {:induction false} TraceFollows(cfg: Config, j: Job, oks: seq<bool>)
    requires WellFormed(cfg, j) && j.phase != Stop(false)
    ensures Trace(cfg, j, oks) == Issued(Ahead(cfg, j), oks)
    decreases |oks|, 1
  {
    if oks != [] {
      LaterOpens(cfg, j.req, j.pos);
      var next := Next(cfg, j, oks[0]);
      if next.Continue? {
        ContinueFollows(cfg, j, next.job, oks);
      } else {
        NextAhead(cfg, j, oks[0]);
      }
    }
  }

  lemma {:induction false} ContinueFollows(cfg: Config, j: Job, j': Job, oks: seq<bool>)
    requires WellFormed(cfg, j) && j.phase != Stop(false) && oks != [] && Next(cfg, j, oks[0]) == Continue(j')
    ensures Trace(cfg, j, oks) == Issued(Ahead(cfg, j), oks)
    decreases |oks|, 0
  {
    NextAhead(cfg, j, oks[0]);
    if j'.phase != Stop(false) {
      TraceFollows(cfg, j', oks[1..]);
    }
  }

  lemma {:induction false} TraceIsPlanned(cfg: Config, req: Request, oks: seq<bool>)
    requires req.blocks != []
    ensures Trace(cfg, Start(cfg, req), oks) == Issued(Plan(cfg, req), oks)
    ensures Trace(cfg, Start(cfg, req), oks) <= Plan(cfg, req)
  {
    StartAhead(cfg, req);
    TraceFollows(cfg, Start(cfg, req), oks);
    IssuedIsPrefix(Plan(cfg, req), oks);
  }
}
