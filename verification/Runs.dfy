/** What holds of every run of a request, whatever the outcomes of its commands. */
module Runs {
  import opened Mmc
  import opened Adma2
  import opened Capacity
  import opened Protocol

  // ---- The report to the client ----

  /** Every command succeeded, CMD12 not counted. */
  predicate AllOk(cmds: seq<BusCmd>, oks: seq<bool>)
    requires |cmds| <= |oks|
    decreases |cmds|
  {
    cmds == [] || ((oks[0] || cmds[0].StopCmd?) && AllOk(cmds[1..], oks[1..]))
  }

  /** Sectors of the transfers that succeeded. */
  function Moved(cmds: seq<BusCmd>, oks: seq<bool>): nat
    requires |cmds| <= |oks|
    decreases |cmds|
  {
    if cmds == [] then 0
    else (if oks[0] then Sectors(cmds[0]) else 0) + Moved(cmds[1..], oks[1..])
  }

  /** Sectors whose transfer has succeeded before the job reached its current command. */
  function Behind(cfg: Config, j: Job): nat
    requires WellFormed(cfg, j)
  {
    SumTo(j.req.blocks, j.pos) + if j.phase.Stop? && j.phase.ok then j.req.blocks[j.pos].sectors else 0
  }

  /** The report a plan calls for when `base` sectors have been moved before: None while
      commands are outstanding, otherwise whether all went well and what was moved. */
  function Due(plan: seq<BusCmd>, oks: seq<bool>, base: nat): Option<(bool, nat)> {
    var t := Issued(plan, oks);
    if |oks| < |t| then None else Some((AllOk(t, oks), base + Moved(t, oks)))
  }

  ghost predicate Reports(cfg: Config, o: Outcome, due: Option<(bool, nat)>) {
    match due
    case None => o.Continue?
    case Some((ok, moved)) => o == Finish(ok, if cfg.adma2 then 0 else moved)
  }

  lemma {:induction false} DueStep(plan: seq<BusCmd>, c: BusCmd, rest: seq<BusCmd>, oks: seq<bool>, base: nat)
    requires plan == [c] + rest && oks != [] && (oks[0] || c.StopCmd?)
    ensures Due(plan, oks, base) == Due(rest, oks[1..], base + if oks[0] then Sectors(c) else 0)
  {
    var t := Issued(rest, oks[1..]);
    assert plan[1..] == rest && ([c] + t)[1..] == t;
  }

  lemma {:induction false} DueFailure(c: BusCmd, rest: seq<BusCmd>, oks: seq<bool>, base: nat)
    requires oks != [] && !oks[0] && !c.StopCmd?
    ensures Due([c] + rest, oks, base)
         == if rest != [] && rest[0].StopCmd? && |oks| == 1 then None else Some((false, base))
  {
    if rest != [] && rest[0].StopCmd? {
      var stop := rest[0];
      assert Issued([c] + rest, oks) == [c] + [stop];
      assert ([c] + [stop])[1..] == [stop];
      if |oks| > 1 {
        assert Moved([stop], oks[1..]) == 0;
      }
    } else {
      assert Issued([c] + rest, oks) == [c];
      assert Moved([c], oks) == Moved([], oks[1..]);
    }
  }

  /** A job that fails ends, once its CMD12 has completed where one is due. */
  lemma {:induction false} ReportFailure(cfg: Config, j: Job, oks: seq<bool>, base: nat)
    requires WellFormed(cfg, j) && !j.phase.Stop? && oks != [] && !oks[0]
    requires !cfg.adma2 ==> base == Behind(cfg, j)
    ensures Reports(cfg, Advance(cfg, j, oks), Due(Ahead(cfg, j), oks, base))
  {
    LaterOpens(cfg, j.req, j.pos);
    DueFailure(CmdOf(cfg, j), Ahead(cfg, j)[1..], oks, base);
    assert Ahead(cfg, j) == [CmdOf(cfg, j)] + Ahead(cfg, j)[1..];
    if j.phase.Data? && UsesStop(cfg, j) && |oks| > 1 {
      assert Advance(cfg, j.(phase := Stop(false)), oks[1..]) == Finish(false, Done(cfg, j.req, j.pos));
    }
  }

  /** A completion that does not end in a failure moves the sectors of its command. */
  lemma {:induction false} StepReport(cfg: Config, j: Job, ok: bool)
    requires WellFormed(cfg, j) && j.phase != Stop(false) && (ok || j.phase.Stop?)
    ensures var moved := if ok then Sectors(CmdOf(cfg, j)) else 0;
            match Next(cfg, j, ok)
            case Continue(j') =>
              && j'.phase != Stop(false)
              && (!cfg.adma2 ==> Behind(cfg, j') == Behind(cfg, j) + moved)
            case Finish(r, done) => r && done == if cfg.adma2 then 0 else Behind(cfg, j) + moved
  {
    assert SumTo(j.req.blocks, j.pos + 1) == SumTo(j.req.blocks, j.pos) + j.req.blocks[j.pos].sectors;
  }

  /** The job ends with the last issued command. It reports success if and only if all
      commands but CMD12 succeeded, and (in SDMA mode) the sectors that were moved. */
  lemma {:induction false} Report(cfg: Config, j: Job, oks: seq<bool>, base: nat)
    requires WellFormed(cfg, j) && j.phase != Stop(false)
    requires !cfg.adma2 ==> base == Behind(cfg, j)
    ensures Reports(cfg, Advance(cfg, j, oks), Due(Ahead(cfg, j), oks, base))
    decreases |oks|, 1
  {
    if oks == [] {
    } else if !oks[0] && !j.phase.Stop? {
      ReportFailure(cfg, j, oks, base);
    } else {
      NextAhead(cfg, j, oks[0]);
      StepReport(cfg, j, oks[0]);
      var next := Next(cfg, j, oks[0]);
      if next.Continue? {
        ReportNext(cfg, j, next.job, oks, base);
      } else {
        DueStep(Ahead(cfg, j), CmdOf(cfg, j), [], oks, base);
      }
    }
  }

  lemma {:induction false} ReportNext(cfg: Config, j: Job, j': Job, oks: seq<bool>, base: nat)
    requires WellFormed(cfg, j) && j.phase != Stop(false) && oks != [] && (oks[0] || j.phase.Stop?)
    requires !cfg.adma2 ==> base == Behind(cfg, j)
    requires Next(cfg, j, oks[0]) == Continue(j')
    ensures Reports(cfg, Advance(cfg, j, oks), Due(Ahead(cfg, j), oks, base))
    decreases |oks|, 0
  {
    NextAhead(cfg, j, oks[0]);
    StepReport(cfg, j, oks[0]);
    StopSends(cfg, j);
    Report(cfg, j', oks[1..], base + if oks[0] then Sectors(CmdOf(cfg, j)) else 0);
    SameReport(cfg, Advance(cfg, j', oks[1..]), Ahead(cfg, j), CmdOf(cfg, j), Ahead(cfg, j'), oks, base);
  }

  lemma {:induction false} StopSends(cfg: Config, j: Job)
    requires WellFormed(cfg, j)
    ensures j.phase.Stop? ==> CmdOf(cfg, j).StopCmd?
  {
  }

  /** The report due after the first command is the report due. */
  lemma {:induction false} SameReport(cfg: Config, o: Outcome, plan: seq<BusCmd>, c: BusCmd, rest: seq<BusCmd>,
                                      oks: seq<bool>, base: nat)
    requires plan == [c] + rest && oks != [] && (oks[0] || c.StopCmd?)
    requires Reports(cfg, o, Due(rest, oks[1..], base + if oks[0] then Sectors(c) else 0))
    ensures Reports(cfg, o, Due(plan, oks, base))
  {
    DueStep(plan, c, rest, oks, base);
  }

  /** For every request and all outcomes: the commands on the bus are a prefix of the
      plan, and the report is sent with the last of them. It is positive if and only if
      no command but CMD12 failed; the sectors it names are those of the transfers that
      succeeded (none are counted in ADMA2 mode). */
  lemma {:induction false} RunMeaning(cfg: Config, req: Request, oks: seq<bool>)
    requires req.blocks != []
    ensures var t := Trace(cfg, Start(cfg, req), oks);
            && t <= Plan(cfg, req)
            && (|oks| < |t| ==> Advance(cfg, Start(cfg, req), oks).Continue?)
            && (|oks| >= |t| ==>
                  Advance(cfg, Start(cfg, req), oks) == Finish(AllOk(t, oks), if cfg.adma2 then 0 else Moved(t, oks)))
  {
    StartAhead(cfg, req);
    TraceIsPlanned(cfg, req, oks);
    Report(cfg, Start(cfg, req), oks, 0);
  }

  // ---- Tiling ----

  /** The transfers of a plan cover consecutive sectors from `s` on. */
  ghost predicate Tiled(cmds: seq<BusCmd>, s: nat) {
    cmds == [] || match cmds[0]
                  case SingleCmd(_, sector, _) => sector == s && Tiled(cmds[1..], s + 1)
                  case MultiCmd(_, sector, count, _, _) => sector == s && Tiled(cmds[1..], s + count)
                  case _ => Tiled(cmds[1..], s)
  }

  function AllSectors(cmds: seq<BusCmd>): nat {
    if cmds == [] then 0 else Sectors(cmds[0]) + AllSectors(cmds[1..])
  }

  lemma {:induction false} TiledStep(c: BusCmd, more: seq<BusCmd>, s: nat)
    requires c.SingleCmd? || c.MultiCmd? ==> c.sector == s
    requires Tiled(more, s + Sectors(c))
    ensures Tiled([c] + more, s) && AllSectors([c] + more) == Sectors(c) + AllSectors(more)
  {
    assert ([c] + more)[1..] == more;
  }

  /** The plan of the blocks from `pos` on covers the sectors of these blocks. */
  lemma {:induction false} PlanFromTiles(cfg: Config, req: Request, pos: nat)
    requires pos <= |req.blocks|
    ensures Tiled(PlanFrom(cfg, req, pos), req.sector + SumTo(req.blocks, pos))
    ensures SumTo(req.blocks, pos) + AllSectors(PlanFrom(cfg, req, pos)) == SumTo(req.blocks, |req.blocks|)
    decreases |req.blocks| - pos
  {
    if pos == |req.blocks| {
    } else {
      var next, n := SkipEmpty(req.blocks, pos + 1), req.blocks[pos].sectors;
      assert SumTo(req.blocks, pos + 1) == SumTo(req.blocks, pos) + n;
      PlanFromTiles(cfg, req, next);
      BlockTiles(cfg, req, pos, PlanFrom(cfg, req, next));
    }
  }

  lemma {:induction false} BlockTiles(cfg: Config, req: Request, pos: nat, later: seq<BusCmd>)
    requires pos < |req.blocks|
    requires Tiled(later, req.sector + SumTo(req.blocks, pos) + req.blocks[pos].sectors)
    ensures Tiled(PlanBlock(cfg, req, pos, later), req.sector + SumTo(req.blocks, pos))
    ensures AllSectors(PlanBlock(cfg, req, pos, later)) == req.blocks[pos].sectors + AllSectors(later)
  {
    var n, s, list := req.blocks[pos].sectors, req.sector + SumTo(req.blocks, pos), req.blocks[pos..];
    var multi, stop := MultiCmd(req.read, s, n, false, list), StopCmd(req.read);
    if n == 1 {
      TiledStep(SingleCmd(req.read, s, list), later, s);
    } else if cfg.hasCmd23 {
      TiledStep(multi, later, s);
      TiledStep(CountCmd(n), [multi] + later, s);
    } else {
      TiledStep(stop, later, s + n);
      TiledStep(multi, [stop] + later, s);
    }
  }

  lemma {:induction false} PlanTiles(cfg: Config, req: Request)
    ensures Tiled(Plan(cfg, req), req.sector) && AllSectors(Plan(cfg, req)) == Sum(req.blocks)
  {
    if cfg.adma2 {
      var multi := MultiCmd(req.read, req.sector, Sum(req.blocks), cfg.hasCmd23 && cfg.autoCmd23, req.blocks);
      TiledStep(StopCmd(req.read), [], req.sector + Sum(req.blocks));
      TiledStep(multi, [], req.sector);
      TiledStep(multi, [StopCmd(req.read)], req.sector);
      TiledStep(CountCmd(Sum(req.blocks)), [multi], req.sector);
    } else {
      PlanFromTiles(cfg, req, 0);
      SumSplit(req.blocks, |req.blocks|);
    }
  }

  lemma {:induction false} AllIssued(plan: seq<BusCmd>, oks: seq<bool>)
    requires |oks| == |plan| && forall i | 0 <= i < |oks| :: oks[i]
    ensures Issued(plan, oks) == plan && AllOk(plan, oks) && Moved(plan, oks) == AllSectors(plan)
    decreases |plan|
  {
    if plan == [] {
    } else {
      AllIssued(plan[1..], oks[1..]);
      assert plan == [plan[0]] + plan[1..];
    }
  }

  /** When all commands succeed the whole plan is carried out and success is reported, in
      SDMA mode with all sectors of the request. */
  lemma {:induction false} SuccessReport(cfg: Config, req: Request, oks: seq<bool>)
    requires req.blocks != [] && |oks| == |Plan(cfg, req)| && forall i | 0 <= i < |oks| :: oks[i]
    ensures Trace(cfg, Start(cfg, req), oks) == Plan(cfg, req)
    ensures Advance(cfg, Start(cfg, req), oks) == Finish(true, if cfg.adma2 then 0 else Sum(req.blocks))
  {
    TraceIsPlanned(cfg, req, oks);
    AllIssued(Plan(cfg, req), oks);
    RunMeaning(cfg, req, oks);
    PlanTiles(cfg, req);
  }

  // ---- Announcing and closing transfers ----

  /** What the bus protocol asks for next: a CMD12, or the transfer a CMD23 announced. */
  datatype Owed = Nothing | Stop12(read: bool) | Transfer(n: nat)

  function Owes(cfg: Config, c: BusCmd): Owed {
    match c
    case CountCmd(n) => Transfer(n)
    case MultiCmd(read, _, _, _, _) => if cfg.hasCmd23 then Nothing else Stop12(read)
    case _ => Nothing
  }

  /** The command is what is owed. Without a debt a transfer of several sectors is in
      order only if the controller sends CMD23 itself or CMD23 is not available. */
  predicate Pays(cfg: Config, o: Owed, c: BusCmd) {
    match o
    case Nothing => !c.StopCmd? && (c.MultiCmd? && cfg.hasCmd23 ==> c.auto23)
    case Stop12(read) => c == StopCmd(read)
    case Transfer(n) => c.MultiCmd? && c.count == n && !c.auto23
  }

  ghost predicate Settled(cfg: Config, o: Owed, cmds: seq<BusCmd>)
    decreases |cmds|
  {
    if cmds == [] then o == Nothing
    else Pays(cfg, o, cmds[0]) && Settled(cfg, Owes(cfg, cmds[0]), cmds[1..])
  }

  lemma {:induction false} SettledStep(cfg: Config, o: Owed, c: BusCmd, more: seq<BusCmd>)
    requires Pays(cfg, o, c) && Settled(cfg, Owes(cfg, c), more)
    ensures Settled(cfg, o, [c] + more)
  {
    assert ([c] + more)[1..] == more;
  }

  lemma {:induction false} BlockSettled(cfg: Config, req: Request, pos: nat, later: seq<BusCmd>)
    requires pos < |req.blocks| && Settled(cfg, Nothing, later)
    ensures Settled(cfg, Nothing, PlanBlock(cfg, req, pos, later))
    ensures |PlanBlock(cfg, req, pos, later)| <= 2 + |later|
  {
    var n, s, list := req.blocks[pos].sectors, req.sector + SumTo(req.blocks, pos), req.blocks[pos..];
    var multi, stop := MultiCmd(req.read, s, n, false, list), StopCmd(req.read);
    if n == 1 {
      SettledStep(cfg, Nothing, SingleCmd(req.read, s, list), later);
    } else if cfg.hasCmd23 {
      SettledStep(cfg, Transfer(n), multi, later);
      SettledStep(cfg, Nothing, CountCmd(n), [multi] + later);
    } else {
      SettledStep(cfg, Stop12(req.read), stop, later);
      SettledStep(cfg, Nothing, multi, [stop] + later);
    }
  }

  lemma {:induction false} PlanFromSettled(cfg: Config, req: Request, pos: nat)
    requires pos <= |req.blocks|
    ensures Settled(cfg, Nothing, PlanFrom(cfg, req, pos))
    ensures |PlanFrom(cfg, req, pos)| <= 2 * (|req.blocks| - pos)
    decreases |req.blocks| - pos
  {
    if pos == |req.blocks| {
    } else {
      var next := SkipEmpty(req.blocks, pos + 1);
      PlanFromSettled(cfg, req, next);
      BlockSettled(cfg, req, pos, PlanFrom(cfg, req, next));
    }
  }

  /** A plan leaves no debt, and takes at most two commands per block, or two in all in
      ADMA2 mode. */
  lemma {:induction false} PlanSettled(cfg: Config, req: Request)
    requires req.blocks != []
    ensures Settled(cfg, Nothing, Plan(cfg, req))
    ensures |Plan(cfg, req)| <= if cfg.adma2 then 2 else 2 * |req.blocks|
  {
    if cfg.adma2 {
      var n, auto := Sum(req.blocks), cfg.hasCmd23 && cfg.autoCmd23;
      var multi := MultiCmd(req.read, req.sector, n, auto, req.blocks);
      if !cfg.hasCmd23 {
        SettledStep(cfg, Stop12(req.read), StopCmd(req.read), []);
        SettledStep(cfg, Nothing, multi, [StopCmd(req.read)]);
      } else if cfg.autoCmd23 {
        SettledStep(cfg, Nothing, multi, []);
      } else {
        SettledStep(cfg, Transfer(n), multi, []);
        SettledStep(cfg, Nothing, CountCmd(n), [multi]);
      }
    } else {
      PlanFromSettled(cfg, req, 0);
    }
  }

  lemma {:induction false} SettledAt(cfg: Config, o: Owed, cmds: seq<BusCmd>, i: nat)
    requires Settled(cfg, o, cmds) && i < |cmds|
    ensures Pays(cfg, if i == 0 then o else Owes(cfg, cmds[i - 1]), cmds[i])
    decreases i
  {
    if i == 0 {
    } else {
      SettledAt(cfg, Owes(cfg, cmds[0]), cmds[1..], i - 1);
    }
  }

  /** A completed open-ended transfer is followed by its CMD12. */
  lemma {:induction false} StopIssued(cfg: Config, o: Owed, plan: seq<BusCmd>, oks: seq<bool>, i: nat)
    requires Settled(cfg, o, plan) && i < |oks| && i < |Issued(plan, oks)|
    requires Owes(cfg, Issued(plan, oks)[i]).Stop12?
    ensures i + 1 < |Issued(plan, oks)|
    decreases i
  {
    assert plan != [];
    if oks[0] || plan[0].StopCmd? {
      var rest := Issued(plan[1..], oks[1..]);
      assert Issued(plan, oks) == [plan[0]] + rest;
      if i > 0 {
        StopIssued(cfg, Owes(cfg, plan[0]), plan[1..], oks[1..], i - 1);
      } else {
        assert plan[1..] != [];
      }
    }
  }

  /** In every run: CMD12 is sent exactly after a transfer of several sectors without
      CMD23, once, in the same direction, whether the transfer failed or not; and a
      CMD23 is followed by nothing but the transfer it announces. */
  lemma {:induction false} RunBrackets(cfg: Config, req: Request, oks: seq<bool>, i: nat)
    requires req.blocks != [] && i < |Trace(cfg, Start(cfg, req), oks)|
    ensures var t := Trace(cfg, Start(cfg, req), oks);
            && (t[i].StopCmd? <==> i > 0 && t[i - 1].MultiCmd? && !cfg.hasCmd23)
            && (t[i].StopCmd? ==> t[i].read == t[i - 1].read)
            && (i > 0 && t[i - 1].CountCmd? ==> t[i].MultiCmd? && t[i].count == t[i - 1].n && !t[i].auto23)
            && (t[i].MultiCmd? && cfg.hasCmd23 && !t[i].auto23 ==> i > 0 && t[i - 1].CountCmd?)
            && (t[i].MultiCmd? && !cfg.hasCmd23 && i < |oks| ==> i + 1 < |t|)
  {
    PlanSettled(cfg, req);
    TraceIsPlanned(cfg, req, oks);
    SettledAt(cfg, Nothing, Plan(cfg, req), i);
    if i < |oks| && Owes(cfg, Issued(Plan(cfg, req), oks)[i]).Stop12? {
      StopIssued(cfg, Nothing, Plan(cfg, req), oks, i);
    }
  }

  /** What a command of a request may be: all transfers have the direction of the request;
      a single sector is moved by the command for single sectors in SDMA mode only, where
      that command is used for nothing else; CMD23 is sent by the controller exactly in
      ADMA2 mode where both know it, and as a command exactly where it is known otherwise. */
  predicate Kind(cfg: Config, req: Request, c: BusCmd) {
    match c
    case CountCmd(_) => cfg.hasCmd23 && !(cfg.adma2 && cfg.autoCmd23)
    case SingleCmd(read, _, _) => read == req.read && !cfg.adma2
    case MultiCmd(read, _, count, auto23, _) =>
      read == req.read && (count == 1 ==> cfg.adma2) && (auto23 <==> cfg.adma2 && cfg.hasCmd23 && cfg.autoCmd23)
    case StopCmd(read) => read == req.read && !cfg.hasCmd23
  }

  ghost predicate AllKinds(cfg: Config, req: Request, cmds: seq<BusCmd>) {
    forall c | c in cmds :: Kind(cfg, req, c)
  }

  lemma {:induction false} PlanFromKinds(cfg: Config, req: Request, pos: nat)
    requires pos <= |req.blocks| && !cfg.adma2
    ensures AllKinds(cfg, req, PlanFrom(cfg, req, pos))
    decreases |req.blocks| - pos
  {
    if pos == |req.blocks| {
    } else {
      PlanFromKinds(cfg, req, SkipEmpty(req.blocks, pos + 1));
    }
  }

  lemma {:induction false} PlanKinds(cfg: Config, req: Request)
    ensures AllKinds(cfg, req, Plan(cfg, req))
  {
    if !cfg.adma2 {
      PlanFromKinds(cfg, req, 0);
    }
  }

  lemma {:induction false} RunKinds(cfg: Config, req: Request, oks: seq<bool>, i: nat)
    requires req.blocks != [] && i < |Trace(cfg, Start(cfg, req), oks)|
    ensures Kind(cfg, req, Trace(cfg, Start(cfg, req), oks)[i])
  {
    PlanKinds(cfg, req);
    RunMeaning(cfg, req, oks);
    assert Trace(cfg, Start(cfg, req), oks)[i] == Plan(cfg, req)[i];
  }

  /** No request needs more completions than its plan has commands. */
  lemma {:induction false} RunEnds(cfg: Config, req: Request, oks: seq<bool>)
    requires req.blocks != [] && |oks| >= if cfg.adma2 then 2 else 2 * |req.blocks|
    ensures Advance(cfg, Start(cfg, req), oks).Finish?
  {
    PlanSettled(cfg, req);
    RunMeaning(cfg, req, oks);
  }

  // ---- Admission ----

  /** Submitting the command throws: its block count does not fit 16 bits, or the
      descriptors or the bounce buffer do not suffice. */
  predicate SubmitFails(cfg: Config, c: BusCmd) {
    && (c.SingleCmd? || c.MultiCmd?)
    && (Sectors(c) % WORD32 > MAX_BLOCKS || (cfg.adma2 && !BuildOk(cfg.dma, c.dma, 0, 0)))
  }

  ghost predicate NoneFails(cfg: Config, cmds: seq<BusCmd>) {
    cmds == [] || (!SubmitFails(cfg, cmds[0]) && NoneFails(cfg, cmds[1..]))
  }

  lemma {:induction false} NoneFailsStep(cfg: Config, c: BusCmd, more: seq<BusCmd>)
    requires !SubmitFails(cfg, c) && NoneFails(cfg, more)
    ensures NoneFails(cfg, [c] + more)
  {
    assert ([c] + more)[1..] == more;
  }

  lemma {:induction false} BlockFits(cfg: Config, req: Request, pos: nat, later: seq<BusCmd>)
    requires pos < |req.blocks| && !cfg.adma2 && req.blocks[pos].sectors <= MAX_BLOCKS && NoneFails(cfg, later)
    ensures NoneFails(cfg, PlanBlock(cfg, req, pos, later))
  {
    var n, s, list := req.blocks[pos].sectors, req.sector + SumTo(req.blocks, pos), req.blocks[pos..];
    var multi, stop := MultiCmd(req.read, s, n, false, list), StopCmd(req.read);
    if n == 1 {
      NoneFailsStep(cfg, SingleCmd(req.read, s, list), later);
    } else if cfg.hasCmd23 {
      NoneFailsStep(cfg, multi, later);
      NoneFailsStep(cfg, CountCmd(n), [multi] + later);
    } else {
      NoneFailsStep(cfg, stop, later);
      NoneFailsStep(cfg, multi, [stop] + later);
    }
  }

  lemma {:induction false} PlanFromFits(cfg: Config, req: Request, pos: nat)
    requires pos <= |req.blocks| && !cfg.adma2
    requires forall b | b in req.blocks :: b.sectors <= MAX_BLOCKS
    ensures NoneFails(cfg, PlanFrom(cfg, req, pos))
    decreases |req.blocks| - pos
  {
    if pos == |req.blocks| {
    } else {
      assert req.blocks[pos] in req.blocks;
      var next := SkipEmpty(req.blocks, pos + 1);
      PlanFromFits(cfg, req, next);
      BlockFits(cfg, req, pos, PlanFrom(cfg, req, next));
    }
  }

  /** What one command may have to transfer fits the block count field: all segments of
      the advertised size in ADMA2 mode, one in SDMA mode. */
  predicate Roomy(cfg: Config)
    requires cfg.maxSeg > 0
  {
    (if cfg.adma2 then cfg.maxSeg else 1) * MaxSize(cfg.dma, cfg.maxSeg) <= MAX_REQUEST
  }

  /** No command of an admitted request is refused when it is submitted. */
  lemma {:induction false} PlanFits(cfg: Config, req: Request)
    requires cfg.Valid() && Roomy(cfg)
    requires Admitted(cfg.dma, cfg.maxSeg, req.blocks)
    requires cfg.adma2 ==> Reachable(cfg.dma, req.blocks)
    ensures NoneFails(cfg, Plan(cfg, req))
  {
    if cfg.adma2 {
      RoomyAll(cfg);
      AdmittedIsSubmittable(cfg.dma, cfg.maxSeg, req.blocks);
      AllFits(cfg, req);
      var n, auto := Sum(req.blocks), cfg.hasCmd23 && cfg.autoCmd23;
      var multi := MultiCmd(req.read, req.sector, n, auto, req.blocks);
      NoneFailsStep(cfg, StopCmd(req.read), []);
      NoneFailsStep(cfg, multi, [StopCmd(req.read)]);
      NoneFailsStep(cfg, multi, []);
      NoneFailsStep(cfg, CountCmd(n), [multi]);
    } else {
      PlanFromFits(cfg, req, 0);
    }
  }

  lemma {:induction false} RoomyAll(cfg: Config)
    requires cfg.adma2 && cfg.maxSeg > 0 && Roomy(cfg)
    ensures cfg.maxSeg * MaxSize(cfg.dma, cfg.maxSeg) <= MAX_REQUEST
  {
  }

  /** The one transfer of ADMA2 mode. */
  lemma {:induction false} AllFits(cfg: Config, req: Request)
    requires Submittable(cfg.dma, req.blocks)
    ensures forall auto :: !SubmitFails(cfg, MultiCmd(req.read, req.sector, Sum(req.blocks), auto, req.blocks))
  {
  }
}
