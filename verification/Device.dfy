/** The driver's methods that process requests, proved against the state machine of
    module Engine: ring slots and command fields change in place. */
module Device {
  import opened Mmc
  import opened Memory
  import opened CmdQueue
  import opened Adma2
  import opened Capacity
  import opened IrqMachine
  import opened Protocol
  import opened Runs
  import opened Wires
  import opened Engine
  import opened Safety
  import opened History

  // ---- What clients and controller get ----

  datatype Callback = Callback(id: nat, ok: bool, bytes: nat)

  /** The command in a slot, as it is submitted. */
  function WireOf(cmd: Cmd): Wire
    reads cmd
  {
    Wire(cmd.op, cmd.arg, if cmd.hasData then Some(Payload(cmd.blockcnt, cmd.autoCmd23, cmd.blocks)) else None)
  }

  function ReportBytes(done: nat): nat {
    done % WORD32 * SECTOR_SIZE
  }

  // ---- Slots and jobs ----

  /** How far a request has got: next sector, sectors done, blocks left. */
  datatype Place = Place(sector: uint32, done: uint32, left: seq<Block>)
  {
    /** The first block left has been accounted for; `rest` is left. */
    function Past(rest: seq<Block>): Place
      requires left != []
    {
      Place((sector + left[0].sectors) % WORD32, (done + left[0].sectors) % WORD32, rest)
    }
  }

  function PlaceOf(cmd: Cmd): Place
    reads cmd
  {
    Place(cmd.sector, cmd.sectorsDone, cmd.blocks)
  }

  ghost function PlaceAt(cfg: Config, req: Request, pos: nat): Place
    requires pos <= |req.blocks|
  {
    Place((req.sector + SumTo(req.blocks, pos)) % WORD32, Done(cfg, req, pos) % WORD32, req.blocks[pos..])
  }

  lemma {:induction false} AddWrap(x: nat, n: nat)
    ensures (x % WORD32 + n) % WORD32 == (x + n) % WORD32
  {
  }

  lemma {:induction false} NextPlace(cfg: Config, req: Request, pos: nat)
    requires !cfg.adma2 && pos < |req.blocks|
    ensures var here, p := PlaceAt(cfg, req, pos), SkipEmpty(req.blocks, pos + 1);
            && here.left != [] && here.left[1..] == req.blocks[pos + 1..]
            && PlaceAt(cfg, req, p) == here.Past(req.blocks[p..])
  {
    var n, done := req.blocks[pos].sectors, SumTo(req.blocks, pos);
    assert SumTo(req.blocks, pos + 1) == done + n;
    AddWrap(req.sector + done, n);
    AddWrap(done, n);
  }

  /** The slot belongs to request `req` and has reached block `pos`. */
  ghost predicate At(cfg: Config, cmd: Cmd, req: Request, pos: nat)
    reads cmd
  {
    && pos <= |req.blocks|
    && cmd.inout && cmd.inoutRead == req.read && cmd.cb == Some(req.id)
    && PlaceOf(cmd) == PlaceAt(cfg, req, pos)
  }

  /** The slot holds the job's command. */
  ghost predicate Holds(cfg: Config, cmd: Cmd, j: Job)
    requires WellFormed(cfg, j)
    reads cmd
  {
    && At(cfg, cmd, j.req, j.pos)
    && cmd.op == OnWire(cfg, CmdOf(cfg, j)).op && cmd.hasData == j.phase.Data?
    && cmd.inoutCmd12 == (j.phase.Data? && UsesStop(cfg, j))
    && (cfg.adma2 && j.phase.SetCount? ==> cmd.blockcnt == Sum(j.req.blocks) % WORD32)
    && (!cfg.adma2 ==> !cmd.autoCmd23)
    && (j.phase.Stop? ==> cmd.statusCmd12 == Success || (cmd.statusCmd12.IsError() && !j.phase.ok))
    && (j.phase.Stop? && cmd.statusCmd12 == Success ==> j.phase.ok)
  }

  /** The slot is ready to submit the job's command. */
  ghost predicate Armed(cfg: Config, cmd: Cmd, j: Job)
    requires WellFormed(cfg, j)
    reads cmd
  {
    && cmd.status == ReadyForSubmit
    && WireOf(cmd) == OnWire(cfg, CmdOf(cfg, j))
    && (j.phase.Data? ==> cmd.blocksize == SECTOR_SIZE)
    && cmd.inoutCmd12 == (j.phase.Data? && UsesStop(cfg, j))
  }

  lemma {:induction false} ArmedRep(cfg: Config, cmd: Cmd, j: Job)
    requires WellFormed(cfg, j) && Armed(cfg, cmd, j) && At(cfg, cmd, j.req, j.pos) && !j.phase.Stop?
    requires if cfg.adma2 then j.phase.SetCount? ==> cmd.blockcnt == Sum(j.req.blocks) % WORD32 else !cmd.autoCmd23
    ensures Rep(cfg, cmd, Live(j, ReadyForSubmit))
  {
  }

  /** The command has failed, and the reset after that has not ended. */
  predicate Failed(st: Status) {
    st.CmdTimeout? || st.CmdError? || st.DataError?
  }

  ghost predicate Rep(cfg: Config, cmd: Cmd, e: Entry)
    reads cmd
  {
    match e
    case Dead(req) => cmd.status == Uninitialized
    case Live(j, st) =>
      && WellFormed(cfg, j) && Holds(cfg, cmd, j) && cmd.status == st
      && (st.ReadyForSubmit? || st.ProgressCmd? || (st.ProgressData? && j.phase.Data?) || Failed(st))
      && (st.ReadyForSubmit? ==>
            WireOf(cmd) == OnWire(cfg, CmdOf(cfg, j)) && (j.phase.Data? ==> cmd.blocksize == SECTOR_SIZE))
  }

  function Told(r: Report): Callback {
    Callback(r.id, r.ok, ReportBytes(r.done))
  }

  ghost function CallbackLog(reports: seq<Report>): seq<Callback> {
    if reports == [] then []
    else
      var n := |reports| - 1;
      CallbackLog(reports[..n]) + [Told(reports[n])]
  }

  lemma {:induction false} CallbackSnoc(reports: seq<Report>, r: Report)
    ensures CallbackLog(reports + [r]) == CallbackLog(reports) + [Told(r)]
  {
    assert (reports + [r])[..|reports|] == reports;
  }

  lemma {:induction false} CallbackAt(reports: seq<Report>, i: nat)
    requires i < |reports|
    ensures |CallbackLog(reports)| == |reports| && CallbackLog(reports)[i] == Told(reports[i])
    decreases |reports|
  {
    var n := |reports| - 1;
    if n == 0 {
      assert CallbackLog(reports[..0]) == [];
    } else {
      CallbackAt(reports[..n], if i < n then i else 0);
    }
  }

  /** The bytes a client is told are those of the blocks that have been done if and only if
      their sectors fit 32 bits. */
  lemma {:induction false} ToldBytes(r: Report, blocks: seq<Block>, k: nat)
    requires k <= |blocks| && r.done == SumTo(blocks, k)
    ensures Told(r).bytes == Length(Client(blocks[..k])) <==> SumTo(blocks, k) < 0x1_0000_0000
  {
    SumSplit(blocks, k);
    SumSplit(blocks[..k], k);
    SumPrefix(blocks, k, k);
    assert blocks[..k][k..] == [];
  }

  lemma {:induction false} SumPrefix(blocks: seq<Block>, n: nat, k: nat)
    requires k <= n <= |blocks|
    ensures SumTo(blocks[..n], k) == SumTo(blocks, k)
  {
    if k == 0 {
    } else {
      SumPrefix(blocks, n, k - 1);
    }
  }

  /** The state after a command that succeeded, or a CMD12 that closed a successful transfer. */
  function AfterSuccess(cfg: Config, j: Job): Outcome
    requires WellFormed(cfg, j)
  {
    if j.phase.SetCount? then Continue(j.(phase := Data)) else AfterTransfer(cfg, j, true)
  }

  /** The same for any outcome. */
  function AfterCommand(cfg: Config, j: Job, ok: bool): Outcome
    requires WellFormed(cfg, j)
  {
    if ok then AfterSuccess(cfg, j) else Finish(false, Done(cfg, j.req, j.pos))
  }

  lemma {:induction false} NextCases(cfg: Config, j: Job, ok: bool)
    requires WellFormed(cfg, j)
    ensures Next(cfg, j, ok)
         == if j.phase.Data? && UsesStop(cfg, j) then Continue(j.(phase := Stop(ok)))
            else AfterCommand(cfg, j, if j.phase.Stop? then j.phase.ok else ok)
  {
  }

  /** SDMA: what follows at block `pos`; with `counted` its CMD23 has been sent. */
  function FromBlock(cfg: Config, req: Request, pos: nat, counted: bool): Outcome
    requires !cfg.adma2 && pos <= |req.blocks|
  {
    if pos == |req.blocks| then Finish(true, Done(cfg, req, pos))
    else Continue(if counted then Job(req, pos, Data) else StartAt(cfg, req, pos))
  }

  lemma {:induction false} SdmaSuccess(cfg: Config, j: Job)
    requires WellFormed(cfg, j) && !cfg.adma2
    ensures AfterSuccess(cfg, j)
         == if j.phase.SetCount? then FromBlock(cfg, j.req, j.pos, true)
            else FromBlock(cfg, j.req, SkipEmpty(j.req.blocks, j.pos + 1), false)
  {
  }

  /** The commands for a block in terms of what the slot knows. */
  lemma {:induction false} SdmaWire(cfg: Config, req: Request, pos: nat, counted: bool)
    requires !cfg.adma2 && pos < |req.blocks| && (counted ==> cfg.hasCmd23 && req.blocks[pos].sectors != 1)
    ensures var here, n, j := PlaceAt(cfg, req, pos), req.blocks[pos].sectors, FromBlock(cfg, req, pos, counted).job;
            var arg := here.sector * cfg.AddrMult() % WORD32;
            && WellFormed(cfg, j) && here.left[0].sectors == n
            && OnWire(cfg, CmdOf(cfg, j))
               == (if n == 1 then Wire(DataOp(req.read, false), arg, Some(Payload(1, false, here.left)))
                   else if cfg.hasCmd23 && !counted then Wire(SetBlockCount, n % 65536, None)
                   else Wire(DataOp(req.read, true), arg, Some(Payload(n, false, here.left))))
            && (j.phase.Data? && UsesStop(cfg, j) <==> n != 1 && !cfg.hasCmd23)
  {
  }

  lemma {:induction false} Adma2Wire(cfg: Config, req: Request)
    requires cfg.adma2 && req.blocks != []
    ensures var here, n, j := PlaceAt(cfg, req, 0), Sum(req.blocks) % WORD32, Start(cfg, req);
            var counted := cfg.hasCmd23 && !cfg.autoCmd23;
            && here.left == req.blocks && (j.phase.SetCount? <==> counted)
            && OnWire(cfg, CmdOf(cfg, j))
               == (if counted then Wire(SetBlockCount, n % 65536, None)
                   else Wire(DataOp(req.read, true), here.sector * cfg.AddrMult() % WORD32,
                             Some(Payload(n, cfg.hasCmd23, here.left))))
            && (j.phase.Data? && UsesStop(cfg, j) <==> !cfg.hasCmd23)
  {
    CutTwice(Sum(req.blocks));
  }

  lemma {:induction false} CutTwice(n: nat)
    ensures n % WORD32 % 65536 == n % 65536
  {
  }

  ghost function Submitted(cfg: Config, s: Sys, j: Job): Sys
    requires s.queue != [] && WellFormed(cfg, j)
  {
    s.(queue := s.queue[0 := Live(j, ProgressCmd)], unmasked := true, bus := s.bus + [CmdOf(cfg, j)])
  }

  lemma {:induction false} KickHead(cfg: Config, s: Sys)
    requires AllProper(cfg, s.queue) && s.queue != [] && s.queue[0].Live? && s.queue[0].status.ReadyForSubmit?
    ensures var j := s.queue[0].job;
            Kick(cfg, s) == if SubmitFails(cfg, CmdOf(cfg, j)) then Ret(s, true) else Ret(Submitted(cfg, s, j), false)
  {
    var e := Live(s.queue[0].job, ProgressCmd);
    assert [e] + s.queue[1..] == s.queue[0 := e];
  }

  /** State `s'` is `s` after the completion of the head's command, before the next one
      is submitted. */
  ghost predicate Follows(cfg: Config, s: Sys, j: Job, ok: bool, s': Sys)
    requires WellFormed(cfg, j)
  {
    && s.queue != [] && s'.unmasked == s.unmasked && s'.bus == s.bus
    && match Next(cfg, j, ok)
       case Continue(j') =>
         && s'.queue != [] && s'.queue[0] == Live(j', ReadyForSubmit) && s'.queue[1..] == s.queue[1..]
         && s'.reports == s.reports
       case Finish(r, done) =>
         && s'.queue == s.queue[1..]
         && s'.reports == s.reports + [Report(j.req.id, r, done)]
  }

  lemma {:induction false} CompletedFollows(cfg: Config, s: Sys, ok: bool)
    requires AllProper(cfg, s.queue) && s.queue != [] && s.queue[0].Live?
    ensures Follows(cfg, s, s.queue[0].job, ok, Completed(cfg, s, ok))
  {
  }

  /** The head's status has changed, and the interrupt is masked. */
  ghost function Masked(s: Sys, st: Status): Sys
    requires s.queue != [] && s.queue[0].Live?
  {
    s.(queue := [Live(s.queue[0].job, st)] + s.queue[1..], unmasked := false)
  }

  lemma {:induction false} StatusCases(st: Status, hasData: bool, w: Word, adma2: bool)
    requires st.ProgressCmd? || (st.ProgressData? && hasData)
    ensures var st' := StatusAfter(st, hasData, w.bits);
            && (st'.ProgressCmd? || (st'.ProgressData? && hasData) || st' == Success || Failed(st'))
            && (Throws(st, hasData, w, adma2) <==>
                  if st'.Progress() then adma2 && InData(st, hasData, w.bits) && Boundary(w)
                  else Failed(st') && !w.reset)
  {
  }

  lemma {:induction false} InterruptCases(cfg: Config, s: Sys, w: Word)
    requires Sound(cfg, s) && s.unmasked
    ensures var j, st := s.queue[0].job, s.queue[0].status;
            var st' := StatusAfter(st, HasData(cfg, j), w.bits);
            var m := Masked(s, st');
            && WellFormed(cfg, j) && AllProper(cfg, m.queue)
            && Interrupt(cfg, s, w)
               == (if Throws(st, HasData(cfg, j), w, cfg.adma2) then Ret(m, true)
                   else if st'.Progress() then Ret(m.(unmasked := true), false)
                   else Complete(cfg, m, st'.Success?))
  {
  }

  ghost function EntryOf(cfg: Config, req: Request): (e: Entry)
    requires cfg.maxSeg > 0 && req.blocks != []
    ensures Proper(cfg, e)
  {
    if TooLarge(cfg, req.blocks) then Dead(req) else Live(Start(cfg, req), ReadyForSubmit)
  }

  lemma {:induction false} ArriveCases(cfg: Config, s: Sys, req: Request)
    requires cfg.maxSeg > 0 && req.blocks != [] && AllProper(cfg, s.queue) && |s.queue| != ENTRIES - 1
    ensures var a := Append(cfg, s, EntryOf(cfg, req));
            && AllProper(cfg, a.queue)
            && Arrive(cfg, s, req)
               == (if TooLarge(cfg, req.blocks) then (if s.queue == [] then (s, Inval) else (a, Thrown))
                   else if !Kick(cfg, a).threw then (Kick(cfg, a).sys, Ok)
                   else if s.queue == [] then (s, Inval) else (a, Thrown))
            && (Kick(cfg, a).threw ==> Kick(cfg, a).sys == a)
  {
  }

  class Device {
    const cfg: Config
    const queue: Queue
    var unmasked: bool
    var bus: seq<Wire>
    var dsAddr: uint32            // address register of the SDMA engine, as last written
    var callbacks: seq<Callback>
    ghost var sys: Sys            // the state of the state machine this object implements
    ghost var slots: seq<Cmd>     // the slots of the requests in the queue, head first

    /** Slots in use are pairwise different, marked as such, and being worked on. */
    ghost predicate Ring()
      reads this, queue, queue.cmds
    {
      && queue.Valid() && queue.FlagsMark()
      && slots == queue.Live() == queue.Work()
      && (forall i, k | 0 <= i < k < |slots| :: slots[i] != slots[k])
      && (forall i | 0 <= i < |slots| :: slots[i] in queue.cmds)
    }

    /** Slots from `from` on hold what the state machine says. */
    ghost predicate Match(from: nat)
      reads this, slots
    {
      |slots| == |sys.queue| && forall i | from <= i < |slots| :: Rep(cfg, slots[i], sys.queue[i])
    }

    ghost predicate Logs()
      reads this
    {
      unmasked == sys.unmasked && bus == WireLog(cfg, sys.bus) && callbacks == CallbackLog(sys.reports)
    }

    ghost predicate Valid()
      reads this, queue, queue.cmds, slots
    {
      cfg.maxSeg > 0 && Ring() && Match(0) && Logs() && Sound(cfg, sys)
    }

    constructor (config: Config)
      requires config.maxSeg > 0
      ensures Valid() && cfg == config && sys == INIT && fresh(queue) && fresh(queue.cmds)
    {
      cfg := config;
      queue := new Queue();
      unmasked, bus, dsAddr, callbacks := false, [], 0, [];
      sys, slots := INIT, [];
    }

    /** The slot is ready for the next command of its request, or the request has been
        reported. */
    ghost predicate Went(cmd: Cmd, o: Outcome, more: bool, id: nat, before: seq<Callback>)
      reads this`callbacks, cmd
    {
      match o
      case Continue(j) =>
        && more && callbacks == before && WellFormed(cfg, j)
        && At(cfg, cmd, j.req, j.pos) && Armed(cfg, cmd, j) && (!cfg.adma2 ==> !cmd.autoCmd23)
      case Finish(ok, done) => !more && callbacks == before + [Callback(id, ok, ReportBytes(done))]
    }

    /** First or next command for the block the slot has reached; `more == false` after
        the last block, with the positive report sent. */
    method TransferBlockSdma(cmd: Cmd, ghost req: Request, ghost pos: nat) returns (more: bool)
      requires !cfg.adma2 && At(cfg, cmd, req, pos) && !cmd.inoutCmd12 && !cmd.autoCmd23
      requires cmd.op == SetBlockCount ==> pos < |req.blocks| && cfg.hasCmd23 && req.blocks[pos].sectors != 1
      modifies this`callbacks, cmd`op, cmd`arg, cmd`blockcnt, cmd`blocksize, cmd`hasData, cmd`autoCmd23,
               cmd`status, cmd`inoutCmd12
      ensures Went(cmd, FromBlock(cfg, req, pos, old(cmd.op) == SetBlockCount), more, req.id, old(callbacks))
    {
      if cmd.blocks == [] {
        callbacks := callbacks + [Callback(cmd.cb.value, true, cmd.sectorsDone * SECTOR_SIZE)];
        return false;
      }
      SdmaWire(cfg, req, pos, cmd.op == SetBlockCount);
      var n := cmd.blocks[0].sectors;
      var arg := cmd.sector * cfg.AddrMult() % WORD32;
      if n == 1 {
        cmd.ReinitInoutData(if cmd.inoutRead then ReadSingle else WriteSingle, arg, 1, false);
      } else if cfg.hasCmd23 && cmd.op != SetBlockCount {
        cmd.ReinitInoutNodata(SetBlockCount, n % 65536);
      } else {
        cmd.ReinitInoutData(if cmd.inoutRead then ReadMultiple else WriteMultiple, arg, n, false);
        if !cfg.hasCmd23 {
          cmd.inoutCmd12 := true;
        }
      }
      return true;
    }

    method CountSectors(blocks: seq<Block>) returns (n: uint32)
      ensures n == Sum(blocks) % WORD32
    {
      var i: nat := 0;
      n := 0;
      while i < |blocks|
        invariant i <= |blocks| && n == SumTo(blocks, i) % WORD32
      {
        AddWrap(SumTo(blocks, i), blocks[i].sectors);
        n := (n + blocks[i].sectors) % WORD32;
        i := i + 1;
      }
      SumSplit(blocks, i);
    }

    /** ADMA2: CMD23, or the transfer of all blocks at once. */
    method SetBlockCountAdma2(cmd: Cmd, ghost req: Request)
      requires cfg.adma2 && req.blocks != [] && At(cfg, cmd, req, 0) && !cmd.inoutCmd12
      modifies cmd`op, cmd`arg, cmd`blockcnt, cmd`blocksize, cmd`hasData, cmd`autoCmd23, cmd`status, cmd`inoutCmd12
      ensures Armed(cfg, cmd, Start(cfg, req))
      ensures Start(cfg, req).phase.SetCount? ==> cmd.blockcnt == Sum(req.blocks) % WORD32
    {
      Adma2Wire(cfg, req);
      var numSectors := CountSectors(cmd.blocks);
      if !cfg.hasCmd23 || cfg.autoCmd23 {
        var arg := cmd.sector * cfg.AddrMult() % WORD32;
        cmd.ReinitInoutData(if cmd.inoutRead then ReadMultiple else WriteMultiple, arg, numSectors,
                            cfg.hasCmd23 && cfg.autoCmd23);
        if !cfg.hasCmd23 {
          cmd.inoutCmd12 := true;
        }
      } else {
        cmd.blockcnt := numSectors;
        cmd.ReinitInoutNodata(SetBlockCount, numSectors % 65536);
      }
    }

    /** A command of the request has succeeded. */
    method HandleIrqInoutSdma(cmd: Cmd, ghost j: Job) returns (more: bool)
      requires !cfg.adma2 && WellFormed(cfg, j) && At(cfg, cmd, j.req, j.pos) && cmd.status == Success
      requires cmd.op == OnWire(cfg, CmdOf(cfg, j)).op && !cmd.inoutCmd12 && !cmd.autoCmd23
      modifies this`callbacks, cmd
      ensures cmd.enqueued == old(cmd.enqueued)
      ensures Went(cmd, AfterSuccess(cfg, j), more, j.req.id, old(callbacks))
    {
      ghost var p := j.pos;
      SdmaSuccess(cfg, j);
      assert cmd.op == SetBlockCount <==> j.phase.SetCount?;
      if cmd.op != SetBlockCount {
        p := AdvanceBlock(cmd, j);
      }
      more := TransferBlockSdma(cmd, j.req, p);
    }

    /** Account for a finished block and go to the next one that is not empty. */
    method AdvanceBlock(cmd: Cmd, ghost j: Job) returns (ghost p: nat)
      requires !cfg.adma2 && WellFormed(cfg, j) && At(cfg, cmd, j.req, j.pos)
      modifies cmd`sector, cmd`sectorsDone, cmd`blocks
      ensures p == SkipEmpty(j.req.blocks, j.pos + 1) && At(cfg, cmd, j.req, p)
    {
      NextPlace(cfg, j.req, j.pos);
      p := SkipEmpty(j.req.blocks, j.pos + 1);
      var b := NextBlock(cmd.blocks[1..], j.req.blocks, j.pos + 1);
      CountBlock(cmd);
      cmd.blocks := b;
      assert PlaceOf(cmd) == PlaceAt(cfg, j.req, p);
    }

    /** The sectors of the block are done. */
    method CountBlock(cmd: Cmd)
      requires cmd.blocks != []
      modifies cmd`sector, cmd`sectorsDone
      ensures PlaceOf(cmd) == old(PlaceOf(cmd)).Past(cmd.blocks)
    {
      cmd.sector := (cmd.sector + cmd.blocks[0].sectors) % WORD32;
      cmd.sectorsDone := (cmd.sectorsDone + cmd.blocks[0].sectors) % WORD32;
    }

    method NextBlock(rest: seq<Block>, ghost blocks: seq<Block>, ghost pos: nat) returns (b: seq<Block>)
      requires pos <= |blocks| && rest == blocks[pos..]
      ensures b == blocks[SkipEmpty(blocks, pos)..]
    {
      b := rest;
      ghost var p: nat := pos;
      while b != [] && b[0].sectors == 0
        invariant p <= |blocks| && b == blocks[p..]
        invariant SkipEmpty(blocks, p) == SkipEmpty(blocks, pos)
        decreases |b|
      {
        b := b[1..];
        p := p + 1;
      }
    }

    method HandleIrqInoutAdma2(cmd: Cmd, ghost j: Job) returns (more: bool)
      requires cfg.adma2 && WellFormed(cfg, j) && At(cfg, cmd, j.req, j.pos)
      requires cmd.op == OnWire(cfg, CmdOf(cfg, j)).op && !cmd.inoutCmd12
      requires j.phase.SetCount? ==> cmd.blockcnt == Sum(j.req.blocks) % WORD32
      modifies this`callbacks, cmd`op, cmd`arg, cmd`blockcnt, cmd`blocksize, cmd`hasData, cmd`autoCmd23,
               cmd`status, cmd`inoutCmd12
      ensures Went(cmd, AfterSuccess(cfg, j), more, j.req.id, old(callbacks))
    {
      if cmd.op != SetBlockCount {
        callbacks := callbacks + [Callback(cmd.cb.value, true, cmd.sectorsDone * SECTOR_SIZE)];
        return false;
      }
      var arg := cmd.sector * cfg.AddrMult() % WORD32;
      cmd.ReinitInoutData(if cmd.inoutRead then ReadMultiple else WriteMultiple, arg, cmd.blockcnt, false);
      cmd.inoutCmd12 := cmd.inoutCmd12 || !cfg.hasCmd23;
      return true;
    }

    /** The slot holds what a completed command leads to. */
    ghost predicate Led(cmd: Cmd, o: Outcome, more: bool, id: nat, before: seq<Callback>)
      reads this`callbacks, cmd
    {
      match o
      case Continue(j) => more && callbacks == before && Rep(cfg, cmd, Live(j, ReadyForSubmit))
      case Finish(ok, done) => !more && callbacks == before + [Callback(id, ok, ReportBytes(done))]
    }

    /** A command of an inout request has completed. */
    method Proceed(cmd: Cmd, ghost j: Job, ghost ok: bool) returns (more: bool)
      requires WellFormed(cfg, j) && Holds(cfg, cmd, j)
      requires if ok then cmd.status == Success else cmd.status.IsError()
      modifies this`callbacks, cmd
      ensures cmd.enqueued == old(cmd.enqueued)
      ensures Led(cmd, Next(cfg, j, ok), more, j.req.id, old(callbacks))
    {
      NextCases(cfg, j, ok);
      if cmd.inoutCmd12 {
        SendStop(cmd, j, ok);
        more := true;
      } else {
        if cmd.op == StopRead || cmd.op == StopWrite {
          cmd.status := cmd.statusCmd12;
        }
        more := Closed(cmd, j, if j.phase.Stop? then j.phase.ok else ok);
      }
    }

    /** Close the transfer with CMD12, and remember its outcome. */
    method SendStop(cmd: Cmd, ghost j: Job, ghost ok: bool)
      requires WellFormed(cfg, j) && Holds(cfg, cmd, j) && cmd.inoutCmd12
      requires if ok then cmd.status == Success else cmd.status.IsError()
      modifies cmd
      ensures cmd.enqueued == old(cmd.enqueued)
      ensures Rep(cfg, cmd, Live(j.(phase := Stop(ok)), ReadyForSubmit))
    {
      cmd.inoutCmd12 := false;
      cmd.statusCmd12 := cmd.status;
      cmd.ReinitInoutNodata(if cmd.inoutRead then StopRead else StopWrite, 0);
    }

    /** The transfer, or a CMD23, is over with outcome `ok`. */
    method Closed(cmd: Cmd, ghost j: Job, ghost ok: bool) returns (more: bool)
      requires WellFormed(cfg, j) && Holds(cfg, cmd, j) && !cmd.inoutCmd12
      requires if ok then cmd.status == Success else cmd.status.IsError()
      modifies this`callbacks, cmd
      ensures cmd.enqueued == old(cmd.enqueued)
      ensures Led(cmd, AfterCommand(cfg, j, ok), more, j.req.id, old(callbacks))
    {
      if cmd.status.IsError() {
        callbacks := callbacks + [Callback(cmd.cb.value, false, cmd.sectorsDone * SECTOR_SIZE)];
        return false;
      }
      if cfg.adma2 {
        more := HandleIrqInoutAdma2(cmd, j);
      } else {
        more := HandleIrqInoutSdma(cmd, j);
      }
      if more {
        ArmedRep(cfg, cmd, AfterSuccess(cfg, j).job);
      }
    }

    /** Submit a command that is ready; `threw` if the controller cannot take it. An SDMA
        transfer starts at the memory of its first block; the address has been written
        even if the block count is refused then. */
    method CmdSubmit(cmd: Cmd, ghost j: Job) returns (threw: bool)
      requires WellFormed(cfg, j) && Rep(cfg, cmd, Live(j, ReadyForSubmit))
      modifies this`bus, this`dsAddr, cmd`status, cmd`dataPhys
      ensures threw <==> SubmitFails(cfg, CmdOf(cfg, j))
      ensures threw ==> bus == old(bus) && Rep(cfg, cmd, Live(j, ReadyForSubmit))
      ensures !threw ==> bus == old(bus) + [OnWire(cfg, CmdOf(cfg, j))] && Rep(cfg, cmd, Live(j, ProgressCmd))
      ensures !threw && !cfg.adma2 && j.phase.Data? ==>
                Sdma(View(cmd), dsAddr)
                == Submit(j.req.blocks[j.pos].addr, j.req.blocks[j.pos].sectors, SECTOR_SIZE, cfg.dma.offset)
      ensures if !cfg.adma2 && j.phase.Data?
              then cmd.dataPhys == Wrap(j.req.blocks[j.pos].addr) && dsAddr == Wrap(cmd.dataPhys + cfg.dma.offset)
              else cmd.dataPhys == old(cmd.dataPhys) && dsAddr == old(dsAddr)
    {
      RefusedMeans(cfg, CmdOf(cfg, j));
      if cmd.hasData {
        if !cfg.adma2 {
          cmd.dataPhys := Wrap(cmd.blocks[0].addr);
          dsAddr := Wrap(cmd.dataPhys + cfg.dma.offset);
        } else if !BuildOk(cfg.dma, cmd.blocks, 0, 0) {
          return true;
        }
        if cmd.blockcnt > MAX_BLOCKS {
          return true;
        }
      }
      bus := bus + [WireOf(cmd)];
      cmd.status := ProgressCmd;
      return false;
    }

    /** Submit the head of the queue if it is ready, and unmask the interrupt. */
    method CmdQueueKick() returns (threw: bool)
      requires cfg.maxSeg > 0 && Ring() && Match(0) && Logs() && AllProper(cfg, sys.queue)
      modifies this`unmasked, this`bus, this`dsAddr, this`sys, queue.cmds
      ensures Ring() && Match(0) && Logs()
      ensures sys == Kick(cfg, old(sys)).sys && threw == Kick(cfg, old(sys)).threw
    {
      var head := queue.Working();
      if head.None? || head.value.status != ReadyForSubmit {
        return false;
      }
      KickHead(cfg, sys);
      ghost var j := sys.queue[0].job;
      threw := SubmitHead(head.value, j, Submitted(cfg, sys, j));
    }

    twostate lemma RingKept()
      requires old(Ring()) && slots == old(slots) && unchanged(queue)
      requires forall c | c in queue.cmds :: c.enqueued == old(c.enqueued)
      ensures Ring()
    {
      assert queue.FlagsMark();
    }

    /** Only the head's slot has changed. */
    twostate lemma HeadChanged(cmd: Cmd)
      requires old(Ring()) && old(Match(1)) && slots == old(slots) && slots != [] && cmd == slots[0]
      requires forall c | c in slots && c != cmd :: unchanged(c)
      requires sys.queue != [] && sys.queue[1..] == old(sys.queue)[1..] && Rep(cfg, cmd, sys.queue[0])
      ensures Match(0)
    {
      forall i | 0 <= i < |slots| ensures Rep(cfg, slots[i], sys.queue[i]) {
        if i > 0 {
          assert sys.queue[i] == sys.queue[1..][i - 1] == old(sys.queue)[1..][i - 1];
          assert slots[i] != cmd;
        }
      }
    }

    /** Submit the command of the head's slot. */
    method SubmitSlot(cmd: Cmd, ghost j: Job) returns (threw: bool)
      requires Ring() && WellFormed(cfg, j) && Rep(cfg, cmd, Live(j, ReadyForSubmit))
      modifies this`bus, this`dsAddr, cmd`status, cmd`dataPhys
      ensures Ring() && (threw <==> SubmitFails(cfg, CmdOf(cfg, j)))
      ensures Rep(cfg, cmd, Live(j, if threw then ReadyForSubmit else ProgressCmd))
      ensures bus == old(bus) + if threw then [] else [OnWire(cfg, CmdOf(cfg, j))]
    {
      threw := CmdSubmit(cmd, j);
      RingKept();
    }

    method SubmitHead(cmd: Cmd, ghost j: Job, ghost next: Sys) returns (threw: bool)
      requires Ring() && Match(0) && Logs()
      requires slots != [] && cmd == slots[0] && WellFormed(cfg, j) && sys.queue[0] == Live(j, ReadyForSubmit)
      requires next.queue != [] && next.queue[0] == Live(j, ProgressCmd) && next.queue[1..] == sys.queue[1..]
      requires next.unmasked && next.bus == sys.bus + [CmdOf(cfg, j)] && next.reports == sys.reports
      modifies this`unmasked, this`bus, this`dsAddr, this`sys, cmd`status, cmd`dataPhys
      ensures Ring() && Match(0) && Logs()
      ensures threw <==> SubmitFails(cfg, CmdOf(cfg, j))
      ensures sys == if threw then old(sys) else next
    {
      LogSnoc(cfg, sys.bus, CmdOf(cfg, j));
      threw := SubmitSlot(cmd, j);
      if !threw {
        unmasked := true;
        sys := next;
      }
      HeadChanged(cmd);
    }

    /** The slot of the head can be used again, once it is no longer worked on. */
    method Recycle(cmd: Cmd)
      requires queue.Valid() && queue.FlagsMark() && slots != [] && cmd == slots[0]
      requires queue.Live() == slots && queue.Work() == slots[1..]
      requires forall i, k | 0 <= i < k < |slots| :: slots[i] != slots[k]
      requires forall i | 0 <= i < |slots| :: slots[i] in queue.cmds
      modifies this`slots, queue`destruct, cmd
      ensures Ring() && slots == old(slots)[1..]
    {
      var destructed := queue.Destruct(cmd);
      assert destructed;
      slots := slots[1..];
    }

    /** The slot is no longer worked on and can be used again; `work_done` throws unless it
        is that of the head. */
    method FreeSlot(cmd: Cmd) returns (ok: bool)
      requires Ring() && cmd in slots
      modifies this`slots, queue`working, queue`destruct, cmd
      ensures Ring() && (ok <==> cmd == old(slots)[0])
      ensures slots == if ok then old(slots)[1..] else old(slots)
      ensures !ok ==> unchanged(cmd)
    {
      ok := queue.WorkDone(cmd);
      assert queue.FlagsMark();
      if ok {
        Recycle(cmd);
      }
    }

    /** What the slots hold after the head's slot has been freed. */
    twostate lemma HeadFreed(cmd: Cmd)
      requires old(Ring()) && old(Match(1)) && old(slots) != [] && cmd == old(slots)[0] && slots == old(slots)[1..]
      requires forall c | c in queue.cmds && c != cmd :: unchanged(c)
      requires |old(slots)| == |old(sys.queue)| && sys.queue == old(sys.queue)[1..]
      ensures Match(0)
    {
      forall i | 0 <= i < |slots| ensures Rep(cfg, slots[i], sys.queue[i]) {
        assert slots[i] == old(slots)[i + 1] && sys.queue[i] == old(sys.queue)[i + 1];
        assert slots[i] != cmd;
      }
    }

    /** The head's slot is freed, its request has just been reported. */
    method Retire(cmd: Cmd, ghost r: Report, ghost next: Sys)
      requires Ring() && Match(1) && slots != [] && cmd == slots[0]
      requires unmasked == sys.unmasked && bus == WireLog(cfg, sys.bus)
      requires callbacks == CallbackLog(sys.reports) + [Told(r)]
      requires next.queue == sys.queue[1..] && next.reports == sys.reports + [r]
      requires next.unmasked == sys.unmasked && next.bus == sys.bus
      modifies this`slots, this`sys, queue`working, queue`destruct, cmd
      ensures Ring() && Match(0) && Logs() && sys == next
    {
      CallbackSnoc(sys.reports, r);
      var ok := FreeSlot(cmd);
      assert ok;
      sys := next;
      HeadFreed(cmd);
    }

    /** The head's slot holds its next command. */
    ghost method Resume(cmd: Cmd, next: Sys)
      requires Ring() && Match(1) && Logs() && slots != [] && cmd == slots[0]
      requires next.queue != [] && next.queue[1..] == sys.queue[1..] && Rep(cfg, cmd, next.queue[0])
      requires next.unmasked == sys.unmasked && next.bus == sys.bus && next.reports == sys.reports
      modifies this`sys
      ensures Ring() && Match(0) && Logs() && sys == next
    {
      sys := next;
      RingKept();
      HeadChanged(cmd);
    }

    /** The command of the head has completed, the next one is not yet submitted. */
    method CompleteHead(cmd: Cmd, ghost j: Job, ghost ok: bool, ghost next: Sys)
      requires Ring() && Match(1) && Logs() && slots != [] && cmd == slots[0]
      requires WellFormed(cfg, j) && Holds(cfg, cmd, j) && Follows(cfg, sys, j, ok, next)
      requires if ok then cmd.status == Success else cmd.status.IsError()
      modifies this`slots, this`callbacks, this`sys, queue`working, queue`destruct, queue.cmds
      ensures Ring() && Match(0) && Logs() && sys == next
    {
      ghost var o := Next(cfg, j, ok);
      var more := Proceed(cmd, j, ok);
      RingKept();
      if more {
        Resume(cmd, next);
      } else {
        Retire(cmd, Report(j.req.id, o.ok, o.done), next);
      }
    }

    /** The command of the head has completed. */
    method HandleIrqInout(cmd: Cmd, ghost j: Job, ghost ok: bool) returns (threw: bool)
      requires cfg.maxSeg > 0 && Ring() && Match(1) && Logs() && AllProper(cfg, sys.queue)
      requires slots != [] && cmd == slots[0] && sys.queue[0].Live? && sys.queue[0].job == j
      requires WellFormed(cfg, j) && Holds(cfg, cmd, j)
      requires if ok then cmd.status == Success else cmd.status.IsError()
      modifies this`slots, this`unmasked, this`bus, this`dsAddr, this`callbacks, this`sys,
               queue`working, queue`destruct, queue.cmds
      ensures Ring() && Match(0) && Logs()
      ensures sys == Complete(cfg, old(sys), ok).sys && threw == Complete(cfg, old(sys), ok).threw
    {
      CompletedFollows(cfg, sys, ok);
      CompleteHead(cmd, j, ok, Completed(cfg, sys, ok));
      threw := CmdQueueKick();
    }

    /** The controller driver's part of an interrupt, for the slot alone. */
    method SlotIrq(cmd: Cmd, w: Word, ghost j: Job, ghost st: Status) returns (threw: bool)
      requires Rep(cfg, cmd, Live(j, st)) && st.Progress()
      modifies this`dsAddr, cmd`status, cmd`blockcnt, cmd`dataPhys
      ensures WellFormed(cfg, j) && Holds(cfg, cmd, j)
      ensures !cfg.adma2 ==> Sdma(View(cmd), dsAddr) == StepSdma(old(Sdma(View(cmd), dsAddr)), w)
      ensures cmd.status == StatusAfter(st, HasData(cfg, j), w.bits)
      ensures if threw || cmd.status.Progress() then Rep(cfg, cmd, Live(j, cmd.status))
              else cmd.status == Success || cmd.status.IsError()
      ensures threw <==> Throws(st, HasData(cfg, j), w, cfg.adma2)
    {
      StatusCases(st, HasData(cfg, j), w, cfg.adma2);
      var written;
      threw, written := IrqMachine.HandleIrq(cmd, w, cfg.adma2);
      if written.Some? {
        dsAddr := written.value;
      }
    }

    /** The controller driver's part of an interrupt. */
    method DriverIrq(cmd: Cmd, w: Word, ghost j: Job, ghost st: Status) returns (threw: bool)
      requires Ring() && Match(0) && Logs() && slots != [] && cmd == slots[0]
      requires WellFormed(cfg, j) && sys.queue[0] == Live(j, st) && st.Progress()
      modifies this`unmasked, this`dsAddr, this`sys, cmd`status, cmd`blockcnt, cmd`dataPhys
      ensures Ring() && Match(1) && Logs() && Holds(cfg, cmd, j)
      ensures cmd.status == StatusAfter(st, HasData(cfg, j), w.bits) && sys == Masked(old(sys), cmd.status)
      ensures if threw || cmd.status.Progress() then Rep(cfg, cmd, sys.queue[0])
              else cmd.status == Success || cmd.status.IsError()
      ensures threw <==> Throws(st, HasData(cfg, j), w, cfg.adma2)
    {
      threw := SlotIrq(cmd, w, j, st);
      unmasked := false;
      sys := Masked(sys, cmd.status);
      HeadTouched(cmd);
    }

    /** Only the slot of the head and its place in the state machine have changed. */
    twostate lemma HeadTouched(cmd: Cmd)
      requires old(Ring()) && old(Match(1)) && slots == old(slots) && slots != [] && cmd == slots[0]
      requires unchanged(queue) && cmd.enqueued == old(cmd.enqueued)
      requires forall c | c in queue.cmds && c != cmd :: unchanged(c)
      requires sys.queue != [] && sys.queue[1..] == old(sys.queue)[1..]
      ensures Ring() && Match(1)
    {
      RingKept();
      OthersKept(cmd);
    }

    lemma HeadMatches()
      requires Match(1) && slots != [] && Rep(cfg, slots[0], sys.queue[0])
      ensures Match(0)
    {
    }

    twostate lemma OthersKept(cmd: Cmd)
      requires old(Ring()) && old(Match(1)) && slots == old(slots) && slots != [] && cmd == slots[0]
      requires forall c | c in slots && c != cmd :: unchanged(c)
      requires sys.queue != [] && sys.queue[1..] == old(sys.queue)[1..]
      ensures Match(1)
    {
      forall i | 1 <= i < |slots| ensures Rep(cfg, slots[i], sys.queue[i]) {
        assert sys.queue[i] == sys.queue[1..][i - 1] == old(sys.queue)[1..][i - 1];
        assert slots[i] != cmd;
      }
    }

    /** An interrupt is delivered, which masks it. An exception is caught and leaves it
        masked. */
    method HandleIrq(w: Word)
      requires Valid() && unmasked
      modifies this`slots, this`unmasked, this`bus, this`dsAddr, this`callbacks, this`sys,
               queue`working, queue`destruct, queue.cmds
      ensures Valid() && sys == Interrupt(cfg, old(sys), w).sys
    {
      ghost var j, st, r := sys.queue[0].job, sys.queue[0].status, Interrupt(cfg, sys, w);
      InterruptCases(cfg, sys, w);
      InterruptSound(cfg, sys, w);
      var cmd := queue.Working().value;
      var threw := DriverIrq(cmd, w, j, st);
      if !threw {
        Dispatch(cmd, j, r.sys);
      } else {
        HeadMatches();
      }
    }

    /** What the driver does when the controller driver has returned. */
    method Dispatch(cmd: Cmd, ghost j: Job, ghost next: Sys)
      requires cfg.maxSeg > 0 && Ring() && Match(1) && Logs() && AllProper(cfg, sys.queue) && !unmasked
      requires slots != [] && cmd == slots[0] && WellFormed(cfg, j) && Holds(cfg, cmd, j)
      requires sys.queue[0] == Live(j, cmd.status)
      requires if cmd.status.Progress() then Rep(cfg, cmd, sys.queue[0]) && next == sys.(unmasked := true)
               else && (cmd.status == Success || cmd.status.IsError())
                    && next == Complete(cfg, sys, cmd.status.Success?).sys
      modifies this`slots, this`unmasked, this`bus, this`dsAddr, this`callbacks, this`sys,
               queue`working, queue`destruct, queue.cmds
      ensures Ring() && Match(0) && Logs() && sys == next
    {
      if cmd.status.Progress() {
        HeadMatches();
        unmasked := true;
        sys := sys.(unmasked := true);
      } else {
        var threw := HandleIrqInout(cmd, j, cmd.status == Success);
      }
    }

    // ---- Arrival of a request ----

    /** Take a slot for a new request. */
    method NewSlot() returns (cmd: Option<Cmd>)
      requires Ring() && Match(0)
      modifies this`slots, queue`create, queue.cmds
      ensures Ring()
      ensures cmd.None? <==> |old(slots)| == ENTRIES - 1
      ensures if cmd.None? then Match(0) && slots == old(slots)
              else && MatchButLast() && slots == old(slots) + [cmd.value] && cmd.value in queue.cmds
                   && cmd.value.status == Uninitialized
    {
      var threw;
      cmd, threw := queue.Create();
      assert !threw;
      if cmd.Some? {
        slots := slots + [cmd.value];
        SlotTaken(cmd.value);
      }
    }

    /** A segment is larger than advertised. */
    method SizesExceeded(blocks: seq<Block>) returns (exceeded: bool)
      requires cfg.maxSeg > 0
      ensures exceeded == TooLarge(cfg, blocks)
      ensures exceeded <==> !SharesFit(cfg.dma, cfg.maxSeg, blocks)
    {
      TooLargeExact(cfg, blocks);
      var b := blocks;
      while b != []
        invariant TooLarge(cfg, b) == TooLarge(cfg, blocks)
        decreases |b|
      {
        if Size(b[0]) > MaxSize(cfg.dma, cfg.maxSeg) {
          return true;
        }
        b := b[1..];
      }
      return false;
    }

    /** Set the slot up for the first command of its request. */
    method Prepare(cmd: Cmd, req: Request)
      requires req.blocks != []
      modifies this`callbacks, cmd
      ensures callbacks == old(callbacks) && cmd.enqueued == old(cmd.enqueued)
      ensures Rep(cfg, cmd, Live(Start(cfg, req), ReadyForSubmit))
    {
      cmd.InitInout(req.sector, req.blocks, req.id, req.read);
      assert req.blocks[0..] == req.blocks;
      assert At(cfg, cmd, req, 0);
      if cfg.adma2 {
        SetBlockCountAdma2(cmd, req);
      } else {
        var more := TransferBlockSdma(cmd, req, 0);
      }
      ArmedRep(cfg, cmd, Start(cfg, req));
    }

    /** All slots but the last hold what the state machine says. */
    ghost predicate MatchButLast()
      reads this, slots
    {
      |slots| == |sys.queue| + 1 && forall i | 0 <= i < |sys.queue| :: Rep(cfg, slots[i], sys.queue[i])
    }

    twostate lemma SlotTaken(cmd: Cmd)
      requires old(Ring()) && old(Match(0)) && sys == old(sys) && slots == old(slots) + [cmd]
      requires forall c | c in old(slots) :: unchanged(c)
      ensures MatchButLast()
    {
      forall i | 0 <= i < |sys.queue| ensures Rep(cfg, slots[i], sys.queue[i]) {
        assert slots[i] in old(slots);
      }
    }

    /** Give the slot of a refused request back: works for the head of the queue only. */
    method GiveBack(cmd: Cmd, ghost before: Sys) returns (ok: bool)
      requires cfg.maxSeg > 0 && Ring() && Match(0) && Logs()
      requires |slots| == |before.queue| + 1 && cmd == slots[|before.queue|]
      requires before == sys.(queue := before.queue)
      modifies this`slots, this`sys, queue`working, queue`destruct, queue.cmds
      ensures Ring() && Match(0) && Logs()
      ensures (ok <==> before.queue == []) && sys == if ok then before else old(sys)
    {
      assert before.queue != [] ==> slots[0] != slots[|before.queue|];
      ok := FreeSlot(cmd);
      if ok {
        sys := before;
        assert slots == [];
      } else {
        SlotsKept();
      }
    }

    twostate lemma SlotsKept()
      requires old(Match(0)) && sys == old(sys) && slots == old(slots) && forall c | c in slots :: unchanged(c)
      ensures Match(0)
    {
      forall i | 0 <= i < |slots| ensures Rep(cfg, slots[i], sys.queue[i]) {
        assert slots[i] in slots;
      }
    }

    /** Undo the entry of a refused request. */
    method RollBack(cmd: Cmd, ghost before: Sys) returns (code: Code)
      requires cfg.maxSeg > 0 && Ring() && Match(0) && Logs() && AllProper(cfg, sys.queue)
      requires |slots| == |before.queue| + 1 && cmd == slots[|before.queue|]
      requires before == sys.(queue := before.queue)
      modifies this`slots, this`unmasked, this`bus, this`dsAddr, this`sys, queue`working, queue`destruct, queue.cmds
      ensures Ring() && Match(0) && Logs()
      ensures if before.queue == [] then code == Inval && sys == before else code == Thrown && sys == old(sys)
    {
      var ok := GiveBack(cmd, before);
      if !ok {
        return Thrown;
      }
      var threw := CmdQueueKick();
      return Inval;
    }

    /** The size check and, if it is passed, the first command. */
    method Load(cmd: Cmd, req: Request) returns (refused: bool)
      requires cfg.maxSeg > 0 && req.blocks != [] && cmd.status == Uninitialized
      modifies this`callbacks, cmd
      ensures callbacks == old(callbacks) && cmd.enqueued == old(cmd.enqueued)
      ensures refused == TooLarge(cfg, req.blocks) && Rep(cfg, cmd, EntryOf(cfg, req))
    {
      cmd.cb := Some(req.id);
      refused := SizesExceeded(req.blocks);
      if !refused {
        Prepare(cmd, req);
      }
    }

    /** Put the request into its slot. */
    method FillSlot(cmd: Cmd, req: Request) returns (refused: bool)
      requires cfg.maxSeg > 0 && Ring() && MatchButLast() && Logs() && req.blocks != []
      requires cmd == slots[|sys.queue|] && cmd.status == Uninitialized
      modifies this`callbacks, cmd
      ensures Ring() && MatchButLast() && Logs()
      ensures refused == TooLarge(cfg, req.blocks) && Rep(cfg, slots[|sys.queue|], EntryOf(cfg, req))
    {
      refused := Load(cmd, req);
      RingKept();
      assert forall i | 0 <= i < |sys.queue| :: slots[i] != cmd;
    }

    /** The state machine follows. */
    ghost method AddEntry(e: Entry)
      requires Ring() && MatchButLast() && Logs() && AllProper(cfg, sys.queue) && Proper(cfg, e)
      requires Rep(cfg, slots[|sys.queue|], e)
      modifies this`sys
      ensures Ring() && Match(0) && Logs() && sys == Append(cfg, old(sys), e)
    {
      ghost var n := |sys.queue|;
      sys := Append(cfg, sys, e);
      RingKept();
      forall i | 0 <= i < |slots| ensures Rep(cfg, slots[i], sys.queue[i]) {
        if i < n {
          assert sys.queue[i] == old(sys.queue)[i];
        } else {
          assert sys.queue[i] == e;
        }
      }
    }

    /** Take a slot and fill it; None if all slots are in use. */
    method Enqueue(req: Request) returns (slot: Option<Cmd>, refused: bool)
      requires cfg.maxSeg > 0 && Ring() && Match(0) && Logs() && req.blocks != [] && AllProper(cfg, sys.queue)
      modifies this`slots, this`callbacks, this`sys, queue`create, queue.cmds
      ensures Ring() && Match(0) && Logs()
      ensures slot.None? <==> |old(sys).queue| == ENTRIES - 1
      ensures if slot.None? then sys == old(sys)
              else && sys == Append(cfg, old(sys), EntryOf(cfg, req)) && refused == TooLarge(cfg, req.blocks)
                   && slots == old(slots) + [slot.value]
    {
      slot := NewSlot();
      if slot.None? {
        return slot, false;
      }
      refused := FillSlot(slot.value, req);
      AddEntry(EntryOf(cfg, req));
    }

    method InoutData(sector: nat, blocks: seq<Block>, cb: nat, read: bool) returns (code: Code)
      requires Valid() && blocks != []
      modifies this`slots, this`unmasked, this`bus, this`dsAddr, this`callbacks, this`sys,
               queue`create, queue`working, queue`destruct, queue.cmds
      ensures Valid() && (sys, code) == Arrive(cfg, old(sys), Request(sector, blocks, read, cb))
    {
      var req := Request(sector, blocks, read, cb);
      ArriveSound(cfg, sys, req);
      if |sys.queue| != ENTRIES - 1 {
        ArriveCases(cfg, sys, req);
      }
      var slot, failed := Enqueue(req);
      if slot.None? {
        return Busy;
      }
      if !failed {
        failed := CmdQueueKick();
      }
      if failed {
        code := RollBack(slot.value, old(sys));
      } else {
        code := Ok;
      }
    }

    /** A request, unless it has no block, or an interrupt, unless it is masked. */
    method Handle(e: Event)
      requires Valid()
      modifies this`slots, this`unmasked, this`bus, this`dsAddr, this`callbacks, this`sys,
               queue`create, queue`working, queue`destruct, queue.cmds
      ensures Valid() && sys == Respond(cfg, old(sys), e)
    {
      match e
      case Irq(w) =>
        if unmasked {
          HandleIrq(w);
        }
      case Arrival(req) =>
        if req.blocks != [] {
          var code := InoutData(req.sector, req.blocks, req.id, req.read);
        }
    }
  }

  /** A device that has been through the given events is in the state the theorems about
      runs speak of, and has put on the wire and told its clients what they say. */
  method Serve(cfg: Config, es: seq<Event>) returns (d: Device)
    requires cfg.maxSeg > 0
    ensures fresh(d) && d.cfg == cfg && d.Valid()
    ensures d.sys == FromStart(cfg, es).sys
    ensures d.bus == WireLog(cfg, FromStart(cfg, es).sys.bus)
    ensures d.callbacks == CallbackLog(FromStart(cfg, es).sys.reports)
  {
    d := new Device(cfg);
    var rest := es;
    while rest != []
      invariant d.cfg == cfg && fresh(d) && fresh(d.queue) && fresh(d.queue.cmds) && d.Valid()
      invariant RespondAll(cfg, d.sys, rest) == RespondAll(cfg, INIT, es)
      decreases |rest|
    {
      d.Handle(rest[0]);
      rest := rest[1..];
    }
    FirstGood(cfg);
    ExecuteResponds(cfg, FIRST, es);
  }
}
