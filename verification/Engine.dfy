/** The request engine as a state machine: requests arrive, interrupts are delivered, and
    what every run keeps. */
module Engine {
  import opened Mmc
  import opened CmdQueue
  import opened Adma2
  import opened Capacity
  import opened IrqMachine
  import opened Protocol
  import opened Runs

  /** A slot of the ring: a request being processed, or one that was refused after its
      slot had been taken and that nobody will ever work on. */
  datatype Entry = Live(job: Job, status: Status) | Dead(req: Request)

  /** A finished request and the outcomes of its commands. */
  datatype Ended = Ended(req: Request, oks: seq<bool>)

  datatype Report = Report(id: nat, ok: bool, done: nat)

  /** `queue`, `unmasked` are the driver's state; `bus` and `reports` log what it sent to
      the card and to its clients; `past` and `cur` record the outcomes that led here,
      `cur` those of the head. */
  datatype Sys = Sys(queue: seq<Entry>, unmasked: bool, bus: seq<BusCmd>, reports: seq<Report>,
                     past: seq<Ended>, cur: seq<bool>)

  const INIT := Sys([], false, [], [], [], [])

  /** New state, and whether an exception was thrown. */
  datatype Ret = Ret(sys: Sys, threw: bool)

  /** Return code of `inout_data`; `Thrown` is an exception that leaves it. */
  datatype Code = Ok | Busy | Inval | Thrown

  ghost predicate Proper(cfg: Config, e: Entry) {
    e.Live? ==> WellFormed(cfg, e.job)
  }

  ghost predicate AllProper(cfg: Config, q: seq<Entry>) {
    q == [] || (Proper(cfg, q[0]) && AllProper(cfg, q[1..]))
  }

  predicate HasData(cfg: Config, j: Job)
    requires WellFormed(cfg, j)
  {
    j.phase.Data?
  }

  predicate TooLarge(cfg: Config, blocks: seq<Block>)
    requires cfg.maxSeg > 0
  {
    blocks != [] && (Size(blocks[0]) > MaxSize(cfg.dma, cfg.maxSeg) || TooLarge(cfg, blocks[1..]))
  }

  /** Submit the head if it is ready. */
  ghost function Kick(cfg: Config, s: Sys): (r: Ret)
    requires AllProper(cfg, s.queue)
    ensures AllProper(cfg, r.sys.queue)
  {
    if s.queue == [] || s.queue[0].Dead? || !s.queue[0].status.ReadyForSubmit? then Ret(s, false)
    else
      var c := CmdOf(cfg, s.queue[0].job);
      if SubmitFails(cfg, c) then Ret(s, true)
      else
        var head := s.queue[0].(status := ProgressCmd);
        Ret(s.(queue := [head] + s.queue[1..], unmasked := true, bus := s.bus + [c]), false)
  }

  /** A request arrives. The roll-back of a refused request works for the head only. */
  ghost function Arrive(cfg: Config, s: Sys, req: Request): (r: (Sys, Code))
    requires cfg.maxSeg > 0 && req.blocks != [] && AllProper(cfg, s.queue)
    ensures AllProper(cfg, r.0.queue)
  {
    if |s.queue| == ENTRIES - 1 then (s, Busy)
    else if TooLarge(cfg, req.blocks) then
      if s.queue == [] then (s, Inval) else (Append(cfg, s, Dead(req)), Thrown)
    else
      var k := Kick(cfg, Append(cfg, s, Live(Start(cfg, req), ReadyForSubmit)));
      if !k.threw then (k.sys, Ok) else if s.queue == [] then (s, Inval) else (k.sys, Thrown)
  }

  ghost function Append(cfg: Config, s: Sys, e: Entry): (r: Sys)
    requires AllProper(cfg, s.queue) && Proper(cfg, e)
    ensures AllProper(cfg, r.queue)
  {
    ProperAppend(cfg, s.queue, e);
    s.(queue := s.queue + [e])
  }

  lemma {:induction false} ProperAppend(cfg: Config, q: seq<Entry>, e: Entry)
    requires AllProper(cfg, q) && Proper(cfg, e)
    ensures AllProper(cfg, q + [e])
  {
    if q == [] {
      assert (q + [e])[1..] == [];
    } else {
      assert (q + [e])[1..] == q[1..] + [e];
      ProperAppend(cfg, q[1..], e);
    }
  }

  /** The head's command has completed with outcome `ok`: its next command is ready, or
      the request is reported and leaves the queue. */
  ghost function Completed(cfg: Config, s: Sys, ok: bool): (s': Sys)
    requires AllProper(cfg, s.queue) && s.queue != [] && s.queue[0].Live?
    ensures AllProper(cfg, s'.queue)
  {
    var req, rest := s.queue[0].job.req, s.queue[1..];
    match Next(cfg, s.queue[0].job, ok)
    case Continue(j) => s.(queue := [Live(j, ReadyForSubmit)] + rest, cur := s.cur + [ok])
    case Finish(r, done) =>
      s.(queue := rest, reports := s.reports + [Report(req.id, r, done)],
         past := s.past + [Ended(req, s.cur + [ok])], cur := [])
  }

  ghost function Complete(cfg: Config, s: Sys, ok: bool): (r: Ret)
    requires AllProper(cfg, s.queue) && s.queue != [] && s.queue[0].Live?
    ensures AllProper(cfg, r.sys.queue)
  {
    Kick(cfg, Completed(cfg, s, ok))
  }

  /** An interrupt is delivered, which masks it, while the head is in progress. */
  ghost function Interrupt(cfg: Config, s: Sys, w: Word): (r: Ret)
    requires AllProper(cfg, s.queue) && s.queue != [] && s.queue[0].Live? && s.queue[0].status.Progress()
    ensures AllProper(cfg, r.sys.queue)
  {
    var j, st, rest := s.queue[0].job, s.queue[0].status, s.queue[1..];
    var st' := StatusAfter(st, HasData(cfg, j), w.bits);
    var s' := s.(queue := [Live(j, st')] + rest, unmasked := false);
    if Throws(st, HasData(cfg, j), w, cfg.adma2) then Ret(s', true)
    else if st'.Progress() then Ret(s'.(unmasked := true), false)
    else Complete(cfg, s', st'.Success?)
  }

  // ---- Events ----

  datatype Event = Arrival(req: Request) | Irq(w: Word)

  /** A head that is ready has been tried: it was refused. */
  ghost predicate Tried(cfg: Config, s: Sys)
    requires AllProper(cfg, s.queue)
  {
    s.queue != [] && s.queue[0].Live? && s.queue[0].status.ReadyForSubmit? ==>
      SubmitFails(cfg, CmdOf(cfg, s.queue[0].job))
  }

  /** What holds in any run: the interrupt is unmasked only for a head in progress, and a
      head that could be submitted has been. */
  ghost predicate Sound(cfg: Config, s: Sys) {
    && AllProper(cfg, s.queue) && Tried(cfg, s)
    && (s.unmasked ==> s.queue != [] && s.queue[0].Live? && s.queue[0].status.Progress())
  }

  /** Interrupts and requests keep it. */
  lemma {:induction false} InterruptSound(cfg: Config, s: Sys, w: Word)
    requires Sound(cfg, s) && s.unmasked
    ensures Sound(cfg, Interrupt(cfg, s, w).sys)
  {
  }

  lemma {:induction false} ArriveSound(cfg: Config, s: Sys, req: Request)
    requires cfg.maxSeg > 0 && Sound(cfg, s) && req.blocks != []
    ensures Sound(cfg, Arrive(cfg, s, req).0)
  {
  }

  /** An interrupt that is masked is not delivered; a request has at least one block. */
  ghost function Respond(cfg: Config, s: Sys, e: Event): (s': Sys)
    requires cfg.maxSeg > 0 && Sound(cfg, s)
    ensures Sound(cfg, s')
  {
    match e
    case Irq(w) =>
      if !s.unmasked then s
      else
        InterruptSound(cfg, s, w);
        Interrupt(cfg, s, w).sys
    case Arrival(req) =>
      if req.blocks == [] then s
      else
        ArriveSound(cfg, s, req);
        Arrive(cfg, s, req).0
  }

  ghost function RespondAll(cfg: Config, s: Sys, es: seq<Event>): (s': Sys)
    requires cfg.maxSeg > 0 && Sound(cfg, s)
    ensures Sound(cfg, s')
    decreases |es|
  {
    if es == [] then s else RespondAll(cfg, Respond(cfg, s, es[0]), es[1..])
  }
}
