/** Refused requests: when the roll-back works, and what happens when it does not; and
    when an accepted request stops the engine. */
module Refusal {
  import opened Mmc
  import opened CmdQueue
  import opened Adma2
  import opened Capacity
  import opened IrqMachine
  import opened Protocol
  import opened Runs
  import opened Engine
  import opened Safety
  import opened History

  /** A healthy engine turns a request away if 31 are queued. It refuses one with a segment
      that is too large, and one whose first command cannot be submitted if it is to be
      submitted at once. The roll-back
      restores the state if and only if no other request is in the queue; otherwise an
      exception leaves `inout_data` and the slot is lost. */
  lemma {:induction false} RefusalExact(cfg: Config, s: Sys, req: Request)
    requires cfg.maxSeg > 0 && req.blocks != [] && Healthy(cfg, s)
    ensures var (s', code) := Arrive(cfg, s, req);
            var full := |s.queue| == 31;
            var refused := && !full
                           && (|| !SharesFit(cfg.dma, cfg.maxSeg, req.blocks)
                               || (s.queue == [] && SubmitFails(cfg, CmdOf(cfg, Start(cfg, req)))));
            && (code == Busy <==> full) && (full ==> s' == s)
            && (code == Ok <==> !refused && !full)
            && (refused ==> code == (if s.queue == [] then Inval else Thrown))
            && (refused ==> (s' == s <==> s.queue == []))
            && (code == Thrown ==> s' == s.(queue := s.queue + [Dead(req)]))
  {
    TooLargeExact(cfg, req.blocks);
    var e := Live(Start(cfg, req), ReadyForSubmit);
    var s1 := Append(cfg, s, e);
    if s.queue == [] {
      assert s1.queue == [e];
    } else {
      assert s1.queue[0] == s.queue[0];
    }
  }

  // ---- A lost slot ----

  ghost predicate HasDead(q: seq<Entry>) {
    q != [] && (q[0].Dead? || HasDead(q[1..]))
  }

  /** Position of the first lost slot. */
  ghost function FirstDead(q: seq<Entry>): (k: nat)
    requires HasDead(q)
    ensures k < |q| && q[k].Dead?
  {
    if q[0].Dead? then 0 else 1 + FirstDead(q[1..])
  }

  lemma {:induction false} DeadAppend(q: seq<Entry>, e: Entry)
    requires HasDead(q)
    ensures HasDead(q + [e]) && FirstDead(q + [e]) == FirstDead(q)
  {
    assert (q + [e])[1..] == q[1..] + [e];
    if q[0].Dead? {
    } else {
      DeadAppend(q[1..], e);
    }
  }

  /** Reports sent, plus requests that are still ahead of the lost slot. */
  ghost function Answerable(s: Sys): nat
    requires HasDead(s.queue)
  {
    |s.reports| + FirstDead(s.queue)
  }

  lemma {:induction false} KickDead(cfg: Config, s: Sys)
    requires AllProper(cfg, s.queue) && HasDead(s.queue)
    ensures var k := Kick(cfg, s).sys; HasDead(k.queue) && Answerable(k) == Answerable(s)
  {
    var k := Kick(cfg, s).sys;
    assert k.queue[1..] == s.queue[1..];
  }

  lemma {:induction false} CompleteDead(cfg: Config, s: Sys, ok: bool)
    requires AllProper(cfg, s.queue) && HasDead(s.queue) && s.queue[0].Live?
    ensures var c := Complete(cfg, s, ok).sys; HasDead(c.queue) && Answerable(c) == Answerable(s)
  {
    var j, rest := s.queue[0].job, s.queue[1..];
    match Next(cfg, j, ok)
    case Continue(j') =>
      var q := [Live(j', ReadyForSubmit)] + rest;
      assert q[1..] == rest;
      KickDead(cfg, s.(queue := q, cur := s.cur + [ok]));
    case Finish(r, done) =>
      KickDead(cfg, s.(queue := rest, reports := s.reports + [Report(j.req.id, r, done)],
                       past := s.past + [Ended(j.req, s.cur + [ok])], cur := []));
  }

  lemma {:induction false} InterruptDead(cfg: Config, s: Sys, w: Word)
    requires Sound(cfg, s) && s.unmasked && HasDead(s.queue)
    ensures var c := Interrupt(cfg, s, w).sys; HasDead(c.queue) && Answerable(c) == Answerable(s)
  {
    var j, st, rest := s.queue[0].job, s.queue[0].status, s.queue[1..];
    var st' := StatusAfter(st, HasData(cfg, j), w.bits);
    var s' := s.(queue := [Live(j, st')] + rest, unmasked := false);
    assert s'.queue[1..] == rest;
    if !Throws(st, HasData(cfg, j), w, cfg.adma2) && !st'.Progress() {
      CompleteDead(cfg, s', st'.Success?);
    }
  }

  lemma {:induction false} ArriveDead(cfg: Config, s: Sys, req: Request)
    requires cfg.maxSeg > 0 && req.blocks != [] && AllProper(cfg, s.queue) && HasDead(s.queue)
    ensures var c := Arrive(cfg, s, req).0; HasDead(c.queue) && Answerable(c) == Answerable(s)
  {
    var e := Live(Start(cfg, req), ReadyForSubmit);
    DeadAppend(s.queue, e);
    DeadAppend(s.queue, Dead(req));
    KickDead(cfg, Append(cfg, s, e));
  }

  /** Once a slot is lost, only the requests ahead of it are ever answered: those behind
      it, and all later ones, wait forever. */
  lemma {:induction false} LostSlotBlocks(cfg: Config, s: Sys, es: seq<Event>)
    requires cfg.maxSeg > 0 && Sound(cfg, s) && HasDead(s.queue)
    ensures var s' := RespondAll(cfg, s, es);
            && HasDead(s'.queue) && Answerable(s') == Answerable(s)
            && |s'.reports| <= |s.reports| + FirstDead(s.queue)
    decreases |es|
  {
    if es == [] {
    } else {
      match es[0] {
        case Irq(w) =>
          if s.unmasked {
            InterruptDead(cfg, s, w);
          }
        case Arrival(req) =>
          if req.blocks != [] {
            ArriveDead(cfg, s, req);
          }
      }
      LostSlotBlocks(cfg, Respond(cfg, s, es[0]), es[1..]);
    }
  }

  // ---- The requests ahead of a lost slot ----

  /** `s` with further slots behind its own. */
  ghost function Followed(s: Sys, tail: seq<Entry>): Sys {
    s.(queue := s.queue + tail)
  }

  /** Slots of which the first is lost. */
  ghost predicate Lost(cfg: Config, tail: seq<Entry>) {
    tail != [] && tail[0].Dead? && AllProper(cfg, tail)
  }

  lemma {:induction false} ProperConcat(cfg: Config, q: seq<Entry>, tail: seq<Entry>)
    requires AllProper(cfg, q) && AllProper(cfg, tail)
    ensures AllProper(cfg, q + tail)
  {
    if q == [] {
      assert q + tail == tail;
    } else {
      assert (q + tail)[1..] == q[1..] + tail;
      ProperConcat(cfg, q[1..], tail);
    }
  }

  lemma {:induction false} FollowedSound(cfg: Config, s: Sys, tail: seq<Entry>)
    requires Sound(cfg, s) && Lost(cfg, tail)
    ensures Sound(cfg, Followed(s, tail))
  {
    ProperConcat(cfg, s.queue, tail);
    assert s.queue != [] ==> (s.queue + tail)[0] == s.queue[0];
  }

  lemma {:induction false} KickFollowed(cfg: Config, s: Sys, tail: seq<Entry>)
    requires AllProper(cfg, s.queue) && Lost(cfg, tail)
    ensures AllProper(cfg, s.queue + tail)
    ensures Kick(cfg, Followed(s, tail)).sys == Followed(Kick(cfg, s).sys, tail)
  {
    ProperConcat(cfg, s.queue, tail);
    if s.queue == [] {
      assert (s.queue + tail)[0] == tail[0];
    } else {
      var head := s.queue[0];
      assert (s.queue + tail)[0] == head && (s.queue + tail)[1..] == s.queue[1..] + tail;
      if head.Live? {
        var sent := head.(status := ProgressCmd);
        assert [sent] + (s.queue[1..] + tail) == ([sent] + s.queue[1..]) + tail;
      }
    }
  }

  lemma {:induction false} CompletedFollowed(cfg: Config, s: Sys, tail: seq<Entry>, ok: bool)
    requires AllProper(cfg, s.queue) && Lost(cfg, tail) && s.queue != [] && s.queue[0].Live?
    ensures AllProper(cfg, s.queue + tail)
    ensures Completed(cfg, Followed(s, tail), ok) == Followed(Completed(cfg, s, ok), tail)
  {
    ProperConcat(cfg, s.queue, tail);
    assert (s.queue + tail)[0] == s.queue[0] && (s.queue + tail)[1..] == s.queue[1..] + tail;
    var next := Next(cfg, s.queue[0].job, ok);
    if next.Continue? {
      var head := Live(next.job, ReadyForSubmit);
      assert [head] + (s.queue[1..] + tail) == ([head] + s.queue[1..]) + tail;
    }
  }

  lemma {:induction false} InterruptFollowed(cfg: Config, s: Sys, tail: seq<Entry>, w: Word)
    requires Sound(cfg, s) && s.unmasked && Lost(cfg, tail)
    ensures Sound(cfg, Followed(s, tail))
    ensures Interrupt(cfg, Followed(s, tail), w).sys == Followed(Interrupt(cfg, s, w).sys, tail)
  {
    FollowedSound(cfg, s, tail);
    var j, st := s.queue[0].job, s.queue[0].status;
    var st' := StatusAfter(st, HasData(cfg, j), w.bits);
    var q := [Live(j, st')] + s.queue[1..];
    assert (s.queue + tail)[0] == s.queue[0] && (s.queue + tail)[1..] == s.queue[1..] + tail;
    assert [Live(j, st')] + (s.queue[1..] + tail) == q + tail;
    var s' := s.(queue := q, unmasked := false);
    assert q[1..] == s.queue[1..];
    CompletedFollowed(cfg, s', tail, st'.Success?);
    KickFollowed(cfg, Completed(cfg, s', st'.Success?), tail);
  }

  /** A new request can only join the slots that wait forever. */
  lemma {:induction false} ArriveFollowed(cfg: Config, s: Sys, tail: seq<Entry>, req: Request)
    returns (tail': seq<Entry>)
    requires cfg.maxSeg > 0 && req.blocks != [] && Sound(cfg, s) && Lost(cfg, tail)
    ensures Lost(cfg, tail') && tail <= tail' && Sound(cfg, Followed(s, tail))
    ensures Arrive(cfg, Followed(s, tail), req).0 == Followed(s, tail')
  {
    FollowedSound(cfg, s, tail);
    tail' := tail;
    if |(s.queue + tail)| != ENTRIES - 1 {
      var e := if TooLarge(cfg, req.blocks) then Dead(req) else Live(Start(cfg, req), ReadyForSubmit);
      tail' := tail + [e];
      ProperAppend(cfg, tail, e);
      assert (s.queue + tail) + [e] == s.queue + tail';
      assert (s.queue + tail')[0] == (s.queue + tail)[0];
    }
  }

  /** The interrupts among the events. */
  function Irqs(es: seq<Event>): seq<Event> {
    if es == [] then []
    else if es[0].Irq? then [es[0]] + Irqs(es[1..]) else Irqs(es[1..])
  }

  /** The requests ahead of a lost slot do not notice it: whatever arrives meanwhile, they
      go on as if nothing were queued behind them. */
  lemma {:induction false} AheadGoesOn(cfg: Config, s: Sys, tail: seq<Entry>, es: seq<Event>)
    returns (tail': seq<Entry>)
    requires cfg.maxSeg > 0 && Sound(cfg, s) && Lost(cfg, tail)
    ensures Lost(cfg, tail') && tail <= tail' && Sound(cfg, Followed(s, tail))
    ensures RespondAll(cfg, Followed(s, tail), es) == Followed(RespondAll(cfg, s, Irqs(es)), tail')
    decreases |es|
  {
    FollowedSound(cfg, s, tail);
    if es == [] {
      tail' := tail;
    } else {
      var s', mid := s, tail;
      match es[0] {
        case Irq(w) =>
          assert Irqs(es)[1..] == Irqs(es[1..]);
          s' := Respond(cfg, s, es[0]);
          if s.unmasked {
            InterruptFollowed(cfg, s, tail, w);
          }
        case Arrival(req) =>
          if req.blocks != [] {
            mid := ArriveFollowed(cfg, s, tail, req);
          }
      }
      assert Respond(cfg, Followed(s, tail), es[0]) == Followed(s', mid);
      tail' := AheadGoesOn(cfg, s', mid, es[1..]);
    }
  }

  /** So the requests ahead of a lost slot are answered, each as without the lost slot, and
      after as many completions as they have commands left at the latest. */
  lemma {:induction false} AheadServed(cfg: Config, s: Sys, tail: seq<Entry>, es: seq<Event>, ws: seq<Word>)
    requires cfg.maxSeg > 0 && Healthy(cfg, s) && Lost(cfg, tail)
    requires Completing(cfg, s, ws) && Irqs(es) == Words(ws)
    ensures Sound(cfg, Followed(s, tail)) && |ws| <= WorkLeft(cfg, s.queue)
    ensures var t, alone := RespondAll(cfg, Followed(s, tail), es), RespondAll(cfg, s, Words(ws));
            && t.reports == alone.reports
            && |t.reports| + |alone.queue| == |s.reports| + |s.queue|
            && (|ws| == WorkLeft(cfg, s.queue) ==> |t.reports| == |s.reports| + |s.queue|)
  {
    var tail' := AheadGoesOn(cfg, s, tail, es);
    Drained(cfg, s, ws);
  }

  // ---- A stopped engine ----

  lemma {:induction false} StuckStep(cfg: Config, s: Sys, e: Event)
    requires cfg.maxSeg > 0 && Sound(cfg, s) && Stuck(s)
    ensures var t := Respond(cfg, s, e); Stuck(t) && t.reports == s.reports && t.bus == s.bus
  {
    if e.Arrival? {
      assert forall x | x in {Dead(e.req)} :: (s.queue + [x])[0] == s.queue[0];
      if e.req.blocks != [] {
        var x := Live(Start(cfg, e.req), ReadyForSubmit);
        assert (s.queue + [x])[0] == s.queue[0];
      }
    }
  }

  /** Once the interrupt stays masked with a request at the head, nothing is put on the bus
      and nothing is answered any more. */
  lemma {:induction false} StuckForever(cfg: Config, s: Sys, es: seq<Event>)
    requires cfg.maxSeg > 0 && Sound(cfg, s) && Stuck(s)
    ensures var t := RespondAll(cfg, s, es); Stuck(t) && t.reports == s.reports && t.bus == s.bus
    decreases |es|
  {
    if es == [] {
    } else {
      StuckStep(cfg, s, es[0]);
      StuckForever(cfg, Respond(cfg, s, es[0]), es[1..]);
    }
  }

  lemma {:induction false} CompleteStuck(cfg: Config, s: Sys, ok: bool)
    requires Active(s) && Recorded(cfg, s) && !s.unmasked
    ensures Stuck(Complete(cfg, s, ok).sys) <==> Complete(cfg, s, ok).threw
  {
    if Next(cfg, s.queue[0].job, ok).Continue? {
      assert Completed(cfg, s, ok).queue[0].status.ReadyForSubmit?;
    }
  }

  /** In any run the engine stops exactly when the interrupt handler throws: at a DMA
      boundary in ADMA2 mode, when the reset after an error does not end, or because the
      next command is refused. */
  lemma {:induction false} StuckExact(cfg: Config, s: Sys, w: Word)
    requires Sound(cfg, s) && Recorded(cfg, s) && s.unmasked
    ensures Stuck(Interrupt(cfg, s, w).sys) <==> Interrupt(cfg, s, w).threw
  {
    var j, st := s.queue[0].job, s.queue[0].status;
    var st' := StatusAfter(st, HasData(cfg, j), w.bits);
    var s' := s.(queue := [Live(j, st')] + s.queue[1..], unmasked := false);
    if !Throws(st, HasData(cfg, j), w, cfg.adma2) && !st'.Progress() {
      StatusRecorded(cfg, s, st', false);
      CompleteStuck(cfg, s', st'.Success?);
    }
  }

  /** A request does not stop the engine. */
  lemma {:induction false} ArriveNotStuck(cfg: Config, s: Sys, req: Request)
    requires cfg.maxSeg > 0 && req.blocks != [] && Sound(cfg, s)
    ensures Stuck(Arrive(cfg, s, req).0) <==> Stuck(s)
  {
    var e := Live(Start(cfg, req), ReadyForSubmit);
    if s.queue == [] {
      assert Append(cfg, s, e).queue == [e];
    } else {
      assert (s.queue + [e])[0] == s.queue[0] && (s.queue + [Dead(req)])[0] == s.queue[0];
    }
  }

  // ---- Which configurations can stop ----

  /** The interrupt of a command that ends well, in both phases at once. */
  const DONE := Word({CC, TC}, 0, true)

  lemma {:induction false} DoneSucceeds(hasData: bool, adma2: bool)
    ensures StatusAfter(ProgressCmd, hasData, DONE.bits) == Success && !Throws(ProgressCmd, hasData, DONE, adma2)
  {
  }

  lemma {:induction false} StatusForgotten(cfg: Config, s: Sys, st: Status, ok: bool)
    requires AllProper(cfg, s.queue) && s.queue != [] && s.queue[0].Live?
    ensures var q := [Live(s.queue[0].job, st)] + s.queue[1..];
            AllProper(cfg, q) && Completed(cfg, s.(queue := q), ok) == Completed(cfg, s, ok)
  {
    var q := [Live(s.queue[0].job, st)] + s.queue[1..];
    assert q[1..] == s.queue[1..];
  }

  lemma {:induction false} DoneCompletes(cfg: Config, s: Sys)
    requires cfg.maxSeg > 0 && Sound(cfg, s) && s.unmasked && s.queue[0].status.ProgressCmd?
    ensures Respond(cfg, s, Irq(DONE)) == Complete(cfg, s.(unmasked := false), true).sys
    ensures !Glitch(cfg, s, Irq(DONE))
  {
    DoneSucceeds(HasData(cfg, s.queue[0].job), cfg.adma2);
    StatusForgotten(cfg, s.(unmasked := false), Success, true);
  }

  const TINY := Request(0, [Block(0, 1)], true, 0)

  lemma {:induction false} TinySize(cfg: Config)
    requires cfg.Valid() && !Roomy(cfg)
    ensures SECTOR_SIZE <= MaxSize(cfg.dma, cfg.maxSeg)
    ensures (MAX_BLOCKS + 1) * SECTOR_SIZE <= (if cfg.adma2 then cfg.maxSeg else 1) * MaxSize(cfg.dma, cfg.maxSeg)
  {
    var n, m := if cfg.adma2 then cfg.maxSeg else 1, MaxSize(cfg.dma, cfg.maxSeg);
    LessFactor(0, m, n);
    ManySectors(n, m);
  }

  lemma {:induction false} TinyBuilds(cfg: Config)
    requires cfg.Valid() && !Roomy(cfg) && cfg.adma2
    ensures Reachable(cfg.dma, TINY.blocks) && BuildOk(cfg.dma, TINY.blocks, 0, 0)
  {
    var blocks := OversizedRequest(cfg.dma, cfg.maxSeg);
    EntriesSuffice(cfg.maxSeg, cfg.dma.bits64, SECTOR_SIZE);
    BuildFits(cfg.dma, TINY.blocks, 0, 0, 1, SECTOR_SIZE);
  }

  lemma {:induction false} TinyFits(cfg: Config)
    requires cfg.Valid() && !Roomy(cfg)
    ensures Within(cfg, TINY) && !TooLarge(cfg, TINY.blocks)
    ensures !SubmitFails(cfg, CmdOf(cfg, Start(cfg, TINY).(phase := Data)))
  {
    TinySize(cfg);
    NotTooLarge(cfg, TINY.blocks);
    if cfg.adma2 {
      TinyBuilds(cfg);
      assert TINY.blocks[0..] == TINY.blocks;
    }
  }

  lemma {:induction false} BigTransfer(cfg: Config, req: Request)
    requires req.blocks != [] && (if cfg.adma2 then Sum(req.blocks) else req.blocks[0].sectors) == MAX_BLOCKS + 1
    ensures SubmitFails(cfg, CmdOf(cfg, Start(cfg, req).(phase := Data)))
  {
  }

  /** A request within the limits whose transfer is refused. */
  lemma {:induction false} TooBig(cfg: Config) returns (req: Request)
    requires cfg.Valid() && !Roomy(cfg)
    ensures Within(cfg, req) && !TooLarge(cfg, req.blocks) && (!cfg.adma2 ==> req.blocks[0].sectors != 1)
    ensures SubmitFails(cfg, CmdOf(cfg, Start(cfg, req).(phase := Data)))
  {
    var blocks := [Block(0, MAX_BLOCKS + 1)];
    if cfg.adma2 {
      blocks := OversizedRequest(cfg.dma, cfg.maxSeg);
    } else {
      TinySize(cfg);
    }
    req := Request(0, blocks, true, 0);
    NotTooLarge(cfg, blocks);
    BigTransfer(cfg, req);
  }

  /** A request that finds the queue empty has its first command submitted. */
  lemma {:induction false} FirstArrival(cfg: Config, req: Request)
    requires cfg.maxSeg > 0 && req.blocks != [] && !TooLarge(cfg, req.blocks)
    requires !SubmitFails(cfg, CmdOf(cfg, Start(cfg, req)))
    ensures var s := Respond(cfg, INIT, Arrival(req));
            s.queue == [Live(Start(cfg, req), ProgressCmd)] && s.unmasked
  {
    var e := Live(Start(cfg, req), ReadyForSubmit);
    assert [] + [e] == [e] && [e][1..] == [];
  }

  /** The events are within the limits, the controller driver copes with them, and they
      lead to `s`. */
  ghost predicate LeadsTo(cfg: Config, es: seq<Event>, s: Sys)
    requires cfg.maxSeg > 0
  {
    Limited(cfg, es) && !Glitched(cfg, INIT, es) && RespondAll(cfg, INIT, es) == s
  }

  lemma {:induction false} RespondSnoc(cfg: Config, s: Sys, es: seq<Event>, e: Event)
    requires cfg.maxSeg > 0 && Sound(cfg, s)
    ensures RespondAll(cfg, s, es + [e]) == Respond(cfg, RespondAll(cfg, s, es), e)
    ensures Limited(cfg, es) && Limited(cfg, [e]) ==> Limited(cfg, es + [e])
    ensures Glitched(cfg, s, es + [e]) <==> Glitched(cfg, s, es) || Glitch(cfg, RespondAll(cfg, s, es), e)
    decreases |es|
  {
    if es == [] {
      assert es + [e] == [e] && [e][1..] == [];
    } else {
      assert (es + [e])[1..] == es[1..] + [e];
      RespondSnoc(cfg, Respond(cfg, s, es[0]), es[1..], e);
    }
  }

  lemma {:induction false} LeadsOn(cfg: Config, es: seq<Event>, s: Sys, e: Event)
    requires cfg.maxSeg > 0 && LeadsTo(cfg, es, s) && Limited(cfg, [e])
    requires Sound(cfg, s) && !Glitch(cfg, s, e)
    ensures LeadsTo(cfg, es + [e], Respond(cfg, s, e))
  {
    RespondSnoc(cfg, INIT, es, e);
  }

  /** CMD23 succeeds, then the transfer is refused. */
  lemma {:induction false} StallsAfterCount(cfg: Config, req: Request) returns (es: seq<Event>, s: Sys)
    requires cfg.Valid() && Within(cfg, req) && !TooLarge(cfg, req.blocks) && Start(cfg, req).phase.SetCount?
    requires SubmitFails(cfg, CmdOf(cfg, Start(cfg, req).(phase := Data)))
    ensures LeadsTo(cfg, es, s) && Stuck(s)
  {
    FirstArrival(cfg, req);
    var s1 := Respond(cfg, INIT, Arrival(req));
    LeadsOn(cfg, [], INIT, Arrival(req));
    DoneCompletes(cfg, s1);
    LeadsOn(cfg, [] + [Arrival(req)], s1, Irq(DONE));
    es, s := [] + [Arrival(req)] + [Irq(DONE)], Respond(cfg, s1, Irq(DONE));
  }

  /** A request that finds another one ahead of it is accepted. */
  lemma {:induction false} SecondArrival(cfg: Config, s: Sys, req: Request)
    requires cfg.maxSeg > 0 && req.blocks != [] && !TooLarge(cfg, req.blocks)
    requires Sound(cfg, s) && s.unmasked && |s.queue| == 1
    ensures Respond(cfg, s, Arrival(req)) == s.(queue := [s.queue[0], Live(Start(cfg, req), ReadyForSubmit)])
  {
    var e := Live(Start(cfg, req), ReadyForSubmit);
    assert s.queue + [e] == [s.queue[0], e];
  }

  /** A state in which the head is about to end and the next request about to be refused. */
  ghost predicate Doomed(cfg: Config, s: Sys) {
    && Sound(cfg, s) && |s.queue| == 2 && s.unmasked
    && s.queue[0].status.ProgressCmd? && s.queue[1].Live? && WellFormed(cfg, s.queue[1].job)
    && s.queue[1].status.ReadyForSubmit? && SubmitFails(cfg, CmdOf(cfg, s.queue[1].job))
  }

  lemma {:induction false} DoomedStalls(cfg: Config, es: seq<Event>, s: Sys) returns (es': seq<Event>, s': Sys)
    requires cfg.maxSeg > 0 && LeadsTo(cfg, es, s) && Doomed(cfg, s)
    requires Next(cfg, s.queue[0].job, true).Finish?
    ensures LeadsTo(cfg, es', s') && Stuck(s')
  {
    DoneCompletes(cfg, s);
    LeadsOn(cfg, es, s, Irq(DONE));
    es', s' := es + [Irq(DONE)], Respond(cfg, s, Irq(DONE));
  }

  /** CMD12 for the head comes first. */
  lemma {:induction false} DoomedStops(cfg: Config, es: seq<Event>, s: Sys) returns (es': seq<Event>, s': Sys)
    requires cfg.maxSeg > 0 && LeadsTo(cfg, es, s) && Doomed(cfg, s)
    requires cfg.adma2 && s.queue[0].job.phase.Data?
    ensures LeadsTo(cfg, es', s') && Stuck(s')
  {
    DoneCompletes(cfg, s);
    LeadsOn(cfg, es, s, Irq(DONE));
    var more, t := es + [Irq(DONE)], Respond(cfg, s, Irq(DONE));
    if UsesStop(cfg, s.queue[0].job) {
      assert t.queue[1..] == s.queue[1..];
      es', s' := DoomedStalls(cfg, more, t);
    } else {
      es', s' := DoomedStalls(cfg, es, s);
    }
  }

  /** The request waits behind another one, and is refused when its turn comes. */
  lemma {:induction false} StallsBehind(cfg: Config, req: Request) returns (es: seq<Event>, s: Sys)
    requires cfg.Valid() && !Roomy(cfg) && Within(cfg, req) && !TooLarge(cfg, req.blocks) && Start(cfg, req).phase.Data?
    requires SubmitFails(cfg, CmdOf(cfg, Start(cfg, req))) && (!cfg.adma2 ==> req.blocks[0].sectors != 1)
    ensures LeadsTo(cfg, es, s) && Stuck(s)
  {
    TinyFits(cfg);
    FirstArrival(cfg, TINY);
    var s1 := Respond(cfg, INIT, Arrival(TINY));
    LeadsOn(cfg, [], INIT, Arrival(TINY));
    SecondArrival(cfg, s1, req);
    var s2 := Respond(cfg, s1, Arrival(req));
    LeadsOn(cfg, [] + [Arrival(TINY)], s1, Arrival(req));
    if cfg.adma2 {
      es, s := DoomedStops(cfg, [] + [Arrival(TINY)] + [Arrival(req)], s2);
    } else {
      es, s := DoomedStalls(cfg, [] + [Arrival(TINY)] + [Arrival(req)], s2);
    }
  }

  // ---- Handlers that throw ----

  /** If the controller driver throws, the engine stops, whatever is queued. */
  lemma {:induction false} GlitchStalls(cfg: Config, s: Sys, es: seq<Event>)
    requires cfg.maxSeg > 0 && Sound(cfg, s) && Glitched(cfg, s, es)
    ensures Stuck(RespondAll(cfg, s, es))
    decreases |es|
  {
    if Glitch(cfg, s, es[0]) {
      StuckForever(cfg, Respond(cfg, s, es[0]), es[1..]);
    } else {
      GlitchStalls(cfg, Respond(cfg, s, es[0]), es[1..]);
    }
  }

  /** Where no command can be too large, requests within the limits and any interrupts
      stop the engine if and only if the controller driver throws for one of them. */
  lemma {:induction false} StallsExactly(cfg: Config, es: seq<Event>)
    requires cfg.maxSeg > 0 && Roomy(cfg) && Limited(cfg, es)
    ensures Stuck(RespondAll(cfg, INIT, es)) <==> Glitched(cfg, INIT, es)
  {
    if Glitched(cfg, INIT, es) {
      GlitchStalls(cfg, INIT, es);
    } else {
      RunsStayHealthy(cfg, es);
      FirstGood(cfg);
      ExecuteResponds(cfg, FIRST, es);
    }
  }

  const TIMEOUT := Word({CTOE}, 0, false)

  lemma {:induction false} TimeoutThrows(hasData: bool, adma2: bool)
    ensures StatusAfter(ProgressCmd, hasData, TIMEOUT.bits) == CmdTimeout
    ensures Throws(ProgressCmd, hasData, TIMEOUT, adma2)
  {
  }

  /** In any state a timeout after which the reset of the command line does not end stops
      the engine with the failed request at its head, never answered. */
  lemma {:induction false} ResetTimeoutStops(cfg: Config, s: Sys, more: seq<Event>)
    requires cfg.maxSeg > 0 && Sound(cfg, s) && s.unmasked && s.queue[0].status.ProgressCmd?
    ensures var s' := Respond(cfg, s, Irq(TIMEOUT));
            var t := RespondAll(cfg, s', more);
            && s' == s.(queue := [Live(s.queue[0].job, CmdTimeout)] + s.queue[1..], unmasked := false)
            && Stuck(t) && t.reports == s.reports && t.bus == s.bus
  {
    TimeoutThrows(HasData(cfg, s.queue[0].job), cfg.adma2);
    StuckForever(cfg, Respond(cfg, s, Irq(TIMEOUT)), more);
  }

  lemma {:induction false} SomeStall(cfg: Config) returns (es: seq<Event>)
    requires cfg.Valid() && !Roomy(cfg)
    ensures Limited(cfg, es) && !Glitched(cfg, INIT, es) && Stuck(RespondAll(cfg, INIT, es))
  {
    var s: Sys;
    var req := TooBig(cfg);
    if Start(cfg, req).phase.SetCount? {
      es, s := StallsAfterCount(cfg, req);
    } else {
      es, s := StallsBehind(cfg, req);
    }
  }

  /** Requests within the advertised limits stop the engine only when the controller driver
      throws in handling an interrupt. */
  ghost predicate StallFree(cfg: Config)
    requires cfg.maxSeg > 0
  {
    forall es | Limited(cfg, es) && !Glitched(cfg, INIT, es) :: !Stuck(RespondAll(cfg, INIT, es))
  }

  /** That is so if and only if no command they lead to can be too large. */
  lemma {:induction false} StallExact(cfg: Config)
    requires cfg.Valid()
    ensures StallFree(cfg) <==> Roomy(cfg)
  {
    if Roomy(cfg) {
      forall es | Limited(cfg, es) && !Glitched(cfg, INIT, es) ensures !Stuck(RespondAll(cfg, INIT, es)) {
        StallsExactly(cfg, es);
      }
    } else {
      var es := SomeStall(cfg);
    }
  }
}
