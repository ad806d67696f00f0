/** What every run of the request engine keeps. */
module Safety {
  import opened Mmc
  import opened CmdQueue
  import opened Adma2
  import opened Capacity
  import opened IrqMachine
  import opened Protocol
  import opened Runs
  import opened Engine

  // ---- Health: the head is in progress, the others wait ----

  /** None of the commands still to come will be refused. */
  ghost predicate Fit(cfg: Config, e: Entry) {
    e.Live? && WellFormed(cfg, e.job) && NoneFails(cfg, Ahead(cfg, e.job))
  }

  ghost predicate AllReady(cfg: Config, q: seq<Entry>): (r: bool)
    ensures r ==> AllProper(cfg, q)
  {
    q == [] || (Fit(cfg, q[0]) && q[0].status.ReadyForSubmit? && AllReady(cfg, q[1..]))
  }

  ghost predicate Healthy(cfg: Config, s: Sys): (r: bool)
    ensures r ==> Sound(cfg, s)
  {
    if s.queue == [] then !s.unmasked
    else s.unmasked && Fit(cfg, s.queue[0]) && s.queue[0].status.Progress() && AllReady(cfg, s.queue[1..])
  }

  lemma {:induction false} ReadyAppend(cfg: Config, q: seq<Entry>, e: Entry)
    requires AllReady(cfg, q) && Fit(cfg, e) && e.status.ReadyForSubmit?
    ensures AllReady(cfg, q + [e])
  {
    if q == [] {
      assert (q + [e])[1..] == [];
    } else {
      assert (q + [e])[1..] == q[1..] + [e];
      ReadyAppend(cfg, q[1..], e);
    }
  }

  /** A head that is ready is submitted. */
  lemma {:induction false} KickHealthy(cfg: Config, s: Sys)
    requires AllReady(cfg, s.queue) && !s.unmasked
    ensures var k := Kick(cfg, s);
            && !k.threw && Healthy(cfg, k.sys) && |k.sys.queue| == |s.queue|
            && k.sys.bus == s.bus + if s.queue == [] then [] else [CmdOf(cfg, s.queue[0].job)]
  {
    if s.queue != [] {
      var k := Kick(cfg, s).sys;
      assert !SubmitFails(cfg, CmdOf(cfg, s.queue[0].job));
      assert k.queue[1..] == s.queue[1..];
    }
  }

  lemma {:induction false} NextFit(cfg: Config, j: Job, ok: bool)
    requires WellFormed(cfg, j) && NoneFails(cfg, Ahead(cfg, j)) && Next(cfg, j, ok).Continue?
    ensures NoneFails(cfg, Ahead(cfg, Next(cfg, j, ok).job))
  {
    NextAhead(cfg, j, ok);
    var j' := Next(cfg, j, ok).job;
    assert Ahead(cfg, j)[1..] == Ahead(cfg, j');
  }

  /** Requests within the advertised limits. */
  ghost predicate Within(cfg: Config, req: Request) {
    && cfg.Valid() && Admitted(cfg.dma, cfg.maxSeg, req.blocks)
    && (cfg.adma2 ==> Reachable(cfg.dma, req.blocks))
  }

  /** Requests the driver promises to serve. */
  ghost predicate Promised(cfg: Config, req: Request) {
    Within(cfg, req) && Roomy(cfg)
  }

  lemma {:induction false} NotTooLarge(cfg: Config, blocks: seq<Block>)
    requires cfg.maxSeg > 0
    ensures TooLarge(cfg, blocks) <==> exists b | b in blocks :: Size(b) > MaxSize(cfg.dma, cfg.maxSeg)
  {
    if blocks == [] {
    } else {
      NotTooLarge(cfg, blocks[1..]);
      assert forall b | b in blocks :: b == blocks[0] || b in blocks[1..];
      assert blocks[0] in blocks && forall b | b in blocks[1..] :: b in blocks;
    }
  }

  /** A request passes the size check if and only if each block would fit `maxSeg` times. */
  lemma {:induction false} TooLargeExact(cfg: Config, blocks: seq<Block>)
    requires cfg.maxSeg > 0
    ensures TooLarge(cfg, blocks) <==> !SharesFit(cfg.dma, cfg.maxSeg, blocks)
  {
    NotTooLarge(cfg, blocks);
    forall b | b in blocks ensures Size(b) > MaxSize(cfg.dma, cfg.maxSeg) <==> Size(b) * cfg.maxSeg > Total(cfg.dma) {
      MaxSizeExact(cfg.dma, cfg.maxSeg, Size(b));
    }
  }

  lemma {:induction false} StartFit(cfg: Config, req: Request)
    requires Promised(cfg, req)
    ensures Fit(cfg, Live(Start(cfg, req), ReadyForSubmit)) && !TooLarge(cfg, req.blocks)
  {
    PlanFits(cfg, req);
    StartAhead(cfg, req);
    NotTooLarge(cfg, req.blocks);
  }

  /** A request that is not refused is submitted if the queue was empty, and queued
      behind a head in progress otherwise. */
  lemma {:induction false} QueueHealthy(cfg: Config, s: Sys, e: Entry)
    requires Healthy(cfg, s) && Fit(cfg, e) && e.status.ReadyForSubmit?
    ensures var k := Kick(cfg, Append(cfg, s, e));
            && !k.threw && Healthy(cfg, k.sys)
            && k.sys.bus == s.bus + if s.queue == [] then [CmdOf(cfg, e.job)] else []
  {
    var s1 := Append(cfg, s, e);
    if s.queue == [] {
      assert s1.queue == [e] && s1.queue[1..] == [];
      KickHealthy(cfg, s1);
    } else {
      ReadyAppend(cfg, s.queue[1..], e);
      assert s1.queue[1..] == s.queue[1..] + [e];
    }
  }

  /** A promised request is accepted unless 31 requests are waiting. */
  lemma {:induction false} ArriveHealthy(cfg: Config, s: Sys, req: Request)
    requires Promised(cfg, req) && Healthy(cfg, s)
    ensures var (s', code) := Arrive(cfg, s, req);
            && Healthy(cfg, s')
            && code == (if |s.queue| == ENTRIES - 1 then Busy else Ok)
            && (code == Busy ==> s' == s)
  {
    if |s.queue| != ENTRIES - 1 {
      StartFit(cfg, req);
      QueueHealthy(cfg, s, Live(Start(cfg, req), ReadyForSubmit));
    }
  }

  /** An interrupt keeps the engine healthy unless the handler throws; then, and only
      then, the interrupt stays masked with the request still at the head: in progress
      after a DMA boundary, failed after a reset that did not end. */
  lemma {:induction false} InterruptHealthy(cfg: Config, s: Sys, w: Word)
    requires Healthy(cfg, s) && s.queue != []
    ensures var j, st := s.queue[0].job, s.queue[0].status;
            var st' := StatusAfter(st, HasData(cfg, j), w.bits);
            var glitch := Throws(st, HasData(cfg, j), w, cfg.adma2);
            var r := Interrupt(cfg, s, w);
            && (r.threw <==> glitch) && (Healthy(cfg, r.sys) <==> !glitch)
            && (glitch ==> r.sys == s.(queue := [Live(j, st')] + s.queue[1..], unmasked := false))
            && (glitch ==> (if ResetFails(st, HasData(cfg, j), w) then st'.IsError() else st'.Progress()))
  {
    var j, st, rest := s.queue[0].job, s.queue[0].status, s.queue[1..];
    var st' := StatusAfter(st, HasData(cfg, j), w.bits);
    var s' := s.(queue := [Live(j, st')] + rest, unmasked := false);
    assert s'.queue[1..] == rest;
    if !Throws(st, HasData(cfg, j), w, cfg.adma2) && !st'.Progress() {
      CompleteHealthy(cfg, s', st'.Success?);
    }
  }

  lemma {:induction false} CompleteHealthy(cfg: Config, s: Sys, ok: bool)
    requires s.queue != [] && Fit(cfg, s.queue[0]) && AllReady(cfg, s.queue[1..]) && !s.unmasked
    ensures !Complete(cfg, s, ok).threw && Healthy(cfg, Complete(cfg, s, ok).sys)
  {
    var j, rest := s.queue[0].job, s.queue[1..];
    match Next(cfg, j, ok)
    case Continue(j') =>
      NextFit(cfg, j, ok);
      var q := [Live(j', ReadyForSubmit)] + rest;
      assert q[1..] == rest;
      KickHealthy(cfg, s.(queue := q, cur := s.cur + [ok]));
    case Finish(r, done) =>
      KickHealthy(cfg, s.(queue := rest, reports := s.reports + [Report(j.req.id, r, done)],
                          past := s.past + [Ended(j.req, s.cur + [ok])], cur := []));
  }
}
