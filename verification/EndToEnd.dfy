/** From requests to the card: what a whole run of the engine does to card and memory. */
module EndToEnd {
  import opened Mmc
  import opened Memory
  import opened Adma2
  import opened Bounce
  import opened Protocol
  import opened Runs
  import opened Engine
  import opened History
  import opened Wires
  import C = Card
  import D = Device
  import F = Failures

  /** The request can be carried out, by SDMA or by ADMA2, on memory and card of this
      size. */
  ghost predicate Servable(cfg: Config, w: C.World, req: Request) {
    && req.blocks != [] && ClearOfBounce(cfg.dma, req.blocks)
    && C.Fits(w, C.Bytes(req.sector), req.blocks)
    && if cfg.adma2 then C.Adma2Ready(cfg, w, req) else C.SdmaReady(cfg, w, req)
  }

  predicate SameSize(w: C.World, x: C.World) {
    |w.mem| == |x.mem| && |w.table| == |x.table| && |w.card| == |x.card| && w.pending == x.pending && w.open == x.open
  }

  lemma {:induction false} ServableSame(cfg: Config, w: C.World, x: C.World, req: Request)
    requires Servable(cfg, w, req) && SameSize(w, x)
    ensures Servable(cfg, x, req)
  {
  }

  ghost function IdealOf(w: C.World, req: Request): C.World
    requires C.Fits(w, C.Bytes(req.sector), req.blocks)
  {
    C.Ideal(w, req.read, C.Bytes(req.sector), req.blocks)
  }

  /** One request on the card. */
  lemma {:induction false} OneRequest(cfg: Config, w: C.World, req: Request)
    requires Servable(cfg, w, req)
    ensures var r := C.ExecAll(cfg, w, Plan(cfg, req));
            r.Some? && C.Alike(cfg.dma, IdealOf(w, req), r.value)
  {
    if cfg.adma2 {
      C.Adma2Exec(cfg, w, req);
    } else {
      C.SdmaExact(cfg, w, req);
    }
  }

  /** What is in the bounce buffer makes no difference to an ideal transfer. */
  lemma {:induction false} IdealAlike(a: Dma, w: C.World, x: C.World, req: Request)
    requires C.Alike(a, w, x) && ClearOfBounce(a, req.blocks)
    requires C.Fits(w, C.Bytes(req.sector), req.blocks) && C.Fits(x, C.Bytes(req.sector), req.blocks)
    ensures C.Alike(a, IdealOf(w, req), IdealOf(x, req))
  {
    if req.read {
      ScatterSame(a.Bounce(), w.mem, x.mem, Client(req.blocks),
                  Read(w.card, Region(C.Bytes(req.sector), C.Bytes(Sum(req.blocks)))));
    } else {
      ClientClear(a, req.blocks);
      GatherSame(a.Bounce(), w.mem, x.mem, Client(req.blocks));
    }
  }

  lemma {:induction false} AlikeTrans(a: Dma, w: C.World, x: C.World, y: C.World)
    requires C.Alike(a, w, x) && C.Alike(a, x, y)
    ensures C.Alike(a, w, y)
  {
  }

  // ---- All requests, one after the other ----

  ghost predicate AllServable(cfg: Config, w: C.World, past: seq<Ended>) {
    past == [] || (var n := |past| - 1; Servable(cfg, w, past[n].req) && AllServable(cfg, w, past[..n]))
  }

  ghost function InOrder(cfg: Config, w: C.World, past: seq<Ended>): (x: C.World)
    requires AllServable(cfg, w, past)
    ensures SameSize(w, x)
  {
    if past == [] then w
    else
      var n := |past| - 1;
      var x := InOrder(cfg, w, past[..n]);
      ServableSame(cfg, w, x, past[n].req);
      IdealOf(x, past[n].req)
  }

  /** Every command of the request was issued and succeeded. */
  ghost predicate Succeeded(cfg: Config, e: Ended) {
    |e.oks| == |Plan(cfg, e.req)| && forall i | 0 <= i < |e.oks| :: e.oks[i]
  }

  ghost predicate AllSucceeded(cfg: Config, past: seq<Ended>) {
    past == [] || (var n := |past| - 1; Succeeded(cfg, past[n]) && AllSucceeded(cfg, past[..n]))
  }

  lemma {:induction false} LastOnCard(cfg: Config, w: C.World, x: C.World, y: C.World, e: Ended)
    requires Servable(cfg, w, e.req) && SameSize(w, x) && C.Alike(cfg.dma, x, y) && Succeeded(cfg, e)
    ensures Servable(cfg, x, e.req)
    ensures var r := C.ExecAll(cfg, y, RunOf(cfg, e.req, e.oks));
            r.Some? && C.Alike(cfg.dma, IdealOf(x, e.req), r.value)
  {
    ServableSame(cfg, w, x, e.req);
    ServableSame(cfg, w, y, e.req);
    SuccessReport(cfg, e.req, e.oks);
    OneRequest(cfg, y, e.req);
    IdealAlike(cfg.dma, x, y, e.req);
    AlikeTrans(cfg.dma, IdealOf(x, e.req), IdealOf(y, e.req), C.ExecAll(cfg, y, Plan(cfg, e.req)).value);
  }

  /** The bus log of finished requests, played to the card. */
  lemma {:induction false} PastOnCard(cfg: Config, w: C.World, past: seq<Ended>)
    requires AllServable(cfg, w, past) && AllSucceeded(cfg, past)
    ensures var r := C.ExecAll(cfg, w, PastBus(cfg, past));
            r.Some? && C.Alike(cfg.dma, InOrder(cfg, w, past), r.value)
  {
    if past == [] {
    } else {
      var n := |past| - 1;
      PastOnCard(cfg, w, past[..n]);
      var bus, run := PastBus(cfg, past[..n]), RunOf(cfg, past[n].req, past[n].oks);
      C.ExecAppend(cfg, w, bus, run);
      LastOnCard(cfg, w, InOrder(cfg, w, past[..n]), C.ExecAll(cfg, w, bus).value, past[n]);
    }
  }

  /** With an empty queue the bus has carried the runs of the requests that entered it,
      and these are the accepted ones. */
  lemma {:induction false} BusWhenIdle(cfg: Config, es: seq<Event>)
    requires cfg.maxSeg > 0 && FromStart(cfg, es).sys.queue == []
    ensures var x := FromStart(cfg, es);
            && x.sys.bus == PastBus(cfg, x.sys.past) && |x.sys.past| == |x.entered| == |x.accepted|
            && forall i | 0 <= i < |x.entered| :: x.sys.past[i].req == x.entered[i] && x.accepted[i]
  {
    EngineRuns(cfg, es);
  }

  // ---- On the wire ----

  /** No block count of a servable request is cut on its way to the controller. */
  lemma {:induction false} TraceUncut(cfg: Config, j: Job, oks: seq<bool>, c: BusCmd)
    requires WellFormed(cfg, j) && (cfg.adma2 ==> Sum(j.req.blocks) < WORD32) && c in Trace(cfg, j, oks)
    ensures C.Uncut(c)
    decreases |oks|
  {
    if c == CmdOf(cfg, j) {
    } else {
      assert oks != [] && Next(cfg, j, oks[0]).Continue?;
      TraceUncut(cfg, Next(cfg, j, oks[0]).job, oks[1..], c);
    }
  }

  lemma {:induction false} PastUncut(cfg: Config, w: C.World, past: seq<Ended>, c: BusCmd)
    requires AllServable(cfg, w, past) && c in PastBus(cfg, past)
    ensures C.Uncut(c)
    decreases |past|
  {
    var n := |past| - 1;
    if c in PastBus(cfg, past[..n]) {
      PastUncut(cfg, w, past[..n], c);
    } else {
      TraceUncut(cfg, Start(cfg, past[n].req), past[n].oks, c);
    }
  }

  /** The queue is empty, and no command has failed. */
  ghost predicate AllWell(cfg: Config, w: C.World, x: World) {
    x.sys.queue == [] && AllSucceeded(cfg, x.sys.past) && AllServable(cfg, w, x.sys.past)
  }

  /** After any sequence of requests and interrupts that leaves the queue empty and in
      which no command failed: what went over the wire has done to the card, and to memory
      outside the bounce buffer, what the accepted requests ask for, carried out one after
      the other in the order of their acceptance. */
  lemma {:induction false} RunsServeRequests(cfg: Config, w: C.World, es: seq<Event>)
    requires cfg.maxSeg > 0 && AllWell(cfg, w, FromStart(cfg, es))
    ensures var x := FromStart(cfg, es);
            var r := C.ExecWires(cfg, w, WireLog(cfg, x.sys.bus));
            && |x.sys.past| == |x.entered| == |x.accepted|
            && (forall i | 0 <= i < |x.entered| :: x.sys.past[i].req == x.entered[i] && x.accepted[i])
            && r.Some? && C.Alike(cfg.dma, InOrder(cfg, w, x.sys.past), r.value)
  {
    var x := FromStart(cfg, es);
    BusWhenIdle(cfg, es);
    PastOnCard(cfg, w, x.sys.past);
    forall c | c in x.sys.bus ensures C.Uncut(c) {
      PastUncut(cfg, w, x.sys.past, c);
    }
    C.WiresMean(cfg, w, x.sys.bus);
  }

  /** The same of the wire log of an object of class `Device` that has been through these
      events. */
  method Serve(cfg: Config, es: seq<Event>, ghost w: C.World) returns (d: D.Device)
    requires cfg.maxSeg > 0 && AllWell(cfg, w, FromStart(cfg, es))
    ensures fresh(d) && d.Valid() && d.sys == FromStart(cfg, es).sys
    ensures var r := C.ExecWires(cfg, w, d.bus);
            r.Some? && C.Alike(cfg.dma, InOrder(cfg, w, FromStart(cfg, es).sys.past), r.value)
  {
    RunsServeRequests(cfg, w, es);
    d := D.Serve(cfg, es);
  }

  // ---- Reports ----

  /** What the client is told of its request has happened between `w` and `w'`, and nothing
      else. In SDMA mode exactly the bytes it names have been transferred, and where the
      answer is negative only the block behind them may be spoiled. */
  ghost predicate Told(cfg: Config, w: C.World, req: Request, cb: D.Callback, w': C.World) {
    && Servable(cfg, w, req) && cb.id == req.id
    && if cfg.adma2 then cb.bytes == 0 && F.Adma2Effect(cfg, w, req, cb.ok, w')
       else exists k | 0 <= k <= |req.blocks| :: ToldUpTo(w, req, cb, k, w')
  }

  ghost predicate ToldUpTo(w: C.World, req: Request, cb: D.Callback, k: nat, w': C.World)
    requires k <= |req.blocks|
  {
    && (cb.bytes == Length(Client(req.blocks[..k])) <==> SumTo(req.blocks, k) < 0x1_0000_0000)
    && (cb.ok <==> k == |req.blocks|)
    && C.Fits(w, C.Bytes(req.sector), req.blocks[..k])
    && F.PartDone(w, req.read, C.Bytes(req.sector), req.blocks, k, w')
  }

  lemma {:induction false} RequestTold(cfg: Config, ws: seq<C.World>, req: Request, oks: seq<bool>, r: Report)
    requires ws != [] && Servable(cfg, ws[0], req) && Rightly(cfg, req, oks, r)
    requires F.Plays(cfg, ws, RunOf(cfg, req, oks), oks)
    ensures Told(cfg, ws[0], req, D.Told(r), ws[|ws| - 1])
  {
    RunMeaning(cfg, req, oks);
    if cfg.adma2 {
      F.Adma2Report(cfg, ws, req, oks);
    } else {
      var k := F.SdmaReport(cfg, ws, req, oks);
      D.ToldBytes(r, req.blocks, k);
      assert ToldUpTo(ws[0], req, D.Told(r), k, ws[|ws| - 1]);
    }
  }

  /** The same on a card that may wait for anything. */
  lemma {:induction false} AnyRequestTold(cfg: Config, ws: seq<C.World>, req: Request, oks: seq<bool>, r: Report)
    requires ws != [] && Servable(cfg, F.Resting(ws[0]), req) && Rightly(cfg, req, oks, r)
    requires F.Plays(cfg, ws, RunOf(cfg, req, oks), oks)
    ensures Told(cfg, F.Resting(ws[0]), req, D.Told(r), ws[|ws| - 1])
  {
    var vs := F.AnyStart(cfg, ws, req, oks);
    RequestTold(cfg, vs, req, oks, r);
  }

  /** Commands sent before request `i`. */
  ghost function Before(cfg: Config, past: seq<Ended>, i: nat): nat
    requires i <= |past|
  {
    |PastBus(cfg, past[..i])|
  }

  /** Each finished request has got the right report. */
  ghost predicate AllRightly(cfg: Config, past: seq<Ended>, reports: seq<Report>) {
    |past| == |reports| && forall i | 0 <= i < |past| :: Rightly(cfg, past[i].req, past[i].oks, reports[i])
  }

  lemma {:induction false} OutcomesFit(cfg: Config, past: seq<Ended>, reports: seq<Report>)
    requires AllRightly(cfg, past, reports)
    ensures |Outcomes(past)| == |PastBus(cfg, past)|
    decreases |past|
  {
    if past == [] {
    } else {
      OutcomesFit(cfg, past[..|past| - 1], reports[..|past| - 1]);
    }
  }

  /** All requests but the last and the last one, in a log and the worlds that go with
      it. */
  lemma {:induction false} LastPlays(cfg: Config, ws: seq<C.World>, past: seq<Ended>, reports: seq<Report>)
    requires past != [] && AllRightly(cfg, past, reports)
    requires F.Plays(cfg, ws, PastBus(cfg, past), Outcomes(past))
    ensures var n := |past| - 1;
            var at := Before(cfg, past, n);
            && at < |ws| && AllRightly(cfg, past[..n], reports[..n])
            && F.Plays(cfg, ws[..at + 1], PastBus(cfg, past[..n]), Outcomes(past[..n]))
            && F.Plays(cfg, ws[at..], RunOf(cfg, past[n].req, past[n].oks), past[n].oks)
            && C.SameSizes(ws[0], ws[at])
  {
    var n := |past| - 1;
    OutcomesFit(cfg, past[..n], reports[..n]);
    F.PlaysAppend(cfg, ws, PastBus(cfg, past[..n]), RunOf(cfg, past[n].req, past[n].oks), Outcomes(past[..n]),
                  past[n].oks);
    F.PlaysSizes(cfg, ws, PastBus(cfg, past), Outcomes(past), Before(cfg, past, n));
  }

  /** What client `i` is told is what happened to card and memory. */
  ghost predicate ToldAt(cfg: Config, ws: seq<C.World>, past: seq<Ended>, reports: seq<Report>, i: nat)
    requires i < |past| == |reports|
  {
    ToldBetween(cfg, ws, past[i].req, D.Told(reports[i]), Before(cfg, past, i), Before(cfg, past, i + 1))
  }

  ghost predicate ToldBetween(cfg: Config, ws: seq<C.World>, req: Request, cb: D.Callback, from: nat,
                              to: nat)
  {
    from < to < |ws| && Told(cfg, F.Resting(ws[from]), req, cb, ws[to])
  }

  lemma {:induction false} ToldLonger(cfg: Config, ws: seq<C.World>, at: nat, req: Request, cb: D.Callback,
                                      from: nat, to: nat)
    requires at < |ws| && ToldBetween(cfg, ws[..at + 1], req, cb, from, to)
    ensures ToldBetween(cfg, ws, req, cb, from, to)
  {
    assert ws[..at + 1][from] == ws[from] && ws[..at + 1][to] == ws[to];
  }

  lemma {:induction false} LastTold(cfg: Config, ws: seq<C.World>, past: seq<Ended>, reports: seq<Report>)
    requires past != [] && AllRightly(cfg, past, reports)
    requires F.Plays(cfg, ws, PastBus(cfg, past), Outcomes(past)) && AllServable(cfg, F.Resting(ws[0]), past)
    ensures ToldAt(cfg, ws, past, reports, |past| - 1)
  {
    var n := |past| - 1;
    var at := Before(cfg, past, n);
    var last := ws[at..];
    LastPlays(cfg, ws, past, reports);
    assert past[..n + 1] == past && last[0] == ws[at] && last[|last| - 1] == ws[|ws| - 1];
    ServableSame(cfg, F.Resting(ws[0]), F.Resting(last[0]), past[n].req);
    AnyRequestTold(cfg, last, past[n].req, past[n].oks, reports[n]);
  }

  /** Earlier requests do not depend on the last one. */
  lemma {:induction false} EarlierTold(cfg: Config, ws: seq<C.World>, past: seq<Ended>, reports: seq<Report>, i: nat,
                                       at: nat)
    requires |past| == |reports| && i < |past| - 1 && at < |ws|
    requires ToldAt(cfg, ws[..at + 1], past[..|past| - 1], reports[..|past| - 1], i)
    ensures ToldAt(cfg, ws, past, reports, i)
  {
    var n := |past| - 1;
    assert past[..n][..i] == past[..i] && past[..n][..i + 1] == past[..i + 1];
    ToldLonger(cfg, ws, at, past[i].req, D.Told(reports[i]), Before(cfg, past, i), Before(cfg, past, i + 1));
  }

  lemma {:induction false} PastTold(cfg: Config, ws: seq<C.World>, past: seq<Ended>, reports: seq<Report>, i: nat)
    requires AllRightly(cfg, past, reports) && i < |past|
    requires F.Plays(cfg, ws, PastBus(cfg, past), Outcomes(past)) && AllServable(cfg, F.Resting(ws[0]), past)
    ensures ToldAt(cfg, ws, past, reports, i)
    decreases |past|
  {
    var n := |past| - 1;
    if i == n {
      LastTold(cfg, ws, past, reports);
    } else {
      var at := Before(cfg, past, n);
      LastPlays(cfg, ws, past, reports);
      PastTold(cfg, ws[..at + 1], past[..n], reports[..n], i);
      EarlierTold(cfg, ws, past, reports, i, at);
    }
  }

  /** The worlds belong to the commands of the finished requests, which can be carried
      out. */
  ghost predicate Witnessed(cfg: Config, ws: seq<C.World>, past: seq<Ended>) {
    F.Plays(cfg, ws, PastBus(cfg, past), Outcomes(past)) && AllServable(cfg, F.Resting(ws[0]), past)
  }

  /** Every client that has entered so far and is not waiting any more has been told what
      happened to its request, in order of entry. */
  ghost predicate ClientsTold(cfg: Config, ws: seq<C.World>, entered: seq<Request>, past: seq<Ended>,
                              callbacks: seq<D.Callback>)
  {
    && |callbacks| == |past| <= |entered|
    && forall i | 0 <= i < |callbacks| ::
         ToldBetween(cfg, ws, entered[i], callbacks[i], Before(cfg, past, i), Before(cfg, past, i + 1))
  }

  /** Over any sequence of requests and interrupts, whatever commands fail: let `ws` be the
      contents of card and memory before, between and after the commands of the finished
      requests. What commands that fail leave behind, and what the card waits for after
      them, is open. Then what each client is told is what has happened while its request
      was being processed. */
  lemma {:induction false} ReportsTrue(cfg: Config, es: seq<Event>, ws: seq<C.World>)
    requires cfg.maxSeg > 0 && Witnessed(cfg, ws, FromStart(cfg, es).sys.past)
    ensures var x := FromStart(cfg, es);
            var s := x.sys;
            && PastBus(cfg, s.past) <= s.bus && |x.entered| == |s.past| + |s.queue|
            && ClientsTold(cfg, ws, x.entered, s.past, D.CallbackLog(s.reports))
  {
    var x := FromStart(cfg, es);
    var s := x.sys;
    EngineRuns(cfg, es);
    BusStarts(cfg, s);
    AllTold(cfg, ws, x.entered, s.past, s.reports);
  }

  lemma {:induction false} AllTold(cfg: Config, ws: seq<C.World>, entered: seq<Request>, past: seq<Ended>,
                                   reports: seq<Report>)
    requires AllRightly(cfg, past, reports) && Witnessed(cfg, ws, past)
    requires |past| <= |entered| && forall i | 0 <= i < |past| :: past[i].req == entered[i]
    ensures ClientsTold(cfg, ws, entered, past, D.CallbackLog(reports))
  {
    if reports != [] {
      D.CallbackAt(reports, 0);
    }
    forall i | 0 <= i < |reports|
      ensures D.CallbackLog(reports)[i] == D.Told(reports[i]) && ToldAt(cfg, ws, past, reports, i)
    {
      D.CallbackAt(reports, i);
      PastTold(cfg, ws, past, reports, i);
    }
  }

  /** The same of the callbacks an object of class `Device` has made. */
  method ServeTold(cfg: Config, es: seq<Event>, ghost ws: seq<C.World>) returns (d: D.Device)
    requires cfg.maxSeg > 0 && Witnessed(cfg, ws, FromStart(cfg, es).sys.past)
    ensures fresh(d) && d.Valid()
    ensures var x := FromStart(cfg, es);
            d.sys == x.sys && ClientsTold(cfg, ws, x.entered, x.sys.past, d.callbacks)
  {
    ReportsTrue(cfg, es, ws);
    d := D.Serve(cfg, es);
  }

  /** The bus has carried the runs of the finished requests first. */
  lemma {:induction false} BusStarts(cfg: Config, s: Sys)
    requires Recorded(cfg, s)
    ensures PastBus(cfg, s.past) <= s.bus
  {
    if s.queue != [] && s.queue[0].Live? {
      var p, run := PastBus(cfg, s.past), RunOf(cfg, Asked(s.queue[0]), s.cur);
      assert |run| > 0;
      if s.queue[0].status.ReadyForSubmit? {
        assert s.bus == (p + run)[..|s.bus|] && p == (p + run)[..|p|];
      }
    }
  }

  /** Such worlds exist, whatever the outcomes. */
  lemma {:induction false} RunWorldsExist(cfg: Config, w: C.World, past: seq<Ended>, reports: seq<Report>)
    returns (ws: seq<C.World>)
    requires C.Idle(w) && AllRightly(cfg, past, reports) && AllServable(cfg, w, past)
    ensures ws != [] && ws[0] == w && C.Idle(ws[|ws| - 1]) && F.Plays(cfg, ws, PastBus(cfg, past), Outcomes(past))
    decreases |past|
  {
    if past == [] {
      ws := [w];
    } else {
      var n := |past| - 1;
      var before := RunWorldsExist(cfg, w, past[..n], reports[..n]);
      var last := LastWorldsExist(cfg, before, past, reports);
      ws := before + last[1..];
      OneMorePlays(cfg, before, last, ws, past, reports);
    }
  }

  lemma {:induction false} LastWorldsExist(cfg: Config, before: seq<C.World>, past: seq<Ended>, reports: seq<Report>)
    returns (last: seq<C.World>)
    requires past != [] && AllRightly(cfg, past, reports)
    requires var n := |past| - 1;
             && before != [] && C.Idle(before[|before| - 1]) && Servable(cfg, before[0], past[n].req)
             && F.Plays(cfg, before, PastBus(cfg, past[..n]), Outcomes(past[..n])) && C.Idle(before[0])
    ensures var n := |past| - 1;
            && last != [] && last[0] == before[|before| - 1] && C.Idle(last[|last| - 1])
            && F.Plays(cfg, last, RunOf(cfg, past[n].req, past[n].oks), past[n].oks)
  {
    var n, at := |past| - 1, |before| - 1;
    OutcomesFit(cfg, past[..n], reports[..n]);
    F.PlaysSizes(cfg, before, PastBus(cfg, past[..n]), Outcomes(past[..n]), at);
    ServableSame(cfg, before[0], before[at], past[n].req);
    last := F.WorldsExist(cfg, before[at], past[n].req, past[n].oks);
  }

  lemma {:induction false} OneMorePlays(cfg: Config, before: seq<C.World>, last: seq<C.World>, ws: seq<C.World>,
                                        past: seq<Ended>, reports: seq<Report>)
    requires past != [] && AllRightly(cfg, past, reports) && before != [] && last != []
    requires last[0] == before[|before| - 1] && ws == before + last[1..]
    requires var n := |past| - 1;
             && F.Plays(cfg, before, PastBus(cfg, past[..n]), Outcomes(past[..n]))
             && F.Plays(cfg, last, RunOf(cfg, past[n].req, past[n].oks), past[n].oks)
    ensures ws[0] == before[0] && ws[|ws| - 1] == last[|last| - 1]
    ensures F.Plays(cfg, ws, PastBus(cfg, past), Outcomes(past))
  {
    var n, at := |past| - 1, |before| - 1;
    OutcomesFit(cfg, past[..n], reports[..n]);
    assert ws[..at + 1] == before && ws[at..] == last;
    F.PlaysAppend(cfg, ws, PastBus(cfg, past[..n]), RunOf(cfg, past[n].req, past[n].oks), Outcomes(past[..n]),
                  past[n].oks);
  }
}
