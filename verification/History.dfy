/** The logs of the request engine: over all runs the bus carries the plans of the accepted
    requests one after the other, and every accepted request is answered once, in order. */
module History {
  import opened Mmc
  import opened CmdQueue
  import opened IrqMachine
  import opened Protocol
  import opened Runs
  import opened Engine
  import opened Safety

  // ---- One command more ----

  /** A job that has not ended has one more command on the bus than completed. */
  lemma {:induction false} TraceLength(cfg: Config, j: Job, oks: seq<bool>)
    requires WellFormed(cfg, j) && Advance(cfg, j, oks).Continue?
    ensures |Trace(cfg, j, oks)| == |oks| + 1
    decreases |oks|
  {
    if oks == [] {
    } else {
      TraceLength(cfg, Next(cfg, j, oks[0]).job, oks[1..]);
    }
  }

  function NextCmd(cfg: Config, o: Outcome): seq<BusCmd>
    requires o.Continue? ==> WellFormed(cfg, o.job)
  {
    if o.Continue? then [CmdOf(cfg, o.job)] else []
  }

  lemma {:induction false} Assoc<T>(a: seq<T>, b: seq<T>, c: seq<T>)
    ensures a + b + c == a + (b + c)
  {
  }

  lemma {:induction false} TraceSnoc(cfg: Config, j: Job, oks: seq<bool>, ok: bool)
    requires WellFormed(cfg, j) && Advance(cfg, j, oks).Continue?
    ensures var o := Next(cfg, Advance(cfg, j, oks).job, ok);
            && Advance(cfg, j, oks + [ok]) == o
            && Trace(cfg, j, oks + [ok]) == Trace(cfg, j, oks) + NextCmd(cfg, o)
    decreases |oks|
  {
    if oks == [] {
      TraceOne(cfg, j, ok);
    } else {
      var rest := Next(cfg, j, oks[0]).job;
      assert (oks + [ok])[0] == oks[0] && (oks + [ok])[1..] == oks[1..] + [ok];
      TraceSnoc(cfg, rest, oks[1..], ok);
      Assoc([CmdOf(cfg, j)], Trace(cfg, rest, oks[1..]), NextCmd(cfg, Next(cfg, Advance(cfg, j, oks).job, ok)));
    }
  }

  lemma {:induction false} TraceOne(cfg: Config, j: Job, ok: bool)
    requires WellFormed(cfg, j)
    ensures Advance(cfg, j, []) == Continue(j) && Advance(cfg, j, [ok]) == Next(cfg, j, ok)
    ensures Trace(cfg, j, [ok]) == Trace(cfg, j, []) + NextCmd(cfg, Next(cfg, j, ok))
  {
    assert [ok][1..] == [];
  }

  // ---- The logs ----

  ghost predicate Answered(cfg: Config, e: Ended, r: Report) {
    && e.req.blocks != []
    && Advance(cfg, Start(cfg, e.req), e.oks) == Finish(r.ok, r.done)
    && |e.oks| == |Trace(cfg, Start(cfg, e.req), e.oks)|
    && r.id == e.req.id
  }

  ghost predicate AllAnswered(cfg: Config, past: seq<Ended>, reports: seq<Report>)
    decreases |past|
  {
    && |past| == |reports|
    && (past == [] || (var n := |past| - 1;
                       Answered(cfg, past[n], reports[n]) && AllAnswered(cfg, past[..n], reports[..n])))
  }

  ghost function RunOf(cfg: Config, req: Request, oks: seq<bool>): seq<BusCmd> {
    if req.blocks == [] then [] else Trace(cfg, Start(cfg, req), oks)
  }

  /** Commands of the finished requests. */
  ghost function PastBus(cfg: Config, past: seq<Ended>): seq<BusCmd> {
    if past == [] then []
    else var n := |past| - 1; PastBus(cfg, past[..n]) + RunOf(cfg, past[n].req, past[n].oks)
  }

  function PastRequests(past: seq<Ended>): seq<Request> {
    if past == [] then [] else var n := |past| - 1; PastRequests(past[..n]) + [past[n].req]
  }

  function Asked(e: Entry): Request {
    if e.Live? then e.job.req else e.req
  }

  function Waiting(q: seq<Entry>): seq<Request> {
    if q == [] then [] else [Asked(q[0])] + Waiting(q[1..])
  }

  lemma {:induction false} WaitingAppend(q: seq<Entry>, e: Entry)
    ensures Waiting(q + [e]) == Waiting(q) + [Asked(e)]
  {
    if q == [] {
      assert q + [e] == [e];
    } else {
      assert (q + [e])[1..] == q[1..] + [e];
      WaitingAppend(q[1..], e);
    }
  }

  /** Requests behind the head have not been started. */
  ghost predicate Untouched(cfg: Config, q: seq<Entry>) {
    q == [] || (&& (q[0].Live? ==>
                      && q[0].job.req.blocks != [] && q[0].job == Start(cfg, q[0].job.req)
                      && q[0].status.ReadyForSubmit?)
                && Untouched(cfg, q[1..]))
  }

  /** A slot as it is taken: lost at once, or with a request that has not been started. */
  ghost predicate New(cfg: Config, e: Entry) {
    Untouched(cfg, [e]) && Proper(cfg, e)
  }

  lemma {:induction false} UntouchedAppend(cfg: Config, q: seq<Entry>, e: Entry)
    requires Untouched(cfg, q) && Untouched(cfg, [e])
    ensures Untouched(cfg, q + [e])
  {
    if q == [] {
      assert q + [e] == [e];
    } else {
      assert (q + [e])[1..] == q[1..] + [e];
      UntouchedAppend(cfg, q[1..], e);
    }
  }

  /** The head is where the outcomes `cur` have brought it. */
  ghost predicate HeadAt(cfg: Config, q: seq<Entry>, cur: seq<bool>) {
    && (q == [] || q[0].Dead? ==> cur == [])
    && (q != [] && q[0].Live? ==>
          q[0].job.req.blocks != [] && Advance(cfg, Start(cfg, q[0].job.req), cur) == Continue(q[0].job))
    && (q != [] ==> Untouched(cfg, q[1..]))
  }

  /** What the bus has carried: the runs of the finished requests and that of the head. A
      head that is ready has yet to send its current command. */
  ghost predicate Carried(cfg: Config, s: Sys)
    requires AllProper(cfg, s.queue)
  {
    if s.queue == [] || s.queue[0].Dead? then s.bus == PastBus(cfg, s.past)
    else if s.queue[0].status.ReadyForSubmit? then
      s.bus + [CmdOf(cfg, s.queue[0].job)] == PastBus(cfg, s.past) + RunOf(cfg, Asked(s.queue[0]), s.cur)
    else s.bus == PastBus(cfg, s.past) + RunOf(cfg, Asked(s.queue[0]), s.cur)
  }

  ghost predicate Recorded(cfg: Config, s: Sys) {
    && AllProper(cfg, s.queue) && HeadAt(cfg, s.queue, s.cur)
    && AllAnswered(cfg, s.past, s.reports) && Carried(cfg, s)
  }

  /** All requests that have got a slot and kept it, finished and waiting ones. */
  ghost function Entered(s: Sys): seq<Request> {
    PastRequests(s.past) + Waiting(s.queue)
  }

  lemma {:induction false} KickRecorded(cfg: Config, s: Sys)
    requires Recorded(cfg, s)
    ensures var k := Kick(cfg, s).sys;
            Recorded(cfg, k) && Entered(k) == Entered(s)
  {
    if s.queue == [] {
    } else {
      var k := Kick(cfg, s).sys;
      assert k.queue[1..] == s.queue[1..];
    }
  }

  /** The next request starts where the finished one ended. */
  lemma {:induction false} HandOver(cfg: Config, q: seq<Entry>)
    requires Untouched(cfg, q)
    ensures HeadAt(cfg, q, [])
    ensures q != [] && q[0].Live? ==> RunOf(cfg, Asked(q[0]), []) == [CmdOf(cfg, q[0].job)]
  {
  }

  lemma {:induction false} PastSnoc(cfg: Config, past: seq<Ended>, reports: seq<Report>, e: Ended, r: Report)
    requires AllAnswered(cfg, past, reports) && Answered(cfg, e, r)
    ensures AllAnswered(cfg, past + [e], reports + [r])
    ensures PastBus(cfg, past + [e]) == PastBus(cfg, past) + RunOf(cfg, e.req, e.oks)
    ensures PastRequests(past + [e]) == PastRequests(past) + [e.req]
  {
    var n := |past|;
    assert (past + [e])[..n] == past && (reports + [r])[..n] == reports;
  }

  // ---- Completion of the head's command ----

  lemma {:induction false} RunSnoc(cfg: Config, q: seq<Entry>, cur: seq<bool>, ok: bool)
    requires q != [] && q[0].Live? && HeadAt(cfg, q, cur) && WellFormed(cfg, q[0].job)
    ensures var o := Next(cfg, q[0].job, ok);
            && Advance(cfg, Start(cfg, Asked(q[0])), cur + [ok]) == o
            && RunOf(cfg, Asked(q[0]), cur + [ok]) == RunOf(cfg, Asked(q[0]), cur) + NextCmd(cfg, o)
            && |RunOf(cfg, Asked(q[0]), cur)| == |cur| + 1
  {
    TraceSnoc(cfg, Start(cfg, Asked(q[0])), cur, ok);
    TraceLength(cfg, Start(cfg, Asked(q[0])), cur);
  }

  /** The head has a command on the bus. */
  ghost predicate Active(s: Sys) {
    s.queue != [] && s.queue[0].Live? && !s.queue[0].status.ReadyForSubmit?
  }

  lemma {:induction false} ContinueRecorded(cfg: Config, s: Sys, ok: bool)
    requires Active(s) && Recorded(cfg, s) && Next(cfg, s.queue[0].job, ok).Continue?
    ensures var c := Completed(cfg, s, ok);
            Recorded(cfg, c) && Entered(c) == Entered(s)
  {
    var j', req, rest := Next(cfg, s.queue[0].job, ok).job, Asked(s.queue[0]), s.queue[1..];
    var q := [Live(j', ReadyForSubmit)] + rest;
    assert q[1..] == rest;
    RunSnoc(cfg, s.queue, s.cur, ok);
    Assoc(PastBus(cfg, s.past), RunOf(cfg, req, s.cur), [CmdOf(cfg, j')]);
  }

  lemma {:induction false} FinishAnswered(cfg: Config, s: Sys, ok: bool, r: bool, done: nat)
    requires Active(s) && Recorded(cfg, s)
    requires Next(cfg, s.queue[0].job, ok) == Finish(r, done)
    ensures var req := Asked(s.queue[0]);
            && Answered(cfg, Ended(req, s.cur + [ok]), Report(req.id, r, done))
            && s.bus == PastBus(cfg, s.past) + RunOf(cfg, req, s.cur + [ok])
  {
    var req := Asked(s.queue[0]);
    RunSnoc(cfg, s.queue, s.cur, ok);
    assert RunOf(cfg, req, s.cur) + [] == RunOf(cfg, req, s.cur);
  }

  /** The finished request moves from the queue to the record of the past. */
  lemma {:induction false} FinishEntered(s: Sys, oks: seq<bool>)
    requires s.queue != []
    ensures PastRequests(s.past + [Ended(Asked(s.queue[0]), oks)]) + Waiting(s.queue[1..]) == Entered(s)
  {
    var req, rest := Asked(s.queue[0]), s.queue[1..];
    assert (s.past + [Ended(req, oks)])[..|s.past|] == s.past;
    Assoc(PastRequests(s.past), [req], Waiting(rest));
  }

  lemma {:induction false} FinishRecorded(cfg: Config, s: Sys, ok: bool)
    requires Active(s) && Recorded(cfg, s) && Next(cfg, s.queue[0].job, ok).Finish?
    ensures var c := Completed(cfg, s, ok);
            Recorded(cfg, c) && Entered(c) == Entered(s)
  {
    var req, o := Asked(s.queue[0]), Next(cfg, s.queue[0].job, ok);
    FinishAnswered(cfg, s, ok, o.ok, o.done);
    FinishEntered(s, s.cur + [ok]);
    PastSnoc(cfg, s.past, s.reports, Ended(req, s.cur + [ok]), Report(req.id, o.ok, o.done));
    HandOver(cfg, s.queue[1..]);
  }

  /** A completed command either brings the next one of the same request onto the bus, or
      ends the request with its answer; a refused next command leaves it at that. */
  lemma {:induction false} CompleteRecorded(cfg: Config, s: Sys, ok: bool)
    requires Active(s) && Recorded(cfg, s)
    ensures var c := Complete(cfg, s, ok).sys;
            Recorded(cfg, c) && Entered(c) == Entered(s)
  {
    if Next(cfg, s.queue[0].job, ok).Continue? {
      ContinueRecorded(cfg, s, ok);
    } else {
      FinishRecorded(cfg, s, ok);
    }
    KickRecorded(cfg, Completed(cfg, s, ok));
  }

  // ---- Runs ----

  /** Only the status of the head has changed. */
  lemma {:induction false} StatusRecorded(cfg: Config, s: Sys, st: Status, unmasked: bool)
    requires Active(s) && Recorded(cfg, s) && !st.ReadyForSubmit?
    ensures var s' := s.(queue := [Live(s.queue[0].job, st)] + s.queue[1..], unmasked := unmasked);
            Recorded(cfg, s') && Active(s') && Entered(s') == Entered(s)
  {
    var q := [Live(s.queue[0].job, st)] + s.queue[1..];
    assert q[1..] == s.queue[1..];
    assert Waiting(q) == Waiting(s.queue);
  }

  lemma {:induction false} InterruptRecorded(cfg: Config, s: Sys, w: Word)
    requires Sound(cfg, s) && s.unmasked && Recorded(cfg, s)
    ensures var c := Interrupt(cfg, s, w).sys;
            Recorded(cfg, c) && Entered(c) == Entered(s)
  {
    var j, st := s.queue[0].job, s.queue[0].status;
    var st' := StatusAfter(st, HasData(cfg, j), w.bits);
    var s' := s.(queue := [Live(j, st')] + s.queue[1..], unmasked := false);
    StatusRecorded(cfg, s, st', false);
    StatusRecorded(cfg, s, st', true);
    if !Throws(st, HasData(cfg, j), w, cfg.adma2) && !st'.Progress() {
      CompleteRecorded(cfg, s', st'.Success?);
    }
  }

  lemma {:induction false} AppendRecorded(cfg: Config, s: Sys, e: Entry)
    requires Recorded(cfg, s) && New(cfg, e)
    ensures Recorded(cfg, Append(cfg, s, e))
  {
    var s1 := Append(cfg, s, e);
    if s.queue == [] {
      assert s1.queue == [e] && s1.queue[1..] == [];
      HandOver(cfg, s1.queue);
    } else {
      UntouchedAppend(cfg, s.queue[1..], e);
      assert s1.queue[1..] == s.queue[1..] + [e];
    }
  }

  lemma {:induction false} AppendEntered(cfg: Config, s: Sys, e: Entry)
    requires AllProper(cfg, s.queue) && Proper(cfg, e)
    ensures Entered(Append(cfg, s, e)) == Entered(s) + [Asked(e)]
  {
    WaitingAppend(s.queue, e);
    assert PastRequests(s.past) + (Waiting(s.queue) + [Asked(e)]) == Entered(s) + [Asked(e)];
  }

  /** The state after `e` has been appended and the head been kicked. */
  lemma {:induction false} SlotTaken(cfg: Config, s: Sys, e: Entry)
    requires Recorded(cfg, s) && New(cfg, e)
    ensures var a := Append(cfg, s, e);
            var k := Kick(cfg, a).sys;
            && Recorded(cfg, a) && Entered(a) == Entered(s) + [Asked(e)]
            && Recorded(cfg, k) && Entered(k) == Entered(s) + [Asked(e)]
  {
    AppendRecorded(cfg, s, e);
    AppendEntered(cfg, s, e);
    KickRecorded(cfg, Append(cfg, s, e));
  }

  /** A request that is neither turned away nor rolled back keeps its slot. */
  lemma {:induction false} ArriveRecorded(cfg: Config, s: Sys, req: Request)
    requires cfg.maxSeg > 0 && req.blocks != [] && Recorded(cfg, s)
    ensures var (s', code) := Arrive(cfg, s, req);
            && Recorded(cfg, s')
            && Entered(s') == Entered(s) + if code == Ok || code == Thrown then [req] else []
  {
    if TooLarge(cfg, req.blocks) {
      SlotTaken(cfg, s, Dead(req));
    } else {
      SlotTaken(cfg, s, Live(Start(cfg, req), ReadyForSubmit));
    }
  }

  /** A state together with the requests that have entered the queue so far, and for which
      of them `inout_data` returned success. */
  datatype World = World(sys: Sys, entered: seq<Request>, accepted: seq<bool>)

  ghost function React(cfg: Config, x: World, e: Event): World
    requires cfg.maxSeg > 0 && Sound(cfg, x.sys)
  {
    var s' := Respond(cfg, x.sys, e);
    if e.Irq? || e.req.blocks == [] then x.(sys := s')
    else
      var code := Arrive(cfg, x.sys, e.req).1;
      if code == Ok || code == Thrown then World(s', x.entered + [e.req], x.accepted + [code == Ok])
      else x.(sys := s')
  }

  /** The head is not waited for: it has been refused, or its interrupt is masked. */
  ghost predicate Stuck(s: Sys) {
    s.queue != [] && s.queue[0].Live? && !s.unmasked
  }

  /** Every slot that is not lost belongs to a request that was accepted. */
  ghost predicate LiveAccepted(q: seq<Entry>, accepted: seq<bool>)
    requires |q| == |accepted|
    decreases |q|
  {
    q == [] || ((q[0].Live? ==> accepted[0]) && LiveAccepted(q[1..], accepted[1..]))
  }

  /** Finished requests were accepted; so are those waiting, unless the head is stuck. */
  ghost predicate Kept(s: Sys, accepted: seq<bool>) {
    && |s.past| + |s.queue| == |accepted|
    && (forall i | 0 <= i < |s.past| :: accepted[i])
    && (Stuck(s) || LiveAccepted(s.queue, accepted[|s.past|..]))
  }

  lemma {:induction false} LiveAppend(q: seq<Entry>, accepted: seq<bool>, e: Entry, ok: bool)
    requires |q| == |accepted| && LiveAccepted(q, accepted) && (e.Live? ==> ok)
    ensures LiveAccepted(q + [e], accepted + [ok])
    decreases |q|
  {
    if q == [] {
      assert (q + [e])[1..] == [] && (accepted + [ok])[1..] == [];
    } else {
      assert (q + [e])[1..] == q[1..] + [e] && (accepted + [ok])[1..] == accepted[1..] + [ok];
      LiveAppend(q[1..], accepted[1..], e, ok);
    }
  }

  lemma {:induction false} KickKept(cfg: Config, s: Sys, accepted: seq<bool>)
    requires AllProper(cfg, s.queue) && |s.past| + |s.queue| == |accepted|
    requires forall i | 0 <= i < |s.past| :: accepted[i]
    requires LiveAccepted(s.queue, accepted[|s.past|..])
    ensures Kept(Kick(cfg, s).sys, accepted)
  {
    if s.queue == [] {
    } else {
      assert Kick(cfg, s).sys.queue[1..] == s.queue[1..];
    }
  }

  lemma {:induction false} CompleteKept(cfg: Config, s: Sys, ok: bool, accepted: seq<bool>)
    requires AllProper(cfg, s.queue) && s.queue != [] && s.queue[0].Live? && |s.past| + |s.queue| == |accepted|
    requires forall i | 0 <= i < |s.past| :: accepted[i]
    requires LiveAccepted(s.queue, accepted[|s.past|..])
    ensures Kept(Complete(cfg, s, ok).sys, accepted)
  {
    var c := Completed(cfg, s, ok);
    if Next(cfg, s.queue[0].job, ok).Continue? {
      assert c.queue[1..] == s.queue[1..];
    } else {
      assert accepted[|s.past|..][1..] == accepted[|c.past|..];
    }
    KickKept(cfg, c, accepted);
  }

  lemma {:induction false} InterruptKept(cfg: Config, s: Sys, w: Word, accepted: seq<bool>)
    requires Sound(cfg, s) && s.unmasked && Kept(s, accepted)
    ensures Kept(Interrupt(cfg, s, w).sys, accepted)
  {
    var j, st := s.queue[0].job, s.queue[0].status;
    var st' := StatusAfter(st, HasData(cfg, j), w.bits);
    var s' := s.(queue := [Live(j, st')] + s.queue[1..], unmasked := false);
    assert s'.queue[1..] == s.queue[1..];
    if !Throws(st, HasData(cfg, j), w, cfg.adma2) && !st'.Progress() {
      CompleteKept(cfg, s', st'.Success?, accepted);
    }
  }

  /** A slot behind others does not get the head unstuck, nor stuck. */
  lemma {:induction false} AppendKept(cfg: Config, s: Sys, e: Entry, ok: bool, accepted: seq<bool>)
    requires Sound(cfg, s) && Kept(s, accepted) && Proper(cfg, e) && s.queue != [] && (Stuck(s) || (e.Live? ==> ok))
    ensures var k := Kick(cfg, Append(cfg, s, e)).sys;
            k == Append(cfg, s, e) && Kept(k, accepted + [ok])
  {
    var k, n := Append(cfg, s, e), |s.past|;
    assert k.queue[0] == s.queue[0];
    assert (accepted + [ok])[n..] == accepted[n..] + [ok];
    if !Stuck(s) {
      LiveAppend(s.queue, accepted[n..], e, ok);
    }
  }

  lemma {:induction false} FirstKept(cfg: Config, s: Sys, e: Entry, accepted: seq<bool>)
    requires Sound(cfg, s) && Kept(s, accepted) && Proper(cfg, e) && s.queue == []
    ensures Kept(Kick(cfg, Append(cfg, s, e)).sys, accepted + [true])
  {
    var a := Append(cfg, s, e);
    assert a.queue == [e] && a.queue[1..] == [] && (accepted + [true])[|s.past|..] == [true];
    KickKept(cfg, a, accepted + [true]);
  }

  lemma {:induction false} LaterKept(cfg: Config, s: Sys, req: Request, accepted: seq<bool>)
    requires cfg.maxSeg > 0 && req.blocks != [] && Sound(cfg, s) && Kept(s, accepted)
    requires s.queue != [] && |s.queue| != ENTRIES - 1 && !TooLarge(cfg, req.blocks)
    ensures var (s', code) := Arrive(cfg, s, req);
            (code == Ok || code == Thrown) && Kept(s', accepted + [code == Ok])
  {
    var e := Live(Start(cfg, req), ReadyForSubmit);
    assert Append(cfg, s, e).queue[0] == s.queue[0];
    AppendKept(cfg, s, e, Arrive(cfg, s, req).1 == Ok, accepted);
  }

  lemma {:induction false} ArriveKept(cfg: Config, s: Sys, req: Request, accepted: seq<bool>)
    requires cfg.maxSeg > 0 && req.blocks != [] && Sound(cfg, s) && Kept(s, accepted)
    ensures var (s', code) := Arrive(cfg, s, req);
            Kept(s', if code == Ok || code == Thrown then accepted + [code == Ok] else accepted)
  {
    if |s.queue| == ENTRIES - 1 {
    } else if s.queue == [] {
      FirstKept(cfg, s, Live(Start(cfg, req), ReadyForSubmit), accepted);
    } else if TooLarge(cfg, req.blocks) {
      AppendKept(cfg, s, Dead(req), false, accepted);
    } else {
      LaterKept(cfg, s, req, accepted);
    }
  }

  ghost predicate Good(cfg: Config, x: World) {
    Sound(cfg, x.sys) && Recorded(cfg, x.sys) && Entered(x.sys) == x.entered && Kept(x.sys, x.accepted)
  }

  lemma {:induction false} ReactGood(cfg: Config, x: World, e: Event)
    requires cfg.maxSeg > 0 && Good(cfg, x)
    ensures Good(cfg, React(cfg, x, e))
  {
    if e.Irq? {
      if x.sys.unmasked {
        InterruptRecorded(cfg, x.sys, e.w);
        InterruptKept(cfg, x.sys, e.w, x.accepted);
      }
    } else if e.req.blocks != [] {
      ArriveRecorded(cfg, x.sys, e.req);
      ArriveKept(cfg, x.sys, e.req, x.accepted);
    }
  }

  ghost function Execute(cfg: Config, x: World, es: seq<Event>): (y: World)
    requires cfg.maxSeg > 0 && Good(cfg, x)
    ensures Good(cfg, y)
    decreases |es|
  {
    if es == [] then x
    else
      ReactGood(cfg, x, es[0]);
      Execute(cfg, React(cfg, x, es[0]), es[1..])
  }

  const FIRST := World(INIT, [], [])

  lemma {:induction false} FirstGood(cfg: Config)
    ensures Good(cfg, FIRST)
  {
  }

  /** The world after the given events, from the start. */
  ghost function FromStart(cfg: Config, es: seq<Event>): (x: World)
    requires cfg.maxSeg > 0
    ensures Good(cfg, x)
  {
    FirstGood(cfg);
    Execute(cfg, FIRST, es)
  }

  lemma {:induction false} ExecuteResponds(cfg: Config, x: World, es: seq<Event>)
    requires cfg.maxSeg > 0 && Good(cfg, x)
    ensures Execute(cfg, x, es).sys == RespondAll(cfg, x.sys, es)
    decreases |es|
  {
    if es == [] {
    } else {
      ReactGood(cfg, x, es[0]);
      ExecuteResponds(cfg, React(cfg, x, es[0]), es[1..]);
    }
  }

  lemma {:induction false} AnsweredAt(cfg: Config, past: seq<Ended>, reports: seq<Report>, i: nat)
    requires AllAnswered(cfg, past, reports) && i < |past|
    ensures Answered(cfg, past[i], reports[i])
    decreases |past|
  {
    if i == |past| - 1 {
    } else {
      AnsweredAt(cfg, past[..|past| - 1], reports[..|past| - 1], i);
    }
  }

  lemma {:induction false} PastRequestsAt(past: seq<Ended>)
    ensures |PastRequests(past)| == |past|
    ensures forall i | 0 <= i < |past| :: PastRequests(past)[i] == past[i].req
    decreases |past|
  {
    if past == [] {
    } else {
      PastRequestsAt(past[..|past| - 1]);
    }
  }

  lemma {:induction false} WaitingLength(q: seq<Entry>)
    ensures |Waiting(q)| == |q|
  {
    if q == [] {
    } else {
      WaitingLength(q[1..]);
    }
  }

  /** What request `req` may make of the bus, and the report it gets, when its commands
      complete with outcomes `oks`. */
  ghost predicate Rightly(cfg: Config, req: Request, oks: seq<bool>, r: Report) {
    var t := RunOf(cfg, req, oks);
    && t <= Plan(cfg, req) && |oks| == |t|
    && r == Report(req.id, AllOk(t, oks), if cfg.adma2 then 0 else Moved(t, oks))
  }

  /** After any sequence of requests and interrupts whatever, refused requests and ADMA2
      exceptions included: the bus has carried, one after the other, the runs of the
      requests that entered the queue, in order, nothing else, and that of the head as far
      as it has come; every request before the head has had exactly one report, in order
      of entry, and it is the right one; and only requests that were accepted get one. */
  lemma {:induction false} EngineRuns(cfg: Config, es: seq<Event>)
    requires cfg.maxSeg > 0
    ensures var x := FromStart(cfg, es);
            var s := x.sys;
            && s == RespondAll(cfg, INIT, es) && Recorded(cfg, s)
            && |s.reports| == |s.past| && |s.reports| + |s.queue| == |x.entered|
            && Waiting(s.queue) == x.entered[|s.reports|..] && |x.accepted| == |x.entered|
            && forall i | 0 <= i < |s.reports| ::
                 && s.past[i].req == x.entered[i] && x.accepted[i]
                 && Rightly(cfg, x.entered[i], s.past[i].oks, s.reports[i])
  {
    var x := FromStart(cfg, es);
    var s := x.sys;
    FirstGood(cfg);
    ExecuteResponds(cfg, FIRST, es);
    PastRequestsAt(s.past);
    WaitingLength(s.queue);
    forall i | 0 <= i < |s.reports|
      ensures s.past[i].req == x.entered[i] && Rightly(cfg, x.entered[i], s.past[i].oks, s.reports[i])
    {
      AnsweredAt(cfg, s.past, s.reports, i);
      RunMeaning(cfg, s.past[i].req, s.past[i].oks);
    }
  }

  // ---- Where the outcomes come from ----

  /** Outcomes of all commands of the finished requests. */
  function Outcomes(past: seq<Ended>): seq<bool> {
    if past == [] then [] else var n := |past| - 1; Outcomes(past[..n]) + past[n].oks
  }

  /** Outcomes of all commands so far. */
  function AllOutcomes(s: Sys): seq<bool> {
    Outcomes(s.past) + s.cur
  }

  /** What a word of the controller says of a command: that it has failed, that it has
      succeeded, or nothing yet. */
  ghost function Verdict(st: Status, hasData: bool, w: IntStatus): Option<bool> {
    if st.ProgressCmd? && (CTOE in w || Failing(w) || AC12E in w) then Some(false)
    else if st.ProgressCmd? && CC !in w then None
    else if st.ProgressCmd? && !hasData then Some(true)
    else if Spoiling(w) then Some(false)
    else if TC in w then Some(true)
    else None
  }

  lemma {:induction false} VerdictMeans(st: Status, hasData: bool, w: IntStatus)
    requires st.Progress()
    ensures var st' := StatusAfter(st, hasData, w);
            && (st'.Progress() <==> Verdict(st, hasData, w).None?)
            && (Verdict(st, hasData, w) == Some(true) <==> st'.Success?)
            && (st'.Progress() ==> st' == if st.ProgressCmd? && CC in w then ProgressData else st)
  {
    CmdPhaseExact(hasData, w);
    DataPhaseExact(w);
  }

  /** What the word says of the head's command; nothing if the handler throws. */
  ghost function Said(cfg: Config, s: Sys, w: Word): Option<bool>
    requires Sound(cfg, s) && s.unmasked
  {
    var j, st := s.queue[0].job, s.queue[0].status;
    if Throws(st, j.phase.Data?, w, cfg.adma2) then None else Verdict(st, j.phase.Data?, w.bits)
  }

  lemma {:induction false} KickOutcomes(cfg: Config, s: Sys)
    requires AllProper(cfg, s.queue)
    ensures AllOutcomes(Kick(cfg, s).sys) == AllOutcomes(s)
  {
  }

  /** The outcome goes to those of the request, finished or not. */
  lemma {:induction false} OneMoreOutcome(past: seq<Ended>, cur: seq<bool>, req: Request, ok: bool)
    ensures Outcomes(past) + (cur + [ok]) == Outcomes(past) + cur + [ok]
    ensures Outcomes(past + [Ended(req, cur + [ok])]) + [] == Outcomes(past) + cur + [ok]
  {
    assert (past + [Ended(req, cur + [ok])])[..|past|] == past;
  }

  lemma {:induction false} CompletedOutcomes(cfg: Config, s: Sys, ok: bool)
    requires AllProper(cfg, s.queue) && s.queue != [] && s.queue[0].Live?
    ensures AllOutcomes(Completed(cfg, s, ok)) == AllOutcomes(s) + [ok]
  {
    OneMoreOutcome(s.past, s.cur, s.queue[0].job.req, ok);
  }

  /** An interrupt records the outcome its word says; without one, commands and reports
      stay as they are. */
  lemma {:induction false} InterruptRecords(cfg: Config, s: Sys, w: Word)
    requires Sound(cfg, s) && s.unmasked
    ensures var s' := Interrupt(cfg, s, w).sys;
            match Said(cfg, s, w)
            case Some(ok) => AllOutcomes(s') == AllOutcomes(s) + [ok]
            case None => AllOutcomes(s') == AllOutcomes(s) && s'.bus == s.bus && s'.reports == s.reports
  {
    var j, st := s.queue[0].job, s.queue[0].status;
    VerdictMeans(st, HasData(cfg, j), w.bits);
    if Said(cfg, s, w).Some? {
      var st' := StatusAfter(st, HasData(cfg, j), w.bits);
      var masked := s.(queue := [Live(j, st')] + s.queue[1..], unmasked := false);
      CompletedOutcomes(cfg, masked, st'.Success?);
      KickOutcomes(cfg, Completed(cfg, masked, st'.Success?));
    }
  }

  /** What an event says of the head's command. */
  ghost function Heard(cfg: Config, s: Sys, e: Event): seq<bool>
    requires Sound(cfg, s)
  {
    if !e.Irq? || !s.unmasked then []
    else match Said(cfg, s, e.w) case Some(ok) => [ok] case None => []
  }

  /** What the words of a run say of the commands, one after the other. */
  ghost function AllHeard(cfg: Config, s: Sys, es: seq<Event>): seq<bool>
    requires cfg.maxSeg > 0 && Sound(cfg, s)
    decreases |es|
  {
    if es == [] then [] else Heard(cfg, s, es[0]) + AllHeard(cfg, Respond(cfg, s, es[0]), es[1..])
  }

  lemma {:induction false} RespondRecords(cfg: Config, s: Sys, e: Event)
    requires cfg.maxSeg > 0 && Sound(cfg, s)
    ensures AllOutcomes(Respond(cfg, s, e)) == AllOutcomes(s) + Heard(cfg, s, e)
  {
    if e.Irq? && s.unmasked {
      InterruptRecords(cfg, s, e.w);
    } else {
      assert AllOutcomes(Respond(cfg, s, e)) == AllOutcomes(s);
    }
  }

  /** Over any run: the outcomes by which commands and reports have been explained are what
      the words of the controller said, one for each command, in order. */
  lemma {:induction false} OutcomesHeard(cfg: Config, s: Sys, es: seq<Event>)
    requires cfg.maxSeg > 0 && Sound(cfg, s)
    ensures AllOutcomes(RespondAll(cfg, s, es)) == AllOutcomes(s) + AllHeard(cfg, s, es)
    decreases |es|
  {
    if es == [] {
    } else {
      var next := Respond(cfg, s, es[0]);
      RespondRecords(cfg, s, es[0]);
      OutcomesHeard(cfg, next, es[1..]);
      Assoc(AllOutcomes(s), Heard(cfg, s, es[0]), AllHeard(cfg, next, es[1..]));
    }
  }

  // ---- Runs within the limits ----

  /** Requests within the advertised limits, and any interrupts. */
  ghost predicate Limited(cfg: Config, es: seq<Event>)
    decreases |es|
  {
    es == [] || ((es[0].Arrival? ==> Within(cfg, es[0].req)) && Limited(cfg, es[1..]))
  }

  /** The controller driver throws in handling the event. */
  ghost predicate Glitch(cfg: Config, s: Sys, e: Event)
    requires Sound(cfg, s)
  {
    e.Irq? && s.unmasked && Throws(s.queue[0].status, HasData(cfg, s.queue[0].job), e.w, cfg.adma2)
  }

  /** It does so somewhere in the run. */
  ghost predicate Glitched(cfg: Config, s: Sys, es: seq<Event>)
    requires cfg.maxSeg > 0 && Sound(cfg, s)
    decreases |es|
  {
    es != [] && (Glitch(cfg, s, es[0]) || Glitched(cfg, Respond(cfg, s, es[0]), es[1..]))
  }

  lemma {:induction false} RespondHealthy(cfg: Config, s: Sys, e: Event)
    requires cfg.maxSeg > 0 && Roomy(cfg) && Healthy(cfg, s) && Limited(cfg, [e])
    ensures Healthy(cfg, Respond(cfg, s, e)) <==> !Glitch(cfg, s, e)
  {
    match e
    case Irq(w) =>
      if s.unmasked {
        InterruptHealthy(cfg, s, w);
      }
    case Arrival(req) =>
      ArriveHealthy(cfg, s, req);
  }

  lemma {:induction false} ExecuteHealthy(cfg: Config, x: World, es: seq<Event>)
    requires cfg.maxSeg > 0 && Roomy(cfg) && Good(cfg, x) && Healthy(cfg, x.sys)
    requires Limited(cfg, es) && !Glitched(cfg, x.sys, es)
    ensures Healthy(cfg, Execute(cfg, x, es).sys)
    decreases |es|
  {
    if es == [] {
    } else {
      assert Limited(cfg, [es[0]]);
      ReactGood(cfg, x, es[0]);
      RespondHealthy(cfg, x.sys, es[0]);
      ExecuteHealthy(cfg, React(cfg, x, es[0]), es[1..]);
    }
  }

  lemma {:induction false} HealthyAccepted(cfg: Config, q: seq<Entry>, accepted: seq<bool>)
    requires |q| == |accepted| && LiveAccepted(q, accepted) && (q == [] || q[0].Live?)
    requires q != [] ==> AllReady(cfg, q[1..])
    ensures forall i | 0 <= i < |accepted| :: accepted[i]
    decreases |q|
  {
    if q == [] {
    } else {
      HealthyAccepted(cfg, q[1..], accepted[1..]);
    }
  }

  /** Where no command can be too large: after any sequence of requests within the limits
      and of interrupts for which the controller driver does not throw, the head is in
      progress with the interrupt unmasked, the others wait, and all requests that entered
      the queue were accepted. */
  lemma {:induction false} RunsStayHealthy(cfg: Config, es: seq<Event>)
    requires cfg.maxSeg > 0 && Roomy(cfg) && Limited(cfg, es) && !Glitched(cfg, INIT, es)
    ensures var x := FromStart(cfg, es);
            Healthy(cfg, x.sys) && forall i | 0 <= i < |x.accepted| :: x.accepted[i]
  {
    FirstGood(cfg);
    ExecuteHealthy(cfg, FIRST, es);
    var x := FromStart(cfg, es);
    var n := |x.sys.past|;
    HealthyAccepted(cfg, x.sys.queue, x.accepted[n..]);
    forall i | 0 <= i < |x.accepted| ensures x.accepted[i] {
      assert i >= n ==> x.accepted[i] == x.accepted[n..][i - n];
    }
  }

  // ---- Progress ----

  /** Commands that may still have to complete. */
  ghost function WorkLeft(cfg: Config, q: seq<Entry>): nat
    requires AllProper(cfg, q)
  {
    if q == [] then 0
    else (if q[0].Live? then |Ahead(cfg, q[0].job)| else 0) + WorkLeft(cfg, q[1..])
  }

  lemma {:induction false} KickWork(cfg: Config, s: Sys)
    requires AllProper(cfg, s.queue)
    ensures WorkLeft(cfg, Kick(cfg, s).sys.queue) == WorkLeft(cfg, s.queue)
  {
    var k := Kick(cfg, s).sys;
    if s.queue != [] {
      assert k.queue[1..] == s.queue[1..];
    }
  }

  /** Each completion, successful or not, leaves less to do. */
  lemma {:induction false} CompleteWork(cfg: Config, s: Sys, ok: bool)
    requires AllProper(cfg, s.queue) && s.queue != [] && s.queue[0].Live?
    ensures WorkLeft(cfg, Complete(cfg, s, ok).sys.queue) < WorkLeft(cfg, s.queue)
  {
    var j, rest := s.queue[0].job, s.queue[1..];
    NextAhead(cfg, j, ok);
    match Next(cfg, j, ok)
    case Continue(j') =>
      var q := [Live(j', ReadyForSubmit)] + rest;
      assert q[1..] == rest;
      KickWork(cfg, s.(queue := q, cur := s.cur + [ok]));
    case Finish(r, done) =>
      KickWork(cfg, s.(queue := rest, reports := s.reports + [Report(j.req.id, r, done)],
                       past := s.past + [Ended(j.req, s.cur + [ok])], cur := []));
  }

  lemma {:induction false} NothingToDo(cfg: Config, s: Sys)
    requires Healthy(cfg, s) && WorkLeft(cfg, s.queue) == 0
    ensures s.queue == []
  {
  }

  /** Words each of which completes a command of a healthy engine. */
  ghost predicate Completing(cfg: Config, s: Sys, ws: seq<Word>)
    requires Healthy(cfg, s)
    decreases |ws|
  {
    ws == [] || (&& s.queue != []
                 && !Throws(s.queue[0].status, HasData(cfg, s.queue[0].job), ws[0], cfg.adma2)
                 && !StatusAfter(s.queue[0].status, HasData(cfg, s.queue[0].job), ws[0].bits).Progress()
                 && (InterruptHealthy(cfg, s, ws[0]);
                     Completing(cfg, Interrupt(cfg, s, ws[0]).sys, ws[1..])))
  }

  function Words(ws: seq<Word>): seq<Event> {
    if ws == [] then [] else [Irq(ws[0])] + Words(ws[1..])
  }

  /** A request is in the queue or reported. */
  lemma {:induction false} CompleteBalance(cfg: Config, s: Sys, ok: bool)
    requires AllProper(cfg, s.queue) && s.queue != [] && s.queue[0].Live?
    ensures var c := Complete(cfg, s, ok).sys; |c.reports| + |c.queue| == |s.reports| + |s.queue|
  {
  }

  lemma {:induction false} CompletingStep(cfg: Config, s: Sys, w: Word)
    requires cfg.maxSeg > 0 && Healthy(cfg, s) && Completing(cfg, s, [w])
    ensures var t := Respond(cfg, s, Irq(w));
            && t == Interrupt(cfg, s, w).sys && Healthy(cfg, t)
            && WorkLeft(cfg, t.queue) < WorkLeft(cfg, s.queue)
            && |t.reports| + |t.queue| == |s.reports| + |s.queue|
  {
    var j, st, rest := s.queue[0].job, s.queue[0].status, s.queue[1..];
    var st' := StatusAfter(st, HasData(cfg, j), w.bits);
    var s' := s.(queue := [Live(j, st')] + rest, unmasked := false);
    assert s'.queue[1..] == rest;
    InterruptHealthy(cfg, s, w);
    CompleteWork(cfg, s', st'.Success?);
    CompleteBalance(cfg, s', st'.Success?);
  }

  /** Whatever the outcomes, each completed command leaves less to do, so only so many
      complete; and requests leave the queue only with their report. When nothing is left
      to do, all have been reported. */
  lemma {:induction false} Drained(cfg: Config, s: Sys, ws: seq<Word>)
    requires cfg.maxSeg > 0 && Healthy(cfg, s) && Completing(cfg, s, ws)
    ensures var t := RespondAll(cfg, s, Words(ws));
            && Healthy(cfg, t) && |ws| + WorkLeft(cfg, t.queue) <= WorkLeft(cfg, s.queue)
            && |t.reports| + |t.queue| == |s.reports| + |s.queue|
            && (|ws| == WorkLeft(cfg, s.queue) ==> t.queue == [])
    decreases |ws|
  {
    if ws == [] {
      if WorkLeft(cfg, s.queue) == 0 {
        NothingToDo(cfg, s);
      }
    } else {
      InterruptHealthy(cfg, s, ws[0]);
      CompletingStep(cfg, s, ws[0]);
      assert Words(ws)[1..] == Words(ws[1..]);
      var t := RespondAll(cfg, Respond(cfg, s, Irq(ws[0])), Words(ws[1..]));
      Drained(cfg, Respond(cfg, s, Irq(ws[0])), ws[1..]);
      if WorkLeft(cfg, t.queue) == 0 {
        NothingToDo(cfg, t);
      }
    }
  }
}
