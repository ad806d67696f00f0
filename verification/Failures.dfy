/** Commands that fail: what card and memory hold after a request whatever the outcomes of
    its commands, and that the report to the client tells it. */
module Failures {
  import opened Mmc
  import opened Memory
  import opened Adma2
  import opened Bounce
  import opened Protocol
  import opened Runs
  import opened Card

  // ---- Commands with their outcomes ----

  /** Equal except in the bounce buffer and in the blocks. */
  ghost predicate SameElsewhere(a: Dma, blocks: seq<Block>, m: Mem, m': Mem) {
    && |m| == |m'|
    && forall x | 0 <= x < |m| && !InRegion(a.Bounce(), x) && !InBlocks(blocks, x) :: m[x] == m'[x]
  }

  predicate InRegion(r: Region, x: int) {
    r.addr <= x < r.addr + r.len
  }

  predicate InBlocks(blocks: seq<Block>, x: int) {
    blocks != [] && (InRegion(Area(blocks[0]), x) || InBlocks(blocks[1..], x))
  }

  /** Memory that a failed transfer may have changed is that which it was to be read to;
      in ADMA2 mode the bounce buffer, too. */
  ghost predicate MemSpared(cfg: Config, c: BusCmd, m: Mem, m': Mem)
    requires c.SingleCmd? || c.MultiCmd?
  {
    if cfg.adma2 then SameElsewhere(cfg.dma, if c.read then c.dma else [], m, m')
    else if c.read then c.dma != [] && SameOutside(Region(c.dma[0].addr % WORD32, Bytes(Sectors(c))), m, m')
    else m == m'
  }

  /** Sectors that a failed transfer may have changed are those it was to write. */
  ghost predicate CardSpared(cfg: Config, c: BusCmd, m: Mem, m': Mem)
    requires c.SingleCmd? || c.MultiCmd?
  {
    if c.read then m == m' else SameOutside(Region(Offset(cfg, c.sector), Bytes(Sectors(c))), m, m')
  }

  /** What a command may leave behind. One that succeeds has its effect; one that fails may
      have had part of it, and nothing is known of what the card waits for then. CMD12
      ends a transfer whether its response arrives or not. */
  ghost predicate Played(cfg: Config, w: World, c: BusCmd, ok: bool, w': World) {
    match c
    case StopCmd(_) => w' == w.(open := false)
    case CountCmd(_) =>
      if ok then Exec(cfg, w, c) == Some(w') else w'.mem == w.mem && w'.card == w.card && w'.table == w.table
    case _ =>
      if ok then Exec(cfg, w, c) == Some(w')
      else MemSpared(cfg, c, w.mem, w'.mem) && CardSpared(cfg, c, w.card, w'.card) && |w'.table| == |w.table|
  }

  /** `ws` are the worlds before, between and after commands with these outcomes. */
  ghost predicate Plays(cfg: Config, ws: seq<World>, cmds: seq<BusCmd>, oks: seq<bool>)
    decreases |cmds|
  {
    && |ws| == |cmds| + 1 && |cmds| <= |oks|
    && (cmds == [] || (Played(cfg, ws[0], cmds[0], oks[0], ws[1]) && Plays(cfg, ws[1..], cmds[1..], oks[1..])))
  }

  /** A command that does not end the run, and what follows. */
  lemma {:induction false} PlaysStep(cfg: Config, ws: seq<World>, plan: seq<BusCmd>, c: BusCmd, rest: seq<BusCmd>,
                                     oks: seq<bool>)
    requires plan == [c] + rest && oks != [] && (oks[0] || c.StopCmd?)
    requires |Issued(plan, oks)| <= |oks| && Plays(cfg, ws, Issued(plan, oks), oks)
    ensures var t, more := Issued(plan, oks), Issued(rest, oks[1..]);
            && t == [c] + more && |more| <= |oks[1..]|
            && Played(cfg, ws[0], c, oks[0], ws[1]) && Plays(cfg, ws[1..], more, oks[1..])
            && (AllOk(t, oks) <==> AllOk(more, oks[1..]))
            && Moved(t, oks) == (if oks[0] then Sectors(c) else 0) + Moved(more, oks[1..])
  {
    var more := Issued(rest, oks[1..]);
    assert plan[0] == c && plan[1..] == rest;
    assert Issued(plan, oks) == [c] + more;
    assert ([c] + more)[1..] == more;
  }

  /** A command that fails, and the CMD12 that follows if one is due. */
  lemma {:induction false} PlaysLast(cfg: Config, ws: seq<World>, plan: seq<BusCmd>, c: BusCmd, rest: seq<BusCmd>,
                                     oks: seq<bool>)
    requires plan == [c] + rest && oks != [] && !oks[0] && !c.StopCmd?
    requires |Issued(plan, oks)| <= |oks| && Plays(cfg, ws, Issued(plan, oks), oks)
    ensures var t := Issued(plan, oks);
            && Played(cfg, ws[0], c, false, ws[1]) && |ws| == |t| + 1
            && (if rest != [] && rest[0].StopCmd? then |t| == 2 && ws[2] == ws[1].(open := false) else |t| == 1)
            && !AllOk(t, oks) && Moved(t, oks) == 0
  {
    var t := Issued(plan, oks);
    assert plan[0] == c && plan[1..] == rest;
    if rest != [] && rest[0].StopCmd? {
      assert plan[1] == rest[0] && t == [c] + [rest[0]];
      assert t[1..] == [rest[0]] && ws[1..][1] == ws[2];
      assert Moved(t[1..], oks[1..]) == 0;
    } else {
      assert t == [c] && t[1..] == [];
    }
  }

  // ---- Where a request starts ----

  /** The card waits for nothing. */
  function Resting(w: World): World {
    w.(pending := None, open := false)
  }

  /** A transfer that opens no announcement of its own. */
  predicate Unannounced(c: BusCmd) {
    c.MultiCmd? && !c.auto23
  }

  /** What a first command does, it would also do to an idle card; only, an unannounced
      transfer would stay open there, where an earlier CMD23 may have announced it. */
  lemma {:induction false} PlayedAtRest(cfg: Config, w: World, c: BusCmd, ok: bool, w': World)
    requires Played(cfg, w, c, ok, w') && !c.StopCmd?
    ensures Played(cfg, Resting(w), c, ok, if Unannounced(c) && ok then w'.(open := true) else w')
  {
    if c.MultiCmd? && ok {
      var known := Announced(w, c);
      MoveAnyhow(cfg, w.(pending := None, open := known.None?), c, true);
    }
  }

  /** A run does not start with CMD12, and sends it after an unannounced transfer. */
  lemma {:induction false} FirstCommand(cfg: Config, req: Request, oks: seq<bool>)
    requires req.blocks != [] && |Trace(cfg, Start(cfg, req), oks)| <= |oks|
    ensures var t := Trace(cfg, Start(cfg, req), oks);
            t != [] && !t[0].StopCmd? && (Unannounced(t[0]) ==> |t| > 1 && t[1].StopCmd?)
  {
    var t := Trace(cfg, Start(cfg, req), oks);
    RunBrackets(cfg, req, oks, 0);
    if |t| > 1 {
      RunBrackets(cfg, req, oks, 1);
    }
  }

  /** The run of a request on a card that waits for anything is one on an idle card, up to
      what the card waits for on the way. */
  lemma {:induction false} AnyStart(cfg: Config, ws: seq<World>, req: Request, oks: seq<bool>) returns (vs: seq<World>)
    requires req.blocks != [] && |Trace(cfg, Start(cfg, req), oks)| <= |oks|
    requires Plays(cfg, ws, Trace(cfg, Start(cfg, req), oks), oks)
    ensures |vs| == |ws| > 1 && vs[0] == Resting(ws[0]) && vs[|vs| - 1] == ws[|ws| - 1]
    ensures Plays(cfg, vs, Trace(cfg, Start(cfg, req), oks), oks)
  {
    var t := Trace(cfg, Start(cfg, req), oks);
    FirstCommand(cfg, req, oks);
    PlayedAtRest(cfg, ws[0], t[0], oks[0], ws[1]);
    if Unannounced(t[0]) && oks[0] {
      vs := [Resting(ws[0])] + ([ws[1].(open := true)] + ws[2..]);
      assert vs[1..] == [ws[1].(open := true)] + ws[2..] && vs[1..][1..] == ws[2..] && ws[1..][1..] == ws[2..];
    } else {
      vs := [Resting(ws[0])] + ws[1..];
      assert vs[1..] == ws[1..];
    }
  }

  lemma {:induction false} PlayedSizes(cfg: Config, w: World, c: BusCmd, ok: bool, w': World)
    requires Played(cfg, w, c, ok, w')
    ensures SameSizes(w, w')
  {
    if ok && c.SingleCmd? {
      MoveSizes(cfg, w.(pending := None), c);
    } else if ok && c.MultiCmd? {
      MoveSizes(cfg, w.(pending := None, open := Announced(w, c).None?), c);
    }
  }

  lemma {:induction false} PlaysSizes(cfg: Config, ws: seq<World>, cmds: seq<BusCmd>, oks: seq<bool>, i: nat)
    requires Plays(cfg, ws, cmds, oks) && i < |ws|
    ensures SameSizes(ws[0], ws[i])
    decreases i
  {
    if i == 0 {
    } else {
      PlayedSizes(cfg, ws[0], cmds[0], oks[0], ws[1]);
      PlaysSizes(cfg, ws[1..], cmds[1..], oks[1..], i - 1);
    }
  }

  /** Commands one after the other. */
  lemma {:induction false} PlaysAppend(cfg: Config, ws: seq<World>, xs: seq<BusCmd>, ys: seq<BusCmd>,
                                       os: seq<bool>, ps: seq<bool>)
    requires |ws| == |xs| + |ys| + 1 && |os| == |xs| && |ys| <= |ps|
    ensures Plays(cfg, ws, xs + ys, os + ps) <==> Plays(cfg, ws[..|xs| + 1], xs, os) && Plays(cfg, ws[|xs|..], ys, ps)
    decreases |xs|
  {
    if xs == [] {
      assert xs + ys == ys && os + ps == ps && ws[0..] == ws;
    } else {
      assert (xs + ys)[1..] == xs[1..] + ys && (os + ps)[1..] == os[1..] + ps;
      assert ws[1..][|xs| - 1..] == ws[|xs|..] && ws[..|xs| + 1][1..] == ws[1..][..|xs|];
      PlaysAppend(cfg, ws[1..], xs[1..], ys, os[1..], ps);
    }
  }

  // ---- One block by SDMA ----

  /** Card and memory are as before, except perhaps for what a transfer of the block was to
      write. */
  ghost predicate Spoiled(w: World, read: bool, off: nat, b: Block, w': World) {
    && |w'.table| == |w.table|
    && (if read then w'.card == w.card && SameOutside(Area(b), w.mem, w'.mem)
        else w'.mem == w.mem && SameOutside(Region(off, Size(b)), w.card, w'.card))
  }

  /** Command `c` transfers block `pos`. */
  ghost predicate Transfers(cfg: Config, w: World, req: Request, pos: nat, c: BusCmd)
    requires Ready(cfg, w, req, pos) && pos < |req.blocks|
  {
    && (c.SingleCmd? || c.MultiCmd?) && c.read == req.read && c.sector == req.sector + SumTo(req.blocks, pos)
    && Sectors(c) == req.blocks[pos].sectors && c.dma == req.blocks[pos..] && (c.MultiCmd? ==> !c.auto23)
  }

  /** Whatever the card waits for, the transfer does what it should ... */
  lemma {:induction false} TransferDone(cfg: Config, w: World, req: Request, pos: nat, c: BusCmd, x: World)
    requires Ready(cfg, w, req, pos) && pos < |req.blocks| && Transfers(cfg, w, req, pos, c)
    requires x == w.(pending := x.pending, open := x.open)
    ensures Move(cfg, x, c) == Some(FirstDone(cfg, w, req, pos).(pending := x.pending, open := x.open))
  {
    ReadyHead(cfg, w, req, pos);
    var off := Bytes(req.sector + SumTo(req.blocks, pos));
    assert c.dma[0] == req.blocks[pos];
    MoveBlock(x, req.read, off, req.blocks[pos].sectors, c.dma);
  }

  /** ... or spoils no more than it was to write. */
  lemma {:induction false} TransferFailed(cfg: Config, w: World, req: Request, pos: nat, c: BusCmd, x: World, w': World)
    requires Ready(cfg, w, req, pos) && pos < |req.blocks| && Transfers(cfg, w, req, pos, c)
    requires x == w.(pending := x.pending, open := x.open) && Played(cfg, x, c, false, w')
    ensures Spoiled(w, req.read, Bytes(req.sector + SumTo(req.blocks, pos)), req.blocks[pos], w')
  {
    ReadyHead(cfg, w, req, pos);
    assert c.dma[0] == req.blocks[pos];
  }

  /** What the commands for block `pos` lead to: the block is done, and the run goes on with
      `later` from the world `next`; or the run is over, and the block may be spoiled. */
  ghost predicate BlockPlayed(cfg: Config, ws: seq<World>, req: Request, pos: nat, t: seq<BusCmd>, oks: seq<bool>,
                              later: seq<BusCmd>, done: bool, c: nat)
    requires ws != [] && Ready(cfg, ws[0], req, pos) && pos < |req.blocks| && |t| <= |oks|
  {
    && c < |ws| == |t| + 1
    && if done then
         && c <= |oks| && |Issued(later, oks[c..])| <= |oks[c..]|
         && ws[c] == FirstDone(cfg, ws[0], req, pos) && Plays(cfg, ws[c..], Issued(later, oks[c..]), oks[c..])
         && |t| == c + |Issued(later, oks[c..])|
         && (AllOk(t, oks) <==> AllOk(Issued(later, oks[c..]), oks[c..]))
         && Moved(t, oks) == req.blocks[pos].sectors + Moved(Issued(later, oks[c..]), oks[c..])
       else
         && c == |t| && !AllOk(t, oks) && Moved(t, oks) == 0
         && Spoiled(ws[0], req.read, Bytes(req.sector + SumTo(req.blocks, pos)), req.blocks[pos], ws[c])
  }

  lemma {:induction false} SinglePlayed(cfg: Config, ws: seq<World>, req: Request, pos: nat, later: seq<BusCmd>,
                                        oks: seq<bool>) returns (done: bool, c: nat)
    requires ws != [] && Ready(cfg, ws[0], req, pos) && pos < |req.blocks| && req.blocks[pos].sectors == 1
    requires later == [] || !later[0].StopCmd?
    requires var t := Issued(PlanBlock(cfg, req, pos, later), oks);
             |t| <= |oks| && Plays(cfg, ws, t, oks)
    ensures BlockPlayed(cfg, ws, req, pos, Issued(PlanBlock(cfg, req, pos, later), oks), oks, later, done, c)
  {
    var plan, w := PlanBlock(cfg, req, pos, later), ws[0];
    var single := plan[0];
    assert plan == [single] + later && Transfers(cfg, w, req, pos, single);
    done, c := oks[0], 1;
    if oks[0] {
      PlaysStep(cfg, ws, plan, single, later, oks);
      TransferDone(cfg, w, req, pos, single, w);
      assert w.(pending := None) == w;
    } else {
      PlaysLast(cfg, ws, plan, single, later, oks);
      TransferFailed(cfg, w, req, pos, single, w, ws[1]);
    }
  }

  /** After CMD23. */
  lemma {:induction false} AnnouncedPlayed(cfg: Config, w: World, ws: seq<World>, req: Request, pos: nat, multi: BusCmd,
                                           later: seq<BusCmd>, oks: seq<bool>)
    requires Ready(cfg, w, req, pos) && pos < |req.blocks| && Transfers(cfg, w, req, pos, multi) && multi.MultiCmd?
    requires ws != [] && ws[0] == w.(pending := Some(multi.count)) && oks != [] && (later == [] || !later[0].StopCmd?)
    requires |Issued([multi] + later, oks)| <= |oks| && Plays(cfg, ws, Issued([multi] + later, oks), oks)
    ensures var t, more := Issued([multi] + later, oks), Issued(later, oks[1..]);
            if oks[0] then
              && t == [multi] + more && |more| <= |oks[1..]| && ws[1] == FirstDone(cfg, w, req, pos)
              && Plays(cfg, ws[1..], more, oks[1..])
              && (AllOk(t, oks) <==> AllOk(more, oks[1..])) && Moved(t, oks) == multi.count + Moved(more, oks[1..])
            else
              && |t| == 1 && |ws| == 2 && !AllOk(t, oks) && Moved(t, oks) == 0
              && Spoiled(w, req.read, Bytes(req.sector + SumTo(req.blocks, pos)), req.blocks[pos], ws[1])
  {
    if oks[0] {
      PlaysStep(cfg, ws, [multi] + later, multi, later, oks);
      TransferDone(cfg, w, req, pos, multi, w);
      assert ws[0].(pending := None, open := false) == w;
    } else {
      PlaysLast(cfg, ws, [multi] + later, multi, later, oks);
      TransferFailed(cfg, w, req, pos, multi, ws[0], ws[1]);
    }
  }

  lemma {:induction false} CountTaken(cfg: Config, w: World, req: Request, pos: nat, w': World)
    requires Ready(cfg, w, req, pos) && pos < |req.blocks|
    requires Played(cfg, w, CountCmd(req.blocks[pos].sectors), true, w')
    ensures w' == w.(pending := Some(req.blocks[pos].sectors))
  {
    ReadyHead(cfg, w, req, pos);
  }

  lemma {:induction false} CountedPlayed(cfg: Config, ws: seq<World>, req: Request, pos: nat, later: seq<BusCmd>,
                                         oks: seq<bool>) returns (done: bool, c: nat)
    requires ws != [] && Ready(cfg, ws[0], req, pos) && pos < |req.blocks|
    requires req.blocks[pos].sectors != 1 && cfg.hasCmd23
    requires later == [] || !later[0].StopCmd?
    requires var t := Issued(PlanBlock(cfg, req, pos, later), oks);
             |t| <= |oks| && Plays(cfg, ws, t, oks)
    ensures BlockPlayed(cfg, ws, req, pos, Issued(PlanBlock(cfg, req, pos, later), oks), oks, later, done, c)
  {
    var plan, w := PlanBlock(cfg, req, pos, later), ws[0];
    var count, multi := plan[0], plan[1];
    assert plan == [count] + ([multi] + later) && Transfers(cfg, w, req, pos, multi);
    if !oks[0] {
      done, c := false, 1;
      PlaysLast(cfg, ws, plan, count, [multi] + later, oks);
    } else {
      done, c := oks[1], 2;
      PlaysStep(cfg, ws, plan, count, [multi] + later, oks);
      CountTaken(cfg, w, req, pos, ws[1]);
      AnnouncedPlayed(cfg, w, ws[1..], req, pos, multi, later, oks[1..]);
      assert ws[1..][1..] == ws[2..] && oks[1..][1..] == oks[2..];
    }
  }

  lemma {:induction false} StoppedPlayed(cfg: Config, ws: seq<World>, req: Request, pos: nat, later: seq<BusCmd>,
                                         oks: seq<bool>) returns (done: bool, c: nat)
    requires ws != [] && Ready(cfg, ws[0], req, pos) && pos < |req.blocks|
    requires req.blocks[pos].sectors != 1 && !cfg.hasCmd23
    requires var t := Issued(PlanBlock(cfg, req, pos, later), oks);
             |t| <= |oks| && Plays(cfg, ws, t, oks)
    ensures BlockPlayed(cfg, ws, req, pos, Issued(PlanBlock(cfg, req, pos, later), oks), oks, later, done, c)
  {
    var plan, w := PlanBlock(cfg, req, pos, later), ws[0];
    var multi, stop := plan[0], plan[1];
    assert plan == [multi] + ([stop] + later) && Transfers(cfg, w, req, pos, multi);
    done, c := oks[0], 2;
    if oks[0] {
      PlaysStep(cfg, ws, plan, multi, [stop] + later, oks);
      TransferDone(cfg, w, req, pos, multi, w.(open := true));
      PlaysStep(cfg, ws[1..], [stop] + later, stop, later, oks[1..]);
      assert ws[1..][1..] == ws[2..] && oks[1..][1..] == oks[2..];
    } else {
      PlaysLast(cfg, ws, plan, multi, [stop] + later, oks);
      TransferFailed(cfg, w, req, pos, multi, w, ws[1]);
    }
  }

  // ---- The blocks of a request by SDMA ----

  /** The first `m` blocks have been transferred one by one, and then no more, except that
      the next one, if there is one, may be spoiled. */
  ghost predicate Halted(w: World, read: bool, off: nat, bs: seq<Block>, m: nat, w': World)
    requires Fits(w, off, bs) && m <= |bs|
    decreases m
  {
    if m > 0 then
      HeadFits(w, off, bs);
      IdealSplit(w, read, off, bs);
      Halted(Ideal1(w, read, off, bs[0]), read, off + Size(bs[0]), bs[1..], m - 1, w')
    else if bs == [] then w'.mem == w.mem && w'.card == w.card
    else Spoiled(w, read, off, bs[0], w'.(table := w.table))
  }

  lemma {:induction false} HeadFits(w: World, off: nat, bs: seq<Block>)
    requires bs != [] && Fits(w, off, bs)
    ensures bs[0].addr + Size(bs[0]) <= |w.mem| && off + Size(bs[0]) <= |w.card|
  {
    assert Client(bs)[0] == Area(bs[0]);
  }

  /** One block more at the front. */
  lemma {:induction false} HaltedStep(w: World, read: bool, off: nat, bs: seq<Block>, m: nat, w': World,
                                      w1: World, next: nat, rest: seq<Block>)
    requires bs != [] && rest == bs[1..] && 0 < m <= |bs| && Fits(w, off, bs)
    requires bs[0].addr + Size(bs[0]) <= |w.mem| && next == off + Size(bs[0]) <= |w.card|
    requires w1 == Ideal1(w, read, off, bs[0]) && Fits(w1, next, rest) && Halted(w1, read, next, rest, m - 1, w')
    ensures Halted(w, read, off, bs, m, w')
  {
  }

  /** Of the blocks from `pos` on exactly those before `k` have been transferred. */
  ghost predicate HaltedFrom(cfg: Config, w: World, req: Request, pos: nat, k: nat, w': World)
    requires Reaches(cfg, w, req, pos) && pos <= k <= |req.blocks|
  {
    Halted(w, req.read, Bytes(req.sector + SumTo(req.blocks, pos)), req.blocks[pos..], k - pos, w')
  }

  lemma {:induction false} HaltedOne(cfg: Config, w: World, req: Request, pos: nat, k: nat, w': World)
    requires Reaches(cfg, w, req, pos) && pos < k <= |req.blocks| && req.blocks[pos].sectors == 0
    requires Reaches(cfg, w, req, pos + 1) && HaltedFrom(cfg, w, req, pos + 1, k, w')
    ensures HaltedFrom(cfg, w, req, pos, k, w')
  {
    var off, bs := Bytes(req.sector + SumTo(req.blocks, pos)), req.blocks[pos..];
    assert bs[0] == req.blocks[pos] && bs[1..] == req.blocks[pos + 1..];
    HeadFits(w, off, bs);
    EmptyBlock(w, req.read, off, bs[0]);
    HaltedStep(w, req.read, off, bs, k - pos, w', w, off, req.blocks[pos + 1..]);
  }

  lemma {:induction false} HaltedSkip(cfg: Config, w: World, req: Request, pos: nat, k: nat, w': World)
    requires Reaches(cfg, w, req, pos) && SkipEmpty(req.blocks, pos) <= k <= |req.blocks|
    requires Reaches(cfg, w, req, SkipEmpty(req.blocks, pos))
    requires HaltedFrom(cfg, w, req, SkipEmpty(req.blocks, pos), k, w')
    ensures HaltedFrom(cfg, w, req, pos, k, w')
    decreases |req.blocks| - pos
  {
    if pos < |req.blocks| && req.blocks[pos].sectors == 0 {
      SkipOne(cfg, w, req, pos);
      HaltedSkip(cfg, w, req, pos + 1, k, w');
      HaltedOne(cfg, w, req, pos, k, w');
    }
  }

  lemma {:induction false} HaltedAfter(cfg: Config, w: World, req: Request, pos: nat, k: nat, w': World)
    requires Ready(cfg, w, req, pos) && pos < k <= |req.blocks|
    requires var w1 := FirstDone(cfg, w, req, pos);
             Reaches(cfg, w1, req, pos + 1) && HaltedFrom(cfg, w1, req, pos + 1, k, w')
    ensures HaltedFrom(cfg, w, req, pos, k, w')
  {
    var bs, w1 := req.blocks[pos..], FirstDone(cfg, w, req, pos);
    var off, next := Bytes(req.sector + SumTo(req.blocks, pos)), Bytes(req.sector + SumTo(req.blocks, pos + 1));
    ReadyHead(cfg, w, req, pos);
    assert bs[0] == req.blocks[pos] && bs[1..] == req.blocks[pos + 1..];
    HaltedStep(w, req.read, off, bs, k - pos, w', w1, next, req.blocks[pos + 1..]);
  }

  lemma {:induction false} NextReady(cfg: Config, w: World, req: Request, pos: nat)
    requires Ready(cfg, w, req, pos) && pos < |req.blocks|
    ensures var w1 := FirstDone(cfg, w, req, pos);
            Reaches(cfg, w1, req, pos + 1) && Ready(cfg, w1, req, SkipEmpty(req.blocks, pos + 1))
  {
    StillReady(cfg, w, req, pos);
    SkipAll(cfg, FirstDone(cfg, w, req, pos), req, pos + 1);
  }

  /** Block `pos` is done, empty ones are skipped, and the run goes on. */
  lemma {:induction false} Joined(cfg: Config, w: World, req: Request, pos: nat, k: nat, w1: World, w': World)
    requires Ready(cfg, w, req, pos) && pos < |req.blocks| && w1 == FirstDone(cfg, w, req, pos)
    requires Reaches(cfg, w1, req, SkipEmpty(req.blocks, pos + 1))
    requires SkipEmpty(req.blocks, pos + 1) <= k <= |req.blocks|
    requires HaltedFrom(cfg, w1, req, SkipEmpty(req.blocks, pos + 1), k, w')
    ensures HaltedFrom(cfg, w, req, pos, k, w')
  {
    NextReady(cfg, w, req, pos);
    HaltedSkip(cfg, w1, req, pos + 1, k, w');
    HaltedAfter(cfg, w, req, pos, k, w');
  }

  /** What the commands for block `pos` do. */
  lemma {:induction false} AnyBlock(cfg: Config, ws: seq<World>, req: Request, pos: nat, later: seq<BusCmd>,
                                    oks: seq<bool>) returns (done: bool, c: nat)
    requires ws != [] && Ready(cfg, ws[0], req, pos) && pos < |req.blocks| && (later == [] || !later[0].StopCmd?)
    requires var t := Issued(PlanBlock(cfg, req, pos, later), oks);
             |t| <= |oks| && Plays(cfg, ws, t, oks)
    ensures BlockPlayed(cfg, ws, req, pos, Issued(PlanBlock(cfg, req, pos, later), oks), oks, later, done, c)
  {
    if req.blocks[pos].sectors == 1 {
      done, c := SinglePlayed(cfg, ws, req, pos, later, oks);
    } else if cfg.hasCmd23 {
      done, c := CountedPlayed(cfg, ws, req, pos, later, oks);
    } else {
      done, c := StoppedPlayed(cfg, ws, req, pos, later, oks);
    }
  }

  /** Whatever the outcomes: blocks are transferred one by one, those before some `k` have
      been when the run ends, block `k` may be spoiled, and nothing else has changed. The
      sectors counted are those of the blocks before `k`. */
  lemma {:induction false} SdmaOutcome(cfg: Config, ws: seq<World>, req: Request, pos: nat, oks: seq<bool>)
    returns (k: nat)
    requires ws != [] && Ready(cfg, ws[0], req, pos)
    requires var t := Issued(PlanFrom(cfg, req, pos), oks);
             |t| <= |oks| && Plays(cfg, ws, t, oks)
    ensures pos <= k <= |req.blocks| && HaltedFrom(cfg, ws[0], req, pos, k, ws[|ws| - 1])
    ensures Counted(req, pos, k, Issued(PlanFrom(cfg, req, pos), oks), oks)
    decreases |req.blocks| - pos, 1
  {
    if pos == |req.blocks| {
      k := pos;
    } else {
      var later := Later(cfg, req, pos);
      LaterOpens(cfg, req, pos);
      var done, c := AnyBlock(cfg, ws, req, pos, later, oks);
      if done {
        k := SdmaOnward(cfg, ws, req, pos, oks, c);
      } else {
        k := pos;
      }
    }
  }

  /** Sectors counted, and whether all went well, in terms of the block the run halted at. */
  ghost predicate Counted(req: Request, pos: nat, k: nat, t: seq<BusCmd>, oks: seq<bool>)
    requires pos <= |req.blocks| && k <= |req.blocks| && |t| <= |oks|
  {
    SumTo(req.blocks, pos) + Moved(t, oks) == SumTo(req.blocks, k) && (AllOk(t, oks) <==> k == |req.blocks|)
  }

  lemma {:induction false} SdmaOnward(cfg: Config, ws: seq<World>, req: Request, pos: nat, oks: seq<bool>, c: nat)
    returns (k: nat)
    requires ws != [] && Ready(cfg, ws[0], req, pos) && pos < |req.blocks| && !cfg.adma2
    requires |Issued(PlanFrom(cfg, req, pos), oks)| <= |oks|
    requires BlockPlayed(cfg, ws, req, pos, Issued(PlanFrom(cfg, req, pos), oks), oks, Later(cfg, req, pos), true, c)
    ensures pos <= k <= |req.blocks| && HaltedFrom(cfg, ws[0], req, pos, k, ws[|ws| - 1])
    ensures Counted(req, pos, k, Issued(PlanFrom(cfg, req, pos), oks), oks)
    decreases |req.blocks| - pos, 0
  {
    var p, more := SkipEmpty(req.blocks, pos + 1), ws[c..];
    assert SumTo(req.blocks, p) == SumTo(req.blocks, pos + 1) == SumTo(req.blocks, pos) + req.blocks[pos].sectors;
    assert more[0] == ws[c] && more[|more| - 1] == ws[|ws| - 1];
    NextReady(cfg, ws[0], req, pos);
    k := SdmaOutcome(cfg, more, req, p, oks[c..]);
    Joined(cfg, ws[0], req, pos, k, more[0], more[|more| - 1]);
  }

  /** The transfer of an empty first block fails. */
  lemma {:induction false} EmptyFailed(cfg: Config, w: World, req: Request, c: BusCmd, w': World)
    requires Reaches(cfg, w, req, 0) && req.blocks != [] && req.blocks[0].sectors == 0
    requires c == MultiCmd(req.read, req.sector, 0, false, req.blocks) && Played(cfg, w, c, false, w')
    ensures HaltedFrom(cfg, w, req, 0, 0, w'.(open := false))
  {
    assert req.blocks[0..] == req.blocks;
  }

  /** It succeeds, and so moves nothing. */
  lemma {:induction false} EmptyPassed(cfg: Config, ws: seq<World>, req: Request, c: BusCmd, later: seq<BusCmd>,
                                       oks: seq<bool>)
    requires ws != [] && Reaches(cfg, ws[0], req, 0) && req.blocks != [] && req.blocks[0].sectors == 0
    requires c == MultiCmd(req.read, req.sector, 0, false, req.blocks) && oks != [] && oks[0]
    requires var t := Issued([c] + ([StopCmd(req.read)] + later), oks);
             |t| <= |oks| && Plays(cfg, ws, t, oks)
    ensures |oks| > 1
    ensures var t, more := Issued([c] + ([StopCmd(req.read)] + later), oks), Issued(later, oks[2..]);
            && |ws| > 2 && ws[2] == ws[0] && |more| <= |oks[2..]| && Plays(cfg, ws[2..], more, oks[2..])
            && (AllOk(t, oks) <==> AllOk(more, oks[2..])) && Moved(t, oks) == Moved(more, oks[2..])
  {
    var w, stop := ws[0], StopCmd(req.read);
    PlaysStep(cfg, ws, [c] + ([stop] + later), c, [stop] + later, oks);
    EmptyMove(cfg, w.(open := true), req, c);
    PlaysStep(cfg, ws[1..], [stop] + later, stop, later, oks[1..]);
    assert ws[1..][1..] == ws[2..] && oks[1..][1..] == oks[2..];
  }

  /** The same without CMD23 where the first block is empty. */
  lemma {:induction false} EmptyOutcome(cfg: Config, ws: seq<World>, req: Request, oks: seq<bool>) returns (k: nat)
    requires ws != [] && Reaches(cfg, ws[0], req, 0) && req.blocks != [] && req.blocks[0].sectors == 0 && !cfg.hasCmd23
    requires var t := Issued(PlanFrom(cfg, req, 0), oks);
             |t| <= |oks| && Plays(cfg, ws, t, oks)
    ensures k <= |req.blocks| && HaltedFrom(cfg, ws[0], req, 0, k, ws[|ws| - 1])
    ensures Counted(req, 0, k, Issued(PlanFrom(cfg, req, 0), oks), oks)
  {
    var later := PlanFrom(cfg, req, SkipEmpty(req.blocks, 0));
    var c := MultiCmd(req.read, req.sector, 0, false, req.blocks);
    EmptyPlan(cfg, req, c, later);
    if oks[0] {
      EmptyPassed(cfg, ws, req, c, later, oks);
      k := EmptyOnward(cfg, ws[2..], req, oks[2..]);
      assert ws[2..][|ws[2..]| - 1] == ws[|ws| - 1];
    } else {
      k := 0;
      PlaysLast(cfg, ws, [c] + ([StopCmd(req.read)] + later), c, [StopCmd(req.read)] + later, oks);
      EmptyFailed(cfg, ws[0], req, c, ws[1]);
    }
  }

  lemma {:induction false} EmptyOnward(cfg: Config, ws: seq<World>, req: Request, oks: seq<bool>) returns (k: nat)
    requires ws != [] && Reaches(cfg, ws[0], req, 0)
    requires var t := Issued(PlanFrom(cfg, req, SkipEmpty(req.blocks, 0)), oks);
             |t| <= |oks| && Plays(cfg, ws, t, oks)
    ensures k <= |req.blocks| && HaltedFrom(cfg, ws[0], req, 0, k, ws[|ws| - 1])
    ensures Counted(req, 0, k, Issued(PlanFrom(cfg, req, SkipEmpty(req.blocks, 0)), oks), oks)
  {
    SkipAll(cfg, ws[0], req, 0);
    k := SdmaOutcome(cfg, ws, req, SkipEmpty(req.blocks, 0), oks);
    HaltedSkip(cfg, ws[0], req, 0, k, ws[|ws| - 1]);
  }

  // ---- Such worlds exist ----

  lemma {:induction false} PlaysCons(cfg: Config, w: World, c: BusCmd, plan: seq<BusCmd>, rest: seq<BusCmd>,
                                     ws: seq<World>,
                                     oks: seq<bool>)
    requires plan == [c] + rest && oks != [] && (oks[0] || c.StopCmd?)
    requires ws != [] && Played(cfg, w, c, oks[0], ws[0]) && Plays(cfg, ws, Issued(rest, oks[1..]), oks[1..])
    ensures Plays(cfg, [w] + ws, Issued(plan, oks), oks)
  {
    var more := Issued(rest, oks[1..]);
    assert plan[0] == c && plan[1..] == rest;
    assert Issued(plan, oks) == [c] + more && ([c] + more)[1..] == more && ([w] + ws)[1..] == ws;
  }

  /** A command may fail without having done anything, and leave the card idle. */
  lemma {:induction false} PlaysNothing(cfg: Config, w: World, c: BusCmd, plan: seq<BusCmd>, rest: seq<BusCmd>,
                                        oks: seq<bool>)
    returns (ws: seq<World>)
    requires plan == [c] + rest && oks != [] && !oks[0] && !c.StopCmd? && |Issued(plan, oks)| <= |oks|
    requires !c.CountCmd? ==> c.dma != []
    ensures ws != [] && ws[0] == w && Idle(ws[|ws| - 1]) && Plays(cfg, ws, Issued(plan, oks), oks)
  {
    var x := Resting(w);
    assert plan[0] == c && plan[1..] == rest;
    assert Played(cfg, w, c, false, x);
    if rest != [] && rest[0].StopCmd? {
      ws := [w, x, x];
      assert plan[1] == rest[0] && Issued(plan, oks) == [c] + [rest[0]];
      assert ([c] + [rest[0]])[1..] == [rest[0]] && ws[1..] == [x, x];
      assert [rest[0]][1..] == [] && ws[1..][1..] == [x];
    } else {
      ws := [w, x];
      assert Issued(plan, oks) == [c] && [c][1..] == [] && ws[1..] == [x];
    }
  }

  /** The plan goes on with `later` after the transfer of block `pos`. */
  ghost predicate Onward(cfg: Config, w: World, req: Request, pos: nat, later: seq<BusCmd>, oks: seq<bool>,
                         next: seq<World>)
    requires Ready(cfg, w, req, pos) && pos < |req.blocks|
  {
    && next != [] && next[0] == FirstDone(cfg, w, req, pos) && Idle(next[|next| - 1])
    && Plays(cfg, next, Issued(later, oks), oks)
  }

  lemma {:induction false} SinglePlayable(cfg: Config, w: World, req: Request, pos: nat, later: seq<BusCmd>,
                                          oks: seq<bool>,
                                          next: seq<World>)
    requires Ready(cfg, w, req, pos) && pos < |req.blocks| && req.blocks[pos].sectors == 1
    requires oks != [] && oks[0] && Onward(cfg, w, req, pos, later, oks[1..], next)
    ensures Plays(cfg, [w] + next, Issued(PlanBlock(cfg, req, pos, later), oks), oks)
  {
    var plan := PlanBlock(cfg, req, pos, later);
    TransferDone(cfg, w, req, pos, plan[0], w);
    assert w.(pending := None) == w;
    PlaysCons(cfg, w, plan[0], plan, later, next, oks);
  }

  /** Block `pos` announced by CMD23. */
  ghost function AfterCount(w: World, req: Request, pos: nat): World
    requires pos < |req.blocks|
  {
    w.(pending := Some(req.blocks[pos].sectors))
  }

  lemma {:induction false} CountWaits(cfg: Config, w: World, req: Request, pos: nat)
    requires Ready(cfg, w, req, pos) && pos < |req.blocks|
    ensures Played(cfg, w, CountCmd(req.blocks[pos].sectors), true, AfterCount(w, req, pos))
  {
    ReadyHead(cfg, w, req, pos);
  }

  lemma {:induction false} CountPlayable(cfg: Config, w: World, req: Request, pos: nat, later: seq<BusCmd>,
                                         oks: seq<bool>,
                                         ws: seq<World>)
    requires Ready(cfg, w, req, pos) && pos < |req.blocks| && req.blocks[pos].sectors != 1 && cfg.hasCmd23
    requires oks != [] && oks[0] && ws != [] && ws[0] == AfterCount(w, req, pos)
    requires Plays(cfg, ws, Issued(PlanBlock(cfg, req, pos, later)[1..], oks[1..]), oks[1..])
    ensures Plays(cfg, [w] + ws, Issued(PlanBlock(cfg, req, pos, later), oks), oks)
  {
    var plan, c := PlanBlock(cfg, req, pos, later), CountCmd(req.blocks[pos].sectors);
    CountWaits(cfg, w, req, pos);
    assert plan == [c] + plan[1..];
    PlaysCons(cfg, w, c, plan, plan[1..], ws, oks);
  }

  lemma {:induction false} MultiPlayable(cfg: Config, w: World, req: Request, pos: nat, multi: BusCmd,
                                         later: seq<BusCmd>,
                                         oks: seq<bool>, next: seq<World>)
    requires Ready(cfg, w, req, pos) && pos < |req.blocks| && Transfers(cfg, w, req, pos, multi) && multi.MultiCmd?
    requires oks != [] && oks[0] && Onward(cfg, w, req, pos, later, oks[1..], next)
    ensures Plays(cfg, [AfterCount(w, req, pos)] + next, Issued([multi] + later, oks), oks)
  {
    var w1 := AfterCount(w, req, pos);
    TransferDone(cfg, w, req, pos, multi, w);
    assert w1.(pending := None, open := false) == w;
    PlaysCons(cfg, w1, multi, [multi] + later, later, next, oks);
  }

  lemma {:induction false} StoppedPlayable(cfg: Config, w: World, req: Request, pos: nat, later: seq<BusCmd>,
                                           oks: seq<bool>, next: seq<World>)
    requires Ready(cfg, w, req, pos) && pos < |req.blocks| && req.blocks[pos].sectors != 1 && !cfg.hasCmd23
    requires |oks| >= 2 && oks[0] && Onward(cfg, w, req, pos, later, oks[2..], next)
    ensures Plays(cfg, [w] + ([next[0].(open := true)] + next), Issued(PlanBlock(cfg, req, pos, later), oks), oks)
  {
    var plan, w1 := PlanBlock(cfg, req, pos, later), next[0].(open := true);
    TransferDone(cfg, w, req, pos, plan[0], w.(open := true));
    assert oks[1..][1..] == oks[2..] && w1.(open := false) == next[0];
    PlaysCons(cfg, w1, plan[1], [plan[1]] + later, later, next, oks[1..]);
    PlaysCons(cfg, w, plan[0], plan, [plan[1]] + later, [w1] + next, oks);
  }

  lemma {:induction false} IssuedMore(plan: seq<BusCmd>, c: BusCmd, rest: seq<BusCmd>, oks: seq<bool>)
    requires plan == [c] + rest && oks != [] && (oks[0] || c.StopCmd?) && |Issued(plan, oks)| <= |oks|
    ensures |Issued(rest, oks[1..])| <= |oks[1..]|
  {
    assert plan[1..] == rest;
  }

  /** Whatever outcomes are given, there are worlds that go with them. */
  lemma {:induction false} SdmaPlayable(cfg: Config, w: World, req: Request, pos: nat, oks: seq<bool>)
    returns (ws: seq<World>)
    requires Ready(cfg, w, req, pos) && |Issued(PlanFrom(cfg, req, pos), oks)| <= |oks|
    ensures ws != [] && ws[0] == w && Idle(ws[|ws| - 1]) && Plays(cfg, ws, Issued(PlanFrom(cfg, req, pos), oks), oks)
    decreases |req.blocks| - pos, 2
  {
    if pos == |req.blocks| {
      ws := [w];
    } else {
      var plan := PlanFrom(cfg, req, pos);
      assert plan == [plan[0]] + plan[1..] && oks != [];
      if !oks[0] {
        ws := PlaysNothing(cfg, w, plan[0], plan, plan[1..], oks);
      } else {
        IssuedMore(plan, plan[0], plan[1..], oks);
        ws := GoodStart(cfg, w, req, pos, oks);
      }
    }
  }

  /** The same where the first command for a block succeeds. */
  lemma {:induction false} GoodStart(cfg: Config, w: World, req: Request, pos: nat, oks: seq<bool>)
    returns (ws: seq<World>)
    requires Ready(cfg, w, req, pos) && pos < |req.blocks| && oks != [] && oks[0]
    requires |Issued(PlanFrom(cfg, req, pos)[1..], oks[1..])| <= |oks[1..]|
    ensures ws != [] && ws[0] == w && Idle(ws[|ws| - 1]) && Plays(cfg, ws, Issued(PlanFrom(cfg, req, pos), oks), oks)
    decreases |req.blocks| - pos, 1
  {
    var plan, later := PlanFrom(cfg, req, pos), Later(cfg, req, pos);
    if req.blocks[pos].sectors == 1 {
      assert plan[1..] == later;
      var next := NextPlayable(cfg, w, req, pos, oks[1..]);
      SinglePlayable(cfg, w, req, pos, later, oks, next);
      ws := [w] + next;
    } else {
      assert plan[1..] == [plan[1]] + later && oks[1..] != [];
      if !cfg.hasCmd23 {
        ws := StoppedStart(cfg, w, req, pos, oks);
      } else {
        var more := CountedStart(cfg, w, req, pos, plan[1], oks[1..]);
        CountPlayable(cfg, w, req, pos, later, oks, more);
        ws := [w] + more;
      }
    }
  }

  lemma {:induction false} StoppedStart(cfg: Config, w: World, req: Request, pos: nat, oks: seq<bool>)
    returns (ws: seq<World>)
    requires Ready(cfg, w, req, pos) && pos < |req.blocks| && req.blocks[pos].sectors != 1 && !cfg.hasCmd23
    requires oks != [] && oks[0] && |Issued(PlanFrom(cfg, req, pos)[1..], oks[1..])| <= |oks[1..]|
    ensures ws != [] && ws[0] == w && Idle(ws[|ws| - 1]) && Plays(cfg, ws, Issued(PlanFrom(cfg, req, pos), oks), oks)
    decreases |req.blocks| - pos, 0
  {
    var plan, later := PlanFrom(cfg, req, pos), Later(cfg, req, pos);
    assert plan[1..] == [plan[1]] + later && oks[1..] != [];
    IssuedMore(plan[1..], plan[1], later, oks[1..]);
    assert oks[1..][1..] == oks[2..];
    var next := NextPlayable(cfg, w, req, pos, oks[2..]);
    StoppedPlayable(cfg, w, req, pos, later, oks, next);
    ws := [w] + ([next[0].(open := true)] + next);
  }

  lemma {:induction false} CountedStart(cfg: Config, w: World, req: Request, pos: nat, multi: BusCmd, oks: seq<bool>)
    returns (ws: seq<World>)
    requires Ready(cfg, w, req, pos) && pos < |req.blocks| && Transfers(cfg, w, req, pos, multi) && multi.MultiCmd?
    requires oks != [] && |Issued([multi] + Later(cfg, req, pos), oks)| <= |oks|
    ensures ws != [] && ws[0] == AfterCount(w, req, pos) && Idle(ws[|ws| - 1])
    ensures Plays(cfg, ws, Issued([multi] + Later(cfg, req, pos), oks), oks)
    decreases |req.blocks| - pos, 0
  {
    var plan, later := [multi] + Later(cfg, req, pos), Later(cfg, req, pos);
    if oks[0] {
      IssuedMore(plan, multi, later, oks);
      var next := NextPlayable(cfg, w, req, pos, oks[1..]);
      MultiPlayable(cfg, w, req, pos, multi, later, oks, next);
      ws := [AfterCount(w, req, pos)] + next;
    } else {
      ws := PlaysNothing(cfg, AfterCount(w, req, pos), multi, plan, later, oks);
    }
  }

  lemma {:induction false} NextPlayable(cfg: Config, w: World, req: Request, pos: nat, oks: seq<bool>)
    returns (next: seq<World>)
    requires Ready(cfg, w, req, pos) && pos < |req.blocks| && |Issued(Later(cfg, req, pos), oks)| <= |oks|
    ensures Onward(cfg, w, req, pos, Later(cfg, req, pos), oks, next)
    decreases |req.blocks| - pos - 1, 3
  {
    NextReady(cfg, w, req, pos);
    next := SdmaPlayable(cfg, FirstDone(cfg, w, req, pos), req, SkipEmpty(req.blocks, pos + 1), oks);
  }

  /** The transfer of an empty first block done, with worlds `next` to follow. */
  lemma {:induction false} EmptyGone(cfg: Config, w: World, req: Request, c: BusCmd, later: seq<BusCmd>,
                                     oks: seq<bool>, next: seq<World>)
    requires Reaches(cfg, w, req, 0) && req.blocks != [] && req.blocks[0].sectors == 0
    requires c == MultiCmd(req.read, req.sector, 0, false, req.blocks) && |oks| > 1 && oks[0]
    requires next != [] && next[0] == w && Plays(cfg, next, Issued(later, oks[2..]), oks[2..])
    ensures var plan := [c] + ([StopCmd(req.read)] + later);
            Plays(cfg, [w] + ([w.(open := true)] + next), Issued(plan, oks), oks)
  {
    var w1, stop := w.(open := true), StopCmd(req.read);
    assert oks[1..][1..] == oks[2..];
    EmptyMove(cfg, w1, req, c);
    PlaysCons(cfg, w1, stop, [stop] + later, later, next, oks[1..]);
    PlaysCons(cfg, w, c, [c] + ([stop] + later), [stop] + later, [w1] + next, oks);
  }

  /** The same without CMD23 where the first block is empty. */
  lemma {:induction false} EmptyPlayable(cfg: Config, w: World, req: Request, oks: seq<bool>) returns (ws: seq<World>)
    requires Reaches(cfg, w, req, 0) && req.blocks != [] && req.blocks[0].sectors == 0 && !cfg.hasCmd23
    requires |Issued(PlanFrom(cfg, req, 0), oks)| <= |oks|
    ensures ws != [] && ws[0] == w && Idle(ws[|ws| - 1]) && Plays(cfg, ws, Issued(PlanFrom(cfg, req, 0), oks), oks)
  {
    var p, stop := SkipEmpty(req.blocks, 0), StopCmd(req.read);
    var c, later := MultiCmd(req.read, req.sector, 0, false, req.blocks), PlanFrom(cfg, req, p);
    var plan := [c] + ([stop] + later);
    EmptyPlan(cfg, req, c, later);
    if oks[0] {
      IssuedMore(plan, c, [stop] + later, oks);
      IssuedMore([stop] + later, stop, later, oks[1..]);
      assert oks[1..][1..] == oks[2..];
      SkipAll(cfg, w, req, 0);
      var next := SdmaPlayable(cfg, w, req, p, oks[2..]);
      EmptyGone(cfg, w, req, c, later, oks, next);
      ws := [w] + ([w.(open := true)] + next);
    } else {
      ws := PlaysNothing(cfg, w, c, plan, [stop] + later, oks);
    }
  }

  // ---- What that means ----

  /** As the ideal transfer of the first `m` blocks leaves it, except that block `m`, if
      there is one, may be spoiled. */
  ghost predicate PartDone(w: World, read: bool, off: nat, bs: seq<Block>, m: nat, w': World)
    requires m <= |bs| && Fits(w, off, bs[..m])
  {
    var x := Ideal(w, read, off, bs[..m]);
    if m == |bs| then w'.mem == x.mem && w'.card == x.card
    else Spoiled(x, read, off + Bytes(Sum(bs[..m])), bs[m], w'.(table := x.table))
  }

  lemma {:induction false} IdealPrefix(w: World, read: bool, off: nat, bs: seq<Block>, m: nat)
    requires 0 < m <= |bs| && Fits(w, off, bs)
    requires bs[0].addr + Size(bs[0]) <= |w.mem| && off + Size(bs[0]) <= |w.card|
    requires Fits(Ideal1(w, read, off, bs[0]), off + Size(bs[0]), bs[1..][..m - 1])
    ensures var w1, next := Ideal1(w, read, off, bs[0]), off + Size(bs[0]);
            && Fits(w, off, bs[..m]) && Ideal(w, read, off, bs[..m]) == Ideal(w1, read, next, bs[1..][..m - 1])
            && off + Bytes(Sum(bs[..m])) == next + Bytes(Sum(bs[1..][..m - 1]))
  {
    var head, rest := bs[..m], bs[1..][..m - 1];
    assert head[0] == bs[0] && head[1..] == rest;
    assert Client(head)[0] == Area(bs[0]) && Client(head)[1..] == Client(rest);
    IdealSplit(w, read, off, head);
  }

  lemma {:induction false} HaltedMeans(w: World, read: bool, off: nat, bs: seq<Block>, m: nat, w': World)
    requires Fits(w, off, bs) && m <= |bs| && Halted(w, read, off, bs, m, w')
    ensures Fits(w, off, bs[..m]) && PartDone(w, read, off, bs, m, w')
    decreases m
  {
    if m == 0 {
      assert bs[..0] == [];
      NothingLeft(w, read, off);
    } else {
      var w1, next := Ideal1(w, read, off, bs[0]), off + Size(bs[0]);
      HeadFits(w, off, bs);
      IdealSplit(w, read, off, bs);
      HaltedMeans(w1, read, next, bs[1..], m - 1, w');
      PartLonger(w, read, off, bs, m, w');
    }
  }

  lemma {:induction false} PartLonger(w: World, read: bool, off: nat, bs: seq<Block>, m: nat, w': World)
    requires 0 < m <= |bs| && Fits(w, off, bs)
    requires bs[0].addr + Size(bs[0]) <= |w.mem| && off + Size(bs[0]) <= |w.card|
    requires Fits(Ideal1(w, read, off, bs[0]), off + Size(bs[0]), bs[1..][..m - 1])
    requires PartDone(Ideal1(w, read, off, bs[0]), read, off + Size(bs[0]), bs[1..], m - 1, w')
    ensures Fits(w, off, bs[..m]) && PartDone(w, read, off, bs, m, w')
  {
    IdealPrefix(w, read, off, bs, m);
    if m < |bs| {
      assert bs[m] == bs[1..][m - 1];
    }
  }

  /** A whole request by SDMA, whatever the outcomes: card and memory are as the ideal
      transfer of its first `k` blocks leaves them, but for block `k` where the run failed,
      and the report says just that. */
  lemma {:induction false} SdmaReport(cfg: Config, ws: seq<World>, req: Request, oks: seq<bool>) returns (k: nat)
    requires ws != [] && SdmaReady(cfg, ws[0], req)
    requires |Trace(cfg, Start(cfg, req), oks)| <= |oks| && Plays(cfg, ws, Trace(cfg, Start(cfg, req), oks), oks)
    ensures k <= |req.blocks| && Fits(ws[0], Bytes(req.sector), req.blocks[..k])
    ensures PartDone(ws[0], req.read, Bytes(req.sector), req.blocks, k, ws[|ws| - 1])
    ensures Advance(cfg, Start(cfg, req), oks) == Finish(k == |req.blocks|, SumTo(req.blocks, k))
  {
    k := SdmaHalts(cfg, ws, req, oks);
    AllHalted(cfg, ws[0], req, k, ws[|ws| - 1]);
    RunMeaning(cfg, req, oks);
  }

  lemma {:induction false} AllHalted(cfg: Config, w: World, req: Request, k: nat, w': World)
    requires Reaches(cfg, w, req, 0) && k <= |req.blocks| && HaltedFrom(cfg, w, req, 0, k, w')
    ensures Fits(w, Bytes(req.sector), req.blocks[..k])
    ensures PartDone(w, req.read, Bytes(req.sector), req.blocks, k, w')
  {
    assert req.blocks[0..] == req.blocks;
    HaltedMeans(w, req.read, Bytes(req.sector), req.blocks, k, w');
  }

  lemma {:induction false} SdmaHalts(cfg: Config, ws: seq<World>, req: Request, oks: seq<bool>) returns (k: nat)
    requires ws != [] && SdmaReady(cfg, ws[0], req)
    requires |Trace(cfg, Start(cfg, req), oks)| <= |oks| && Plays(cfg, ws, Trace(cfg, Start(cfg, req), oks), oks)
    ensures k <= |req.blocks| && HaltedFrom(cfg, ws[0], req, 0, k, ws[|ws| - 1])
    ensures Counted(req, 0, k, Trace(cfg, Start(cfg, req), oks), oks)
  {
    TraceIsPlanned(cfg, req, oks);
    if req.blocks[0].sectors > 0 {
      k := SdmaOutcome(cfg, ws, req, 0, oks);
    } else {
      k := EmptyOutcome(cfg, ws, req, oks);
    }
  }

  // ---- A request by ADMA2 ----

  /** Only what the request asks to change, and the bounce buffer, may have changed. */
  ghost predicate Unharmed(cfg: Config, w: World, req: Request, w': World) {
    && SameElsewhere(cfg.dma, if req.read then req.blocks else [], w.mem, w'.mem)
    && (if req.read then w'.card == w.card
        else SameOutside(Region(Bytes(req.sector), Bytes(Sum(req.blocks))), w.card, w'.card))
  }

  /** What the one transfer of an ADMA2 request leads to. */
  ghost predicate Adma2Effect(cfg: Config, w: World, req: Request, ok: bool, w': World)
    requires Fits(w, Bytes(req.sector), req.blocks)
  {
    if ok then
      var x := Ideal(w, req.read, Bytes(req.sector), req.blocks);
      w'.card == x.card && SameOutside(cfg.dma.Bounce(), x.mem, w'.mem)
    else Unharmed(cfg, w, req, w')
  }

  lemma {:induction false} Adma2Done(cfg: Config, w: World, req: Request, c: BusCmd, x: World, ok: bool, w': World)
    requires Adma2Ready(cfg, w, req) && x == w.(pending := x.pending, open := x.open)
    requires c.MultiCmd? && c == MultiCmd(req.read, req.sector, Sum(req.blocks), c.auto23, req.blocks)
    requires Played(cfg, x, c, ok, w')
    ensures Adma2Effect(cfg, w, req, ok, w')
  {
    NotEmpty(req.blocks);
    OffsetExact(cfg, req.sector, req.sector + Sum(req.blocks));
    if ok {
      var y := x.(pending := None, open := Announced(x, c).None?);
      assert y.(open := false) == w;
      MoveAll(cfg, y, req, c.auto23);
    }
  }

  /** A whole request by ADMA2: a positive report means that it has been carried out, a
      negative one that nothing else has been touched. */
  lemma {:induction false} Adma2Report(cfg: Config, ws: seq<World>, req: Request, oks: seq<bool>)
    requires ws != [] && Adma2Ready(cfg, ws[0], req) && req.blocks != []
    requires |Trace(cfg, Start(cfg, req), oks)| <= |oks| && Plays(cfg, ws, Trace(cfg, Start(cfg, req), oks), oks)
    ensures var o := Advance(cfg, Start(cfg, req), oks);
            o.Finish? && o.done == 0 && Adma2Effect(cfg, ws[0], req, o.ok, ws[|ws| - 1])
  {
    var w, plan := ws[0], PlanAll(cfg, req);
    TraceIsPlanned(cfg, req, oks);
    RunMeaning(cfg, req, oks);
    var c := MultiCmd(req.read, req.sector, Sum(req.blocks), cfg.hasCmd23 && cfg.autoCmd23, req.blocks);
    if cfg.hasCmd23 && !cfg.autoCmd23 {
      Adma2Counted(cfg, ws, req, c, oks);
    } else {
      Adma2Direct(cfg, ws, req, c, plan[1..], oks);
    }
  }

  /** The transfer comes first; a CMD12 may follow. */
  lemma {:induction false} Adma2Direct(cfg: Config, ws: seq<World>, req: Request, c: BusCmd, rest: seq<BusCmd>,
                                       oks: seq<bool>)
    requires ws != [] && Adma2Ready(cfg, ws[0], req) && oks != [] && (rest == [] || (|rest| == 1 && rest[0].StopCmd?))
    requires c.MultiCmd? && c == MultiCmd(req.read, req.sector, Sum(req.blocks), c.auto23, req.blocks)
    requires |Issued([c] + rest, oks)| <= |oks| && Plays(cfg, ws, Issued([c] + rest, oks), oks)
    ensures Adma2Effect(cfg, ws[0], req, AllOk(Issued([c] + rest, oks), oks), ws[|ws| - 1])
  {
    if oks[0] {
      PlaysStep(cfg, ws, [c] + rest, c, rest, oks);
      Adma2Done(cfg, ws[0], req, c, ws[0], true, ws[1]);
      if rest != [] {
        PlaysStep(cfg, ws[1..], rest, rest[0], [], oks[1..]);
      }
    } else {
      PlaysLast(cfg, ws, [c] + rest, c, rest, oks);
      Adma2Done(cfg, ws[0], req, c, ws[0], false, ws[1]);
    }
  }

  /** CMD23 comes first. */
  lemma {:induction false} Adma2Counted(cfg: Config, ws: seq<World>, req: Request, c: BusCmd, oks: seq<bool>)
    requires ws != [] && Adma2Ready(cfg, ws[0], req) && oks != []
    requires c.MultiCmd? && c == MultiCmd(req.read, req.sector, Sum(req.blocks), false, req.blocks)
    requires var plan := [CountCmd(c.count), c];
             |Issued(plan, oks)| <= |oks| && Plays(cfg, ws, Issued(plan, oks), oks)
    ensures Adma2Effect(cfg, ws[0], req, AllOk(Issued([CountCmd(c.count), c], oks), oks), ws[|ws| - 1])
  {
    var count, plan := CountCmd(c.count), [CountCmd(c.count), c];
    assert plan == [count] + [c] && [c] == [c] + [];
    if oks[0] {
      PlaysStep(cfg, ws, plan, count, [c], oks);
      if oks[1] {
        PlaysStep(cfg, ws[1..], [c], c, [], oks[1..]);
      } else {
        PlaysLast(cfg, ws[1..], [c], c, [], oks[1..]);
      }
      Adma2Done(cfg, ws[0], req, c, ws[1], oks[1], ws[2]);
    } else {
      PlaysLast(cfg, ws, plan, count, [c], oks);
    }
  }

  lemma {:induction false} Adma2Succeeds(cfg: Config, w: World, req: Request, c: BusCmd, x: World) returns (w': World)
    requires Adma2Ready(cfg, w, req) && x == w.(pending := x.pending)
    requires c.MultiCmd? && c == MultiCmd(req.read, req.sector, Sum(req.blocks), c.auto23, req.blocks)
    requires Announced(x, c).None? || Announced(x, c).value == c.count
    ensures Played(cfg, x, c, true, w') && w'.pending == None && w'.open == Announced(x, c).None?
  {
    var y := x.(pending := None, open := Announced(x, c).None?);
    assert y.(open := false) == w;
    MoveAll(cfg, y, req, c.auto23);
    w' := Exec(cfg, x, c).value;
  }

  /** The transfer comes first; a CMD12 may follow. */
  lemma {:induction false} DirectPlayable(cfg: Config, w: World, req: Request, c: BusCmd, rest: seq<BusCmd>,
                                          oks: seq<bool>,
                                          x: World) returns (ws: seq<World>)
    requires Adma2Ready(cfg, w, req) && (rest == [] || (|rest| == 1 && rest[0].StopCmd?))
    requires x == w.(pending := x.pending)
    requires c.MultiCmd? && c == MultiCmd(req.read, req.sector, Sum(req.blocks), c.auto23, req.blocks)
    requires if rest == [] then Announced(x, c) == Some(c.count) else Announced(x, c).None?
    requires oks != [] && |Issued([c] + rest, oks)| <= |oks|
    ensures ws != [] && ws[0] == x && Idle(ws[|ws| - 1]) && Plays(cfg, ws, Issued([c] + rest, oks), oks)
  {
    if !oks[0] {
      ws := PlaysNothing(cfg, x, c, [c] + rest, rest, oks);
    } else {
      var w1 := Adma2Succeeds(cfg, w, req, c, x);
      ws := [w1];
      if rest != [] {
        IssuedMore([c] + rest, c, rest, oks);
        var w2 := w1.(open := false);
        PlaysCons(cfg, w1, rest[0], rest, [], [w2], oks[1..]);
        ws := [w1] + [w2];
      }
      PlaysCons(cfg, x, c, [c] + rest, rest, ws, oks);
      ws := [x] + ws;
    }
  }

  /** Whatever request and outcomes are given, there are worlds that go with them. */
  lemma {:induction false} WorldsExist(cfg: Config, w: World, req: Request, oks: seq<bool>) returns (ws: seq<World>)
    requires if cfg.adma2 then Adma2Ready(cfg, w, req) else SdmaReady(cfg, w, req)
    requires req.blocks != [] && |Trace(cfg, Start(cfg, req), oks)| <= |oks|
    ensures ws != [] && ws[0] == w && Idle(ws[|ws| - 1]) && Plays(cfg, ws, Trace(cfg, Start(cfg, req), oks), oks)
  {
    TraceIsPlanned(cfg, req, oks);
    if !cfg.adma2 {
      if req.blocks[0].sectors > 0 {
        ws := SdmaPlayable(cfg, w, req, 0, oks);
      } else {
        ws := EmptyPlayable(cfg, w, req, oks);
      }
    } else {
      var n, plan := Sum(req.blocks), PlanAll(cfg, req);
      NotEmpty(req.blocks);
      if !cfg.hasCmd23 || cfg.autoCmd23 {
        assert plan == [plan[0]] + plan[1..];
        ws := DirectPlayable(cfg, w, req, plan[0], plan[1..], oks, w);
      } else {
        assert plan == [CountCmd(n)] + [plan[1]] && [plan[1]] == [plan[1]] + [];
        if !oks[0] {
          ws := PlaysNothing(cfg, w, plan[0], plan, [plan[1]], oks);
        } else {
          IssuedMore(plan, plan[0], [plan[1]], oks);
          ws := DirectPlayable(cfg, w, req, plan[1], [], oks[1..], w.(pending := Known(n)));
          PlaysCons(cfg, w, plan[0], plan, [plan[1]], ws, oks);
          ws := [w] + ws;
        }
      }
    }
  }
}
