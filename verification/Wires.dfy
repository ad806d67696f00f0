/** Commands as the controller gets them: cut to the widths of its registers. */
module Wires {
  import opened Mmc
  import opened Adma2
  import opened Capacity
  import opened Protocol
  import opened Runs

  datatype Payload = Payload(count: uint32, auto23: bool, dma: seq<Block>)

  /** A command as the controller gets it. */
  datatype Wire = Wire(op: Opcode, arg: uint32, data: Option<Payload>)

  function DataOp(read: bool, multi: bool): Opcode {
    if multi then (if read then ReadMultiple else WriteMultiple) else (if read then ReadSingle else WriteSingle)
  }

  function StopOp(read: bool): Opcode {
    if read then StopRead else StopWrite
  }

  function OnWire(cfg: Config, c: BusCmd): Wire {
    match c
    case CountCmd(n) => Wire(SetBlockCount, n % 65536, None)
    case SingleCmd(read, sector, dma) => Wire(DataOp(read, false), Arg(cfg, sector), Some(Payload(1, false, dma)))
    case MultiCmd(read, sector, count, auto23, dma) =>
      Wire(DataOp(read, true), Arg(cfg, sector), Some(Payload(count % WORD32, auto23, dma)))
    case StopCmd(read) => Wire(StopOp(read), 0, None)
  }

  ghost function WireLog(cfg: Config, bus: seq<BusCmd>): seq<Wire> {
    if bus == [] then [] else var n := |bus| - 1; WireLog(cfg, bus[..n]) + [OnWire(cfg, bus[n])]
  }

  /** The check of the controller driver on what it is given. */
  predicate Refused(cfg: Config, w: Wire) {
    w.data.Some? && (w.data.value.count > MAX_BLOCKS || (cfg.adma2 && !BuildOk(cfg.dma, w.data.value.dma, 0, 0)))
  }

  lemma {:induction false} RefusedMeans(cfg: Config, c: BusCmd)
    ensures SubmitFails(cfg, c) <==> Refused(cfg, OnWire(cfg, c))
  {
  }

  lemma {:induction false} LogSnoc(cfg: Config, bus: seq<BusCmd>, c: BusCmd)
    ensures WireLog(cfg, bus + [c]) == WireLog(cfg, bus) + [OnWire(cfg, c)]
  {
    assert (bus + [c])[..|bus|] == bus;
  }

  predicate ReadOp(op: Opcode) {
    op in {ReadSingle, ReadMultiple, StopRead}
  }

  predicate WriteOp(op: Opcode) {
    op in {WriteSingle, WriteMultiple, StopWrite}
  }

  /** In every run, as the controller gets it: all commands but CMD23 have the direction of
      the request; a CMD12 comes exactly after a transfer of several sectors without CMD23,
      and is the one of its direction; and a CMD23 names the count of the transfer that
      follows it, in 16 bits. */
  lemma {:induction false} WireBrackets(cfg: Config, req: Request, oks: seq<bool>, i: nat)
    requires req.blocks != [] && i < |Trace(cfg, Start(cfg, req), oks)|
    ensures var t := Trace(cfg, Start(cfg, req), oks);
            var x := OnWire(cfg, t[i]);
            && (x.op == SetBlockCount || if req.read then ReadOp(x.op) else WriteOp(x.op))
            && (x.data.Some? <==> x.op in {ReadSingle, ReadMultiple, WriteSingle, WriteMultiple})
            && (x.op in {StopRead, StopWrite} <==> i > 0 && !cfg.hasCmd23 && Several(OnWire(cfg, t[i - 1]).op))
            && (i > 0 && OnWire(cfg, t[i - 1]).op == SetBlockCount
                ==> Several(x.op) && x.data.value.count % 65536 == OnWire(cfg, t[i - 1]).arg && !x.data.value.auto23)
            && (x.op in {ReadSingle, WriteSingle} ==> x.data.value.count == 1 && !cfg.adma2)
  {
    RunBrackets(cfg, req, oks, i);
    RunKinds(cfg, req, oks, i);
    Ops(cfg, Trace(cfg, Start(cfg, req), oks)[i]);
    if i > 0 {
      RunKinds(cfg, req, oks, i - 1);
      Ops(cfg, Trace(cfg, Start(cfg, req), oks)[i - 1]);
    }
  }

  predicate Several(op: Opcode) {
    op in {ReadMultiple, WriteMultiple}
  }

  lemma {:induction false} Ops(cfg: Config, c: BusCmd)
    ensures var x := OnWire(cfg, c);
            && (c.MultiCmd? <==> Several(x.op)) && (c.StopCmd? <==> x.op in {StopRead, StopWrite})
            && (c.CountCmd? <==> x.op == SetBlockCount)
            && (c.CountCmd? ==> x.arg == c.n % 65536)
            && (c.MultiCmd? ==> x.data.value.count % 65536 == c.count % 65536)
  {
  }
}
