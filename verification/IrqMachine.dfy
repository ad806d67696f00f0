/** The interrupt side of one command: how the controller's interrupt-status words drive
    a submitted command through its command phase and its data phase. */
module IrqMachine {
  import opened Mmc
  import opened CmdQueue

  /** The bits of the interrupt-status register the handlers look at. */
  datatype Bit =
    | CC | TC | DINT | BWR | BRR            // command complete, transfer complete, DMA, buffer ready
    | CTOE | CCE | CEBE | CIE | AC12E       // command timeout, CRC, end bit, index; auto command
    | DTOE | DCE | DEBE | ADMAE | DMAE      // data timeout, CRC, end bit; ADMA, DMA

  type IntStatus = set<Bit>

  const CMD_ERRORS: IntStatus := {CIE, CEBE, CCE}
  const DATA_ERRORS: IntStatus := {DEBE, DCE, DTOE, ADMAE, DMAE}

  predicate HasCmdError(w: IntStatus) {
    CIE in w || CEBE in w || CCE in w
  }

  predicate HasDataError(w: IntStatus) {
    DEBE in w || DCE in w || DTOE in w || DMAE in w || ADMAE in w
  }

  /** What the controller shows when the interrupt is handled: the status word, the number
      of blocks it still has to transfer, and whether a software reset of the command or
      the data line, should one be started, ends in time. */
  datatype Word = Word(bits: IntStatus, toXfer: uint32, reset: bool)

  /** The fields of a command the handlers read and write. */
  datatype Xfer = Xfer(status: Status, hasData: bool, blockcnt: uint32, blocksize: uint32, dataPhys: uint32)

  function View(cmd: Cmd): Xfer
    reads cmd
  {
    Xfer(cmd.status, cmd.hasData, cmd.blockcnt, cmd.blocksize, cmd.dataPhys)
  }

  /** 32-bit arithmetic of the source. */
  function Wrap(x: int): uint32 {
    x % WORD32
  }

  // ---- What one word does ----

  function CmdStatus(s: Status, hasData: bool, w: IntStatus): Status {
    if CTOE in w then CmdTimeout
    else if HasCmdError(w) || AC12E in w then CmdError
    else if CC in w then (if hasData then ProgressData else Success)
    else s
  }

  function DataStatus(s: Status, w: IntStatus): Status {
    if HasDataError(w) then DataError else if TC in w then Success else s
  }

  /** The DMA engine stopped at a buffer boundary. */
  predicate Boundary(w: Word) {
    !HasDataError(w.bits) && TC !in w.bits && DINT in w.bits && w.toXfer != 0
  }

  function DataStep(x: Xfer, w: Word, adma2: bool): Xfer {
    if Boundary(w) && !adma2 then
      x.(blockcnt := w.toXfer, dataPhys := Wrap(x.dataPhys + Wrap(Wrap(x.blockcnt - w.toXfer) * x.blocksize)))
    else x.(status := DataStatus(x.status, w.bits))
  }

  /** One interrupt: the command phase first, and the data phase with the same word if
      that starts it. */
  function Step(x: Xfer, w: Word, adma2: bool): Xfer {
    var y := if x.status.ProgressCmd? then x.(status := CmdStatus(x.status, x.hasData, w.bits)) else x;
    if y.status.ProgressData? then DataStep(y, w, adma2) else y
  }

  /** The status after one interrupt, and whether the handler throws in its data phase. */
  function StatusAfter(s: Status, hasData: bool, w: IntStatus): Status {
    var t := if s.ProgressCmd? then CmdStatus(s, hasData, w) else s;
    if t.ProgressData? then DataStatus(t, w) else t
  }

  /** The data half of the handler is entered. */
  predicate InData(s: Status, hasData: bool, w: IntStatus) {
    s.ProgressData? || (s.ProgressCmd? && CmdStatus(s, hasData, w).ProgressData?)
  }

  /** An error starts a software reset, and waiting for its end throws. */
  predicate ResetFails(s: Status, hasData: bool, w: Word) {
    s.Progress() && StatusAfter(s, hasData, w.bits).IsError() && !w.reset
  }

  /** The handler throws: a DMA boundary in ADMA2 mode, or a reset that does not end. */
  predicate Throws(s: Status, hasData: bool, w: Word, adma2: bool) {
    (adma2 && InData(s, hasData, w.bits) && Boundary(w)) || ResetFails(s, hasData, w)
  }

  /** The handler re-programs the address register of the SDMA engine. */
  predicate Resumes(s: Status, hasData: bool, w: Word, adma2: bool) {
    !adma2 && InData(s, hasData, w.bits) && Boundary(w)
  }

  function Run(x: Xfer, ws: seq<Word>, adma2: bool): Xfer
    decreases |ws|
  {
    if ws == [] then x else Run(Step(x, ws[0], adma2), ws[1..], adma2)
  }

  // ---- Acknowledgements ----

  function CmdAck(w: IntStatus): IntStatus {
    if CTOE in w then {CTOE} + w * {CC}
    else if HasCmdError(w) then w * CMD_ERRORS
    else if AC12E in w then {}
    else w * {CC}
  }

  function DataAck(w: Word, adma2: bool): IntStatus {
    if HasDataError(w.bits) then w.bits * DATA_ERRORS
    else if TC in w.bits then {TC} + w.bits * {DINT}
    else if DINT in w.bits then (if adma2 && w.toXfer != 0 then {} else {DINT})
    else if BRR in w.bits then {BRR}
    else w.bits * {BWR}
  }

  /** Only bits that were seen are acknowledged, and the bits that decide the branch are
      among them: the timeout with the completion that may come with it, every error bit of
      the phase, the completion with the DMA interrupt that may come with it, the DMA
      interrupt, or the bit of the data port. Two exceptions: an error of an automatic
      command, and the DMA interrupt for which the ADMA2 handler throws. */
  lemma {:induction false} AckSound(w: Word, adma2: bool)
    ensures var seen, c, d := w.bits, CmdAck(w.bits), DataAck(w, adma2);
            && c <= seen && d <= seen
            && (CTOE in seen ==> CTOE in c && (CC in c <==> CC in seen))
            && (CTOE !in seen && Failing(seen) ==> forall b | b in {CIE, CEBE, CCE} :: b in c <==> b in seen)
            && (CTOE !in seen && !Failing(seen) && AC12E in seen ==> c == {})
            && (CTOE !in seen && !Failing(seen) && AC12E !in seen ==> (CC in seen <==> CC in c))
            && (Spoiling(seen) ==> forall b | b in {DEBE, DCE, DTOE, DMAE, ADMAE} :: b in d <==> b in seen)
            && (!Spoiling(seen) && TC in seen ==> TC in d && (DINT in d <==> DINT in seen))
            && (!Spoiling(seen) && TC !in seen && DINT in seen ==> (DINT in d <==> !adma2 || w.toXfer == 0))
            && (!Spoiling(seen) && TC !in seen && DINT !in seen && BRR in seen ==> BRR in d)
            && (!Spoiling(seen) && TC !in seen && DINT !in seen && BRR !in seen ==> (BWR in d <==> BWR in seen))
  {
    var seen := w.bits;
    assert forall b | b in seen && b in CMD_ERRORS :: b in seen * CMD_ERRORS;
    assert forall b | b in seen && b in DATA_ERRORS :: b in seen * DATA_ERRORS;
    assert CC in seen ==> CC in seen * {CC};
    assert DINT in seen ==> DINT in seen * {DINT};
    assert BWR in seen ==> BWR in seen * {BWR};
  }

  // ---- What the bits mean ----

  /** A CRC, end-bit or index error of a command. */
  predicate Failing(w: IntStatus) {
    exists b | b in {CIE, CEBE, CCE} :: b in w
  }

  /** An error of a transfer. */
  predicate Spoiling(w: IntStatus) {
    exists b | b in {DEBE, DCE, DTOE, DMAE, ADMAE} :: b in w
  }

  /** The command phase: a timeout comes first, then errors, then completion, which only a
      command without data takes for success. */
  lemma {:induction false} CmdPhaseExact(hasData: bool, w: IntStatus)
    ensures var s := CmdStatus(ProgressCmd, hasData, w);
            && (s == CmdTimeout <==> CTOE in w)
            && (s == CmdError <==> CTOE !in w && (Failing(w) || AC12E in w))
            && (s == Success <==> !hasData && CC in w && CTOE !in w && !Failing(w) && AC12E !in w)
            && (s == ProgressData <==> hasData && CC in w && CTOE !in w && !Failing(w) && AC12E !in w)
            && (s == ProgressCmd <==> CC !in w && CTOE !in w && !Failing(w) && AC12E !in w)
            && (s.IsError() <==> CTOE in w || Failing(w) || AC12E in w)
  {
    assert HasCmdError(w) ==> Failing(w);
  }

  /** The data phase: errors come before completion. */
  lemma {:induction false} DataPhaseExact(w: IntStatus)
    ensures var s := DataStatus(ProgressData, w);
            && (s == DataError <==> Spoiling(w))
            && (s == Success <==> TC in w && !Spoiling(w))
            && (s == ProgressData <==> TC !in w && !Spoiling(w))
            && (s.IsError() <==> Spoiling(w))
  {
    assert HasDataError(w) ==> Spoiling(w);
  }

  /** The handlers throw exactly at a DMA interrupt with blocks left, while data are
      transferred by ADMA2, and after an error whose reset does not end. */
  lemma {:induction false} ThrowsExact(s: Status, hasData: bool, w: Word, adma2: bool)
    requires s.ProgressCmd? || (s.ProgressData? && hasData)
    ensures var cmdBad := s.ProgressCmd? && (CTOE in w.bits || Failing(w.bits) || AC12E in w.bits);
            var data := s.ProgressData? || (hasData && CC in w.bits && !cmdBad);
            var boundary := DINT in w.bits && TC !in w.bits && !Spoiling(w.bits) && w.toXfer != 0;
            Throws(s, hasData, w, adma2) <==>
              || (adma2 && data && boundary)
              || ((cmdBad || (data && Spoiling(w.bits))) && !w.reset)
  {
    CmdPhaseExact(hasData, w.bits);
    DataPhaseExact(w.bits);
  }

  // ---- The handlers ----

  /** The command half; `threw` if the reset after an error does not end; tuning
      commands are not part of this model. */
  method HandleIrqCmd(cmd: Cmd, w: Word) returns (ack: IntStatus, threw: bool)
    modifies cmd`status
    ensures cmd.status == CmdStatus(old(cmd.status), cmd.hasData, w.bits)
    ensures threw <==> cmd.status.IsError() && !w.reset
    ensures ack == CmdAck(w.bits)
  {
    var bits := w.bits;
    ack := {};
    if CTOE in bits {
      ack := {CTOE} + bits * {CC};
      cmd.status := CmdTimeout;
    } else if HasCmdError(bits) {
      ack := bits * CMD_ERRORS;
      cmd.status := CmdError;
    } else if AC12E in bits {
      cmd.status := CmdError;
    } else if CC in bits {
      ack := {CC};
      cmd.status := if cmd.hasData then ProgressData else Success;
    }
    threw := cmd.status.IsError() && !w.reset;
  }

  /** The data half. `dsAddr` is what is written to the address register of the SDMA
      engine. Transfers through the data port happen only during setup and are not part
      of this model. */
  method HandleIrqData(cmd: Cmd, w: Word, adma2: bool)
    returns (ack: IntStatus, threw: bool, dsAddr: Option<uint32>)
    modifies cmd`status, cmd`blockcnt, cmd`dataPhys
    ensures View(cmd) == DataStep(old(View(cmd)), w, adma2)
    ensures threw <==> (adma2 && Boundary(w)) || (cmd.status.IsError() && !w.reset)
    ensures dsAddr == if !adma2 && Boundary(w) then Some(cmd.dataPhys) else None
    ensures ack == DataAck(w, adma2)
  {
    ack, threw, dsAddr := {}, false, None;
    if HasDataError(w.bits) {
      ack := w.bits * DATA_ERRORS;
      cmd.status := DataError;
    } else if TC in w.bits {
      ack := {TC} + w.bits * {DINT};
      cmd.status := Success;
    } else if DINT in w.bits {
      ack := {DINT};
      if w.toXfer != 0 {
        if adma2 {
          return {}, true, None;
        }
        var xferred := Wrap(cmd.blockcnt - w.toXfer);
        var moved := Wrap(xferred * cmd.blocksize);
        cmd.blockcnt := Wrap(cmd.blockcnt - xferred);
        cmd.dataPhys := Wrap(cmd.dataPhys + moved);
        dsAddr := Some(cmd.dataPhys);
        Remainder(old(cmd.blockcnt), w.toXfer);
      }
    } else if BRR in w.bits {
      ack := {BRR};
    } else if BWR in w.bits {
      ack := {BWR};
    }
    threw := cmd.status.IsError() && !w.reset;
  }

  lemma {:induction false} Remainder(n: uint32, k: uint32)
    ensures Wrap(n - Wrap(n - k)) == k
  {
  }

  /** Driver part of interrupt handling for the command being worked on. */
  method HandleIrq(cmd: Cmd, w: Word, adma2: bool) returns (threw: bool, dsAddr: Option<uint32>)
    modifies cmd`status, cmd`blockcnt, cmd`dataPhys
    ensures View(cmd) == Step(old(View(cmd)), w, adma2)
    ensures cmd.status == StatusAfter(old(cmd.status), cmd.hasData, w.bits)
    ensures threw <==> Throws(old(cmd.status), cmd.hasData, w, adma2)
    ensures dsAddr == if Resumes(old(cmd.status), cmd.hasData, w, adma2) then Some(cmd.dataPhys) else None
  {
    threw, dsAddr := false, None;
    if cmd.status.ProgressCmd? {
      var ack;
      ack, threw := HandleIrqCmd(cmd, w);
      if threw {
        return;
      }
    }
    if cmd.status.ProgressData? {
      var ack;
      ack, threw, dsAddr := HandleIrqData(cmd, w, adma2);
    }
  }

  // ---- Every stream of words ----

  function Rank(s: Status): nat {
    match s
    case ReadyForSubmit => 0
    case ProgressCmd => 1
    case ProgressData => 2
    case _ => 3
  }

  /** The status only moves forward, and not at all once it is final or before the
      command has been submitted. */
  lemma {:induction false} Forward(x: Xfer, ws: seq<Word>, adma2: bool)
    ensures Rank(Run(x, ws, adma2).status) >= Rank(x.status)
    ensures !x.status.Progress() ==> Run(x, ws, adma2) == x
    ensures x.status.Progress() && Rank(Run(x, ws, adma2).status) == 3
            ==> Run(x, ws, adma2).status in {Success, CmdTimeout, CmdError, DataError}
    decreases |ws|
  {
    if ws == [] {
    } else {
      Forward(Step(x, ws[0], adma2), ws[1..], adma2);
    }
  }

  predicate AcceptsCmd(w: IntStatus) {
    CC in w && CTOE !in w && !HasCmdError(w) && AC12E !in w
  }

  predicate AcceptsData(w: IntStatus) {
    TC in w && !HasDataError(w)
  }

  /** A command that transfers data succeeds only if some word reports its command phase
      complete and that word or a later one reports the transfer complete, both without
      an error bit. */
  lemma {:induction false} SuccessMeansBothPhases(x: Xfer, ws: seq<Word>, adma2: bool) returns (c: nat, d: nat)
    requires x.hasData && x.status.Progress() && Run(x, ws, adma2).status.Success?
    ensures c <= d < |ws| && AcceptsData(ws[d].bits)
    ensures x.status.ProgressCmd? ==> AcceptsCmd(ws[c].bits)
    decreases |ws|
  {
    var y := Step(x, ws[0], adma2);
    if y.status.Success? {
      c, d := 0, 0;
    } else {
      Forward(y, ws[1..], adma2);
      c, d := SuccessMeansBothPhases(y, ws[1..], adma2);
      c, d := if y.status == x.status then c + 1 else 0, d + 1;
    }
  }

  /** First word from which the command phase takes anything. */
  function CmdDecided(ws: seq<Word>): (i: nat)
    ensures i <= |ws|
    ensures i < |ws| ==> exists b | b in {CC, CTOE, CIE, CEBE, CCE, AC12E} :: b in ws[i].bits
    ensures forall k | 0 <= k < i :: forall b | b in {CC, CTOE, CIE, CEBE, CCE, AC12E} :: b !in ws[k].bits
  {
    if ws == [] then 0
    else if exists b | b in {CC, CTOE, CIE, CEBE, CCE, AC12E} :: b in ws[0].bits then 0
    else 1 + CmdDecided(ws[1..])
  }

  /** First word from which the data phase takes anything but a DMA boundary. */
  function DataDecided(ws: seq<Word>): (i: nat)
    ensures i <= |ws|
    ensures i < |ws| ==> exists b | b in {TC, DEBE, DCE, DTOE, DMAE, ADMAE} :: b in ws[i].bits
    ensures forall k | 0 <= k < i :: forall b | b in {TC, DEBE, DCE, DTOE, DMAE, ADMAE} :: b !in ws[k].bits
  {
    if ws == [] then 0
    else if exists b | b in {TC, DEBE, DCE, DTOE, DMAE, ADMAE} :: b in ws[0].bits then 0
    else 1 + DataDecided(ws[1..])
  }

  lemma {:induction false} StepStatus(x: Xfer, w: Word, adma2: bool)
    ensures Step(x, w, adma2).status == StatusAfter(x.status, x.hasData, w.bits)
    ensures Step(x, w, adma2).hasData == x.hasData
  {
  }

  /** Over every stream a transfer succeeds if and only if the first word that reports
      completion or an error reports completion and no error. */
  lemma {:induction false} DataStream(x: Xfer, ws: seq<Word>, adma2: bool)
    requires x.status.ProgressData?
    ensures var d, s := DataDecided(ws), Run(x, ws, adma2).status;
            if d == |ws| then s == ProgressData
            else s == if Spoiling(ws[d].bits) then DataError else Success
    decreases |ws|
  {
    if ws == [] {
    } else {
      StepStatus(x, ws[0], adma2);
      DataPhaseExact(ws[0].bits);
      if DataDecided(ws) == 0 {
        Forward(Step(x, ws[0], adma2), ws[1..], adma2);
      } else {
        DataStream(Step(x, ws[0], adma2), ws[1..], adma2);
      }
    }
  }

  /** Over every stream a command is decided by the first word that says anything about its
      command phase; if that completes it, a command without data has succeeded, and a
      transfer is decided by that word or the first later one that says anything about its
      data phase. */
  lemma {:induction false} CmdStream(x: Xfer, ws: seq<Word>, adma2: bool)
    requires x.status.ProgressCmd?
    ensures var c, s := CmdDecided(ws), Run(x, ws, adma2).status;
            if c == |ws| then s == ProgressCmd
            else if CTOE in ws[c].bits then s == CmdTimeout
            else if Failing(ws[c].bits) || AC12E in ws[c].bits then s == CmdError
            else if !x.hasData then s == Success
            else
              var rest := ws[c..];
              var d := DataDecided(rest);
              if d == |rest| then s == ProgressData
              else s == if Spoiling(rest[d].bits) then DataError else Success
    decreases |ws|
  {
    if ws == [] {
    } else {
      var y := Step(x, ws[0], adma2);
      StepStatus(x, ws[0], adma2);
      CmdPhaseExact(x.hasData, ws[0].bits);
      if CmdDecided(ws) > 0 {
        assert ws[CmdDecided(ws)..] == ws[1..][CmdDecided(ws[1..])..];
        CmdStream(y, ws[1..], adma2);
      } else {
        assert ws[0..] == ws;
        Decided(x, ws, adma2);
      }
    }
  }

  /** The first word says something about the command phase. */
  lemma {:induction false} Decided(x: Xfer, ws: seq<Word>, adma2: bool)
    requires x.status.ProgressCmd? && ws != [] && CmdDecided(ws) == 0
    ensures var w, s := ws[0].bits, Run(x, ws, adma2).status;
            if CTOE in w then s == CmdTimeout
            else if Failing(w) || AC12E in w then s == CmdError
            else if !x.hasData then s == Success
            else
              var d := DataDecided(ws);
              if d == |ws| then s == ProgressData else s == if Spoiling(ws[d].bits) then DataError else Success
  {
    var y := Step(x, ws[0], adma2);
    StepStatus(x, ws[0], adma2);
    CmdPhaseExact(x.hasData, ws[0].bits);
    DataPhaseExact(ws[0].bits);
    if y.status.ProgressData? {
      DataStream(y, ws[1..], adma2);
    } else {
      Forward(y, ws[1..], adma2);
    }
  }

  /** End of the memory the DMA engine still has to reach, in 32 bits. */
  function End(x: Xfer): uint32 {
    Wrap(x.dataPhys + x.blockcnt * x.blocksize)
  }

  lemma {:induction false} BoundaryKeepsEnd(p: uint32, n: uint32, k: uint32, size: uint32)
    ensures Wrap(Wrap(p + Wrap(Wrap(n - k) * size)) + k * size) == Wrap(p + n * size)
  {
    var d := Wrap(n - k);
    var q := (n - k) / WORD32;
    assert d == n - k - q * WORD32;
    assert d * size == n * size - k * size - q * size * WORD32 by {
      assert (n - k - q * WORD32) * size == n * size - k * size - q * WORD32 * size;
    }
    WrapSum(p, d * size);
    WrapSum(k * size, p + d * size);
    WrapShift(p + n * size, q * size);
  }

  lemma {:induction false} WrapSum(a: int, b: int)
    ensures Wrap(a + Wrap(b)) == Wrap(a + b)
    ensures Wrap(Wrap(b) + a) == Wrap(a + b)
  {
  }

  lemma {:induction false} WrapShift(a: int, q: int)
    ensures Wrap(a - q * WORD32) == Wrap(a)
  {
  }

  /** Whatever block counts the controller reports at buffer boundaries, address and block
      count of the command denote the same end of its memory. */
  lemma {:induction false} EndKept(x: Xfer, ws: seq<Word>)
    ensures End(Run(x, ws, false)) == End(x)
    ensures Run(x, ws, false).blocksize == x.blocksize
    decreases |ws|
  {
    if ws == [] {
    } else {
      StepKeepsEnd(x, ws[0]);
      EndKept(Step(x, ws[0], false), ws[1..]);
    }
  }

  lemma {:induction false} StepKeepsEnd(x: Xfer, w: Word)
    ensures End(Step(x, w, false)) == End(x) && Step(x, w, false).blocksize == x.blocksize
  {
    var y := Step(x, w, false);
    if Resumes(x.status, x.hasData, w, false) {
      StepAtBoundary(x, w);
    } else {
      assert y.dataPhys == x.dataPhys && y.blockcnt == x.blockcnt && y.blocksize == x.blocksize;
    }
  }

  lemma {:induction false} StepAtBoundary(x: Xfer, w: Word)
    requires Resumes(x.status, x.hasData, w, false)
    ensures End(Step(x, w, false)) == End(x) && Step(x, w, false).blocksize == x.blocksize
  {
    BoundaryKeepsEnd(x.dataPhys, x.blockcnt, w.toXfer, x.blocksize);
  }

  // ---- The address register of the SDMA engine ----

  /** A command and what was last written to the address register. */
  datatype Sdma = Sdma(x: Xfer, reg: uint32)

  /** Submitting a transfer of `n` blocks from memory at `addr`. `offset` is added to get
      from a CPU address to the bus address the engine takes. */
  function Submit(addr: nat, n: uint32, size: uint32, offset: nat): Sdma {
    Sdma(Xfer(ProgressCmd, true, n, size, Wrap(addr)), Wrap(Wrap(addr) + offset))
  }

  /** At a boundary the source writes the CPU address, without the offset. */
  function StepSdma(s: Sdma, w: Word): Sdma {
    var x := Step(s.x, w, false);
    Sdma(x, if Resumes(s.x.status, s.x.hasData, w, false) then x.dataPhys else s.reg)
  }

  function RunSdma(s: Sdma, ws: seq<Word>): Sdma
    decreases |ws|
  {
    if ws == [] then s else RunSdma(StepSdma(s, ws[0]), ws[1..])
  }

  /** The engine has stopped at a buffer boundary: data are being transferred, and the
      controller reports the DMA interrupt with blocks left, no completion and no error. */
  predicate AtBoundary(s: Status, hasData: bool, w: Word) {
    && (s.ProgressData?
        || (s.ProgressCmd? && hasData && CC in w.bits && CTOE !in w.bits && !Failing(w.bits) && AC12E !in w.bits))
    && DINT in w.bits && TC !in w.bits && !Spoiling(w.bits) && w.toXfer != 0
  }

  /** Exactly then it is set going again. */
  lemma {:induction false} ResumesMeans(s: Status, hasData: bool, w: Word)
    ensures Resumes(s, hasData, w, false) <==> AtBoundary(s, hasData, w)
  {
    CmdPhaseExact(hasData, w.bits);
    DataPhaseExact(w.bits);
  }

  /** Some word of the stream reports a boundary. */
  predicate Resumed(s: Sdma, ws: seq<Word>)
    decreases |ws|
  {
    ws != [] && (AtBoundary(s.x.status, s.x.hasData, ws[0]) || Resumed(StepSdma(s, ws[0]), ws[1..]))
  }

  /** Blocks that are left, as the controller has last reported it at a boundary. */
  function Reported(s: Sdma, ws: seq<Word>, n: uint32): uint32
    decreases |ws|
  {
    if ws == [] then n
    else
      Reported(StepSdma(s, ws[0]), ws[1..], if AtBoundary(s.x.status, s.x.hasData, ws[0]) then ws[0].toXfer else n)
  }

  /** The command counts these blocks. */
  lemma {:induction false} CountFollows(s: Sdma, ws: seq<Word>)
    ensures RunSdma(s, ws).x.blockcnt == Reported(s, ws, s.x.blockcnt)
    decreases |ws|
  {
    if ws == [] {
    } else {
      ResumesMeans(s.x.status, s.x.hasData, ws[0]);
      CountFollows(StepSdma(s, ws[0]), ws[1..]);
    }
  }

  function Span(blocks: int, size: uint32): int {
    blocks * size
  }

  /** The engine has been pointed at the bus address behind the bytes that are done: `n`
      blocks from `addr` on but for those that are left. */
  predicate OnTrack(s: Sdma, ws: seq<Word>, addr: nat, n: uint32, size: uint32, offset: nat) {
    RunSdma(s, ws).reg == Wrap(addr + Span(n - Reported(s, ws, n), size) + offset)
  }

  /** CPU address of what is left, from what was there at the start. */
  lemma {:induction false} AddressLeft(addr: nat, n: uint32, size: uint32, x: Xfer)
    requires x.blocksize == size && End(x) == Wrap(addr + n * size)
    ensures x.dataPhys == Wrap(addr + Span(n - x.blockcnt, size))
  {
    var a, b, c := x.dataPhys, x.blockcnt * size, addr + n * size;
    assert (n - x.blockcnt) * size == n * size - b;
    Cancel(a, b, c);
  }

  lemma {:induction false} Cancel(a: uint32, b: int, c: int)
    requires Wrap(a + b) == Wrap(c)
    ensures a == Wrap(c - b)
  {
    var q := (a + b) / WORD32 - c / WORD32;
    assert c - b == a - q * WORD32;
    WrapShift(a, q);
  }

  /** A shift by `offset` can be seen unless it is a multiple of 2^32. */
  lemma {:induction false} OffsetSeen(reg: uint32, v: int, offset: nat)
    requires reg == Wrap(v)
    ensures reg == Wrap(v + offset) <==> Wrap(offset) == 0
  {
  }

  lemma {:induction false} SdmaRun(s: Sdma, ws: seq<Word>)
    ensures RunSdma(s, ws).x == Run(s.x, ws, false)
    decreases |ws|
  {
    if ws == [] {
    } else {
      SdmaRun(StepSdma(s, ws[0]), ws[1..]);
    }
  }

  /** Without a boundary nothing is written, and no block counts as done. */
  lemma {:induction false} Undisturbed(s: Sdma, ws: seq<Word>)
    requires !Resumed(s, ws)
    ensures RunSdma(s, ws).reg == s.reg && RunSdma(s, ws).x.blockcnt == s.x.blockcnt
    decreases |ws|
  {
    if ws == [] {
    } else {
      ResumesMeans(s.x.status, s.x.hasData, ws[0]);
      Undisturbed(StepSdma(s, ws[0]), ws[1..]);
    }
  }

  /** After a boundary the register holds the address kept in the command. */
  lemma {:induction false} RegisterFollows(s: Sdma, ws: seq<Word>)
    requires Resumed(s, ws) || s.reg == s.x.dataPhys
    ensures RunSdma(s, ws).reg == RunSdma(s, ws).x.dataPhys
    decreases |ws|
  {
    if ws == [] {
    } else {
      ResumesMeans(s.x.status, s.x.hasData, ws[0]);
      RegisterFollows(StepSdma(s, ws[0]), ws[1..]);
    }
  }

  lemma {:induction false} SubmitEnd(addr: nat, n: uint32, size: uint32, offset: nat)
    ensures var s := Submit(addr, n, size, offset);
            End(s.x) == Wrap(addr + n * size) && s.reg == Wrap(addr + offset)
  {
    WrapSum(n * size, addr);
    WrapSum(offset, addr);
  }

  /** Once a boundary has been handled, the register holds the CPU address of what is
      left. */
  lemma {:induction false} LeftOff(s: Sdma, addr: nat, n: uint32, ws: seq<Word>)
    requires Resumed(s, ws) && End(s.x) == Wrap(addr + n * s.x.blocksize)
    ensures var t := RunSdma(s, ws);
            t.reg == Wrap(addr + Span(n - t.x.blockcnt, s.x.blocksize))
  {
    SameEnd(s, ws);
    AddressLeft(addr, n, s.x.blocksize, RunSdma(s, ws).x);
  }

  lemma {:induction false} SameEnd(s: Sdma, ws: seq<Word>)
    requires Resumed(s, ws)
    ensures var t := RunSdma(s, ws);
            t.reg == t.x.dataPhys && t.x.blocksize == s.x.blocksize && End(t.x) == End(s.x)
  {
    SdmaRun(s, ws);
    EndKept(s.x, ws);
    RegisterFollows(s, ws);
  }

  lemma {:induction false} TrackAfterBoundary(s: Sdma, addr: nat, offset: nat, ws: seq<Word>)
    requires Resumed(s, ws) && End(s.x) == Wrap(addr + s.x.blockcnt * s.x.blocksize)
    ensures OnTrack(s, ws, addr, s.x.blockcnt, s.x.blocksize, offset) <==> Wrap(offset) == 0
  {
    var n, t := s.x.blockcnt, RunSdma(s, ws);
    CountFollows(s, ws);
    LeftOff(s, addr, n, ws);
    OffsetSeen(t.reg, addr + Span(n - t.x.blockcnt, s.x.blocksize), offset);
  }

  lemma {:induction false} TrackWithoutBoundary(s: Sdma, addr: nat, size: uint32, offset: nat, ws: seq<Word>)
    requires !Resumed(s, ws) && s.reg == Wrap(addr + offset)
    ensures OnTrack(s, ws, addr, s.x.blockcnt, size, offset)
  {
    CountFollows(s, ws);
    Undisturbed(s, ws);
    assert Span(0, size) == 0;
  }

  /** Over every stream of words: the engine is on track if and only if the offset is a
      multiple of 2^32 or no boundary was handled. */
  lemma {:induction false} ResumesExactly(addr: nat, n: uint32, size: uint32, offset: nat, ws: seq<Word>)
    ensures var s := Submit(addr, n, size, offset);
            OnTrack(s, ws, addr, n, size, offset) <==> Wrap(offset) == 0 || !Resumed(s, ws)
  {
    var s := Submit(addr, n, size, offset);
    SubmitEnd(addr, n, size, offset);
    if Resumed(s, ws) {
      TrackAfterBoundary(s, addr, offset, ws);
    } else {
      TrackWithoutBoundary(s, addr, size, offset, ws);
    }
  }

  /** For all streams at once: on track if and only if the offset is a multiple of 2^32. */
  lemma {:induction false} OffsetExact(addr: nat, n: uint32, size: uint32, offset: nat)
    ensures (forall ws :: OnTrack(Submit(addr, n, size, offset), ws, addr, n, size, offset))
       <==> Wrap(offset) == 0
  {
    var s := Submit(addr, n, size, offset);
    if Wrap(offset) == 0 {
      forall ws ensures OnTrack(s, ws, addr, n, size, offset) {
        ResumesExactly(addr, n, size, offset, ws);
      }
    } else {
      var w := Word({CC, DINT}, 1, true);
      FirstBoundary(s, w);
      ResumesExactly(addr, n, size, offset, [w]);
    }
  }

  const BCM2711_OFFSET := 0xc000_0000

  /** On a Bcm2711 board of an old revision the first boundary sends the engine 1 GB
      further than it should go. */
  lemma {:induction false} OldBcm2711Derails(addr: nat, n: uint32, size: uint32, k: uint32, reset: bool)
    requires k != 0
    ensures var s, w := Submit(addr, n, size, BCM2711_OFFSET), Word({CC, DINT}, k, reset);
            && !OnTrack(s, [w], addr, n, size, BCM2711_OFFSET)
            && StepSdma(s, w).reg == Wrap(addr + Span(n - k, size) + BCM2711_OFFSET + 0x4000_0000)
  {
    var s, w := Submit(addr, n, size, BCM2711_OFFSET), Word({CC, DINT}, k, reset);
    FirstBoundary(s, w);
    ResumesExactly(addr, n, size, BCM2711_OFFSET, [w]);
    SubmitEnd(addr, n, size, BCM2711_OFFSET);
    LeftOff(s, addr, n, [w]);
    OneGigabyte(addr + Span(n - k, size));
  }

  lemma {:induction false} OneGigabyte(v: int)
    ensures Wrap(v) == Wrap(v + BCM2711_OFFSET + 0x4000_0000)
  {
    WrapShift(v, -1);
  }

  lemma {:induction false} FirstBoundary(s: Sdma, w: Word)
    requires s.x.status == ProgressCmd && s.x.hasData
    requires CmdStatus(ProgressCmd, true, w.bits).ProgressData? && Boundary(w)
    ensures Resumed(s, [w]) && RunSdma(s, [w]) == StepSdma(s, w) && StepSdma(s, w).x.blockcnt == w.toXfer
  {
    ResumesMeans(s.x.status, true, w);
    assert [w][1..] == [];
  }
}
