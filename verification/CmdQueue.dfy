/** The command context and the ring of command slots with its three cursors. */
module CmdQueue {
  import opened Mmc

  const ENTRIES := 32

  class Cmd {
    var status: Status
    var statusCmd12: Status    // status of the transfer a CMD12 closes
    var op: Opcode
    var arg: uint32
    var blockcnt: uint32
    var blocksize: uint32
    var dataPhys: uint32
    // flags
    var enqueued: bool
    var hasData: bool
    var inout: bool
    var inoutRead: bool
    var inoutCmd12: bool
    var autoCmd23: bool
    // inout
    var sector: uint32
    var sectorsDone: uint32
    var blocks: seq<Block>     // remaining blocks, [] at the end of the list
    var cb: Option<nat>

    constructor ()
      ensures !enqueued && cb == None
    {
      status, statusCmd12, op := Uninitialized, Uninitialized, NoCmd;
      arg, blockcnt, blocksize, dataPhys, sector, sectorsDone := 0, 0, 0, 0, 0, 0;
      enqueued, hasData, inout, inoutRead, inoutCmd12, autoCmd23 := false, false, false, false, false, false;
      blocks, cb := [], None;
    }

    /** All flags but `enqueued` are cleared. */
    method ResetFlags()
      modifies this`hasData, this`inout, this`inoutRead, this`inoutCmd12, this`autoCmd23
      ensures !hasData && !inout && !inoutRead && !inoutCmd12 && !autoCmd23
    {
      hasData, inout, inoutRead, inoutCmd12, autoCmd23 := false, false, false, false, false;
    }

    method InitInout(sectorVal: nat, blocksVal: seq<Block>, cbVal: nat, read: bool)
      modifies this`op, this`hasData, this`inout, this`inoutRead, this`inoutCmd12, this`autoCmd23,
               this`sector, this`sectorsDone, this`blocks, this`cb
      ensures op == NoCmd && inout && inoutRead == read
      ensures !hasData && !inoutCmd12 && !autoCmd23
      ensures sector == sectorVal % WORD32 && sectorsDone == 0
      ensures blocks == blocksVal && cb == Some(cbVal)
    {
      op := NoCmd;
      ResetFlags();
      inout, inoutRead := true, read;
      sector, sectorsDone := sectorVal % WORD32, 0;
      blocks, cb := blocksVal, Some(cbVal);
    }

    method ReinitInoutNodata(opVal: Opcode, argVal: uint32)
      modifies this`op, this`arg, this`hasData, this`status
      ensures op == opVal && arg == argVal && !hasData && status == ReadyForSubmit
    {
      op, arg, hasData, status := opVal, argVal, false, ReadyForSubmit;
    }

    method ReinitInoutData(opVal: Opcode, argVal: uint32, blockcntVal: uint32, auto: bool)
      modifies this`op, this`arg, this`blockcnt, this`blocksize, this`hasData, this`autoCmd23, this`status
      ensures op == opVal && arg == argVal && blockcnt == blockcntVal && blocksize == SECTOR_SIZE
      ensures hasData && autoCmd23 == auto && status == ReadyForSubmit
    {
      op, arg, blockcnt, blocksize := opVal, argVal, blockcntVal, SECTOR_SIZE;
      hasData, autoCmd23, status := true, auto, ReadyForSubmit;
    }

    method Invalidate()
      modifies this`status, this`op, this`arg, this`hasData, this`inout, this`inoutRead, this`inoutCmd12,
               this`autoCmd23, this`cb
      ensures status == Error && op == Invalid && arg == 0 && cb == None
      ensures !hasData && !inout && !inoutRead && !inoutCmd12 && !autoCmd23
    {
      status, op, arg := Error, Invalid, 0;
      ResetFlags();
      cb := None;
    }
  }

  /** Distance from cursor `a` forward to cursor `b`. */
  function Dist(a: nat, b: nat): (d: nat)
    requires a < ENTRIES && b < ENTRIES
    ensures d < ENTRIES
    ensures (a + d) % ENTRIES == b
  {
    if a <= b then b - a else b + ENTRIES - a
  }

  class Queue {
    const cmds: seq<Cmd>
    var create: nat
    var working: nat
    var destruct: nat

    /** Cursors in cyclic order over 32 distinct slots. */
    ghost predicate Valid()
      reads this
    {
      && |cmds| == ENTRIES
      && (forall i, j | 0 <= i < j < ENTRIES :: cmds[i] != cmds[j])
      && create < ENTRIES && working < ENTRIES && destruct < ENTRIES
      && Dist(destruct, working) <= Dist(destruct, create)
    }

    /** The `n` slots from cursor `c` on. */
    ghost function Window(c: nat, n: nat): (w: seq<Cmd>)
      requires |cmds| == ENTRIES
    {
      seq(n, i requires 0 <= i < n => cmds[(c + i) % ENTRIES])
    }

    /** Created and not yet destructed commands, oldest first. */
    ghost function Live(): seq<Cmd>
      reads this
      requires Valid()
    {
      Window(destruct, Dist(destruct, create))
    }

    /** Commands still to be worked on, head first. */
    ghost function Work(): seq<Cmd>
      reads this
      requires Valid()
    {
      Window(working, Dist(working, create))
    }

    /** The `enqueued` flags mark exactly the live window. */
    ghost predicate FlagsMark()
      reads this, cmds
      requires Valid()
    {
      forall c | c in cmds :: c.enqueued <==> c in Live()
    }

    constructor ()
      ensures Valid() && FlagsMark() && Live() == [] && Work() == []
      ensures fresh(cmds)
    {
      var s: seq<Cmd> := [];
      for n := 0 to ENTRIES
        invariant |s| == n
        invariant forall i, j | 0 <= i < j < n :: s[i] != s[j]
        invariant forall i | 0 <= i < n :: fresh(s[i]) && !s[i].enqueued && allocated(s[i])
      {
        var c := new Cmd();
        s := s + [c];
      }
      cmds := s;
      create, working, destruct := 0, 0, 0;
    }

    /** Moving a cursor drops the first slot of its window. */
    lemma {:induction false} WindowTail(c: nat, n: nat)
      requires |cmds| == ENTRIES && c < ENTRIES && n > 0
      ensures Window(c, n)[0] == cmds[c]
      ensures Window(c, n)[1..] == Window((c + 1) % ENTRIES, n - 1)
    {
      var w, v := Window(c, n)[1..], Window((c + 1) % ENTRIES, n - 1);
      forall i | 0 <= i < n - 1 ensures w[i] == v[i] {
        assert (c + (i + 1)) % ENTRIES == ((c + 1) % ENTRIES + i) % ENTRIES;
      }
    }

    predicate IsFull()
      reads this
      requires Valid()
      ensures IsFull() <==> |Live()| == 31
    {
      (create + 1) % ENTRIES == destruct
    }

    /** The slot at the first cursor is not live. */
    lemma {:induction false} NextFree()
      requires Valid()
      ensures cmds[create] !in Live()
    {
      forall k | 0 <= k < |Live()| ensures Live()[k] != cmds[create] {
        assert (destruct + k) % ENTRIES != create;
      }
    }

    /** The slot at the first cursor, which moves on. */
    method Advance() returns (c: Cmd)
      requires Valid() && !IsFull()
      modifies this`create
      ensures Valid() && c in cmds && c !in old(Live())
      ensures Live() == old(Live()) + [c] && Work() == old(Work()) + [c]
    {
      c := cmds[create];
      NextFree();
      create := (create + 1) % ENTRIES;
    }

    /** Take the next slot. None is `nullptr`: 31 commands are live. `threw` is the
        "entry not destroyed" exception, which never happens while the flags mark
        the live window. */
    method Create() returns (cmd: Option<Cmd>, threw: bool)
      requires Valid()
      modifies this`create, cmds
      ensures Valid()
      ensures cmd.None? <==> old(|Live()|) == ENTRIES - 1
      ensures cmd.None? ==> unchanged(this) && unchanged(cmds) && !threw
      ensures cmd.Some? ==>
                && cmd.value in cmds && cmd.value !in old(Live())
                && Live() == old(Live()) + [cmd.value]
                && Work() == old(Work()) + [cmd.value]
                && (threw <==> old(cmd.value.enqueued))
                && cmd.value.enqueued
                && (!threw ==> cmd.value.status == Uninitialized)
                && forall c | c in cmds && c != cmd.value :: unchanged(c)
      ensures old(FlagsMark()) ==> !threw && FlagsMark()
    {
      if IsFull() {
        return None, false;
      }
      var c := Advance();
      if c.enqueued {
        return Some(c), true;
      }
      c.enqueued, c.status := true, Uninitialized;
      return Some(c), false;
    }

    /** The command being worked on. */
    function Working(): (cmd: Option<Cmd>)
      reads this
      requires Valid()
      ensures cmd == if Work() == [] then None else Some(Work()[0])
    {
      if working == create then None else Some(cmds[working])
    }

    method NumWork() returns (cnt: nat)
      requires Valid()
      ensures cnt == |Work()|
    {
      cnt := 0;
      var w: nat := working;
      while w != create
        invariant w < ENTRIES && cnt + Dist(w, create) == Dist(working, create)
        decreases Dist(w, create)
      {
        w := (w + 1) % ENTRIES;
        cnt := cnt + 1;
      }
    }

    /** `ok == false` is the "queue disorder" exception. */
    method WorkDone(cmd: Cmd) returns (ok: bool)
      requires Valid()
      modifies this`working
      ensures Valid() && Live() == old(Live())
      ensures ok <==> old(Work() != [] && Work()[0] == cmd)
      ensures Work() == if ok then old(Work())[1..] else old(Work())
    {
      if Working() != Some(cmd) {
        return false;
      }
      WindowTail(working, |Work()|);
      working := (working + 1) % ENTRIES;
      return true;
    }

    /** After the oldest command has left the window, clearing the flag of `cmd` keeps the
        flags right if and only if that was the oldest command. */
    twostate lemma FlagsAfter(cmd: Cmd)
      requires old(Valid()) && Valid() && old(FlagsMark()) && cmd in cmds
      requires old(Live()) != [] && Live() == old(Live())[1..] && !cmd.enqueued
      requires forall c | c in cmds && c != cmd :: c.enqueued == old(c.enqueued)
      ensures FlagsMark() <==> cmd == old(Live())[0]
    {
      ghost var before := old(Live());
      forall k | 0 < k < |before| ensures before[k] != before[0] {
      }
      assert before[0] in cmds && before[0] !in Live();
      assert forall c | c in before :: c == before[0] || c in Live();
    }

    /** The last cursor leaves a slot behind. */
    method Leave()
      requires Valid() && destruct != working
      modifies this`destruct
      ensures Valid() && Work() == old(Work()) && old(Live()) != [] && Live() == old(Live())[1..]
    {
      WindowTail(destruct, |Live()|);
      destruct := (destruct + 1) % ENTRIES;
    }

    /** Free a command. The source does not check that `cmd` is the oldest one: the
        flags keep marking the live window if and only if it is. On the second
        exception the flag has already been cleared. */
    method Destruct(cmd: Cmd) returns (ok: bool)
      requires Valid() && cmd in cmds
      modifies this`destruct, cmd
      ensures Valid() && Work() == old(Work())
      ensures ok <==> old(cmd.enqueued && |Work()| < |Live()|)
      ensures Live() == if ok then old(Live())[1..] else old(Live())
      ensures !ok ==> cmd.enqueued == false && cmd.status == old(cmd.status)
      ensures ok ==> !cmd.enqueued && cmd.status == Error && cmd.op == Invalid && cmd.cb == None
      ensures ok && old(FlagsMark()) ==> (FlagsMark() <==> cmd == old(Live())[0])
    {
      if !cmd.enqueued {
        return false;
      }
      ghost var marked := FlagsMark();
      cmd.enqueued := false;
      if destruct == working {
        return false;
      }
      Leave();
      cmd.Invalidate();
      if marked {
        FlagsAfter(cmd);
      }
      return true;
    }
  }
}
