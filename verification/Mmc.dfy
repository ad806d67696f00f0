/** Vocabulary shared by all parts of the driver model: machine words, command
    status and opcodes, memory blocks and inout requests. */
module Mmc {

  const WORD32 := 0x1_0000_0000
  const WORD64 := 0x1_0000_0000_0000_0000
  const SECTOR_SIZE := 512

  type uint32 = x: int | 0 <= x < WORD32

  datatype Option<+T> = None | Some(value: T)

  /** Status of a command; the source uses negative numbers for the error group. */
  datatype Status =
    | Success | ProgressCmd | ProgressData | DataPartial | TuningProgress
    | Uninitialized | ReadyForSubmit | Error | CmdTimeout | CmdError | DataError | TuningFailed
  {
    predicate IsError() {
      !(Success? || ProgressCmd? || ProgressData? || DataPartial? || TuningProgress?)
    }

    predicate Progress() {
      ProgressCmd? || ProgressData?
    }
  }

  /** The commands the inout engine works with; `Invalid` is the value a destructed
      command carries, `NoCmd` the value `init_inout` starts from. */
  datatype Opcode =
    | NoCmd | Invalid
    | StopRead | StopWrite
    | ReadSingle | ReadMultiple | WriteSingle | WriteMultiple
    | SetBlockCount

  /** One node of the linked list handed to `inout_data`. */
  datatype Block = Block(addr: nat, sectors: uint32)

  /** A request; `id` stands for the client's completion callback. */
  datatype Request = Request(sector: nat, blocks: seq<Block>, read: bool, id: nat)

  /** Sectors of a list of blocks, without any wrap-around. */
  function Sum(blocks: seq<Block>): nat {
    if blocks == [] then 0 else blocks[0].sectors + Sum(blocks[1..])
  }

  /** Sectors of the first `i` blocks. */
  function SumTo(blocks: seq<Block>, i: nat): nat
    requires i <= |blocks|
  {
    if i == 0 then 0 else SumTo(blocks, i - 1) + blocks[i - 1].sectors
  }

  lemma {:induction false} SumSplit(blocks: seq<Block>, i: nat)
    requires i <= |blocks|
    ensures SumTo(blocks, i) + Sum(blocks[i..]) == Sum(blocks)
  {
    if i == 0 {
      assert blocks[0..] == blocks;
    } else {
      SumSplit(blocks, i - 1);
      assert blocks[i - 1..][1..] == blocks[i..];
    }
  }
}
