/** Instructions in flight (inc/instruction.h). */
module Instructions {
  /** A register name that fits the 256-entry alias tables: an architectural
      register, or a physical one of a file of at most 256 registers. */
  type Reg = r: int | 0 <= r < 256

  /** What only the front end reads. */
  datatype FetchFlags = FetchFlags(isBranch: bool, dibChecked: bool, fetchIssued: bool, fetchCompleted: bool,
      decoded: bool)

  /** `src` and `dst` are the source's register lists: architectural names until
      the instruction is scheduled, physical names afterwards. `archSrc` and
      `archDst` are model-only copies of the architectural names that renaming
      overwrites. */
  datatype Instr = Instr(
    id: nat,
    archSrc: seq<Reg>, archDst: seq<Reg>,
    src: seq<Reg>, dst: seq<Reg>,
    srcMem: seq<nat>, dstMem: seq<nat>,
    front: FetchFlags, ready: int,
    scheduled: bool, executed: bool, completed: bool,
    memDone: nat)
  {
    function MemOps(): nat { |dstMem| + |srcMem| }
  }
}
