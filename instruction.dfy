/** `inst_t`: the fields of one scalar instruction and its placeholder
    (default-constructed) state. */
module Instructions {
  import opened Arith
  import opened MemorySpaces

  /** `uarch_op_t`: the opcode class the timing model sees. */
  datatype OpType =
    | NoOp
    | AluOp
    | SfuOp
    | AluSfuOp
    | LoadOp
    | StoreOp
    | BranchOp
    | BarrierOp
    | MemoryBarrierOp

  /** `_memory_op_t`. */
  datatype MemoryOp = NoMemoryOp | MemoryLoad | MemoryStore

  /** `MAX_REG_OPERANDS`. */
  const MaxRegOperands: nat := 8

  class Inst {
    var pc: U32
    var isize: U32
    var op: OpType
    var memoryOp: MemoryOp
    /** `out[4]` and `in[4]`: output and input register numbers. */
    var outRegs: array<U32>
    var inRegs: array<U32>
    var isVectorIn: U8
    var isVectorOut: U8
    var pred: I32
    var ar1: I32
    var ar2: I32
    /** Register numbers for bank-conflict evaluation; -1 is unused. */
    var archReg: array<I32>
    var cycles: U32
    var dataSize: U32
    var space: MemorySpace
    var decoded: bool

    /** `valid()`: whether decoding has populated the instruction. */
    predicate IsValid()
      reads this
    {
      decoded
    }

    /** `inst_t()`: the placeholder. `pc` is `(address_type)-1`, the opcode is
        `NO_OP`, every `arch_reg` slot is -1, and the two `memset`s of
        `sizeof(unsigned)` bytes zero only `out[0]` and `in[0]`: the other
        register slots, `memory_op`, `pred`, `ar1`, `ar2` and `data_size`
        stay uninitialised. */
    constructor ()
      ensures !IsValid()
      ensures pc == TwoTo32 - 1 && op == NoOp
      ensures fresh(outRegs) && fresh(inRegs) && fresh(archReg)
      ensures outRegs.Length == 4 && inRegs.Length == 4 && archReg.Length == MaxRegOperands
      ensures outRegs[0] == 0 && inRegs[0] == 0
      ensures isVectorIn == 0 && isVectorOut == 0
      ensures space == Default() && cycles == 0 && isize == 0
      ensures forall i :: 0 <= i < MaxRegOperands ==> archReg[i] == -1
    {
      decoded := false;
      pc := Wrap(-1);
      op := NoOp;
      outRegs := new U32[4];
      inRegs := new U32[4];
      archReg := new I32[MaxRegOperands];
      new;
      outRegs[0] := 0;
      inRegs[0] := 0;
      isVectorIn := 0;
      isVectorOut := 0;
      space := Default();
      cycles := 0;
      for i := 0 to MaxRegOperands
        modifies archReg
        invariant forall j :: 0 <= j < i ==> archReg[j] == -1
      {
        archReg[i] := -1;
      }
      isize := 0;
    }
  }
}
