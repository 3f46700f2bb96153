/** `memory_space_t`: a storage class (`_memory_space_t`) and, for the
    constant space, a bank number (the n of `.const[n]`). */
module MemorySpaces {
  import opened Arith

  /** `_memory_space_t`, in declaration order. */
  datatype SpaceType =
    | UndefinedSpace
    | RegSpace
    | LocalSpace
    | SharedSpace
    | ParamSpaceUnclassified
    | ParamSpaceKernel
    | ParamSpaceLocal
    | ConstSpace
    | TexSpace
    | SurfSpace
    | GlobalSpace
    | GenericSpace
    | InstructionSpace

  /** The enumerator's integer value. */
  function Code(t: SpaceType): (r: nat)
    ensures r <= 12
  {
    match t
    case UndefinedSpace => 0
    case RegSpace => 1
    case LocalSpace => 2
    case SharedSpace => 3
    case ParamSpaceUnclassified => 4
    case ParamSpaceKernel => 5
    case ParamSpaceLocal => 6
    case ConstSpace => 7
    case TexSpace => 8
    case SurfSpace => 9
    case GlobalSpace => 10
    case GenericSpace => 11
    case InstructionSpace => 12
  }

  /** Distinct enumerators have distinct values, so comparing values compares
      types. */
  lemma CodeInjective(s: SpaceType, t: SpaceType)
    ensures Code(s) == Code(t) <==> s == t
  {
  }

  datatype MemorySpace = MemorySpace(kind: SpaceType, bank: U32)

  /** `memory_space_t()`: undefined space, bank 0. */
  function Default(): (r: MemorySpace)
    ensures r.kind == UndefinedSpace && r.bank == 0
  {
    MemorySpace(UndefinedSpace, 0)
  }

  /** `memory_space_t(from)`: a bare type names bank 0. */
  function FromType(t: SpaceType): (r: MemorySpace)
    ensures r.kind == t && r.bank == 0
  {
    MemorySpace(t, 0)
  }

  /** `set_bank(b)`. */
  function SetBank(m: MemorySpace, b: U32): (r: MemorySpace)
    ensures r.bank == b && r.kind == m.kind
  {
    m.(bank := b)
  }

  /** `operator==`: banks and types agree, which is exactly equality of the
      two values. */
  predicate Equal(a: MemorySpace, b: MemorySpace)
    ensures Equal(a, b) <==> a == b
  {
    a.bank == b.bank && a.kind == b.kind
  }

  /** `operator!=`. */
  predicate NotEqual(a: MemorySpace, b: MemorySpace)
    ensures NotEqual(a, b) <==> a != b
  {
    !Equal(a, b)
  }

  /** `operator<`, branch by branch as written. A space is never below an
      equal one, and never below one whose type comes earlier. */
  predicate Less(a: MemorySpace, b: MemorySpace)
    ensures Less(a, b) ==> a != b && Code(a.kind) <= Code(b.kind)
  {
    if Code(a.kind) < Code(b.kind) then true
    else if Code(a.kind) > Code(b.kind) then false
    else if a.bank < b.bank then true
    else false
  }

  /** `<` is the lexicographic order on (type, bank). */
  lemma LessIsLexicographic(a: MemorySpace, b: MemorySpace)
    ensures Less(a, b) <==>
      Code(a.kind) < Code(b.kind) || (a.kind == b.kind && a.bank < b.bank)
  {
    CodeInjective(a.kind, b.kind);
  }

  lemma LessIrreflexive(a: MemorySpace)
    ensures !Less(a, a)
  {
  }

  lemma LessTransitive(a: MemorySpace, b: MemorySpace, c: MemorySpace)
    requires Less(a, b) && Less(b, c)
    ensures Less(a, c)
  {
  }

  /** Exactly one of `a < b`, `a == b`, `b < a` holds. */
  lemma LessTrichotomous(a: MemorySpace, b: MemorySpace)
    ensures Less(a, b) || Equal(a, b) || Less(b, a)
    ensures !(Less(a, b) && Equal(a, b))
    ensures !(Less(a, b) && Less(b, a))
    ensures !(Equal(a, b) && Less(b, a))
  {
    CodeInjective(a.kind, b.kind);
  }

  /** `set_bank(b)` then `get_bank()` gives `b` and keeps the type; setting
      twice keeps the last bank; setting the current bank changes nothing. */
  lemma SetBankLaws(m: MemorySpace, b: U32, c: U32)
    ensures SetBank(m, b).bank == b && SetBank(m, b).kind == m.kind
    ensures SetBank(SetBank(m, b), c) == SetBank(m, c)
    ensures SetBank(m, m.bank) == m
  {
  }

  /** `.const` is `.const[0]`; two spaces of one type built independently with
      the same bank are equal, and with different banks the smaller bank
      sorts first. */
  lemma ConstBanks(t: SpaceType, b1: U32, b2: U32)
    ensures FromType(ConstSpace) == SetBank(FromType(ConstSpace), 0)
    ensures Equal(SetBank(FromType(t), b1), SetBank(FromType(t), b2)) <==> b1 == b2
    ensures b1 < b2 ==> Less(SetBank(FromType(t), b1), SetBank(FromType(t), b2))
  {
  }
}
