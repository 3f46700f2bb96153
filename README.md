# Abstract hardware model of a GPU simulator, in Dafny

This project models the structural core of the GPU simulator's abstract
hardware model (`src/abstract_hardware_model.h`):

- **`kernel_info_t`** (`kernel_info.dfy`, class `Kernels.KernelInfo`) enumerates
  the work of one kernel launch. It holds the grid and block dimensions and two
  cursors, one for the next CTA and one for the next thread of the current CTA.
  The cursors advance through `increment_x_then_y_then_z`. The queries count
  blocks and threads, test whether all CTAs are handed out, and linearise the
  thread cursor. Ghost counters (`ctasIssued`, `threadsIssued`) record how many
  steps each cursor has taken. The object invariant `Valid()` ties each cursor
  to the odometer walk `Coordinates.Steps` after that many steps.
- **`dim3` and `increment_x_then_y_then_z`** (`coordinates.dfy`). The step is
  only declared in the header, so its body is an assumption of this model; see
  "## Left out". The lemmas prove that the first `gx*gy*gz` steps from the origin
  visit every coordinate of the box exactly once, in row-major order (x fastest).
  After the last of those steps the cursor is `(0, 0, gz)`.
- **`memory_space_t`** (`memory_space.dfy`) is a value: a `_memory_space_t` tag
  and a bank number (the n of `.const[n]`; `.const` is `.const[0]`, section 5.1.3
  of the PTX ISA 2.1 manual). Its `==` is proved to be equality of the values.
  Its `<` is proved to be a strict total order that agrees with `==`.
- **`inst_t`** (`instruction.dfy`) is modelled through its placeholder
  constructor and `valid()`.
- **`warp_inst_t`** (`warp_inst.dfy`, class `WarpInstructions.WarpInst`) is the
  per-warp state machine: the active-lane bitset, the empty and atomic flags, the
  warp id, and the lazily allocated per-lane records. The modifiers are `issue`,
  `clear`, `set_addr`, `add_callback` and `do_atomic`. Callback function pointers
  and the `inst_t`/`ptx_thread_info` pointers are opaque ids, with `None` for
  null. `do_atomic` appends one `Invocation` per call to the ghost field `trace`
  instead of calling foreign code.

All `unsigned` arithmetic is 32-bit and wraps (`Arith.Wrap`). `get_next_thread_id`,
`num_blocks` and `threads_per_cta` are evaluated with a wrap after every operation,
as the source does. They are proved equal to the mathematical value reduced once
modulo 2^32.

The read accessors of `warp_inst_t` are the members of the same names:
`active` (`WarpInst.Active`), `empty` (`WarpInst.IsEmpty`), `warp_id`
(`WarpInst.WarpId`), `has_callback` (`WarpInst.HasCallback`), `get_addr`
(`WarpInst.GetAddr`) and `isatomic` (`WarpInst.IsAtomic`). `valid()` of `inst_t`
is `Inst.IsValid`. Their `assert`s are preconditions, and the contracts of the
modifiers are stated through them. `Active`, `HasCallback` and `IsAtomic` also
state what the object invariant guarantees about their answers. `IsEmpty`,
`WarpId`, `GetAddr` and `IsValid` each read one field and have no contract of
their own.

Some behaviour of the code that a caller might not expect, which the model
follows as written:
- `clear()` only sets the empty flag. The active mask survives, and the next
  `issue` ORs into it (`WarpInstructions.IssueAccumulates`,
  `WarpInstructions.QuirksScenario`). It is not reset to "no lane active".
- `add_callback` marks the instruction atomic only when it is the call that
  allocates the per-lane records. After a `set_addr`, it leaves the flag as it
  was.
- `do_atomic` calls back in ascending lane order. It calls every lane whose
  thread pointer is non-null, whether or not the lane is active.
- On a grid of N CTAs, `no_more_ctas_to_run()` already holds after the N-th
  `increment_cta_id`, not the (N+1)-th. This follows from the assumed body of
  `increment_x_then_y_then_z` (see "## Left out"), not from code in the header.

## Model

| member | source | states |
|---|---|---|
| Coordinates.Increment | src/abstract_hardware_model.h:62 | the assumed odometer step keeps x and y below their bounds once they are, and leaves z as it was or one higher (wrapping) |
| Coordinates.IncrementIsSuccessor | src/abstract_hardware_model.h:62 | inside the box, one odometer step moves to the next row-major position and keeps x and y in range |
| Coordinates.StepsEnumerate | src/abstract_hardware_model.h:62 | the n-th odometer step from the origin (n up to the volume) is at row-major position n, with x and y in range |
| Coordinates.StepsWithin | src/abstract_hardware_model.h:62 | step n is inside the box iff n is below the volume; step `volume` is exactly (0, 0, bound.z) |
| Coordinates.EnumerationIsExact | src/abstract_hardware_model.h:98-109 | the first gx*gy*gz steps visit every coordinate of the box, each exactly once, and nothing outside it; afterwards the cursor is outside the box |
| Coordinates.LinearInjective | src/abstract_hardware_model.h:113-116 | two coordinates with x and y in range and the same linear id are equal |
| Coordinates.LinearBelowVolume | src/abstract_hardware_model.h:113-116 | with x and y in range, the linear id is below the volume iff z is below its bound |
| Kernels.CountOf | src/abstract_hardware_model.h:85-93 | the 32-bit product of the three axes equals the number of coordinates of the box modulo 2^32, and the exact count when that fits |
| Kernels.NoMoreCtas | src/abstract_hardware_model.h:106-109 | the test holds exactly when the coordinate lies outside the grid |
| Kernels.MoreThreadsAsWritten | src/abstract_hardware_model.h:117-120 | the literal test: with x in range, true means the thread is inside the block; when the block is no deeper than it is wide it agrees with testing y and z only |
| Kernels.ThreadIndex | src/abstract_hardware_model.h:113-116 | `x + bx*y + bx*by*z` with every operation wrapping equals the row-major position modulo 2^32 |
| Kernels.ThreadIndexExample | src/abstract_hardware_model.h:113-116 | block (4,4,1) and thread (3,1,0) give id 7 |
| Kernels.EnumerationProgress | src/abstract_hardware_model.h:106-109 | after n steps (n at most the volume), "some axis reached its bound" holds iff n equals the volume, and "inside the box" iff n is below it; the linear position is n |
| Kernels.MoreThreadsAsWrittenIsSound | src/abstract_hardware_model.h:117-120 | when the literal `more_threads_in_cta` test holds after n steps, fewer than volume steps are done |
| Kernels.MoreThreadsAsWrittenStopsEarly | src/abstract_hardware_model.h:117-120 | in block (1,1,2) after one thread, a thread remains but the literal test is false |
| Kernels.KernelInfo.Unbound | src/abstract_hardware_model.h:66-70 | the default constructor leaves the kernel unbound with a null entry |
| Kernels.KernelInfo.constructor | src/abstract_hardware_model.h:71-81 | binding sets the valid flag, entry and dimensions, and puts both cursors at (0,0,0) |
| Kernels.KernelInfo.NumBlocks | src/abstract_hardware_model.h:85-88 | the number of CTAs in the grid, modulo 2^32 |
| Kernels.KernelInfo.ThreadsPerCta | src/abstract_hardware_model.h:90-93 | the number of threads in a block, modulo 2^32 |
| Kernels.KernelInfo.IncrementCtaId | src/abstract_hardware_model.h:98-104 | the CTA cursor takes one odometer step over the grid; the thread cursor is (0,0,0) whatever it was; the invariant is kept |
| Kernels.KernelInfo.NoMoreCtasToRun | src/abstract_hardware_model.h:106-109 | reads state only; on a bound kernel that has not overrun its grid it holds iff every CTA of the grid has been handed out |
| Kernels.KernelInfo.IncrementThreadId | src/abstract_hardware_model.h:111 | the thread cursor takes one odometer step over the block; the invariant is kept |
| Kernels.KernelInfo.GetNextThreadId | src/abstract_hardware_model.h:113-116 | the linear id of the thread cursor modulo 2^32; on a bound kernel that has not overrun its block it equals the number of threads already issued in the current CTA, modulo 2^32 |
| Kernels.KernelInfo.MoreThreadsInCta | src/abstract_hardware_model.h:117-120 | the literal test; when it holds on a bound kernel a thread of the block really is left (the converse fails, see Findings) |
| Kernels.KernelInfo.MoreThreadsInCtaCorrected | src/abstract_hardware_model.h:117-120 | the corrected test holds iff a thread of the current block is left to issue |
| MemorySpaces.Code | src/abstract_hardware_model.h:26-40 | each `_memory_space_t` enumerator has its declared value, 0 to 12 |
| MemorySpaces.CodeInjective | src/abstract_hardware_model.h:26-40 | distinct enumerators have distinct values |
| MemorySpaces.Default | src/abstract_hardware_model.h:171 | the default space is undefined_space with bank 0 |
| MemorySpaces.FromType | src/abstract_hardware_model.h:172 | a space built from a bare tag has that tag and bank 0 |
| MemorySpaces.SetBank | src/abstract_hardware_model.h:186-187 | after `set_bank(b)`, `get_bank()` is b and `get_type()` is unchanged |
| MemorySpaces.Equal | src/abstract_hardware_model.h:173 | `==` holds iff the two values are identical (same tag and same bank) |
| MemorySpaces.NotEqual | src/abstract_hardware_model.h:174 | `!=` holds iff the two values differ |
| MemorySpaces.Less | src/abstract_hardware_model.h:175-184 | `operator<`: a space is never below an equal one, and never below one whose type comes earlier |
| MemorySpaces.LessIsLexicographic | src/abstract_hardware_model.h:175-184 | `<` is the lexicographic order on (tag, bank) |
| MemorySpaces.LessIrreflexive | src/abstract_hardware_model.h:175-184 | no space is below itself |
| MemorySpaces.LessTransitive | src/abstract_hardware_model.h:175-184 | `<` is transitive |
| MemorySpaces.LessTrichotomous | src/abstract_hardware_model.h:173-184 | exactly one of a < b, a == b, b < a holds |
| MemorySpaces.SetBankLaws | src/abstract_hardware_model.h:185-187 | set-then-get returns the bank and keeps the type; the last `set_bank` wins; setting the current bank changes nothing |
| MemorySpaces.ConstBanks | src/abstract_hardware_model.h:172-190 | `.const` equals `.const[0]`; same tag with equal banks gives equal spaces; with a smaller bank it sorts first |
| Instructions.Inst.constructor | src/abstract_hardware_model.h:205-219 | the placeholder is not valid, has pc all ones and NO_OP, zeroes only out[0] and in[0], sets every arch_reg slot to -1, and cycles, isize and the vector flags to 0 |
| Instructions.Inst.IsValid | src/abstract_hardware_model.h:220 | `valid()`: reads the decoded flag; no contract of its own, the constructor states it is false |
| WarpInstructions.IssueOnlySets | src/abstract_hardware_model.h:277-282 | issue never clears a bit, leaves lanes at or above the warp size unchanged, and sets a lane below it iff its mask bit is set |
| WarpInstructions.IssueAccumulates | src/abstract_hardware_model.h:273-286 | two issues equal one issue of the OR of the masks, so the mask accumulates across clear/issue cycles |
| WarpInstructions.IssueOnClearMask | src/abstract_hardware_model.h:277-282 | on a clear mask, lane i is active after issue iff i is below the warp size and in the mask |
| WarpInstructions.Allocated | src/abstract_hardware_model.h:289-292 | lazy allocation keeps existing records, or creates exactly warp-size default records (null callback, address 0) |
| WarpInstructions.AtomicCallsSound | src/abstract_hardware_model.h:263-272 | every call do_atomic makes is for a walked lane with a non-null thread and carries that lane's callback triple |
| WarpInstructions.AtomicCallsAscending | src/abstract_hardware_model.h:266-271 | the calls go in strictly ascending lane order, so no lane is called twice |
| WarpInstructions.AtomicCallsComplete | src/abstract_hardware_model.h:266-271 | every walked lane with a non-null thread is called |
| WarpInstructions.WarpInst.constructor | src/abstract_hardware_model.h:253-260 | a new warp instruction has the given width (at most 32), is empty and not atomic, has no per-lane records and no active lane |
| WarpInstructions.WarpInst.Active | src/abstract_hardware_model.h:317 | `active(n)`: reads bit n of the mask; no lane at or above the warp size is ever active |
| WarpInstructions.WarpInst.IsEmpty | src/abstract_hardware_model.h:318 | `empty()`: reads the empty flag; no contract of its own, `Clear` and `Issue` state its value |
| WarpInstructions.WarpInst.WarpId | src/abstract_hardware_model.h:319-323 | `warp_id()`: its assert is the precondition that the instruction is not empty; no contract of its own, `Issue` states its value |
| WarpInstructions.WarpInst.HasCallback | src/abstract_hardware_model.h:324-328 | `has_callback(n)`: true only for an active lane below the warp size whose records are allocated |
| WarpInstructions.WarpInst.GetAddr | src/abstract_hardware_model.h:329-333 | `get_addr(n)`: its assert is the precondition that the records are allocated; no contract of its own, `SetAddr` states its value |
| WarpInstructions.WarpInst.IsAtomic | src/abstract_hardware_model.h:335 | `isatomic()`: an atomic instruction always has its per-lane records allocated |
| WarpInstructions.WarpInst.Clear | src/abstract_hardware_model.h:273-276 | only the empty flag changes |
| WarpInstructions.WarpInst.Issue | src/abstract_hardware_model.h:277-286 | the mask becomes `IssuedMask` of the old one; the instruction is non-empty and `warp_id()` returns the given id |
| WarpInstructions.WarpInst.SetAddr | src/abstract_hardware_model.h:287-294 | allocates warp-size records if none exist; `get_addr(n)` is the new address; every other lane keeps its address and callback |
| WarpInstructions.WarpInst.AddCallback | src/abstract_hardware_model.h:295-308 | allocates if needed and only then sets the atomic flag; stores the triple; `has_callback(lane)` holds iff the lane is active and the function is non-null |
| WarpInstructions.WarpInst.DoAtomic | src/abstract_hardware_model.h:263-272 | requires atomic and non-empty; changes only the trace; calls each lane with a non-null thread exactly once, in ascending lane order, active or not |

## Findings

| source | as written | input that shows it | evidently intended | confidence | as-written member | corrected member |
|---|---|---|---|---|---|---|
| src/abstract_hardware_model.h:119 | `more_threads_in_cta` tests `m_next_tid.z < m_block_dim.x` and never tests x | block (1,1,2) after one `increment_thread_id`: thread (0,0,1) is still to issue, but `1 < 1` fails and the test is false | `m_next_tid.x < m_block_dim.x` as the third conjunct | high (not executed) | Kernels.MoreThreadsAsWrittenStopsEarly | Kernels.KernelInfo.MoreThreadsInCtaCorrected |

## Left out

- The body of `increment_x_then_y_then_z` is not part of this model. `Coordinates.Increment` assumes an odometer step: x increments; when x reaches its bound it resets to 0 and carries into y; y carries into z the same way; z is never reset. Each `++` wraps at 2^32. This cannot be checked against the header.
- `print_insn` of `inst_t` and `warp_inst_t`: text output to a `FILE*` only.
- `core_t`: a pure-virtual interface with no logic; its implementations are not part of this model.
- `gpgpu_ptx_sim_kernel_info`, `gpgpu_ptx_sim_arg` and `gpgpu_ptx_sim_arg_list_t`: plain data holders with opaque pointers.
- `move_warp`, `get_kernel_code_size` and the empty `pre_decode` hook: no bodies in the header.
- What the callback functions do, and the `function_info`/`ptx_thread_info` objects: foreign code, reduced to opaque ids. `do_atomic` records each call in a ghost trace.
- `entry()`, `get_grid_dim()`, `get_cta_dim()`, `get_next_cta_id()` and `get_next_thread_id_3d()` return a field unchanged. The model reads the fields `entry`, `gridDim`, `blockDim`, `nextCta` and `nextTid` directly.
- `issue_cycle` and `cache_miss` are carried as fields (`issueCycle`, `Lane.cacheMiss`). No shown operation reads them, so no property is stated about them.
- `warp_inst_t` inherits from `inst_t`. Dafny has no class inheritance here, so a `WarpInst` holds its `inst_t` part as the object `base`.
- The `mask & (1<<i)` test shifts a signed `int`, which is undefined at i = 31. The model reads it as bit i of the unsigned mask.
- WarpInstructions.WarpInst.Active: `std::bitset::test` throws `std::out_of_range` for a lane of 32 or more. The model makes `lane < 32` a precondition instead.
- WarpInstructions.WarpInst.SetAddr, WarpInstructions.WarpInst.AddCallback and WarpInstructions.WarpInst.GetAddr require the lane to be below the warp size. In the source a larger index is an unchecked out-of-bounds vector access.
- WarpInstructions.WarpInst.DoAtomic requires every lane with a non-null thread to have a non-null function. The source would call through a null function pointer there.
- Kernels.KernelInfo.NoMoreCtasToRun: the count-based half of the contract covers only kernels that have not stepped past the end of their grid. Past it, z keeps counting and wraps after 2^32 steps, and the model states nothing about that.
- Kernels.KernelInfo.MoreThreadsInCta states only one direction (true implies a thread is left), because the source's test is wrong in the other (see Findings).
- `Kernels.KernelInfo.Unbound` leaves the dimensions and cursors unconstrained, like the uninitialised fields of the source. Queries on an unbound kernel get no count-based contract.
