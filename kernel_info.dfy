/** `kernel_info_t`: the work of one kernel launch, enumerated CTA by CTA and,
    inside the current CTA, thread by thread. */
module Kernels {
  import opened Arith
  import opened Wrappers
  import opened Coordinates

  /** Opaque identity of the kernel's `function_info` entry point. */
  datatype FunctionRef = FunctionRef(id: nat)

  /** `num_blocks` and `threads_per_cta`: the product of the three axes in
      32-bit unsigned arithmetic (each `*` wraps before the widening to
      `size_t`). It is the number of coordinates the enumeration visits,
      reduced modulo 2^32. */
  function CountOf(d: Dim3): (r: U32)
    ensures r == Wrap(Volume(d))
    ensures Volume(d) < TwoTo32 ==> r == Volume(d)
  {
    WrapMul(d.x * d.y, d.z);
    Wrap(Wrap(d.x * d.y) * d.z)
  }

  /** `no_more_ctas_to_run` on a CTA coordinate and the grid dimensions: the
      cursor has left the grid. */
  predicate NoMoreCtas(cta: Dim3, grid: Dim3)
    ensures NoMoreCtas(cta, grid) <==> !Within(cta, grid)
  {
    cta.x >= grid.x || cta.y >= grid.y || cta.z >= grid.z
  }

  /** `get_next_thread_id`: `x + bx*y + bx*by*z`, evaluated as the source does,
      every `+` and `*` wrapping at 2^32. */
  function ThreadIndex(tid: Dim3, block: Dim3): (r: U32)
    ensures r == Wrap(Linear(tid, block))
  {
    WrapFormula(tid.x, block.x * tid.y, block.x * block.y, tid.z);
    Distrib(block.x, tid.y, block.y * tid.z);
    Assoc(block.x, block.y, tid.z);
    Wrap(Wrap(tid.x + Wrap(block.x * tid.y)) + Wrap(Wrap(block.x * block.y) * tid.z))
  }

  /** Block (4, 4, 1), thread (3, 1, 0): flat id 3 + 4*1 = 7. */
  lemma ThreadIndexExample()
    ensures ThreadIndex(Dim3(3, 1, 0), Dim3(4, 4, 1)) == 7
  {
  }

  /** `more_threads_in_cta` as written: its third conjunct compares the z
      coordinate with the x dimension, and x is never consulted. With x in
      range it never claims a thread outside the block, and in a block no
      deeper than it is wide the wrong conjunct is harmless. */
  predicate MoreThreadsAsWritten(tid: Dim3, block: Dim3)
    ensures tid.x < block.x && MoreThreadsAsWritten(tid, block) ==> Within(tid, block)
    ensures block.z <= block.x ==>
      (MoreThreadsAsWritten(tid, block) <==> tid.y < block.y && tid.z < block.z)
  {
    tid.z < block.z && tid.y < block.y && tid.z < block.x
  }

  /** `more_threads_in_cta` as evidently intended: the thread cursor is still
      inside the block. */
  predicate MoreThreads(tid: Dim3, block: Dim3)
  {
    Within(tid, block)
  }

  /** Where `n` steps of an enumeration of `bound` are done (`n` at most the
      volume): `NoMoreCtas` holds exactly when all of the box has been
      visited, and the intended `MoreThreads` exactly when some of it is left. */
  lemma EnumerationProgress(bound: Dim3, n: nat)
    ensures n <= Volume(bound) ==>
      (NoMoreCtas(Steps(bound, n), bound) <==> n == Volume(bound)) &&
      (MoreThreads(Steps(bound, n), bound) <==> n < Volume(bound)) &&
      Linear(Steps(bound, n), bound) == n
  {
    if n > Volume(bound) {
    } else if Positive(bound) {
      StepsEnumerate(bound, n);
      StepsWithin(bound, n);
    } else {
      assert n == 0;
    }
  }

  /** The literal `more_threads_in_cta` never claims a thread that is not
      there: when it holds, fewer than `Volume(bound)` steps are done. */
  lemma MoreThreadsAsWrittenIsSound(bound: Dim3, n: nat)
    ensures n <= Volume(bound) && MoreThreadsAsWritten(Steps(bound, n), bound) ==>
      n < Volume(bound)
  {
    EnumerationProgress(bound, n);
  }

  /** ... but it can report a block as finished too early: in a block of
      dimensions (1, 1, 2), after one thread, the thread (0, 0, 1) is still to
      be issued, yet the literal predicate is false because 1 < 1 fails. */
  lemma MoreThreadsAsWrittenStopsEarly()
    ensures var block := Dim3(1, 1, 2);
      Steps(block, 1) == Dim3(0, 0, 1) && 1 < Volume(block) &&
      MoreThreads(Steps(block, 1), block) &&
      !MoreThreadsAsWritten(Steps(block, 1), block)
  {
  }

  class KernelInfo {
    var valid: bool
    var entry: Option<FunctionRef>
    var gridDim: Dim3
    var blockDim: Dim3
    var nextCta: Dim3
    var nextTid: Dim3
    /** Calls of `IncrementCtaId` since the kernel was bound. */
    ghost var ctasIssued: nat
    /** Calls of `IncrementThreadId` since the last `IncrementCtaId`. */
    ghost var threadsIssued: nat

    /** A bound kernel's cursors are where the odometer leaves them after the
        counted number of steps from the origin. */
    ghost predicate Valid()
      reads this
    {
      valid ==>
        nextCta == Steps(gridDim, ctasIssued) &&
        nextTid == Steps(blockDim, threadsIssued)
    }

    /** `kernel_info_t()`: no kernel bound; the dimensions and cursors are
        left uninitialised, as in the source. */
    constructor Unbound()
      ensures Valid() && !valid && entry == None
    {
      valid := false;
      entry := None;
    }

    /** `kernel_info_t(gridDim, blockDim, entry)`: bound, both cursors at the
        origin. */
    constructor (grid: Dim3, block: Dim3, e: Option<FunctionRef>)
      ensures Valid() && valid && entry == e
      ensures gridDim == grid && blockDim == block
      ensures nextCta == Origin && nextTid == Origin
      ensures ctasIssued == 0 && threadsIssued == 0
    {
      valid := true;
      entry := e;
      gridDim := grid;
      blockDim := block;
      nextCta := Origin;
      nextTid := Origin;
      ctasIssued := 0;
      threadsIssued := 0;
    }

    /** `num_blocks()`. */
    function NumBlocks(): (r: U32)
      reads this
      ensures r == Wrap(Volume(gridDim))
    {
      CountOf(gridDim)
    }

    /** `threads_per_cta()`. */
    function ThreadsPerCta(): (r: U32)
      reads this
      ensures r == Wrap(Volume(blockDim))
    {
      CountOf(blockDim)
    }

    /** `increment_cta_id()`: one odometer step of the CTA cursor over the
        grid; the thread cursor goes back to the origin whatever it was. */
    method IncrementCtaId()
      requires Valid()
      modifies this`nextCta, this`nextTid, this`ctasIssued, this`threadsIssued
      ensures Valid()
      ensures nextCta == Increment(old(nextCta), gridDim)
      ensures nextTid == Origin
      ensures ctasIssued == old(ctasIssued) + 1 && threadsIssued == 0
    {
      nextCta := Increment(nextCta, gridDim);
      nextTid := Origin;
      ctasIssued := ctasIssued + 1;
      threadsIssued := 0;
    }

    /** `no_more_ctas_to_run()`: some axis of the CTA cursor has reached the
        grid. On a bound kernel that has not overrun its grid, this holds
        exactly when every CTA of the grid has been handed out. */
    function NoMoreCtasToRun(): (r: bool)
      reads this
      requires Valid()
      ensures r <==> NoMoreCtas(nextCta, gridDim)
      ensures valid && ctasIssued <= Volume(gridDim) ==>
        (r <==> ctasIssued == Volume(gridDim))
    {
      EnumerationProgress(gridDim, ctasIssued);
      NoMoreCtas(nextCta, gridDim)
    }

    /** `increment_thread_id()`: one odometer step of the thread cursor over
        the block. */
    method IncrementThreadId()
      requires Valid()
      modifies this`nextTid, this`threadsIssued
      ensures Valid()
      ensures nextTid == Increment(old(nextTid), blockDim)
      ensures threadsIssued == old(threadsIssued) + 1
    {
      nextTid := Increment(nextTid, blockDim);
      threadsIssued := threadsIssued + 1;
    }

    /** `get_next_thread_id()`: the flat id of the thread cursor. On a bound
        kernel inside its block it is the number of threads already issued
        in the current CTA (modulo 2^32). */
    function GetNextThreadId(): (r: U32)
      reads this
      requires Valid()
      ensures r == Wrap(Linear(nextTid, blockDim))
      ensures valid && threadsIssued <= Volume(blockDim) ==> r == Wrap(threadsIssued)
    {
      EnumerationProgress(blockDim, threadsIssued);
      ThreadIndex(nextTid, blockDim)
    }

    /** `more_threads_in_cta()` as written. When it holds on a bound kernel,
        a thread of the block really is left; the converse fails (see
        `MoreThreadsAsWrittenStopsEarly`). */
    function MoreThreadsInCta(): (r: bool)
      reads this
      requires Valid()
      ensures r <==> MoreThreadsAsWritten(nextTid, blockDim)
      ensures valid && threadsIssued <= Volume(blockDim) && r ==>
        threadsIssued < Volume(blockDim)
    {
      MoreThreadsAsWrittenIsSound(blockDim, threadsIssued);
      MoreThreadsAsWritten(nextTid, blockDim)
    }

    /** The corrected `more_threads_in_cta()`: on a bound kernel, it holds
        exactly when a thread of the current block is left to issue. */
    function MoreThreadsInCtaCorrected(): (r: bool)
      reads this
      requires Valid()
      ensures r <==> MoreThreads(nextTid, blockDim)
      ensures valid && threadsIssued <= Volume(blockDim) ==>
        (r <==> threadsIssued < Volume(blockDim))
    {
      EnumerationProgress(blockDim, threadsIssued);
      MoreThreads(nextTid, blockDim)
    }
  }
}
