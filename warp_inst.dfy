/** `warp_inst_t`: one instruction issued to a warp of at most 32 lanes, with
    its active-lane mask, its lazily allocated per-lane records (effective
    address and deferred callback) and the execution of deferred atomics. */
module WarpInstructions {
  import opened Arith
  import opened Wrappers
  import opened Instructions

  /** `MAX_WARP_SIZE`, also the width of the active-lane bitset. */
  const MaxWarpSize: nat := 32

  /** Opaque identities of the foreign objects a callback refers to: the
      function pointer, the `inst_t` it is called with, and the
      `ptx_thread_info` it runs against. */
  datatype CallbackFn = CallbackFn(id: nat)
  datatype InstRef = InstRef(id: nat)
  datatype ThreadRef = ThreadRef(id: nat)

  /** `dram_callback_t`; `None` stands for a null pointer. */
  datatype Callback = Callback(
    fn: Option<CallbackFn>,
    instruction: Option<InstRef>,
    thread: Option<ThreadRef>)

  /** `per_thread_info`. */
  datatype Lane = Lane(callback: Callback, memReqAddr: U64, cacheMiss: bool)

  /** A default-constructed `per_thread_info`: null callback, address 0, no
      cache miss. */
  const FreshLane: Lane := Lane(Callback(None, None, None), 0, false)

  /** One call `function(instruction, thread)` made by `do_atomic`. */
  datatype Invocation = Invocation(
    lane: nat,
    fn: CallbackFn,
    instruction: Option<InstRef>,
    thread: ThreadRef)

  /** `mask & (1 << i)` is non-zero, read as bit i of an unsigned word. */
  predicate Bit(mask: bv32, i: nat)
    requires i < 32
  {
    mask & (1 << i) != 0
  }

  /** The active mask after `issue(mask, ...)` on a warp of `warpSize` lanes:
      lanes below the warp size whose mask bit is set become active; nothing
      is cleared. */
  function IssuedMask(active: seq<bool>, mask: bv32, warpSize: nat): (r: seq<bool>)
    requires |active| == MaxWarpSize
    ensures |r| == MaxWarpSize
  {
    seq(MaxWarpSize, i requires 0 <= i < MaxWarpSize =>
      active[i] || (i < warpSize && Bit(mask, i)))
  }

  /** `issue` only sets bits: an active lane stays active, lanes at or above
      the warp size are untouched, and a lane below it is active afterwards
      iff it was before or its mask bit is set. */
  lemma IssueOnlySets(active: seq<bool>, mask: bv32, warpSize: nat, i: nat)
    requires |active| == MaxWarpSize && i < MaxWarpSize
    ensures active[i] ==> IssuedMask(active, mask, warpSize)[i]
    ensures i >= warpSize ==> IssuedMask(active, mask, warpSize)[i] == active[i]
    ensures i < warpSize ==> (IssuedMask(active, mask, warpSize)[i] <==> active[i] || Bit(mask, i))
  {
  }

  /** Issuing twice is issuing the union of the two masks once, so the mask
      accumulates across clear/issue cycles. */
  lemma IssueAccumulates(active: seq<bool>, m1: bv32, m2: bv32, warpSize: nat)
    requires |active| == MaxWarpSize
    ensures IssuedMask(IssuedMask(active, m1, warpSize), m2, warpSize)
         == IssuedMask(active, m1 | m2, warpSize)
  {
    var lhs := IssuedMask(IssuedMask(active, m1, warpSize), m2, warpSize);
    var rhs := IssuedMask(active, m1 | m2, warpSize);
    forall i | 0 <= i < MaxWarpSize
      ensures lhs[i] == rhs[i]
    {
      BitOr(m1, m2, i);
    }
  }

  lemma BitOr(a: bv32, b: bv32, i: nat)
    requires i < 32
    ensures Bit(a | b, i) <==> Bit(a, i) || Bit(b, i)
  {
    var s: bv32 := 1 << i;
    assert (a | b) & s == (a & s) | (b & s);
  }

  /** On an instruction whose mask is clear, lane i is active after
      `issue(mask, ...)` iff i is below the warp size and in the mask. */
  lemma IssueOnClearMask(mask: bv32, warpSize: nat)
    ensures forall i :: 0 <= i < MaxWarpSize ==>
      (IssuedMask(seq(MaxWarpSize, _ => false), mask, warpSize)[i] <==>
       i < warpSize && Bit(mask, i))
  {
    forall i | 0 <= i < MaxWarpSize
      ensures IssuedMask(seq(MaxWarpSize, _ => false), mask, warpSize)[i] <==> i < warpSize && Bit(mask, i)
    {
    }
  }

  /** The per-lane records after a lazy allocation: the existing ones, or
      `warpSize` fresh records if there were none. */
  function Allocated(perLane: Option<seq<Lane>>, warpSize: nat): (r: seq<Lane>)
    ensures perLane.Some? ==> r == perLane.value
    ensures perLane.None? ==> |r| == warpSize && forall l :: 0 <= l < |r| ==> r[l] == FreshLane
  {
    match perLane
    case Some(lanes) => lanes
    case None => seq(warpSize, _ => FreshLane)
  }

  /** Every lane with a thread has a function to call (`do_atomic` calls the
      function pointer of every lane whose thread pointer is non-null). */
  predicate CallbacksCallable(lanes: seq<Lane>)
  {
    forall l :: 0 <= l < |lanes| && lanes[l].callback.thread.Some? ==>
      lanes[l].callback.fn.Some?
  }

  /** The call for lane l, if that lane's thread is non-null. */
  function LaneCall(lanes: seq<Lane>, l: nat): seq<Invocation>
    requires l < |lanes| && CallbacksCallable(lanes)
  {
    var cb := lanes[l].callback;
    if cb.thread.Some? then [Invocation(l, cb.fn.value, cb.instruction, cb.thread.value)] else []
  }

  /** The calls `do_atomic` makes while walking the first `k` lanes. */
  function AtomicCalls(lanes: seq<Lane>, k: nat): seq<Invocation>
    requires k <= |lanes| && CallbacksCallable(lanes)
  {
    if k == 0 then []
    else
      AtomicCalls(lanes, k - 1) + LaneCall(lanes, k - 1)
  }

  /** Every call `AtomicCalls` makes belongs to a walked lane whose thread is
      non-null, and carries exactly that lane's callback triple. */
  lemma {:induction false} AtomicCallsSound(lanes: seq<Lane>, k: nat)
    requires k <= |lanes| && CallbacksCallable(lanes)
    ensures forall j :: 0 <= j < |AtomicCalls(lanes, k)| ==>
      var c := AtomicCalls(lanes, k)[j];
      c.lane < k && lanes[c.lane].callback == Callback(Some(c.fn), c.instruction, Some(c.thread))
  {
    if k > 0 {
      AtomicCallsSound(lanes, k - 1);
      assert AtomicCalls(lanes, k) == AtomicCalls(lanes, k - 1) + LaneCall(lanes, k - 1);
    }
  }

  /** The calls go in strictly ascending lane order, so no lane is called
      twice. */
  lemma {:induction false} AtomicCallsAscending(lanes: seq<Lane>, k: nat)
    requires k <= |lanes| && CallbacksCallable(lanes)
    ensures forall a, b :: 0 <= a < b < |AtomicCalls(lanes, k)| ==>
      AtomicCalls(lanes, k)[a].lane < AtomicCalls(lanes, k)[b].lane
  {
    if k > 0 {
      AtomicCallsAscending(lanes, k - 1);
      AtomicCallsSound(lanes, k - 1);
      assert AtomicCalls(lanes, k) == AtomicCalls(lanes, k - 1) + LaneCall(lanes, k - 1);
    }
  }

  /** Every walked lane whose thread is non-null is called. */
  lemma {:induction false} AtomicCallsComplete(lanes: seq<Lane>, k: nat, l: nat)
    requires k <= |lanes| && CallbacksCallable(lanes)
    requires l < k && lanes[l].callback.thread.Some?
    ensures exists j :: 0 <= j < |AtomicCalls(lanes, k)| && AtomicCalls(lanes, k)[j].lane == l
  {
    var prev := AtomicCalls(lanes, k - 1);
    assert AtomicCalls(lanes, k) == prev + LaneCall(lanes, k - 1);
    if l == k - 1 {
      assert AtomicCalls(lanes, k)[|prev|].lane == l;
    } else {
      AtomicCallsComplete(lanes, k - 1, l);
      var j :| 0 <= j < |prev| && prev[j].lane == l;
      assert AtomicCalls(lanes, k)[j] == prev[j];
    }
  }

  class WarpInst {
    /** The `inst_t` part of the instruction. */
    const base: Inst
    const warpSize: nat
    var empty: bool
    var issueCycle: U64
    var isAtomic: bool
    var warpId: U32
    /** `std::bitset<MAX_WARP_SIZE>`: lane i is active iff `activeMask[i]`. */
    var activeMask: seq<bool>
    /** `m_per_scalar_thread_valid` with `m_per_scalar_thread`: `None` until
        the first `SetAddr` or `AddCallback` allocates the records. */
    var perLane: Option<seq<Lane>>
    /** The callbacks `DoAtomic` has invoked so far, in call order. */
    ghost var trace: seq<Invocation>

    ghost predicate Valid()
      reads this
    {
      && warpSize <= MaxWarpSize
      && |activeMask| == MaxWarpSize
      && (forall i :: warpSize <= i < MaxWarpSize ==> !activeMask[i])
      && (perLane.Some? ==> |perLane.value| == warpSize)
      && (isAtomic ==> perLane.Some?)
    }

    /** `warp_inst_t(warp_size)`: asserts the width is at most 32; empty, not
        atomic, no per-lane records, every lane inactive. */
    constructor (size: U32)
      requires size <= MaxWarpSize
      ensures Valid() && fresh(base) && !base.IsValid()
      ensures warpSize == size && empty && !isAtomic && perLane == None
      ensures forall i :: 0 <= i < MaxWarpSize ==> !Active(i)
      ensures trace == []
    {
      base := new Inst();
      warpSize := size;
      empty := true;
      isAtomic := false;
      perLane := None;
      activeMask := seq(MaxWarpSize, _ => false);
      trace := [];
    }

    /** `active(thread)`. No lane at or above the warp size is ever active. */
    predicate Active(lane: nat)
      reads this
      requires Valid() && lane < MaxWarpSize
      ensures Active(lane) ==> lane < warpSize
    {
      activeMask[lane]
    }

    /** `empty()`. */
    predicate IsEmpty()
      reads this
    {
      empty
    }

    /** `warp_id()`: asserts the instruction is not empty. */
    function WarpId(): U32
      reads this
      requires !IsEmpty()
    {
      warpId
    }

    /** `has_callback(n)`: only an active lane of an allocated instruction
        can have a callback. */
    predicate HasCallback(n: nat)
      reads this
      requires Valid() && n < MaxWarpSize
      ensures HasCallback(n) ==> Active(n) && n < warpSize && perLane.Some?
    {
      activeMask[n] && perLane.Some? && perLane.value[n].callback.fn.Some?
    }

    /** `get_addr(n)`: asserts the per-lane records are allocated. */
    function GetAddr(n: nat): U64
      reads this
      requires Valid() && perLane.Some? && n < warpSize
    {
      perLane.value[n].memReqAddr
    }

    /** `isatomic()`: an atomic instruction always has its per-lane records. */
    predicate IsAtomic()
      reads this
      requires Valid()
      ensures IsAtomic() ==> perLane.Some?
    {
      isAtomic
    }

    /** `clear()`: marks the slot empty and changes nothing else, so the
        active mask and the per-lane records survive. */
    method Clear()
      requires Valid()
      modifies this`empty
      ensures Valid() && IsEmpty()
    {
      empty := true;
    }

    /** `issue(mask, warp_id, cycle)`: walks the lanes from the highest down,
        setting the active bit of each lane whose mask bit is set. */
    method Issue(mask: bv32, id: U32, cycle: U64)
      requires Valid()
      modifies this`activeMask, this`warpId, this`issueCycle, this`empty
      ensures Valid()
      ensures activeMask == IssuedMask(old(activeMask), mask, warpSize)
      ensures !IsEmpty() && WarpId() == id && issueCycle == cycle
    {
      var i: int := warpSize - 1;
      while i >= 0
        invariant -1 <= i < warpSize
        invariant |activeMask| == MaxWarpSize
        invariant forall j :: 0 <= j < MaxWarpSize ==>
          activeMask[j] == (old(activeMask)[j] || (i < j < warpSize && Bit(mask, j)))
      {
        if Bit(mask, i) {
          activeMask := activeMask[i := true];
        }
        i := i - 1;
      }
      warpId := id;
      issueCycle := cycle;
      empty := false;
    }

    /** `set_addr(n, addr)`: allocates `warpSize` fresh records if there are
        none, then records lane n's effective address; no other lane changes. */
    method SetAddr(n: U32, addr: U64)
      requires Valid() && n < warpSize
      modifies this`perLane
      ensures Valid()
      ensures var lanes := Allocated(old(perLane), warpSize);
        perLane == Some(lanes[n := lanes[n].(memReqAddr := addr)])
      ensures GetAddr(n) == addr
      ensures forall l :: 0 <= l < warpSize && l != n ==>
        GetAddr(l) == Allocated(old(perLane), warpSize)[l].memReqAddr &&
        perLane.value[l].callback == Allocated(old(perLane), warpSize)[l].callback
    {
      if perLane.None? {
        perLane := Some(seq(warpSize, _ => FreshLane));
      }
      var lanes := perLane.value;
      perLane := Some(lanes[n := lanes[n].(memReqAddr := addr)]);
    }

    /** `add_callback(lane, function, inst, thread)`: allocates the records if
        there are none, and only in that case marks the instruction atomic;
        then stores the callback triple of that lane. */
    method AddCallback(lane: U32, f: Option<CallbackFn>, inst: Option<InstRef>, thread: Option<ThreadRef>)
      requires Valid() && lane < warpSize
      modifies this`perLane, this`isAtomic
      ensures Valid()
      ensures isAtomic == (old(isAtomic) || old(perLane).None?)
      ensures var lanes := Allocated(old(perLane), warpSize);
        perLane == Some(lanes[lane := lanes[lane].(callback := Callback(f, inst, thread))])
      ensures HasCallback(lane) <==> Active(lane) && f.Some?
    {
      if perLane.None? {
        perLane := Some(seq(warpSize, _ => FreshLane));
        isAtomic := true;
      }
      var lanes := perLane.value;
      perLane := Some(lanes[lane := lanes[lane].(callback := Callback(f, inst, thread))]);
    }

    /** `do_atomic()`: asserts the instruction is atomic and not empty, then
        walks the per-lane records in ascending order and calls the callback of
        every lane whose thread pointer is non-null, active or not. It changes
        no field of the instruction; the calls are appended to `trace`. */
    method DoAtomic()
      requires Valid() && isAtomic && !empty
      requires CallbacksCallable(perLane.value)
      modifies this`trace
      ensures trace == old(trace) + AtomicCalls(perLane.value, warpSize)
      ensures var calls := trace[|old(trace)|..];
        (forall l :: 0 <= l < warpSize && perLane.value[l].callback.thread.Some? ==>
          exists j :: 0 <= j < |calls| && calls[j].lane == l) &&
        (forall a, b :: 0 <= a < b < |calls| ==> calls[a].lane < calls[b].lane) &&
        (forall j :: 0 <= j < |calls| ==>
          calls[j].lane < warpSize &&
          perLane.value[calls[j].lane].callback.thread == Some(calls[j].thread))
    {
      var lanes := perLane.value;
      var i := 0;
      while i < |lanes|
        invariant i <= |lanes|
        invariant trace == old(trace) + AtomicCalls(lanes, i)
      {
        var cb := lanes[i].callback;
        if cb.thread.Some? {
          trace := trace + [Invocation(i, cb.fn.value, cb.instruction, cb.thread.value)];
        }
        i := i + 1;
      }
      assert trace[|old(trace)|..] == AtomicCalls(lanes, |lanes|);
      AtomicCallsSound(lanes, |lanes|);
      AtomicCallsAscending(lanes, |lanes|);
      forall l | 0 <= l < |lanes| && lanes[l].callback.thread.Some?
        ensures exists j :: 0 <= j < |AtomicCalls(lanes, |lanes|)| && AtomicCalls(lanes, |lanes|)[j].lane == l
      {
        AtomicCallsComplete(lanes, |lanes|, l);
      }
    }
  }

  /** A client whose assertions show the quirks: the mask accumulates across clear/issue,
      and `AddCallback` after `SetAddr` leaves the instruction non-atomic. */
  method QuirksScenario()
  {
    var w := new WarpInst(4);
    w.Issue(1, 7, 100);
    assert Bit(1, 0);
    assert w.Active(0) && w.WarpId() == 7;
    w.Clear();
    w.Issue(2, 8, 200);
    assert Bit(2, 1);
    assert w.Active(0) && w.Active(1);
    w.SetAddr(1, 0x40);
    w.AddCallback(1, Some(CallbackFn(0)), Some(InstRef(0)), Some(ThreadRef(3)));
    assert !w.IsAtomic() && w.HasCallback(1) && w.GetAddr(1) == 0x40;
  }
}
