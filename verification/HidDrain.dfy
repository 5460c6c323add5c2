/**
 * The drain protocol of usb_hid_bridge.c with any number of threads inside it.
 *
 * Each spinlock section, each endpoint write and each operation on the drain mutex is one
 * atomic step; a schedule is any sequence of such steps, and a step its thread cannot take
 * leaves the state alone, so quantifying over all schedules covers every interleaving.
 * Reports are named by the position at which they were pushed.
 */
module HidDrain {
  import opened Bytes
  import opened HidQueue

  datatype Pc =
    | Idle
    | TryLock
    | Peek
    | Write(item: Item, idx: nat)  // peeked report `idx`, about to write it
    | PopOk(idx: nat)              // the endpoint took report `idx`; about to pop
    | PopErr(idx: nat)             // the endpoint failed on report `idx`; about to pop
    | Count                        // popped, about to count the transmission
    | Unlock
    | UnlockBusy                   // leaving through the EAGAIN return
    | Recheck

  datatype Event =
    | Push(thread: nat, item: Item)     // send_keyboard / send_consumer enters
    | Enter(thread: nat)                // int_in_ready_cb enters
    | Go(thread: nat, answer: int)      // the thread's next step; `answer` is the endpoint's

  datatype State = State(
    queue: seq<Item>,
    drops: nat,
    txOk: nat,
    lock: Option<nat>,
    pcs: seq<Pc>,
    // history
    pushed: seq<Item>,
    removed: nat,               // pushed[..removed] have left the queue
    accepted: seq<nat>,         // reports the endpoint took, in order
    wire: seq<seq<byte>>,       // the bytes it took
    failed: seq<nat>,           // reports it failed on
    busyExit: bool)             // the last holder of the lock left through EAGAIN

  function Init(n: nat): State {
    State([], 0, 0, None, seq(n, _ => Idle), [], 0, [], [], [], false)
  }

  function At(s: State, t: nat, pc: Pc): State
    requires t < |s.pcs|
  {
    s.(pcs := s.pcs[t := pc])
  }

  function Pushed(s: State, x: Item): State {
    var full := |s.queue| >= DEPTH;
    s.(queue := Enqueue(s.queue, x), pushed := s.pushed + [x],
       drops := if full then s.drops + 1 else s.drops,
       removed := if full then s.removed + 1 else s.removed)
  }

  function Popped(s: State): State {
    if s.queue == [] then s else s.(queue := s.queue[1..], removed := s.removed + 1)
  }

  function Advance(s: State, t: nat, answer: int): (s': State)
    requires t < |s.pcs|
    ensures |s'.pcs| == |s.pcs|
  {
    match s.pcs[t]
    case Idle => s
    case TryLock =>
      if s.lock.Some? then At(s, t, Idle) else At(s.(lock := Some(t), busyExit := false), t, Peek)
    case Peek =>
      At(s, t, if s.queue == [] then Unlock else Write(s.queue[0], s.removed))
    case Write(x, i) =>
      if answer == -EAGAIN then At(s, t, UnlockBusy)
      else if answer != 0 then At(s.(failed := s.failed + [i]), t, PopErr(i))
      else At(s.(accepted := s.accepted + [i], wire := s.wire + [HidQueue.Wire(x)]), t, PopOk(i))
    case PopErr(_) => At(Popped(s), t, Peek)
    case PopOk(_) => At(Popped(s), t, Count)
    case Count => At(s.(txOk := s.txOk + 1), t, Peek)
    case Unlock => At(s.(lock := None), t, Recheck)
    case UnlockBusy => At(s.(lock := None, busyExit := true), t, Idle)
    case Recheck => At(s, t, if s.queue == [] then Idle else TryLock)
  }

  function Step(s: State, e: Event): (s': State)
    ensures |s'.pcs| == |s.pcs|
  {
    if e.thread >= |s.pcs| then s else
    match e
    case Push(t, x) => if s.pcs[t] == Idle then At(Pushed(s, x), t, TryLock) else s
    case Enter(t) => if s.pcs[t] == Idle then At(s, t, TryLock) else s
    case Go(t, answer) => Advance(s, t, answer)
  }

  function Exec(s: State, es: seq<Event>): State {
    if es == [] then s else Step(Exec(s, es[..|es| - 1]), es[|es| - 1])
  }

  // ------------------------------------------------------------------ invariant

  predicate Holding(pc: Pc) {
    pc.Peek? || pc.Write? || pc.PopOk? || pc.PopErr? || pc.Count? || pc.Unlock? || pc.UnlockBusy?
  }

  /** Where the holder of the drain lock is; Idle when nobody holds it. */
  function Phase(s: State): Pc {
    if s.lock.Some? && s.lock.value < |s.pcs| then s.pcs[s.lock.value] else Idle
  }

  ghost predicate LockInv(s: State) {
    && (s.lock.Some? ==> s.lock.value < |s.pcs| && Holding(s.pcs[s.lock.value]))
    && forall t :: 0 <= t < |s.pcs| && Holding(s.pcs[t]) ==> s.lock == Some(t)
  }

  ghost predicate QueueInv(s: State) {
    && s.removed <= |s.pushed|
    && s.queue == s.pushed[s.removed..]
    && |s.queue| <= DEPTH
  }

  /** A report between peek and pop: still at the front, or pushed out by overflow, in which
      case the queue has been full ever since. */
  ghost predicate Flying(s: State, i: nat) {
    && i < |s.pushed| && i <= s.removed && s.queue != []
    && (i < s.removed ==> |s.queue| == DEPTH)
  }

  ghost predicate FlightInv(s: State) {
    match Phase(s)
    case Write(x, i) => Flying(s, i) && x == s.pushed[i]
    case PopOk(i) => Flying(s, i) && s.accepted != [] && s.accepted[|s.accepted| - 1] == i && i !in s.failed
    case PopErr(i) => Flying(s, i) && s.failed != [] && s.failed[|s.failed| - 1] == i && i !in s.accepted
    case _ => true
  }

  /** Every report already given to the endpoint is below this. */
  function Bound(s: State): nat {
    match Phase(s)
    case Write(_, i) => i
    case PopOk(i) => i + 1
    case PopErr(i) => i + 1
    case _ => s.removed
  }

  ghost predicate Below(s: seq<nat>, bound: nat) {
    StrictlyIncreasing(s) && forall i :: i in s ==> i < bound
  }

  ghost predicate FifoInv(s: State) {
    && Below(s.accepted, Bound(s))
    && Below(s.failed, Bound(s))
    && |s.wire| == |s.accepted|
    && forall k :: 0 <= k < |s.wire| ==>
         s.accepted[k] < |s.pushed| && s.wire[k] == HidQueue.Wire(s.pushed[s.accepted[k]])
  }

  function PendingPop(s: State): nat {
    if Phase(s).PopOk? || Phase(s).PopErr? then 1 else 0
  }

  function PendingCount(s: State): nat {
    if Phase(s).PopOk? || Phase(s).Count? then 1 else 0
  }

  ghost predicate CountInv(s: State) {
    && s.removed + PendingPop(s) == s.drops + |s.accepted| + |s.failed|
    && s.txOk + PendingCount(s) == |s.accepted|
  }

  /** Report `i` was dealt with by the endpoint, or is in its hands. */
  ghost predicate Offered(s: State, i: nat) {
    i in s.accepted || i in s.failed || (Phase(s).Write? && Phase(s).idx == i)
  }

  ghost predicate LossInv(s: State) {
    forall i :: 0 <= i < s.removed && !Offered(s, i) ==> |s.pushed| >= i + DEPTH
  }

  predicate Heading(pc: Pc) {
    pc.TryLock? || pc.Recheck?
  }

  ghost predicate StrandInv(s: State) {
    s.queue != [] ==>
      s.lock.Some? || s.busyExit || exists t :: 0 <= t < |s.pcs| && Heading(s.pcs[t])
  }

  ghost predicate Inv(s: State) {
    LockInv(s) && QueueInv(s) && FlightInv(s) && FifoInv(s) && CountInv(s) && LossInv(s) && StrandInv(s)
  }

  // ------------------------------------------------------------------ preservation

  lemma PushKeepsInv(s: State, t: nat, x: Item)
    requires Inv(s) && t < |s.pcs| && s.pcs[t] == Idle
    ensures Inv(At(Pushed(s, x), t, TryLock))
  {
    var s' := At(Pushed(s, x), t, TryLock);
    assert s'.pcs[t] == TryLock;
    assert Phase(s') == Phase(s);
    forall i | 0 <= i < s'.removed && !Offered(s', i) ensures |s'.pushed| >= i + DEPTH {
      assert !Offered(s, i);
    }
  }

  lemma EnterKeepsInv(s: State, t: nat)
    requires Inv(s) && t < |s.pcs| && s.pcs[t] == Idle
    ensures Inv(At(s, t, TryLock))
  {
    var s' := At(s, t, TryLock);
    assert s'.pcs[t] == TryLock;
    forall i | 0 <= i < s'.removed && !Offered(s', i) ensures |s'.pushed| >= i + DEPTH {
      assert !Offered(s, i);
    }
  }

  lemma AdvanceKeepsLoss(s: State, t: nat, answer: int)
    requires Inv(s) && t < |s.pcs|
    ensures LossInv(Advance(s, t, answer))
  {
    var s' := Advance(s, t, answer);
    forall i | 0 <= i < s'.removed && !Offered(s', i) ensures |s'.pushed| >= i + DEPTH {
      match s.pcs[t] {
        case Write(x, j) =>
          assert s'.accepted == s.accepted + [j] ==> j in s'.accepted;
          assert s'.failed == s.failed + [j] ==> j in s'.failed;
          assert i != j ==> !Offered(s, i);
        case PopOk(j) => assert j in s.accepted; assert i < s.removed ==> !Offered(s, i);
        case PopErr(j) => assert j in s.failed; assert i < s.removed ==> !Offered(s, i);
        case _ => assert !Offered(s, i);
      }
    }
  }

  lemma AdvanceKeepsLock(s: State, t: nat, answer: int)
    requires LockInv(s) && t < |s.pcs|
    ensures LockInv(Advance(s, t, answer))
  {
  }

  /** Only the lock holder's own steps, and taking the lock, move the phase. */
  lemma PhaseAfter(s: State, t: nat, answer: int)
    requires LockInv(s) && t < |s.pcs|
    ensures var s' := Advance(s, t, answer);
            if Holding(s.pcs[t]) then
              Phase(s) == s.pcs[t] && Phase(s') == (if s'.lock == None then Idle else s'.pcs[t])
            else if s.pcs[t] == TryLock && s.lock == None then
              Phase(s) == Idle && Phase(s') == Peek && s'.queue == s.queue
            else Phase(s') == Phase(s)
  {
    if !Holding(s.pcs[t]) && s.lock.Some? {
      assert s.lock.value != t;
    }
  }

  lemma AdvanceKeepsQueue(s: State, t: nat, answer: int)
    requires QueueInv(s) && t < |s.pcs|
    ensures QueueInv(Advance(s, t, answer))
  {
  }

  lemma AdvanceKeepsFlight(s: State, t: nat, answer: int)
    requires LockInv(s) && QueueInv(s) && FlightInv(s) && FifoInv(s) && t < |s.pcs|
    ensures FlightInv(Advance(s, t, answer))
  {
    PhaseAfter(s, t, answer);
    if s.pcs[t].Write? {
      assert s.pcs[t].idx !in s.failed && s.pcs[t].idx !in s.accepted;
    }
  }

  lemma Extend(s: seq<nat>, i: nat)
    requires Below(s, i)
    ensures Below(s, i + 1) && Below(s + [i], i + 1)
  {
    assert forall k :: 0 <= k < |s| ==> s[k] in s;
  }

  lemma WriteKeepsFifo(s: State, t: nat, answer: int)
    requires LockInv(s) && FlightInv(s) && FifoInv(s)
    requires t < |s.pcs| && s.pcs[t].Write?
    ensures FifoInv(Advance(s, t, answer))
  {
    PhaseAfter(s, t, answer);
    var i := s.pcs[t].idx;
    Extend(s.accepted, i);
    Extend(s.failed, i);
    assert Bound(s) == i;
    var s' := Advance(s, t, answer);
    assert Bound(s') == if answer == -EAGAIN then s.removed else i + 1;
  }

  lemma BoundGrows(s: State, t: nat, answer: int)
    requires LockInv(s) && FlightInv(s) && t < |s.pcs|
    requires !s.pcs[t].Write?
    ensures Bound(Advance(s, t, answer)) >= Bound(s)
  {
    PhaseAfter(s, t, answer);
  }

  lemma AdvanceKeepsFifo(s: State, t: nat, answer: int)
    requires LockInv(s) && QueueInv(s) && FlightInv(s) && FifoInv(s) && t < |s.pcs|
    ensures FifoInv(Advance(s, t, answer))
  {
    if s.pcs[t].Write? {
      WriteKeepsFifo(s, t, answer);
    } else {
      BoundGrows(s, t, answer);
    }
  }

  lemma AdvanceKeepsCount(s: State, t: nat, answer: int)
    requires LockInv(s) && FlightInv(s) && CountInv(s) && t < |s.pcs|
    ensures CountInv(Advance(s, t, answer))
  {
    PhaseAfter(s, t, answer);
  }

  lemma AdvanceKeepsStrand(s: State, t: nat, answer: int)
    requires Inv(s) && t < |s.pcs|
    ensures StrandInv(Advance(s, t, answer))
  {
    var s' := Advance(s, t, answer);
    assert s'.pcs[t] == TryLock || s'.pcs[t] == Recheck || s'.queue == [] || s'.lock.Some? || s'.busyExit ||
           exists u :: 0 <= u < |s'.pcs| && Heading(s'.pcs[u]);
  }

  lemma AdvanceKeepsInv(s: State, t: nat, answer: int)
    requires Inv(s) && t < |s.pcs|
    ensures Inv(Advance(s, t, answer))
  {
    AdvanceKeepsLock(s, t, answer);
    AdvanceKeepsQueue(s, t, answer);
    AdvanceKeepsFlight(s, t, answer);
    AdvanceKeepsFifo(s, t, answer);
    AdvanceKeepsCount(s, t, answer);
    AdvanceKeepsLoss(s, t, answer);
    AdvanceKeepsStrand(s, t, answer);
  }

  lemma StepKeepsInv(s: State, e: Event)
    requires Inv(s)
    ensures Inv(Step(s, e))
  {
    if e.thread < |s.pcs| {
      match e
      case Push(t, x) => if s.pcs[t] == Idle { PushKeepsInv(s, t, x); }
      case Enter(t) => if s.pcs[t] == Idle { EnterKeepsInv(s, t); }
      case Go(t, answer) => AdvanceKeepsInv(s, t, answer);
    }
  }

  lemma {:induction false} ExecKeepsInv(s: State, es: seq<Event>)
    requires Inv(s)
    ensures Inv(Exec(s, es))
  {
    if es == [] {
    } else {
      ExecKeepsInv(s, es[..|es| - 1]);
      StepKeepsInv(Exec(s, es[..|es| - 1]), es[|es| - 1]);
    }
  }

  /** Everything below holds in every state a schedule can reach from a fresh bridge. */
  lemma Reachable(n: nat, es: seq<Event>)
    ensures Inv(Exec(Init(n), es))
  {
    ExecKeepsInv(Init(n), es);
  }

  // ------------------------------------------------------------------ theorems

  /** One drainer at a time. */
  lemma MutualExclusion(n: nat, es: seq<Event>, t: nat, u: nat)
    requires t < n && u < n
    ensures var s := Exec(Init(n), es);
            |s.pcs| == n && (Holding(s.pcs[t]) && Holding(s.pcs[u]) ==> t == u)
  {
    Reachable(n, es);
    ThreadsStay(Init(n), es);
  }

  lemma {:induction false} ThreadsStay(s: State, es: seq<Event>)
    ensures |Exec(s, es).pcs| == |s.pcs|
  {
    if es == [] {
    } else {
      ThreadsStay(s, es[..|es| - 1]);
    }
  }

  /** What the endpoint accepted is a subsequence of what was pushed, in order, no report
      twice: the n-th write it took carried report accepted[n]. */
  lemma Fifo(n: nat, es: seq<Event>)
    ensures var s := Exec(Init(n), es);
            && StrictlyIncreasing(s.accepted) && |s.accepted| == |s.wire|
            && forall k :: 0 <= k < |s.accepted| ==>
                 s.accepted[k] < |s.pushed| && s.wire[k] == HidQueue.Wire(s.pushed[s.accepted[k]])
  {
    Reachable(n, es);
  }

  /** A report with fewer than 47 later ones is still queued, is being written, was sent, or
      met a hard write error: neither eviction nor a displaced pop has lost it. */
  lemma LossBound(n: nat, es: seq<Event>, i: nat)
    ensures var s := Exec(Init(n), es);
            i < |s.pushed| && |s.pushed| - 1 - i < 47 ==>
              i >= s.removed || i in s.accepted || i in s.failed || (Phase(s).Write? && Phase(s).idx == i)
  {
    Reachable(n, es);
    var s := Exec(Init(n), es);
    if i < s.removed && !Offered(s, i) {
      assert |s.pushed| >= i + DEPTH;
    }
  }

  /** Every report waits in the queue, or left it: the counters account for each one, up to
      the one report between its write and its pop and counter update. */
  lemma Conservation(n: nat, es: seq<Event>)
    ensures var s := Exec(Init(n), es);
            && |s.pushed| + PendingPop(s) == s.txOk + PendingCount(s) + |s.failed| + s.drops + |s.queue|
            && |s.wire| == s.txOk + PendingCount(s)
  {
    Reachable(n, es);
  }

  /** hid_queue_pop never meets an empty queue. */
  lemma PopMeetsReport(n: nat, es: seq<Event>, t: nat)
    requires t < n
    ensures var s := Exec(Init(n), es);
            |s.pcs| == n && (s.pcs[t].PopOk? || s.pcs[t].PopErr? ==> s.queue != [])
  {
    Reachable(n, es);
    ThreadsStay(Init(n), es);
    assert Holding(Exec(Init(n), es).pcs[t]) ==> Phase(Exec(Init(n), es)) == Exec(Init(n), es).pcs[t];
  }

  /** The reports that left the queue and were never taken by the endpoint. */
  ghost function Lost(s: State): set<nat> {
    Missing(s.accepted, s.removed)
  }

  ghost function Missing(s: seq<nat>, b: nat): set<nat> {
    set i: nat | i < b && i !in s
  }

  ghost function UpTo(b: nat): (r: set<nat>)
    ensures |r| == b && forall i :: i in r <==> 0 <= i < b
  {
    if b == 0 then {} else UpTo(b - 1) + {b - 1}
  }

  ghost function Elements(s: seq<nat>): (r: set<nat>)
    ensures forall i :: i in r <==> i in s
  {
    if s == [] then {} else Elements(s[..|s| - 1]) + {s[|s| - 1]}
  }

  lemma {:induction false} Distinct(s: seq<nat>, b: nat)
    requires Below(s, b)
    ensures |Elements(s)| == |s|
  {
    if s == [] {
    } else {
      var t, last := s[..|s| - 1], s[|s| - 1];
      assert forall k :: 0 <= k < |t| ==> t[k] == s[k] < last;
      Distinct(t, last);
      assert last !in Elements(t);
    }
  }

  lemma Complement(s: seq<nat>, b: nat)
    requires Below(s, b)
    ensures |Missing(s, b)| == b - |s|
  {
    Distinct(s, b);
    assert Elements(s) <= UpTo(b);
    assert Missing(s, b) == UpTo(b) - Elements(s);
  }

  lemma ComplementBelowLast(s: seq<nat>, b: nat)
    requires Below(s, b + 1) && s != [] && s[|s| - 1] == b
    ensures |Missing(s, b)| == b - (|s| - 1)
  {
    var t := s[..|s| - 1];
    assert forall k :: 0 <= k < |t| ==> t[k] == s[k] < b;
    assert s == t + [b];
    Complement(t, b);
    assert Missing(s, b) == Missing(t, b);
  }

  predicate Owed(s: State) {
    Phase(s).PopErr? || (Phase(s).PopOk? && Phase(s).idx < s.removed)
  }

  lemma LostInState(s: State)
    requires FlightInv(s) && FifoInv(s) && CountInv(s)
    ensures |Lost(s)| + (if Owed(s) then 1 else 0) == s.drops + |s.failed|
  {
    if Phase(s).PopOk? && Phase(s).idx == s.removed {
      ComplementBelowLast(s.accepted, s.removed);
    } else {
      Complement(s.accepted, s.removed);
    }
  }

  /** Drops plus hard errors is the number of reports lost, even when overflow displaced a pop;
      the one exception is a pop still owed for a report no longer at the front. */
  lemma LostAreCounted(n: nat, es: seq<Event>)
    ensures var s := Exec(Init(n), es);
            |Lost(s)| + (if Owed(s) then 1 else 0) == s.drops + |s.failed|
  {
    Reachable(n, es);
    LostInState(Exec(Init(n), es));
  }

  /** Of the events that take or leave the drain lock, the last left it through the busy return. */
  predicate LeftBusy(n: nat, es: seq<Event>) {
    if es == [] then false
    else
      var init, e := es[..|es| - 1], es[|es| - 1];
      var s := Exec(Init(n), init);
      if e.Go? && e.thread < |s.pcs| && s.pcs[e.thread] == UnlockBusy then true
      else if e.Go? && e.thread < |s.pcs| && s.pcs[e.thread] == TryLock && s.lock == None then false
      else LeftBusy(n, init)
  }

  lemma {:induction false} BusyExitIsLeftBusy(n: nat, es: seq<Event>)
    ensures Exec(Init(n), es).busyExit <==> LeftBusy(n, es)
  {
    if es == [] {
    } else {
      BusyExitIsLeftBusy(n, es[..|es| - 1]);
    }
  }

  /** A waiting report always has somebody coming for it, unless the last drain gave up busy. */
  lemma NoStranding(n: nat, es: seq<Event>)
    ensures var s := Exec(Init(n), es);
            s.queue != [] ==>
              s.lock.Some? || LeftBusy(n, es) || exists t :: 0 <= t < |s.pcs| && Heading(s.pcs[t])
  {
    Reachable(n, es);
    BusyExitIsLeftBusy(n, es);
  }

  predicate Quiet(s: State) {
    forall t :: 0 <= t < |s.pcs| ==> s.pcs[t] == Idle
  }

  predicate NeverBusy(es: seq<Event>) {
    forall e :: e in es && e.Go? ==> e.answer != -11
  }

  lemma {:induction false} NeverBusyExit(s: State, es: seq<Event>)
    requires !s.busyExit && (forall t :: 0 <= t < |s.pcs| ==> s.pcs[t] != UnlockBusy) && NeverBusy(es)
    ensures var s' := Exec(s, es);
            !s'.busyExit && forall t :: 0 <= t < |s'.pcs| ==> s'.pcs[t] != UnlockBusy
  {
    if es == [] {
    } else {
      assert es[|es| - 1] in es;
      NeverBusyExit(s, es[..|es| - 1]);
    }
  }

  /** With an endpoint that never answers busy, an idle bridge has an empty queue, and every
      report pushed was sent, failed hard, or dropped by overflow. */
  lemma QuietMeansEmpty(n: nat, es: seq<Event>)
    requires NeverBusy(es)
    ensures var s := Exec(Init(n), es);
            Quiet(s) ==> s.queue == [] && |s.pushed| == s.txOk + |s.failed| + s.drops
  {
    Reachable(n, es);
    NeverBusyExit(Init(n), es);
  }

  // ------------------------------------------------------------------ termination

  /** Steps a thread can still take before the queue next shrinks. */
  function Rank(pc: Pc, waiting: bool): nat {
    match pc
    case Idle => 0
    case UnlockBusy => 1
    case Write(_, _) => 5
    case PopOk(_) => 4
    case PopErr(_) => 4
    case Count => 9
    case Peek => 8
    case TryLock => 10
    case Unlock => if waiting then 12 else 2
    case Recheck => if waiting then 11 else 1
  }

  function Ranks(pcs: seq<Pc>, waiting: bool): (r: nat)
    ensures r <= 12 * |pcs|
  {
    if pcs == [] then 0 else Rank(pcs[0], waiting) + Ranks(pcs[1..], waiting)
  }

  lemma {:induction false} RanksUpdate(pcs: seq<Pc>, t: nat, pc: Pc, waiting: bool)
    requires t < |pcs|
    ensures Ranks(pcs[t := pc], waiting) + Rank(pcs[t], waiting) == Ranks(pcs, waiting) + Rank(pc, waiting)
  {
    if t == 0 {
      assert pcs[0 := pc][1..] == pcs[1..];
    } else {
      RanksUpdate(pcs[1..], t - 1, pc, waiting);
      assert pcs[t := pc][1..] == pcs[1..][t - 1 := pc];
    }
  }

  /** How many more steps the threads now inside can take if nobody else enters. */
  function Fuel(s: State): nat {
    |s.queue| * (12 * |s.pcs| + 1) + Ranks(s.pcs, s.queue != [])
  }

  lemma RankFalls(s: State, t: nat, answer: int)
    requires t < |s.pcs| && s.pcs[t] != Idle
    requires s.pcs[t].PopOk? || s.pcs[t].PopErr? ==> s.queue != []
    ensures var s' := Advance(s, t, answer);
            && s'.pcs == s.pcs[t := s'.pcs[t]]
            && if s.pcs[t].PopOk? || s.pcs[t].PopErr? then s'.queue == s.queue[1..]
               else s'.queue == s.queue && Rank(s'.pcs[t], s.queue != []) < Rank(s.pcs[t], s.queue != [])
  {
  }

  lemma GoBurnsFuel(s: State, t: nat, answer: int)
    requires Inv(s) && t < |s.pcs| && s.pcs[t] != Idle
    ensures Fuel(Advance(s, t, answer)) < Fuel(s)
  {
    assert s.pcs[t].PopOk? || s.pcs[t].PopErr? ==> s.queue != [] by {
      assert Holding(s.pcs[t]) ==> Phase(s) == s.pcs[t];
    }
    hide Inv, Ranks, Rank, Advance;
    RankFalls(s, t, answer);
    var s' := Advance(s, t, answer);
    if |s'.queue| < |s.queue| {
      OneReportLess(|s'.queue|, |s.pcs|, Ranks(s.pcs, s.queue != []), Ranks(s'.pcs, s'.queue != []));
    } else {
      RanksUpdate(s.pcs, t, s'.pcs[t], s.queue != []);
    }
  }

  lemma OneReportLess(q: nat, threads: nat, before: nat, after: nat)
    requires after <= 12 * threads
    ensures q * (12 * threads + 1) + after < (q + 1) * (12 * threads + 1) + before
  {
    assert (q + 1) * (12 * threads + 1) == q * (12 * threads + 1) + (12 * threads + 1);
  }

  /** Each event is the next step of a thread that is inside. */
  ghost predicate AllInside(s: State, es: seq<Event>) {
    forall k :: 0 <= k < |es| ==> es[k].Go? && Inside(Exec(s, es[..k]), es[k].thread)
  }

  predicate Inside(s: State, t: nat) {
    t < |s.pcs| && s.pcs[t] != Idle
  }

  /** No thread waits for another, so a bridge nobody enters falls idle: the threads inside
      take at most Fuel steps in all, whatever the endpoint answers. */
  lemma {:induction false} DrainsTerminate(s: State, es: seq<Event>)
    requires Inv(s) && AllInside(s, es)
    ensures |es| + Fuel(Exec(s, es)) <= Fuel(s)
  {
    if es == [] {
    } else {
      hide Advance, Fuel, Inv;
      var init := es[..|es| - 1];
      assert forall k :: 0 <= k < |init| ==> init[..k] == es[..k] && init[k] == es[k];
      DrainsTerminate(s, init);
      ExecKeepsInv(s, init);
      GoBurnsFuel(Exec(s, init), es[|es| - 1].thread, es[|es| - 1].answer);
    }
  }

  // ------------------------------------------------------------------ one thread alone

  lemma {:induction false} ExecAppend(s: State, a: seq<Event>, b: seq<Event>)
    ensures Exec(s, a + b) == Exec(Exec(s, a), b)
  {
    if b == [] {
      assert a + b == a;
    } else {
      ExecAppend(s, a, b[..|b| - 1]);
      assert (a + b)[..|a + b| - 1] == a + b[..|b| - 1];
    }
  }

  ghost predicate OnlySteps(es: seq<Event>, t: nat) {
    forall e :: e in es ==> e.Go? && e.thread == t
  }

  /** What a drain by `t` alone does to the rest of the state. */
  ghost predicate DrainedBy(s: State, s': State, d: Drained) {
    && s'.queue == d.rest && s'.wire == s.wire + d.sent && s'.txOk == s.txOk + |d.sent|
    && s'.lock == None && s'.pushed == s.pushed && s'.drops == s.drops
  }

  lemma One(s: State, a: Event)
    ensures Exec(s, [a]) == Step(s, a)
  {
    hide Step;
    assert [a][..|[a]| - 1] == [];
  }

  lemma Two(s: State, a: Event, b: Event)
    ensures Exec(s, [a, b]) == Step(Step(s, a), b)
  {
    hide Step;
    One(s, a);
    assert [a, b][..1] == [a];
  }

  lemma Three(s: State, a: Event, b: Event, c: Event)
    ensures Exec(s, [a, b, c]) == Step(Step(Step(s, a), b), c)
  {
    Two(s, a, b);
    assert [a, b, c][..2] == [a, b];
  }

  /** Peek, write, pop and (if the endpoint took it) count: one trip round the loop. */
  lemma OneReport(s: State, t: nat, answer: int) returns (es: seq<Event>)
    requires t < |s.pcs| && s.pcs[t] == Peek && s.lock == Some(t) && s.queue != [] && answer != -EAGAIN
    ensures OnlySteps(es, t)
    ensures var s' := Exec(s, es);
            && s'.pcs == s.pcs && s'.lock == s.lock && s'.pushed == s.pushed && s'.drops == s.drops
            && s'.queue == s.queue[1..]
            && s'.wire == (if answer == 0 then s.wire + [HidQueue.Wire(s.queue[0])] else s.wire)
            && s'.txOk == (if answer == 0 then s.txOk + 1 else s.txOk)
  {
    var go, write := Go(t, 0), Go(t, answer);
    Three(s, go, write, go);
    es := [go, write, go];
    if answer == 0 {
      es := es + [go];
      assert es[..3] == [go, write, go];
    }
  }

  lemma {:induction false} SoloFromPeek(s: State, t: nat, answer: nat -> int, n: nat) returns (es: seq<Event>)
    requires t < |s.pcs| && s.pcs[t] == Peek && s.lock == Some(t)
    ensures OnlySteps(es, t)
    ensures var s' := Exec(s, es);
            s'.pcs == s.pcs[t := Idle] && DrainedBy(s, s', DrainAlone(s.queue, answer, n))
    decreases |s.queue|
  {
    if s.queue == [] {
      es := [Go(t, 0), Go(t, 0), Go(t, 0)];
      Three(s, Go(t, 0), Go(t, 0), Go(t, 0));
    } else if answer(n) == -EAGAIN {
      es := [Go(t, 0), Go(t, -EAGAIN), Go(t, 0)];
      Three(s, Go(t, 0), Go(t, -EAGAIN), Go(t, 0));
    } else {
      var first := OneReport(s, t, answer(n));
      var s1 := Exec(s, first);
      var rest := SoloFromPeek(s1, t, answer, n + 1);
      ExecAppend(s, first, rest);
      es := first + rest;
      DrainedAfterOne(s, s1, Exec(s, es), answer, n);
    }
  }

  lemma DrainedAfterOne(s: State, s1: State, s': State, answer: nat -> int, n: nat)
    requires s.queue != [] && answer(n) != -EAGAIN
    requires s1.pushed == s.pushed && s1.drops == s.drops && s1.queue == s.queue[1..]
    requires s1.wire == (if answer(n) == 0 then s.wire + [HidQueue.Wire(s.queue[0])] else s.wire)
    requires s1.txOk == (if answer(n) == 0 then s.txOk + 1 else s.txOk)
    requires DrainedBy(s1, s', DrainAlone(s1.queue, answer, n + 1))
    ensures DrainedBy(s, s', DrainAlone(s.queue, answer, n))
  {
  }

  /** A thread nobody disturbs leaves the bridge exactly as HidQueue.Queue.TryDrain promises. */
  lemma SoloDrain(s: State, t: nat, answer: nat -> int, n: nat) returns (es: seq<Event>)
    requires t < |s.pcs| && s.pcs[t] == TryLock && s.lock == None
    ensures OnlySteps(es, t)
    ensures var s' := Exec(s, es);
            s'.pcs == s.pcs[t := Idle] && DrainedBy(s, s', DrainAlone(s.queue, answer, n))
  {
    var lock := [Go(t, 0)];
    var s1 := Exec(s, lock);
    One(s, Go(t, 0));
    es := SoloFromPeek(s1, t, answer, n);
    ExecAppend(s, lock, es);
    es := lock + es;
  }

  /** Thread `t` starts with event `e` and goes on alone; in the end it is outside again, the lock
      is free, and `d` is what an undisturbed drain of `queue` makes. */
  ghost predicate Drains(s: State, t: nat, e: Event, es: seq<Event>, d: Drained) {
    && es != [] && es[0] == e && OnlySteps(es[1..], t)
    && var s' := Exec(s, es);
       && s'.pcs == s.pcs && s'.lock == None && s'.queue == d.rest
       && s'.wire == s.wire + d.sent && s'.txOk == s.txOk + |d.sent|
  }

  lemma EnteredDrains(s: State, t: nat, e: Event, answer: nat -> int, n: nat) returns (es: seq<Event>)
    requires t < |s.pcs| && s.pcs[t] == Idle && s.lock == None
    requires e == Enter(t) || (e.Push? && e.thread == t)
    ensures var q := if e.Push? then Enqueue(s.queue, e.item) else s.queue;
            Drains(s, t, e, es, DrainAlone(q, answer, n))
    ensures var s' := Exec(s, es);
            if e.Enter? then s'.pushed == s.pushed && s'.drops == s.drops
            else s'.pushed == s.pushed + [e.item] && s'.drops == s.drops + if |s.queue| >= 48 then 1 else 0
  {
    hide DrainAlone;
    var s1 := Exec(s, [e]);
    One(s, e);
    var rest := SoloDrain(s1, t, answer, n);
    ExecAppend(s, [e], rest);
    es := [e] + rest;
    assert es[1..] == rest;
    assert s1.pcs[t := Idle] == s.pcs;
  }

  /** int_in_ready_cb, entered by an idle thread while nobody drains, empties the queue as far as
      the endpoint allows; so does a send, its own report included. */
  lemma EntryDrains(s: State, t: nat, x: Item, answer: nat -> int, n: nat)
    requires t < |s.pcs| && s.pcs[t] == Idle && s.lock == None
    ensures exists es :: Drains(s, t, Enter(t), es, DrainAlone(s.queue, answer, n))
    ensures exists es :: Drains(s, t, Push(t, x), es, DrainAlone(Enqueue(s.queue, x), answer, n))
  {
    hide Drains;
    var _ := EnteredDrains(s, t, Enter(t), answer, n);
    var _ := EnteredDrains(s, t, Push(t, x), answer, n);
  }

  lemma {:induction false} NeverBusyDrainsAll(q: seq<Item>, answer: nat -> int, n: nat)
    requires forall i :: answer(i) != -EAGAIN
    ensures DrainAlone(q, answer, n).rest == []
  {
    if q == [] {
    } else {
      NeverBusyDrainsAll(q[1..], answer, n + 1);
    }
  }

  /** What a busy return strands is not lost: over every run, an idle bridge is emptied by the next
      ready callback, if the endpoint is not busy then. */
  lemma NextReadyEmpties(n: nat, es: seq<Event>, t: nat, answer: nat -> int)
    requires Quiet(Exec(Init(n), es)) && t < n && forall i :: answer(i) != -EAGAIN
    ensures exists more: seq<Event> :: EmptiedBy(Exec(Init(n), es), t, more)
  {
    var s := Exec(Init(n), es);
    Reachable(n, es);
    ThreadsStay(Init(n), es);
    var more := EnteredDrains(s, t, Enter(t), answer, 0);
    NeverBusyDrainsAll(s.queue, answer, 0);
    assert EmptiedBy(s, t, more);
  }

  ghost predicate EmptiedBy(s: State, t: nat, es: seq<Event>) {
    es != [] && es[0] == Enter(t) && OnlySteps(es[1..], t) && Quiet(Exec(s, es)) && Exec(s, es).queue == []
  }

  // ------------------------------------------------------------------ the bound is tight

  function Copies(n: nat, x: Item): seq<Item> {
    seq(n, _ => x)
  }

  /** Thread 0 has peeked report 0 when thread 1 pushes `k` more. */
  function Flood(x: Item, k: nat): seq<Event> {
    if k == 0 then [Push(0, x), Go(0, 0), Go(0, 0)] else Flood(x, k - 1) + [Push(1, x), Go(1, 0)]
  }

  function Flooded(x: Item, k: nat): State {
    var out := if k < DEPTH then 0 else k + 1 - DEPTH;
    State(Copies(k + 1 - out, x), out, 0, Some(0), [Write(x, 0), Idle], Copies(k + 1, x), out, [], [], [], false)
  }

  lemma FloodStep(x: Item, k: nat)
    ensures Exec(Flooded(x, k), [Push(1, x), Go(1, 0)]) == Flooded(x, k + 1)
  {
    var s, s' := Flooded(x, k), Flooded(x, k + 1);
    Two(s, Push(1, x), Go(1, 0));
    assert s'.queue == Enqueue(s.queue, x);
    assert s'.pushed == s.pushed + [x];
    assert s.pcs[1 := TryLock][1 := Idle] == s.pcs;
  }

  lemma {:induction false} FloodReaches(x: Item, k: nat)
    ensures Exec(Init(2), Flood(x, k)) == Flooded(x, k)
  {
    if k == 0 {
      Three(Init(2), Push(0, x), Go(0, 0), Go(0, 0));
      assert [] + [x] == Copies(1, x);
      assert Exec(Init(2), Flood(x, 0)).pcs == [Write(x, 0), Idle];
    } else {
      FloodReaches(x, k - 1);
      FloodStep(x, k - 1);
      ExecAppend(Init(2), Flood(x, k - 1), [Push(1, x), Go(1, 0)]);
    }
  }

  /** Overflow can move the tail between peek and pop, and then the pop removes a report the
      endpoint never saw, with exactly 47 later reports pushed: LossBound cannot be improved. */
  lemma DisplacedPopIsReal(x: Item)
    ensures var s := Exec(Init(2), Flood(x, DEPTH) + [Go(0, 0), Go(0, 0)]);
            && s.removed == 2 && |s.pushed| - 1 - 1 == 47
            && s.accepted == [0] && s.failed == [] && s.drops == 1
  {
    FloodReaches(x, DEPTH);
    ExecAppend(Init(2), Flood(x, DEPTH), [Go(0, 0), Go(0, 0)]);
    Two(Flooded(x, DEPTH), Go(0, 0), Go(0, 0));
  }
}
