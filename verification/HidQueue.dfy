/**
 * The USB report queue of dongle_bridge/src/usb_hid_bridge.c: a 48-slot ring that
 * drops its oldest entry when full, and the drain loop that empties it into the
 * interrupt endpoint.  Everything here runs with no other thread inside the bridge;
 * HidDrain adds the interleavings.
 */
module HidQueue {
  import opened Bytes

  const DEPTH: nat := 48
  const KB_REPORT_SIZE: nat := 8
  const CONS_REPORT_SIZE: nat := 12
  const BODY_MAX: nat := 12
  const KIND_KB: byte := 1
  const KIND_CONS: byte := 2
  const EAGAIN: int := 11
  const ENODEV: int := 19

  datatype Slot = Slot(kind: byte, len: nat, body: seq<byte>)

  type Item = x: Slot | x.len <= BODY_MAX && |x.body| == BODY_MAX
    witness Slot(0, 0, Fill(BODY_MAX, 0))

  /** What a slot holds after `body[..len]` is queued: unused bytes are zeroed. */
  function MakeItem(kind: byte, body: seq<byte>, len: nat): (x: Item)
    requires len <= |body| && len <= BODY_MAX
    ensures Wire(x) == [kind] + body[..len]
    ensures forall i :: len <= i < BODY_MAX ==> x.body[i] == 0
  {
    Slot(kind, len, body[..len] + Fill(BODY_MAX - len, 0))
  }

  /** No key held: report 1, modifiers, reserved byte and six key slots. */
  function KeysUp(): (x: Item)
    ensures Wire(x) == [1, 0, 0, 0, 0, 0, 0, 0, 0]
  {
    MakeItem(KIND_KB, Fill(KB_REPORT_SIZE, 0), KB_REPORT_SIZE)
  }

  /** No consumer control held: report 2 and six 16-bit usages. */
  function ConsumerUp(): (x: Item)
    ensures Wire(x) == [2, 0, 0, 0, 0, 0, 0, 0, 0, 0, 0, 0, 0]
  {
    MakeItem(KIND_CONS, Fill(CONS_REPORT_SIZE, 0), CONS_REPORT_SIZE)
  }

  /** The bytes handed to the endpoint: report ID, then the body proper. */
  function Wire(x: Item): seq<byte> {
    [x.kind] + x.body[..x.len]
  }

  /** Drop-oldest enqueue, the abstract meaning of a push. */
  function Enqueue(q: seq<Item>, x: Item): (r: seq<Item>)
    ensures |q| <= DEPTH ==> 0 < |r| <= DEPTH
  {
    (if |q| >= DEPTH then q[1..] else q) + [x]
  }

  /** What one uninterrupted drain does to a queue, given the endpoint's n-th answer. */
  datatype Drained = Drained(rest: seq<Item>, sent: seq<seq<byte>>, writes: nat)

  function DrainAlone(q: seq<Item>, answer: nat -> int, n: nat): (d: Drained)
  {
    if q == [] then
      Drained([], [], n)
    else if answer(n) == -EAGAIN then
      Drained(q, [], n + 1)
    else
      var d := DrainAlone(q[1..], answer, n + 1);
      if answer(n) == 0 then d.(sent := [Wire(q[0])] + d.sent) else d
  }

  /** What a send leaves behind, when another thread holds the drain lock and when not. */
  function AfterSend(draining: bool, q: seq<Item>, x: Item, answer: nat -> int, n: nat): Drained {
    if draining then Drained(Enqueue(q, x), [], n) else DrainAlone(Enqueue(q, x), answer, n)
  }

  /** How many entries an uninterrupted drain removes: all, or up to the first busy answer. */
  function Removable(k: nat, answer: nat -> int, n: nat): (r: nat)
    ensures r <= k
    ensures forall j :: n <= j < n + r ==> answer(j) != -11
    ensures r < k ==> answer(n + r) == -11
  {
    if k == 0 || answer(n) == -11 then 0 else 1 + Removable(k - 1, answer, n + 1)
  }

  /** An uninterrupted drain removes a prefix and stops only on an empty queue or a busy
      endpoint; it sends exactly the entries answered with 0. */
  lemma {:induction false} DrainAloneIsPrefix(q: seq<Item>, answer: nat -> int, n: nat)
    ensures var d := DrainAlone(q, answer, n);
            var r := Removable(|q|, answer, n);
            && d.rest == q[r..]
            && d.writes == n + r + (if r < |q| then 1 else 0)
            && d.sent == Accepted(q[..r], answer, n)
  {
    if q != [] && answer(n) != -EAGAIN {
      DrainAloneIsPrefix(q[1..], answer, n + 1);
      var r := Removable(|q|, answer, n);
      assert q[..r][1..] == q[1..][..r - 1];
      assert q[r..] == q[1..][r - 1..];
    } else {
      assert q[..0] == [];
    }
  }

  function Accepted(q: seq<Item>, answer: nat -> int, n: nat): seq<seq<byte>>
  {
    if q == [] then [] else
      (if answer(n) == 0 then [Wire(q[0])] else []) + Accepted(q[1..], answer, n + 1)
  }

  /** The interrupt IN endpoint: answers its n-th write with `answer(n)`, keeps what it took. */
  class Endpoint {
    const answer: nat -> int
    var writes: nat
    var log: seq<seq<byte>>

    constructor (answer: nat -> int)
      ensures this.answer == answer && writes == 0 && log == []
    {
      this.answer := answer;
      writes, log := 0, [];
    }

    method Write(buf: seq<byte>) returns (err: int)
      modifies this
      ensures err == answer(old(writes)) && writes == old(writes) + 1
      ensures log == if err == 0 then old(log) + [buf] else old(log)
    {
      err := answer(writes);
      writes := writes + 1;
      if err == 0 {
        log := log + [buf];
      }
    }
  }

  function Pos(start: nat, i: nat): nat {
    (start + i) % DEPTH
  }

  /** `count` entries of a ring, read from `start`. */
  function Unroll(ring: seq<Item>, start: nat, count: nat): (q: seq<Item>)
    requires |ring| == DEPTH
    ensures |q| == count && forall i :: 0 <= i < count ==> q[i] == ring[Pos(start, i)]
  {
    seq(count, i requires 0 <= i => ring[Pos(start, i)])
  }

  lemma DropFront(ring: seq<Item>, start: nat, count: nat)
    requires |ring| == DEPTH && start < DEPTH && 0 < count <= DEPTH
    ensures Unroll(ring, Pos(start, 1), count - 1) == Unroll(ring, start, count)[1..]
  {
  }

  lemma WriteBack(ring: seq<Item>, start: nat, count: nat, x: Item)
    requires |ring| == DEPTH && start < DEPTH && count < DEPTH
    ensures Unroll(ring[Pos(start, count) := x], start, count + 1) == Unroll(ring, start, count) + [x]
  {
  }

  class Queue {
    const slots: array<Item>
    var head: nat
    var tail: nat
    var count: nat
    var drops: nat
    var txOk: nat
    var draining: bool       // hid_drain_lock, as another thread would find it
    var ep: Endpoint?        // hid_dev

    ghost predicate Valid()
      reads this`head, this`tail, this`count, slots
    {
      && slots.Length == DEPTH
      && head < DEPTH && tail < DEPTH && count <= DEPTH
      && head == Pos(tail, count)
    }

    /** The queued reports, oldest first. */
    ghost function Contents(): (q: seq<Item>)
      requires Valid()
      reads this`head, this`tail, this`count, slots
      ensures |q| == count
    {
      Unroll(slots[..], tail, count)
    }

    constructor ()
      ensures Valid() && Contents() == [] && fresh(slots)
      ensures drops == 0 && txOk == 0 && !draining && ep == null
    {
      slots := new Item[DEPTH](_ => Slot(0, 0, Fill(BODY_MAX, 0)));
      head, tail, count, drops, txOk, draining, ep := 0, 0, 0, 0, 0, false, null;
    }

    method Push(kind: byte, body: seq<byte>, len: nat)
      requires Valid() && len <= |body| && len <= BODY_MAX
      modifies this`head, this`tail, this`count, this`drops, slots
      ensures Valid()
      ensures Contents() == Enqueue(old(Contents()), MakeItem(kind, body, len))
      ensures drops == old(drops) + (if old(count) == DEPTH then 1 else 0)
    {
      if count >= DEPTH {
        DropFront(slots[..], tail, count);
        tail := (tail + 1) % DEPTH;
        count := count - 1;
        drops := drops + 1;
      }
      assert Contents() == if old(count) == DEPTH then old(Contents())[1..] else old(Contents());
      var x := MakeItem(kind, body, len);
      WriteBack(slots[..], tail, count, x);
      ghost var ring := slots[..];
      slots[head] := x;
      assert slots[..] == ring[head := x];
      head := (head + 1) % DEPTH;
      count := count + 1;
    }

    method PeekCopy() returns (r: Option<Item>)
      requires Valid()
      ensures r == if Contents() == [] then None else Some(Contents()[0])
    {
      if count == 0 {
        return None;
      }
      r := Some(slots[tail]);
    }

    method Pop()
      requires Valid()
      modifies this`tail, this`count
      ensures Valid()
      ensures Contents() == if old(Contents()) == [] then [] else old(Contents())[1..]
    {
      if count > 0 {
        DropFront(slots[..], tail, count);
        tail := (tail + 1) % DEPTH;
        count := count - 1;
      }
    }

    /** The inner loop of hid_try_drain, lock held: peek, write, pop until the queue is
        empty or the endpoint is busy. */
    method DrainLocked(e: Endpoint) returns (busy: bool)
      requires Valid() && ep == e
      modifies this`tail, this`count, this`txOk, e
      ensures Valid()
      ensures var d := DrainAlone(old(Contents()), e.answer, old(e.writes));
              && Contents() == d.rest && e.writes == d.writes
              && e.log == old(e.log) + d.sent
              && txOk == old(txOk) + |d.sent|
              && busy == (d.rest != [])
    {
      ghost var q0, n0 := Contents(), e.writes;
      ghost var log0, ok0 := e.log, txOk;
      ghost var done := Drained(q0, [], n0);
      var item := PeekCopy();
      while item.Some?
        invariant Valid()
        invariant item == if Contents() == [] then None else Some(Contents()[0])
        invariant Contents() == done.rest && e.writes == done.writes
        invariant e.log == log0 + done.sent && txOk == ok0 + |done.sent|
        invariant Towards(q0, e.answer, n0, done)
        decreases count
      {
        Advance(q0, e.answer, n0, done);
        done := OneWrite(done, e.answer);
        var err := e.Write([item.value.kind] + item.value.body[..item.value.len]);
        if err == -EAGAIN {
          return true;
        }
        Pop();
        if err == 0 {
          txOk := txOk + 1;
        }
        item := PeekCopy();
      }
      busy := false;
    }

    /** hid_try_drain with nobody else inside: try-lock, drain, unlock, re-check. */
    method TryDrain()
      requires Valid()
      modifies this`tail, this`count, this`txOk, this`draining, ep
      ensures Valid() && draining == old(draining)
      ensures ep == null || draining ==> Contents() == old(Contents()) && txOk == old(txOk)
      ensures ep != null && draining ==> ep.log == old(ep.log) && ep.writes == old(ep.writes)
      ensures ep != null && !draining ==>
                var d := DrainAlone(old(Contents()), ep.answer, old(ep.writes));
                && Contents() == d.rest && ep.writes == d.writes
                && ep.log == old(ep.log) + d.sent
                && txOk == old(txOk) + |d.sent|
    {
      if ep == null {
        return;
      }
      if draining {
        return;
      }
      draining := true;
      var busy := DrainLocked(ep);
      draining := false;
      if busy {
        return;
      }
      var item := PeekCopy();
      assert item.None?;       // alone, the re-check finds nothing: the outer loop ends here
    }

    /** What the two sends share: queue the report, then try to drain. */
    method Send(kind: byte, report: Option<seq<byte>>, len: nat) returns (err: int)
      requires Valid() && len <= BODY_MAX
      requires report.Some? ==> len <= |report.value|
      modifies this`head, this`tail, this`count, this`drops, this`txOk, this`draining, slots, ep
      ensures Valid() && draining == old(draining)
      ensures err == if ep == null || report.None? then -ENODEV else 0
      ensures err != 0 ==> Contents() == old(Contents()) && drops == old(drops) && txOk == old(txOk)
      ensures err == 0 && draining ==>
                && Contents() == Enqueue(old(Contents()), MakeItem(kind, report.value, len))
                && ep.writes == old(ep.writes) && ep.log == old(ep.log) && txOk == old(txOk)
      ensures err == 0 && !draining ==>
                var d := DrainAlone(Enqueue(old(Contents()), MakeItem(kind, report.value, len)),
                                    ep.answer, old(ep.writes));
                && Contents() == d.rest && ep.writes == d.writes
                && ep.log == old(ep.log) + d.sent && txOk == old(txOk) + |d.sent|
      ensures err == 0 ==> drops == old(drops) + (if old(count) == 48 then 1 else 0)
    {
      if ep == null || report.None? {
        return -ENODEV;
      }
      Push(kind, report.value, len);
      TryDrain();
      err := 0;
    }

    method SendKeyboard(report8: Option<seq<byte>>) returns (err: int)
      requires Valid() && (report8.Some? ==> |report8.value| == 8)
      modifies this`head, this`tail, this`count, this`drops, this`txOk, this`draining, slots, ep
      ensures Valid() && draining == old(draining)
      ensures err == if ep == null || report8.None? then -19 else 0
      ensures err != 0 ==> Contents() == old(Contents()) && drops == old(drops) && txOk == old(txOk)
      ensures err == 0 ==>
                var d := AfterSend(draining, old(Contents()), MakeItem(1, report8.value, 8),
                                   ep.answer, old(ep.writes));
                && Contents() == d.rest && ep.writes == d.writes
                && ep.log == old(ep.log) + d.sent && txOk == old(txOk) + |d.sent|
    {
      err := Send(KIND_KB, report8, KB_REPORT_SIZE);
    }

    method SendConsumer(report12: Option<seq<byte>>) returns (err: int)
      requires Valid() && (report12.Some? ==> |report12.value| == 12)
      modifies this`head, this`tail, this`count, this`drops, this`txOk, this`draining, slots, ep
      ensures Valid() && draining == old(draining)
      ensures err == if ep == null || report12.None? then -19 else 0
      ensures err != 0 ==> Contents() == old(Contents()) && drops == old(drops) && txOk == old(txOk)
      ensures err == 0 ==>
                var d := AfterSend(draining, old(Contents()), MakeItem(2, report12.value, 12),
                                   ep.answer, old(ep.writes));
                && Contents() == d.rest && ep.writes == d.writes
                && ep.log == old(ep.log) + d.sent && txOk == old(txOk) + |d.sent|
    {
      err := Send(KIND_CONS, report12, CONS_REPORT_SIZE);
    }

    /** bridge_usb_hid_release_all: an all-zero keyboard report, then an all-zero consumer one;
        the verdict is the keyboard's. */
    method ReleaseAll() returns (err: int)
      requires Valid()
      modifies this`head, this`tail, this`count, this`drops, this`txOk, this`draining, slots, ep
      ensures Valid() && draining == old(draining)
      ensures err == if ep == null then -19 else 0
      ensures ep == null ==> Contents() == old(Contents())
      ensures ep != null ==>
                var k := AfterSend(draining, old(Contents()), KeysUp(), ep.answer, old(ep.writes));
                var c := AfterSend(draining, k.rest, ConsumerUp(), ep.answer, k.writes);
                Contents() == c.rest && ep.log == old(ep.log) + k.sent + c.sent
    {
      err := SendKeyboard(Some(Fill(KB_REPORT_SIZE, 0)));
      var _ := SendConsumer(Some(Fill(CONS_REPORT_SIZE, 0)));
    }

    method Stats() returns (ok: nat, dropped: nat, queued: nat)
      requires Valid()
      ensures ok == txOk % 0x1_0000_0000 && dropped == drops % 0x1_0000_0000 && queued == |Contents()| <= 48
    {
      ok, dropped, queued := txOk % U32, drops % U32, count;
    }
  }

  /** The drain of `q` from write `n` on continues from the point `done` has reached. */
  ghost predicate Towards(q: seq<Item>, answer: nat -> int, n: nat, done: Drained)
  {
    var d := DrainAlone(done.rest, answer, done.writes);
    DrainAlone(q, answer, n) == d.(sent := done.sent + d.sent)
  }

  ghost function OneWrite(done: Drained, answer: nat -> int): Drained
    requires done.rest != []
  {
    var a := answer(done.writes);
    Drained(if a == -EAGAIN then done.rest else done.rest[1..],
            if a == 0 then done.sent + [Wire(done.rest[0])] else done.sent,
            done.writes + 1)
  }

  lemma Advance(q: seq<Item>, answer: nat -> int, n: nat, done: Drained)
    requires Towards(q, answer, n, done) && done.rest != []
    ensures var next := OneWrite(done, answer);
            if answer(done.writes) == -EAGAIN then DrainAlone(q, answer, n) == next
            else Towards(q, answer, n, next)
  {
    var next := OneWrite(done, answer);
    if answer(done.writes) == -EAGAIN {
      assert done.sent + [] == done.sent;
    } else if answer(done.writes) == 0 {
      var d := DrainAlone(next.rest, answer, next.writes);
      assert done.sent + ([Wire(done.rest[0])] + d.sent) == next.sent + d.sent;
    }
  }
}
