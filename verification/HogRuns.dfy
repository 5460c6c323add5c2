/**
 * What holds over every run of the HOG client: the reconnect loop, the connection
 * reference and the back-off ladder.
 */
module HogRuns {
  import opened Bytes
  import opened HogSession
  import opened HogLink

  // ------------------------------------------------------------------ the reconnect loop

  predicate Alive(s: State) {
    s.tick || s.enabling > 0
  }

  lemma StepAlive(s: State, ev: Event, e: Env)
    requires Shape(s.ses) && Alive(s)
    ensures Alive(Step(s, ev, e))
  {
    hide DiscoverAttr, DiscoverEnd, ReadDone, CccDone, StartDiscovery, Cleared;
  }

  /** After a successful bt_enable at boot, some tick is scheduled or some bt_enable callback
      is outstanding in every state any run reaches. */
  lemma {:induction false} LoopNeverDies(es: seq<Happening>)
    ensures Alive(Run(BOOTED, es))
  {
    if es == [] {
    } else {
      LoopNeverDies(es[..|es| - 1]);
      StepAlive(Run(BOOTED, es[..|es| - 1]), es[|es| - 1].ev, es[|es| - 1].env);
    }
  }

  /** A tick reschedules itself unless it made a hard reset whose bt_enable was accepted. */
  lemma TickReschedules(s: State, e: Env)
    requires Shape(s.ses) && s.tick
    ensures Step(s, Tick, e).tick <==> !(IsHard(s, Tick, e) && e.enable == 0)
    ensures !Step(s, Tick, e).tick ==> Step(s, Tick, e).enabling > s.enabling
  {
  }

  predicate ScanFails(e: Env) {
    e.scan != 0 && e.scan != -EALREADY
  }

  /** Without a tick scheduled, these events schedule one: the bt_enable callback; a disconnect
      that is the own connection's or finds none; a failed create; and a failed connect or an
      incomplete pass when the scan cannot be started either. */
  predicate Wakes(s: State, ev: Event, e: Env)
    requires Shape(s.ses)
  {
    match ev
    case BtReady(_) => s.enabling > 0
    case Disconnected(c) => s.conn == None || s.conn == Some(c)
    case DeviceFound(connectable, keyboard) => !(s.conn.Some? && e.live) && connectable && keyboard && e.create != 0
    case Connected(_, err) => err != 0 && ScanFails(e)
    case AttrEnd => DiscoverEnd(s.ses, e.gatt).1 == Incomplete && ScanFails(e)
    case ReadRef(data) => ReadDone(s.ses, data, e.gatt).1 == Incomplete && ScanFails(e)
    case CccWritten(k, err) =>
      k in s.ses.writing && CccDone(s.ses, k, err, e.gatt).1 == Incomplete && ScanFails(e)
    case _ => false
  }

  /** The exact list of what brings a stopped loop back; nothing else changes the stack either. */
  lemma WakesExactly(s: State, ev: Event, e: Env)
    requires Shape(s.ses) && !s.tick
    ensures Step(s, ev, e).tick <==> Wakes(s, ev, e)
    ensures !Wakes(s, ev, e) ==> Step(s, ev, e).stackReady == s.stackReady && Step(s, ev, e).enabling == s.enabling
  {
    hide DiscoverAttr, DiscoverEnd, ReadDone, CccDone, StartDiscovery, Cleared;
  }

  predicate NeverWoken(s: State, es: seq<Happening>)
    requires Shape(s.ses)
  {
    es == [] || (NeverWoken(s, es[..|es| - 1]) &&
                 !Wakes(Run(s, es[..|es| - 1]), es[|es| - 1].ev, es[|es| - 1].env))
  }

  /** After a hard reset whose bt_enable was accepted, a run in which that callback never comes
      and no other waking event happens leaves the client as it is for good: no tick, the stack
      down, and no second bt_enable. */
  lemma {:induction false} StaysDown(s: State, e: Env, es: seq<Happening>)
    requires Shape(s.ses) && IsHard(s, Tick, e) && e.enable == 0 && NeverWoken(Step(s, Tick, e), es)
    ensures var t := Run(Step(s, Tick, e), es);
            !t.tick && !t.stackReady && t.enabling == s.enabling + 1
  {
    if es == [] {
      HardStops(s, e);
    } else {
      hide Step, Wakes, IsHard;
      var init, h := es[..|es| - 1], es[|es| - 1];
      StaysDown(s, e, init);
      WakesExactly(Run(Step(s, Tick, e), init), h.ev, h.env);
    }
  }

  lemma HardStops(s: State, e: Env)
    requires Shape(s.ses) && IsHard(s, Tick, e) && e.enable == 0
    ensures var t := Step(s, Tick, e); !t.tick && !t.stackReady && t.enabling == s.enabling + 1
  {
  }

  // ------------------------------------------------------------------ the connection reference

  /** One reference is held for the connection pointed to, and none for any other. */
  ghost predicate RefInv(s: State) {
    forall c: nat :: Held(s, c) == if s.conn == Some(c) then 1 else 0
  }

  lemma UnrefKeeps(s: State)
    requires RefInv(s)
    ensures RefInv(Unref(s)) && Unref(s).conn == None
  {
  }

  lemma {:induction false} ReferencesConserved(es: seq<Happening>)
    ensures RefInv(Run(BOOTED, es))
  {
    if es == [] {
    } else {
      ReferencesConserved(es[..|es| - 1]);
      StepKeepsRef(Run(BOOTED, es[..|es| - 1]), es[|es| - 1].ev, es[|es| - 1].env);
    }
  }

  /** Every step leaves the references alone, gives back the one held, or does so and takes a
      new one for the new pointer. */
  ghost predicate RefStep(s: State, t: State) {
    || (t.conn == s.conn && t.held == s.held)
    || (t.conn == None && t.held == Unref(s).held)
    || (t.conn.Some? && t.held == Ref(Unref(s), t.conn.value).held)
  }

  lemma StepKeepsRef(s: State, ev: Event, e: Env)
    requires Shape(s.ses) && RefInv(s)
    ensures RefInv(Step(s, ev, e))
  {
    StepRefs(s, ev, e);
    UnrefKeeps(s);
  }

  lemma StepRefs(s: State, ev: Event, e: Env)
    requires Shape(s.ses)
    ensures RefStep(s, Step(s, ev, e))
  {
    hide DiscoverAttr, DiscoverEnd, ReadDone, CccDone, StartDiscovery, Cleared;
    hide OnConnected, OnDisconnected, OnSecurity, OnDevice, OnTick, OnReady, After;
    if ev.DeviceFound? {
      DeviceRefs(s, ev.connectable, ev.keyboard, e);
    }
  }

  lemma DeviceRefs(s: State, connectable: bool, keyboard: bool, e: Env)
    requires Shape(s.ses)
    ensures RefStep(s, OnDevice(s, connectable, keyboard, e))
  {
    hide Cleared;
  }

  /** Connection events for a connection other than the live session's leave the pointer, the
      inputs and the discovery state alone. */
  lemma StaleEventsIsolated(s: State, ev: Event, e: Env, c: nat)
    requires Shape(s.ses) && s.conn.Some? && s.conn != Some(c)
    requires match ev
             case Connected(d, _) => d == c
             case Disconnected(d) => d == c
             case SecurityChanged(d, _, _) => d == c
             case _ => false
    ensures var t := Step(s, ev, e); t.conn == s.conn && t.ses == s.ses && t.held == s.held
    ensures !ev.Connected? ==> Step(s, ev, e) == s
  {
  }

  // ------------------------------------------------------------------ the back-off ladder

  predicate IsIdleTick(s: State, ev: Event, e: Env) {
    ev.Tick? && s.tick && s.stackReady && !(s.conn.Some? && e.live)
  }

  predicate IsHealthy(s: State, ev: Event, e: Env) {
    ev.Tick? && s.tick && s.stackReady && s.conn.Some? && e.live && s.ses.disc == Done
  }

  predicate IsHard(s: State, ev: Event, e: Env) {
    IsIdleTick(s, ev, e) && HardDue(s.lad)
  }

  function IdleTicks(s: State, es: seq<Happening>): nat
    requires Shape(s.ses)
  {
    if es == [] then 0
    else
      var init, h := es[..|es| - 1], es[|es| - 1];
      IdleTicks(s, init) + if IsIdleTick(Run(s, init), h.ev, h.env) then 1 else 0
  }

  function HardResets(s: State, es: seq<Happening>): nat
    requires Shape(s.ses)
  {
    if es == [] then 0
    else
      var init, h := es[..|es| - 1], es[|es| - 1];
      HardResets(s, init) + if IsHard(Run(s, init), h.ev, h.env) then 1 else 0
  }

  predicate NeverHealthy(s: State, es: seq<Happening>)
    requires Shape(s.ses)
  {
    es == [] || (NeverHealthy(s, es[..|es| - 1]) &&
                 !IsHealthy(Run(s, es[..|es| - 1]), es[|es| - 1].ev, es[|es| - 1].env))
  }

  /** The idle tick at which the k-th hard reset falls. */
  function ResetAt(k: nat): nat {
    if k == 0 then 0 else ResetAt(k - 1) + Gap(k - 1)
  }

  function Pow2(k: nat): nat {
    if k == 0 then 1 else 2 * Pow2(k - 1)
  }

  lemma {:induction false} ResetAtClosedForm(k: nat)
    ensures k <= 5 ==> ResetAt(k) == 9 * (Pow2(k) - 1)
    ensures k >= 5 ==> ResetAt(k) == 279 + 144 * (k - 5)
  {
    if k == 0 {
    } else {
      ResetAtClosedForm(k - 1);
      if k == 5 {
        assert Pow2(5) == 32 by { assert Pow2(3) == 8; }
      } else if k < 5 {
        assert Pow2(k - 1) == Gap(k - 1) / 9 by { assert Pow2(0) == 1 && Pow2(1) == 2 && Pow2(2) == 4 && Pow2(3) == 8; }
      }
    }
  }

  ghost predicate LadderInv(l: Ladder, idle: nat, hard: nat) {
    && l.hardCount == (if hard < U8_MAX then hard else U8_MAX)
    && ResetAt(hard) <= idle < ResetAt(hard + 1)
    && l.sinceHard == idle - ResetAt(hard)
  }

  /** Only idle ticks and healthy ticks move the two counters of the ladder. */
  lemma LadderMoves(s: State, ev: Event, e: Env)
    requires Shape(s.ses) && !IsHealthy(s, ev, e)
    ensures var l := Step(s, ev, e).lad;
            if IsHard(s, ev, e) then
              l.sinceHard == 0 &&
              l.hardCount == (if s.lad.hardCount < U8_MAX then s.lad.hardCount + 1 else s.lad.hardCount)
            else
              l.hardCount == s.lad.hardCount &&
              l.sinceHard == if IsIdleTick(s, ev, e) then (s.lad.sinceHard + 1) % U16 else s.lad.sinceHard
  {
    hide DiscoverAttr, DiscoverEnd, ReadDone, CccDone, StartDiscovery, Cleared;
    if ev.Tick? && s.tick {
      LadderTick(s, e);
    } else {
      hide OnTick;
    }
  }

  lemma LadderTick(s: State, e: Env)
    requires Shape(s.ses) && s.tick && !IsHealthy(s, Tick, e)
    ensures var l := OnTick(s, e).lad;
            if IsHard(s, Tick, e) then
              l.sinceHard == 0 &&
              l.hardCount == (if s.lad.hardCount < U8_MAX then s.lad.hardCount + 1 else s.lad.hardCount)
            else
              l.hardCount == s.lad.hardCount &&
              l.sinceHard == if IsIdleTick(s, Tick, e) then (s.lad.sinceHard + 1) % U16 else s.lad.sinceHard
  {
    hide Cleared;
  }

  lemma {:induction false} LadderHolds(s: State, es: seq<Happening>)
    requires Shape(s.ses) && s.lad.hardCount == 0 && s.lad.sinceHard == 0 && NeverHealthy(s, es)
    ensures LadderInv(Run(s, es).lad, IdleTicks(s, es), HardResets(s, es))
  {
    hide Step;
    if es == [] {
    } else {
      var init, h := es[..|es| - 1], es[|es| - 1];
      LadderHolds(s, init);
      LadderMoves(Run(s, init), h.ev, h.env);
    }
  }

  lemma {:induction false} ResetAtGrows(j: nat, k: nat)
    requires j < k
    ensures ResetAt(j) < ResetAt(k)
  {
    if j >= k - 1 {
    } else {
      ResetAtGrows(j, k - 1);
    }
  }

  /** From a cleared ladder, as long as no tick finds the HOG up, the hard resets fall exactly
      at idle ticks 9, 27, 63, 135, 279 and every 144 after, whatever else happens between. */
  lemma BackoffLadder(s: State, es: seq<Happening>, ev: Event, e: Env)
    requires Shape(s.ses) && s.lad.hardCount == 0 && s.lad.sinceHard == 0 && NeverHealthy(s, es)
    ensures var t, i := Run(s, es), IdleTicks(s, es);
            IsIdleTick(t, ev, e) ==> (IsHard(t, ev, e) <==> exists k :: 0 < k && ResetAt(k) == i + 1)
    ensures ResetAt(HardResets(s, es)) <= IdleTicks(s, es) < ResetAt(HardResets(s, es) + 1)
  {
    hide Step, Run;
    LadderHolds(s, es);
    OneReset(HardResets(s, es), IdleTicks(s, es));
    DueAtReset(Run(s, es).lad, IdleTicks(s, es), HardResets(s, es));
  }

  lemma DueAtReset(l: Ladder, idle: nat, hard: nat)
    requires LadderInv(l, idle, hard)
    ensures HardDue(l) <==> ResetAt(hard + 1) == idle + 1
  {
  }

  lemma OneReset(n: nat, i: nat)
    requires ResetAt(n) <= i < ResetAt(n + 1)
    ensures ResetAt(n + 1) == i + 1 <==> exists k :: 0 < k && ResetAt(k) == i + 1
  {
    if exists k :: 0 < k && ResetAt(k) == i + 1 {
      var k :| 0 < k && ResetAt(k) == i + 1;
      if k < n {
        ResetAtGrows(k, n);
      } else if k > n + 1 {
        ResetAtGrows(n + 1, k);
      }
    }
  }
}
