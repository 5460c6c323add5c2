/**
 * What each event does to the link side of the HOG client, field by field and in terms of the
 * event and the state before it, and the cadences that follow over runs: the reset of a link
 * whose HOG does not come up, the soft resets of an idle client, the retries of bt_enable.
 */
module HogEffects {
  import opened Bytes
  import opened HogSession
  import opened HogLink
  import opened HogRuns

  // ------------------------------------------------------------------ kinds of step

  /** A tick on a live connection whose HOG is not up. */
  predicate StallTick(s: State, ev: Event, e: Env) {
    ev.Tick? && s.tick && s.stackReady && s.conn.Some? && e.live && s.ses.disc != Done
  }

  predicate StalledOut(s: State, ev: Event, e: Env) {
    StallTick(s, ev, e) && (s.lad.stall + 1) % 256 >= 4
  }

  /** An idle tick that is the third in a row, before any hard reset. */
  predicate SoftTick(s: State, ev: Event, e: Env) {
    IsIdleTick(s, ev, e) && !HardDue(s.lad) && s.lad.hardCount == 0 && (s.lad.attempts + 1) % 256 % 3 == 0
  }

  predicate DownTicks(s: State, ev: Event) {
    ev.Tick? && s.tick && !s.stackReady
  }

  /** The sixth tick in a row with the stack down. */
  predicate Retries(s: State, ev: Event) {
    DownTicks(s, ev) && (s.lad.stackDown + 1) % 256 >= 6
  }

  /** The pass that this callback ends is incomplete. */
  predicate PassFails(s: State, ev: Event, e: Env)
    requires Shape(s.ses)
  {
    match ev
    case AttrEnd => DiscoverEnd(s.ses, e.gatt).1 == Incomplete
    case ReadRef(data) => ReadDone(s.ses, data, e.gatt).1 == Incomplete
    case CccWritten(k, err) => k in s.ses.writing && CccDone(s.ses, k, err, e.gatt).1 == Incomplete
    case _ => false
  }

  predicate StaleFound(s: State, ev: Event, e: Env) {
    ev.DeviceFound? && s.conn.Some? && !e.live
  }

  /** A connectable keyboard of ours, with no live connection in the way. */
  predicate Tries(s: State, ev: Event, e: Env) {
    ev.DeviceFound? && ev.connectable && ev.keyboard && !(s.conn.Some? && e.live)
  }

  predicate HalfDead(s: State, ev: Event, e: Env) {
    Tries(s, ev, e) && (e.create == -12 || e.create == -11 || e.create == -120)
  }

  predicate Resets(s: State, ev: Event, e: Env)
    requires Shape(s.ses)
  {
    || IsHard(s, ev, e) || SoftTick(s, ev, e) || StalledOut(s, ev, e)
    || PassFails(s, ev, e) || StaleFound(s, ev, e) || HalfDead(s, ev, e)
  }

  predicate LinkLost(s: State, ev: Event) {
    ev.Disconnected? && (s.conn == None || s.conn == Some(ev.c))
  }

  predicate OwnConnectFailed(s: State, ev: Event) {
    ev.Connected? && ev.err != 0 && s.conn == Some(ev.c)
  }

  predicate Enabled(s: State, ev: Event) {
    ev.BtReady? && s.enabling > 0
  }

  // ------------------------------------------------------------------ field by field

  /** The connection pointer: set exactly by a successful create for one of our keyboards, given up
      exactly by a reset, the link's end, its own failed connect, or a tick that finds it dead. */
  lemma PointerExactly(s: State, ev: Event, e: Env)
    requires Shape(s.ses)
    ensures Step(s, ev, e).conn
         == if Tries(s, ev, e) && e.create == 0 then Some(e.conn)
            else if Resets(s, ev, e) || LinkLost(s, ev) || OwnConnectFailed(s, ev) || IsIdleTick(s, ev, e) then None
            else s.conn
  {
    hide DiscoverAttr, DiscoverEnd, ReadDone, CccDone, StartDiscovery, Cleared, Gap;
  }

  /** So nobody but an accepted advertiser is ever pointed to. */
  lemma NewPointerExactly(s: State, ev: Event, e: Env)
    requires Shape(s.ses)
    ensures var t := Step(s, ev, e);
            t.conn.Some? && t.conn != s.conn <==>
              && ev.DeviceFound? && ev.connectable && ev.keyboard && e.create == 0
              && !(s.conn.Some? && e.live) && s.conn != Some(e.conn)
  {
    hide Step, Resets;
    PointerExactly(s, ev, e);
  }

  ghost predicate Blank(s: Session) {
    && s.disc == Idle && s.inputCount == 0 && s.op == NoOp && s.writing == {} && s.confirmed == {}
    && forall i :: 0 <= i < |s.inputs| ==> !s.inputs[i].subscribed
  }

  lemma ResetBlanksOfTick(s: State, e: Env)
    requires Shape(s.ses) && Resets(s, Tick, e)
    ensures Blank(Step(s, Tick, e).ses)
  {
    hide Cleared, Gap, Blank;
    ClearedIsBlank(s.ses);
    ClearedIsBlank(Dropped(s.ses));
  }

  lemma PassFailBlanks(s: State, ev: Event, e: Env)
    requires Shape(s.ses) && PassFails(s, ev, e)
    ensures Blank(Step(s, ev, e).ses)
  {
    hide DiscoverEnd, ReadDone, CccDone, Cleared, Blank;
    match ev
    case AttrEnd => ClearedIsBlank(DiscoverEnd(s.ses, e.gatt).0);
    case ReadRef(data) => ClearedIsBlank(ReadDone(s.ses, data, e.gatt).0);
    case CccWritten(k, err) => ClearedIsBlank(CccDone(s.ses, k, err, e.gatt).0);
  }

  lemma FoundBlanks(s: State, ev: Event, e: Env)
    requires Shape(s.ses) && (StaleFound(s, ev, e) || HalfDead(s, ev, e) || LinkLost(s, ev))
    ensures Blank(Step(s, ev, e).ses)
  {
    hide Cleared, Blank;
    ClearedIsBlank(s.ses);
    ClearedIsBlank(Cleared(s.ses));
  }

  /** The session is blank after every reset and after the link's end. */
  lemma ResetBlanks(s: State, ev: Event, e: Env)
    requires Shape(s.ses) && (Resets(s, ev, e) || LinkLost(s, ev))
    ensures Blank(Step(s, ev, e).ses)
  {
    hide Step, Blank, HardDue, DiscoverEnd, ReadDone, CccDone;
    if ev.Tick? {
      ResetBlanksOfTick(s, e);
    } else if PassFails(s, ev, e) {
      PassFailBlanks(s, ev, e);
    } else {
      FoundBlanks(s, ev, e);
    }
  }

  /** Discovery begins exactly when the own link is encrypted while no session runs. */
  predicate Begins(s: State, ev: Event) {
    ev.SecurityChanged? && ev.err == 0 && ev.level >= 2 && s.conn == Some(ev.c) && s.ses.disc == Idle
  }

  lemma DiscoveryBeginsExactly(s: State, ev: Event, e: Env)
    requires Shape(s.ses)
    ensures Begins(s, ev) ==> Step(s, ev, e).ses == StartDiscovery(s.ses, e.gatt)
    ensures !(ev.AttrFound? || ev.AttrEnd? || ev.ReadRef? || ev.CccWritten?) && s.ses.disc != HidsSvc ==>
              (Step(s, ev, e).ses.disc == HidsSvc <==> Begins(s, ev))
  {
    hide DiscoverAttr, DiscoverEnd, ReadDone, CccDone, Gap;
  }

  /** Otherwise the GATT callbacks alone move it, and a tick that finds the link dead forgets it. */
  lemma SessionOtherwise(s: State, ev: Event, e: Env)
    requires Shape(s.ses) && !Resets(s, ev, e) && !LinkLost(s, ev) && !Begins(s, ev)
    ensures var t := Step(s, ev, e).ses;
            match ev
            case AttrFound(at) => t == DiscoverAttr(s.ses, at, e.gatt)
            case AttrEnd => t == DiscoverEnd(s.ses, e.gatt).0
            case ReadRef(data) => t == ReadDone(s.ses, data, e.gatt).0
            case CccWritten(k, err) => t == if k in s.ses.writing then CccDone(s.ses, k, err, e.gatt).0 else s.ses
            case _ => t == if IsIdleTick(s, ev, e) && s.conn.Some? then Dropped(s.ses) else s.ses
  {
    hide DiscoverAttr, DiscoverEnd, ReadDone, CccDone, StartDiscovery, Cleared, Gap;
  }

  lemma ClearedIsBlank(s: Session)
    requires Shape(s)
    ensures Blank(Cleared(s))
  {
  }

  /** Where discovery begins nothing of an earlier session is left. */
  lemma DiscoveryStartsClean(s: Session, a: Answers)
    ensures var t := StartDiscovery(s, a);
            && Shape(t) && t.disc == HidsSvc && t.inputCount == 0 && t.descIndex == 0
            && t.writing == {} && t.confirmed == {} && (t.op == Discovering <==> a.discover == 0)
            && forall i :: 0 <= i < 4 ==> t.inputs[i] == Input(0, 0, 0, 0, false) && t.refs[i] == 0
  {
  }

  /** A step that starts the scan: a failed connect, an incomplete pass, a stalled link, an idle
      tick that resets softly or finds no scan running, and the stack coming up. */
  predicate StartsScan(s: State, ev: Event, e: Env)
    requires Shape(s.ses)
  {
    || (ev.Connected? && ev.err != 0) || PassFails(s, ev, e) || StalledOut(s, ev, e) || SoftTick(s, ev, e)
    || (IsIdleTick(s, ev, e) && !HardDue(s.lad) && !s.scanning)
    || (Enabled(s, ev) && ev.berr == 0) || (Retries(s, ev) && e.enable == -120)
  }

  /** A step that stops it: a connection attempt, the link's end, a reset that starts nothing. */
  predicate StopsScan(s: State, ev: Event, e: Env) {
    IsHard(s, ev, e) || LinkLost(s, ev) || StaleFound(s, ev, e) || Tries(s, ev, e)
  }

  lemma ScanningExactlyOfTick(s: State, e: Env)
    requires Shape(s.ses)
    ensures Step(s, Tick, e).scanning <==>
              if StartsScan(s, Tick, e) then !ScanFails(e) || (Tick.Connected? && s.scanning)
              else s.scanning && !StopsScan(s, Tick, e)
  {
    hide DiscoverAttr, DiscoverEnd, ReadDone, CccDone, StartDiscovery, Cleared, Gap;
  }

  lemma ScanningExactly(s: State, ev: Event, e: Env)
    requires Shape(s.ses)
    ensures Step(s, ev, e).scanning <==>
              if StartsScan(s, ev, e) then !ScanFails(e) || (ev.Connected? && s.scanning)
              else s.scanning && !StopsScan(s, ev, e)
  {
    hide DiscoverAttr, DiscoverEnd, ReadDone, CccDone, StartDiscovery, Cleared, Gap;
    if ev.Tick? {
      hide OnTick;
      ScanningExactlyOfTick(s, e);
    } else {
      hide OnTick, HardDue, Ref, Unref;
    }
  }

  lemma StackFlagOfTick(s: State, e: Env)
    requires Shape(s.ses)
    ensures Step(s, Tick, e).stackReady
         == if IsHard(s, Tick, e) then false else s.stackReady || (Retries(s, Tick) && e.enable == -120)
  {
    hide DiscoverAttr, DiscoverEnd, ReadDone, CccDone, StartDiscovery, Cleared, Gap;
  }

  /** The stack flag follows the callback, falls with a hard reset, and comes back when a retry finds
      the stack up. */
  lemma StackFlagExactly(s: State, ev: Event, e: Env)
    requires Shape(s.ses)
    ensures Step(s, ev, e).stackReady
         == if Enabled(s, ev) then ev.berr == 0 else if IsHard(s, ev, e) then false
            else s.stackReady || (Retries(s, ev) && e.enable == -120)
  {
    hide DiscoverAttr, DiscoverEnd, ReadDone, CccDone, StartDiscovery, Cleared, Gap;
    if ev.Tick? {
      hide OnTick;
      StackFlagOfTick(s, e);
    } else {
      hide OnTick, HardDue, Ref, Unref;
    }
  }

  lemma EnablesOfTick(s: State, e: Env)
    requires Shape(s.ses)
    ensures Step(s, Tick, e).enabling
         == s.enabling + if (IsHard(s, Tick, e) || Retries(s, Tick)) && e.enable == 0 then 1 else 0
  {
    hide DiscoverAttr, DiscoverEnd, ReadDone, CccDone, StartDiscovery, Cleared, Gap;
  }

  /** bt_enable is called by a hard reset and by every sixth tick with the stack down, and by nothing
      else; each call accepted is answered once. */
  lemma EnablesExactly(s: State, ev: Event, e: Env)
    requires Shape(s.ses)
    ensures Step(s, ev, e).enabling
         == s.enabling + (if (IsHard(s, ev, e) || Retries(s, ev)) && e.enable == 0 then 1 else 0)
              - (if Enabled(s, ev) then 1 else 0)
  {
    hide DiscoverAttr, DiscoverEnd, ReadDone, CccDone, StartDiscovery, Cleared, Gap;
    if ev.Tick? {
      hide OnTick;
      EnablesOfTick(s, e);
    } else {
      hide OnTick, HardDue, Ref, Unref;
    }
  }

  predicate StallCleared(s: State, ev: Event, e: Env)
    requires Shape(s.ses)
  {
    || Resets(s, ev, e) || LinkLost(s, ev) || IsIdleTick(s, ev, e) || IsHealthy(s, ev, e)
    || (Tries(s, ev, e) && e.create == 0) || (Enabled(s, ev) && ev.berr == 0)
  }

  predicate AttemptsCleared(s: State, ev: Event, e: Env) {
    IsHealthy(s, ev, e) || (Tries(s, ev, e) && e.create == 0) || (Enabled(s, ev) && ev.berr == 0)
  }

  predicate StackDownCleared(s: State, ev: Event) {
    (ev.Tick? && s.tick && s.stackReady) || Retries(s, ev) || (Enabled(s, ev) && ev.berr == 0)
  }

  lemma StallExactlyOfTick(s: State, e: Env)
    requires Shape(s.ses)
    ensures Step(s, Tick, e).lad.stall
         == if StallCleared(s, Tick, e) then 0
            else if StallTick(s, Tick, e) then (s.lad.stall + 1) % 256 else s.lad.stall
  {
    hide DiscoverAttr, DiscoverEnd, ReadDone, CccDone, StartDiscovery, Cleared, Gap;
  }

  /** The three 8-bit counters beside the ladder's: stalled ticks, */
  lemma StallExactly(s: State, ev: Event, e: Env)
    requires Shape(s.ses)
    ensures Step(s, ev, e).lad.stall
         == if StallCleared(s, ev, e) then 0
            else if StallTick(s, ev, e) then (s.lad.stall + 1) % 256 else s.lad.stall
  {
    hide DiscoverAttr, DiscoverEnd, ReadDone, CccDone, StartDiscovery, Cleared, Gap;
    if ev.Tick? {
      hide OnTick;
      StallExactlyOfTick(s, e);
    } else {
      hide OnTick, HardDue, Ref, Unref;
    }
  }

  lemma AttemptsExactlyOfTick(s: State, e: Env)
    requires Shape(s.ses)
    ensures Step(s, Tick, e).lad.attempts
         == if AttemptsCleared(s, Tick, e) then 0
            else if IsIdleTick(s, Tick, e) then (s.lad.attempts + 1) % 256 else s.lad.attempts
  {
    hide DiscoverAttr, DiscoverEnd, ReadDone, CccDone, StartDiscovery, Cleared, Gap;
  }

  /** idle ticks, */
  lemma AttemptsExactly(s: State, ev: Event, e: Env)
    requires Shape(s.ses)
    ensures Step(s, ev, e).lad.attempts
         == if AttemptsCleared(s, ev, e) then 0
            else if IsIdleTick(s, ev, e) then (s.lad.attempts + 1) % 256 else s.lad.attempts
  {
    hide DiscoverAttr, DiscoverEnd, ReadDone, CccDone, StartDiscovery, Cleared, Gap;
    if ev.Tick? {
      hide OnTick;
      AttemptsExactlyOfTick(s, e);
    } else {
      hide OnTick, HardDue, Ref, Unref;
    }
  }

  lemma StackDownExactlyOfTick(s: State, e: Env)
    requires Shape(s.ses)
    ensures Step(s, Tick, e).lad.stackDown
         == if StackDownCleared(s, Tick) then 0
            else if DownTicks(s, Tick) then (s.lad.stackDown + 1) % 256 else s.lad.stackDown
  {
    hide DiscoverAttr, DiscoverEnd, ReadDone, CccDone, StartDiscovery, Cleared, Gap;
  }

  /** and ticks with the stack down. */
  lemma StackDownExactly(s: State, ev: Event, e: Env)
    requires Shape(s.ses)
    ensures Step(s, ev, e).lad.stackDown
         == if StackDownCleared(s, ev) then 0
            else if DownTicks(s, ev) then (s.lad.stackDown + 1) % 256 else s.lad.stackDown
  {
    hide DiscoverAttr, DiscoverEnd, ReadDone, CccDone, StartDiscovery, Cleared, Gap;
    if ev.Tick? {
      hide OnTick;
      StackDownExactlyOfTick(s, e);
    } else {
      hide OnTick, HardDue, Ref, Unref;
    }
  }

  // ------------------------------------------------------------------ a link whose HOG stays down

  /** Stalled ticks since the link was last reset, lost, replaced or healthy. */
  function Stalls(s: State, es: seq<Happening>): nat
    requires Shape(s.ses)
  {
    if es == [] then 0
    else
      var init, h := es[..|es| - 1], es[|es| - 1];
      var m := Run(s, init);
      if StallTick(m, h.ev, h.env) then (if Stalls(s, init) + 1 == 4 then 0 else Stalls(s, init) + 1)
      else if StallCleared(m, h.ev, h.env) then 0 else Stalls(s, init)
  }

  lemma {:induction false} StallsCounted(s: State, es: seq<Happening>)
    requires Shape(s.ses) && s.lad.stall == 0
    ensures Run(s, es).lad.stall == Stalls(s, es) < 4
  {
    if es == [] {
    } else {
      hide Step, StallTick, StallCleared;
      var init, h := es[..|es| - 1], es[|es| - 1];
      StallsCounted(s, init);
      StallMoves(Run(s, init), h.ev, h.env);
    }
  }

  lemma StallMoves(s: State, ev: Event, e: Env)
    requires Shape(s.ses) && s.lad.stall < 4
    ensures Step(s, ev, e).lad.stall
         == if StallTick(s, ev, e) then (if s.lad.stall + 1 == 4 then 0 else s.lad.stall + 1)
            else if StallCleared(s, ev, e) then 0 else s.lad.stall
  {
    StallExactly(s, ev, e);
    StallCases(s, ev, e);
    hide Step, StallTick, StallCleared;
  }

  lemma StallCases(s: State, ev: Event, e: Env)
    requires Shape(s.ses) && s.lad.stall < 4
    ensures StallTick(s, ev, e) ==> (StallCleared(s, ev, e) <==> s.lad.stall + 1 == 4)
  {
    hide DiscoverEnd, ReadDone, CccDone, Gap;
  }

  /** Over every run, whatever happens between: a tick that finds the link live and the HOG not up
      resets the link exactly when it is the fourth such tick since the last reset, loss or
      healthy tick.  Then the pointer is given up, the session blank, and the scan running unless
      it cannot be started; before that the link and its session are left alone. */
  lemma FourthStallResets(s: State, es: seq<Happening>, e: Env)
    requires Shape(s.ses) && s.lad.stall == 0 && StallTick(Run(s, es), Tick, e)
    ensures var m, t := Run(s, es), Step(Run(s, es), Tick, e);
            && t.tick
            && if Stalls(s, es) + 1 == 4
               then t.conn == None && Blank(t.ses) && t.lad.stall == 0 && (t.scanning <==> !ScanFails(e))
               else t.conn == m.conn && t.ses == m.ses && t.held == m.held && t.scanning == m.scanning
  {
    hide Run;
    StallsCounted(s, es);
    StallTickEffect(Run(s, es), e);
  }

  lemma StallTickEffect(s: State, e: Env)
    requires Shape(s.ses) && StallTick(s, Tick, e) && s.lad.stall < 4
    ensures var t := Step(s, Tick, e);
            && t.tick
            && if s.lad.stall + 1 == 4
               then t.conn == None && Blank(t.ses) && t.lad.stall == 0 && (t.scanning <==> !ScanFails(e))
               else t.conn == s.conn && t.ses == s.ses && t.held == s.held && t.scanning == s.scanning
  {
    hide Cleared, Blank;
    ClearedIsBlank(s.ses);
  }

  // ------------------------------------------------------------------ an idle client

  /** Idle ticks since the client last connected, was healthy or came up. */
  function Idles(s: State, es: seq<Happening>): nat
    requires Shape(s.ses)
  {
    if es == [] then 0
    else
      var init, h := es[..|es| - 1], es[|es| - 1];
      var m := Run(s, init);
      if AttemptsCleared(m, h.ev, h.env) then 0
      else if IsIdleTick(m, h.ev, h.env) then Idles(s, init) + 1 else Idles(s, init)
  }

  lemma {:induction false} IdlesCounted(s: State, es: seq<Happening>)
    requires Shape(s.ses) && s.lad.attempts == 0
    ensures Run(s, es).lad.attempts == AsByte(Idles(s, es))
  {
    if es == [] {
    } else {
      hide Step, AttemptsCleared, IsIdleTick, AsByte;
      var init, h := es[..|es| - 1], es[|es| - 1];
      IdlesCounted(s, init);
      AttemptsMove(Run(s, init), h.ev, h.env, Idles(s, init));
    }
  }

  lemma AttemptsMove(s: State, ev: Event, e: Env, n: nat)
    requires Shape(s.ses) && s.lad.attempts == AsByte(n)
    ensures Step(s, ev, e).lad.attempts
         == AsByte(if AttemptsCleared(s, ev, e) then 0 else if IsIdleTick(s, ev, e) then n + 1 else n)
  {
    AttemptsExactly(s, ev, e);
    hide Step, AttemptsCleared, IsIdleTick;
    AsByteNext(n);
  }

  /** A count in a uint8_t. */
  function AsByte(n: nat): nat {
    n % 256
  }

  lemma AsByteNext(n: nat)
    ensures (AsByte(n) + 1) % 256 == AsByte(n + 1) && AsByte(0) == 0
  {
  }

  /** The counter a soft reset looks at is the idle ticks since then, until it wraps; so over every
      run, before the first hard reset, an idle tick that makes none resets softly exactly at
      every third idle tick, and every idle tick but a hard one leaves the scan running unless it
      cannot be started. */
  lemma EveryThirdIdleTickResets(s: State, es: seq<Happening>, e: Env)
    requires Shape(s.ses) && s.lad.attempts == 0
    requires var m := Run(s, es); IsIdleTick(m, Tick, e) && !HardDue(m.lad)
    ensures var m, t := Run(s, es), Step(Run(s, es), Tick, e);
            && t.tick && t.conn == None && (t.scanning || ScanFails(e))
            && (m.lad.hardCount == 0 && (Idles(s, es) + 1) % 256 % 3 == 0 ==> Blank(t.ses))
            && (!(m.lad.hardCount == 0 && (Idles(s, es) + 1) % 256 % 3 == 0) ==>
                  t.ses == (if m.conn.Some? then Dropped(m.ses) else m.ses) && (m.scanning ==> t.scanning))
  {
    hide Run, Step, Idles;
    IdlesCounted(s, es);
    AsByteNext(Idles(s, es));
    IdleTickEffect(Run(s, es), e);
  }

  lemma IdleTickEffect(s: State, e: Env)
    requires Shape(s.ses) && IsIdleTick(s, Tick, e) && !HardDue(s.lad)
    ensures var t := Step(s, Tick, e);
            && t.tick && t.conn == None && (t.scanning || ScanFails(e))
            && (SoftTick(s, Tick, e) ==> Blank(t.ses))
            && (!SoftTick(s, Tick, e) ==>
                  t.ses == (if s.conn.Some? then Dropped(s.ses) else s.ses) && (s.scanning ==> t.scanning))
  {
    hide Cleared, Blank, Gap;
    ClearedIsBlank(s.ses);
    ClearedIsBlank(Dropped(s.ses));
  }

  // ------------------------------------------------------------------ a stack that is down

  /** Ticks with the stack down since bt_enable was last tried, or the stack was up. */
  function Downs(s: State, es: seq<Happening>): nat
    requires Shape(s.ses)
  {
    if es == [] then 0
    else
      var init, h := es[..|es| - 1], es[|es| - 1];
      var m := Run(s, init);
      if DownTicks(m, h.ev) then (if Downs(s, init) + 1 == 6 then 0 else Downs(s, init) + 1)
      else if StackDownCleared(m, h.ev) then 0 else Downs(s, init)
  }

  lemma {:induction false} DownsCounted(s: State, es: seq<Happening>)
    requires Shape(s.ses) && s.lad.stackDown == 0
    ensures Run(s, es).lad.stackDown == Downs(s, es) < 6
  {
    if es == [] {
    } else {
      hide Step, DownTicks, StackDownCleared;
      var init, h := es[..|es| - 1], es[|es| - 1];
      DownsCounted(s, init);
      DownMoves(Run(s, init), h.ev, h.env);
    }
  }

  lemma DownMoves(s: State, ev: Event, e: Env)
    requires Shape(s.ses) && s.lad.stackDown < 6
    ensures Step(s, ev, e).lad.stackDown
         == if DownTicks(s, ev) then (if s.lad.stackDown + 1 == 6 then 0 else s.lad.stackDown + 1)
            else if StackDownCleared(s, ev) then 0 else s.lad.stackDown
  {
    StackDownExactly(s, ev, e);
    hide Step;
  }

  /** Over every run: a tick with the stack down calls bt_enable exactly when it is the sixth since
      the last call.  Accepted, the callback is outstanding; already enabled, the client resumes
      and scans; and either way it ticks on. */
  lemma SixthDownTickRetries(s: State, es: seq<Happening>, e: Env)
    requires Shape(s.ses) && s.lad.stackDown == 0 && DownTicks(Run(s, es), Tick)
    ensures var m, t := Run(s, es), Step(Run(s, es), Tick, e);
            && t.tick && t.conn == m.conn && t.ses == m.ses
            && if Downs(s, es) + 1 != 6 then !t.stackReady && t.enabling == m.enabling && t.scanning == m.scanning
               else if e.enable == -120 then t.stackReady && t.enabling == m.enabling && (t.scanning <==> !ScanFails(e))
               else !t.stackReady && t.enabling == m.enabling + if e.enable == 0 then 1 else 0
  {
    hide Run;
    DownsCounted(s, es);
  }
}
