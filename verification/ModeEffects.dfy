/**
 * What each event does to the output switch, field by field, in terms of the event, the state
 * before it and literal times: which connections it closes, which profile it leaves active, which
 * bond it clears, and when each work item runs next.
 */
module ModeEffects {
  import opened Bytes
  import opened ModeSwitch

  // ------------------------------------------------------------------ kinds of step

  predicate ApplyDue(s: State, ev: Event) {
    !s.rebooted && ev.ApplyRuns? && Due(s.applyAt, s.now)
  }

  /** The boot's first apply. */
  predicate First(s: State, ev: Event) {
    ApplyDue(s, ev) && !s.appliedOnce
  }

  /** A re-assert that a USB event asked for, with the slider where it was. */
  predicate Forced(s: State, ev: Event, e: Env) {
    ApplyDue(s, ev) && s.appliedOnce && ReadMode(e.pins) == s.lastMode && s.forceReapply
  }

  predicate Flipped(s: State, ev: Event, e: Env) {
    ApplyDue(s, ev) && s.appliedOnce && ReadMode(e.pins) != s.lastMode
  }

  predicate Enters(s: State, ev: Event, e: Env, mode: Mode) {
    (First(s, ev) || Forced(s, ev, e)) && ReadMode(e.pins) == mode
  }

  predicate KickDue(s: State, ev: Event) {
    !s.rebooted && ev.KickRuns? && Due(s.radio.kickAt, s.now)
  }

  predicate WatchDue(s: State, ev: Event) {
    !s.rebooted && ev.WatchdogRuns? && Due(s.radio.watchAt, s.now)
  }

  predicate OpensSlot(s: State, ev: Event, e: Env) {
    !s.rebooted && ev.Commit? && ReadMode(e.pins) == Dongle
  }

  // ------------------------------------------------------------------ connections closed

  /** The address is stored in slot `i`. */
  predicate Stored(stored: seq<nat>, i: nat, peer: nat) {
    i < |stored| && stored[i] != 0 && stored[i] == peer
  }

  /** Stored in a slot other than the dongle's. */
  ghost predicate Elsewhere(stored: seq<nat>, peer: nat) {
    exists i: nat :: i > 0 && Stored(stored, i, peer)
  }

  /** The step closes `x`: a kick pass or an entry into 2.4 GHz mode, the known LE peripheral links
      of hosts stored elsewhere and not in the dongle's slot; the first apply of the wired mode, all
      known LE peripheral links; and in 2.4 GHz mode a host stored elsewhere as it connects. */
  ghost predicate Closes(s: State, ev: Event, e: Env, x: Drop) {
    && x.stored == e.stored && x.link.known && x.link.peripheral
    && if x.turnedAway then
         && !s.rebooted && ev == HostConnected(x.link, false) && s.currentMode == Dongle && x.mode == Dongle
         && Elsewhere(e.stored, x.link.peer)
       else
         && x.link in e.links && x.link.le
         && if x.mode == Dongle then
              && (Enters(s, ev, e, Dongle) || (KickDue(s, ev) && s.currentMode == Dongle))
              && Elsewhere(e.stored, x.link.peer) && !Stored(e.stored, 0, x.link.peer)
            else x.mode == Wired && First(s, ev) && ReadMode(e.pins) == Wired
  }

  lemma NewDrops(s: State, ev: Event, e: Env)
    ensures var kicks := KickDrops(Dongle, e.links, e.stored);
            Step(s, ev, e).radio.dropped == s.radio.dropped +
            if Enters(s, ev, e, Dongle) then (if First(s, ev) then kicks + kicks else kicks)
            else if KickDue(s, ev) && s.currentMode == Dongle then kicks
            else if First(s, ev) && ReadMode(e.pins) == Wired then HostDrops(Wired, e.links, e.stored)
            else if !s.rebooted && ev.HostConnected? && !ev.failed && s.currentMode == Dongle
                    && TurnedAway(e.stored, ev.link) then [Drop(Dongle, ev.link, e.stored, true)]
            else []
  {
    hide KickDrops, HostDrops, TurnedAway, Heals, NextTicks;
  }

  lemma {:induction false} KickDropsExactly(links: seq<Link>, stored: seq<nat>, x: Drop)
    ensures x in KickDrops(Dongle, links, stored) <==>
              && x.mode == Dongle && x.stored == stored && !x.turnedAway && x.link in links
              && x.link.known && x.link.le && x.link.peripheral
              && Elsewhere(stored, x.link.peer) && !Stored(stored, 0, x.link.peer)
    ensures x in HostDrops(Wired, links, stored) <==>
              && x.mode == Wired && x.stored == stored && !x.turnedAway && x.link in links
              && x.link.known && x.link.le && x.link.peripheral
  {
    if links == [] {
    } else {
      var l := links[|links| - 1];
      hide Elsewhere, Stored;
      KickDropsExactly(links[..|links| - 1], stored, x);
      OtherHostIsElsewhere(stored, l.peer);
      assert x.link in links <==> x.link in links[..|links| - 1] || x.link == l;
    }
  }

  lemma OtherHostIsElsewhere(stored: seq<nat>, peer: nat)
    ensures IsOtherHost(stored, peer) <==> Elsewhere(stored, peer)
    ensures AddrMatches(stored, peer, DONGLE) <==> Stored(stored, 0, peer)
  {
    if IsOtherHost(stored, peer) {
      var i :| 0 <= i < |stored| && i != DONGLE && AddrMatches(stored, peer, i);
      assert Stored(stored, i, peer);
    }
    if Elsewhere(stored, peer) {
      var i: nat :| i > 0 && Stored(stored, i, peer);
      assert AddrMatches(stored, peer, i);
    }
  }

  /** Every step: the connections it closes are exactly these, and earlier ones stay on record. */
  lemma ClosesExactly(s: State, ev: Event, e: Env, x: Drop)
    ensures var d, d' := s.radio.dropped, Step(s, ev, e).radio.dropped;
            d <= d' && (x in d'[|d|..] <==> Closes(s, ev, e, x))
  {
    hide Step, KickDrops, HostDrops, Elsewhere, Stored, ReadMode;
    NewDrops(s, ev, e);
    KickDropsExactly(e.links, e.stored, x);
    if ev.HostConnected? { OtherHostIsElsewhere(e.stored, ev.link.peer); }
  }

  // ------------------------------------------------------------------ profiles and bonds

  /** The active profile: the user's choice; the dongle's after a commit, an entry or a kick pass in
      2.4 GHz position; off the dongle's after an entry into Bluetooth; as far as ZMK accepts it. */
  lemma ProfileExactly(s: State, ev: Event, e: Env)
    ensures var was := s.radio.active;
            Step(s, ev, e).radio.active ==
            if !s.rebooted && ev.UserSelect? then ev.profile
            else if OpensSlot(s, ev, e) || Enters(s, ev, e, Dongle) || (KickDue(s, ev) && s.currentMode == Dongle) then
              if e.selects then 0 else was
            else if Enters(s, ev, e, Bluetooth) then if was == 0 && e.selects then 1 else was
            else was
  {
    hide KickDrops, HostDrops, TurnedAway, Heals, NextTicks;
  }

  /** The watchdog's count with one more unhealthy tick, in a uint8_t that saturates. */
  function Sooner(ticks: nat): nat {
    if ticks < 255 then ticks + 1 else ticks
  }

  /** It clears the bond: ten ticks with nobody on the radio, or twenty. */
  predicate HealDue(s: State, e: Env) {
    && !(e.connected && e.secured) && s.radio.active == 0
    && (if e.livePeripheral then Sooner(s.radio.ticks) >= 20 else Sooner(s.radio.ticks) >= 10)
  }

  /** Bonds: a commit in 2.4 GHz position clears the profile it leaves active, a watchdog tick due to
      heal clears the active one, and nothing else clears any. */
  lemma BondsExactly(s: State, ev: Event, e: Env)
    ensures Step(s, ev, e).radio.cleared
         == s.radio.cleared
          + if OpensSlot(s, ev, e) then [if e.selects then 0 else s.radio.active]
            else if WatchDue(s, ev) && s.currentMode == Dongle && HealDue(s, e) then [s.radio.active]
            else []
  {
    hide KickDrops, HostDrops, TurnedAway;
  }

  lemma TicksExactly(s: State, ev: Event, e: Env)
    ensures Step(s, ev, e).radio.ticks
         == if WatchDue(s, ev) && s.currentMode == Dongle then
              if (e.connected && e.secured) || HealDue(s, e) then 0 else Sooner(s.radio.ticks)
            else s.radio.ticks
  {
    hide KickDrops, HostDrops, TurnedAway;
  }

  // ------------------------------------------------------------------ when the work runs next

  /** The apply work: 30 ms after an edge, 150 after a USB event, 50 after the commit; the latest
      wins, a run uses it up, and a USB event stays noted until that run. */
  lemma ApplyScheduled(s: State, ev: Event, e: Env)
    requires !s.rebooted
    ensures var t := Step(s, ev, e);
            && t.applyAt == (if ev.Edge? then Some(s.now + 30) else if ev.Usb? then Some(s.now + 150)
                             else if ev.Commit? then Some(s.now + 50) else if ApplyDue(s, ev) then None else s.applyAt)
            && t.forceReapply == (ev.Usb? || (s.forceReapply && !ApplyDue(s, ev)))
            && t.now == (if ev.Wait? then s.now + ev.ms else s.now)
  {
    hide ApplyMode, LightReassert, RadioStep;
  }

  /** The mode: taken over by the first apply; a later run that reads another one reboots. */
  lemma ModeExactly(s: State, ev: Event, e: Env)
    requires !s.rebooted
    ensures var t := Step(s, ev, e);
            && t.appliedOnce == (s.appliedOnce || First(s, ev))
            && t.lastMode == (if First(s, ev) then ReadMode(e.pins) else s.lastMode)
            && t.currentMode == (if First(s, ev) || Forced(s, ev, e) then ReadMode(e.pins) else s.currentMode)
            && t.rebooted == Flipped(s, ev, e)
            && t.samples == s.samples + (if ApplyDue(s, ev) then [ReadMode(e.pins)] else [])
            && t.applies == s.applies + (if First(s, ev) then 1 else 0)
  {
    hide ApplyMode, LightReassert, RadioStep, ReadMode;
  }

  /** Kicks: an entry into 2.4 GHz mode starts a burst 100 ms from then with five passes to follow,
      each 300 ms after the one before; the first apply of another mode stops it. */
  lemma KicksScheduled(s: State, ev: Event, e: Env)
    ensures var r, t := s.radio, Step(s, ev, e).radio;
            (t.kickAt, t.kickLeft, t.passes) ==
            if Enters(s, ev, e, Dongle) then (Some(s.now + 100), 5, 0)
            else if First(s, ev) then (None, 0, r.passes)
            else if KickDue(s, ev) then
              if s.currentMode != Dongle then (None, 0, r.passes)
              else if r.kickLeft > 0 then (Some(s.now + 300), r.kickLeft - 1, r.passes + 1)
              else (None, 0, r.passes + 1)
            else (r.kickAt, r.kickLeft, r.passes)
  {
    hide KickDrops, HostDrops, TurnedAway, Heals, NextTicks;
  }

  /** The watchdog: every 3 s from an entry into 2.4 GHz mode on, until an entry into another. */
  lemma WatchdogScheduled(s: State, ev: Event, e: Env)
    ensures Step(s, ev, e).radio.watchAt
         == if Enters(s, ev, e, Dongle) || (WatchDue(s, ev) && s.currentMode == Dongle) then Some(s.now + 3000)
            else if First(s, ev) || Forced(s, ev, e) || WatchDue(s, ev) then None
            else s.radio.watchAt
  {
    hide KickDrops, HostDrops, TurnedAway, Heals, NextTicks;
  }

  // ------------------------------------------------------------------ debounce and USB, from the events

  /** When the latest edge of the run came. */
  function EdgeTime(s: State, es: seq<Happening>): Option<nat> {
    if es == [] then None
    else
      var init, h := es[..|es| - 1], es[|es| - 1];
      if !Run(s, init).rebooted && h.ev.Edge? then Some(Run(s, init).now) else EdgeTime(s, init)
  }

  /** When the apply work last ran. */
  function ApplyTime(s: State, es: seq<Happening>): Option<nat> {
    if es == [] then None
    else
      var init, h := es[..|es| - 1], es[|es| - 1];
      if ApplyDue(Run(s, init), h.ev) then Some(Run(s, init).now) else ApplyTime(s, init)
  }

  /** A USB event came and the apply work has not run since. */
  predicate UsbPending(s: State, es: seq<Happening>) {
    if es == [] then false
    else
      var init, h := es[..|es| - 1], es[|es| - 1];
      if !Run(s, init).rebooted && h.ev.Usb? then true
      else if ApplyDue(Run(s, init), h.ev) then false else UsbPending(s, init)
  }

  lemma HistoryStep(s: State, ev: Event, e: Env)
    ensures var t := Step(s, ev, e);
            && t.lastEdge == (if !s.rebooted && ev.Edge? then Some(s.now) else s.lastEdge)
            && t.lastRun == (if ApplyDue(s, ev) then Some(s.now) else s.lastRun)
            && t.forceReapply == (if !s.rebooted && ev.Usb? then true else s.forceReapply && !ApplyDue(s, ev))
  {
    hide ApplyMode, LightReassert, RadioStep;
  }

  lemma {:induction false} HistoryIsTheEvents(active: nat, es: seq<Happening>)
    ensures var t := Run(Boot(active), es);
            && t.lastEdge == EdgeTime(Boot(active), es) && t.lastRun == ApplyTime(Boot(active), es)
            && (t.forceReapply <==> UsbPending(Boot(active), es))
  {
    if es == [] {
    } else {
      hide Step, ApplyDue;
      var init, h := es[..|es| - 1], es[|es| - 1];
      HistoryIsTheEvents(active, init);
      HistoryStep(Run(Boot(active), init), h.ev, h.env);
    }
  }

  /** Over every run, in terms of its events: the apply work runs no sooner than 30 ms after the
      latest edge; an edge is followed by such a run or one is scheduled; and after a USB event one
      is scheduled until it has run. */
  lemma EventsAreServed(active: nat, es: seq<Happening>, ev: Event)
    ensures var s, edge := Run(Boot(active), es), EdgeTime(Boot(active), es);
            && (ApplyDue(s, ev) && edge.Some? ==> s.now >= edge.value + 30)
            && (edge.Some? ==>
                  s.applyAt.Some? ||
                  (ApplyTime(Boot(active), es).Some? && ApplyTime(Boot(active), es).value >= edge.value + 30))
            && (UsbPending(Boot(active), es) ==> s.applyAt.Some?)
  {
    hide Step;
    TimeHolds(active, es);
    HistoryIsTheEvents(active, es);
  }
}
