/**
 * The three-position output switch of config/boards/nocfree/nocfree/src/mode_switch.c, as a
 * timed state machine built with CONFIG_NOCFREE_MODE_SWITCH_REBOOT=y.
 *
 * A delayed work item is a deadline; it can run at any moment from its deadline on.  Edges,
 * USB events, user profile changes and the passing of time come in any order.  An event that
 * cannot occur (a work item not due, anything after the reboot) changes nothing.
 */
module ModeSwitch {
  import opened Bytes

  const DEBOUNCE_MS: nat := 30
  const APPLY_DELAY_MS: nat := 50
  const USB_DELAY_MS: nat := 150
  const FIRST_KICK_MS: nat := 100
  const NEXT_KICK_MS: nat := 300
  const WATCHDOG_MS: nat := 3000
  const KICKS: nat := 5
  const DONGLE: nat := 0                // CONFIG_NOCFREE_MODE_SWITCH_DONGLE_PROFILE
  const BT_PROFILE: nat := 1            // CONFIG_NOCFREE_MODE_SWITCH_BT_PROFILE
  const ADDR_ANY: nat := 0

  datatype Mode = Wired | Bluetooth | Dongle

  /** The two contacts, as gpio_pin_get_dt returns them. */
  datatype Pins = Pins(dongle: int, bluetooth: int)

  function ReadMode(p: Pins): (m: Mode)
    ensures m == Dongle <==> p.dongle > 0
    ensures m == Bluetooth <==> p.bluetooth > 0 && !(p.dongle > 0)
  {
    if p.dongle > 0 then Dongle else if p.bluetooth > 0 then Bluetooth else Wired
  }

  /** One entry of bt_conn_foreach; `known` is false when bt_conn_get_info fails. */
  datatype Link = Link(known: bool, le: bool, peripheral: bool, peer: nat)

  /** A connection this module closed: in which mode, the profile addresses at that moment, and
      whether it was turned away as it connected. */
  datatype Drop = Drop(mode: Mode, link: Link, stored: seq<nat>, turnedAway: bool)

  /** What the rest of the keyboard answers during one step: the pins, the connections, the
      stored profile addresses, whether zmk_ble_prof_select succeeds, and the watchdog's view. */
  datatype Env = Env(pins: Pins, links: seq<Link>, stored: seq<nat>, selects: bool,
                     connected: bool, secured: bool, livePeripheral: bool)

  /** The radio side: the kick burst, the watchdog, ZMK's active profile. */
  datatype Radio = Radio(
    kickLeft: nat,
    ticks: nat,                  // uint8_t adv_unconnected_ticks
    active: nat,                 // zmk_ble_active_profile_index
    kickAt: Option<nat>,         // deadlines of the two work items
    watchAt: Option<nat>,
    passes: nat,                 // history: kick passes since kicks were last scheduled
    cleared: seq<nat>,           // history: profiles whose bond was cleared
    dropped: seq<Drop>)          // history: connections closed

  datatype State = State(
    appliedOnce: bool,
    lastMode: Mode,
    currentMode: Mode,
    forceReapply: bool,
    applyAt: Option<nat>,        // deadline of the apply work
    now: nat,
    rebooted: bool,
    radio: Radio,
    // history of this boot
    samples: seq<Mode>,          // modes read by the runs of the apply work
    applies: nat,                // calls of apply_mode
    lastEdge: Option<nat>,
    lastRun: Option<nat>)        // when the apply work last ran

  datatype Event =
    | Wait(ms: nat)
    | Edge
    | Usb
    | UserSelect(profile: nat)
    | Commit
    | ApplyRuns
    | KickRuns
    | WatchdogRuns
    | HostConnected(link: Link, failed: bool)

  function Boot(active: nat): State {
    State(false, Wired, Wired, false, None, 0, false, Radio(0, 0, active, None, None, 0, [], []), [], 0, None, None)
  }

  // ------------------------------------------------------------------ connections

  predicate AddrMatches(stored: seq<nat>, peer: nat, i: nat) {
    i < |stored| && stored[i] != ADDR_ANY && stored[i] == peer
  }

  predicate IsHostLink(l: Link) {
    l.known && l.le && l.peripheral
  }

  /** The peer is stored in some slot other than the dongle's. */
  predicate IsOtherHost(stored: seq<nat>, peer: nat) {
    exists i :: 0 <= i < |stored| && i != DONGLE && AddrMatches(stored, peer, i)
  }

  predicate Kicked(stored: seq<nat>, l: Link) {
    IsHostLink(l) && !AddrMatches(stored, l.peer, DONGLE) && IsOtherHost(stored, l.peer)
  }

  /** mode_switch_host_connected turns this link away in 2.4 GHz mode. */
  predicate TurnedAway(stored: seq<nat>, l: Link) {
    l.known && l.peripheral && IsOtherHost(stored, l.peer)
  }

  /** The connect callback and the kick pass disagree exactly on a peer stored both in the
      dongle slot and in another one (or on a link that is not LE, which kicks skip). */
  lemma TurnedAwayButNotKicked(stored: seq<nat>, l: Link)
    ensures TurnedAway(stored, l) && !Kicked(stored, l) <==>
              l.known && l.peripheral && IsOtherHost(stored, l.peer) && (AddrMatches(stored, l.peer, DONGLE) || !l.le)
    ensures Kicked(stored, l) ==> TurnedAway(stored, l)
  {
  }

  function KickDrops(mode: Mode, links: seq<Link>, stored: seq<nat>): seq<Drop> {
    if links == [] then []
    else KickDrops(mode, links[..|links| - 1], stored)
         + if Kicked(stored, links[|links| - 1]) then [Drop(mode, links[|links| - 1], stored, false)] else []
  }

  function HostDrops(mode: Mode, links: seq<Link>, stored: seq<nat>): seq<Drop> {
    if links == [] then []
    else HostDrops(mode, links[..|links| - 1], stored)
         + if IsHostLink(links[|links| - 1]) then [Drop(mode, links[|links| - 1], stored, false)] else []
  }

  // ------------------------------------------------------------------ handlers

  function Kick(r: Radio, mode: Mode, e: Env): Radio {
    r.(dropped := r.dropped + KickDrops(mode, e.links, e.stored))
  }

  function Select(r: Radio, p: nat, e: Env): Radio {
    if e.selects then r.(active := p) else r
  }

  function ClearBonds(r: Radio): Radio {
    r.(cleared := r.cleared + [r.active])
  }

  function ScheduleKicks(r: Radio, now: nat): Radio {
    r.(kickLeft := KICKS, kickAt := Some(now + FIRST_KICK_MS), passes := 0)
  }

  function StopKicks(r: Radio): Radio {
    r.(kickLeft := 0, kickAt := None)
  }

  function LeaveDongle(r: Radio, e: Env): Radio {
    if r.active == DONGLE then Select(r, BT_PROFILE, e) else r
  }

  function JoinDongle(r: Radio, e: Env): Radio {
    if r.active != DONGLE then Select(r, DONGLE, e) else r
  }

  /** apply_mode: the full path, at boot. */
  function ApplyMode(r: Radio, mode: Mode, now: nat, e: Env): Radio {
    match mode
    case Wired =>
      var r := StopKicks(r).(watchAt := None);
      r.(dropped := r.dropped + HostDrops(mode, e.links, e.stored))
    case Bluetooth => LeaveDongle(StopKicks(r).(watchAt := None), e)
    case Dongle =>
      var r := Kick(Select(Kick(r, mode, e), DONGLE, e), mode, e);
      ScheduleKicks(r, now).(watchAt := Some(now + WATCHDOG_MS))
  }

  /** light_reassert_mode, after a USB event: bonds kept, nothing torn down but known other
      hosts. */
  function LightReassert(r: Radio, mode: Mode, now: nat, e: Env): Radio {
    match mode
    case Wired => r.(watchAt := None)
    case Bluetooth => LeaveDongle(r.(watchAt := None), e)
    case Dongle =>
      ScheduleKicks(Kick(JoinDongle(r, e), mode, e), now).(watchAt := Some(now + WATCHDOG_MS))
  }

  function OnApply(s: State, e: Env): State {
    var mode := ReadMode(e.pins);
    var forced := s.forceReapply;
    var s := s.(applyAt := None, forceReapply := false, samples := s.samples + [mode], lastRun := Some(s.now));
    if s.appliedOnce && mode == s.lastMode then
      if forced then s.(currentMode := mode, radio := LightReassert(s.radio, mode, s.now, e)) else s
    else if s.appliedOnce then s.(rebooted := true)
    else
      s.(lastMode := mode, appliedOnce := true, currentMode := mode, applies := s.applies + 1,
         radio := ApplyMode(s.radio, mode, s.now, e))
  }

  function OnEdge(s: State): State {
    s.(applyAt := Some(s.now + DEBOUNCE_MS), lastEdge := Some(s.now))
  }

  function OnUsb(s: State): State {
    s.(forceReapply := true, applyAt := Some(s.now + USB_DELAY_MS))
  }

  function OnCommit(s: State, e: Env): State {
    s.(radio := if ReadMode(e.pins) == Dongle then ClearBonds(Select(s.radio, DONGLE, e)) else s.radio,
       applyAt := Some(s.now + APPLY_DELAY_MS))
  }

  function OnKick(r: Radio, mode: Mode, now: nat, e: Env): Radio {
    if mode != Dongle then r.(kickAt := None, kickLeft := 0)
    else
      var r := JoinDongle(Kick(r.(kickAt := None, passes := r.passes + 1), mode, e), e);
      if r.kickLeft > 0 then r.(kickLeft := r.kickLeft - 1, kickAt := Some(now + NEXT_KICK_MS)) else r
  }

  function NextTicks(ticks: nat): nat {
    if ticks < U8_MAX then ticks + 1 else ticks
  }

  /** The two-stage heal: politely from ten ticks on, unconditionally from twenty. */
  predicate Heals(ticks: nat, onDongle: bool, livePeripheral: bool) {
    NextTicks(ticks) >= 10 && onDongle && (!livePeripheral || NextTicks(ticks) >= 20)
  }

  function OnWatchdog(r: Radio, mode: Mode, now: nat, e: Env): Radio {
    if mode != Dongle then r.(watchAt := None)
    else
      var r := if e.connected && e.secured then r.(ticks := 0)
               else if Heals(r.ticks, r.active == DONGLE, e.livePeripheral) then ClearBonds(r).(ticks := 0)
               else r.(ticks := NextTicks(r.ticks));
      r.(watchAt := Some(now + WATCHDOG_MS))
  }

  function OnHostConnected(r: Radio, mode: Mode, l: Link, failed: bool, e: Env): Radio {
    if !failed && mode == Dongle && TurnedAway(e.stored, l) then
      r.(dropped := r.dropped + [Drop(mode, l, e.stored, true)])
    else r
  }

  predicate Due(at: Option<nat>, now: nat) {
    at.Some? && at.value <= now
  }

  function Step(s: State, ev: Event, e: Env): State {
    if s.rebooted then s
    else match ev
    case Wait(ms) => s.(now := s.now + ms)
    case Edge => OnEdge(s)
    case Usb => OnUsb(s)
    case Commit => OnCommit(s, e)
    case ApplyRuns => if Due(s.applyAt, s.now) then OnApply(s, e) else s
    case _ => s.(radio := RadioStep(s.radio, s.currentMode, s.now, ev, e))
  }

  /** The events that concern the radio side alone. */
  function RadioStep(r: Radio, mode: Mode, now: nat, ev: Event, e: Env): Radio {
    match ev
    case UserSelect(p) => r.(active := p)
    case KickRuns => if Due(r.kickAt, now) then OnKick(r, mode, now, e) else r
    case WatchdogRuns => if Due(r.watchAt, now) then OnWatchdog(r, mode, now, e) else r
    case HostConnected(l, failed) => OnHostConnected(r, mode, l, failed, e)
    case _ => r
  }

  datatype Happening = Happening(ev: Event, env: Env)

  function Run(s: State, es: seq<Happening>): State {
    if es == [] then s else Step(Run(s, es[..|es| - 1]), es[|es| - 1].ev, es[|es| - 1].env)
  }

  // ------------------------------------------------------------------ modes and reboots

  ghost predicate ModeInv(s: State) {
    && (s.appliedOnce <==> s.samples != [])
    && s.applies == (if s.appliedOnce then 1 else 0)
    && (s.appliedOnce ==> s.lastMode == s.currentMode == s.samples[0])
    && (s.rebooted <==> exists i :: 0 <= i < |s.samples| && s.samples[i] != s.samples[0])
  }

  lemma StepKeepsModes(s: State, ev: Event, e: Env)
    requires ModeInv(s)
    ensures ModeInv(Step(s, ev, e))
  {
    hide ApplyMode, LightReassert, RadioStep;
    var t := Step(s, ev, e);
    if !s.rebooted && ev.ApplyRuns? && Due(s.applyAt, s.now) {
      assert t.samples == s.samples + [ReadMode(e.pins)];
      assert t.samples[|s.samples|] == ReadMode(e.pins);
      assert s.samples != [] ==> t.samples[0] == s.samples[0];
    } else {
      assert t.samples == s.samples;
    }
  }

  /** Whatever edges, USB events, profile changes and delays a boot sees: apply_mode runs at
      most once, the mode in force is the first one sampled from then on, and the keyboard
      reboots exactly when some run of the apply work samples a different one. */
  lemma {:induction false} OneModePerBoot(active: nat, es: seq<Happening>)
    ensures ModeInv(Run(Boot(active), es))
  {
    hide Step;
    if es == [] {
    } else {
      OneModePerBoot(active, es[..|es| - 1]);
      StepKeepsModes(Run(Boot(active), es[..|es| - 1]), es[|es| - 1].ev, es[|es| - 1].env);
    }
  }

  ghost predicate TimeInv(s: State) {
    && (s.lastEdge.Some? ==> s.lastEdge.value <= s.now)
    && (s.lastEdge.Some? && s.applyAt.Some? ==> s.applyAt.value >= s.lastEdge.value + DEBOUNCE_MS)
    && (s.lastEdge.Some? && s.applyAt.None? ==> s.lastRun.Some? && s.lastRun.value >= s.lastEdge.value + DEBOUNCE_MS)
    && (s.forceReapply ==> s.applyAt.Some?)
  }

  lemma StepKeepsTime(s: State, ev: Event, e: Env)
    requires TimeInv(s)
    ensures TimeInv(Step(s, ev, e))
  {
    hide ApplyMode, LightReassert, RadioStep;
  }

  lemma {:induction false} TimeHolds(active: nat, es: seq<Happening>)
    ensures TimeInv(Run(Boot(active), es))
  {
    hide Step;
    if es == [] {
    } else {
      TimeHolds(active, es[..|es| - 1]);
      StepKeepsTime(Run(Boot(active), es[..|es| - 1]), es[|es| - 1].ev, es[|es| - 1].env);
    }
  }

  /** The apply work never samples the pins within 30 ms of the latest edge, and every edge and
      USB event is followed by a run of the apply work, past or still scheduled. */
  lemma Debounced(active: nat, es: seq<Happening>, e: Env)
    ensures var s := Run(Boot(active), es);
            var t := Step(s, ApplyRuns, e);
            && (t.samples != s.samples && s.lastEdge.Some? ==> s.now >= s.lastEdge.value + DEBOUNCE_MS)
            && (s.lastEdge.Some? ==>
                  s.applyAt.Some? || (s.lastRun.Some? && s.lastRun.value >= s.lastEdge.value + DEBOUNCE_MS))
            && (s.forceReapply ==> s.applyAt.Some?)
  {
    TimeHolds(active, es);
  }

  /** What happens in this step depends on what the contacts read. */
  ghost predicate Samples(s: State, ev: Event) {
    exists e: Env, p: Pins :: Differs(s, ev, e, p)
  }

  ghost predicate Differs(s: State, ev: Event, e: Env, p: Pins) {
    Step(s, ev, e) != Step(s, ev, e.(pins := p))
  }

  predicate Bouncing(s: State) {
    s.lastEdge.Some? && s.now < s.lastEdge.value + DEBOUNCE_MS
  }

  /** Inside the debounce window of the latest edge the contacts are looked at by a settings
      commit, and by nothing else. */
  lemma OnlyCommitSamplesBounce(active: nat, es: seq<Happening>, ev: Event)
    ensures var s := Run(Boot(active), es);
            Bouncing(s) ==> (Samples(s, ev) <==> ev.Commit? && !s.rebooted)
  {
    TimeHolds(active, es);
    var s := Run(Boot(active), es);
    if ev.Commit? && !s.rebooted {
      CommitSamples(s);
    } else if Bouncing(s) {
      forall e, p ensures !Differs(s, ev, e, p) { Blind(s, ev, e, p); }
    }
  }

  lemma CommitSamples(s: State)
    requires !s.rebooted
    ensures Samples(s, Commit)
  {
    var e := Env(Pins(0, 0), [], [], true, false, false, false);
    var c, d := Step(s, Commit, e).radio.cleared, Step(s, Commit, e.(pins := Pins(1, 0))).radio.cleared;
    assert |c| != |d|;
    assert Differs(s, Commit, e, Pins(1, 0));
  }

  lemma Blind(s: State, ev: Event, e: Env, p: Pins)
    requires s.rebooted || !(ev.Commit? || (ev.ApplyRuns? && Due(s.applyAt, s.now)))
    ensures Step(s, ev, e) == Step(s, ev, e.(pins := p))
  {
    hide KickDrops, Heals, TurnedAway;
  }

  /** And that sample can be wrong: the slider comes to rest at Bluetooth, but the commit falls
      into the bounce, reads 2.4 GHz and clears the dongle's bond. */
  lemma BounceClearsBond(active: nat) returns (es: seq<Happening>)
    ensures |es| == 4 && es[0].ev == Edge && es[1].ev == Commit && Bouncing(Run(Boot(active), es[..1]))
    ensures var t := Run(Boot(active), es);
            t.samples == [Bluetooth] && t.currentMode == Bluetooth && t.radio.cleared == [DONGLE]
  {
    var e := Env(Pins(0, 1), [], [], true, false, false, false);
    es := [Happening(Edge, e), Happening(Commit, e.(pins := Pins(1, 0))), Happening(Wait(APPLY_DELAY_MS), e),
           Happening(ApplyRuns, e)];
    RunFour(Boot(active), es);
  }

  lemma RunFour(s: State, es: seq<Happening>)
    requires |es| == 4
    ensures Run(s, es[..1]) == Step(s, es[0].ev, es[0].env)
    ensures Run(s, es[..2]) == Step(Run(s, es[..1]), es[1].ev, es[1].env)
    ensures Run(s, es[..3]) == Step(Run(s, es[..2]), es[2].ev, es[2].env)
    ensures Run(s, es) == Step(Run(s, es[..3]), es[3].ev, es[3].env)
  {
    hide Step;
    assert es[..1][..0] == [] && es[..2][..1] == es[..1] && es[..3][..2] == es[..2];
  }

  // ------------------------------------------------------------------ bonds and links

  /** In this step a settings commit asks for the dongle profile and ZMK refuses, while another
      profile is active. */
  predicate CommitRefused(s: State, ev: Event, e: Env) {
    !s.rebooted && ev.Commit? && ReadMode(e.pins) == Dongle && !e.selects && s.radio.active != DONGLE
  }

  /** A step clears a bond other than the dongle slot's exactly when a commit is refused. */
  lemma ClearsOnlyDongle(s: State, ev: Event, e: Env)
    ensures var c, d := s.radio.cleared, Step(s, ev, e).radio.cleared;
            && c <= d
            && (CommitRefused(s, ev, e) <==> exists k :: |c| <= k < |d| && d[k] != DONGLE)
  {
    hide KickDrops, HostDrops;
    var c, d := s.radio.cleared, Step(s, ev, e).radio.cleared;
    assert d == c || d == c + [if ev.Commit? && e.selects then DONGLE else s.radio.active];
    if CommitRefused(s, ev, e) {
      assert d[|c|] == s.radio.active;
    }
  }

  /** Such a step really loses another host's bond. */
  lemma RefusedCommitClearsHost(e: Env)
    requires ReadMode(e.pins) == Dongle && !e.selects
    ensures CommitRefused(Boot(BT_PROFILE), Commit, e)
    ensures Run(Boot(BT_PROFILE), [Happening(Commit, e)]).radio.cleared == [BT_PROFILE]
  {
    assert Run(Boot(BT_PROFILE), [Happening(Commit, e)][..0]) == Boot(BT_PROFILE);
  }

  predicate OnlyDongle(cleared: seq<nat>) {
    forall k :: 0 <= k < |cleared| ==> cleared[k] == DONGLE
  }

  predicate NeverRefused(s: State, es: seq<Happening>) {
    es == [] || (NeverRefused(s, es[..|es| - 1]) &&
                 !CommitRefused(Run(s, es[..|es| - 1]), es[|es| - 1].ev, es[|es| - 1].env))
  }

  /** A run of the switch, the kicks and the watchdog clears no bond but the dongle slot's exactly
      when no commit of it was refused, whatever profiles the user selects. */
  lemma {:induction false} OtherBondsSafe(active: nat, es: seq<Happening>)
    ensures OnlyDongle(Run(Boot(active), es).radio.cleared) <==> NeverRefused(Boot(active), es)
  {
    hide Step;
    if es == [] {
    } else {
      OtherBondsSafe(active, es[..|es| - 1]);
      var s := Run(Boot(active), es[..|es| - 1]);
      ClearsOnlyDongle(s, es[|es| - 1].ev, es[|es| - 1].env);
      var c, d := s.radio.cleared, Run(Boot(active), es).radio.cleared;
      assert d == Step(s, es[|es| - 1].ev, es[|es| - 1].env).radio.cleared;
      assert forall k :: 0 <= k < |c| ==> d[k] == c[k];
    }
  }

  /** A closed link had this half as peripheral; in 2.4 GHz mode its peer is stored in another
      slot and, unless it was turned away as it connected, not in the dongle's. */
  predicate FairDrop(d: Drop) {
    && d.link.known && d.link.peripheral
    && (d.mode == Dongle ==> IsOtherHost(d.stored, d.link.peer))
    && (d.mode == Dongle && !d.turnedAway ==> Kicked(d.stored, d.link))
  }

  ghost predicate DropInv(s: State) {
    forall d :: d in s.radio.dropped ==> FairDrop(d)
  }

  lemma {:induction false} DropsAreFair(mode: Mode, links: seq<Link>, stored: seq<nat>)
    ensures forall d :: d in KickDrops(mode, links, stored) ==> FairDrop(d)
    ensures mode != Dongle ==> forall d :: d in HostDrops(mode, links, stored) ==> FairDrop(d)
  {
    if links == [] {
    } else {
      DropsAreFair(mode, links[..|links| - 1], stored);
    }
  }

  /** What one step adds to the connections closed. */
  lemma StepDrops(s: State, ev: Event, e: Env)
    ensures var d, d', mode := s.radio.dropped, Step(s, ev, e).radio.dropped, ReadMode(e.pins);
            var kicks := KickDrops(mode, e.links, e.stored);
            || d' == d || d' == d + KickDrops(s.currentMode, e.links, e.stored)
            || d' == d + kicks || d' == d + kicks + kicks
            || (mode != Dongle && d' == d + HostDrops(mode, e.links, e.stored))
            || (s.currentMode == Dongle && ev.HostConnected? && TurnedAway(e.stored, ev.link)
                && d' == d + [Drop(s.currentMode, ev.link, e.stored, true)])
  {
    hide KickDrops, HostDrops, TurnedAway, Heals, NextTicks;
  }

  lemma StepKeepsDrops(s: State, ev: Event, e: Env)
    requires DropInv(s)
    ensures DropInv(Step(s, ev, e))
  {
    DropsAreFair(s.currentMode, e.links, e.stored);
    DropsAreFair(ReadMode(e.pins), e.links, e.stored);
    StepDrops(s, ev, e);
    hide Step, KickDrops, HostDrops;
  }

  /** No run ever closes the split link to the other half or any central-role link; in 2.4 GHz
      mode it never closes a link to a peer stored in no other slot, and no apply or kick pass
      closes a link to the dongle. */
  lemma {:induction false} LinksSafe(active: nat, es: seq<Happening>)
    ensures DropInv(Run(Boot(active), es))
  {
    hide Step;
    if es == [] {
    } else {
      LinksSafe(active, es[..|es| - 1]);
      StepKeepsDrops(Run(Boot(active), es[..|es| - 1]), es[|es| - 1].ev, es[|es| - 1].env);
    }
  }

  // ------------------------------------------------------------------ what the mode arms

  /** The watchdog is armed exactly in 2.4 GHz mode, and nowhere else do kicks run. */
  predicate Armed(s: State) {
    && (s.radio.watchAt.Some? <==> s.appliedOnce && s.currentMode == Dongle)
    && (s.radio.kickAt.Some? ==> s.appliedOnce && s.currentMode == Dongle)
    && (!s.appliedOnce ==> s.currentMode == Wired)
    && (s.appliedOnce ==> s.currentMode == s.lastMode)
  }

  lemma StepKeepsArmed(s: State, ev: Event, e: Env)
    requires Armed(s)
    ensures Armed(Step(s, ev, e))
  {
    hide KickDrops, HostDrops, Heals, NextTicks, TurnedAway;
  }

  /** The self-heal loop never dies in 2.4 GHz mode and never runs outside it. */
  lemma {:induction false} WatchdogFollowsMode(active: nat, es: seq<Happening>)
    ensures Armed(Run(Boot(active), es))
  {
    hide Step;
    if es == [] {
    } else {
      WatchdogFollowsMode(active, es[..|es| - 1]);
      StepKeepsArmed(Run(Boot(active), es[..|es| - 1]), es[|es| - 1].ev, es[|es| - 1].env);
    }
  }

  /** After the first run of the apply work, or one forced by USB, the active profile is the one
      the slider stands for, as far as ZMK accepts a selection. */
  lemma ProfileFollowsSlider(s: State, e: Env)
    requires Due(s.applyAt, s.now) && !s.rebooted && (!s.appliedOnce || s.forceReapply)
    ensures var t := Step(s, ApplyRuns, e);
            !t.rebooted ==>
              var was, now := s.radio.active, t.radio.active;
              match ReadMode(e.pins)
              case Wired => now == was
              case Bluetooth => now == if was == DONGLE && e.selects then BT_PROFILE else was
              case Dongle => now == if e.selects then DONGLE else was
  {
    hide KickDrops, HostDrops;
  }

  // ------------------------------------------------------------------ kick bursts

  /** The apply work does more than ignore a bounce: it re-asserts, reboots or applies. */
  predicate Disturbs(s: State, ev: Event, e: Env) {
    ev.ApplyRuns? && Due(s.applyAt, s.now) && !(s.appliedOnce && ReadMode(e.pins) == s.lastMode && !s.forceReapply)
  }

  predicate Undisturbed(s: State, es: seq<Happening>) {
    es == [] || (Undisturbed(s, es[..|es| - 1]) &&
                 !Disturbs(Run(s, es[..|es| - 1]), es[|es| - 1].ev, es[|es| - 1].env))
  }

  ghost predicate BurstInv(s: State) {
    var r := s.radio;
    && s.currentMode == Dongle && !s.rebooted && r.kickLeft <= KICKS
    && (if r.kickAt.Some? then r.passes == KICKS - r.kickLeft else r.passes == KICKS + 1 && r.kickLeft == 0)
  }

  /** A burst nothing reschedules makes six passes and then stops, whatever edges, USB events,
      commits, connections and profile changes come meanwhile: at every point either a pass is
      still scheduled and fewer than six have run, or exactly six have. */
  lemma {:induction false} BurstEnds(s: State, es: seq<Happening>)
    requires s.currentMode == Dongle && !s.rebooted
    requires Undisturbed(s.(radio := ScheduleKicks(s.radio, s.now)), es)
    ensures BurstInv(Run(s.(radio := ScheduleKicks(s.radio, s.now)), es))
  {
    if es == [] {
    } else {
      hide Step, Disturbs;
      var init, h := es[..|es| - 1], es[|es| - 1];
      BurstEnds(s, init);
      BurstStep(Run(s.(radio := ScheduleKicks(s.radio, s.now)), init), h.ev, h.env);
    }
  }

  lemma BurstStep(s: State, ev: Event, e: Env)
    requires BurstInv(s) && !Disturbs(s, ev, e)
    ensures BurstInv(Step(s, ev, e))
  {
    hide KickDrops, Heals, TurnedAway;
  }

  // ------------------------------------------------------------------ self-heal

  /** The counter after one unhealthy tick on the dongle profile. */
  function Unhealthy(ticks: nat, live: bool): nat {
    if Heals(ticks, true, live) then 0 else NextTicks(ticks)
  }

  /** The counter after unhealthy ticks that saw `lives`, starting from 0. */
  function Counter(lives: seq<bool>): (c: nat)
    ensures c < 20
  {
    if lives == [] then 0 else Unhealthy(Counter(lives[..|lives| - 1]), lives[|lives| - 1])
  }

  /** Tick `i` clears the bond. */
  predicate HealsAt(lives: seq<bool>, i: nat)
    requires i < |lives|
  {
    Heals(Counter(lives[..i]), true, lives[i])
  }

  function Heal(lives: seq<bool>): nat {
    if lives == [] then 0
    else Heal(lives[..|lives| - 1]) + if HealsAt(lives, |lives| - 1) then 1 else 0
  }

  lemma {:induction false} HealBudget(lives: seq<bool>)
    ensures 10 * Heal(lives) + Counter(lives) <= |lives| <= 20 * Heal(lives) + Counter(lives)
  {
    if lives == [] {
    } else {
      var init := lives[..|lives| - 1];
      HealBudget(init);
      assert lives[..|lives| - 1] == init;
    }
  }

  lemma {:induction false} GrowsAtMost(lives: seq<bool>, i: nat, k: nat)
    requires i <= k <= |lives|
    ensures Counter(lives[..k]) <= Counter(lives[..i]) + (k - i)
    ensures (forall j :: i <= j < k ==> !HealsAt(lives, j)) ==> Counter(lives[..k]) == Counter(lives[..i]) + (k - i)
  {
    if i >= k {
    } else {
      GrowsAtMost(lives, i, k - 1);
      assert lives[..k][..k - 1] == lives[..k - 1] && lives[..k][k - 1] == lives[k - 1];
      assert Counter(lives[..k]) == Unhealthy(Counter(lives[..k - 1]), lives[k - 1]);
      assert Heals(Counter(lives[..k - 1]), true, lives[k - 1]) == HealsAt(lives, k - 1);
    }
  }

  /** Two clears are at least ten ticks apart. */
  lemma HealsSpaced(lives: seq<bool>, i: nat, j: nat)
    requires i < j < |lives| && HealsAt(lives, i) && HealsAt(lives, j)
    ensures j - i >= 10
  {
    assert lives[..i + 1][..i] == lives[..i];
    GrowsAtMost(lives, i + 1, j);
  }

  /** Any twenty consecutive unhealthy ticks contain a clear. */
  lemma HealsWithinTwenty(lives: seq<bool>, i: nat)
    requires i + 20 <= |lives|
    ensures exists j :: i <= j < i + 20 && HealsAt(lives, j)
  {
    GrowsAtMost(lives, i, i + 20);
  }

  /** A run of the watchdog in 2.4 GHz mode. */
  predicate Ticks(s: State, ev: Event) {
    !s.rebooted && ev.WatchdogRuns? && Due(s.radio.watchAt, s.now) && s.currentMode == Dongle
  }

  /** It finds the dongle profile active and no secured connection. */
  predicate Stuck(s: State, e: Env) {
    s.radio.active == DONGLE && !(e.connected && e.secured)
  }

  predicate Clears(s: State, ev: Event, e: Env) {
    Ticks(s, ev) && |Step(s, ev, e).radio.cleared| > |s.radio.cleared|
  }

  /** The live-connection flags the watchdog runs of `es` saw, in order. */
  function Lives(s: State, es: seq<Happening>): seq<bool> {
    if es == [] then []
    else
      var init, h := es[..|es| - 1], es[|es| - 1];
      Lives(s, init) + if Ticks(Run(s, init), h.ev) then [h.env.livePeripheral] else []
  }

  function ClearsIn(s: State, es: seq<Happening>): nat {
    if es == [] then 0
    else
      var init, h := es[..|es| - 1], es[|es| - 1];
      ClearsIn(s, init) + if Clears(Run(s, init), h.ev, h.env) then 1 else 0
  }

  predicate AllStuck(s: State, es: seq<Happening>) {
    es == [] || (AllStuck(s, es[..|es| - 1]) &&
                 (Ticks(Run(s, es[..|es| - 1]), es[|es| - 1].ev) ==> Stuck(Run(s, es[..|es| - 1]), es[|es| - 1].env)))
  }

  /** Only the watchdog moves the counter; a healthy tick clears nothing and resets it. */
  lemma WatchdogStep(s: State, ev: Event, e: Env)
    ensures var t := Step(s, ev, e);
            if !Ticks(s, ev) then t.radio.ticks == s.radio.ticks
            else if Stuck(s, e) then
              t.radio.ticks == Unhealthy(s.radio.ticks, e.livePeripheral) &&
              (Clears(s, ev, e) <==> Heals(s.radio.ticks, true, e.livePeripheral))
            else e.connected && e.secured ==> t.radio.ticks == 0 && t.radio.cleared == s.radio.cleared
  {
    hide KickDrops, HostDrops, TurnedAway;
  }

  lemma OneTick(lives: seq<bool>, live: bool)
    ensures Counter(lives + [live]) == Unhealthy(Counter(lives), live)
    ensures Heal(lives + [live]) == Heal(lives) + if Heals(Counter(lives), true, live) then 1 else 0
  {
    hide Heals;
    var more := lives + [live];
    assert more[..|more| - 1] == lives;
  }

  /** From a cleared counter, whatever else happens between the ticks, the counter and the clears
      are those of the ticks alone. */
  lemma {:induction false} HealsFollowTicks(s: State, es: seq<Happening>)
    requires s.radio.ticks == 0 && AllStuck(s, es)
    ensures Run(s, es).radio.ticks == Counter(Lives(s, es)) && ClearsIn(s, es) == Heal(Lives(s, es))
  {
    if es == [] {
    } else {
      hide Step, Ticks, Stuck, Clears, Heals, Counter, Heal, Unhealthy;
      var init, h := es[..|es| - 1], es[|es| - 1];
      HealsFollowTicks(s, init);
      WatchdogStep(Run(s, init), h.ev, h.env);
      OneTick(Lives(s, init), h.env.livePeripheral);
      assert Lives(s, init) + [] == Lives(s, init);
    }
  }

  /** Over N unhealthy ticks of a run the bond is cleared between floor(N/20) and floor(N/10)
      times, whatever live connections come and go and whatever happens between the ticks. */
  lemma HealRate(s: State, es: seq<Happening>)
    requires s.radio.ticks == 0 && AllStuck(s, es)
    ensures |Lives(s, es)| / 20 <= ClearsIn(s, es) <= |Lives(s, es)| / 10
  {
    HealsFollowTicks(s, es);
    HealBudget(Lives(s, es));
  }

  lemma {:induction false} LivesPrefix(s: State, es: seq<Happening>, i: nat)
    requires i <= |es|
    ensures Lives(s, es[..i]) <= Lives(s, es)
    ensures AllStuck(s, es) ==> AllStuck(s, es[..i])
  {
    if i == |es| {
      assert es[..i] == es;
    } else {
      hide Ticks, Stuck;
      LivesPrefix(s, es[..|es| - 1], i);
      assert es[..|es| - 1][..i] == es[..i];
    }
  }

  /** Where step `i` of the run clears, the ticks alone say so. */
  lemma ClearIsHeal(s: State, es: seq<Happening>, i: nat)
    requires s.radio.ticks == 0 && AllStuck(s, es) && i < |es|
    ensures var n := |Lives(s, es[..i])|;
            && (Ticks(Run(s, es[..i]), es[i].ev) ==> n < |Lives(s, es)| && |Lives(s, es[..i + 1])| == n + 1)
            && (Clears(Run(s, es[..i]), es[i].ev, es[i].env) <==>
                  Ticks(Run(s, es[..i]), es[i].ev) && HealsAt(Lives(s, es), n))
  {
    hide Step, Stuck, Heals;
    LivesPrefix(s, es, i);
    LivesPrefix(s, es, i + 1);
    assert es[..i + 1][..i] == es[..i];
    HealsFollowTicks(s, es[..i]);
    WatchdogStep(Run(s, es[..i]), es[i].ev, es[i].env);
    if Ticks(Run(s, es[..i]), es[i].ev) {
      var lives, n := Lives(s, es), |Lives(s, es[..i])|;
      assert Lives(s, es[..i + 1])[n] == es[i].env.livePeripheral;
      assert lives[..n] == Lives(s, es[..i]);
    }
  }

  /** Two clears of a run are at least ten ticks apart. */
  lemma ClearsSpaced(s: State, es: seq<Happening>, i: nat, j: nat)
    requires s.radio.ticks == 0 && AllStuck(s, es) && i < j < |es|
    requires Clears(Run(s, es[..i]), es[i].ev, es[i].env) && Clears(Run(s, es[..j]), es[j].ev, es[j].env)
    ensures |Lives(s, es[..j])| - |Lives(s, es[..i])| >= 10
  {
    hide Clears, Ticks;
    ClearIsHeal(s, es, i);
    ClearIsHeal(s, es, j);
    LivesPrefix(s, es[..j], i + 1);
    assert es[..j][..i + 1] == es[..i + 1];
    HealsSpaced(Lives(s, es), |Lives(s, es[..i])|, |Lives(s, es[..j])|);
  }

  /** Any stretch of a run with twenty ticks in it contains a clear. */
  lemma ClearsWithinTwenty(s: State, es: seq<Happening>, i: nat, j: nat)
    requires s.radio.ticks == 0 && AllStuck(s, es) && i <= j <= |es|
    requires |Lives(s, es[..j])| - |Lives(s, es[..i])| >= 20
    ensures exists k :: i <= k < j && Clears(Run(s, es[..k]), es[k].ev, es[k].env)
  {
    hide Clears, Ticks;
    LivesPrefix(s, es, j);
    var n := |Lives(s, es[..i])|;
    HealsWithinTwenty(Lives(s, es), n);
    var h :| n <= h < n + 20 && HealsAt(Lives(s, es), h);
    var k := TickAt(s, es, i, j, h);
    ClearIsHeal(s, es, k);
  }

  /** The step that made tick `h`. */
  lemma {:induction false} TickAt(s: State, es: seq<Happening>, i: nat, j: nat, h: nat) returns (k: nat)
    requires i <= j <= |es| && |Lives(s, es[..i])| <= h < |Lives(s, es[..j])|
    ensures i <= k < j && Ticks(Run(s, es[..k]), es[k].ev) && |Lives(s, es[..k])| == h
  {
    hide Ticks;
    assert i < j;
    assert es[..j][..j - 1] == es[..j - 1];
    if |Lives(s, es[..j - 1])| <= h {
      k := j - 1;
    } else {
      k := TickAt(s, es, i, j - 1, h);
    }
  }
}
