/**
 * The statics of mode_switch.c as one object and its handlers as methods, each proved to move
 * the state as the function of ModeSwitch it names.
 */
module ModeSwitchClient {
  import opened Bytes
  import M = ModeSwitch

  /** The kick burst, the watchdog counter and the calls into ZMK. */
  class Radio {
    var kickHostsLeft: nat
    var advUnconnectedTicks: nat
    var active: nat
    var kickAt: Option<nat>
    var watchAt: Option<nat>
    ghost var passes: nat
    ghost var cleared: seq<nat>
    var dropped: seq<M.Drop>

    ghost function View(): M.Radio
      reads this
    {
      M.Radio(kickHostsLeft, advUnconnectedTicks, active, kickAt, watchAt, passes, cleared, dropped)
    }

    constructor (active: nat)
      ensures View() == M.Radio(0, 0, active, None, None, 0, [], [])
    {
      kickHostsLeft, advUnconnectedTicks := 0, 0;
      this.active := active;
      kickAt, watchAt, passes, cleared, dropped := None, None, 0, [], [];
    }

    method AddrMatchesOther(stored: seq<nat>, peer: nat) returns (found: bool)
      ensures found == M.IsOtherHost(stored, peer)
    {
      var i := 0;
      while i < |stored|
        invariant i <= |stored|
        invariant forall j :: 0 <= j < i && j != M.DONGLE ==> !M.AddrMatches(stored, peer, j)
      {
        if i != M.DONGLE && M.AddrMatches(stored, peer, i) {
          return true;
        }
        i := i + 1;
      }
      found := false;
    }

    /** bt_conn_foreach with disconnect_non_dongle_host_conn. */
    method DisconnectNonDongleHosts(mode: M.Mode, e: M.Env)
      modifies this`dropped
      ensures dropped == old(dropped) + M.KickDrops(mode, e.links, e.stored)
    {
      var i := 0;
      assert e.links[..|e.links|] == e.links;
      while i < |e.links|
        invariant i <= |e.links|
        invariant dropped == old(dropped) + M.KickDrops(mode, e.links[..i], e.stored)
      {
        var l := e.links[i];
        assert e.links[..i + 1][..i] == e.links[..i];
        if l.known && l.le && l.peripheral && !M.AddrMatches(e.stored, l.peer, M.DONGLE) {
          var other := AddrMatchesOther(e.stored, l.peer);
          if other {
            dropped := dropped + [M.Drop(mode, l, e.stored, false)];
          }
        }
        i := i + 1;
      }
    }

    /** bt_conn_foreach with disconnect_host_conn. */
    method DisconnectAllPeripheralHosts(mode: M.Mode, e: M.Env)
      modifies this`dropped
      ensures dropped == old(dropped) + M.HostDrops(mode, e.links, e.stored)
    {
      var i := 0;
      assert e.links[..|e.links|] == e.links;
      while i < |e.links|
        invariant i <= |e.links|
        invariant dropped == old(dropped) + M.HostDrops(mode, e.links[..i], e.stored)
      {
        var l := e.links[i];
        assert e.links[..i + 1][..i] == e.links[..i];
        if l.known && l.le && l.peripheral {
          dropped := dropped + [M.Drop(mode, l, e.stored, false)];
        }
        i := i + 1;
      }
    }

    method HostConnected(mode: M.Mode, l: M.Link, failed: bool, e: M.Env)
      modifies this`dropped
      ensures View() == M.OnHostConnected(old(View()), mode, l, failed, e)
    {
      if failed || mode != M.Dongle || !l.known || !l.peripheral {
        return;
      }
      var other := AddrMatchesOther(e.stored, l.peer);
      if other {
        dropped := dropped + [M.Drop(mode, l, e.stored, true)];
      }
    }

    method ProfSelect(p: nat, e: M.Env)
      modifies this`active
      ensures active == if e.selects then p else old(active)
    {
      if e.selects {
        active := p;
      }
    }

    method ScheduleHostKicks(now: nat)
      modifies this`kickHostsLeft, this`kickAt, this`passes
      ensures kickHostsLeft == M.KICKS && kickAt == Some(now + M.FIRST_KICK_MS) && passes == 0
    {
      kickHostsLeft := M.KICKS;
      kickAt := Some(now + M.FIRST_KICK_MS);
      passes := 0;
    }

    method StopHostKicks()
      modifies this`kickHostsLeft, this`kickAt
      ensures kickHostsLeft == 0 && kickAt == None
    {
      kickHostsLeft := 0;
      kickAt := None;
    }

    method KickHostsWorkHandler(mode: M.Mode, now: nat, e: M.Env)
      modifies this`kickHostsLeft, this`kickAt, this`passes, this`active, this`dropped
      ensures View() == M.OnKick(old(View()), mode, now, e)
    {
      kickAt := None;
      if mode != M.Dongle {
        kickHostsLeft := 0;
        return;
      }
      DisconnectNonDongleHosts(mode, e);
      passes := passes + 1;
      if active != M.DONGLE {
        ProfSelect(M.DONGLE, e);
      }
      if kickHostsLeft > 0 {
        kickHostsLeft := kickHostsLeft - 1;
        kickAt := Some(now + M.NEXT_KICK_MS);
      }
    }

    method AdvWatchdogHandler(mode: M.Mode, now: nat, e: M.Env)
      modifies this`watchAt, this`advUnconnectedTicks, this`cleared
      ensures View() == M.OnWatchdog(old(View()), mode, now, e)
    {
      watchAt := None;
      if mode != M.Dongle {
        return;
      }
      if e.connected && e.secured {
        advUnconnectedTicks := 0;
      } else {
        if advUnconnectedTicks < U8_MAX {
          advUnconnectedTicks := advUnconnectedTicks + 1;
        }
        if advUnconnectedTicks >= 10 && active == M.DONGLE && (!e.livePeripheral || advUnconnectedTicks >= 20) {
          cleared := cleared + [active];
          advUnconnectedTicks := 0;
        }
      }
      watchAt := Some(now + M.WATCHDOG_MS);
    }

    method ApplyMode(mode: M.Mode, now: nat, e: M.Env)
      modifies this
      ensures View() == M.ApplyMode(old(View()), mode, now, e)
    {
      match mode
      case Wired =>
        StopHostKicks();
        watchAt := None;
        DisconnectAllPeripheralHosts(mode, e);
      case Bluetooth =>
        StopHostKicks();
        watchAt := None;
        if active == M.DONGLE {
          ProfSelect(M.BT_PROFILE, e);
        }
      case Dongle =>
        DisconnectNonDongleHosts(mode, e);
        ProfSelect(M.DONGLE, e);
        DisconnectNonDongleHosts(mode, e);
        ScheduleHostKicks(now);
        watchAt := Some(now + M.WATCHDOG_MS);
    }

    method LightReassertMode(mode: M.Mode, now: nat, e: M.Env)
      modifies this
      ensures View() == M.LightReassert(old(View()), mode, now, e)
    {
      match mode
      case Wired =>
        watchAt := None;
      case Bluetooth =>
        watchAt := None;
        if active == M.DONGLE {
          ProfSelect(M.BT_PROFILE, e);
        }
      case Dongle =>
        if active != M.DONGLE {
          ProfSelect(M.DONGLE, e);
        }
        DisconnectNonDongleHosts(mode, e);
        ScheduleHostKicks(now);
        watchAt := Some(now + M.WATCHDOG_MS);
    }

    /** The bond clear of a settings commit in the 2.4 GHz position. */
    method OpenDongleSlot(e: M.Env)
      modifies this`active, this`cleared
      ensures View() == M.ClearBonds(M.Select(old(View()), M.DONGLE, e))
    {
      ProfSelect(M.DONGLE, e);
      cleared := cleared + [active];
    }
  }

  /** The slider: debounce, first apply, reboot on change. */
  class Switch {
    const radio: Radio
    var appliedOnce: bool
    var lastMode: M.Mode
    var currentMode: M.Mode
    var forceReapply: bool
    var applyAt: Option<nat>
    var now: nat
    var rebooted: bool
    ghost var samples: seq<M.Mode>
    ghost var applies: nat
    ghost var lastEdge: Option<nat>
    ghost var lastRun: Option<nat>

    ghost function View(): M.State
      reads this, radio
    {
      M.State(appliedOnce, lastMode, currentMode, forceReapply, applyAt, now, rebooted, radio.View(),
              samples, applies, lastEdge, lastRun)
    }

    constructor (active: nat)
      ensures fresh(radio) && View() == M.Boot(active)
    {
      radio := new Radio(active);
      appliedOnce, lastMode, currentMode, forceReapply := false, M.Wired, M.Wired, false;
      applyAt, now, rebooted := None, 0, false;
      samples, applies, lastEdge, lastRun := [], 0, None, None;
    }

    method ApplyWorkHandler(e: M.Env)
      modifies this, radio
      ensures View() == M.OnApply(old(View()), e)
    {
      applyAt := None;
      var mode := M.ReadMode(e.pins);
      samples, lastRun := samples + [mode], Some(now);
      var forced := forceReapply;
      forceReapply := false;
      if appliedOnce && mode == lastMode && !forced {
        return;
      }
      if appliedOnce && forced && mode == lastMode {
        currentMode := mode;
        radio.LightReassertMode(mode, now, e);
        return;
      }
      if appliedOnce && mode != lastMode {
        rebooted := true;
        return;
      }
      lastMode := mode;
      appliedOnce := true;
      currentMode := mode;
      applies := applies + 1;
      radio.ApplyMode(mode, now, e);
    }

    method SwIsr()
      modifies this`applyAt, this`lastEdge
      ensures View() == M.OnEdge(old(View()))
    {
      applyAt, lastEdge := Some(now + M.DEBOUNCE_MS), Some(now);
    }

    method UsbListener()
      modifies this`forceReapply, this`applyAt
      ensures View() == M.OnUsb(old(View()))
    {
      forceReapply := true;
      applyAt := Some(now + M.USB_DELAY_MS);
    }

    method Commit(e: M.Env)
      modifies this`applyAt, radio
      ensures View() == M.OnCommit(old(View()), e)
    {
      if M.ReadMode(e.pins) == M.Dongle {
        radio.OpenDongleSlot(e);
      }
      applyAt := Some(now + M.APPLY_DELAY_MS);
    }
  }
}
