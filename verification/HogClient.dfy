/**
 * The statics of dongle_bridge/src/ble_hog_central.c as objects and its callbacks as
 * methods, each proved to move the abstract state as the function of the same name in
 * HogSession or HogLink says.  The calls into the Bluetooth stack answer what the `Answers`
 * or `Env` argument holds.  `Discovery` has the statics of the discovery and subscription
 * pipeline; `Client` has the connection, the scan and the reconnect counters.
 */
module HogClient {
  import opened Bytes
  import S = HogSession
  import L = HogLink
  import AdParser

  class Discovery {
    var discState: S.Disc
    var inputs: seq<S.Input>
    var inputCount: nat
    var descIndex: nat
    var subIndex: nat
    var pendingRefHandles: seq<nat>
    ghost var op: S.Op
    ghost var writing: set<nat>
    ghost var confirmed: set<nat>

    ghost function View(): S.Session
      reads this
    {
      S.Session(discState, inputs, inputCount, descIndex, subIndex, pendingRefHandles, op, writing, confirmed)
    }

    ghost predicate Valid()
      reads this
    {
      S.Shape(View())
    }

    constructor ()
      ensures View() == S.COLD
    {
      discState, inputCount, descIndex, subIndex := S.Idle, 0, 0, 0;
      inputs, pendingRefHandles := [S.NO_INPUT, S.NO_INPUT, S.NO_INPUT, S.NO_INPUT], [0, 0, 0, 0];
      op, writing, confirmed := S.NoOp, {}, {};
    }

    /** The loop over inputs[] that a soft reset and a disconnect share.  Zeroing the
        subscribe parameters cancels a CCC callback still pending. */
    method Clear()
      requires Valid()
      modifies this
      ensures Valid() && View() == S.Cleared(old(View()))
    {
      var i := 0;
      while i < S.MAX_INPUT_REPORTS
        invariant i <= |inputs| == S.MAX_INPUT_REPORTS
        invariant forall j :: 0 <= j < i ==> inputs[j] == old(inputs)[j].(subscribed := false)
        invariant forall j :: i <= j < |inputs| ==> inputs[j] == old(inputs)[j]
        invariant View() == old(View()).(inputs := inputs)
      {
        inputs := inputs[i := inputs[i].(subscribed := false)];
        i := i + 1;
      }
      inputCount := 0;
      discState := S.Idle;
      op, writing, confirmed := S.NoOp, {}, {};
      assert inputs == S.Cleared(old(View())).inputs;
    }

    /** The zombie drop forgets the phase and nothing else. */
    method Drop()
      modifies this`discState, this`op, this`confirmed
      ensures View() == S.Dropped(old(View()))
    {
      discState := S.Idle;
      op, confirmed := S.NoOp, {};
    }

    method StartDiscovery(a: S.Answers)
      requires Valid()
      modifies this
      ensures Valid() && View() == S.StartDiscovery(old(View()), a)
    {
      inputCount := 0;
      descIndex := 0;
      inputs := [S.NO_INPUT, S.NO_INPUT, S.NO_INPUT, S.NO_INPUT];
      pendingRefHandles := [0, 0, 0, 0];
      discState := S.HidsSvc;
      op, writing, confirmed := if a.discover == 0 then S.Discovering else S.NoOp, {}, {};
    }

    /** One input of subscribe_next; `queued` when its CCC write is now outstanding. */
    method SubscribeOne(a: S.Answers) returns (queued: bool)
      requires Valid() && subIndex < inputCount
      modifies this
      ensures Valid() && inputCount == old(inputCount)
      ensures if queued then S.SubscribeNext(old(View()), a) == (View(), S.Queued)
              else subIndex == old(subIndex) + 1 && S.SubscribeNext(old(View()), a) == S.SubscribeNext(View(), a)
    {
      var k := subIndex;
      var x := S.Fallback(inputs[k]);
      inputs := inputs[k := x];
      if x.reportType != S.HIDS_INPUT || x.subscribed {
        subIndex := subIndex + 1;
        return false;
      }
      if x.reportId != S.REPORT_ID_KEYBOARD && x.reportId != S.REPORT_ID_CONSUMER && x.reportId != 0 {
        subIndex := subIndex + 1;
        return false;
      }
      var err := a.subscribe(k);
      if err == 0 {
        writing := writing + {k};
        return true;
      }
      if err == -S.EALREADY {
        inputs := inputs[k := x.(subscribed := true)];
        confirmed := confirmed + {k};
      }
      subIndex := subIndex + 1;
      queued := false;
    }

    /** subscribe_next: walk the inputs until a CCC write is queued; at the end of the pass
        declare the HOG ready, or tell the caller to reset the link. */
    method SubscribeNext(a: S.Answers) returns (out: S.Outcome)
      requires Valid()
      modifies this
      ensures Valid() && S.SubscribeNext(old(View()), a) == (View(), out)
    {
      while subIndex < inputCount
        invariant Valid()
        invariant S.SubscribeNext(View(), a) == S.SubscribeNext(old(View()), a)
        decreases inputCount - subIndex
      {
        var queued := SubscribeOne(a);
        if queued {
          return S.Queued;
        }
      }
      var i := 0;
      while i < inputCount
        invariant i <= inputCount
        invariant forall j :: 0 <= j < i && S.Wanted(inputs[j]) ==> inputs[j].subscribed
      {
        if S.Wanted(inputs[i]) && !inputs[i].subscribed {
          return S.Incomplete;
        }
        i := i + 1;
      }
      discState := S.Done;
      out := S.Ready;
    }

    method SubscribeAll(a: S.Answers) returns (out: S.Outcome)
      requires Valid()
      modifies this
      ensures Valid() && S.SubscribeAll(old(View()), a) == (View(), out)
    {
      subIndex := 0;
      out := SubscribeNext(a);
    }

    method SubscribeWriteDone(k: nat, err: int, a: S.Answers) returns (out: S.Outcome)
      requires Valid()
      modifies this
      ensures Valid() && S.CccDone(old(View()), k, err, a) == (View(), out)
    {
      writing := writing - {k};
      if err == 0 { confirmed := confirmed + {k}; }
      if subIndex < inputCount {
        inputs := inputs[subIndex := inputs[subIndex].(subscribed := err == 0)];
      }
      assert View() == S.CccStored(old(View()), k, err);
      subIndex := subIndex + 1;
      out := SubscribeNext(a);
    }

    method DiscoverNextDesc(a: S.Answers) returns (out: S.Outcome)
      requires Valid()
      modifies this
      ensures Valid() && S.RefsThenSubscribe(old(View()), a) == (View(), out)
      decreases if inputCount > descIndex then inputCount - descIndex else 0, 1
    {
      while descIndex < inputCount && pendingRefHandles[descIndex] == 0
        invariant Valid() && inputCount == old(inputCount) && descIndex >= old(descIndex)
        invariant S.RefsThenSubscribe(View(), a) == S.RefsThenSubscribe(old(View()), a)
        decreases inputCount - descIndex
      {
        inputs := inputs[descIndex := S.Defaulted(inputs[descIndex])];
        descIndex := descIndex + 1;
      }
      if descIndex < inputCount {
        out := ReadReportRef(a);
      } else {
        out := SubscribeAll(a);
      }
    }

    method ReadReportRef(a: S.Answers) returns (out: S.Outcome)
      requires Valid() && descIndex < inputCount && pendingRefHandles[descIndex] != 0
      modifies this
      ensures Valid() && S.RefsThenSubscribe(old(View()), a) == (View(), out)
      decreases inputCount - descIndex, 0
    {
      S.RefsStep(View(), a);
      var err := a.read(descIndex);
      if err != 0 {
        descIndex := descIndex + 1;
        S.RefsStep(View(), a);
        if descIndex < inputCount {
          out := DiscoverNextDesc(a);
        } else {
          out := SubscribeAll(a);
        }
      } else {
        op := S.Reading;
        out := S.Queued;
      }
    }

    method ReadReportRefCb(data: Option<(byte, byte)>, a: S.Answers) returns (out: S.Outcome)
      requires Valid()
      modifies this
      ensures Valid() && S.ReadDone(old(View()), data, a) == (View(), out)
    {
      op := S.NoOp;
      if data.Some? && descIndex < inputCount {
        inputs := inputs[descIndex := inputs[descIndex].(reportId := data.value.0, reportType := data.value.1)];
      }
      assert View() == S.ReadStored(old(View()), data);
      descIndex := descIndex + 1;
      out := DiscoverNextDesc(a);
    }

    method AnyRef() returns (found: bool)
      requires Valid()
      ensures found <==> exists j :: 0 <= j < inputCount && pendingRefHandles[j] != 0
    {
      var i := 0;
      while i < inputCount
        invariant i <= inputCount
        invariant forall j :: 0 <= j < i ==> pendingRefHandles[j] == 0
      {
        if pendingRefHandles[i] != 0 {
          return true;
        }
        i := i + 1;
      }
      found := false;
    }

    /** discover_func with a NULL attribute: the end of a phase. */
    method DiscoverEnd(a: S.Answers) returns (out: S.Outcome)
      requires Valid()
      modifies this
      ensures Valid() && S.DiscoverEnd(old(View()), a) == (View(), out)
    {
      op := S.NoOp;
      out := S.Queued;
      if discState == S.HidsChars {
        if inputCount == 0 {
          return;
        }
        discState := S.Desc;
        op := if a.discover == 0 then S.Discovering else S.NoOp;
      } else if discState == S.Desc {
        descIndex := 0;
        var anyRef := AnyRef();
        if anyRef {
          out := DiscoverNextDesc(a);
        } else {
          if inputCount > 0 {
            inputs := inputs[0 := inputs[0].(reportId := S.REPORT_ID_KEYBOARD, reportType := S.HIDS_INPUT)];
          }
          out := SubscribeAll(a);
        }
      }
    }

    /** discover_func with an attribute. */
    method DiscoverAttr(at: S.Attr, a: S.Answers)
      requires Valid()
      modifies this
      ensures Valid() && View() == S.DiscoverAttr(old(View()), at, a)
    {
      if discState == S.HidsSvc {
        discState := S.HidsChars;
        op := if a.discover == 0 then S.Discovering else S.NoOp;
      } else if discState == S.HidsChars {
        if inputCount < S.MAX_INPUT_REPORTS && at.notify {
          inputs := inputs[inputCount := S.Input(at.valueHandle, 0, 0, S.HIDS_INPUT, false)];
          inputCount := inputCount + 1;
        }
      } else if discState == S.Desc {
        MapDescriptor(at);
      } else {
        op := S.NoOp;
      }
    }

    /** Map a descriptor to the nearest preceding report value handle. */
    method MapDescriptor(at: S.Attr)
      requires Valid()
      modifies this
      ensures Valid() && View() == S.AddDesc(old(View()), at)
    {
      var i: int := inputCount - 1;
      while i >= 0
        invariant -1 <= i < inputCount <= |inputs| && View() == old(View())
        invariant S.Owner(inputs, i + 1, at.handle) == S.Owner(inputs, inputCount, at.handle)
      {
        if at.handle > inputs[i].valueHandle {
          if at.uuid == S.Ccc {
            inputs := inputs[i := inputs[i].(cccHandle := at.handle)];
          } else if at.uuid == S.ReportRef {
            pendingRefHandles := pendingRefHandles[i := at.handle];
          }
          return;
        }
        i := i - 1;
      }
    }
  }

  class Client {
    const hog: Discovery
    var defaultConn: Option<nat>
    var reconnectAttempts: nat
    var hogStallTicks: nat
    var stackDownTicks: nat
    var hardResetCount: nat
    var ticksSinceHard: nat
    var btStackReady: bool
    var scanning: bool
    var tickScheduled: bool
    var enabling: nat
    ghost var held: map<nat, int>

    ghost function View(): L.State
      reads this, hog
    {
      L.State(hog.View(), defaultConn, scanning, btStackReady, Ladder(), tickScheduled, enabling, held)
    }

    ghost function Ladder(): L.Ladder
      reads this
    {
      L.Ladder(reconnectAttempts, hogStallTicks, stackDownTicks, hardResetCount, ticksSinceHard)
    }

    ghost predicate Valid()
      reads hog
    {
      hog.Valid()
    }

    constructor ()
      ensures fresh(hog) && View() == L.BOOTED
    {
      hog := new Discovery();
      defaultConn := None;
      reconnectAttempts, hogStallTicks, stackDownTicks, hardResetCount, ticksSinceHard := 0, 0, 0, 0, 0;
      btStackReady, scanning, tickScheduled, enabling := false, false, false, 1;
      held := map[];
    }

    method ReconnectSchedule()
      modifies this`tickScheduled
      ensures View() == L.Schedule(old(View()))
    {
      tickScheduled := true;
    }

    method ConnUnref()
      requires defaultConn.Some?
      modifies this`defaultConn, this`held
      ensures View() == L.Unref(old(View()))
    {
      held := held[defaultConn.value := L.Held(View(), defaultConn.value) - 1];
      defaultConn := None;
    }

    method ScanStart(e: L.Env)
      requires Valid()
      modifies this`scanning, this`tickScheduled
      ensures View() == L.ScanStart(old(View()), e)
    {
      if e.scan != 0 && e.scan != -S.EALREADY {
        ReconnectSchedule();
      } else {
        scanning := true;
      }
    }

    method LinkResetSoft()
      requires Valid()
      modifies this`scanning, this`defaultConn, this`held, this`hogStallTicks, hog
      ensures Valid() && View() == L.SoftReset(old(View()))
    {
      scanning := false;
      if defaultConn.Some? {
        ConnUnref();
      }
      hog.Clear();
      hogStallTicks := 0;
    }

    method LinkResetHard(e: L.Env)
      requires Valid()
      modifies this`scanning, this`defaultConn, this`held, this`hogStallTicks, hog
      modifies this`btStackReady, this`tickScheduled, this`enabling
      ensures Valid() && View() == L.HardReset(old(View()), e)
    {
      LinkResetSoft();
      btStackReady := false;
      if e.enable != 0 {
        ReconnectSchedule();
      } else {
        enabling := enabling + 1;
      }
    }

    method Connected(c: nat, err: nat, e: L.Env)
      requires Valid()
      modifies this
      ensures Valid() && View() == L.OnConnected(old(View()), c, err, e)
    {
      if err != 0 {
        if Some(c) == defaultConn {
          ConnUnref();
        }
        ScanStart(e);
      }
    }

    method Disconnected(c: nat)
      requires Valid()
      modifies this, hog
      ensures Valid() && View() == L.OnDisconnected(old(View()), c)
    {
      if defaultConn.Some? && defaultConn != Some(c) {
        return;
      }
      if defaultConn == Some(c) {
        ConnUnref();
      }
      hog.Clear();
      hogStallTicks := 0;
      scanning := false;
      ReconnectSchedule();
    }

    method SecurityChanged(c: nat, err: nat, level: nat, e: L.Env)
      requires Valid()
      modifies hog
      ensures Valid() && View() == L.OnSecurity(old(View()), c, err, level, e)
    {
      if err != 0 {
        return;
      }
      if Some(c) == defaultConn && level >= 2 && hog.discState == S.Idle {
        hog.StartDiscovery(e.gatt);
      }
    }

    method DeviceFound(connectable: bool, ad: seq<byte>, e: L.Env)
      requires Valid()
      modifies this, hog
      ensures Valid()
      ensures View() == L.OnDevice(old(View()), connectable, AdParser.IsKeyboard(AdParser.Parse(ad)), e)
      ensures defaultConn.Some? && defaultConn != old(defaultConn) ==>
                var sts := AdParser.Parse(ad);
                && connectable && e.create == 0
                && (exists st :: st in sts && AdParser.SaysNocFree(st))
                && (exists st, k :: st in sts && AdParser.SaysHids(st, k))
    {
      AdParser.AcceptedExactly(AdParser.Parse(ad));
      if defaultConn.Some? && e.live {
        return;
      }
      if defaultConn.Some? && !e.live {
        LinkResetSoft();
      }
      if !connectable {
        return;
      }
      var keyboard := AdParser.AdIsNocfreeKeyboard(ad);
      if !keyboard {
        return;
      }
      CreateConn(e);
    }

    /** The end of device_found: stop scanning and connect. */
    method CreateConn(e: L.Env)
      requires Valid() && defaultConn == None
      modifies this, hog
      ensures Valid() && View() == L.OnDevice(old(View()), true, true, e)
    {
      scanning := false;
      if e.create != 0 {
        if e.create == -L.ENOMEM || e.create == -L.EAGAIN || e.create == -S.EALREADY {
          LinkResetSoft();
        }
        ReconnectSchedule();
        return;
      }
      held := held[e.conn := L.Held(View(), e.conn) + 1];
      defaultConn := Some(e.conn);
      reconnectAttempts := 0;
      hogStallTicks := 0;
    }

    method ReconnectWorkHandler(e: L.Env)
      requires Valid()
      modifies this, hog
      ensures Valid() && View() == L.OnTick(old(View()), e)
    {
      tickScheduled := false;
      if !btStackReady {
        StackDownTick(e);
        return;
      }
      stackDownTicks := 0;
      if defaultConn.Some? && !e.live {
        ConnUnref();
        hog.Drop();
        hogStallTicks := 0;
      }
      if defaultConn.Some? && e.live {
        LiveTick(e);
      } else {
        IdleTick(e);
      }
    }

    method StackDownTick(e: L.Env)
      requires Valid()
      modifies this
      ensures Valid() && View() == L.DownTick(old(View()), e)
    {
      stackDownTicks := (stackDownTicks + 1) % 256;
      if stackDownTicks >= L.STACK_DOWN_RETRY_TICKS {
        stackDownTicks := 0;
        if e.enable == -S.EALREADY {
          btStackReady := true;
          scanning := false;
          ScanStart(e);
        } else if e.enable == 0 {
          enabling := enabling + 1;
        }
      }
      ReconnectSchedule();
    }

    method LiveTick(e: L.Env)
      requires Valid()
      modifies this, hog
      ensures Valid() && View() == L.LiveTick(old(View()), e)
    {
      if hog.discState == S.Done {
        hogStallTicks := 0;
        reconnectAttempts := 0;
        hardResetCount := 0;
        ticksSinceHard := 0;
      } else {
        hogStallTicks := (hogStallTicks + 1) % 256;
        if hogStallTicks >= L.HOG_STALL_TICKS {
          hogStallTicks := 0;
          LinkResetSoft();
          ScanStart(e);
        }
      }
      ReconnectSchedule();
    }

    /** Count one idle tick; `due` when the back-off interval has passed. */
    method CountIdle() returns (due: bool)
      modifies this`hogStallTicks, this`reconnectAttempts, this`ticksSinceHard
      ensures Ladder() == L.Counted(old(Ladder())) && due == L.HardDue(old(Ladder()))
    {
      hogStallTicks := 0;
      reconnectAttempts := (reconnectAttempts + 1) % 256;
      ticksSinceHard := (ticksSinceHard + 1) % S.U16;
      var shift := if hardResetCount < L.HARD_BACKOFF_MAX_SHIFT then hardResetCount else L.HARD_BACKOFF_MAX_SHIFT;
      assert ShiftLeft(9, 0) == 9 && ShiftLeft(9, 1) == 18 && ShiftLeft(9, 2) == 36 && ShiftLeft(9, 3) == 72;
      due := ticksSinceHard >= ShiftLeft(L.HARD_RESET_EVERY, shift) % S.U16;
    }

    method HardTick(e: L.Env)
      requires Valid()
      modifies this, hog
      ensures Valid() && View() == L.HardReset(L.Escalated(old(View())), e)
    {
      ticksSinceHard := 0;
      if hardResetCount < U8_MAX {
        hardResetCount := hardResetCount + 1;
      }
      LinkResetHard(e);
    }

    method IdleTick(e: L.Env)
      requires Valid()
      modifies this, hog
      ensures Valid() && View() == L.IdleTick(old(View()), e)
    {
      var due := CountIdle();
      if due {
        HardTick(e);
        return;
      }
      if hardResetCount == 0 && reconnectAttempts % L.SOFT_RESET_EVERY == 0 {
        LinkResetSoft();
        ScanStart(e);
        ReconnectSchedule();
        return;
      }
      if !scanning {
        ScanStart(e);
      }
      ReconnectSchedule();
    }

    method BtReady(err: int, e: L.Env)
      requires Valid() && enabling > 0
      modifies this
      ensures Valid() && View() == L.OnReady(old(View()), err, e)
    {
      enabling := enabling - 1;
      if err != 0 {
        btStackReady := false;
        ReconnectSchedule();
        return;
      }
      btStackReady := true;
      stackDownTicks := 0;
      scanning := false;
      reconnectAttempts := 0;
      hogStallTicks := 0;
      ScanStart(e);
      ReconnectSchedule();
    }

    /** What the end of an incomplete pass does to the link. */
    method Finish(out: S.Outcome, e: L.Env)
      requires Valid()
      modifies this, hog
      ensures Valid() && View() == L.After(old(View()), (old(hog.View()), out), e)
    {
      if out == S.Incomplete {
        LinkResetSoft();
        ScanStart(e);
      }
    }

    method CccWritten(k: nat, err: int, e: L.Env)
      requires Valid()
      modifies this, hog
      ensures Valid() && View() == L.After(old(View()), S.CccDone(old(hog.View()), k, err, e.gatt), e)
    {
      var out := hog.SubscribeWriteDone(k, err, e.gatt);
      Finish(out, e);
    }

    method ReadRef(data: Option<(byte, byte)>, e: L.Env)
      requires Valid()
      modifies this, hog
      ensures Valid() && View() == L.After(old(View()), S.ReadDone(old(hog.View()), data, e.gatt), e)
    {
      var out := hog.ReadReportRefCb(data, e.gatt);
      Finish(out, e);
    }

    method PhaseEnd(e: L.Env)
      requires Valid()
      modifies this, hog
      ensures Valid() && View() == L.After(old(View()), S.DiscoverEnd(old(hog.View()), e.gatt), e)
    {
      var out := hog.DiscoverEnd(e.gatt);
      Finish(out, e);
    }
  }

  /** C's `x << n`. */
  function ShiftLeft(x: nat, n: nat): nat
    decreases n
  {
    if n == 0 then x else 2 * ShiftLeft(x, n - 1)
  }
}
