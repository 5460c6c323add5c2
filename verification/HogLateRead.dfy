/**
 * What late GATT callbacks do to the HOG client: ready with nothing discovered, exactly when and
 * for how long; and runs showing that each kind of misleading step does occur.
 */
module HogLateRead {
  import opened Bytes
  import opened HogSession
  import opened HogLink
  import opened HogReady
  import opened HogCurrent
  import opened HogRuns

  // ------------------------------------------------------------------ late report-reference reads

  /** Ready with nothing discovered. */
  predicate EmptyReady(s: Session) {
    s.disc == Done && s.inputCount == 0
  }

  ghost predicate AnyInv(s: Session) {
    Shape(s) && (s.disc == Desc || s.writing != {} ==> s.inputCount > 0)
  }

  lemma GattAny(s: Session, ev: Event, a: Answers)
    requires AnyInv(s)
    ensures var r := DiscoverEnd(s, a); AnyInv(r.0) && (EmptyReady(r.0) ==> EmptyReady(s))
    ensures ev.AttrFound? ==>
              var r := DiscoverAttr(s, ev.attr, a); AnyInv(r) && (EmptyReady(r) ==> EmptyReady(s))
    ensures ev.ReadRef? ==>
              var r := ReadDone(s, ev.data, a);
              AnyInv(r.0) && (EmptyReady(r.0) <==> s.inputCount == 0) && (s.inputCount == 0 ==> r.1 == Ready)
    ensures ev.CccWritten? && s.inputCount > 0 ==> AnyInv(CccDone(s, ev.k, ev.werr, a).0)
  {
  }

  lemma StepAny(s: State, ev: Event, e: Env)
    requires Shape(s.ses) && AnyInv(s.ses)
    ensures AnyInv(Step(s, ev, e).ses)
    ensures EmptyReady(Step(s, ev, e).ses) && !EmptyReady(s.ses) ==> ev.ReadRef? && s.ses.inputCount == 0
    ensures ev.ReadRef? && s.ses.inputCount == 0 ==> EmptyReady(Step(s, ev, e).ses)
  {
    hide DiscoverAttr, DiscoverEnd, ReadDone, CccDone;
    hide OnConnected, OnDisconnected, OnSecurity, OnDevice, OnTick, OnReady;
    GattAny(s.ses, ev, e.gatt);
    if !(ev.AttrFound? || ev.AttrEnd? || ev.ReadRef? || ev.CccWritten?) {
      LinkEvents(s, ev, e);
    }
  }

  lemma {:induction false} AnyHolds(es: seq<Happening>)
    ensures AnyInv(Run(BOOTED, es).ses)
  {
    hide Step;
    if es == [] {
    } else {
      AnyHolds(es[..|es| - 1]);
      StepAny(Run(BOOTED, es[..|es| - 1]), es[|es| - 1].ev, es[|es| - 1].env);
    }
  }

  /** Whatever the stack does, ready-with-no-inputs is entered exactly when a report-reference
      read is delivered while no input is known, as after any reset. */
  lemma EmptyReadyIff(es: seq<Happening>, ev: Event, e: Env)
    ensures var s := Run(BOOTED, es);
            !EmptyReady(s.ses) ==>
              (EmptyReady(Step(s, ev, e).ses) <==> ev.ReadRef? && s.ses.inputCount == 0)
  {
    hide Step, Run;
    AnyHolds(es);
    StepAny(Run(BOOTED, es), ev, e);
  }

  /** Any session whose read is answered only after the disconnect ends up that way. */
  lemma LateReadFakesReady(s: State, c: nat, data: Option<(byte, byte)>, e: Env, e': Env)
    requires Shape(s.ses) && s.conn == Some(c)
    ensures var t := Step(Step(s, Disconnected(c), e), ReadRef(data), e');
            EmptyReady(t.ses) && t.conn == None
  {
    var s1 := Step(s, Disconnected(c), e);
    assert s1.ses.inputCount == 0 && s1.conn == None;
  }

  /** Events that clear a false ready: losing the connection, or a reset. */
  predicate Recovers(s: State, ev: Event, e: Env) {
    match ev
    case Disconnected(c) => s.conn == None || s.conn == Some(c)
    case DeviceFound(connectable, keyboard) =>
      if s.conn.Some? then !e.live
      else connectable && keyboard && (e.create == -ENOMEM || e.create == -EAGAIN || e.create == -EALREADY)
    case Tick =>
      s.tick && s.stackReady &&
      if s.conn.Some? then !e.live
      else HardDue(s.lad) || (s.lad.hardCount == 0 && (s.lad.attempts + 1) % 256 % SOFT_RESET_EVERY == 0)
    case _ => false
  }

  /** Exactly these end it: otherwise an encrypted link starts no discovery, and every tick with
      the link up counts as healthy and clears the ladder. */
  lemma FakeReadyStep(s: State, ev: Event, e: Env)
    requires Shape(s.ses) && AnyInv(s.ses) && EmptyReady(s.ses)
    ensures EmptyReady(Step(s, ev, e).ses) <==> !Recovers(s, ev, e)
    ensures ev.Tick? && s.tick && s.stackReady && s.conn.Some? && e.live ==>
              IsHealthy(s, ev, e) && Step(s, ev, e).lad.hardCount == 0 && Step(s, ev, e).lad.sinceHard == 0
  {
    GattAny(s.ses, ev, e.gatt);
    if ev.AttrFound? || ev.AttrEnd? {
      assert s.ses.disc == Done;
    }
  }

  predicate NeverRecovers(s: State, es: seq<Happening>)
    requires Shape(s.ses)
  {
    es == [] || (NeverRecovers(s, es[..|es| - 1]) &&
                 !Recovers(Run(s, es[..|es| - 1]), es[|es| - 1].ev, es[|es| - 1].env))
  }

  /** A false ready stays through every run without such an event. */
  lemma {:induction false} FakeReadyStays(s: State, es: seq<Happening>)
    requires Shape(s.ses) && AnyInv(s.ses) && EmptyReady(s.ses) && NeverRecovers(s, es)
    ensures AnyInv(Run(s, es).ses) && EmptyReady(Run(s, es).ses)
  {
    if es == [] {
    } else {
      hide Step, EmptyReady, AnyInv, Recovers;
      var init, h := es[..|es| - 1], es[|es| - 1];
      FakeReadyStays(s, init);
      StepAny(Run(s, init), h.ev, h.env);
      FakeReadyStep(Run(s, init), h.ev, h.env);
    }
  }

  // ------------------------------------------------------------------ runs that mislead

  const ACCEPTING := Answers(0, _ => 0, _ => 0)
  const AGAIN := Answers(0, _ => 0, i => if i == 0 then -EALREADY else 0)

  function World(conn: nat, gatt: Answers): Env {
    Env(true, 0, 0, conn, 0, gatt)
  }

  const SERVICE := AttrFound(Attr(1, 0, false, OtherUuid))
  const KEYBOARD := AttrFound(Attr(9, 10, true, OtherUuid))
  const CONSUMER := AttrFound(Attr(19, 20, true, OtherUuid))

  lemma Then(es: seq<Happening>, ev: Event, e: Env) returns (fs: seq<Happening>)
    ensures fs == es + [Happening(ev, e)] && Run(BOOTED, fs) == Step(Run(BOOTED, es), ev, e)
    ensures NoLateCallbacks(BOOTED, es) && Current(Run(BOOTED, es).ses, ev) ==> NoLateCallbacks(BOOTED, fs)
  {
    hide Step, Current;
    fs := es + [Happening(ev, e)];
    assert fs[..|fs| - 1] == es;
  }

  /** The stack is up, the tick scheduled, no hard reset near: `n` idle ticks so far. */
  predicate Up(s: State, n: nat) {
    s.stackReady && s.tick && s.lad.hardCount == 0 && s.lad.sinceHard == n
  }

  /** Scanning with no connection. */
  ghost predicate Scans(s: State, n: nat) {
    Up(s, n) && Shape(s.ses) && s.scanning && s.conn == None && s.ses.disc == Idle
  }

  /** A link to `c`, with no idle tick since it was made. */
  predicate Linked(s: State, c: nat, n: nat) {
    Up(s, n) && s.conn == Some(c) && s.lad.attempts == 0
  }

  /** About to look for the HID service. */
  ghost predicate Searching(s: Session) {
    Shape(s) && s == COLD.(subIndex := s.subIndex, disc := HidsSvc, op := Discovering)
  }

  /** Only the session has moved. */
  predicate SameLink(s: State, t: State) {
    t == s.(ses := t.ses)
  }

  /** The stack comes up and the client scans. */
  lemma Boots() returns (es: seq<Happening>)
    ensures NoLateCallbacks(BOOTED, es) && Scans(Run(BOOTED, es), 0)
  {
    BootedIsIdle();
    es := Then([], BtReady(0), World(0, ACCEPTING));
  }

  /** No connection, and no idle tick since there was one. */
  ghost predicate Free(s: State, n: nat) {
    Up(s, n) && s.lad.attempts == 0 && s.conn == None && Shape(s.ses)
  }

  lemma DropStep(s: State, c: nat, e: Env, n: nat)
    requires Linked(s, c, n) && Shape(s.ses)
    ensures var t := Step(s, Disconnected(c), e); Free(t, n) && t.ses.disc == Idle && t.ses.inputCount == 0
  {
  }

  lemma TickStep(s: State, e: Env, n: nat)
    requires Free(s, n) && n + 2 < HARD_RESET_EVERY && e.scan == 0
    ensures var t := Step(s, Tick, e);
            Up(t, n + 1) && t.scanning && t.conn == None && t.ses == s.ses
  {
    hide Cleared;
  }

  lemma FoundStep(s: State, c: nat, e: Env, n: nat)
    requires Up(s, n) && s.conn == None && Shape(s.ses) && e.create == 0 && e.conn == c
    ensures var t := Step(s, DeviceFound(true, true), e);
            Linked(t, c, n) && t.ses == s.ses && Step(t, Connected(c, 0), e) == t
  {
    hide Cleared;
  }

  /** The keyboard is found, connects and encrypts. */
  lemma Link(es: seq<Happening>, c: nat, n: nat) returns (fs: seq<Happening>)
    requires NoLateCallbacks(BOOTED, es) && Scans(Run(BOOTED, es), n)
    ensures NoLateCallbacks(BOOTED, fs) && es <= fs
    ensures Searching(Run(BOOTED, fs).ses) && Linked(Run(BOOTED, fs), c, n)
  {
    var w := World(c, ACCEPTING);
    FoundStep(Run(BOOTED, es), c, w, n);
    hide OnDevice;
    fs := Then(es, DeviceFound(true, true), w);
    fs := Then(fs, Connected(c, 0), w);
    fs := Then(fs, SecurityChanged(c, 0, 2), w);
  }

  /** The link drops and a tick starts the scan again. */
  lemma Rescan(es: seq<Happening>, c: nat, n: nat) returns (fs: seq<Happening>)
    requires NoLateCallbacks(BOOTED, es) && Linked(Run(BOOTED, es), c, n) && n + 2 < HARD_RESET_EVERY
    ensures es < fs && fs[|es|].ev == Disconnected(c)
    ensures NoLateCallbacks(BOOTED, fs) && Scans(Run(BOOTED, fs), n + 1)
  {
    hide Step, Linked;
    var w := World(c, ACCEPTING);
    DropStep(Run(BOOTED, es), c, w, n);
    fs := Then(es, Disconnected(c), w);
    TickStep(Run(BOOTED, fs), w, n);
    fs := Then(fs, Tick, w);
  }

  ghost predicate FoundOne(s: Session) {
    && Shape(s) && s.disc == Desc && s.op == Discovering && s.inputCount == 1
    && s.inputs[0] == Input(10, 0, 0, 1, false) && s.refs == [0, 0, 0, 0]
  }

  lemma OneInput(es: seq<Happening>) returns (fs: seq<Happening>)
    requires NoLateCallbacks(BOOTED, es) && Searching(Run(BOOTED, es).ses)
    ensures NoLateCallbacks(BOOTED, fs) && SameLink(Run(BOOTED, es), Run(BOOTED, fs)) && FoundOne(Run(BOOTED, fs).ses)
  {
    var w := World(1, ACCEPTING);
    fs := Then(es, SERVICE, w);
    fs := Then(fs, KEYBOARD, w);
    fs := Then(fs, AttrEnd, w);
  }

  lemma OneReference(s: Session)
    requires FoundOne(s)
    ensures var t := DiscoverAttr(s, Attr(12, 0, false, ReportRef), ACCEPTING);
            && Shape(t) && t.disc == Desc && t.op == Discovering
            && DiscoverEnd(t, ACCEPTING).0.op == Reading && DiscoverEnd(t, ACCEPTING).1 == Queued
  {
    var t := DiscoverAttr(s, Attr(12, 0, false, ReportRef), ACCEPTING);
    assert t.refs[0] == 12;
  }

  /** The first session gets as far as reading a report reference. */
  lemma ReadUnderWay() returns (es: seq<Happening>)
    ensures NoLateCallbacks(BOOTED, es)
    ensures var s := Run(BOOTED, es); Linked(s, 1, 0) && s.ses.op == Reading
  {
    hide DiscoverAttr, DiscoverEnd, Searching, FoundOne;
    var w := World(1, ACCEPTING);
    es := Boots();
    es := Link(es, 1, 0);
    es := OneInput(es);
    OneReference(Run(BOOTED, es).ses);
    es := Then(es, AttrFound(Attr(12, 0, false, ReportRef)), w);
    es := Then(es, AttrEnd, w);
  }

  /** The write for the first of two inputs is outstanding. */
  predicate Writing(s: Session) {
    && s.disc == Desc && s.op == NoOp && s.inputCount == 2 && s.descIndex == 0 && s.subIndex == 0
    && s.inputs == [Input(10, 11, 1, 1, false), Input(20, 21, 0, 1, false), NO_INPUT, NO_INPUT]
    && s.refs == [0, 0, 0, 0] && s.writing == {0} && s.confirmed == {}
  }

  /** Two inputs found, with these CCC handles so far and no reference. */
  ghost predicate FoundTwo(s: Session, ccc0: nat, ccc1: nat) {
    && Shape(s) && s.disc == Desc && s.op == Discovering && s.inputCount == 2
    && s.inputs == [Input(10, ccc0, 0, 1, false), Input(20, ccc1, 0, 1, false), NO_INPUT, NO_INPUT]
    && s.refs == [0, 0, 0, 0] && s.writing == {} && s.confirmed == {}
  }

  lemma TwoInputs(es: seq<Happening>, c: nat) returns (fs: seq<Happening>)
    requires NoLateCallbacks(BOOTED, es) && Searching(Run(BOOTED, es).ses)
    ensures NoLateCallbacks(BOOTED, fs) && es <= fs
    ensures SameLink(Run(BOOTED, es), Run(BOOTED, fs)) && FoundTwo(Run(BOOTED, fs).ses, 0, 0)
  {
    var w := World(c, ACCEPTING);
    fs := Then(es, SERVICE, w);
    fs := Then(fs, KEYBOARD, w);
    fs := Then(fs, CONSUMER, w);
    fs := Then(fs, AttrEnd, w);
  }

  lemma TwoCccs(s: Session, a: Answers)
    requires FoundTwo(s, 0, 0)
    ensures var t := DiscoverAttr(s, Attr(11, 0, false, Ccc), a);
            FoundTwo(t, 11, 0) && FoundTwo(DiscoverAttr(t, Attr(21, 0, false, Ccc), a), 11, 21)
  {
  }

  lemma Subscribing(es: seq<Happening>, c: nat) returns (fs: seq<Happening>)
    requires NoLateCallbacks(BOOTED, es) && Searching(Run(BOOTED, es).ses)
    ensures NoLateCallbacks(BOOTED, fs) && es <= fs
    ensures SameLink(Run(BOOTED, es), Run(BOOTED, fs)) && Writing(Run(BOOTED, fs).ses)
  {
    hide DiscoverAttr, DiscoverEnd, Searching, Writing;
    var w := World(c, ACCEPTING);
    fs := TwoInputs(es, c);
    TwoCccs(Run(BOOTED, fs).ses, ACCEPTING);
    fs := Then(fs, AttrFound(Attr(11, 0, false, Ccc)), w);
    fs := Then(fs, AttrFound(Attr(21, 0, false, Ccc)), w);
    PassStarts(Run(BOOTED, fs).ses);
    fs := Then(fs, AttrEnd, w);
  }

  lemma PassStarts(s: Session)
    requires FoundTwo(s, 11, 21)
    ensures var r := DiscoverEnd(s, ACCEPTING); r.1 == Queued && Writing(r.0)
  {
    var s1 := Set(s.(op := NoOp, descIndex := 0), 0, s.inputs[0].(reportId := 1, reportType := 1)).(subIndex := 0);
    assert Set(s1, 0, Fallback(s1.inputs[0])) == s1 && s1.writing + {0} == {0};
    assert SubscribeNext(s1, ACCEPTING) == (s1.(writing := {0}), Queued);
  }

  /** The late answer restarts the pass. */
  lemma LateAnswer(s: Session) returns (t: Session)
    requires Shape(s) && Writing(s)
    ensures Shape(t) && ReadDone(s, None, AGAIN) == (t, Queued)
    ensures t.inputs == [Input(10, 11, 1, 1, true), Input(20, 21, 1, 1, false), NO_INPUT, NO_INPUT]
    ensures t.inputCount == 2 && t.subIndex == 1 && t.writing == {0, 1} && t.confirmed == {0} && t.disc == Desc
  {
    var kb, cons := s.inputs[0], Input(20, 21, 1, 1, false);
    var s1 := s.(descIndex := 1);
    var s2 := s.(descIndex := 2, inputs := [kb, cons, NO_INPUT, NO_INPUT]);
    assert Set(s1, 1, Defaulted(s1.inputs[1])).(descIndex := 2) == s2;
    assert NextRef(s1, AGAIN) == NextRef(s2, AGAIN) == (s2, false);
    assert ReadStored(s, None).(descIndex := 1) == s1;
    var n := s2.(subIndex := 1, inputs := [kb.(subscribed := true), cons, NO_INPUT, NO_INPUT], confirmed := {0});
    assert Set(s2, 0, Fallback(kb)).inputs == s2.inputs;
    assert Set(s2.(subIndex := 1), 0, kb.(subscribed := true)).(confirmed := s2.confirmed + {0}) == n by {
      assert s2.confirmed + {0} == {0};
    }
    assert SubscribeNext(s2, AGAIN) == SubscribeNext(n, AGAIN);
    assert Set(n, 1, Fallback(cons)).inputs == n.inputs && {0} + {1} == {0, 1};
    t := n.(writing := {0, 1});
    assert SubscribeNext(n, AGAIN) == (t, Queued);
  }

  /** The answer to the first input's write is booked on the second. */
  lemma WrongInput(s: Session)
    requires Shape(s) && s.inputCount == 2 && s.subIndex == 1 && s.writing == {0, 1} && s.confirmed == {0}
    requires s.inputs == [Input(10, 11, 1, 1, true), Input(20, 21, 1, 1, false), NO_INPUT, NO_INPUT]
    ensures var r := CccDone(s, 0, 0, AGAIN);
            && r.1 == Ready && r.0.disc == Done && r.0.inputCount == 2
            && r.0.inputs[1] == Input(20, 21, 1, 1, true) && 1 !in r.0.confirmed
    ensures s.disc == Desc ==> Misleads(s, CccWritten(0, 0), AGAIN)
  {
    var s1 := CccStored(s, 0, 0).(subIndex := 2);
    assert s1.confirmed == {0} && s1.inputs[1] == Input(20, 21, 1, 1, true) && s1.inputs[0] == s.inputs[0];
    assert SubscribeNext(s1, AGAIN) == (s1.(disc := Done), Ready);
  }

  /** Every callback up to the last two answers the session it belongs to; the last but one
      answers the read that was outstanding when the first link dropped, at `m`.  The run ends
      ready, with the second input flagged as subscribed and its CCC write never confirmed. */
  ghost predicate MisledByWrite(es: seq<Happening>, m: nat) {
    var n := |es| - 2;
    && m < n && NoLateCallbacks(BOOTED, es[..n])
    && Run(BOOTED, es[..m]).ses.op == Reading && es[m].ev.Disconnected?
    && es[n].ev == ReadRef(None) && es[n + 1].ev == CccWritten(0, 0)
    && 0 in Run(BOOTED, es[..n]).ses.writing
    && Misleads(Run(BOOTED, es[..n + 1]).ses, es[n + 1].ev, es[n + 1].env.gatt)
    && var s := Run(BOOTED, es).ses;
       && s.disc == Done && s.inputCount == 2 && Shape(s)
       && Wanted(s.inputs[1]) && s.inputs[1].subscribed && 1 !in s.confirmed
  }

  lemma LateReadConfirmsWrongInput()
    ensures exists es: seq<Happening>, m: nat :: MisledByWrite(es, m)
  {
    hide Step, Writing, Searching, NoLateCallbacks, Misleads, Up;
    var first := ReadUnderWay();
    var m := |first|;
    var again := Rescan(first, 1, 0);
    var linked := Link(again, 2, 1);
    var before := Subscribing(linked, 2);
    assert before[..m] == first && before[m] == again[m];
    var es := Confuse(before);
    assert es[..|es| - 2] == before && es[..m] == first && es[m] == again[m];
    assert |before| + 1 == |es| - 1;
    assert MisledByWrite(es, m);
  }

  lemma Confuse(es: seq<Happening>) returns (fs: seq<Happening>)
    requires Writing(Run(BOOTED, es).ses)
    ensures |fs| == |es| + 2 && es <= fs && fs[|es|].ev == ReadRef(None) && fs[|es| + 1].ev == CccWritten(0, 0)
    ensures 0 in Run(BOOTED, es).ses.writing
    ensures Misleads(Run(BOOTED, fs[..|es| + 1]).ses, fs[|es| + 1].ev, fs[|es| + 1].env.gatt)
    ensures var s := Run(BOOTED, fs).ses;
            && s.disc == Done && s.inputCount == 2 && Shape(s)
            && Wanted(s.inputs[1]) && s.inputs[1].subscribed && 1 !in s.confirmed
  {
    hide ReadDone, CccDone, Misleads;
    var late := Then(es, ReadRef(None), World(2, AGAIN));
    var t := LateAnswer(Run(BOOTED, es).ses);
    assert Run(BOOTED, late).ses == t;
    fs := Then(late, CccWritten(0, 0), World(2, AGAIN));
    WrongInput(t);
    assert fs[..|es| + 1] == late;
  }

  // ------------------------------------------------------------------ a read answered when ready

  /** A mouse whose id was read and a keyboard without reference, these flags up and these
      writes confirmed. */
  predicate MouseAndKeyboard(s: Session, keyboardUp: bool, confirmed: set<nat>) {
    && s.inputs == [Input(10, 11, 3, 1, false), Input(20, 21, 1, 1, keyboardUp), NO_INPUT, NO_INPUT]
    && s.inputCount == 2 && s.refs == [12, 0, 0, 0] && s.confirmed == confirmed
  }

  /** The mouse's reference is being read, the keyboard has none. */
  ghost predicate MouseReading(s: Session) {
    && Shape(s) && s.disc == Desc && s.op == Reading && s.inputCount == 2 && s.refs == [12, 0, 0, 0] && s.descIndex == 0
    && s.inputs == [Input(10, 0, 0, 1, false), Input(20, 0, 0, 1, false), NO_INPUT, NO_INPUT]
    && s.writing == {} && s.confirmed == {}
  }

  lemma MouseReference(s: Session)
    requires FoundTwo(s, 0, 0)
    ensures var t := DiscoverAttr(s, Attr(12, 0, false, ReportRef), ACCEPTING);
            var (u, out) := DiscoverEnd(t, ACCEPTING);
            t.disc == Desc && t.op == Discovering && out == Queued && MouseReading(u)
  {
    var t := DiscoverAttr(s, Attr(12, 0, false, ReportRef), ACCEPTING);
    assert Owner(s.inputs, 1, 12) == Some(0) && Owner(s.inputs, 2, 12) == Some(0);
    assert t == s.(refs := [12, 0, 0, 0]) && t.refs[0] == 12;
    RefsStep(t.(op := NoOp, descIndex := 0), ACCEPTING);
  }

  lemma MouseRead(s: Session)
    requires MouseReading(s)
    ensures var (t, out) := ReadDone(s, Some((3, 1)), ACCEPTING);
            && out == Queued && MouseAndKeyboard(t, false, {})
            && t.writing == {1} && t.subIndex == 1 && t.disc == s.disc && t.op == NoOp
  {
    var s0 := ReadStored(s, Some((3, 1))).(descIndex := 1);
    var mouse, kb := Input(10, 0, 3, 1, false), Input(20, 0, 1, 1, false);
    var s1 := s0.(descIndex := 2, inputs := [mouse, kb, NO_INPUT, NO_INPUT]);
    assert Set(s0, 1, Defaulted(s0.inputs[1])).(descIndex := 2) == s1;
    assert NextRef(s0, ACCEPTING) == NextRef(s1, ACCEPTING) == (s1, false);
    var n := s1.(subIndex := 1, inputs := [mouse.(cccHandle := 11), kb, NO_INPUT, NO_INPUT]);
    assert Set(s1, 0, Fallback(mouse)).(subIndex := 1) == n;
    assert SubscribeNext(s1.(subIndex := 0), ACCEPTING) == SubscribeNext(n, ACCEPTING);
    assert Set(n, 1, Fallback(kb)).inputs == [mouse.(cccHandle := 11), kb.(cccHandle := 21), NO_INPUT, NO_INPUT];
    assert s.writing + {1} == {1};
  }

  lemma MouseAgain(s: Session)
    requires Shape(s) && MouseAndKeyboard(s, false, {}) && s.writing == {1} && s.subIndex == 1 && s.disc == Desc
    ensures var (t, out) := DiscoverEnd(s, ACCEPTING);
            out == Queued && t == s.(descIndex := 0, op := Reading)
  {
    assert s.refs[0] == 12;
    RefsStep(s.(op := NoOp, descIndex := 0), ACCEPTING);
  }

  lemma KeyboardConfirmed(s: Session)
    requires Shape(s) && MouseAndKeyboard(s, false, {}) && s.writing == {1} && s.subIndex == 1
    ensures var (t, out) := CccDone(s, 1, 0, ACCEPTING);
            && out == Ready && MouseAndKeyboard(t, true, {1}) && t.disc == Done && t.descIndex == s.descIndex
  {
    var s1 := CccStored(s, 1, 0).(subIndex := 2);
    assert s1.inputs == [s.inputs[0], s.inputs[1].(subscribed := true), NO_INPUT, NO_INPUT];
    assert s1.confirmed == {1};
  }

  lemma MouseBecomesKeyboard(s: Session)
    requires Shape(s) && MouseAndKeyboard(s, true, {1}) && s.disc == Done && s.descIndex == 0
    ensures var (t, out) := ReadDone(s, Some((1, 1)), ACCEPTING);
            && out == Queued && Shape(t) && t.disc == Done && t.inputCount == 2
            && Wanted(t.inputs[0]) && 0 !in t.confirmed
    ensures Misleads(s, ReadRef(Some((1, 1))), ACCEPTING)
  {
    var s0 := ReadStored(s, Some((1, 1))).(descIndex := 1);
    var s1 := s0.(descIndex := 2);
    assert Set(s0, 1, Defaulted(s0.inputs[1])).inputs == s0.inputs;
    assert NextRef(s0, ACCEPTING) == NextRef(s1, ACCEPTING) == (s1, false);
    assert Asked(s1.inputs[0]);
  }

  /** A run whose last three events are the end of a discovery phase, late from the discovery
      under way when the first link dropped, at `m`, then a write's success and a read's answer;
      and which ends ready with a wanted input not confirmed. */
  ghost predicate MisledByRead(es: seq<Happening>, m: nat) {
    var n := |es| - 3;
    && m < n && NoLateCallbacks(BOOTED, es[..n])
    && Run(BOOTED, es[..m]).ses.op == Discovering && es[m].ev.Disconnected?
    && es[n].ev == AttrEnd && es[n + 1].ev == CccWritten(1, 0) && es[n + 2].ev.ReadRef?
    && Misleads(Run(BOOTED, es[..n + 2]).ses, es[n + 2].ev, es[n + 2].env.gatt)
    && var s := Run(BOOTED, es).ses;
       s.disc == Done && s.inputCount == 2 && Shape(s) && Wanted(s.inputs[0]) && 0 !in s.confirmed
  }

  /** There is such a run: the late callback makes the client read a reference again, the answer
      comes when it is ready and turns the mouse into a wanted input, and ready stays declared. */
  lemma ReadUnderReady()
    ensures exists es: seq<Happening>, m: nat :: MisledByRead(es, m)
  {
    hide Step, NoLateCallbacks, Searching, Up, Misleads, MouseReady;
    var first := Boots();
    first := Link(first, 1, 0);
    var m := |first|;
    LooksForService(Run(BOOTED, first).ses);
    var again := Rescan(first, 1, 0);
    var linked := Link(again, 2, 1);
    var before := MouseFound(linked, 2);
    var es := MouseConfused(before, 2);
    assert es[..m] == first && es[m] == again[m] && es[..|es| - 3] == before;
    assert es[..|es| - 1] == es[..|es| - 3 + 2];
    assert MisledByRead(es, m);
  }

  lemma LooksForService(s: Session)
    requires Searching(s)
    ensures s.op == Discovering
  {
  }

  /** The write for the keyboard beside the mouse is outstanding. */
  ghost predicate MouseReady(s: Session) {
    Shape(s) && MouseAndKeyboard(s, false, {}) && s.writing == {1} && s.subIndex == 1 && s.disc == Desc
  }

  lemma MouseConfused(es: seq<Happening>, c: nat) returns (fs: seq<Happening>)
    requires MouseReady(Run(BOOTED, es).ses)
    ensures |fs| == |es| + 3 && es <= fs
    ensures fs[|es|].ev == AttrEnd && fs[|es| + 1].ev == CccWritten(1, 0) && fs[|es| + 2].ev == ReadRef(Some((1, 1)))
    ensures Misleads(Run(BOOTED, fs[..|fs| - 1]).ses, fs[|es| + 2].ev, fs[|es| + 2].env.gatt)
    ensures var s := Run(BOOTED, fs).ses;
            s.disc == Done && s.inputCount == 2 && Shape(s) && Wanted(s.inputs[0]) && 0 !in s.confirmed
  {
    hide DiscoverEnd, ReadDone, CccDone, Misleads;
    var w := World(c, ACCEPTING);
    MouseAgain(Run(BOOTED, es).ses);
    fs := Then(es, AttrEnd, w);
    KeyboardConfirmed(Run(BOOTED, fs).ses);
    fs := Then(fs, CccWritten(1, 0), w);
    MouseBecomesKeyboard(Run(BOOTED, fs).ses);
    var ready := fs;
    fs := Then(fs, ReadRef(Some((1, 1))), w);
    assert fs[..|fs| - 1] == ready;
  }

  lemma MouseFound(es: seq<Happening>, c: nat) returns (fs: seq<Happening>)
    requires NoLateCallbacks(BOOTED, es) && Searching(Run(BOOTED, es).ses)
    ensures NoLateCallbacks(BOOTED, fs) && es <= fs && MouseReady(Run(BOOTED, fs).ses)
  {
    hide ReadDone, MouseAndKeyboard, Searching;
    fs := MouseAsked(es, c);
    MouseRead(Run(BOOTED, fs).ses);
    fs := Then(fs, ReadRef(Some((3, 1))), World(c, ACCEPTING));
  }

  lemma MouseAsked(es: seq<Happening>, c: nat) returns (fs: seq<Happening>)
    requires NoLateCallbacks(BOOTED, es) && Searching(Run(BOOTED, es).ses)
    ensures NoLateCallbacks(BOOTED, fs) && es <= fs && MouseReading(Run(BOOTED, fs).ses)
  {
    hide DiscoverAttr, DiscoverEnd, Searching, FoundTwo, MouseReading;
    var w := World(c, ACCEPTING);
    fs := TwoInputs(es, c);
    MouseReference(Run(BOOTED, fs).ses);
    TwoDescribed(Run(BOOTED, fs).ses);
    fs := Then(fs, AttrFound(Attr(12, 0, false, ReportRef)), w);
    fs := Then(fs, AttrEnd, w);
  }

  lemma TwoDescribed(s: Session)
    requires FoundTwo(s, 0, 0)
    ensures s.disc == Desc && s.op == Discovering
  {
  }

  lemma BootedIsIdle()
    ensures NoLateCallbacks(BOOTED, []) && Run(BOOTED, []).conn == None && Run(BOOTED, []).ses.disc == Idle
  {
  }

  // ------------------------------------------------------------------ a write answered when the link is gone

  /** The last write of a pass is outstanding when a tick finds the connection dead: its answer
      declares ready on no connection, with the inputs of the dead link. */
  lemma OrphanDeclaresReady(s: State, e: Env, e': Env)
    requires Shape(s.ses) && s.conn.Some? && s.tick && s.stackReady && !e.live
    requires !HardDue(s.lad) && !(s.lad.hardCount == 0 && (s.lad.attempts + 1) % 256 % SOFT_RESET_EVERY == 0)
    requires var h := s.ses;
             && h.disc == Desc && h.subIndex + 1 == h.inputCount && h.subIndex in h.writing
             && forall i :: 0 <= i < h.subIndex ==> Wanted(h.inputs[i]) && h.inputs[i].subscribed
    ensures var t := Step(s, Tick, e);
            var u := Step(t, CccWritten(s.ses.subIndex, 0), e');
            && t.conn == None && u.conn == None && Shape(u.ses) && u.ses.disc == Done
            && u.ses.inputCount == s.ses.inputCount && u.ses.confirmed == {s.ses.subIndex}
            && (s.ses.subIndex > 0 ==>
                  !WantedConfirmed(u.ses) && Misleads(t.ses, CccWritten(s.ses.subIndex, 0), e'.gatt))
  {
    var t := Step(s, Tick, e);
    assert t.ses == Dropped(s.ses) && t.conn == None by { hide CccDone; }
    OrphanPass(t.ses, e'.gatt);
    hide OnTick, CccDone, Misleads;
  }

  lemma OrphanPass(s: Session, a: Answers)
    requires Shape(s) && s.disc == Idle && s.confirmed == {}
    requires s.subIndex + 1 == s.inputCount && s.subIndex in s.writing
    requires forall i :: 0 <= i < s.subIndex ==> Wanted(s.inputs[i]) && s.inputs[i].subscribed
    ensures var (t, out) := CccDone(s, s.subIndex, 0, a);
            && out == Ready && Shape(t) && t.disc == Done && t.inputCount == s.inputCount && t.confirmed == {s.subIndex}
            && (s.subIndex > 0 ==> !WantedConfirmed(t) && Misleads(s, CccWritten(s.subIndex, 0), a))
  {
    var booked := CccStored(s, s.subIndex, 0);
    assert booked.confirmed == {s.subIndex};
    if s.subIndex > 0 { assert Wanted(booked.inputs[0]) && booked.inputs[0].subscribed && 0 !in booked.confirmed; }
  }

  lemma FirstWritten(s: Session)
    requires Shape(s) && Writing(s)
    ensures var (t, out) := CccDone(s, 0, 0, ACCEPTING);
            && out == Queued && Shape(t) && t.disc == Desc && t.inputCount == 2 && t.subIndex == 1 && 1 in t.writing
            && Wanted(t.inputs[0]) && t.inputs[0].subscribed
  {
    var s1 := CccStored(s, 0, 0).(subIndex := 1);
    assert s1.inputs == [Input(10, 11, 1, 1, true), Input(20, 21, 0, 1, false), NO_INPUT, NO_INPUT];
    assert Set(s1, 1, Fallback(s1.inputs[1])).inputs == s1.inputs;
  }

  /** Such a run from boot: all its callbacks come in their session, but the last two events are a
      tick that finds the connection dead and the success of the second of two writes. */
  ghost predicate MisledByOrphan(es: seq<Happening>) {
    var n := |es| - 2;
    && n >= 0 && NoLateCallbacks(BOOTED, es[..n]) && es[n].ev == Tick && es[n + 1].ev == CccWritten(1, 0)
    && Misleads(Run(BOOTED, es[..n + 1]).ses, es[n + 1].ev, es[n + 1].env.gatt)
    && var s := Run(BOOTED, es);
       s.conn == None && Shape(s.ses) && s.ses.disc == Done && s.ses.inputCount == 2 && !WantedConfirmed(s.ses)
  }

  lemma OrphanOccurs()
    ensures exists es: seq<Happening> :: MisledByOrphan(es)
  {
    hide Step, Searching, CccDone, NoLateCallbacks, Misleads, Writing, WantedConfirmed;
    var w, dead := World(1, ACCEPTING), World(1, ACCEPTING).(live := false);
    var before := WriteOfSecond();
    OrphanDeclaresReady(Run(BOOTED, before), dead, w);
    var ticked := Then(before, Tick, dead);
    var es := Then(ticked, CccWritten(1, 0), w);
    assert es[..|es| - 2] == before && es[..|es| - 2 + 1] == ticked;
    assert MisledByOrphan(es);
  }

  lemma WriteOfSecond() returns (es: seq<Happening>)
    ensures NoLateCallbacks(BOOTED, es)
    ensures var s := Run(BOOTED, es);
            && Linked(s, 1, 0) && Shape(s.ses) && s.ses.disc == Desc && s.ses.inputCount == 2 && s.ses.subIndex == 1
            && 1 in s.ses.writing && Wanted(s.ses.inputs[0]) && s.ses.inputs[0].subscribed
  {
    hide Searching, CccDone;
    es := Boots();
    es := Link(es, 1, 0);
    es := Subscribing(es, 1);
    FirstWritten(Run(BOOTED, es).ses);
    es := Then(es, CccWritten(0, 0), World(1, ACCEPTING));
  }

  /** A run from boot in which a read outstanding when the link dropped, at `m`, is answered right
      after: the next link connects and encrypts, and the client believes it ready, with no input
      known and no discovery begun. */
  ghost predicate MisledByEmptyReady(es: seq<Happening>, m: nat) {
    && m + 2 < |es| && NoLateCallbacks(BOOTED, es[..m]) && Run(BOOTED, es[..m]).ses.op == Reading
    && es[m].ev == Disconnected(1) && es[m + 1].ev == ReadRef(None)
    && es[|es| - 1].ev == SecurityChanged(2, 0, 2)
    && Run(BOOTED, es).conn == Some(2) && EmptyReady(Run(BOOTED, es).ses)
  }

  lemma EmptyReadyOccurs()
    ensures exists es: seq<Happening>, m: nat :: MisledByEmptyReady(es, m)
  {
    hide NoLateCallbacks, Step, Linked, EmptyReady, Free;
    var first := ReadUnderWay();
    var m := |first|;
    var es := FakeReady(first);
    var fs := LinkUnnoticed(es);
    assert fs[..m] == first && fs[m] == es[m] && fs[m + 1] == es[m + 1];
    assert MisledByEmptyReady(fs, m);
  }

  /** A tick, then the keyboard is found, connects and encrypts, as in any other link. */
  lemma LinkUnnoticed(es: seq<Happening>) returns (fs: seq<Happening>)
    requires Free(Run(BOOTED, es), 0) && EmptyReady(Run(BOOTED, es).ses)
    ensures |fs| == |es| + 4 && es <= fs && fs[|fs| - 1].ev == SecurityChanged(2, 0, 2)
    ensures var t := Run(BOOTED, fs); t.conn == Some(2) && EmptyReady(t.ses)
  {
    var w := World(2, ACCEPTING);
    TickStep(Run(BOOTED, es), w, 0);
    FoundStep(Step(Run(BOOTED, es), Tick, w), 2, w, 1);
    ReadySkipsDiscovery(Step(Step(Run(BOOTED, es), Tick, w), DeviceFound(true, true), w), 2, w);
    hide Step, EmptyReady;
    fs := Then(es, Tick, w);
    fs := Then(fs, DeviceFound(true, true), w);
    fs := Then(fs, Connected(2, 0), w);
    fs := Then(fs, SecurityChanged(2, 0, 2), w);
  }

  lemma ReadySkipsDiscovery(s: State, c: nat, e: Env)
    requires Shape(s.ses) && EmptyReady(s.ses)
    ensures Step(s, SecurityChanged(c, 0, 2), e) == s
  {
  }

  lemma FakeReady(es: seq<Happening>) returns (fs: seq<Happening>)
    requires Linked(Run(BOOTED, es), 1, 0)
    ensures |fs| == |es| + 2 && es <= fs && fs[|es|].ev == Disconnected(1) && fs[|es| + 1].ev == ReadRef(None)
    ensures Free(Run(BOOTED, fs), 0) && EmptyReady(Run(BOOTED, fs).ses)
  {
    hide ReadDone, OnDisconnected;
    var w := World(1, ACCEPTING);
    DropStep(Run(BOOTED, es), 1, w, 0);
    fs := Then(es, Disconnected(1), w);
    AfterDrop(Run(BOOTED, fs).ses, w.gatt);
    fs := Then(fs, ReadRef(None), w);
  }

  lemma AfterDrop(s: Session, a: Answers)
    requires Shape(s) && s.inputCount == 0
    ensures var (t, out) := ReadDone(s, None, a); out == Ready && EmptyReady(t)
  {
  }
}
