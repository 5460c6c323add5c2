/**
 * One HOG session of dongle_bridge/src/ble_hog_central.c: finding the report
 * characteristics, matching descriptors to them, reading the report references and
 * subscribing, as functions of the statics those callbacks update.
 *
 * The stack is adversarial: every GATT call answers what `Answers` says, and callbacks
 * carry any data.  `op`, `writing` and `confirmed` are history: what is outstanding in this
 * session, and which inputs have had a CCC write confirmed (or answered EALREADY).
 */
module HogSession {
  import opened Bytes

  const MAX_INPUT_REPORTS: nat := 4
  const HIDS_INPUT: byte := 1
  const REPORT_ID_KEYBOARD: byte := 1
  const REPORT_ID_CONSUMER: byte := 2
  const EALREADY: int := 120
  const U16: nat := 0x1_0000

  datatype Disc = Idle | HidsSvc | HidsChars | Desc | Done

  datatype Input = Input(valueHandle: nat, cccHandle: nat, reportId: byte, reportType: byte, subscribed: bool)

  const NO_INPUT := Input(0, 0, 0, 0, false)

  datatype Op = NoOp | Discovering | Reading

  datatype Session = Session(
    disc: Disc,
    inputs: seq<Input>,
    inputCount: nat,
    descIndex: nat,
    subIndex: nat,
    refs: seq<nat>,           // pending_ref_handles
    op: Op,
    writing: set<nat>,
    confirmed: set<nat>)

  ghost predicate Shape(s: Session) {
    |s.inputs| == MAX_INPUT_REPORTS && |s.refs| == MAX_INPUT_REPORTS && s.inputCount <= MAX_INPUT_REPORTS
  }

  /** The stack's answers to the GATT calls one callback makes, by input index. */
  datatype Answers = Answers(discover: int, read: nat -> int, subscribe: nat -> int)

  const COLD := Session(Idle, [NO_INPUT, NO_INPUT, NO_INPUT, NO_INPUT], 0, 0, 0, [0, 0, 0, 0], NoOp, {}, {})

  function Set(s: Session, i: nat, x: Input): Session
    requires i < |s.inputs|
  {
    s.(inputs := s.inputs[i := x])
  }

  /** What a reset or a disconnect does to the session: flags and subscribe parameters are
      zeroed, so a CCC callback still pending is cancelled. */
  function Cleared(s: Session): (r: Session)
    ensures Shape(s) ==> Shape(r)
  {
    s.(inputs := seq(|s.inputs|, i requires 0 <= i < |s.inputs| => s.inputs[i].(subscribed := false)),
       inputCount := 0, disc := Idle, op := NoOp, writing := {}, confirmed := {})
  }

  /** What dropping a dead connection's pointer does to the session, which is over with that:
      the phase is forgotten and nothing else, so a CCC callback can still come. */
  function Dropped(s: Session): Session {
    s.(disc := Idle, op := NoOp, confirmed := {})
  }

  function StartDiscovery(s: Session, a: Answers): (r: Session)
    ensures Shape(r)
  {
    COLD.(subIndex := s.subIndex, disc := HidsSvc, op := if a.discover == 0 then Discovering else NoOp)
  }

  // ------------------------------------------------------------------ discovery callbacks

  datatype Uuid = Ccc | ReportRef | OtherUuid

  /** An attribute as discover_func sees it; which fields it looks at depends on the phase. */
  datatype Attr = Attr(handle: nat, valueHandle: nat, notify: bool, uuid: Uuid)

  /** The last input whose value handle precedes `h`, among the first `n`. */
  function Owner(inputs: seq<Input>, n: nat, h: nat): (r: Option<nat>)
    requires n <= |inputs|
    ensures r.Some? ==> r.value < n && inputs[r.value].valueHandle < h
    ensures r.Some? ==> forall j :: r.value < j < n ==> inputs[j].valueHandle >= h
    ensures r.None? ==> forall j :: 0 <= j < n ==> inputs[j].valueHandle >= h
  {
    if n == 0 then None
    else if h > inputs[n - 1].valueHandle then Some(n - 1)
    else Owner(inputs, n - 1, h)
  }

  function AddChar(s: Session, at: Attr): (r: Session)
    requires Shape(s)
    ensures Shape(r)
  {
    if s.inputCount < MAX_INPUT_REPORTS && at.notify then
      Set(s, s.inputCount, Input(at.valueHandle, 0, 0, HIDS_INPUT, false)).(inputCount := s.inputCount + 1)
    else s
  }

  function AddDesc(s: Session, at: Attr): (r: Session)
    requires Shape(s)
    ensures Shape(r)
  {
    match Owner(s.inputs, s.inputCount, at.handle)
    case None => s
    case Some(i) =>
      if at.uuid == Ccc then Set(s, i, s.inputs[i].(cccHandle := at.handle))
      else if at.uuid == ReportRef then s.(refs := s.refs[i := at.handle])
      else s
  }

  function DiscoverAttr(s: Session, at: Attr, a: Answers): (r: Session)
    requires Shape(s)
    ensures Shape(r)
  {
    match s.disc
    case HidsSvc => s.(disc := HidsChars, op := if a.discover == 0 then Discovering else NoOp)
    case HidsChars => AddChar(s, at)
    case Desc => AddDesc(s, at)
    case _ => s.(op := NoOp)
  }

  // ------------------------------------------------------------------ report references

  /** An input that has no reference and no id yet is taken for the keyboard. */
  function Defaulted(x: Input): Input {
    if x.reportId == 0 then x.(reportId := REPORT_ID_KEYBOARD, reportType := HIDS_INPUT) else x
  }

  /** discover_next_desc and read_report_ref call each other until a read is under way or no
      input is left; the bool says which. */
  function NextRef(s: Session, a: Answers): (r: (Session, bool))
    requires Shape(s)
    ensures Shape(r.0) && r.0.inputCount == s.inputCount && r.0.descIndex >= s.descIndex
    ensures r.1 == (r.0.descIndex < s.inputCount) && r.0.op == if r.1 then Reading else s.op
    decreases s.inputCount - s.descIndex
  {
    if s.descIndex >= s.inputCount then (s, false)
    else if s.refs[s.descIndex] == 0 then
      NextRef(Set(s, s.descIndex, Defaulted(s.inputs[s.descIndex])).(descIndex := s.descIndex + 1), a)
    else if a.read(s.descIndex) == 0 then (s.(op := Reading), true)
    else NextRef(s.(descIndex := s.descIndex + 1), a)
  }

  // ------------------------------------------------------------------ subscribing

  datatype Outcome = Queued | Ready | Incomplete

  predicate Wanted(x: Input) {
    x.reportType == HIDS_INPUT &&
    (x.reportId == REPORT_ID_KEYBOARD || x.reportId == REPORT_ID_CONSUMER || x.reportId == 0)
  }

  /** Every input the host needs has been subscribed. */
  predicate AllSubscribed(s: Session)
    requires Shape(s)
  {
    forall i :: 0 <= i < s.inputCount && Wanted(s.inputs[i]) ==> s.inputs[i].subscribed
  }

  function Fallback(x: Input): Input {
    if x.cccHandle == 0 then x.(cccHandle := (x.valueHandle + 1) % U16) else x
  }

  /** HOG is ready only if every wanted input truly subscribed; the caller resets otherwise. */
  function EndOfPass(s: Session): (Session, Outcome)
    requires Shape(s)
  {
    if AllSubscribed(s) then (s.(disc := Done), Ready) else (s, Incomplete)
  }

  function SubscribeNext(s: Session, a: Answers): (r: (Session, Outcome))
    requires Shape(s)
    ensures Shape(r.0) && r.0.inputCount == s.inputCount && r.0.subIndex >= s.subIndex && r.0.op == s.op
    ensures r.1.Queued? ==> r.0.subIndex < s.inputCount && r.0.writing == s.writing + {r.0.subIndex}
    decreases s.inputCount - s.subIndex
  {
    if s.subIndex >= s.inputCount then EndOfPass(s)
    else
      var k := s.subIndex;
      var s1 := Set(s, k, Fallback(s.inputs[k]));
      var next := s1.(subIndex := k + 1);
      if s.inputs[k].subscribed || !Wanted(s.inputs[k]) then SubscribeNext(next, a)
      else if a.subscribe(k) == -EALREADY then
        SubscribeNext(Set(next, k, s1.inputs[k].(subscribed := true)).(confirmed := s.confirmed + {k}), a)
      else if a.subscribe(k) != 0 then SubscribeNext(next, a)
      else (s1.(writing := s.writing + {k}), Queued)
  }

  function SubscribeAll(s: Session, a: Answers): (r: (Session, Outcome))
    requires Shape(s)
    ensures Shape(r.0) && r.0.op == s.op && r.0.inputCount == s.inputCount
  {
    SubscribeNext(s.(subIndex := 0), a)
  }

  /** discover_next_desc to its end: a read under way, or the first subscription pass. */
  function RefsThenSubscribe(s: Session, a: Answers): (r: (Session, Outcome))
    requires Shape(s)
    ensures Shape(r.0) && r.0.inputCount == s.inputCount
  {
    var (s1, reading) := NextRef(s, a);
    if reading then (s1, Queued) else SubscribeAll(s1, a)
  }

  lemma RefsStep(s: Session, a: Answers)
    requires Shape(s)
    ensures s.descIndex >= s.inputCount ==> RefsThenSubscribe(s, a) == SubscribeAll(s, a)
    ensures s.descIndex < s.inputCount && s.refs[s.descIndex] != 0 ==>
              RefsThenSubscribe(s, a) == if a.read(s.descIndex) == 0 then (s.(op := Reading), Queued)
                                         else RefsThenSubscribe(s.(descIndex := s.descIndex + 1), a)
  {
    hide SubscribeAll;
  }

  function DiscoverEnd(s: Session, a: Answers): (r: (Session, Outcome))
    requires Shape(s)
    ensures Shape(r.0) && r.0.inputCount == s.inputCount
  {
    var s := s.(op := NoOp);
    match s.disc
    case HidsChars =>
      if s.inputCount == 0 then (s, Queued)
      else (s.(disc := Desc, op := if a.discover == 0 then Discovering else NoOp), Queued)
    case Desc =>
      var s0 := s.(descIndex := 0);
      if exists i :: 0 <= i < s.inputCount && s.refs[i] != 0 then RefsThenSubscribe(s0, a)
      else if s.inputCount > 0 then
        SubscribeAll(Set(s0, 0, s.inputs[0].(reportId := REPORT_ID_KEYBOARD, reportType := HIDS_INPUT)), a)
      else SubscribeAll(s0, a)
    case _ => (s, Queued)
  }

  /** read_report_ref_cb; `data` is None for an error, no data or fewer than two bytes. */
  function ReadDone(s: Session, data: Option<(byte, byte)>, a: Answers): (r: (Session, Outcome))
    requires Shape(s)
    ensures Shape(r.0) && r.0.inputCount == s.inputCount
    ensures r.0.op == Reading ==> r.0.descIndex > s.descIndex
  {
    RefsThenSubscribe(ReadStored(s, data).(descIndex := s.descIndex + 1), a)
  }

  function ReadStored(s: Session, data: Option<(byte, byte)>): (r: Session)
    requires Shape(s)
    ensures Shape(r) && r.inputCount == s.inputCount
  {
    var s := s.(op := NoOp);
    if data.Some? && s.descIndex < s.inputCount then
      Set(s, s.descIndex, s.inputs[s.descIndex].(reportId := data.value.0, reportType := data.value.1))
    else s
  }

  /** subscribe_write_done for the write issued for input `k`. */
  function CccDone(s: Session, k: nat, err: int, a: Answers): (r: (Session, Outcome))
    requires Shape(s)
    ensures Shape(r.0) && r.0.inputCount == s.inputCount && r.0.subIndex > s.subIndex
    ensures r.1.Queued? ==> r.0.subIndex < s.inputCount
  {
    SubscribeNext(CccStored(s, k, err).(subIndex := s.subIndex + 1), a)
  }

  function CccStored(s: Session, k: nat, err: int): (r: Session)
    requires Shape(s)
    ensures Shape(r) && r.inputCount == s.inputCount
  {
    var s := s.(writing := s.writing - {k}, confirmed := if err == 0 then s.confirmed + {k} else s.confirmed);
    if s.subIndex < s.inputCount then Set(s, s.subIndex, s.inputs[s.subIndex].(subscribed := err == 0)) else s
  }

  /** A link without the HID service, or whose service has no report, is not given up here: the
      session stays where it is, with nothing outstanding, for the stalled ticks to end. */
  lemma NothingFoundWaits(s: Session, a: Answers)
    requires Shape(s) && (s.disc == HidsSvc || (s.disc == HidsChars && s.inputCount == 0))
    ensures DiscoverEnd(s, a) == (s.(op := NoOp), Queued)
  {
  }

  // ------------------------------------------------------------------ descriptor ownership

  predicate Ascending(s: Session)
    requires Shape(s)
  {
    forall i, j :: 0 <= i < j < s.inputCount ==> s.inputs[i].valueHandle < s.inputs[j].valueHandle
  }

  function AddDescs(s: Session, ds: seq<Attr>): (r: Session)
    requires Shape(s)
    ensures Shape(r) && r.inputCount == s.inputCount
    ensures forall i :: 0 <= i < |s.inputs| ==> r.inputs[i].(cccHandle := 0) == s.inputs[i].(cccHandle := 0)
  {
    if ds == [] then s else AddDesc(AddDescs(s, ds[..|ds| - 1]), ds[|ds| - 1])
  }

  /** `h` lies after input `i`'s value and not after the next input's. */
  predicate InRange(s: Session, i: nat, h: nat)
    requires Shape(s) && i < s.inputCount
  {
    s.inputs[i].valueHandle < h && (i + 1 < s.inputCount ==> h <= s.inputs[i + 1].valueHandle)
  }

  /** The last descriptor of kind `u` in input `i`'s range, or `none`. */
  function LastOf(s: Session, i: nat, u: Uuid, ds: seq<Attr>, none: nat): nat
    requires Shape(s) && i < s.inputCount
  {
    if ds == [] then none
    else
      var d := ds[|ds| - 1];
      if d.uuid == u && InRange(s, i, d.handle) then d.handle else LastOf(s, i, u, ds[..|ds| - 1], none)
  }

  /** Whatever descriptors arrive, in whatever order, each input ends up with the last CCC and
      the last report reference of its own handle range, and nothing else changes. */
  lemma {:induction false} DescriptorsGoToOwners(s: Session, ds: seq<Attr>, i: nat)
    requires Shape(s) && Ascending(s) && i < s.inputCount
    ensures AddDescs(s, ds).inputs[i] == s.inputs[i].(cccHandle := LastOf(s, i, Ccc, ds, s.inputs[i].cccHandle))
    ensures AddDescs(s, ds).refs[i] == LastOf(s, i, ReportRef, ds, s.refs[i])
  {
    if ds == [] {
    } else {
      var init, d := ds[..|ds| - 1], ds[|ds| - 1];
      DescriptorsGoToOwners(s, init, i);
      var t := AddDescs(s, init);
      SameHandles(s, t);
      OneDescriptor(t, d, i);
    }
  }

  lemma SameHandles(s: Session, t: Session)
    requires Shape(s) && Shape(t) && t.inputCount == s.inputCount
    requires forall i :: 0 <= i < |s.inputs| ==> t.inputs[i].(cccHandle := 0) == s.inputs[i].(cccHandle := 0)
    ensures forall i :: 0 <= i < |s.inputs| ==> t.inputs[i].valueHandle == s.inputs[i].valueHandle
    ensures forall i, h :: 0 <= i < s.inputCount ==> InRange(t, i, h) == InRange(s, i, h)
    ensures Ascending(s) ==> Ascending(t)
  {
    forall i | 0 <= i < |s.inputs| ensures t.inputs[i].valueHandle == s.inputs[i].valueHandle {
      assert t.inputs[i].(cccHandle := 0).valueHandle == s.inputs[i].(cccHandle := 0).valueHandle;
    }
  }

  lemma OneDescriptor(s: Session, d: Attr, i: nat)
    requires Shape(s) && Ascending(s) && i < s.inputCount
    ensures var t := AddDesc(s, d);
            && t.inputs[i] == (if d.uuid == Ccc && InRange(s, i, d.handle) then s.inputs[i].(cccHandle := d.handle)
                               else s.inputs[i])
            && t.refs[i] == (if d.uuid == ReportRef && InRange(s, i, d.handle) then d.handle else s.refs[i])
  {
    assert Owner(s.inputs, s.inputCount, d.handle) == Some(i) <==> InRange(s, i, d.handle);
  }

  /** Each report's CCC and reference are the only ones of their kind in its range. */
  ghost predicate WellLaidOut(s: Session, ds: seq<Attr>, ccc: seq<nat>, refs: seq<nat>)
    requires Shape(s)
  {
    && Ascending(s) && |ccc| == |refs| == s.inputCount
    && forall i :: 0 <= i < s.inputCount ==> OnlyOne(s, i, Ccc, ds, ccc[i]) && OnlyOne(s, i, ReportRef, ds, refs[i])
  }

  ghost predicate OnlyOne(s: Session, i: nat, u: Uuid, ds: seq<Attr>, h: nat)
    requires Shape(s) && i < s.inputCount
  {
    && InRange(s, i, h)
    && (exists d :: d in ds && d.uuid == u && d.handle == h)
    && forall d :: d in ds && d.uuid == u && InRange(s, i, d.handle) ==> d.handle == h
  }

  lemma {:induction false} OnlyOneIsLast(s: Session, i: nat, u: Uuid, ds: seq<Attr>, h: nat, none: nat)
    requires Shape(s) && i < s.inputCount && InRange(s, i, h)
    requires forall d :: d in ds && d.uuid == u && InRange(s, i, d.handle) ==> d.handle == h
    ensures LastOf(s, i, u, ds, none) == if exists d :: d in ds && d.uuid == u && d.handle == h then h else none
  {
    if ds == [] {
    } else {
      var init, d := ds[..|ds| - 1], ds[|ds| - 1];
      assert ds == init + [d];
      assert d in ds && forall e :: e in init ==> e in ds;
      OnlyOneIsLast(s, i, u, init, h, none);
    }
  }

  /** On a well laid out service every CCC and report reference goes to its owner. */
  lemma DiscoveryFindsOwners(s: Session, ds: seq<Attr>, ccc: seq<nat>, refs: seq<nat>)
    requires Shape(s) && WellLaidOut(s, ds, ccc, refs)
    ensures var t := AddDescs(s, ds);
            forall i :: 0 <= i < s.inputCount ==> t.inputs[i].cccHandle == ccc[i] && t.refs[i] == refs[i]
  {
    forall i | 0 <= i < s.inputCount
      ensures AddDescs(s, ds).inputs[i].cccHandle == ccc[i] && AddDescs(s, ds).refs[i] == refs[i]
    {
      DescriptorsGoToOwners(s, ds, i);
      assert OnlyOne(s, i, Ccc, ds, ccc[i]) && OnlyOne(s, i, ReportRef, ds, refs[i]);
      OnlyOneIsLast(s, i, Ccc, ds, ccc[i], s.inputs[i].cccHandle);
      OnlyOneIsLast(s, i, ReportRef, ds, refs[i], s.refs[i]);
    }
  }

  // ------------------------------------------------------------------ collecting characteristics

  function AddChars(s: Session, cs: seq<Attr>): (r: Session)
    requires Shape(s)
    ensures Shape(r)
  {
    if cs == [] then s else AddChar(AddChars(s, cs[..|cs| - 1]), cs[|cs| - 1])
  }

  function Notifying(cs: seq<Attr>): seq<Attr> {
    if cs == [] then []
    else Notifying(cs[..|cs| - 1]) + if cs[|cs| - 1].notify then [cs[|cs| - 1]] else []
  }

  /** The inputs are the first four notifying characteristics, in order. */
  lemma {:induction false} CharsCollected(s: Session, cs: seq<Attr>)
    requires Shape(s) && s.inputCount == 0
    ensures var t, ns := AddChars(s, cs), Notifying(cs);
            && t.inputCount == (if |ns| < 4 then |ns| else 4)
            && (forall i :: 0 <= i < t.inputCount ==> t.inputs[i] == Input(ns[i].valueHandle, 0, 0, 1, false))
            && t.refs == s.refs
  {
    if cs == [] {
    } else {
      CharsCollected(s, cs[..|cs| - 1]);
    }
  }

  // ------------------------------------------------------------------ the read chain

  /** Deliver the answer to each reference read until none is outstanding; the second
      component lists the inputs whose reference was read. */
  function RunReads(r: (Session, Outcome), a: Answers, data: nat -> Option<(byte, byte)>)
    : (t: ((Session, Outcome), seq<nat>))
    requires Shape(r.0)
    ensures Shape(t.0.0)
    decreases if r.0.op == Reading && r.0.descIndex < r.0.inputCount then r.0.inputCount - r.0.descIndex else 0
  {
    var d := r.0.descIndex;
    if r.0.op != Reading || d >= r.0.inputCount then (r, [])
    else
      var rest := RunReads(ReadDone(r.0, data(d), a), a, data);
      (rest.0, [d] + rest.1)
  }

  function Readable(refs: seq<nat>, a: Answers, i: nat, n: nat): seq<nat>
    requires n <= |refs|
    decreases n - i
  {
    if i >= n then []
    else if refs[i] != 0 && a.read(i) == 0 then [i] + Readable(refs, a, i + 1, n)
    else Readable(refs, a, i + 1, n)
  }

  /** What reading references makes of input `i`: without one it becomes the keyboard. */
  function Identified(x: Input, ref: nat, read: int, data: Option<(byte, byte)>): Input {
    if ref == 0 then if x.reportId == 0 then x.(reportId := 1, reportType := 1) else x
    else if read == 0 && data.Some? then x.(reportId := data.value.0, reportType := data.value.1)
    else x
  }

  /** The session after every reference has been dealt with. */
  function Identify(s: Session, a: Answers, data: nat -> Option<(byte, byte)>): (r: Session)
    requires Shape(s)
    ensures Shape(r) && r.inputCount == s.inputCount
    decreases s.inputCount - s.descIndex
  {
    if s.descIndex >= s.inputCount then s else Identify(IdentifyOne(s, a, data), a, data)
  }

  function IdentifyOne(s: Session, a: Answers, data: nat -> Option<(byte, byte)>): (r: Session)
    requires Shape(s) && s.descIndex < s.inputCount
    ensures Shape(r)
  {
    var d := s.descIndex;
    Set(s, d, Identified(s.inputs[d], s.refs[d], a.read(d), data(d))).(descIndex := d + 1)
  }

  lemma SkipsInput(s: Session, a: Answers, data: nat -> Option<(byte, byte)>)
    requires Shape(s) && s.descIndex < s.inputCount
    requires s.refs[s.descIndex] == 0 || a.read(s.descIndex) != 0
    ensures RefsThenSubscribe(s, a) == RefsThenSubscribe(IdentifyOne(s, a, data), a)
  {
    assert s.refs[s.descIndex] != 0 ==> IdentifyOne(s, a, data).inputs == s.inputs;
    assert NextRef(s, a) == NextRef(IdentifyOne(s, a, data), a);
  }

  lemma ReadsInput(s: Session, a: Answers, data: nat -> Option<(byte, byte)>)
    requires Shape(s) && s.descIndex < s.inputCount && s.op == NoOp
    requires s.refs[s.descIndex] != 0 && a.read(s.descIndex) == 0
    ensures RefsThenSubscribe(s, a) == (s.(op := Reading), Queued)
    ensures ReadDone(s.(op := Reading), data(s.descIndex), a) == RefsThenSubscribe(IdentifyOne(s, a, data), a)
  {
    assert ReadStored(s.(op := Reading), data(s.descIndex)).(descIndex := s.descIndex + 1) == IdentifyOne(s, a, data);
  }

  /** The mutually recursive chain reads each readable reference once, in order, and ends in
      one subscription pass over the identified inputs. */
  lemma {:induction false} ReadChain(s: Session, a: Answers, data: nat -> Option<(byte, byte)>)
    requires Shape(s) && s.op == NoOp
    ensures RunReads(RefsThenSubscribe(s, a), a, data)
         == (SubscribeAll(Identify(s, a, data), a), Readable(s.refs, a, s.descIndex, s.inputCount))
    decreases s.inputCount - s.descIndex
  {
    hide RefsThenSubscribe, SubscribeAll, ReadDone, Identified;
    RefsStep(s, a);
    if s.descIndex >= s.inputCount {
    } else {
      var next := IdentifyOne(s, a, data);
      ReadChain(next, a, data);
      if s.refs[s.descIndex] == 0 || a.read(s.descIndex) != 0 {
        SkipsInput(s, a, data);
      } else {
        ReadsInput(s, a, data);
      }
    }
  }

  /** Each input gets its own reference's id and type; without a reference it defaults to the
      keyboard, and a failed read leaves it as it was. */
  lemma {:induction false} IdentifiesEach(s: Session, a: Answers, data: nat -> Option<(byte, byte)>)
    requires Shape(s)
    ensures var t := Identify(s, a, data);
            && (forall i :: 0 <= i < |t.inputs| ==>
                  t.inputs[i] == if s.descIndex <= i < s.inputCount
                                 then Identified(s.inputs[i], s.refs[i], a.read(i), data(i)) else s.inputs[i])
            && t.refs == s.refs && t.writing == s.writing && t.confirmed == s.confirmed && t.disc == s.disc
    decreases s.inputCount - s.descIndex
  {
    if s.descIndex >= s.inputCount {
    } else {
      IdentifiesEach(IdentifyOne(s, a, data), a, data);
    }
  }

  /** Without any reference the first input is taken for the keyboard and the pass begins. */
  lemma NoReferenceMeansKeyboard(s: Session, a: Answers)
    requires Shape(s) && s.disc == Desc && s.inputCount > 0 && forall i :: 0 <= i < s.inputCount ==> s.refs[i] == 0
    ensures var first := s.inputs[0].(reportId := 1, reportType := 1);
            DiscoverEnd(s, a) == SubscribeAll(s.(op := NoOp, descIndex := 0, inputs := s.inputs[0 := first]), a)
  {
    hide SubscribeAll;
  }

  // ------------------------------------------------------------------ the subscription pass

  /** A pass with every queued CCC write answered in turn. */
  function RunPass(r: (Session, Outcome), a: Answers, ccc: nat -> int): (t: (Session, Outcome))
    requires Shape(r.0)
    ensures Shape(t.0)
    decreases if r.1.Queued? && r.0.subIndex < r.0.inputCount then r.0.inputCount - r.0.subIndex else 0
  {
    if !r.1.Queued? || r.0.subIndex >= r.0.inputCount then r
    else RunPass(CccDone(r.0, r.0.subIndex, ccc(r.0.subIndex), a), a, ccc)
  }

  predicate Granted(a: Answers, ccc: nat -> int, i: nat) {
    a.subscribe(i) == -120 || (a.subscribe(i) == 0 && ccc(i) == 0)
  }

  /** What one pass makes of input `i`. */
  function Settled(x: Input, granted: bool): Input {
    var y := if x.cccHandle == 0 then x.(cccHandle := (x.valueHandle + 1) % 0x1_0000) else x;
    if Asked(x) then y.(subscribed := granted) else y
  }

  /** An INPUT report of the keyboard, the consumer control or no known id, not yet subscribed. */
  predicate Asked(x: Input) {
    !x.subscribed && x.reportType == 1 && (x.reportId == 1 || x.reportId == 2 || x.reportId == 0)
  }

  function SettleOne(s: Session, a: Answers, ccc: nat -> int): (r: Session)
    requires Shape(s) && s.subIndex < s.inputCount
    ensures Shape(r)
  {
    var k := s.subIndex;
    var x := s.inputs[k];
    Set(s, k, Settled(x, Granted(a, ccc, k))).(subIndex := k + 1,
      confirmed := if Asked(x) && Granted(a, ccc, k) then s.confirmed + {k} else s.confirmed)
  }

  function Settle(s: Session, a: Answers, ccc: nat -> int): (r: Session)
    requires Shape(s)
    ensures Shape(r) && r.inputCount == s.inputCount
    decreases s.inputCount - s.subIndex
  {
    if s.subIndex >= s.inputCount then s else Settle(SettleOne(s, a, ccc), a, ccc)
  }

  predicate Writes(s: Session, a: Answers)
    requires Shape(s) && s.subIndex < s.inputCount
  {
    Asked(s.inputs[s.subIndex]) && a.subscribe(s.subIndex) == 0
  }

  lemma PassesInput(s: Session, a: Answers, ccc: nat -> int)
    requires Shape(s) && s.subIndex < s.inputCount && !Writes(s, a)
    ensures SubscribeNext(s, a) == SubscribeNext(SettleOne(s, a, ccc), a)
  {
    var k := s.subIndex;
    var s1 := Set(s, k, Fallback(s.inputs[k]));
    var next := s1.(subIndex := k + 1);
    if Asked(s.inputs[k]) && a.subscribe(k) == -EALREADY {
      assert Set(next, k, s1.inputs[k].(subscribed := true)).(confirmed := s.confirmed + {k}) == SettleOne(s, a, ccc);
    } else {
      assert next == SettleOne(s, a, ccc);
    }
  }

  lemma WritesInput(s: Session, a: Answers, ccc: nat -> int)
    requires Shape(s) && s.subIndex < s.inputCount && Writes(s, a) && s.writing == {}
    ensures var k, r := s.subIndex, SubscribeNext(s, a);
            && r.1.Queued? && r.0.subIndex == k
            && CccDone(r.0, k, ccc(k), a) == SubscribeNext(SettleOne(s, a, ccc), a)
  {
    var k := s.subIndex;
    var s1 := SubscribeNext(s, a).0;
    assert s1 == Set(s, k, Fallback(s.inputs[k])).(writing := {k});
    assert CccStored(s1, k, ccc(k)).(subIndex := k + 1) == SettleOne(s, a, ccc);
  }

  /** A pass visits every input once and ends, ready or incomplete. */
  lemma {:induction false} PassEnds(s: Session, a: Answers, ccc: nat -> int)
    requires Shape(s) && s.writing == {}
    ensures RunPass(SubscribeNext(s, a), a, ccc) == EndOfPass(Settle(s, a, ccc))
    decreases s.inputCount - s.subIndex
  {
    if s.subIndex >= s.inputCount {
    } else {
      PassEnds(SettleOne(s, a, ccc), a, ccc);
      if Writes(s, a) {
        WritesInput(s, a, ccc);
      } else {
        PassesInput(s, a, ccc);
      }
    }
  }

  lemma {:induction false} SettlesEach(s: Session, a: Answers, ccc: nat -> int)
    requires Shape(s)
    ensures var t := Settle(s, a, ccc);
            && t.writing == s.writing && t.disc == s.disc
            && (forall i :: 0 <= i < |t.inputs| ==>
                  t.inputs[i] == if s.subIndex <= i < s.inputCount then Settled(s.inputs[i], Granted(a, ccc, i))
                                 else s.inputs[i])
            && (forall i :: i in t.confirmed <==> (i in s.confirmed ||
                  (s.subIndex <= i < s.inputCount && Asked(s.inputs[i]) && Granted(a, ccc, i))))
    decreases s.inputCount - s.subIndex
  {
    if s.subIndex >= s.inputCount {
    } else {
      SettlesEach(SettleOne(s, a, ccc), a, ccc);
    }
  }

  /** Every pass ends in exactly one of two ways: ready, when each wanted input was subscribed
      already, answered EALREADY, or had its CCC write succeed; incomplete, when one did not. */
  lemma PassOutcome(s: Session, a: Answers, ccc: nat -> int)
    requires Shape(s) && s.writing == {}
    ensures var (t, out) := RunPass(SubscribeAll(s, a), a, ccc);
            && (out == Ready || out == Incomplete)
            && Shape(t) && t.inputCount == s.inputCount
            && t.disc == (if out == Ready then Done else s.disc)
            && (out == Ready <==> forall i :: 0 <= i < s.inputCount && Asked(s.inputs[i]) ==> Granted(a, ccc, i))
            && (forall i :: 0 <= i < s.inputCount ==> t.inputs[i] == Settled(s.inputs[i], Granted(a, ccc, i)))
            && (forall i :: i in t.confirmed <==> (i in s.confirmed ||
                  (0 <= i < s.inputCount && Asked(s.inputs[i]) && Granted(a, ccc, i))))
  {
    var s0 := s.(subIndex := 0);
    PassEnds(s0, a, ccc);
    SettlesEach(s0, a, ccc);
    var t := Settle(s0, a, ccc);
    forall i | 0 <= i < s.inputCount
      ensures (Wanted(t.inputs[i]) ==> t.inputs[i].subscribed) <==> (Asked(s.inputs[i]) ==> Granted(a, ccc, i))
    {
      assert t.inputs[i] == Settled(s.inputs[i], Granted(a, ccc, i));
    }
  }

  // ------------------------------------------------------------------ the whole pipeline

  /** Discovery of one HID service from the first characteristic to the end of the
      subscription pass, the stack answering as given. */
  function BringUp(sub: nat, cs: seq<Attr>, ds: seq<Attr>, a: Answers,
                   data: nat -> Option<(byte, byte)>, ccc: nat -> int)
    : (Session, Outcome)
  {
    RunPass(SubscribeAll(Referenced(sub, cs, ds, a, data), a), a, ccc)
  }

  /** The session when descriptor discovery starts. */
  function Described(sub: nat, cs: seq<Attr>): (s: Session)
    ensures Shape(s)
  {
    AddChars(COLD.(subIndex := sub, disc := HidsChars, op := Discovering), cs).(disc := Desc)
  }

  /** For a well laid out service with one to four notifying reports whose references can be
      read, every report ends up with its own CCC, id and type, and the HOG is declared ready
      exactly when every keyboard or consumer input accepted its subscription. */
  lemma BringUpOutcome(sub: nat, cs: seq<Attr>, ds: seq<Attr>, a: Answers,
                       data: nat -> Option<(byte, byte)>, ccc: nat -> int, cccs: seq<nat>, refs: seq<nat>)
    requires var n := |Notifying(cs)|; 0 < n <= MAX_INPUT_REPORTS
    requires WellLaidOut(Described(sub, cs), ds, cccs, refs)
    requires forall i :: 0 <= i < |Notifying(cs)| ==> a.read(i) == 0 && data(i).Some?
    ensures var ns := Notifying(cs);
            var (t, out) := BringUp(sub, cs, ds, a, data, ccc);
            && Shape(t) && t.inputCount == |ns| == |cccs|
            && (forall i :: 0 <= i < |ns| ==>
                  t.inputs[i] == BroughtUp(ns[i], cccs[i], data(i).value, Granted(a, ccc, i)))
            && (t.disc == Done <==> out == Ready)
            && (out == Ready <==> forall i :: 0 <= i < |ns| && Wanted(t.inputs[i]) ==> Granted(a, ccc, i))
  {
    var s4 := Referenced(sub, cs, ds, a, data);
    References(sub, cs, ds, a, data, cccs, refs);
    PassFromScratch(s4, a, ccc);
  }

  /** A pass over inputs that are not subscribed and know their CCC. */
  lemma PassFromScratch(s: Session, a: Answers, ccc: nat -> int)
    requires Shape(s) && s.writing == {} && s.disc != Done
    requires forall i :: 0 <= i < s.inputCount ==> s.inputs[i].cccHandle != 0 && !s.inputs[i].subscribed
    ensures var (t, out) := RunPass(SubscribeAll(s, a), a, ccc);
            && Shape(t) && t.inputCount == s.inputCount
            && (forall i :: 0 <= i < s.inputCount ==>
                  t.inputs[i] == s.inputs[i].(subscribed := Wanted(s.inputs[i]) && Granted(a, ccc, i)))
            && (t.disc == Done <==> out == Ready)
            && (out == Ready <==> forall i :: 0 <= i < s.inputCount && Wanted(s.inputs[i]) ==> Granted(a, ccc, i))
  {
    PassOutcome(s, a, ccc);
    assert forall i :: 0 <= i < s.inputCount ==> Asked(s.inputs[i]) == Wanted(s.inputs[i]);
  }

  /** The session when the subscription pass starts. */
  function Referenced(sub: nat, cs: seq<Attr>, ds: seq<Attr>, a: Answers,
                      data: nat -> Option<(byte, byte)>): (s: Session)
    ensures Shape(s)
  {
    Identify(AddDescs(Described(sub, cs), ds).(op := NoOp, descIndex := 0), a, data).(subIndex := 0)
  }

  lemma References(sub: nat, cs: seq<Attr>, ds: seq<Attr>, a: Answers, data: nat -> Option<(byte, byte)>,
                   cccs: seq<nat>, refs: seq<nat>)
    requires |Notifying(cs)| <= MAX_INPUT_REPORTS
    requires WellLaidOut(Described(sub, cs), ds, cccs, refs)
    requires forall i :: 0 <= i < |Notifying(cs)| ==> a.read(i) == 0 && data(i).Some?
    ensures var ns, s := Notifying(cs), Referenced(sub, cs, ds, a, data);
            && s.inputCount == |ns| == |cccs| && s.disc == Desc && s.writing == {} && s.subIndex == 0
            && forall i :: 0 <= i < |ns| ==>
                 cccs[i] != 0 &&
                 s.inputs[i] == Input(ns[i].valueHandle, cccs[i], data(i).value.0, data(i).value.1, false)
  {
    var s0 := COLD.(subIndex := sub, disc := HidsChars, op := Discovering);
    CharsCollected(s0, cs);
    QuietChars(s0, cs);
    var s1 := Described(sub, cs);
    QuietDescs(s1, ds);
    IdentifiesEach(AddDescs(s1, ds).(op := NoOp, descIndex := 0), a, data);
    forall i | 0 <= i < |Notifying(cs)|
      ensures Referenced(sub, cs, ds, a, data).inputs[i]
           == Input(Notifying(cs)[i].valueHandle, cccs[i], data(i).value.0, data(i).value.1, false)
      ensures cccs[i] != 0
    {
      Found(s1, ds, cccs, refs, i);
    }
  }

  function BroughtUp(at: Attr, ccc: nat, id: (byte, byte), granted: bool): Input {
    var x := Input(at.valueHandle, ccc, id.0, id.1, false);
    x.(subscribed := Wanted(x) && granted)
  }

  lemma Found(s: Session, ds: seq<Attr>, ccc: seq<nat>, refs: seq<nat>, i: nat)
    requires Shape(s) && WellLaidOut(s, ds, ccc, refs) && i < s.inputCount
    ensures var t := AddDescs(s, ds);
            t.inputs[i] == s.inputs[i].(cccHandle := ccc[i]) && t.refs[i] == refs[i] != 0 && ccc[i] != 0
  {
    DiscoveryFindsOwners(s, ds, ccc, refs);
    assert AddDescs(s, ds).inputs[i].(cccHandle := 0) == s.inputs[i].(cccHandle := 0);
    assert OnlyOne(s, i, Ccc, ds, ccc[i]) && OnlyOne(s, i, ReportRef, ds, refs[i]);
  }

  lemma {:induction false} QuietDescs(s: Session, ds: seq<Attr>)
    requires Shape(s)
    ensures var t := AddDescs(s, ds); t.writing == s.writing && t.disc == s.disc && t.op == s.op
  {
    if ds == [] {
    } else {
      QuietDescs(s, ds[..|ds| - 1]);
    }
  }

  lemma {:induction false} QuietChars(s: Session, cs: seq<Attr>)
    requires Shape(s)
    ensures var t := AddChars(s, cs); t.writing == s.writing && t.disc == s.disc && t.op == s.op
  {
    if cs == [] {
    } else {
      QuietChars(s, cs[..|cs| - 1]);
    }
  }

  /** discover_func called with one attribute after another. */
  function Attrs(s: Session, ats: seq<Attr>, a: Answers): (r: Session)
    requires Shape(s)
    ensures Shape(r)
  {
    if ats == [] then s else DiscoverAttr(Attrs(s, ats[..|ats| - 1], a), ats[|ats| - 1], a)
  }

  lemma {:induction false} AttrsByPhase(s: Session, ats: seq<Attr>, a: Answers)
    requires Shape(s)
    ensures s.disc == HidsChars ==> Attrs(s, ats, a) == AddChars(s, ats)
    ensures s.disc == Desc ==> Attrs(s, ats, a) == AddDescs(s, ats)
  {
    if ats == [] {
    } else {
      AttrsByPhase(s, ats[..|ats| - 1], a);
      QuietChars(s, ats[..|ats| - 1]);
      QuietDescs(s, ats[..|ats| - 1]);
    }
  }

  /** BringUp is what the callbacks do: the service, its characteristics, the end of that
      phase, the descriptors, the end of that phase, then reads and CCC writes answered. */
  lemma CallbacksBringUp(s: Session, sub: nat, service: Attr, cs: seq<Attr>, ds: seq<Attr>, a: Answers,
                         data: nat -> Option<(byte, byte)>, ccc: nat -> int, cccs: seq<nat>, refs: seq<nat>)
    requires Shape(s) && s.subIndex == sub && a.discover == 0
    requires 0 < |Notifying(cs)| <= MAX_INPUT_REPORTS
    requires WellLaidOut(Described(sub, cs), ds, cccs, refs)
    ensures var s1 := Attrs(DiscoverAttr(StartDiscovery(s, a), service, a), cs, a);
            var s2 := Attrs(DiscoverEnd(s1, a).0, ds, a);
            RunPass(RunReads(DiscoverEnd(s2, a), a, data).0, a, ccc) == BringUp(sub, cs, ds, a, data, ccc)
  {
    var s0 := COLD.(subIndex := sub, disc := HidsChars, op := Discovering);
    assert DiscoverAttr(StartDiscovery(s, a), service, a) == s0;
    AttrsByPhase(s0, cs, a);
    CharsCollected(s0, cs);
    QuietChars(s0, cs);
    var s1 := AddChars(s0, cs);
    var d := Described(sub, cs);
    assert DiscoverEnd(s1, a).0 == d;
    AttrsByPhase(d, ds, a);
    QuietDescs(d, ds);
    Found(d, ds, cccs, refs, 0);
    var s2 := AddDescs(d, ds);
    var s3 := s2.(op := NoOp, descIndex := 0);
    assert DiscoverEnd(s2, a) == RefsThenSubscribe(s3, a);
    ReadChain(s3, a, data);
  }
}
