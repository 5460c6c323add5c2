/**
 * When "HOG ready" can be believed: over every run, late callbacks of all kinds included, what
 * disc_state == DISC_DONE says about the inputs, and exactly which steps make it say more than
 * is true.
 */
module HogReady {
  import opened Bytes
  import opened HogSession
  import opened HogLink

  // ------------------------------------------------------------------ flags and confirmations

  /** Every flag of a known input stands for a CCC write confirmed in this session. */
  ghost predicate Flags(s: Session)
    requires Shape(s)
  {
    forall i :: 0 <= i < s.inputCount && s.inputs[i].subscribed ==> i in s.confirmed
  }

  /** Every INPUT report with id 0, 1 or 2 had its write confirmed. */
  ghost predicate WantedConfirmed(s: Session)
    requires Shape(s)
  {
    forall i :: 0 <= i < s.inputCount && s.inputs[i].reportType == 1 && s.inputs[i].reportId in {0, 1, 2} ==>
      i in s.confirmed
  }

  /** In a session the flags are true, and ready means that every wanted input has its flag. */
  ghost predicate Honest(s: Session) {
    Shape(s) && (s.disc != Idle ==> Flags(s)) && (s.disc == Done ==> AllSubscribed(s))
  }

  // ------------------------------------------------------------------ how a pass ends

  /** How a pass over the inputs from `from` on ends, in terms of the inputs and the answers. */
  predicate Queues(s: Session, from: nat, a: Answers)
    requires Shape(s)
  {
    exists i :: from <= i < s.inputCount && Asked(s.inputs[i]) && a.subscribe(i) == 0
  }

  function Verdict(s: Session, from: nat, a: Answers): Outcome
    requires Shape(s)
  {
    if Queues(s, from, a) then Queued
    else if forall i :: 0 <= i < s.inputCount && Asked(s.inputs[i]) ==> i >= from && a.subscribe(i) == -EALREADY
    then Ready else Incomplete
  }

  /** One input passed without a write. */
  function Passed(s: Session, a: Answers): (t: Session)
    requires Shape(s) && s.subIndex < s.inputCount
    ensures Shape(t) && t.subIndex == s.subIndex + 1 && t.inputCount == s.inputCount && t.disc == s.disc
    ensures forall i :: 0 <= i < s.inputCount && i != s.subIndex ==> t.inputs[i] == s.inputs[i]
    ensures var k := s.subIndex;
            && Wanted(t.inputs[k]) == Wanted(s.inputs[k])
            && t.inputs[k].subscribed == (s.inputs[k].subscribed || (Asked(s.inputs[k]) && a.subscribe(k) == -EALREADY))
            && t.confirmed == if Asked(s.inputs[k]) && a.subscribe(k) == -EALREADY then s.confirmed + {k}
                              else s.confirmed
  {
    SettleOne(s, a, _ => -1)
  }

  lemma PassStep(s: Session, a: Answers)
    requires Shape(s) && s.subIndex < s.inputCount
    ensures if Writes(s, a) then
              var (t, out) := SubscribeNext(s, a);
              && out == Queued && t.disc == s.disc && t.confirmed == s.confirmed
              && (forall i :: 0 <= i < s.inputCount && i != s.subIndex ==> t.inputs[i] == s.inputs[i])
              && Asked(t.inputs[s.subIndex])
            else SubscribeNext(s, a) == SubscribeNext(Passed(s, a), a)
  {
    if !Writes(s, a) { PassesInput(s, a, _ => -1); }
  }

  /** A pass ends as Verdict says. */
  lemma {:induction false} PassVerdict(s: Session, a: Answers)
    requires Shape(s)
    ensures var (t, out) := SubscribeNext(s, a);
            out == Verdict(s, s.subIndex, a) && t.disc == if out == Ready then Done else s.disc
    decreases s.inputCount - s.subIndex
  {
    if s.subIndex >= s.inputCount {
    } else {
      hide SubscribeNext, Passed;
      PassStep(s, a);
      if !Writes(s, a) {
        PassVerdict(Passed(s, a), a);
      }
    }
  }

  /** It neither makes nor removes a false flag. */
  lemma {:induction false} PassKeepsFlags(s: Session, a: Answers)
    requires Shape(s)
    ensures Flags(SubscribeNext(s, a).0) <==> Flags(s)
    decreases s.inputCount - s.subIndex
  {
    if s.subIndex >= s.inputCount {
    } else {
      hide SubscribeNext, Passed, Wanted;
      PassStep(s, a);
      if Writes(s, a) {
        SameFlags(s, SubscribeNext(s, a).0, s.subIndex);
      } else {
        PassKeepsFlags(Passed(s, a), a);
        SameFlags(s, Passed(s, a), s.subIndex);
      }
    }
  }

  lemma SameFlags(s: Session, t: Session, k: nat)
    requires Shape(s) && Shape(t) && t.inputCount == s.inputCount && k < s.inputCount
    requires forall i :: 0 <= i < s.inputCount && i != k ==> t.inputs[i] == s.inputs[i]
    requires if t.inputs[k].subscribed == s.inputs[k].subscribed then t.confirmed == s.confirmed
             else t.inputs[k].subscribed && t.confirmed == s.confirmed + {k}
    ensures Flags(t) <==> Flags(s)
  {
    if Flags(t) {
      forall i | 0 <= i < s.inputCount && s.inputs[i].subscribed ensures i in s.confirmed {
        assert t.inputs[i].subscribed;
      }
    }
  }

  /** Ready is declared with every wanted flag up; a queued write leaves one down. */
  lemma {:induction false} PassLeaves(s: Session, a: Answers)
    requires Shape(s)
    ensures var (t, out) := SubscribeNext(s, a); AllSubscribed(t) <==> out == Ready
    decreases s.inputCount - s.subIndex
  {
    if s.subIndex >= s.inputCount {
    } else {
      hide SubscribeNext, Passed, Wanted;
      PassStep(s, a);
      if !Writes(s, a) {
        PassLeaves(Passed(s, a), a);
      }
    }
  }

  // ------------------------------------------------------------------ the callbacks that can mislead

  /** A successful write is booked on the input at sub_index, which is not the one written and
      has had no write confirmed. */
  predicate Misbooked(s: Session, k: nat, err: int) {
    err == 0 && s.subIndex < s.inputCount && k != s.subIndex && s.subIndex !in s.confirmed
  }

  /** Some known input's flag is up although no write for it has been confirmed since the
      connection was dropped. */
  predicate Leftover(s: Session)
    requires Shape(s)
  {
    exists i :: 0 <= i < s.inputCount && s.inputs[i].subscribed && i !in s.confirmed
  }

  /** The session once a delivered reference has been stored and the chain has moved on, and
      whether another read is now under way. */
  function Reread(s: Session, data: Option<(byte, byte)>, a: Answers): (r: (Session, bool))
    requires Shape(s)
    ensures Shape(r.0) && r.0.inputCount == s.inputCount
  {
    NextRef(ReadStored(s, data).(descIndex := s.descIndex + 1), a)
  }

  /**
   * The steps after which the session claims more than is true.  After a dead connection's
   * pointer was dropped (phase Idle, inputs still there): a callback that ends the old session's
   * pass, with a flag left from before the drop.  In a session: a misbooked success, unless the
   * pass then ends in a reset.  When ready: a reference that makes an input wanted that was not,
   * and leaves it waiting for a read or a write.
   */
  ghost predicate Misleads(s: Session, ev: Event, a: Answers)
    requires Shape(s)
  {
    match ev
    case CccWritten(k, err) =>
      var booked := CccStored(s, k, err);
      var verdict := Verdict(booked, s.subIndex + 1, a);
      k in s.writing &&
      if s.disc == Idle then verdict == Ready && Leftover(booked)
      else Misbooked(s, k, err) && verdict != Incomplete
    case ReadRef(data) =>
      var (t, reading) := Reread(s, data, a);
      if s.disc == Idle then !reading && Verdict(t, 0, a) == Ready && Leftover(s)
      else s.disc == Done && exists i :: 0 <= i < s.inputCount && Asked(t.inputs[i]) && (reading || a.subscribe(i) == 0)
    case _ => false
  }

  lemma BookedFlags(s: Session, k: nat, err: int)
    requires Shape(s)
    ensures CccStored(s, k, err).disc == s.disc
    ensures Flags(s) ==> (Flags(CccStored(s, k, err)) <==> !Misbooked(s, k, err))
  {
    var t := CccStored(s, k, err);
    if Flags(t) && err == 0 && s.subIndex < s.inputCount { assert t.inputs[s.subIndex].subscribed; }
  }

  /** With every flag true, the CCC callback keeps them so exactly when it is not misbooked. */
  lemma CccKeepsFlags(s: Session, k: nat, err: int, a: Answers)
    requires Shape(s) && Flags(s)
    ensures Flags(CccDone(s, k, err, a).0) <==> !Misbooked(s, k, err)
  {
    hide SubscribeNext, CccStored;
    BookedFlags(s, k, err);
    PassKeepsFlags(CccStored(s, k, err).(subIndex := s.subIndex + 1), a);
  }

  /** From an honest state a CCC callback leads to a dishonest one, or to a reset, exactly as
      Misleads says. */
  lemma CccExact(s: Session, k: nat, err: int, a: Answers)
    requires Honest(s) && k in s.writing
    ensures var (t, out) := CccDone(s, k, err, a);
            out == Incomplete || Honest(t) <==> !Misleads(s, CccWritten(k, err), a)
  {
    hide SubscribeNext, CccStored, Misbooked;
    var booked := CccStored(s, k, err);
    var next := booked.(subIndex := s.subIndex + 1);
    PassKeepsFlags(next, a);
    PassVerdict(next, a);
    PassLeaves(next, a);
    SameVerdict(booked, next, s.subIndex + 1, a);
    BookedFlags(s, k, err);
    if s.disc == Done { NothingAsked(s, k, err, a); }
  }

  lemma SameVerdict(s: Session, t: Session, from: nat, a: Answers)
    requires Shape(s) && Shape(t) && t.inputs == s.inputs && t.inputCount == s.inputCount
    ensures Verdict(t, from, a) == Verdict(s, from, a)
    ensures t.confirmed == s.confirmed ==> (Flags(t) <==> Flags(s))
  {
  }

  /** When ready, a CCC callback finds nothing left to write. */
  lemma NothingAsked(s: Session, k: nat, err: int, a: Answers)
    requires Shape(s) && AllSubscribed(s)
    ensures Verdict(CccStored(s, k, err), s.subIndex + 1, a) != Queued
  {
  }

  lemma {:induction false} NextRefFlags(s: Session, a: Answers)
    requires Shape(s)
    ensures var t := NextRef(s, a).0;
            && t.disc == s.disc && t.confirmed == s.confirmed && t.writing == s.writing
            && forall i :: 0 <= i < |s.inputs| ==> t.inputs[i].subscribed == s.inputs[i].subscribed
    decreases s.inputCount - s.descIndex
  {
    if s.descIndex >= s.inputCount {
    } else {
      NextRefFlags(Set(s, s.descIndex, Defaulted(s.inputs[s.descIndex])).(descIndex := s.descIndex + 1), a);
      NextRefFlags(s.(descIndex := s.descIndex + 1), a);
    }
  }

  lemma RereadFlags(s: Session, data: Option<(byte, byte)>, a: Answers)
    requires Shape(s)
    ensures var t := Reread(s, data, a).0; t.disc == s.disc && (Flags(t) <==> Flags(s))
  {
    hide NextRef;
    var s1 := ReadStored(s, data).(descIndex := s.descIndex + 1);
    NextRefFlags(s1, a);
    var t := NextRef(s1, a).0;
    assert forall i :: 0 <= i < s.inputCount ==> t.inputs[i].subscribed == s.inputs[i].subscribed;
  }

  lemma ReadExact(s: Session, data: Option<(byte, byte)>, a: Answers)
    requires Honest(s)
    ensures var (t, out) := ReadDone(s, data, a);
            out == Incomplete || Honest(t) <==> !Misleads(s, ReadRef(data), a)
  {
    hide SubscribeNext, NextRef, ReadStored;
    RereadFlags(s, data, a);
    var (t, reading) := Reread(s, data, a);
    if !reading {
      var t0 := t.(subIndex := 0);
      PassKeepsFlags(t0, a);
      PassVerdict(t0, a);
      PassLeaves(t0, a);
      SameVerdict(t, t0, 0, a);
    }
  }

  lemma EndStaysHonest(s: Session, a: Answers)
    requires Honest(s)
    ensures var (t, out) := DiscoverEnd(s, a); out == Incomplete || Honest(t)
  {
    hide SubscribeNext, NextRef;
    if s.disc == Desc {
      var s0 := s.(op := NoOp, descIndex := 0);
      if exists i :: 0 <= i < s.inputCount && s.refs[i] != 0 {
        NextRefFlags(s0, a);
        var t := NextRef(s0, a).0;
        assert forall i :: 0 <= i < s.inputCount ==> t.inputs[i].subscribed == s.inputs[i].subscribed;
        StartsHonest(t.(subIndex := 0), a);
      } else {
        StartsHonest(s0.(subIndex := 0), a);
        var first := s.inputs[0].(reportId := REPORT_ID_KEYBOARD, reportType := HIDS_INPUT);
        StartsHonest(Set(s0, 0, first).(subIndex := 0), a);
      }
    }
  }

  lemma StartsHonest(s: Session, a: Answers)
    requires Shape(s) && s.disc == Desc
    ensures Flags(s) ==> var (t, out) := SubscribeNext(s, a); out == Incomplete || Honest(t)
  {
    PassKeepsFlags(s, a);
    PassVerdict(s, a);
    PassLeaves(s, a);
  }

  lemma AttrStaysHonest(s: Session, at: Attr, a: Answers)
    requires Honest(s)
    ensures Honest(DiscoverAttr(s, at, a))
  {
    var t := DiscoverAttr(s, at, a);
    assert s.disc != Idle ==> forall i :: 0 <= i < t.inputCount && t.inputs[i].subscribed ==>
             i < s.inputCount && s.inputs[i].subscribed;
  }

  // ------------------------------------------------------------------ over runs

  /** What a step does to the session, when it is not a GATT callback's own work. */
  ghost predicate Outside(s: Session, t: Session, a: Answers) {
    || t == s || t == Dropped(s) || t == StartDiscovery(s, a)
    || t == Cleared(s) || t == Cleared(Dropped(s)) || t == Cleared(Cleared(s))
  }

  lemma LinkEvents(s: State, ev: Event, e: Env)
    requires Shape(s.ses)
    requires !(ev.AttrFound? || ev.AttrEnd? || ev.ReadRef? || ev.CccWritten?)
    ensures Outside(s.ses, Step(s, ev, e).ses, e.gatt)
  {
    hide Cleared, Dropped, StartDiscovery;
  }

  lemma OutsideStaysHonest(s: Session, t: Session, a: Answers)
    requires Honest(s) && Outside(s, t, a)
    ensures Honest(t)
  {
  }

  lemma AfterExact(s: State, r: (Session, Outcome), e: Env)
    requires Shape(r.0)
    ensures Honest(After(s, r, e).ses) <==> r.1 == Incomplete || Honest(r.0)
  {
  }

  /** One step: an honest session stays so exactly when the step does not mislead. */
  lemma StepExact(s: State, ev: Event, e: Env)
    requires Shape(s.ses) && Honest(s.ses)
    ensures Honest(Step(s, ev, e).ses) <==> !Misleads(s.ses, ev, e.gatt)
  {
    hide DiscoverAttr, DiscoverEnd, ReadDone, CccDone, StartDiscovery, Cleared, After, Honest, Misleads;
    hide OnConnected, OnDisconnected, OnSecurity, OnDevice, OnTick, OnReady;
    match ev
    case AttrFound(at) => AttrStaysHonest(s.ses, at, e.gatt); OthersHarmless(s.ses, ev, e.gatt);
    case AttrEnd =>
      EndStaysHonest(s.ses, e.gatt);
      AfterExact(s, DiscoverEnd(s.ses, e.gatt), e);
      OthersHarmless(s.ses, ev, e.gatt);
    case ReadRef(data) => ReadExact(s.ses, data, e.gatt); AfterExact(s, ReadDone(s.ses, data, e.gatt), e);
    case CccWritten(k, err) =>
      if k in s.ses.writing {
        CccExact(s.ses, k, err, e.gatt);
        AfterExact(s, CccDone(s.ses, k, err, e.gatt), e);
      } else {
        OthersHarmless(s.ses, ev, e.gatt);
      }
    case _ =>
      LinkEvents(s, ev, e);
      OutsideStaysHonest(s.ses, Step(s, ev, e).ses, e.gatt);
      OthersHarmless(s.ses, ev, e.gatt);
  }

  lemma OthersHarmless(s: Session, ev: Event, a: Answers)
    requires Shape(s) && !ev.ReadRef? && !(ev.CccWritten? && ev.k in s.writing)
    ensures !Misleads(s, ev, a)
  {
  }

  ghost predicate NeverMisled(s: State, es: seq<Happening>)
    requires Shape(s.ses)
  {
    es == [] || (NeverMisled(s, es[..|es| - 1]) &&
                 !Misleads(Run(s, es[..|es| - 1]).ses, es[|es| - 1].ev, es[|es| - 1].env.gatt))
  }

  ghost predicate AlwaysHonest(s: State, es: seq<Happening>)
    requires Shape(s.ses)
  {
    Honest(Run(s, es).ses) && (es == [] || AlwaysHonest(s, es[..|es| - 1]))
  }

  /** A run is honest throughout exactly when none of its steps misleads, late callbacks of all
      kinds allowed. */
  lemma {:induction false} HonestExactly(es: seq<Happening>)
    ensures AlwaysHonest(BOOTED, es) <==> NeverMisled(BOOTED, es)
  {
    if es == [] {
    } else {
      hide Step, Honest, Misleads;
      var init := es[..|es| - 1];
      HonestExactly(init);
      if AlwaysHonest(BOOTED, init) {
        StepExact(Run(BOOTED, init), es[|es| - 1].ev, es[|es| - 1].env);
      }
    }
  }

  /** In every such run, DISC_DONE means that each keyboard, consumer or unidentified input had
      its CCC write confirmed (or answered EALREADY) in this session. */
  lemma ReadyIsSound(es: seq<Happening>)
    requires NeverMisled(BOOTED, es)
    ensures var s := Run(BOOTED, es).ses; s.disc == Done ==> WantedConfirmed(s)
  {
    HonestExactly(es);
  }
}
