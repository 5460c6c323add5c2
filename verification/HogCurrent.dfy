/**
 * Runs of the HOG client in which every GATT callback answers the session it belongs to: one
 * operation outstanding at a time, and "ready" always true.
 */
module HogCurrent {
  import opened Bytes
  import opened HogSession
  import opened HogLink
  import opened HogReady

  // ------------------------------------------------------------------ sessions kept apart

  /** A GATT callback answers an operation the current session has outstanding. */
  predicate Current(s: Session, ev: Event) {
    match ev
    case AttrFound(_) => s.op == Discovering && (s.disc == HidsSvc || s.disc == HidsChars || s.disc == Desc)
    case AttrEnd => s.op == Discovering && (s.disc == HidsSvc || s.disc == HidsChars || s.disc == Desc)
    case ReadRef(_) => s.op == Reading && s.disc == Desc
    case CccWritten(_, _) => s.disc == Desc
    case _ => true
  }

  predicate NoLateCallbacks(s: State, es: seq<Happening>)
    requires Shape(s.ses)
  {
    es == [] || (NoLateCallbacks(s, es[..|es| - 1]) && Current(Run(s, es[..|es| - 1]).ses, es[|es| - 1].ev))
  }

  /** At most one operation is outstanding, and a CCC write is for the input at sub_index. */
  ghost predicate OpsInv(s: Session) {
    && Shape(s)
    && (s.disc == HidsSvc || s.disc == HidsChars ==> s.writing == {})
    && (s.disc == Desc ==> s.inputCount > 0 && s.writing <= {s.subIndex})
    && (s.disc == Desc && s.writing != {} ==> s.op == NoOp && s.subIndex < s.inputCount)
    && (s.disc == Done ==> s.inputCount > 0 && s.writing == {})
  }

  lemma {:induction false} SubscribeNextKeeps(s: Session, a: Answers)
    requires Shape(s) && s.writing == {} && s.inputCount > 0 && s.disc == Desc && s.op == NoOp
    ensures var (t, out) := SubscribeNext(s, a);
            && Shape(t) && t.inputCount == s.inputCount && t.op == NoOp
            && (out.Queued? ==> t.disc == Desc && t.writing == {t.subIndex} && t.subIndex < t.inputCount)
            && (out.Ready? ==> t.disc == Done && t.writing == {})
    decreases s.inputCount - s.subIndex
  {
    if s.subIndex >= s.inputCount {
    } else {
      var k := s.subIndex;
      var s1 := Set(s, k, Fallback(s.inputs[k]));
      var next := s1.(subIndex := k + 1);
      SubscribeNextKeeps(next, a);
      SubscribeNextKeeps(Set(next, k, s1.inputs[k].(subscribed := true)).(confirmed := s.confirmed + {k}), a);
    }
  }

  lemma RefsKeep(s: Session, a: Answers)
    requires Shape(s) && s.writing == {} && s.inputCount > 0 && s.disc == Desc && s.op == NoOp
    ensures var r := RefsThenSubscribe(s, a); !r.1.Incomplete? ==> OpsInv(r.0)
  {
    NextRefFlags(s, a);
    var (t, reading) := NextRef(s, a);
    if !reading {
      SubscribeNextKeeps(t.(subIndex := 0), a);
    }
  }

  lemma EndKeeps(s: Session, a: Answers)
    requires OpsInv(s) && Current(s, AttrEnd)
    ensures var r := DiscoverEnd(s, a); !r.1.Incomplete? ==> OpsInv(r.0)
  {
    if s.disc == Desc {
      var s0 := s.(op := NoOp, descIndex := 0);
      if exists i :: 0 <= i < s.inputCount && s.refs[i] != 0 {
        RefsKeep(s0, a);
      } else {
        var s1 := Set(s0, 0, s.inputs[0].(reportId := REPORT_ID_KEYBOARD, reportType := HIDS_INPUT));
        SubscribeNextKeeps(s1.(subIndex := 0), a);
      }
    }
  }

  lemma ReadKeeps(s: Session, data: Option<(byte, byte)>, a: Answers)
    requires OpsInv(s) && Current(s, ReadRef(data))
    ensures var r := ReadDone(s, data, a); !r.1.Incomplete? ==> OpsInv(r.0)
  {
    RefsKeep(ReadStored(s, data).(descIndex := s.descIndex + 1), a);
  }

  lemma CccKeeps(s: Session, k: nat, err: int, a: Answers)
    requires OpsInv(s) && Current(s, CccWritten(k, err)) && k in s.writing
    ensures var r := CccDone(s, k, err, a); !r.1.Incomplete? ==> OpsInv(r.0)
  {
    assert k == s.subIndex;
    var s1 := CccStored(s, k, err).(subIndex := s.subIndex + 1);
    assert s1.writing == {};
    SubscribeNextKeeps(s1, a);
  }

  lemma AttrKeeps(s: Session, at: Attr, a: Answers)
    requires OpsInv(s) && Current(s, AttrFound(at))
    ensures OpsInv(DiscoverAttr(s, at, a))
  {
  }

  lemma ClearedKeeps(s: Session, a: Answers)
    requires Shape(s)
    ensures OpsInv(Cleared(s)) && OpsInv(StartDiscovery(s, a))
  {
  }

  lemma OutsideKeeps(s: Session, t: Session, a: Answers)
    requires OpsInv(s) && Outside(s, t, a)
    ensures OpsInv(t)
  {
    ClearedKeeps(s, a);
    ClearedKeeps(Dropped(s), a);
    ClearedKeeps(Cleared(s), a);
  }

  lemma AfterKeeps(s: State, r: (Session, Outcome), e: Env)
    requires Shape(r.0) && (!r.1.Incomplete? ==> OpsInv(r.0))
    ensures OpsInv(After(s, r, e).ses)
  {
    ClearedKeeps(r.0, e.gatt);
  }

  lemma StepKeepsOps(s: State, ev: Event, e: Env)
    requires Shape(s.ses) && OpsInv(s.ses) && Current(s.ses, ev)
    ensures OpsInv(Step(s, ev, e).ses)
  {
    hide DiscoverAttr, DiscoverEnd, ReadDone, CccDone, StartDiscovery, Cleared, After;
    hide OnConnected, OnDisconnected, OnSecurity, OnDevice, OnTick, OnReady, OpsInv;
    match ev
    case AttrFound(at) => AttrKeeps(s.ses, at, e.gatt);
    case AttrEnd => EndKeeps(s.ses, e.gatt); AfterKeeps(s, DiscoverEnd(s.ses, e.gatt), e);
    case ReadRef(data) => ReadKeeps(s.ses, data, e.gatt); AfterKeeps(s, ReadDone(s.ses, data, e.gatt), e);
    case CccWritten(k, err) =>
      if k in s.ses.writing {
        CccKeeps(s.ses, k, err, e.gatt);
        AfterKeeps(s, CccDone(s.ses, k, err, e.gatt), e);
      }
    case _ =>
      LinkEvents(s, ev, e);
      OutsideKeeps(s.ses, Step(s, ev, e).ses, e.gatt);
  }

  lemma {:induction false} OpsHold(es: seq<Happening>)
    requires NoLateCallbacks(BOOTED, es)
    ensures OpsInv(Run(BOOTED, es).ses)
  {
    hide Step;
    if es == [] {
    } else {
      OpsHold(es[..|es| - 1]);
      StepKeepsOps(Run(BOOTED, es[..|es| - 1]), es[|es| - 1].ev, es[|es| - 1].env);
    }
  }

  /** A callback that answers the current session is never booked wrongly. */
  lemma CurrentBooksRight(s: Session, ev: Event, a: Answers)
    requires OpsInv(s) && Current(s, ev)
    ensures !Misleads(s, ev, a)
  {
    hide CccStored, Reread, Verdict;
  }

  lemma {:induction false} CurrentNeverMisleads(es: seq<Happening>)
    requires NoLateCallbacks(BOOTED, es)
    ensures NeverMisled(BOOTED, es)
  {
    if es == [] {
    } else {
      hide Step, Misleads, Current;
      var init := es[..|es| - 1];
      CurrentNeverMisleads(init);
      OpsHold(init);
      CurrentBooksRight(Run(BOOTED, init).ses, es[|es| - 1].ev, es[|es| - 1].env.gatt);
    }
  }

  /** In every run whose GATT callbacks all answer the current session, ready means that some
      input is known and each one wanted had its CCC write confirmed. */
  lemma CurrentRunsAreSound(es: seq<Happening>)
    requires NoLateCallbacks(BOOTED, es)
    ensures var s := Run(BOOTED, es).ses;
            s.disc == Done ==> s.inputCount > 0 && Shape(s) && WantedConfirmed(s)
  {
    hide OpsInv;
    OpsHold(es);
    CurrentNeverMisleads(es);
    ReadyIsSound(es);
    OpsGiveInput(Run(BOOTED, es).ses);
  }

  lemma OpsGiveInput(s: Session)
    requires OpsInv(s)
    ensures s.disc == Done ==> s.inputCount > 0
  {
  }
}
