/**
 * config/boards/nocfree/nocfree/src/split_backlight_sync.c: the central half mirrors its
 * backlight to the peripherals over a transport that accepts commands and loses them while a
 * link is down.
 */
module BacklightSync {
  import opened Bytes

  datatype Light = Light(on: bool, brt: byte)

  datatype Cmd = Off | On | Set(brt: byte)

  /** One peripheral; `raised` counts the status events of its link the listener has not seen. */
  datatype Link = Link(up: bool, inFlight: seq<Cmd>, light: Light, raised: nat)

  /** have_last, last_on, last_brt */
  datatype Memory = Memory(have: bool, on: bool, brt: byte)

  datatype State = State(central: Light, last: Memory, links: seq<Link>)

  /** Whether the transport takes the first and the second command of a push. */
  datatype Answer = Answer(first: bool, second: bool)

  datatype Event =
    | CentralChange(light: Light)
    | LinkDown(p: nat)
    | LinkUp(p: nat)
    | Lose(p: nat, i: nat)               // a command dropped, only while its link is down
    | Deliver(p: nat)                    // the oldest command reaches the peripheral
    | Status(p: nat)                     // sync_peripheral_status_listener
    | Poll(answers: seq<Answer>)         // sync_work_handler

  // ------------------------------------------------------------------ the peripheral

  /** ON restores the own level, SET pins the level. */
  function Apply(c: Cmd, l: Light): Light {
    match c
    case Off => l.(on := false)
    case On => l.(on := true)
    case Set(b) => l.(brt := b)
  }

  /** The light once everything in flight has arrived. */
  function Settle(cmds: seq<Cmd>, l: Light): Light {
    if cmds == [] then l else Settle(cmds[1..], Apply(cmds[0], l))
  }

  function Settled(k: Link): Light {
    Settle(k.inFlight, k.light)
  }

  /** Same on/off, and when on the same brightness. */
  predicate Agrees(l: Light, on: bool, brt: byte) {
    l.on == on && (on ==> l.brt == brt)
  }

  // ------------------------------------------------------------------ the poll

  predicate Changed(c: Light, m: Memory) {
    !m.have || c.on != m.on || (c.on && c.brt != m.brt)
  }

  /** The commands of one push that the transport took, and whether it took them all. */
  function Taken(c: Light, a: Answer): seq<Cmd> {
    if !a.first then []
    else if !c.on then [Off]
    else if a.second then [On, Set(c.brt)] else [On]
  }

  predicate TookAll(c: Light, a: Answer) {
    a.first && (c.on ==> a.second)
  }

  /** The answer to the push to peripheral i; a list that is too short stands for success. */
  function AnswerFor(answers: seq<Answer>, i: nat): Answer {
    if i < |answers| then answers[i] else Answer(true, true)
  }

  predicate AllTook(c: Light, answers: seq<Answer>, n: nat) {
    forall i :: 0 <= i < n ==> TookAll(c, AnswerFor(answers, i))
  }

  function PushLink(k: Link, c: Light, a: Answer): Link {
    k.(inFlight := k.inFlight + Taken(c, a))
  }

  function PollStep(s: State, answers: seq<Answer>): State {
    if !Changed(s.central, s.last) then s
    else
      var ok := AllTook(s.central, answers, |s.links|);
      s.(links := seq(|s.links|, i requires 0 <= i < |s.links| =>
                    PushLink(s.links[i], s.central, AnswerFor(answers, i))),
         last := if ok then Memory(true, s.central.on, s.central.brt) else s.last)
  }

  /** A poll is silent exactly when a push is remembered and shows what the central shows: a level
      changed in the dark is not pushed.  Otherwise every peripheral is handed the central's state. */
  lemma SilentExactly(s: State, answers: seq<Answer>, p: nat)
    requires p < |s.links|
    ensures var t, q := PollStep(s, answers), s.links[p].inFlight;
            if s.last.have && Agrees(s.central, s.last.on, s.last.brt) then t == s
            else t.links[p].inFlight == q + Taken(s.central, AnswerFor(answers, p))
  {
  }

  // ------------------------------------------------------------------ steps and runs

  predicate Enabled(s: State, e: Event) {
    match e
    case CentralChange(_) => true
    case LinkDown(p) => p < |s.links| && s.links[p].up
    case LinkUp(p) => p < |s.links| && !s.links[p].up
    case Lose(p, i) => p < |s.links| && !s.links[p].up && i < |s.links[p].inFlight|
    case Deliver(p) => p < |s.links| && s.links[p].up && s.links[p].inFlight != []
    case Status(p) => p < |s.links| && s.links[p].raised > 0
    case Poll(_) => true
  }

  /** A step that is not enabled changes nothing. */
  function Step(s: State, e: Event): (t: State)
    ensures |t.links| == |s.links|
  {
    if !Enabled(s, e) then s
    else
      match e
      case CentralChange(light) => s.(central := light)
      case LinkDown(p) => var k := s.links[p]; s.(links := s.links[p := k.(up := false, raised := k.raised + 1)])
      case LinkUp(p) => var k := s.links[p]; s.(links := s.links[p := k.(up := true, raised := k.raised + 1)])
      case Lose(p, i) =>
        var k := s.links[p];
        s.(links := s.links[p := k.(inFlight := k.inFlight[..i] + k.inFlight[i + 1..])])
      case Deliver(p) => s.(links := s.links[p := Arrive(s.links[p])])
      case Status(p) =>
        var k := s.links[p];
        s.(links := s.links[p := k.(raised := k.raised - 1)], last := s.last.(have := false))
      case Poll(answers) => PollStep(s, answers)
  }

  /** Each drop and each return of a link raises one status event; each one delivered is used up and
      makes the next poll push, whatever was remembered. */
  lemma StatusExactly(s: State, e: Event, p: nat)
    requires p < |s.links|
    ensures var k, t := s.links[p], Step(s, e);
            && t.links[p].up == (if e == LinkDown(p) then false else k.up || e == LinkUp(p))
            && t.links[p].raised == k.raised + (if e == (if k.up then LinkDown(p) else LinkUp(p)) then 1 else 0)
                                             - (if e == Status(p) && k.raised > 0 then 1 else 0)
            && (e == Status(p) && k.raised > 0 ==> Changed(t.central, t.last))
  {
  }

  function Arrive(k: Link): (r: Link)
    requires k.inFlight != []
    ensures Settled(r) == Settled(k)
  {
    k.(inFlight := k.inFlight[1..], light := Apply(k.inFlight[0], k.light))
  }

  function Run(s: State, es: seq<Event>): (t: State)
    ensures |t.links| == |s.links|
  {
    if es == [] then s else Step(Run(s, es[..|es| - 1]), es[|es| - 1])
  }

  lemma {:induction false} RunConcat(s: State, es: seq<Event>, fs: seq<Event>)
    ensures Run(s, es + fs) == Run(Run(s, es), fs)
  {
    if fs == [] {
      assert es + fs == es;
    } else {
      assert (es + fs)[..|es + fs| - 1] == es + fs[..|fs| - 1];
      RunConcat(s, es, fs[..|fs| - 1]);
    }
  }

  // ------------------------------------------------------------------ what the central sent

  /** The commands one step hands to the transport for peripheral `p`, as far as it takes them. */
  function Handed(s: State, e: Event, p: nat): seq<Cmd> {
    if e.Poll? && Changed(s.central, s.last) then Taken(s.central, AnswerFor(e.answers, p)) else []
  }

  /** All the central knows of peripheral `p`: the light its accepted commands amount to. */
  function Sent(s: State, es: seq<Event>, p: nat): Light {
    if es == [] then Light(false, 0)
    else
      var init := es[..|es| - 1];
      Settle(Handed(Run(s, init), es[|es| - 1], p), Sent(s, init, p))
  }

  /** While a push is remembered, a linked peripheral with no event outstanding will be lit
      exactly when what was sent says so; its level is the one sent if it was lit at the last
      push remembered. */
  predicate Tracks(k: Link, m: Memory, sent: Light) {
    m.have && k.up && k.raised == 0 ==> Settled(k).on == sent.on && (m.on ==> Settled(k).brt == sent.brt)
  }

  /** A push the transport took in full settles on the state pushed. */
  lemma PushSettles(c: Light, a: Answer, was: Light)
    requires TookAll(c, a)
    ensures Agrees(Settle(Taken(c, a), was), c.on, c.brt)
  {
    var pin := [Set(c.brt)];
    assert pin[1..] == [] && Settle(pin, was.(on := true)) == Light(true, c.brt);
    if c.on {
      assert Taken(c, a)[1..] == pin;
    } else {
      assert Taken(c, a)[1..] == [];
    }
  }

  /** A push taken in part moves two lights that agree on on/off alike. */
  lemma TakenAlike(c: Light, a: Answer, l: Light, m: Light)
    requires l.on == m.on
    ensures Settle(Taken(c, a), l).on == Settle(Taken(c, a), m).on
    ensures l.brt == m.brt ==> Settle(Taken(c, a), l).brt == Settle(Taken(c, a), m).brt
  {
    var t := Taken(c, a);
    if |t| == 2 {
      assert t[1..] == [Set(c.brt)] && t[1..][1..] == [];
    } else if |t| == 1 {
      assert t[1..] == [];
    }
  }

  lemma {:induction false} SettleConcat(a: seq<Cmd>, b: seq<Cmd>, l: Light)
    ensures Settle(a + b, l) == Settle(b, Settle(a, l))
  {
    if a == [] {
      assert a + b == b;
    } else {
      assert (a + b)[1..] == a[1..] + b;
      SettleConcat(a[1..], b, Apply(a[0], l));
    }
  }

  lemma PollTracks(s: State, answers: seq<Answer>, p: nat, sent: Light)
    requires p < |s.links| && Tracks(s.links[p], s.last, sent)
    ensures var t := PollStep(s, answers);
            Tracks(t.links[p], t.last, Settle(Handed(s, Poll(answers), p), sent))
  {
    hide Settle, Taken, TookAll;
    var k, c, a := s.links[p], s.central, AnswerFor(answers, p);
    if Changed(c, s.last) {
      SettleConcat(k.inFlight, Taken(c, a), k.light);
      if AllTook(c, answers, |s.links|) {
        PushSettles(c, a, Settled(k));
        PushSettles(c, a, sent);
      } else if Settled(k).on == sent.on {
        TakenAlike(c, a, Settled(k), sent);
      }
    } else {
      NothingHanded(sent);
    }
  }

  lemma NothingHanded(l: Light)
    ensures Settle([], l) == l
  {
  }

  lemma StepTracks(s: State, e: Event, p: nat, sent: Light)
    requires p < |s.links| && Tracks(s.links[p], s.last, sent)
    ensures var t := Step(s, e); Tracks(t.links[p], t.last, Settle(Handed(s, e, p), sent))
  {
    hide PollStep, Settle;
    if e.Poll? {
      PollTracks(s, e.answers, p, sent);
    } else {
      NothingHanded(sent);
    }
  }

  /** The central's own record holds in every reachable state: only the state at start-up, with
      nothing remembered, is asked for; links, lights and commands in flight are arbitrary. */
  lemma {:induction false} SentIsTracked(s: State, es: seq<Event>, p: nat)
    requires !s.last.have && p < |s.links|
    ensures var t := Run(s, es); Tracks(t.links[p], t.last, Sent(s, es, p))
  {
    if es == [] {
    } else {
      hide Tracks, Step;
      var init := es[..|es| - 1];
      SentIsTracked(s, init, p);
      StepTracks(Run(s, init), es[|es| - 1], p, Sent(s, init, p));
    }
  }

  // ------------------------------------------------------------------ convergence

  function Deliveries(p: nat, n: nat): (es: seq<Event>)
    ensures |es| == n
  {
    seq(n, _ => Deliver(p))
  }

  /** Draining one channel: everything in flight arrives, nothing else changes. */
  lemma {:induction false} Drain(s: State, p: nat, n: nat)
    requires p < |s.links| && s.links[p].up
    ensures var t := Run(s, Deliveries(p, n));
            && t.central == s.central && t.last == s.last
            && t.links[p].up && Settled(t.links[p]) == Settled(s.links[p])
            && |t.links[p].inFlight| == if n < |s.links[p].inFlight| then |s.links[p].inFlight| - n else 0
  {
    if n == 0 {
    } else {
      hide Settle;
      assert Deliveries(p, n)[..n - 1] == Deliveries(p, n - 1);
      Drain(s, p, n - 1);
    }
  }

  /** Central stable, link up, every event delivered, one successful poll, channel drained: over
      every run of changes, losses, link drops and failed polls, the peripheral then shows the
      central's on/off and, when on, its brightness, exactly when the poll saw a change or what
      was sent before already amounts to the central's state.  Both can be read off the central. */
  lemma ConvergesExactly(s: State, es: seq<Event>, p: nat, answers: seq<Answer>, n: nat)
    requires !s.last.have && p < |s.links|
    requires var m := Run(s, es); m.links[p].up && m.links[p].raised == 0 && AllTook(m.central, answers, |m.links|)
    requires |Step(Run(s, es), Poll(answers)).links[p].inFlight| <= n
    ensures var t := Run(s, es + [Poll(answers)] + Deliveries(p, n)); t.links[p].inFlight == []
    ensures var m, t := Run(s, es), Run(s, es + [Poll(answers)] + Deliveries(p, n));
            Agrees(t.links[p].light, m.central.on, m.central.brt) <==>
              Changed(m.central, m.last) || Agrees(Sent(s, es, p), m.central.on, m.central.brt)
  {
    hide Agrees, AllTook, Handed, Taken, Changed;
    var m := Run(s, es);
    RunSnoc(s, es, Poll(answers));
    RunConcat(s, es + [Poll(answers)], Deliveries(p, n));
    var u := Step(m, Poll(answers));
    Drain(u, p, n);
    SentIsTracked(s, es, p);
    PollSettles(m, p, answers, Sent(s, es, p));
  }

  lemma PollSettles(s: State, p: nat, answers: seq<Answer>, sent: Light)
    requires p < |s.links| && s.links[p].up && s.links[p].raised == 0
    requires Tracks(s.links[p], s.last, sent) && AllTook(s.central, answers, |s.links|)
    ensures Agrees(Settled(PollStep(s, answers).links[p]), s.central.on, s.central.brt)
       <==> Changed(s.central, s.last) || Agrees(sent, s.central.on, s.central.brt)
  {
    hide Settle, Taken, TookAll;
    if Changed(s.central, s.last) {
      var k, a := s.links[p], AnswerFor(answers, p);
      SettleConcat(k.inFlight, Taken(s.central, a), k.light);
      PushSettles(s.central, a, Settled(k));
    }
  }

  lemma RunSnoc(s: State, es: seq<Event>, e: Event)
    ensures Run(s, es + [e]) == Step(Run(s, es), e)
  {
    assert (es + [e])[..|es|] == es;
  }

  /** The last poll that saw a change was taken in full, or no poll has seen one. */
  predicate Whole(s: State, es: seq<Event>) {
    if es == [] then true
    else
      var init, e := es[..|es| - 1], es[|es| - 1];
      var m := Run(s, init);
      if e.Poll? && Changed(m.central, m.last) then AllTook(m.central, e.answers, |m.links|) else Whole(s, init)
  }

  lemma {:induction false} WholeSentLast(s: State, es: seq<Event>, p: nat)
    requires !s.last.have && p < |s.links| && Whole(s, es) && Run(s, es).last.have
    ensures Agrees(Sent(s, es, p), Run(s, es).last.on, Run(s, es).last.brt)
  {
    if es == [] {
    } else {
      hide Settle, Taken, TookAll, Agrees;
      var init, e := es[..|es| - 1], es[|es| - 1];
      var m := Run(s, init);
      if e.Poll? && Changed(m.central, m.last) {
        PushSettles(m.central, AnswerFor(e.answers, p), Sent(s, init, p));
      } else {
        NothingHanded(Sent(s, init, p));
        WholeSentLast(s, init, p);
      }
    }
  }

  /** Clean means in step: while the last push was taken in full and is remembered, a linked
      peripheral with no event outstanding will show exactly what was pushed. */
  lemma CleanMeansInStep(s: State, es: seq<Event>, p: nat)
    requires !s.last.have && p < |s.links| && Whole(s, es)
    ensures var m := Run(s, es);
            m.last.have && m.links[p].up && m.links[p].raised == 0 ==>
              Agrees(Settled(m.links[p]), m.last.on, m.last.brt)
  {
    SentIsTracked(s, es, p);
    if Run(s, es).last.have { WholeSentLast(s, es, p); }
  }

  /** The promise of the design: unless the last push was taken only in part, the peripheral
      ends up showing the central's state. */
  lemma Converges(s: State, es: seq<Event>, p: nat, answers: seq<Answer>, n: nat)
    requires !s.last.have && p < |s.links| && Whole(s, es)
    requires var m := Run(s, es); m.links[p].up && m.links[p].raised == 0 && AllTook(m.central, answers, |m.links|)
    requires |Step(Run(s, es), Poll(answers)).links[p].inFlight| <= n
    ensures var m, t := Run(s, es), Run(s, es + [Poll(answers)] + Deliveries(p, n));
            t.links[p].inFlight == [] && Agrees(t.links[p].light, m.central.on, m.central.brt)
  {
    var m := Run(s, es);
    ConvergesExactly(s, es, p, answers, n);
    if !Changed(m.central, m.last) {
      WholeSentLast(s, es, p);
    }
  }

  lemma OneStep(s: State, e: Event)
    ensures Run(s, [e]) == Step(s, e)
  {
    assert [e][..0] == [];
    assert Run(s, []) == s;
  }

  // ------------------------------------------------------------------ afterwards

  /** Nothing but polls and deliveries. */
  predicate Quiet(e: Event) {
    e.Poll? || e.Deliver?
  }

  lemma QuietStep(s: State, e: Event, p: nat)
    requires p < |s.links| && Quiet(e) && !Changed(s.central, s.last)
    ensures var t := Step(s, e);
            t.central == s.central && t.last == s.last && Settled(t.links[p]) == Settled(s.links[p])
  {
    hide Settled, PushLink, AllTook;
  }

  /** With nothing changed the polls are silent, so whether a peripheral ends in step was
      settled before: in step it stays, and out of step it stays out for good. */
  lemma {:induction false} QuietChangesNothing(s: State, es: seq<Event>, p: nat)
    requires p < |s.links| && !Changed(s.central, s.last)
    requires forall i :: 0 <= i < |es| ==> Quiet(es[i])
    ensures var t := Run(s, es);
            t.central == s.central && t.last == s.last && Settled(t.links[p]) == Settled(s.links[p])
  {
    if es == [] {
    } else {
      hide Settled, Step, Changed;
      QuietChangesNothing(s, es[..|es| - 1], p);
      QuietStep(Run(s, es[..|es| - 1]), es[|es| - 1], p);
    }
  }

  /** A peripheral can be left out of step with nothing left to notice it: dark was pushed, the
      next poll got ON through and not the level, and the central went dark again. */
  lemma RevertedPushSticks(es: seq<Event>) returns (s: State, before: seq<Event>)
    requires forall i :: 0 <= i < |es| ==> Quiet(es[i])
    ensures !s.last.have
    ensures var t := Run(s, before + es);
            && |t.links| == 1 && t.links[0].up && t.links[0].raised == 0
            && !t.central.on && Settled(t.links[0]).on
  {
    s := State(Light(false, 80), Memory(false, false, 0), [Link(true, [], Light(false, 30), 0)]);
    var bright := Light(true, 80);
    var e0, e1, e2, e3 := Poll([]), CentralChange(bright), Poll([Answer(true, false)]), CentralChange(s.central);
    before := [e0, e1, e2, e3];
    var s0 := Step(s, e0);
    assert s0.links[0].inFlight == [Off] && s0.last == Memory(true, false, 80);
    var s1 := Step(s0, e1);
    assert !TookAll(bright, AnswerFor([Answer(true, false)], 0));
    var s2 := Step(s1, e2);
    assert s2.links[0].inFlight == [Off, On] && s2.last == s0.last;
    var s3 := Step(s2, e3);
    RunFour(s, e0, e1, e2, e3);
    assert Settle([Off, On], s3.links[0].light) == Settle([On], Light(false, 30)) == Light(true, 30);
    RunConcat(s, before, es);
    QuietChangesNothing(s3, es, 0);
    QuietKeepsLink(s3, es, 0);
  }

  lemma RunFour(s: State, e0: Event, e1: Event, e2: Event, e3: Event)
    ensures Run(s, [e0, e1, e2, e3]) == Step(Step(Step(Step(s, e0), e1), e2), e3)
  {
    hide Step;
    OneStep(s, e0);
    assert [e0, e1][..1] == [e0];
    assert Run(s, [e0, e1]) == Step(Run(s, [e0]), e1);
    assert [e0, e1, e2][..2] == [e0, e1];
    assert Run(s, [e0, e1, e2]) == Step(Run(s, [e0, e1]), e2);
    assert [e0, e1, e2, e3][..3] == [e0, e1, e2];
  }

  lemma {:induction false} QuietKeepsLink(s: State, es: seq<Event>, p: nat)
    requires p < |s.links|
    requires forall i :: 0 <= i < |es| ==> Quiet(es[i])
    ensures var k := Run(s, es).links[p]; k.up == s.links[p].up && k.raised == s.links[p].raised
  {
    if es == [] {
    } else {
      QuietKeepsLink(s, es[..|es| - 1], p);
    }
  }
}
