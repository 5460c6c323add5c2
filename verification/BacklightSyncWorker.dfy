/** The statics of split_backlight_sync.c as one object. */
module BacklightSyncWorker {
  import opened Bytes
  import B = BacklightSync

  class Worker {
    var haveLast: bool
    var lastOn: bool
    var lastBrt: byte
    var links: seq<B.Link>               // the transport, one entry a peripheral

    ghost function View(central: B.Light): B.State
      reads this
    {
      B.State(central, B.Memory(haveLast, lastOn, lastBrt), links)
    }

    constructor (links: seq<B.Link>)
      ensures !haveLast && this.links == links
    {
      haveLast, lastOn, lastBrt := false, false, 0;
      this.links := links;
    }

    /** zmk_split_central_invoke_behavior, which takes the command or refuses it. */
    method PushTo(src: nat, cmd: B.Cmd, taken: bool) returns (rc: int)
      requires src < |links|
      modifies this`links
      ensures rc == 0 <==> taken
      ensures links == if taken then old(links)[src := old(links)[src].(inFlight := old(links)[src].inFlight + [cmd])]
                       else old(links)
    {
      if taken {
        links := links[src := links[src].(inFlight := links[src].inFlight + [cmd])];
        rc := 0;
      } else {
        rc := -12;                       // -ENOMEM
      }
    }

    /** One round of the loop over the peripherals. */
    method PushState(src: nat, on: bool, brt: byte, a: B.Answer) returns (rc: int)
      requires src < |links|
      modifies this`links
      ensures rc == 0 <==> B.TookAll(B.Light(on, brt), a)
      ensures links == old(links)[src := old(links)[src].(
                inFlight := old(links)[src].inFlight + B.Taken(B.Light(on, brt), a))]
    {
      if !on {
        rc := PushTo(src, B.Off, a.first);
      } else {
        rc := PushTo(src, B.On, a.first);
        if rc == 0 { rc := PushTo(src, B.Set(brt), a.second); }
      }
      assert links[src].inFlight == old(links)[src].inFlight + B.Taken(B.Light(on, brt), a);
    }

    method SyncWork(central: B.Light, answers: seq<B.Answer>)
      modifies this
      ensures View(central) == B.PollStep(old(View(central)), answers)
    {
      var on, brt := central.on, central.brt;
      if !(!haveLast || on != lastOn || (on && brt != lastBrt)) { return; }
      ghost var was := links;
      var ok, src := true, 0;
      while src < |links|
        invariant src <= |links| == |was|
        invariant ok <==> B.AllTook(central, answers, src)
        invariant haveLast == old(haveLast) && lastOn == old(lastOn) && lastBrt == old(lastBrt)
        invariant forall i :: 0 <= i < src ==>
                    links[i] == was[i].(inFlight := was[i].inFlight + B.Taken(central, B.AnswerFor(answers, i)))
        invariant forall i :: src <= i < |links| ==> links[i] == was[i]
      {
        var rc := PushState(src, on, brt, B.AnswerFor(answers, src));
        if rc != 0 { ok := false; }
        src := src + 1;
      }
      if ok {
        haveLast, lastOn, lastBrt := true, on, brt;
      }
      assert links == B.PollStep(old(View(central)), answers).links;
    }

    /** sync_peripheral_status_listener, on the oldest event of peripheral p. */
    method OnPeripheralStatus(central: B.Light, p: nat)
      requires p < |links| && links[p].raised > 0
      modifies this`haveLast, this`links
      ensures View(central) == B.Step(old(View(central)), B.Status(p))
    {
      links := links[p := links[p].(raised := links[p].raised - 1)];
      haveLast := false;
    }
  }
}
