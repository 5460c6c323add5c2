/**
 * The link side of dongle_bridge/src/ble_hog_central.c: the one connection pointer, the
 * scan, the soft and hard resets and the reconnect tick, as functions of the statics.
 *
 * Each stack callback and each run of the reconnect work is one atomic step.  A run is any
 * sequence of events.  A tick nobody scheduled, a bt_enable callback nobody asked for and a CCC
 * callback of a zeroed subscription change nothing; advertisements, connection events, found
 * attributes and read answers are over-approximated: they may come at any time.
 */
module HogLink {
  import opened Bytes
  import opened HogSession

  const ENOMEM: int := 12
  const EAGAIN: int := 11
  const SOFT_RESET_EVERY: nat := 3
  const HARD_RESET_EVERY: nat := 9
  const HOG_STALL_TICKS: nat := 4
  const STACK_DOWN_RETRY_TICKS: nat := 6
  const HARD_BACKOFF_MAX_SHIFT: nat := 4

  datatype Ladder = Ladder(
    attempts: nat,      // uint8_t reconnect_attempts
    stall: nat,         // uint8_t hog_stall_ticks
    stackDown: nat,     // uint8_t stack_down_ticks
    hardCount: nat,     // uint8_t hard_reset_count
    sinceHard: nat)     // uint16_t ticks_since_hard

  datatype State = State(
    ses: Session,
    conn: Option<nat>,        // default_conn
    scanning: bool,
    stackReady: bool,
    lad: Ladder,
    // what the rest of the system holds
    tick: bool,               // reconnect_work is scheduled
    enabling: nat,            // bt_enable calls whose bt_ready has not run yet
    held: map<nat, int>)      // connection references taken and not given back

  /** Everything the stack answers during one step.  `live` is conn_is_live(default_conn):
      it cannot change within a step. */
  datatype Env = Env(live: bool, scan: int, create: int, conn: nat, enable: int, gatt: Answers)

  datatype Event =
    | Connected(c: nat, err: nat)
    | Disconnected(c: nat)
    | SecurityChanged(c: nat, err: nat, level: nat)
    | DeviceFound(connectable: bool, keyboard: bool)
    | AttrFound(attr: Attr)
    | AttrEnd
    | ReadRef(data: Option<(byte, byte)>)
    | CccWritten(k: nat, werr: int)
    | Tick
    | BtReady(berr: int)

  /** bridge_ble_init after a successful bt_enable. */
  const BOOTED := State(COLD, None, false, false, Ladder(0, 0, 0, 0, 0), false, 1, map[])

  function Held(s: State, c: nat): int {
    if c in s.held then s.held[c] else 0
  }

  function Ref(s: State, c: nat): State {
    s.(held := s.held[c := Held(s, c) + 1])
  }

  function Unref(s: State): State {
    match s.conn
    case None => s
    case Some(c) => s.(held := s.held[c := Held(s, c) - 1], conn := None)
  }

  /** The pointer and its reference are untouched, or both are given up. */
  ghost predicate Keeps(s: State, t: State) {
    t.conn == s.conn && t.held == s.held
  }

  ghost predicate Drops(s: State, t: State) {
    t.conn == None && t.held == Unref(s).held
  }

  function Schedule(s: State): State {
    s.(tick := true)
  }

  function ScanStart(s: State, e: Env): (r: State)
    requires Shape(s.ses)
    ensures Shape(r.ses)
    ensures Keeps(s, r)
  {
    if e.scan != 0 && e.scan != -EALREADY then Schedule(s) else s.(scanning := true)
  }

  function SoftReset(s: State): (r: State)
    requires Shape(s.ses)
    ensures Shape(r.ses)
    ensures Drops(s, r)
  {
    var s1 := Unref(s);
    s1.(scanning := false, ses := Cleared(s.ses), lad := s.lad.(stall := 0))
  }

  function HardReset(s: State, e: Env): (r: State)
    requires Shape(s.ses)
    ensures Shape(r.ses)
    ensures Drops(s, r)
  {
    var s1 := SoftReset(s).(stackReady := false);
    if e.enable != 0 then Schedule(s1) else s1.(enabling := s1.enabling + 1)
  }

  /** A session step that ends an incomplete pass resets the link and rescans. */
  function After(s: State, r: (Session, Outcome), e: Env): (t: State)
    requires Shape(r.0)
    ensures Shape(t.ses) && (Keeps(s, t) || Drops(s, t))
  {
    var s1 := s.(ses := r.0);
    if r.1.Incomplete? then ScanStart(SoftReset(s1), e) else s1
  }

  function OnConnected(s: State, c: nat, err: nat, e: Env): (r: State)
    requires Shape(s.ses)
    ensures Shape(r.ses)
    ensures Keeps(s, r) || Drops(s, r)
  {
    if err != 0 then ScanStart(if s.conn == Some(c) then Unref(s) else s, e) else s
  }

  function OnDisconnected(s: State, c: nat): (r: State)
    requires Shape(s.ses)
    ensures Shape(r.ses)
    ensures Keeps(s, r) || Drops(s, r)
  {
    if s.conn.Some? && s.conn != Some(c) then s
    else Schedule(Unref(s).(ses := Cleared(s.ses), lad := s.lad.(stall := 0), scanning := false))
  }

  function OnSecurity(s: State, c: nat, err: nat, level: nat, e: Env): (r: State)
    requires Shape(s.ses)
    ensures Shape(r.ses)
    ensures Keeps(s, r)
  {
    if err == 0 && s.conn == Some(c) && level >= 2 && s.ses.disc == Idle
    then s.(ses := StartDiscovery(s.ses, e.gatt)) else s
  }

  function OnDevice(s: State, connectable: bool, keyboard: bool, e: Env): (r: State)
    requires Shape(s.ses)
    ensures Shape(r.ses)
  {
    if s.conn.Some? && e.live then s
    else
      var s1 := if s.conn.Some? then SoftReset(s) else s;
      if !connectable || !keyboard then s1
      else
        var s2 := s1.(scanning := false);
        if e.create != 0 then
          Schedule(if e.create == -ENOMEM || e.create == -EAGAIN || e.create == -EALREADY then SoftReset(s2) else s2)
        else
          Ref(s2, e.conn).(conn := Some(e.conn), lad := s2.lad.(attempts := 0, stall := 0))
  }

  function Gap(hardCount: nat): nat {
    HARD_RESET_EVERY * (if hardCount == 0 then 1 else if hardCount == 1 then 2 else if hardCount == 2 then 4
                        else if hardCount == 3 then 8 else 16)
  }

  /** The tick while the stack is down: every sixth one tries bt_enable again. */
  function DownTick(s: State, e: Env): (r: State)
    requires Shape(s.ses)
    ensures Shape(r.ses)
    ensures Keeps(s, r)
  {
    var n := (s.lad.stackDown + 1) % 256;
    Schedule(
      if n < STACK_DOWN_RETRY_TICKS then s.(lad := s.lad.(stackDown := n))
      else
        var s1 := s.(lad := s.lad.(stackDown := 0));
        if e.enable == -EALREADY then ScanStart(s1.(stackReady := true, scanning := false), e)
        else if e.enable != 0 then s1
        else s1.(enabling := s1.enabling + 1))
  }

  /** The tick with a live connection: healthy once discovery is done, stalling before. */
  function LiveTick(s: State, e: Env): (r: State)
    requires Shape(s.ses)
    ensures Shape(r.ses)
    ensures Keeps(s, r) || Drops(s, r)
  {
    Schedule(
      if s.ses.disc == Done then s.(lad := s.lad.(stall := 0, attempts := 0, hardCount := 0, sinceHard := 0))
      else
        var n := (s.lad.stall + 1) % 256;
        if n >= HOG_STALL_TICKS then ScanStart(SoftReset(s), e) else s.(lad := s.lad.(stall := n)))
  }

  function Counted(l: Ladder): Ladder {
    l.(stall := 0, attempts := (l.attempts + 1) % 256, sinceHard := (l.sinceHard + 1) % U16)
  }

  predicate HardDue(l: Ladder) {
    Counted(l).sinceHard >= Gap(l.hardCount) % U16
  }

  function Escalated(s: State): State {
    s.(lad := s.lad.(sinceHard := 0,
                     hardCount := if s.lad.hardCount < U8_MAX then s.lad.hardCount + 1 else s.lad.hardCount))
  }

  /** The tick with no connection: hard reset when due, else the odd soft reset, else scan. */
  function IdleTick(s: State, e: Env): (r: State)
    requires Shape(s.ses)
    ensures Shape(r.ses)
    ensures Keeps(s, r) || Drops(s, r)
  {
    var l := Counted(s.lad);
    var s1 := s.(lad := l);
    if HardDue(s.lad) then
      HardReset(Escalated(s1), e)
    else if l.hardCount == 0 && l.attempts % SOFT_RESET_EVERY == 0 then
      Schedule(ScanStart(SoftReset(s1), e))
    else Schedule(if s.scanning then s1 else ScanStart(s1, e))
  }

  function DropZombie(s: State, e: Env): (r: State)
    requires Shape(s.ses)
    ensures Shape(r.ses)
    ensures Keeps(s, r) || Drops(s, r)
  {
    if s.conn.Some? && !e.live then
      Unref(s).(ses := Dropped(s.ses), lad := s.lad.(stall := 0))
    else s
  }

  function OnTick(s: State, e: Env): (r: State)
    requires Shape(s.ses)
    ensures Shape(r.ses)
    ensures Keeps(s, r) || Drops(s, r)
  {
    var s := s.(tick := false);
    if !s.stackReady then DownTick(s, e)
    else
      var s1 := DropZombie(s.(lad := s.lad.(stackDown := 0)), e);
      if s1.conn.Some? then LiveTick(s1, e) else IdleTick(s1, e)
  }

  function OnReady(s: State, err: int, e: Env): (r: State)
    requires Shape(s.ses)
    ensures Shape(r.ses)
    ensures Keeps(s, r)
  {
    var s := s.(enabling := if s.enabling > 0 then s.enabling - 1 else 0);
    if err != 0 then Schedule(s.(stackReady := false))
    else Schedule(ScanStart(s.(stackReady := true, scanning := false,
                               lad := s.lad.(stackDown := 0, attempts := 0, stall := 0)), e))
  }

  function Step(s: State, ev: Event, e: Env): (r: State)
    requires Shape(s.ses)
    ensures Shape(r.ses)
  {
    match ev
    case Connected(c, err) => OnConnected(s, c, err, e)
    case Disconnected(c) => OnDisconnected(s, c)
    case SecurityChanged(c, err, level) => OnSecurity(s, c, err, level, e)
    case DeviceFound(connectable, keyboard) => OnDevice(s, connectable, keyboard, e)
    case AttrFound(at) => s.(ses := DiscoverAttr(s.ses, at, e.gatt))
    case AttrEnd => After(s, DiscoverEnd(s.ses, e.gatt), e)
    case ReadRef(data) => After(s, ReadDone(s.ses, data, e.gatt), e)
    case CccWritten(k, err) => if k in s.ses.writing then After(s, CccDone(s.ses, k, err, e.gatt), e) else s
    case Tick => if s.tick then OnTick(s, e) else s
    case BtReady(err) => if s.enabling > 0 then OnReady(s, err, e) else s
  }

  datatype Happening = Happening(ev: Event, env: Env)

  function Run(s: State, es: seq<Happening>): (r: State)
    requires Shape(s.ses)
    ensures Shape(r.ses)
  {
    if es == [] then s
    else
      var t := Run(s, es[..|es| - 1]);
      Step(t, es[|es| - 1].ev, es[|es| - 1].env)
  }
}
