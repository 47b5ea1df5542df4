/** The session machine of one host, from the DNS answer to the authenticated
    connection, on values (src/pssh.c:79-393). */
module Sessions {
  import opened Base

  datatype SessStat =
    | SessError
    | SessNone
    | SessWaitResolve
    | SessResolved
    | SessWaitConn
    | SessDoneConn
    | SessWaitSess
    | SessWaitAuth
    | SessConnected

  /** The host's one libevent slot: nothing pending, an event of the session
      machine, or an event of the task with the given place in the task list. An
      event fires once and is then no longer pending. */
  datatype Slot =
    | Idle
    | SessSlot(flag: Flag)
    | TaskSlot(task: nat, flag: Flag, timed: bool)

  /** A pssh_sess_entry. `evUp` is the program's own flag, `slot` what libevent
      has pending. `trace` and `path` record the task activations on this host
      and the states it has gone through. */
  datatype Entry = Entry(
    name: string, stat: SessStat, evUp: bool, slot: Slot, evType: EvType,
    isReported: bool, started: bool, dnsPending: bool,
    trace: seq<nat>, path: seq<SessStat>)

  /** The timing fields of a pssh_session_t. `marks` records the clock readings
      stored in last_connect since it was last reset. */
  datatype Timing = Timing(timeout: int, lastConnect: int, isTimeout: bool, marks: seq<int>)

  datatype ConnectResult = NoSocket | ConnectFailed | InProgress | Immediate
  datatype LibResult = LibOk | LibAgain | LibFailed

  /** What the outside world answers during one callback: connect, SO_ERROR, the
      libssh2 call, the direction libssh2 was blocked on, and the two clock
      readings a callback may take. */
  datatype Net = Net(
    conn: ConnectResult, sockOk: bool, lib: LibResult, lastIo: Flag, timerNow: int, authNow: int)

  /** A DNS answer: no error, an address is present, the host name is itself a
      literal address. */
  datatype DnsAnswer = DnsAnswer(ok: bool, hasAddr: bool, literal: bool)

  datatype SessV = SessV(timing: Timing, e: Entry)

  const HOST_ADDR_MAX: nat := 256

  function Goto(e: Entry, s: SessStat): Entry {
    e.(stat := s, path := e.path + [s])
  }

  /** pssh_event_update; event_add succeeds. */
  function SessArm(e: Entry, flag: Flag): Entry {
    e.(slot := SessSlot(flag), evUp := true)
  }

  /** pssh_conn. */
  function Conn(e: Entry, conn: ConnectResult): Entry {
    match conn
    case NoSocket => Goto(e, SessError)
    case ConnectFailed => Goto(e, SessError)
    case InProgress => SessArm(Goto(e, SessWaitConn), EvWrite)
    case Immediate => e
  }

  /** pssh_fsm. */
  function SessFsm(t: Timing, e: Entry, net: Net): SessV {
    match e.stat
    case SessResolved => SessV(t, Conn(e, net.conn))
    case SessWaitConn =>
      var e' := if !e.evType.write then e else Goto(e, if net.sockOk then SessDoneConn else SessError);
      SessV(t, SessArm(e', EvWrite))
    case SessDoneConn =>
      (match net.lib
       case LibOk => SessV(t, SessArm(Goto(e, SessWaitAuth).(started := true), EvWrite))
       case LibAgain => SessV(t, SessArm(e, net.lastIo))
       case LibFailed => SessV(t, Goto(e, SessError)))
    case SessWaitAuth =>
      (match net.lib
       case LibOk =>
         SessV(Mark(t, net.authNow), Goto(e, SessConnected))
       case LibAgain => SessV(t, SessArm(e, net.lastIo))
       case LibFailed => SessV(t, Goto(e, SessError)))
    case _ => SessV(t, e)
  }

  predicate QuietTooLong(t: Timing, now: int) {
    t.lastConnect != 0 && now - t.lastConnect >= t.timeout
  }

  /** pssh_event_handler, called by libevent after the event has fired. */
  function SessFire(t: Timing, e: Entry, ev: EvType, net: Net): SessV {
    var fired := e.(slot := Idle);
    if ev.timeout && QuietTooLong(t, net.timerNow) then SessV(t.(isTimeout := true), fired)
    else
      SessFsm(FirstExpiry(t, ev, net.timerNow), fired.(evType := ev, evUp := false), net)
  }

  /** The first timer expiry opens the quiet window. */
  function FirstExpiry(t: Timing, ev: EvType, now: int): Timing {
    if ev.timeout && t.lastConnect == 0 then Mark(t, now) else t
  }

  /** `last_connect = time(0)`. */
  function Mark(t: Timing, m: int): Timing {
    t.(lastConnect := m, marks := t.marks + [m])
  }

  predicate Accepted(e: Entry, ans: DnsAnswer) {
    ans.ok || ans.hasAddr || (|e.name| < HOST_ADDR_MAX && ans.literal)
  }

  /** pssh_dns_cb. */
  function DnsFire(t: Timing, e: Entry, ans: DnsAnswer, net: Net): SessV {
    var got := e.(dnsPending := false);
    var got' := if !ans.ok && |e.name| >= HOST_ADDR_MAX then Goto(got, SessError) else got;
    if Accepted(e, ans) then SessFsm(t, Goto(got', SessResolved).(evUp := false), net)
    else SessV(t, Goto(got', SessError))
  }

  /** Which `type` libevent can pass for what is pending: some bit, readiness
      only as asked for, and a timeout only if a timer was set. */
  predicate CanFire(slot: Slot, ev: EvType) {
    && (ev.timeout || ev.read || ev.write)
    && match slot
       case Idle => false
       case SessSlot(flag) => (ev.read ==> flag == EvRead) && (ev.write ==> flag == EvWrite)
       case TaskSlot(_, flag, timed) =>
         (ev.read ==> flag == EvRead) && (ev.write ==> flag == EvWrite) && (ev.timeout ==> timed)
  }

  // ---------------------------------------------------------------------------

  predicate Settled(e: Entry) {
    e.stat == SessConnected || e.stat == SessError
  }

  /** The states a connection goes through since its DNS answer. */
  function Chain(s: SessStat): seq<SessStat> {
    match s
    case SessResolved => [SessResolved]
    case SessWaitConn => [SessResolved, SessWaitConn]
    case SessDoneConn => [SessResolved, SessWaitConn, SessDoneConn]
    case SessWaitAuth => [SessResolved, SessWaitConn, SessDoneConn, SessWaitAuth]
    case SessConnected => [SessResolved, SessWaitConn, SessDoneConn, SessWaitAuth, SessConnected]
    case _ => []
  }

  predicate EndsWith(path: seq<SessStat>, tail: seq<SessStat>) {
    |tail| <= |path| && path[|path| - |tail|..] == tail
  }

  /** The invariant of one host. The slot has two phases: it belongs to the
      session machine or nobody until the host is connected, and to a task or
      nobody from then on. A host that is neither connected nor failed waits for
      an event or a DNS answer, unless connect() succeeded at once or the quiet
      window has been found exceeded. */
  predicate PhaseOk(e: Entry, isTimeout: bool) {
    && (e.slot != Idle ==> e.evUp)
    && (e.stat == SessConnected ==> !e.slot.SessSlot? && (e.evUp ==> e.slot.TaskSlot?) && !e.dnsPending)
    && (e.stat != SessConnected ==> !e.slot.TaskSlot? && (e.evUp ==> e.slot.SessSlot? || isTimeout))
    && (e.dnsPending ==> (e.stat == SessNone || e.stat == SessError) && e.slot == Idle && !e.evUp)
    && (match e.stat
        case SessError => true
        case SessConnected => true
        case SessNone => e.dnsPending
        case SessResolved => !e.dnsPending && !e.evUp
        case SessWaitConn => e.evUp
        case SessDoneConn => e.evUp
        case SessWaitAuth => e.evUp
        case _ => false)
    && (e.stat == SessWaitConn && e.slot.SessSlot? ==> e.slot.flag == EvWrite)
    && (e.isReported ==> e.stat == SessConnected)
    && PathOk(e)
  }

  predicate PathOk(e: Entry) {
    EndsWith(e.path, Chain(e.stat))
  }

  lemma GotoNext(e: Entry, s: SessStat)
    requires PathOk(e)
    requires Chain(s) == Chain(e.stat) + [s] || Chain(s) == [s] || Chain(s) == []
    ensures PathOk(Goto(e, s))
  {
    var p, t := e.path, Chain(e.stat);
    assert (p + [s])[|p| - |t|..] == p[|p| - |t|..] + [s];
  }

  lemma SessFsmPath(t: Timing, e: Entry, net: Net)
    requires PathOk(e)
    ensures PathOk(SessFsm(t, e, net).e)
  {
    hide EndsWith;
    GotoNext(e, SessError);
    match e.stat
    case SessResolved => GotoNext(e, SessWaitConn);
    case SessWaitConn => GotoNext(e, SessDoneConn);
    case SessDoneConn => GotoNext(e, SessWaitAuth);
    case SessWaitAuth => GotoNext(e, SessConnected);
    case _ =>
  }

  lemma SessFsmKeeps(t: Timing, e: Entry, net: Net)
    requires PathOk(e) && !e.dnsPending && e.slot == Idle && !e.evUp && !e.isReported
    requires e.stat != SessNone && e.stat != SessWaitResolve && e.stat != SessWaitSess && e.stat != SessConnected
    ensures var r := SessFsm(t, e, net);
            PhaseOk(r.e, r.timing.isTimeout) && r.timing.isTimeout == t.isTimeout
            && (r.e.stat == SessConnected ==> e.stat == SessWaitAuth) && !r.e.dnsPending
            && !r.e.slot.TaskSlot? && r.e.trace == e.trace && r.e.name == e.name
            && r.timing.timeout == t.timeout
  {
    hide EndsWith;
    SessFsmPath(t, e, net);
  }

  /** Firing an event of the session machine keeps the host's invariant, and
      reaching CONNECTED leaves the slot free for the tasks. */
  lemma SessFireKeeps(t: Timing, e: Entry, ev: EvType, net: Net)
    requires PhaseOk(e, t.isTimeout) && e.slot.SessSlot?
    ensures var r := SessFire(t, e, ev, net);
            && PhaseOk(r.e, r.timing.isTimeout)
            && (t.isTimeout ==> r.timing.isTimeout)
            && (r.e.stat == SessConnected ==> r.e.slot == Idle && !r.e.evUp)
            && !r.e.slot.TaskSlot? && r.e.trace == e.trace && r.e.name == e.name
            && r.timing.timeout == t.timeout
  {
    hide SessFsm;
    if !(ev.timeout && QuietTooLong(t, net.timerNow)) {
      SessFsmKeeps(FirstExpiry(t, ev, net.timerNow), e.(slot := Idle, evType := ev, evUp := false), net);
    }
  }

  /** So does a DNS answer, even one that arrives after the host was given up. */
  lemma DnsFireKeeps(t: Timing, e: Entry, ans: DnsAnswer, net: Net)
    requires PhaseOk(e, t.isTimeout) && e.dnsPending
    ensures var r := DnsFire(t, e, ans, net);
            && PhaseOk(r.e, r.timing.isTimeout) && r.timing.isTimeout == t.isTimeout
            && r.e.stat != SessConnected && !r.e.dnsPending
            && !r.e.slot.TaskSlot? && r.e.trace == e.trace && r.e.name == e.name
            && r.timing.timeout == t.timeout
  {
    hide SessFsm;
    var got := e.(dnsPending := false);
    GotoNext(got, SessError);
    GotoNext(got, SessResolved);
    GotoNext(Goto(got, SessError), SessResolved);
    GotoNext(Goto(got, SessError), SessError);
    if Accepted(e, ans) {
      var got' := if !ans.ok && |e.name| >= HOST_ADDR_MAX then Goto(got, SessError) else got;
      SessFsmKeeps(t, Goto(got', SessResolved).(evUp := false), net);
    }
  }

  /** The clock readings recorded since the last reset, none later than `now`. */
  predicate MarksOk(t: Timing, now: int) {
    && (t.lastConnect == 0 <==> t.marks == [])
    && (t.marks != [] ==> t.marks[|t.marks| - 1] == t.lastConnect)
    && forall i :: 0 <= i < |t.marks| ==> 0 < t.marks[i] <= t.lastConnect <= now
  }

  lemma MarkKeeps(t: Timing, now: int, m: int)
    requires MarksOk(t, now) && now <= m && 0 < m
    ensures MarksOk(t, m) && MarksOk(Mark(t, m), m)
  {
  }

  /** The session machine stores a clock reading exactly when it connects. */
  lemma SessFsmTiming(t: Timing, e: Entry, net: Net)
    ensures var r := SessFsm(t, e, net);
            r.timing == (if e.stat == SessWaitAuth && net.lib == LibOk then Mark(t, net.authNow) else t)
            && (e.stat != SessConnected ==>
                  (r.e.stat == SessConnected <==> e.stat == SessWaitAuth && net.lib == LibOk))
  {
  }

  lemma SessFireTiming(t: Timing, e: Entry, ev: EvType, net: Net)
    requires e.stat != SessConnected
    ensures var r := SessFire(t, e, ev, net);
            if ev.timeout && QuietTooLong(t, net.timerNow) then
              r.timing == t.(isTimeout := true) && r.e.stat == e.stat
            else
              var t' := FirstExpiry(t, ev, net.timerNow);
              r.timing == (if r.e.stat == SessConnected then Mark(t', net.authNow) else t')
  {
    if !(ev.timeout && QuietTooLong(t, net.timerNow)) {
      SessFsmTiming(FirstExpiry(t, ev, net.timerNow), e.(slot := Idle, evType := ev, evUp := false), net);
    }
  }

  /** With a clock that is positive and never runs backwards, the quiet window
      is found exceeded only when every connection made since the last reset,
      and the first timer expiry, lies at least `timeout` seconds back. */
  lemma QuietWindow(t: Timing, e: Entry, ev: EvType, net: Net, now: int)
    requires MarksOk(t, now) && 0 < net.timerNow && now <= net.timerNow <= net.authNow
    requires e.stat != SessConnected
    ensures var r := SessFire(t, e, ev, net);
            && MarksOk(r.timing, net.authNow)
            && (r.timing.isTimeout && !t.isTimeout ==>
                  t.marks != [] && forall i :: 0 <= i < |t.marks| ==> net.timerNow - t.marks[i] >= t.timeout)
            && (r.e.stat == SessConnected ==> net.authNow in r.timing.marks)
  {
    SessFireTiming(t, e, ev, net);
    MarkKeeps(t, now, net.timerNow);
    var r := SessFire(t, e, ev, net);
    if ev.timeout && QuietTooLong(t, net.timerNow) {
      MarkKeeps(t, now, net.authNow);
    } else {
      var t' := FirstExpiry(t, ev, net.timerNow);
      MarkKeeps(t', net.timerNow, net.authNow);
      if r.e.stat == SessConnected {
        assert r.timing.marks[|t'.marks|] == net.authNow;
      }
    }
  }
}
