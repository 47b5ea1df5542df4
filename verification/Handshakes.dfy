/** How one host fares: what its DNS answer and the events of its handshake lead
    to, whatever other hosts do in between, and what it waits for meanwhile
    (src/pssh.c:79-192, 281-393). */
module Handshakes {
  import opened Base
  import opened Sessions

  // ---------------------------------------------------------------------------
  // What a callback leads to

  /** The timer has expired `timeout` seconds or more after last_connect. */
  predicate Closes(t: Timing, ev: EvType, net: Net) {
    ev.timeout && t.lastConnect != 0 && net.timerNow >= t.lastConnect + t.timeout
  }

  /** Such a callback raises the timeout and leaves the host where it is, with
      nothing pending; no other callback raises it. */
  lemma ClosingIff(t: Timing, e: Entry, ev: EvType, net: Net)
    requires !t.isTimeout
    ensures var r := SessFire(t, e, ev, net);
            && (r.timing.isTimeout <==> Closes(t, ev, net))
            && (Closes(t, ev, net) ==> r.timing == t.(isTimeout := true) && r.e == e.(slot := Idle))
  {
  }

  /** A DNS answer starts a connection attempt if there is an address: the one
      looked up, or the name itself if it is short enough and a literal one.
      Otherwise, and when there is no socket or connect() fails, the host has
      failed. While connect() is in progress the host waits until it can write. */
  lemma DnsOutcome(t: Timing, e: Entry, ans: DnsAnswer, net: Net)
    requires e.slot == Idle
    ensures var r := DnsFire(t, e, ans, net).e;
            var found := ans.ok || ans.hasAddr || (ans.literal && |e.name| < 256);
            && (r.stat == SessWaitConn <==> found && net.conn == InProgress)
            && (r.stat == SessResolved <==> found && net.conn == Immediate)
            && (r.stat == SessError <==> !found || net.conn == NoSocket || net.conn == ConnectFailed)
            && r.slot == (if found && net.conn == InProgress then SessSlot(EvWrite) else Idle)
            && !r.dnsPending && r.name == e.name && (r.stat == SessWaitConn ==> r.evUp) && DnsFire(t, e, ans, net).timing == t
  {
  }

  /** What a host waits for after a callback that does not close the window: the
      direction libssh2 was blocked on if it asked to be called again, else until
      it can write; in a final state for nothing, but for one last event after a
      refused connect. */
  lemma HostWaitsFor(t: Timing, e: Entry, ev: EvType, net: Net)
    requires !Closes(t, ev, net)
    ensures var r := SessFire(t, e, ev, net).e;
            match e.stat
            case SessWaitConn => r.slot == SessSlot(EvWrite)
            case SessDoneConn =>
              r.slot == (match net.lib case LibOk => SessSlot(EvWrite) case LibAgain => SessSlot(net.lastIo) case LibFailed => Idle)
            case SessWaitAuth =>
              r.slot == (match net.lib case LibAgain => SessSlot(net.lastIo) case _ => Idle)
            case SessError => r.slot == Idle
            case SessConnected => r.slot == Idle
            case _ => true
  {
  }

  // ---------------------------------------------------------------------------
  // The events of one host

  /** One event of the host, with the timing fields as the other hosts have left
      them and the world's answers. */
  datatype Event = Event(t: Timing, ev: EvType, net: Net)

  /** The host after its events, one after the other. */
  function FireEach(e: Entry, events: seq<Event>): Entry {
    if events == [] then e
    else
      var last := events[|events| - 1];
      SessFire(last.t, FireEach(e, events[..|events| - 1]), last.ev, last.net).e
  }

  lemma {:induction false} FireEachAppend(e: Entry, a: seq<Event>, b: seq<Event>)
    ensures FireEach(e, a + b) == FireEach(FireEach(e, a), b)
    decreases |b|
  {
    if b == [] {
      assert a + b == a;
    } else {
      var n := |b| - 1;
      assert (a + b)[..|a + b| - 1] == a + b[..n];
      FireEachAppend(e, a, b[..n]);
    }
  }

  predicate NoneCloses(events: seq<Event>) {
    forall i :: 0 <= i < |events| ==> !Closes(events[i].t, events[i].ev, events[i].net)
  }

  /** The first event by which the host can write; until then the connect is in
      progress. */
  function FirstWrite(events: seq<Event>): (n: nat)
    ensures n <= |events| && (n < |events| ==> events[n].ev.write)
    ensures forall i :: 0 <= i < n ==> !events[i].ev.write
  {
    if events == [] then 0
    else
      var n := FirstWrite(events[..|events| - 1]);
      if n < |events| - 1 || events[|events| - 1].ev.write then n else |events|
  }

  /** The first event at which libssh2 does not ask to be called again. */
  function FirstAnswer(events: seq<Event>): (n: nat)
    ensures n <= |events| && (n < |events| ==> events[n].net.lib != LibAgain)
    ensures forall i :: 0 <= i < n ==> events[i].net.lib == LibAgain
  {
    if events == [] then 0
    else
      var n := FirstAnswer(events[..|events| - 1]);
      if n < |events| - 1 || events[|events| - 1].net.lib != LibAgain then n else |events|
  }

  /** How far the answers carry a host in WAIT_AUTH, DONE_CONN and WAIT_CONN: only
      the first writable event, the first answer to the session startup behind it
      and the first answer to the authentication behind that one decide. */
  function AuthVerdict(events: seq<Event>): SessStat {
    var a := FirstAnswer(events);
    if a == |events| then SessWaitAuth
    else if events[a].net.lib == LibOk then SessConnected else SessError
  }

  function StartVerdict(events: seq<Event>): SessStat {
    var s := FirstAnswer(events);
    if s == |events| then SessDoneConn
    else if events[s].net.lib == LibOk then AuthVerdict(events[s + 1..]) else SessError
  }

  function ConnVerdict(events: seq<Event>): SessStat {
    var c := FirstWrite(events);
    if c == |events| then SessWaitConn
    else if events[c].net.sockOk then StartVerdict(events[c + 1..]) else SessError
  }

  /** A connected or failed host stays so. */
  lemma {:induction false} SettledStays(e: Entry, events: seq<Event>)
    requires e.stat == SessConnected || e.stat == SessError
    ensures FireEach(e, events).stat == e.stat
  {
    if events != [] {
      SettledStays(e, events[..|events| - 1]);
    }
  }

  /** While its answers make it wait, a host stays where it is. */
  lemma {:induction false} WaitingStays(e: Entry, events: seq<Event>)
    requires NoneCloses(events)
    requires e.stat == SessDoneConn || e.stat == SessWaitAuth
    requires forall i :: 0 <= i < |events| ==> events[i].net.lib == LibAgain
    ensures FireEach(e, events).stat == e.stat && FireEach(e, events).started == e.started
  {
    hide SessFire;
    hide Closes;
    if events != [] {
      var last := |events| - 1;
      WaitingStays(e, events[..last]);
      WaitsOn(events[last].t, FireEach(e, events[..last]), events[last].ev, events[last].net);
    }
  }

  lemma WaitsOn(t: Timing, e: Entry, ev: EvType, net: Net)
    requires !Closes(t, ev, net) && net.lib == LibAgain
    requires e.stat == SessDoneConn || e.stat == SessWaitAuth
    ensures SessFire(t, e, ev, net).e.stat == e.stat && SessFire(t, e, ev, net).e.started == e.started
  {
  }

  /** Nothing but a writable socket takes a host out of WAIT_CONN, in particular
      no expiry of its timer. */
  lemma {:induction false} ConnectingStays(e: Entry, events: seq<Event>)
    requires NoneCloses(events) && e.stat == SessWaitConn
    requires forall i :: 0 <= i < |events| ==> !events[i].ev.write
    ensures FireEach(e, events).stat == SessWaitConn
  {
    if events != [] {
      ConnectingStays(e, events[..|events| - 1]);
    }
  }

  lemma FireOne(e: Entry, x: Event)
    ensures FireEach(e, [x]) == SessFire(x.t, e, x.ev, x.net).e
  {
    assert [x][..0] == [];
  }

  /** The events up to the n-th, that one, and those behind it. */
  lemma FireSplit(e: Entry, events: seq<Event>, n: nat)
    requires n < |events|
    ensures var before := FireEach(e, events[..n]);
            FireEach(e, events) == FireEach(SessFire(events[n].t, before, events[n].ev, events[n].net).e, events[n + 1..])
  {
    var x := events[n];
    assert events == events[..n] + ([x] + events[n + 1..]);
    FireEachAppend(e, events[..n], [x] + events[n + 1..]);
    FireEachAppend(FireEach(e, events[..n]), [x], events[n + 1..]);
    FireOne(FireEach(e, events[..n]), x);
  }

  lemma AuthStage(e: Entry, events: seq<Event>)
    requires NoneCloses(events) && e.stat == SessWaitAuth
    ensures FireEach(e, events).stat == AuthVerdict(events)
  {
    var a := FirstAnswer(events);
    WaitingStays(e, events[..a]);
    if a < |events| {
      var x := events[a];
      FireSplit(e, events, a);
      SettledStays(SessFire(x.t, FireEach(e, events[..a]), x.ev, x.net).e, events[a + 1..]);
    } else {
      assert events[..a] == events;
    }
  }

  lemma StartStage(e: Entry, events: seq<Event>)
    requires NoneCloses(events) && e.stat == SessDoneConn
    ensures FireEach(e, events).stat == StartVerdict(events)
  {
    var s := FirstAnswer(events);
    WaitingStays(e, events[..s]);
    if s < |events| {
      var x := events[s];
      var next := SessFire(x.t, FireEach(e, events[..s]), x.ev, x.net).e;
      FireSplit(e, events, s);
      if x.net.lib == LibOk {
        AuthStage(next, events[s + 1..]);
      } else {
        SettledStays(next, events[s + 1..]);
      }
    } else {
      assert events[..s] == events;
    }
  }

  /** The handshake, for every sequence of events of the host and whatever other
      hosts do in between: it is CONNECTED exactly when the first writable event
      finds no socket error, the first answer to the startup behind it is OK and
      the first answer to the authentication behind that one is OK. It has failed
      exactly when the first of these three that is not good has come; otherwise
      it is still at the one that has not. */
  lemma HandshakeIff(e: Entry, events: seq<Event>)
    requires NoneCloses(events) && e.stat == SessWaitConn
    ensures FireEach(e, events).stat == ConnVerdict(events)
  {
    var c := FirstWrite(events);
    ConnectingStays(e, events[..c]);
    if c < |events| {
      var x := events[c];
      var next := SessFire(x.t, FireEach(e, events[..c]), x.ev, x.net).e;
      FireSplit(e, events, c);
      if x.net.sockOk {
        StartStage(next, events[c + 1..]);
      } else {
        SettledStays(next, events[c + 1..]);
      }
    } else {
      assert events[..c] == events;
    }
  }

  // ---------------------------------------------------------------------------
  // The good case, with events that libevent can make

  /** The callback by which libevent says that what was asked for is ready. */
  function Ready(flag: Flag): EvType {
    EvType(false, flag == EvRead, flag == EvWrite)
  }

  function AnyFlag(slot: Slot): Flag {
    if slot.SessSlot? then slot.flag else EvWrite
  }

  /** The events by which a host gets these answers, each when it is ready. */
  function Readies(t: Timing, e: Entry, nets: seq<Net>): (events: seq<Event>)
    ensures |events| == |nets| && forall i :: 0 <= i < |nets| ==> events[i].net == nets[i] && events[i].t == t
    ensures forall i :: 0 <= i < |nets| ==> !events[i].ev.timeout
  {
    if nets == [] then []
    else
      var before := Readies(t, e, nets[..|nets| - 1]);
      before + [Event(t, Ready(AnyFlag(FireEach(e, before).slot)), nets[|nets| - 1])]
  }

  /** libevent can make each of these callbacks when its turn comes. */
  ghost predicate CanMake(e: Entry, events: seq<Event>) {
    forall n :: 0 <= n < |events| ==> CanFire(FireEach(e, events[..n]).slot, events[n].ev)
  }

  lemma {:induction false} ReadiesGrow(t: Timing, e: Entry, a: seq<Net>, b: seq<Net>)
    ensures Readies(t, e, a + b)[..|a|] == Readies(t, e, a)
    decreases |b|
  {
    if b == [] {
      assert a + b == a;
    } else {
      var n := |b| - 1;
      assert (a + b)[..|a + b| - 1] == a + b[..n];
      ReadiesGrow(t, e, a, b[..n]);
    }
  }

  /** Before its last answer an unfinished handshake always has an event pending,
      so that libevent can make all these callbacks. */
  lemma {:induction false} ReadiesCanMake(t: Timing, e: Entry, nets: seq<Net>)
    requires forall n :: 0 <= n < |nets| ==> FireEach(e, Readies(t, e, nets[..n])).slot.SessSlot?
    ensures CanMake(e, Readies(t, e, nets))
  {
    if nets != [] {
      var last := |nets| - 1;
      var events := Readies(t, e, nets);
      forall n | 0 <= n < last ensures nets[..n] == nets[..last][..n] {
      }
      ReadiesCanMake(t, e, nets[..last]);
      assert events[..last] == Readies(t, e, nets[..last]);
      forall n | 0 <= n < |events| ensures CanFire(FireEach(e, events[..n]).slot, events[n].ev) {
        if n < last {
          assert events[..n] == events[..last][..n] && events[n] == events[..last][n];
        }
      }
    }
  }

  /** An unfinished host has its next event pending. */
  predicate Pends(e: Entry) {
    match e.stat
    case SessWaitConn => e.slot.SessSlot? && e.evUp
    case SessDoneConn => e.slot.SessSlot? && e.evUp
    case SessWaitAuth => e.slot.SessSlot? && e.evUp && e.started
    case SessConnected => e.slot == Idle && !e.evUp && e.started
    case SessError => true
    case _ => false
  }

  lemma PendsOn(t: Timing, e: Entry, ev: EvType, net: Net)
    requires Pends(e) && !Closes(t, ev, net)
    ensures Pends(SessFire(t, e, ev, net).e)
  {
  }

  lemma {:induction false} UnfinishedPends(e: Entry, events: seq<Event>)
    requires NoneCloses(events) && Pends(e)
    ensures Pends(FireEach(e, events))
  {
    hide Pends;
    hide SessFire;
    hide Closes;
    if events != [] {
      var last := |events| - 1;
      UnfinishedPends(e, events[..last]);
      PendsOn(events[last].t, FireEach(e, events[..last]), events[last].ev, events[last].net);
    }
  }

  /** One writable socket without error, `k` answers that make the host wait, a
      good one, `m` that make it wait, a good one. */
  predicate GoodAnswers(nets: seq<Net>, k: nat, m: nat) {
    && |nets| == k + m + 3 && nets[0].sockOk
    && (forall i :: 1 <= i <= k ==> nets[i].lib == LibAgain) && nets[k + 1].lib == LibOk
    && (forall i :: k + 2 <= i < k + m + 2 ==> nets[i].lib == LibAgain) && nets[k + m + 2].lib == LibOk
  }

  lemma GoodVerdict(events: seq<Event>, nets: seq<Net>, k: nat, m: nat)
    requires GoodAnswers(nets, k, m) && |events| <= |nets|
    requires forall i :: 0 <= i < |events| ==> events[i].net == nets[i]
    requires events != [] ==> events[0].ev.write
    ensures ConnVerdict(events) ==
              if |events| == 0 then SessWaitConn
              else if |events| <= k + 1 then SessDoneConn
              else if |events| <= k + m + 2 then SessWaitAuth
              else SessConnected
  {
    if events != [] {
      assert FirstWrite(events) == 0;
      var after := events[1..];
      assert FirstAnswer(after) == if |after| <= k then |after| else k;
      if |after| > k {
        var auth := after[k + 1..];
        assert FirstAnswer(auth) == if |auth| <= m then |auth| else m;
      }
    }
  }

  /** What the n-th answer finds. */
  lemma GoodPrefix(t: Timing, e: Entry, nets: seq<Net>, k: nat, m: nat, n: nat)
    requires e.stat == SessWaitConn && e.slot == SessSlot(EvWrite) && e.evUp && GoodAnswers(nets, k, m) && n <= |nets|
    ensures var r := FireEach(e, Readies(t, e, nets[..n]));
            && (n < |nets| ==> r.slot.SessSlot? && (r.stat == SessWaitAuth <==> n > k + 1))
            && (n == |nets| ==> r.stat == SessConnected && r.slot == Idle && !r.evUp && r.started)
  {
    var events := Readies(t, e, nets[..n]);
    if n > 0 {
      FirstReady(t, e, nets[..n]);
    }
    GoodVerdict(events, nets, k, m);
    HandshakeIff(e, events);
    UnfinishedPends(e, events);
    hide FireEach;
    hide Readies;
  }

  lemma ReadyTiming(t: Timing, e: Entry, x: Event)
    requires !x.ev.timeout && x.t == t
    ensures SessFire(t, e, x.ev, x.net).timing == if e.stat == SessWaitAuth && x.net.lib == LibOk then Mark(t, x.net.authNow) else t
  {
    SessFsmTiming(t, e.(slot := Idle, evType := x.ev, evUp := false), x.net);
  }

  lemma {:induction false} FirstReady(t: Timing, e: Entry, nets: seq<Net>)
    requires nets != [] && e.slot == SessSlot(EvWrite)
    ensures Readies(t, e, nets)[0].ev == EvType(false, false, true)
  {
    if |nets| > 1 {
      FirstReady(t, e, nets[..|nets| - 1]);
    } else {
      assert nets[..0] == [];
    }
  }

  lemma GoodAt(t: Timing, e: Entry, nets: seq<Net>, k: nat, m: nat, n: nat)
    requires e.stat == SessWaitConn && e.slot == SessSlot(EvWrite) && e.evUp && GoodAnswers(nets, k, m) && n < |nets|
    ensures var events := Readies(t, e, nets);
            && FireEach(e, Readies(t, e, nets[..n])).slot.SessSlot?
            && SessFire(t, FireEach(e, events[..n]), events[n].ev, nets[n]).timing
               == if n == |nets| - 1 then Mark(t, nets[n].authNow) else t
  {
    hide SessFire;
    hide FireEach;
    hide Readies;
    var events := Readies(t, e, nets);
    GoodPrefix(t, e, nets, k, m, n);
    assert nets == nets[..n] + nets[n..];
    ReadiesGrow(t, e, nets[..n], nets[n..]);
    ReadyTiming(t, FireEach(e, events[..n]), events[n]);
  }

  lemma {:induction false} GoodRun(t: Timing, e: Entry, nets: seq<Net>, k: nat, m: nat)
    requires e.stat == SessWaitConn && e.slot == SessSlot(EvWrite) && e.evUp && GoodAnswers(nets, k, m)
    ensures var events := Readies(t, e, nets);
            && CanMake(e, events)
            && (var r := FireEach(e, events); r.stat == SessConnected && r.slot == Idle && !r.evUp && r.started)
            && (forall n :: 0 <= n < |nets| ==>
                  SessFire(t, FireEach(e, events[..n]), events[n].ev, nets[n]).timing
                  == if n == |nets| - 1 then Mark(t, nets[n].authNow) else t)
  {
    hide SessFire;
    hide FireEach;
    hide Readies;
    hide GoodAnswers;
    forall n: nat | n < |nets|
      ensures FireEach(e, Readies(t, e, nets[..n])).slot.SessSlot?
      ensures SessFire(t, FireEach(e, Readies(t, e, nets)[..n]), Readies(t, e, nets)[n].ev, nets[n]).timing
           == if n == |nets| - 1 then Mark(t, nets[n].authNow) else t
    {
      GoodAt(t, e, nets, k, m, n);
    }
    ReadiesCanMake(t, e, nets);
    GoodPrefix(t, e, nets, k, m, |nets|);
    assert nets[..|nets|] == nets;
  }

  /** A host whose answers are all good gets connected, however often libssh2
      asks to be called again: DNS, connect in progress, writable without error,
      session startup, authentication; and each of the events needed is one that
      libevent can make when its turn comes. The slot is then free; only the
      authentication has stored a clock reading, its own. */
  lemma {:induction false} HandshakeConnects(t: Timing, e: Entry, ans: DnsAnswer, dns: Net, nets: seq<Net>, k: nat, m: nat)
    requires e.slot == Idle && (ans.ok || ans.hasAddr || (ans.literal && |e.name| < 256)) && dns.conn == InProgress
    requires GoodAnswers(nets, k, m)
    ensures var d := DnsFire(t, e, ans, dns);
            var events := Readies(t, d.e, nets);
            && d.timing == t && CanMake(d.e, events)
            && (var r := FireEach(d.e, events); r.stat == SessConnected && r.slot == Idle && !r.evUp && r.started)
            && (forall n :: 0 <= n < |nets| ==>
                  SessFire(t, FireEach(d.e, events[..n]), events[n].ev, nets[n]).timing
                  == if n == |nets| - 1 then Mark(t, nets[n].authNow) else t)
  {
    DnsOutcome(t, e, ans, dns);
    hide DnsFire;
    hide SessFire;
    hide FireEach;
    hide Readies;
    GoodRun(t, DnsFire(t, e, ans, dns).e, nets, k, m);
  }

  /** While libssh2 says EAGAIN a host stays where it is, with the event pending
      that libssh2 asks for. */
  lemma AgainWaits(e: Entry, events: seq<Event>)
    requires (e.stat == SessDoneConn || e.stat == SessWaitAuth) && NoneCloses(events) && events != []
    requires forall i :: 0 <= i < |events| ==> events[i].net.lib == LibAgain
    ensures var r := FireEach(e, events);
            r.stat == e.stat && r.started == e.started && r.slot == SessSlot(events[|events| - 1].net.lastIo)
  {
    var last := |events| - 1;
    var x := events[last];
    WaitingStays(e, events);
    WaitingStays(e, events[..last]);
    HostWaitsFor(x.t, FireEach(e, events[..last]), x.ev, x.net);
  }
}
