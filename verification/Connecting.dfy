/** pssh_connect: the scan of the hosts, its verdicts, the timeout path and the
    event loop (src/pssh.c:397-483). */
module Connecting {
  import opened Base
  import opened Tasks
  import opened Sessions
  import opened Worlds

  /** PSSH_CONNECTED with a host, PSSH_TIMEOUT, PSSH_FAILED, PSSH_SUCCESS, or
      still waiting in the event loop. */
  datatype ConnOut = Connected(entry: nat) | TimedOut | ConnFailed | ConnSuccess | ConnWaiting

  datatype ConnStep = ConnStep(w: World, out: ConnOut)

  predicate NewlyConnected(e: Entry) {
    e.stat == SessConnected && !e.isReported
  }

  /** The first host the scan returns. */
  function FirstNew(entries: seq<Entry>): Option<nat> {
    if entries == [] then None
    else if NewlyConnected(entries[0]) then Some(0)
    else match FirstNew(entries[1..])
      case Some(i) => Some(i + 1)
      case None => None
  }

  lemma {:induction false} FirstNewIs(entries: seq<Entry>)
    ensures match FirstNew(entries)
            case Some(i) =>
              && i < |entries| && NewlyConnected(entries[i])
              && forall a :: 0 <= a < i ==> !NewlyConnected(entries[a])
            case None => forall a :: 0 <= a < |entries| ==> !NewlyConnected(entries[a])
  {
    if entries != [] {
      FirstNewIs(entries[1..]);
      forall a | 0 < a < |entries| ensures entries[a] == entries[1..][a - 1] {
      }
    }
  }

  /** pssh_shutdown_events for one host. */
  function ShutEntry(e: Entry): Entry {
    if e.evUp then e.(slot := Idle, evUp := false) else e
  }

  /** ... followed by giving up every host that is not connected. */
  function GiveUp(e: Entry): Entry {
    var s := ShutEntry(e);
    if s.stat != SessConnected then Goto(s, SessError) else s
  }

  function GiveUpAll(entries: seq<Entry>): (r: seq<Entry>)
    ensures |r| == |entries| && forall j :: 0 <= j < |r| ==> r[j] == GiveUp(entries[j])
  {
    if entries == [] then [] else [GiveUp(entries[0])] + GiveUpAll(entries[1..])
  }

  function Reset(t: Timing): Timing {
    t.(lastConnect := 0, isTimeout := false, marks := [])
  }

  predicate AllSettled(entries: seq<Entry>) {
    forall j :: 0 <= j < |entries| ==> Settled(entries[j])
  }

  predicate AnyError(entries: seq<Entry>) {
    exists j :: 0 <= j < |entries| && entries[j].stat == SessError
  }

  /** One scan of the hosts with its verdict. */
  function ConnectScan(w: World): ConnStep {
    if w.timing.isTimeout && w.entries != [] then
      ConnStep(w.(timing := Reset(w.timing), entries := GiveUpAll(w.entries)), TimedOut)
    else match FirstNew(w.entries)
      case Some(i) =>
        if i < |w.entries| then
          ConnStep(w.(entries := w.entries[i := w.entries[i].(isReported := true)]), Connected(i))
        else ConnStep(w, ConnWaiting)
      case None =>
        if AllSettled(w.entries) then
          ConnStep(w.(timing := Reset(w.timing)), if AnyError(w.entries) then ConnFailed else ConnSuccess)
        else ConnStep(w, ConnWaiting)
  }

  datatype ConnRes = ConnRes(w: World, out: ConnOut, rest: seq<seq<Firing>>)

  function SetTimeout(w: World, timeout: int): World {
    w.(timing := w.timing.(timeout := timeout))
  }

  /** The for-loop of one call. */
  function ConnectLoop(w: World, sched: seq<seq<Firing>>): ConnRes
    decreases |sched|
  {
    var s := ConnectScan(w);
    if !s.out.ConnWaiting? || sched == [] then ConnRes(s.w, s.out, sched)
    else ConnectLoop(FireAll(s.w, sched[0]), sched[1..])
  }

  /** One call of pssh_connect. */
  function Connect(w: World, timeout: int, sched: seq<seq<Firing>>): ConnRes {
    ConnectLoop(SetTimeout(w, timeout), sched)
  }

  // ---------------------------------------------------------------------------

  /** Disarming host `j` does not strand a task: whoever holds its slot has
      failed or can ask for it again. */
  predicate Harmless(w: World, j: nat) {
    j < |w.entries| && w.entries[j].slot.TaskSlot? && w.entries[j].slot.task < |w.tasks| ==>
      !Begun(w.tasks[w.entries[j].slot.task])
  }

  /** No task holding a slot has an open channel. */
  predicate Quiescent(w: World) {
    forall j :: 0 <= j < |w.entries| ==> Harmless(w, j)
  }

  lemma GiveUpPhase(e: Entry, isTimeout: bool)
    requires PhaseOk(e, isTimeout)
    ensures PhaseOk(GiveUp(e), false)
    ensures Settled(GiveUp(e)) && GiveUp(e).slot == Idle && !GiveUp(e).evUp
    ensures GiveUp(e).trace == e.trace && GiveUp(e).isReported == e.isReported
    ensures GiveUp(e).stat == SessConnected <==> e.stat == SessConnected
  {
    if e.stat != SessConnected {
      GotoNext(ShutEntry(e), SessError);
    }
  }

  /** The timeout path for all hosts. */
  lemma GiveUpHosts(w: World)
    requires HostsOk(w) && ConnectScan(w).out.TimedOut?
    ensures var w' := ConnectScan(w).w;
            && |w'.entries| == |w.entries| && w'.tasks == w.tasks && !w'.timing.isTimeout && w'.timing.lastConnect == 0
            && HostsOk(w')
            && forall j :: 0 <= j < |w.entries| ==>
                 && Settled(w'.entries[j]) && w'.entries[j].slot == Idle && !w'.entries[j].evUp
                 && w'.entries[j].trace == w.entries[j].trace && w'.entries[j].isReported == w.entries[j].isReported
                 && (w'.entries[j].stat == SessConnected <==> w.entries[j].stat == SessConnected)
  {
    hide PhaseOk;
    hide GiveUp;
    FirstNewIs(w.entries);
    forall j | 0 <= j < |w.entries|
      ensures var g := GiveUp(w.entries[j]);
              && PhaseOk(g, false) && Settled(g) && g.slot == Idle && !g.evUp
              && g.trace == w.entries[j].trace && g.isReported == w.entries[j].isReported
              && (g.stat == SessConnected <==> w.entries[j].stat == SessConnected)
    {
      GiveUpPhase(w.entries[j], w.timing.isTimeout);
    }
  }

  lemma GiveUpSound(w: World)
    requires Sound(w) && ConnectScan(w).out.TimedOut?
    ensures Sound(ConnectScan(w).w)
  {
    GiveUpHosts(w);
    hide ConnectScan;
    hide TaskOk;
    hide PhaseOk;
  }

  lemma ReportEntrySound(w: World, i: nat)
    requires Sound(w) && i < |w.entries| && NewlyConnected(w.entries[i])
    ensures Sound(w.(entries := w.entries[i := w.entries[i].(isReported := true)]))
  {
    hide TaskOk;
    hide EndsWith;
  }

  /** A scan keeps what holds on every run, even if it times out with a task in
      flight. */
  lemma ConnectScanSound(w: World)
    requires Sound(w)
    ensures Sound(ConnectScan(w).w)
  {
    ConnectScanOutcome(w);
    hide ConnectScan;
    hide Sound;
    if ConnectScan(w).out.TimedOut? {
      GiveUpSound(w);
    } else if ConnectScan(w).out.Connected? {
      ReportEntrySound(w, ConnectScan(w).out.entry);
    } else {
      TimingSound(w, Reset(w.timing));
    }
  }

  lemma TimingSound(w: World, t: Timing)
    requires Sound(w) && (t.isTimeout == w.timing.isTimeout || w.entries == [])
    ensures Sound(w.(timing := t))
  {
    hide TaskOk;
    hide PhaseOk;
  }

  lemma IdleKeeps(w: World, w': World)
    requires Inv(w) && Sound(w') && w'.tasks == w.tasks && |w'.entries| == |w.entries|
    requires forall j :: 0 <= j < |w.entries| ==> w'.entries[j].slot == Idle && w'.entries[j].trace == w.entries[j].trace
    requires forall i :: 0 <= i < |w.tasks| ==> !Begun(w.tasks[i])
    ensures Inv(w')
  {
    hide Sound;
    hide Begun;
    OrderSame(w, w');
    hide InOrder;
  }

  lemma QuietTimeoutKeeps(w: World)
    requires Inv(w) && ConnectScan(w).out.TimedOut? && Quiescent(w)
    ensures Inv(ConnectScan(w).w)
  {
    hide ConnectScan;
    hide Quiescent;
    GiveUpHosts(w);
    GiveUpSound(w);
    QuiescentNoneBegun(w);
    hide Sound;
    IdleKeeps(w, ConnectScan(w).w);
    hide Inv;
  }

  /** The timeout path keeps the invariant exactly when no task is in flight:
      otherwise it disarms a running task. */
  lemma TimeoutKeepsIff(w: World)
    requires Inv(w) && w.timing.isTimeout && w.entries != []
    ensures Inv(ConnectScan(w).w) <==> Quiescent(w)
  {
    if Quiescent(w) {
      QuietTimeoutKeeps(w);
    } else {
      var j :| 0 <= j < |w.entries| && !Harmless(w, j);
      TimeoutStrands(w, j);
      hide ConnectScan;
      hide Sound;
    }
  }

  lemma QuiescentNoneBegun(w: World)
    requires Inv(w) && Quiescent(w)
    ensures forall i :: 0 <= i < |w.tasks| ==> !Begun(w.tasks[i])
  {
    forall i | 0 <= i < |w.tasks| ensures !Begun(w.tasks[i]) {
      if Begun(w.tasks[i]) {
        assert Harmless(w, w.tasks[i].sess.value);
      }
    }
  }

  lemma ReportEntryKeeps(w: World, i: nat)
    requires Inv(w) && i < |w.entries| && NewlyConnected(w.entries[i])
    ensures Inv(w.(entries := w.entries[i := w.entries[i].(isReported := true)]))
  {
    ReportEntrySound(w, i);
    hide Sound;
    SameTasksKeep(w, w.(entries := w.entries[i := w.entries[i].(isReported := true)]));
    hide Inv;
  }

  lemma TimingKeeps(w: World, t: Timing)
    requires Inv(w) && (t.isTimeout == w.timing.isTimeout || w.entries == [])
    ensures Inv(w.(timing := t))
  {
    TimingSound(w, t);
    hide Sound;
    SameTasksKeep(w, w.(timing := t));
    hide Inv;
  }

  lemma ConnectScanKeeps(w: World)
    requires Inv(w) && (w.timing.isTimeout ==> Quiescent(w))
    ensures Inv(ConnectScan(w).w)
  {
    if w.timing.isTimeout && w.entries != [] {
      TimeoutKeepsIff(w);
    } else {
      FirstNewIs(w.entries);
      match FirstNew(w.entries)
      case Some(i) => ReportEntryKeeps(w, i);
      case None => TimingKeeps(w, Reset(w.timing));
    }
  }

  /** After PSSH_TIMEOUT every host is connected, exactly if it was before, or
      failed; no event is pending and the quiet window is closed. */
  lemma TimeoutSettles(w: World)
    requires HostsOk(w) && ConnectScan(w).out.TimedOut?
    ensures var s := ConnectScan(w);
            && |s.w.entries| == |w.entries| && s.w.tasks == w.tasks
            && AllSettled(s.w.entries) && !s.w.timing.isTimeout && s.w.timing.lastConnect == 0
            && forall j :: 0 <= j < |w.entries| ==>
                 && s.w.entries[j].slot == Idle && !s.w.entries[j].evUp
                 && (s.w.entries[j].stat == SessConnected <==> w.entries[j].stat == SessConnected)
                 && s.w.entries[j].isReported == w.entries[j].isReported
  {
    GiveUpHosts(w);
    hide ConnectScan;
  }

  /** What each verdict means for the hosts, and that it is given in no other
      case: a raised timeout comes first, then the first new connection, then
      success or failure once every host is settled. */
  lemma ConnectScanOutcome(w: World)
    ensures var s := ConnectScan(w);
            && (s.out.TimedOut? <==> w.timing.isTimeout && w.entries != [])
            && match s.out
               case Connected(i) =>
                 && i < |w.entries| && NewlyConnected(w.entries[i])
                 && s.w == w.(entries := w.entries[i := w.entries[i].(isReported := true)])
                 && (forall a :: 0 <= a < i ==> !NewlyConnected(w.entries[a]))
               case TimedOut => s.w.tasks == w.tasks
               case ConnSuccess =>
                 && s.w == w.(timing := Reset(w.timing))
                 && forall j :: 0 <= j < |w.entries| ==> w.entries[j].stat == SessConnected && w.entries[j].isReported
               case ConnFailed =>
                 && s.w == w.(timing := Reset(w.timing))
                 && (forall j :: 0 <= j < |w.entries| ==>
                       w.entries[j].stat == SessError || (w.entries[j].stat == SessConnected && w.entries[j].isReported))
                 && exists j :: 0 <= j < |w.entries| && w.entries[j].stat == SessError
               case ConnWaiting =>
                 && s.w == w && !w.timing.isTimeout
                 && (forall j :: 0 <= j < |w.entries| ==> !NewlyConnected(w.entries[j]))
                 && exists j :: 0 <= j < |w.entries| && !Settled(w.entries[j])
  {
    FirstNewIs(w.entries);
  }

  /** Host `e` will be heard of again: an event or a DNS answer is pending. */
  predicate Awaited(e: Entry) {
    e.slot.SessSlot? || e.dnsPending
  }

  /** No stall, and exactly when there is one: whenever pssh_connect enters the
      event loop, every host that is neither connected nor failed is awaited,
      unless connect() has succeeded at once for it, which leaves it in RESOLVED
      with nothing pending. */
  lemma ConnectStallsIff(w: World)
    requires HostsOk(w) && ConnectScan(w).out.ConnWaiting?
    ensures forall j :: 0 <= j < |w.entries| && !Settled(w.entries[j]) ==>
              (Awaited(w.entries[j]) <==> w.entries[j].stat != SessResolved)
  {
    ConnectScanOutcome(w);
  }

  /** Such a host: its name is resolved and connect() succeeds at once. */
  lemma StalledHost(name: string, net: Net)
    requires net.conn == Immediate
    ensures var w := Fire(AddServer(EMPTY_WORLD, name), DnsFiring(0, DnsAnswer(true, true, false), net));
            && ConnectScan(w).out.ConnWaiting?
            && w.entries[0].stat == SessResolved && !Awaited(w.entries[0])
  {
    var w := Fire(AddServer(EMPTY_WORLD, name), DnsFiring(0, DnsAnswer(true, true, false), net));
    assert w.entries[0].stat == SessResolved;
    ConnectScanOutcome(w);
    FirstNewIs(w.entries);
  }

  /** A host only stays in RESOLVED when connect() succeeds at once, and then no
      callback ever moves it. */
  lemma ResolvedForEver(w: World, f: Firing, j: nat)
    requires Sound(w) && j < |w.entries|
    ensures |Fire(w, f).entries| == |w.entries|
    ensures w.entries[j].stat == SessResolved ==> Fire(w, f).entries[j] == w.entries[j]
    ensures w.entries[j].stat != SessResolved && Fire(w, f).entries[j].stat == SessResolved ==>
              f.DnsFiring? && f.entry == j && f.net.conn == Immediate
  {
    hide Tasks.Run;
    if Enabled(w, f) && f.entry == j {
      var e := w.entries[j];
      if f.EvFiring? && !e.slot.TaskSlot? {
        ResolvedBySess(w.timing, e, f.ev, f.net);
      } else if f.DnsFiring? {
        ResolvedByDns(w.timing, e, f.ans, f.net);
      }
    }
  }

  lemma ResolvedBySess(t: Timing, e: Entry, ev: EvType, net: Net)
    requires PhaseOk(e, t.isTimeout) && e.slot.SessSlot?
    ensures e.stat != SessResolved && SessFire(t, e, ev, net).e.stat != SessResolved
  {
  }

  lemma ResolvedByDns(t: Timing, e: Entry, ans: DnsAnswer, net: Net)
    requires PhaseOk(e, t.isTimeout) && e.dnsPending
    ensures DnsFire(t, e, ans, net).e.stat == SessResolved ==> net.conn == Immediate
    ensures e.stat != SessResolved
  {
  }

  /** The state in which a call makes its last scan. */
  function LastScan(w: World, sched: seq<seq<Firing>>): World
    decreases |sched|
  {
    if !ConnectScan(w).out.ConnWaiting? || sched == [] then w
    else LastScan(FireAll(w, sched[0]), sched[1..])
  }

  /** A call keeps the invariant, whatever happens while it waits, unless it
      times out with a task in flight. */
  lemma {:induction false} ConnectLoopKeepsIff(w: World, sched: seq<seq<Firing>>)
    requires Inv(w)
    ensures var r := ConnectLoop(w, sched);
            var b := LastScan(w, sched);
            && Inv(b) && r.w == ConnectScan(b).w && r.out == ConnectScan(b).out
            && (Inv(r.w) <==> r.out != TimedOut || Quiescent(b))
    decreases |sched|
  {
    var s := ConnectScan(w);
    ConnectScanOutcome(w);
    if s.out.ConnWaiting? && sched != [] {
      FireAllKeeps(w, sched[0]);
      ConnectLoopKeepsIff(FireAll(w, sched[0]), sched[1..]);
    } else if s.out.TimedOut? {
      TimeoutKeepsIff(w);
    } else {
      NotTimedOutKeeps(w);
    }
  }

  lemma NotTimedOutKeeps(w: World)
    requires Inv(w) && !ConnectScan(w).out.TimedOut?
    ensures Inv(ConnectScan(w).w)
  {
    if !w.timing.isTimeout {
      ConnectScanKeeps(w);
    } else {
      TimingKeeps(w, Reset(w.timing));
    }
  }

  /** A task with an open channel for which no event is pending. */
  predicate Stranded(w: World, i: nat) {
    && i < |w.tasks| && Begun(w.tasks[i])
    && forall j :: 0 <= j < |w.entries| ==> !Owns(w.entries[j], i)
  }

  /** A timeout strands every task in flight. */
  lemma TimeoutStrands(w: World, j: nat)
    requires HostsOk(w) && ConnectScan(w).out.TimedOut? && j < |w.entries| && !Harmless(w, j)
    ensures Stranded(ConnectScan(w).w, w.entries[j].slot.task)
  {
    TimeoutSettles(w);
  }

  // ---------------------------------------------------------------------------
  // Draining after a timeout

  function NewCount(entries: seq<Entry>): nat {
    if entries == [] then 0
    else NewCount(entries[..|entries| - 1]) + if NewlyConnected(entries[|entries| - 1]) then 1 else 0
  }

  lemma {:induction false} NewCountReport(entries: seq<Entry>, i: nat)
    requires i < |entries| && NewlyConnected(entries[i])
    ensures NewCount(entries[i := entries[i].(isReported := true)]) == NewCount(entries) - 1
  {
    var n := |entries| - 1;
    var r := entries[i].(isReported := true);
    if i == n {
      assert entries[i := r][..n] == entries[..n];
    } else {
      assert entries[i := r][..n] == entries[..n][i := r];
      NewCountReport(entries[..n], i);
    }
  }

  lemma {:induction false} NewCountZero(entries: seq<Entry>)
    ensures NewCount(entries) == 0 <==> forall j :: 0 <= j < |entries| ==> !NewlyConnected(entries[j])
  {
    if entries != [] {
      NewCountZero(entries[..|entries| - 1]);
    }
  }

  datatype Drained = Drained(reported: seq<nat>, verdict: ConnOut)

  /** Calling pssh_connect while it returns PSSH_CONNECTED, with an event loop
      that makes no callback. */
  function DrainCalls(w: World, timeout: int): Drained
    decreases NewCount(w.entries)
  {
    var r := Connect(w, timeout, []);
    if r.out.Connected? && NewCount(r.w.entries) < NewCount(w.entries) then
      var d := DrainCalls(r.w, timeout);
      d.(reported := [r.out.entry] + d.reported)
    else Drained([], r.out)
  }

  /** One call when every host is settled. */
  lemma SettledCall(w: World, timeout: int)
    requires AllSettled(w.entries) && !w.timing.isTimeout
    ensures var r := Connect(w, timeout, []);
            match FirstNew(w.entries)
            case None =>
              && r.out == (if AnyError(w.entries) then ConnFailed else ConnSuccess)
              && (forall j :: 0 <= j < |w.entries| ==> !NewlyConnected(w.entries[j]))
            case Some(i) =>
              && r.out == Connected(i) && i < |w.entries| && NewlyConnected(w.entries[i])
              && !r.w.timing.isTimeout
              && r.w.entries == w.entries[i := w.entries[i].(isReported := true)]
  {
    FirstNewIs(w.entries);
  }

  lemma ReportKeepsErrors(entries: seq<Entry>, i: nat)
    requires i < |entries| && NewlyConnected(entries[i]) && AllSettled(entries)
    ensures var after := entries[i := entries[i].(isReported := true)];
            && (AnyError(after) <==> AnyError(entries)) && AllSettled(after)
            && forall a :: 0 <= a < |entries| ==> (NewlyConnected(after[a]) <==> a != i && NewlyConnected(entries[a]))
  {
    var after := entries[i := entries[i].(isReported := true)];
    if AnyError(entries) {
      var j :| 0 <= j < |entries| && entries[j].stat == SessError;
      assert after[j].stat == SessError;
    }
  }

  lemma DrainStep(w: World, timeout: int)
    requires AllSettled(w.entries) && !w.timing.isTimeout
    ensures var next := Connect(w, timeout, []).w;
            match FirstNew(w.entries)
            case None =>
              NewCount(w.entries) == 0
              && DrainCalls(w, timeout) == Drained([], if AnyError(w.entries) then ConnFailed else ConnSuccess)
            case Some(i) =>
              && NewCount(next.entries) == NewCount(w.entries) - 1
              && AllSettled(next.entries) && !next.timing.isTimeout
              && i < |w.entries| && NewlyConnected(w.entries[i])
              && next.entries == w.entries[i := w.entries[i].(isReported := true)]
              && DrainCalls(w, timeout) == Drained([i] + DrainCalls(next, timeout).reported, DrainCalls(next, timeout).verdict)
  {
    SettledCall(w, timeout);
    NewCountZero(w.entries);
    if FirstNew(w.entries).Some? {
      var i := FirstNew(w.entries).value;
      NewCountReport(w.entries, i);
      ReportKeepsErrors(w.entries, i);
    }
  }

  lemma DrainedOneMore(entries: seq<Entry>, i: nat, reported: seq<nat>)
    requires i < |entries| && NewlyConnected(entries[i]) && AllSettled(entries)
    requires var after := entries[i := entries[i].(isReported := true)];
             forall a: nat :: a in reported <==> a < |after| && NewlyConnected(after[a])
    ensures forall a: nat :: a in [i] + reported <==> a < |entries| && NewlyConnected(entries[a])
    ensures AnyError(entries[i := entries[i].(isReported := true)]) == AnyError(entries)
  {
    ReportKeepsErrors(entries, i);
  }

  /** Once every host is settled, as after a timeout, the k connections not yet
      reported are returned by exactly the next k calls, each once, and the call
      after them gives the verdict; no callback is needed. */
  lemma {:induction false} SettledDrains(w: World, timeout: int)
    requires AllSettled(w.entries) && !w.timing.isTimeout
    ensures var d := DrainCalls(w, timeout);
            && |d.reported| == NewCount(w.entries)
            && (forall i: nat :: i in d.reported <==> i < |w.entries| && NewlyConnected(w.entries[i]))
            && d.verdict == (if AnyError(w.entries) then ConnFailed else ConnSuccess)
    decreases NewCount(w.entries)
  {
    DrainStep(w, timeout);
    if FirstNew(w.entries).Some? {
      var next := Connect(w, timeout, []).w;
      SettledDrains(next, timeout);
      DrainedOneMore(w.entries, FirstNew(w.entries).value, DrainCalls(next, timeout).reported);
    } else {
      NewCountZero(w.entries);
    }
  }

  lemma {:induction false} NewCountSame(a: seq<Entry>, b: seq<Entry>)
    requires |a| == |b| && forall j :: 0 <= j < |a| ==> (NewlyConnected(a[j]) <==> NewlyConnected(b[j]))
    ensures NewCount(a) == NewCount(b)
  {
    if a != [] {
      NewCountSame(a[..|a| - 1], b[..|b| - 1]);
    }
  }

  /** So after PSSH_TIMEOUT, whether or not it has stranded a task: the k
      connections made and not reported before it are returned by the next k
      calls, then FAILED, or SUCCESS if every host had been connected. */
  lemma TimeoutDrains(w: World, timeout: int)
    requires HostsOk(w) && ConnectScan(w).out.TimedOut?
    ensures var d := DrainCalls(ConnectScan(w).w, timeout);
            && |d.reported| == NewCount(w.entries)
            && (forall i: nat :: i in d.reported <==> i < |w.entries| && NewlyConnected(w.entries[i]))
            && d.verdict == (if exists j :: 0 <= j < |w.entries| && w.entries[j].stat != SessConnected then ConnFailed else ConnSuccess)
  {
    var w' := ConnectScan(w).w;
    TimeoutSettles(w);
    hide ConnectScan;
    hide HostsOk;
    hide DrainCalls;
    SettledDrains(w', timeout);
    NewCountSame(w.entries, w'.entries);
    ErrorsSame(w.entries, w'.entries);
  }

  lemma ErrorsSame(a: seq<Entry>, b: seq<Entry>)
    requires |a| == |b| && AllSettled(b)
    requires forall j :: 0 <= j < |a| ==> (a[j].stat == SessConnected <==> b[j].stat == SessConnected)
    ensures AnyError(b) <==> exists j :: 0 <= j < |a| && a[j].stat != SessConnected
  {
    if j :| 0 <= j < |a| && a[j].stat != SessConnected {
      assert b[j].stat == SessError;
    }
  }
}
