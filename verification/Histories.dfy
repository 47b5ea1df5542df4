/** What a whole run says about one host or one task of it: how the host fares,
    which host a task belongs to, and what its timer has done. */
module Histories {
  import opened Base
  import opened Tasks
  import opened Sessions
  import opened Handshakes
  import opened Worlds
  import opened Scheduling
  import opened Connecting
  import opened Runs
  import opened TaskEvents

  // ---------------------------------------------------------------------------
  // Hosts and tasks as added

  /** A host is added at the end under its name, its query pending; nothing else
      changes. */
  lemma AddedHost(w: World, host: string)
    ensures var w' := AddServer(w, host);
            var n := |w.entries|;
            && w'.tasks == w.tasks && w'.timing == w.timing
            && |w'.entries| == n + 1 && w'.entries[..n] == w.entries
            && var e := w'.entries[n];
               e.name == host && e.stat == SessNone && e.dnsPending && e.slot == Idle && !e.evUp && !e.isReported && !e.started
  {
  }

  /** A task added for a host that has been added belongs to a host of that name,
      the first; a host added in between makes no difference to other tasks. */
  lemma TaskFindsHost(w: World, host: string, other: string, core: Core, timed: bool)
    ensures var w' := AddTask(AddServer(w, host), host, core, timed);
            var t := w'.tasks[|w.tasks|];
            && |w'.tasks| == |w.tasks| + 1 && w'.tasks[..|w.tasks|] == w.tasks
            && t.sess.Some? && t.sess.value < |w'.entries| && w'.entries[t.sess.value].name == host
            && (forall j :: 0 <= j < t.sess.value ==> w'.entries[j].name != host)
            && t.born == core && t.core == core && t.timed == timed && !t.isReported && t.acts == 0 && !t.expired
    ensures other != host ==>
              AddTask(AddServer(w, host), other, core, timed).tasks == AddTask(w, other, core, timed).tasks
  {
    var entries := AddServer(w, host).entries;
    FindEntryIs(entries, host);
    assert entries[|w.entries|].name == host;
    if other != host {
      FindEntryIs(entries, other);
      FindEntryIs(w.entries, other);
      assert forall j :: 0 <= j < |w.entries| ==> entries[j] == w.entries[j];
    }
  }

  predicate SameTask(t: TaskV, t': TaskV) {
    t'.born == t.born && t'.timed == t.timed && t'.sess == t.sess
  }

  lemma StepSameTask(w: World, l: Label, i: nat)
    requires i < |w.tasks|
    ensures |w.tasks| <= |StepTo(w, l).tasks| && SameTask(w.tasks[i], StepTo(w, l).tasks[i])
    ensures !l.AddJob? ==> |StepTo(w, l).tasks| == |w.tasks|
  {
    hide Tasks.Run;
    hide SessFire;
    hide DnsFire;
    match l
    case ScanTasks =>
      ScanSame(w, 0);
      assert SameWork(w.tasks[i], Scan(w, 0).w.tasks[i]);
    case ScanHosts => ConnectScanOutcome(w);
    case _ =>
  }

  /** What a task was added with stays on every run. */
  lemma {:induction false} RunSameTask(w: World, labels: seq<Label>, i: nat)
    requires i < |w.tasks|
    ensures |w.tasks| <= |Runs.Run(w, labels).tasks| && SameTask(w.tasks[i], Runs.Run(w, labels).tasks[i])
  {
    if labels != [] {
      var before := labels[..|labels| - 1];
      RunSameTask(w, before, i);
      StepSameTask(Runs.Run(w, before), labels[|labels| - 1], i);
    }
  }

  lemma SessName(t: Timing, e: Entry, ev: EvType, net: Net)
    ensures SessFire(t, e, ev, net).e.name == e.name && SessFire(t, e, ev, net).e.dnsPending == e.dnsPending
  {
  }

  lemma DnsName(t: Timing, e: Entry, ans: DnsAnswer, net: Net)
    ensures DnsFire(t, e, ans, net).e.name == e.name
  {
  }

  lemma StepName(w: World, l: Label, j: nat)
    requires j < |w.entries|
    ensures j < |StepTo(w, l).entries| && StepTo(w, l).entries[j].name == w.entries[j].name
  {
    hide Tasks.Run;
    hide SessFire;
    hide DnsFire;
    match l
    case ScanTasks =>
      ScanSame(w, 0);
      assert SameHostState(w.entries[j], Scan(w, 0).w.entries[j]);
    case ScanHosts => FirstNewIs(w.entries);
    case Callback(f) =>
      if Enabled(w, f) && f.entry == j {
        if f.DnsFiring? {
          DnsName(w.timing, w.entries[j], f.ans, f.net);
        } else {
          SessName(w.timing, w.entries[j], f.ev, f.net);
        }
      }
    case _ =>
  }

  lemma {:induction false} RunName(w: World, labels: seq<Label>, j: nat)
    requires j < |w.entries|
    ensures j < |Runs.Run(w, labels).entries| && Runs.Run(w, labels).entries[j].name == w.entries[j].name
  {
    if labels != [] {
      var before := labels[..|labels| - 1];
      RunName(w, before, j);
      StepName(Runs.Run(w, before), labels[|labels| - 1], j);
    }
  }

  /** On every run, before and after it was added, a task belongs to the first
      host of the name given that had been added by then, and to none if there
      was none; its timer is the one asked for. */
  lemma TaskOfHost(labels: seq<Label>, more: seq<Label>, host: string, core: Core, timed: bool)
    ensures var w := Runs.Run(EMPTY_WORLD, labels);
            var w' := Runs.Run(EMPTY_WORLD, labels + [AddJob(host, core, timed)] + more);
            && |w.tasks| < |w'.tasks|
            && var t := w'.tasks[|w.tasks|];
               && t.born == core && t.timed == timed
               && match t.sess
                  case Some(j) =>
                    && j < |w.entries| && j < |w'.entries| && w'.entries[j].name == host
                    && forall a :: 0 <= a < j ==> w.entries[a].name != host
                  case None => forall a :: 0 <= a < |w.entries| ==> w.entries[a].name != host
  {
    var w := Runs.Run(EMPTY_WORLD, labels);
    var job := AddJob(host, core, timed);
    RunAppend(EMPTY_WORLD, labels + [job], more);
    RunAppend(EMPTY_WORLD, labels, [job]);
    RunOne(w, job);
    var added := AddTask(w, host, core, timed);
    FindEntryIs(w.entries, host);
    RunSameTask(added, more, |w.tasks|);
    if added.tasks[|w.tasks|].sess.Some? {
      RunName(added, more, added.tasks[|w.tasks|].sess.value);
    }
  }

  // ---------------------------------------------------------------------------
  // The timer of a task

  /** Step `n` of the run is the expiry of task `i`'s timer. */
  predicate TimerAt(labels: seq<Label>, n: nat, i: nat) {
    n < |labels| && labels[n].Callback? && TimerExpires(Runs.Run(EMPTY_WORLD, labels[..n]), labels[n].f, i)
  }

  lemma StepExpired(w: World, l: Label, i: nat)
    requires Sound(w) && i < |StepTo(w, l).tasks|
    ensures StepTo(w, l).tasks[i].expired <==>
              (i < |w.tasks| && w.tasks[i].expired) || (l.Callback? && i < |w.tasks| && TimerExpires(w, l.f, i))
  {
    hide Sound;
    hide TimerExpires;
    match l
    case Callback(f) =>
      FireLength(w, f);
      ExpiredBy(w, f, i);
    case ScanTasks =>
      ScanSame(w, 0);
      assert SameWork(w.tasks[i], Scan(w, 0).w.tasks[i]);
    case ScanHosts => FirstNewIs(w.entries);
    case _ =>
  }

  lemma FireLength(w: World, f: Firing)
    ensures |Fire(w, f).tasks| == |w.tasks|
  {
  }

  lemma TimerOwns(w: World, f: Firing, i: nat)
    requires Sound(w) && TimerExpires(w, f, i)
    ensures i < |w.tasks|
  {
  }

  /** On every run, a task counts as ended by its timer exactly if some callback
      of the run was the expiry of that timer and nothing else; it is then in
      ERROR, was added with a timer, and a command shows exit status 1. */
  lemma {:induction false} TimerEndedIff(w: World, labels: seq<Label>, i: nat)
    requires Reached(w, labels) && i < |w.tasks|
    ensures w.tasks[i].expired <==> exists n: nat :: TimerAt(labels, n, i)
    ensures w.tasks[i].expired ==>
              && w.tasks[i].core.stat == StatError && w.tasks[i].timed
              && (w.tasks[i].core.job.Exec? ==> w.tasks[i].core.job.ex.retCode == 1)
    decreases |labels|
  {
    ReachedSound(w, labels);
    if labels != [] {
      var last := |labels| - 1;
      var before := labels[..last];
      var b := Runs.Run(EMPTY_WORLD, before);
      ReachedSound(b, before);
      StepExpired(b, labels[last], i);
      if i < |b.tasks| {
        TimerEndedIff(b, before, i);
      }
      TimerSplit(labels, i);
    }
  }

  lemma TimerSplit(labels: seq<Label>, i: nat)
    requires labels != [] && PossibleRun(labels)
    ensures var last := |labels| - 1;
            var b := Runs.Run(EMPTY_WORLD, labels[..last]);
            (exists n: nat :: TimerAt(labels, n, i)) <==>
              (i < |b.tasks| && exists n: nat :: TimerAt(labels[..last], n, i))
              || (labels[last].Callback? && i < |b.tasks| && TimerExpires(b, labels[last].f, i))
  {
    hide TimerExpires;
    hide Runs.Run;
    var last := |labels| - 1;
    var before := labels[..last];
    var b := Runs.Run(EMPTY_WORLD, before);
    forall n: nat | n < last ensures TimerAt(labels, n, i) <==> TimerAt(before, n, i) {
      assert labels[..n] == before[..n] && labels[n] == before[n];
    }
    if n: nat :| TimerAt(labels, n, i) {
      TimerInTasks(labels, n, i);
      if n < last {
        assert TimerAt(before, n, i);
      }
    }
    if labels[last].Callback? && i < |b.tasks| && TimerExpires(b, labels[last].f, i) {
      assert TimerAt(labels, last, i);
    }
  }

  lemma TimerInTasks(labels: seq<Label>, n: nat, i: nat)
    requires PossibleRun(labels) && TimerAt(labels, n, i)
    ensures i < |Runs.Run(EMPTY_WORLD, labels[..|labels| - 1]).tasks|
  {
    var w := Runs.Run(EMPTY_WORLD, labels[..n]);
    ReachedSound(w, labels[..n]);
    TimerOwns(w, labels[n].f, i);
    var rest := labels[n..|labels| - 1];
    assert labels[..|labels| - 1] == labels[..n] + rest;
    RunAppend(EMPTY_WORLD, labels[..n], rest);
    RunSameTask(w, rest, i);
  }

  // ---------------------------------------------------------------------------
  // The handshake of a host on a run

  /** On every run a host that is connecting, with its event pending, waits for
      the socket to become writable. */
  lemma ConnectingWaits(w: World, labels: seq<Label>, j: nat)
    requires Reached(w, labels) && j < |w.entries|
    requires w.entries[j].stat == SessWaitConn && w.entries[j].slot.SessSlot?
    ensures CanFire(w.entries[j].slot, EvType(false, false, true))
  {
    ReachedSound(w, labels);
  }

  /** The callbacks that libevent makes for host `j` on a run from `w`. */
  function EventsOf(w: World, labels: seq<Label>, j: nat): seq<Event> {
    if labels == [] then []
    else
      var before := labels[..|labels| - 1];
      var l := labels[|labels| - 1];
      var b := Runs.Run(w, before);
      EventsOf(w, before, j)
      + if l.Callback? && l.f.EvFiring? && l.f.entry == j && Enabled(b, l.f) && b.entries[j].slot.SessSlot?
        then [Event(b.timing, l.f.ev, l.f.net)] else []
  }

  /** No call of pssh_connect times out on the run. */
  predicate NoTimeout(w: World, labels: seq<Label>) {
    labels == [] ||
    (var before := labels[..|labels| - 1];
     NoTimeout(w, before) && !(labels[|labels| - 1].ScanHosts? && ConnectScan(Runs.Run(w, before)).out.TimedOut?))
  }

  function NextState(stat: SessStat, ev: EvType, net: Net): SessStat {
    match stat
    case SessResolved =>
      (match net.conn case InProgress => SessWaitConn case Immediate => SessResolved case _ => SessError)
    case SessWaitConn => if !ev.write then stat else if net.sockOk then SessDoneConn else SessError
    case SessDoneConn => (match net.lib case LibOk => SessWaitAuth case LibAgain => stat case LibFailed => SessError)
    case SessWaitAuth => (match net.lib case LibOk => SessConnected case LibAgain => stat case LibFailed => SessError)
    case _ => stat
  }

  /** The state after an event depends on nothing else of the host. */
  lemma StateAfter(t: Timing, e: Entry, ev: EvType, net: Net)
    ensures SessFire(t, e, ev, net).e.stat == if Closes(t, ev, net) then e.stat else NextState(e.stat, ev, net)
  {
  }

  lemma StateAlone(t: Timing, e: Entry, e': Entry, ev: EvType, net: Net)
    requires e.stat == e'.stat
    ensures SessFire(t, e, ev, net).e.stat == SessFire(t, e', ev, net).e.stat
  {
    hide SessFire;
    hide NextState;
    StateAfter(t, e, ev, net);
    StateAfter(t, e', ev, net);
  }

  lemma StepHostState(w: World, l: Label, j: nat)
    requires Sound(w) && j < |w.entries| && !w.entries[j].dnsPending
    requires !(l.ScanHosts? && ConnectScan(w).out.TimedOut?)
    ensures var w' := StepTo(w, l);
            && j < |w'.entries| && !w'.entries[j].dnsPending
            && w'.entries[j].stat ==
                 (if l.Callback? && l.f.EvFiring? && l.f.entry == j && Enabled(w, l.f) && w.entries[j].slot.SessSlot?
                  then SessFire(w.timing, w.entries[j], l.f.ev, l.f.net).e.stat else w.entries[j].stat)
            && (w'.entries[j].slot.SessSlot? ==>
                  w.entries[j].slot.SessSlot?
                  && !(l.Callback? && l.f.EvFiring? && l.f.entry == j && Enabled(w, l.f) && Closes(w.timing, l.f.ev, l.f.net)))
  {
    hide SessFire;
    hide TaskFire;
    hide TaskOk;
    hide PathOk;
    match l
    case ScanTasks =>
      ScanSame(w, 0);
      assert SameHostState(w.entries[j], Scan(w, 0).w.entries[j]);
    case ScanHosts => ConnectScanOutcome(w);
    case Callback(f) =>
      if Enabled(w, f) && f.entry == j {
        FireParts(w, f);
        if !w.entries[j].slot.TaskSlot? {
          SessName(w.timing, w.entries[j], f.ev, f.net);
          if Closes(w.timing, f.ev, f.net) {
            ClosedIdle(w.timing, w.entries[j], f.ev, f.net);
          }
        }
      }
    case _ =>
  }

  lemma ClosedIdle(t: Timing, e: Entry, ev: EvType, net: Net)
    requires Closes(t, ev, net)
    ensures SessFire(t, e, ev, net).e == e.(slot := Idle)
  {
  }

  /** The state of a host on a run is what its own callbacks make of it. */
  lemma {:induction false} HostAlone(w: World, labels: seq<Label>, j: nat)
    requires Sound(w) && PossibleRun(labels) && NoTimeout(w, labels) && j < |w.entries| && !w.entries[j].dnsPending
    ensures var w' := Runs.Run(w, labels);
            && j < |w'.entries| && !w'.entries[j].dnsPending
            && w'.entries[j].stat == FireEach(w.entries[j], EventsOf(w, labels, j)).stat
  {
    hide SessFire;
    hide Sound;
    if labels != [] {
      var before := labels[..|labels| - 1];
      var l := labels[|labels| - 1];
      var b := Runs.Run(w, before);
      HostAlone(w, before, j);
      RunSound(w, before);
      StepHostState(b, l, j);
      hide StepTo;
      if EventsOf(w, labels, j) != EventsOf(w, before, j) {
        var x := Event(b.timing, l.f.ev, l.f.net);
        FireEachAppend(w.entries[j], EventsOf(w, before, j), [x]);
        FireOne(FireEach(w.entries[j], EventsOf(w, before, j)), x);
        StateAlone(b.timing, b.entries[j], FireEach(w.entries[j], EventsOf(w, before, j)), l.f.ev, l.f.net);
      }
    }
  }

  lemma DecidingGrow(events: seq<Event>, x: Event)
    requires NoneCloses(Deciding(events)) && Deciding(events) == events
    ensures NoneCloses(Deciding(events + [x]))
    ensures Deciding(events + [x]) != events + [x] <==> Closes(x.t, x.ev, x.net)
  {
    assert (events + [x])[..|events|] == events;
  }

  /** After a timer expiry that closes the window the host gets no callback. */
  lemma {:induction false} LastCloses(w: World, labels: seq<Label>, j: nat)
    requires Sound(w) && PossibleRun(labels) && NoTimeout(w, labels) && j < |w.entries| && !w.entries[j].dnsPending
    ensures var events := EventsOf(w, labels, j);
            && NoneCloses(Deciding(events))
            && j < |Runs.Run(w, labels).entries|
            && (events != Deciding(events) ==> !Runs.Run(w, labels).entries[j].slot.SessSlot?)
  {
    hide SessFire;
    hide Sound;
    hide Closes;
    if labels != [] {
      var before := labels[..|labels| - 1];
      var l := labels[|labels| - 1];
      var b := Runs.Run(w, before);
      var events := EventsOf(w, before, j);
      LastCloses(w, before, j);
      HostAlone(w, before, j);
      RunSound(w, before);
      StepHostState(b, l, j);
      hide StepTo;
      hide NoneCloses;
      hide Deciding;
      if l.Callback? && l.f.EvFiring? && l.f.entry == j && Enabled(b, l.f) && b.entries[j].slot.SessSlot? {
        DecidingGrow(events, Event(b.timing, l.f.ev, l.f.net));
      } else {
        assert EventsOf(w, labels, j) == events;
      }
    }
  }

  /** The events but for a last one that closes the window. */
  function Deciding(events: seq<Event>): seq<Event> {
    if events == [] then []
    else
      var last := events[|events| - 1];
      if Closes(last.t, last.ev, last.net) then events[..|events| - 1] else events
  }

  lemma DecidingDecides(e: Entry, events: seq<Event>)
    ensures FireEach(e, Deciding(events)).stat == FireEach(e, events).stat
  {
    if events != Deciding(events) {
      var x := events[|events| - 1];
      ClosedIdle(x.t, FireEach(e, events[..|events| - 1]), x.ev, x.net);
    }
  }

  /** The handshake on every run without a timeout, whatever goes on elsewhere: a
      host in WAIT_CONN gets connected exactly when the first writable event that
      libevent reports for it finds no socket error, the first answer to the
      startup behind it is OK and the first answer to the authentication behind
      that one is OK; it fails exactly when the first bad one of these has come;
      and otherwise it is still at the one that has not. */
  lemma HandshakeOnRun(w: World, labels: seq<Label>, j: nat)
    requires Sound(w) && PossibleRun(labels) && NoTimeout(w, labels) && j < |w.entries|
    requires w.entries[j].stat == SessWaitConn
    ensures j < |Runs.Run(w, labels).entries|
    ensures Runs.Run(w, labels).entries[j].stat == ConnVerdict(Deciding(EventsOf(w, labels, j)))
  {
    HostAlone(w, labels, j);
    LastCloses(w, labels, j);
    DecidingDecides(w.entries[j], EventsOf(w, labels, j));
    HandshakeIff(w.entries[j], Deciding(EventsOf(w, labels, j)));
  }

  // ---------------------------------------------------------------------------
  // pssh_connect

  lemma {:induction false} FireAllTimeout(w: World, batch: seq<Firing>)
    ensures FireAll(w, batch).timing.timeout == w.timing.timeout
    decreases |batch|
  {
    if batch != [] {
      StepTimeout(w, Callback(batch[0]));
      FireAllTimeout(Fire(w, batch[0]), batch[1..]);
    }
  }

  lemma {:induction false} LoopTimeout(w: World, sched: seq<seq<Firing>>)
    ensures ConnectLoop(w, sched).w.timing.timeout == w.timing.timeout
    decreases |sched|
  {
    var s := ConnectScan(w);
    StepTimeout(w, ScanHosts);
    if s.out.ConnWaiting? && sched != [] {
      FireAllTimeout(s.w, sched[0]);
      LoopTimeout(FireAll(s.w, sched[0]), sched[1..]);
    }
  }

  /** A call stores its argument, and is a run that does so first. */
  lemma ConnectStores(w: World, timeout: int, sched: seq<seq<Firing>>)
    ensures var r := Connect(w, timeout, sched);
            && r.w.timing.timeout == timeout
            && r.w == Runs.Run(w, [NewTimeout(timeout)] + ConnectLabels(SetTimeout(w, timeout), sched))
  {
    LoopTimeout(SetTimeout(w, timeout), sched);
    ConnectIsRun(SetTimeout(w, timeout), sched);
    RunOne(w, NewTimeout(timeout));
    RunAppend(w, [NewTimeout(timeout)], ConnectLabels(SetTimeout(w, timeout), sched));
  }
}
