/** Whole runs of a client: any interleaving of callbacks, scans of the two
    drivers, and additions of hosts and tasks. */
module Runs {
  import opened Base
  import opened Tasks
  import opened Sessions
  import opened Worlds
  import opened Scheduling
  import opened Handshakes
  import opened Connecting

  datatype Label =
    | Callback(f: Firing)
    | ScanTasks
    | NewTimeout(timeout: int)
    | ScanHosts
    | AddHost(host: string)
    | AddJob(host: string, core: Core, timed: bool)

  function StepTo(w: World, l: Label): World {
    match l
    case Callback(f) => Fire(w, f)
    case ScanTasks => Scan(w, 0).w
    case NewTimeout(timeout) => SetTimeout(w, timeout)
    case ScanHosts => ConnectScan(w).w
    case AddHost(host) => AddServer(w, host)
    case AddJob(host, core, timed) => AddTask(w, host, core, timed)
  }

  /** Tasks are added new. */
  predicate Possible(l: Label) {
    l.AddJob? ==> NewCore(l.core)
  }

  predicate PossibleRun(labels: seq<Label>) {
    forall n :: 0 <= n < |labels| ==> Possible(labels[n])
  }

  /** ... and pssh_connect does not time out while a task is in flight. */
  predicate Allowed(w: World, l: Label) {
    Possible(l) && (l.ScanHosts? && ConnectScan(w).out.TimedOut? ==> Quiescent(w))
  }

  function Run(w: World, labels: seq<Label>): World {
    if labels == [] then w else StepTo(Run(w, labels[..|labels| - 1]), labels[|labels| - 1])
  }

  predicate AllowedRun(w: World, labels: seq<Label>) {
    labels == [] ||
    (AllowedRun(w, labels[..|labels| - 1]) && Allowed(Run(w, labels[..|labels| - 1]), labels[|labels| - 1]))
  }

  lemma AddServerSound(w: World, host: string)
    requires Sound(w)
    ensures Sound(AddServer(w, host))
  {
    AddServerHosts(w, host);
    AddServerTasks(w, host);
    hide HostsOk;
    hide TasksOk;
  }

  lemma AddServerHosts(w: World, host: string)
    requires HostsOk(w)
    ensures HostsOk(AddServer(w, host))
  {
    var w' := AddServer(w, host);
    var e := w'.entries[|w.entries|];
    assert PhaseOk(e, w.timing.isTimeout);
    hide PhaseOk;
    forall j | 0 <= j < |w'.entries| ensures PhaseOk(w'.entries[j], w'.timing.isTimeout) {
      if j < |w.entries| {
        assert w'.entries[j] == w.entries[j];
      }
    }
  }

  lemma AddServerTasks(w: World, host: string)
    requires TasksOk(w)
    ensures TasksOk(AddServer(w, host))
  {
    hide TaskOk;
  }

  lemma AddServerTurns(w: World, host: string)
    requires Inv(w)
    ensures var w' := AddServer(w, host);
            OwnersInTurn(w') && BegunOwn(w')
  {
    hide TaskOk;
    hide PhaseOk;
  }

  lemma AddServerKeeps(w: World, host: string)
    requires Inv(w)
    ensures Inv(AddServer(w, host))
  {
    var w' := AddServer(w, host);
    AddServerSound(w, host);
    AddServerTurns(w, host);
    OrderSame(w, w');
    NoTasksNoTrace(w.tasks, |w.entries|);
    hide HostsOk;
    hide OwnersOk;
    hide TaskOk;
  }

  lemma {:induction false} NoTasksNoTrace(tasks: seq<TaskV>, j: nat)
    requires forall i :: 0 <= i < |tasks| ==> tasks[i].sess != Some(j)
    ensures Sequential(tasks, j) == []
  {
    if tasks != [] {
      NoTasksNoTrace(tasks[..|tasks| - 1], j);
    }
  }

  lemma {:induction false} FindEntryIs(entries: seq<Entry>, name: string)
    ensures match FindEntry(entries, name)
            case Some(i) => i < |entries| && entries[i].name == name && forall a :: 0 <= a < i ==> entries[a].name != name
            case None => forall a :: 0 <= a < |entries| ==> entries[a].name != name
  {
    if entries != [] {
      FindEntryIs(entries[1..], name);
      forall a | 0 < a < |entries| ensures entries[a] == entries[1..][a - 1] {
      }
    }
  }

  lemma AddTaskSound(w: World, host: string, core: Core, timed: bool)
    requires Sound(w) && NewCore(core)
    ensures Sound(AddTask(w, host, core, timed))
  {
    FindEntryIs(w.entries, host);
    NewCoreOk(core);
  }

  lemma AddTaskTurns(w: World, host: string, core: Core, timed: bool)
    requires Inv(w) && NewCore(core)
    ensures var w' := AddTask(w, host, core, timed);
            OwnersInTurn(w') && BegunOwn(w')
  {
    var w' := AddTask(w, host, core, timed);
    assert Fresh(w'.tasks[|w.tasks|]);
  }

  lemma AddTaskOrder(w: World, host: string, core: Core, timed: bool)
    requires InOrder(w) && NewCore(core)
    ensures InOrder(AddTask(w, host, core, timed))
  {
    var w' := AddTask(w, host, core, timed);
    forall a, b | 0 <= a < b < |w'.tasks| && SameHost(w', a, b)
      ensures Finished(w'.tasks[a]) || Fresh(w'.tasks[b])
    {
      if b < |w.tasks| {
        assert SameHost(w, a, b);
      }
    }
  }

  lemma AddTaskKeeps(w: World, host: string, core: Core, timed: bool)
    requires Inv(w) && NewCore(core)
    ensures Inv(AddTask(w, host, core, timed))
  {
    var w' := AddTask(w, host, core, timed);
    var n := |w.tasks|;
    AddTaskSound(w, host, core, timed);
    AddTaskTurns(w, host, core, timed);
    AddTaskOrder(w, host, core, timed);
    assert TracesOk(w') by {
      assert w'.tasks[..n] == w.tasks;
      assert Repeat(n, w'.tasks[n].acts) == [];
    }
  }

  /** Every step keeps what holds on every run. */
  lemma StepSound(w: World, l: Label)
    requires Sound(w) && Possible(l)
    ensures Sound(StepTo(w, l))
  {
    hide Sound;
    match l
    case Callback(f) => FireSound(w, f);
    case ScanTasks => ScanSound(w, 0);
    case NewTimeout(timeout) => TimingSound(w, w.timing.(timeout := timeout));
    case ScanHosts => ConnectScanSound(w);
    case AddHost(host) => AddServerSound(w, host);
    case AddJob(host, core, timed) => AddTaskSound(w, host, core, timed);
  }

  lemma {:induction false} RunSound(w: World, labels: seq<Label>)
    requires Sound(w) && PossibleRun(labels)
    ensures Sound(Run(w, labels))
  {
    hide Sound;
    if labels != [] {
      var before := labels[..|labels| - 1];
      RunSound(w, before);
      StepSound(Run(w, before), labels[|labels| - 1]);
    }
  }

  /** Every allowed step keeps the invariant. */
  lemma StepKeeps(w: World, l: Label)
    requires Inv(w) && Allowed(w, l)
    ensures Inv(StepTo(w, l))
  {
    match l
    case Callback(f) => FireKeeps(w, f);
    case ScanTasks => ScanKeeps(w, 0);
    case NewTimeout(timeout) => TimingKeeps(w, w.timing.(timeout := timeout));
    case ScanHosts =>
      if ConnectScan(w).out.TimedOut? {
        TimeoutKeepsIff(w);
      } else {
        NotTimedOutKeeps(w);
      }
    case AddHost(host) => AddServerKeeps(w, host);
    case AddJob(host, core, timed) => AddTaskKeeps(w, host, core, timed);
  }

  /** So does every allowed run. */
  lemma {:induction false} RunKeepsInv(w: World, labels: seq<Label>)
    requires Inv(w) && AllowedRun(w, labels)
    ensures Inv(Run(w, labels))
  {
    if labels != [] {
      var before := labels[..|labels| - 1];
      RunKeepsInv(w, before);
      StepKeeps(Run(w, before), labels[|labels| - 1]);
    }
  }

  /** On a run whatsoever. */
  predicate Reached(w: World, labels: seq<Label>) {
    PossibleRun(labels) && w == Run(EMPTY_WORLD, labels)
  }

  /** On a run in which pssh_connect never times out while a task is in flight. */
  predicate ReachedAllowed(w: World, labels: seq<Label>) {
    AllowedRun(EMPTY_WORLD, labels) && w == Run(EMPTY_WORLD, labels)
  }

  lemma {:induction false} AllowedIsPossible(w: World, labels: seq<Label>)
    requires AllowedRun(w, labels)
    ensures PossibleRun(labels)
  {
    if labels != [] {
      AllowedIsPossible(w, labels[..|labels| - 1]);
    }
  }

  lemma ReachedSound(w: World, labels: seq<Label>)
    requires Reached(w, labels)
    ensures Sound(w)
  {
    assert Sound(EMPTY_WORLD);
    RunSound(EMPTY_WORLD, labels);
  }

  lemma ReachedInv(w: World, labels: seq<Label>)
    requires ReachedAllowed(w, labels)
    ensures Inv(w)
  {
    assert Inv(EMPTY_WORLD);
    RunKeepsInv(EMPTY_WORLD, labels);
  }

  // ---------------------------------------------------------------------------
  // Calls are runs

  lemma {:induction false} RunAppend(w: World, a: seq<Label>, b: seq<Label>)
    ensures Run(w, a + b) == Run(Run(w, a), b)
    decreases |b|
  {
    if b == [] {
      assert a + b == a;
    } else {
      var n := |b| - 1;
      assert (a + b)[..|a + b| - 1] == a + b[..n];
      RunAppend(w, a, b[..n]);
    }
  }

  function Callbacks(batch: seq<Firing>): seq<Label> {
    if batch == [] then [] else [Callback(batch[0])] + Callbacks(batch[1..])
  }

  lemma {:induction false} FireAllIsRun(w: World, batch: seq<Firing>)
    ensures FireAll(w, batch) == Run(w, Callbacks(batch))
    decreases |batch|
  {
    if batch != [] {
      FireAllIsRun(Fire(w, batch[0]), batch[1..]);
      RunAppend(w, [Callback(batch[0])], Callbacks(batch[1..]));
      RunOne(w, Callback(batch[0]));
    }
  }

  lemma RunOne(w: World, l: Label)
    ensures Run(w, [l]) == StepTo(w, l)
  {
    assert [l][..0] == [];
  }

  function ExecLabels(w: World, sched: seq<seq<Firing>>): seq<Label>
    decreases |sched|
  {
    var s := Scan(w, 0);
    if s.reported.Some? || AllCounted(s.w) || sched == [] then [ScanTasks]
    else [ScanTasks] + (Callbacks(sched[0]) + ExecLabels(FireAll(s.w, sched[0]), sched[1..]))
  }

  /** A call of pssh_exec is a run of scans and callbacks. */
  lemma {:induction false} ExecIsRun(w: World, sched: seq<seq<Firing>>)
    ensures ExecCall(w, sched).w == Run(w, ExecLabels(w, sched))
    decreases |sched|
  {
    var s := Scan(w, 0);
    RunOne(w, ScanTasks);
    if !(s.reported.Some? || AllCounted(s.w) || sched == []) {
      var next := FireAll(s.w, sched[0]);
      var rest := ExecLabels(next, sched[1..]);
      FireAllIsRun(s.w, sched[0]);
      ExecIsRun(next, sched[1..]);
      RunAppend(s.w, Callbacks(sched[0]), rest);
      RunAppend(w, [ScanTasks], Callbacks(sched[0]) + rest);
    }
  }

  function ConnectLabels(w: World, sched: seq<seq<Firing>>): seq<Label>
    decreases |sched|
  {
    var s := ConnectScan(w);
    if !s.out.ConnWaiting? || sched == [] then [ScanHosts]
    else [ScanHosts] + (Callbacks(sched[0]) + ConnectLabels(FireAll(s.w, sched[0]), sched[1..]))
  }

  /** And so is a call of pssh_connect. */
  lemma {:induction false} ConnectIsRun(w: World, sched: seq<seq<Firing>>)
    ensures ConnectLoop(w, sched).w == Run(w, ConnectLabels(w, sched))
    decreases |sched|
  {
    var s := ConnectScan(w);
    RunOne(w, ScanHosts);
    if s.out.ConnWaiting? && sched != [] {
      var next := FireAll(s.w, sched[0]);
      var rest := ConnectLabels(next, sched[1..]);
      FireAllIsRun(s.w, sched[0]);
      ConnectIsRun(next, sched[1..]);
      RunAppend(s.w, Callbacks(sched[0]), rest);
      RunAppend(w, [ScanHosts], Callbacks(sched[0]) + rest);
    }
  }

  // ---------------------------------------------------------------------------
  // Refinement to a sequential executor

  /** On every allowed run, the activations on each host are those of running
      its tasks one after the other in list order, and each task that its timer
      did not end is what it would be if run alone. */
  lemma RunIsSequential(w: World, labels: seq<Label>)
    requires ReachedAllowed(w, labels)
    ensures forall j :: 0 <= j < |w.entries| ==> w.entries[j].trace == Sequential(w.tasks, j)
    ensures forall i :: 0 <= i < |w.tasks| && !w.tasks[i].expired && w.tasks[i].core.stat != StatNone ==>
              w.tasks[i].core == Nth(Begin(w.tasks[i].born), w.tasks[i].acts)
  {
    ReachedInv(w, labels);
  }

  /** The second half holds on every run. */
  lemma RunsAlone(w: World, labels: seq<Label>)
    requires Reached(w, labels)
    ensures forall i :: 0 <= i < |w.tasks| && !w.tasks[i].expired && w.tasks[i].core.stat != StatNone ==>
              w.tasks[i].core == Nth(Begin(w.tasks[i].born), w.tasks[i].acts)
  {
    ReachedSound(w, labels);
  }

  /** On every run the states of the two task machines do not mix. */
  lemma StatesOfRuns(w: World, labels: seq<Label>, i: nat)
    requires Reached(w, labels) && i < |w.tasks|
    ensures var c := w.tasks[i].core;
            && c.stat != StatStreamsReaded
            && (c.job.Copy? ==> c.stat != StatCmdRunning)
            && (c.job.Exec? ==> c.stat != StatDataTransfer)
  {
    ReachedSound(w, labels);
    StateSubsets(w.tasks[i].core, w.tasks[i].born);
  }

  /** On every allowed run a task with an open channel holds its host's slot, so no two
      tasks of one host have one at the same time; and a slot held by a task is
      held by an unfinished or failed one of that very host. */
  lemma SlotOwnership(w: World, labels: seq<Label>)
    requires ReachedAllowed(w, labels)
    ensures forall i :: 0 <= i < |w.tasks| && Begun(w.tasks[i]) ==>
              w.tasks[i].sess.Some? && w.tasks[i].sess.value < |w.entries| && Owns(w.entries[w.tasks[i].sess.value], i)
    ensures forall i, k :: 0 <= i < k < |w.tasks| && Begun(w.tasks[i]) && Begun(w.tasks[k]) ==>
              w.tasks[i].sess != w.tasks[k].sess
    ensures forall j :: 0 <= j < |w.entries| && w.entries[j].slot.TaskSlot? ==>
              var k := w.entries[j].slot.task;
              k < |w.tasks| && w.tasks[k].sess == Some(j) && w.tasks[k].core.stat != StatNone && w.tasks[k].core.stat != StatDone
  {
    ReachedInv(w, labels);
  }

  /** A callback of a task finds all earlier tasks of its host finished and all
      later ones untouched. */
  lemma CallbackInTurn(w: World, labels: seq<Label>, f: Firing)
    requires ReachedAllowed(w, labels) && Enabled(w, f) && f.EvFiring? && w.entries[f.entry].slot.TaskSlot?
    ensures var k := w.entries[f.entry].slot.task;
            && w.entries[f.entry].stat == SessConnected
            && w.tasks[k].sess == Some(f.entry)
            && forall i :: 0 <= i < |w.tasks| && w.tasks[i].sess == Some(f.entry) ==>
                 (i < k ==> Finished(w.tasks[i])) && (i > k ==> w.tasks[i].acts == 0)
  {
    ReachedInv(w, labels);
  }

  /** The result of a task does not depend on how the hosts are interleaved: two
      runs that bring the same task to its end agree on everything about it. */
  lemma SameResult(w1: World, run1: seq<Label>, i1: nat, w2: World, run2: seq<Label>, i2: nat)
    requires Reached(w1, run1) && i1 < |w1.tasks| && Finished(w1.tasks[i1]) && !w1.tasks[i1].expired
    requires Reached(w2, run2) && i2 < |w2.tasks| && Finished(w2.tasks[i2]) && !w2.tasks[i2].expired
    requires w1.tasks[i1].born == w2.tasks[i2].born
    ensures w1.tasks[i1].core == w2.tasks[i2].core
  {
    ReachedSound(w1, run1);
    ReachedSound(w2, run2);
    OneResult(Begin(w1.tasks[i1].born), w1.tasks[i1].acts, w2.tasks[i2].acts);
  }

  // ---------------------------------------------------------------------------
  // Termination

  lemma {:induction false} NthLive(c: Core, born: Core, n: nat)
    requires CoreOk(c, born) && c.stat != StatNone && Live(c)
    ensures Live(Nth(c, n))
  {
    hide Tasks.Run;
    hide CoreOk;
    hide Live;
    if n > 0 {
      NthLive(c, born, n - 1);
      NthOk(c, born, n - 1);
      if Terminal(Nth(c, n - 1)) {
        TerminalStays(Nth(c, n - 1));
      } else {
        RunShrinks(Nth(c, n - 1), born);
      }
    }
  }

  lemma CanEndLive(t: TaskV)
    requires TaskOk(t) && (t.expired || CanEnd(t.born))
    ensures Live(t.core)
  {
    if !t.expired && t.core.stat != StatNone {
      NewCoreOk(t.born);
      assert Live(Begin(t.born));
      NthLive(Begin(t.born), t.born, t.acts);
    }
  }

  /** After every allowed run, if every task added can come to an end, the
      client's loop does, whatever the event loop calls back as long as each of
      its turns calls back somebody: within as many turns as there are work,
      handshake steps, and callbacks on the way that make a host wait. With all
      hosts settled nobody waits, and each host adds at most one turn. Turns that
      call back a task are never more than the work. */
  lemma ClientTerminates(w: World, labels: seq<Label>, sched: seq<seq<Firing>>)
    requires ReachedAllowed(w, labels)
    requires forall i :: 0 <= i < |w.tasks| ==> w.tasks[i].expired || CanEnd(w.tasks[i].born)
    ensures ClientTurnCount(w, sched) <= Work(w)
    ensures ClientActive(w, sched) && |sched| > Potential(w) + ClientWaits(w, sched) ==>
              var c := Client(w, sched);
              && (c.out.ExecFailed? || c.out.ExecSuccess?)
              && c.calls == |c.reported| + 1
              && (forall i :: 0 <= i < |c.w.tasks| && OnConnected(c.w, c.w.tasks[i]) ==>
                    Finished(c.w.tasks[i]) && (c.w.tasks[i].core.stat == StatDone <==> c.w.tasks[i].isReported))
    ensures HostsSettled(w) ==> ClientWaits(w, sched) == 0 && Potential(w) <= Work(w) + |w.entries|
  {
    ReachedInv(w, labels);
    forall i | 0 <= i < |w.tasks| ensures Live(w.tasks[i].core) {
      CanEndLive(w.tasks[i]);
    }
    hide Inv;
    hide Work;
    hide Client;
    hide ClientActive;
    ClientBound(w, sched);
    ClientOutcome(w, sched);
    if ClientActive(w, sched) && |sched| > Potential(w) + ClientWaits(w, sched) {
      ClientEnds(w, sched);
    }
    if HostsSettled(w) {
      SettledClient(w, sched);
      SettledRanks(w.entries);
    }
  }

  /** And only then: a verdict is never given while a connected host has a task
      that cannot end and whose timer has not ended it. */
  lemma NoVerdictWhileStarved(w: World, labels: seq<Label>, sched: seq<seq<Firing>>, i: nat)
    requires ReachedAllowed(w, labels)
    requires var r := ExecCall(w, sched);
             && (r.out.ExecFailed? || r.out.ExecSuccess?)
             && i < |r.w.tasks| && OnConnected(r.w, r.w.tasks[i]) && !r.w.tasks[i].expired
    ensures CanEnd(ExecCall(w, sched).w.tasks[i].born)
  {
    ReachedInv(w, labels);
    ExecKeeps(w, sched);
    ExecOutcome(w, sched);
    var t := ExecCall(w, sched).w.tasks[i];
    assert EndsAt(Begin(t.born), t.acts);
    EndsExactlyWhenLive(t.born);
  }

  lemma ScanKeepsStranded(w: World, n: nat, i: nat)
    requires Stranded(w, i)
    ensures Stranded(Scan(w, n).w, i) && Scan(w, n).w.tasks[i].core == w.tasks[i].core
    decreases |w.tasks| - n
  {
    if n < |w.tasks| {
      var t := w.tasks[n];
      if OnConnected(w, t) && Unstarted(t) {
        ScanKeepsStranded(Grant(w, n), n + 1, i);
      } else if OnConnected(w, t) && t.core.stat == StatDone && !t.isReported {
      } else {
        ScanKeepsStranded(w, n + 1, i);
      }
    }
  }

  lemma SessNeverOwns(t: Timing, e: Entry, net: Net)
    ensures SessFsm(t, e, net).e.slot.TaskSlot? ==> SessFsm(t, e, net).e.slot == e.slot
  {
  }

  lemma CallbackKeepsStranded(w: World, f: Firing, i: nat)
    requires Stranded(w, i)
    ensures Stranded(Fire(w, f), i) && Fire(w, f).tasks[i] == w.tasks[i]
  {
    if Enabled(w, f) && f.DnsFiring? {
      var e := w.entries[f.entry];
      var got := e.(dnsPending := false);
      var got' := if !f.ans.ok && |e.name| >= HOST_ADDR_MAX then Goto(got, SessError) else got;
      SessNeverOwns(w.timing, Goto(got', SessResolved).(evUp := false), f.net);
    } else if Enabled(w, f) && !w.entries[f.entry].slot.TaskSlot? {
      SessNeverOwns(FirstExpiry(w.timing, f.ev, f.net.timerNow),
                    w.entries[f.entry].(slot := Idle, evType := f.ev, evUp := false), f.net);
    }
  }

  lemma StepKeepsStranded(w: World, l: Label, i: nat)
    requires Stranded(w, i)
    ensures Stranded(StepTo(w, l), i) && StepTo(w, l).tasks[i].core == w.tasks[i].core
  {
    match l
    case Callback(f) => CallbackKeepsStranded(w, f, i);
    case ScanTasks => ScanKeepsStranded(w, 0, i);
    case ScanHosts => FirstNewIs(w.entries);
    case _ =>
  }

  /** A stranded task never moves again, on any run whatsoever. */
  lemma {:induction false} StrandedForEver(w: World, labels: seq<Label>, i: nat)
    requires Stranded(w, i)
    ensures Stranded(Run(w, labels), i) && Run(w, labels).tasks[i].core == w.tasks[i].core
  {
    if labels != [] {
      var before := labels[..|labels| - 1];
      var b := Run(w, before);
      StrandedForEver(w, before, i);
      StepKeepsStranded(b, labels[|labels| - 1], i);
    }
  }

  // ---------------------------------------------------------------------------
  // Frozen results and exactly-once reports

  /** Nothing about the task has changed but, perhaps, its report mark. */
  predicate Frozen(t: TaskV, t': TaskV) {
    t' == t.(isReported := t'.isReported) && (t.isReported ==> t'.isReported)
  }

  lemma CallbackFreezes(w: World, f: Firing, i: nat)
    requires OwnersOk(w) && i < |w.tasks| && w.tasks[i].core.stat == StatDone
    ensures i < |Fire(w, f).tasks| && Fire(w, f).tasks[i] == w.tasks[i]
  {
    hide TaskFire;
    hide SessFire;
    hide DnsFire;
  }

  lemma StepFreezes(w: World, l: Label, i: nat)
    requires OwnersOk(w) && i < |w.tasks| && w.tasks[i].core.stat == StatDone
    ensures i < |StepTo(w, l).tasks| && Frozen(w.tasks[i], StepTo(w, l).tasks[i])
  {
    hide Fire;
    match l
    case ScanTasks =>
      ScanSame(w, 0);
      assert SameWork(w.tasks[i], Scan(w, 0).w.tasks[i]);
    case Callback(f) => CallbackFreezes(w, f, i);
    case _ =>
  }

  /** Once a task is DONE its state, buffers, lengths and exit code never change
      on any run. */
  lemma {:induction false} DoneIsFrozen(w: World, labels: seq<Label>, i: nat)
    requires Sound(w) && PossibleRun(labels) && i < |w.tasks| && w.tasks[i].core.stat == StatDone
    ensures i < |Run(w, labels).tasks| && Frozen(w.tasks[i], Run(w, labels).tasks[i])
  {
    if labels != [] {
      var before := labels[..|labels| - 1];
      DoneIsFrozen(w, before, i);
      RunSound(w, before);
      StepFreezes(Run(w, before), labels[|labels| - 1], i);
    }
  }

  lemma CallbackKeepsFailure(w: World, f: Firing, i: nat)
    requires i < |w.tasks| && w.tasks[i].core.stat == StatError
    ensures i < |Fire(w, f).tasks| && Fire(w, f).tasks[i].core.stat == StatError
  {
    if Enabled(w, f) && f.EvFiring? && w.entries[f.entry].slot.TaskSlot? {
      TerminalStays(w.tasks[i].core);
    }
  }

  lemma StepKeepsFailure(w: World, l: Label, i: nat)
    requires i < |w.tasks| && w.tasks[i].core.stat == StatError
    ensures i < |StepTo(w, l).tasks| && StepTo(w, l).tasks[i].core.stat == StatError
  {
    match l
    case ScanTasks =>
      ScanSame(w, 0);
      assert SameWork(w.tasks[i], Scan(w, 0).w.tasks[i]);
    case Callback(f) => CallbackKeepsFailure(w, f, i);
    case _ =>
  }

  /** Once a task is in ERROR it stays there. */
  lemma {:induction false} ErrorStays(w: World, labels: seq<Label>, i: nat)
    requires i < |w.tasks| && w.tasks[i].core.stat == StatError
    ensures i < |Run(w, labels).tasks| && Run(w, labels).tasks[i].core.stat == StatError
  {
    if labels != [] {
      var before := labels[..|labels| - 1];
      ErrorStays(w, before, i);
      StepKeepsFailure(Run(w, before), labels[|labels| - 1], i);
    }
  }

  /** How often task `i` is returned with PSSH_RUNNING on a run. */
  function TaskReports(w: World, labels: seq<Label>, i: nat): nat {
    if labels == [] then 0
    else
      var before := labels[..|labels| - 1];
      TaskReports(w, before, i) +
      if labels[|labels| - 1].ScanTasks? && Scan(Run(w, before), 0).reported == Some(i) then 1 else 0
  }

  lemma StepReport(w: World, l: Label, i: nat)
    ensures i < |w.tasks| && w.tasks[i].isReported ==> i < |StepTo(w, l).tasks| && StepTo(w, l).tasks[i].isReported
    ensures l.ScanTasks? && Scan(w, 0).reported == Some(i) ==>
              && i < |w.tasks| && !w.tasks[i].isReported
              && i < |StepTo(w, l).tasks| && StepTo(w, l).tasks[i].isReported
  {
    if l.ScanTasks? {
      ScanSame(w, 0);
      if i < |w.tasks| {
        assert SameWork(w.tasks[i], Scan(w, 0).w.tasks[i]);
      }
    }
  }

  /** Each task is returned at most once on any run. */
  lemma {:induction false} TaskReportedOnce(w: World, labels: seq<Label>, i: nat)
    ensures TaskReports(w, labels, i) <= 1
    ensures TaskReports(w, labels, i) == 1 || (i < |w.tasks| && w.tasks[i].isReported) ==>
              i < |Run(w, labels).tasks| && Run(w, labels).tasks[i].isReported
  {
    if labels != [] {
      var before := labels[..|labels| - 1];
      TaskReportedOnce(w, before, i);
      StepReport(Run(w, before), labels[|labels| - 1], i);
    }
  }

  /** How often host `j` is returned with PSSH_CONNECTED on a run. */
  function HostReports(w: World, labels: seq<Label>, j: nat): nat {
    if labels == [] then 0
    else
      var before := labels[..|labels| - 1];
      HostReports(w, before, j) +
      if labels[|labels| - 1].ScanHosts? && ConnectScan(Run(w, before)).out == Connected(j) then 1 else 0
  }

  lemma StepHost(w: World, l: Label, j: nat)
    requires Sound(w) && j < |w.entries|
    ensures j < |StepTo(w, l).entries|
    ensures w.entries[j].stat == SessConnected ==> StepTo(w, l).entries[j].stat == SessConnected
    ensures w.entries[j].isReported ==> StepTo(w, l).entries[j].isReported
    ensures l.ScanHosts? && ConnectScan(w).out == Connected(j) ==>
              !w.entries[j].isReported && StepTo(w, l).entries[j].isReported
  {
    match l
    case ScanTasks =>
      ScanSame(w, 0);
      assert SameHostState(w.entries[j], Scan(w, 0).w.entries[j]);
    case ScanHosts =>
      if ConnectScan(w).out.TimedOut? {
        TimeoutSettles(w);
      } else {
        ConnectScanOutcome(w);
      }
    case Callback(f) => CallbackHost(w, f, j);
    case _ =>
  }

  lemma CallbackHost(w: World, f: Firing, j: nat)
    requires Sound(w) && j < |w.entries|
    ensures |Fire(w, f).entries| == |w.entries|
    ensures w.entries[j].stat == SessConnected ==> Fire(w, f).entries[j].stat == SessConnected
    ensures w.entries[j].isReported ==> Fire(w, f).entries[j].isReported
  {
    hide Tasks.Run;
    hide TaskOk;
    if Enabled(w, f) && f.entry == j && f.EvFiring? && w.entries[j].slot.TaskSlot? {
      var k := w.entries[j].slot.task;
      TaskFireFired(w.tasks[k], w.entries[j], k, f.ev, f.lastIo, w.timing.isTimeout);
    }
  }

  /** CONNECTED is absorbing, and each host is returned at most once. */
  lemma {:induction false} HostReportedOnce(w: World, labels: seq<Label>, j: nat)
    requires Sound(w) && PossibleRun(labels) && j < |w.entries|
    ensures j < |Run(w, labels).entries|
    ensures w.entries[j].stat == SessConnected ==> Run(w, labels).entries[j].stat == SessConnected
    ensures HostReports(w, labels, j) <= 1
    ensures HostReports(w, labels, j) == 1 || w.entries[j].isReported ==> Run(w, labels).entries[j].isReported
  {
    if labels != [] {
      var before := labels[..|labels| - 1];
      HostReportedOnce(w, before, j);
      RunSound(w, before);
      StepHost(Run(w, before), labels[|labels| - 1], j);
    }
  }

  /** On every run, one slot serves two phases: it is the session machine's until
      the host is connected and the tasks' from then on, a pending DNS answer can
      only demote a host that is not connected, and a connected host has come
      through every state of the handshake since its DNS answer. */
  lemma TwoPhases(w: World, labels: seq<Label>, j: nat)
    requires Reached(w, labels) && j < |w.entries|
    ensures var e := w.entries[j];
            && (e.slot.SessSlot? ==> e.stat != SessConnected)
            && (e.slot.TaskSlot? ==> e.stat == SessConnected)
            && (!e.evUp ==> e.slot == Idle)
            && (e.stat == SessConnected ==> (e.evUp <==> e.slot.TaskSlot?))
            && (e.dnsPending ==> (e.stat == SessNone || e.stat == SessError) && e.slot == Idle)
            && (e.stat == SessConnected ==>
                  EndsWith(e.path, [SessResolved, SessWaitConn, SessDoneConn, SessWaitAuth, SessConnected]))
  {
    ReachedSound(w, labels);
  }

  // ---------------------------------------------------------------------------
  // The quiet window

  /** The clock is positive and does not run backwards along the run. */
  predicate Timely(labels: seq<Label>, start: int) {
    labels == [] ||
    (var l := labels[|labels| - 1];
     && Timely(labels[..|labels| - 1], start)
     && (l.Callback? ==> Clock(labels[..|labels| - 1], start) <= l.f.net.timerNow <= l.f.net.authNow && 0 < l.f.net.timerNow))
  }

  function Clock(labels: seq<Label>, start: int): int {
    if labels == [] then start
    else if labels[|labels| - 1].Callback? then labels[|labels| - 1].f.net.authNow
    else Clock(labels[..|labels| - 1], start)
  }

  /** The callback connects a host. */
  predicate Connects(w: World, f: Firing) {
    exists j :: 0 <= j < |w.entries| && j < |Fire(w, f).entries|
                && w.entries[j].stat != SessConnected && Fire(w, f).entries[j].stat == SessConnected
  }

  /** The callback is a timer expiry of a host. */
  predicate Expires(w: World, f: Firing) {
    Enabled(w, f) && f.EvFiring? && !w.entries[f.entry].slot.TaskSlot? && f.ev.timeout
  }

  /** The scan ends pssh_connect with TIMEOUT, FAILED or SUCCESS. */
  predicate Resets(w: World, l: Label) {
    l.ScanHosts? && (ConnectScan(w).out.TimedOut? || ConnectScan(w).out.ConnFailed? || ConnectScan(w).out.ConnSuccess?)
  }

  /** When, since the last such verdict, hosts got connected on the run, preceded
      by the first timer expiry if that came before all of them. */
  function Times(labels: seq<Label>): seq<int> {
    if labels == [] then []
    else
      var before := labels[..|labels| - 1];
      var l := labels[|labels| - 1];
      var w := Run(EMPTY_WORLD, before);
      if Resets(w, l) then []
      else if !l.Callback? then Times(before)
      else
        (if Times(before) == [] && Expires(w, l.f) then [l.f.net.timerNow] else Times(before))
        + if Connects(w, l.f) then [l.f.net.authNow] else []
  }

  lemma ConnectsThere(w: World, f: Firing)
    requires Sound(w)
    ensures Connects(w, f) <==>
              && Enabled(w, f) && f.EvFiring? && !w.entries[f.entry].slot.TaskSlot?
              && SessFire(w.timing, w.entries[f.entry], f.ev, f.net).e.stat == SessConnected
  {
    hide TaskFire;
    hide SessFire;
    hide DnsFire;
    hide TaskOk;
    hide PathOk;
    if Enabled(w, f) {
      var e := w.entries[f.entry];
      FireParts(w, f);
      if f.DnsFiring? {
        DnsFireKeeps(w.timing, e, f.ans, f.net);
      } else if !e.slot.TaskSlot? {
        assert Fire(w, f).entries[f.entry] == SessFire(w.timing, e, f.ev, f.net).e;
      }
    }
  }

  /** One step of the clock readings. */
  lemma CallbackMarks(w: World, f: Firing, now: int)
    requires Sound(w) && MarksOk(w.timing, now)
    requires now <= f.net.timerNow <= f.net.authNow && 0 < f.net.timerNow
    ensures var t, t' := w.timing, Fire(w, f).timing;
            && MarksOk(t', f.net.authNow)
            && t'.marks == (if t.marks == [] && Expires(w, f) then [f.net.timerNow] else t.marks)
                           + (if Connects(w, f) then [f.net.authNow] else [])
            && (!t.isTimeout && t'.isTimeout ==>
                  t.marks != [] && forall i :: 0 <= i < |t.marks| ==> f.net.timerNow - t.marks[i] >= t.timeout)
  {
    MarkKeeps(w.timing, now, f.net.authNow);
    ConnectsThere(w, f);
    hide Connects;
    hide SessFire;
    hide MarksOk;
    hide TaskFire;
    hide TaskOk;
    if Enabled(w, f) && !w.entries[f.entry].slot.TaskSlot? {
      var e := w.entries[f.entry];
      if f.EvFiring? {
        EventMarks(w.timing, e, f.ev, f.net, now);
      } else {
        DnsTiming(w.timing, e, f.ans, f.net);
      }
    }
  }

  lemma EventMarks(t: Timing, e: Entry, ev: EvType, net: Net, now: int)
    requires PhaseOk(e, t.isTimeout) && e.slot.SessSlot? && MarksOk(t, now)
    requires now <= net.timerNow <= net.authNow && 0 < net.timerNow
    ensures var r := SessFire(t, e, ev, net);
            && MarksOk(r.timing, net.authNow)
            && r.timing.marks == (if t.marks == [] && ev.timeout then [net.timerNow] else t.marks)
                                 + (if r.e.stat == SessConnected then [net.authNow] else [])
            && (!t.isTimeout && r.timing.isTimeout ==>
                  t.marks != [] && forall i :: 0 <= i < |t.marks| ==> net.timerNow - t.marks[i] >= t.timeout)
  {
    QuietWindow(t, e, ev, net, now);
    SessFireTiming(t, e, ev, net);
    hide SessFire;
  }

  lemma StepMarks(w: World, l: Label, now: int)
    requires Sound(w) && MarksOk(w.timing, now) && !l.Callback?
    ensures MarksOk(StepTo(w, l).timing, now)
    ensures StepTo(w, l).timing.marks == if Resets(w, l) then [] else w.timing.marks
    ensures StepTo(w, l).timing.isTimeout ==> w.timing.isTimeout
  {
    match l
    case ScanTasks => ScanSame(w, 0);
    case ScanHosts => ConnectScanOutcome(w);
    case _ =>
  }

  lemma NoReset(w: World, l: Label)
    ensures Resets(w, l) ==> l.ScanHosts?
  {
  }

  lemma DnsTiming(t: Timing, e: Entry, ans: DnsAnswer, net: Net)
    ensures DnsFire(t, e, ans, net).timing == t
  {
  }

  /** On every run with such a clock, last_connect is the last of the times at
      which the run connected a host since the last verdict, or its first timer
      expiry, and 0 if there is neither. */
  lemma {:induction false} RunMarks(labels: seq<Label>, start: int)
    requires PossibleRun(labels) && Timely(labels, start)
    ensures var t := Run(EMPTY_WORLD, labels).timing;
            && MarksOk(t, Clock(labels, start)) && t.marks == Times(labels)
            && t.lastConnect == if Times(labels) == [] then 0 else Times(labels)[|Times(labels)| - 1]
  {
    hide Expires;
    hide Connects;
    hide Resets;
    if labels != [] {
      var before := labels[..|labels| - 1];
      var l := labels[|labels| - 1];
      var w := Run(EMPTY_WORLD, before);
      RunMarks(before, start);
      ReachedSound(w, before);
      if l.Callback? {
        CallbackMarks(w, l.f, Clock(before, start));
        NoReset(w, l);
      } else {
        StepMarks(w, l, Clock(before, start));
      }
    }
  }

  /** Step `n` of the run connects a host, and no verdict follows it. */
  predicate ConnectedAt(labels: seq<Label>, n: nat) {
    && n < |labels| && labels[n].Callback? && Connects(Run(EMPTY_WORLD, labels[..n]), labels[n].f)
    && forall m :: n < m < |labels| ==> !Resets(Run(EMPTY_WORLD, labels[..m]), labels[m])
  }

  lemma {:induction false} ConnectionInTimes(labels: seq<Label>, n: nat)
    requires ConnectedAt(labels, n)
    ensures labels[n].f.net.authNow in Times(labels)
  {
    hide Connects;
    hide Resets;
    hide Run;
    var last := |labels| - 1;
    var before := labels[..last];
    if n < last {
      forall m | n < m < last ensures labels[..m] == before[..m] && labels[m] == before[m] {
      }
      assert labels[..n] == before[..n];
      ConnectionInTimes(before, n);
      assert !Resets(Run(EMPTY_WORLD, before), labels[last]);
    } else {
      NoReset(Run(EMPTY_WORLD, before), labels[n]);
      assert Times(labels)[|Times(labels)| - 1] == labels[n].f.net.authNow;
    }
  }

  /** The argument of the last call of pssh_connect. */
  function LastTimeout(labels: seq<Label>): int {
    if labels == [] then 0
    else if labels[|labels| - 1].NewTimeout? then labels[|labels| - 1].timeout
    else LastTimeout(labels[..|labels| - 1])
  }

  lemma StepTimeout(w: World, l: Label)
    ensures StepTo(w, l).timing.timeout == if l.NewTimeout? then l.timeout else w.timing.timeout
  {
    hide Tasks.Run;
    match l
    case ScanTasks => ScanSame(w, 0);
    case ScanHosts => ConnectScanOutcome(w);
    case _ =>
  }

  /** The window is as long as that call has asked for. */
  lemma {:induction false} TimeoutStored(labels: seq<Label>)
    ensures Run(EMPTY_WORLD, labels).timing.timeout == LastTimeout(labels)
  {
    if labels != [] {
      TimeoutStored(labels[..|labels| - 1]);
      StepTimeout(Run(EMPTY_WORLD, labels[..|labels| - 1]), labels[|labels| - 1]);
    }
  }

  /** Which callbacks raise the timeout. */
  lemma RaisedIff(w: World, f: Firing)
    requires Sound(w) && !w.timing.isTimeout
    ensures Fire(w, f).timing.isTimeout <==>
              Expires(w, f) && w.timing.lastConnect != 0 && f.net.timerNow >= w.timing.lastConnect + w.timing.timeout
  {
    hide Tasks.Run;
    hide TaskOk;
    hide PathOk;
    if Enabled(w, f) && f.EvFiring? && !w.entries[f.entry].slot.TaskSlot? {
      ClosingIff(w.timing, w.entries[f.entry], f.ev, f.net);
    } else if Enabled(w, f) && f.DnsFiring? {
      DnsTiming(w.timing, w.entries[f.entry], f.ans, f.net);
    }
  }

  /** The quiet window, both ways, on every run with such a clock: the timeout is
      raised by a timer expiry of a host that comes `timeout` seconds or more
      after the last time at which the run connected a host since the last
      verdict, or after its first timer expiry, and by nothing else; and the next
      scan of the hosts then gives PSSH_TIMEOUT. */
  lemma TimeoutRaisedIff(labels: seq<Label>, l: Label, start: int)
    requires PossibleRun(labels) && Timely(labels + [l], start)
    requires !Run(EMPTY_WORLD, labels).timing.isTimeout
    ensures var w, times := Run(EMPTY_WORLD, labels), Times(labels);
            var w' := StepTo(w, l);
            && (w'.timing.isTimeout <==>
                  l.Callback? && Expires(w, l.f) && times != []
                  && l.f.net.timerNow - times[|times| - 1] >= LastTimeout(labels))
            && (w'.timing.isTimeout ==> ConnectScan(w').out.TimedOut?)
  {
    var w := Run(EMPTY_WORLD, labels);
    assert (labels + [l])[..|labels + [l]| - 1] == labels;
    RunMarks(labels, start);
    TimeoutStored(labels);
    ReachedSound(w, labels);
    hide Run;
    hide Times;
    hide Expires;
    hide Sound;
    if l.Callback? {
      RaisedIff(w, l.f);
      if StepTo(w, l).timing.isTimeout {
        RaisedScan(w, l.f);
      }
    } else {
      StepMarks(w, l, Clock(labels, start));
    }
  }

  lemma RaisedScan(w: World, f: Firing)
    requires Expires(w, f) && Fire(w, f).timing.isTimeout
    ensures ConnectScan(Fire(w, f)).out.TimedOut?
  {
    ConnectScanOutcome(Fire(w, f));
  }

  /** The quiet window, on every run with such a clock: a step that raises the
      timeout is a callback, and every host that the run has connected since the
      last verdict was connected at least `timeout` seconds before it; so were
      the first timer expiry, and there is one of these. */
  lemma TimeoutMeansQuiet(labels: seq<Label>, l: Label, start: int)
    requires PossibleRun(labels) && Timely(labels + [l], start)
    requires !Run(EMPTY_WORLD, labels).timing.isTimeout && StepTo(Run(EMPTY_WORLD, labels), l).timing.isTimeout
    ensures var timeout := LastTimeout(labels);
            && l.Callback?
            && (forall n: nat :: ConnectedAt(labels, n) ==> l.f.net.timerNow - labels[n].f.net.authNow >= timeout)
            && Times(labels) != [] && forall i :: 0 <= i < |Times(labels)| ==> l.f.net.timerNow - Times(labels)[i] >= timeout
  {
    var w := Run(EMPTY_WORLD, labels);
    assert (labels + [l])[..|labels + [l]| - 1] == labels;
    RunMarks(labels, start);
    TimeoutStored(labels);
    ReachedSound(w, labels);
    if l.Callback? {
      CallbackMarks(w, l.f, Clock(labels, start));
      forall n: nat | ConnectedAt(labels, n)
        ensures l.f.net.timerNow - labels[n].f.net.authNow >= LastTimeout(labels)
      {
        ConnectionInTimes(labels, n);
      }
    } else {
      StepMarks(w, l, Clock(labels, start));
    }
  }
}
