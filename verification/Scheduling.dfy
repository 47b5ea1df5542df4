/** pssh_exec: the scan, the event loop and the verdict (src/task.c:750-811). */
module Scheduling {
  import opened Base
  import opened Tasks
  import opened Sessions
  import opened Worlds

  // ---------------------------------------------------------------------------
  // The scan keeps the invariant

  /** Among the first `n` tasks, every unstarted one of a connected host has
      found its host's slot taken, by itself or by another. */
  predicate Asked(w: World, n: nat) {
    forall a :: 0 <= a < n && a < |w.tasks| && OnConnected(w, w.tasks[a]) && Unstarted(w.tasks[a]) ==>
      w.entries[w.tasks[a].sess.value].evUp
  }

  /** Among the first `n` tasks, every DONE one has been reported. */
  predicate Told(w: World, n: nat) {
    forall a :: 0 <= a < n && a < |w.tasks| && w.tasks[a].core.stat == StatDone ==> w.tasks[a].isReported
  }

  /** When the slot is free, all earlier tasks of the host have finished and all
      later ones are fresh. */
  lemma FreeSlot(w: World, i: nat)
    requires Inv(w) && i < |w.tasks| && Asked(w, i) && OnConnected(w, w.tasks[i]) && Unstarted(w.tasks[i])
    requires !w.entries[w.tasks[i].sess.value].evUp
    ensures forall a :: 0 <= a < |w.tasks| && w.tasks[a].sess == w.tasks[i].sess ==>
              (a < i ==> Finished(w.tasks[a])) && (a > i ==> Fresh(w.tasks[a]))
  {
    var j := w.tasks[i].sess.value;
    assert w.entries[j].slot == Idle;
    forall a | 0 <= a < |w.tasks| && w.tasks[a].sess == w.tasks[i].sess
      ensures (a < i ==> Finished(w.tasks[a])) && (a > i ==> Fresh(w.tasks[a]))
    {
      assert !Begun(w.tasks[a]);
      if a > i {
        assert SameHost(w, i, a);
      }
    }
  }

  lemma GrantTraces(w: World, i: nat)
    requires Inv(w) && i < |w.tasks| && OnConnected(w, w.tasks[i]) && Unstarted(w.tasks[i])
    ensures TracesOk(Grant(w, i))
  {
    var w' := Grant(w, i);
    forall h | 0 <= h < |w'.entries| ensures w'.entries[h].trace == Sequential(w'.tasks, h) {
      SequentialSame(w.tasks, w'.tasks, h);
    }
  }

  lemma GrantSound(w: World, i: nat)
    requires Sound(w) && i < |w.tasks| && OnConnected(w, w.tasks[i]) && Unstarted(w.tasks[i])
    ensures Sound(Grant(w, i))
  {
    GrantHosts(w, i);
    GrantTasks(w, i);
    GrantSlots(w, i);
    hide HostsOk;
    hide TasksOk;
    hide OwnersOk;
    hide Grant;
  }

  lemma GrantTasks(w: World, i: nat)
    requires TasksOk(w) && i < |w.tasks| && OnConnected(w, w.tasks[i]) && Unstarted(w.tasks[i])
    ensures TasksOk(Grant(w, i))
  {
    GrantTaskOk(w.tasks[i]);
    hide TaskOk;
  }

  lemma GrantSlots(w: World, i: nat)
    requires OwnersOk(w) && HostsOk(w) && i < |w.tasks| && OnConnected(w, w.tasks[i]) && Unstarted(w.tasks[i])
    ensures OwnersOk(Grant(w, i))
  {
    hide PhaseOk;
  }

  lemma GrantHosts(w: World, i: nat)
    requires Sound(w) && i < |w.tasks| && OnConnected(w, w.tasks[i])
    ensures HostsOk(Grant(w, i))
  {
    hide TaskOk;
  }

  lemma GrantOrder(w: World, i: nat)
    requires Inv(w) && i < |w.tasks| && OnConnected(w, w.tasks[i]) && Unstarted(w.tasks[i])
    ensures InOrder(Grant(w, i))
  {
    hide PhaseOk;
    hide CoreOk;
    var w' := Grant(w, i);
    GrantTaskOk(w.tasks[i]);
    OrderSame(w, w');
  }

  /** Entering START is no work. */
  lemma GrantTaskOk(t: TaskV)
    requires TaskOk(t) && Unstarted(t)
    ensures var t' := t.(core := t.core.(stat := StatStart));
            TaskOk(t') && Unstarted(t') && (Fresh(t) ==> Fresh(t'))
  {
    NewCoreOk(t.born);
  }

  lemma GrantOwners(w: World, i: nat)
    requires Inv(w) && i < |w.tasks| && Asked(w, i) && OnConnected(w, w.tasks[i]) && Unstarted(w.tasks[i])
    ensures BegunOwn(Grant(w, i)) && Asked(Grant(w, i), i + 1)
  {
    hide TaskOk;
    hide Fresh;
  }

  lemma GrantInTurn(w: World, i: nat)
    requires Inv(w) && i < |w.tasks| && Asked(w, i) && OnConnected(w, w.tasks[i]) && Unstarted(w.tasks[i])
    ensures OwnersInTurn(Grant(w, i))
  {
    if !w.entries[w.tasks[i].sess.value].evUp {
      FreeSlot(w, i);
    }
  }

  lemma GrantKeeps(w: World, i: nat)
    requires Inv(w) && i < |w.tasks| && Asked(w, i) && OnConnected(w, w.tasks[i]) && Unstarted(w.tasks[i])
    ensures Inv(Grant(w, i)) && Asked(Grant(w, i), i + 1)
  {
    GrantTraces(w, i);
    GrantSound(w, i);
    GrantOrder(w, i);
    GrantOwners(w, i);
    GrantInTurn(w, i);
  }

  function Report(w: World, i: nat): World
    requires i < |w.tasks|
  {
    w.(tasks := w.tasks[i := w.tasks[i].(isReported := true)])
  }

  lemma ReportSound(w: World, i: nat)
    requires Sound(w) && i < |w.tasks| && w.tasks[i].core.stat == StatDone
    ensures Sound(Report(w, i))
  {
    hide PhaseOk;
    hide CoreOk;
    hide NewCore;
    hide Nth;
  }

  lemma ReportKeeps(w: World, i: nat)
    requires Inv(w) && i < |w.tasks| && w.tasks[i].core.stat == StatDone
    ensures Inv(Report(w, i))
  {
    ReportSound(w, i);
    ReportTraces(w, i);
    ReportTurns(w, i);
    hide Sound;
    OrderSame(w, Report(w, i));
    hide TracesOk;
    hide InOrder;
    hide OwnersInTurn;
    hide BegunOwn;
  }

  lemma ReportTurns(w: World, i: nat)
    requires OwnersInTurn(w) && BegunOwn(w) && i < |w.tasks|
    ensures OwnersInTurn(Report(w, i)) && BegunOwn(Report(w, i))
  {
  }

  lemma ReportTraces(w: World, i: nat)
    requires TracesOk(w) && i < |w.tasks|
    ensures TracesOk(Report(w, i))
  {
    var w' := Report(w, i);
    forall h | 0 <= h < |w'.entries| ensures w'.entries[h].trace == Sequential(w'.tasks, h) {
      SequentialSame(w.tasks, w'.tasks, h);
    }
  }

  lemma {:induction false} ScanSound(w: World, i: nat)
    requires Sound(w)
    ensures Sound(Scan(w, i).w)
    decreases |w.tasks| - i
  {
    hide Sound;
    if i < |w.tasks| {
      var t := w.tasks[i];
      if OnConnected(w, t) && Unstarted(t) {
        GrantSound(w, i);
        ScanSound(Grant(w, i), i + 1);
      } else if OnConnected(w, t) && t.core.stat == StatDone && !t.isReported {
        ReportSound(w, i);
      } else {
        ScanSound(w, i + 1);
      }
    }
  }

  /** The scan keeps the invariant. If it reports nothing it has looked at every
      task; if it reports a task, that task is DONE, and every DONE task before
      it has been reported. */
  lemma {:induction false} ScanKeeps(w: World, i: nat)
    requires Inv(w) && i <= |w.tasks| && Asked(w, i) && Told(w, i)
    ensures var s := Scan(w, i);
            && Inv(s.w)
            && |s.w.tasks| == |w.tasks|
            && (s.reported.None? ==> Asked(s.w, |w.tasks|) && Told(s.w, |w.tasks|))
            && (s.reported.Some? ==> s.reported.value < |w.tasks|
                                     && s.w.tasks[s.reported.value].core.stat == StatDone
                                     && s.w.tasks[s.reported.value].isReported
                                     && Told(s.w, s.reported.value))
    decreases |w.tasks| - i
  {
    hide Inv;
    if i < |w.tasks| {
      var t := w.tasks[i];
      if OnConnected(w, t) && Unstarted(t) {
        GrantKeeps(w, i);
        ToldGrant(w, i);
        ScanKeeps(Grant(w, i), i + 1);
      } else if OnConnected(w, t) && t.core.stat == StatDone && !t.isReported {
        ReportKeeps(w, i);
      } else {
        if t.core.stat == StatDone {
          DoneConnected(w, i);
        }
        ScanKeeps(w, i + 1);
      }
    }
  }

  lemma ToldGrant(w: World, i: nat)
    requires i < |w.tasks| && Told(w, i) && OnConnected(w, w.tasks[i])
    ensures Told(Grant(w, i), i + 1) && |Grant(w, i).tasks| == |w.tasks|
  {
  }

  lemma DoneConnected(w: World, i: nat)
    requires Inv(w) && i < |w.tasks| && w.tasks[i].core.stat == StatDone
    ensures OnConnected(w, w.tasks[i])
  {
  }

  // ---------------------------------------------------------------------------
  // What the scan leaves alone

  /** Same task but for a start mark and a report mark. */
  predicate SameWork(t: TaskV, t': TaskV) {
    && t' == t.(core := t'.core, isReported := t'.isReported)
    && (t.isReported ==> t'.isReported)
    && (t'.core == t.core || (t.core.stat == StatNone && t'.core == t.core.(stat := StatStart)))
  }

  predicate SameHostState(e: Entry, e': Entry) {
    && e' == e.(slot := e'.slot, evUp := e'.evUp)
    && (e.evUp ==> e' == e)
    && (e' != e ==> e.stat == SessConnected && e'.slot.TaskSlot?)
  }

  predicate SameBut(w: World, w': World) {
    && w'.timing == w.timing && |w'.entries| == |w.entries| && |w'.tasks| == |w.tasks|
    && (forall j :: 0 <= j < |w.entries| ==> SameHostState(w.entries[j], w'.entries[j]))
    && (forall i :: 0 <= i < |w.tasks| ==> SameWork(w.tasks[i], w'.tasks[i]))
  }

  lemma GrantSame(w: World, i: nat)
    requires i < |w.tasks| && OnConnected(w, w.tasks[i]) && Unstarted(w.tasks[i])
    ensures SameBut(w, Grant(w, i))
    ensures forall a :: 0 <= a < |w.tasks| ==> Grant(w, i).tasks[a].isReported == w.tasks[a].isReported
  {
  }

  lemma SameTwice(a: World, b: World, c: World)
    requires SameBut(a, b) && SameBut(b, c)
    ensures SameBut(a, c)
  {
    forall j | 0 <= j < |a.entries| ensures SameHostState(a.entries[j], c.entries[j]) {
      assert SameHostState(a.entries[j], b.entries[j]) && SameHostState(b.entries[j], c.entries[j]);
    }
    forall i | 0 <= i < |a.tasks| ensures SameWork(a.tasks[i], c.tasks[i]) {
      assert SameWork(a.tasks[i], b.tasks[i]) && SameWork(b.tasks[i], c.tasks[i]);
    }
  }

  /** A scan changes nothing but start marks, one report mark and free slots. */
  lemma {:induction false} ScanSame(w: World, i: nat)
    ensures var s := Scan(w, i);
            && SameBut(w, s.w)
            && (s.reported.Some? ==> s.reported.value < |w.tasks| && !w.tasks[s.reported.value].isReported
                                     && s.w.tasks[s.reported.value].isReported)
            && (forall a :: 0 <= a < |w.tasks| && s.reported != Some(a) ==> s.w.tasks[a].isReported == w.tasks[a].isReported)
    decreases |w.tasks| - i
  {
    if i < |w.tasks| {
      var t := w.tasks[i];
      if OnConnected(w, t) && Unstarted(t) {
        ScanSame(Grant(w, i), i + 1);
        GrantSame(w, i);
        SameTwice(w, Grant(w, i), Scan(w, i).w);
        hide SameWork;
        hide SameHostState;
      } else if OnConnected(w, t) && t.core.stat == StatDone && !t.isReported {
      } else {
        ScanSame(w, i + 1);
      }
    }
  }

  // ---------------------------------------------------------------------------
  // pssh_exec

  /** A task that pssh_exec counts as over: skipped, failed, or reported. */
  predicate Counted(w: World, t: TaskV) {
    !OnConnected(w, t) || t.core.stat == StatError || (t.core.stat == StatDone && t.isReported)
  }

  predicate AllCounted(w: World) {
    forall i :: 0 <= i < |w.tasks| ==> Counted(w, w.tasks[i])
  }

  predicate AnyFailed(w: World) {
    exists i :: 0 <= i < |w.tasks| && OnConnected(w, w.tasks[i]) && w.tasks[i].core.stat == StatError
  }

  /** The same for the first `n` tasks, as the counters of a scan record it. */
  predicate CountedTo(w: World, n: nat) {
    forall i :: 0 <= i < n && i < |w.tasks| ==> Counted(w, w.tasks[i])
  }

  predicate Failing(w: World, t: TaskV) {
    OnConnected(w, t) && t.core.stat == StatError
  }

  predicate FailedTo(w: World, n: nat) {
    exists i :: 0 <= i < n && i < |w.tasks| && Failing(w, w.tasks[i])
  }

  /** Starting a task changes nothing for those before it, and it is not over. */
  lemma GrantCounts(w: World, i: nat)
    requires i < |w.tasks| && OnConnected(w, w.tasks[i]) && Unstarted(w.tasks[i])
    ensures var w' := Grant(w, i);
            && |w'.tasks| == |w.tasks|
            && (CountedTo(w', i) <==> CountedTo(w, i)) && !CountedTo(w', i + 1)
            && (FailedTo(w', i + 1) <==> FailedTo(w, i))
  {
    var w' := Grant(w, i);
    assert !Counted(w', w'.tasks[i]);
    assert forall a :: 0 <= a < i ==> w'.tasks[a] == w.tasks[a];
    assert forall a :: 0 <= a < i ==> (Counted(w', w'.tasks[a]) <==> Counted(w, w.tasks[a]));
    assert forall a :: 0 <= a < i ==> (Failing(w', w'.tasks[a]) <==> Failing(w, w.tasks[a]));
    assert !Failing(w', w'.tasks[i]);
  }

  /** How one more task counts. */
  lemma CountOne(w: World, i: nat)
    requires i < |w.tasks|
    ensures CountedTo(w, i + 1) <==> CountedTo(w, i) && Counted(w, w.tasks[i])
    ensures FailedTo(w, i + 1) <==> FailedTo(w, i) || Failing(w, w.tasks[i])
  {
  }

  lemma CountAll(w: World)
    ensures AllCounted(w) <==> CountedTo(w, |w.tasks|)
    ensures AnyFailed(w) <==> FailedTo(w, |w.tasks|)
  {
    if AnyFailed(w) {
      var i :| 0 <= i < |w.tasks| && OnConnected(w, w.tasks[i]) && w.tasks[i].core.stat == StatError;
      assert Failing(w, w.tasks[i]);
    }
  }

  /** One turn of the scan's loop. */
  lemma ScanTurn(w: World, i: nat)
    requires i < |w.tasks|
    ensures var t := w.tasks[i];
            Scan(w, i) == if OnConnected(w, t) && Unstarted(t) then Scan(Grant(w, i), i + 1)
                          else if OnConnected(w, t) && t.core.stat == StatDone && !t.isReported then ScanV(Report(w, i), Some(i))
                          else Scan(w, i + 1)
  {
  }

  /** PSSH_RUNNING with a task, PSSH_FAILED, PSSH_SUCCESS, or still inside
      event_base_loop when the observed schedule ends. */
  datatype ExecOut = Running(task: nat) | ExecFailed | ExecSuccess | ExecBlocked

  datatype ExecRes = ExecRes(w: World, out: ExecOut, rest: seq<seq<Firing>>)

  /** One call. The schedule lists the turns of event_base_loop, each with the
      callbacks it makes. */
  function ExecCall(w: World, sched: seq<seq<Firing>>): ExecRes
    decreases |sched|
  {
    var s := Scan(w, 0);
    if s.reported.Some? then ExecRes(s.w, Running(s.reported.value), sched)
    else if AllCounted(s.w) then ExecRes(s.w, if AnyFailed(s.w) then ExecFailed else ExecSuccess, sched)
    else if sched == [] then ExecRes(s.w, ExecBlocked, sched)
    else ExecCall(FireAll(s.w, sched[0]), sched[1..])
  }

  lemma {:induction false} ExecKeeps(w: World, sched: seq<seq<Firing>>)
    requires Inv(w)
    ensures Inv(ExecCall(w, sched).w)
    decreases |sched|
  {
    ScanKeeps(w, 0);
    var s := Scan(w, 0);
    if s.reported.None? && !AllCounted(s.w) && sched != [] {
      FireAllKeeps(s.w, sched[0]);
      ExecKeeps(FireAll(s.w, sched[0]), sched[1..]);
    }
  }

  /** What the four outcomes mean. Note that tasks of hosts that are not
      connected count as neither failed nor missing. A task is returned in list
      order among those waiting to be, and a call that is still inside the event
      loop has nothing to return and an unfinished task to wait for. */
  predicate Means(w: World, out: ExecOut) {
    match out
    case Running(i) => i < |w.tasks| && w.tasks[i].core.stat == StatDone && w.tasks[i].isReported && Told(w, i)
    case ExecSuccess =>
      forall i :: 0 <= i < |w.tasks| && OnConnected(w, w.tasks[i]) ==> w.tasks[i].core.stat == StatDone && w.tasks[i].isReported
    case ExecFailed =>
      && (forall i :: 0 <= i < |w.tasks| && OnConnected(w, w.tasks[i]) ==>
            w.tasks[i].core.stat == StatError || (w.tasks[i].core.stat == StatDone && w.tasks[i].isReported))
      && exists i :: 0 <= i < |w.tasks| && OnConnected(w, w.tasks[i]) && w.tasks[i].core.stat == StatError
    case ExecBlocked =>
      Told(w, |w.tasks|) && exists i :: 0 <= i < |w.tasks| && OnConnected(w, w.tasks[i]) && !Finished(w.tasks[i])
  }

  lemma ScanMeans(w: World)
    requires Told(w, |w.tasks|)
    ensures Means(w, if AllCounted(w) then if AnyFailed(w) then ExecFailed else ExecSuccess else ExecBlocked)
  {
    if !AllCounted(w) {
      var i :| 0 <= i < |w.tasks| && !Counted(w, w.tasks[i]);
      assert OnConnected(w, w.tasks[i]) && !Finished(w.tasks[i]);
    }
  }

  lemma {:induction false} ExecOutcome(w: World, sched: seq<seq<Firing>>)
    requires Inv(w)
    ensures var r := ExecCall(w, sched);
            Means(r.w, r.out) && (r.out.ExecBlocked? ==> r.rest == [])
    decreases |sched|
  {
    hide Inv;
    hide AllCounted;
    hide AnyFailed;
    var s := Scan(w, 0);
    ScanKeeps(w, 0);
    if s.reported.None? {
      hide Means;
      ScanMeans(s.w);
      if !AllCounted(s.w) && sched != [] {
        FireAllKeeps(s.w, sched[0]);
        ExecOutcome(FireAll(s.w, sched[0]), sched[1..]);
      }
    }
  }

  /** With SUCCESS, all tasks are done exactly when none has been skipped. */
  lemma SuccessIff(w: World, sched: seq<seq<Firing>>)
    requires Inv(w) && ExecCall(w, sched).out.ExecSuccess?
    ensures var w' := ExecCall(w, sched).w;
            (forall i :: 0 <= i < |w'.tasks| ==> w'.tasks[i].core.stat == StatDone)
            <==> (forall i :: 0 <= i < |w'.tasks| ==> OnConnected(w', w'.tasks[i]))
  {
    ExecKeeps(w, sched);
    ExecOutcome(w, sched);
    hide TaskOk;
  }

  /** SUCCESS for the only task, which has not been started: its host has never
      been added. */
  lemma SuccessWithoutHost(host: string, core: Core, timed: bool)
    requires NewCore(core)
    ensures var w := AddTask(EMPTY_WORLD, host, core, timed);
            ExecCall(w, []) == ExecRes(w, ExecSuccess, []) && w.tasks[0].core.stat == StatNone
  {
    var w := AddTask(EMPTY_WORLD, host, core, timed);
    assert Scan(w, 1) == ScanV(w, None);
  }

  /** No stall: when pssh_exec enters the event loop, every connected host with
      an unfinished task has an event pending for a task of that host, and there
      is at least one such host. */
  lemma NoStall(w: World)
    requires Inv(w)
    ensures var s := Scan(w, 0);
            s.reported.None? ==>
              && (forall i :: 0 <= i < |s.w.tasks| && OnConnected(s.w, s.w.tasks[i]) && !Finished(s.w.tasks[i]) ==>
                    HasTurn(s.w, s.w.tasks[i].sess.value))
              && (!AllCounted(s.w) ==>
                    exists i :: 0 <= i < |s.w.tasks| && OnConnected(s.w, s.w.tasks[i]) && !Finished(s.w.tasks[i]))
  {
    ScanKeeps(w, 0);
    var s := Scan(w, 0);
    if s.reported.None? {
      forall i | 0 <= i < |s.w.tasks| && OnConnected(s.w, s.w.tasks[i]) && !Finished(s.w.tasks[i])
        ensures HasTurn(s.w, s.w.tasks[i].sess.value)
      {
        if !Unstarted(s.w.tasks[i]) {
          assert Begun(s.w.tasks[i]);
        }
      }
    }
  }

  /** Host `j` has an event pending for one of its own tasks. */
  predicate HasTurn(w: World, j: nat) {
    && j < |w.entries| && w.entries[j].slot.TaskSlot? && w.entries[j].slot.task < |w.tasks|
    && w.tasks[w.entries[j].slot.task].sess == Some(j)
  }

  // ---------------------------------------------------------------------------
  // Termination

  function TaskWork(tasks: seq<TaskV>): nat {
    if tasks == [] then 0 else TaskWork(tasks[..|tasks| - 1]) + Measure(tasks[|tasks| - 1].core)
  }

  /** A failed task may still have an event pending. */
  predicate Lingers(w: World, e: Entry) {
    e.slot.TaskSlot? && e.slot.task < |w.tasks| && w.tasks[e.slot.task].core.stat == StatError
  }

  function HostWork(w: World, n: nat): nat
    requires n <= |w.entries|
  {
    if n == 0 then 0 else HostWork(w, n - 1) + if Lingers(w, w.entries[n - 1]) then 1 else 0
  }

  /** A bound on the number of task callbacks left. */
  function Work(w: World): nat {
    TaskWork(w.tasks) + HostWork(w, |w.entries|)
  }

  predicate AllLive(w: World) {
    forall i :: 0 <= i < |w.tasks| ==> Live(w.tasks[i].core)
  }

  lemma {:induction false} TaskWorkPut(tasks: seq<TaskV>, k: nat, t: TaskV)
    requires k < |tasks|
    ensures TaskWork(tasks[k := t]) == TaskWork(tasks) - Measure(tasks[k].core) + Measure(t.core)
  {
    var n := |tasks| - 1;
    if k == n {
      assert tasks[k := t][..n] == tasks[..n];
    } else {
      assert tasks[k := t][..n] == tasks[..n][k := t];
      TaskWorkPut(tasks[..n], k, t);
    }
  }

  lemma {:induction false} TaskWorkSame(a: seq<TaskV>, b: seq<TaskV>)
    requires |a| == |b| && forall i :: 0 <= i < |a| ==> Measure(a[i].core) == Measure(b[i].core)
    ensures TaskWork(a) == TaskWork(b)
  {
    if a != [] {
      TaskWorkSame(a[..|a| - 1], b[..|b| - 1]);
    }
  }

  lemma {:induction false} HostWorkSame(w: World, w': World, n: nat)
    requires n <= |w.entries| && n <= |w'.entries|
    requires forall j :: 0 <= j < n ==> Lingers(w, w.entries[j]) == Lingers(w', w'.entries[j])
    ensures HostWork(w, n) == HostWork(w', n)
  {
    if n > 0 {
      HostWorkSame(w, w', n - 1);
    }
  }

  lemma {:induction false} HostWorkPut(w: World, w': World, n: nat, h: nat)
    requires h < n <= |w.entries| && n <= |w'.entries|
    requires forall j :: 0 <= j < n && j != h ==> Lingers(w, w.entries[j]) == Lingers(w', w'.entries[j])
    ensures HostWork(w', n) == HostWork(w, n)
              - (if Lingers(w, w.entries[h]) then 1 else 0) + (if Lingers(w', w'.entries[h]) then 1 else 0)
  {
    if h == n - 1 {
      HostWorkSame(w, w', n - 1);
    } else {
      HostWorkPut(w, w', n - 1, h);
    }
  }

  /** A scan leaves the amount of work as it is. */
  lemma ScanWork(w: World)
    requires Inv(w)
    ensures Work(Scan(w, 0).w) == Work(w)
    ensures AllLive(w) ==> AllLive(Scan(w, 0).w)
  {
    hide Scan;
    hide TaskOk;
    hide Lingers;
    var w' := Scan(w, 0).w;
    ScanSame(w, 0);
    forall i | 0 <= i < |w.tasks|
      ensures Measure(w.tasks[i].core) == Measure(w'.tasks[i].core) && (Live(w.tasks[i].core) ==> Live(w'.tasks[i].core))
    {
      assert SameWork(w.tasks[i], w'.tasks[i]);
    }
    TaskWorkSame(w.tasks, w'.tasks);
    forall j | 0 <= j < |w.entries| ensures Lingers(w, w.entries[j]) == Lingers(w', w'.entries[j]) {
      ScanLingers(w, 0, j);
    }
    HostWorkSame(w, w', |w.entries|);
  }

  lemma {:induction false} ScanLingers(w: World, i: nat, j: nat)
    requires j < |w.entries|
    requires w.entries[j].slot != Idle ==> w.entries[j].evUp
    ensures |Scan(w, i).w.entries| == |w.entries|
    ensures Lingers(w, w.entries[j]) == Lingers(Scan(w, i).w, Scan(w, i).w.entries[j])
    decreases |w.tasks| - i
  {
    if i < |w.tasks| {
      var t := w.tasks[i];
      if OnConnected(w, t) && Unstarted(t) {
        ScanLingers(Grant(w, i), i + 1, j);
      } else if OnConnected(w, t) && t.core.stat == StatDone && !t.isReported {
      } else {
        ScanLingers(w, i + 1, j);
      }
    }
  }

  /** A callback of some task. */
  predicate TaskCallback(w: World, f: Firing) {
    Enabled(w, f) && f.EvFiring? && w.entries[f.entry].slot.TaskSlot?
  }

  /** A turn of the event loop that makes a callback of some task, at whatever
      place among its callbacks. */
  predicate TaskTurn(w: World, batch: seq<Firing>)
    decreases |batch|
  {
    batch != [] && (TaskCallback(w, batch[0]) || TaskTurn(Fire(w, batch[0]), batch[1..]))
  }

  /** A callback of the task that holds a slot brings the end nearer. */
  lemma TaskFireWork(t: TaskV, e: Entry, k: nat, ev: EvType, lastIo: Flag)
    requires TaskOk(t) && t.core.stat != StatNone && t.core.stat != StatDone && Live(t.core)
    ensures var p := TaskFire(t, e, k, ev, lastIo);
            && Live(p.t.core)
            && LessWork(t, p)
  {
    MeasureTerminal(t.core);
    if ev.OnlyTimeout() {
      MeasureTerminal(Expire(t.core));
    } else if t.core.stat == StatError {
      TerminalStays(t.core);
    } else {
      RunShrinks(t.core, t.born);
      MeasureTerminal(Run(t.core).core);
    }
  }

  /** Less work for the task, counting its lingering event. */
  predicate LessWork(t: TaskV, p: Pair) {
    if t.core.stat == StatError then p.t.core.stat == StatError && p.e.slot == Idle
    else Measure(p.t.core) + (if p.t.core.stat == StatError then 1 else 0) < Measure(t.core)
  }

  lemma PutWork(w: World, h: nat, k: nat, p: Pair)
    requires Inv(w) && FiredIn(w, h, k, p) && LessWork(w.tasks[k], p)
    ensures Work(Put(w, h, k, p)) < Work(w)
  {
    hide TaskOk;
    hide PhaseOk;
    TaskWorkPut(w.tasks, k, p.t);
    OtherLingers(w, h, k, p);
    HostWorkPut(w, Put(w, h, k, p), |w.entries|, h);
    MeasureTerminal(w.tasks[k].core);
    MeasureTerminal(p.t.core);
  }

  lemma FireWork(w: World, f: Firing)
    requires Inv(w) && AllLive(w)
    ensures AllLive(Fire(w, f))
    ensures Work(Fire(w, f)) <= Work(w)
    ensures TaskCallback(w, f) ==> Work(Fire(w, f)) < Work(w)
  {
    hide TaskFire;
    hide Work;
    if Enabled(w, f) {
      var e := w.entries[f.entry];
      if f.EvFiring? && e.slot.TaskSlot? {
        var k := e.slot.task;
        TaskFireWork(w.tasks[k], e, k, f.ev, f.lastIo);
        TaskFireFired(w.tasks[k], e, k, f.ev, f.lastIo, w.timing.isTimeout);
        PutWork(w, f.entry, k, TaskFire(w.tasks[k], e, k, f.ev, f.lastIo));
      } else {
        HostLingers(w, f);
        HostsWorkSame(w, Fire(w, f));
      }
    }
  }

  lemma HostsWorkSame(w: World, w': World)
    requires |w'.entries| == |w.entries| && w'.tasks == w.tasks
    requires forall j :: 0 <= j < |w.entries| ==> Lingers(w, w.entries[j]) == Lingers(w', w'.entries[j])
    ensures Work(w') == Work(w)
  {
    HostWorkSame(w, w', |w.entries|);
  }

  lemma OtherLingers(w: World, h: nat, k: nat, p: Pair)
    requires Inv(w) && FiredIn(w, h, k, p)
    ensures var w' := Put(w, h, k, p);
            forall j :: 0 <= j < |w.entries| && j != h ==> Lingers(w, w.entries[j]) == Lingers(w', w'.entries[j])
  {
  }

  lemma HostLingers(w: World, f: Firing)
    requires Inv(w) && Enabled(w, f) && !w.entries[f.entry].slot.TaskSlot?
    ensures var w' := Fire(w, f);
            && |w'.entries| == |w.entries| && w'.tasks == w.tasks
            && forall j :: 0 <= j < |w.entries| ==> Lingers(w, w.entries[j]) == Lingers(w', w'.entries[j])
  {
    var e := w.entries[f.entry];
    match f
    case DnsFiring(_, ans, net) => DnsFireKeeps(w.timing, e, ans, net);
    case EvFiring(_, ev, _, net) => SessFireKeeps(w.timing, e, ev, net);
  }

  lemma {:induction false} FireAllWork(w: World, batch: seq<Firing>)
    requires Inv(w) && AllLive(w)
    ensures AllLive(FireAll(w, batch))
    ensures Work(FireAll(w, batch)) <= Work(w)
    ensures TaskTurn(w, batch) ==> Work(FireAll(w, batch)) < Work(w)
    decreases |batch|
  {
    hide Inv;
    hide Fire;
    hide Work;
    if batch != [] {
      FireKeeps(w, batch[0]);
      FireWork(w, batch[0]);
      FireAllWork(Fire(w, batch[0]), batch[1..]);
    }
  }

  /** How many turns of a call call back a task. */
  function TaskTurnCount(w: World, sched: seq<seq<Firing>>): nat
    decreases |sched|
  {
    var s := Scan(w, 0);
    if s.reported.None? && !AllCounted(s.w) && sched != [] then
      TaskTurnCount(FireAll(s.w, sched[0]), sched[1..]) + if TaskTurn(s.w, sched[0]) then 1 else 0
    else 0
  }

  /** On every schedule, however the callbacks of hosts and tasks are mixed, the
      turns of a call that call back a task use up the work. */
  lemma {:induction false} ExecBound(w: World, sched: seq<seq<Firing>>)
    requires Inv(w) && AllLive(w)
    ensures AllLive(ExecCall(w, sched).w)
    ensures Work(ExecCall(w, sched).w) + TaskTurnCount(w, sched) <= Work(w)
    decreases |sched|
  {
    hide Inv;
    hide Work;
    hide AllLive;
    hide AllCounted;
    ScanKeeps(w, 0);
    ScanWork(w);
    var s := Scan(w, 0);
    if s.reported.None? && !AllCounted(s.w) && sched != [] {
      FireAllKeeps(s.w, sched[0]);
      FireAllWork(s.w, sched[0]);
      ExecBound(FireAll(s.w, sched[0]), sched[1..]);
    }
  }

  // ---------------------------------------------------------------------------
  // The same for every event loop that calls somebody back

  /** A bound on the callbacks of a host that do not make it wait: its DNS answer
      and the events up to the end of its handshake. */
  function Rank(e: Entry): nat {
    if e.dnsPending then 4
    else if !e.slot.SessSlot? then 0
    else match e.stat
      case SessWaitConn => 3
      case SessDoneConn => 2
      case _ => 1
  }

  function Ranks(entries: seq<Entry>): nat {
    if entries == [] then 0 else Ranks(entries[..|entries| - 1]) + Rank(entries[|entries| - 1])
  }

  /** The work of the tasks and the handshakes of the hosts. */
  function Potential(w: World): nat {
    Work(w) + Ranks(w.entries)
  }

  /** The callback makes its host wait again: libssh2 says EAGAIN, or the timer
      of a connect in progress expires. */
  predicate Waits(w: World, f: Firing) {
    && Enabled(w, f) && f.EvFiring? && !w.entries[f.entry].slot.TaskSlot?
    && match w.entries[f.entry].stat
       case SessWaitConn => !f.ev.write
       case SessDoneConn => f.net.lib == LibAgain
       case SessWaitAuth => f.net.lib == LibAgain
       case _ => false
  }

  lemma SessRank(t: Timing, e: Entry, ev: EvType, net: Net)
    requires PhaseOk(e, t.isTimeout) && e.slot.SessSlot?
    ensures Rank(SessFire(t, e, ev, net).e) + 1 <= Rank(e) +
              match e.stat
              case SessWaitConn => if ev.write then 0 else 1
              case SessDoneConn => if net.lib == LibAgain then 1 else 0
              case SessWaitAuth => if net.lib == LibAgain then 1 else 0
              case _ => 0
  {
    hide PathOk;
  }

  lemma DnsRank(t: Timing, e: Entry, ans: DnsAnswer, net: Net)
    requires PhaseOk(e, t.isTimeout) && e.dnsPending
    ensures Rank(DnsFire(t, e, ans, net).e) < Rank(e)
  {
    hide PathOk;
  }

  lemma {:induction false} RanksPut(entries: seq<Entry>, j: nat, e: Entry)
    requires j < |entries|
    ensures Ranks(entries[j := e]) == Ranks(entries) - Rank(entries[j]) + Rank(e)
  {
    var n := |entries| - 1;
    if j == n {
      assert entries[j := e][..n] == entries[..n];
    } else {
      assert entries[j := e][..n] == entries[..n][j := e];
      RanksPut(entries[..n], j, e);
    }
  }

  lemma {:induction false} RanksSame(a: seq<Entry>, b: seq<Entry>)
    requires |a| == |b| && forall j :: 0 <= j < |a| ==> Rank(a[j]) == Rank(b[j])
    ensures Ranks(a) == Ranks(b)
  {
    if a != [] {
      RanksSame(a[..|a| - 1], b[..|b| - 1]);
    }
  }

  lemma FireRanks(w: World, f: Firing)
    requires Sound(w)
    ensures !Enabled(w, f) || w.entries[f.entry].slot.TaskSlot? ==> Ranks(Fire(w, f).entries) == Ranks(w.entries)
    ensures Enabled(w, f) && !w.entries[f.entry].slot.TaskSlot? ==>
              Ranks(Fire(w, f).entries) + 1 <= Ranks(w.entries) + if Waits(w, f) then 1 else 0
  {
    hide Ranks;
    hide TaskFire;
    hide SessFire;
    hide DnsFire;
    hide TaskOk;
    if Enabled(w, f) {
      var e := w.entries[f.entry];
      RanksPut(w.entries, f.entry, Fire(w, f).entries[f.entry]);
      if f.DnsFiring? {
        DnsRank(w.timing, e, f.ans, f.net);
      } else if !e.slot.TaskSlot? {
        SessRank(w.timing, e, f.ev, f.net);
      } else {
        FireParts(w, f);
      }
    }
  }

  /** Every callback, of whomever, brings the end nearer unless it makes a host
      wait. */
  lemma FirePotential(w: World, f: Firing)
    requires Inv(w) && AllLive(w)
    ensures Potential(Fire(w, f)) + (if Enabled(w, f) then 1 else 0) <= Potential(w) + if Waits(w, f) then 1 else 0
  {
    hide Work;
    hide Ranks;
    hide AllLive;
    FireWork(w, f);
    FireRanks(w, f);
    hide Inv;
  }

  /** The turn makes at least one callback. */
  predicate ActiveTurn(w: World, batch: seq<Firing>)
    decreases |batch|
  {
    batch != [] && (Enabled(w, batch[0]) || ActiveTurn(Fire(w, batch[0]), batch[1..]))
  }

  /** How many of its callbacks make a host wait. */
  function WaitsIn(w: World, batch: seq<Firing>): nat
    decreases |batch|
  {
    if batch == [] then 0
    else (if Waits(w, batch[0]) then 1 else 0) + WaitsIn(Fire(w, batch[0]), batch[1..])
  }

  lemma {:induction false} FireAllPotential(w: World, batch: seq<Firing>)
    requires Inv(w) && AllLive(w)
    ensures AllLive(FireAll(w, batch))
    ensures Potential(FireAll(w, batch)) + (if ActiveTurn(w, batch) then 1 else 0) <= Potential(w) + WaitsIn(w, batch)
    decreases |batch|
  {
    hide Inv;
    hide Fire;
    hide Potential;
    hide Enabled;
    hide Waits;
    hide AllLive;
    if batch != [] {
      FireKeeps(w, batch[0]);
      FireWork(w, batch[0]);
      FirePotential(w, batch[0]);
      FireAllPotential(Fire(w, batch[0]), batch[1..]);
    }
  }

  /** Every turn the call makes is one of these, as libevent promises. */
  predicate ActiveTurns(w: World, sched: seq<seq<Firing>>)
    decreases |sched|
  {
    var s := Scan(w, 0);
    s.reported.None? && !AllCounted(s.w) && sched != [] ==>
      ActiveTurn(s.w, sched[0]) && ActiveTurns(FireAll(s.w, sched[0]), sched[1..])
  }

  function ExecWaits(w: World, sched: seq<seq<Firing>>): nat
    decreases |sched|
  {
    var s := Scan(w, 0);
    if s.reported.None? && !AllCounted(s.w) && sched != [] then
      WaitsIn(s.w, sched[0]) + ExecWaits(FireAll(s.w, sched[0]), sched[1..])
    else 0
  }

  lemma ScanPotential(w: World)
    requires Inv(w)
    ensures Potential(Scan(w, 0).w) == Potential(w)
  {
    hide Scan;
    hide Work;
    hide TaskOk;
    var w' := Scan(w, 0).w;
    ScanWork(w);
    ScanSame(w, 0);
    forall j | 0 <= j < |w.entries| ensures Rank(w.entries[j]) == Rank(w'.entries[j]) {
      assert SameHostState(w.entries[j], w'.entries[j]);
    }
    RanksSame(w.entries, w'.entries);
  }

  /** A call of pssh_exec takes no more turns than there are work, handshake
      steps, and callbacks on the way that make a host wait. */
  lemma {:induction false} ExecEnds(w: World, sched: seq<seq<Firing>>)
    requires Inv(w) && AllLive(w) && ActiveTurns(w, sched)
    ensures var r := ExecCall(w, sched);
            && AllLive(r.w)
            && Potential(r.w) + |sched| - |r.rest| <= Potential(w) + ExecWaits(w, sched)
            && (r.out.ExecBlocked? ==> |sched| <= Potential(w) + ExecWaits(w, sched))
    decreases |sched|
  {
    hide Inv;
    hide Potential;
    hide AllLive;
    hide AllCounted;
    hide ActiveTurn;
    hide WaitsIn;
    ScanKeeps(w, 0);
    ScanWork(w);
    ScanPotential(w);
    var s := Scan(w, 0);
    if s.reported.None? && !AllCounted(s.w) && sched != [] {
      FireAllKeeps(s.w, sched[0]);
      FireAllPotential(s.w, sched[0]);
      ExecEnds(FireAll(s.w, sched[0]), sched[1..]);
    }
  }

  /** Every host is connected or failed and no DNS answer is due. */
  predicate HostsSettled(w: World) {
    forall j :: 0 <= j < |w.entries| ==> Settled(w.entries[j]) && !w.entries[j].dnsPending
  }

  lemma {:induction false} SettledRanks(entries: seq<Entry>)
    requires forall j :: 0 <= j < |entries| ==> Settled(entries[j]) && !entries[j].dnsPending
    ensures Ranks(entries) <= |entries|
  {
    if entries != [] {
      SettledRanks(entries[..|entries| - 1]);
    }
  }

  lemma SettledFire(w: World, f: Firing)
    requires Inv(w) && HostsSettled(w)
    ensures HostsSettled(Fire(w, f)) && !Waits(w, f)
  {
    hide TaskFire;
    hide TaskOk;
    if Enabled(w, f) && w.entries[f.entry].slot.TaskSlot? {
      FireParts(w, f);
    }
  }

  lemma {:induction false} SettledFireAll(w: World, batch: seq<Firing>)
    requires Inv(w) && HostsSettled(w)
    ensures HostsSettled(FireAll(w, batch)) && WaitsIn(w, batch) == 0
    decreases |batch|
  {
    hide Inv;
    hide Fire;
    hide HostsSettled;
    hide Waits;
    if batch != [] {
      FireKeeps(w, batch[0]);
      SettledFire(w, batch[0]);
      SettledFireAll(Fire(w, batch[0]), batch[1..]);
    }
  }

  lemma SettledScan(w: World)
    requires HostsSettled(w)
    ensures HostsSettled(Scan(w, 0).w)
  {
    hide Scan;
    var w' := Scan(w, 0).w;
    ScanSame(w, 0);
    forall j | 0 <= j < |w'.entries| ensures Settled(w'.entries[j]) && !w'.entries[j].dnsPending {
      assert SameHostState(w.entries[j], w'.entries[j]);
    }
  }

  /** With all hosts settled nobody waits. */
  lemma {:induction false} SettledExec(w: World, sched: seq<seq<Firing>>)
    requires Inv(w) && HostsSettled(w)
    ensures HostsSettled(ExecCall(w, sched).w) && ExecWaits(w, sched) == 0
    decreases |sched|
  {
    hide Inv;
    hide HostsSettled;
    hide AllCounted;
    hide WaitsIn;
    ScanKeeps(w, 0);
    SettledScan(w);
    var s := Scan(w, 0);
    if s.reported.None? && !AllCounted(s.w) && sched != [] {
      FireAllKeeps(s.w, sched[0]);
      SettledFireAll(s.w, sched[0]);
      SettledExec(FireAll(s.w, sched[0]), sched[1..]);
    }
  }

  // ---------------------------------------------------------------------------
  // The client's loop: call pssh_exec while it returns PSSH_RUNNING

  function Unreported(tasks: seq<TaskV>): nat {
    if tasks == [] then 0
    else Unreported(tasks[..|tasks| - 1]) + if tasks[|tasks| - 1].isReported then 0 else 1
  }

  lemma {:induction false} UnreportedSame(a: seq<TaskV>, b: seq<TaskV>)
    requires |a| == |b| && forall i :: 0 <= i < |a| ==> a[i].isReported == b[i].isReported
    ensures Unreported(a) == Unreported(b)
  {
    if a != [] {
      UnreportedSame(a[..|a| - 1], b[..|b| - 1]);
    }
  }

  lemma {:induction false} UnreportedLess(a: seq<TaskV>, b: seq<TaskV>, k: nat)
    requires |a| == |b| && k < |a| && !a[k].isReported && b[k].isReported
    requires forall i :: 0 <= i < |a| && i != k ==> a[i].isReported == b[i].isReported
    ensures Unreported(b) == Unreported(a) - 1
  {
    if k == |a| - 1 {
      UnreportedSame(a[..|a| - 1], b[..|b| - 1]);
    } else {
      UnreportedLess(a[..|a| - 1], b[..|b| - 1], k);
    }
  }

  predicate SameReports(a: seq<TaskV>, b: seq<TaskV>) {
    |a| == |b| && forall i :: 0 <= i < |a| ==> a[i].isReported == b[i].isReported
  }

  lemma {:induction false} FireAllReports(w: World, batch: seq<Firing>)
    ensures SameReports(w.tasks, FireAll(w, batch).tasks)
    decreases |batch|
  {
    if batch != [] {
      FireAllReports(Fire(w, batch[0]), batch[1..]);
    }
  }

  /** A call marks as reported the task it returns, which was not reported
      before, and no other. */
  lemma {:induction false} ExecReports(w: World, sched: seq<seq<Firing>>)
    ensures var r := ExecCall(w, sched);
            && |r.w.tasks| == |w.tasks|
            && (r.out.Running? ==> r.out.task < |w.tasks| && !w.tasks[r.out.task].isReported
                                   && r.w.tasks[r.out.task].isReported)
            && (forall i :: 0 <= i < |w.tasks| && r.out != Running(i) ==> r.w.tasks[i].isReported == w.tasks[i].isReported)
    decreases |sched|
  {
    ScanSame(w, 0);
    var s := Scan(w, 0);
    if s.reported.None? && !AllCounted(s.w) && sched != [] {
      FireAllReports(s.w, sched[0]);
      ExecReports(FireAll(s.w, sched[0]), sched[1..]);
    }
  }

  lemma ExecLess(w: World, sched: seq<seq<Firing>>)
    ensures ExecCall(w, sched).out.Running? ==> Unreported(ExecCall(w, sched).w.tasks) < Unreported(w.tasks)
  {
    var r := ExecCall(w, sched);
    ExecReports(w, sched);
    if r.out.Running? {
      UnreportedLess(w.tasks, r.w.tasks, r.out.task);
    }
  }

  datatype ClientRes = ClientRes(w: World, calls: nat, reported: seq<nat>, out: ExecOut)

  function Client(w: World, sched: seq<seq<Firing>>): ClientRes
    decreases Unreported(w.tasks)
  {
    ExecLess(w, sched);
    var r := ExecCall(w, sched);
    if r.out.Running? then
      var c := Client(r.w, r.rest);
      ClientRes(c.w, c.calls + 1, [r.out.task] + c.reported, c.out)
    else ClientRes(r.w, 1, [], r.out)
  }

  predicate ClientActive(w: World, sched: seq<seq<Firing>>)
    decreases Unreported(w.tasks)
  {
    ExecLess(w, sched);
    var r := ExecCall(w, sched);
    ActiveTurns(w, sched) && (r.out.Running? ==> ClientActive(r.w, r.rest))
  }

  /** How many callbacks of the whole loop make a host wait. */
  function ClientWaits(w: World, sched: seq<seq<Firing>>): nat
    decreases Unreported(w.tasks)
  {
    ExecLess(w, sched);
    var r := ExecCall(w, sched);
    ExecWaits(w, sched) + if r.out.Running? then ClientWaits(r.w, r.rest) else 0
  }

  lemma {:induction false} SettledClient(w: World, sched: seq<seq<Firing>>)
    requires Inv(w) && HostsSettled(w)
    ensures ClientWaits(w, sched) == 0
    decreases Unreported(w.tasks)
  {
    hide Inv;
    hide HostsSettled;
    var r := ExecCall(w, sched);
    ExecKeeps(w, sched);
    SettledExec(w, sched);
    if r.out.Running? {
      ExecLess(w, sched);
      SettledClient(r.w, r.rest);
    }
  }

  predicate Distinct(s: seq<nat>) {
    forall i, j :: 0 <= i < j < |s| ==> s[i] != s[j]
  }

  /** Exactly-once reporting: over the whole loop, the tasks returned are
      pairwise different and are exactly those that became reported; there is
      one more call than tasks returned. */
  lemma {:induction false} ClientReports(w: World, sched: seq<seq<Firing>>)
    ensures var c := Client(w, sched);
            && c.calls == |c.reported| + 1
            && Distinct(c.reported)
            && |c.w.tasks| == |w.tasks|
            && (forall i: nat :: i in c.reported <==> i < |w.tasks| && !w.tasks[i].isReported && c.w.tasks[i].isReported)
            && (forall i :: 0 <= i < |w.tasks| && w.tasks[i].isReported ==> c.w.tasks[i].isReported)
    decreases Unreported(w.tasks)
  {
    var r := ExecCall(w, sched);
    ExecReports(w, sched);
    if r.out.Running? {
      ExecLess(w, sched);
      ClientReports(r.w, r.rest);
    }
  }

  /** How many turns of the whole loop call back a task. */
  function ClientTurnCount(w: World, sched: seq<seq<Firing>>): nat
    decreases Unreported(w.tasks)
  {
    ExecLess(w, sched);
    var r := ExecCall(w, sched);
    TaskTurnCount(w, sched) + if r.out.Running? then ClientTurnCount(r.w, r.rest) else 0
  }

  /** On every schedule the whole loop makes at most Work(w) of them. */
  lemma {:induction false} ClientBound(w: World, sched: seq<seq<Firing>>)
    requires Inv(w) && AllLive(w)
    ensures Work(Client(w, sched).w) + ClientTurnCount(w, sched) <= Work(w)
    decreases Unreported(w.tasks)
  {
    hide Inv;
    hide Work;
    hide AllLive;
    var r := ExecCall(w, sched);
    ExecKeeps(w, sched);
    ExecBound(w, sched);
    if r.out.Running? {
      ExecLess(w, sched);
      ClientBound(r.w, r.rest);
    }
  }

  /** What the loop has achieved when it ends: no task of a connected host is
      left unfinished, those that are DONE have been returned, and SUCCESS means
      that there are no others. */
  lemma {:induction false} ClientOutcome(w: World, sched: seq<seq<Firing>>)
    requires Inv(w)
    ensures var c := Client(w, sched);
            && Inv(c.w) && !c.out.Running?
            && (!c.out.ExecBlocked? ==>
                  && (forall i :: 0 <= i < |c.w.tasks| && OnConnected(c.w, c.w.tasks[i]) ==>
                        && Finished(c.w.tasks[i])
                        && (c.w.tasks[i].core.stat == StatDone <==> c.w.tasks[i].isReported))
                  && (c.out.ExecSuccess? <==>
                        forall i :: 0 <= i < |c.w.tasks| && OnConnected(c.w, c.w.tasks[i]) ==> c.w.tasks[i].core.stat == StatDone))
    decreases Unreported(w.tasks)
  {
    var r := ExecCall(w, sched);
    ExecKeeps(w, sched);
    ExecOutcome(w, sched);
    if r.out.Running? {
      ExecLess(w, sched);
      ClientOutcome(r.w, r.rest);
    }
  }

  /** Total termination of the client's loop, when every task can end, for every
      event loop whose turns each make some callback: it ends within as many
      turns as there are work, handshake steps, and callbacks that make a host
      wait, having made one call more than it has returned tasks. */
  lemma {:induction false} ClientEnds(w: World, sched: seq<seq<Firing>>)
    requires Inv(w) && AllLive(w) && ClientActive(w, sched)
    requires |sched| > Potential(w) + ClientWaits(w, sched)
    ensures var c := Client(w, sched);
            (c.out.ExecFailed? || c.out.ExecSuccess?) && c.calls == |c.reported| + 1
    decreases Unreported(w.tasks)
  {
    hide Inv;
    hide Potential;
    hide AllLive;
    hide ActiveTurns;
    hide ExecWaits;
    var r := ExecCall(w, sched);
    ExecKeeps(w, sched);
    ExecEnds(w, sched);
    ClientReports(w, sched);
    if r.out.Running? {
      ExecLess(w, sched);
      ClientEnds(r.w, r.rest);
    }
  }
}
