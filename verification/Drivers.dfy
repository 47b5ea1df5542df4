/** pssh_exec and pssh_connect over the objects of the program, with the event
    loop they share (src/pssh.c:249-277, 412-483, src/task.c:153-204, 750-811). */
module Drivers {
  import opened Base
  import opened Streams
  import opened Copying
  import opened Tasks
  import opened Sessions
  import opened Worlds
  import opened Scheduling
  import opened Connecting
  import opened Runs
  import opened CopyBuffers
  import opened SessionObjects
  import opened TaskObjects

  /** What a client holds: one pssh_session_t and the one pssh_task_list_t made for it. Both
      drivers run the session's event base, which may call back hosts and tasks
      alike. */
  class Pssh {
    const sess: Session
    /** The TAILQ of tasks. */
    var tasks: seq<Task>
    /** The state on which the two machines are specified. */
    ghost var world: World
    ghost var Repr: set<object>
    /** The part of it that belongs to no task. */
    ghost var Hosts: set<object>

    /** The objects are where their `place` says and share no memory. */
    ghost predicate Placed()
      reads this, Repr
    {
      && Hosts <= Repr && this in Hosts && sess in Hosts
      && (forall j :: 0 <= j < |sess.entries| ==>
            sess.entries[j] in Hosts && sess.entries[j].place == j && sess.entries[j].selfSess == sess)
      && (forall i :: 0 <= i < |tasks| ==>
            tasks[i] in Repr && tasks[i] in tasks[i].Repr && tasks[i].Repr <= Repr && tasks[i].Valid()
            && tasks[i].Repr !! Hosts && tasks[i].place == i
            && (tasks[i].entry != null ==>
                  tasks[i].entry.place < |sess.entries| && sess.entries[tasks[i].entry.place] == tasks[i].entry))
      && (forall i, k :: 0 <= i < k < |tasks| ==> tasks[i].Repr !! tasks[k].Repr)
    }

    /** The objects show the state `w`. */
    ghost predicate Shows(w: World)
      requires Placed()
      reads this, Repr
    {
      && w.timing == sess.View()
      && |w.entries| == |sess.entries| && |w.tasks| == |tasks|
      && (forall j :: 0 <= j < |sess.entries| ==> w.entries[j] == sess.entries[j].View())
      && (forall i :: 0 <= i < |tasks| ==> w.tasks[i] == tasks[i].view)
    }

    /** The objects show `world`. */
    ghost predicate Consistent()
      reads this, Repr
    {
      Placed() && Shows(world)
    }

    ghost predicate Valid()
      reads this, Repr
    {
      Consistent() && Sound(world)
    }

    constructor ()
      ensures Valid() && fresh(Repr) && world == EMPTY_WORLD
    {
      sess := new Session();
      tasks := [];
      world := EMPTY_WORLD;
      new;
      Hosts := {this, sess};
      Repr := Hosts;
    }

    // -------------------------------------------------------------------------
    // Adding hosts and tasks

    /** pssh_server_add. */
    method ServerAdd(name: string, port: int) returns (ret: int)
      requires Valid()
      modifies this, sess`entries
      ensures Valid() && fresh(Repr - old(Repr)) && ret == 0
      ensures world == AddServer(old(world), name)
      ensures |sess.entries| == old(|sess.entries|) + 1 && sess.entries[..old(|sess.entries|)] == old(sess.entries)
      ensures var e := sess.entries[old(|sess.entries|)]; e.name == name && e.port == port && e.dnsPending
    {
      hide Sound;
      hide Placed;
      hide Shows;
      Showing();
      AddServerSound(world, name);
      var e := new SessEntry(sess, |sess.entries|, name, port);
      ghost var after := AddServer(world, name);
      AppendHost(e);
      Become(after);
      ret := 0;
    }

    /** TAILQ_INSERT_TAIL of a host just made. */
    method AppendHost(e: SessEntry)
      requires Consistent() && e.place == |sess.entries| && e.selfSess == sess && e !in Repr
      modifies this, sess`entries
      ensures Placed() && Shows(old(world).(entries := old(world).entries + [e.View()]))
      ensures world == old(world) && Repr == old(Repr) + {e} && tasks == old(tasks)
      ensures sess.entries == old(sess.entries) + [e]
    {
      hide Task.Valid;
      sess.entries := sess.entries + [e];
      Hosts := Hosts + {e};
      Repr := Repr + {e};
    }

    /** pssh_find_ent finds the place that the specification names. */
    method FindEnt(srv: string) returns (e: SessEntry?)
      requires Consistent()
      ensures FindEntry(world.entries, srv) == if e == null then None else Some(e.place)
      ensures e != null ==> e.place < |sess.entries| && sess.entries[e.place] == e
    {
      hide Task.Valid;
      e := sess.FindEnt(srv);
      FindEntryIs(world.entries, srv);
      Showing();
    }

    /** TAILQ_INSERT_TAIL of a task just made. */
    method Append(t: Task)
      requires Consistent() && t.Valid() && t.place == |tasks| && t in t.Repr && t.Repr !! Repr
      requires t.entry != null ==> t.entry.place < |sess.entries| && sess.entries[t.entry.place] == t.entry
      modifies this
      ensures Placed() && Shows(old(world).(tasks := old(world).tasks + [t.view]))
      ensures world == old(world) && Repr == old(Repr) + t.Repr && Hosts == old(Hosts)
    {
      hide Task.Valid;
      tasks := tasks + [t];
      Repr := Repr + t.Repr;
    }

    /** The new task of pssh_add_cp_task or pssh_add_cmd goes to the tail. */
    method Insert(t: Task, ghost srv: string)
      requires Valid() && t.Valid() && t.place == |tasks| && t in t.Repr && t.Repr !! Repr
      requires t.entry != null ==> t.entry.place < |sess.entries| && sess.entries[t.entry.place] == t.entry
      requires FindEntry(world.entries, srv) == t.view.sess
      requires t.view == TaskV(t.view.core, false, t.view.sess, t.view.timed, t.view.core, 0, false) && NewCore(t.view.core)
      modifies this
      ensures Valid() && Repr == old(Repr) + t.Repr
      ensures world == AddTask(old(world), srv, t.view.core, t.view.timed)
    {
      hide Sound;
      hide Placed;
      hide Shows;
      hide Task.Valid;
      hide NewCore;
      AddTaskSound(world, srv, t.view.core, t.view.timed);
      ghost var after := AddTask(world, srv, t.view.core, t.view.timed);
      Append(t);
      Become(after);
    }

    /** pssh_add_cp_task. The last arguments are the task's surroundings. */
    method AddCp(srv: string, lFn: string, rFn: string, dir: Direction, timeoutSec: int,
                 files: seq<LocalFile>, announced: nat, save: Save,
                 opens: seq<Attempt>, writes: seq<WriteItem>, incoming: seq<ReadItem>) returns (ret: int)
      requires Valid()
      modifies this
      ensures Valid() && fresh(Repr - old(Repr))
      ensures ret == (if srv == "" || lFn == "" || rFn == "" then -1 else 0)
      ensures world == if ret == -1 then old(world)
                       else AddTask(old(world), srv,
                                    Core(StatNone, NoChan, Copy(CopyV(dir, None, 0, 0, files, opens, announced, writes,
                                                                      incoming, [], save, None))), timeoutSec > 0)
    {
      hide Sound;
      hide Placed;
      hide Shows;
      if srv == "" || lFn == "" || rFn == "" {
        return -1;
      }
      Showing();
      var e := FindEnt(srv);
      var cp := new CopyTask(dir, files, announced, save, opens, writes, incoming);
      var t := new Task.Copying(|tasks|, srv, e, timeoutSec, cp);
      Insert(t, srv);
      ret := 0;
    }

    /** pssh_add_cmd. */
    method AddCmd(srv: string, cmd: string, timeoutSec: int,
                  opens: seq<Attempt>, starts: seq<Attempt>, err: seq<ReadItem>, out: seq<ReadItem>, exit: int)
      returns (ret: int)
      requires Valid()
      modifies this
      ensures Valid() && fresh(Repr - old(Repr))
      ensures ret == (if srv == "" || cmd == "" then -1 else 0)
      ensures world == if ret == -1 then old(world)
                       else AddTask(old(world), srv,
                                    Core(StatNone, NoChan, Job.Exec(ExecV(opens, starts, FreshStream(err), FreshStream(out), exit, 0))),
                                    timeoutSec > 0)
    {
      hide Sound;
      hide Placed;
      hide Shows;
      hide FreshStream;
      hide NewCore;
      hide AddTask;
      hide FindEntry;
      hide Task.Valid;
      hide ExecTask.Valid;
      if srv == "" || cmd == "" {
        return -1;
      }
      Showing();
      var e := FindEnt(srv);
      var ex := new ExecTask(opens, starts, err, out, exit);
      NewCommand(opens, starts, err, out, exit);
      var t := new Task.Executing(|tasks|, srv, e, timeoutSec, ex);
      Insert(t, srv);
      ret := 0;
    }

    // -------------------------------------------------------------------------
    // Callbacks

    /** The event of the task at place `k` fires on its host, `j`; everything
        else stays as it is. */
    method FireTask(j: nat, k: nat, ev: EvType, lastIo: Flag)
      requires Placed() && j < |sess.entries| && k < |tasks| && tasks[k].entry == sess.entries[j]
      requires CoreOk(tasks[k].view.core, tasks[k].view.born) && tasks[k].view.core.stat != StatNone
      modifies Repr
      ensures Placed() && Hosts == old(Hosts) && world == old(world) && tasks == old(tasks) && fresh(Repr - old(Repr))
      ensures sess.View() == old(sess.View()) && sess.entries == old(sess.entries)
      ensures Pair(tasks[k].view, sess.entries[j].View())
           == TaskFire(old(tasks[k].view), old(sess.entries[j].View()), k, ev, lastIo)
      ensures forall h :: 0 <= h < |sess.entries| && h != j ==> sess.entries[h].View() == old(sess.entries[h].View())
      ensures forall i :: 0 <= i < |tasks| && i != k ==> tasks[i].view == old(tasks[i].view)
    {
      hide Task.Valid;
      hide TaskFire;
      hide CoreOk;
      var t, e := tasks[k], sess.entries[j];
      FiredAnyway(t.view, e.View(), k, ev, lastIo);
      e.slot := Idle;
      t.EventHandler(ev, lastIo);
      Repr := Repr + t.Repr;
    }

    /** The event of a task fires on host `j`. */
    method TaskCallback(j: nat, k: nat, ev: EvType, lastIo: Flag)
      requires Consistent() && j < |sess.entries| && k < |tasks|
      requires world.entries[j].slot.TaskSlot? && world.entries[j].slot.task == k
      requires CoreOk(world.tasks[k].core, world.tasks[k].born) && world.tasks[k].core.stat != StatNone
      requires world.tasks[k].sess == Some(j)
      modifies Repr
      ensures Placed() && Hosts == old(Hosts) && world == old(world) && tasks == old(tasks) && fresh(Repr - old(Repr))
      ensures Shows(Put(world, j, k, TaskFire(world.tasks[k], world.entries[j], k, ev, lastIo)))
    {
      hide Task.Valid;
      hide TaskFire;
      hide CoreOk;
      tasks[k].Linked();
      FireTask(j, k, ev, lastIo);
    }

    /** The event of the session machine fires on host `j`. */
    method HostCallback(j: nat, ev: EvType, net: Net)
      requires Consistent() && j < |sess.entries|
      modifies Repr
      ensures Placed() && Hosts == old(Hosts) && world == old(world) && tasks == old(tasks) && Repr == old(Repr)
      ensures Shows(PutHost(world, j, SessFire(world.timing, world.entries[j], ev, net)))
    {
      hide Task.Valid;
      hide SessFsm;
      var e := sess.entries[j];
      e.slot := Idle;
      e.EventHandler(ev, net);
    }

    /** evdns answers the query for host `j`. */
    method DnsCallback(j: nat, ans: DnsAnswer, net: Net)
      requires Consistent() && j < |sess.entries| && world.entries[j].slot == Idle
      modifies Repr
      ensures Placed() && Hosts == old(Hosts) && world == old(world) && tasks == old(tasks) && Repr == old(Repr)
      ensures Shows(PutHost(world, j, DnsFire(world.timing, world.entries[j], ans, net)))
    {
      hide Task.Valid;
      hide SessFsm;
      sess.entries[j].DnsCb(ans, net);
    }

    /** The ghost state follows the objects. */
    ghost method Become(w: World)
      requires Placed() && Shows(w)
      modifies this`world
      ensures Consistent() && world == w && Repr == old(Repr)
    {
      hide Task.Valid;
      world := w;
    }

    lemma Showing()
      requires Consistent()
      ensures this in Repr && sess in Repr
      ensures |world.entries| == |sess.entries| && |world.tasks| == |tasks| && world.timing == sess.View()
      ensures forall j :: 0 <= j < |sess.entries| ==> sess.entries[j] in Repr && world.entries[j] == sess.entries[j].View()
    {
    }

    lemma ShowingTask(i: nat)
      requires Consistent() && i < |tasks|
      ensures |world.tasks| == |tasks| && |world.entries| == |sess.entries| && world.tasks[i] == tasks[i].view
      ensures tasks[i] in Repr && tasks[i].stat == world.tasks[i].core.stat
      ensures tasks[i].isReported == world.tasks[i].isReported
      ensures tasks[i].entry == null <==> world.tasks[i].sess == None
      ensures tasks[i].entry != null ==>
                var j := tasks[i].entry.place;
                && world.tasks[i].sess == Some(j) && j < |world.entries|
                && tasks[i].entry in Repr && world.entries[j] == tasks[i].entry.View()
    {
      tasks[i].Linked();
    }

    /** One callback of the event loop. */
    method Callback(f: Firing)
      requires Valid()
      modifies Repr
      ensures Valid() && fresh(Repr - old(Repr))
      ensures world == Fire(old(world), f)
    {
      hide TaskFire;
      hide SessFire;
      hide DnsFire;
      hide TaskOk;
      hide Sound;
      hide Placed;
      hide Shows;
      FireSound(world, f);
      Showing();
      ghost var after := Fire(world, f);
      if f.entry < |sess.entries| {
        var e := sess.entries[f.entry];
        match f
        case DnsFiring(j, ans, net) =>
          if e.dnsPending {
            AwaitingIsIdle(world, j);
            DnsCallback(j, ans, net);
          }
        case EvFiring(j, ev, lastIo, net) =>
          if CanFire(e.slot, ev) {
            if e.slot.TaskSlot? {
              OwnerReady(world, j);
              TaskCallback(j, e.slot.task, ev, lastIo);
            } else {
              HostCallback(j, ev, net);
            }
          }
      }
      Become(after);
    }

    /** event_base_loop with EVLOOP_ONCE. */
    method BaseLoop(batch: seq<Firing>)
      requires Valid()
      modifies Repr
      ensures Valid() && fresh(Repr - old(Repr))
      ensures world == FireAll(old(world), batch)
    {
      hide Sound;
      hide Placed;
      hide Shows;
      hide Fire;
      var rest := batch;
      while rest != []
        invariant Valid() && fresh(Repr - old(Repr))
        invariant FireAll(world, rest) == FireAll(old(world), batch)
        decreases |rest|
      {
        Callback(rest[0]);
        rest := rest[1..];
      }
    }

    // -------------------------------------------------------------------------
    // pssh_exec

    /** The scan of pssh_exec starts the task at place `i`. */
    method StartTask(i: nat)
      requires Placed() && Shows(world) && i < |tasks|
      requires OnConnected(world, world.tasks[i])
      requires var e := world.entries[world.tasks[i].sess.value]; !e.evUp ==> e.slot == Idle
      modifies Repr
      ensures Placed() && Shows(Grant(old(world), i))
      ensures world == old(world) && Repr == old(Repr) && tasks == old(tasks)
    {
      hide Task.Valid;
      tasks[i].Linked();
      tasks[i].Start();
    }

    method ReportTask(i: nat)
      requires Consistent() && i < |tasks|
      modifies Repr
      ensures Placed() && Shows(Report(old(world), i))
      ensures world == old(world) && Repr == old(Repr) && tasks == old(tasks)
    {
      hide Task.Valid;
      tasks[i].MarkReported();
    }

    /** One TAILQ_FOREACH of pssh_exec with its four counters. */
    method ScanTasks() returns (reported: Option<nat>, tot: nat, ok: nat, err: nat, skip: nat)
      requires Valid()
      modifies Repr
      ensures Valid() && Repr == old(Repr)
      ensures ScanV(world, reported) == Scan(old(world), 0)
      ensures reported.None? ==> (ok + err + skip == tot <==> AllCounted(world)) && (err > 0 <==> AnyFailed(world))
    {
      hide Sound;
      hide Placed;
      hide Shows;
      hide Scan;
      hide Grant;
      hide Report;
      hide CountedTo;
      hide FailedTo;
      tot, ok, err, skip := 0, 0, 0, 0;
      reported := None;
      var i := 0;
      ScanStart(world);
      Showing();
      while i < |tasks|
        invariant Valid() && Repr == old(Repr) && 0 <= i <= |tasks| && tot == i
        invariant Scan(world, i) == Scan(old(world), 0)
        invariant ok + err + skip <= i && (ok + err + skip == i <==> CountedTo(world, i))
        invariant err > 0 <==> FailedTo(world, i)
        decreases |tasks| - i
      {
        var t := tasks[i];
        ShowingTask(i);
        ScanTurn(world, i);
        CountOne(world, i);
        tot := tot + 1;
        if t.entry == null || t.entry.stat != SessConnected {
          skip := skip + 1;
        } else if t.stat == StatNone || t.stat == StatStart {
          GrantSound(world, i);
          GrantCounts(world, i);
          SlotIdle(world, t.entry.place);
          ghost var after := Grant(world, i);
          StartTask(i);
          Become(after);
        } else if t.stat == StatError {
          err := err + 1;
        } else if t.stat == StatDone && !t.isReported {
          ReportSound(world, i);
          ghost var after := Report(world, i);
          ReportTask(i);
          Become(after);
          reported := Some(i);
          return;
        } else {
          if t.stat == StatDone {
            ok := ok + 1;
          }
        }
        i := i + 1;
      }
      Showing();
      ScanStop(world);
      CountAll(world);
    }

    /** pssh_exec. The schedule lists what the event loop calls back in each of
        its turns; a call that outlasts it is still waiting. */
    method Exec(sched: seq<seq<Firing>>) returns (out: ExecOut, task: Task?, rest: seq<seq<Firing>>)
      requires Valid()
      modifies Repr
      ensures Valid() && fresh(Repr - old(Repr))
      ensures ExecRes(world, out, rest) == ExecCall(old(world), sched)
      ensures if out.Running? then out.task < |tasks| && task == tasks[out.task] && task.stat == StatDone else task == null
    {
      hide Sound;
      hide Placed;
      hide Shows;
      hide Scan;
      hide AllCounted;
      hide AnyFailed;
      rest, task := sched, null;
      while true
        invariant Valid() && fresh(Repr - old(Repr))
        invariant ExecCall(world, rest) == ExecCall(old(world), sched)
        invariant task == null
        decreases |rest|
      {
        ScanReports(world);
        var reported, tot, ok, err, skip := ScanTasks();
        Showing();
        if reported.Some? {
          ShowingTask(reported.value);
          task := tasks[reported.value];
          return Running(reported.value), task, rest;
        }
        if ok + err + skip == tot {
          return if err > 0 then ExecFailed else ExecSuccess, null, rest;
        }
        if rest == [] {
          return ExecBlocked, null, rest;
        }
        BaseLoop(rest[0]);
        rest := rest[1..];
      }
    }

    // -------------------------------------------------------------------------
    // pssh_connect

    method ReportHost(i: nat)
      requires Consistent() && i < |sess.entries|
      modifies Repr
      ensures var es := old(world).entries; Placed() && Shows(old(world).(entries := es[i := es[i].(isReported := true)]))
      ensures world == old(world) && Repr == old(Repr) && tasks == old(tasks) && sess.entries == old(sess.entries)
    {
      hide Task.Valid;
      sess.entries[i].isReported := true;
    }

    method SetTiming(timeout: int, lastConnect: int, isTimeout: bool, ghost marks: seq<int>)
      requires Consistent()
      modifies Repr
      ensures Placed() && Shows(world.(timing := Timing(timeout, lastConnect, isTimeout, marks)))
      ensures world == old(world) && Repr == old(Repr) && tasks == old(tasks) && sess.entries == old(sess.entries)
    {
      hide Task.Valid;
      sess.timeout, sess.lastConnect, sess.isTimeout, sess.marks := timeout, lastConnect, isTimeout, marks;
    }

    /** `last_connect = 0; is_timeout = 0`. */
    method ResetWindow()
      requires Consistent()
      modifies Repr
      ensures Consistent() && world == old(world).(timing := Reset(old(world).timing))
      ensures Repr == old(Repr) && tasks == old(tasks) && sess.entries == old(sess.entries)
    {
      hide Placed;
      hide Shows;
      Showing();
      ghost var after := world.(timing := Reset(world.timing));
      SetTiming(sess.timeout, 0, false, []);
      Become(after);
    }

    /** The timeout path: shut down all events, then give up every host that is
        not connected. */
    method TimeOut()
      requires Consistent()
      modifies Repr
      ensures Placed() && Shows(world.(entries := GiveUpAll(world.entries)))
      ensures world == old(world) && Repr == old(Repr) && tasks == old(tasks) && sess.entries == old(sess.entries)
    {
      hide Task.Valid;
      hide Goto;
      sess.ShutdownEvents();
      sess.GiveUpUnconnected();
    }

    /** One turn of the for-loop of pssh_connect up to the event loop. */
    method ScanHosts() returns (out: ConnOut)
      requires Consistent()
      modifies Repr
      ensures Consistent() && Repr == old(Repr)
      ensures ConnStep(world, out) == ConnectScan(old(world))
    {
      hide Placed;
      hide Shows;
      hide GiveUpAll;
      var tot, err, ok := 0, 0, 0;
      var i := 0;
      Showing();
      while i < |sess.entries|
        invariant Consistent() && world == old(world) && Repr == old(Repr) && 0 <= i <= |sess.entries| && tot == i
        invariant i > 0 ==> !sess.isTimeout
        invariant forall a :: 0 <= a < i && a < |world.entries| ==> !NewlyConnected(world.entries[a])
        invariant err + ok <= i
        invariant err + ok == i <==> forall a :: 0 <= a < i && a < |world.entries| ==> Settled(world.entries[a])
        invariant err > 0 <==> exists a :: 0 <= a < i && a < |world.entries| && world.entries[a].stat == SessError
        decreases |sess.entries| - i
      {
        Showing();
        var e := sess.entries[i];
        tot := tot + 1;
        if sess.isTimeout {
          ghost var after := ConnectScan(world).w;
          ResetWindow();
          TimeOut();
          Become(after);
          return TimedOut;
        }
        if e.stat == SessConnected {
          if !e.isReported {
            FirstNewFound(world.entries, i);
            ghost var after := ConnectScan(world).w;
            ReportHost(i);
            Become(after);
            return Connected(i);
          }
          ok := ok + 1;
        } else if e.stat == SessError {
          err := err + 1;
        }
        i := i + 1;
      }
      Showing();
      FirstNewIs(world.entries);
      if err + ok == tot {
        ResetWindow();
        return if err > 0 then ConnFailed else ConnSuccess;
      }
      out := ConnWaiting;
    }

    /** pssh_connect. */
    method Connect(timeout: int, sched: seq<seq<Firing>>) returns (out: ConnOut, entry: SessEntry?, rest: seq<seq<Firing>>)
      requires Valid()
      modifies Repr
      ensures Valid() && fresh(Repr - old(Repr))
      ensures ConnRes(world, out, rest) == Connecting.Connect(old(world), timeout, sched)
      ensures Inv(old(world)) ==> (Inv(world) <==> out != TimedOut || Quiescent(LastScan(SetTimeout(old(world), timeout), sched)))
      ensures if out.Connected? then out.entry < |sess.entries| && entry == sess.entries[out.entry] && entry.stat == SessConnected
              else entry == null
    {
      hide Sound;
      hide Placed;
      hide Shows;
      hide ConnectScan;
      hide Quiescent;
      Showing();
      ghost var start := SetTimeout(world, timeout);
      TimingSound(world, start.timing);
      ConnectKeepsIff(world, timeout, sched);
      SetTiming(timeout, sess.lastConnect, sess.isTimeout, sess.marks);
      Become(start);
      rest, entry := sched, null;
      while true
        invariant Valid() && fresh(Repr - old(Repr))
        invariant ConnectLoop(world, rest) == ConnectLoop(start, sched)
        invariant entry == null
        decreases |rest|
      {
        ConnectScanReports(world);
        ConnectScanSound(world);
        out := ScanHosts();
        Showing();
        if out.Connected? {
          entry := sess.entries[out.entry];
        }
        if !out.ConnWaiting? || rest == [] {
          return;
        }
        BaseLoop(rest[0]);
        rest := rest[1..];
      }
    }
  }

  lemma NewCommand(opens: seq<Attempt>, starts: seq<Attempt>, err: seq<ReadItem>, out: seq<ReadItem>, exit: int)
    ensures NewCore(Core(StatNone, NoChan, Job.Exec(ExecV(opens, starts, FreshStream(err), FreshStream(out), exit, 0))))
  {
  }

  lemma ScanReports(w: World)
    ensures var s := Scan(w, 0);
            s.reported.Some? ==> s.reported.value < |s.w.tasks| && s.w.tasks[s.reported.value].core.stat == StatDone
  {
    ScanReportsFrom(w, 0);
  }

  lemma {:induction false} ScanReportsFrom(w: World, i: nat)
    ensures var s := Scan(w, i);
            s.reported.Some? ==> s.reported.value < |s.w.tasks| && s.w.tasks[s.reported.value].core.stat == StatDone
    decreases |w.tasks| - i
  {
    if i < |w.tasks| {
      ScanTurn(w, i);
      hide Scan;
      var t := w.tasks[i];
      if OnConnected(w, t) && Unstarted(t) {
        ScanReportsFrom(Grant(w, i), i + 1);
      } else if !(OnConnected(w, t) && t.core.stat == StatDone && !t.isReported) {
        ScanReportsFrom(w, i + 1);
      }
    }
  }

  lemma ConnectScanReports(w: World)
    ensures var s := ConnectScan(w);
            s.out.Connected? ==> s.out.entry < |s.w.entries| && s.w.entries[s.out.entry].stat == SessConnected
  {
    ConnectScanOutcome(w);
  }

  lemma ConnectKeepsIff(w: World, timeout: int, sched: seq<seq<Firing>>)
    ensures var start := SetTimeout(w, timeout);
            Inv(w) ==> (Inv(ConnectLoop(start, sched).w) <==>
                          ConnectLoop(start, sched).out != TimedOut || Quiescent(LastScan(start, sched)))
  {
    if Inv(w) {
      var start := SetTimeout(w, timeout);
      TimingKeeps(w, start.timing);
      ConnectLoopKeepsIff(start, sched);
    }
  }

  lemma FirstNewFound(entries: seq<Entry>, i: nat)
    requires i < |entries| && NewlyConnected(entries[i]) && forall a :: 0 <= a < i ==> !NewlyConnected(entries[a])
    ensures FirstNew(entries) == Some(i)
  {
    FirstNewIs(entries);
  }

  /** It does not matter to the handler that libevent has cleared the slot. */
  lemma FiredAnyway(t: TaskV, e: Entry, k: nat, ev: EvType, lastIo: Flag)
    ensures TaskFire(t, e.(slot := Idle), k, ev, lastIo) == TaskFire(t, e, k, ev, lastIo)
  {
  }

  lemma ScanStart(w: World)
    ensures CountedTo(w, 0) && !FailedTo(w, 0)
  {
  }

  lemma ScanStop(w: World)
    ensures Scan(w, |w.tasks|) == ScanV(w, None)
  {
  }

  /** A flag that is down means an idle slot. */
  lemma SlotIdle(w: World, j: nat)
    requires Sound(w) && j < |w.entries|
    ensures !w.entries[j].evUp ==> w.entries[j].slot == Idle
  {
  }

  lemma AwaitingIsIdle(w: World, j: nat)
    requires Sound(w) && j < |w.entries| && w.entries[j].dnsPending
    ensures w.entries[j].slot == Idle
  {
  }

  lemma OwnerReady(w: World, j: nat)
    requires Sound(w) && j < |w.entries| && w.entries[j].slot.TaskSlot?
    ensures var k := w.entries[j].slot.task;
            k < |w.tasks| && CoreOk(w.tasks[k].core, w.tasks[k].born) && w.tasks[k].core.stat != StatNone && w.tasks[k].sess == Some(j)
  {
  }
}
