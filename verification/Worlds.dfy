/** All hosts and all tasks of one client, sharing one event base: what a firing
    event and a scan of the task list do to them, and the invariant that holds
    between any two such steps (src/task.c:83-121, 669-789, src/pssh.c:365-393). */
module Worlds {
  import opened Base
  import opened Streams
  import opened Tasks
  import opened Sessions

  /** A pssh_task_t. `sess` is its host's place in the session list. `born` is
      the task as added, `acts` the number of its activations so far and
      `expired` whether its timer ended it. */
  datatype TaskV = TaskV(
    core: Core, isReported: bool, sess: Option<nat>, timed: bool, born: Core, acts: nat, expired: bool)

  datatype World = World(timing: Timing, entries: seq<Entry>, tasks: seq<TaskV>)

  /** No host and no task yet. */
  const EMPTY_WORLD: World := World(Timing(0, 0, false, []), [], [])

  /** One callback made by the event loop. */
  datatype Firing =
    | EvFiring(entry: nat, ev: EvType, lastIo: Flag, net: Net)
    | DnsFiring(entry: nat, ans: DnsAnswer, net: Net)

  // ---------------------------------------------------------------------------
  // Steps

  datatype Pair = Pair(t: TaskV, e: Entry)

  /** pssh_task_event_update: the slot is only taken when it is free. */
  function TaskArm(e: Entry, k: nat, flag: Flag, timed: bool): Entry {
    if e.evUp then e else e.(slot := TaskSlot(k, flag, timed), evUp := true)
  }

  /** pssh_task_fsm for the task at place `k`. */
  function TaskFsm(t: TaskV, e: Entry, k: nat, lastIo: Flag): Pair {
    var r := Run(t.core);
    var t' := t.(core := r.core, acts := t.acts + 1);
    match r.ret
    case Again => Pair(t', TaskArm(e, k, if r.core.stat == StatCmdRunning then EvRead else lastIo, t.timed))
    case Ok => Pair(t', if Terminal(r.core) then e else TaskArm(e, k, EvWrite, t.timed))
    case _ => Pair(t', e) // it has not returned: this is as far as the call gets
  }

  /** pssh_task_event_handler, called by libevent after the event has fired. */
  function TaskFire(t: TaskV, e: Entry, k: nat, ev: EvType, lastIo: Flag): Pair {
    var fired := e.(slot := Idle, evType := ev, evUp := false);
    if ev.OnlyTimeout() then Pair(t.(core := Expire(t.core), expired := true), fired)
    else TaskFsm(t, fired.(trace := e.trace + [k]), k, lastIo)
  }

  predicate Enabled(w: World, f: Firing) {
    && f.entry < |w.entries|
    && match f
       case EvFiring(j, ev, _, _) =>
         CanFire(w.entries[j].slot, ev) && (w.entries[j].slot.TaskSlot? ==> w.entries[j].slot.task < |w.tasks|)
       case DnsFiring(j, _, _) => w.entries[j].dnsPending
  }

  function Put(w: World, j: nat, k: nat, p: Pair): World
    requires j < |w.entries| && k < |w.tasks|
  {
    w.(entries := w.entries[j := p.e], tasks := w.tasks[k := p.t])
  }

  function PutHost(w: World, j: nat, v: SessV): World
    requires j < |w.entries|
  {
    w.(timing := v.timing, entries := w.entries[j := v.e])
  }

  /** One callback; nothing happens unless libevent could make it. */
  function Fire(w: World, f: Firing): World {
    if !Enabled(w, f) then w
    else
      var e := w.entries[f.entry];
      match f
      case DnsFiring(j, ans, net) => PutHost(w, j, DnsFire(w.timing, e, ans, net))
      case EvFiring(j, ev, lastIo, net) =>
        if e.slot.TaskSlot? then Put(w, j, e.slot.task, TaskFire(w.tasks[e.slot.task], e, e.slot.task, ev, lastIo))
        else PutHost(w, j, SessFire(w.timing, e, ev, net))
  }

  /** A turn of event_base_loop makes one or more callbacks. */
  function FireAll(w: World, batch: seq<Firing>): World
    decreases |batch|
  {
    if batch == [] then w else FireAll(Fire(w, batch[0]), batch[1..])
  }

  /** The test by which pssh_exec skips a task. */
  predicate OnConnected(w: World, t: TaskV) {
    t.sess.Some? && t.sess.value < |w.entries| && w.entries[t.sess.value].stat == SessConnected
  }

  predicate Unstarted(t: TaskV) {
    t.core.stat == StatNone || t.core.stat == StatStart
  }

  /** What the scan does to an unstarted task of a connected host. */
  function Grant(w: World, i: nat): World
    requires i < |w.tasks| && OnConnected(w, w.tasks[i])
  {
    var t := w.tasks[i];
    var j := t.sess.value;
    Put(w, j, i, Pair(t.(core := t.core.(stat := StatStart)), TaskArm(w.entries[j], i, EvWrite, t.timed)))
  }

  datatype ScanV = ScanV(w: World, reported: Option<nat>)

  /** The TAILQ_FOREACH of pssh_exec from place `i` on: unstarted tasks ask for
      their host's slot, and the first unreported DONE task ends the scan. */
  function Scan(w: World, i: nat): ScanV
    decreases |w.tasks| - i
  {
    if i >= |w.tasks| then ScanV(w, None)
    else
      var t := w.tasks[i];
      if !OnConnected(w, t) then Scan(w, i + 1)
      else if Unstarted(t) then Scan(Grant(w, i), i + 1)
      else if t.core.stat == StatDone && !t.isReported then
        ScanV(w.(tasks := w.tasks[i := t.(isReported := true)]), Some(i))
      else Scan(w, i + 1)
  }

  /** pssh_find_ent. */
  function FindEntry(entries: seq<Entry>, name: string): Option<nat> {
    if entries == [] then None
    else if entries[0].name == name then Some(0)
    else match FindEntry(entries[1..], name)
      case Some(i) => Some(i + 1)
      case None => None
  }

  /** pssh_server_add. */
  function AddServer(w: World, name: string): World {
    w.(entries := w.entries + [Entry(name, SessNone, false, Idle, EvType(false, false, false),
                                     false, false, true, [], [])])
  }

  /** pssh_init_common_task and the insertion at the tail. */
  function AddTask(w: World, name: string, core: Core, timed: bool): World {
    w.(tasks := w.tasks + [TaskV(core, false, FindEntry(w.entries, name), timed, core, 0, false)])
  }

  // ---------------------------------------------------------------------------
  // Invariant

  predicate Finished(t: TaskV) {
    Terminal(t.core)
  }

  /** Not activated yet. */
  predicate Fresh(t: TaskV) {
    t.acts == 0 && !t.expired && Unstarted(t)
  }

  /** Its channel is open: CHANNEL_READY, DATA_TRANSFER or CMD_RUNNING. */
  predicate Begun(t: TaskV) {
    !Finished(t) && !Unstarted(t)
  }

  /** A task is the task as added after its own `acts` activations, whatever
      happened on other hosts in between, unless its timer ended it. */
  predicate TaskOk(t: TaskV) {
    && NewCore(t.born)
    && CoreOk(t.core, t.born)
    && (t.isReported ==> t.core.stat == StatDone)
    && (t.expired ==> t.core.stat == StatError && t.timed && (t.core.job.Exec? ==> t.core.job.ex.retCode == 1))
    && (t.core.stat == StatNone ==> t.acts == 0)
    && (!t.expired ==> t.core == if t.core.stat == StatNone then t.born else Nth(Begin(t.born), t.acts))
  }

  predicate PlaceOk(w: World, t: TaskV) {
    && (t.sess.Some? ==> t.sess.value < |w.entries|)
    && (t.core.stat != StatNone ==> OnConnected(w, t))
  }

  predicate HostsOk(w: World) {
    forall j :: 0 <= j < |w.entries| ==> PhaseOk(w.entries[j], w.timing.isTimeout)
  }

  predicate TasksOk(w: World) {
    forall i :: 0 <= i < |w.tasks| ==> TaskOk(w.tasks[i]) && PlaceOk(w, w.tasks[i])
  }

  predicate Owns(e: Entry, k: nat) {
    e.slot.TaskSlot? && e.slot.task == k
  }

  /** An event pending for a task is held by an unfinished or failed task of the
      same host. */
  predicate OwnersOk(w: World) {
    forall j :: 0 <= j < |w.entries| && w.entries[j].slot.TaskSlot? ==>
      var k := w.entries[j].slot.task;
      && k < |w.tasks| && w.tasks[k].sess == Some(j)
      && w.tasks[k].core.stat != StatNone && w.tasks[k].core.stat != StatDone
      && w.entries[j].slot.timed == w.tasks[k].timed
  }

  /** Whoever holds a slot has only finished tasks before and only fresh tasks
      behind it on its host. */
  predicate OwnersInTurn(w: World) {
    forall j, i :: 0 <= j < |w.entries| && w.entries[j].slot.TaskSlot? && 0 <= i < |w.tasks| && w.tasks[i].sess == Some(j) ==>
      && (i < w.entries[j].slot.task ==> Finished(w.tasks[i]))
      && (i > w.entries[j].slot.task ==> Fresh(w.tasks[i]))
  }

  /** A task in CHANNEL_READY, DATA_TRANSFER or CMD_RUNNING holds its host's
      slot; so at most one task of a host is in one of these states. */
  predicate BegunOwn(w: World) {
    forall i :: 0 <= i < |w.tasks| && Begun(w.tasks[i]) ==>
      w.tasks[i].sess.Some? && w.tasks[i].sess.value < |w.entries| && Owns(w.entries[w.tasks[i].sess.value], i)
  }

  predicate SameHost(w: World, i: nat, k: nat)
    requires i < |w.tasks| && k < |w.tasks|
  {
    w.tasks[i].sess.Some? && w.tasks[i].sess == w.tasks[k].sess
  }

  /** No task of a host is overtaken. */
  predicate InOrder(w: World) {
    forall i, k :: 0 <= i < k < |w.tasks| && SameHost(w, i, k) ==> Finished(w.tasks[i]) || Fresh(w.tasks[k])
  }

  /** Only hosts, ends and freshness of tasks matter for the order. */
  lemma OrderSame(w: World, w': World)
    requires InOrder(w) && |w'.tasks| == |w.tasks|
    requires forall i :: 0 <= i < |w.tasks| ==>
               && w'.tasks[i].sess == w.tasks[i].sess
               && (Finished(w.tasks[i]) ==> Finished(w'.tasks[i])) && (Fresh(w.tasks[i]) ==> Fresh(w'.tasks[i]))
    ensures InOrder(w')
  {
    hide Finished;
    hide Fresh;
    forall i, k | 0 <= i < k < |w'.tasks| && SameHost(w', i, k)
      ensures Finished(w'.tasks[i]) || Fresh(w'.tasks[k])
    {
      assert SameHost(w, i, k);
    }
  }

  function Repeat(k: nat, n: nat): (r: seq<nat>)
    ensures |r| == n
  {
    if n == 0 then [] else Repeat(k, n - 1) + [k]
  }

  /** The activations on host `j` if its tasks are run one after the other in
      list order. */
  function Sequential(tasks: seq<TaskV>, j: nat): seq<nat> {
    if tasks == [] then []
    else
      var n := |tasks| - 1;
      Sequential(tasks[..n], j) + if tasks[n].sess == Some(j) then Repeat(n, tasks[n].acts) else []
  }

  predicate TracesOk(w: World) {
    forall j :: 0 <= j < |w.entries| ==> w.entries[j].trace == Sequential(w.tasks, j)
  }

  /** What holds on every run whatsoever. */
  predicate Sound(w: World) {
    HostsOk(w) && TasksOk(w) && OwnersOk(w)
  }

  /** What holds as long as no timeout disarms a task in flight. */
  predicate Inv(w: World) {
    Sound(w) && OwnersInTurn(w) && BegunOwn(w) && InOrder(w) && TracesOk(w)
  }

  // ---------------------------------------------------------------------------
  // The traces

  /** Only the tasks of a host matter for its trace, and of them only the number
      of activations. */
  lemma {:induction false} SequentialSame(a: seq<TaskV>, b: seq<TaskV>, j: nat)
    requires |a| == |b|
    requires forall i :: 0 <= i < |a| ==> a[i].sess == b[i].sess && (a[i].sess == Some(j) ==> a[i].acts == b[i].acts)
    ensures Sequential(a, j) == Sequential(b, j)
  {
    if a != [] {
      SequentialSame(a[..|a| - 1], b[..|b| - 1], j);
    }
  }

  /** One more activation of the last begun task of a host extends its trace at
      the end. */
  lemma {:induction false} SequentialBump(tasks: seq<TaskV>, k: nat, t: TaskV, j: nat)
    requires k < |tasks| && tasks[k].sess == Some(j)
    requires t.sess == Some(j) && t.acts == tasks[k].acts + 1
    requires forall i :: k < i < |tasks| && tasks[i].sess == Some(j) ==> tasks[i].acts == 0
    ensures Sequential(tasks[k := t], j) == Sequential(tasks, j) + [k]
  {
    var n := |tasks| - 1;
    if k == n {
      assert tasks[k := t][..n] == tasks[..n];
      assert Repeat(k, t.acts) == Repeat(k, tasks[k].acts) + [k];
    } else {
      assert tasks[k := t][..n] == tasks[..n][k := t];
      SequentialBump(tasks[..n], k, t, j);
      assert tasks[n].sess == Some(j) ==> Repeat(n, tasks[n].acts) == [];
    }
  }

  // ---------------------------------------------------------------------------
  // Callbacks keep the invariant

  /** What a callback of the task at place `k` leaves behind: the task is no
      longer fresh; it holds the slot again, or the slot is free and the task
      has finished or not got beyond loading its file. */
  predicate Fired(t: TaskV, e: Entry, k: nat, isTimeout: bool, p: Pair) {
    && TaskOk(p.t) && p.t.sess == t.sess && p.t.timed == t.timed
    && p.t.core.stat != StatNone && !Fresh(p.t)
    && p.e.stat == SessConnected && PhaseOk(p.e, isTimeout)
    && (if p.e.slot == Idle then Finished(p.t) || Unstarted(p.t) else Owns(p.e, k) && p.t.core.stat != StatDone && p.e.slot.timed == t.timed)
    && (if p.t.acts == t.acts then p.e.trace == e.trace
        else p.t.acts == t.acts + 1 && p.e.trace == e.trace + [k])
  }

  lemma TaskFsmTaskOk(t: TaskV, e: Entry, k: nat, lastIo: Flag)
    requires TaskOk(t) && t.core.stat != StatNone
    ensures var p := TaskFsm(t, e, k, lastIo);
            && TaskOk(p.t) && p.t.sess == t.sess && p.t.timed == t.timed && p.t.acts == t.acts + 1
            && p.t.core.stat != StatNone && (t.core.stat != StatDone ==> !p.t.isReported)
  {
    RunKeeps(t.core, t.born);
    if t.expired || t.isReported {
      TerminalStays(t.core);
    }
  }

  lemma TaskFsmEntry(t: TaskV, e: Entry, k: nat, lastIo: Flag)
    requires TaskOk(t) && t.core.stat != StatNone && !e.evUp && e.slot == Idle
    ensures var p := TaskFsm(t, e, k, lastIo);
            && (p.e == e || p.e == e.(slot := p.e.slot, evUp := true))
            && (if p.e.slot == Idle then p.e == e && (Finished(p.t) || (NeverReturns(t.core) && p.t.core == t.core))
                else Owns(p.e, k) && p.t.core.stat != StatDone && p.e.slot.timed == t.timed)
  {
    RunKeeps(t.core, t.born);
    if Run(t.core).ret == Again {
      AgainNotDone(t.core, t.born);
    }
  }

  /** Exactly when a task that fails goes on holding its host's slot: when it
      fails in CMD_RUNNING, that is, by a failed read that both streams asking to
      wait have exposed. */
  lemma FailedHolderIff(t: TaskV, e: Entry, k: nat, lastIo: Flag)
    requires TaskOk(t) && t.core.stat != StatNone && !Finished(t) && !e.evUp && e.slot == Idle
    ensures var p := TaskFsm(t, e, k, lastIo);
            p.t.core.stat == StatError ==> (Owns(p.e, k) <==> t.core.stat == StatCmdRunning)
  {
    hide NewCore;
    hide Nth;
    RunKeeps(t.core, t.born);
  }

  /** Such a task: a read of stdout fails, then both streams ask to wait. */
  lemma FailedHolder(t: TaskV, e: Entry, k: nat, lastIo: Flag)
    requires t.core == Core(StatCmdRunning, OpenChan, Exec(ExecV([], [], FreshStream(LATE_ERR), FreshStream(LATE_OUT), 0, 0)))
    requires !e.evUp
    ensures var p := TaskFsm(t, e, k, lastIo);
            p.t.core.stat == StatError && Owns(p.e, k)
  {
    ExposedFailure();
  }

  lemma TaskFireFired(t: TaskV, e: Entry, k: nat, ev: EvType, lastIo: Flag, isTimeout: bool)
    requires TaskOk(t) && t.core.stat != StatNone && t.core.stat != StatDone
    requires PhaseOk(e, isTimeout) && e.stat == SessConnected && Owns(e, k) && e.slot.timed == t.timed && CanFire(e.slot, ev)
    ensures Fired(t, e, k, isTimeout, TaskFire(t, e, k, ev, lastIo))
  {
    var fired := e.(slot := Idle, evType := ev, evUp := false);
    if ev.OnlyTimeout() {
      ExpireKeeps(t.core, t.born);
    } else {
      TaskFsmTaskOk(t, fired.(trace := e.trace + [k]), k, lastIo);
      TaskFsmEntry(t, fired.(trace := e.trace + [k]), k, lastIo);
    }
  }

  /** The task at place `k` holds the slot of host `j`, and this is how its
      callback went. */
  predicate FiredIn(w: World, j: nat, k: nat, p: Pair) {
    && j < |w.entries| && k < |w.tasks| && Owns(w.entries[j], k)
    && Fired(w.tasks[k], w.entries[j], k, w.timing.isTimeout, p)
  }

  lemma FiredTraces(w: World, j: nat, k: nat, p: Pair)
    requires Inv(w) && FiredIn(w, j, k, p)
    ensures TracesOk(Put(w, j, k, p))
  {
    var w' := Put(w, j, k, p);
    forall h | 0 <= h < |w'.entries| ensures w'.entries[h].trace == Sequential(w'.tasks, h) {
      if h == j && p.t.acts != w.tasks[k].acts {
        SequentialBump(w.tasks, k, p.t, j);
      } else {
        SequentialSame(w.tasks, w'.tasks, h);
      }
    }
  }

  lemma FiredSound(w: World, j: nat, k: nat, p: Pair)
    requires Sound(w) && FiredIn(w, j, k, p)
    ensures Sound(Put(w, j, k, p))
  {
    hide PhaseOk;
    hide TaskOk;
  }

  lemma FiredOwner(w: World, j: nat, k: nat, p: Pair)
    requires Inv(w) && FiredIn(w, j, k, p)
    ensures BegunOwn(Put(w, j, k, p))
  {
    hide PhaseOk;
    hide TaskOk;
  }

  lemma FiredInTurn(w: World, j: nat, k: nat, p: Pair)
    requires Inv(w) && FiredIn(w, j, k, p)
    ensures OwnersInTurn(Put(w, j, k, p))
  {
  }

  lemma FiredInOrder(w: World, j: nat, k: nat, p: Pair)
    requires Inv(w) && FiredIn(w, j, k, p)
    ensures InOrder(Put(w, j, k, p))
  {
    var w' := Put(w, j, k, p);
    forall i, m | 0 <= i < m < |w'.tasks| && SameHost(w', i, m)
      ensures Finished(w'.tasks[i]) || Fresh(w'.tasks[m])
    {
      assert SameHost(w, i, m);
    }
  }

  lemma FiredKeeps(w: World, j: nat, k: nat, p: Pair)
    requires Inv(w) && FiredIn(w, j, k, p)
    ensures Inv(Put(w, j, k, p))
  {
    hide TaskOk;
    hide PhaseOk;
    FiredTraces(w, j, k, p);
    FiredSound(w, j, k, p);
    FiredOwner(w, j, k, p);
    FiredInTurn(w, j, k, p);
    FiredInOrder(w, j, k, p);
  }

  /** What a callback of the session machine leaves behind: a free slot for the
      tasks if the host is now connected. */
  predicate HostFired(w: World, j: nat, v: SessV)
    requires j < |w.entries|
  {
    && PhaseOk(v.e, v.timing.isTimeout) && (w.timing.isTimeout ==> v.timing.isTimeout)
    && !v.e.slot.TaskSlot? && v.e.trace == w.entries[j].trace
  }

  lemma HostFiredSound(w: World, j: nat, v: SessV)
    requires Sound(w) && j < |w.entries| && HostFired(w, j, v)
    requires w.entries[j].stat != SessConnected && !w.entries[j].slot.TaskSlot?
    ensures Sound(PutHost(w, j, v))
  {
    hide TaskOk;
  }

  /** The tasks and their slots are the same. */
  predicate SameTasks(w: World, w': World) {
    && w'.tasks == w.tasks && |w'.entries| == |w.entries|
    && forall j :: 0 <= j < |w.entries| ==>
         && w'.entries[j].trace == w.entries[j].trace
         && (w'.entries[j].slot == w.entries[j].slot || (!w'.entries[j].slot.TaskSlot? && !w.entries[j].slot.TaskSlot?))
  }

  lemma SameTasksKeep(w: World, w': World)
    requires Inv(w) && Sound(w') && SameTasks(w, w')
    ensures Inv(w')
  {
    hide Sound;
    OrderSame(w, w');
    hide Fresh;
    hide Finished;
  }

  lemma HostFiredKeeps(w: World, j: nat, v: SessV)
    requires Inv(w) && j < |w.entries| && HostFired(w, j, v)
    requires w.entries[j].stat != SessConnected && !w.entries[j].slot.TaskSlot?
    ensures Inv(PutHost(w, j, v))
  {
    HostFiredSound(w, j, v);
    hide Sound;
    SameTasksKeep(w, PutHost(w, j, v));
    hide Inv;
  }

  /** How a callback goes for the one host, or host and task, that it concerns. */
  lemma FireParts(w: World, f: Firing)
    requires Sound(w) && Enabled(w, f)
    ensures var e := w.entries[f.entry];
            if e.slot.TaskSlot? then
              f.EvFiring? && FiredIn(w, f.entry, e.slot.task, TaskFire(w.tasks[e.slot.task], e, e.slot.task, f.ev, f.lastIo))
            else
              var v := if f.DnsFiring? then DnsFire(w.timing, e, f.ans, f.net) else SessFire(w.timing, e, f.ev, f.net);
              HostFired(w, f.entry, v) && e.stat != SessConnected && Fire(w, f) == PutHost(w, f.entry, v)
  {
    var e := w.entries[f.entry];
    match f
    case DnsFiring(j, ans, net) => DnsFireKeeps(w.timing, e, ans, net);
    case EvFiring(j, ev, lastIo, net) =>
      if e.slot.TaskSlot? {
        TaskFireFired(w.tasks[e.slot.task], e, e.slot.task, ev, lastIo, w.timing.isTimeout);
      } else {
        SessFireKeeps(w.timing, e, ev, net);
      }
  }

  lemma FireSound(w: World, f: Firing)
    requires Sound(w)
    ensures Sound(Fire(w, f))
  {
    hide TaskFire;
    hide Sound;
    hide HostFired;
    hide FiredIn;
    if Enabled(w, f) {
      var e := w.entries[f.entry];
      FireParts(w, f);
      if e.slot.TaskSlot? {
        FiredSound(w, f.entry, e.slot.task, TaskFire(w.tasks[e.slot.task], e, e.slot.task, f.ev, f.lastIo));
      } else {
        HostFiredSound(w, f.entry, if f.DnsFiring? then DnsFire(w.timing, e, f.ans, f.net) else SessFire(w.timing, e, f.ev, f.net));
      }
    }
  }

  /** Every callback keeps the invariant. */
  lemma FireKeeps(w: World, f: Firing)
    requires Inv(w)
    ensures Inv(Fire(w, f))
  {
    hide TaskFire;
    hide HostFired;
    hide FiredIn;
    if Enabled(w, f) {
      var e := w.entries[f.entry];
      FireParts(w, f);
      hide Inv;
      if e.slot.TaskSlot? {
        FiredKeeps(w, f.entry, e.slot.task, TaskFire(w.tasks[e.slot.task], e, e.slot.task, f.ev, f.lastIo));
      } else {
        HostFiredKeeps(w, f.entry, if f.DnsFiring? then DnsFire(w.timing, e, f.ans, f.net) else SessFire(w.timing, e, f.ev, f.net));
      }
    }
  }

  lemma {:induction false} FireAllKeeps(w: World, batch: seq<Firing>)
    requires Inv(w)
    ensures Inv(FireAll(w, batch))
    decreases |batch|
  {
    if batch != [] {
      FireKeeps(w, batch[0]);
      FireAllKeeps(Fire(w, batch[0]), batch[1..]);
    }
  }
}
