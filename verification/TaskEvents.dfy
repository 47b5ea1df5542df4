/** What a callback of a task leads to: what the task waits for next, and what its
    timer does to it (src/task.c:83-121, 669-746, 766-770). */
module TaskEvents {
  import opened Base
  import opened Streams
  import opened Copying
  import opened Tasks
  import opened Fates
  import opened Sessions
  import opened Worlds

  // ---------------------------------------------------------------------------
  // What a task waits for

  /** The next activation meets EAGAIN. */
  ghost predicate AsksToWait(c: Core) {
    match c.job
    case Copy(cp) =>
      if c.stat == StatStart then
        && (cp.dir.ToServ? && cp.data.None? ==> cp.files != [] && CanBeRead(cp.files[0]))
        && cp.opens != [] && cp.opens[0].TryAgain?
      else
        && c.stat == StatChannelReady
        && if cp.dir.ToServ? then cp.writes != [] && cp.writes[0] == NotWritten(true)
           else cp.incoming != [] && cp.incoming[0].Neg? && cp.incoming[0].code == -37
    case Exec(ex) =>
      match c.stat
      case StatStart => ex.opens != [] && ex.opens[0].TryAgain?
      case StatChannelReady => ex.starts != [] && ex.starts[0].TryAgain?
      case StatCmdRunning => WaitsFor(LoopV(StatCmdRunning, ex.err, ex.out))
      case _ => false
  }

  lemma CopyAgainIff(stat: TaskStat, chan: Chan, cp: CopyV, born: CopyV)
    requires CopyOk(stat, chan, cp, born) && stat != StatNone
    ensures RunCopy(stat, chan, cp).ret == Again <==> AsksToWait(Core(stat, chan, Copy(cp)))
  {
    hide Snapshot;
    hide Bytes;
    if stat == StatStart && cp.dir.ToServ? && cp.data.None? && cp.files != [] {
      LoadOutcome(cp.files[0].answers, cp.files[0].size);
    }
  }

  lemma RunAgainIff(c: Core, born: Core)
    requires CoreOk(c, born) && c.stat != StatNone
    ensures Run(c).ret == Again <==> AsksToWait(c)
  {
    match c.job
    case Copy(cp) =>
      CopyAgainIff(c.stat, c.chan, cp, born.job.cp);
      hide RunCopy;
    case Exec(ex) =>
      if c.stat == StatCmdRunning {
        DrainWaitsIff(LoopV(StatCmdRunning, ex.err, ex.out));
        DrainKeeps(LoopV(StatCmdRunning, ex.err, ex.out));
        hide Drain;
        hide WaitsFor;
      }
  }

  /** What the slot holds after an activation, in terms of the answers it met: if
      it met EAGAIN, the direction libssh2 was blocked on, or in CMD_RUNNING
      always readability; else writability, unless the task has finished or is
      still loading a truncated file. */
  lemma TaskWaitsFor(t: TaskV, e: Entry, k: nat, lastIo: Flag)
    requires TaskOk(t) && t.core.stat != StatNone && !e.evUp && e.slot == Idle
    ensures var p := TaskFsm(t, e, k, lastIo);
            p.e.slot ==
              if AsksToWait(t.core) then TaskSlot(k, if p.t.core.stat == StatCmdRunning then EvRead else lastIo, t.timed)
              else if Finished(p.t) || NeverReturns(t.core) then Idle
              else TaskSlot(k, EvWrite, t.timed)
  {
    RunKeeps(t.core, t.born);
    RunAgainIff(t.core, t.born);
    hide AsksToWait;
    hide Run;
    hide CoreOk;
    if NeverReturns(t.core) {
      assert !AsksToWait(t.core);
    }
  }

  /** The same for a callback of the event loop. */
  lemma CallbackWaitsFor(w: World, f: Firing)
    requires Sound(w) && Enabled(w, f) && w.entries[f.entry].slot.TaskSlot?
    requires f.ev != EvType(true, false, false)
    ensures var k := w.entries[f.entry].slot.task;
            var t := w.tasks[k];
            var t' := Fire(w, f).tasks[k];
            Fire(w, f).entries[f.entry].slot ==
              if AsksToWait(t.core) then TaskSlot(k, if t'.core.stat == StatCmdRunning then EvRead else f.lastIo, t.timed)
              else if Finished(t') || NeverReturns(t.core) then Idle
              else TaskSlot(k, EvWrite, t.timed)
  {
    hide AsksToWait;
    hide TaskFsm;
    hide NeverReturns;
    hide CoreOk;
    hide PathOk;
    var e := w.entries[f.entry];
    var k := e.slot.task;
    var fired := e.(slot := Idle, evType := f.ev, evUp := false, trace := e.trace + [k]);
    TaskWaitsFor(w.tasks[k], fired, k, f.lastIo);
    assert TaskFire(w.tasks[k], e, k, f.ev, f.lastIo) == TaskFsm(w.tasks[k], fired, k, f.lastIo);
  }

  /** A slot that a scan takes for a task waits for writability; no other slot
      changes. */
  lemma {:induction false} ScanWaitsFor(w: World, i: nat, j: nat)
    requires j < |w.entries| && (w.entries[j].slot != Idle ==> w.entries[j].evUp)
    ensures |Scan(w, i).w.entries| == |w.entries|
    ensures var slot := Scan(w, i).w.entries[j].slot;
            (slot == w.entries[j].slot ||
                (w.entries[j].slot == Idle && slot.TaskSlot? && slot.flag == EvWrite
                 && slot.task < |w.tasks| && slot.timed == w.tasks[slot.task].timed))
    decreases |w.tasks| - i
  {
    if i < |w.tasks| {
      var t := w.tasks[i];
      if OnConnected(w, t) && Unstarted(t) {
        ScanWaitsFor(Grant(w, i), i + 1, j);
      } else if !(OnConnected(w, t) && t.core.stat == StatDone && !t.isReported) {
        ScanWaitsFor(w, i + 1, j);
      }
    }
  }

  // ---------------------------------------------------------------------------
  // The timer of a task

  /** The timer of task `i` expires, and nothing else is ready. */
  predicate TimerExpires(w: World, f: Firing, i: nat) {
    Enabled(w, f) && f.EvFiring? && Owns(w.entries[f.entry], i) && f.ev == EvType(true, false, false)
  }

  /** That ends the task: it is in ERROR, a command with exit status 1; what it
      has transferred so far stays, its slot is free, and nothing else changes. */
  lemma TimerEndsTask(w: World, f: Firing, i: nat)
    requires Sound(w) && TimerExpires(w, f, i)
    ensures var w' := Fire(w, f);
            var t := w.tasks[i];
            var e := w.entries[f.entry];
            && w' == w.(tasks := w.tasks[i := w'.tasks[i]], entries := w.entries[f.entry := w'.entries[f.entry]])
            && w'.entries[f.entry] == e.(slot := Idle, evUp := false, evType := f.ev)
            && w'.tasks[i] == t.(expired := true, core := w'.tasks[i].core)
            && w'.tasks[i].core == Core(StatError, t.core.chan, w'.tasks[i].core.job)
            && match t.core.job
               case Copy(cp) => w'.tasks[i].core.job == Copy(cp)
               case Exec(ex) => w'.tasks[i].core.job == Exec(ex.(retCode := 1))
  {
    hide TaskOk;
    hide PhaseOk;
  }

  /** Nothing else marks a task as ended by its timer. */
  lemma ExpiredBy(w: World, f: Firing, i: nat)
    requires Sound(w) && i < |w.tasks|
    ensures |Fire(w, f).tasks| == |w.tasks|
    ensures Fire(w, f).tasks[i].expired <==> w.tasks[i].expired || TimerExpires(w, f, i)
  {
    hide TaskOk;
    hide PhaseOk;
    hide Run;
    hide SessFire;
    hide DnsFire;
  }

  /** A pending event of a task can be what it waits for, and its timer exactly
      if the task was added with one. */
  lemma HolderCanFire(w: World, j: nat)
    requires Sound(w) && j < |w.entries| && w.entries[j].slot.TaskSlot?
    ensures var slot := w.entries[j].slot;
            && (CanFire(slot, EvType(true, false, false)) <==> w.tasks[slot.task].timed)
            && (CanFire(slot, EvType(false, true, false)) <==> slot.flag == EvRead)
            && (CanFire(slot, EvType(false, false, true)) <==> slot.flag == EvWrite)
  {
    hide TaskOk;
    hide PhaseOk;
  }
}
