/** pssh_task_t as the program keeps it, its step handlers and its event handler
    (src/task.c:83-121, 412-746, src/pssh_priv.h:139-172). */
module TaskObjects {
  import opened Base
  import opened Streams
  import opened Copying
  import opened Tasks
  import opened Sessions
  import opened Worlds
  import opened StreamBuffers
  import opened CopyBuffers
  import opened SessionObjects

  /** pssh_exec_task_t with its server. */
  class ExecTask {
    const err: Stream
    const out: Stream
    const exit: int
    var opens: seq<Attempt>
    var starts: seq<Attempt>
    var retCode: int

    ghost predicate Valid()
      reads this, err, out, err.data, out.data
    {
      err.Valid() && out.Valid() && err.Footprint() !! out.Footprint() && this as object !in err.Footprint() + out.Footprint()
    }

    ghost function View(): ExecV
      reads this, err, out, err.data, out.data
    {
      ExecV(opens, starts, err.View(), out.View(), exit, retCode)
    }

    ghost function Footprint(): set<object>
      reads this, err, out
    {
      {this} + err.Footprint() + out.Footprint()
    }

    constructor (opens: seq<Attempt>, starts: seq<Attempt>, err: seq<ReadItem>, out: seq<ReadItem>, exit: int)
      ensures Valid() && fresh(Footprint())
      ensures View() == ExecV(opens, starts, FreshStream(err), FreshStream(out), exit, 0)
    {
      this.err := new Stream(err);
      this.out := new Stream(out);
      this.opens, this.starts, this.exit, retCode := opens, starts, exit, 0;
    }

    /** libssh2_channel_open_session and the tests behind it. */
    method GetExecChannel() returns (stat: TaskStat, chan: Chan, ret: Ret)
      requires Valid()
      modifies this`opens
      ensures Valid()
      ensures forall before :: Step(Core(stat, chan, Exec(View())), ret)
                            == Tasks.GetExecChannel(Core(StatStart, before, Exec(old(View()))), old(View()))
    {
      if opens == [] {
        return StatChannelReady, OpenChan, Ok;
      }
      var first := opens[0];
      opens := opens[1..];
      if first.TryAgain? {
        return StatStart, NoChan, Again;
      }
      return StatError, NoChan, Ok;
    }

    /** pssh_task_do_cmd. */
    method DoCmd() returns (stat: TaskStat, ret: Ret)
      requires Valid()
      modifies this`starts
      ensures Valid()
      ensures forall chan :: Step(Core(stat, chan, Exec(View())), ret)
                          == Tasks.DoCmd(Core(StatChannelReady, chan, Exec(old(View()))), old(View()))
    {
      if starts == [] {
        return StatCmdRunning, Ok;
      }
      var first := starts[0];
      starts := starts[1..];
      if first.TryAgain? {
        return StatChannelReady, Again;
      }
      return StatError, Ok;
    }

    ghost function LoopView(stat: TaskStat): LoopV
      reads this, err, out, err.data, out.data
    {
      LoopV(stat, err.View(), out.View())
    }

    /** One stream's part of a turn. */
    method ReadOne(s: Stream) returns (ret: int, failed: bool)
      requires Valid() && (s == err || s == out)
      modifies s, s.data
      ensures Valid()
      ensures ReadV(s.View(), ret, failed) == ReadUnlessEof(old(s.View()))
      ensures s.data == old(s.data) || fresh(s.data)
      ensures s == err ==> out.View() == old(out.View())
      ensures s == out ==> err.View() == old(err.View())
    {
      ret, failed := 0, false;
      if !s.eof {
        ret, failed := s.ReadWrapped();
      }
    }

    /** One turn of the loop: stderr, then stdout. */
    method Turn(before: TaskStat) returns (stat: TaskStat, retErr: int, retOut: int)
      requires Valid()
      modifies err, err.data, out, out.data
      ensures Valid()
      ensures IterV(LoopView(stat), retErr, retOut) == Iterate(old(LoopView(before)))
      ensures (err.data == old(err.data) || fresh(err.data)) && (out.data == old(out.data) || fresh(out.data))
    {
      var failedErr, failedOut;
      retErr, failedErr := ReadOne(err);
      retOut, failedOut := ReadOne(out);
      stat := if failedErr || failedOut then StatError else before;
    }

    /** The `for (;;)` of the CMD_RUNNING branch, without the cleanup. */
    method ReadOutput(before: TaskStat) returns (stat: TaskStat, ret: Ret)
      requires Valid()
      modifies err, err.data, out, out.data
      ensures Valid()
      ensures DrainV(LoopView(stat), ret) == Drain(old(LoopView(before)))
      ensures ret == Ok || ret == Again
      ensures (err.data == old(err.data) || fresh(err.data)) && (out.data == old(out.data) || fresh(out.data))
    {
      stat := before;
      var retErr, retOut := 1, 1;
      while true
        invariant Valid()
        invariant Drain(LoopView(stat)) == Drain(old(LoopView(before)))
        invariant (err.data == old(err.data) || fresh(err.data)) && (out.data == old(out.data) || fresh(out.data))
        decreases LoopWeight(LoopView(stat))
      {
        IterateShrinks(LoopView(stat));
        stat, retErr, retOut := Turn(stat);
        if retOut == 0 && retErr == 0 {
          return StatStreamsReaded, Ok;
        }
        if retErr == EAGAIN && retOut == EAGAIN {
          return stat, Again;
        }
      }
    }

    /** The CMD_RUNNING branch. */
    method RunCommand(before: Chan) returns (stat: TaskStat, chan: Chan, ret: Ret)
      requires Valid()
      modifies this`retCode, err, err.data, out, out.data
      ensures Valid()
      ensures Step(Core(stat, chan, Exec(View())), ret)
           == Tasks.ReadOutput(Core(StatCmdRunning, before, Exec(old(View()))), old(View()))
      ensures fresh(Footprint() - old(Footprint()))
    {
      stat, ret := ReadOutput(StatCmdRunning);
      chan := before;
      if ret == Ok {
        stat, chan, ret := Cleanup();
      }
    }

    /** pssh_task_cleanup_exec. */
    method Cleanup() returns (stat: TaskStat, chan: Chan, ret: Ret)
      requires Valid()
      modifies this`retCode
      ensures Valid()
      ensures Step(Core(stat, chan, Exec(View())), ret) == CleanupExec(old(View()))
    {
      retCode := exit;
      return StatDone, FreedChan, Ok;
    }
  }

  lemma TimerFire(t: TaskV, e: Entry, k: nat, lastIo: Flag)
    ensures var p := TaskFire(t, e, k, EvType(true, false, false), lastIo);
            && p.t.core.stat == StatError && p.t.expired && p.e.slot == Idle && !p.e.evUp
            && (p.t.core.job.Exec? ==> p.t.core.job.ex.retCode == 1)
  {
  }

  class Task {
    /** Position in the task list; it stands for the address that the task's
        events carry as their argument. */
    const place: nat
    const hostname: string
    const entry: SessEntry?
    /** The union of the C structure: exactly one of the two is there. */
    const cp: CopyTask?
    const ex: ExecTask?
    const timeoutSec: int
    var isReported: bool
    var stat: TaskStat
    var chan: Chan
    ghost const born: Core
    ghost var acts: nat
    ghost var expired: bool
    /** What callers see of the task: its value and the memory it owns. */
    ghost var view: TaskV
    ghost var Repr: set<object>

    ghost predicate Valid()
      reads this, Repr
    {
      Objects() <= Repr && Footprint() <= Repr && Sound() && view == View()
    }

    ghost predicate Sound()
      reads Footprint()
    {
      && (cp == null <==> ex != null)
      && (cp != null ==> cp.Valid())
      && (ex != null ==> ex.Valid())
    }

    /** The structures of the task, apart from its host. */
    ghost function Objects(): set<object> {
      {this} + (if cp != null then {cp} else {}) + if ex != null then {ex, ex.err, ex.out} else {}
    }

    /** Its structures and buffers. */
    ghost function Footprint(): set<object>
      reads Objects()
    {
      Objects() + (if cp != null then cp.Footprint() else {}) + if ex != null then ex.Footprint() else {}
    }

    ghost function CoreView(): Core
      requires Sound()
      reads Footprint()
    {
      Core(stat, chan, if cp != null then Copy(cp.View()) else Exec(ex.View()))
    }

    ghost function View(): TaskV
      requires Sound()
      reads Footprint()
    {
      TaskV(CoreView(), isReported, if entry == null then None else Some(entry.place), timeoutSec > 0,
            born, acts, expired)
    }

    /** pssh_init_common_task for a copy task. */
    constructor Copying(place: nat, hostname: string, entry: SessEntry?, timeoutSec: int, cp: CopyTask)
      requires cp.Valid()
      ensures Valid() && this.place == place && this.entry == entry
      ensures Repr == {this} + cp.Footprint()
      ensures var core := Core(StatNone, NoChan, Copy(cp.View()));
              view == TaskV(core, false, if entry == null then None else Some(entry.place), timeoutSec > 0, core, 0, false)
    {
      this.place, this.hostname, this.entry, this.cp, this.ex := place, hostname, entry, cp, null;
      this.timeoutSec := if timeoutSec > 0 then timeoutSec else 0;
      isReported, stat, chan, acts, expired := false, StatNone, NoChan, 0, false;
      born := Core(StatNone, NoChan, Copy(cp.View()));
      new;
      view, Repr := View(), Footprint();
    }

    /** The same for an exec task. */
    constructor Executing(place: nat, hostname: string, entry: SessEntry?, timeoutSec: int, ex: ExecTask)
      requires ex.Valid()
      ensures Valid() && this.place == place && this.entry == entry
      ensures Repr == {this} + ex.Footprint()
      ensures var core := Core(StatNone, NoChan, Exec(ex.View()));
              view == TaskV(core, false, if entry == null then None else Some(entry.place), timeoutSec > 0, core, 0, false)
    {
      this.place, this.hostname, this.entry, this.cp, this.ex := place, hostname, entry, null, ex;
      this.timeoutSec := if timeoutSec > 0 then timeoutSec else 0;
      isReported, stat, chan, acts, expired := false, StatNone, NoChan, 0, false;
      born := Core(StatNone, NoChan, Exec(ex.View()));
      new;
      view, Repr := View(), Footprint();
    }

    /** The task is in a state in which its handlers may be called: they never
        meet NONE, nor a state of the other kind of task. */
    ghost predicate Ready()
      requires Sound()
      reads Footprint()
    {
      CoreOk(CoreView(), born) && stat != StatNone
    }

    /** pssh_task_event_update; event_add succeeds. */
    method EventUpdate(flag: Flag)
      requires entry != null && (!entry.evUp ==> entry.slot == Idle)
      modifies entry`slot, entry`evUp
      ensures entry.View() == TaskArm(old(entry.View()), place, flag, timeoutSec > 0)
      ensures entry.slot == (if old(entry.evUp) then old(entry.slot) else TaskSlot(place, flag, timeoutSec > 0)) && entry.evUp
    {
      if !entry.evUp {
        entry.slot := TaskSlot(place, flag, timeoutSec > 0);
        entry.evUp := true;
      }
    }

    /** pssh_task_eagain_handle. */
    method EagainHandle(lastIo: Flag)
      requires entry != null && (!entry.evUp ==> entry.slot == Idle)
      modifies entry`slot, entry`evUp
      ensures entry.View() == TaskArm(old(entry.View()), place, lastIo, timeoutSec > 0)
      ensures entry.slot == (if old(entry.evUp) then old(entry.slot) else TaskSlot(place, lastIo, timeoutSec > 0)) && entry.evUp
    {
      var flag := EvRead;
      if lastIo == EvWrite {
        flag := EvWrite;
      }
      EventUpdate(flag);
    }

    /** pssh_task_run_copy_task. */
    method RunCopyTask() returns (ret: Ret)
      requires Sound() && cp != null && Ready()
      modifies this`stat, this`chan, cp, cp.data
      ensures Sound() && Step(CoreView(), ret) == Run(old(CoreView()))
      ensures cp.data == null || cp.data == old(cp.data) || fresh(cp.data)
    {
      ret := Ok;
      match stat
      case StatStart =>
        stat, chan, ret := cp.GetScpChannel(chan);
      case StatChannelReady =>
        if cp.dir.ToServ? {
          stat, ret := cp.SendData();
        } else {
          stat, ret := cp.RecvData();
        }
      case StatDataTransfer =>
        stat, chan, ret := cp.Cleanup();
      case StatError =>
      case StatDone =>
      case _ =>
        assert false; // abort()
    }

    /** pssh_task_run_exec_task. */
    method RunExecTask() returns (ret: Ret)
      requires Sound() && ex != null
      modifies this`stat, this`chan, ex, ex.err, ex.err.data, ex.out, ex.out.data
      ensures Sound() && Step(CoreView(), ret) == Run(old(CoreView()))
      ensures fresh(Footprint() - old(Footprint()))
    {
      hide Tasks.GetExecChannel;
      hide Tasks.DoCmd;
      hide Tasks.ReadOutput;
      hide CleanupExec;
      ret := Ok;
      match stat
      case StatStart =>
        stat, chan, ret := ex.GetExecChannel();
      case StatChannelReady =>
        stat, ret := ex.DoCmd();
      case StatCmdRunning =>
        stat, chan, ret := ex.RunCommand(chan);
      case StatStreamsReaded =>
        stat, chan, ret := ex.Cleanup();
      case StatError =>
      case StatDone =>
      case _ =>
        ret := Abort;
    }

    /** The switch on the task type. */
    method Advance() returns (ret: Ret)
      requires Sound() && Ready()
      modifies Footprint()
      ensures Sound() && fresh(Footprint() - old(Footprint()))
      ensures var t := old(View());
              var r := Run(t.core);
              View() == t.(core := r.core, acts := t.acts + 1) && ret == r.ret
      ensures ret != Abort
      ensures entry != null ==> unchanged(entry)
    {
      hide Run;
      hide CoreOk;
      Tasks.RunKeeps(CoreView(), born);
      if cp != null {
        ret := RunCopyTask();
      } else {
        ret := RunExecTask();
      }
      acts := acts + 1;
    }

    /** What pssh_task_fsm does with a return code. */
    method Rearm(ret: Ret, lastIo: Flag)
      requires Sound() && entry != null && !entry.evUp && entry.slot == Idle
      requires ret != Abort
      modifies entry`slot, entry`evUp
      ensures Sound() && View() == old(View())
      ensures entry.View() == match ret
                              case Again => TaskArm(old(entry.View()), place, if stat == StatCmdRunning then EvRead else lastIo, timeoutSec > 0)
                              case Ok => if stat == StatDone || stat == StatError then old(entry.View())
                                         else TaskArm(old(entry.View()), place, EvWrite, timeoutSec > 0)
                              case _ => old(entry.View())
      ensures entry.slot == match ret
                            case Again => TaskSlot(place, if stat == StatCmdRunning then EvRead else lastIo, timeoutSec > 0)
                            case Ok => if stat == StatDone || stat == StatError then Idle else TaskSlot(place, EvWrite, timeoutSec > 0)
                            case _ => Idle
    {
      match ret
      case Again =>
        if stat == StatCmdRunning {
          EventUpdate(EvRead);
        } else {
          EagainHandle(lastIo);
        }
      case Ok =>
        if stat != StatDone && stat != StatError {
          EventUpdate(EvWrite);
        }
      case Hang => // not reached: the call has not returned
      case _ =>
        assert false; // an unexpected return code
    }

    /** pssh_task_fsm. */
    method Fsm(lastIo: Flag)
      requires Sound() && Ready() && entry != null && !entry.evUp && entry.slot == Idle
      modifies Footprint(), entry`slot, entry`evUp
      ensures Sound() && fresh(Footprint() - old(Footprint()))
      ensures Pair(View(), entry.View()) == TaskFsm(old(View()), old(entry.View()), place, lastIo)
    {
      hide Run;
      hide CoreOk;
      var ret := Advance();
      Rearm(ret, lastIo);
    }

    /** The timer branch of pssh_task_event_handler. */
    method TimerExpired()
      requires Sound()
      modifies Footprint()
      ensures Sound() && Footprint() == old(Footprint())
      ensures View() == old(View()).(core := Expire(old(View()).core), expired := true)
      ensures stat == StatError && expired && (ex != null ==> ex.retCode == 1)
      ensures entry != null ==> unchanged(entry)
    {
      stat := StatError;
      if ex != null {
        ex.retCode := 1;
      }
      expired := true;
    }

    /** Its first lines. */
    method Take(ev: EvType)
      requires Sound() && Ready() && entry != null
      modifies entry`evType, entry`evUp, entry`trace
      ensures Sound() && Ready() && View() == old(View()) && Footprint() == old(Footprint())
      ensures var e := old(entry.View());
              entry.View() == e.(evType := ev, evUp := false,
                                 trace := if ev.OnlyTimeout() then e.trace else e.trace + [place])
    {
      hide CoreOk;
      entry.Taken(ev, if ev.OnlyTimeout() then [] else [place]);
    }

    /** The two branches of pssh_task_event_handler. */
    method Handle(ev: EvType, lastIo: Flag)
      requires Sound() && Ready() && entry != null && entry.slot == Idle
      modifies Footprint(), entry
      ensures Sound() && fresh(Footprint() - old(Footprint()))
      ensures Pair(View(), entry.View()) == TaskFire(old(View()), old(entry.View()), place, ev, lastIo)
    {
      hide Run;
      hide CoreOk;
      hide TaskFsm;
      hide Expire;
      hide Sound;
      Take(ev);
      if ev.OnlyTimeout() {
        TimerExpired();
      } else {
        Fsm(lastIo);
      }
    }

    /** pssh_task_event_handler. libevent has already taken the event off its
        list. */
    method EventHandler(ev: EvType, lastIo: Flag)
      requires Valid() && CoreOk(view.core, view.born) && view.core.stat != StatNone
      requires entry != null && entry.slot == Idle && entry !in Repr
      modifies Repr, entry
      ensures Valid() && this in Repr && fresh(Repr - old(Repr))
      ensures Pair(view, entry.View()) == TaskFire(old(view), old(entry.View()), place, ev, lastIo)
      ensures ev == EvType(true, false, false) ==>
                && view.core.stat == StatError && view.expired && entry.slot == Idle && !entry.evUp
                && (view.core.job.Exec? ==> view.core.job.ex.retCode == 1)
    {
      TimerFire(view, entry.View(), place, lastIo);
      hide TaskFire;
      hide CoreOk;
      ghost var before := Repr;
      Handle(ev, lastIo);
      Seal(before);
    }

    lemma Linked()
      requires Valid()
      ensures view.sess == (if entry == null then None else Some(entry.place)) && view.timed == (timeoutSec > 0)
      ensures view.core.stat == stat && view.isReported == isReported
    {
    }

    /** Brings the ghost fields up to date. */
    ghost method Seal(before: set<object>)
      requires Sound()
      modifies this`view, this`Repr
      ensures Valid() && Footprint() == old(Footprint()) && view == old(View()) && Repr == before + Footprint()
    {
      view := View();
      Repr := before + Footprint();
    }

    /** What the scan of pssh_exec does to an unstarted task. */
    method Start()
      requires Valid() && entry != null && entry !in Repr && (!entry.evUp ==> entry.slot == Idle)
      modifies this`stat, this`view, entry`slot, entry`evUp
      ensures Valid()
      ensures view == old(view).(core := old(view).core.(stat := StatStart))
      ensures entry.View() == TaskArm(old(entry.View()), place, EvWrite, view.timed)
    {
      EventUpdate(EvWrite);
      SetStart();
    }

    method SetStart()
      requires Valid()
      modifies this`stat, this`view
      ensures Valid() && view == old(view).(core := old(view).core.(stat := StatStart))
    {
      hide CopyTask.Valid;
      hide ExecTask.Valid;
      hide CopyTask.View;
      hide ExecTask.View;
      stat := StatStart;
      view := View();
    }

    /** `is_reported = 1`. */
    method MarkReported()
      requires Valid()
      modifies this`isReported, this`view
      ensures Valid() && view == old(view).(isReported := true)
    {
      hide CopyTask.Valid;
      hide ExecTask.Valid;
      hide CopyTask.View;
      hide ExecTask.View;
      isReported := true;
      view := View();
    }
  }
}
