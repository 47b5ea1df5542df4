/** The task machines: one activation of a copy or an exec task, what it keeps,
    and when repeated activations come to an end (src/task.c:412-712). */
module Tasks {
  import opened Base
  import opened Streams
  import opened Copying

  /** A pssh_exec_task_t with its server: the answers to opening a session
      channel and to starting the command, and the exit status. */
  datatype ExecV = ExecV(
    opens: seq<Attempt>, starts: seq<Attempt>, err: StreamV, out: StreamV, exit: int, retCode: int)

  datatype Job = Copy(cp: CopyV) | Exec(ex: ExecV)

  /** The part of a pssh_task_t that its step handlers work on. */
  datatype Core = Core(stat: TaskStat, chan: Chan, job: Job)

  datatype Step = Step(core: Core, ret: Ret)

  predicate Terminal(c: Core) {
    c.stat == StatDone || c.stat == StatError
  }

  /** pssh_task_get_exec_channel. */
  function GetExecChannel(c: Core, ex: ExecV): Step {
    if ex.opens == [] then Step(Core(StatChannelReady, OpenChan, Exec(ex)), Ok)
    else
      var ex' := ex.(opens := ex.opens[1..]);
      if ex.opens[0].TryAgain? then Step(Core(c.stat, NoChan, Exec(ex')), Again)
      else Step(Core(StatError, NoChan, Exec(ex')), Ok)
  }

  /** pssh_task_do_cmd. */
  function DoCmd(c: Core, ex: ExecV): Step {
    if ex.starts == [] then Step(c.(stat := StatCmdRunning), Ok)
    else
      var ex' := ex.(starts := ex.starts[1..]);
      if ex.starts[0].TryAgain? then Step(c.(job := Exec(ex')), Again)
      else Step(c.(stat := StatError, job := Exec(ex')), Ok)
  }

  /** pssh_task_cleanup_exec. */
  function CleanupExec(ex: ExecV): Step {
    Step(Core(StatDone, FreedChan, Exec(ex.(retCode := ex.exit))), Ok)
  }

  /** The CMD_RUNNING branch. */
  function ReadOutput(c: Core, ex: ExecV): Step {
    var d := Drain(LoopV(c.stat, ex.err, ex.out));
    var ex' := ex.(err := d.l.err, out := d.l.out);
    if d.ret == Ok then CleanupExec(ex')
    else Step(Core(d.l.stat, c.chan, Exec(ex')), Again)
  }

  /** pssh_task_run_exec_task. */
  function RunExec(c: Core, ex: ExecV): Step {
    match c.stat
    case StatStart => GetExecChannel(c, ex)
    case StatChannelReady => DoCmd(c, ex)
    case StatCmdRunning => ReadOutput(c, ex)
    case StatStreamsReaded => CleanupExec(ex)
    case StatError => Step(c, Ok)
    case StatDone => Step(c, Ok)
    case _ => Step(c, Abort)
  }

  /** The switch on the task type in pssh_task_fsm. */
  function Run(c: Core): Step {
    match c.job
    case Copy(cp) =>
      var r := RunCopy(c.stat, c.chan, cp);
      Step(Core(r.stat, r.chan, Copy(r.cp)), r.ret)
    case Exec(ex) => RunExec(c, ex)
  }

  /** What a timer expiry does to a task. */
  function Expire(c: Core): Core {
    match c.job
    case Copy(_) => c.(stat := StatError)
    case Exec(ex) => Core(StatError, c.chan, Exec(ex.(retCode := 1)))
  }

  /** A task just added to a list. */
  predicate NewCore(c: Core) {
    && c.stat == StatNone && c.chan == NoChan
    && match c.job
       case Copy(cp) => NewCopy(cp)
       case Exec(ex) => ex.err == FreshStream(ex.err.script) && ex.out == FreshStream(ex.out.script)
  }

  /** A stream and the script it started with: no byte lost, and none withheld
      by a failure if every byte comes before the first hard failure. */
  predicate StreamFrom(s: StreamV, script: seq<ReadItem>) {
    && StreamOk(s)
    && s.buf + Bytes(s.script) == Bytes(script)
    && (Safe(script) ==> Safe(s.script))
  }

  predicate StreamRead(s: StreamV, script: seq<ReadItem>) {
    StreamFrom(s, script) && (Safe(script) ==> s.buf == Bytes(script))
  }

  predicate ExecOk(stat: TaskStat, chan: Chan, ex: ExecV, born: ExecV) {
    && ex.exit == born.exit
    && match stat
       case StatNone => chan == NoChan && ex.err == FreshStream(born.err.script) && ex.out == FreshStream(born.out.script)
       case StatStart => chan == NoChan && ex.err == FreshStream(born.err.script) && ex.out == FreshStream(born.out.script)
       case StatChannelReady => chan == OpenChan && ex.err == FreshStream(born.err.script) && ex.out == FreshStream(born.out.script)
       case StatCmdRunning =>
         && chan == OpenChan
         && StreamFrom(ex.err, born.err.script) && !ex.err.eof
         && StreamFrom(ex.out, born.out.script) && !ex.out.eof
       case StatDone =>
         && chan == FreedChan && ex.retCode == ex.exit
         && StreamRead(ex.err, born.err.script) && StreamRead(ex.out, born.out.script)
       case StatError => StreamFrom(ex.err, born.err.script) && StreamFrom(ex.out, born.out.script)
       case _ => false
  }

  /** The invariant of a task, relative to the task that was added. */
  predicate CoreOk(c: Core, born: Core) {
    match (c.job, born.job)
    case (Copy(cp), Copy(b)) => CopyOk(c.stat, c.chan, cp, b)
    case (Exec(ex), Exec(b)) => ExecOk(c.stat, c.chan, ex, b)
    case _ => false
  }

  /** The task once pssh_exec has put it into START. */
  function Begin(born: Core): Core {
    born.(stat := StatStart)
  }

  lemma NewCoreOk(c: Core)
    requires NewCore(c)
    ensures CoreOk(c, c) && CoreOk(Begin(c), c)
  {
  }

  lemma FreshFrom(script: seq<ReadItem>)
    ensures StreamFrom(FreshStream(script), script)
  {
    assert [] + Bytes(script) == Bytes(script);
  }

  lemma DrainFrom(l: LoopV, err: seq<ReadItem>, out: seq<ReadItem>)
    requires StreamFrom(l.err, err) && StreamFrom(l.out, out)
    ensures var d := Drain(l);
            && StreamFrom(d.l.err, err) && StreamFrom(d.l.out, out)
            && (d.ret == Ok ==> StreamRead(d.l.err, err) && StreamRead(d.l.out, out))
  {
    var d := Drain(l);
    DrainKeeps(l);
    SafeDrain(l);
    if d.ret == Ok {
      assert d.l.err.buf + [] == d.l.err.buf && d.l.out.buf + [] == d.l.out.buf;
    }
  }

  /** An activation of an exec task keeps its invariant; in particular a task
      that goes on waiting has reached the end of neither stream. */
  lemma RunExecKeeps(c: Core, ex: ExecV, born: ExecV)
    requires c.job == Exec(ex) && ExecOk(c.stat, c.chan, ex, born) && c.stat != StatNone
    ensures var r := RunExec(c, ex);
            && r.core.job.Exec? && ExecOk(r.core.stat, r.core.chan, r.core.job.ex, born)
            && (r.ret == Ok || r.ret == Again) && r.core.stat != StatNone
  {
    FreshFrom(born.err.script);
    FreshFrom(born.out.script);
    if c.stat == StatCmdRunning {
      var l := LoopV(c.stat, ex.err, ex.out);
      DrainKeeps(l);
      DrainFrom(l, born.err.script, born.out.script);
    }
  }

  /** The activation loads a truncated file and never returns. */
  predicate NeverReturns(c: Core) {
    c.stat == StatStart && c.job.Copy? && Spins(c.job.cp)
  }

  /** Closure of the task machines: from any state but NONE an activation keeps
      the invariant, so abort() and the cleanup assertion are not reachable, and
      returns 0 or EAGAIN, so the branch for unexpected codes is dead, unless it
      never returns. */
  lemma RunKeeps(c: Core, born: Core)
    requires CoreOk(c, born) && c.stat != StatNone
    ensures var r := Run(c);
            && CoreOk(r.core, born) && r.core.stat != StatNone
            && (if NeverReturns(c) then r == Step(c, Hang) else r.ret == Ok || r.ret == Again)
  {
    match c.job
    case Copy(cp) => RunCopyKeeps(c.stat, c.chan, cp, born.job.cp);
    case Exec(ex) => RunExecKeeps(c, ex, born.job.ex);
  }

  /** A task that is told to wait is not done. */
  lemma AgainNotDone(c: Core, born: Core)
    requires CoreOk(c, born) && c.stat != StatNone && Run(c).ret == Again
    ensures Run(c).core.stat != StatDone
  {
    if c.job.Exec? && c.stat == StatCmdRunning {
      DrainKeeps(LoopV(c.stat, c.job.ex.err, c.job.ex.out));
    }
  }

  /** A timer expiry in any state but DONE keeps the invariant too. */
  lemma ExpireKeeps(c: Core, born: Core)
    requires CoreOk(c, born) && c.stat != StatDone
    ensures CoreOk(Expire(c), born)
  {
    match c.job
    case Copy(cp) =>
      if cp.dir.FromServ? && c.stat == StatDataTransfer {
        assert cp.saved.value <= Bytes(born.job.cp.incoming)[..cp.announced];
      }
    case Exec(ex) =>
      FreshFrom(born.job.ex.err.script);
      FreshFrom(born.job.ex.out.script);
  }

  /** The states of the two machines do not mix. */
  lemma StateSubsets(c: Core, born: Core)
    requires CoreOk(c, born)
    ensures c.stat != StatStreamsReaded
    ensures c.job.Copy? ==> c.stat != StatCmdRunning
    ensures c.job.Exec? ==> c.stat != StatDataTransfer
  {
  }

  /** What a DONE task delivers, by kind of task. */
  lemma DoneDelivers(c: Core, born: Core)
    requires CoreOk(c, born) && c.stat == StatDone
    ensures c.job.Copy? && c.job.cp.dir.ToServ? ==>
              && born.job.cp.files != [] && c.job.cp.files == born.job.cp.files[1..]
              && var file := born.job.cp.files[0];
                 file.size <= |Readable(file.answers)| && c.job.cp.sent == Readable(file.answers)[..file.size]
    ensures c.job.Copy? && c.job.cp.dir.FromServ? ==>
              var total := Bytes(born.job.cp.incoming);
              born.job.cp.announced <= |total| && c.job.cp.saved == Some(total[..born.job.cp.announced])
    ensures c.job.Exec? ==>
              && c.job.ex.retCode == born.job.ex.exit
              && (Bytes(AfterFailure(born.job.ex.out.script)) == [] ==> c.job.ex.out.buf == Bytes(born.job.ex.out.script))
              && (Bytes(AfterFailure(born.job.ex.err.script)) == [] ==> c.job.ex.err.buf == Bytes(born.job.ex.err.script))
  {
  }

  // ---------------------------------------------------------------------------
  // Running a task alone

  /** The task after `n` activations. */
  function Nth(c: Core, n: nat): Core {
    if n == 0 then c else Run(Nth(c, n - 1)).core
  }

  lemma TerminalStays(c: Core)
    requires Terminal(c)
    ensures Run(c) == Step(c, Ok)
  {
  }

  lemma {:induction false} NthAfterTerminal(c: Core, m: nat, n: nat)
    requires m <= n && Terminal(Nth(c, m))
    ensures Nth(c, n) == Nth(c, m)
    decreases n
  {
    if m < n {
      NthAfterTerminal(c, m, n - 1);
      TerminalStays(Nth(c, m));
    }
  }

  /** A task has at most one result. */
  lemma OneResult(c: Core, m: nat, n: nat)
    requires Terminal(Nth(c, m)) && Terminal(Nth(c, n))
    ensures Nth(c, m) == Nth(c, n)
  {
    if m <= n {
      NthAfterTerminal(c, m, n);
    } else {
      NthAfterTerminal(c, n, m);
    }
  }

  lemma {:induction false} NthOk(c: Core, born: Core, n: nat)
    requires CoreOk(c, born) && c.stat != StatNone
    ensures CoreOk(Nth(c, n), born) && Nth(c, n).stat != StatNone
  {
    if n > 0 {
      NthOk(c, born, n - 1);
      RunKeeps(Nth(c, n - 1), born);
    }
  }

  lemma {:induction false} NthShift(c: Core, n: nat)
    ensures Nth(Run(c).core, n) == Nth(c, n + 1)
  {
    if n > 0 {
      NthShift(c, n - 1);
    }
  }

  // ---------------------------------------------------------------------------
  // Termination

  /** Whether a server that will answer with `script` delivers `need` bytes, or
      fails, before its last answer. */
  predicate Supplies(script: seq<ReadItem>, need: nat)
    decreases |script|
  {
    need == 0 ||
    (script != [] &&
     match script[0]
     case Data(bytes) => |bytes| >= need || Supplies(script[1..], need - |bytes|)
     case Neg(code, _) => code != EAGAIN || Supplies(script[1..], need))
  }

  predicate SomeRefused(opens: seq<Attempt>) {
    exists i :: 0 <= i < |opens| && opens[i].Refused?
  }

  /** A download whose server ends early without an error can be activated for
      ever, and an upload that loads a truncated file never returns; every other
      task comes to an end. */
  predicate Live(c: Core) {
    && (c.job.Copy? && (c.stat == StatNone || c.stat == StatStart) ==> !Spins(c.job.cp))
    && (c.job.Copy? && c.job.cp.dir.FromServ? ==>
      match c.stat
      case StatNone => SomeRefused(c.job.cp.opens) || Supplies(c.job.cp.incoming, c.job.cp.announced)
      case StatStart => SomeRefused(c.job.cp.opens) || Supplies(c.job.cp.incoming, c.job.cp.announced)
      case StatChannelReady => c.job.cp.tcnt <= c.job.cp.stSize && Supplies(c.job.cp.incoming, c.job.cp.stSize - c.job.cp.tcnt)
      case _ => true)
  }

  /** The size of what is still to be sent. */
  function UploadSize(cp: CopyV): nat {
    if cp.data.Some? then cp.stSize else if cp.files != [] then cp.files[0].size else 0
  }

  function ReadWeight(ex: ExecV): nat {
    Weight(ex.err.script) + Weight(ex.out.script)
  }

  /** A bound on the number of activations left. */
  function Measure(c: Core): nat {
    match c.job
    case Copy(cp) =>
      (match c.stat
       case StatError => 0
       case StatDone => 0
       case StatDataTransfer => 2
       case StatChannelReady =>
         if cp.dir.ToServ? then 3 + |cp.writes| + (if cp.tcnt <= cp.stSize then cp.stSize - cp.tcnt else 0)
         else 3 + Weight(cp.incoming)
       case _ =>
         if cp.dir.ToServ? then 4 + |cp.opens| + |cp.writes| + UploadSize(cp)
         else 4 + |cp.opens| + Weight(cp.incoming))
    case Exec(ex) =>
      (match c.stat
       case StatError => 0
       case StatDone => 0
       case StatStreamsReaded => 2
       case StatCmdRunning => 3 + ReadWeight(ex)
       case StatChannelReady => 4 + |ex.starts| + ReadWeight(ex)
       case _ => 5 + |ex.opens| + |ex.starts| + ReadWeight(ex))
  }

  lemma MeasureTerminal(c: Core)
    ensures Terminal(c) ==> Measure(c) == 0
    ensures !Terminal(c) ==> Measure(c) >= 2
  {
  }

  /** A read takes from the supply what it delivers. */
  lemma SuppliesAfterServe(script: seq<ReadItem>, need: nat)
    ensures var r := Serve(script, need);
            && Supplies(r.rest, 0)
            && (r.ret >= 0 ==> |r.got| == r.ret <= need)
            && (r.ret < 0 ==> r.got == [])
            && (if r.ret < 0 && r.ret != EAGAIN then Supplies(script, need)
                else Supplies(script, need) <==> Supplies(r.rest, need - |r.got|))
            && (need > 0 && Supplies(script, need) ==> r.ret != 0)
  {
    if script != [] && script[0].Data? {
      var n := Min(|script[0].bytes|, need);
      var rest := Serve(script, need).rest;
      assert rest == script[1..] || (n == need && Supplies(rest, 0));
    }
  }

  lemma UploadShrinks(c: Core, born: Core)
    requires CoreOk(c, born) && c.job.Copy? && c.job.cp.dir.ToServ? && c.stat != StatNone && !Terminal(c)
    ensures Live(Run(c).core) <==> Live(c)
    ensures Live(c) ==> Measure(Run(c).core) < Measure(c)
  {
    hide Snapshot;
    if c.stat == StatStart {
      SnapshotKeeps(c.job.cp, born.job.cp);
    }
  }

  lemma RecvLive(chan: Chan, cp: CopyV)
    requires cp.dir.FromServ? && cp.tcnt <= cp.stSize
    ensures var r := RecvInto(chan, cp);
            Live(Core(r.stat, r.chan, Copy(r.cp))) <==> Supplies(cp.incoming, cp.stSize - cp.tcnt)
  {
    hide Serve;
    hide Supplies;
    SuppliesAfterServe(cp.incoming, cp.stSize - cp.tcnt);
  }

  lemma RecvShrinks(chan: Chan, cp: CopyV)
    requires cp.dir.FromServ? && cp.tcnt <= cp.stSize && Supplies(cp.incoming, cp.stSize - cp.tcnt)
    ensures var r := RecvInto(chan, cp);
            Measure(Core(r.stat, r.chan, Copy(r.cp))) < 3 + Weight(cp.incoming)
  {
    hide Serve;
    hide Supplies;
    SuppliesAfterServe(cp.incoming, cp.stSize - cp.tcnt);
    ServeConserves(cp.incoming, cp.stSize - cp.tcnt);
  }

  lemma DownloadStarts(c: Core)
    requires c.job.Copy? && c.job.cp.dir.FromServ? && c.stat == StatStart && c.job.cp.tcnt == 0
    ensures Live(Run(c).core) <==> Live(c)
    ensures Live(c) ==> Measure(Run(c).core) < Measure(c)
  {
    hide Supplies;
    hide Weight;
    hide TakeSnapshot;
    hide RunExec;
    var cp := c.job.cp;
    if cp.opens != [] && cp.opens[0].TryAgain? {
      RefusedLater(cp.opens);
    }
  }

  lemma DownloadGoesOn(c: Core, born: Core)
    requires CoreOk(c, born) && c.job.Copy? && c.job.cp.dir.FromServ? && c.stat == StatChannelReady
    ensures Live(Run(c).core) <==> Live(c)
    ensures Live(c) ==> Measure(Run(c).core) < Measure(c)
  {
    hide RecvInto;
    hide Supplies;
    hide Weight;
    hide Bytes;
    hide Spins;
    hide SendData;
    hide GetScpChannel;
    hide RunExec;
    var cp := c.job.cp;
    RecvLive(c.chan, WithBuffer(cp));
    if Live(c) {
      RecvShrinks(c.chan, WithBuffer(cp));
    }
  }

  lemma DownloadShrinks(c: Core, born: Core)
    requires CoreOk(c, born) && c.job.Copy? && c.job.cp.dir.FromServ? && c.stat != StatNone && !Terminal(c)
    ensures Live(Run(c).core) <==> Live(c)
    ensures Live(c) ==> Measure(Run(c).core) < Measure(c)
  {
    if c.stat == StatStart {
      DownloadStarts(c);
    } else if c.stat == StatChannelReady {
      DownloadGoesOn(c, born);
    }
  }

  lemma RefusedLater(opens: seq<Attempt>)
    requires opens != [] && opens[0].TryAgain?
    ensures SomeRefused(opens) <==> SomeRefused(opens[1..])
  {
    if SomeRefused(opens) {
      var i :| 0 <= i < |opens| && opens[i].Refused?;
      assert opens[1..][i - 1].Refused?;
    }
  }

  lemma ExecShrinks(c: Core, born: Core)
    requires CoreOk(c, born) && c.job.Exec? && c.stat != StatNone && !Terminal(c)
    ensures Measure(Run(c).core) < Measure(c)
  {
    var ex := c.job.ex;
    if c.stat == StatCmdRunning {
      DrainKeeps(LoopV(c.stat, ex.err, ex.out));
    }
  }

  /** Every activation of an unfinished task that can finish brings it nearer
      to its end, and it can still finish afterwards. */
  lemma RunShrinks(c: Core, born: Core)
    requires CoreOk(c, born) && c.stat != StatNone && !Terminal(c)
    ensures Live(Run(c).core) <==> Live(c)
    ensures Live(c) ==> Measure(Run(c).core) < Measure(c)
  {
    match c.job
    case Copy(cp) =>
      if cp.dir.ToServ? {
        UploadShrinks(c, born);
      } else {
        DownloadShrinks(c, born);
      }
    case Exec(_) => ExecShrinks(c, born);
  }

  predicate Starved(c: Core, born: Core) {
    CoreOk(c, born) && c.stat != StatNone && !Live(c)
  }

  lemma StaysStarved(c: Core, born: Core)
    requires Starved(c, born)
    ensures Starved(Run(c).core, born) && !Terminal(c)
  {
    RunKeeps(c, born);
    RunShrinks(c, born);
  }

  lemma {:induction false} StarvedForEver(c: Core, born: Core, n: nat)
    requires Starved(c, born)
    ensures Starved(Nth(c, n), born) && !Terminal(Nth(c, n))
  {
    if n > 0 {
      StarvedForEver(c, born, n - 1);
      StaysStarved(Nth(c, n - 1), born);
    }
    StaysStarved(Nth(c, n), born);
  }

  lemma {:induction false} EndsAfter(c: Core, born: Core) returns (n: nat)
    requires CoreOk(c, born) && c.stat != StatNone && Live(c)
    ensures Terminal(Nth(c, n)) && n <= Measure(c)
    decreases Measure(c)
  {
    hide Run;
    hide CoreOk;
    hide Live;
    hide Measure;
    MeasureTerminal(c);
    if Terminal(c) {
      n := 0;
    } else {
      RunShrinks(c, born);
      RunKeeps(c, born);
      var m := EndsAfter(Run(c).core, born);
      NthShift(c, m);
      n := m + 1;
    }
  }

  /** Whether a task as added can come to an end. */
  predicate CanEnd(born: Core) {
    born.job.Copy? ==>
      if born.job.cp.dir.ToServ? then !Spins(born.job.cp)
      else SomeRefused(born.job.cp.opens) || Supplies(born.job.cp.incoming, born.job.cp.announced)
  }

  /** `n` activations bring the task to DONE or ERROR. */
  predicate EndsAt(c: Core, n: nat) {
    Terminal(Nth(c, n))
  }

  /** Exactly which tasks come to an end when activated again and again: all but
      the downloads whose server stops short of the announced size without an
      error and the uploads that meet a truncated file. */
  lemma EndsExactlyWhenLive(born: Core)
    requires NewCore(born)
    ensures (exists n :: EndsAt(Begin(born), n)) <==> CanEnd(born)
  {
    var c := Begin(born);
    NewCoreOk(born);
    assert Live(c) <==> CanEnd(born);
    if Live(c) {
      var n := EndsAfter(c, born);
      assert EndsAt(c, n);
    } else {
      forall n ensures !EndsAt(c, n) {
        StarvedForEver(c, born, n);
      }
    }
  }

  /** Such a download: one byte is announced and none comes. */
  lemma StarvingDownload(born: Core)
    requires NewCore(born) && born.job.Copy? && born.job.cp.dir.FromServ?
    requires born.job.cp.opens == [] && born.job.cp.announced == 1 && born.job.cp.incoming == []
    ensures forall n :: !EndsAt(Begin(born), n)
  {
    EndsExactlyWhenLive(born);
  }
}
