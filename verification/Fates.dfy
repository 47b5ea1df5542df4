/** Which tasks end in DONE: the answers of the outside world decide, and nothing
    else. */
module Fates {
  import opened Base
  import opened Streams
  import opened Copying
  import opened Tasks

  /** Writing `need` more bytes meets no failure. */
  predicate WritesFinish(writes: seq<WriteItem>, need: nat)
    decreases |writes|
  {
    writes == [] ||
    match writes[0]
    case NotWritten(again) => again && WritesFinish(writes[1..], need)
    case Accept(n) =>
      var m := Min(n, Min(need, CHUNK));
      m == need || WritesFinish(writes[1..], need - m)
  }

  /** The server delivers `need` bytes before it ends or fails. */
  predicate Delivers(script: seq<ReadItem>, need: nat)
    decreases |script|
  {
    if script == [] then need == 0
    else match script[0]
      case Neg(code, _) => code == EAGAIN && Delivers(script[1..], need)
      case Data(bytes) => |bytes| >= need || Delivers(script[1..], need - |bytes|)
  }

  /** Nothing fails before as many bytes are read as stat announced. */
  predicate CanBeRead(file: LocalFile) {
    file.statOk && file.openOk && file.size <= |Readable(file.answers)|
  }

  predicate UploadSucceeds(stat: TaskStat, cp: CopyV) {
    match stat
    case StatStart =>
      && (cp.data.Some? || (cp.files != [] && CanBeRead(cp.files[0])))
      && !SomeRefused(cp.opens) && WritesFinish(cp.writes, UploadSize(cp))
    case StatChannelReady => cp.tcnt <= cp.stSize && WritesFinish(cp.writes, cp.stSize - cp.tcnt)
    case _ => stat == StatDataTransfer || stat == StatDone
  }

  predicate DownloadSucceeds(stat: TaskStat, cp: CopyV) {
    match stat
    case StatStart => !SomeRefused(cp.opens) && Delivers(cp.incoming, cp.announced) && cp.save == Writes(cp.announced, true)
    case StatChannelReady =>
      cp.tcnt <= cp.stSize && Delivers(cp.incoming, cp.stSize - cp.tcnt) && cp.save == Writes(cp.stSize, true)
    case _ => stat == StatDataTransfer || stat == StatDone
  }

  ghost predicate ExecSucceeds(stat: TaskStat, ex: ExecV) {
    match stat
    case StatStart =>
      !SomeRefused(ex.opens) && !SomeRefused(ex.starts) && GetsThrough(LoopV(StatCmdRunning, ex.err, ex.out))
    case StatChannelReady => !SomeRefused(ex.starts) && GetsThrough(LoopV(StatCmdRunning, ex.err, ex.out))
    case StatCmdRunning => GetsThrough(LoopV(StatCmdRunning, ex.err, ex.out))
    case _ => stat == StatDone
  }

  /** The world's remaining answers let the task succeed. */
  ghost predicate Succeeds(c: Core) {
    match c.job
    case Copy(cp) => if cp.dir.ToServ? then UploadSucceeds(c.stat, cp) else DownloadSucceeds(c.stat, cp)
    case Exec(ex) => ExecSucceeds(c.stat, ex)
  }

  lemma FirstRefused(opens: seq<Attempt>)
    ensures opens == [] ==> !SomeRefused(opens)
    ensures opens != [] ==> (SomeRefused(opens) <==> opens[0].Refused? || SomeRefused(opens[1..]))
  {
    if opens != [] && opens[0].TryAgain? {
      RefusedLater(opens);
    }
  }

  lemma SendFate(chan: Chan, cp: CopyV, born: CopyV)
    requires UploadOk(StatChannelReady, cp, born)
    ensures var r := SendData(chan, cp);
            UploadSucceeds(r.stat, r.cp) <==> UploadSucceeds(StatChannelReady, cp)
  {
    hide Snapshot;
    hide CanBeRead;
  }

  lemma UploadStartFate(chan: Chan, cp: CopyV, born: CopyV)
    requires UploadOk(StatStart, cp, born) && cp.dir.ToServ?
    ensures var r := GetScpChannel(chan, cp);
            UploadSucceeds(r.stat, r.cp) <==> UploadSucceeds(StatStart, cp)
  {
    hide WritesFinish;
    hide SomeRefused;
    hide Load;
    FirstRefused(cp.opens);
    if cp.data.None? && cp.files != [] {
      LoadOutcome(cp.files[0].answers, cp.files[0].size);
    }
  }

  lemma UploadFate(chan: Chan, stat: TaskStat, cp: CopyV, born: CopyV)
    requires UploadOk(stat, cp, born) && stat != StatNone && cp.dir.ToServ?
    ensures var r := RunCopy(stat, chan, cp);
            UploadSucceeds(r.stat, r.cp) <==> UploadSucceeds(stat, cp)
  {
    hide WritesFinish;
    hide SendData;
    hide GetScpChannel;
    if stat == StatStart {
      UploadStartFate(chan, cp, born);
    } else if stat == StatChannelReady {
      SendFate(chan, cp, born);
    }
  }

  lemma DeliversAfterServe(script: seq<ReadItem>, need: nat)
    ensures var r := Serve(script, need);
            && |r.got| <= need
            && (r.ret >= 0 ==> |r.got| == r.ret && (Delivers(script, need) <==> |r.got| == need || Delivers(r.rest, need - |r.got|)))
            && (r.ret == EAGAIN ==> r.got == [] && (Delivers(script, need) <==> Delivers(r.rest, need)))
            && (r.ret < 0 && r.ret != EAGAIN ==> !Delivers(script, need))
  {
    ServeConserves(script, need);
  }

  lemma DownloadFate(chan: Chan, stat: TaskStat, cp: CopyV, total: seq<byte>)
    requires DownloadOk(stat, cp, total) && stat != StatNone && cp.dir.FromServ?
    ensures var r := RunCopy(stat, chan, cp);
            DownloadSucceeds(r.stat, r.cp) <==> DownloadSucceeds(stat, cp)
  {
    hide Serve;
    hide Delivers;
    if stat == StatStart {
      FirstRefused(cp.opens);
    } else if stat == StatChannelReady {
      DeliversAfterServe(cp.incoming, cp.stSize - cp.tcnt);
    }
  }

  lemma RunningFate(c: Core, ex: ExecV, born: ExecV)
    requires c.job == Exec(ex) && ExecOk(StatCmdRunning, c.chan, ex, born) && c.stat == StatCmdRunning
    ensures var r := RunExec(c, ex);
            r.core.job.Exec? && (ExecSucceeds(r.core.stat, r.core.job.ex) <==> GetsThrough(LoopV(StatCmdRunning, ex.err, ex.out)))
  {
    hide GetsThrough;
    hide Iterate;
    var l := LoopV(StatCmdRunning, ex.err, ex.out);
    DrainKeeps(l);
    ThroughIff(l);
    var d := Drain(l);
    if d.ret.Again? && d.l.stat == StatCmdRunning {
      ThroughIff(d.l);
    }
  }

  lemma ExecFate(c: Core, ex: ExecV, born: ExecV)
    requires c.job == Exec(ex) && ExecOk(c.stat, c.chan, ex, born) && c.stat != StatNone
    ensures var r := RunExec(c, ex);
            r.core.job.Exec? && (ExecSucceeds(r.core.stat, r.core.job.ex) <==> ExecSucceeds(c.stat, ex))
  {
    hide GetsThrough;
    FirstRefused(ex.opens);
    FirstRefused(ex.starts);
    if c.stat == StatCmdRunning {
      RunningFate(c, ex, born);
    }
  }

  /** An activation does not change the fate of a task. */
  lemma RunFate(c: Core, born: Core)
    requires CoreOk(c, born) && c.stat != StatNone
    ensures Succeeds(Run(c).core) <==> Succeeds(c)
  {
    match c.job
    case Copy(cp) =>
      RunCopyKeeps(c.stat, c.chan, cp, born.job.cp);
      if cp.dir.ToServ? {
        UploadFate(c.chan, c.stat, cp, born.job.cp);
      } else {
        DownloadFate(c.chan, c.stat, cp, Bytes(born.job.cp.incoming));
      }
    case Exec(ex) => ExecFate(c, ex, born.job.ex);
  }

  lemma {:induction false} NthFate(c: Core, born: Core, n: nat)
    requires CoreOk(c, born) && c.stat != StatNone
    ensures Succeeds(Nth(c, n)) <==> Succeeds(c)
  {
    hide Run;
    hide Succeeds;
    hide CoreOk;
    if n > 0 {
      NthFate(c, born, n - 1);
      NthOk(c, born, n - 1);
      RunFate(Nth(c, n - 1), born);
    }
  }

  lemma {:induction false} DeliversSupplies(script: seq<ReadItem>, need: nat)
    requires Delivers(script, need)
    ensures Supplies(script, need)
    decreases |script|
  {
    if script != [] {
      if script[0].Neg? {
        DeliversSupplies(script[1..], need);
      } else if |script[0].bytes| < need {
        DeliversSupplies(script[1..], need - |script[0].bytes|);
      }
    }
  }

  lemma SuccessIsLive(c: Core, born: Core)
    requires CoreOk(c, born) && c.stat == StatStart && Succeeds(c)
    ensures Live(c)
  {
    if c.job.Copy? && c.job.cp.dir.FromServ? {
      DeliversSupplies(c.job.cp.incoming, c.job.cp.announced);
    }
  }

  /** `n` activations bring the task to DONE. */
  ghost predicate DoneAt(c: Core, n: nat) {
    Nth(c, n).stat == StatDone
  }

  /** Exactly when a task run alone ends in DONE: an upload when its file can be
      read, its channel opened and every byte written; a download when its
      channel can be opened, the server delivers the announced bytes, and the
      local file opens, takes exactly so many and closes; a command when it can be started and no failed
      read is exposed by both streams asking to wait before both have given 0. */
  lemma DoneExactlyWhen(born: Core)
    requires NewCore(born)
    ensures (exists n :: DoneAt(Begin(born), n)) <==> Succeeds(Begin(born))
  {
    var c := Begin(born);
    NewCoreOk(born);
    if Succeeds(c) {
      SuccessIsLive(c, born);
      var n := EndsAfter(c, born);
      NthFate(c, born, n);
      ErrorIsNoSuccess(Nth(c, n));
      assert DoneAt(c, n);
    }
    forall n | DoneAt(c, n) ensures Succeeds(c) {
      NthFate(c, born, n);
      DoneIsSuccess(Nth(c, n));
    }
  }

  lemma ErrorIsNoSuccess(c: Core)
    ensures c.stat == StatError ==> !Succeeds(c)
  {
  }

  lemma DoneIsSuccess(c: Core)
    ensures c.stat == StatDone ==> Succeeds(c)
  {
  }

  lemma {:induction false} ReliableSafe(script: seq<ReadItem>)
    requires Reliable(script)
    ensures Safe(script)
  {
    if script != [] {
      ReliableSafe(script[1..]);
    }
  }

  /** Total correctness of a command: if it can be opened and started and no
      read fails, it ends in DONE with the exit status and the whole of both
      remote streams, however the server splits and delays them. */
  lemma ReliableCommand(born: Core) returns (n: nat)
    requires NewCore(born) && born.job.Exec?
    requires var ex := born.job.ex;
             !SomeRefused(ex.opens) && !SomeRefused(ex.starts) && Reliable(ex.err.script) && Reliable(ex.out.script)
    ensures var ex := born.job.ex;
            var f := Nth(Begin(born), n);
            && f.stat == StatDone && f.job.Exec? && f.job.ex.retCode == ex.exit
            && f.job.ex.err.buf == Bytes(ex.err.script) && f.job.ex.out.buf == Bytes(ex.out.script)
  {
    var ex := born.job.ex;
    NewCoreOk(born);
    ReliableDrive(LoopV(StatCmdRunning, ex.err, ex.out));
    ThroughIff(LoopV(StatCmdRunning, ex.err, ex.out));
    DoneExactlyWhen(born);
    n :| DoneAt(Begin(born), n);
    NthOk(Begin(born), born, n);
    ReliableSafe(ex.err.script);
    ReliableSafe(ex.out.script);
    DoneDelivers(Nth(Begin(born), n), born);
  }
}
