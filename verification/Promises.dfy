/** What a client may rely on: the results of its tasks on every run, and the
    verdict of its loop, in terms of what the outside world answers. */
module Promises {
  import opened Base
  import opened Streams
  import opened Copying
  import opened Tasks
  import opened Sessions
  import opened Worlds
  import opened Scheduling
  import opened Runs
  import opened Fates
  import opened Histories

  /** On every run, in every state, whatever went on elsewhere: an upload has
      tried to load its file once at most and put on the channel a prefix of what
      that attempt found, `tcnt` bytes of it while under way and all of it when
      DONE; a download has not touched the local file before all announced bytes
      are in and never writes anything but their beginning; a command's buffers
      begin the two remote streams. */
  lemma TransfersFaithful(w: World, labels: seq<Label>, i: nat)
    requires Reached(w, labels) && i < |w.tasks|
    ensures var c, born := w.tasks[i].core, w.tasks[i].born;
            match (c.job, born.job)
            case (Copy(cp), Copy(b)) =>
              var total := Bytes(b.incoming);
              && cp.announced == b.announced
              && (cp.dir.ToServ? ==>
                    && cp.sent <= Snapshot(b.files)
                    && (cp.files == b.files || (b.files != [] && cp.files == b.files[1..]))
                    && (c.stat == StatChannelReady || c.stat == StatDataTransfer ==>
                          cp.tcnt <= |Snapshot(b.files)| && cp.sent == Snapshot(b.files)[..cp.tcnt])
                    && (c.stat == StatDone ==>
                          b.files != [] && cp.sent == Snapshot(b.files) && |cp.sent| == b.files[0].size))
              && (cp.dir.FromServ? ==>
                    && (c.stat == StatChannelReady ==> Content(cp.data) <= total && |Content(cp.data)| == cp.tcnt)
                    && (cp.saved.Some? ==>
                          && c.stat != StatNone && c.stat != StatStart && c.stat != StatChannelReady
                          && cp.announced <= |total| && cp.saved.value <= total[..cp.announced]))
            case (Exec(ex), Exec(b)) => ex.err.buf <= Bytes(b.err.script) && ex.out.buf <= Bytes(b.out.script)
            case _ => false
  {
    ReachedSound(w, labels);
    hide NewCore;
    hide Nth;
    hide Load;
    var t := w.tasks[i];
    match t.core.job
    case Copy(cp) =>
      if cp.dir.ToServ? {
        UploadPrefix(t.core.stat, cp, t.born.job.cp);
      } else {
        DownloadPrefix(t.core.stat, cp, Bytes(t.born.job.cp.incoming));
      }
    case Exec(ex) => ExecPrefix(t.core.stat, t.core.chan, ex, t.born.job.ex);
  }

  lemma UploadPrefix(stat: TaskStat, cp: CopyV, born: CopyV)
    requires UploadOk(stat, cp, born)
    ensures cp.sent <= Snapshot(born.files)
    ensures cp.files == born.files || (born.files != [] && cp.files == born.files[1..])
    ensures stat == StatChannelReady || stat == StatDataTransfer ==>
              cp.tcnt <= |Snapshot(born.files)| && cp.sent == Snapshot(born.files)[..cp.tcnt]
    ensures stat == StatDone ==> born.files != [] && cp.sent == Snapshot(born.files) && |cp.sent| == born.files[0].size
  {
  }

  lemma DownloadPrefix(stat: TaskStat, cp: CopyV, total: seq<byte>)
    requires DownloadOk(stat, cp, total)
    ensures stat == StatChannelReady ==> Content(cp.data) <= total && |Content(cp.data)| == cp.tcnt
    ensures cp.saved.Some? ==>
              && stat != StatNone && stat != StatStart && stat != StatChannelReady
              && cp.announced <= |total| && cp.saved.value <= total[..cp.announced]
  {
  }

  lemma ExecPrefix(stat: TaskStat, chan: Chan, ex: ExecV, born: ExecV)
    requires ExecOk(stat, chan, ex, born)
    ensures ex.err.buf <= Bytes(born.err.script) && ex.out.buf <= Bytes(born.out.script)
  {
    FreshFrom(born.err.script);
    FreshFrom(born.out.script);
  }

  /** On every run, a task that has come to an end by itself is DONE exactly when
      the answers it was to get let it succeed. */
  lemma EndIsFate(w: World, labels: seq<Label>, i: nat)
    requires Reached(w, labels) && i < |w.tasks| && Finished(w.tasks[i]) && !w.tasks[i].expired
    ensures w.tasks[i].core.stat == StatDone <==> Succeeds(Begin(w.tasks[i].born))
  {
    ReachedSound(w, labels);
    TaskFate(w.tasks[i]);
  }

  lemma TaskFate(t: TaskV)
    requires TaskOk(t) && Finished(t) && !t.expired
    ensures t.core.stat == StatDone <==> Succeeds(Begin(t.born))
  {
    NewCoreOk(t.born);
    NthFate(Begin(t.born), t.born, t.acts);
    ErrorIsNoSuccess(t.core);
    DoneIsSuccess(t.core);
  }

  // ---------------------------------------------------------------------------
  // The client's loop is a run

  predicate OnlyExec(labels: seq<Label>) {
    forall n :: 0 <= n < |labels| ==> labels[n].Callback? || labels[n].ScanTasks?
  }

  lemma {:induction false} OnlyExecAllowed(w: World, labels: seq<Label>)
    requires OnlyExec(labels)
    ensures AllowedRun(w, labels)
  {
    if labels != [] {
      OnlyExecAllowed(w, labels[..|labels| - 1]);
    }
  }

  lemma {:induction false} CallbacksOnly(batch: seq<Firing>)
    ensures OnlyExec(Callbacks(batch))
  {
    if batch != [] {
      CallbacksOnly(batch[1..]);
    }
  }

  lemma {:induction false} ExecLabelsOnly(w: World, sched: seq<seq<Firing>>)
    ensures OnlyExec(ExecLabels(w, sched))
    decreases |sched|
  {
    var s := Scan(w, 0);
    if !(s.reported.Some? || AllCounted(s.w) || sched == []) {
      CallbacksOnly(sched[0]);
      ExecLabelsOnly(FireAll(s.w, sched[0]), sched[1..]);
    }
  }

  /** The steps of the whole loop. */
  function ClientLabels(w: World, sched: seq<seq<Firing>>): seq<Label>
    decreases Unreported(w.tasks)
  {
    ExecLess(w, sched);
    var r := ExecCall(w, sched);
    ExecLabels(w, sched) + if r.out.Running? then ClientLabels(r.w, r.rest) else []
  }

  lemma {:induction false} ClientIsRun(w: World, sched: seq<seq<Firing>>)
    ensures Client(w, sched).w == Runs.Run(w, ClientLabels(w, sched)) && OnlyExec(ClientLabels(w, sched))
    decreases Unreported(w.tasks)
  {
    var r := ExecCall(w, sched);
    ExecIsRun(w, sched);
    ExecLabelsOnly(w, sched);
    if r.out.Running? {
      ExecLess(w, sched);
      ClientIsRun(r.w, r.rest);
      RunAppend(w, ExecLabels(w, sched), ClientLabels(r.w, r.rest));
    } else {
      assert ClientLabels(w, sched) == ExecLabels(w, sched);
    }
  }

  /** The verdict of the client's loop, from any reachable state and on any
      schedule: once it is given, it is SUCCESS exactly when each task of a
      connected host got answers that let it succeed and was not ended by its
      timer, and FAILED otherwise; and exactly the tasks that succeeded are DONE
      and have been returned, with what they were to deliver. */
  lemma ClientVerdict(w: World, labels: seq<Label>, sched: seq<seq<Firing>>)
    requires ReachedAllowed(w, labels) && !Client(w, sched).out.ExecBlocked?
    ensures var c := Client(w, sched);
            && |c.w.tasks| == |w.tasks|
            && (forall i :: 0 <= i < |w.tasks| && OnConnected(c.w, c.w.tasks[i]) ==>
                  && (Fulfilled(c.w.tasks[i], w.tasks[i].born) <==> c.w.tasks[i].core.stat == StatDone)
                  && (c.w.tasks[i].isReported <==> c.w.tasks[i].core.stat == StatDone)
                  && CoreOk(c.w.tasks[i].core, w.tasks[i].born))
            && c.out == (if forall i :: 0 <= i < |w.tasks| && OnConnected(c.w, c.w.tasks[i]) ==> Fulfilled(c.w.tasks[i], w.tasks[i].born)
                         then ExecSuccess else ExecFailed)
  {
    var c := Client(w, sched);
    ReachedInv(w, labels);
    ClientOutcome(w, sched);
    ClientIsRun(w, sched);
    ClientReports(w, sched);
    hide Succeeds;
    hide CoreOk;
    hide Client;
    forall i | 0 <= i < |w.tasks| && OnConnected(c.w, c.w.tasks[i])
      ensures Fulfilled(c.w.tasks[i], w.tasks[i].born) <==> c.w.tasks[i].core.stat == StatDone
      ensures CoreOk(c.w.tasks[i].core, w.tasks[i].born)
    {
      RunSameTask(w, ClientLabels(w, sched), i);
      if !c.w.tasks[i].expired {
        TaskFate(c.w.tasks[i]);
      }
    }
  }

  /** The task as added could succeed, and its timer did not end it. */
  ghost predicate Fulfilled(t: TaskV, born: Core) {
    !t.expired && Succeeds(Begin(born))
  }
}
