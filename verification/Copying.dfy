/** The copy task: chunked upload of one snapshot of a local file and download
    into a buffer of the announced size (src/task.c:211-447). */
module Copying {
  import opened Base
  import opened Streams

  /** Largest write to the channel. */
  const CHUNK: nat := 8 * 1024

  datatype Direction = ToServ | FromServ

  /** One answer of read(2): the bytes available (none at end of file) or -1.
      After the last item every read returns 0. */
  datatype FileRead = Got(bytes: seq<byte>) | ReadError

  /** The local file as one attempt to load it finds it: what stat and open say,
      then the reads. */
  datatype LocalFile = LocalFile(statOk: bool, openOk: bool, size: nat, answers: seq<FileRead>)

  /** One answer of libssh2_channel_write; after the last item every write is
      accepted whole. */
  datatype WriteItem = Accept(n: nat) | NotWritten(again: bool)

  /** How writing the downloaded file goes: open, then write(2) returning `n`,
      then close. */
  datatype Save = OpenFails | Writes(n: int, closeOk: bool)

  /** A pssh_copy_task_t with its surroundings. `files` is what successive
      attempts to load the local file find (after the last, stat fails): loading
      it twice may give two different contents. `data` holds the bytes filled in
      so far, `sent` what the channel has accepted and `saved` the content of the
      local target file once it has been opened for writing. */
  datatype CopyV = CopyV(
    dir: Direction, data: Option<seq<byte>>, tcnt: nat, stSize: nat,
    files: seq<LocalFile>, opens: seq<Attempt>, announced: nat,
    writes: seq<WriteItem>, incoming: seq<ReadItem>, sent: seq<byte>,
    save: Save, saved: Option<seq<byte>>)

  datatype CopyStep = CopyStep(stat: TaskStat, chan: Chan, cp: CopyV, ret: Ret)

  datatype LoadResult = Loaded(bytes: seq<byte>) | LoadFailed(partial: seq<byte>) | Stuck

  /** The loop that reads `want` bytes of the file: it stops when they are there
      or a read fails, and otherwise never stops. */
  function Load(answers: seq<FileRead>, want: nat): LoadResult
    decreases |answers|
  {
    if want == 0 then Loaded([])
    else if answers == [] then Stuck
    else match answers[0]
      case ReadError => LoadFailed([])
      case Got(bytes) =>
        var n := Min(|bytes|, want);
        match Load(answers[1..], want - n)
        case Loaded(more) => Loaded(bytes[..n] + more)
        case LoadFailed(more) => LoadFailed(bytes[..n] + more)
        case Stuck => Stuck
  }

  /** What the reads deliver before the first that fails. */
  function Readable(answers: seq<FileRead>): seq<byte> {
    if answers == [] || answers[0].ReadError? then [] else answers[0].bytes + Readable(answers[1..])
  }

  /** The file is shorter than stat said and no read fails, as when it is
      truncated in between. */
  predicate Truncated(file: LocalFile) {
    |Readable(file.answers)| < file.size && forall i :: 0 <= i < |file.answers| ==> file.answers[i].Got?
  }

  /** What is loaded is the beginning of the file, of exactly the size stat
      announced, or all that could be read before a failure; the loop never ends
      exactly when the file is truncated. */
  lemma {:induction false} LoadOutcome(answers: seq<FileRead>, want: nat)
    ensures var l := Load(answers, want);
            && (l.Loaded? <==> want <= |Readable(answers)|)
            && (l.Loaded? ==> l.bytes == Readable(answers)[..want])
            && (l.LoadFailed? ==> l.partial == Readable(answers))
            && (l.Stuck? <==> Truncated(LocalFile(true, true, want, answers)))
    decreases |answers|
  {
    if want > 0 && answers != [] && answers[0].Got? {
      var bytes := answers[0].bytes;
      var n := Min(|bytes|, want);
      assert forall i :: 0 < i < |answers| ==> answers[i] == answers[1..][i - 1];
      LoadOutcome(answers[1..], want - n);
      if n < |bytes| {
        assert Load(answers[1..], 0) == Loaded([]);
      }
      if Truncated(LocalFile(true, true, want - n, answers[1..])) {
        assert forall i :: 0 <= i < |answers| ==> answers[i].Got?;
      }
      if Truncated(LocalFile(true, true, want, answers)) {
        assert forall i :: 0 <= i < |answers[1..]| ==> answers[1..][i].Got?;
      }
    }
  }

  function Slice(s: seq<byte>, lo: nat, hi: nat): seq<byte> {
    if lo <= hi <= |s| then s[lo..hi] else []
  }

  function Content(data: Option<seq<byte>>): seq<byte> {
    if data.Some? then data.value else []
  }

  datatype LoadStep = LoadStep(cp: CopyV, ret: Ret, failed: bool)

  /** The `cp->data == NULL` branch of pssh_task_get_send_channel. A call that
      never returns leaves no result; the task then stays as it was. */
  function TakeSnapshot(cp: CopyV): LoadStep {
    if cp.data.Some? then LoadStep(cp, Ok, false)
    else if cp.files == [] then LoadStep(cp, Ok, true)
    else
      var file := cp.files[0];
      var tried := cp.(files := cp.files[1..]);
      if !file.statOk then LoadStep(tried, Ok, true)
      else
        var st := tried.(stSize := file.size);
        if !file.openOk then LoadStep(st, Ok, true)
        else match Load(file.answers, file.size)
          case Loaded(bytes) => LoadStep(st.(data := Some(bytes), tcnt := 0), Ok, false)
          case LoadFailed(partial) => LoadStep(st.(data := Some(partial)), Ok, true)
          case Stuck => LoadStep(cp, Hang, true)
  }

  /** libssh2_scp_send / libssh2_scp_recv and what the code makes of a NULL. */
  function OpenScp(cp: CopyV): CopyStep {
    if cp.opens == [] then
      CopyStep(StatChannelReady, OpenChan,
               if cp.dir.FromServ? then cp.(stSize := cp.announced) else cp, Ok)
    else if cp.opens[0].TryAgain? then
      CopyStep(StatStart, NoChan, cp.(opens := cp.opens[1..]), Again)
    else
      CopyStep(StatError, NoChan, cp.(opens := cp.opens[1..]), Ok)
  }

  /** pssh_task_get_scp_channel. */
  function GetScpChannel(chan: Chan, cp: CopyV): CopyStep {
    if cp.dir.FromServ? then OpenScp(cp)
    else
      var l := TakeSnapshot(cp);
      if l.ret == Hang then CopyStep(StatStart, chan, cp, Hang)
      else if l.failed then CopyStep(StatError, chan, l.cp, Ok)
      else OpenScp(l.cp)
  }

  /** pssh_task_send_data. */
  function SendData(chan: Chan, cp: CopyV): CopyStep {
    var len := Min(if cp.tcnt <= cp.stSize then cp.stSize - cp.tcnt else 0, CHUNK);
    if cp.writes != [] && cp.writes[0].NotWritten? then
      var cp' := cp.(writes := cp.writes[1..]);
      if cp.writes[0].again then CopyStep(StatChannelReady, chan, cp', Again)
      else CopyStep(StatError, chan, cp', Ok)
    else
      var ret := if cp.writes == [] then len else Min(cp.writes[0].n, len);
      var cp' := cp.(tcnt := cp.tcnt + ret,
                     writes := if cp.writes == [] then [] else cp.writes[1..],
                     sent := cp.sent + Slice(Content(cp.data), cp.tcnt, cp.tcnt + ret));
      CopyStep(if cp'.tcnt == cp'.stSize then StatDataTransfer else StatChannelReady, chan, cp', Ok)
  }

  /** Writing the complete buffer to the local file. */
  function SaveFile(cp: CopyV): CopyV {
    if cp.save.OpenFails? then cp
    else
      var n := if cp.save.n < 0 then 0 else Min(cp.save.n, |Content(cp.data)|);
      cp.(saved := Some(Content(cp.data)[..n]))
  }

  predicate SaveSucceeds(save: Save, size: nat) {
    save.Writes? && save.n == size && save.closeOk
  }

  /** The first read allocates the buffer. */
  function WithBuffer(cp: CopyV): CopyV {
    if cp.data.None? then cp.(data := Some([]), tcnt := 0) else cp
  }

  function Received(cp: CopyV, r: Reply): CopyV {
    cp.(data := Some(Content(cp.data) + r.got), tcnt := cp.tcnt + |r.got|, incoming := r.rest)
  }

  /** pssh_task_recv_data. */
  function RecvData(chan: Chan, cp: CopyV): CopyStep {
    RecvInto(chan, WithBuffer(cp))
  }

  function RecvInto(chan: Chan, cp: CopyV): CopyStep {
    var r := Serve(cp.incoming, if cp.tcnt <= cp.stSize then cp.stSize - cp.tcnt else 0);
    var cp' := Received(cp, r);
    if r.ret == EAGAIN then CopyStep(StatChannelReady, chan, cp', Again)
    else if r.ret < 0 then CopyStep(StatError, chan, cp', Ok)
    else if cp'.tcnt == cp'.stSize then
      CopyStep(if SaveSucceeds(cp'.save, cp'.stSize) then StatDataTransfer else StatError, chan, SaveFile(cp'), Ok)
    else CopyStep(StatChannelReady, chan, cp', Ok)
  }

  /** pssh_task_cleanup_copy. */
  function CleanupCopy(chan: Chan, cp: CopyV): CopyStep {
    CopyStep(StatDone, NoChan, cp.(data := None), Ok)
  }

  /** pssh_task_run_copy_task. */
  function RunCopy(stat: TaskStat, chan: Chan, cp: CopyV): CopyStep {
    match stat
    case StatStart => GetScpChannel(chan, cp)
    case StatChannelReady => if cp.dir.ToServ? then SendData(chan, cp) else RecvData(chan, cp)
    case StatDataTransfer => CleanupCopy(chan, cp)
    case StatError => CopyStep(stat, chan, cp, Ok)
    case StatDone => CopyStep(stat, chan, cp, Ok)
    case _ => CopyStep(stat, chan, cp, Abort)
  }

  /** A copy task as pssh_add_cp_task creates it. */
  predicate NewCopy(cp: CopyV) {
    cp.data == None && cp.tcnt == 0 && cp.stSize == 0 && cp.sent == [] && cp.saved == None
  }

  /** The content the first attempt finds, in the size it announces. */
  function Snapshot(files: seq<LocalFile>): seq<byte> {
    if files == [] || |Readable(files[0].answers)| < files[0].size then []
    else Readable(files[0].answers)[..files[0].size]
  }

  /** The first attempt has been made, no other, and it has succeeded. */
  predicate Attempted(cp: CopyV, born: CopyV) {
    && born.files != [] && cp.files == born.files[1..]
    && born.files[0].statOk && born.files[0].openOk
    && |Snapshot(born.files)| == born.files[0].size
  }

  /** What holds of an upload in each state: the channel has accepted exactly
      the first `tcnt` bytes of what the one attempt made found. */
  predicate UploadOk(stat: TaskStat, cp: CopyV, born: CopyV) {
    var whole := Snapshot(born.files);
    var loaded := Attempted(cp, born) && cp.data == Some(whole) && |whole| == cp.stSize && cp.tcnt <= cp.stSize
                  && cp.sent == whole[..cp.tcnt];
    match stat
    case StatNone => cp.data == None && cp.tcnt == 0 && cp.sent == [] && cp.files == born.files
    case StatStart =>
      cp.tcnt == 0 && cp.sent == [] && ((cp.data == None && cp.files == born.files) || loaded)
    case StatChannelReady => loaded
    case StatDataTransfer => loaded && cp.tcnt == cp.stSize
    case StatDone => Attempted(cp, born) && cp.sent == whole && cp.data == None
    case StatError => cp.sent <= whole && (cp.files == born.files || (born.files != [] && cp.files == born.files[1..]))
    case _ => false
  }

  /** The download buffer is the first `tcnt` bytes of what the server sends. */
  predicate Filling(cp: CopyV, total: seq<byte>) {
    && |Content(cp.data)| == cp.tcnt <= cp.stSize == cp.announced
    && Content(cp.data) + Bytes(cp.incoming) == total
  }

  predicate Untouched(cp: CopyV, total: seq<byte>) {
    cp.data == None && cp.tcnt == 0 && cp.saved == None && Bytes(cp.incoming) == total
  }

  /** The local file holds exactly the announced number of bytes. */
  predicate Saved(cp: CopyV, total: seq<byte>) {
    cp.announced <= |total| && cp.saved == Some(total[..cp.announced])
  }

  /** What holds of a download in each state, `total` being everything its server
      delivers: the local file is untouched until all announced bytes are in. */
  predicate DownloadOk(stat: TaskStat, cp: CopyV, total: seq<byte>) {
    match stat
    case StatNone => Untouched(cp, total)
    case StatStart => Untouched(cp, total)
    case StatChannelReady => Filling(cp, total) && cp.saved == None
    case StatDataTransfer => Saved(cp, total)
    case StatDone => Saved(cp, total) && cp.data == None
    case StatError => cp.saved.Some? ==> cp.announced <= |total| && cp.saved.value <= total[..cp.announced]
    case _ => false
  }

  predicate SameJob(cp: CopyV, born: CopyV) {
    cp.dir == born.dir && cp.announced == born.announced && cp.save == born.save
  }

  predicate ChanOk(stat: TaskStat, chan: Chan) {
    match stat
    case StatChannelReady => chan == OpenChan
    case StatDataTransfer => chan == OpenChan
    case StatError => true
    case _ => chan == NoChan
  }

  predicate CopyOk(stat: TaskStat, chan: Chan, cp: CopyV, born: CopyV) {
    && SameJob(cp, born)
    && ChanOk(stat, chan)
    && (if cp.dir.ToServ? then UploadOk(stat, cp, born) else DownloadOk(stat, cp, Bytes(born.incoming)))
  }

  /** The call that loads the file does not return. */
  predicate Spins(cp: CopyV) {
    && cp.dir.ToServ? && cp.data.None? && cp.files != []
    && cp.files[0].statOk && cp.files[0].openOk && Truncated(cp.files[0])
  }

  /** A file of one byte for which stat said two. */
  lemma SpinningFile(chan: Chan, cp: CopyV)
    requires cp.dir.ToServ? && cp.data.None? && cp.files == [LocalFile(true, true, 2, [Got([65])])]
    ensures Spins(cp) && RunCopy(StatStart, chan, cp).ret == Hang
  {
    LoadOutcome([Got([65])], 2);
    assert Readable([Got([65])]) == [65] + Readable([]);
  }

  lemma SendKeeps(chan: Chan, cp: CopyV, born: CopyV)
    requires UploadOk(StatChannelReady, cp, born)
    ensures var r := SendData(chan, cp);
            && UploadOk(r.stat, r.cp, born) && (r.ret == Ok || r.ret == Again)
            && (r.stat == StatChannelReady || r.stat == StatDataTransfer || r.stat == StatError)
            && r.chan == chan
            && |r.cp.sent| <= |cp.sent| + CHUNK
  {
    var r := SendData(chan, cp);
    var whole := Snapshot(born.files);
    var n := r.cp.tcnt - cp.tcnt;
    hide Snapshot;
    assert whole[..cp.tcnt] + whole[cp.tcnt..cp.tcnt + n] == whole[..cp.tcnt + n];
  }

  /** One read extends the buffer by the server's next bytes. */
  lemma RecvFills(got: seq<byte>, incoming: seq<ReadItem>, room: nat, total: seq<byte>)
    requires got + Bytes(incoming) == total
    ensures var s := Serve(incoming, room);
            got + s.got + Bytes(s.rest) == total && |s.got| <= room && (s.ret >= 0 ==> s.ret == |s.got|)
  {
    var s := Serve(incoming, room);
    ServeConserves(incoming, room);
    calc {
      got + s.got + Bytes(s.rest);
      got + (s.got + Bytes(s.rest));
      got + Bytes(incoming);
    }
  }

  lemma SaveKeeps(cp: CopyV, total: seq<byte>)
    requires Filling(cp, total) && cp.tcnt == cp.stSize && cp.saved == None
    ensures DownloadOk(if SaveSucceeds(cp.save, cp.stSize) then StatDataTransfer else StatError, SaveFile(cp), total)
  {
    var got := Content(cp.data);
    assert got == total[..cp.announced];
    assert got[..|got|] == got;
  }

  lemma ReceivedKeeps(cp: CopyV, total: seq<byte>)
    requires Filling(cp, total)
    ensures var s := Serve(cp.incoming, cp.stSize - cp.tcnt);
            Filling(Received(cp, s), total) && (s.ret >= 0 ==> s.ret == |s.got|)
  {
    RecvFills(Content(cp.data), cp.incoming, cp.stSize - cp.tcnt, total);
  }

  lemma RecvIntoKeeps(chan: Chan, cp: CopyV, total: seq<byte>)
    requires Filling(cp, total) && cp.saved == None
    ensures var r := RecvInto(chan, cp);
            && DownloadOk(r.stat, r.cp, total) && (r.ret == Ok || r.ret == Again)
            && (r.stat == StatChannelReady || r.stat == StatDataTransfer || r.stat == StatError)
            && r.chan == chan && r.cp.sent == cp.sent
  {
    hide Serve;
    hide Bytes;
    var s := Serve(cp.incoming, cp.stSize - cp.tcnt);
    ReceivedKeeps(cp, total);
    var cp' := Received(cp, s);
    if s.ret >= 0 && cp'.tcnt == cp'.stSize {
      SaveKeeps(cp', total);
    }
  }

  lemma RecvKeeps(chan: Chan, cp: CopyV, total: seq<byte>)
    requires DownloadOk(StatChannelReady, cp, total)
    ensures var r := RecvData(chan, cp);
            && DownloadOk(r.stat, r.cp, total) && (r.ret == Ok || r.ret == Again)
            && (r.stat == StatChannelReady || r.stat == StatDataTransfer || r.stat == StatError)
            && r.chan == chan && r.cp.sent == cp.sent
  {
    assert Filling(WithBuffer(cp), total);
    RecvIntoKeeps(chan, WithBuffer(cp), total);
  }

  /** The local file is touched by the read that completes the buffer, if it can
      be opened, and by no other; it then holds as much of the announced bytes as
      write(2) has taken. */
  lemma RecvSaves(chan: Chan, cp: CopyV, total: seq<byte>)
    requires DownloadOk(StatChannelReady, cp, total)
    ensures var r := RecvData(chan, cp);
            r.stat == StatDataTransfer ==> r.cp.saved.Some? && cp.save == Writes(cp.announced, true)
    ensures var r := RecvData(chan, cp);
            r.cp.saved.Some? ==>
              && cp.save.Writes? && r.cp.tcnt == cp.announced <= |total|
              && r.cp.saved == Some(total[..if cp.save.n < 0 then 0 else Min(cp.save.n, cp.announced)])
  {
    hide Serve;
    hide Bytes;
    var b := WithBuffer(cp);
    assert Filling(b, total);
    ReceivedKeeps(b, total);
    var full := Received(b, Serve(b.incoming, b.stSize - b.tcnt));
    if full.tcnt == full.stSize && cp.save.Writes? {
      var n := if cp.save.n < 0 then 0 else Min(cp.save.n, cp.announced);
      assert Content(full.data) == total[..cp.announced];
      assert total[..cp.announced][..n] == total[..n];
    }
  }

  /** The file is loaded at most once: the first attempt gives the snapshot,
      whole, or fails, or never returns; with the snapshot there, no further
      attempt is made. */
  lemma SnapshotKeeps(cp: CopyV, born: CopyV)
    requires cp.dir.ToServ? && UploadOk(StatStart, cp, born)
    ensures var l := TakeSnapshot(cp);
            && l.cp == cp.(files := l.cp.files, data := l.cp.data, stSize := l.cp.stSize, tcnt := l.cp.tcnt)
            && (l.ret == Hang <==> Spins(cp))
            && (l.ret == Hang ==> l.cp == cp)
            && (l.ret != Hang ==> l.ret == Ok)
            && (l.ret == Ok && l.failed ==> UploadOk(StatError, l.cp, born))
            && (l.ret == Ok && !l.failed ==> UploadOk(StatStart, l.cp, born) && l.cp.data == Some(Snapshot(born.files)))
            && (cp.data.Some? ==> l.cp == cp)
  {
    if cp.data.None? && cp.files != [] {
      LoadOutcome(cp.files[0].answers, cp.files[0].size);
    }
  }

  lemma StartKeeps(chan: Chan, cp: CopyV, born: CopyV)
    requires CopyOk(StatStart, chan, cp, born)
    ensures var r := GetScpChannel(chan, cp);
            && CopyOk(r.stat, r.chan, r.cp, born)
            && (r.ret == Hang <==> Spins(cp))
            && (r.ret == Hang ==> r == CopyStep(StatStart, chan, cp, Hang))
            && (r.ret != Hang ==> r.ret == Ok || r.ret == Again)
            && (r.stat == StatChannelReady || r.stat == StatStart || r.stat == StatError)
            && r.cp.sent == cp.sent
  {
    hide Snapshot;
    hide TakeSnapshot;
    hide Truncated;
    if cp.dir.ToServ? {
      SnapshotKeeps(cp, born);
    } else {
      assert Content(cp.data) + Bytes(cp.incoming) == Bytes(cp.incoming);
    }
  }

  /** Every step of a copy task keeps its invariant; so a copy task never leaves
      its own states, aborts, or returns an unexpected code, does not return at
      all exactly when it loads a truncated file, no write is larger than one
      chunk, and DONE means fidelity. */
  lemma RunCopyKeeps(stat: TaskStat, chan: Chan, cp: CopyV, born: CopyV)
    requires CopyOk(stat, chan, cp, born) && stat != StatNone
    ensures var r := RunCopy(stat, chan, cp);
            && CopyOk(r.stat, r.chan, r.cp, born)
            && (r.ret == Hang <==> stat == StatStart && Spins(cp))
            && (r.ret == Hang ==> r == CopyStep(stat, chan, cp, Hang))
            && (r.ret != Hang ==> r.ret == Ok || r.ret == Again)
            && r.stat != StatNone
            && |r.cp.sent| <= |cp.sent| + CHUNK
  {
    hide GetScpChannel;
    hide Serve;
    hide Load;
    hide Bytes;
    hide Snapshot;
    hide Spins;
    match stat
    case StatStart =>
      StartKeeps(chan, cp, born);
    case StatChannelReady =>
      if cp.dir.ToServ? {
        SendKeeps(chan, cp, born);
      } else {
        RecvKeeps(chan, cp, Bytes(born.incoming));
      }
    case StatDataTransfer =>
      if cp.dir.ToServ? {
        assert Snapshot(born.files)[..cp.tcnt] == Snapshot(born.files);
      }
    case _ =>
  }

  /** EAGAIN is harmless: the state, the transferred count, the buffer and what
      the channel has accepted stay as they are, and once there is a snapshot no
      other attempt to load the file is made. */
  lemma AgainChangesNothing(stat: TaskStat, chan: Chan, cp: CopyV, born: CopyV)
    requires CopyOk(stat, chan, cp, born) && RunCopy(stat, chan, cp).ret == Again
    ensures var r := RunCopy(stat, chan, cp);
            && r.stat == stat && r.cp.tcnt == cp.tcnt && r.cp.sent == cp.sent && r.cp.saved == cp.saved
            && Content(r.cp.data) == (if stat == StatStart && cp.dir.ToServ? then Snapshot(born.files) else Content(cp.data))
            && (cp.data.Some? ==> r.cp.data == cp.data && r.cp.files == cp.files)
  {
    hide Load;
    hide Serve;
    hide Snapshot;
    if stat == StatStart {
      if cp.dir.ToServ? {
        SnapshotKeeps(cp, born);
      }
    } else if stat == StatChannelReady {
      if cp.dir.FromServ? {
        hide SaveFile;
        ServeConserves(cp.incoming, cp.stSize - cp.tcnt);
      }
    }
  }
}
