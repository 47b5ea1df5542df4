/** The stdout and stderr buffers of a remote command and the loop that fills
    them (src/task.c, pssh_task_read_stream to the CMD_RUNNING branch of
    pssh_task_run_exec_task). */
module Streams {
  import opened Base

  /** PSSH_EXEC_ALLOC_SIZE. */
  const ALLOC_SIZE: nat := 8192

  type Chunk = s: seq<byte> | |s| > 0 witness [0]
  type ErrorCode = c: int | c < 0 witness -1

  /** One future answer of the server to a read: some bytes, or a negative
      return code together with the test `last_errno == EAGAIN`. After the last
      item every read returns 0. */
  datatype ReadItem = Data(bytes: Chunk) | Neg(code: ErrorCode, again: bool)

  /** All bytes a script delivers. */
  function Bytes(script: seq<ReadItem>): seq<byte> {
    if script == [] then []
    else (if script[0].Data? then script[0].bytes else []) + Bytes(script[1..])
  }

  /** A bound on the number of reads that do not return 0. */
  function Weight(script: seq<ReadItem>): nat {
    if script == [] then 0
    else (if script[0].Data? then |script[0].bytes| else 1) + Weight(script[1..])
  }

  datatype Reply = Reply(ret: int, again: bool, got: seq<byte>, rest: seq<ReadItem>)

  /** The server's side of a read of at most `room` bytes. */
  function Serve(script: seq<ReadItem>, room: nat): Reply {
    if script == [] then Reply(0, false, [], [])
    else match script[0]
      case Neg(code, again) => Reply(code, again, [], script[1..])
      case Data(bytes) =>
        var n := Min(|bytes|, room);
        Reply(n, false, bytes[..n],
              if n == |bytes| then script[1..] else [Data(bytes[n..])] + script[1..])
  }

  /** No byte is lost, invented or reordered by a read. */
  lemma ServeConserves(script: seq<ReadItem>, room: nat)
    ensures var r := Serve(script, room);
            && r.got + Bytes(r.rest) == Bytes(script)
            && |r.got| <= room
            && (r.ret >= 0 ==> r.ret == |r.got|)
            && (r.ret < 0 ==> r.got == [])
            && Weight(r.rest) <= Weight(script)
            && (r.ret != 0 ==> Weight(r.rest) < Weight(script))
  {
    var r := Serve(script, room);
    if script != [] && script[0].Data? {
      var bytes := script[0].bytes;
      var n := Min(|bytes|, room);
      assert bytes == bytes[..n] + bytes[n..];
      if n < |bytes| {
        assert r.rest[0] == Data(bytes[n..]) && r.rest[1..] == script[1..];
        assert bytes[..n] + (bytes[n..] + Bytes(script[1..])) == bytes + Bytes(script[1..]);
      }
    }
  }

  /** With room for a byte, 0 can only mean the end of the stream. */
  lemma ServeEnd(script: seq<ReadItem>, room: nat)
    requires room > 0
    ensures Serve(script, room).ret == 0 <==> script == []
    ensures script == [] ==> Serve(script, room).rest == []
  {
  }

  /** A pssh_exec_stream_t (`present` is `data != NULL`, `buf` its first `len`
      bytes) together with what its server side still has to say and the number
      of reads made so far. */
  datatype StreamV = StreamV(present: bool, buf: seq<byte>, alloc: nat, eof: bool, script: seq<ReadItem>, asked: nat)

  /** The exact size of the buffer: one block more than the full ones, so there
      is always room and a read that returns 0 met the end of the stream. */
  predicate StreamOk(s: StreamV) {
    && (if s.present then s.alloc == ALLOC_SIZE * (|s.buf| / ALLOC_SIZE + 1)
        else s.alloc == 0 && s.buf == [] && !s.eof)
    && (s.eof ==> s.script == [])
  }

  datatype ReadV = ReadV(s: StreamV, ret: int, failed: bool)

  function Allocated(s: StreamV): StreamV {
    if s.present then s else s.(present := true, alloc := ALLOC_SIZE, buf := [])
  }

  function Room(s: StreamV): nat {
    if s.alloc > |s.buf| then s.alloc - |s.buf| else 0
  }

  /** pssh_task_read_stream; `failed` is its `stat = PSSH_TASK_STAT_ERROR`. */
  function ReadStream(s: StreamV): ReadV {
    var a := Allocated(s);
    var r := Serve(a.script, Room(a));
    var b := a.(script := r.rest, asked := a.asked + 1);
    if r.ret < 0 then
      ReadV(b, r.ret, !r.again)
    else if r.ret == 0 then
      ReadV(b.(eof := true), 0, false)
    else
      var buf := a.buf + r.got;
      ReadV(b.(buf := buf, alloc := if |buf| == a.alloc then a.alloc + ALLOC_SIZE else a.alloc), r.ret, false)
  }

  /** pssh_task_read_stdout and pssh_task_read_stderr: only the code -1 is
      translated. */
  function ReadWrapped(s: StreamV): ReadV {
    var r := ReadStream(s);
    if r.ret == -1 then r.(ret := if r.failed then 0 else EAGAIN) else r
  }

  /** Growing by one block exactly when full keeps the size exact. */
  lemma ExactSize(len: nat, got: nat, alloc: nat)
    requires alloc == ALLOC_SIZE * (len / ALLOC_SIZE + 1) && len + got <= alloc
    ensures len < alloc <= len + ALLOC_SIZE
    ensures var alloc' := if len + got == alloc then alloc + ALLOC_SIZE else alloc;
            alloc' == ALLOC_SIZE * ((len + got) / ALLOC_SIZE + 1)
  {
    var q := len / ALLOC_SIZE;
    assert len == ALLOC_SIZE * q + len % ALLOC_SIZE;
    if len + got == alloc {
      assert (len + got) / ALLOC_SIZE == q + 1;
    } else {
      assert (len + got) / ALLOC_SIZE == q;
    }
  }

  /** A read keeps the buffer at its exact size, and only the end of the stream
      sets eof. */
  lemma ReadKeepsStream(s: StreamV)
    requires StreamOk(s) && !s.eof
    ensures var r := ReadStream(s);
            && StreamOk(r.s) && r.s.present
            && 0 < Room(r.s) <= ALLOC_SIZE
            && r.s.alloc == ALLOC_SIZE * (|r.s.buf| / ALLOC_SIZE + 1)
            && (r.ret == 0 <==> s.script == [])
            && (r.s.eof <==> r.ret == 0)
            && (r.failed ==> r.ret < 0)
  {
    var a := Allocated(s);
    ServeEnd(s.script, Room(a));
    hide Serve;
    var got := Serve(s.script, Room(a)).got;
    ServeConserves(s.script, Room(a));
    ExactSize(|a.buf|, |got|, a.alloc);
    ExactSize(|a.buf| + |got|, 0, ReadStream(s).s.alloc);
  }

  /** A read appends to the buffer exactly what the server gives up. */
  lemma ReadConserves(s: StreamV)
    requires StreamOk(s)
    ensures var r := ReadStream(s);
            && r.s.buf + Bytes(r.s.script) == s.buf + Bytes(s.script)
            && s.buf <= r.s.buf
            && Weight(r.s.script) <= Weight(s.script)
            && (r.ret != 0 ==> Weight(r.s.script) < Weight(s.script))
  {
    hide Serve;
    hide Bytes;
    hide Weight;
    var a := Allocated(s);
    ServeConserves(s.script, Room(a));
    var r := Serve(s.script, Room(a));
    assert (a.buf + r.got) + Bytes(r.rest) == a.buf + (r.got + Bytes(r.rest));
  }

  /** The state the CMD_RUNNING loop works on. */
  datatype LoopV = LoopV(stat: TaskStat, err: StreamV, out: StreamV)
  datatype IterV = IterV(l: LoopV, retErr: int, retOut: int)
  datatype DrainV = DrainV(l: LoopV, ret: Ret)

  predicate LoopOk(l: LoopV) {
    StreamOk(l.err) && StreamOk(l.out)
  }

  function LoopWeight(l: LoopV): nat {
    Weight(l.err.script) + Weight(l.out.script)
  }

  function ReadUnlessEof(s: StreamV): ReadV {
    if s.eof then ReadV(s, 0, false) else ReadWrapped(s)
  }

  /** One turn of the loop: stderr first, then stdout, each unless at eof. */
  function Iterate(l: LoopV): IterV {
    var e := ReadUnlessEof(l.err);
    var o := ReadUnlessEof(l.out);
    IterV(LoopV(if e.failed || o.failed then StatError else l.stat, e.s, o.s), e.ret, o.ret)
  }

  lemma IterateShrinks(l: LoopV)
    ensures LoopWeight(Iterate(l).l) <= LoopWeight(l)
    ensures Iterate(l).retErr != 0 || Iterate(l).retOut != 0 ==> LoopWeight(Iterate(l).l) < LoopWeight(l)
  {
    ServeConserves(l.err.script, Room(Allocated(l.err)));
    ServeConserves(l.out.script, Room(Allocated(l.out)));
  }

  /** The whole loop: it ends when both turns return 0 (the streams count as
      read) or both return EAGAIN (wait for the next event). */
  function Drain(l: LoopV): DrainV
    decreases LoopWeight(l)
  {
    var i := Iterate(l);
    if i.retOut == 0 && i.retErr == 0 then DrainV(i.l.(stat := StatStreamsReaded), Ok)
    else if i.retErr == EAGAIN && i.retOut == EAGAIN then DrainV(i.l, Again)
    else
      IterateShrinks(l);
      Drain(i.l)
  }

  lemma ReadUnlessEofKeeps(s: StreamV)
    requires StreamOk(s)
    ensures var r := ReadUnlessEof(s);
            && StreamOk(r.s)
            && r.s.buf + Bytes(r.s.script) == s.buf + Bytes(s.script)
            && s.buf <= r.s.buf
            && (s.eof ==> r.s == s)
            && (r.ret == EAGAIN ==> !r.s.eof && Weight(r.s.script) < Weight(s.script))
  {
    if !s.eof {
      ReadKeepsStream(s);
      ReadConserves(s);
    }
  }

  /** One activation of the loop, for any scripts: the buffers keep their exact
      size, each stream's bytes go to its own buffer and nowhere else, and the
      loop only goes back to waiting when neither stream is at its end. */
  lemma {:induction false} DrainKeeps(l: LoopV)
    requires LoopOk(l)
    ensures var d := Drain(l);
            && LoopOk(d.l)
            && d.l.out.buf + Bytes(d.l.out.script) == l.out.buf + Bytes(l.out.script)
            && d.l.err.buf + Bytes(d.l.err.script) == l.err.buf + Bytes(l.err.script)
            && l.out.buf <= d.l.out.buf && l.err.buf <= d.l.err.buf
            && (d.ret.Ok? || d.ret.Again?)
            && (d.ret.Ok? ==> d.l.stat == StatStreamsReaded)
            && (d.ret.Again? ==> !d.l.out.eof && !d.l.err.eof && LoopWeight(d.l) < LoopWeight(l))
            && (d.ret.Again? ==> d.l.stat == l.stat || d.l.stat == StatError)
    decreases LoopWeight(l)
  {
    var i := Iterate(l);
    ReadUnlessEofKeeps(l.err);
    ReadUnlessEofKeeps(l.out);
    IterateShrinks(l);
    if !(i.retOut == 0 && i.retErr == 0) && !(i.retErr == EAGAIN && i.retOut == EAGAIN) {
      DrainKeeps(i.l);
    }
  }

  /** A stream that reached its end is never read again: not even the count of
      its reads changes. */
  lemma {:induction false} DrainLeavesEof(l: LoopV)
    requires LoopOk(l)
    ensures l.out.eof ==> Drain(l).l.out == l.out
    ensures l.err.eof ==> Drain(l).l.err == l.err
    decreases LoopWeight(l)
  {
    var i := Iterate(l);
    ReadUnlessEofKeeps(l.err);
    ReadUnlessEofKeeps(l.out);
    if !(i.retOut == 0 && i.retErr == 0) && !(i.retErr == EAGAIN && i.retOut == EAGAIN) {
      IterateShrinks(l);
      DrainLeavesEof(i.l);
    }
  }

  /** All activations of a running command, one per event, until it is no longer
      running. */
  function Drive(l: LoopV): LoopV
    requires LoopOk(l)
    decreases LoopWeight(l)
  {
    var d := Drain(l);
    DrainKeeps(l);
    if d.ret.Again? && d.l.stat == StatCmdRunning then Drive(d.l) else d.l
  }

  function FreshStream(script: seq<ReadItem>): StreamV {
    StreamV(false, [], 0, false, script, 0)
  }

  /** A command just started whose server will answer with these scripts. */
  function Started(err: seq<ReadItem>, out: seq<ReadItem>): LoopV {
    LoopV(StatCmdRunning, FreshStream(err), FreshStream(out))
  }

  /** A read that failed for good with the one code the wrappers turn into 0. */
  predicate HardFailure(item: ReadItem) {
    item.Neg? && item.code == -1 && !item.again
  }

  /** What the server would still say after the first hard failure. */
  function AfterFailure(script: seq<ReadItem>): seq<ReadItem> {
    if script == [] then []
    else if HardFailure(script[0]) then script[1..]
    else AfterFailure(script[1..])
  }

  /** Every byte comes before the first hard failure. */
  predicate Safe(script: seq<ReadItem>) {
    Bytes(AfterFailure(script)) == []
  }

  lemma {:induction false} NothingAfterNothing(script: seq<ReadItem>)
    requires Bytes(script) == []
    ensures Safe(script)
  {
    if script != [] {
      NothingAfterNothing(script[1..]);
    }
  }

  lemma SafeRead(s: StreamV)
    requires StreamOk(s) && Safe(s.script)
    ensures var r := ReadUnlessEof(s);
            Safe(r.s.script) && (r.ret == 0 ==> Bytes(r.s.script) == [])
  {
    if !s.eof {
      ReadKeepsStream(s);
      if s.script != [] && HardFailure(s.script[0]) {
        NothingAfterNothing(s.script[1..]);
      } else if s.script != [] && s.script[0].Data? {
        AfterFailureOfRest(s.script, Room(Allocated(s)));
      }
    }
  }

  lemma AfterFailureOfRest(script: seq<ReadItem>, room: nat)
    requires script != [] && script[0].Data?
    ensures AfterFailure(Serve(script, room).rest) == AfterFailure(script)
  {
    var rest := Serve(script, room).rest;
    if rest != script[1..] {
      assert rest[1..] == script[1..];
    }
  }

  lemma {:induction false} SafeDrain(l: LoopV)
    requires LoopOk(l)
    ensures var d := Drain(l);
            && (Safe(l.out.script) ==> Safe(d.l.out.script) && (d.ret.Ok? ==> Bytes(d.l.out.script) == []))
            && (Safe(l.err.script) ==> Safe(d.l.err.script) && (d.ret.Ok? ==> Bytes(d.l.err.script) == []))
    decreases LoopWeight(l)
  {
    var i := Iterate(l);
    ReadUnlessEofKeeps(l.err);
    ReadUnlessEofKeeps(l.out);
    if Safe(l.out.script) { SafeRead(l.out); }
    if Safe(l.err.script) { SafeRead(l.err); }
    if !(i.retOut == 0 && i.retErr == 0) && !(i.retErr == EAGAIN && i.retOut == EAGAIN) {
      IterateShrinks(l);
      SafeDrain(i.l);
    }
  }

  lemma {:induction false} SafeDrive(l: LoopV)
    requires LoopOk(l) && l.stat == StatCmdRunning
    ensures var f := Drive(l);
            && LoopOk(f)
            && f.out.buf + Bytes(f.out.script) == l.out.buf + Bytes(l.out.script)
            && f.err.buf + Bytes(f.err.script) == l.err.buf + Bytes(l.err.script)
            && (f.stat == StatStreamsReaded && Safe(l.out.script) ==> Bytes(f.out.script) == [])
            && (f.stat == StatStreamsReaded && Safe(l.err.script) ==> Bytes(f.err.script) == [])
    decreases LoopWeight(l)
  {
    var d := Drain(l);
    DrainKeeps(l);
    SafeDrain(l);
    if d.ret.Again? && d.l.stat == StatCmdRunning {
      SafeDrive(d.l);
    }
  }

  function Swap(l: LoopV): LoopV {
    LoopV(l.stat, l.out, l.err)
  }

  /** The loop treats the two streams alike. */
  lemma {:induction false} DrainSwap(l: LoopV)
    ensures Drain(Swap(l)) == DrainV(Swap(Drain(l).l), Drain(l).ret)
    decreases LoopWeight(l)
  {
    var i := Iterate(l);
    assert Iterate(Swap(l)) == IterV(Swap(i.l), i.retOut, i.retErr);
    if !(i.retOut == 0 && i.retErr == 0) && !(i.retErr == EAGAIN && i.retOut == EAGAIN) {
      IterateShrinks(l);
      DrainSwap(i.l);
    }
  }

  /** With nothing on stderr, the loop stops at the first hard failure on stdout
      and reports the command as done all the same. */
  lemma {:induction false} DrainStopsAtFailure(l: LoopV)
    requires LoopOk(l) && l.err.script == [] && !l.out.eof
    ensures Drain(l).ret.Ok? && Drain(l).l.out.script == AfterFailure(l.out.script)
    decreases LoopWeight(l)
  {
    var i := Iterate(l);
    ReadUnlessEofKeeps(l.err);
    ReadUnlessEofKeeps(l.out);
    ReadKeepsStream(l.out);
    if !l.err.eof { ReadKeepsStream(l.err); }
    if l.out.script != [] && l.out.script[0].Data? {
      AfterFailureOfRest(l.out.script, Room(Allocated(l.out)));
    }
    if i.retOut != 0 {
      IterateShrinks(l);
      DrainStopsAtFailure(i.l);
    }
  }

  /** Exactly when a command reported as done has all its output: on every
      stderr behaviour of the server, a done command holds the whole remote
      stdout if and only if no byte follows a hard failure on stdout. A hard
      failure is otherwise masked: the ERROR it sets is overwritten. */
  lemma StdoutComplete(out: seq<ReadItem>)
    ensures (forall err :: var f := Drive(Started(err, out));
                           f.stat == StatStreamsReaded ==> f.out.buf == Bytes(out))
            <==> Bytes(AfterFailure(out)) == []
  {
    if Safe(out) {
      forall err ensures var f := Drive(Started(err, out));
                         f.stat == StatStreamsReaded ==> f.out.buf == Bytes(out)
      {
        var f := Drive(Started(err, out));
        SafeDrive(Started(err, out));
        assert f.stat == StatStreamsReaded ==> f.out.buf == f.out.buf + Bytes(f.out.script);
      }
    } else {
      var l := Started([], out);
      DrainStopsAtFailure(l);
      DrainKeeps(l);
      var f := Drive(l);
      assert |f.out.buf| + |Bytes(f.out.script)| == |Bytes(out)|;
      assert f.stat == StatStreamsReaded && f.out.buf != Bytes(out);
    }
  }

  /** The same for stderr. */
  lemma StderrComplete(err: seq<ReadItem>)
    ensures (forall out :: var f := Drive(Started(err, out));
                           f.stat == StatStreamsReaded ==> f.err.buf == Bytes(err))
            <==> Bytes(AfterFailure(err)) == []
  {
    if Safe(err) {
      forall out ensures var f := Drive(Started(err, out));
                         f.stat == StatStreamsReaded ==> f.err.buf == Bytes(err)
      {
        var f := Drive(Started(err, out));
        SafeDrive(Started(err, out));
        assert f.stat == StatStreamsReaded ==> f.err.buf == f.err.buf + Bytes(f.err.script);
      }
    } else {
      var l := Started([], err);
      DrainStopsAtFailure(l);
      DrainSwap(l);
      DrainKeeps(Swap(l));
      var f := Drive(Started(err, []));
      assert |f.err.buf| + |Bytes(f.err.script)| == |Bytes(err)|;
      assert f.stat == StatStreamsReaded && f.err.buf != Bytes(err);
    }
  }

  /** What the loop gets from a stream, answer by answer. Only the code -1 is
      read as EAGAIN (-37) or as 0, by whether libssh2 says EAGAIN; every failed
      read marks the task, and bytes and the end of the stream speak for
      themselves. */
  lemma ReadMeans(s: StreamV)
    requires StreamOk(s)
    ensures var r := ReadUnlessEof(s);
            if s.eof then r == ReadV(s, 0, false)
            else if s.script == [] then r.ret == 0 && !r.failed && r.s.eof && r.s.buf == s.buf
            else match s.script[0]
              case Data(bytes) => 0 < r.ret <= |bytes| && !r.failed && !r.s.eof && r.s.buf == s.buf + bytes[..r.ret]
              case Neg(code, again) =>
                && r.ret == (if code != -1 then code else if again then -37 else 0)
                && (r.failed <==> !again) && !r.s.eof && r.s.buf == s.buf && r.s.script == s.script[1..]
  {
    if !s.eof {
      ReadKeepsStream(s);
      RoomLeft(s);
    }
  }

  lemma RoomLeft(s: StreamV)
    requires StreamOk(s)
    ensures Room(Allocated(s)) > 0
  {
    ExactSize(|s.buf|, 0, Allocated(s).alloc);
  }

  // ---------------------------------------------------------------------------
  // Which commands get through

  /** What the n-th turn gets from a stream; it does not depend on the other. */
  function ResultAt(s: StreamV, n: nat): ReadV
    decreases n
  {
    if n == 0 then ReadUnlessEof(s) else ResultAt(ReadUnlessEof(s).s, n - 1)
  }

  /** Both streams give `ret` in turn `n`. */
  predicate BothGive(l: LoopV, n: nat, ret: int) {
    ResultAt(l.err, n).ret == ret && ResultAt(l.out, n).ret == ret
  }

  /** A read fails in turn `n`. */
  predicate FailsAt(l: LoopV, n: nat) {
    ResultAt(l.err, n).failed || ResultAt(l.out, n).failed
  }

  /** In turn `n` both streams ask to wait, some read has failed by then or the
      task was in ERROR before, and in no earlier turn have both given 0. */
  ghost predicate ExposedAt(l: LoopV, n: nat) {
    && BothGive(l, n, EAGAIN)
    && (l.stat == StatError || exists m: nat :: m <= n && FailsAt(l, m))
    && (forall k: nat :: k < n ==> !BothGive(l, k, 0))
  }

  /** No failed read is ever exposed by both streams asking to wait. */
  ghost predicate GetsThrough(l: LoopV) {
    forall n: nat :: !ExposedAt(l, n)
  }

  lemma FailsFirst(l: LoopV)
    ensures l.stat == StatError || FailsAt(l, 0) <==> Iterate(l).l.stat == StatError
    ensures forall ret :: BothGive(l, 0, ret) <==> Iterate(l).retErr == ret && Iterate(l).retOut == ret
    ensures forall n: nat, ret :: BothGive(Iterate(l).l, n, ret) == BothGive(l, n + 1, ret)
    ensures forall n: nat :: FailsAt(Iterate(l).l, n) == FailsAt(l, n + 1)
  {
  }

  /** Unless it ends the loop, a turn shifts what is exposed by one. */
  lemma ExposedShift(l: LoopV, n: nat)
    requires !BothGive(l, 0, 0)
    ensures ExposedAt(l, n + 1) <==> ExposedAt(Iterate(l).l, n)
  {
    hide BothGive;
    hide FailsAt;
    hide Iterate;
    var i := Iterate(l).l;
    FailsFirst(l);
    if ExposedAt(l, n + 1) {
      if i.stat != StatError {
        var m: nat :| m <= n + 1 && FailsAt(l, m);
        assert FailsAt(i, m - 1);
      }
      forall k: nat | k < n ensures !BothGive(i, k, 0) {
        assert !BothGive(l, k + 1, 0);
      }
    }
    if ExposedAt(i, n) {
      if l.stat != StatError && !FailsAt(l, 0) {
        var m: nat :| m <= n && FailsAt(i, m);
        assert FailsAt(l, m + 1);
      }
      forall k: nat | k < n + 1 ensures !BothGive(l, k, 0) {
        if k > 0 {
          assert !BothGive(i, k - 1, 0);
        }
      }
    }
  }

  lemma ThroughShift(l: LoopV)
    requires !BothGive(l, 0, 0)
    ensures GetsThrough(l) <==> !ExposedAt(l, 0) && GetsThrough(Iterate(l).l)
  {
    hide ExposedAt;
    hide Iterate;
    hide BothGive;
    forall n: nat ensures ExposedAt(l, n + 1) <==> ExposedAt(Iterate(l).l, n) {
      ExposedShift(l, n);
    }
    if !ExposedAt(l, 0) && GetsThrough(Iterate(l).l) {
      forall n: nat ensures !ExposedAt(l, n) {
        assert n > 0 ==> !ExposedAt(Iterate(l).l, n - 1);
      }
    }
  }

  lemma DriveTurn(l: LoopV)
    requires LoopOk(l)
    ensures var i := Iterate(l);
            && LoopOk(i.l)
            && (if i.retOut == 0 && i.retErr == 0 then Drive(l).stat == StatStreamsReaded
                else if i.retErr == EAGAIN && i.retOut == EAGAIN && i.l.stat != StatCmdRunning then Drive(l) == i.l
                else Drive(l) == Drive(i.l))
  {
    ReadUnlessEofKeeps(l.err);
    ReadUnlessEofKeeps(l.out);
  }

  /** Exactly when a running command is read to its end: when no failed read is
      exposed. A failed read is masked if from its turn on the two streams never
      both ask to wait before both give 0; otherwise the command ends in ERROR. */
  lemma {:induction false} ThroughIff(l: LoopV)
    requires LoopOk(l) && (l.stat == StatCmdRunning || l.stat == StatError)
    ensures Drive(l).stat == (if GetsThrough(l) then StatStreamsReaded else StatError)
    decreases LoopWeight(l)
  {
    hide Drive;
    hide LoopOk;
    var i := Iterate(l);
    DriveTurn(l);
    FailsFirst(l);
    IterateShrinks(l);
    if i.retOut == 0 && i.retErr == 0 {
      assert BothGive(l, 0, 0) && !BothGive(l, 0, EAGAIN);
    } else {
      ThroughShift(l);
      if i.retErr == EAGAIN && i.retOut == EAGAIN && i.l.stat == StatError {
        assert ExposedAt(l, 0);
      } else {
        assert !ExposedAt(l, 0);
        ThroughIff(i.l);
      }
    }
  }

  /** Both streams ask to wait, before both have given 0. */
  ghost predicate WaitsFor(l: LoopV) {
    exists n: nat :: WaitsAt(l, n)
  }

  ghost predicate WaitsAt(l: LoopV, n: nat) {
    BothGive(l, n, EAGAIN) && forall k: nat :: k < n ==> !BothGive(l, k, 0)
  }

  lemma WaitsShift(l: LoopV)
    requires !BothGive(l, 0, 0) && !BothGive(l, 0, EAGAIN)
    ensures WaitsFor(l) <==> WaitsFor(Iterate(l).l)
  {
    hide BothGive;
    hide Iterate;
    var i := Iterate(l).l;
    FailsFirst(l);
    if n: nat :| WaitsAt(l, n) {
      assert n > 0;
      forall k: nat | k < n - 1 ensures !BothGive(i, k, 0) {
        assert !BothGive(l, k + 1, 0);
      }
      assert WaitsAt(i, n - 1);
    }
    if n: nat :| WaitsAt(i, n) {
      forall k: nat | k < n + 1 ensures !BothGive(l, k, 0) {
        assert k > 0 ==> !BothGive(i, k - 1, 0);
      }
      assert WaitsAt(l, n + 1);
    }
  }

  /** Exactly when an activation goes back to waiting. */
  lemma {:induction false} DrainWaitsIff(l: LoopV)
    ensures Drain(l).ret == Again <==> WaitsFor(l)
    decreases LoopWeight(l)
  {
    var i := Iterate(l);
    FailsFirst(l);
    IterateShrinks(l);
    if i.retOut == 0 && i.retErr == 0 {
      assert BothGive(l, 0, 0) && !BothGive(l, 0, EAGAIN);
    } else if i.retErr == EAGAIN && i.retOut == EAGAIN {
      assert WaitsAt(l, 0);
    } else {
      WaitsShift(l);
      DrainWaitsIff(i.l);
    }
  }

  /** One hard failure on stdout before its last byte, nothing on stderr: the
      command counts as done and the byte is missing. */
  lemma MaskedFailure()
    ensures var f := Drive(Started([], [Neg(-1, false), Data([65])]));
            f.stat == StatStreamsReaded && f.out.buf == [] && f.out.script == [Data([65])]
  {
    var l := Started([], [Neg(-1, false), Data([65])]);
    assert Iterate(l).retErr == 0 && Iterate(l).retOut == 0;
  }

  const LATE_ERR: seq<ReadItem> := [Neg(EAGAIN, true), Neg(EAGAIN, true)]
  const LATE_OUT: seq<ReadItem> := [Neg(-1, false), Neg(EAGAIN, true), Data([65])]

  /** The same failure with both streams asking to wait behind it: ERROR. */
  lemma ExposedFailure()
    ensures var l := Started(LATE_ERR, LATE_OUT);
            && Drain(l).ret == Again && Drain(l).l.stat == StatError
            && Drive(l).stat == StatError && Drive(l).out.script == [Data([65])]
  {
    var l := Started(LATE_ERR, LATE_OUT);
    var m := Iterate(l).l;
    DriveTurn(l);
    DriveTurn(m);
  }

  /** No item of the script is a failure other than EAGAIN. */
  predicate Reliable(script: seq<ReadItem>) {
    forall i :: 0 <= i < |script| && script[i].Neg? ==> script[i].again
  }

  lemma ReliableRead(s: StreamV)
    requires StreamOk(s) && Reliable(s.script)
    ensures var r := ReadUnlessEof(s);
            && Reliable(r.s.script) && !r.failed
            && (r.ret == 0 ==> r.s.eof)
  {
    if !s.eof {
      ReadKeepsStream(s);
    }
  }

  lemma {:induction false} ReliableDrain(l: LoopV)
    requires LoopOk(l) && Reliable(l.err.script) && Reliable(l.out.script) && l.stat == StatCmdRunning
    ensures var d := Drain(l);
            && Reliable(d.l.err.script) && Reliable(d.l.out.script)
            && (d.ret.Ok? ==> d.l.err.eof && d.l.out.eof)
            && (d.ret.Again? ==> d.l.stat == StatCmdRunning)
    decreases LoopWeight(l)
  {
    var i := Iterate(l);
    ReadUnlessEofKeeps(l.err);
    ReadUnlessEofKeeps(l.out);
    ReliableRead(l.err);
    ReliableRead(l.out);
    if !(i.retOut == 0 && i.retErr == 0) && !(i.retErr == EAGAIN && i.retOut == EAGAIN) {
      IterateShrinks(l);
      ReliableDrain(i.l);
    }
  }

  /** Total correctness on a reliable connection: however the server splits and
      delays its output, the command ends as read with both streams at their end
      and both buffers holding the entire remote streams. */
  lemma {:induction false} ReliableDrive(l: LoopV)
    requires LoopOk(l) && Reliable(l.err.script) && Reliable(l.out.script) && l.stat == StatCmdRunning
    ensures var f := Drive(l);
            && f.stat == StatStreamsReaded && f.err.eof && f.out.eof
            && f.out.buf == l.out.buf + Bytes(l.out.script)
            && f.err.buf == l.err.buf + Bytes(l.err.script)
    decreases LoopWeight(l)
  {
    var d := Drain(l);
    DrainKeeps(l);
    ReliableDrain(l);
    if d.ret.Again? {
      ReliableDrive(d.l);
    }
  }
}
