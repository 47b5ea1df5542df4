/** pssh_copy_task_t as the program keeps it: one buffer of the file's size,
    filled in place (src/task.c:211-408). */
module CopyBuffers {
  import opened Base
  import opened Streams
  import opened Copying

  /** A loading result behind bytes already in the buffer. */
  function Behind(prefix: seq<byte>, l: LoadResult): LoadResult {
    match l
    case Loaded(bytes) => Loaded(prefix + bytes)
    case LoadFailed(partial) => LoadFailed(prefix + partial)
    case Stuck => Stuck
  }

  lemma BehindNothing(l: LoadResult)
    ensures Behind([], l) == l
  {
    if l.Loaded? {
      assert [] + l.bytes == l.bytes;
    } else if l.LoadFailed? {
      assert [] + l.partial == l.partial;
    }
  }

  /** What one more read(2) contributes. */
  lemma BehindOneMore(prefix: seq<byte>, answers: seq<FileRead>, want: nat)
    requires want > 0 && answers != [] && answers[0].Got?
    ensures var n := Min(|answers[0].bytes|, want);
            Behind(prefix, Load(answers, want)) == Behind(prefix + answers[0].bytes[..n], Load(answers[1..], want - n))
  {
    var n := Min(|answers[0].bytes|, want);
    var l := Load(answers[1..], want - n);
    var b := answers[0].bytes[..n];
    if l.Loaded? {
      assert prefix + (b + l.bytes) == prefix + b + l.bytes;
    } else if l.LoadFailed? {
      assert prefix + (b + l.partial) == prefix + b + l.partial;
    }
  }

  /** Where the loop ends, or goes round for ever. */
  lemma BehindLast(prefix: seq<byte>, answers: seq<FileRead>, want: nat)
    ensures want == 0 ==> Behind(prefix, Load(answers, want)) == Loaded(prefix)
    ensures want > 0 && answers == [] ==> Behind(prefix, Load(answers, want)) == Stuck
    ensures want > 0 && answers != [] && answers[0].ReadError? ==> Behind(prefix, Load(answers, want)) == LoadFailed(prefix)
  {
    assert prefix + [] == prefix;
  }

  lemma WholePrefix(s: seq<byte>, lo: nat, hi: nat)
    requires lo <= hi <= |s|
    ensures s[..|s|][lo..hi] == s[lo..hi]
  {
  }

  class CopyTask {
    const dir: Direction
    var data: array?<byte>
    var tcnt: nat
    var stSize: nat
    /** How much of `data` has been filled in. */
    ghost var filled: nat

    /** The surroundings: the local file to read, the server's answers, and the
        local file to write. */
    var files: seq<LocalFile>
    const announced: nat
    const save: Save
    var opens: seq<Attempt>
    var writes: seq<WriteItem>
    var incoming: seq<ReadItem>
    ghost var sent: seq<byte>
    ghost var saved: Option<seq<byte>>

    ghost predicate Valid()
      reads this, data
    {
      data != null ==> data.Length == stSize && filled <= stSize
    }

    ghost function View(): CopyV
      reads this, data
    {
      CopyV(dir, if data != null && filled <= data.Length then Some(data[..filled]) else None, tcnt, stSize,
            files, opens, announced, writes, incoming, sent, save, saved)
    }

    ghost function Footprint(): set<object>
      reads this
    {
      {this} + if data == null then {} else {data}
    }

    constructor (dir: Direction, files: seq<LocalFile>, announced: nat, save: Save,
                 opens: seq<Attempt>, writes: seq<WriteItem>, incoming: seq<ReadItem>)
      ensures Valid() && fresh(Footprint())
      ensures View() == CopyV(dir, None, 0, 0, files, opens, announced, writes, incoming, [], save, None)
    {
      this.dir, this.files, this.announced, this.save := dir, files, announced, save;
      this.opens, this.writes, this.incoming := opens, writes, incoming;
      data, tcnt, stSize, filled, sent, saved := null, 0, 0, 0, [], None;
    }

    /** Bytes a library call stores in the buffer from index `at` on. */
    method Store(at: nat, bytes: seq<byte>)
      requires data != null && at + |bytes| <= data.Length
      modifies data
      ensures data[..at + |bytes|] == old(data[..at]) + bytes
    {
      ghost var before := data[..at];
      forall i | 0 <= i < |bytes| {
        data[at + i] := bytes[i];
      }
      assert data[..at] == before;
    }

    /** The read loop. Behind the last answer every read returns 0; the loop
        then goes round for ever, which the result Hang stands for. */
    method ReadFile(answers: seq<FileRead>) returns (ok: bool, ret: Ret)
      requires data != null && data.Length == stSize
      modifies data, this`filled
      ensures filled <= stSize
      ensures ret == Ok || ret == Hang
      ensures Load(answers, stSize)
           == if ret == Hang then Stuck else if ok then Loaded(data[..filled]) else LoadFailed(data[..filled])
      ensures ok ==> filled == stSize
    {
      var nread := 0;
      var rest := answers;
      hide Load;
      hide Behind;
      assert data[..0] == [];
      BehindNothing(Load(answers, stSize));
      while nread < stSize
        invariant nread <= stSize == data.Length
        invariant Behind(data[..nread], Load(rest, stSize - nread)) == Load(answers, stSize)
        decreases |rest|
      {
        BehindLast(data[..nread], rest, stSize - nread);
        if rest == [] {
          filled := nread;
          return false, Hang;
        }
        if rest[0].ReadError? {
          filled := nread;
          return false, Ok;
        }
        var n := Min(|rest[0].bytes|, stSize - nread);
        BehindOneMore(data[..nread], rest, stSize - nread);
        Store(nread, rest[0].bytes[..n]);
        nread := nread + n;
        rest := rest[1..];
      }
      BehindLast(data[..nread], rest, 0);
      filled := nread;
      return true, Ok;
    }

    /** The `cp->data == NULL` branch of pssh_task_get_send_channel. If it never
        returns, the task is left as it was. */
    method LoadSnapshot() returns (failed: bool, ret: Ret)
      requires Valid() && data == null
      modifies this
      ensures Valid() && (data == null || fresh(data))
      ensures ret == Ok || ret == Hang
      ensures LoadStep(View(), ret, failed) == TakeSnapshot(old(View()))
    {
      if files == [] {
        return true, Ok;
      }
      var file := files[0];
      var before := stSize;
      files := files[1..];
      if !file.statOk {
        return true, Ok;
      }
      stSize := file.size;
      if !file.openOk {
        return true, Ok;
      }
      data := new byte[stSize];
      filled := 0;
      var ok;
      ok, ret := ReadFile(file.answers);
      if ret == Hang {
        data, stSize, files := null, before, [file] + files;
        return true, Hang;
      }
      if !ok {
        return true, Ok;
      }
      tcnt := 0;
      failed := false;
    }

    /** libssh2_scp_send or libssh2_scp_recv and the tests behind it. */
    method Open() returns (stat: TaskStat, chan: Chan, ret: Ret)
      requires Valid() && (dir.FromServ? ==> data == null)
      modifies this`opens, this`stSize
      ensures Valid() && CopyStep(stat, chan, View(), ret) == OpenScp(old(View()))
    {
      if opens == [] {
        if dir.FromServ? {
          stSize := announced;
        }
        return StatChannelReady, OpenChan, Ok;
      }
      var first := opens[0];
      opens := opens[1..];
      if first.TryAgain? {
        return StatStart, NoChan, Again;
      }
      return StatError, NoChan, Ok;
    }

    /** pssh_task_get_scp_channel. */
    method GetScpChannel(before: Chan) returns (stat: TaskStat, chan: Chan, ret: Ret)
      requires Valid() && (dir.FromServ? ==> data == null)
      modifies this
      ensures Valid() && (data == old(data) || fresh(data))
      ensures CopyStep(stat, chan, View(), ret) == Copying.GetScpChannel(before, old(View()))
    {
      if dir.ToServ? && data == null {
        var failed;
        failed, ret := LoadSnapshot();
        if ret == Hang {
          return StatStart, before, Hang;
        }
        if failed {
          return StatError, before, Ok;
        }
      }
      stat, chan, ret := Open();
    }

    /** pssh_task_send_data. */
    method SendData() returns (stat: TaskStat, ret: Ret)
      requires Valid() && data != null && filled == stSize && tcnt <= stSize
      modifies this`tcnt, this`writes, this`sent
      ensures Valid()
      ensures forall chan :: CopyStep(stat, chan, View(), ret) == Copying.SendData(chan, old(View()))
    {
      var len := stSize - tcnt;
      if len > CHUNK {
        len := CHUNK;
      }
      var n := len;
      if writes != [] {
        var first := writes[0];
        writes := writes[1..];
        match first
        case NotWritten(again) =>
          if again {
            return StatChannelReady, Again;
          }
          return StatError, Ok;
        case Accept(most) =>
          n := Min(most, len);
      }
      WholePrefix(data[..], tcnt, tcnt + n);
      sent := sent + data[tcnt..tcnt + n];
      tcnt := tcnt + n;
      if tcnt == stSize {
        return StatDataTransfer, Ok;
      }
      return StatChannelReady, Ok;
    }

    /** libssh2_channel_read into the free part of the buffer. */
    method ChannelRead() returns (ret: int)
      requires Valid() && data != null && filled == tcnt <= stSize
      modifies data, this`incoming, this`filled
      ensures Valid()
      ensures var r := Serve(old(incoming), stSize - tcnt);
              && ret == r.ret && View() == Received(old(View()), r).(tcnt := tcnt)
              && filled == tcnt + |r.got|
    {
      var r := Ask(stSize - tcnt);
      Store(tcnt, r.got);
      filled := filled + |r.got|;
      ret := r.ret;
    }

    /** The server's side of the read. */
    method Ask(room: nat) returns (r: Reply)
      modifies this`incoming
      ensures r == Serve(old(incoming), room) && incoming == r.rest
      ensures |r.got| <= room && (r.ret >= 0 ==> r.ret == |r.got|)
    {
      ServeConserves(incoming, room);
      r := Serve(incoming, room);
      incoming := r.rest;
    }

    /** Opening, writing and closing the local file. */
    method WriteFile() returns (ok: bool)
      requires Valid() && data != null && filled == stSize
      modifies this`saved
      ensures Valid()
      ensures View() == SaveFile(old(View())) && (ok <==> SaveSucceeds(save, stSize))
    {
      if save.OpenFails? {
        return false;
      }
      var n := if save.n < 0 then 0 else Min(save.n, stSize);
      assert data[..filled][..n] == data[..n];
      saved := Some(data[..n]);
      ok := save.n == stSize && save.closeOk;
    }

    /** pssh_task_recv_data. */
    method RecvData() returns (stat: TaskStat, ret: Ret)
      requires Valid() && tcnt <= stSize && (data != null ==> filled == tcnt) && (data == null ==> tcnt == 0)
      modifies this, data
      ensures Valid() && (data == old(data) || fresh(data))
      ensures forall chan :: CopyStep(stat, chan, View(), ret) == Copying.RecvData(chan, old(View()))
    {
      if data == null {
        data := new byte[stSize];
        filled := 0;
        tcnt := 0;
      }
      assert View() == WithBuffer(old(View()));
      ServeConserves(incoming, stSize - tcnt);
      hide Serve;
      var n := ChannelRead();
      if n == EAGAIN {
        return StatChannelReady, Again;
      } else if n < 0 {
        return StatError, Ok;
      }
      tcnt := tcnt + n;
      if tcnt == stSize {
        var ok := WriteFile();
        return if ok then StatDataTransfer else StatError, Ok;
      }
      return StatChannelReady, Ok;
    }

    /** pssh_task_cleanup_copy. */
    method Cleanup() returns (stat: TaskStat, chan: Chan, ret: Ret)
      modifies this`data
      ensures Valid() && data == null
      ensures forall before :: CopyStep(stat, chan, View(), ret) == CleanupCopy(before, old(View()))
    {
      data := null;
      return StatDone, NoChan, Ok;
    }
  }
}
