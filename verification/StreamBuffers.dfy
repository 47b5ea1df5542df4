/** pssh_exec_stream_t as the program keeps it: an allocated buffer that is
    filled in place and reallocated block by block (src/task.c:499-576). */
module StreamBuffers {
  import opened Base
  import opened Streams

  class Stream {
    var data: array?<byte>
    var alloc: nat
    var len: nat
    var eof: bool
    /** What the server will still answer on this stream. */
    var script: seq<ReadItem>
    ghost var asked: nat

    /** The C fields describe one block of memory. */
    ghost predicate Shape()
      reads this, data
    {
      if data == null then len == 0 else data.Length == alloc && len <= alloc
    }

    ghost predicate Valid()
      reads this, data
    {
      Shape() && StreamOk(View())
    }

    ghost function View(): StreamV
      reads this, data
    {
      StreamV(data != null, if data != null && len <= data.Length then data[..len] else [], alloc, eof, script, asked)
    }

    /** The memory the stream owns. */
    ghost function Footprint(): set<object>
      reads this
    {
      {this} + if data == null then {} else {data}
    }

    constructor (script: seq<ReadItem>)
      ensures Valid() && View() == FreshStream(script) && fresh(Footprint())
    {
      data, alloc, len, eof, asked := null, 0, 0, false, 0;
      this.script := script;
    }

    /** libssh2_channel_read_ex: at most `room` bytes, stored from index `len`. */
    method ChannelRead(room: nat) returns (ret: int, again: bool)
      requires data != null && len + room == data.Length
      modifies this`script, this`asked, data
      ensures var r := Serve(old(script), room);
              && ret == r.ret && again == r.again && script == r.rest
              && (ret >= 0 ==> len + ret <= data.Length && data[len..len + ret] == r.got)
      ensures data[..len] == old(data[..len]) && asked == old(asked) + 1
    {
      ServeConserves(script, room);
      var r := Serve(script, room);
      ret, again, script, asked := r.ret, r.again, r.rest, asked + 1;
      forall i | 0 <= i < |r.got| {
        data[len + i] := r.got[i];
      }
    }

    /** pssh_task_read_stream. `failed` stands for its assignment of ERROR to
        the task. */
    method Read() returns (ret: int, failed: bool)
      requires Valid() && !eof
      modifies this, data
      ensures Valid()
      ensures ReadV(View(), ret, failed) == ReadStream(old(View()))
      ensures data != null && (data == old(data) || fresh(data))
    {
      ReadKeepsStream(View());
      Allocate();
      ret, failed := Fill();
    }

    /** The part of pssh_task_read_stream after the first allocation. */
    method Fill() returns (ret: int, failed: bool)
      requires Shape() && data != null && len < alloc
      modifies this, data
      ensures Shape() && data != null && (data == old(data) || fresh(data))
      ensures ReadV(View(), ret, failed) == ReadStream(old(View()))
    {
      failed := false;
      ServeConserves(script, alloc - len);
      hide Serve;
      var again;
      ret, again := ChannelRead(alloc - len);
      if ret < 0 {
        if !again {
          failed := true;
        }
      } else if ret == 0 {
        eof := true;
      } else {
        Keep(ret);
      }
    }

    /** `ret` more bytes have been stored behind the first `len`. */
    method Keep(ret: nat)
      requires Shape() && data != null && len + ret <= alloc
      modifies this`data, this`alloc, this`len
      ensures Shape() && data != null && (data == old(data) || fresh(data))
      ensures var buf := old(data[..len] + data[len..len + ret]);
              View() == old(View()).(buf := buf, alloc := if |buf| == old(alloc) then old(alloc) + ALLOC_SIZE else old(alloc))
    {
      assert data[..len + ret] == data[..len] + data[len..len + ret];
      len := len + ret;
      if len == alloc {
        Grow();
      }
    }

    /** The first read allocates the first block. */
    method Allocate()
      requires Valid()
      modifies this`data, this`alloc, this`len
      ensures data != null && data.Length == alloc && len < alloc
      ensures View() == Allocated(old(View()))
      ensures data == old(data) || fresh(data)
    {
      if data == null {
        data := new byte[ALLOC_SIZE];
        alloc, len := ALLOC_SIZE, 0;
      } else {
        ExactSize(len, 0, alloc);
      }
    }

    /** xrealloc by one block. */
    method Grow()
      requires data != null && data.Length == alloc && len == alloc
      modifies this`data, this`alloc
      ensures fresh(data) && data != null && data.Length == alloc == old(alloc) + ALLOC_SIZE
      ensures data[..len] == old(data[..len])
    {
      var bigger := new byte[alloc + ALLOC_SIZE];
      forall i | 0 <= i < len {
        bigger[i] := data[i];
      }
      assert bigger[..len] == data[..len];
      data, alloc := bigger, alloc + ALLOC_SIZE;
    }

    /** pssh_task_read_stdout and pssh_task_read_stderr differ only in the
        stream they are given. */
    method ReadWrapped() returns (ret: int, failed: bool)
      requires Valid() && !eof
      modifies this, data
      ensures Valid()
      ensures ReadV(View(), ret, failed) == Streams.ReadWrapped(old(View()))
      ensures data != null && (data == old(data) || fresh(data))
    {
      ret, failed := Read();
      if ret == -1 {
        ret := if failed then 0 else EAGAIN;
      }
    }
  }
}
