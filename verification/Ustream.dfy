/** libubox/ustream.c: buffered streams. */
module Ustream {
  import opened StreamBuffers

  /** ustream_buf_list: the linked buffers are a list, in which data_tail is the place of one. */
  class BufList {
    var bufs: seq<Buf>
    var dataTail: nat
    var dataBytes: int
    var buffers: int
    const minBuffers: int
    const maxBuffers: int
    const bufferLen: nat

    constructor (minBuffers: int, maxBuffers: int, bufferLen: nat)
      requires bufferLen > 0
      ensures Valid() && bufs == [] && this.minBuffers == minBuffers && this.maxBuffers == maxBuffers
        && this.bufferLen == bufferLen
    {
      bufs, dataTail, dataBytes, buffers := [], 0, 0, 0;
      this.minBuffers, this.maxBuffers, this.bufferLen := minBuffers, maxBuffers, bufferLen;
    }

    /** All but the count of bytes */
    ghost predicate Good()
      reads this
    {
      Shape(bufs, dataTail) && buffers == |bufs| && bufferLen > 0 && (maxBuffers > 0 ==> buffers <= maxBuffers)
    }

    ghost predicate Valid()
      reads this
    {
      Good() && dataBytes == |Bytes(bufs)|
    }

    /** The data in order */
    ghost function Contents(): seq<Byte>
      reads this
      requires Good()
    {
      Bytes(bufs)
    }

    predicate CanAlloc()
      reads this
    {
      maxBuffers <= 0 || buffers < maxBuffers
    }

    /** No byte more fits in. */
    ghost predicate Full()
      reads this
    {
      bufs != [] && dataTail == |bufs| - 1 && bufs[dataTail].tail == |bufs[dataTail].mem| && !CanAlloc()
    }

    /** ustream_add_buf */
    method AddBuf(buf: Buf)
      requires Good() && CanAlloc() && buf.Ok() && buf.tail == 0
      modifies this`bufs, this`buffers
      ensures Good() && bufs == old(bufs) + [buf] && Contents() == old(Contents())
    {
      ShapeGrown(bufs, dataTail, buf);
      buffers := buffers + 1;
      bufs := bufs + [buf];
    }

    /** ustream_alloc_default */
    method Alloc() returns (ok: bool)
      requires Good()
      modifies this`bufs, this`buffers
      ensures Good() && ok == old(CanAlloc()) && Contents() == old(Contents())
      ensures bufs == if ok then old(bufs) + [NewBuf(bufferLen)] else old(bufs)
    {
      if !CanAlloc() {
        return false;
      }
      AddBuf(NewBuf(bufferLen));
      return true;
    }

    /** ustream_free_buf, as it is called: for the first buffer. It is freed or, when few are left, starts over behind
        the others. */
    method FreeBuf()
      requires Good() && bufs != []
      modifies this`bufs, this`buffers, this`dataTail
      ensures Good() && Contents() == Bytes(old(bufs)[1..])
      ensures |bufs| == if old(buffers) - 1 >= minBuffers then old(|bufs|) - 1 else old(|bufs|)
    {
      var buf := bufs[0];
      ShapeTail(bufs, dataTail);
      bufs := bufs[1..];
      if dataTail != 0 {
        dataTail := dataTail - 1;
      }
      buffers := buffers - 1;
      if buffers >= minBuffers {
        return;
      }
      AddBuf(Restarted(buf));
    }

    /** The loop of ustream_consume: bytes are taken from the front. */
    method TakeOff(len: nat)
      requires Good() && len <= |Contents()|
      modifies this`bufs, this`buffers, this`dataTail
      ensures Good() && Contents() == old(Contents()[len..])
    {
      var left := len;
      ghost var rest := Contents()[len..];
      while left > 0
        invariant Good() && 0 <= left <= |Contents()|
        invariant Contents()[left..] == rest
      {
        FirstHasData(bufs, dataTail);
        var buf := bufs[0];
        var bufLen := buf.tail - buf.data;
        if left < bufLen {
          BytesFirst(bufs, left);
          bufs := bufs[0 := buf.(data := buf.data + left)];
          return;
        }
        BytesRest(bufs);
        DropTwice(Contents(), bufLen, left);
        left := left - bufLen;
        FreeBuf();
      }
    }

    /** ustream_should_move */
    function ShouldMove(buf: Buf, last: bool, len: int): bool
      reads this
      requires buf.Ok()
    {
      var maxlen, offset := |buf.mem|, buf.data;
      if offset == 0 then false
      else if offset > maxlen / 2 then true
      else if buf.tail - buf.data < 32 && offset > maxlen / 4 then true
      else if !last || CanAlloc() then false
      else |buf.mem| - buf.tail < len
    }

    /** ustream_prepare_buf: on success there is room behind the data, else there is none. */
    method PrepareBuf(len: int) returns (ok: bool)
      requires Good()
      modifies this`bufs, this`buffers, this`dataTail
      ensures Good() && Contents() == old(Contents())
      ensures ok ==> bufs != [] && bufs[dataTail].tail < |bufs[dataTail].mem|
      ensures !ok ==> Full()
    {
      hide Moved, Bytes;
      if bufs != [] {
        var buf := bufs[dataTail];
        if ShouldMove(buf, dataTail == |bufs| - 1, len) {
          BytesLast(bufs, dataTail, Moved(buf));
          bufs := bufs[dataTail := Moved(buf)];
          buf := Moved(buf);
        }
        if buf.tail != |buf.mem| {
          return true;
        }
        if dataTail + 1 < |bufs| {
          dataTail := dataTail + 1;
          return true;
        }
      }
      ok := Alloc();
      if ok {
        dataTail := |bufs| - 1;
      }
    }

    /** The loop of ustream_fill_read: what is in the memory behind the data counts as data. */
    method Fill(len: nat)
      requires Good() && bufs != [] && len <= |Free(bufs[dataTail..])|
      modifies this`bufs, this`dataTail
      ensures Good() && Contents() == old(Contents() + Free(bufs[dataTail..])[..len])
    {
      hide Bytes, Free, Filled;
      var i: nat, left: nat, more := dataTail, len, true;
      ghost var total := Contents() + Free(bufs[dataTail..])[..len];
      while more
        invariant Good() && i <= |bufs| && AllOk(bufs[i..])
        invariant left <= |Free(bufs[i..])| && Contents() + Free(bufs[i..])[..left] == total
        invariant more ==>
            && i < |bufs|
            && (i == dataTail || (i == dataTail + 1 && bufs[dataTail].data < bufs[dataTail].tail && left > 0))
        invariant !more ==> left == 0
        decreases more, |bufs| - i
      {
        FillStep(bufs, dataTail, i, left);
        var buf := bufs[i];
        var maxlen := |buf.mem| - buf.tail;
        if left < maxlen {
          maxlen := left;
        }
        assert maxlen == Share(buf, left);
        left := left - maxlen;
        bufs := bufs[i := Filled(buf, maxlen)];
        dataTail := i;
        i := i + 1;
        more := left > 0;
      }
      assert Free(bufs[i..])[..0] == [];
    }
  }

  /** What the backend was offered, and what it answered */
  datatype Call = Call(offer: seq<Byte>, reply: int)

  /** What takes the written bytes. How much of each piece it takes, or that it fails, is up to it. */
  class Backend {
    var answers: seq<int>
    var out: seq<Byte>
    ghost var calls: seq<Call>

    constructor (answers: seq<int>)
      ensures this.answers == answers && out == [] && calls == []
    {
      this.answers, out, calls := answers, [], [];
    }

    /** s->write */
    method Write(data: seq<Byte>) returns (wr: int)
      modifies this
      ensures -1 <= wr <= |data| && out == old(out) + if wr > 0 then data[..wr] else []
      ensures calls == old(calls) + [Call(data, wr)]
    {
      wr := 0;
      if answers != [] {
        wr := if answers[0] < 0 then -1 else if answers[0] < |data| then answers[0] else |data|;
        answers := answers[1..];
      }
      if wr > 0 {
        out := out + data[..wr];
      }
      calls := calls + [Call(data, wr)];
    }

    /** Its last answer was that it takes less than it was offered. */
    ghost predicate Short()
      reads this
    {
      calls != [] && calls[|calls|-1].reply < |calls[|calls|-1].offer|
    }

    /** Its last answer was that it fails. */
    ghost predicate Failed()
      reads this
    {
      calls != [] && calls[|calls|-1].reply < 0
    }
  }

  class Stream {
    const r: BufList
    const w: BufList
    const backend: Backend
    var writeError: bool
    /** READ_BLOCKED_FULL in read_blocked */
    var blockedFull: bool

    constructor (r: BufList, w: BufList, backend: Backend)
      requires r != w && r.Valid() && w.Valid()
      ensures Valid() && this.r == r && this.w == w && this.backend == backend && !writeError
    {
      this.r, this.w, this.backend := r, w, backend;
      writeError, blockedFull := false, false;
    }

    ghost predicate Valid()
      reads this, r, w
    {
      r != w && r.Valid() && w.Valid()
    }

    /** ustream_consume, of no more than there is */
    method Consume(len: nat)
      requires Valid() && len <= |r.Contents()|
      modifies r, this`blockedFull
      ensures Valid() && r.Contents() == old(r.Contents()[len..]) && (len > 0 ==> !blockedFull)
    {
      if len == 0 {
        return;
      }
      r.dataBytes := r.dataBytes - len;
      r.TakeOff(len);
      blockedFull := false;
    }

    /** ustream_reserve: how much memory there is behind the data of the last buffer that has any */
    method Reserve(len: int) returns (maxlen: nat)
      requires Valid()
      modifies r, this`blockedFull
      ensures Valid() && r.Contents() == old(r.Contents())
      ensures if maxlen == 0 then r.Full() && blockedFull
        else r.bufs != [] && maxlen == |r.bufs[r.dataTail].Free()| <= |Free(r.bufs[r.dataTail..])|
    {
      var ok := r.PrepareBuf(len);
      if !ok {
        blockedFull := true;
        return 0;
      }
      var buf := r.bufs[r.dataTail];
      FreeAt(r.bufs, r.dataTail);
      return |buf.mem| - buf.tail;
    }

    /** ustream_fill_read, of no more than there is memory */
    method FillRead(len: nat)
      requires Valid() && r.bufs != [] && len <= |Free(r.bufs[r.dataTail..])|
      modifies r
      ensures Valid() && r.Contents() == old(r.Contents() + Free(r.bufs[r.dataTail..])[..len])
    {
      r.dataBytes := r.dataBytes + len;
      r.Fill(len);
    }

    /** What a reader does between the two: the memory gets some bytes. */
    method Receive(data: seq<Byte>) returns (n: nat)
      requires Valid()
      modifies r, this`blockedFull
      ensures Valid() && n <= |data| && r.Contents() == old(r.Contents()) + data[..n]
      ensures n == 0 && data != [] ==> r.Full()
    {
      hide Bytes;
      n := Reserve(1);
      if n == 0 {
        return;
      }
      if |data| < n {
        n := |data|;
      }
      ghost var before := r.Contents();
      var k := r.dataTail;
      var buf := r.bufs[k];
      var stored := Stored(buf, data[..n]);
      BytesLast(r.bufs, k, stored);
      r.bufs := r.bufs[k := stored];
      StoredFree(r.bufs, k, data[..n]);
      FillRead(n);
    }

    /** ustream_get_read_buf */
    method GetReadBuf() returns (chunk: seq<Byte>)
      requires Valid()
      ensures chunk <= r.Contents() && (r.Contents() != [] ==> chunk != [])
    {
      chunk := [];
      if r.bufs != [] {
        if r.Contents() != [] { FirstHasData(r.bufs, r.dataTail); }
        chunk := r.bufs[0].Bytes();
      }
    }

    /** ustream_read: the caller gets the first bytes, as many as there are and fit. */
    method Read(buf: array<Byte>, buflen: nat) returns (len: nat)
      requires Valid() && buflen <= buf.Length
      modifies r, this`blockedFull, buf
      ensures Valid() && len == (if buflen < old(|r.Contents()|) then buflen else old(|r.Contents()|))
      ensures buf[..len] == old(r.Contents()[..len]) && r.Contents() == old(r.Contents()[len..])
    {
      hide Bytes, Shape;
      len := 0;
      ghost var all := r.Contents();
      var more := true;
      while more
        invariant Valid() && len <= buflen && len <= |all| && buf[..len] == all[..len] && r.Contents() == all[len..]
        invariant !more ==> len == buflen || len == |all|
        decreases more, |all| - len
      {
        var chunk := GetReadBuf();
        if chunk == [] {
          break;
        }
        var chunkLen := |chunk|;
        if chunkLen > buflen - len {
          chunkLen := buflen - len;
        }
        forall i | 0 <= i < chunkLen {
          buf[len + i] := chunk[i];
        }
        Copied(all, len, chunk, chunkLen, buf[..len + chunkLen]);
        Consume(chunkLen);
        len := len + chunkLen;
        more := len < buflen;
      }
    }

    /** ustream_write_error */
    method WriteError()
      modifies this`writeError
      ensures writeError
    {
      writeError := true;
    }

    /** One turn of the loop of ustream_write_pending: the first buffer is offered to the backend. */
    method WriteFirst() returns (more: bool)
      requires Valid() && !writeError && w.Contents() != []
      modifies w, backend, this`writeError
      ensures Valid() && backend.out + w.Contents() == old(backend.out + w.Contents())
      ensures old(w.bufs) != []
        && exists wr: int :: backend.calls == old(backend.calls) + [Call(old(w.bufs[0].Bytes()), wr)]
      ensures writeError == backend.Failed()
      ensures if more then !writeError && |w.Contents()| < old(|w.Contents()|)
        else backend.Short() && w.Contents() != []
    {
      hide Bytes;
      NoData(w.bufs);
      FirstHasData(w.bufs, w.dataTail);
      BytesRest(w.bufs);
      var buf := w.bufs[0];
      var maxlen := buf.tail - buf.data;
      ghost var out, contents := backend.out, w.Contents();
      var len := backend.Write(buf.Bytes());
      if len < 0 {
        WriteError();
        return false;
      }
      if len == 0 {
        return false;
      }
      TakeSome(out, contents, buf.Bytes(), len);
      w.dataBytes := w.dataBytes - len;
      if len < maxlen {
        BytesFirst(w.bufs, len);
        w.bufs := w.bufs[0 := buf.(data := buf.data + len)];
        return false;
      }
      w.FreeBuf();
      return true;
    }

    /** ustream_write_pending: bytes go from the buffers to the backend, in order, until it takes less than it is
        offered. */
    method WritePending() returns (empty: bool)
      requires Valid()
      modifies w, backend, this`writeError
      ensures Valid() && backend.out + w.Contents() == old(backend.out + w.Contents())
      ensures old(writeError) ==> !empty && backend.calls == old(backend.calls) && writeError
      ensures !old(writeError) ==> empty == (w.Contents() == []) && (!empty ==> backend.Short())
      ensures !old(writeError) ==> writeError == (old(w.Contents()) != [] && backend.Failed())
      ensures old(!writeError && w.Contents() != []) ==>
        |backend.calls| > |old(backend.calls)| && backend.calls[|old(backend.calls)|].offer == old(w.bufs[0].Bytes())
    {
      hide Bytes, Shape;
      if writeError {
        return false;
      }
      ghost var asked := |backend.calls|;
      var more := true;
      HasData();
      while more && w.bufs != [] && w.dataBytes != 0
        invariant Valid() && backend.out + w.Contents() == old(backend.out + w.Contents())
        invariant |backend.calls| >= asked
        invariant |backend.calls| == asked ==> w.bufs == old(w.bufs) && more && !writeError
        invariant |backend.calls| > asked ==>
          && old(w.Contents()) != [] && writeError == backend.Failed()
          && backend.calls[asked].offer == old(w.bufs[0].Bytes())
        invariant if more then !writeError else backend.Short() && w.Contents() != []
        decreases more, |w.Contents()|
      {
        more := WriteFirst();
      }
      HasData();
      return w.dataBytes == 0;
    }

    lemma HasData()
      requires Valid()
      ensures w.bufs == [] ==> w.Contents() == []
      ensures w.dataBytes != 0 <==> w.Contents() != []
      ensures w.Contents() != [] ==> w.bufs != [] && w.bufs[0].Ok()
    {
    }

    /** ustream_write_buffered: bytes are appended until nothing fits. */
    method WriteBuffered(data: seq<Byte>) returns (wr: nat)
      requires Valid()
      modifies w
      ensures Valid() && wr <= |data| && w.Contents() == old(w.Contents()) + data[..wr]
      ensures wr < |data| ==> w.Full()
    {
      hide Bytes;
      wr := 0;
      ghost var before := w.Contents();
      while wr < |data|
        invariant Valid() && wr <= |data| && w.Contents() == before + data[..wr]
      {
        var ok := w.PrepareBuf(|data| - wr);
        if !ok {
          break;
        }
        var k := w.dataTail;
        var buf := w.bufs[k];
        var maxlen := |buf.mem| - buf.tail;
        if maxlen > |data| - wr {
          maxlen := |data| - wr;
        }
        var piece := data[wr..wr + maxlen];
        BytesAppended(w.bufs, k, piece);
        w.bufs := w.bufs[k := Appended(buf, piece)];
        TakeNext(data, wr, maxlen);
        wr := wr + maxlen;
        w.dataBytes := w.dataBytes + maxlen;
      }
    }

    /** ustream_write: what has gone to the backend, followed by what is buffered, grows by what is accepted. */
    method Write(data: seq<Byte>) returns (wr: int)
      requires Valid()
      modifies w, backend, this`writeError
      ensures Valid() && -1 <= wr <= |data|
      ensures backend.out + w.Contents() == old(backend.out + w.Contents()) + if wr > 0 then data[..wr] else []
      ensures if old(!writeError && w.Contents() == []) then
          |backend.calls| == |old(backend.calls)| + 1 && backend.calls[|old(backend.calls)|].offer == data
        else backend.calls == old(backend.calls)
      ensures old(writeError) ==> wr == 0
      ensures writeError == (old(writeError) || wr == -1)
        && (wr == -1 <==> old(!writeError && w.Contents() == []) && backend.Failed())
      ensures 0 <= wr < |data| ==> old(writeError) || w.Full()
    {
      hide Bytes, Shape;
      if writeError {
        return 0;
      }
      wr := 0;
      if w.dataBytes == 0 {
        wr := backend.Write(data);
        if wr == |data| {
          return wr;
        }
        if wr < 0 {
          WriteError();
          return wr;
        }
      }
      ghost var direct := wr;
      var more := WriteBuffered(data[wr..]);
      TakeNext(data, direct, more);
      wr := wr + more;
    }
  }
}
