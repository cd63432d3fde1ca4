/** The synchronous loops and the asynchronous callback chains that transfer a whole buffer in short pieces. */
module Transfers {
  import opened Asio
  import opened Streams
  import opened Sockets

  // ----- writing

  /**
   * What a transfer of `buf` that stopped after `total` bytes with `ec` has put on the wire. With `ec == Success` this
   * is what the one-shot write does.
   */
  predicate Written(before: string, after: string, buf: string, total: nat, ec: ErrorCode) {
    total <= |buf| && after == before + buf[..total] && (ec == Success <==> total == |buf|)
  }

  /** The synchronous loop; an error leaves it as an exception. */
  method WriteToSocket(sock: Socket, buf: string) returns (ec: ErrorCode, totalBytesWritten: nat)
    modifies sock`sent
    ensures Written(old(sock.sent), sock.sent, buf, totalBytesWritten, ec)
  {
    totalBytesWritten := 0;
    while totalBytesWritten != |buf|
      invariant totalBytesWritten <= |buf| && sock.sent == old(sock.sent) + buf[..totalBytesWritten]
      decreases |buf| - totalBytesWritten
    {
      var n;
      ec, n := sock.WriteSome(buf[totalBytesWritten..]);
      if ec != Success {
        return;
      }
      totalBytesWritten := totalBytesWritten + n;
    }
    ec := Success;
  }

  /** The asynchronous chain: a session shared by the callbacks of its successive `async_write_some` operations. */
  class WriteSession {
    const sock: Socket
    const buf: string
    var totalBytesWritten: nat
    var outstanding: bool            // an async_write_some of the rest of the buffer is outstanding
    var reported: ErrorCode          // the error the chain stopped with
    ghost const before: string

    /** At every moment, also after an error, the wire holds exactly the counted prefix of the buffer. */
    ghost predicate Valid()
      reads this, sock
    {
      && totalBytesWritten <= |buf| && sock.sent == before + buf[..totalBytesWritten]
      && (outstanding ==> reported == Success && (totalBytesWritten < |buf| || buf == ""))
      && (!outstanding ==> Written(before, sock.sent, buf, totalBytesWritten, reported))
    }

    /** `writeToSocket`. */
    constructor (sock: Socket, buf: string)
      ensures Valid() && this.sock == sock && this.buf == buf && before == sock.sent && outstanding
    {
      this.sock, this.buf, this.before := sock, buf, sock.sent;
      totalBytesWritten, outstanding, reported := 0, true, Success;
    }

    /** `callback`. */
    method Callback(ec: ErrorCode, bytesTransferred: nat)
      requires !outstanding && reported == Success && totalBytesWritten + bytesTransferred <= |buf|
      requires sock.sent == before + buf[..totalBytesWritten + bytesTransferred]
      requires ec != Success ==> bytesTransferred == 0 && totalBytesWritten < |buf|
      modifies this
      ensures Valid() && totalBytesWritten == old(totalBytesWritten) + bytesTransferred
      ensures outstanding <==> ec == Success && totalBytesWritten < |buf|
      ensures reported == ec
    {
      reported := ec;
      if ec != Success {
        return;
      }
      totalBytesWritten := totalBytesWritten + bytesTransferred;
      if totalBytesWritten == |buf| {
        return;
      }
      outstanding := true;
    }

    /** The io_service completes the outstanding operation and runs its callback. */
    method Complete()
      requires Valid() && outstanding
      modifies this, sock`sent
      ensures Valid()
      ensures totalBytesWritten >= old(totalBytesWritten)
      ensures outstanding ==> totalBytesWritten > old(totalBytesWritten)
    {
      var ec, n := sock.WriteSome(buf[totalBytesWritten..]);
      outstanding := false;
      Callback(ec, n);
    }

    /** `io_service::run`: the chain ends, and has done exactly what the synchronous loop does. */
    method Run()
      requires Valid()
      modifies this, sock`sent
      ensures !outstanding && Written(before, sock.sent, buf, totalBytesWritten, reported)
    {
      while outstanding
        invariant Valid()
        decreases |buf| - totalBytesWritten, outstanding
      {
        Complete();
      }
    }
  }

  /** The one-shot write. */
  method WriteToSocketEnhanced(sock: Socket, buf: string) returns (ec: ErrorCode, total: nat)
    modifies sock`sent
    ensures Written(old(sock.sent), sock.sent, buf, total, ec)
  {
    ec, total := sock.WriteAll(buf);
  }

  // ----- reading

  /**
   * A read of `size` bytes from a connection that will deliver `stream` and then `ending`: how it stops, what it has
   * stored, and what is left, are functions of these three.
   */
  predicate Received(stream: string, ending: ErrorCode, size: nat, ec: ErrorCode, stored: string, left: string) {
    if size <= |stream| then ec == Success && stored == stream[..size] && left == stream[size..]
    else ec == ending && stored == stream && left == ""
  }

  /** The synchronous loop over a buffer of `size` bytes; the source has 7. */
  method ReadFromSocket(sock: Socket, size: nat) returns (ec: ErrorCode, message: string)
    requires sock.ending != Success
    modifies sock`incoming
    ensures Received(old(sock.incoming), sock.ending, size, ec, message, sock.incoming)
  {
    var buf := new char[size];
    var totalBytesRead := 0;
    ghost var stream := sock.incoming;
    while totalBytesRead != size
      invariant totalBytesRead <= size && buf[..totalBytesRead] + sock.incoming == stream
      decreases size - totalBytesRead
    {
      var n;
      ec, n := ReadInto(sock, buf, totalBytesRead);
      if ec != Success {
        return ec, buf[..totalBytesRead];
      }
      totalBytesRead := totalBytesRead + n;
    }
    assert stream[..size] == buf[..size] && stream[size..] == sock.incoming;
    return Success, buf[..totalBytesRead];
  }

  /** The one-shot read. */
  method ReadFromSocketEnhanced(sock: Socket, size: nat) returns (ec: ErrorCode, message: string)
    requires sock.ending != Success
    modifies sock`incoming
    ensures Received(old(sock.incoming), sock.ending, size, ec, message, sock.incoming)
  {
    ec, message := sock.ReadExactly(size);
  }

  /** One `read_some` into the rest of the buffer, from `lo` on: bytes before `lo` and behind the new ones stay. */
  method ReadInto(sock: Socket, buf: array<char>, lo: nat) returns (ec: ErrorCode, n: nat)
    requires sock.ending != Success && lo <= buf.Length
    modifies sock`incoming, buf
    ensures lo + n <= buf.Length && buf[..lo] == old(buf[..lo]) && buf[lo + n..] == old(buf[..])[lo + n..]
    ensures buf[..lo + n] + sock.incoming == old(buf[..lo] + sock.incoming)
    ensures lo < buf.Length ==> (ec == Success <==> n > 0)
    ensures lo == buf.Length ==> ec == Success
    ensures ec != Success ==> n == 0 && ec == sock.ending && sock.incoming == ""
  {
    var chunk;
    ec, chunk := sock.ReadSome(buf.Length - lo);
    n := |chunk|;
    forall k | 0 <= k < n {
      buf[lo + k] := chunk[k];
    }
    assert buf[..lo + n] == old(buf[..lo]) + chunk;
  }

  /** The asynchronous chain: a session with its own buffer, shared by the callbacks. */
  class ReadSession {
    const sock: Socket
    const buf: array<char>
    var totalBytesRead: nat
    var outstanding: bool            // an async_read_some into the rest of the buffer is outstanding
    var reported: ErrorCode
    ghost const stream: string       // what the connection had to deliver at the start

    /** At every moment the counted prefix of the buffer is the prefix of the stream, and the rest is unread. */
    ghost predicate Valid()
      reads this, sock, buf
    {
      && sock.ending != Success
      && totalBytesRead <= buf.Length && buf[..totalBytesRead] + sock.incoming == stream
      && (outstanding ==> reported == Success && (totalBytesRead < buf.Length || buf.Length == 0))
      && (!outstanding ==> Received(stream, sock.ending, buf.Length, reported, buf[..totalBytesRead], sock.incoming))
    }

    /** `readFromSocket`, for any size of the buffer. */
    constructor (sock: Socket, size: nat)
      requires sock.ending != Success
      ensures Valid() && this.sock == sock && fresh(buf) && buf.Length == size && stream == sock.incoming && outstanding
    {
      this.sock, this.stream := sock, sock.incoming;
      buf := new char[size];
      totalBytesRead, outstanding, reported := 0, true, Success;
    }

    /** `callback`. */
    method Callback(ec: ErrorCode, bytesTransferred: nat)
      requires !outstanding && reported == Success && totalBytesRead + bytesTransferred <= buf.Length
      requires sock.ending != Success && buf[..totalBytesRead + bytesTransferred] + sock.incoming == stream
      requires ec != Success ==>
                 bytesTransferred == 0 && totalBytesRead < buf.Length && ec == sock.ending && sock.incoming == ""
      modifies this
      ensures Valid() && totalBytesRead == old(totalBytesRead) + bytesTransferred
      ensures outstanding <==> ec == Success && totalBytesRead < buf.Length
      ensures reported == ec
    {
      reported := ec;
      if ec != Success {
        return;
      }
      totalBytesRead := totalBytesRead + bytesTransferred;
      if totalBytesRead == buf.Length {
        assert stream[..buf.Length] == buf[..totalBytesRead] && stream[buf.Length..] == sock.incoming;
        return;
      }
      outstanding := true;
    }

    /** The io_service completes the outstanding operation and runs its callback. */
    method Complete()
      requires Valid() && outstanding
      modifies this, sock`incoming, buf
      ensures Valid()
      ensures totalBytesRead >= old(totalBytesRead)
      ensures outstanding ==> totalBytesRead > old(totalBytesRead)
    {
      var ec, n := ReadInto(sock, buf, totalBytesRead);
      outstanding := false;
      Callback(ec, n);
    }

    /** `io_service::run`: the chain ends, and has done exactly what the synchronous loop does. */
    method Run()
      requires Valid()
      modifies this, sock`incoming, buf
      ensures !outstanding && totalBytesRead <= buf.Length
      ensures Received(stream, sock.ending, buf.Length, reported, buf[..totalBytesRead], sock.incoming)
    {
      while outstanding
        invariant Valid()
        decreases buf.Length - totalBytesRead, outstanding
      {
        Complete();
      }
    }
  }

  /**
   * `readFromSocketDelim`. The line does not depend on how the bytes arrive. What had arrived behind it is lost with
   * the local buffer: the connection only keeps some end of the rest.
   */
  method ReadFromSocketDelim(sock: Socket) returns (ec: ErrorCode, message: string)
    requires sock.ending != Success
    modifies sock`incoming
    ensures ec == (if '\n' in old(sock.incoming) then Success else sock.ending)
    ensures ec == Success ==>
              && message == old(sock.incoming)[..IndexOf(old(sock.incoming), '\n')]
              && exists k :: |message| < k <= |old(sock.incoming)| && sock.incoming == old(sock.incoming)[k..]
  {
    ghost var stream := sock.incoming;
    var buf := new StreamBuf(None);
    assert "" + stream == stream;
    ec := ReadUntil(sock, buf, "\n");
    NewlineIsFound(stream);
    NewlineIsFound(buf.data);
    if ec != Success {
      return ec, "";
    }
    var (rest, line) := GetLine(Open(buf.data), '\n', "");
    message := line;
    var k := IndexOf(buf.data, '\n');
    assert stream[..k] == buf.data[..k] && stream[k] == buf.data[k];
    IndexOfIs(stream, '\n', k);
    assert sock.incoming == stream[|buf.data|..];
  }

  lemma NewlineIsFound(s: string)
    ensures Contains(s, "\n") <==> '\n' in s
  {
    if '\n' in s {
      var k :| 0 <= k < |s| && s[k] == '\n';
      assert At(s, "\n", k);
    }
    if Contains(s, "\n") {
      var k := Find(s, "\n").value;
      assert s[k] == s[k..k + 1][0];
    }
  }
}
