/** Sockets and stream buffers by contract: short, nondeterministic transfers of at least one byte. */
module Sockets {
  import opened Asio
  import opened Streams

  class Socket {
    /** What the peer's bytes that have not been read yet are, and what a read reports once they are used up. */
    var incoming: string
    const ending: ErrorCode

    /** Everything written so far, in order. */
    var sent: string

    constructor (incoming: string, ending: ErrorCode)
      ensures this.incoming == incoming && this.ending == ending && sent == ""
    {
      this.incoming, this.ending, sent := incoming, ending, "";
    }

    /** `read_some`: between one byte and `room` bytes, or an error and none. No room means no bytes and no error. */
    method ReadSome(room: nat) returns (ec: ErrorCode, chunk: string)
      requires ending != Success
      modifies this`incoming
      ensures chunk + incoming == old(incoming) && |chunk| <= room
      ensures room > 0 ==> (ec == Success <==> chunk != "")
      ensures room == 0 ==> ec == Success
      ensures ec != Success ==> ec == ending && incoming == ""
    {
      if room == 0 {
        return Success, "";
      }
      if incoming == "" {
        return ending, "";
      }
      var n :| 1 <= n <= |incoming| && n <= room;
      ec, chunk := Success, incoming[..n];
      incoming := incoming[n..];
    }

    /** `write_some`: at least one byte, or an error and none. Nothing to write means no bytes and no error. */
    method WriteSome(data: string) returns (ec: ErrorCode, n: nat)
      modifies this`sent
      ensures n <= |data| && sent == old(sent) + data[..n]
      ensures data != "" ==> (ec == Success <==> n > 0)
      ensures data == "" ==> ec == Success
    {
      var fails: bool := *;
      if data == "" {
        return Success, 0;
      }
      if fails {
        var code: int := *;
        return SystemError(code), 0;
      }
      n :| 1 <= n <= |data|;
      ec := Success;
      sent := sent + data[..n];
    }

    /** `asio::write`: all of `data`, or an error and some of it. */
    method WriteAll(data: string) returns (ec: ErrorCode, n: nat)
      modifies this`sent
      ensures n <= |data| && sent == old(sent) + data[..n]
      ensures ec == Success <==> n == |data|
    {
      n :| 0 <= n <= |data|;
      ec := if n == |data| then Success else SystemError(1);
      sent := sent + data[..n];
    }

    /** `asio::read` of `size` bytes: all of them, or everything there is and the reason why there is no more. */
    method ReadExactly(size: nat) returns (ec: ErrorCode, data: string)
      requires ending != Success
      modifies this`incoming
      ensures size <= |old(incoming)| ==>
                ec == Success && data == old(incoming)[..size] && incoming == old(incoming)[size..]
      ensures size > |old(incoming)| ==> ec == ending && data == old(incoming) && incoming == ""
    {
      if size <= |incoming| {
        ec, data := Success, incoming[..size];
        incoming := incoming[size..];
      } else {
        ec, data := ending, incoming;
        incoming := "";
      }
    }
  }

  /** `asio::streambuf`: its unread bytes, and the most of them it can hold. */
  class StreamBuf {
    var data: string
    const limit: Option<nat>

    constructor (limit: Option<nat>)
      ensures data == "" && this.limit == limit
    {
      data := "";
      this.limit := limit;
    }
  }

  /**
   * `read_until`. How much it reads beyond the delimiter depends on how the bytes arrive; how it ends does not:
   * that is a function of everything the connection delivers.
   */
  method ReadUntil(sock: Socket, sb: StreamBuf, delim: string) returns (ec: ErrorCode)
    requires sock.ending != Success
    requires sb.limit.Some? ==> |sb.data| <= sb.limit.value
    modifies sock`incoming, sb`data
    ensures sb.data + sock.incoming == old(sb.data + sock.incoming)
    ensures old(sb.data) <= sb.data
    ensures sb.limit.Some? ==> |sb.data| <= sb.limit.value
    ensures ec == UntilResult(old(sb.data + sock.incoming), delim, sb.limit, sock.ending)
    ensures ec == Success ==> Contains(sb.data, delim)
  {
    ghost var all := sb.data + sock.incoming;
    while true
      invariant sb.data + sock.incoming == all && old(sb.data) <= sb.data
      invariant sb.limit.Some? ==> |sb.data| <= sb.limit.value
      decreases |sock.incoming|
    {
      assert all[..|sb.data|] == sb.data;
      FindInPrefix(all, delim, |sb.data|);
      if Contains(sb.data, delim) {
        return Success;
      }
      if sb.limit.Some? && |sb.data| == sb.limit.value {
        return NotFound;
      }
      var chunk;
      ec, chunk := sock.ReadSome(if sb.limit.Some? then sb.limit.value - |sb.data| else |sock.incoming| + 1);
      sb.data := sb.data + chunk;
      if ec != Success {
        return;
      }
    }
  }

  /** `async_read` into a buffer without a limit: everything that is still to come. */
  method ReadToEnd(sock: Socket, sb: StreamBuf) returns (ec: ErrorCode)
    requires sock.ending != Success && sb.limit == None
    modifies sock`incoming, sb`data
    ensures sb.data == old(sb.data + sock.incoming) && sock.incoming == ""
    ensures ec == sock.ending
  {
    while true
      invariant sb.data + sock.incoming == old(sb.data + sock.incoming)
      decreases |sock.incoming|
    {
      var chunk;
      ec, chunk := sock.ReadSome(|sock.incoming| + 1);
      sb.data := sb.data + chunk;
      if ec != Success {
        return;
      }
    }
  }
}
