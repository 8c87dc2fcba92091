/** The network connection as the relay sees it, and the loop that pushes a slice through it. */
module NetConn {
  import opened Bytes

  class Conn {
    // Bytes the peer can read, in order.
    var sink: seq<byte>
    // Write calls that reported an error or took nothing.
    ghost var faults: nat

    constructor ()
      ensures sink == [] && faults == 0
    {
      sink, faults := [], 0;
    }

    /** One Write call: the network takes some leading bytes and reports any error it likes. */
    method Write(data: seq<byte>) returns (n: nat, err: bool)
      modifies this
      ensures n <= |data| && sink == old(sink) + data[..n]
      ensures faults == old(faults) + if err || n == 0 then 1 else 0
    {
      n :| 0 <= n <= |data|;
      err := *;
      faults := faults + if err || n == 0 then 1 else 0;
      sink := sink + data[..n];
    }
  }

  /** Reslices until the whole slice is written, a write fails, or a write makes no progress; an error
      means one of the latter, and nothing is written after it. */
  method WriteAll(conn: Conn, data: seq<byte>) returns (err: bool)
    modifies conn
    ensures conn.faults == old(conn.faults) + if err then 1 else 0
    ensures data == [] ==> !err
    ensures !err ==> conn.sink == old(conn.sink) + data
    ensures old(conn.sink) <= conn.sink <= old(conn.sink) + data
  {
    var left := data;
    while |left| > 0
      invariant conn.sink + left == old(conn.sink) + data
      invariant old(conn.sink) <= conn.sink && conn.faults == old(conn.faults)
      decreases |left|
    {
      label before:
      var n, failed := conn.Write(left);
      assert conn.sink + left[n..] == old@before(conn.sink) + left == old(conn.sink) + data;
      assert conn.sink == (conn.sink + left[n..])[..|conn.sink|];
      if failed {
        return true;
      }
      if n == 0 {
        return true;
      }
      left := left[n..];
    }
    return false;
  }
}
