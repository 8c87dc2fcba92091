/** The 14-byte look-ahead reader over a connection that delivers its bytes in arbitrary pieces. */
module FrameReader {
  import opened Bytes

  /** What the peer sent before the connection ends or fails.  Each Read hands over some of it. */
  class Source {
    var unread: seq<byte>

    constructor (input: seq<byte>)
      ensures unread == input
    {
      unread := input;
    }

    /** A Read into a buffer of the given room makes progress or fails; it may report the end
        together with the last bytes. */
    method Read(room: nat) returns (data: seq<byte>, err: bool)
      requires room > 0
      modifies this
      ensures |data| <= room && old(unread) == data + unread
      ensures data == [] ==> err
      ensures err ==> unread == []
    {
      if unread == [] {
        return [], true;
      }
      var n :| 1 <= n <= |unread| && n <= room;
      data := unread[..n];
      unread := unread[n..];
      err := *;
      if unread != [] {
        err := false;
      }
    }
  }

  const BUF_SIZE: nat := 14

  class Reader {
    const conn: Source
    const buf: array<byte>
    var r: nat
    var w: nat

    ghost predicate Valid()
      reads this
    {
      buf.Length == BUF_SIZE && r <= w <= BUF_SIZE
    }

    /** The input not yet consumed: what is buffered, then what is still to be read. */
    function Rest(): seq<byte>
      requires Valid()
      reads this, buf, conn
    {
      buf[r..w] + conn.unread
    }

    constructor (conn: Source)
      ensures Valid() && this.conn == conn && fresh(buf) && Rest() == conn.unread
    {
      this.conn := conn;
      buf := new byte[BUF_SIZE](_ => 0);
      r, w := 0, 0;
    }

    /** Makes at least min bytes available; fails exactly when the input has fewer left. */
    method Fill(min: nat) returns (err: bool)
      requires Valid() && min <= BUF_SIZE
      modifies this, buf, conn
      ensures Valid() && Rest() == old(Rest())
      ensures err <==> |old(Rest())| < min
      ensures !err ==> w - r >= min
    {
      if w - r >= min {
        return false;
      }
      if r > 0 {
        Compact();
      }
      while w - r < min
        invariant Valid() && r == 0 && Rest() == old(Rest())
        decreases min - (w - r)
      {
        var data, failed := conn.Read(BUF_SIZE - w);
        StoreAt(data);
        if failed {
          if w - r >= min {
            return false;
          }
          return true;
        }
      }
      return false;
    }

    /** Moves the buffered bytes to the front. */
    method Compact()
      requires Valid()
      modifies this, buf
      ensures Valid() && r == 0 && w == old(w - r) && buf[..w] == old(buf[r..w])
    {
      ghost var kept := buf[r..w];
      forall i | 0 <= i < w - r {
        buf[i] := buf[r + i];
      }
      w := w - r;
      r := 0;
      assert buf[..w] == kept;
    }

    /** Bytes read land behind the buffered ones. */
    method StoreAt(data: seq<byte>)
      requires Valid() && r == 0 && w + |data| <= BUF_SIZE
      modifies this, buf
      ensures Valid() && r == 0 && w == old(w) + |data| && buf[..w] == old(buf[..w]) + data
    {
      ghost var before := buf[..w];
      forall i | 0 <= i < |data| {
        buf[w + i] := data[i];
      }
      w := w + |data|;
      assert buf[..w] == before + data;
    }

    /** The next n bytes, without consuming them. */
    method Peek(n: nat) returns (err: bool, data: seq<byte>)
      requires Valid() && n <= BUF_SIZE
      modifies this, buf, conn
      ensures Valid() && Rest() == old(Rest())
      ensures err <==> |old(Rest())| < n
      ensures !err ==> w - r >= n && data == old(Rest())[..n]
    {
      err := Fill(n);
      if err {
        return true, [];
      }
      data := buf[r..r + n];
      assert data == Rest()[..n];
    }

    method Consume(n: nat)
      requires Valid() && n <= w - r
      modifies this
      ensures Valid() && Rest() == old(Rest())[n..] && w - r == old(w - r) - n
    {
      ghost var before := Rest();
      r := r + n;
      assert Rest() == before[n..];
      if r == w {
        r, w := 0, 0;
        assert Rest() == before[n..];
      }
    }

    /** Fills dst with the next bytes of the input, first from the buffer, then from the connection. */
    method ReadPayload(dst: array<byte>) returns (err: bool)
      requires Valid() && dst != buf
      modifies this, conn, dst
      ensures Valid()
      ensures err <==> |old(Rest())| < dst.Length
      ensures !err ==> dst[..] == old(Rest())[..dst.Length] && Rest() == old(Rest())[dst.Length..]
    {
      ghost var input := Rest();
      var buffered := w - r;
      if buffered > 0 {
        if buffered >= dst.Length {
          forall i | 0 <= i < dst.Length {
            dst[i] := buf[r + i];
          }
          assert dst[..] == input[..dst.Length];
          Consume(dst.Length);
          return false;
        }
        forall i | 0 <= i < buffered {
          dst[i] := buf[r + i];
        }
        r, w := 0, 0;
      }
      assert dst[..buffered] == input[..buffered] && conn.unread == input[buffered..];
      err := ReadFull(conn, dst, buffered);
      if !err {
        assert dst[..] == dst[..buffered] + dst[buffered..] == input[..dst.Length];
      }
    }
  }

  /** io.ReadFull into dst[from..]. */
  method ReadFull(conn: Source, dst: array<byte>, from: nat) returns (err: bool)
    requires from <= dst.Length
    modifies conn, dst
    ensures dst[..from] == old(dst[..from])
    ensures err <==> |old(conn.unread)| < dst.Length - from
    ensures !err ==> dst[from..] == old(conn.unread)[..dst.Length - from] && conn.unread == old(conn.unread)[dst.Length - from..]
  {
    ghost var input := conn.unread;
    var at := from;
    var failed := false;
    while at < dst.Length && !failed
      invariant from <= at <= dst.Length && dst[..from] == old(dst[..from])
      invariant dst[from..at] + conn.unread == input
      invariant failed ==> conn.unread == []
      decreases dst.Length - at, !failed
    {
      var data;
      data, failed := conn.Read(dst.Length - at);
      ghost var done := dst[from..at];
      forall i | 0 <= i < |data| {
        dst[at + i] := data[i];
      }
      assert dst[from..at + |data|] == done + data;
      at := at + |data|;
    }
    err := at < dst.Length;
  }
}
