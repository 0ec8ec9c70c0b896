/** The loops that copy a file to a socket.  Reads may be short and sends may be partial; which
    ones are is left open, so every contract holds for every schedule of short reads and sends. */
module Transfer {
  import opened Basics

  const BUFSIZE := 512

  /** A connected socket.  `wire` is what the peer has been sent, and `failures` counts the sends
      that returned -1.  Any send may fail and a later one succeed, until the connection is
      `dead`: from then on every send fails. */
  class Socket {
    var wire: seq<byte>
    var failures: nat
    var dead: bool

    constructor ()
      ensures wire == [] && failures == 0 && !dead
    {
      wire, failures, dead := [], 0, false;
    }

    /** send: writes some first part of the data, or returns -1. */
    method Send(data: seq<byte>) returns (n: int)
      requires data != []
      modifies this
      ensures n == -1 || 1 <= n <= |data|
      ensures wire == if n == -1 then old(wire) else old(wire) + data[..n]
      ensures failures == old(failures) + One(n == -1)
      ensures old(dead) ==> dead && n == -1
      ensures dead && !old(dead) ==> n == -1
    {
      n := *;
      var breaks: bool := *;
      if dead || !(1 <= n <= |data|) {
        n := -1;
        failures := failures + 1;
        dead := dead || breaks;
      } else {
        wire := wire + data[..n];
      }
    }
  }

  /** read or pread: at least one byte before the end of the file, none at the end. */
  method ReadAt(file: seq<byte>, offset: nat) returns (buf: seq<byte>)
    requires offset <= |file|
    ensures |buf| <= BUFSIZE && offset + |buf| <= |file| && buf == file[offset..offset + |buf|]
    ensures buf == [] <==> offset == |file|
  {
    var n: int := *;
    if offset == |file| {
      n := 0;
    } else if !(1 <= n <= BUFSIZE && offset + n <= |file|) {
      n := 1;
    }
    buf := file[offset..offset + n];
  }

  lemma SlicesMeet(file: seq<byte>, a: nat, b: nat, c: nat)
    requires a <= b <= c <= |file|
    ensures file[a..b] + file[b..c] == file[a..c]
  {
  }

  lemma PartOfSlice(file: seq<byte>, offset: nat, buf: seq<byte>, from: nat, n: nat)
    requires from + n <= |buf| && offset + |buf| <= |file| && buf == file[offset..offset + |buf|]
    ensures buf[from..][..n] == file[offset + from..offset + from + n]
  {
  }

  /** send_file of the transfer server.  `exit` is 0 on return, else the exit status; a failing
      read (`readFails` says before which call) ends the program with 6, a failing send with 8. */
  method SendFile(socket: Socket, file: seq<byte>, readFails: nat) returns (exit: int)
    modifies socket
    ensures exit == 0 || exit == 6 || exit == 8
    ensures exit == 0 ==> socket.wire == old(socket.wire) + file
    ensures socket.failures == old(socket.failures) + One(exit == 8)
    ensures exit != 0 ==> exists k :: 0 <= k <= |file| && socket.wire == old(socket.wire) + file[..k]
    ensures exit == 6 ==> readFails <= |file|
    ensures exit == 0 ==> readFails > 0 && |file| <= BUFSIZE * (readFails - 1)
    ensures old(socket.dead) && file != [] ==> exit != 0 && socket.wire == old(socket.wire)
  {
    var offset := 0;
    var calls := 0;
    var bytesToSend := 1;
    while bytesToSend != 0
      invariant 0 <= offset <= |file| && 0 <= calls <= offset + 1 && bytesToSend >= 0
      invariant socket.wire == old(socket.wire) + file[..offset]
      invariant bytesToSend == 0 ==> offset == |file|
      invariant bytesToSend > 0 ==> calls <= offset && offset <= BUFSIZE * calls
      invariant bytesToSend == 0 ==> offset <= BUFSIZE * (calls - 1)
      invariant calls <= readFails
      invariant socket.failures == old(socket.failures)
      invariant old(socket.dead) ==> socket.dead && offset == 0
      decreases |file| - offset, bytesToSend
    {
      if calls == readFails {
        return 6;
      }
      calls := calls + 1;
      var buf := ReadAt(file, offset);
      bytesToSend := |buf|;
      var bytesLeft := bytesToSend;
      var bytesSent := 0;
      while bytesSent != bytesToSend
        invariant 0 <= bytesSent && bytesSent + bytesLeft == bytesToSend && bytesLeft >= 0
        invariant socket.wire == old(socket.wire) + file[..offset + bytesSent]
        invariant socket.failures == old(socket.failures)
        invariant old(socket.dead) ==> socket.dead && offset == 0 && bytesSent == 0
        decreases bytesLeft
      {
        var n := socket.Send(buf[bytesSent..]);
        if n == -1 {
          return 8;
        }
        PartOfSlice(file, offset, buf, bytesSent, n);
        SlicesMeet(file, 0, offset + bytesSent, offset + bytesSent + n);
        bytesSent := bytesSent + n;
        bytesLeft := bytesLeft - n;
      }
      offset := offset + bytesToSend;
    }
    return 0;
  }

  /** gfs_send: sends until done or until a send fails, and returns what went out. */
  method GfsSend(socket: Socket, data: seq<byte>) returns (total: nat)
    modifies socket
    ensures total <= |data| && socket.wire == old(socket.wire) + data[..total]
    ensures socket.failures == old(socket.failures) + One(total < |data|)
    ensures old(socket.dead) ==> total == 0 && socket.dead
  {
    total := 0;
    while total < |data|
      invariant total <= |data| && socket.wire == old(socket.wire) + data[..total]
      invariant socket.failures == old(socket.failures)
      invariant old(socket.dead) ==> total == 0 && socket.dead
    {
      var n := socket.Send(data[total..]);
      if n <= 0 {
        break;
      }
      assert data[..total] + data[total..][..n] == data[..total + n];
      total := total + n;
    }
  }

  /** The sending loop of the server's worker, for at most `rounds` iterations; `left` says whether
      it has been left.  `fileLen` is what fstat reported.  A send that stops early is made good
      by the next round, which reads at what has gone out; but nothing in the loop counts
      failures, so on a dead connection it goes on for any number of rounds. */
  method TransferRounds(socket: Socket, file: seq<byte>, fileLen: nat, rounds: nat)
    returns (left: bool, totalSent: nat)
    modifies socket
    ensures totalSent <= |file| && socket.wire == old(socket.wire) + file[..totalSent]
    ensures left && fileLen == |file| ==> socket.wire == old(socket.wire) + file
    ensures left ==> totalSent >= fileLen || totalSent == |file|
    ensures old(socket.failures) <= socket.failures
    ensures rounds > |file| + (socket.failures - old(socket.failures)) ==> left
    ensures rounds > 0 && totalSent >= fileLen ==> left
    ensures totalSent < (if fileLen == 0 then 1 else fileLen) + BUFSIZE
    ensures rounds > 0 && file != [] && socket.failures == old(socket.failures) ==> totalSent > 0
    ensures old(socket.dead) && fileLen > 0 && file != [] ==>
              !left && totalSent == 0 && socket.failures == old(socket.failures) + rounds
  {
    totalSent, left := 0, false;
    for i := 0 to rounds
      invariant totalSent <= |file| && socket.wire == old(socket.wire) + file[..totalSent]
      invariant i > 0 ==> totalSent < fileLen
      invariant i == 0 ==> totalSent == 0
      invariant i > 0 && file != [] && socket.failures == old(socket.failures) ==> totalSent > 0
      invariant old(socket.failures) <= socket.failures
      invariant i <= totalSent + (socket.failures - old(socket.failures))
      invariant old(socket.dead) ==> socket.dead && totalSent == 0
      invariant old(socket.dead) ==> socket.failures == old(socket.failures) + i
    {
      var buf := ReadAt(file, totalSent);
      if |buf| == 0 {
        return true, totalSent;
      }
      var sent := GfsSend(socket, buf);
      assert buf[..sent] == file[totalSent..totalSent + sent];
      SlicesMeet(file, 0, totalSent, totalSent + sent);
      totalSent := totalSent + sent;
      if fileLen <= totalSent {
        return true, totalSent;
      }
    }
  }
}
