/** The gathering write of src/net/socket_class_tcp.c. */
module Writev {
  import opened Wrappers

  type Bytes = seq<bv8>

  /** What the kernel does at one turn of the loop: the wait for the socket fails, the call takes so
      many bytes, it would block and the wait for room goes well or not, or it fails. */
  datatype Outcome = Refused | Took(n: nat) | Full(ready: bool) | Failed

  const IOV_MAX := 1024

  /** The socket, with what is to happen and what the kernel has taken. */
  class Socket {
    var script: seq<Outcome>
    var taken: Bytes

    constructor (script: seq<Outcome>)
      ensures this.script == script && taken == []
    {
      this.script, taken := script, [];
    }

    /** The next outcome; a script that is over fails. */
    method Next() returns (o: Outcome)
      modifies `script
      ensures o == if old(script) == [] then Failed else old(script)[0]
      ensures script == if old(script) == [] then [] else old(script)[1..]
    {
      if script == [] {
        return Failed;
      }
      o, script := script[0], script[1..];
    }

    /** writev: at most what the vector holds is taken, from its front. */
    method Take(parts: seq<Bytes>, n: nat) returns (ret: nat)
      modifies `taken
      ensures ret == if n <= |Join(parts)| then n else |Join(parts)|
      ensures taken == old(taken) + Join(parts)[..ret]
    {
      var all := Join(parts);
      ret := if n <= |all| then n else |all|;
      taken := taken + all[..ret];
    }
  }

  /** Whether `left` bytes get written: every turn but the last leaves some of them. */
  function Succeeds(left: nat, script: seq<Outcome>): bool
    decreases |script|
  {
    script != [] &&
    match script[0]
    case Refused => false
    case Failed => false
    case Full(ready) => ready && (left == 0 || Succeeds(left, script[1..]))
    case Took(n) => n > 0 && left > 0 && (n >= left || Succeeds(left - n, script[1..]))
  }

  lemma JoinFirst(iov: seq<Bytes>, i: nat)
    requires i < |iov|
    ensures Join(iov[i..]) == iov[i] + Join(iov[i + 1..])
  {
    assert iov[i..][1..] == iov[i + 1..];
  }

  /** The inner loop: drops what has been written from the front of the vector. */
  method Advance(iov: array<Bytes>, first: nat, written: nat) returns (i: nat)
    requires first < iov.Length && (written == 0 || written < |Join(iov[first..])|)
    modifies iov
    ensures first <= i < iov.Length
    ensures Join(iov[i..]) == old(Join(iov[first..])[written..])
  {
    i := first;
    var ret := written;
    ghost var all := Join(iov[first..]);
    while ret > 0 && ret >= |iov[i]|
      invariant first <= i < iov.Length && 0 <= ret <= written
      invariant iov[..] == old(iov[..])
      invariant ret <= |Join(iov[i..])| && (ret == 0 || ret < |Join(iov[i..])|) && written <= |all|
      invariant Join(iov[i..])[ret..] == all[written..]
      decreases iov.Length - i
    {
      JoinFirst(iov[..], i);
      assert iov[..][i..] == iov[i..] && iov[..][i + 1..] == iov[i + 1..];
      ret := ret - |iov[i]|;
      i := i + 1;
    }
    JoinFirst(iov[..], i);
    assert iov[..][i..] == iov[i..] && iov[..][i + 1..] == iov[i + 1..];
    ghost var rest := iov[i + 1..];
    iov[i] := iov[i][ret..];
    assert iov[i + 1..] == rest;
    JoinFirst(iov[..], i);
    assert iov[..][i..] == iov[i..] && iov[..][i + 1..] == iov[i + 1..];
  }

  /** One call, with the waits around it; a call that would block writes nothing. */
  method Call(socket: Socket, parts: seq<Bytes>) returns (ok: bool, ret: nat)
    modifies socket
    ensures |socket.script| < |old(socket.script)| || !ok
    ensures ret <= |Join(parts)| && socket.taken == old(socket.taken) + Join(parts)[..ret]
    ensures Succeeds(|Join(parts)|, old(socket.script)) ==
      (ok && (ret == |Join(parts)| || Succeeds(|Join(parts)| - ret, socket.script)))
    ensures !ok ==> ret == 0
  {
    var o := socket.Next();
    ok, ret := true, 0;
    assert Join(parts)[..0] == [];
    match o
    case Refused => ok := false;
    case Failed => ok := false;
    case Full(ready) => ok := ready;
    case Took(n) =>
      ret := socket.Take(parts, n);
      ok := ret != 0;
  }

  lemma Moved(mine: Bytes, left: Bytes, ret: nat, all: Bytes)
    requires mine + left == all && ret <= |left|
    ensures mine + left[..ret] + left[ret..] == all && mine + left[..ret] <= all
    ensures |mine| + ret == |all| ==> left[ret..] == [] && mine + left[..ret] == all
  {
    assert left == left[..ret] + left[ret..];
  }

  /** One turn, up to the inner loop; `mine` is what the kernel has taken of `all` before. */
  method Turn(socket: Socket, parts: seq<Bytes>, ghost before: Bytes, ghost mine: Bytes, ghost all: Bytes)
    returns (ok: bool, ret: nat, ghost now: Bytes)
    requires socket.taken == before + mine && mine + Join(parts) == all
    modifies socket
    ensures socket.taken == before + now && |now| == |mine| + ret && now <= all
    ensures ret <= |Join(parts)| && now + Join(parts)[ret..] == all && (|now| == |all| ==> now == all)
    ensures |socket.script| < |old(socket.script)| || !ok
    ensures Succeeds(|Join(parts)|, old(socket.script)) ==
      (ok && (ret == |Join(parts)| || Succeeds(|Join(parts)| - ret, socket.script)))
  {
    ok, ret := Call(socket, parts);
    Moved(mine, Join(parts), ret, all);
    now := mine + Join(parts)[..ret];
  }

  /** The write loop: what the kernel has taken, followed by what the vector still holds, is always
      the concatenation of the buffers. */
  method WriteAll(socket: Socket, iov: array<Bytes>, ghost all: Bytes, total: nat) returns (r: int, ghost mine: Bytes)
    requires all == Join(iov[0..]) && total == |all|
    modifies socket, iov
    ensures socket.taken == old(socket.taken) + mine && mine <= all
    ensures r == -1 || (r == total && mine == all)
    ensures r == total <==> iov.Length == 0 || Succeeds(total, old(socket.script))
  {
    var first, sent := 0, 0;
    mine := [];
    while first < iov.Length
      invariant 0 <= first <= iov.Length && (first < iov.Length || iov.Length == 0)
      invariant socket.taken == old(socket.taken) + mine && sent == |mine|
      invariant mine + Join(iov[first..]) == all
      invariant iov.Length > 0 ==> Succeeds(total, old(socket.script)) == Succeeds(total - sent, socket.script)
      decreases |socket.script|
    {
      var ok, ret;
      ok, ret, mine := Turn(socket, iov[first..], old(socket.taken), mine, all);
      if !ok {
        return -1, mine;
      }
      sent := sent + ret;
      if sent == total {
        return sent, mine;
      }
      first := Advance(iov, first, ret);
    }
    r := sent;
  }

  /** rn_socket_class_tcp_writev */
  method Writev(socket: Socket, buffers: seq<Bytes>) returns (r: int)
    modifies socket
    ensures r == if |buffers| <= IOV_MAX && (buffers == [] || Succeeds(|Join(buffers)|, old(socket.script)))
                 then |Join(buffers)| else -1
    ensures r >= 0 ==> socket.taken == old(socket.taken) + Join(buffers)
    ensures exists mine :: socket.taken == old(socket.taken) + mine && mine <= Join(buffers)
    ensures |buffers| > IOV_MAX ==> socket.taken == old(socket.taken)
  {
    if |buffers| > IOV_MAX {
      assert socket.taken == old(socket.taken) + [];
      return -1;
    }
    var iov := new Bytes[|buffers|](i requires 0 <= i < |buffers| => buffers[i]);
    assert iov[0..] == buffers;
    ghost var mine;
    r, mine := WriteAll(socket, iov, Join(buffers), |Join(buffers)|);
  }
}
