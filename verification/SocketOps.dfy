/** Creating sockets by trying one endpoint after another. */
module SocketOps {
  import opened Types
  import opened Machine
  import opened Hosts

  /** The kernel's answers for one endpoint: a descriptor or -1, then whether each call succeeds. */
  datatype Try = Try(fd: int, setsockopt: bool, bind: bool, listen: bool, connect: bool)

  predicate Connects(t: Try) {
    t.fd != -1 && t.connect
  }

  predicate Listens(t: Try, reuse: bool) {
    t.fd != -1 && (reuse ==> t.setsockopt) && t.bind && t.listen
  }

  // ----- the descriptors a scan opens -----

  /** The kernel after ::socket has been called for each endpoint in turn. */
  function OpenAll(k: Kernel, tries: seq<Try>): Kernel {
    if tries == [] then k
    else
      var k', t := OpenAll(k, tries[..|tries| - 1]), tries[|tries| - 1];
      if t.fd == -1 then k' else OpenFd(k', t.fd)
  }

  lemma {:induction false} OpenAllStep(k: Kernel, tries: seq<Try>, i: nat)
    requires i < |tries|
    ensures OpenAll(k, tries[..i + 1]) ==
            var k' := OpenAll(k, tries[..i]); if tries[i].fd == -1 then k' else OpenFd(k', tries[i].fd)
  {
    assert tries[..i + 1][..i] == tries[..i];
  }

  /** The descriptors given out for the first n endpoints. */
  function Sockets(tries: seq<Try>, n: nat): set<Fd>
    requires n <= |tries|
  {
    set i | 0 <= i < n && tries[i].fd != -1 :: tries[i].fd
  }

  /** ::socket gives out descriptors that are not open; nothing is closed during a scan. */
  predicate NewSockets(k: Kernel, tries: seq<Try>) {
    (forall i :: 0 <= i < |tries| && tries[i].fd != -1 ==>
       tries[i].fd >= 0 && tries[i].fd !in k.server && tries[i].fd !in k.foreign) &&
    forall i, j :: 0 <= i < j < |tries| && tries[i].fd != -1 ==> tries[i].fd != tries[j].fd
  }

  lemma {:induction false} OpenAllOpens(k: Kernel, tries: seq<Try>, n: nat)
    requires n <= |tries|
    ensures OpenAll(k, tries[..n]).server == k.server + Sockets(tries, n)
    ensures OpenAll(k, tries[..n]).foreign == k.foreign
  {
    if n == 0 {
      assert tries[..0] == [];
    } else {
      OpenAllOpens(k, tries, n - 1);
      OpenAllStep(k, tries, n - 1);
      assert Sockets(tries, n) == Sockets(tries, n - 1) + if tries[n - 1].fd == -1 then {} else {tries[n - 1].fd};
    }
  }

  // ----- the scans -----

  /** n endpoints were given up, and the next one, if any, is the first whose calls all succeed. */
  predicate FirstSuccess(tries: seq<Try>, ok: seq<bool>, n: nat) {
    n <= |tries| == |ok| && (forall i :: 0 <= i < n ==> !ok[i]) && (n < |tries| ==> ok[n])
  }

  /** The endpoints tried when n were given up. */
  function Tried(tries: seq<Try>, n: nat): nat {
    if n < |tries| then n + 1 else |tries|
  }

  function ConnectOutcomes(tries: seq<Try>): (r: seq<bool>)
    ensures |r| == |tries| && forall i :: 0 <= i < |r| ==> r[i] == Connects(tries[i])
  {
    seq(|tries|, i requires 0 <= i < |tries| => Connects(tries[i]))
  }

  function ListenOutcomes(tries: seq<Try>, reuse: bool): (r: seq<bool>)
    ensures |r| == |tries| && forall i :: 0 <= i < |r| ==> r[i] == Listens(tries[i], reuse)
  {
    seq(|tries|, i requires 0 <= i < |tries| => Listens(tries[i], reuse))
  }

  /**
   * create_connected_socket: the socket of the first endpoint that connects, or 0. Every endpoint
   * tried may have opened a descriptor, and none is closed.
   */
  method CreateConnectedSocket(host: Host, tries: seq<Try>) returns (fd: Fd, ghost n: nat)
    modifies host`kernel
    ensures FirstSuccess(tries, ConnectOutcomes(tries), n)
    ensures forall i :: 0 <= i < n ==> tries[i].fd == -1 || !tries[i].connect
    ensures n < |tries| ==> tries[n].fd != -1 && tries[n].connect
    ensures fd == if n < |tries| then tries[n].fd else 0
    ensures fd == 0 <==> (forall t :: t in tries ==> !Connects(t)) || (n < |tries| && tries[n].fd == 0)
    ensures host.kernel == OpenAll(old(host.kernel), tries[..Tried(tries, n)])
  {
    var i := 0;
    while i < |tries|
      invariant 0 <= i <= |tries|
      invariant forall j :: 0 <= j < i ==> !Connects(tries[j])
      invariant host.kernel == OpenAll(old(host.kernel), tries[..i])
    {
      OpenAllStep(old(host.kernel), tries, i);
      var socketFd := tries[i].fd;
      if socketFd == -1 { i := i + 1; continue; }
      host.kernel := OpenFd(host.kernel, socketFd);
      if !tries[i].connect { i := i + 1; continue; }
      return socketFd, i;
    }
    return 0, i;
  }

  /** create_listening_socket: as above, with setsockopt only on request, bind and listen. */
  method CreateListeningSocket(host: Host, tries: seq<Try>, reuse: bool) returns (fd: Fd, ghost n: nat)
    modifies host`kernel
    ensures FirstSuccess(tries, ListenOutcomes(tries, reuse), n)
    ensures forall i :: 0 <= i < n ==>
              tries[i].fd == -1 || (reuse && !tries[i].setsockopt) || !tries[i].bind || !tries[i].listen
    ensures n < |tries| ==>
              tries[n].fd != -1 && (reuse ==> tries[n].setsockopt) && tries[n].bind && tries[n].listen
    ensures fd == if n < |tries| then tries[n].fd else 0
    ensures fd == 0 <==> (forall t :: t in tries ==> !Listens(t, reuse)) || (n < |tries| && tries[n].fd == 0)
    ensures host.kernel == OpenAll(old(host.kernel), tries[..Tried(tries, n)])
  {
    var i := 0;
    while i < |tries|
      invariant 0 <= i <= |tries|
      invariant forall j :: 0 <= j < i ==> !Listens(tries[j], reuse)
      invariant host.kernel == OpenAll(old(host.kernel), tries[..i])
    {
      OpenAllStep(old(host.kernel), tries, i);
      var socketFd := tries[i].fd;
      if socketFd == -1 { i := i + 1; continue; }
      host.kernel := OpenFd(host.kernel, socketFd);
      if reuse && !tries[i].setsockopt { i := i + 1; continue; }
      if !tries[i].bind { i := i + 1; continue; }
      if !tries[i].listen { i := i + 1; continue; }
      return socketFd, i;
    }
    return 0, i;
  }

  /**
   * What a scan leaves open without an owner: a descriptor is open afterwards, was not before and
   * is not the one returned, exactly if an endpoint given up got it from ::socket.
   */
  lemma {:induction false} LeakedExactly(k: Kernel, tries: seq<Try>, n: nat, fd: Fd)
    requires NewSockets(k, tries) && n <= |tries|
    ensures var k' := OpenAll(k, tries[..Tried(tries, n)]);
            fd in k'.server && fd !in k.server && (n < |tries| ==> fd != tries[n].fd) <==>
            exists i :: 0 <= i < n && tries[i].fd == fd != -1
  {
    OpenAllOpens(k, tries, Tried(tries, n));
    if fd in Sockets(tries, Tried(tries, n)) && (n < |tries| ==> fd != tries[n].fd) {
      var i :| 0 <= i < Tried(tries, n) && tries[i].fd != -1 && tries[i].fd == fd;
      assert i < n;
    }
    if n < |tries| { assert forall i :: 0 <= i < n && tries[i].fd != -1 ==> tries[i].fd != tries[n].fd; }
  }

  /** The same for the whole set. */
  lemma {:induction false} LeakedSet(k: Kernel, tries: seq<Try>, n: nat)
    requires NewSockets(k, tries) && n < |tries|
    ensures OpenAll(k, tries[..n + 1]).server - k.server - {tries[n].fd} == Sockets(tries, n)
    ensures OpenAll(k, tries[..n + 1]).server - k.server == Sockets(tries, n + 1)
    ensures OpenAll(k, tries).server - k.server == Sockets(tries, |tries|)
  {
    OpenAllOpens(k, tries, n + 1);
    OpenAllOpens(k, tries, |tries|);
    assert tries[..|tries|] == tries;
    forall fd ensures fd in OpenAll(k, tries[..n + 1]).server - k.server - {tries[n].fd} <==> fd in Sockets(tries, n) {
      LeakedExactly(k, tries, n, fd);
    }
  }
}
