/** The invariant of the network thread and of everything it keeps in step. */
module Invariant {
  import opened Types
  import opened OwningVector
  import opened Poll
  import opened Machine
  import opened History
  import opened Clients
  import opened Separation

  // ----- the parts of the vector, by where the thread is -----

  predicate Sweeping(pc: PC) {
    pc.SweepWalk? || pc.DisconnectHandler?
  }

  predicate Reading(pc: PC) {
    pc.ReadTest? || pc.ReadEvent? || pc.DataHandler?
  }

  predicate Looping(pc: PC) {
    !pc.Starting? && !pc.Opening? && !pc.Exited? && !pc.Destroyed? && !pc.Fault?
  }

  function FrontEnd(s: State): int {
    if Sweeping(s.pc) then s.pc.k else |s.slots|
  }

  function TodoStart(s: State): int {
    if s.pc.SweepWalk? then s.pc.j else if s.pc.DisconnectHandler? then s.pc.j + 1 else |s.slots|
  }

  /** The next id to be announced by a Connect callback. */
  function Limit(s: State): ClientId {
    if s.pc.AcceptCall? then s.pc.newId else s.nextId
  }

  // ----- the poll group -----

  /** The descriptors of a list that lie in a set, in order. */
  function Restrict(fds: seq<Fd>, keep: set<Fd>): seq<Fd> {
    if fds == [] then []
    else
      var r := Restrict(fds[..|fds| - 1], keep);
      if fds[|fds| - 1] in keep then r + [fds[|fds| - 1]] else r
  }

  /** The poll group watches the front in order, and besides it only clients still to be removed. */
  predicate Watching(fds: seq<Fd>, front: seq<Slot>, todo: seq<Slot>) {
    NoNull(front) && Restrict(fds, FdSet(front)) == FdSeq(front) &&
    forall f :: f in fds ==> f in FdSet(front) || f in FdSet(todo)
  }

  // ----- sockets -----

  predicate Settled(s: seq<Slot>, k: int) {
    forall i :: 0 <= i < k <= |s| && s[i].Own? ==> s[i].c.sock == s[i].c.fd
  }

  /** A connection that receive() closed belongs to a marked client. */
  predicate ClosedIsMarked(s: seq<Slot>) {
    forall i :: 0 <= i < |s| && s[i].Own? && s[i].c.sock == 0 ==> !s[i].c.connected
  }

  function EventFds(events: seq<Readiness>): (r: seq<Fd>)
    ensures |r| == |events|
    ensures forall i :: 0 <= i < |r| ==> r[i] == events[i].fd
  {
    seq(|events|, i requires 0 <= i < |events| => events[i].fd)
  }

  /** Only clients whose event has been handled have a closed connection. */
  predicate ClosedIsHandled(s: seq<Slot>, handled: seq<Fd>) {
    forall i :: 0 <= i < |s| && s[i].Own? && s[i].c.sock == 0 ==> s[i].c.fd in handled
  }

  predicate SocketsOk(s: State) {
    if Reading(s.pc) then
      ClosedIsMarked(s.slots) && s.pc.i <= |s.pc.events| &&
      ClosedIsHandled(s.slots, EventFds(s.pc.events)[..s.pc.i])
    else if s.pc.SweepTest? then ClosedIsMarked(s.slots)
    else Settled(s.slots, FrontEnd(s))
  }

  predicate Distinct(fds: seq<Fd>) {
    forall i, j :: 0 <= i < j < |fds| ==> fds[i] != fds[j]
  }

  /** Readiness reports name distinct watched clients. */
  predicate EventsOk(s: State) {
    Reading(s.pc) ==>
      s.pc.i <= |s.pc.events| && (s.pc.ReadTest? || s.pc.i < |s.pc.events|) &&
      Distinct(EventFds(s.pc.events)) &&
      forall f :: f in EventFds(s.pc.events) ==> f in FdSet(s.slots)
  }

  /** The server's open descriptors are the acceptor's and the clients', each owned once. */
  predicate Owning(open: set<Fd>, s: seq<Slot>, acceptor: Fd) {
    acceptor >= 0 && acceptor !in Socks(s) && 0 !in Socks(s) &&
    open == Socks(s) + (if acceptor != 0 then {acceptor} else {})
  }

  // ----- history -----

  predicate AllConnected(s: seq<Slot>) {
    forall i :: 0 <= i < |s| && s[i].Own? ==> s[i].c.connected
  }

  ghost predicate LifeOk(t: seq<Event>, s: seq<Slot>, k: int, j: int, limit: ClientId) {
    (forall i :: 0 <= i < |s| && s[i].Own? ==> LifeOf(t, s[i].c.id) == if k <= i < j then Gone else Live) &&
    (forall id: ClientId :: LifeOf(t, id) == Absent <==> id == 0 || id >= limit)
  }

  ghost predicate LiveIsKnown(t: seq<Event>, s: seq<Slot>) {
    forall id: ClientId :: LifeOf(t, id) == Live ==> id in IdSet(s)
  }

  predicate CountsOk(t: seq<Event>, present: int) {
    |ConnectIds(t)| - |DisconnectIds(t)| == present
  }

  /** Outside a sweep: vector, poll group, flag and callbacks agree. */
  ghost predicate AtRest(s: seq<Slot>, pfds: seq<Pollfd>, flag: bool, t: seq<Event>, limit: ClientId) {
    |ConnectIds(t)| == limit - 1 &&
    NoNull(s) && Increasing(s) && Sound(s, limit) &&
    Fds(pfds) == FdSeq(s) && (flag || AllConnected(s)) &&
    LifeOk(t, s, |s|, |s|, limit) && LiveIsKnown(t, s) && CountsOk(t, |s|)
  }

  /** Inside a sweep; what is said of a vector without null slots is what a normal sweep keeps. */
  ghost predicate InSweep(s: seq<Slot>, pfds: seq<Pollfd>, t: seq<Event>, limit: ClientId, k: int, j: int) {
    |ConnectIds(t)| == limit - 1 &&
    Layout(s, k, j) && Sound(s, limit) && LifeOk(t, s, k, j, limit) &&
    (NoNull(s) ==>
       Watching(Fds(pfds), s[..k], s[j..]) && LiveIsKnown(t, s) && CountsOk(t, k + |s| - j))
  }

  /** True even after a fault: the callbacks and the descriptors have been in order so far. */
  ghost predicate HistoryOk(t: seq<Event>, kernel: Kernel) {
    (forall id: ClientId :: LifeOf(t, id) != Violated) &&
    ConnectIds(t) == UpTo(|ConnectIds(t)|) &&
    Balanced(kernel)
  }

  ghost predicate Alive(s: State) {
    (s.pc.AcceptCall? ==> s.nextId == s.pc.newId + 1) &&
    (s.acceptor != 0 <==> Looping(s.pc)) && Owning(s.kernel.server, s.slots, s.acceptor) &&
    SocketsOk(s) && EventsOk(s) &&
    if Sweeping(s.pc) then s.flag && InSweep(s.slots, s.pfds, s.trace, s.nextId, s.pc.k, TodoStart(s))
    else AtRest(s.slots, s.pfds, s.flag, s.trace, Limit(s))
  }

  ghost predicate Inv(s: State) {
    HistoryOk(s.trace, s.kernel) &&
    if s.pc.Fault? then true
    else if s.pc.Destroyed? then s.slots == [] && s.kernel.server == {}
    else Alive(s)
  }

  // ----- releasing several connections -----

  lemma {:induction false} ReleaseAllEffect(k: Kernel, s: seq<Slot>, limit: ClientId)
    requires Balanced(k) && Sound(s, limit) && Socks(s) <= k.server
    ensures Balanced(ReleaseAll(k, s))
    ensures ReleaseAll(k, s).server == k.server - Socks(s)
    ensures ReleaseAll(k, s).foreign == k.foreign
    decreases |s|
  {
    if s != [] {
      var rest := s[1..];
      assert s == [s[0]] + rest;
      SetsOfConcat([s[0]], rest);
      SoundPart(s, limit, 1, |s|);
      assert s[1..|s|] == rest;
      if s[0].Null? {
        assert Socks([s[0]]) == {};
        ReleaseAllEffect(k, rest, limit);
      } else {
        SetsOfOne(s[0].c);
        SoundHalves([s[0]], rest, limit);
        ReleaseBalanced(k, s[0].c.sock);
        NoZeroSock(rest);
        ReleaseAllEffect(Release(k, s[0].c.sock), rest, limit);
      }
    } else {
      assert Socks(s) == {};
    }
  }

  /** Connections that hold no socket are released without effect. */
  lemma {:induction false} ReleaseNothing(k: Kernel, s: seq<Slot>)
    requires forall i :: 0 <= i < |s| && s[i].Own? ==> s[i].c.sock == 0
    ensures ReleaseAll(k, s) == k
    decreases |s|
  {
    if s == [] {
    } else {
      ReleaseNothing(k, s[1..]);
    }
  }

  // ----- restricting the watch list -----

  lemma {:induction false} RestrictAll(fds: seq<Fd>, keep: set<Fd>)
    requires forall f :: f in fds ==> f in keep
    ensures Restrict(fds, keep) == fds
  {
    if fds == [] {
    } else {
      var p, f := fds[..|fds| - 1], fds[|fds| - 1];
      assert f in fds && fds == p + [f];
      RestrictAll(p, keep);
      assert Restrict(fds, keep) == p + [f];
    }
  }

  /** Two sets that agree on the list restrict it alike. */
  lemma {:induction false} RestrictAgree(fds: seq<Fd>, a: set<Fd>, b: set<Fd>)
    requires forall f :: f in fds ==> (f in a <==> f in b)
    ensures Restrict(fds, a) == Restrict(fds, b)
  {
    if fds == [] {
    } else {
      var p, f := fds[..|fds| - 1], fds[|fds| - 1];
      assert f in fds && fds == p + [f];
      RestrictAgree(p, a, b);
      assert Restrict(fds, a) == Restrict(p, a) + if f in a then [f] else [];
    }
  }

  lemma {:induction false} RestrictPush(fds: seq<Fd>, f: Fd, keep: set<Fd>)
    ensures Restrict(fds + [f], keep) == Restrict(fds, keep) + if f in keep then [f] else []
  {
    assert (fds + [f])[..|fds|] == fds;
  }

  /** remove_socket of a descriptor outside the kept set does not disturb the kept ones. */
  lemma {:induction false} WithoutRestricts(pfds: seq<Pollfd>, fd: Fd, keep: set<Fd>)
    requires fd !in keep
    ensures Restrict(Fds(Without(pfds, fd)), keep) == Restrict(Fds(pfds), keep)
  {
    if pfds == [] {
    } else {
      var p', p := pfds[..|pfds| - 1], pfds[|pfds| - 1];
      var w := Without(p', fd);
      WithoutRestricts(p', fd, keep);
      assert Fds(pfds) == Fds(p') + [p.fd];
      RestrictPush(Fds(p'), p.fd, keep);
      if p.fd != fd {
        assert Without(pfds, fd) == w + [p];
        assert Fds(w + [p]) == Fds(w) + [p.fd];
        RestrictPush(Fds(w), p.fd, keep);
      }
    }
  }

  lemma {:induction false} FdSeqMembers(s: seq<Slot>)
    requires NoNull(s)
    ensures forall f :: f in FdSeq(s) <==> f in FdSet(s)
  {
    forall f | f in FdSet(s) ensures f in FdSeq(s) {
      var x :| x in s && x.Own? && x.c.fd == f;
      var i :| 0 <= i < |s| && s[i] == x;
      assert FdSeq(s)[i] == f;
    }
    forall f | f in FdSeq(s) ensures f in FdSet(s) {
      var i :| 0 <= i < |s| && FdSeq(s)[i] == f;
      assert s[i] in s;
    }
  }

  /** The watch list of a whole vector, restricted to the kept clients, is their watch list. */
  lemma {:induction false} KeptWatched(s: seq<Slot>, limit: ClientId)
    requires NoNull(s) && Sound(s, limit)
    ensures NoNull(Kept(s)) && Restrict(FdSeq(s), FdSet(Kept(s))) == FdSeq(Kept(s))
  {
    KeptOwns(s);
    if s == [] {
    } else {
      var s', y := s[..|s| - 1], s[|s| - 1];
      SoundPart(s, limit, 0, |s| - 1);
      assert s[0..|s| - 1] == s';
      KeptWatched(s', limit);
      var keep', fds' := FdSet(Kept(s')), FdSeq(s');
      assert y.c.fd !in keep' by {
        SockIsOwnedOnce(s, |s| - 1, limit);
        FilterSets(s');
      }
      assert FdSeq(s) == fds' + [y.c.fd];
      if IsMarked(y) {
        RestrictPush(fds', y.c.fd, keep');
      } else {
        KeptWatchedPush(s', y);
      }
    }
  }

  lemma {:induction false} KeptWatchedPush(s: seq<Slot>, y: Slot)
    requires NoNull(s) && y.Own? && !IsMarked(y) && y.c.fd !in FdSet(s)
    requires NoNull(Kept(s)) && Restrict(FdSeq(s), FdSet(Kept(s))) == FdSeq(Kept(s))
    ensures NoNull(Kept(s) + [y]) && Restrict(FdSeq(s) + [y.c.fd], FdSet(Kept(s) + [y])) == FdSeq(Kept(s) + [y])
  {
    var keep, fds := FdSet(Kept(s)), FdSeq(s);
    var keep' := FdSet(Kept(s) + [y]);
    assert keep' == keep + {y.c.fd} by {
      SetsOfConcat(Kept(s), [y]);
      SetsOfOne(y.c);
    }
    assert y.c.fd !in fds by { FdSeqMembers(s); }
    RestrictAgree(fds, keep, keep');
    RestrictPush(fds, y.c.fd, keep');
    assert FdSeq(Kept(s) + [y]) == FdSeq(Kept(s)) + [y.c.fd];
  }
}
