/** Every step of the network thread, of its callers and of the rest of the process keeps the invariant. */
module Preservation {
  import opened Types
  import opened OwningVector
  import opened Poll
  import opened Machine
  import opened History
  import opened Clients
  import opened Separation
  import opened Invariant
  import opened Interface

  lemma {:induction false} InitialInv(foreign: set<Fd>)
    ensures Inv(Initial(foreign))
  {
    var s := Initial(foreign);
    assert Socks([]) == {};
    assert forall id: ClientId :: LifeOf(s.trace, id) == Absent;
  }

  // ----- putting the parts together -----

  lemma {:induction false} SweepInv(s: State)
    requires HistoryOk(s.trace, s.kernel) && Sweeping(s.pc) && s.flag && s.acceptor != 0
    requires Owning(s.kernel.server, s.slots, s.acceptor) && Settled(s.slots, s.pc.k)
    requires InSweep(s.slots, s.pfds, s.trace, s.nextId, s.pc.k, TodoStart(s))
    ensures Inv(s)
  {
  }

  lemma {:induction false} RestInv(s: State)
    requires HistoryOk(s.trace, s.kernel) && (s.pc.Head? || s.pc.ConnectHandler?) && s.acceptor != 0
    requires Owning(s.kernel.server, s.slots, s.acceptor) && Settled(s.slots, |s.slots|)
    requires AtRest(s.slots, s.pfds, s.flag, s.trace, s.nextId)
    ensures Inv(s)
  {
  }

  lemma {:induction false} ReadInv(s: State)
    requires HistoryOk(s.trace, s.kernel) && Reading(s.pc) && s.acceptor != 0
    requires Owning(s.kernel.server, s.slots, s.acceptor) && SocketsOk(s) && EventsOk(s)
    requires AtRest(s.slots, s.pfds, s.flag, s.trace, s.nextId)
    ensures Inv(s)
  {
  }

  // ----- descriptors -----

  lemma {:induction false} OwningOpen(k: Kernel, s: seq<Slot>, acceptor: Fd, c: Client)
    requires Owning(k.server, s, acceptor) && Fresh(k, c.fd) && c.sock == c.fd && 0 !in k.server
    ensures Owning(OpenFd(k, c.fd).server, s + [Own(c)], acceptor)
  {
    SetsOfConcat(s, [Own(c)]);
    SetsOfOne(c);
  }

  lemma {:induction false} OwningListener(k: Kernel, s: seq<Slot>, fd: Fd)
    requires Owning(k.server, s, 0) && Fresh(k, fd)
    ensures Owning(OpenFd(k, fd).server, s, fd)
  {
  }

  /** Closing the socket of the client at i leaves the others owning what they owned. */
  lemma {:induction false} OwningClose(k: Kernel, s: seq<Slot>, acceptor: Fd, i: nat, limit: ClientId)
    requires Owning(k.server, s, acceptor) && Balanced(k) && Sound(s, limit) && i < |s| && s[i].Own?
    ensures Owning(Release(k, s[i].c.sock).server, Unsock(s, i), acceptor)
    ensures Balanced(Release(k, s[i].c.sock))
    ensures Release(k, s[i].c.sock).foreign == k.foreign
  {
    var sock := s[i].c.sock;
    assert sock == 0 || sock in Socks(s) by { assert s[i] in s; }
    ReleaseBalanced(k, sock);
    UnsockSets(s, i, limit);
  }

  lemma {:induction false} OwningMarks(open: set<Fd>, a: seq<Slot>, b: seq<Slot>, acceptor: Fd)
    requires Owning(open, a, acceptor) && SameButMarks(a, b)
    ensures Owning(open, b, acceptor)
  {
    MarksKeepSets(a, b);
  }

  lemma {:induction false} OwningSeparated(m: Mode, k: Kernel, s: seq<Slot>, acceptor: Fd, limit: ClientId)
    requires Owning(k.server, s, acceptor) && Balanced(k) && Sound(s, limit)
    ensures Owning(ReleaseAll(k, Lost(m, s)).server, Separated(m, s), acceptor)
    ensures Balanced(ReleaseAll(k, Lost(m, s)))
    ensures ReleaseAll(k, Lost(m, s)).foreign == k.foreign
  {
    SeparatedSocks(m, s, limit);
    ReleaseAllEffect(k, Lost(m, s), limit);
  }

  // ----- start, loop head, destruction -----

  lemma {:induction false} HeadInv(s: State)
    requires Inv(s) && (s.pc.Starting? || s.pc.Head?)
    ensures Inv(Next(AsWritten, s, Go))
  {
    if s.pc.Head? && !s.running {
      ReleaseBalanced(s.kernel, s.acceptor);
    }
  }

  lemma {:induction false} ListeningInv(s: State, fd: Fd)
    requires Inv(s) && Enabled(s, Listening(fd))
    ensures Inv(Next(AsWritten, s, Listening(fd)))
  {
    OpenBalanced(s.kernel, fd);
    OwningListener(s.kernel, s.slots, fd);
    RestInv(Next(AsWritten, s, Listening(fd)));
  }

  lemma {:induction false} DestroyInv(s: State)
    requires Inv(s) && s.pc.Exited?
    ensures Inv(Next(AsWritten, s, Destroy))
  {
    ReleaseAllEffect(s.kernel, s.slots, Limit(s));
  }

  // ----- peers and the rest of the process -----

  lemma {:induction false} PeersInv(s: State, streams: Streams)
    requires Inv(s)
    ensures Inv(s.(streams := streams))
  {
  }

  lemma {:induction false} ForeignInv(s: State, kernel: Kernel)
    requires Inv(s) && kernel.server == s.kernel.server && kernel.log == s.kernel.log && kernel.server !! kernel.foreign
    ensures Inv(s.(kernel := kernel))
  {
  }

  lemma {:induction false} OthersInv(m: Mode, s: State, i: Input)
    requires Inv(s) && ByOthers(i) && Enabled(s, i)
    ensures Inv(Next(m, s, i))
  {
    if i.PeerSends? || i.PeerCloses? {
      PeersInv(s, Next(m, s, i).streams);
    } else {
      ForeignInv(s, Next(m, s, i).kernel);
    }
  }

  // ----- the accept phase -----

  lemma {:induction false} AcceptTestInv(s: State)
    requires Inv(s) && s.pc.AcceptTest?
    ensures Inv(Next(AsWritten, s, Go))
  {
  }

  lemma {:induction false} PendingInv(s: State, yes: bool)
    requires Inv(s) && s.pc.AcceptAsk?
    ensures Inv(Next(AsWritten, s, Pending(yes)))
  {
  }

  lemma {:induction false} AcceptFailedInv(s: State, errno: ErrorCode)
    requires Inv(s) && Enabled(s, AcceptFailed(errno))
    ensures Inv(Next(AsWritten, s, AcceptFailed(errno)))
  {
  }

  lemma {:induction false} RefusedInv(s: State, fd: Fd)
    requires Inv(s) && Enabled(s, Accepted(fd)) && s.ec != 0
    ensures Inv(AcceptOk(s, fd))
    ensures AcceptOk(s, fd).kernel.server == s.kernel.server
  {
    OpenBalanced(s.kernel, fd);
    ReleaseBalanced(OpenFd(s.kernel, fd), fd);
  }

  lemma {:induction false} ConnectLives(t: seq<Event>, s: seq<Slot>, c: Client)
    requires LifeOk(t, s, |s|, |s|, c.id) && c.id > 0 && Sound(s, c.id) && NoNull(s) && LiveIsKnown(t, s)
    requires forall id: ClientId :: LifeOf(t, id) != Violated
    ensures LifeOk(t + [Connect(c.id)], s + [Own(c)], |s| + 1, |s| + 1, c.id + 1)
    ensures LiveIsKnown(t + [Connect(c.id)], s + [Own(c)])
    ensures forall id: ClientId :: LifeOf(t + [Connect(c.id)], id) != Violated
  {
    var t', s' := t + [Connect(c.id)], s + [Own(c)];
    forall id: ClientId ensures LifeOf(t', id) == if id == c.id then Live else LifeOf(t, id) {
      LifeAfter(t, Connect(c.id), id);
    }
    SetsOfConcat(s, [Own(c)]);
    SetsOfOne(c);
  }

  /** While every connection is settled, a descriptor not open is not in the vector either. */
  lemma {:induction false} FreshIsNew(open: set<Fd>, s: seq<Slot>, fd: Fd, limit: ClientId)
    requires NoNull(s) && Sound(s, limit) && Settled(s, |s|) && Socks(s) <= open && fd !in open
    ensures fd !in FdSet(s)
  {
    forall x | x in s && x.Own? ensures x.c.fd in open {
      var i :| 0 <= i < |s| && s[i] == x;
      assert ClientOk(s[i].c, limit);
      assert x.c.sock in Socks(s);
    }
  }

  lemma {:induction false} AcceptedAtRest(
    s: seq<Slot>, pfds: seq<Pollfd>, flag: bool, t: seq<Event>, c: Client, p: Pollfd)
    requires AtRest(s, pfds, flag, t, c.id) && c.id > 0 && c.fd > 0 && c.sock == c.fd && c.connected
    requires p.fd == c.fd && c.fd !in FdSet(s)
    requires forall id: ClientId :: LifeOf(t, id) != Violated
    ensures AtRest(s + [Own(c)], pfds + [p], flag, t + [Connect(c.id)], c.id + 1)
  {
    PushKeeps(s, c, c.id);
    ConnectLives(t, s, c);
    IdsAfter(t, Connect(c.id));
    assert Fds(pfds + [p]) == Fds(pfds) + [c.fd];
  }

  lemma {:induction false} AcceptedHistory(t: seq<Event>, s: seq<Slot>, c: Client, k: Kernel)
    requires HistoryOk(t, k) && |ConnectIds(t)| == c.id - 1 && Fresh(k, c.fd)
    requires LifeOk(t, s, |s|, |s|, c.id) && c.id > 0 && Sound(s, c.id) && NoNull(s) && LiveIsKnown(t, s)
    ensures HistoryOk(t + [Connect(c.id)], OpenFd(k, c.fd))
  {
    OpenBalanced(k, c.fd);
    ConnectLives(t, s, c);
    IdsAfter(t, Connect(c.id));
    assert ConnectIds(t + [Connect(c.id)]) == UpTo(c.id);
  }

  lemma {:induction false} AcceptedParts(s: State, fd: Fd)
    requires s.pc.AcceptCall? && s.ec == 0 && s.nextId == s.pc.newId + 1 && s.acceptor != 0 && Fresh(s.kernel, fd)
    requires HistoryOk(s.trace, s.kernel) && Owning(s.kernel.server, s.slots, s.acceptor)
    requires Settled(s.slots, |s.slots|) && AtRest(s.slots, s.pfds, s.flag, s.trace, s.pc.newId) && s.pc.newId > 0
    ensures Inv(AcceptOk(s, fd))
  {
    var c := Client(s.pc.newId, fd, fd, true);
    FreshIsNew(s.kernel.server, s.slots, fd, c.id);
    AcceptedAtRest(s.slots, s.pfds, s.flag, s.trace, c, Pollfd(fd, POLLIN, 0));
    AcceptedHistory(s.trace, s.slots, c, s.kernel);
    OwningOpen(s.kernel, s.slots, s.acceptor, c);
    RestInv(AcceptOk(s, fd));
  }

  lemma {:induction false} AcceptedInv(s: State, fd: Fd)
    requires Inv(s) && Enabled(s, Accepted(fd)) && s.ec == 0
    ensures Inv(AcceptOk(s, fd))
  {
    AcceptedParts(s, fd);
  }

  // ----- the read phase -----

  lemma {:induction false} ReportsAreWatched(pfds: seq<Pollfd>)
    requires Distinct(Fds(pfds))
    ensures Distinct(EventFds(Reports(pfds)))
    ensures forall f :: f in EventFds(Reports(pfds)) ==> f in Fds(pfds)
  {
    if pfds == [] {
    } else {
      var p', p := pfds[..|pfds| - 1], pfds[|pfds| - 1];
      assert Fds(pfds) == Fds(p') + [p.fd];
      assert Distinct(Fds(p')) by {
        assert forall i :: 0 <= i < |p'| ==> Fds(p')[i] == Fds(pfds)[i];
      }
      ReportsAreWatched(p');
      var r' := Reports(p');
      if p.revents != 0 {
        assert EventFds(Reports(pfds)) == EventFds(r') + [p.fd];
        assert p.fd !in Fds(p') by {
          assert Fds(pfds)[|pfds| - 1] == p.fd;
          assert forall i :: 0 <= i < |p'| ==> Fds(p')[i] == Fds(pfds)[i];
        }
        assert forall i :: 0 <= i < |r'| ==> EventFds(r')[i] in EventFds(r');
      }
    }
  }

  lemma {:induction false} FdSeqDistinct(s: seq<Slot>)
    requires NoNull(s) && Pairwise(s)
    ensures Distinct(FdSeq(s))
  {
    forall i, j | 0 <= i < j < |s| ensures FdSeq(s)[i] != FdSeq(s)[j] { assert Apart(s[i], s[j]); }
  }

  lemma {:induction false} PolledInv(s: State, answer: PollAnswer)
    requires Inv(s) && s.pc.PollCall?
    ensures Inv(Next(AsWritten, s, Polled(answer)))
  {
    var s' := Next(AsWritten, s, Polled(answer));
    assert Fds(s'.pfds) == Fds(s.pfds);
    PolledEvents(s.slots, s'.pfds);
    assert SocketsOk(s') by { assert ClosedIsMarked(s.slots) by { SettledIsOpen(s.slots, s.nextId); } }
    ReadInv(s');
  }

  /** Polling a group that matches the vector reports distinct clients of it. */
  lemma {:induction false} PolledEvents(s: seq<Slot>, pfds: seq<Pollfd>)
    requires NoNull(s) && Pairwise(s) && Fds(pfds) == FdSeq(s)
    ensures Distinct(EventFds(Reports(pfds)))
    ensures forall f :: f in EventFds(Reports(pfds)) ==> f in FdSet(s)
  {
    FdSeqDistinct(s);
    ReportsAreWatched(pfds);
    FdSeqMembers(s);
  }

  lemma {:induction false} SettledIsOpen(s: seq<Slot>, limit: ClientId)
    requires Sound(s, limit) && Settled(s, |s|)
    ensures forall i :: 0 <= i < |s| && s[i].Own? ==> s[i].c.sock != 0
  {
    forall i | 0 <= i < |s| && s[i].Own? ensures s[i].c.sock != 0 { assert ClientOk(s[i].c, limit); }
  }

  lemma {:induction false} ReadTestInv(s: State)
    requires Inv(s) && s.pc.ReadTest?
    ensures Inv(Next(AsWritten, s, Go))
  {
  }

  /** An event always belongs to exactly one client, and that client's connection is open. */
  lemma {:induction false} EventResolves(s: State)
    requires Inv(s) && s.pc.ReadEvent?
    ensures s.pc.i < |s.pc.events|
    ensures var r := FindFd(s.slots, s.pc.events[s.pc.i].fd);
            r.Found? && s.slots[r.i].c.sock == s.pc.events[s.pc.i].fd &&
            forall n :: 0 <= n < |s.slots| && n != r.i ==> s.slots[n].c.fd != s.pc.events[s.pc.i].fd
  {
    var fds, n := EventFds(s.pc.events), s.pc.i;
    assert fds[n] in fds && fds[n] !in fds[..n];
    FindFdExact(s.slots, fds[n]);
    assert ClientOk(s.slots[FindFd(s.slots, fds[n]).i].c, Limit(s));
  }

  /** The descriptor of a client leads back to that client and no other. */
  lemma {:induction false} FindFdExact(s: seq<Slot>, fd: Fd)
    requires NoNull(s) && Pairwise(s) && fd in FdSet(s)
    ensures var r := FindFd(s, fd);
            r.Found? && forall n :: 0 <= n < |s| && n != r.i ==> s[n].c.fd != fd
  {
    var x :| x in s && x.Own? && x.c.fd == fd;
    var i :| 0 <= i < |s| && s[i] == x;
    var r := FindFd(s, fd);
    assert r.Found?;
    forall n | 0 <= n < |s| && n != r.i ensures s[n].c.fd != fd {
      if n < r.i { assert Apart(s[n], s[r.i]); } else { assert Apart(s[r.i], s[n]); }
    }
  }

  /** Moving on to the next event keeps the invariant. */
  lemma {:induction false} ReadNextInv(s: State)
    requires Inv(s) && (s.pc.ReadEvent? || s.pc.DataHandler?)
    ensures Inv(s.(pc := ReadNext(s.pc)))
  {
    var fds, n := EventFds(s.pc.events), s.pc.i;
    assert fds[..n + 1] == fds[..n] + [fds[n]];
  }

  lemma {:induction false} DropInv(s: State, id: ClientId)
    requires Inv(s) && s.pc.ReadEvent?
    ensures Inv(Drop(s, id))
  {
    RemoveIsQuiet(s, id);
    QuietKeepsInv(s, Remove(s, id));
    if !Remove(s, id).pc.Fault? { ReadNextInv(Remove(s, id)); }
  }

  lemma {:induction false} ReadSilentlyInv(s: State)
    requires Inv(s) && s.pc.ReadEvent?
    ensures s.pc.i < |s.pc.events| && Inv(ReadSilently(s))
  {
    EventResolves(s);
    ReadNextInv(s);
    var r := FindFd(s.slots, s.pc.events[s.pc.i].fd);
    DropInv(s, s.slots[r.i].c.id);
  }

  lemma {:induction false} DataLives(t: seq<Event>, e: Event, s: seq<Slot>, k: int, j: int, limit: ClientId)
    requires LifeOk(t, s, k, j, limit) && e.Data? && LifeOf(t, e.id) == Live
    ensures LifeOk(t + [e], s, k, j, limit)
    ensures LiveIsKnown(t, s) ==> LiveIsKnown(t + [e], s)
    ensures (forall id: ClientId :: LifeOf(t, id) != Violated) ==>
              forall id: ClientId :: LifeOf(t + [e], id) != Violated
  {
    forall id: ClientId ensures LifeOf(t + [e], id) == LifeOf(t, id) { LifeAfter(t, e, id); }
  }

  lemma {:induction false} DataInv(s: State, i: nat, bytes: Bytes)
    requires Inv(s) && s.pc.ReadEvent? && i < |s.slots| && s.slots[i].Own?
    ensures Inv(s.(trace := s.trace + [Data(s.slots[i].c.id, bytes)], pc := DataHandler(s.pc.events, s.pc.i)))
  {
    var e := Data(s.slots[i].c.id, bytes);
    DataLives(s.trace, e, s.slots, |s.slots|, |s.slots|, Limit(s));
    IdsAfter(s.trace, e);
  }

  /** The vector after receive() saw the end of the stream at position i. */
  function Hung(s: seq<Slot>, i: nat): seq<Slot>
    requires i < |s| && s[i].Own?
  {
    MarkAt(Unsock(s, i), i)
  }

  lemma {:induction false} HungAtRest(
    s: seq<Slot>, pfds: seq<Pollfd>, flag: bool, t: seq<Event>, limit: ClientId, i: nat)
    requires AtRest(s, pfds, flag, t, limit) && i < |s|
    ensures AtRest(Hung(s, i), pfds, true, t, limit)
    ensures FdSet(Hung(s, i)) == FdSet(s)
  {
    var u, h := Unsock(s, i), Hung(s, i);
    UnsockSound(s, i, limit);
    UnsockSets(s, i, limit);
    assert LifeOk(t, u, |u|, |u|, limit);
    assert SameButMarks(u, h);
    MarksKeepOrder(u, h, limit);
    MarksKeepSets(u, h);
    MarksKeepLives(t, u, h, |u|, |u|, limit);
  }

  lemma {:induction false} HungSockets(s: seq<Slot>, i: nat, fds: seq<Fd>, n: nat)
    requires NoNull(s) && i < |s| && n < |fds| && s[i].c.fd == fds[n]
    requires ClosedIsMarked(s) && ClosedIsHandled(s, fds[..n])
    ensures ClosedIsMarked(Hung(s, i)) && ClosedIsHandled(Hung(s, i), fds[..n + 1])
  {
    var h := Hung(s, i);
    assert fds[..n + 1] == fds[..n] + [fds[n]];
    forall p | 0 <= p < |h| && h[p].c.sock == 0 ensures h[p].c.fd in fds[..n + 1] {
      if p != i { assert h[p] == s[p]; }
    }
  }

  /** receive() saw the end of the stream: socket closed, client marked, next event. */
  lemma {:induction false} EofShape(s: State, i: nat, errno: ErrorCode)
    requires s.pc.ReadEvent? && i < |s.slots| && s.slots[i].Own? && s.slots[i].c.sock != 0
    requires FindId(s.slots, s.slots[i].c.id) == Found(i)
    ensures Receive(s, i, RecvEof(errno)) ==
            s.(kernel := Release(s.kernel, s.slots[i].c.sock), slots := Hung(s.slots, i),
               flag := true, ec := errno, pc := ReadNext(s.pc),
               streams := Append(s.streams, s.slots[i].c.id, Wire.ReceiveOp(MAX_BUFFER_SIZE, 0)))
  {
    UnsockFind(s.slots, i);
  }

  lemma {:induction false} EofParts(s: State, s': State, i: nat)
    requires s.pc.ReadEvent? && i < |s.slots| && s.slots[i].Own? && s.pc.i < |s.pc.events| && s.acceptor != 0
    requires s.slots[i].c.fd == s.pc.events[s.pc.i].fd && Owning(s.kernel.server, s.slots, s.acceptor)
    requires HistoryOk(s.trace, s.kernel) && SocketsOk(s) && EventsOk(s)
    requires AtRest(s.slots, s.pfds, s.flag, s.trace, s.nextId)
    requires s' == s.(kernel := Release(s.kernel, s.slots[i].c.sock), slots := Hung(s.slots, i),
                      flag := true, ec := s'.ec, pc := ReadNext(s.pc), streams := s'.streams)
    ensures Inv(s')
  {
    OwningClose(s.kernel, s.slots, s.acceptor, i, s.nextId);
    OwningMarks(s'.kernel.server, Unsock(s.slots, i), Hung(s.slots, i), s.acceptor);
    HungAtRest(s.slots, s.pfds, s.flag, s.trace, s.nextId, i);
    HungSockets(s.slots, i, EventFds(s.pc.events), s.pc.i);
    ReadInv(s');
  }

  lemma {:induction false} EofInv(s: State, i: nat, errno: ErrorCode)
    requires Inv(s) && s.pc.ReadEvent? && i < |s.slots| && s.slots[i].Own? && s.slots[i].c.sock != 0
    requires s.slots[i].c.fd == s.pc.events[s.pc.i].fd && FindId(s.slots, s.slots[i].c.id) == Found(i)
    ensures Inv(Receive(s, i, RecvEof(errno)))
  {
    EofShape(s, i, errno);
    EofParts(s, Receive(s, i, RecvEof(errno)), i);
  }

  lemma {:induction false} UnsockFind(s: seq<Slot>, i: nat, n: nat := 0)
    requires n <= i < |s| && s[i].Own? && FindId(s, s[i].c.id, n) == Found(i)
    ensures FindId(Unsock(s, i), s[i].c.id, n) == Found(i)
    decreases i - n
  {
    if n == i {
    } else {
      UnsockFind(s, i, n + 1);
    }
  }

  lemma {:induction false} FindIdExact(s: seq<Slot>, i: nat, n: nat := 0)
    requires Pairwise(s) && n <= i < |s| && s[i].Own?
    requires forall p :: n <= p < i ==> s[p].Own?
    ensures FindId(s, s[i].c.id, n) == Found(i)
    decreases i - n
  {
    if n == i {
    } else {
      assert Apart(s[n], s[i]);
      FindIdExact(s, i, n + 1);
    }
  }

  lemma {:induction false} HeardInv(s: State, i: nat, bytes: Bytes)
    requires Inv(s) && s.pc.ReadEvent? && i < |s.slots| && s.slots[i].Own? && s.slots[i].c.sock != 0
    ensures Inv(Receive(s, i, RecvData(bytes)))
  {
    var s' := Heard(s, i, RecvData(bytes));
    assert Inv(s');
    DropInv(s', s.slots[i].c.id);
    DataInv(s', i, bytes);
  }

  lemma {:induction false} ReceivedInv(s: State, r: Recv)
    requires Inv(s) && Enabled(s, Received(r))
    ensures Inv(Next(AsWritten, s, Received(r)))
  {
    EventResolves(s);
    var i := FindFd(s.slots, s.pc.events[s.pc.i].fd).i;
    var c := s.slots[i].c;
    match r
    case RecvEof(errno) =>
      assert ClientOk(c, Limit(s));
      FindIdExact(s.slots, i);
      EofInv(s, i, errno);
    case RecvError(errno) => DropInv(s.(ec := errno), c.id);
    case RecvData(bytes) => HeardInv(s, i, bytes);
  }

  // ----- handlers returning -----

  lemma {:induction false} ReturnInv(s: State)
    requires Inv(s) && Enabled(s, Return)
    ensures Inv(Next(AsWritten, s, Return))
  {
    if s.pc.DataHandler? { ReadNextInv(s); }
  }

  // ----- the sweep -----

  lemma {:induction false} KeptSettled(s: seq<Slot>, limit: ClientId)
    requires NoNull(s) && Sound(s, limit) && ClosedIsMarked(s)
    ensures Settled(Kept(s), |Kept(s)|)
  {
    forall i | 0 <= i < |Kept(s)| && Kept(s)[i].Own? ensures Kept(s)[i].c.sock == Kept(s)[i].c.fd {
      var x := Kept(s)[i];
      FilterMembers(s, x);
      var p :| 0 <= p < |s| && s[p] == x;
      assert ClientOk(s[p].c, limit);
    }
  }

  lemma {:induction false} SeparatedMembers(m: Mode, s: seq<Slot>, x: Slot)
    requires x in Separated(m, s) && x.Own?
    ensures x in s
  {
    FilterMembers(s, x);
    if m.AsWritten? {
      TailMembers(s[|Kept(s)|..]);
      if x !in Kept(s) {
        FilterMembers(s[|Kept(s)|..], x);
      }
    }
  }

  lemma {:induction false} SeparatedLives(m: Mode, t: seq<Event>, s: seq<Slot>, k: int, limit: ClientId)
    requires LifeOk(t, s, |s|, |s|, limit) && LiveIsKnown(t, s) && NoNull(s)
    ensures LifeOk(t, Separated(m, s), k, k, limit)
    ensures NoNull(Separated(m, s)) ==> LiveIsKnown(t, Separated(m, s))
  {
    var u := Separated(m, s);
    forall i | 0 <= i < |u| && u[i].Own? ensures LifeOf(t, u[i].c.id) == Live {
      SeparatedMembers(m, s, u[i]);
      var p :| 0 <= p < |s| && s[p] == u[i];
    }
    if NoNull(u) {
      SeparatedWhole(m, s);
      FilterSets(s);
      SetsOfConcat(Kept(s), Marked(s));
    }
  }

  lemma {:induction false} SeparatedInSweep(
    m: Mode, s: seq<Slot>, pfds: seq<Pollfd>, flag: bool, t: seq<Event>, limit: ClientId)
    requires AtRest(s, pfds, flag, t, limit)
    ensures InSweep(Separated(m, s), pfds, t, limit, |Kept(s)|, |Kept(s)|)
  {
    var u, k := Separated(m, s), |Kept(s)|;
    SeparatedLayout(m, s, limit);
    SeparatedLives(m, t, s, k, limit);
    if NoNull(u) {
      SeparatedWhole(m, s);
      assert u[..k] == Kept(s) && u[k..] == Marked(s);
      KeptWatched(s, limit);
      FdSeqMembers(s);
      FilterSets(s);
    }
  }

  lemma {:induction false} SeparatedSettled(m: Mode, s: seq<Slot>, limit: ClientId)
    requires NoNull(s) && Sound(s, limit) && Increasing(s) && ClosedIsMarked(s)
    ensures |Kept(s)| <= |Separated(m, s)| && Settled(Separated(m, s), |Kept(s)|)
  {
    SeparatedLayout(m, s, limit);
    KeptSettled(s, limit);
    assert forall i :: 0 <= i < |Kept(s)| ==> Separated(m, s)[i] == Kept(s)[i];
  }

  lemma {:induction false} SweepBeginInv(m: Mode, s: State)
    requires Inv(s) && s.pc.SweepTest?
    ensures Inv(SweepBegin(m, s))
    ensures SweepBegin(m, s).kernel.foreign == s.kernel.foreign
  {
    if s.flag {
      SweepSeparates(m, s);
    } else {
      SweepSkipped(m, s);
    }
  }

  lemma {:induction false} SweepSkipped(m: Mode, s: State)
    requires Inv(s) && s.pc.SweepTest? && !s.flag
    ensures Inv(SweepBegin(m, s)) && SweepBegin(m, s) == s.(pc := Head)
  {
    assert Settled(s.slots, |s.slots|) by {
      assert forall i :: 0 <= i < |s.slots| ==> ClientOk(s.slots[i].c, s.nextId);
    }
    RestInv(s.(pc := Head));
  }

  lemma {:induction false} SweepSeparates(m: Mode, s: State)
    requires Inv(s) && s.pc.SweepTest? && s.flag
    ensures Inv(SweepBegin(m, s))
    ensures SweepBegin(m, s).kernel.foreign == s.kernel.foreign
  {
    var k, u := |Kept(s.slots)|, Separated(m, s.slots);
    var s' := s.(slots := u, kernel := ReleaseAll(s.kernel, Lost(m, s.slots)), pc := SweepWalk(k, k));
    assert SweepBegin(m, s) == s';
    assert InSweep(u, s.pfds, s.trace, s.nextId, k, k) by {
      SeparatedInSweep(m, s.slots, s.pfds, s.flag, s.trace, s.nextId);
    }
    assert Settled(u, k) by { SeparatedSettled(m, s.slots, s.nextId); }
    OwningSeparated(m, s.kernel, s.slots, s.acceptor, s.nextId);
    SweepInv(s');
  }

  lemma {:induction false} DisconnectLives(t: seq<Event>, s: seq<Slot>, k: int, j: int, limit: ClientId)
    requires Sound(s, limit) && LifeOk(t, s, k, j, limit) && 0 <= k <= j < |s| && s[j].Own?
    ensures LifeOk(t + [Disconnect(s[j].c.id)], Unsock(s, j), k, j + 1, limit)
    ensures LiveIsKnown(t, s) ==> LiveIsKnown(t + [Disconnect(s[j].c.id)], Unsock(s, j))
    ensures (forall id: ClientId :: LifeOf(t, id) != Violated) ==>
              forall id: ClientId :: LifeOf(t + [Disconnect(s[j].c.id)], id) != Violated
  {
    var gone := s[j].c.id;
    var t' := t + [Disconnect(gone)];
    forall id: ClientId ensures LifeOf(t', id) == if id == gone then Gone else LifeOf(t, id) {
      LifeAfter(t, Disconnect(gone), id);
    }
    forall i | 0 <= i < |s| && i != j && s[i].Own? ensures s[i].c.id != gone {
      if i < j { assert Apart(s[i], s[j]); } else { assert Apart(s[j], s[i]); }
    }
    UnsockSets(s, j, limit);
  }

  lemma {:induction false} WithoutMembers(pfds: seq<Pollfd>, fd: Fd, f: Fd)
    requires f in Fds(Without(pfds, fd))
    ensures f in Fds(pfds) && f != fd
  {
    var w := Without(pfds, fd);
    var i :| 0 <= i < |w| && w[i].fd == f;
    WithoutIsExact(pfds, fd, w[i]);
    var n :| 0 <= n < |pfds| && pfds[n] == w[i];
    assert Fds(pfds)[n] == f;
  }

  lemma {:induction false} WatchingWithout(pfds: seq<Pollfd>, s: seq<Slot>, k: nat, j: nat, limit: ClientId)
    requires Sound(s, limit) && k <= j < |s| && s[j].Own?
    requires Watching(Fds(pfds), s[..k], s[j..])
    ensures Watching(Fds(Without(pfds, s[j].c.fd)), s[..k], s[j + 1..])
  {
    var front, c := s[..k], s[j].c;
    assert c.fd !in FdSet(front) by {
      SockIsOwnedOnce(s, j, limit);
      assert s[..j] == front + s[k..j];
      SetsOfConcat(front, s[k..j]);
    }
    WithoutRestricts(pfds, c.fd, FdSet(front));
    assert FdSet(s[j..]) == {c.fd} + FdSet(s[j + 1..]) by {
      assert s[j..] == [s[j]] + s[j + 1..];
      SetsOfConcat([s[j]], s[j + 1..]);
      SetsOfOne(c);
    }
    forall f | f in Fds(Without(pfds, c.fd)) ensures f in FdSet(front) || f in FdSet(s[j + 1..]) {
      WithoutMembers(pfds, c.fd, f);
    }
  }

  lemma {:induction false} UnsockOwns(s: seq<Slot>, i: nat)
    requires i < |s| && s[i].Own?
    ensures NoNull(Unsock(s, i)) <==> NoNull(s)
  {
    if NoNull(Unsock(s, i)) {
      forall p | 0 <= p < |s| ensures s[p].Own? { assert Unsock(s, i)[p].Own?; }
    }
  }

  lemma {:induction false} OneInSweep(s: seq<Slot>, pfds: seq<Pollfd>, t: seq<Event>, limit: ClientId, k: nat, j: nat)
    requires InSweep(s, pfds, t, limit, k, j) && j < |s| && s[j].Own?
    ensures InSweep(Unsock(s, j), Without(pfds, s[j].c.fd), t + [Disconnect(s[j].c.id)], limit, k, j + 1)
  {
    var u, t' := Unsock(s, j), t + [Disconnect(s[j].c.id)];
    UnsockSound(s, j, limit);
    UnsockOwns(s, j);
    DisconnectLives(t, s, k, j, limit);
    IdsAfter(t, Disconnect(s[j].c.id));
    assert u[..k] == s[..k] && u[j + 1..] == s[j + 1..];
    if NoNull(u) { WatchingWithout(pfds, s, k, j, limit); }
  }

  lemma {:induction false} SweepOneInv(s: State)
    requires Inv(s) && s.pc.SweepWalk? && s.pc.j < |s.slots|
    ensures Inv(SweepOne(s))
  {
    var k, j := s.pc.k, s.pc.j;
    if s.slots[j].Own? {
      OwningClose(s.kernel, s.slots, s.acceptor, j, s.nextId);
      OneHistory(s.trace, s.kernel, s.slots, k, j, s.nextId);
      OneInSweep(s.slots, s.pfds, s.trace, s.nextId, k, j);
      assert SweepOne(s).slots == Unsock(s.slots, j);
      SweepInv(SweepOne(s));
    }
  }

  lemma {:induction false} OneHistory(t: seq<Event>, kernel: Kernel, s: seq<Slot>, k: int, j: int, limit: ClientId)
    requires HistoryOk(t, kernel) && Sound(s, limit) && LifeOk(t, s, k, j, limit)
    requires 0 <= k <= j < |s| && s[j].Own? && Balanced(Release(kernel, s[j].c.sock))
    ensures HistoryOk(t + [Disconnect(s[j].c.id)], Release(kernel, s[j].c.sock))
  {
    DisconnectLives(t, s, k, j, limit);
    IdsAfter(t, Disconnect(s[j].c.id));
  }

  lemma {:induction false} WatchingAll(pfds: seq<Pollfd>, front: seq<Slot>)
    requires Watching(Fds(pfds), front, [])
    ensures Fds(pfds) == FdSeq(front)
  {
    assert FdSet([]) == {};
    RestrictAll(Fds(pfds), FdSet(front));
  }

  lemma {:induction false} TailIsGone(s: seq<Slot>, t: seq<Event>, limit: ClientId, k: nat)
    requires k <= |s| && Layout(s, k, |s|) && LifeOk(t, s, k, |s|, limit)
    ensures Socks(s[k..]) == {} && Socks(s) == Socks(s[..k])
    ensures LiveIsKnown(t, s) ==> LiveIsKnown(t, s[..k])
  {
    var front, tail := s[..k], s[k..];
    assert s == front + tail;
    SetsOfConcat(front, tail);
    forall x | x in tail && x.Own? ensures x.c.sock == 0 && LifeOf(t, x.c.id) == Gone {
      var i :| 0 <= i < |tail| && tail[i] == x;
      assert s[k + i] == x;
    }
  }

  lemma {:induction false} EndAtRest(s: seq<Slot>, pfds: seq<Pollfd>, t: seq<Event>, limit: ClientId, k: nat)
    requires InSweep(s, pfds, t, limit, k, |s|)
    ensures AtRest(s[..k], pfds, true, t, limit)
  {
    var front := s[..k];
    assert s[|s|..] == [];
    assert NoNull(s);
    WatchingAll(pfds, front);
    SoundPart(s, limit, 0, k);
    assert s[0..k] == front;
    TailIsGone(s, t, limit, k);
  }

  lemma {:induction false} SweepEndInv(s: State)
    requires Inv(s) && s.pc.SweepWalk? && s.pc.j >= |s.slots|
    ensures Inv(SweepEnd(s))
    ensures SweepEnd(s).kernel == s.kernel
  {
    var k := s.pc.k;
    var tail := s.slots[k..];
    assert s.pc.j == |s.slots|;
    assert forall i :: 0 <= i < |tail| ==> tail[i] == s.slots[k + i];
    ReleaseNothing(s.kernel, tail);
    EndAtRest(s.slots, s.pfds, s.trace, s.nextId, k);
    TailIsGone(s.slots, s.trace, s.nextId, k);
    RestInv(SweepEnd(s));
  }

  // ----- every step -----

  lemma {:induction false} GoInv(m: Mode, s: State)
    requires Inv(s) && Enabled(s, Go)
    ensures Inv(Next(m, s, Go))
  {
    match s.pc
    case Starting | Head => HeadInv(s);
    case AcceptTest => AcceptTestInv(s);
    case ReadTest(_, _) => ReadTestInv(s);
    case ReadEvent(_, _) => ReadSilentlyInv(s);
    case SweepTest => SweepBeginInv(m, s);
    case SweepWalk(k, j) => if j < |s.slots| { SweepOneInv(s); } else { SweepEndInv(s); }
    case _ =>
  }

  lemma {:induction false} AcceptInv(s: State, fd: Fd)
    requires Inv(s) && Enabled(s, Accepted(fd))
    ensures Inv(AcceptOk(s, fd))
  {
    if s.ec != 0 { RefusedInv(s, fd); } else { AcceptedInv(s, fd); }
  }

  lemma {:induction false} CallInv(s: State, call: Call)
    requires Inv(s)
    ensures Inv(Do(s, call))
  {
    CallIsQuiet(s, call);
    QuietKeepsInv(s, Do(s, call));
  }

  /** The kernel answers a system call of the thread. */
  lemma {:induction false} AnswerInv(m: Mode, s: State, i: Input)
    requires Inv(s) && Enabled(s, i)
    requires i.Listening? || i.Pending? || i.Accepted? || i.AcceptFailed? || i.Polled? || i.Received?
    ensures Inv(Next(m, s, i))
  {
    match i
    case Listening(fd) => ListeningInv(s, fd);
    case Pending(yes) => PendingInv(s, yes);
    case Accepted(fd) => AcceptInv(s, fd);
    case AcceptFailed(errno) => AcceptFailedInv(s, errno);
    case Polled(answer) => PolledInv(s, answer);
    case Received(r) => ReceivedInv(s, r);
  }

  lemma {:induction false} NextInv(m: Mode, s: State, i: Input)
    requires Inv(s) && Enabled(s, i)
    ensures Inv(Next(m, s, i))
  {
    if i.Go? {
      GoInv(m, s);
    } else if i.Return? {
      ReturnInv(s);
    } else if i.Api? {
      CallInv(s, i.call);
    } else if ByOthers(i) {
      OthersInv(m, s, i);
    } else if i.Destroy? {
      DestroyInv(s);
    } else {
      AnswerInv(m, s, i);
    }
  }

  lemma {:induction false} StepInv(m: Mode, s: State, i: Input)
    requires Inv(s)
    ensures Inv(Step(m, s, i))
  {
    if Enabled(s, i) { NextInv(m, s, i); }
  }

  lemma {:induction false} RunInv(m: Mode, s: State, inputs: seq<Input>)
    requires Inv(s)
    ensures Inv(Run(m, s, inputs))
  {
    if inputs == [] {
    } else {
      RunInv(m, s, inputs[..|inputs| - 1]);
      StepInv(m, Run(m, s, inputs[..|inputs| - 1]), inputs[|inputs| - 1]);
    }
  }

  /** The invariant holds in every state of every run, in both modes. */
  lemma {:induction false} ReachableInv(m: Mode, s: State)
    requires Reachable(m, s)
    ensures Inv(s)
  {
    var foreign: set<Fd>, inputs: seq<Input> :| s == Run(m, Initial(foreign), inputs);
    InitialInv(foreign);
    RunInv(m, Initial(foreign), inputs);
  }
}
