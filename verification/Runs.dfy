/** The properties of whole runs of the server: every state of every run, in both modes. */
module Runs {
  import opened Types
  import opened OwningVector
  import opened Poll
  import opened Machine
  import opened History
  import opened Clients
  import opened Separation
  import opened Invariant
  import opened Interface
  import opened Preservation

  /** Each client is announced, then heard, then perhaps dismissed: Connect Data* Disconnect?. */
  lemma {:induction false} CallbackProtocol(m: Mode, s: State, id: ClientId)
    requires Reachable(m, s)
    ensures Protocol(Project(s.trace, id))
  {
    ReachableInv(m, s);
    LifeIsProtocol(s.trace, id);
  }

  /**
   * At the loop head and whenever it is polled, the poll group lists exactly the clients'
   * descriptors, in the same order, all different, each open and held by that client's own
   * connection.
   */
  lemma {:induction false} IndexAgreement(m: Mode, s: State)
    requires Reachable(m, s) && (s.pc.Head? || s.pc.PollCall?)
    ensures NoNull(s.slots) && Fds(s.pfds) == FdSeq(s.slots) && Distinct(Fds(s.pfds))
    ensures forall i :: 0 <= i < |s.slots| ==>
              s.slots[i].c.sock == s.slots[i].c.fd && s.slots[i].c.fd in s.kernel.server
  {
    ReachableInv(m, s);
    FdSeqDistinct(s.slots);
    forall i | 0 <= i < |s.slots| ensures s.slots[i].c.sock == s.slots[i].c.fd && s.slots[i].c.fd in s.kernel.server {
      assert ClientOk(s.slots[i].c, s.nextId);
      assert s.slots[i] in s.slots && s.slots[i].c.sock in Socks(s.slots);
    }
  }

  // ----- descriptors -----

  function Opens(log: seq<FdEvent>, fd: Fd): nat {
    if log == [] then 0 else Opens(log[..|log| - 1], fd) + if log[|log| - 1] == Opened(fd) then 1 else 0
  }

  function Closes(log: seq<FdEvent>, fd: Fd): nat {
    if log == [] then 0 else Closes(log[..|log| - 1], fd) + if log[|log| - 1] == Closed(fd) then 1 else 0
  }

  /** A replayable log has closed each descriptor as often as it was opened, bar the open ones. */
  lemma {:induction false} ReplayCounts(log: seq<FdEvent>, fd: Fd)
    requires Replay(log).Some?
    ensures Opens(log, fd) == Closes(log, fd) + if fd in Replay(log).value then 1 else 0
  {
    if log == [] {
    } else {
      ReplayCounts(log[..|log| - 1], fd);
    }
  }

  /**
   * Whatever the server has opened it has closed exactly once or still holds, and it never closed
   * what was not open; this holds even in a state reached by a fault.
   */
  lemma {:induction false} ClosedOnce(m: Mode, s: State, fd: Fd)
    requires Reachable(m, s)
    ensures Replay(s.kernel.log) == Some(s.kernel.server)
    ensures Opens(s.kernel.log, fd) == Closes(s.kernel.log, fd) + if fd in s.kernel.server then 1 else 0
  {
    ReachableInv(m, s);
    ReplayCounts(s.kernel.log, fd);
  }

  /** Every descriptor the server holds is the acceptor's or belongs to exactly one client. */
  lemma {:induction false} OwnedByExactlyOne(m: Mode, s: State, fd: Fd) returns (i: int)
    requires Reachable(m, s) && !s.pc.Fault? && fd in s.kernel.server
    ensures fd == s.acceptor || (0 <= i < |s.slots| && s.slots[i].Own? && s.slots[i].c.sock == fd)
    ensures forall n :: 0 <= n < |s.slots| && n != i && s.slots[n].Own? ==> s.slots[n].c.sock != fd
  {
    i := -1;
    ReachableInv(m, s);
    if fd != s.acceptor { i := OwnerOf(s.slots, fd); }
    forall n | 0 <= n < |s.slots| && n != i && s.slots[n].Own? ensures s.slots[n].c.sock != fd {
      OtherSock(s, fd, i, n);
    }
  }

  lemma {:induction false} OwnerOf(s: seq<Slot>, fd: Fd) returns (i: nat)
    requires fd in Socks(s)
    ensures i < |s| && s[i].Own? && s[i].c.sock == fd
  {
    var x :| x in s && x.Own? && x.c.sock == fd;
    i :| 0 <= i < |s| && s[i] == x;
  }

  lemma {:induction false} OtherSock(s: State, fd: Fd, i: int, n: nat)
    requires Alive(s) && HistoryOk(s.trace, s.kernel) && fd in s.kernel.server
    requires n < |s.slots| && n != i && s.slots[n].Own?
    requires i < 0 ==> fd == s.acceptor
    requires i >= 0 ==> i < |s.slots| && s.slots[i].Own? && s.slots[i].c.sock == fd
    ensures s.slots[n].c.sock != fd
  {
    assert Sound(s.slots, Limit(s));
    assert ClientOk(s.slots[n].c, Limit(s));
    if i < 0 {
      assert s.slots[n] in s.slots;
    } else {
      assert ClientOk(s.slots[i].c, Limit(s));
      if i < n { assert Apart(s.slots[i], s.slots[n]); } else { assert Apart(s.slots[n], s.slots[i]); }
    }
  }

  /** When the server is gone it holds nothing: every descriptor it opened was closed once. */
  lemma {:induction false} NothingLeaks(m: Mode, s: State, fd: Fd)
    requires Reachable(m, s) && s.pc.Destroyed?
    ensures s.kernel.server == {} && Opens(s.kernel.log, fd) == Closes(s.kernel.log, fd)
  {
    ReachableInv(m, s);
    ReplayCounts(s.kernel.log, fd);
  }

  /** On exit the acceptor is closed; only the clients' descriptors remain open. */
  lemma {:induction false} ExitClosesAcceptor(m: Mode, s: State)
    requires Reachable(m, s) && s.pc.Exited?
    ensures s.acceptor == 0 && s.kernel.server == Socks(s.slots)
  {
    ReachableInv(m, s);
  }

  /** No step of the server closes or takes a descriptor that belongs to the rest of the process. */
  lemma {:induction false} ForeignUntouched(m: Mode, s: State, i: Input)
    requires Reachable(m, s) && !i.ForeignOpen? && !i.ForeignClose?
    ensures Step(m, s, i).kernel.foreign == s.kernel.foreign
    ensures Step(m, s, i).kernel.server !! s.kernel.foreign
  {
    ReachableInv(m, s);
    StepInv(m, s, i);
    if Enabled(s, i) { ForeignKept(m, s, i); }
  }

  lemma {:induction false} ForeignKept(m: Mode, s: State, i: Input)
    requires Inv(s) && Enabled(s, i) && !i.ForeignOpen? && !i.ForeignClose?
    ensures Next(m, s, i).kernel.foreign == s.kernel.foreign
  {
    if i.Go? {
      ForeignKeptByGo(m, s);
    } else if i.Accepted? {
      ForeignKeptByAccept(s, i.fd);
    } else if i.Received? {
      EventResolves(s);
      ForeignKeptByReceive(s, FindFd(s.slots, s.pc.events[s.pc.i].fd).i, i.r);
    } else if i.Destroy? {
      ReleaseAllEffect(s.kernel, s.slots, Limit(s));
    } else if i.Api? {
      CallIsQuiet(s, i.call);
    }
  }

  lemma {:induction false} ForeignKeptByAccept(s: State, fd: Fd)
    requires Balanced(s.kernel) && Enabled(s, Accepted(fd))
    ensures AcceptOk(s, fd).kernel.foreign == s.kernel.foreign
  {
    OpenBalanced(s.kernel, fd);
    ReleaseBalanced(OpenFd(s.kernel, fd), fd);
  }

  lemma {:induction false} ForeignKeptByReceive(s: State, i: nat, r: Recv)
    requires Inv(s) && s.pc.ReadEvent? && i < |s.slots| && s.slots[i].Own?
    ensures Receive(s, i, r).kernel.foreign == s.kernel.foreign
  {
    KernelOfReceive(s, i, r);
    assert Release(s.kernel, s.slots[i].c.sock).foreign == s.kernel.foreign by {
      OwningClose(s.kernel, s.slots, s.acceptor, i, Limit(s));
    }
  }

  lemma {:induction false} KernelOfReceive(s: State, i: nat, r: Recv)
    requires s.pc.ReadEvent? && i < |s.slots| && s.slots[i].Own?
    ensures Receive(s, i, r).kernel == s.kernel || Receive(s, i, r).kernel == Release(s.kernel, s.slots[i].c.sock)
  {
  }

  lemma {:induction false} ForeignKeptByGo(m: Mode, s: State)
    requires Inv(s) && Enabled(s, Go)
    ensures Next(m, s, Go).kernel.foreign == s.kernel.foreign
  {
    match s.pc
    case Head => ForeignKeptByExit(s);
    case SweepTest => ForeignKeptByBegin(m, s);
    case SweepWalk(_, _) => ForeignKeptByWalk(m, s);
    case _ => KernelKeptByGo(m, s);
  }

  /** Only leaving the loop and the sweep reach the kernel without a system call of their own. */
  lemma {:induction false} KernelKeptByGo(m: Mode, s: State)
    requires Enabled(s, Go) && !s.pc.Head? && !s.pc.SweepTest? && !s.pc.SweepWalk?
    ensures Next(m, s, Go).kernel == s.kernel
  {
  }

  lemma {:induction false} ForeignKeptByBegin(m: Mode, s: State)
    requires Inv(s) && s.pc.SweepTest?
    ensures SweepBegin(m, s).kernel.foreign == s.kernel.foreign
  {
    SweepBeginInv(m, s);
  }

  lemma {:induction false} ForeignKeptByExit(s: State)
    requires Inv(s) && s.pc.Head?
    ensures Release(s.kernel, s.acceptor).foreign == s.kernel.foreign
  {
    ReleaseBalanced(s.kernel, s.acceptor);
  }

  lemma {:induction false} ForeignKeptByWalk(m: Mode, s: State)
    requires Inv(s) && s.pc.SweepWalk? && s.pc.k <= |s.slots|
    ensures (if s.pc.j < |s.slots| then SweepOne(s) else SweepEnd(s)).kernel.foreign == s.kernel.foreign
  {
    if s.pc.j >= |s.slots| {
      SweepEndInv(s);
    } else if s.slots[s.pc.j].Own? {
      OwningClose(s.kernel, s.slots, s.acceptor, s.pc.j, s.nextId);
    }
  }

  // ----- ids -----

  /**
   * Connect callbacks carry 1, 2, 3, ... without gap or repetition; between accept attempts the
   * next id is the number of connects plus one, so a failed attempt uses none up.
   */
  lemma {:induction false} IdAllocation(m: Mode, s: State)
    requires Reachable(m, s)
    ensures ConnectIds(s.trace) == UpTo(|ConnectIds(s.trace)|)
    ensures !s.pc.Fault? && !s.pc.Destroyed? && !s.pc.AcceptCall? ==> s.nextId == |ConnectIds(s.trace)| + 1
    ensures s.pc.AcceptCall? ==> s.pc.newId == |ConnectIds(s.trace)| + 1
  {
    ReachableInv(m, s);
  }

  lemma {:induction false} FindIdIff(s: seq<Slot>, id: ClientId)
    requires NoNull(s) && Pairwise(s)
    ensures forall i :: 0 <= i < |s| ==> (FindId(s, id) == Found(i) <==> s[i].c.id == id)
    ensures FindId(s, id) == Missing <==> id !in IdSet(s)
  {
    forall i | 0 <= i < |s| ensures FindId(s, id) == Found(i) <==> s[i].c.id == id {
      if s[i].c.id == id { FindIdExact(s, i); }
    }
    if id in IdSet(s) {
      var x :| x in s && x.Own? && x.c.id == id;
      var i :| 0 <= i < |s| && s[i] == x;
    }
    if FindId(s, id).Found? { assert s[FindId(s, id).i] in s; }
  }

  /** First-match lookup is exact outside a sweep, and no client has id 0. */
  lemma {:induction false} LookupExact(m: Mode, s: State, id: ClientId)
    requires Reachable(m, s) && !s.pc.Fault? && !s.pc.Destroyed? && !Sweeping(s.pc)
    ensures Increasing(s.slots) && NoNull(s.slots)
    ensures forall i :: 0 <= i < |s.slots| ==> (FindId(s.slots, id) == Found(i) <==> s.slots[i].c.id == id)
    ensures FindId(s.slots, id) == Missing <==> id !in IdSet(s.slots)
    ensures FindId(s.slots, 0) == Missing
  {
    ReachableInv(m, s);
    FindIdIff(s.slots, id);
    FindIdIff(s.slots, 0);
    IdsArePositive(s.slots, Limit(s));
  }

  lemma {:induction false} IdsArePositive(s: seq<Slot>, limit: ClientId)
    requires Sound(s, limit)
    ensures 0 !in IdSet(s)
  {
    forall x | x in s && x.Own? ensures x.c.id > 0 { MemberOk(s, limit, x); }
  }

  // ----- conservation -----

  /** At the loop head the clients are exactly those connected and not yet disconnected. */
  lemma {:induction false} Conservation(m: Mode, s: State)
    requires Reachable(m, s) && s.pc.Head?
    ensures |ConnectIds(s.trace)| - |DisconnectIds(s.trace)| == |s.slots|
    ensures forall id: ClientId :: id in IdSet(s.slots) <==> LifeOf(s.trace, id) == Live
  {
    ReachableInv(m, s);
    forall id: ClientId | id in IdSet(s.slots) ensures LifeOf(s.trace, id) == Live {
      var x :| x in s.slots && x.Own? && x.c.id == id;
      var i :| 0 <= i < |s.slots| && s.slots[i] == x;
    }
  }

  // ----- the flag -----

  /** What the sweep would do if it did not look at has_disconnected_clients_. */
  function UngatedSweepBegin(m: Mode, s: State): State {
    SweepBegin(m, s.(flag := true)).(flag := s.flag)
  }

  /** A clear flag means nobody is marked, so skipping the sweep is the same as doing it. */
  lemma {:induction false} FlagIsSound(m: Mode, s: State)
    requires Reachable(m, s) && !s.pc.Fault? && !s.flag
    ensures forall i :: 0 <= i < |s.slots| ==> !IsMarked(s.slots[i])
    ensures s.pc.SweepTest? ==>
              var u := UngatedSweepBegin(m, s);
              u.pc == SweepWalk(|s.slots|, |s.slots|) && |u.slots| == |s.slots| && SweepEnd(u) == SweepBegin(m, s)
  {
    ReachableInv(m, s);
    if s.pc.SweepTest? { NobodyMarked(m, s); }
  }

  lemma {:induction false} NobodyMarked(m: Mode, s: State)
    requires NoNull(s.slots) && !s.flag && AllConnected(s.slots) && s.pc.SweepTest?
    ensures var u := UngatedSweepBegin(m, s);
            u.pc == SweepWalk(|s.slots|, |s.slots|) && |u.slots| == |s.slots| && SweepEnd(u) == SweepBegin(m, s)
  {
    if Marked(s.slots) != [] {
      var i := SomeMarked(s.slots);
    }
    AllKept(s.slots);
    assert s.slots[..|s.slots|] == s.slots;
    RemoveIfIsPartitionIff(s.slots);
  }

  /** The marked clients of a vector. */
  function MarkedIds(s: seq<Slot>): set<ClientId> {
    set x | x in s && IsMarked(x) :: x.c.id
  }

  /** The marked clients that the sweep under way, if any, leaves in the vector. */
  function MarkedToStay(s: State): set<ClientId>
    requires 0 <= FrontEnd(s) <= |s.slots|
  {
    MarkedIds(s.slots[..FrontEnd(s)])
  }

  lemma {:induction false} FrontInRange(s: State)
    requires Inv(s)
    ensures 0 <= FrontEnd(s) <= |s.slots|
    ensures !Sweeping(s.pc) ==> s.slots[..FrontEnd(s)] == s.slots
  {
  }

  /** Slot for slot, b still holds the marked clients of a. */
  predicate MarksIn(a: seq<Slot>, b: seq<Slot>) {
    |a| <= |b| && forall i :: 0 <= i < |a| && IsMarked(a[i]) ==> IsMarked(b[i]) && b[i].c.id == a[i].c.id
  }

  lemma {:induction false} MarksStickTo(a: seq<Slot>, b: seq<Slot>, n: nat, n': nat)
    requires n <= n' <= |b| && n <= |a| && MarksIn(a[..n], b)
    ensures MarkedIds(a[..n]) <= MarkedIds(b[..n'])
  {
    forall x | x in a[..n] && IsMarked(x) ensures x.c.id in MarkedIds(b[..n']) {
      var i :| 0 <= i < n && a[..n][i] == x;
      assert b[..n'][i] in b[..n'];
    }
  }

  /**
   * Nothing but a sweep removes a marked client, and nothing unmarks one: a mark made at any time,
   * also by a handler while a sweep is under way, is there until the next sweep begins.
   */
  lemma {:induction false} MarksStick(m: Mode, s: State, i: Input)
    requires Inv(s) && !(s.pc.SweepTest? && i.Go?) && !i.Destroy?
    ensures Inv(Step(m, s, i))
    ensures 0 <= FrontEnd(s) <= |s.slots| && 0 <= FrontEnd(Step(m, s, i)) <= |Step(m, s, i).slots|
    ensures MarkedToStay(s) <= MarkedToStay(Step(m, s, i))
  {
    StepInv(m, s, i);
    FrontInRange(s);
    FrontInRange(Step(m, s, i));
    if Enabled(s, i) {
      MarksStickNext(m, s, i);
      MarksStickTo(s.slots, Next(m, s, i).slots, FrontEnd(s), FrontEnd(Next(m, s, i)));
    }
  }

  lemma {:induction false} MarksStickNext(m: Mode, s: State, i: Input)
    requires 0 <= FrontEnd(s) <= |s.slots| && (Sweeping(s.pc) ==> FrontEnd(s) <= TodoStart(s))
    requires Enabled(s, i) && !(s.pc.SweepTest? && i.Go?) && !i.Destroy?
    ensures FrontEnd(s) <= FrontEnd(Next(m, s, i))
    ensures MarksIn(s.slots[..FrontEnd(s)], Next(m, s, i).slots)
  {
    match i
    case Api(call) => MarksStickQuiet(s, call);
    case Received(r) => MarksStickReceive(s, FindFd(s.slots, s.pc.events[s.pc.i].fd).i, r);
    case Go => MarksStickGo(m, s);
    case _ =>
  }

  lemma {:induction false} MarksStickGo(m: Mode, s: State)
    requires 0 <= FrontEnd(s) <= |s.slots| && (Sweeping(s.pc) ==> FrontEnd(s) <= TodoStart(s))
    requires Enabled(s, Go) && !s.pc.SweepTest?
    ensures FrontEnd(s) <= FrontEnd(Next(m, s, Go))
    ensures MarksIn(s.slots[..FrontEnd(s)], Next(m, s, Go).slots)
  {
    if s.pc.ReadEvent? { MarksStickSilent(s); }
  }

  lemma {:induction false} MarksStickQuiet(s: State, call: Call)
    requires FrontEnd(s) <= |s.slots|
    ensures MarksIn(s.slots, Do(s, call).slots) && FrontEnd(s) <= FrontEnd(Do(s, call))
  {
    CallIsQuiet(s, call);
    assert forall n :: 0 <= n < |s.slots| ==> MarkedOnly(s.slots[n], Do(s, call).slots[n]);
  }

  lemma {:induction false} MarksStickDrop(s: State, id: ClientId, was: seq<Slot>)
    requires s.pc.ReadEvent? && |was| == |s.slots| && MarksIn(was, s.slots)
    ensures MarksIn(was, Drop(s, id).slots) && |Drop(s, id).slots| == |was| && !Sweeping(Drop(s, id).pc)
  {
    RemoveIsQuiet(s, id);
    assert forall n :: 0 <= n < |s.slots| ==> MarkedOnly(s.slots[n], Remove(s, id).slots[n]);
  }

  lemma {:induction false} MarksStickReceive(s: State, i: nat, r: Recv)
    requires s.pc.ReadEvent? && i < |s.slots| && s.slots[i].Own?
    ensures MarksIn(s.slots, Receive(s, i, r).slots) && FrontEnd(s) <= FrontEnd(Receive(s, i, r))
  {
    MarksStickDrop(Heard(s, i, r), s.slots[i].c.id, s.slots);
  }

  lemma {:induction false} MarksStickSilent(s: State)
    requires s.pc.ReadEvent? && s.pc.i < |s.pc.events|
    ensures MarksIn(s.slots, ReadSilently(s).slots) && FrontEnd(s) <= FrontEnd(ReadSilently(s))
  {
    var r := FindFd(s.slots, s.pc.events[s.pc.i].fd);
    if r.Found? { MarksStickDrop(s, s.slots[r.i].c.id, s.slots); }
  }

  // ----- events -----

  /**
   * In the read phase every readiness report belongs to exactly one client, whose connection is
   * still open: the "unable to find client" branch is dead, and no client is handled twice.
   */
  lemma {:induction false} EventResolution(m: Mode, s: State)
    requires Reachable(m, s) && s.pc.ReadEvent?
    ensures s.pc.i < |s.pc.events|
    ensures Distinct(EventFds(s.pc.events))
    ensures NoNull(s.slots)
    ensures var r := FindFd(s.slots, s.pc.events[s.pc.i].fd);
            r.Found? && s.slots[r.i].c.sock == s.pc.events[s.pc.i].fd &&
            forall n :: 0 <= n < |s.slots| && n != r.i ==> s.slots[n].c.fd != s.pc.events[s.pc.i].fd
  {
    ReachableInv(m, s);
    EventResolves(s);
  }
}
