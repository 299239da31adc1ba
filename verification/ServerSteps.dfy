/**
 * What the methods of the server need to know of the transition system: which function describes the
 * step they take, that it does what the reference says, and how far a sweep has got.
 */
module ServerSteps {
  import opened Types
  import opened OwningVector
  import opened Poll
  import opened Machine
  import opened Clients
  import opened Separation
  import opened Invariant
  import opened Interface
  import opened Preservation
  import opened Sweep
  import opened Reference

  lemma {:induction false} RunPush(m: Mode, s: State, inputs: seq<Input>, i: Input)
    ensures Run(m, s, inputs + [i]) == Step(m, Run(m, s, inputs), i)
  {
    assert (inputs + [i])[..|inputs|] == inputs;
  }

  lemma {:induction false} AcceptFacts(s: State)
    requires Reachable(AsWritten, s) && s.pc.AcceptCall?
    ensures s.acceptor != 0 && s.nextId == s.pc.newId + 1
  {
    ReachableInv(AsWritten, s);
  }

  lemma {:induction false} SweepFacts(s: State)
    requires Reachable(AsWritten, s)
    ensures s.pc.SweepTest? ==> NoNull(s.slots)
    ensures s.pc.SweepWalk? ==> s.pc.k <= s.pc.j <= |s.slots|
  {
    ReachableInv(AsWritten, s);
  }

  lemma {:induction false} PeersAreQuiet(s: State, s': State)
    requires s' == s.(streams := s'.streams)
    ensures Quiet(s, s')
  {
  }

  // ----- steps, by the function that describes them -----

  lemma {:induction false} StepOfCall(s: State, call: Call)
    requires !s.pc.Fault? && !s.pc.Destroyed? && Returns(s.slots, call)
    ensures Step(AsWritten, s, Api(call)) == Do(s, call)
  {
  }

  lemma {:induction false} StepOfAccept(s: State, fd: Fd)
    requires Reachable(AsWritten, s) && s.pc.AcceptCall? && Fresh(s.kernel, fd)
    ensures s.nextId > 0 && Step(AsWritten, s, Accepted(fd)) == AcceptOk(s, fd)
  {
    AcceptFacts(s);
  }

  lemma {:induction false} StepOfAcceptFailure(s: State, errno: ErrorCode)
    requires Reachable(AsWritten, s) && s.pc.AcceptCall? && errno != 0
    ensures s.nextId > 0
    ensures Step(AsWritten, s, AcceptFailed(errno)) == s.(ec := errno, nextId := s.nextId - 1, pc := AcceptTest)
  {
    AcceptFacts(s);
  }

  lemma {:induction false} StepOfListening(s: State, fd: Fd)
    requires s.pc.Opening? && Fresh(s.kernel, fd)
    ensures Step(AsWritten, s, Listening(fd)) == s.(kernel := OpenFd(s.kernel, fd), acceptor := fd, pc := Head)
  {
  }

  lemma {:induction false} StepOfExit(s: State)
    requires s.pc.Head? && !s.running
    ensures Step(AsWritten, s, Go) == s.(kernel := Release(s.kernel, s.acceptor), acceptor := 0, pc := Exited)
  {
  }

  lemma {:induction false} StepOfDestroy(s: State)
    requires s.pc.Exited?
    ensures Step(AsWritten, s, Destroy) ==
            s.(slots := [], pfds := [], kernel := ReleaseAll(s.kernel, s.slots), pc := Destroyed)
  {
  }

  lemma {:induction false} StepOfReceive(s: State, i: nat, r: Recv)
    requires Enabled(s, Received(r)) && FindFd(s.slots, s.pc.events[s.pc.i].fd) == Found(i)
    ensures Step(AsWritten, s, Received(r)) == Receive(s, i, r)
  {
  }

  lemma {:induction false} StepOfSweep(s: State)
    requires s.pc.SweepTest?
    ensures Step(AsWritten, s, Go) == SweepBegin(AsWritten, s)
  {
  }

  lemma {:induction false} StepOfWalk(s: State)
    requires s.pc.SweepWalk? && s.pc.k <= |s.slots|
    ensures Step(AsWritten, s, Go) == if s.pc.j < |s.slots| then SweepOne(s) else SweepEnd(s)
  {
  }

  // ----- steps, as the reference describes them -----

  lemma {:induction false} AcceptDoes(s: State, fd: Fd)
    requires Reachable(AsWritten, s) && Enabled(s, Accepted(fd))
    ensures DoesAccept(s, fd, AcceptOk(s, fd))
  {
    ReachableInv(AsWritten, s);
    AcceptIs(s, fd, AcceptOk(s, fd));
  }

  lemma {:induction false} DropDoes(s: State)
    requires Reachable(AsWritten, s) && s.pc.ReadEvent? && s.pc.i < |s.pc.events|
    requires Broken(s.pc.events[s.pc.i].status)
    ensures DoesDrop(s, ReadSilently(s))
  {
    ReachableInv(AsWritten, s);
    DropIs(s, ReadSilently(s));
  }

  lemma {:induction false} ReceiveDoes(s: State, i: nat, r: Recv)
    requires Reachable(AsWritten, s) && Enabled(s, Received(r))
    requires FindFd(s.slots, s.pc.events[s.pc.i].fd) == Found(i)
    ensures DoesReceive(s, i, r, Receive(s, i, r))
  {
    ReachableInv(AsWritten, s);
    ReceivedIs(AsWritten, s, r, Receive(s, i, r));
  }

  lemma {:induction false} SeparateDoes(s: State)
    requires Reachable(AsWritten, s) && s.pc.SweepTest? && s.flag
    ensures DoesSeparate(AsWritten, s, SweepBegin(AsWritten, s))
  {
    ReachableInv(AsWritten, s);
    OwnNotForeign(s);
    SeparateIs(AsWritten, s, SweepBegin(AsWritten, s));
  }

  lemma {:induction false} WalkDoes(s: State)
    requires Reachable(AsWritten, s) && s.pc.SweepWalk? && s.pc.k <= |s.slots|
    ensures DoesWalk(s, if s.pc.j < |s.slots| then SweepOne(s) else SweepEnd(s))
  {
    ReachableInv(AsWritten, s);
    WalkIs(s, if s.pc.j < |s.slots| then SweepOne(s) else SweepEnd(s));
  }

  lemma {:induction false} CallDoes(s: State, call: Call)
    requires Reachable(AsWritten, s) && !s.pc.Fault? && !s.pc.Destroyed?
    ensures !(call.MessageAllClients? && !NoNull(s.slots)) ==> DoesCall(s, call, Do(s, call))
  {
    ReachableInv(AsWritten, s);
    if !(call.MessageAllClients? && !NoNull(s.slots)) { CallIs(s, call, Do(s, call)); }
  }

  lemma {:induction false} ExitDoes(s: State)
    requires Reachable(AsWritten, s) && s.pc.Head?
    ensures Release(s.kernel, s.acceptor) == AfterClose(s.kernel, s.acceptor)
  {
    ReachableInv(AsWritten, s);
    assert s.acceptor != 0 && s.acceptor in s.kernel.server && s.kernel.server !! s.kernel.foreign;
  }

  // ----- the walk of one sweep, followed from the state s0 it began in -----

  /** A clean sweep has told n clients goodbye; an unclean one has a null slot ahead. */
  ghost predicate Walking(s0: State, s: State, n: nat) {
    if MarkedSuffix(s0.slots) then NoNull(s.slots) && Within(s0, s, n) else Doomed(s)
  }

  lemma {:induction false} WalkingBegins(s0: State)
    requires Reachable(AsWritten, s0) && s0.pc.SweepTest? && s0.flag
    ensures Walking(s0, SweepBegin(AsWritten, s0), 0)
  {
    ReachableInv(AsWritten, s0);
    if MarkedSuffix(s0.slots) {
      WithinBegins(AsWritten, s0);
      SeparatedWhole(AsWritten, s0.slots);
    } else {
      BeginDoomed(s0);
    }
  }

  lemma {:induction false} WalkingQuiet(s0: State, s: State, s': State, n: nat)
    requires Walking(s0, s, n) && Quiet(s, s')
    ensures if s'.pc.Fault? then !MarkedSuffix(s0.slots) else Walking(s0, s', n)
  {
    if MarkedSuffix(s0.slots) {
      WithinQuiet(s0, s, s', n);
      MarksKeepSets(s.slots, s'.slots);
    } else if s'.pc == s.pc {
      var i :| TodoStart(s) <= i < |s.slots| && 0 <= i && s.slots[i].Null?;
      assert MarkedOnly(s.slots[i], s'.slots[i]);
    }
  }

  lemma {:induction false} WalkingOne(s0: State, s: State, n: nat)
    requires Reachable(AsWritten, s) && Walking(s0, s, n)
    requires s.pc.SweepWalk? && s.pc.j < |s.slots| && s.slots[s.pc.j].Own?
    ensures Walking(s0, SweepOne(s), n + 1)
  {
    if MarkedSuffix(s0.slots) {
      assert 0 !in s.kernel.server by { ReachableInv(AsWritten, s); }
      WithinOne(s0, s, n);
      UnsockOwns(s.slots, s.pc.j);
    } else {
      var i :| TodoStart(s) <= i < |s.slots| && 0 <= i && s.slots[i].Null?;
      assert SweepOne(s).slots[i].Null?;
    }
  }

  lemma {:induction false} WalkingReturns(s0: State, s: State, n: nat)
    requires Walking(s0, s, n) && s.pc.DisconnectHandler?
    ensures Walking(s0, s.(pc := SweepWalk(s.pc.k, s.pc.j + 1)), n)
  {
    if !MarkedSuffix(s0.slots) {
      var i :| TodoStart(s) <= i < |s.slots| && 0 <= i && s.slots[i].Null?;
      assert s.(pc := SweepWalk(s.pc.k, s.pc.j + 1)).slots[i].Null?;
    }
  }

  lemma {:induction false} WalkingEnds(s0: State, s: State, n: nat)
    requires NoNull(s0.slots) && Reachable(AsWritten, s)
    requires Walking(s0, s, n) && s.pc.SweepWalk? && s.pc.j == |s.slots|
    ensures MarkedSuffix(s0.slots) && Swept(s0, SweepEnd(s))
  {
    assert WalkOver(s) by {
      ReachableInv(AsWritten, s);
      WalkIsOver(s);
    }
    WithinEnds(s0, s, n);
  }
}
