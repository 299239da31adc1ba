/** Consequences across phases, and concrete runs that show the faulty ones are real. */
module Scenarios {
  import opened Types
  import opened OwningVector
  import opened Poll
  import opened Machine
  import opened Clients
  import opened Invariant
  import opened Interface
  import opened Preservation
  import opened Sweep
  import opened Errors
  import opened Broadcasting
  import opened Runs
  import opened Delivery
  import opened Outgoing

  lemma {:induction false} RunConcat(m: Mode, s: State, a: seq<Input>, b: seq<Input>)
    ensures Run(m, s, a + b) == Run(m, Run(m, s, a), b)
  {
    if b == [] {
      assert a + b == a;
    } else {
      assert (a + b)[..|a + b| - 1] == a + b[..|b| - 1];
      RunConcat(m, s, a, b[..|b| - 1]);
    }
  }

  lemma {:induction false} ReachableRun(m: Mode, s: State, inputs: seq<Input>)
    requires Reachable(m, s)
    ensures Reachable(m, Run(m, s, inputs))
  {
    var foreign: set<Fd>, before: seq<Input> :| s == Run(m, Initial(foreign), before);
    RunConcat(m, Initial(foreign), before, inputs);
    assert Run(m, s, inputs) == Run(m, Initial(foreign), before + inputs);
  }

  // ----- marks made at any time -----

  /** No sweep begins in the run; it may start inside one and may end where the next begins. */
  ghost predicate UntilSweep(m: Mode, s: State, inputs: seq<Input>) {
    inputs == [] ||
    (var before, i := Run(m, s, inputs[..|inputs| - 1]), inputs[|inputs| - 1];
     !(before.pc.SweepTest? && i.Go?) && !i.Destroy? && UntilSweep(m, s, inputs[..|inputs| - 1]))
  }

  lemma {:induction false} MarksStickUntilSweep(m: Mode, s: State, inputs: seq<Input>)
    requires Inv(s) && UntilSweep(m, s, inputs)
    ensures Inv(Run(m, s, inputs))
    ensures 0 <= FrontEnd(s) <= |s.slots| && 0 <= FrontEnd(Run(m, s, inputs)) <= |Run(m, s, inputs).slots|
    ensures MarkedToStay(s) <= MarkedToStay(Run(m, s, inputs))
  {
    if inputs == [] {
      FrontInRange(s);
    } else {
      MarksStickUntilSweep(m, s, inputs[..|inputs| - 1]);
      MarksStick(m, Run(m, s, inputs[..|inputs| - 1]), inputs[|inputs| - 1]);
    }
  }

  /**
   * A client marked while a sweep is under way that leaves it in place, by a disconnect handler for
   * instance, comes out of that sweep still present and still marked.
   */
  lemma {:induction false} MarkSurvivesSweep(m: Mode, s: State, n: nat, inputs: seq<Input>)
    requires Reachable(m, s) && Sweeping(s.pc) && n < s.pc.k && n < |s.slots| && IsMarked(s.slots[n])
    requires UntilSweep(m, s, inputs) && Run(m, s, inputs).pc.Head?
    ensures 0 <= FrontEnd(s) <= |s.slots| && s.slots[n].c.id in MarkedToStay(s)
    ensures s.slots[n].c.id in MarkedIds(Run(m, s, inputs).slots)
  {
    ReachableInv(m, s);
    FrontInRange(s);
    assert s.slots[..s.pc.k][n] in s.slots[..s.pc.k];
    MarksStickUntilSweep(m, s, inputs);
    FrontInRange(Run(m, s, inputs));
  }

  /**
   * A client marked at any time, inside a sweep that leaves it in place or outside one, is gone
   * when the next sweep ends: out of the vector, and told goodbye within that sweep.
   */
  lemma {:induction false} NextSweepRemoves(
    m: Mode, s: State, a: seq<Input>, b: seq<Input>, last: Input, id: ClientId)
    requires Reachable(m, s) && 0 <= FrontEnd(s) <= |s.slots| && id in MarkedToStay(s) && UntilSweep(m, s, a)
    requires var s0 := Run(m, s, a);
             s0.pc.SweepTest? && Whole(m, s0.slots) &&
             Throughout(m, SweepBegin(m, s0), b) && Run(m, SweepBegin(m, s0), b + [last]).pc.Head?
    ensures var s0, s' := Run(m, s, a), Run(m, SweepBegin(m, Run(m, s, a)), b + [last]);
            s0.flag && id !in IdSet(s'.slots) &&
            |s0.trace| <= |s'.trace| && Disconnect(id) in s'.trace[|s0.trace|..]
  {
    var s0 := Run(m, s, a);
    assert Inv(s0) && id in MarkedIds(s0.slots) by {
      ReachableInv(m, s);
      MarksStickUntilSweep(m, s, a);
      FrontInRange(s0);
    }
    SweepRemoves(m, s0, b, last, id);
  }

  lemma {:induction false} SweepRemoves(m: Mode, s0: State, b: seq<Input>, last: Input, id: ClientId)
    requires Inv(s0) && s0.pc.SweepTest? && Whole(m, s0.slots) && id in MarkedIds(s0.slots)
    requires Throughout(m, SweepBegin(m, s0), b) && Run(m, SweepBegin(m, s0), b + [last]).pc.Head?
    ensures var s' := Run(m, SweepBegin(m, s0), b + [last]);
            s0.flag && id !in IdSet(s'.slots) &&
            |s0.trace| <= |s'.trace| && Disconnect(id) in s'.trace[|s0.trace|..]
  {
    var x :| x in s0.slots && IsMarked(x) && x.c.id == id;
    var i :| 0 <= i < |s0.slots| && s0.slots[i] == x;
    FlagSeesMark(s0, i);
    WholeSweep(m, s0, b, last);
    MarkedAreRemoved(m, s0, Run(m, SweepBegin(m, s0), b + [last]), i);
  }

  lemma {:induction false} FlagSeesMark(s: State, i: nat)
    requires Inv(s) && s.pc.SweepTest? && i < |s.slots| && IsMarked(s.slots[i])
    ensures s.flag
  {
  }

  // ----- data and marks -----

  /** A client already marked for removal is still heard: delivery does not look at the mark. */
  lemma {:induction false} MarkedClientIsStillHeard(m: Mode, s: State, bytes: Bytes)
    requires Reachable(m, s) && s.ec == 0 && Enabled(s, Received(RecvData(bytes)))
    ensures var n := FindFd(s.slots, s.pc.events[s.pc.i].fd).i;
            n < |s.slots| && s.slots[n].Own? &&
            Step(m, s, Received(RecvData(bytes))).trace == s.trace + [Data(s.slots[n].c.id, bytes)]
  {
    ReachableInv(m, s);
    EventResolves(s);
    var n := FindFd(s.slots, s.pc.events[s.pc.i].fd).i;
    assert ClientOk(s.slots[n].c, Limit(s));
  }

  // ----- one failed send -----

  /**
   * One send that fails, to one client, from wherever it is made, closes the server to everybody:
   * while every further input is harmless, no connection is admitted and no data delivered.
   */
  lemma {:induction false} OneFailedSendEndsService(
    m: Mode, s: State, msg: Bytes, id: ClientId, answers: Answers, inputs: seq<Input>)
    requires !s.pc.Fault? && !s.pc.Destroyed? && Answered(msg, answers)
    requires FindId(s.slots, id).Found? && s.slots[FindId(s.slots, id).i].c.connected
    requires Wire.SendFails(s.slots[FindId(s.slots, id).i].c.sock, msg, answers)
    requires forall i :: i in inputs ==> Harmless(i)
    ensures var s' := Step(m, s, Api(MessageClient(msg, id, answers)));
            s'.ec != 0 && Run(m, s', inputs).ec != 0 && Shrinks(s', Run(m, s', inputs)) && Shrinks(s, s')
  {
    var s' := Step(m, s, Api(MessageClient(msg, id, answers)));
    Wire.SendResetsIff(s.slots[FindId(s.slots, id).i].c.sock, msg, s.ec, answers);
    MessageIsQuiet(s, msg, id, answers);
    QuietShrinks(s, s');
    ErrorPersists(m, s', inputs);
  }

  // ----- a run that faults -----

  lemma {:induction false} ReachableStep(m: Mode, s: State, i: Input)
    requires Reachable(m, s)
    ensures Reachable(m, Step(m, s, i))
  {
    ReachableRun(m, s, [i]);
    assert [i][..0] == [];
    assert Run(m, s, []) == s;
  }

  /** A server listening on descriptor 3 in a process that has nothing else open. */
  lemma {:induction false} Listener() returns (s: State)
    ensures Reachable(AsWritten, s)
    ensures s == Initial({}).(pc := AcceptTest, running := true, acceptor := 3, kernel := OpenFd(Kernel({}, {}, []), 3))
  {
    s := Initial({});
    assert s == Run(AsWritten, Initial({}), []);
    assert Reachable(AsWritten, s);
    s := Take(s, Go);
    s := Take(s, Listening(3));
    s := Take(s, Go);
  }

  lemma {:induction false} TwoClients() returns (s: State)
    ensures Reachable(AsWritten, s) && s.pc.AcceptTest? && s.running && s.sends == [] && s.ec == 0 && s.streams == map[]
    ensures s.slots == [Own(Client(1, 4, 4, true)), Own(Client(2, 5, 5, true))]
    ensures s.pfds == [Pollfd(4, POLLIN, 0), Pollfd(5, POLLIN, 0)]
  {
    s := Listener();
    s := Join(s, 4);
    s := Join(s, 5);
  }

  lemma {:induction false} NothingPending(s: State) returns (s': State)
    requires Reachable(AsWritten, s) && s.pc.AcceptTest? && s.running
    ensures Reachable(AsWritten, s') && s' == s.(pc := PollCall)
  {
    s' := Take(s, Go);
    s' := Take(s', Pending(false));
  }

  /** From the accept loop to the sweep with nothing to accept and nothing to read. */
  lemma {:induction false} IdleTurn(s: State) returns (s': State)
    requires Reachable(AsWritten, s) && s.pc.AcceptTest? && s.running
    requires forall i :: 0 <= i < |s.pfds| ==> s.pfds[i].revents == 0
    ensures Reachable(AsWritten, s') && s' == s.(pc := SweepTest)
  {
    s' := NothingPending(s);
    s' := Take(s', Polled(PollFailed));
    NoReports(s.pfds);
    s' := Take(s', Go);
  }

  /** Two clients connect (descriptors 4 and 5) and the first is removed. */
  lemma {:induction false} TwoClientsFirstMarked() returns (s: State)
    ensures Reachable(AsWritten, s) && s.pc.SweepTest? && s.flag
    ensures s.slots == [Own(Client(1, 4, 4, false)), Own(Client(2, 5, 5, true))]
  {
    s := TwoClients();
    assert FindId(s.slots, 1) == Found(0);
    s := Take(s, Api(RemoveClient(1)));
    s := IdleTurn(s);
  }

  lemma {:induction false} NoReports(pfds: seq<Pollfd>)
    requires forall i :: 0 <= i < |pfds| ==> pfds[i].revents == 0
    ensures Reports(pfds) == []
  {
    if pfds == [] {
    } else {
      NoReports(pfds[..|pfds| - 1]);
    }
  }

  lemma {:induction false} Take(s: State, i: Input) returns (s': State)
    requires Reachable(AsWritten, s)
    ensures s' == Step(AsWritten, s, i) && Reachable(AsWritten, s')
  {
    s' := Step(AsWritten, s, i);
    ReachableStep(AsWritten, s, i);
  }

  /** One connection is accepted and its handler returns. */
  lemma {:induction false} Join(s: State, fd: Fd) returns (s': State)
    requires Reachable(AsWritten, s) && s.pc.AcceptTest? && s.running && s.ec == 0 && s.acceptor != 0
    requires Fresh(s.kernel, fd)
    ensures Reachable(AsWritten, s')
    ensures s' == s.(slots := s.slots + [Own(Client(s.nextId, fd, fd, true))], pfds := s.pfds + [Pollfd(fd, POLLIN, 0)],
                     nextId := s.nextId + 1, kernel := OpenFd(s.kernel, fd), trace := s.trace + [Connect(s.nextId)])
  {
    s' := Take(s, Go);
    s' := Take(s', Pending(true));
    s' := Take(s', Accepted(fd));
    s' := Take(s', Return);
  }

  // ----- how large a message may be -----

  /** No message of up to this size ever clears an error that is set. */
  ghost predicate ErrorsOutlive(size: nat) {
    forall s: State, i: Input |
      Reachable(AsWritten, s) && s.ec != 0 && i != Received(RecvEof(0)) && MessageSize(i) <= size ::
      Step(AsWritten, s, i).ec != 0
  }

  /** Two clients, and an accept that failed with error 5. */
  lemma {:induction false} FailedAccept() returns (s: State)
    ensures Reachable(AsWritten, s) && s.pc.AcceptTest? && s.running && s.ec == 5 && s.streams == map[]
    ensures s.slots == [Own(Client(1, 4, 4, true)), Own(Client(2, 5, 5, true))]
    ensures s.pfds == [Pollfd(4, POLLIN, 0), Pollfd(5, POLLIN, 0)]
  {
    s := TwoClients();
    s := Take(s, Go);
    s := Take(s, Pending(true));
    s := Take(s, AcceptFailed(5));
  }

  lemma {:induction false} LargeMessageClears(size: nat) returns (s: State, i: Input)
    requires size >= Wire.LOOKS_FAILED
    ensures Reachable(AsWritten, s) && s.ec != 0 && i.Api? && MessageSize(i) == size && Step(AsWritten, s, i).ec == 0
  {
    s := FailedAccept();
    var msg, answers := Wire.Zeros(size), [Wire.Answer(Wire.LOOKS_FAILED, 0)];
    i := Api(MessageClient(msg, 1, answers));
    Wire.LargeSendClears(msg, 5);
    Wire.LargeSendClears(msg, 0);
    assert FindId(s.slots, 1) == Found(0);
    assert SendCode(4, msg, 5, answers) == Wire.Send(1, msg, 5, answers).ec;
  }

  /** An error outlives every message of fewer than 2^32 - 1 bytes, and not every larger one. */
  lemma {:induction false} ErrorsOutliveIff(size: nat)
    ensures ErrorsOutlive(size) <==> size < Wire.LOOKS_FAILED
  {
    if size < Wire.LOOKS_FAILED {
      forall s: State, i: Input |
        Reachable(AsWritten, s) && s.ec != 0 && i != Received(RecvEof(0)) && MessageSize(i) <= size
        ensures Step(AsWritten, s, i).ec != 0
      {
        ErrorStep(AsWritten, s, i);
      }
    } else {
      var s, i := LargeMessageClears(size);
    }
  }

  /** A broadcast of this size marks exactly the addressed clients from the first failing send on. */
  ghost predicate MarksFromFirstFailure(size: nat) {
    forall s: State, msg: Bytes, exclude: ClientId, each: seq<Answers>, n: nat |
      Reachable(AsWritten, s) && !s.pc.Fault? && NoNull(s.slots) && n < |s.slots| && |msg| == size &&
      Returns(s.slots, MessageAllClients(msg, exclude, each)) ::
      MarkedFromFirstFailure(s, msg, exclude, each, n)
  }

  lemma {:induction false} LargeBroadcastSpares(size: nat) returns (s: State, msg: Bytes, each: seq<Answers>)
    requires size >= Wire.LOOKS_FAILED
    ensures Reachable(AsWritten, s) && !s.pc.Fault? && NoNull(s.slots) && |s.slots| == 2 && |msg| == size
    ensures Returns(s.slots, MessageAllClients(msg, 0, each)) && !MarkedFromFirstFailure(s, msg, 0, each, 1)
  {
    s := FailedAccept();
    msg := Wire.Zeros(size);
    var answers := [Wire.Answer(Wire.LOOKS_FAILED, 0)];
    each := [[Wire.Answer(-1, 7)], answers];
    BroadcastEffect(AsWritten, s, msg, 0, each);
    assert CodeAfter(s.slots, msg, 0, 5, each, 0, 1) == 7;
    Wire.LargeSendClears(msg, 7);
    Wire.LargeSendClears(msg, 0);
    assert SendCode(5, msg, 7, answers) == Wire.Send(1, msg, 7, answers).ec;
    assert CodeAfter(s.slots, msg, 0, 5, each, 0, 2) == 0;
  }

  /** That holds for messages of fewer than 2^32 - 1 bytes, and not for larger ones. */
  lemma {:induction false} MarksFromFirstFailureIff(size: nat)
    ensures MarksFromFirstFailure(size) <==> size < Wire.LOOKS_FAILED
  {
    if size < Wire.LOOKS_FAILED {
      forall s: State, msg: Bytes, exclude: ClientId, each: seq<Answers>, n: nat |
        Reachable(AsWritten, s) && !s.pc.Fault? && NoNull(s.slots) && n < |s.slots| && |msg| == size &&
        Returns(s.slots, MessageAllClients(msg, exclude, each))
        ensures MarkedFromFirstFailure(s, msg, exclude, each, n)
      {
        BroadcastMarksOn(AsWritten, s, msg, exclude, each, n);
      }
    } else {
      var s, msg, each := LargeBroadcastSpares(size);
    }
  }

  /** From any reachable state in order, messages of up to this size keep the sends in order. */
  ghost predicate SendsStayInOrder(size: nat) {
    forall s: State, inputs: seq<Input>, id: ClientId |
      Reachable(AsWritten, s) && SentInOrder(s) && (forall i :: i in inputs ==> MessageSize(i) <= size) ::
      Handed(Run(AsWritten, s, inputs).sends, id) <= Messages(Run(AsWritten, s, inputs).sends, id)
  }

  /** Two messages to client 1: of the first, which is all zeros, the last bytes are left out unnoticed. */
  lemma {:induction false} LargeMessageLeavesGap(size: nat) returns (s: State, inputs: seq<Input>)
    requires Wire.TWO_31 < size < Wire.TWO_63
    ensures Reachable(AsWritten, s) && SentInOrder(s) && forall i :: i in inputs ==> MessageSize(i) <= size
    ensures !(Handed(Run(AsWritten, s, inputs).sends, 1) <= Messages(Run(AsWritten, s, inputs).sends, 1))
  {
    s := TwoClients();
    var data, answers := Wire.Zeros(size), [Wire.Answer(Wire.TWO_31, 0)];
    var a, b := Api(MessageClient(data, 1, answers)), Api(MessageClient([1], 1, [Wire.Answer(1, 0)]));
    inputs := [a, b];
    LargeMessage(s, data, answers);
    SmallMessage(Step(AsWritten, s, a));
    TwoSteps(AsWritten, s, a, b);
    GapShows(data);
  }

  lemma {:induction false} TwoSteps(m: Mode, s: State, a: Input, b: Input)
    ensures Run(m, s, [a, b]) == Step(m, Step(m, s, a), b)
  {
    assert [a, b][..1] == [a] && [a][..0] == [];
    assert Run(m, s, []) == s && Run(m, s, [a]) == Step(m, s, a);
  }

  lemma {:induction false} LargeMessage(s: State, data: Bytes, answers: Answers)
    requires !s.pc.Fault? && !s.pc.Destroyed? && s.ec == 0 && Wire.TWO_31 < |data| < Wire.TWO_63
    requires |s.slots| > 0 && s.slots[0] == Own(Client(1, 4, 4, true)) && answers == [Wire.Answer(Wire.TWO_31, 0)]
    ensures Step(AsWritten, s, Api(MessageClient(data, 1, answers))) ==
            s.(sends := s.sends + [Sending(1, data, data[..Wire.TWO_31])])
  {
    Wire.SendLoopCutsShort(data, 0);
    assert FindId(s.slots, 1) == Found(0);
    assert Wire.Send(4, data, 0, answers) == Wire.Send(1, data, 0, answers);
  }

  lemma {:induction false} SmallMessage(s: State)
    requires !s.pc.Fault? && !s.pc.Destroyed? && s.ec == 0
    requires |s.slots| > 0 && s.slots[0] == Own(Client(1, 4, 4, true))
    ensures Step(AsWritten, s, Api(MessageClient([1], 1, [Wire.Answer(1, 0)]))) ==
            s.(sends := s.sends + [Sending(1, [1], [1])])
  {
    var answers := [Wire.Answer(1, 0)];
    Wire.SendLoopTurn([1], 0, 0, answers, 0);
    assert [1 as Byte][..0] == [] && [1 as Byte][..1] == [1];
    assert Wire.Send(4, [1], 0, answers) == Wire.Send(1, [1], 0, answers) == Wire.Sent([1], true, 0);
    assert FindId(s.slots, 1) == Found(0);
  }

  lemma {:induction false} GapShows(data: Bytes)
    requires |data| > Wire.TWO_31 && data[Wire.TWO_31] == 0
    ensures var sends := [] + [Sending(1, data, data[..Wire.TWO_31])] + [Sending(1, [1], [1])];
            !(Handed(sends, 1) <= Messages(sends, 1))
  {
    var x, y := Sending(1, data, data[..Wire.TWO_31]), Sending(1, [1], [1]);
    SendsAfter([], x, 1);
    SendsAfter([] + [x], y, 1);
    var sends := [] + [x] + [y];
    assert Handed(sends, 1)[Wire.TWO_31] == 1 && Messages(sends, 1)[Wire.TWO_31] == 0;
  }

  /** The sends stay in order for messages of up to 2^31 bytes, and not for larger ones. */
  lemma {:induction false} SendsStayInOrderIff(size: nat)
    requires size < Wire.TWO_63
    ensures SendsStayInOrder(size) <==> size <= Wire.TWO_31
  {
    if size <= Wire.TWO_31 {
      forall s: State, inputs: seq<Input>, id: ClientId |
        Reachable(AsWritten, s) && SentInOrder(s) && (forall i :: i in inputs ==> MessageSize(i) <= size)
        ensures Handed(Run(AsWritten, s, inputs).sends, id) <= Messages(Run(AsWritten, s, inputs).sends, id)
      {
        forall i | i in inputs ensures SendFits(i) { assert MessageSize(i) <= Wire.TWO_31; }
        assert Inv(s) by { ReachableInv(AsWritten, s); }
        RunSentInOrder(AsWritten, s, inputs);
      }
    } else {
      var s, inputs := LargeMessageLeavesGap(size);
    }
  }

  // ----- bytes that are lost -----

  /** Behind a failed accept, client 1 sends a byte. */
  lemma {:induction false} ByteSent() returns (s: State)
    ensures Reachable(AsWritten, s) && s.pc.AcceptTest? && s.running && s.ec == 5
    ensures s.slots == [Own(Client(1, 4, 4, true)), Own(Client(2, 5, 5, true))]
    ensures s.pfds == [Pollfd(4, POLLIN, 0), Pollfd(5, POLLIN, 0)]
    ensures OpsOf(s.streams, 1) == [] + [Wire.SendOp([7], [Wire.Answer(1, 0)])]
  {
    s := FailedAccept();
    s := Take(s, PeerSends(1, [7], [Wire.Answer(1, 0)]));
  }

  /** From the accept loop to the first event when poll reports client 1. */
  lemma {:induction false} FirstEvent(s: State) returns (s': State)
    requires Reachable(AsWritten, s) && s.pc.AcceptTest? && s.running
    requires s.pfds == [Pollfd(4, POLLIN, 0), Pollfd(5, POLLIN, 0)]
    ensures Reachable(AsWritten, s') && s' == s.(pc := ReadEvent([Readiness(4, READABLE)], 0), pfds := s'.pfds)
  {
    s' := NothingPending(s);
    s' := FirstPolled(s');
    s' := Take(s', Go);
  }

  lemma {:induction false} FirstPolled(s: State) returns (s': State)
    requires Reachable(AsWritten, s) && s.pc.PollCall?
    requires s.pfds == [Pollfd(4, POLLIN, 0), Pollfd(5, POLLIN, 0)]
    ensures Reachable(AsWritten, s') && s' == s.(pc := ReadTest([Readiness(4, READABLE)], 0), pfds := s'.pfds)
  {
    var revents := [POLLIN, 0];
    FirstReports(revents);
    s' := Take(s, Polled(PollFilled(revents)));
  }

  /** Behind a failed accept, client 1 has sent a byte and poll reports it. */
  lemma {:induction false} ByteBehindError() returns (s: State)
    ensures Reachable(AsWritten, s) && s.ec == 5 && Enabled(s, Received(RecvData([7]))) && SenderOf(s) == 1
  {
    s := ByteSent();
    s := FirstEvent(s);
    OneByteArrives();
    assert FindFd(s.slots, 4) == Found(0);
    assert CanRead(READABLE) && !Broken(READABLE);
  }

  lemma {:induction false} OneByteArrives()
    ensures Possible([] + [Wire.SendOp([7], [Wire.Answer(1, 0)])], RecvData([7]))
  {
    Wire.SentWhole(Wire.EMPTY, [7]);
    Wire.StreamPush([], Wire.SendOp([7], [Wire.Answer(1, 0)]));
  }

  lemma {:induction false} FirstReports(revents: seq<bv16>)
    requires revents == [POLLIN, 0]
    ensures var pfds := Filled([Pollfd(4, POLLIN, 0), Pollfd(5, POLLIN, 0)], PollFilled(revents));
            Reports(pfds) == [Readiness(4, READABLE)]
  {
    var pfds := Filled([Pollfd(4, POLLIN, 0), Pollfd(5, POLLIN, 0)], PollFilled(revents));
    assert pfds == [Pollfd(4, POLLIN, POLLIN), Pollfd(5, POLLIN, 0)];
    ReportsStep(pfds, 0);
    ReportsStep(pfds, 1);
    assert pfds[..2] == pfds && pfds[..0] == [];
  }

  /** A run in which a byte is taken off a client's stream and never passed on. */
  lemma {:induction false} LossIsReachable() returns (s: State)
    ensures Reachable(AsWritten, s) && Delivered(s.trace, 1) != Taken(s.taken, 1)
  {
    var before := ByteBehindError();
    s := Take(before, Received(RecvData([7])));
    DeliveredIsPrefix(AsWritten, before, 1);
    assert Inv(before) by { ReachableInv(AsWritten, before); }
    DroppedStep(AsWritten, before, Received(RecvData([7])), 1);
  }

  lemma {:induction false} DoomedReachesFault(s: State) returns (s': State)
    requires Reachable(AsWritten, s) && Doomed(s)
    ensures Reachable(AsWritten, s') && s'.pc.Fault?
    decreases Fuse(s)
  {
    var i := if s.pc.SweepWalk? then Go else Return;
    assert Enabled(s, i) by { ReachableInv(AsWritten, s); }
    FuseBurns(AsWritten, s, i);
    s' := Take(s, i);
    if !s'.pc.Fault? { s' := DoomedReachesFault(s'); }
  }

  lemma {:induction false} UncleanSweep() returns (s: State)
    ensures Reachable(AsWritten, s) && Doomed(s)
  {
    s := TwoClientsFirstMarked();
    assert !MarkedSuffix(s.slots) by { assert IsMarked(s.slots[0]) && !IsMarked(s.slots[1]); }
    SweepAgreesIff(s);
    s := Take(s, Go);
  }

  /** Removing the older of two clients makes the server dereference a null pointer. */
  lemma {:induction false} FaultIsReachable() returns (s: State)
    ensures Reachable(AsWritten, s) && s.pc.Fault?
  {
    s := UncleanSweep();
    s := DoomedReachesFault(s);
  }
}
