/**
 * ec_ is shared by every operation of the server and no success clears it: what that does to
 * the rest of a run.
 */
module Errors {
  import opened Types
  import opened Machine
  import opened Clients
  import opened Invariant
  import opened Interface
  import opened Preservation
  import opened Broadcasting

  /** The Connect and Data callbacks of a history. */
  function Deliveries(t: seq<Event>): (r: seq<Event>)
    ensures |r| <= |t|
  {
    if t == [] then []
    else
      var r := Deliveries(t[..|t| - 1]);
      if t[|t| - 1].Disconnect? then r else r + [t[|t| - 1]]
  }

  lemma {:induction false} DeliveriesAfter(t: seq<Event>, e: Event)
    ensures Deliveries(t + [e]) == Deliveries(t) + if e.Disconnect? then [] else [e]
  {
    assert (t + [e])[..|t|] == t;
  }

  /** No client appears, no descriptor is gained by a client, nothing is delivered. */
  ghost predicate Shrinks(s: State, s': State) {
    IdSet(s'.slots) <= IdSet(s.slots) && Socks(s'.slots) <= Socks(s.slots) &&
    Deliveries(s'.trace) == Deliveries(s.trace)
  }

  lemma {:induction false} SubsetSets(a: seq<Slot>, b: seq<Slot>)
    requires forall x :: x in a && x.Own? ==> x in b
    ensures IdSet(a) <= IdSet(b) && Socks(a) <= Socks(b)
  {
  }

  lemma {:induction false} UnsockShrinks(s: seq<Slot>, i: nat)
    requires i < |s| && s[i].Own?
    ensures IdSet(Unsock(s, i)) <= IdSet(s) && Socks(Unsock(s, i)) <= Socks(s)
  {
    var u := Unsock(s, i);
    forall x | x in u && x.Own? ensures x.c.id in IdSet(s) && (x.c.sock != 0 ==> x.c.sock in Socks(s)) {
      var n :| 0 <= n < |u| && u[n] == x;
      assert s[n] in s;
    }
  }

  lemma {:induction false} QuietShrinks(s: State, s': State)
    requires Quiet(s, s')
    ensures Shrinks(s, s')
  {
    MarksKeepSets(s.slots, s'.slots);
  }

  lemma {:induction false} DropShrinks(s: State, id: ClientId)
    requires s.pc.ReadEvent?
    ensures Shrinks(s, Drop(s, id))
    ensures Drop(s, id).ec == s.ec
  {
    RemoveIsQuiet(s, id);
    QuietShrinks(s, Remove(s, id));
  }

  lemma {:induction false} HeardShrinks(s: State, i: nat, r: Recv)
    requires i < |s.slots| && s.slots[i].Own?
    ensures Shrinks(s, Heard(s, i, r)) && Heard(s, i, r).pc == s.pc
  {
    UnsockShrinks(s.slots, i);
  }

  lemma {:induction false} ReceiveShrinks(s: State, i: nat, r: Recv)
    requires s.pc.ReadEvent? && i < |s.slots| && s.slots[i].Own? && s.ec != 0
    ensures Shrinks(s, Receive(s, i, r))
  {
    HeardShrinks(s, i, r);
    DropShrinks(Heard(s, i, r), s.slots[i].c.id);
  }

  lemma {:induction false} SweepShrinks(m: Mode, s: State)
    requires Enabled(s, Go) && (s.pc.SweepTest? || s.pc.SweepWalk?)
    ensures Shrinks(s, Next(m, s, Go))
    ensures Next(m, s, Go).ec == s.ec
  {
    var s' := Next(m, s, Go);
    if s.pc.SweepTest? {
      forall x | x in Separated(m, s.slots) && x.Own? ensures x in s.slots { SeparatedMembers(m, s.slots, x); }
      SubsetSets(Separated(m, s.slots), s.slots);
    } else if s.pc.j < |s.slots| {
      if s.slots[s.pc.j].Own? {
        UnsockShrinks(s.slots, s.pc.j);
        DeliveriesAfter(s.trace, Disconnect(s.slots[s.pc.j].c.id));
      }
    } else {
      SubsetSets(s.slots[..s.pc.k], s.slots);
    }
  }

  lemma {:induction false} GoShrinks(m: Mode, s: State)
    requires Enabled(s, Go)
    ensures Shrinks(s, Next(m, s, Go))
    ensures Next(m, s, Go).ec == s.ec
  {
    match s.pc
    case SweepTest | SweepWalk(_, _) => SweepShrinks(m, s);
    case ReadEvent(events, i) =>
      var r := FindFd(s.slots, events[i].fd);
      if r.Found? { DropShrinks(s, s.slots[r.i].c.id); }
    case _ =>
  }

  lemma {:induction false} ReceiveKeepsError(s: State, i: nat, r: Recv)
    requires s.pc.ReadEvent? && i < |s.slots| && s.slots[i].Own? && s.ec != 0
    requires r != RecvEof(0) && (r.RecvError? ==> r.errno != 0)
    ensures Receive(s, i, r).ec != 0
  {
    HeardShrinks(s, i, r);
    DropShrinks(Heard(s, i, r), s.slots[i].c.id);
  }

  // ----- calls -----

  /** The bytes a call wants to send to each client. */
  function MessageSize(i: Input): nat {
    if i.Api? && i.call.MessageClient? then |i.call.msg|
    else if i.Api? && i.call.MessageAllClients? then |i.call.msg|
    else 0
  }

  /** The call's message is below 2^32 - 1 bytes, or is sent in counts that all are. */
  predicate CannotResetCode(i: Input) {
    if i.Api? && i.call.MessageClient? then Wire.CannotReset(i.call.msg, i.call.answers)
    else if i.Api? && i.call.MessageAllClients? then
      |i.call.msg| < Wire.LOOKS_FAILED ||
      forall n :: 0 <= n < |i.call.each| ==> Wire.Below(i.call.each[n], Wire.LOOKS_FAILED)
    else true
  }

  lemma {:induction false} MessageKeepsError(s: State, msg: Bytes, id: ClientId, answers: Answers)
    requires s.ec != 0 && Wire.CannotReset(msg, answers) && Wire.ErrnosSet(answers)
    ensures Message(s, msg, id, answers).ec != 0
  {
    var r := FindId(s.slots, id);
    if r.Found? { Wire.SendCodeIff(s.slots[r.i].c.sock, msg, s.ec, answers); }
  }

  lemma {:induction false} BroadcastKeepsError(s: State, msg: Bytes, exclude: ClientId, each: seq<Answers>, i: nat)
    requires s.ec != 0 && BroadcastCannotReset(s.slots, msg, each)
    requires forall n :: 0 <= n < |s.slots| ==> Wire.ErrnosSet(AnswersAt(each, n))
    ensures Broadcast(s, msg, exclude, each, i).ec != 0
    decreases |s.slots| - i
  {
    if i >= |s.slots| || s.slots[i].Null? {
    } else if s.slots[i].c.id == exclude {
      BroadcastKeepsError(s, msg, exclude, each, i + 1);
    } else {
      var s' := Message(s, msg, s.slots[i].c.id, AnswersAt(each, i));
      MessageKeepsError(s, msg, s.slots[i].c.id, AnswersAt(each, i));
      if !s'.pc.Fault? { BroadcastKeepsError(s', msg, exclude, each, i + 1); }
    }
  }

  lemma {:induction false} CallKeepsError(s: State, call: Call)
    requires s.ec != 0 && Returns(s.slots, call) && CannotResetCode(Api(call))
    ensures Do(s, call).ec != 0
  {
    match call
    case Stop =>
    case RemoveClient(_) =>
    case MessageClient(msg, id, answers) => MessageKeepsError(s, msg, id, answers);
    case MessageAllClients(msg, exclude, each) =>
      assert forall n :: 0 <= n < |s.slots| ==> Answered(msg, each[n]) && AnswersAt(each, n) == each[n];
      BroadcastKeepsError(s, msg, exclude, each, 0);
  }

  // ----- steps and runs -----

  /** Neither the end of a stream at errno 0 nor a message one of whose sends could reset the code. */
  predicate Harmless(i: Input) {
    i != Received(RecvEof(0)) && CannotResetCode(i)
  }

  /** While ec_ is set, no step lets a client in or data through. */
  lemma {:induction false} ErrorStep(m: Mode, s: State, i: Input)
    requires s.ec != 0
    ensures Shrinks(s, Step(m, s, i))
    ensures Harmless(i) ==> Step(m, s, i).ec != 0
  {
    if Enabled(s, i) {
      match i
      case Api(call) => CallErrorStep(s, call);
      case Received(r) =>
        var n := FindFd(s.slots, s.pc.events[s.pc.i].fd).i;
        ReceiveShrinks(s, n, r);
        if r != RecvEof(0) { ReceiveKeepsError(s, n, r); }
      case Go => GoShrinks(m, s);
      case Destroy => SubsetSets([], s.slots);
      case _ =>
    }
  }

  lemma {:induction false} CallErrorStep(s: State, call: Call)
    requires s.ec != 0 && Returns(s.slots, call)
    ensures Shrinks(s, Do(s, call))
    ensures Harmless(Api(call)) ==> Do(s, call).ec != 0
  {
    CallIsQuiet(s, call);
    QuietShrinks(s, Do(s, call));
    if Harmless(Api(call)) { CallKeepsError(s, call); }
  }

  lemma {:induction false} ShrinksTransitive(a: State, b: State, c: State)
    requires Shrinks(a, b) && Shrinks(b, c)
    ensures Shrinks(a, c)
  {
  }

  /**
   * Once ec_ is set, it stays set as long as no end of stream stores errno 0 in it and every
   * message, or every count of its sends, is below 2^32 - 1 bytes; no further Connect or Data
   * callback is made, no client is added and no accepted socket is kept.
   */
  lemma {:induction false} ErrorPersists(m: Mode, s: State, inputs: seq<Input>)
    requires s.ec != 0 && forall i :: i in inputs ==> Harmless(i)
    ensures Run(m, s, inputs).ec != 0 && Shrinks(s, Run(m, s, inputs))
  {
    if inputs == [] {
    } else {
      var prefix, i := inputs[..|inputs| - 1], inputs[|inputs| - 1];
      assert i in inputs && forall x :: x in prefix ==> x in inputs;
      ErrorPersists(m, s, prefix);
      ErrorStep(m, Run(m, s, prefix), i);
      ShrinksTransitive(s, Run(m, s, prefix), Run(m, s, inputs));
    }
  }

  /** The call clears an old error: a send of it is taken for failed while errno is 0. */
  predicate CallClears(s: seq<Slot>, call: Call) {
    match call
    case Stop => false
    case RemoveClient(_) => false
    case MessageClient(msg, id, answers) =>
      var r := FindId(s, id);
      r.Found? && s[r.i].c.connected && Wire.SendResets(s[r.i].c.sock, msg, answers)
    case MessageAllClients(msg, exclude, each) => ResetBefore(s, msg, exclude, each, |s|)
  }

  lemma {:induction false} CallClearsIff(s: State, call: Call)
    requires Inv(s) && !s.pc.Fault? && s.ec != 0 && Returns(s.slots, call) && !Do(s, call).pc.Fault?
    ensures Do(s, call).ec == 0 <==> CallClears(s.slots, call)
  {
    match call
    case Stop =>
    case RemoveClient(_) =>
    case MessageClient(msg, id, answers) =>
      var r := FindId(s.slots, id);
      if r.Found? { Wire.SendResetsIff(s.slots[r.i].c.sock, msg, s.ec, answers); }
    case MessageAllClients(msg, exclude, each) =>
      BroadcastFaultsFrom(s, msg, exclude, each, 0);
      BroadcastFrom(s, msg, exclude, each, 0);
      CodeClearedIff(s.slots, msg, exclude, s.ec, each, |s.slots|);
  }

  /**
   * The steps that clear ec_: receive() meets the end of the stream while errno is 0, or a message
   * is sent whose last answer is taken for a failure while errno is 0. The second takes a count of
   * 2^32 - 1 bytes or more.
   */
  lemma {:induction false} ErrorClearedIff(m: Mode, s: State, i: Input)
    requires Inv(s) && s.ec != 0 && !Step(m, s, i).pc.Fault?
    ensures Step(m, s, i).ec == 0 <==>
            Enabled(s, i) && (i == Received(RecvEof(0)) || (i.Api? && CallClears(s.slots, i.call)))
    ensures Step(m, s, i).ec == 0 ==> !Harmless(i)
  {
    ErrorStep(m, s, i);
    if Enabled(s, i) && i.Api? {
      CallClearsIff(s, i.call);
    } else if i == Received(RecvEof(0)) && Enabled(s, i) {
      EofClears(m, s);
    }
  }

  lemma {:induction false} EofClears(m: Mode, s: State)
    requires Inv(s) && Enabled(s, Received(RecvEof(0)))
    ensures Step(m, s, Received(RecvEof(0))).ec == 0
  {
    EventResolves(s);
    var n := FindFd(s.slots, s.pc.events[s.pc.i].fd).i;
    var c := s.slots[n].c;
    assert ClientOk(c, Limit(s));
    RemoveIsQuiet(s.(kernel := Release(s.kernel, c.sock), slots := Unsock(s.slots, n), ec := 0), c.id);
  }

  /** A stale error refuses an accepted connection: the descriptor is closed again at once. */
  lemma {:induction false} StaleErrorRefuses(m: Mode, s: State, fd: Fd)
    requires Inv(s) && s.ec != 0 && Enabled(s, Accepted(fd))
    ensures var s' := Step(m, s, Accepted(fd));
            s'.slots == s.slots && s'.trace == s.trace && s'.kernel.server == s.kernel.server &&
            s'.kernel.log == s.kernel.log + [Opened(fd), Closed(fd)] && s'.nextId == s.nextId - 1
  {
    RefusedInv(s, fd);
  }

  /** A stale error turns data that did arrive into a disconnection of its sender. */
  lemma {:induction false} StaleErrorDropsSender(m: Mode, s: State, bytes: Bytes)
    requires Inv(s) && s.ec != 0 && Enabled(s, Received(RecvData(bytes)))
    ensures var s' := Step(m, s, Received(RecvData(bytes)));
            var n := FindFd(s.slots, s.pc.events[s.pc.i].fd).i;
            s'.trace == s.trace && |s'.slots| == |s.slots| && s'.flag &&
            n < |s.slots| && s.slots[n].Own? && s'.slots == MarkAt(s.slots, n)
  {
    EventResolves(s);
    FindIdExact(s.slots, FindFd(s.slots, s.pc.events[s.pc.i].fd).i);
  }
}
