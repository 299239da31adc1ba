/**
 * What the server's sends add up to: for each client, the bytes handed to the kernel are a prefix of
 * the messages sent to it, because a send that stops early marks the client and nothing is sent to a
 * marked one.
 */
module Outgoing {
  import opened Types
  import opened Machine
  import opened Clients
  import opened Invariant
  import opened Interface
  import opened Preservation

  /** The bytes handed to the kernel for one client, in order. */
  function Handed(sends: seq<Sending>, id: ClientId): Bytes {
    if sends == [] then []
    else
      var last := sends[|sends| - 1];
      Handed(sends[..|sends| - 1], id) + if last.id == id then last.wire else []
  }

  /** The messages sent to one client, end to end. */
  function Messages(sends: seq<Sending>, id: ClientId): Bytes {
    if sends == [] then []
    else
      var last := sends[|sends| - 1];
      Messages(sends[..|sends| - 1], id) + if last.id == id then last.msg else []
  }

  lemma {:induction false} SendsAfter(sends: seq<Sending>, x: Sending, id: ClientId)
    ensures Handed(sends + [x], id) == Handed(sends, id) + if x.id == id then x.wire else []
    ensures Messages(sends + [x], id) == Messages(sends, id) + if x.id == id then x.msg else []
  {
    assert (sends + [x])[..|sends|] == sends;
  }

  /** The clients that have not been marked. */
  function ConnectedIds(s: seq<Slot>): set<ClientId> {
    set x | x in s && x.Own? && x.c.connected :: x.c.id
  }

  /** Prefixes for all, everything for the connected, nothing for clients still to come. */
  ghost predicate SendsOk(sends: seq<Sending>, connected: set<ClientId>, limit: ClientId) {
    (forall id: ClientId :: Handed(sends, id) <= Messages(sends, id)) &&
    (forall id: ClientId :: id in connected ==> Handed(sends, id) == Messages(sends, id)) &&
    (forall id: ClientId :: id >= limit ==> Messages(sends, id) == [])
  }

  ghost predicate SentInOrder(s: State) {
    SendsOk(s.sends, ConnectedIds(s.slots), Limit(s))
  }

  /** The messages of a call are sent in counts that fit int, or have at most 2^31 bytes. */
  predicate SendFits(i: Input) {
    if i.Api? && i.call.MessageClient? then Wire.CountsFit(i.call.msg, i.call.answers)
    else if i.Api? && i.call.MessageAllClients? then
      forall n :: 0 <= n < |i.call.each| ==> Wire.CountsFit(i.call.msg, i.call.each[n])
    else true
  }

  // ----- one send -----

  lemma {:induction false} OneSend(
    sends: seq<Sending>, connected: set<ClientId>, after: set<ClientId>, limit: ClientId, x: Sending)
    requires SendsOk(sends, connected, limit) && x.id in connected && x.id < limit
    requires x.wire <= x.msg && after <= connected && (x.wire != x.msg ==> x.id !in after)
    ensures SendsOk(sends + [x], after, limit)
  {
    forall id: ClientId
      ensures Handed(sends + [x], id) <= Messages(sends + [x], id)
      ensures id in after ==> Handed(sends + [x], id) == Messages(sends + [x], id)
      ensures id >= limit ==> Messages(sends + [x], id) == []
    {
      SendsAfter(sends, x, id);
    }
  }

  /** A send whose counts fit hands over all of the message or leaves an error. */
  lemma {:induction false} SendOutcome(sock: Fd, msg: Bytes, ec: ErrorCode, answers: Answers)
    requires Wire.CountsFit(msg, answers) && Answered(msg, answers)
    ensures var sent := Wire.Send(sock, msg, ec, answers);
            sent.wire <= msg && (sent.wire != msg ==> sent.ec != 0)
  {
    if sock != 0 && msg != [] {
      Wire.WireIgnoresCode(1, msg, ec, answers);
      Wire.SendLoopExact(msg, 0, ec, answers, 0);
      assert msg[..0] == [];
    }
  }

  lemma {:induction false} MarkDisconnects(s: seq<Slot>, i: nat)
    requires Pairwise(s) && i < |s| && s[i].Own?
    ensures ConnectedIds(MarkAt(s, i)) <= ConnectedIds(s) - {s[i].c.id}
  {
    var t := MarkAt(s, i);
    forall x | x in t && x.Own? && x.c.connected ensures x.c.id in ConnectedIds(s) && x.c.id != s[i].c.id {
      var n :| 0 <= n < |t| && t[n] == x;
      assert s[n] in s;
      if n < i { assert Apart(s[n], s[i]); } else { assert Apart(s[i], s[n]); }
    }
  }

  lemma {:induction false} MessageInOrder(s: State, msg: Bytes, id: ClientId, answers: Answers, limit: ClientId)
    requires SendsOk(s.sends, ConnectedIds(s.slots), limit) && Sound(s.slots, limit)
    requires Wire.CountsFit(msg, answers) && Answered(msg, answers)
    ensures var s' := Message(s, msg, id, answers); SendsOk(s'.sends, ConnectedIds(s'.slots), limit)
  {
    var r := FindId(s.slots, id);
    if r.Found? && s.slots[r.i].c.connected {
      var c, s' := s.slots[r.i].c, Message(s, msg, id, answers);
      var sent := Wire.Send(c.sock, msg, s.ec, answers);
      assert s'.slots == if sent.ec != 0 then MarkAt(s.slots, r.i) else s.slots;
      assert s'.sends == s.sends + [Sending(id, msg, sent.wire)];
      assert s.slots[r.i] in s.slots && ClientOk(c, limit);
      SendOutcome(c.sock, msg, s.ec, answers);
      MarkDisconnects(s.slots, r.i);
      OneSend(s.sends, ConnectedIds(s.slots), ConnectedIds(s'.slots), limit, Sending(id, msg, sent.wire));
    }
  }

  lemma {:induction false} MarksKeepSound(a: seq<Slot>, b: seq<Slot>, limit: ClientId)
    requires SameButMarks(a, b) && Sound(a, limit)
    ensures Sound(b, limit) && ConnectedIds(b) <= ConnectedIds(a)
  {
    assert forall i :: 0 <= i < |a| ==> MarkedOnly(a[i], b[i]);
    forall i, j | 0 <= i < j < |b| ensures Apart(b[i], b[j]) { assert Apart(a[i], a[j]); }
    forall x | x in b && x.Own? && x.c.connected ensures x.c.id in ConnectedIds(a) {
      var n :| 0 <= n < |b| && b[n] == x;
      assert a[n] in a;
    }
  }

  lemma {:induction false} BroadcastInOrder(
    s: State, msg: Bytes, exclude: ClientId, each: seq<Answers>, i: nat, limit: ClientId)
    requires SendsOk(s.sends, ConnectedIds(s.slots), limit) && Sound(s.slots, limit)
    requires Returns(s.slots, MessageAllClients(msg, exclude, each))
    requires SendFits(Api(MessageAllClients(msg, exclude, each)))
    ensures var s' := Broadcast(s, msg, exclude, each, i); SendsOk(s'.sends, ConnectedIds(s'.slots), limit)
    decreases |s.slots| - i
  {
    if i >= |s.slots| || s.slots[i].Null? {
    } else if s.slots[i].c.id == exclude {
      BroadcastInOrder(s, msg, exclude, each, i + 1, limit);
    } else {
      var id, s' := s.slots[i].c.id, Message(s, msg, s.slots[i].c.id, AnswersAt(each, i));
      assert Answered(msg, each[i]) && Wire.CountsFit(msg, each[i]) && AnswersAt(each, i) == each[i];
      MessageInOrder(s, msg, id, each[i], limit);
      MessageIsQuiet(s, msg, id, each[i]);
      MarksKeepSound(s.slots, s'.slots, limit);
      if !s'.pc.Fault? { BroadcastInOrder(s', msg, exclude, each, i + 1, limit); }
    }
  }

  // ----- every step -----

  /** A step that sends nothing and connects nobody. */
  lemma {:induction false} NothingSent(s: State, s': State)
    requires SentInOrder(s) && s'.sends == s.sends && Limit(s') >= Limit(s)
    requires ConnectedIds(s'.slots) <= ConnectedIds(s.slots)
    ensures SentInOrder(s')
  {
  }

  lemma {:induction false} SoundAlways(s: State)
    requires Inv(s) && !s.pc.Fault? && !s.pc.Destroyed?
    ensures Sound(s.slots, Limit(s))
  {
  }

  lemma {:induction false} CallSentInOrder(s: State, call: Call)
    requires SentInOrder(s) && Sound(s.slots, Limit(s)) && Returns(s.slots, call) && SendFits(Api(call))
    requires s.pc.AcceptCall? ==> s.nextId == s.pc.newId + 1
    ensures SentInOrder(Do(s, call))
  {
    var s' := Do(s, call);
    CallIsQuiet(s, call);
    match call
    case Stop =>
    case RemoveClient(id) =>
      MarksKeepSound(s.slots, s'.slots, Limit(s));
      assert s'.sends == s.sends;
    case MessageClient(msg, id, answers) => MessageInOrder(s, msg, id, answers, Limit(s));
    case MessageAllClients(msg, exclude, each) => BroadcastInOrder(s, msg, exclude, each, 0, Limit(s));
  }

  lemma {:induction false} UnsockConnects(s: seq<Slot>, i: nat)
    requires i < |s| && s[i].Own?
    ensures ConnectedIds(Unsock(s, i)) <= ConnectedIds(s)
  {
    var u := Unsock(s, i);
    forall x | x in u && x.Own? && x.c.connected ensures x.c.id in ConnectedIds(s) {
      var n :| 0 <= n < |u| && u[n] == x;
      assert s[n] in s;
    }
  }

  lemma {:induction false} RemoveConnects(s: State, id: ClientId)
    ensures ConnectedIds(Remove(s, id).slots) <= ConnectedIds(s.slots) && Remove(s, id).sends == s.sends
    ensures Remove(s, id).nextId == s.nextId
  {
    var r := FindId(s.slots, id);
    if r.Found? {
      var t := MarkAt(s.slots, r.i);
      forall x | x in t && x.Own? && x.c.connected ensures x.c.id in ConnectedIds(s.slots) {
        var n :| 0 <= n < |t| && t[n] == x;
        assert s.slots[n] in s.slots;
      }
    }
  }

  lemma {:induction false} ReceiveConnects(s: State, i: nat, r: Recv)
    requires s.pc.ReadEvent? && i < |s.slots| && s.slots[i].Own?
    ensures ConnectedIds(Receive(s, i, r).slots) <= ConnectedIds(s.slots) && Receive(s, i, r).sends == s.sends
    ensures Limit(Receive(s, i, r)) == Limit(s)
  {
    UnsockConnects(s.slots, i);
    RemoveConnects(Heard(s, i, r), s.slots[i].c.id);
  }

  lemma {:induction false} GoConnects(m: Mode, s: State)
    requires Enabled(s, Go)
    ensures ConnectedIds(Next(m, s, Go).slots) <= ConnectedIds(s.slots) && Next(m, s, Go).sends == s.sends
    ensures Limit(Next(m, s, Go)) == Limit(s)
  {
    if s.pc.ReadEvent? {
      SilenceConnects(s);
    } else if s.pc.SweepTest? {
      SeparatedConnects(m, s.slots);
    } else if s.pc.SweepWalk? && s.pc.j < |s.slots| && s.slots[s.pc.j].Own? {
      UnsockConnects(s.slots, s.pc.j);
    }
  }

  lemma {:induction false} SilenceConnects(s: State)
    requires s.pc.ReadEvent? && s.pc.i < |s.pc.events|
    ensures ConnectedIds(ReadSilently(s).slots) <= ConnectedIds(s.slots) && ReadSilently(s).sends == s.sends
    ensures Limit(ReadSilently(s)) == Limit(s)
  {
    var r := FindFd(s.slots, s.pc.events[s.pc.i].fd);
    if r.Found? { RemoveConnects(s, s.slots[r.i].c.id); }
  }

  lemma {:induction false} SeparatedConnects(m: Mode, s: seq<Slot>)
    ensures ConnectedIds(Separated(m, s)) <= ConnectedIds(s)
  {
    forall x | x in Separated(m, s) && x.Own? ensures x in s { SeparatedMembers(m, s, x); }
  }

  lemma {:induction false} AcceptSentInOrder(s: State, fd: Fd)
    requires SentInOrder(s) && Enabled(s, Accepted(fd)) && s.nextId == s.pc.newId + 1
    ensures SentInOrder(AcceptOk(s, fd))
  {
    var s' := AcceptOk(s, fd);
    if s.ec == 0 {
      assert Handed(s.sends, s.pc.newId) <= Messages(s.sends, s.pc.newId) == [];
      assert ConnectedIds(s'.slots) <= ConnectedIds(s.slots) + {s.pc.newId};
    }
  }

  lemma {:induction false} NextSentInOrder(m: Mode, s: State, i: Input)
    requires Inv(s) && SentInOrder(s) && Enabled(s, i) && SendFits(i)
    ensures SentInOrder(Next(m, s, i))
  {
    if i.Api? {
      SoundAlways(s);
      CallSentInOrder(s, i.call);
    } else if i.Go? {
      GoConnects(m, s);
      NothingSent(s, Next(m, s, i));
    } else if i.Received? {
      ReceiveConnects(s, FindFd(s.slots, s.pc.events[s.pc.i].fd).i, i.r);
      NothingSent(s, Next(m, s, i));
    } else if i.Accepted? {
      AcceptSentInOrder(s, i.fd);
    } else {
      NothingSent(s, Next(m, s, i));
    }
  }

  // ----- the main results -----

  /** From a state in order, runs whose sends fit stay in order. */
  lemma {:induction false} RunSentInOrder(m: Mode, s: State, inputs: seq<Input>)
    requires Inv(s) && SentInOrder(s) && forall i :: i in inputs ==> SendFits(i)
    ensures Inv(Run(m, s, inputs)) && SentInOrder(Run(m, s, inputs))
  {
    if inputs == [] {
    } else {
      var prefix, i := inputs[..|inputs| - 1], inputs[|inputs| - 1];
      assert i in inputs && forall x :: x in prefix ==> x in inputs;
      RunSentInOrder(m, s, prefix);
      var before := Run(m, s, prefix);
      StepInv(m, before, i);
      if Enabled(before, i) { NextSentInOrder(m, before, i); }
    }
  }

  /**
   * In every run whose sends fit, for every client, the bytes handed over are a prefix of the
   * messages sent to it, and all of them as long as it has not been marked.
   */
  lemma {:induction false} HandedIsPrefix(m: Mode, foreign: set<Fd>, inputs: seq<Input>, id: ClientId)
    requires forall i :: i in inputs ==> SendFits(i)
    ensures var s := Run(m, Initial(foreign), inputs);
            Handed(s.sends, id) <= Messages(s.sends, id) &&
            (id in ConnectedIds(s.slots) ==> Handed(s.sends, id) == Messages(s.sends, id))
  {
    InitialInv(foreign);
    RunSentInOrder(m, Initial(foreign), inputs);
  }
}
