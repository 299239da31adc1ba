/**
 * The server as an object whose methods update its fields. Every execution of these methods, for
 * all answers of the kernel and all calls made meanwhile, is a run of the transition system: the
 * fields always hold the state that the recorded inputs lead to.
 */
module Servers {
  import opened Types
  import opened OwningVector
  import opened Poll
  import opened Machine
  import opened History
  import opened Clients
  import opened Interface
  import opened Sweep
  import opened Runs
  import opened Delivery
  import opened Reference
  import opened ServerSteps

  class Server {
    var running: bool
    var flag: bool              // has_disconnected_clients_
    var ec: ErrorCode
    var slots: seq<Slot>        // clients_
    var nextId: ClientId        // the file static next_available_id
    var acceptor: Fd
    const pollGroup: PollGroup
    var kernel: Kernel
    var trace: seq<Event>
    var sends: seq<Sending>
    var taken: seq<Read>
    var streams: Streams
    var crashed: bool
    ghost var pc: PC
    ghost var inputs: seq<Input>
    ghost const foreign: set<Fd>
    const alone: bool           // neither handlers nor other threads make calls

    ghost function Now(): State
      reads this, pollGroup
    {
      State(pc, slots, pollGroup.pfds, nextId, flag, ec, running, acceptor, kernel, trace, sends, taken, streams)
    }

    ghost predicate Consistent()
      reads this
    {
      pollGroup.config == POLLIN && (crashed <==> pc.Fault?)
    }

    ghost predicate Valid()
      reads this, pollGroup
    {
      Consistent() && Now() == Run(AsWritten, Initial(foreign), inputs)
    }

    constructor (foreign: set<Fd>, alone: bool)
      ensures this.alone == alone && Valid() && Now() == Initial(foreign) && fresh(pollGroup)
    {
      running, flag, ec, slots, nextId, acceptor := false, false, 0, [], 1, 0;
      pollGroup := new PollGroup(READABLE);
      kernel := Kernel({}, foreign, []);
      trace, sends, taken, streams, crashed := [], [], [], map[], false;
      pc, inputs, this.foreign, this.alone := Starting, [], foreign, alone;
    }

    /** The fields have taken the step that input i prescribes. */
    ghost method Record(before: State, i: Input)
      requires Consistent() && before == Run(AsWritten, Initial(foreign), inputs)
      requires Now() == Step(AsWritten, before, i)
      modifies this`inputs
      ensures Valid() && inputs == old(inputs) + [i]
    {
      RunPush(AsWritten, Initial(foreign), inputs, i);
      inputs := inputs + [i];
    }

    /** A step that only moves the thread on. */
    ghost method Goto(next: PC, i: Input)
      requires Valid() && !crashed && !next.Fault?
      requires Step(AsWritten, Now(), i) == Now().(pc := next)
      modifies this`pc, this`inputs
      ensures Valid() && Now() == old(Now()).(pc := next) && inputs == old(inputs) + [i]
    {
      var before := Now();
      pc := next;
      Record(before, i);
    }

    /** The while (running_) tests of the main loop and of the accept loop. */
    ghost method TestRunning()
      requires Valid() && (pc.AcceptTest? || (pc.Head? && running))
      modifies this`pc, this`inputs
      ensures Valid() && old(inputs) <= inputs
      ensures Now() == old(Now()).(pc := if old(pc).Head? then AcceptTest else if running then AcceptAsk else PollCall)
    {
      Goto(if pc.Head? then AcceptTest else if running then AcceptAsk else PollCall, Go);
    }

    ghost method NonePending()
      requires Valid() && pc.AcceptAsk?
      modifies this`pc, this`inputs
      ensures Valid() && old(inputs) <= inputs && Now() == old(Now()).(pc := PollCall)
    {
      Goto(PollCall, Pending(false));
    }

    function AfterHandler(pc: PC): PC
      requires pc.ConnectHandler? || pc.DataHandler? || pc.DisconnectHandler?
    {
      if pc.ConnectHandler? then AcceptTest
      else if pc.DataHandler? then ReadNext(pc)
      else SweepWalk(pc.k, pc.j + 1)
    }

    ghost method HandlerReturns()
      requires Valid() && (pc.ConnectHandler? || pc.DataHandler? || pc.DisconnectHandler?)
      modifies this`pc, this`inputs
      ensures Valid() && old(inputs) <= inputs && Now() == old(Now()).(pc := AfterHandler(old(pc)))
    {
      Goto(AfterHandler(pc), Return);
    }

    function AfterTest(pc: PC): PC
      requires pc.ReadTest?
      reads this
    {
      if pc.i < |pc.events| && running then ReadEvent(pc.events, pc.i) else SweepTest
    }

    /** The head of the event loop: end of the events, and if (!running_) return. */
    ghost method TestRead()
      requires Valid() && pc.ReadTest?
      modifies this`pc, this`inputs
      ensures Valid() && old(inputs) <= inputs
      ensures Now() == old(Now()).(pc := AfterTest(old(pc)))
    {
      Goto(AfterTest(pc), Go);
    }

    /** An event without a client, or one that is neither an error nor readable. */
    ghost method SkipEvent()
      requires Valid() && pc.ReadEvent? && pc.i < |pc.events|
      requires var r := FindFd(slots, pc.events[pc.i].fd);
               r.Missing? || (r.Found? && !Broken(pc.events[pc.i].status) && !CanRead(pc.events[pc.i].status))
      modifies this`pc, this`inputs
      ensures Valid() && old(inputs) <= inputs && Now() == old(Now()).(pc := ReadNext(old(pc)))
    {
      Goto(ReadNext(pc), Go);
    }

    ghost method SkipSweep()
      requires Valid() && pc.SweepTest? && !flag
      modifies this`pc, this`inputs
      ensures Valid() && old(inputs) <= inputs && Now() == old(Now()).(pc := Head)
    {
      Goto(Head, Go);
    }

    /** The step dereferences a null slot. */
    method Crash(ghost i: Input)
      requires Valid() && !crashed && Step(AsWritten, Now(), i) == Now().(pc := Fault)
      modifies this`crashed, this`pc, this`inputs
      ensures Valid() && crashed && inputs == old(inputs) + [i]
    {
      ghost var before := Now();
      crashed, pc := true, Fault;
      Record(before, i);
    }

    // ----- lookup and the public interface -----

    /** client_info_from_id */
    method ClientFromId(id: ClientId) returns (r: Lookup)
      ensures r == FindId(slots, id)
    {
      var i: nat := 0;
      while i < |slots|
        invariant i <= |slots| && FindId(slots, id) == FindId(slots, id, i)
      {
        if slots[i].Null? { return NullDereference; }
        if slots[i].c.id == id { return Found(i); }
        i := i + 1;
      }
      return Missing;
    }

    /** client_info_from_native_socket */
    method ClientFromSocket(fd: Fd) returns (r: Lookup)
      ensures r == FindFd(slots, fd)
    {
      var i: nat := 0;
      while i < |slots|
        invariant i <= |slots| && FindFd(slots, fd) == FindFd(slots, fd, i)
      {
        if slots[i].Null? { return NullDereference; }
        if slots[i].c.fd == fd { return Found(i); }
        i := i + 1;
      }
      return Missing;
    }

    /** remove_client, wherever it is called from. */
    method Mark(id: ClientId)
      requires Consistent()
      modifies this`slots, this`flag, this`pc, this`crashed
      ensures Consistent() && Now() == Remove(old(Now()), id)
    {
      var r := ClientFromId(id);
      if r.NullDereference? {
        crashed, pc := true, Fault;
      } else if r.Found? {
        slots := slots[r.i := Own(slots[r.i].c.(connected := false))];
        flag := true;
      }
    }

    /** connection::send on a client's connection, with the shared error code. */
    method SendOn(id: ClientId, sock: Fd, msg: Bytes, answers: Answers)
      modifies this`ec, this`sends
      ensures var sent := Wire.Send(sock, msg, old(ec), answers);
              Now() == old(Now()).(ec := sent.ec, sends := old(sends) + [Sending(id, msg, sent.wire)])
    {
      if sock == 0 || |msg| == 0 {
        ec, sends := 1, sends + [Sending(id, msg, [])];
      } else {
        var sent := Wire.RunSendLoop(msg, ec, answers);
        ec, sends := sent.ec, sends + [Sending(id, msg, sent.wire)];
      }
    }

    /** message_client; `answers` are the kernel's to the ::send calls it makes. */
    method SendTo(msg: Bytes, id: ClientId, answers: Answers)
      requires Consistent()
      modifies this`slots, this`flag, this`pc, this`crashed, this`ec, this`sends
      ensures Consistent() && Now() == Message(old(Now()), msg, id, answers)
    {
      var r := ClientFromId(id);
      if r.NullDereference? {
        crashed, pc := true, Fault;
        return;
      }
      if r.Missing? || !slots[r.i].c.connected { return; }
      SendOn(id, slots[r.i].c.sock, msg, answers);
      if ec != 0 { Mark(id); }
    }

    /** message_all_clients */
    method SendToAll(msg: Bytes, exclude: ClientId, each: seq<Answers>)
      requires Consistent() && !crashed
      modifies this`slots, this`flag, this`pc, this`crashed, this`ec, this`sends
      ensures Consistent() && Now() == Broadcast(old(Now()), msg, exclude, each)
    {
      var i: nat := 0;
      while i < |slots|
        invariant i <= |slots| && Consistent() && !crashed
        invariant Broadcast(old(Now()), msg, exclude, each) == Broadcast(Now(), msg, exclude, each, i)
        decreases |slots| - i
      {
        if slots[i].Null? {
          crashed, pc := true, Fault;
          return;
        }
        if slots[i].c.id != exclude {
          SendTo(msg, slots[i].c.id, AnswersAt(each, i));
          if crashed { return; }
        }
        i := i + 1;
      }
    }

    /** What one call of the public interface does to the fields. */
    method Call(call: Call)
      requires Consistent() && !crashed
      modifies this`running, this`slots, this`flag, this`pc, this`crashed, this`ec, this`sends
      ensures Consistent() && Now() == Do(old(Now()), call)
    {
      match call {
        case Stop => running := false;
        case RemoveClient(id) => Mark(id);
        case MessageClient(msg, id, answers) => SendTo(msg, id, answers);
        case MessageAllClients(msg, exclude, each) => SendToAll(msg, exclude, each);
      }
    }

    /** One call of the public interface, as an atomic step. */
    method Perform(call: Call)
      requires Valid() && !crashed && !pc.Destroyed? && Returns(slots, call)
      modifies this
      ensures Valid() && Now() == Do(old(Now()), call) && inputs == old(inputs) + [Api(call)]
      ensures !(call.MessageAllClients? && !NoNull(old(slots))) ==> DoesCall(old(Now()), call, Now())
    {
      ghost var before := Now();
      assert Reachable(AsWritten, before);
      CallDoes(before, call);
      StepOfCall(before, call);
      Call(call);
      Record(before, Api(call));
    }

    /** Something the far end of a connection does. */
    method PeerActs(i: Input)
      requires Valid() && !crashed && (i.PeerSends? || i.PeerCloses?)
      modifies this`streams, this`inputs
      ensures Valid() && Now() == old(Now()).(streams := streams) && inputs == old(inputs) + [i]
    {
      ghost var before := Now();
      var op := if i.PeerSends? then Wire.SendOp(i.data, i.answers) else Wire.ShutOp;
      streams := Append(streams, i.id, op);
      Record(before, i);
    }

    /** One call of the public interface, or something a peer does. */
    method OutsideEvent()
      requires Valid() && !crashed && !pc.Destroyed?
      modifies this
      ensures Valid() && old(inputs) <= inputs && Quiet(old(Now()), Now())
      ensures crashed || pc == old(pc)
      ensures alone ==> running == old(running)
    {
      ghost var before := Now();
      var call: Call, peer: Input := *, *;
      if peer.PeerSends? || peer.PeerCloses? {
        PeerActs(peer);
        PeersAreQuiet(before, Now());
      } else if !alone {
        if !Returns(slots, call) { call := Stop; }
        Perform(call);
        CallIsQuiet(before, call);
      }
    }

    /** A handler, or other threads and peers between two steps: any finite number of any events. */
    method Outside()
      requires Valid() && !crashed && !pc.Destroyed?
      modifies this
      ensures Valid() && old(inputs) <= inputs && Quiet(old(Now()), Now())
      ensures crashed || pc == old(pc)
      ensures alone ==> running == old(running)
    {
      var n: nat := *;
      while n > 0
        invariant Valid() && !crashed && pc == old(pc) && old(inputs) <= inputs && Quiet(old(Now()), Now())
        invariant alone ==> running == old(running)
      {
        ghost var before := Now();
        OutsideEvent();
        QuietTransitive(old(Now()), before, Now());
        if crashed { return; }
        n := n - 1;
      }
    }

    // ----- the accept phase -----

    /** next_available_id++ for a connection that is said to be pending. */
    method TakeId() returns (newId: ClientId)
      requires Valid() && pc.AcceptAsk?
      modifies this
      ensures Valid() && old(inputs) <= inputs && newId == old(nextId)
      ensures Now() == old(Now()).(nextId := newId + 1, pc := AcceptCall(newId))
      ensures alone ==> running == old(running)
    {
      ghost var s := Now();
      newId := nextId;
      nextId := nextId + 1;
      pc := AcceptCall(newId);
      Record(s, Pending(true));
    }

    /** ::accept failed: its errno is stored and the id given back. */
    method AcceptFails(errno: ErrorCode)
      requires Valid() && pc.AcceptCall? && errno != 0
      modifies this
      ensures Valid() && inputs == old(inputs) + [AcceptFailed(errno)]
      ensures Now() == old(Now()).(ec := errno, nextId := old(pc).newId, pc := AcceptTest)
      ensures alone ==> running == old(running)
    {
      ghost var s := Now();
      assert Reachable(AsWritten, s);
      AcceptFacts(s);
      StepOfAcceptFailure(s, errno);
      ec := errno;
      nextId := nextId - 1;
      pc := AcceptTest;
      Record(s, AcceptFailed(errno));
    }

    /** What a dropped accept does to the fields. */
    method DropAccepted(fd: Fd)
      requires pc.AcceptCall? && ec != 0 && nextId > 0
      modifies this`kernel, this`nextId, this`pc
      ensures Now() == AcceptOk(old(Now()), fd)
    {
      kernel := Release(OpenFd(kernel, fd), fd);    // ~connection of the dropped client
      nextId := nextId - 1;
      pc := AcceptTest;
    }

    /** ::accept succeeded, but an old error makes the server drop the connection. */
    method Refuse(fd: Fd)
      requires Valid() && pc.AcceptCall? && ec != 0 && Fresh(kernel, fd)
      modifies this
      ensures Valid() && inputs == old(inputs) + [Accepted(fd)] && pc.AcceptTest?
      ensures DoesAccept(old(Now()), fd, Now())
      ensures kernel.server == old(kernel.server) && slots == old(slots) && trace == old(trace)
      ensures alone ==> running == old(running)
    {
      ghost var s := Now();
      assert Reachable(AsWritten, s);
      StepOfAccept(s, fd);
      AcceptDoes(s, fd);
      DropAccepted(fd);
      Record(s, Accepted(fd));
    }

    /** What a new client does to the fields: vector, poll group and callback. */
    method AddClient(newId: ClientId, fd: Fd)
      requires pc == AcceptCall(newId) && ec == 0 && nextId > 0 && pollGroup.config == POLLIN
      modifies this`kernel, this`slots, this`trace, this`pc, pollGroup
      ensures Now() == AcceptOk(old(Now()), fd)
    {
      kernel := OpenFd(kernel, fd);
      slots := slots + [Own(Client(newId, fd, fd, true))];
      pollGroup.AddSocket(fd);
      trace := trace + [Connect(newId)];
      pc := ConnectHandler;
    }

    /** The new client enters the vector and the poll group, and is announced. */
    method Admit(newId: ClientId, fd: Fd)
      requires Valid() && pc == AcceptCall(newId) && ec == 0 && Fresh(kernel, fd)
      modifies this, pollGroup
      ensures Valid() && inputs == old(inputs) + [Accepted(fd)] && pc.ConnectHandler?
      ensures DoesAccept(old(Now()), fd, Now())
      ensures slots == old(slots) + [Own(Client(newId, fd, fd, true))] && trace == old(trace) + [Connect(newId)]
      ensures alone ==> running == old(running)
    {
      ghost var s := Now();
      assert Reachable(AsWritten, s);
      StepOfAccept(s, fd);
      AcceptDoes(s, fd);
      AddClient(newId, fd);
      Record(s, Accepted(fd));
    }

    /** accept returns fd if the kernel can give it out, and fails with errno otherwise. */
    static function AcceptInput(k: Kernel, fd: Fd, errno: ErrorCode): Input {
      if Fresh(k, fd) then Accepted(fd) else AcceptFailed(if errno == 0 then 1 else errno)
    }

    /** acceptor_.accept, answered in any way the kernel may, and what becomes of its result. */
    method AcceptOne(newId: ClientId, fd: Fd, errno: ErrorCode) returns (added: bool)
      requires Valid() && pc == AcceptCall(newId)
      modifies this, pollGroup
      ensures Valid() && inputs == old(inputs) + [AcceptInput(old(kernel), fd, errno)]
      ensures if added then pc.ConnectHandler? else pc.AcceptTest?
      ensures alone ==> running == old(running)
    {
      if !Fresh(kernel, fd) {
        AcceptFails(if errno == 0 then 1 else errno);
        return false;
      }
      if ec != 0 {
        Refuse(fd);
        return false;
      }
      Admit(newId, fd);
      return true;
    }

    /** The part of a turn after has_pending_connection has said yes. */
    method CreateClient()
      requires Valid() && pc.AcceptAsk?
      modifies this, pollGroup
      ensures Valid() && old(inputs) <= inputs && (crashed || pc.AcceptTest?)
      ensures alone ==> running == old(running)
    {
      var newId := TakeId();
      Outside();
      if crashed { return; }
      var fd: Fd, errno: ErrorCode := *, *;
      var added := AcceptOne(newId, fd, errno);
      if added { FinishConnect(); }
    }

    method FinishConnect()
      requires Valid() && pc.ConnectHandler?
      modifies this
      ensures Valid() && old(inputs) <= inputs && (crashed || pc.AcceptTest?)
      ensures alone ==> running == old(running)
    {
      Outside();    // on_client_connect_
      if crashed { return; }
      HandlerReturns();
    }

    /** One turn of the accept loop; has_pending_connection answers `pending`. */
    method AcceptTurn(pending: bool) returns (again: bool)
      requires Valid() && pc.AcceptTest?
      modifies this, pollGroup
      ensures Valid() && old(inputs) <= inputs
      ensures if again then pending && pc.AcceptTest? else crashed || pc.PollCall?
      ensures !again && !crashed && running ==> !pending
      ensures alone ==> running == old(running)
    {
      Outside();
      if crashed { return false; }
      TestRunning();
      if !running { return false; }
      Outside();
      if crashed { return false; }
      if !pending {
        NonePending();
        return false;
      }
      CreateClient();
      return !crashed;
    }

    method HandleIncomingConnections()
      requires Valid() && pc.AcceptTest?
      modifies this, pollGroup
      ensures Valid() && old(inputs) <= inputs && (crashed || pc.PollCall?)
      ensures alone ==> running == old(running)
    {
      var pending: nat := *;    // how often has_pending_connection will say yes
      var again := true;
      while again
        invariant Valid() && old(inputs) <= inputs
        invariant if again then pc.AcceptTest? else crashed || pc.PollCall?
        invariant alone ==> running == old(running)
        decreases again, pending
      {
        again := AcceptTurn(pending > 0);
        if again { pending := pending - 1; }
      }
    }

    // ----- the read phase -----

    /** remove_client, then on to the next event; `before` is the state the event was met in. */
    method DropClient(id: ClientId, ghost before: State, ghost i: Input)
      requires Consistent() && pc.ReadEvent? && before == Run(AsWritten, Initial(foreign), inputs)
      requires Step(AsWritten, before, i) == Drop(Now(), id)
      modifies this
      ensures Valid() && inputs == old(inputs) + [i] && (crashed || pc == ReadNext(old(pc)))
      ensures Now() == Drop(old(Now()), id)
    {
      ghost var next := ReadNext(pc);
      Mark(id);
      if !crashed { pc := next; }
      Record(before, i);
    }

    /** What ::recv answers on a client's connection, if it can: an error stands for the rest. */
    function KernelRecv(id: ClientId, r: Recv): Recv
      reads this
    {
      if Possible(OpsOf(streams, id), r) then r else RecvError(1)
    }

    /** connection::receive on client i: what it does to connection, kernel and error code. */
    method ReceiveOn(i: nat, r: Recv)
      requires i < |slots| && slots[i].Own?
      modifies this`kernel, this`slots, this`ec, this`taken, this`streams
      ensures Now() == Heard(old(Now()), i, r)
    {
      var c := slots[i].c;
      if c.sock == 0 {
        ec := 1;
        return;
      }
      match r
      case RecvEof(errno) =>
        kernel := Release(kernel, c.sock);
        slots := slots[i := Own(c.(sock := 0))];
        ec := errno;
        streams := Append(streams, c.id, Wire.ReceiveOp(MAX_BUFFER_SIZE, 0));
      case RecvError(errno) =>
        ec := errno;
      case RecvData(bytes) =>
        taken := taken + [Read(c.id, bytes)];
        streams := Append(streams, c.id, Wire.ReceiveOp(MAX_BUFFER_SIZE, |bytes|));
    }

    /** receive() returned nothing: end of stream, error, or data behind an old error. */
    method ReceiveNothing(i: nat, r: Recv)
      requires Valid() && pc.ReadEvent? && pc.i < |pc.events| && Enabled(Now(), Received(r))
      requires FindFd(slots, pc.events[pc.i].fd) == Found(i)
      requires r.RecvData? ==> ec != 0 || slots[i].c.sock == 0
      modifies this
      ensures Valid() && inputs == old(inputs) + [Received(r)] && DoesReceive(old(Now()), i, r, Now())
      ensures !crashed && pc == ReadNext(old(pc))
      ensures alone ==> running == old(running)
    {
      ghost var s := Now();
      StepOfReceive(s, i, r);
      assert Reachable(AsWritten, s);
      ReceiveDoes(s, i, r);
      var id := slots[i].c.id;
      ReceiveOn(i, r);
      DropClient(id, s, Received(r));
    }

    /** receive() returned data and no error is pending: it is passed on. */
    method Deliver(i: nat, bytes: Bytes)
      requires Valid() && pc.ReadEvent? && pc.i < |pc.events| && Enabled(Now(), Received(RecvData(bytes)))
      requires FindFd(slots, pc.events[pc.i].fd) == Found(i) && ec == 0 && slots[i].c.sock != 0
      modifies this
      ensures Valid() && inputs == old(inputs) + [Received(RecvData(bytes))]
      ensures pc == DataHandler(old(pc).events, old(pc).i)
      ensures trace == old(trace) + [Data(old(slots[i].c.id), bytes)]
      ensures DoesReceive(old(Now()), i, RecvData(bytes), Now())
      ensures alone ==> running == old(running)
    {
      ghost var s := Now();
      StepOfReceive(s, i, RecvData(bytes));
      assert Reachable(AsWritten, s);
      ReceiveDoes(s, i, RecvData(bytes));
      ReceiveOn(i, RecvData(bytes));
      trace := trace + [Data(slots[i].c.id, bytes)];
      pc := DataHandler(pc.events, pc.i);
      Record(s, Received(RecvData(bytes)));
    }

    /** A readable event of client i. */
    method ReceiveFrom(events: seq<Readiness>, n: nat, i: nat, r: Recv)
      requires Valid() && pc == ReadEvent(events, n) && n < |events| && Enabled(Now(), Received(r))
      requires FindFd(slots, events[n].fd) == Found(i)
      modifies this
      ensures Valid() && old(inputs) + [Received(r)] <= inputs && (crashed || pc == ReadTest(events, n + 1))
      ensures alone ==> running == old(running)
    {
      if !r.RecvData? || ec != 0 || slots[i].c.sock == 0 {
        RefuseData(i, r);
      } else {
        PassOn(i, r.bytes);
      }
    }

    method RefuseData(i: nat, r: Recv)
      requires Valid() && pc.ReadEvent? && pc.i < |pc.events| && Enabled(Now(), Received(r))
      requires FindFd(slots, pc.events[pc.i].fd) == Found(i)
      requires r.RecvData? ==> ec != 0 || slots[i].c.sock == 0
      modifies this
      ensures Valid() && inputs == old(inputs) + [Received(r)] && pc == ReadNext(old(pc))
      ensures alone ==> running == old(running)
    {
      ReceiveNothing(i, r);
    }

    method PassOn(i: nat, bytes: Bytes)
      requires Valid() && pc.ReadEvent? && pc.i < |pc.events| && Enabled(Now(), Received(RecvData(bytes)))
      requires FindFd(slots, pc.events[pc.i].fd) == Found(i) && ec == 0 && slots[i].c.sock != 0
      modifies this
      ensures Valid() && old(inputs) + [Received(RecvData(bytes))] <= inputs && (crashed || pc == ReadNext(old(pc)))
      ensures alone ==> running == old(running)
    {
      Deliver(i, bytes);
      FinishDelivery();
    }

    method FinishDelivery()
      requires Valid() && pc.DataHandler?
      modifies this
      ensures Valid() && old(inputs) <= inputs && (crashed || pc == ReadNext(old(pc)))
      ensures alone ==> running == old(running)
    {
      Outside();    // on_data_receive_
      if crashed { return; }
      HandlerReturns();
    }

    /** An error or hang-up: remove_client. */
    method DropBroken(events: seq<Readiness>, n: nat, i: nat)
      requires Valid() && pc == ReadEvent(events, n) && n < |events| && Broken(events[n].status)
      requires FindFd(slots, events[n].fd) == Found(i)
      modifies this
      ensures Valid() && old(inputs) <= inputs && !crashed && DoesDrop(old(Now()), Now())
      ensures alone ==> running == old(running)
    {
      assert Reachable(AsWritten, Now());
      DropDoes(Now());
      DropClient(slots[i].c.id, Now(), Go);
    }

    /** The lookup meets a null slot. */
    method CrashOnEvent(events: seq<Readiness>, n: nat)
      requires Valid() && pc == ReadEvent(events, n) && n < |events| && FindFd(slots, events[n].fd).NullDereference?
      modifies this
      ensures Valid() && crashed && old(inputs) <= inputs
      ensures alone ==> running == old(running)
    {
      Crash(Go);
    }

    /** The event of the client found at i. */
    method HandleFound(events: seq<Readiness>, n: nat, i: nat, answer: Recv)
      requires Valid() && pc == ReadEvent(events, n) && n < |events| && FindFd(slots, events[n].fd) == Found(i)
      modifies this
      ensures Valid() && old(inputs) <= inputs && (crashed || pc == ReadTest(events, n + 1))
      ensures events[n].status & (ERROR | HUNG_UP) != 0 ==> !crashed && DoesDrop(old(Now()), Now())
      ensures events[n].status & (ERROR | HUNG_UP | READABLE) == 0 ==>
                Now() == old(Now()).(pc := ReadTest(events, n + 1))
      ensures events[n].status & (ERROR | HUNG_UP) == 0 && events[n].status & READABLE != 0 ==>
                old(inputs) + [Received(old(KernelRecv(slots[i].c.id, answer)))] <= inputs
      ensures alone ==> running == old(running)
    {
      if Broken(events[n].status) {
        DropBroken(events, n, i);
      } else if CanRead(events[n].status) {
        ReceiveFrom(events, n, i, KernelRecv(slots[i].c.id, answer));
      } else {
        SkipEvent();
      }
    }

    /** The body of the event loop after its running_ test; ::recv answers `answer` if it can. */
    method HandleEvent(events: seq<Readiness>, n: nat, answer: Recv)
      requires Valid() && pc == ReadEvent(events, n) && n < |events|
      modifies this
      ensures Valid() && old(inputs) <= inputs && (crashed || pc == ReadTest(events, n + 1))
      ensures alone ==> running == old(running)
    {
      var r := ClientFromSocket(events[n].fd);
      if r.NullDereference? {
        CrashOnEvent(events, n);
      } else if r.Missing? {
        SkipEvent();
      } else {
        HandleFound(events, n, r.i, answer);
      }
    }

    /** poll_group_.poll */
    method PollClients(answer: PollAnswer) returns (events: seq<Readiness>)
      requires Valid() && pc.PollCall?
      modifies this, pollGroup
      ensures Valid() && old(inputs) <= inputs && pc == ReadTest(events, 0)
      ensures DoesPoll(old(Now()), answer, Now())
      ensures alone ==> running == old(running)
    {
      ghost var s := Now();
      events := pollGroup.DoPoll(answer);
      pc := ReadTest(events, 0);
      Record(s, Polled(answer));
      PollIs(s, answer, Now());
    }

    /** One turn of the event loop. */
    method ReadTurn(events: seq<Readiness>, n: nat, answer: Recv) returns (again: bool)
      requires Valid() && pc == ReadTest(events, n)
      modifies this
      ensures Valid() && old(inputs) <= inputs
      ensures if again then n < |events| && pc == ReadTest(events, n + 1) else crashed || pc.SweepTest?
      ensures !again && !crashed && running ==> n >= |events|
      ensures alone ==> running == old(running)
    {
      Outside();
      if crashed { return false; }
      TestRead();
      if n >= |events| || !running { return false; }
      Outside();
      if crashed { return false; }
      HandleEvent(events, n, answer);
      return !crashed;
    }

    method HandleIncomingMessages()
      requires Valid() && pc.PollCall?
      modifies this, pollGroup
      ensures Valid() && old(inputs) <= inputs && (crashed || pc.SweepTest?)
      ensures alone ==> running == old(running)
    {
      var answer: PollAnswer := *;
      var events := PollClients(answer);
      var n: nat, again := 0, true;
      while again
        invariant Valid() && old(inputs) <= inputs
        invariant if again then n <= |events| && pc == ReadTest(events, n) else crashed || pc.SweepTest?
        invariant alone ==> running == old(running)
        decreases again, |events| - n
      {
        var answer: Recv := *;
        again := ReadTurn(events, n, answer);
        if again { n := n + 1; }
      }
    }

    // ----- the sweep -----

    /** std::remove_if over a copy of the vector. */
    static method RemoveMarked(was: seq<Slot>) returns (after: seq<Slot>, first: nat, destroyed: seq<Slot>)
      requires NoNull(was)
      ensures after == Removed(was) && first == |Kept(was)| && destroyed == Overwritten(was)
    {
      var a := new Slot[|was|](i requires 0 <= i < |was| => was[i]);
      assert a[..] == was;
      first, destroyed := RemoveIf(a);
      after := a[..];
    }

    /** What the separation does to the fields. */
    method SeparateSlots() returns (first: nat)
      requires pc.SweepTest? && flag && NoNull(slots)
      modifies this`slots, this`kernel, this`pc
      ensures pc == SweepWalk(first, first) && first == |Kept(old(slots))|
      ensures Now() == SweepBegin(AsWritten, old(Now()))
    {
      var destroyed;
      slots, first, destroyed := RemoveMarked(slots);
      kernel := ReleaseAll(kernel, destroyed);
      pc := SweepWalk(first, first);
    }

    /** The separation at the start of a sweep; what it overwrites is destroyed. */
    method Separate() returns (first: nat)
      requires Valid() && pc.SweepTest? && flag && NoNull(slots)
      modifies this
      ensures Valid() && old(inputs) <= inputs && pc == SweepWalk(first, first) && first <= |slots|
      ensures Now() == SweepBegin(AsWritten, old(Now())) && DoesSeparate(AsWritten, old(Now()), Now())
      ensures alone ==> running == old(running)
    {
      ghost var s := Now();
      StepOfSweep(s);
      assert Reachable(AsWritten, s);
      SeparateDoes(s);
      SplitLengths(slots);
      first := SeparateSlots();
      Record(s, Go);
    }

    /** Outside calls while the walk is at rest between two clients or in a handler. */
    method OutsideSweep(ghost s0: State, ghost n: nat)
      requires Valid() && !crashed && !pc.Destroyed? && Walking(s0, Now(), n)
      modifies this
      ensures Valid() && old(inputs) <= inputs && |slots| == old(|slots|)
      ensures if crashed then !MarkedSuffix(s0.slots) else pc == old(pc) && Walking(s0, Now(), n)
      ensures alone ==> running == old(running)
    {
      ghost var s := Now();
      Outside();
      WalkingQuiet(s0, s, Now(), n);
    }

    /** The body of the walk over the removed tail. */
    method DisconnectOne(first: nat, j: nat, ghost s0: State, ghost n: nat)
      requires Valid() && pc == SweepWalk(first, j) && first <= j < |slots| && Walking(s0, Now(), n)
      modifies this, pollGroup
      ensures Valid() && old(inputs) <= inputs && |slots| == old(|slots|)
      ensures if crashed then !MarkedSuffix(s0.slots) else pc == SweepWalk(first, j + 1) && Walking(s0, Now(), n + 1)
      ensures alone ==> running == old(running)
    {
      if slots[j].Null? {
        CrashOnSlot(first, j, s0, n);
        return;
      }
      CloseClient(first, j, s0, n);
      OutsideSweep(s0, n + 1);    // on_client_disconnect_
      if crashed { return; }
      WalkingReturns(s0, Now(), n + 1);
      HandlerReturns();
    }

    method CloseClient(first: nat, j: nat, ghost s0: State, ghost n: nat)
      requires Valid() && pc == SweepWalk(first, j) && first <= j < |slots| && slots[j].Own? && Walking(s0, Now(), n)
      modifies this, pollGroup
      ensures Valid() && old(inputs) <= inputs && |slots| == old(|slots|)
      ensures pc == DisconnectHandler(first, j) && Walking(s0, Now(), n + 1)
      ensures alone ==> running == old(running)
    {
      assert Reachable(AsWritten, Now());
      WalkingOne(s0, Now(), n);
      DisconnectSlot(first, j);
    }

    method CrashOnSlot(first: nat, j: nat, ghost s0: State, ghost n: nat)
      requires Valid() && pc == SweepWalk(first, j) && first <= j < |slots| && slots[j].Null?
      requires Walking(s0, Now(), n)
      modifies this
      ensures Valid() && crashed && old(inputs) <= inputs && |slots| == old(|slots|) && !MarkedSuffix(s0.slots)
      ensures alone ==> running == old(running)
    {
      Crash(Go);
    }

    /** What the body of the walk does to the fields. */
    method CloseSlot(j: nat)
      requires pc.SweepWalk? && pc.j == j < |slots| && slots[j].Own?
      modifies this`kernel, this`slots, this`trace, this`pc, pollGroup
      ensures Now() == SweepOne(old(Now()))
    {
      var c := slots[j].c;
      pollGroup.RemoveSocket(c.fd);
      kernel := Release(kernel, c.sock);
      slots := slots[j := Own(c.(sock := 0))];
      trace := trace + [Disconnect(c.id)];
      pc := DisconnectHandler(pc.k, j);
    }

    method DisconnectSlot(first: nat, j: nat)
      requires Valid() && pc == SweepWalk(first, j) && first <= j < |slots| && slots[j].Own?
      modifies this, pollGroup
      ensures Valid() && old(inputs) <= inputs && pc == DisconnectHandler(first, j) && Now() == SweepOne(old(Now()))
      ensures DoesWalk(old(Now()), Now())
      ensures alone ==> running == old(running)
    {
      ghost var s := Now();
      StepOfWalk(s);
      assert Reachable(AsWritten, s);
      WalkDoes(s);
      CloseSlot(j);
      Record(s, Go);
    }

    /** clients_.erase of the removed tail. */
    method Erase(first: nat)
      requires Valid() && pc == SweepWalk(first, |slots|) && first <= |slots|
      modifies this
      ensures Valid() && old(inputs) <= inputs && Now() == SweepEnd(old(Now())) && DoesWalk(old(Now()), Now())
      ensures alone ==> running == old(running)
    {
      ghost var s := Now();
      StepOfWalk(s);
      assert Reachable(AsWritten, s);
      WalkDoes(s);
      kernel := ReleaseAll(kernel, slots[first..]);
      slots := slots[..first];
      pc := Head;
      Record(s, Go);
    }

    /**
     * The sweep. It crashes exactly when the flag is set and the marked clients are not a suffix
     * of the vector; otherwise it removes exactly the marked clients, as Swept says.
     */
    method HandleDisconnectedClients()
      requires Valid() && pc.SweepTest?
      modifies this, pollGroup
      ensures Valid() && old(inputs) <= inputs && (crashed || pc.Head?)
      ensures crashed <==> old(flag) && !MarkedSuffix(old(slots))
      ensures !old(flag) ==> Now() == old(Now()).(pc := Head)
      ensures old(flag) && !crashed ==> Swept(old(Now()), Now())
      ensures alone ==> running == old(running)
    {
      if !flag {
        SkipSweep();
        return;
      }
      ghost var s0 := Now();
      assert Reachable(AsWritten, s0);
      SweepFacts(s0);
      WalkingBegins(s0);
      var first := Separate();
      Walk(first, s0);
    }

    /** One turn of the walk, and what other threads do before it. */
    method WalkTurn(first: nat, j: nat, ghost s0: State, ghost n: nat)
      requires Valid() && pc == SweepWalk(first, j) && first <= j < |slots| && Walking(s0, Now(), n)
      modifies this, pollGroup
      ensures Valid() && old(inputs) <= inputs && |slots| == old(|slots|)
      ensures if crashed then !MarkedSuffix(s0.slots) else pc == SweepWalk(first, j + 1) && Walking(s0, Now(), n + 1)
      ensures alone ==> running == old(running)
    {
      OutsideSweep(s0, n);
      if crashed { return; }
      DisconnectOne(first, j, s0, n);
    }

    /** The for loop over the removed tail. */
    method WalkTail(first: nat, ghost s0: State)
      requires Valid() && pc == SweepWalk(first, first) && first <= |slots| && Walking(s0, Now(), 0)
      modifies this, pollGroup
      ensures Valid() && old(inputs) <= inputs && (crashed ==> !MarkedSuffix(s0.slots))
      ensures !crashed ==> first <= |slots| && pc == SweepWalk(first, |slots|) && Walking(s0, Now(), |slots| - first)
      ensures alone ==> running == old(running)
    {
      var j: nat := first;
      while j < |slots|
        invariant Valid() && pc == SweepWalk(first, j) && first <= j <= |slots| && old(inputs) <= inputs
        invariant Walking(s0, Now(), j - first) && (alone ==> running == old(running))
      {
        WalkTurn(first, j, s0, j - first);
        if crashed { return; }
        j := j + 1;
      }
    }

    /** The loop over the removed tail and the erase that follows it. */
    method Walk(first: nat, ghost s0: State)
      requires Valid() && pc == SweepWalk(first, first) && first <= |slots|
      requires NoNull(s0.slots) && Walking(s0, Now(), 0)
      modifies this, pollGroup
      ensures Valid() && old(inputs) <= inputs
      ensures if crashed then !MarkedSuffix(s0.slots) else MarkedSuffix(s0.slots) && Swept(s0, Now())
      ensures alone ==> running == old(running)
    {
      WalkTail(first, s0);
      if crashed { return; }
      EndWalk(first, s0, |slots| - first);
    }

    method EndWalk(first: nat, ghost s0: State, ghost n: nat)
      requires Valid() && pc == SweepWalk(first, |slots|) && first <= |slots|
      requires NoNull(s0.slots) && Walking(s0, Now(), n)
      modifies this
      ensures Valid() && old(inputs) <= inputs && !crashed && MarkedSuffix(s0.slots) && Swept(s0, Now())
      ensures alone ==> running == old(running)
    {
      assert Reachable(AsWritten, Now());
      WalkingEnds(s0, Now(), n);
      Erase(first);
    }

    // ----- the thread -----

    /** One turn of the main loop. */
    method Turn()
      requires Valid() && pc.AcceptTest?
      modifies this, pollGroup
      ensures Valid() && old(inputs) <= inputs && (crashed || pc.Head?)
      ensures alone ==> running == old(running)
    {
      HandleIncomingConnections();
      if crashed { return; }
      HandleIncomingMessages();
      if crashed { return; }
      Outside();
      if crashed { return; }
      HandleDisconnectedClients();
    }

    /** network_thread_function_ from the opened acceptor `fd` on, observed for at most `turns` turns. */
    method NetworkThread(fd: Fd, turns: nat)
      requires Valid() && pc.Starting? && Fresh(kernel, fd)
      modifies this, pollGroup
      ensures Valid() && old(inputs) <= inputs && (crashed || pc.Head? || pc.Exited?)
      ensures alone ==> crashed || (pc.Head? && running)
      ensures forall id: ClientId :: Protocol(Project(trace, id))
      ensures forall id: ClientId :: Delivered(trace, id) <= Wire.Through(Wire.EMPTY, OpsOf(streams, id)).sent
      ensures ConnectIds(trace) == UpTo(|ConnectIds(trace)|)
      ensures pc.Exited? ==> !running && acceptor == 0 && kernel.server == Socks(slots)
      ensures pc.Head? ==> NoNull(slots) && Fds(pollGroup.pfds) == FdSeq(slots) &&
                           |ConnectIds(trace)| - |DisconnectIds(trace)| == |slots|
    {
      Loop(fd, turns);
      assert Reachable(AsWritten, Now());
      forall id: ClientId
        ensures Protocol(Project(trace, id))
        ensures Delivered(trace, id) <= Wire.Through(Wire.EMPTY, OpsOf(streams, id)).sent
      {
        CallbackProtocol(AsWritten, Now(), id);
        DeliveredIsSent(AsWritten, Now(), id);
      }
      IdAllocation(AsWritten, Now());
      if pc.Exited? { ExitClosesAcceptor(AsWritten, Now()); }
      if pc.Head? { IndexAgreement(AsWritten, Now()); Conservation(AsWritten, Now()); }
    }

    /** running_ = true and the acceptor opened on fd. */
    method StartUp(fd: Fd)
      requires Valid() && pc.Starting? && Fresh(kernel, fd)
      modifies this
      ensures Valid() && old(inputs) <= inputs
      ensures Now() == old(Now()).(running := true, kernel := AfterOpen(old(kernel), fd), acceptor := fd, pc := Head)
    {
      ghost var s := Now();
      running, pc := true, Opening;
      Record(s, Go);
      OpenAcceptor(fd);
    }

    method OpenAcceptor(fd: Fd)
      requires Valid() && pc.Opening? && Fresh(kernel, fd)
      modifies this
      ensures Valid() && old(inputs) <= inputs
      ensures Now() == old(Now()).(kernel := AfterOpen(old(kernel), fd), acceptor := fd, pc := Head)
    {
      ghost var s := Now();
      StepOfListening(s, fd);
      kernel, acceptor, pc := OpenFd(kernel, fd), fd, Head;
      Record(s, Listening(fd));
    }

    method Loop(fd: Fd, turns: nat)
      requires Valid() && pc.Starting? && Fresh(kernel, fd)
      modifies this, pollGroup
      ensures Valid() && old(inputs) <= inputs && (crashed || pc.Head? || (pc.Exited? && !running))
      ensures alone ==> crashed || (pc.Head? && running)
    {
      StartUp(fd);
      var left := turns;
      while left > 0
        invariant Valid() && pc.Head? && old(inputs) <= inputs && (alone ==> running)
      {
        Outside();
        if crashed { return; }
        if !running {
          CloseAcceptor();
          return;
        }
        TestRunning();
        Turn();
        if crashed { return; }
        left := left - 1;
      }
    }

    method CloseAcceptor()
      requires Valid() && pc.Head? && !running
      modifies this
      ensures Valid() && old(inputs) <= inputs
      ensures Now() == old(Now()).(kernel := AfterClose(old(kernel), old(acceptor)), acceptor := 0, pc := Exited)
    {
      ghost var s := Now();
      StepOfExit(s);
      assert Reachable(AsWritten, s);
      ExitDoes(s);
      kernel, acceptor, pc := Release(kernel, acceptor), 0, Exited;
      Record(s, Go);
    }

    /** The members of the server are destroyed. */
    method Dismantle()
      requires Valid() && pc.Exited?
      modifies this, pollGroup
      ensures Valid() && slots == [] && pc.Destroyed?
    {
      ghost var s := Now();
      StepOfDestroy(s);
      kernel := ReleaseAll(kernel, slots);
      slots, pollGroup.pfds, pc := [], [], Destroyed;
      Record(s, Destroy);
    }

    /** ~server after the thread has been joined: the clients' connections are destroyed. */
    method TearDown()
      requires Valid() && pc.Exited?
      modifies this, pollGroup
      ensures Valid() && slots == [] && kernel.server == {}
    {
      Dismantle();
      assert Reachable(AsWritten, Now());
      NothingLeaks(AsWritten, Now(), 0);
    }
  }
}
