/**
 * The server's network thread as a transition system. One step is one decision of the thread
 * (a test, a system call with the kernel's answer, a callback) or one outside event: a call of
 * the public interface, made from inside a handler or by another thread, the far end of a connection
 * sending or closing, or the rest of the process opening and closing descriptors of its own.
 */
module Machine {
  import opened Types
  import opened OwningVector
  import opened Poll
  import Wire

  // ----- kernel -----

  datatype FdEvent = Opened(fd: Fd) | Closed(fd: Fd)

  /**
   * `server`: open descriptors obtained by the server; `foreign`: every other open descriptor of
   * the process; `log`: what the server opened and closed, in order.
   */
  datatype Kernel = Kernel(server: set<Fd>, foreign: set<Fd>, log: seq<FdEvent>)

  /** Descriptor numbers the kernel may hand out: 0 is taken to be in use for good (standard input). */
  predicate Fresh(k: Kernel, fd: Fd) {
    fd > 0 && fd !in k.server && fd !in k.foreign
  }

  function OpenFd(k: Kernel, fd: Fd): Kernel {
    k.(server := k.server + {fd}, log := k.log + [Opened(fd)])
  }

  /** ::close, whoever the descriptor belongs to. */
  function CloseFd(k: Kernel, fd: Fd): Kernel {
    k.(server := k.server - {fd}, foreign := k.foreign - {fd}, log := k.log + [Closed(fd)])
  }

  /** connection::disconnect and ~connection on a connection holding `sock`. */
  function Release(k: Kernel, sock: Fd): Kernel {
    if sock != 0 then CloseFd(k, sock) else k
  }

  /** Destroying a run of owning pointers, first to last. */
  function ReleaseAll(k: Kernel, s: seq<Slot>): Kernel
    decreases |s|
  {
    if s == [] then k
    else if s[0].Null? then ReleaseAll(k, s[1..])
    else ReleaseAll(Release(k, s[0].c.sock), s[1..])
  }

  // ----- state -----

  datatype Event = Connect(id: ClientId) | Data(id: ClientId, bytes: Bytes) | Disconnect(id: ClientId)

  /** Where the network thread is; comments give lines of src/server.cpp. */
  datatype PC =
    | Starting                                               // before 84
    | Opening                                                // 87-99
    | Head                                                   // 101
    | AcceptTest                                             // 116
    | AcceptAsk                                              // 117
    | AcceptCall(newId: ClientId)                            // 126
    | ConnectHandler                                         // 144
    | PollCall                                               // 157
    | ReadTest(events: seq<Readiness>, i: nat)               // 159-160
    | ReadEvent(events: seq<Readiness>, i: nat)              // 165-190
    | DataHandler(events: seq<Readiness>, i: nat)            // 193
    | SweepTest                                              // 200
    | SweepWalk(k: nat, j: nat)                              // 207
    | DisconnectHandler(k: nat, j: nat)                      // 213
    | Exited                                                 // after 110
    | Destroyed                                              // after ~server
    | Fault                                                  // a null slot was dereferenced

  datatype State = State(
    pc: PC,
    slots: seq<Slot>,         // clients_
    pfds: seq<Pollfd>,        // poll_group_.pfds_
    nextId: ClientId,         // next_available_id
    flag: bool,               // has_disconnected_clients_
    ec: ErrorCode,            // ec_
    running: bool,            // running_
    acceptor: Fd,             // acceptor_.socket_
    kernel: Kernel,
    trace: seq<Event>,        // callbacks made so far
    sends: seq<Sending>,      // connection::send calls made so far
    taken: seq<Read>,         // what ::recv has taken off the clients' streams so far
    streams: Streams          // each client's stream towards the server
  )

  /** A message for a client, and what of it was handed to the kernel. */
  datatype Sending = Sending(id: ClientId, msg: Bytes, wire: Bytes)

  datatype Read = Read(id: ClientId, bytes: Bytes)

  /** What has been done at the two ends of each connection, in order, for the bytes towards the server. */
  type Streams = map<ClientId, seq<Wire.Op>>

  function OpsOf(streams: Streams, id: ClientId): seq<Wire.Op> {
    if id in streams then streams[id] else []
  }

  function Append(streams: Streams, id: ClientId, op: Wire.Op): Streams {
    streams[id := OpsOf(streams, id) + [op]]
  }

  function Initial(foreign: set<Fd>): State {
    State(Starting, [], [], 1, false, 0, false, 0, Kernel({}, foreign, []), [], [], [], map[])
  }

  // ----- inputs -----

  datatype Call =
    | Stop
    | RemoveClient(id: ClientId)
    | MessageClient(msg: Bytes, id: ClientId, answers: Answers)
    | MessageAllClients(msg: Bytes, exclude: ClientId, each: seq<Answers>)

  /** The kernel's answers to the ::send calls of one connection::send. */
  type Answers = seq<Wire.Answer>

  /** The kernel's answer to ::recv. */
  datatype Recv = RecvData(bytes: Bytes) | RecvEof(errno: ErrorCode) | RecvError(errno: ErrorCode)

  datatype Input =
    | Go
    | Listening(fd: Fd)
    | Pending(yes: bool)
    | Accepted(fd: Fd)
    | AcceptFailed(errno: ErrorCode)
    | Polled(answer: PollAnswer)
    | Received(r: Recv)
    | Return
    | Api(call: Call)
    | PeerSends(id: ClientId, data: Bytes, answers: Answers)
    | PeerCloses(id: ClientId)
    | ForeignOpen(fd: Fd)
    | ForeignClose(fd: Fd)
    | Destroy

  /** What the far ends and the rest of the process do, without the server. */
  predicate ByOthers(i: Input) {
    i.PeerSends? || i.PeerCloses? || i.ForeignOpen? || i.ForeignClose?
  }

  /** How the sweep separates marked clients: std::remove_if, or the stable partition meant. */
  datatype Mode = AsWritten | Intended

  const MAX_BUFFER_SIZE := 8192

  // ----- lookup -----

  datatype Lookup = Found(i: nat) | Missing | NullDereference

  /** client_info_from_id: std::find_if from position i. */
  function FindId(s: seq<Slot>, id: ClientId, i: nat := 0): (r: Lookup)
    decreases |s| - i
    ensures r.Found? ==> i <= r.i < |s| && s[r.i].Own? && s[r.i].c.id == id
    ensures r.Missing? ==> forall n :: i <= n < |s| ==> s[n].Own? && s[n].c.id != id
    ensures r.NullDereference? ==> exists n :: i <= n < |s| && s[n].Null?
  {
    if i >= |s| then Missing
    else if s[i].Null? then NullDereference
    else if s[i].c.id == id then Found(i)
    else FindId(s, id, i + 1)
  }

  /** client_info_from_native_socket. */
  function FindFd(s: seq<Slot>, fd: Fd, i: nat := 0): (r: Lookup)
    decreases |s| - i
    ensures r.Found? ==> i <= r.i < |s| && s[r.i].Own? && s[r.i].c.fd == fd
    ensures r.Missing? ==> forall n :: i <= n < |s| ==> s[n].Own? && s[n].c.fd != fd
    ensures r.NullDereference? ==> exists n :: i <= n < |s| && s[n].Null?
  {
    if i >= |s| then Missing
    else if s[i].Null? then NullDereference
    else if s[i].c.fd == fd then Found(i)
    else FindFd(s, fd, i + 1)
  }

  // ----- the public interface -----

  function MarkAt(s: seq<Slot>, i: nat): seq<Slot>
    requires i < |s| && s[i].Own?
  {
    s[i := Own(s[i].c.(connected := false))]
  }

  function Remove(s: State, id: ClientId): (r: State)
    ensures |r.slots| == |s.slots|
  {
    match FindId(s.slots, id)
    case NullDereference => s.(pc := Fault)
    case Missing => s
    case Found(i) => s.(slots := MarkAt(s.slots, i), flag := true)
  }

  /** The error code after connection::send. */
  function SendCode(sock: Fd, msg: Bytes, ec: ErrorCode, answers: Answers): ErrorCode {
    Wire.Send(sock, msg, ec, answers).ec
  }

  function Message(s: State, msg: Bytes, id: ClientId, answers: Answers): (r: State)
    ensures |r.slots| == |s.slots|
  {
    match FindId(s.slots, id)
    case NullDereference => s.(pc := Fault)
    case Missing => s
    case Found(i) =>
      var c := s.slots[i].c;
      if !c.connected then s
      else
        var sent := Wire.Send(c.sock, msg, s.ec, answers);
        var s' := s.(ec := sent.ec, sends := s.sends + [Sending(id, msg, sent.wire)]);
        if s'.ec != 0 then Remove(s', id) else s'
  }

  /** The kernel's answers to the send to the client at position n. */
  function AnswersAt(each: seq<Answers>, n: int): Answers {
    if 0 <= n < |each| then each[n] else []
  }

  /** The range-for of message_all_clients from position i. */
  function Broadcast(s: State, msg: Bytes, exclude: ClientId, each: seq<Answers>, i: nat := 0): State
    decreases |s.slots| - i
  {
    if i >= |s.slots| then s
    else if s.slots[i].Null? then s.(pc := Fault)
    else if s.slots[i].c.id == exclude then Broadcast(s, msg, exclude, each, i + 1)
    else
      var s' := Message(s, msg, s.slots[i].c.id, AnswersAt(each, i));
      if s'.pc.Fault? then s' else Broadcast(s', msg, exclude, each, i + 1)
  }

  function Do(s: State, call: Call): State {
    match call
    case Stop => s.(running := false)
    case RemoveClient(id) => Remove(s, id)
    case MessageClient(msg, id, answers) => Message(s, msg, id, answers)
    case MessageAllClients(msg, exclude, each) => Broadcast(s, msg, exclude, each)
  }

  /** The answers let the send return, and a failed system call sets errno. */
  predicate Answered(msg: Bytes, answers: Answers) {
    Wire.ErrnosSet(answers) && Wire.Send(1, msg, 0, answers).ended
  }

  /** The call returns: the kernel answers every send it makes. */
  predicate Returns(s: seq<Slot>, call: Call) {
    match call
    case Stop => true
    case RemoveClient(_) => true
    case MessageClient(msg, _, answers) => Answered(msg, answers)
    case MessageAllClients(msg, _, each) =>
      |s| <= |each| && forall n :: 0 <= n < |s| ==> Answered(msg, each[n])
  }

  // ----- the accept phase -----

  function AcceptOk(s: State, fd: Fd): State
    requires s.pc.AcceptCall? && s.nextId > 0
  {
    var k := OpenFd(s.kernel, fd);
    if s.ec != 0 then
      s.(kernel := Release(k, fd), nextId := s.nextId - 1, pc := AcceptTest)
    else
      s.(kernel := k,
         slots := s.slots + [Own(Client(s.pc.newId, fd, fd, true))],
         pfds := s.pfds + [Pollfd(fd, POLLIN, 0)],
         trace := s.trace + [Connect(s.pc.newId)],
         pc := ConnectHandler)
  }

  // ----- the read phase -----

  function ReadNext(pc: PC): PC
    requires pc.ReadEvent? || pc.DataHandler?
  {
    ReadTest(pc.events, pc.i + 1)
  }

  /** remove_client from the read phase, then the next event. */
  function Drop(s: State, id: ClientId): State
    requires s.pc.ReadEvent?
  {
    var s' := Remove(s, id);
    if s'.pc.Fault? then s' else s'.(pc := ReadNext(s.pc))
  }

  /** connection::receive on the client at position i: connection, kernel and error code after it. */
  function Heard(s: State, i: nat, r: Recv): State
    requires i < |s.slots| && s.slots[i].Own?
  {
    var c := s.slots[i].c;
    if c.sock == 0 then s.(ec := 1)
    else
      match r
      case RecvEof(errno) =>
        s.(kernel := Release(s.kernel, c.sock), slots := s.slots[i := Own(c.(sock := 0))], ec := errno,
           streams := Append(s.streams, c.id, Wire.ReceiveOp(MAX_BUFFER_SIZE, 0)))
      case RecvError(errno) => s.(ec := errno)
      case RecvData(bytes) =>
        s.(taken := s.taken + [Read(c.id, bytes)],
           streams := Append(s.streams, c.id, Wire.ReceiveOp(MAX_BUFFER_SIZE, |bytes|)))
  }

  /** What ::recv can answer on a connection with this history: its next bytes, its end, an error. */
  predicate Possible(ops: seq<Wire.Op>, r: Recv) {
    var p := Wire.Through(Wire.EMPTY, ops);
    match r
    case RecvData(bytes) => bytes != [] && bytes == Wire.Take(p, MAX_BUFFER_SIZE, |bytes|).data
    case RecvEof(_) => Wire.Take(p, MAX_BUFFER_SIZE, 0).closes
    case RecvError(errno) => errno != 0
  }

  /** What the loop does with the result: data is passed on if there is some and ec_ is clear. */
  function Receive(s: State, i: nat, r: Recv): State
    requires s.pc.ReadEvent? && i < |s.slots| && s.slots[i].Own?
  {
    var s', c := Heard(s, i, r), s.slots[i].c;
    if c.sock != 0 && r.RecvData? && r.bytes != [] && s'.ec == 0
    then s'.(trace := s.trace + [Data(c.id, r.bytes)], pc := DataHandler(s.pc.events, s.pc.i))
    else Drop(s', c.id)
  }

  /** The event is handled without a system call. */
  predicate NoReceive(s: State)
    requires s.pc.ReadEvent? && s.pc.i < |s.pc.events|
  {
    var e := s.pc.events[s.pc.i];
    !FindFd(s.slots, e.fd).Found? || Broken(e.status) || !CanRead(e.status)
  }

  /** The client the event is for. */
  function SenderOf(s: State): ClientId
    requires s.pc.ReadEvent? && s.pc.i < |s.pc.events| && !NoReceive(s)
  {
    s.slots[FindFd(s.slots, s.pc.events[s.pc.i].fd).i].c.id
  }

  function ReadSilently(s: State): State
    requires s.pc.ReadEvent? && s.pc.i < |s.pc.events|
  {
    var e := s.pc.events[s.pc.i];
    match FindFd(s.slots, e.fd)
    case NullDereference => s.(pc := Fault)
    case Missing => s.(pc := ReadNext(s.pc))
    case Found(i) =>
      if Broken(e.status) then Drop(s, s.slots[i].c.id) else s.(pc := ReadNext(s.pc))
  }

  // ----- the sweep -----

  function Separated(m: Mode, s: seq<Slot>): seq<Slot> {
    if m.AsWritten? then Removed(s) else Partitioned(s)
  }

  /** The clients destroyed while separating. */
  function Lost(m: Mode, s: seq<Slot>): seq<Slot> {
    if m.AsWritten? then Overwritten(s) else []
  }

  function SweepBegin(m: Mode, s: State): State {
    if !s.flag then s.(pc := Head)
    else if !NoNull(s.slots) then s.(pc := Fault)
    else
      var k := |Kept(s.slots)|;
      s.(slots := Separated(m, s.slots),
         kernel := ReleaseAll(s.kernel, Lost(m, s.slots)),
         pc := SweepWalk(k, k))
  }

  function SweepOne(s: State): State
    requires s.pc.SweepWalk? && s.pc.j < |s.slots|
  {
    var j := s.pc.j;
    if s.slots[j].Null? then s.(pc := Fault)
    else
      var c := s.slots[j].c;
      s.(pfds := Without(s.pfds, c.fd),
         kernel := Release(s.kernel, c.sock),
         slots := s.slots[j := Own(c.(sock := 0))],
         trace := s.trace + [Disconnect(c.id)],
         pc := DisconnectHandler(s.pc.k, j))
  }

  /** clients_.erase from the first removed slot on. */
  function SweepEnd(s: State): State
    requires s.pc.SweepWalk? && s.pc.k <= |s.slots|
  {
    s.(slots := s.slots[..s.pc.k], kernel := ReleaseAll(s.kernel, s.slots[s.pc.k..]), pc := Head)
  }

  // ----- steps -----

  /** Whether the input answers what the thread is waiting for, within what the kernel may say. */
  predicate Enabled(s: State, i: Input) {
    !s.pc.Fault? &&
    match i
    case Go =>
      (match s.pc
       case Starting | Head | AcceptTest | SweepTest => true
       case ReadTest(_, _) => true
       case ReadEvent(events, n) => n < |events| && NoReceive(s)
       case SweepWalk(k, j) => k <= |s.slots|
       case _ => false)
    case Listening(fd) => s.pc.Opening? && Fresh(s.kernel, fd)
    case Pending(_) => s.pc.AcceptAsk?
    case Accepted(fd) => s.pc.AcceptCall? && s.nextId > 0 && s.acceptor != 0 && Fresh(s.kernel, fd)
    case AcceptFailed(errno) => s.pc.AcceptCall? && s.nextId > 0 && errno != 0
    case Polled(_) => s.pc.PollCall?
    case Received(r) =>
      s.pc.ReadEvent? && s.pc.i < |s.pc.events| && !NoReceive(s) && Possible(OpsOf(s.streams, SenderOf(s)), r)
    case Return => s.pc.ConnectHandler? || s.pc.DataHandler? || s.pc.DisconnectHandler?
    case Api(call) => !s.pc.Destroyed? && Returns(s.slots, call)
    case PeerSends(_, _, _) => true
    case PeerCloses(_) => true
    case ForeignOpen(fd) => Fresh(s.kernel, fd)
    case ForeignClose(fd) => fd in s.kernel.foreign
    case Destroy => s.pc.Exited?
  }

  function Next(m: Mode, s: State, i: Input): State
    requires Enabled(s, i)
  {
    match i
    case Go =>
      (match s.pc
       case Starting => s.(running := true, pc := Opening)
       case Head =>
         if s.running then s.(pc := AcceptTest)
         else s.(kernel := Release(s.kernel, s.acceptor), acceptor := 0, pc := Exited)
       case AcceptTest => s.(pc := if s.running then AcceptAsk else PollCall)
       case ReadTest(events, n) =>
         s.(pc := if n < |events| && s.running then ReadEvent(events, n) else SweepTest)
       case ReadEvent(_, _) => ReadSilently(s)
       case SweepTest => SweepBegin(m, s)
       case SweepWalk(k, j) => if j < |s.slots| then SweepOne(s) else SweepEnd(s)
       case _ => s)
    case Listening(fd) => s.(kernel := OpenFd(s.kernel, fd), acceptor := fd, pc := Head)
    case Pending(yes) =>
      if yes then s.(nextId := s.nextId + 1, pc := AcceptCall(s.nextId)) else s.(pc := PollCall)
    case Accepted(fd) => AcceptOk(s, fd)
    case AcceptFailed(errno) => s.(ec := errno, nextId := s.nextId - 1, pc := AcceptTest)
    case Polled(answer) =>
      var pfds := Filled(s.pfds, answer);
      s.(pfds := pfds, pc := ReadTest(Reports(pfds), 0))
    case Received(r) => Receive(s, FindFd(s.slots, s.pc.events[s.pc.i].fd).i, r)
    case Return =>
      s.(pc := if s.pc.ConnectHandler? then AcceptTest
               else if s.pc.DataHandler? then ReadNext(s.pc)
               else SweepWalk(s.pc.k, s.pc.j + 1))
    case Api(call) => Do(s, call)
    case PeerSends(id, data, answers) => s.(streams := Append(s.streams, id, Wire.SendOp(data, answers)))
    case PeerCloses(id) => s.(streams := Append(s.streams, id, Wire.ShutOp))
    case ForeignOpen(fd) => s.(kernel := s.kernel.(foreign := s.kernel.foreign + {fd}))
    case ForeignClose(fd) => s.(kernel := s.kernel.(foreign := s.kernel.foreign - {fd}))
    case Destroy =>
      s.(slots := [], pfds := [], kernel := ReleaseAll(s.kernel, s.slots), pc := Destroyed)
  }

  /** An input nobody is waiting for changes nothing. */
  function Step(m: Mode, s: State, i: Input): State {
    if Enabled(s, i) then Next(m, s, i) else s
  }

  function Run(m: Mode, s: State, inputs: seq<Input>): State {
    if inputs == [] then s
    else Step(m, Run(m, s, inputs[..|inputs| - 1]), inputs[|inputs| - 1])
  }

  /** Every state of every run of every server. */
  ghost predicate Reachable(m: Mode, s: State) {
    exists foreign: set<Fd>, inputs: seq<Input> :: s == Run(m, Initial(foreign), inputs)
  }
}
