/**
 * What each step does, said without the functions the transition system is made of: which client is
 * meant, which fields change, which descriptors are closed in which order, and that nothing else
 * happens. In every state of every run the transition system does exactly this.
 */
module Reference {
  import opened Types
  import opened OwningVector
  import opened Poll
  import opened Machine
  import opened Clients
  import opened Separation
  import opened Invariant
  import opened Preservation
  import opened Broadcasting

  // ----- vocabulary -----

  function MarkOf(x: Slot): Slot {
    if x.Own? then Own(x.c.(connected := false)) else x
  }

  /** The sockets closed when a run of clients is destroyed, first to last. */
  function ClosesOf(s: seq<Slot>): seq<FdEvent> {
    if s == [] then []
    else (if s[0].Own? && s[0].c.sock != 0 then [Closed(s[0].c.sock)] else []) + ClosesOf(s[1..])
  }

  function AfterOpen(k: Kernel, fd: Fd): Kernel {
    Kernel(k.server + {fd}, k.foreign, k.log + [Opened(fd)])
  }

  function AfterClose(k: Kernel, fd: Fd): Kernel {
    Kernel(k.server - {fd}, k.foreign, k.log + [Closed(fd)])
  }

  /** The client at n is the one with this id, and it is met before any null slot. */
  predicate Finds(s: seq<Slot>, id: ClientId, n: int) {
    0 <= n < |s| && s[n].Own? && s[n].c.id == id && forall p :: 0 <= p < n ==> s[p].Own?
  }

  /** A search for the id comes to a null slot first. */
  predicate Trips(s: seq<Slot>, id: ClientId) {
    exists n :: 0 <= n < |s| && s[n].Null? && forall p :: 0 <= p < n ==> s[p].Own? && s[p].c.id != id
  }

  ghost predicate Knows(s: seq<Slot>, id: ClientId) {
    exists n :: Finds(s, id, n)
  }

  // ----- calls -----

  ghost predicate DoesCall(s: State, call: Call, s': State) {
    match call
    case Stop => s' == s.(running := false)
    case RemoveClient(id) =>
      (forall n :: Finds(s.slots, id, n) ==> s' == s.(slots := s.slots[n := MarkOf(s.slots[n])], flag := true)) &&
      (Trips(s.slots, id) ==> s' == s.(pc := Fault)) &&
      (!Knows(s.slots, id) && !Trips(s.slots, id) ==> s' == s)
    case MessageClient(msg, id, answers) =>
      (forall n :: Finds(s.slots, id, n) ==> DoesMessage(s, msg, n, answers, s')) &&
      (Trips(s.slots, id) ==> s' == s.(pc := Fault)) &&
      (!Knows(s.slots, id) && !Trips(s.slots, id) ==> s' == s)
    case MessageAllClients(msg, exclude, each) => DoesBroadcast(s, msg, exclude, each, s')
  }

  /** A message to the client at n: only if it is connected; a code that is set marks it. */
  predicate DoesMessage(s: State, msg: Bytes, n: int, answers: Answers, s': State)
    requires 0 <= n < |s.slots| && s.slots[n].Own?
  {
    var c := s.slots[n].c;
    var sent := Wire.Send(c.sock, msg, s.ec, answers);
    if !c.connected then s' == s
    else
      s' == s.(ec := sent.ec, sends := s.sends + [Sending(c.id, msg, sent.wire)],
               slots := if sent.ec != 0 then s.slots[n := MarkOf(s.slots[n])] else s.slots,
               flag := s.flag || sent.ec != 0)
  }

  ghost predicate DoesBroadcast(s: State, msg: Bytes, exclude: ClientId, each: seq<Answers>, s': State) {
    s' == s.(slots := s'.slots, flag := s'.flag, sends := s.sends + SendsFrom(s.slots, msg, exclude, each, 0),
             ec := CodeAfter(s.slots, msg, exclude, s.ec, each, 0, |s.slots|)) &&
    |s'.slots| == |s.slots| &&
    (forall n :: 0 <= n < |s.slots| ==>
       s'.slots[n] == if Addressed(s.slots, exclude, n) && CodeAfter(s.slots, msg, exclude, s.ec, each, 0, n + 1) != 0
                      then MarkOf(s.slots[n]) else s.slots[n]) &&
    (s'.flag <==> s.flag || MarksSome(s.slots, msg, exclude, s.ec, each, 0, |s.slots|))
  }

  lemma {:induction false} Lookup(s: seq<Slot>, id: ClientId, from: nat)
    requires from <= |s| && forall p :: 0 <= p < from ==> s[p].Own? && s[p].c.id != id
    ensures var r := FindId(s, id, from);
            (r.Found? ==> Finds(s, id, r.i)) && (r.NullDereference? ==> Trips(s, id)) &&
            (r.Missing? ==> !Knows(s, id) && !Trips(s, id))
    decreases |s| - from
  {
    if from == |s| || s[from].Null? || s[from].c.id == id {
    } else {
      Lookup(s, id, from + 1);
    }
  }

  /** The three outcomes of a search exclude each other. */
  lemma {:induction false} LookupIs(s: seq<Slot>, id: ClientId)
    requires Pairwise(s)
    ensures var r := FindId(s, id);
            (forall n :: Finds(s, id, n) <==> r.Found? && n == r.i) &&
            (Trips(s, id) <==> r.NullDereference?) && (Knows(s, id) <==> r.Found?)
  {
    Lookup(s, id, 0);
    forall n | Finds(s, id, n) ensures FindId(s, id) == Found(n) { FindIdExact(s, n); }
    if Trips(s, id) {
      var n :| 0 <= n < |s| && s[n].Null? && forall p :: 0 <= p < n ==> s[p].Own? && s[p].c.id != id;
      assert forall p :: Finds(s, id, p) ==> p > n || p < n;
    }
  }

  lemma {:induction false} CallIs(s: State, call: Call, s': State)
    requires Pairwise(s.slots) && !s.pc.Fault? && (call.MessageAllClients? ==> NoNull(s.slots))
    ensures DoesCall(s, call, s') <==> s' == Do(s, call)
  {
    match call
    case Stop =>
    case RemoveClient(id) => LookupIs(s.slots, id);
    case MessageClient(msg, id, answers) => LookupIs(s.slots, id);
    case MessageAllClients(msg, exclude, each) =>
      BroadcastIs(s, msg, exclude, each);
      if DoesBroadcast(s, msg, exclude, each, s') { assert s'.slots == Do(s, call).slots; }
  }

  // ----- the thread without a system call -----

  /** b is a with the holder of this descriptor marked, and nobody else. */
  predicate MarksHolder(a: seq<Slot>, b: seq<Slot>, fd: Fd) {
    |a| == |b| &&
    forall n :: 0 <= n < |a| ==> b[n] == if a[n].Own? && a[n].c.fd == fd then MarkOf(a[n]) else a[n]
  }

  /** The event is an error or a hang-up: its client, and nobody else, is marked. */
  ghost predicate DoesDrop(s: State, s': State)
    requires s.pc.ReadEvent? && s.pc.i < |s.pc.events|
  {
    MarksHolder(s.slots, s'.slots, s.pc.events[s.pc.i].fd) &&
    s' == s.(slots := s'.slots, flag := true, pc := ReadTest(s.pc.events, s.pc.i + 1))
  }

  ghost predicate DoesSeparate(m: Mode, s: State, s': State) {
    var k := |Kept(s.slots)|;
    s' == s.(slots := s'.slots, kernel := s'.kernel, pc := SweepWalk(k, k)) &&
    if m.Intended? then s'.slots == Kept(s.slots) + Marked(s.slots) && s'.kernel == s.kernel
    else
      var lost := Marked(s.slots[..k]);
      IsRemoved(s.slots, s'.slots) &&
      s'.kernel == Kernel(s.kernel.server - Socks(lost), s.kernel.foreign, s.kernel.log + ClosesOf(lost))
  }

  ghost predicate DoesWalk(s: State, s': State)
    requires s.pc.SweepWalk? && 0 <= s.pc.k <= |s.slots|
  {
    var k, j := s.pc.k, s.pc.j;
    if j >= |s.slots| then s' == s.(slots := s.slots[..k], pc := Head)
    else if s.slots[j].Null? then s' == s.(pc := Fault)
    else
      var c := s.slots[j].c;
      s' == s.(pfds := Without(s.pfds, c.fd),
               kernel := if c.sock == 0 then s.kernel else AfterClose(s.kernel, c.sock),
               slots := s.slots[j := Own(c.(sock := 0))],
               trace := s.trace + [Disconnect(c.id)], pc := DisconnectHandler(k, j))
  }

  ghost predicate DoesGo(m: Mode, s: State, s': State)
    requires Enabled(s, Go)
  {
    match s.pc
    case Starting => s' == s.(running := true, pc := Opening)
    case Head =>
      if s.running then s' == s.(pc := AcceptTest)
      else s' == s.(kernel := AfterClose(s.kernel, s.acceptor), acceptor := 0, pc := Exited)
    case AcceptTest => s' == s.(pc := if s.running then AcceptAsk else PollCall)
    case ReadTest(events, n) =>
      s' == s.(pc := if n < |events| && s.running then ReadEvent(events, n) else SweepTest)
    case ReadEvent(events, n) =>
      if events[n].status & (ERROR | HUNG_UP) != 0 then DoesDrop(s, s') else s' == s.(pc := ReadTest(events, n + 1))
    case SweepTest => if s.flag then DoesSeparate(m, s, s') else s' == s.(pc := Head)
    case SweepWalk(_, _) => DoesWalk(s, s')
    case _ => false
  }

  /** Which inputs a readiness report admits: a broken connection is dropped even if readable. */
  lemma {:induction false} ReadEventInputs(s: State, r: Recv)
    requires Inv(s) && s.pc.ReadEvent?
    ensures s.pc.i < |s.pc.events|
    ensures var status := s.pc.events[s.pc.i].status;
            (Enabled(s, Go) <==> status & (ERROR | HUNG_UP) != 0 || status & READABLE == 0) &&
            (Enabled(s, Received(r)) <==>
               status & (ERROR | HUNG_UP) == 0 && status & READABLE != 0 &&
               forall n :: 0 <= n < |s.slots| && s.slots[n].Own? && s.slots[n].c.fd == s.pc.events[s.pc.i].fd ==>
                 Possible(OpsOf(s.streams, s.slots[n].c.id), r))
  {
    OnlySender(s);
  }

  lemma {:induction false} DropIs(s: State, s': State)
    requires Inv(s) && s.pc.ReadEvent? && s.pc.i < |s.pc.events| && Broken(s.pc.events[s.pc.i].status)
    ensures DoesDrop(s, s') <==> s' == ReadSilently(s)
  {
    EventResolves(s);
    var n := FindFd(s.slots, s.pc.events[s.pc.i].fd).i;
    FindIdExact(s.slots, n);
    DropPointwise(s.slots, s'.slots, n, s.pc.events[s.pc.i].fd);
  }

  lemma {:induction false} DropPointwise(a: seq<Slot>, b: seq<Slot>, n: nat, fd: Fd)
    requires n < |a| && NoNull(a) && a[n].c.fd == fd && forall p :: 0 <= p < |a| && p != n ==> a[p].c.fd != fd
    ensures MarksHolder(a, b, fd) <==> b == MarkAt(a, n)
  {
    if MarksHolder(a, b, fd) {
      assert forall p :: 0 <= p < |a| ==> b[p] == MarkAt(a, n)[p];
    }
  }

  lemma {:induction false} ReadEventIs(m: Mode, s: State, s': State)
    requires Inv(s) && s.pc.ReadEvent? && Enabled(s, Go)
    ensures DoesGo(m, s, s') <==> s' == Next(m, s, Go)
  {
    ReadEventInputs(s, RecvError(1));
    if Broken(s.pc.events[s.pc.i].status) { DropIs(s, s'); } else { EventResolves(s); }
  }

  // ----- destroying clients -----

  lemma {:induction false} ReleaseAllIs(k: Kernel, s: seq<Slot>)
    requires Socks(s) !! k.foreign
    ensures ReleaseAll(k, s) == Kernel(k.server - Socks(s), k.foreign, k.log + ClosesOf(s))
    decreases |s|
  {
    if s == [] {
      assert Socks(s) == {} && k.log + [] == k.log;
    } else {
      var rest := s[1..];
      assert s == [s[0]] + rest;
      SetsOfConcat([s[0]], rest);
      if s[0].Null? {
        assert Socks([s[0]]) == {};
        ReleaseAllIs(k, rest);
      } else {
        SetsOfOne(s[0].c);
        var k' := Release(k, s[0].c.sock);
        assert k'.foreign == k.foreign && k'.server == k.server - Socks([s[0]]);
        ReleaseAllIs(k', rest);
        var first := if s[0].c.sock != 0 then [Closed(s[0].c.sock)] else [];
        assert k'.log == k.log + first;
        assert k.log + first + ClosesOf(rest) == k.log + (first + ClosesOf(rest));
      }
    }
  }

  lemma {:induction false} OwnNotForeign(s: State)
    requires Inv(s) && !s.pc.Fault? && !s.pc.Destroyed?
    ensures Socks(s.slots) !! s.kernel.foreign && s.acceptor !in s.kernel.foreign - {0}
    ensures Socks(s.slots) <= s.kernel.server
  {
  }

  /** t is what remove_if makes of s: kept clients in front, moved-from ones null in the tail. */
  predicate IsRemoved(s: seq<Slot>, t: seq<Slot>) {
    |t| == |s| && (forall n :: 0 <= n < |Kept(s)| ==> t[n] == Kept(s)[n]) &&
    forall n :: |Kept(s)| <= n < |s| ==> t[n] == if IsMarked(s[n]) then s[n] else Null
  }

  lemma {:induction false} RemovedIs(s: seq<Slot>, t: seq<Slot>)
    ensures IsRemoved(s, t) <==> t == Removed(s)
  {
    var k := |Kept(s)|;
    assert |Removed(s)| == |s|;
    assert forall n :: 0 <= n < k ==> Removed(s)[n] == Kept(s)[n];
    forall n | k <= n < |s| ensures Removed(s)[n] == if IsMarked(s[n]) then s[n] else Null {
      assert Removed(s)[n] == TailSlots(s[k..])[n - k];
    }
    if IsRemoved(s, t) {
      assert forall n :: 0 <= n < |s| ==> t[n] == Removed(s)[n];
    }
  }

  lemma {:induction false} SeparateIs(m: Mode, s: State, s': State)
    requires NoNull(s.slots) && s.pc.SweepTest? && s.flag && Socks(s.slots) !! s.kernel.foreign
    ensures DoesSeparate(m, s, s') <==> s' == SweepBegin(m, s)
  {
    if m.AsWritten? {
      var k := |Kept(s.slots)|;
      var lost := Marked(s.slots[..k]);
      assert Socks(lost) <= Socks(s.slots) by { LostSocks(s.slots, k); }
      ReleaseAllIs(s.kernel, lost);
      RemovedIs(s.slots, s'.slots);
    } else {
      assert ReleaseAll(s.kernel, []) == s.kernel;
    }
  }

  lemma {:induction false} LostSocks(s: seq<Slot>, k: nat)
    requires k <= |s|
    ensures Socks(Marked(s[..k])) <= Socks(s)
  {
    assert s == s[..k] + s[k..];
    SetsOfConcat(s[..k], s[k..]);
    FilterSets(s[..k]);
  }

  lemma {:induction false} SweepTestIs(m: Mode, s: State, s': State)
    requires Inv(s) && s.pc.SweepTest?
    ensures DoesGo(m, s, s') <==> s' == Next(m, s, Go)
  {
    OwnNotForeign(s);
    GatedSweepIs(m, s, s');
  }

  lemma {:induction false} GatedSweepIs(m: Mode, s: State, s': State)
    requires NoNull(s.slots) && s.pc.SweepTest? && Socks(s.slots) !! s.kernel.foreign
    ensures DoesGo(m, s, s') <==> s' == Next(m, s, Go)
  {
    if s.flag { SeparateIs(m, s, s'); }
  }

  lemma {:induction false} WalkIs(s: State, s': State)
    requires Inv(s) && s.pc.SweepWalk? && s.pc.k <= |s.slots|
    ensures DoesWalk(s, s') <==> s' == if s.pc.j < |s.slots| then SweepOne(s) else SweepEnd(s)
  {
    if s.pc.j >= |s.slots| {
      SweepEndInv(s);
    } else if s.slots[s.pc.j].Own? {
      CloseIs(s, s.pc.j);
    }
  }

  /** Closing a client's socket takes nothing from the rest of the process. */
  lemma {:induction false} CloseIs(s: State, n: nat)
    requires Inv(s) && !s.pc.Fault? && !s.pc.Destroyed? && n < |s.slots| && s.slots[n].Own?
    ensures Release(s.kernel, s.slots[n].c.sock) ==
            if s.slots[n].c.sock == 0 then s.kernel else AfterClose(s.kernel, s.slots[n].c.sock)
  {
    OwnNotForeign(s);
    assert s.slots[n] in s.slots;
  }

  lemma {:induction false} HeadIs(m: Mode, s: State, s': State)
    requires Inv(s) && s.pc.Head?
    ensures DoesGo(m, s, s') <==> s' == Next(m, s, Go)
  {
    assert s.acceptor != 0 && s.acceptor in s.kernel.server && s.kernel.server !! s.kernel.foreign;
  }

  lemma {:induction false} GoIs(m: Mode, s: State, s': State)
    requires Inv(s) && Enabled(s, Go)
    ensures DoesGo(m, s, s') <==> s' == Next(m, s, Go)
  {
    if s.pc.Head? {
      HeadIs(m, s, s');
    } else if s.pc.ReadEvent? {
      ReadEventIs(m, s, s');
    } else if s.pc.SweepTest? {
      SweepTestIs(m, s, s');
    } else if s.pc.SweepWalk? {
      WalkIs(s, s');
    }
  }

  // ----- answers of the kernel -----

  ghost predicate DoesAccept(s: State, fd: Fd, s': State)
    requires s.pc.AcceptCall?
  {
    var id := s.pc.newId;
    if s.ec != 0 then
      s' == s.(kernel := s.kernel.(log := s.kernel.log + [Opened(fd), Closed(fd)]), nextId := id, pc := AcceptTest)
    else
      s' == s.(kernel := AfterOpen(s.kernel, fd), slots := s.slots + [Own(Client(id, fd, fd, true))],
               pfds := s.pfds + [Pollfd(fd, POLLIN, 0)], trace := s.trace + [Connect(id)], pc := ConnectHandler)
  }

  ghost predicate DoesPoll(s: State, answer: PollAnswer, s': State) {
    s' == s.(pfds := s'.pfds, pc := ReadTest(Reports(s'.pfds), 0)) && |s'.pfds| == |s.pfds| &&
    forall n :: 0 <= n < |s.pfds| ==>
      s'.pfds[n] == if answer.PollFilled? && |answer.revents| == |s.pfds|
                    then Pollfd(s.pfds[n].fd, s.pfds[n].events, answer.revents[n]) else s.pfds[n]
  }

  /** What ::recv brought for the client at n, whose event is neither an error nor a hang-up. */
  ghost predicate DoesReceive(s: State, n: int, r: Recv, s': State)
    requires s.pc.ReadEvent? && 0 <= n < |s.slots| && s.slots[n].Own?
  {
    var c, next := s.slots[n].c, ReadTest(s.pc.events, s.pc.i + 1);
    var ops := OpsOf(s.streams, c.id);
    match r
    case RecvError(errno) => s' == s.(slots := s.slots[n := MarkOf(s.slots[n])], flag := true, ec := errno, pc := next)
    case RecvEof(errno) =>
      s' == s.(slots := s.slots[n := Own(c.(sock := 0, connected := false))], flag := true, ec := errno, pc := next,
               kernel := AfterClose(s.kernel, c.fd),
               streams := s.streams[c.id := ops + [Wire.ReceiveOp(8192, 0)]])
    case RecvData(bytes) =>
      var heard := s.(taken := s.taken + [Read(c.id, bytes)],
                      streams := s.streams[c.id := ops + [Wire.ReceiveOp(8192, |bytes|)]]);
      if s.ec == 0
      then s' == heard.(trace := s.trace + [Data(c.id, bytes)], pc := DataHandler(s.pc.events, s.pc.i))
      else s' == heard.(slots := s.slots[n := MarkOf(s.slots[n])], flag := true, pc := next)
  }

  lemma {:induction false} AcceptIs(s: State, fd: Fd, s': State)
    requires Inv(s) && Enabled(s, Accepted(fd))
    ensures DoesAccept(s, fd, s') <==> s' == AcceptOk(s, fd)
  {
    assert s.nextId == s.pc.newId + 1;
    var k := s.kernel;
    assert Release(OpenFd(k, fd), fd) == k.(log := k.log + [Opened(fd), Closed(fd)]) by {
      assert k.server + {fd} - {fd} == k.server && k.foreign - {fd} == k.foreign;
      assert k.log + [Opened(fd)] + [Closed(fd)] == k.log + [Opened(fd), Closed(fd)];
    }
  }

  lemma {:induction false} PollIs(s: State, answer: PollAnswer, s': State)
    requires s.pc.PollCall?
    ensures DoesPoll(s, answer, s') <==> s' == Next(AsWritten, s, Polled(answer))
  {
    var filled := Filled(s.pfds, answer);
    forall n | 0 <= n < |s.pfds|
      ensures filled[n] == if answer.PollFilled? && |answer.revents| == |s.pfds|
                           then Pollfd(s.pfds[n].fd, s.pfds[n].events, answer.revents[n]) else s.pfds[n]
    {
    }
    if DoesPoll(s, answer, s') { assert s'.pfds == filled; }
  }

  lemma {:induction false} ReceiveIs(s: State, n: nat, r: Recv, s': State)
    requires s.pc.ReadEvent? && n < |s.slots| && s.slots[n].Own? && FindId(s.slots, s.slots[n].c.id) == Found(n)
    requires s.slots[n].c.sock == s.slots[n].c.fd != 0 && (r.RecvData? ==> r.bytes != [])
    requires Release(s.kernel, s.slots[n].c.fd) == AfterClose(s.kernel, s.slots[n].c.fd)
    ensures DoesReceive(s, n, r, s') <==> s' == Receive(s, n, r)
  {
    UnsockFind(s.slots, n);
    if r.RecvEof? { EofShape(s, n, r.errno); }
  }

  lemma {:induction false} ReceivedIs(m: Mode, s: State, r: Recv, s': State)
    requires Inv(s) && Enabled(s, Received(r))
    ensures var n := FindFd(s.slots, s.pc.events[s.pc.i].fd).i;
            s.slots[n].c.sock == s.slots[n].c.fd == s.pc.events[s.pc.i].fd &&
            (DoesReceive(s, n, r, s') <==> s' == Next(m, s, Received(r)))
  {
    EventResolves(s);
    var n := FindFd(s.slots, s.pc.events[s.pc.i].fd).i;
    assert ClientOk(s.slots[n].c, Limit(s));
    FindIdExact(s.slots, n);
    CloseIs(s, n);
    ReceiveIs(s, n, r, s');
  }

  // ----- every step -----

  /** The whole of what a step does; the state must be one in which the input is possible. */
  ghost predicate Does(m: Mode, s: State, i: Input, s': State)
    requires Enabled(s, i)
  {
    match i
    case Go => DoesGo(m, s, s')
    case Listening(fd) => s' == s.(kernel := AfterOpen(s.kernel, fd), acceptor := fd, pc := Head)
    case Pending(yes) =>
      s' == if yes then s.(nextId := s.nextId + 1, pc := AcceptCall(s.nextId)) else s.(pc := PollCall)
    case Accepted(fd) => DoesAccept(s, fd, s')
    case AcceptFailed(errno) => s' == s.(ec := errno, nextId := s.pc.newId, pc := AcceptTest)
    case Polled(answer) => DoesPoll(s, answer, s')
    case Received(r) =>
      var e := s.pc.events[s.pc.i];
      e.status & (ERROR | HUNG_UP) == 0 && e.status & READABLE != 0 &&
      forall n :: 0 <= n < |s.slots| && s.slots[n].Own? && s.slots[n].c.fd == e.fd ==> DoesReceive(s, n, r, s')
    case Return =>
      (s.pc.ConnectHandler? ==> s' == s.(pc := AcceptTest)) &&
      (s.pc.DataHandler? ==> s' == s.(pc := ReadTest(s.pc.events, s.pc.i + 1))) &&
      (s.pc.DisconnectHandler? ==> s' == s.(pc := SweepWalk(s.pc.k, s.pc.j + 1)))
    case Api(call) => DoesCall(s, call, s')
    case PeerSends(id, data, answers) =>
      s' == s.(streams := s.streams[id := OpsOf(s.streams, id) + [Wire.SendOp(data, answers)]])
    case PeerCloses(id) => s' == s.(streams := s.streams[id := OpsOf(s.streams, id) + [Wire.ShutOp]])
    case ForeignOpen(fd) => s' == s.(kernel := s.kernel.(foreign := s.kernel.foreign + {fd}))
    case ForeignClose(fd) => s' == s.(kernel := s.kernel.(foreign := s.kernel.foreign - {fd}))
    case Destroy =>
      s' == s.(slots := [], pfds := [], pc := Destroyed,
               kernel := Kernel({}, s.kernel.foreign, s.kernel.log + ClosesOf(s.slots)))
  }

  lemma {:induction false} ReceivedStepIs(m: Mode, s: State, r: Recv, s': State)
    requires Inv(s) && Enabled(s, Received(r))
    ensures Does(m, s, Received(r), s') <==> s' == Next(m, s, Received(r))
  {
    ReadEventInputs(s, r);
    ReceivedIs(m, s, r, s');
    OnlySender(s);
  }

  lemma {:induction false} OnlySender(s: State)
    requires Inv(s) && s.pc.ReadEvent?
    ensures s.pc.i < |s.pc.events|
    ensures var r := FindFd(s.slots, s.pc.events[s.pc.i].fd);
            r.Found? && forall n :: 0 <= n < |s.slots| && s.slots[n].Own? ==>
              (s.slots[n].c.fd == s.pc.events[s.pc.i].fd <==> n == r.i)
  {
    EventResolves(s);
  }

  lemma {:induction false} DestroyIs(m: Mode, s: State, s': State)
    requires Inv(s) && s.pc.Exited?
    ensures Does(m, s, Destroy, s') <==> s' == Next(m, s, Destroy)
  {
    OwnNotForeign(s);
    ReleaseAllIs(s.kernel, s.slots);
    assert s.kernel.server == Socks(s.slots);
  }

  lemma {:induction false} CallStepIs(m: Mode, s: State, call: Call, s': State)
    requires Inv(s) && Enabled(s, Api(call)) && (call.MessageAllClients? ==> NoNull(s.slots))
    ensures Does(m, s, Api(call), s') <==> s' == Next(m, s, Api(call))
  {
    assert Pairwise(s.slots);
    CallIs(s, call, s');
  }

  lemma {:induction false} PlainStepIs(m: Mode, s: State, i: Input, s': State)
    requires Enabled(s, i) && (s.pc.AcceptCall? ==> s.nextId == s.pc.newId + 1)
    requires i.Listening? || i.Pending? || i.AcceptFailed? || i.Return? || ByOthers(i)
    ensures Does(m, s, i, s') <==> s' == Next(m, s, i)
  {
  }

  lemma {:induction false} NextIs(m: Mode, s: State, i: Input, s': State)
    requires Inv(s) && Enabled(s, i) && (i.Api? && i.call.MessageAllClients? ==> NoNull(s.slots))
    ensures Does(m, s, i, s') <==> s' == Next(m, s, i)
  {
    if i.Go? {
      GoIs(m, s, s');
    } else if i.Accepted? {
      AcceptIs(s, i.fd, s');
    } else if i.Polled? {
      PollIs(s, i.answer, s');
    } else if i.Received? {
      ReceivedStepIs(m, s, i.r, s');
    } else if i.Api? {
      CallStepIs(m, s, i.call, s');
    } else if i.Destroy? {
      DestroyIs(m, s, s');
    } else {
      PlainStepIs(m, s, i, s');
    }
  }

  /**
   * In every reachable state, for every input possible in it, the step taken is the one described and
   * no other; a broadcast over a vector with a null slot ends in a fault.
   */
  lemma {:induction false} StepIsAsDescribed(m: Mode, s: State, i: Input, s': State)
    requires Reachable(m, s) && Enabled(s, i)
    ensures !(i.Api? && i.call.MessageAllClients? && !NoNull(s.slots)) ==>
              (Does(m, s, i, s') <==> s' == Step(m, s, i))
    ensures i.Api? && i.call.MessageAllClients? && !NoNull(s.slots) ==> Step(m, s, i).pc.Fault?
  {
    ReachableInv(m, s);
    if i.Api? && i.call.MessageAllClients? && !NoNull(s.slots) {
      BroadcastFaultsFrom(s, i.call.msg, i.call.exclude, i.call.each, 0);
    } else {
      NextIs(m, s, i, s');
    }
  }
}
