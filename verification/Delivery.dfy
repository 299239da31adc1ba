/**
 * What the Data callbacks add up to: for each client, the bytes passed on are a prefix of what
 * ::recv took off its stream, and all of it as long as the client has not been marked.
 */
module Delivery {
  import opened Types
  import opened OwningVector
  import opened Machine
  import opened Clients
  import opened Separation
  import opened Invariant
  import opened Interface
  import opened Preservation

  /** The bytes passed to the data handler for one client, in order. */
  function Delivered(t: seq<Event>, id: ClientId): Bytes {
    if t == [] then []
    else
      var e := t[|t| - 1];
      Delivered(t[..|t| - 1], id) + if e.Data? && e.id == id then e.bytes else []
  }

  /** The bytes ::recv took off one client's stream, in order. */
  function Taken(r: seq<Read>, id: ClientId): Bytes {
    if r == [] then [] else Taken(r[..|r| - 1], id) + if r[|r| - 1].id == id then r[|r| - 1].bytes else []
  }

  lemma {:induction false} DeliveredAfter(t: seq<Event>, e: Event, id: ClientId)
    ensures Delivered(t + [e], id) == Delivered(t, id) + if e.Data? && e.id == id then e.bytes else []
  {
    assert (t + [e])[..|t|] == t;
  }

  lemma {:induction false} TakenAfter(r: seq<Read>, x: Read, id: ClientId)
    ensures Taken(r + [x], id) == Taken(r, id) + if x.id == id then x.bytes else []
  {
    assert (r + [x])[..|r|] == r;
  }

  predicate UpToDate(s: State, id: ClientId) {
    Delivered(s.trace, id) == Taken(s.taken, id)
  }

  /** Bytes of this client may have been dropped: it is marked, and its event has been handled. */
  predicate Excused(pc: PC, x: Slot) {
    IsMarked(x) &&
    (pc.SweepTest? || (Reading(pc) && pc.i <= |pc.events| && x.c.fd in EventFds(pc.events)[..pc.i]))
  }

  /** Clients that stay in the vector are up to date unless excused. */
  predicate NobodyBehind(s: State) {
    forall i :: 0 <= i < FrontEnd(s) <= |s.slots| && s.slots[i].Own? ==>
      UpToDate(s, s.slots[i].c.id) || Excused(s.pc, s.slots[i])
  }

  ghost predicate Prefixes(s: State) {
    forall id: ClientId :: Delivered(s.trace, id) <= Taken(s.taken, id)
  }

  ghost predicate NothingAhead(s: State, limit: ClientId) {
    forall id: ClientId :: id >= limit ==> Taken(s.taken, id) == []
  }

  ghost predicate InOrder(s: State) {
    Prefixes(s) && (!s.pc.Fault? && !s.pc.Destroyed? ==> NothingAhead(s, Limit(s)) && NobodyBehind(s))
  }

  // ----- steps that move no bytes -----

  /** Same bytes, and every client that stays was there before and keeps its excuse. */
  ghost predicate SameBytes(s: State, s': State) {
    s'.taken == s.taken && (forall id: ClientId :: Delivered(s'.trace, id) == Delivered(s.trace, id))
  }

  lemma {:induction false} IdleInOrder(s: State, s': State)
    requires InOrder(s) && !s.pc.Fault? && !s.pc.Destroyed? && SameBytes(s, s')
    requires Limit(s') == Limit(s) && FrontEnd(s') <= FrontEnd(s) <= |s.slots| && FrontEnd(s') <= |s'.slots|
    requires forall i :: 0 <= i < FrontEnd(s') ==>
               MarkedOnly(s.slots[i], s'.slots[i]) && (Excused(s.pc, s.slots[i]) ==> Excused(s'.pc, s'.slots[i]))
    ensures InOrder(s')
  {
    forall i | 0 <= i < FrontEnd(s') && s'.slots[i].Own?
      ensures UpToDate(s', s'.slots[i].c.id) || Excused(s'.pc, s'.slots[i])
    {
      assert MarkedOnly(s.slots[i], s'.slots[i]);
      assert UpToDate(s, s.slots[i].c.id) || Excused(s.pc, s.slots[i]);
    }
  }

  lemma {:induction false} QuietInOrder(s: State, s': State)
    requires Inv(s) && InOrder(s) && Quiet(s, s')
    ensures InOrder(s')
  {
    if s'.pc == s.pc && !s.pc.Fault? && !s.pc.Destroyed? {
      assert forall i :: 0 <= i < |s.slots| ==> MarkedOnly(s.slots[i], s'.slots[i]);
      IdleInOrder(s, s');
    }
  }

  /** Nobody has an excuse outside the read phase. */
  lemma {:induction false} PhaseInOrder(s: State, s': State)
    requires InOrder(s) && !s.pc.Fault? && !s.pc.Destroyed? && !Sweeping(s.pc) && !Reading(s.pc) && !s.pc.SweepTest?
    requires SameBytes(s, s') && s'.slots == s.slots && !Sweeping(s'.pc) && Limit(s') == Limit(s)
    ensures InOrder(s')
  {
    IdleInOrder(s, s');
  }

  lemma {:induction false} ReadNextInOrder(s: State)
    requires Inv(s) && InOrder(s) && (s.pc.ReadEvent? || s.pc.DataHandler?)
    ensures InOrder(s.(pc := ReadNext(s.pc)))
  {
    var fds, n := EventFds(s.pc.events), s.pc.i;
    assert fds[..n + 1] == fds[..n] + [fds[n]];
    IdleInOrder(s, s.(pc := ReadNext(s.pc)));
  }

  lemma {:induction false} DropInOrder(s: State, id: ClientId)
    requires Inv(s) && InOrder(s) && s.pc.ReadEvent?
    ensures InOrder(Drop(s, id))
  {
    RemoveIsQuiet(s, id);
    QuietKeepsInv(s, Remove(s, id));
    QuietInOrder(s, Remove(s, id));
    if !Remove(s, id).pc.Fault? { ReadNextInOrder(Remove(s, id)); }
  }

  // ----- receiving -----

  /** Before its event is handled a client is up to date. */
  lemma {:induction false} SenderUpToDate(s: State, i: nat)
    requires Inv(s) && InOrder(s) && s.pc.ReadEvent? && i < |s.slots| && s.slots[i].Own?
    requires s.slots[i].c.fd == s.pc.events[s.pc.i].fd
    ensures UpToDate(s, s.slots[i].c.id)
  {
    var fds, n := EventFds(s.pc.events), s.pc.i;
    assert fds[n] !in fds[..n] by { assert forall p :: 0 <= p < n ==> fds[..n][p] == fds[p] != fds[n]; }
    assert UpToDate(s, s.slots[i].c.id) || Excused(s.pc, s.slots[i]);
  }

  lemma {:induction false} ReadBytesOf(s: State, id: ClientId, bytes: Bytes, s': State, other: ClientId)
    requires s'.taken == s.taken + [Read(id, bytes)]
    requires s'.trace == s.trace || s'.trace == s.trace + [Data(id, bytes)]
    ensures Taken(s'.taken, other) == Taken(s.taken, other) + if other == id then bytes else []
    ensures Delivered(s'.trace, other) ==
            Delivered(s.trace, other) + if other == id && s'.trace != s.trace then bytes else []
  {
    TakenAfter(s.taken, Read(id, bytes), other);
    DeliveredAfter(s.trace, Data(id, bytes), other);
  }

  lemma {:induction false} ReadBytes(s: State, id: ClientId, bytes: Bytes, s': State)
    requires Prefixes(s) && UpToDate(s, id) && NothingAhead(s, Limit(s)) && id < Limit(s)
    requires s'.taken == s.taken + [Read(id, bytes)]
    requires s'.trace == s.trace || s'.trace == s.trace + [Data(id, bytes)]
    ensures Prefixes(s') && NothingAhead(s', Limit(s))
    ensures s'.trace != s.trace ==> UpToDate(s', id)
    ensures forall other: ClientId :: other != id && UpToDate(s, other) ==> UpToDate(s', other)
  {
    forall other: ClientId | other != id
      ensures Taken(s'.taken, other) == Taken(s.taken, other) && Delivered(s'.trace, other) == Delivered(s.trace, other)
    {
      ReadBytesOf(s, id, bytes, s', other);
    }
    ReadBytesOf(s, id, bytes, s', id);
    assert Delivered(s'.trace, id) <= Taken(s'.taken, id);
  }

  /** Bytes that arrive with no error pending are passed on: everybody stays up to date. */
  lemma {:induction false} PassedOnInOrder(s: State, s': State, i: nat, bytes: Bytes)
    requires Inv(s) && InOrder(s) && s.pc.ReadEvent? && i < |s.slots| && s.slots[i].Own?
    requires s.slots[i].c.fd == s.pc.events[s.pc.i].fd
    requires s'.taken == s.taken + [Read(s.slots[i].c.id, bytes)] && s'.slots == s.slots && s'.nextId == s.nextId
    requires s'.trace == s.trace + [Data(s.slots[i].c.id, bytes)] && s'.pc == DataHandler(s.pc.events, s.pc.i)
    ensures InOrder(s')
  {
    SenderUpToDate(s, i);
    assert s.slots[i].c.id < Limit(s) by { assert ClientOk(s.slots[i].c, Limit(s)); }
    ReadBytes(s, s.slots[i].c.id, bytes, s');
    PassedOnUpToDate(s, s', s.slots[i].c.id);
  }

  lemma {:induction false} PassedOnUpToDate(s: State, s': State, id: ClientId)
    requires NobodyBehind(s) && s.pc.ReadEvent? && s'.slots == s.slots && s'.pc == DataHandler(s.pc.events, s.pc.i)
    requires UpToDate(s', id) && forall other: ClientId :: other != id && UpToDate(s, other) ==> UpToDate(s', other)
    ensures NobodyBehind(s')
  {
    forall n | 0 <= n < |s.slots| && s.slots[n].Own?
      ensures UpToDate(s', s.slots[n].c.id) || Excused(s'.pc, s.slots[n])
    {
      assert UpToDate(s, s.slots[n].c.id) || Excused(s.pc, s.slots[n]);
    }
  }

  /** Bytes dropped behind an old error: their sender is marked and its event is handled. */
  lemma {:induction false} DroppedInOrder(s: State, s': State, i: nat, bytes: Bytes)
    requires Inv(s) && InOrder(s) && s.pc.ReadEvent? && i < |s.slots| && s.slots[i].Own?
    requires s.slots[i].c.fd == s.pc.events[s.pc.i].fd
    requires s'.taken == s.taken + [Read(s.slots[i].c.id, bytes)] && s'.slots == MarkAt(s.slots, i)
    requires s'.trace == s.trace && s'.pc == ReadNext(s.pc) && s'.nextId == s.nextId
    ensures InOrder(s')
  {
    SenderUpToDate(s, i);
    assert s.slots[i].c.id < Limit(s) by { assert ClientOk(s.slots[i].c, Limit(s)); }
    ReadBytes(s, s.slots[i].c.id, bytes, s');
    DroppedUpToDate(s, s', i);
  }

  lemma {:induction false} DroppedUpToDate(s: State, s': State, i: nat)
    requires NobodyBehind(s) && NoNull(s.slots) && Pairwise(s.slots) && s.pc.ReadEvent? && s.pc.i < |s.pc.events|
    requires i < |s.slots| && s.slots[i].c.fd == s.pc.events[s.pc.i].fd
    requires s'.slots == MarkAt(s.slots, i) && s'.pc == ReadNext(s.pc)
    requires forall other: ClientId :: other != s.slots[i].c.id && UpToDate(s, other) ==> UpToDate(s', other)
    ensures NobodyBehind(s')
  {
    var fds, n := EventFds(s.pc.events), s.pc.i;
    assert fds[..n + 1] == fds[..n] + [fds[n]];
    forall p | 0 <= p < |s.slots| ensures UpToDate(s', s'.slots[p].c.id) || Excused(s'.pc, s'.slots[p]) {
      assert UpToDate(s, s.slots[p].c.id) || Excused(s.pc, s.slots[p]);
      if p < i { assert Apart(s.slots[p], s.slots[i]); }
      if p > i { assert Apart(s.slots[i], s.slots[p]); }
    }
  }

  /** The end of the stream: no bytes, the socket closed and the client marked. */
  lemma {:induction false} EofInOrder(s: State, s': State, i: nat)
    requires Inv(s) && InOrder(s) && s.pc.ReadEvent? && i < |s.slots| && s.slots[i].Own?
    requires s'.slots == Hung(s.slots, i) && s'.taken == s.taken && s'.trace == s.trace
    requires s'.pc == ReadNext(s.pc) && s'.nextId == s.nextId
    ensures InOrder(s')
  {
    var fds, n := EventFds(s.pc.events), s.pc.i;
    assert fds[..n + 1] == fds[..n] + [fds[n]];
    assert NobodyBehind(s') by {
      forall p | 0 <= p < |s.slots| ensures UpToDate(s', s'.slots[p].c.id) || Excused(s'.pc, s'.slots[p]) {
        assert UpToDate(s, s.slots[p].c.id) || Excused(s.pc, s.slots[p]);
      }
    }
  }

  /** What receive does to the state, by what was received. */
  lemma {:induction false} ReceiveShape(s: State, i: nat, r: Recv)
    requires s.pc.ReadEvent? && i < |s.slots| && s.slots[i].Own? && s.slots[i].c.sock != 0
    requires FindId(s.slots, s.slots[i].c.id) == Found(i)
    ensures var s' := Receive(s, i, r);
            s'.nextId == s.nextId &&
            (r.RecvEof? ==> s'.slots == Hung(s.slots, i) && s'.taken == s.taken && s'.trace == s.trace &&
                            s'.pc == ReadNext(s.pc)) &&
            (r.RecvData? ==> s'.taken == s.taken + [Read(s.slots[i].c.id, r.bytes)]) &&
            (r.RecvData? && s'.trace == s.trace ==> s'.slots == MarkAt(s.slots, i) && s'.pc == ReadNext(s.pc)) &&
            (r.RecvData? && s'.trace != s.trace ==>
               s'.slots == s.slots && s'.trace == s.trace + [Data(s.slots[i].c.id, r.bytes)] &&
               s'.pc == DataHandler(s.pc.events, s.pc.i))
  {
    UnsockFind(s.slots, i);
  }

  lemma {:induction false} ReceiveInOrder(s: State, i: nat, r: Recv)
    requires Inv(s) && InOrder(s) && s.pc.ReadEvent? && i < |s.slots| && s.slots[i].Own? && s.slots[i].c.sock != 0
    requires s.slots[i].c.fd == s.pc.events[s.pc.i].fd
    ensures InOrder(Receive(s, i, r))
  {
    var s' := Receive(s, i, r);
    FindIdExact(s.slots, i);
    ReceiveShape(s, i, r);
    match r
    case RecvEof(_) => EofInOrder(s, s', i);
    case RecvError(errno) => DropInOrder(s.(ec := errno), s.slots[i].c.id);
    case RecvData(bytes) =>
      if s'.trace == s.trace { DroppedInOrder(s, s', i, bytes); } else { PassedOnInOrder(s, s', i, bytes); }
  }

  lemma {:induction false} ReceivedInOrder(m: Mode, s: State, r: Recv)
    requires Inv(s) && InOrder(s) && Enabled(s, Received(r))
    ensures InOrder(Next(m, s, Received(r)))
  {
    EventResolves(s);
    var i := FindFd(s.slots, s.pc.events[s.pc.i].fd).i;
    assert s.slots[i].c.sock != 0 by { assert ClientOk(s.slots[i].c, Limit(s)); }
    ReceiveInOrder(s, i, r);
  }

  // ----- accepting -----

  /** A new client starts with nothing taken and nothing delivered. */
  lemma {:induction false} AdmittedInOrder(s: State, s': State, c: Client)
    requires InOrder(s) && s.pc == AcceptCall(c.id)
    requires s'.slots == s.slots + [Own(c)] && s'.taken == s.taken && s'.trace == s.trace + [Connect(c.id)]
    requires s'.pc.ConnectHandler? && s'.nextId == c.id + 1
    ensures InOrder(s')
  {
    forall other: ClientId ensures Delivered(s'.trace, other) == Delivered(s.trace, other) {
      DeliveredAfter(s.trace, Connect(c.id), other);
    }
    assert Delivered(s.trace, c.id) <= Taken(s.taken, c.id) == [];
    forall i | 0 <= i < |s'.slots| && s'.slots[i].Own? ensures UpToDate(s', s'.slots[i].c.id) {
      if i < |s.slots| { assert UpToDate(s, s.slots[i].c.id) || Excused(s.pc, s.slots[i]); }
    }
  }

  lemma {:induction false} AcceptedInOrder(s: State, fd: Fd)
    requires Inv(s) && InOrder(s) && Enabled(s, Accepted(fd))
    ensures InOrder(AcceptOk(s, fd))
  {
    if s.ec != 0 {
      PhaseInOrder(s, AcceptOk(s, fd));
    } else {
      AdmittedInOrder(s, AcceptOk(s, fd), Client(s.pc.newId, fd, fd, true));
    }
  }

  // ----- the sweep -----

  /** Clients kept by a sweep are not marked, so they are up to date. */
  lemma {:induction false} KeptUpToDate(s: State, i: nat)
    requires NobodyBehind(s) && s.pc.SweepTest? && NoNull(s.slots) && i < |Kept(s.slots)|
    ensures Kept(s.slots)[i].Own? && UpToDate(s, Kept(s.slots)[i].c.id)
  {
    var x := Kept(s.slots)[i];
    FilterMembers(s.slots, x);
    var p :| 0 <= p < |s.slots| && s.slots[p] == x;
    assert UpToDate(s, s.slots[p].c.id) || Excused(s.pc, s.slots[p]);
  }

  lemma {:induction false} SeparatedInOrder(s: State, s': State)
    requires InOrder(s) && s.pc.SweepTest? && NoNull(s.slots)
    requires s'.taken == s.taken && s'.trace == s.trace && s'.nextId == s.nextId
    requires s'.pc == SweepWalk(|Kept(s.slots)|, |Kept(s.slots)|) && Kept(s.slots) <= s'.slots
    ensures InOrder(s')
  {
    forall i: nat | i < |Kept(s.slots)| ensures s'.slots[i].Own? && UpToDate(s', s'.slots[i].c.id) {
      assert s'.slots[i] == Kept(s.slots)[i];
      KeptUpToDate(s, i);
    }
  }

  lemma {:induction false} SweepBeginInOrder(m: Mode, s: State)
    requires Inv(s) && InOrder(s) && s.pc.SweepTest?
    ensures InOrder(SweepBegin(m, s))
  {
    if s.flag {
      assert Kept(s.slots) <= Separated(m, s.slots) by { SeparatedLayout(m, s.slots, s.nextId); }
      SeparatedInOrder(s, SweepBegin(m, s));
    } else {
      SkippedInOrder(s);
    }
  }

  lemma {:induction false} SkippedInOrder(s: State)
    requires InOrder(s) && s.pc.SweepTest? && AllConnected(s.slots)
    ensures InOrder(s.(pc := Head))
  {
    IdleInOrder(s, s.(pc := Head));
  }

  lemma {:induction false} SweepOneInOrder(s: State)
    requires Inv(s) && InOrder(s) && s.pc.SweepWalk? && s.pc.j < |s.slots|
    ensures InOrder(SweepOne(s))
  {
    if s.slots[s.pc.j].Own? {
      forall id: ClientId ensures Delivered(SweepOne(s).trace, id) == Delivered(s.trace, id) {
        DeliveredAfter(s.trace, Disconnect(s.slots[s.pc.j].c.id), id);
      }
      IdleInOrder(s, SweepOne(s));
    }
  }

  lemma {:induction false} SweepEndInOrder(s: State)
    requires Inv(s) && InOrder(s) && s.pc.SweepWalk? && s.pc.j >= |s.slots|
    ensures InOrder(SweepEnd(s))
  {
    IdleInOrder(s, SweepEnd(s));
  }

  // ----- every step -----

  lemma {:induction false} GoInOrder(m: Mode, s: State)
    requires Inv(s) && InOrder(s) && Enabled(s, Go)
    ensures InOrder(Next(m, s, Go))
  {
    if s.pc.SweepTest? {
      SweepBeginInOrder(m, s);
    } else if s.pc.SweepWalk? {
      if s.pc.j < |s.slots| { SweepOneInOrder(s); } else { SweepEndInOrder(s); }
    } else if s.pc.ReadTest? {
      ReadTestInOrder(s);
    } else if s.pc.ReadEvent? {
      SilentInOrder(s);
    } else {
      LoopInOrder(m, s);
    }
  }

  lemma {:induction false} LoopInOrder(m: Mode, s: State)
    requires InOrder(s) && Enabled(s, Go) && (s.pc.Starting? || s.pc.Head? || s.pc.AcceptTest?)
    ensures InOrder(Next(m, s, Go))
  {
    PhaseInOrder(s, Next(m, s, Go));
  }

  lemma {:induction false} ReadTestInOrder(s: State)
    requires InOrder(s) && s.pc.ReadTest?
    ensures InOrder(s.(pc := ReadEvent(s.pc.events, s.pc.i))) && InOrder(s.(pc := SweepTest))
  {
    IdleInOrder(s, s.(pc := ReadEvent(s.pc.events, s.pc.i)));
    IdleInOrder(s, s.(pc := SweepTest));
  }

  lemma {:induction false} SilentInOrder(s: State)
    requires Inv(s) && InOrder(s) && s.pc.ReadEvent?
    ensures s.pc.i < |s.pc.events| && InOrder(ReadSilently(s))
  {
    EventResolves(s);
    ReadNextInOrder(s);
    DropInOrder(s, s.slots[FindFd(s.slots, s.pc.events[s.pc.i].fd).i].c.id);
  }

  lemma {:induction false} ReturnInOrder(m: Mode, s: State)
    requires Inv(s) && InOrder(s) && Enabled(s, Return)
    ensures InOrder(Next(m, s, Return))
  {
    if s.pc.DataHandler? { ReadNextInOrder(s); } else { IdleInOrder(s, Next(m, s, Return)); }
  }

  lemma {:induction false} OthersInOrder(m: Mode, s: State, i: Input)
    requires Inv(s) && InOrder(s) && Enabled(s, i) && ByOthers(i)
    ensures InOrder(Next(m, s, i))
  {
    if !s.pc.Destroyed? { IdleInOrder(s, Next(m, s, i)); }
  }

  lemma {:induction false} AnswerInOrder(m: Mode, s: State, i: Input)
    requires Inv(s) && InOrder(s) && Enabled(s, i)
    requires i.Listening? || i.Pending? || i.Accepted? || i.AcceptFailed? || i.Polled? || i.Received?
    ensures InOrder(Next(m, s, i))
  {
    match i
    case Listening(_) | Pending(_) | AcceptFailed(_) | Polled(_) => SilentAnswer(m, s, i);
    case Accepted(fd) => AcceptedInOrder(s, fd);
    case Received(r) => ReceivedInOrder(m, s, r);
  }

  lemma {:induction false} SilentAnswer(m: Mode, s: State, i: Input)
    requires InOrder(s) && Enabled(s, i) && (s.pc.AcceptCall? ==> s.nextId == s.pc.newId + 1)
    requires i.Listening? || i.Pending? || i.AcceptFailed? || i.Polled?
    ensures InOrder(Next(m, s, i))
  {
    PhaseInOrder(s, Next(m, s, i));
  }

  lemma {:induction false} CallInOrder(s: State, call: Call)
    requires Inv(s) && InOrder(s)
    ensures InOrder(Do(s, call))
  {
    CallIsQuiet(s, call);
    QuietInOrder(s, Do(s, call));
  }

  lemma {:induction false} NextInOrder(m: Mode, s: State, i: Input)
    requires Inv(s) && InOrder(s) && Enabled(s, i)
    ensures InOrder(Next(m, s, i))
  {
    if i.Go? {
      GoInOrder(m, s);
    } else if i.Return? {
      ReturnInOrder(m, s);
    } else if i.Api? {
      CallInOrder(s, i.call);
    } else if ByOthers(i) {
      OthersInOrder(m, s, i);
    } else if !i.Destroy? {
      AnswerInOrder(m, s, i);
    }
  }

  lemma {:induction false} StepInOrder(m: Mode, s: State, i: Input)
    requires Inv(s) && InOrder(s)
    ensures InOrder(Step(m, s, i))
  {
    if Enabled(s, i) { NextInOrder(m, s, i); }
  }

  lemma {:induction false} RunInOrder(m: Mode, foreign: set<Fd>, inputs: seq<Input>)
    ensures Inv(Run(m, Initial(foreign), inputs)) && InOrder(Run(m, Initial(foreign), inputs))
  {
    if inputs == [] {
      InitialInv(foreign);
    } else {
      var prefix, i := inputs[..|inputs| - 1], inputs[|inputs| - 1];
      RunInOrder(m, foreign, prefix);
      StepInv(m, Run(m, Initial(foreign), prefix), i);
      StepInOrder(m, Run(m, Initial(foreign), prefix), i);
    }
  }

  // ----- the main results -----

  /**
   * In every run, for every client, the bytes of its Data callbacks end to end are a prefix of what
   * was taken off its stream: bytes are lost only at the end, never in the middle, never repeated.
   */
  lemma {:induction false} DeliveredIsPrefix(m: Mode, s: State, id: ClientId)
    requires Reachable(m, s)
    ensures Delivered(s.trace, id) <= Taken(s.taken, id)
  {
    var foreign: set<Fd>, inputs: seq<Input> :| s == Run(m, Initial(foreign), inputs);
    RunInOrder(m, foreign, inputs);
  }

  /**
   * A client that has not been marked, and at the loop head or when polling any client at all, has
   * had every byte passed on that was taken off its stream.
   */
  lemma {:induction false} NothingLostWhileConnected(m: Mode, s: State, i: nat)
    requires Reachable(m, s) && !s.pc.Fault? && i < |s.slots| && s.slots[i].Own?
    requires s.slots[i].c.connected || s.pc.Head? || s.pc.PollCall?
    ensures Delivered(s.trace, s.slots[i].c.id) == Taken(s.taken, s.slots[i].c.id)
  {
    var foreign: set<Fd>, inputs: seq<Input> :| s == Run(m, Initial(foreign), inputs);
    RunInOrder(m, foreign, inputs);
    assert i < FrontEnd(s) <= |s.slots|;
    assert UpToDate(s, s.slots[i].c.id) || Excused(s.pc, s.slots[i]);
  }

  // ----- what is lost -----

  lemma {:induction false} BytesOfGo(m: Mode, s: State)
    requires Enabled(s, Go)
    ensures SameBytes(s, Next(m, s, Go)) && Next(m, s, Go).streams == s.streams
  {
    var s' := Next(m, s, Go);
    if s.pc.SweepWalk? && s.pc.j < |s.slots| && s.slots[s.pc.j].Own? {
      forall id: ClientId ensures Delivered(s'.trace, id) == Delivered(s.trace, id) {
        DeliveredAfter(s.trace, Disconnect(s.slots[s.pc.j].c.id), id);
      }
    } else if s.pc.ReadEvent? {
      BytesOfSilence(s);
    }
  }

  lemma {:induction false} BytesOfSilence(s: State)
    requires s.pc.ReadEvent? && s.pc.i < |s.pc.events|
    ensures ReadSilently(s).trace == s.trace && ReadSilently(s).taken == s.taken && ReadSilently(s).streams == s.streams
  {
  }

  lemma {:induction false} BytesOfAccept(s: State, fd: Fd)
    requires Enabled(s, Accepted(fd))
    ensures SameBytes(s, AcceptOk(s, fd)) && AcceptOk(s, fd).streams == s.streams
  {
    forall id: ClientId ensures Delivered(AcceptOk(s, fd).trace, id) == Delivered(s.trace, id) {
      DeliveredAfter(s.trace, Connect(s.pc.newId), id);
    }
  }

  /** receive() changes stream and bytes as Heard says, and makes at most one callback. */
  lemma {:induction false} BytesOfReceive(s: State, n: nat, r: Recv)
    requires s.pc.ReadEvent? && n < |s.slots| && s.slots[n].Own? && s.slots[n].c.sock != 0
    ensures var s', h := Receive(s, n, r), Heard(s, n, r);
            s'.streams == h.streams && s'.taken == h.taken &&
            s'.trace == s.trace + (if r.RecvData? && r.bytes != [] && s.ec == 0
                                   then [Data(s.slots[n].c.id, r.bytes)] else [])
  {
    assert s.trace + [] == s.trace;
  }

  /** Where the event of the read phase leads. */
  lemma {:induction false} SenderFacts(s: State)
    requires Inv(s) && s.pc.ReadEvent? && s.pc.i < |s.pc.events|
    ensures var r := FindFd(s.slots, s.pc.events[s.pc.i].fd); r.Found? && s.slots[r.i].c.sock != 0
  {
    EventResolves(s);
    assert ClientOk(s.slots[FindFd(s.slots, s.pc.events[s.pc.i].fd).i].c, Limit(s));
  }

  /** Only data that arrives moves bytes. */
  lemma {:induction false} BytesOfOthers(m: Mode, s: State, i: Input)
    requires Enabled(s, i) && !i.Received?
    ensures SameBytes(s, Next(m, s, i))
    ensures !i.PeerSends? && !i.PeerCloses? ==> Next(m, s, i).streams == s.streams
  {
    if i.Go? {
      BytesOfGo(m, s);
    } else if i.Accepted? {
      BytesOfAccept(s, i.fd);
    } else if i.Api? {
      CallIsQuiet(s, i.call);
      CallKeepsRunning(s, i.call);
    }
  }

  /** Data that has arrived is passed on exactly if no error is pending; it is taken in any case. */
  lemma {:induction false} PassedOnIff(m: Mode, s: State, bytes: Bytes)
    requires Inv(s) && Enabled(s, Received(RecvData(bytes)))
    ensures var s' := Step(m, s, Received(RecvData(bytes)));
            s'.taken == s.taken + [Read(SenderOf(s), bytes)] &&
            (s'.trace == s.trace + [Data(SenderOf(s), bytes)] <==> s.ec == 0) &&
            (s'.trace == s.trace <==> s.ec != 0)
  {
    SenderFacts(s);
    BytesOfReceive(s, FindFd(s.slots, s.pc.events[s.pc.i].fd).i, RecvData(bytes));
  }

  /** The bytes of this client that a step takes and does not pass on. */
  function DroppedBy(s: State, i: Input, id: ClientId): nat {
    if Enabled(s, i) && i.Received? && i.r.RecvData? && s.ec != 0 && SenderOf(s) == id then |i.r.bytes| else 0
  }

  function DroppedIn(m: Mode, s: State, inputs: seq<Input>, id: ClientId): nat {
    if inputs == [] then 0
    else
      DroppedIn(m, s, inputs[..|inputs| - 1], id) +
      DroppedBy(Run(m, s, inputs[..|inputs| - 1]), inputs[|inputs| - 1], id)
  }

  lemma {:induction false} NothingDropped(m: Mode, s: State, i: Input)
    requires Inv(s) && Enabled(s, i) && !(i.Received? && i.r.RecvData?)
    ensures SameBytes(s, Next(m, s, i))
  {
    if i.Received? {
      SenderFacts(s);
      BytesOfReceive(s, FindFd(s.slots, s.pc.events[s.pc.i].fd).i, i.r);
    } else {
      BytesOfOthers(m, s, i);
    }
  }

  lemma {:induction false} DroppedStep(m: Mode, s: State, i: Input, id: ClientId)
    requires Inv(s)
    ensures |Taken(Step(m, s, i).taken, id)| - |Delivered(Step(m, s, i).trace, id)| ==
            |Taken(s.taken, id)| - |Delivered(s.trace, id)| + DroppedBy(s, i, id)
  {
    if Enabled(s, i) && i.Received? && i.r.RecvData? {
      PassedOnIff(m, s, i.r.bytes);
      ReadBytesOf(s, SenderOf(s), i.r.bytes, Step(m, s, i), id);
    } else if Enabled(s, i) {
      NothingDropped(m, s, i);
    }
  }

  /**
   * Bytes taken are bytes delivered and bytes dropped, and a client has lost nothing exactly if none
   * of its data arrived in the run while ec_ was set.
   */
  lemma {:induction false} LossIsExact(m: Mode, foreign: set<Fd>, inputs: seq<Input>, id: ClientId)
    ensures var s := Run(m, Initial(foreign), inputs);
            |Taken(s.taken, id)| == |Delivered(s.trace, id)| + DroppedIn(m, Initial(foreign), inputs, id) &&
            (Delivered(s.trace, id) == Taken(s.taken, id) <==> DroppedIn(m, Initial(foreign), inputs, id) == 0)
  {
    RunInOrder(m, foreign, inputs);
    if inputs == [] {
    } else {
      var prefix, i := inputs[..|inputs| - 1], inputs[|inputs| - 1];
      LossIsExact(m, foreign, prefix, id);
      RunInOrder(m, foreign, prefix);
      DroppedStep(m, Run(m, Initial(foreign), prefix), i, id);
    }
  }

  // ----- end to end -----

  /** What the server has taken from a client is what receive got out of that client's stream. */
  ghost predicate StreamOk(streams: Streams, taken: seq<Read>, id: ClientId) {
    Wire.Received(OpsOf(streams, id)) == Taken(taken, id) &&
    Wire.ReceivesUpTo(OpsOf(streams, id), MAX_BUFFER_SIZE)
  }

  ghost predicate StreamsOk(s: State) {
    forall id: ClientId :: StreamOk(s.streams, s.taken, id)
  }

  /** What an operation at either end of the stream gives to the server. */
  function Yield(streams: Streams, id: ClientId, op: Wire.Op): Bytes {
    if op.ReceiveOp? then Wire.Take(Wire.Through(Wire.EMPTY, OpsOf(streams, id)), op.size, op.result).data else []
  }

  lemma {:induction false} StreamPushOne(streams: Streams, taken: seq<Read>, id: ClientId, op: Wire.Op)
    requires StreamOk(streams, taken, id) && (op.ReceiveOp? ==> op.size <= MAX_BUFFER_SIZE)
    ensures StreamOk(Append(streams, id, op), taken + [Read(id, Yield(streams, id, op))], id)
    ensures Yield(streams, id, op) == [] ==> StreamOk(Append(streams, id, op), taken, id)
  {
    TakenAfter(taken, Read(id, Yield(streams, id, op)), id);
    Wire.StreamPush(OpsOf(streams, id), op);
  }

  lemma {:induction false} StreamsPush(s: State, s': State, id: ClientId, op: Wire.Op)
    requires StreamsOk(s) && s'.streams == Append(s.streams, id, op)
    requires op.ReceiveOp? ==> op.size <= MAX_BUFFER_SIZE
    requires s'.taken == s.taken + [Read(id, Yield(s.streams, id, op))] ||
             (s'.taken == s.taken && Yield(s.streams, id, op) == [])
    ensures StreamsOk(s')
  {
    forall other: ClientId ensures StreamOk(s'.streams, s'.taken, other) {
      assert StreamOk(s.streams, s.taken, other);
      if other == id {
        StreamPushOne(s.streams, s.taken, id, op);
      } else {
        TakenAfter(s.taken, Read(id, Yield(s.streams, id, op)), other);
      }
    }
  }

  lemma {:induction false} HeardStreams(s: State, n: nat, r: Recv)
    requires StreamsOk(s) && n < |s.slots| && s.slots[n].Own? && s.slots[n].c.sock != 0
    requires Possible(OpsOf(s.streams, s.slots[n].c.id), r)
    ensures StreamsOk(Heard(s, n, r))
  {
    var id := s.slots[n].c.id;
    match r
    case RecvError(_) =>
    case RecvEof(_) => StreamsPush(s, Heard(s, n, r), id, Wire.ReceiveOp(MAX_BUFFER_SIZE, 0));
    case RecvData(bytes) => StreamsPush(s, Heard(s, n, r), id, Wire.ReceiveOp(MAX_BUFFER_SIZE, |bytes|));
  }

  lemma {:induction false} StreamsOfReceive(s: State, n: nat, r: Recv)
    requires StreamsOk(s) && s.pc.ReadEvent? && n < |s.slots| && s.slots[n].Own? && s.slots[n].c.sock != 0
    requires Possible(OpsOf(s.streams, s.slots[n].c.id), r)
    ensures StreamsOk(Receive(s, n, r))
  {
    HeardStreams(s, n, r);
    BytesOfReceive(s, n, r);
  }

  lemma {:induction false} StreamsOfPeer(m: Mode, s: State, i: Input)
    requires StreamsOk(s) && !s.pc.Fault? && (i.PeerSends? || i.PeerCloses?)
    ensures StreamsOk(Next(m, s, i))
  {
    StreamsPush(s, Next(m, s, i), i.id, if i.PeerSends? then Wire.SendOp(i.data, i.answers) else Wire.ShutOp);
  }

  lemma {:induction false} StreamsOfNext(m: Mode, s: State, i: Input)
    requires StreamsOk(s) && Enabled(s, i)
    requires i.Received? ==> s.slots[FindFd(s.slots, s.pc.events[s.pc.i].fd).i].c.sock != 0
    ensures StreamsOk(Next(m, s, i))
  {
    if i.Received? {
      StreamsOfReceive(s, FindFd(s.slots, s.pc.events[s.pc.i].fd).i, i.r);
    } else if i.PeerSends? || i.PeerCloses? {
      StreamsOfPeer(m, s, i);
    } else {
      BytesOfOthers(m, s, i);
    }
  }

  lemma {:induction false} StreamsOfStep(m: Mode, s: State, i: Input)
    requires Inv(s) && StreamsOk(s)
    ensures StreamsOk(Step(m, s, i))
  {
    if Enabled(s, i) {
      if i.Received? { SenderFacts(s); }
      StreamsOfNext(m, s, i);
    }
  }

  lemma {:induction false} StreamsOfRun(m: Mode, foreign: set<Fd>, inputs: seq<Input>)
    ensures StreamsOk(Run(m, Initial(foreign), inputs))
  {
    if inputs == [] {
    } else {
      var prefix, i := inputs[..|inputs| - 1], inputs[|inputs| - 1];
      StreamsOfRun(m, foreign, prefix);
      RunInOrder(m, foreign, prefix);
      StreamsOfStep(m, Run(m, Initial(foreign), prefix), i);
    }
  }

  lemma {:induction false} StreamPrefix(ops: seq<Wire.Op>)
    requires Wire.ReceivesUpTo(ops, MAX_BUFFER_SIZE)
    ensures Wire.Received(ops) <= Wire.Through(Wire.EMPTY, ops).sent
    ensures Wire.AllSucceed(ops) ==> Wire.Received(ops) <= Wire.Submitted(ops)
  {
    Wire.ReceivedIsPrefix(ops);
    if Wire.AllSucceed(ops) { Wire.SentIsSubmitted(ops); }
  }

  /**
   * End to end: in every run the Data callbacks of a client are a prefix of what its own sends handed
   * to its kernel, and of the buffers it sent if those sends succeeded.
   */
  lemma {:induction false} DeliveredIsSent(m: Mode, s: State, id: ClientId)
    requires Reachable(m, s)
    ensures Taken(s.taken, id) == Wire.Received(OpsOf(s.streams, id))
    ensures Delivered(s.trace, id) <= Wire.Through(Wire.EMPTY, OpsOf(s.streams, id)).sent
    ensures Wire.AllSucceed(OpsOf(s.streams, id)) ==> Delivered(s.trace, id) <= Wire.Submitted(OpsOf(s.streams, id))
  {
    var foreign: set<Fd>, inputs: seq<Input> :| s == Run(m, Initial(foreign), inputs);
    StreamsOfRun(m, foreign, inputs);
    assert StreamOk(s.streams, s.taken, id);
    DeliveredIsPrefix(m, s, id);
    StreamPrefix(OpsOf(s.streams, id));
  }
}
