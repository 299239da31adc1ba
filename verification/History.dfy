/**
 * What the recorded history of a run says: the life of each client as the callbacks tell it,
 * the ids in order of connection, and the balance of opened and closed descriptors.
 */
module History {
  import opened Types
  import opened Machine

  // ----- the callback protocol -----

  datatype Life = Absent | Live | Gone | Violated

  function Advance(l: Life, e: Event, id: ClientId): Life {
    if e.id != id then l
    else if e.Connect? && l.Absent? then Live
    else if e.Data? && l.Live? then Live
    else if e.Disconnect? && l.Live? then Gone
    else Violated
  }

  function LifeOf(t: seq<Event>, id: ClientId): Life {
    if t == [] then Absent else Advance(LifeOf(t[..|t| - 1], id), t[|t| - 1], id)
  }

  /** The callbacks that concern one client. */
  function Project(t: seq<Event>, id: ClientId): (r: seq<Event>)
    ensures forall i :: 0 <= i < |r| ==> r[i].id == id
  {
    if t == [] then []
    else
      var r := Project(t[..|t| - 1], id);
      if t[|t| - 1].id == id then r + [t[|t| - 1]] else r
  }

  predicate AllData(p: seq<Event>) {
    forall i :: 0 <= i < |p| ==> p[i].Data?
  }

  /** Connect Data* Disconnect?, or nothing at all. */
  predicate Protocol(p: seq<Event>) {
    p == [] ||
    (p[0].Connect? && (AllData(p[1..]) || (|p| >= 2 && p[|p| - 1].Disconnect? && AllData(p[1..|p| - 1]))))
  }

  predicate OpenProtocol(p: seq<Event>) {
    p != [] && p[0].Connect? && AllData(p[1..])
  }

  lemma {:induction false} LifeIsProtocol(t: seq<Event>, id: ClientId)
    ensures LifeOf(t, id) != Violated <==> Protocol(Project(t, id))
    ensures LifeOf(t, id) == Absent <==> Project(t, id) == []
    ensures LifeOf(t, id) == Live <==> OpenProtocol(Project(t, id))
  {
    if t == [] {
    } else {
      var t', e := t[..|t| - 1], t[|t| - 1];
      LifeIsProtocol(t', id);
      ProtocolStep(Project(t', id), e);
    }
  }

  /** How one more callback for the same client changes the protocol. */
  lemma {:induction false} ProtocolStep(p: seq<Event>, e: Event)
    ensures OpenProtocol(p + [e]) <==> (if p == [] then e.Connect? else OpenProtocol(p) && e.Data?)
    ensures Protocol(p + [e]) <==>
            (if p == [] then e.Connect? else OpenProtocol(p) && (e.Data? || e.Disconnect?))
  {
    var q := p + [e];
    if p != [] {
      assert q[1..] == p[1..] + [e];
      assert q[1..|q| - 1] == p[1..];
      assert AllData(q[1..]) <==> AllData(p[1..]) && e.Data? by {
        if AllData(q[1..]) {
          assert q[1..][|p| - 1] == e;
          assert forall i :: 0 <= i < |p| - 1 ==> p[1..][i] == q[1..][i];
        }
      }
    }
  }

  lemma {:induction false} LifeAfter(t: seq<Event>, e: Event, id: ClientId)
    ensures LifeOf(t + [e], id) == Advance(LifeOf(t, id), e, id)
  {
    assert (t + [e])[..|t|] == t;
  }

  // ----- ids in order of connection, and how many clients have left -----

  function ConnectIds(t: seq<Event>): seq<ClientId> {
    if t == [] then []
    else
      var r := ConnectIds(t[..|t| - 1]);
      if t[|t| - 1].Connect? then r + [t[|t| - 1].id] else r
  }

  function DisconnectIds(t: seq<Event>): seq<ClientId> {
    if t == [] then []
    else
      var r := DisconnectIds(t[..|t| - 1]);
      if t[|t| - 1].Disconnect? then r + [t[|t| - 1].id] else r
  }

  lemma {:induction false} IdsAfter(t: seq<Event>, e: Event)
    ensures ConnectIds(t + [e]) == ConnectIds(t) + if e.Connect? then [e.id] else []
    ensures DisconnectIds(t + [e]) == DisconnectIds(t) + if e.Disconnect? then [e.id] else []
  {
    assert (t + [e])[..|t|] == t;
  }

  // ----- descriptors -----

  /** The descriptors open after a log, or None if it opens an open one or closes a closed one. */
  function Replay(log: seq<FdEvent>): Option<set<Fd>> {
    if log == [] then Some({})
    else
      match Replay(log[..|log| - 1])
      case None => None
      case Some(open) =>
        match log[|log| - 1]
        case Opened(fd) => if fd in open then None else Some(open + {fd})
        case Closed(fd) => if fd in open then Some(open - {fd}) else None
  }

  /** The server's part of the kernel state is what its own log says, and nobody else's. */
  predicate Balanced(k: Kernel) {
    Replay(k.log) == Some(k.server) && k.server !! k.foreign && 0 !in k.server
  }

  lemma {:induction false} OpenBalanced(k: Kernel, fd: Fd)
    requires Balanced(k) && Fresh(k, fd)
    ensures Balanced(OpenFd(k, fd))
  {
    var log := OpenFd(k, fd).log;
    assert log[..|log| - 1] == k.log;
  }

  lemma {:induction false} ReleaseBalanced(k: Kernel, sock: Fd)
    requires Balanced(k) && (sock == 0 || sock in k.server)
    ensures Balanced(Release(k, sock))
    ensures Release(k, sock).server == k.server - {sock}
    ensures Release(k, sock).foreign == k.foreign
  {
    if sock != 0 {
      var log := CloseFd(k, sock).log;
      assert log[..|log| - 1] == k.log;
    }
  }
}
