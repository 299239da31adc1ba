/**
 * Calls of the public interface, from a handler or from another thread, only mark clients: the
 * shape of the vector, the poll group, the descriptors and the callback history stay as they are.
 */
module Interface {
  import opened Types
  import opened OwningVector
  import opened Poll
  import opened Machine
  import opened Clients
  import opened Invariant

  ghost predicate Quiet(s: State, s': State) {
    (s'.pc == s.pc || s'.pc.Fault?) && (NoNull(s.slots) ==> s'.pc == s.pc) &&
    SameButMarks(s.slots, s'.slots) &&
    (s.flag ==> s'.flag) && (!s'.flag ==> s'.slots == s.slots) &&
    s'.pfds == s.pfds && s'.nextId == s.nextId && s'.acceptor == s.acceptor &&
    s'.kernel == s.kernel && s'.trace == s.trace && s'.taken == s.taken &&
    (s'.running ==> s.running)
  }

  lemma {:induction false} QuietTransitive(a: State, b: State, c: State)
    requires Quiet(a, b) && Quiet(b, c)
    ensures Quiet(a, c)
  {
    forall i | 0 <= i < |a.slots| ensures MarkedOnly(a.slots[i], c.slots[i]) {
      assert MarkedOnly(a.slots[i], b.slots[i]) && MarkedOnly(b.slots[i], c.slots[i]);
    }
    if NoNull(a.slots) {
      forall i | 0 <= i < |b.slots| ensures b.slots[i].Own? { assert MarkedOnly(a.slots[i], b.slots[i]); }
    }
  }

  lemma {:induction false} RemoveIsQuiet(s: State, id: ClientId)
    ensures Quiet(s, Remove(s, id))
  {
  }

  lemma {:induction false} MessageIsQuiet(s: State, msg: Bytes, id: ClientId, answers: Answers)
    ensures Quiet(s, Message(s, msg, id, answers))
  {
    var r := FindId(s.slots, id);
    if r.Found? && s.slots[r.i].c.connected {
      var sent := Wire.Send(s.slots[r.i].c.sock, msg, s.ec, answers);
      var s' := s.(ec := sent.ec, sends := s.sends + [Sending(id, msg, sent.wire)]);
      RemoveIsQuiet(s', id);
    }
  }

  lemma {:induction false} BroadcastIsQuiet(s: State, msg: Bytes, exclude: ClientId, each: seq<Answers>, i: nat)
    ensures Quiet(s, Broadcast(s, msg, exclude, each, i))
    decreases |s.slots| - i
  {
    if i < |s.slots| && s.slots[i].Own? {
      if s.slots[i].c.id == exclude {
        BroadcastIsQuiet(s, msg, exclude, each, i + 1);
      } else {
        var s' := Message(s, msg, s.slots[i].c.id, AnswersAt(each, i));
        MessageIsQuiet(s, msg, s.slots[i].c.id, AnswersAt(each, i));
        if !s'.pc.Fault? {
          BroadcastIsQuiet(s', msg, exclude, each, i + 1);
          QuietTransitive(s, s', Broadcast(s', msg, exclude, each, i + 1));
        }
      }
    }
  }

  /** What a call can do to the server, whatever the call and wherever the thread is. */
  lemma {:induction false} CallIsQuiet(s: State, call: Call)
    ensures Quiet(s, Do(s, call))
  {
    match call
    case Stop =>
    case RemoveClient(id) => RemoveIsQuiet(s, id);
    case MessageClient(msg, id, answers) => MessageIsQuiet(s, msg, id, answers);
    case MessageAllClients(msg, exclude, each) => BroadcastIsQuiet(s, msg, exclude, each, 0);
  }

  /** Only stop() touches running_, and no call touches the clients' streams. */
  lemma {:induction false} CallKeepsRunning(s: State, call: Call)
    ensures !call.Stop? ==> Do(s, call).running == s.running
    ensures Do(s, call).streams == s.streams
  {
    if call.MessageAllClients? { BroadcastKeepsRunning(s, call.msg, call.exclude, call.each, 0); }
  }

  lemma {:induction false} BroadcastKeepsRunning(
    s: State, msg: Bytes, exclude: ClientId, each: seq<Answers>, i: nat)
    ensures var s' := Broadcast(s, msg, exclude, each, i); s'.running == s.running && s'.streams == s.streams
    decreases |s.slots| - i
  {
    if i >= |s.slots| || s.slots[i].Null? {
    } else if s.slots[i].c.id == exclude {
      BroadcastKeepsRunning(s, msg, exclude, each, i + 1);
    } else {
      var s' := Message(s, msg, s.slots[i].c.id, AnswersAt(each, i));
      if !s'.pc.Fault? { BroadcastKeepsRunning(s', msg, exclude, each, i + 1); }
    }
  }

  // ----- marking keeps the invariant -----

  lemma {:induction false} MarksPart(a: seq<Slot>, b: seq<Slot>, i: nat, j: nat)
    requires SameButMarks(a, b) && i <= j <= |a|
    ensures SameButMarks(a[i..j], b[i..j])
  {
  }

  lemma {:induction false} MarksKeepWatch(fds: seq<Fd>, a: seq<Slot>, b: seq<Slot>, k: nat, j: nat)
    requires SameButMarks(a, b) && k <= j <= |a|
    requires Watching(fds, a[..k], a[j..])
    ensures Watching(fds, b[..k], b[j..])
  {
    MarksPart(a, b, 0, k);
    MarksPart(a, b, j, |a|);
    assert a[0..k] == a[..k] && b[0..k] == b[..k];
    assert a[j..|a|] == a[j..] && b[j..|b|] == b[j..];
    MarksKeepSets(a[..k], b[..k]);
    MarksKeepSets(a[j..], b[j..]);
  }

  lemma {:induction false} QuietSockets(s: State, s': State)
    requires SocketsOk(s) && EventsOk(s) && Quiet(s, s') && s'.pc == s.pc
    ensures SocketsOk(s') && EventsOk(s')
  {
    assert forall i :: 0 <= i < |s.slots| ==> MarkedOnly(s.slots[i], s'.slots[i]);
    MarksKeepSets(s.slots, s'.slots);
  }

  lemma {:induction false} MarksKeepLives(t: seq<Event>, a: seq<Slot>, b: seq<Slot>, k: int, j: int, limit: ClientId)
    requires SameButMarks(a, b) && LifeOk(t, a, k, j, limit)
    ensures LifeOk(t, b, k, j, limit)
    ensures LiveIsKnown(t, a) ==> LiveIsKnown(t, b)
  {
    assert forall i :: 0 <= i < |a| ==> MarkedOnly(a[i], b[i]);
    MarksKeepSets(a, b);
  }

  lemma {:induction false} QuietAtRest(s: State, s': State)
    requires AtRest(s.slots, s.pfds, s.flag, s.trace, Limit(s)) && Quiet(s, s') && s'.pc == s.pc
    ensures AtRest(s'.slots, s'.pfds, s'.flag, s'.trace, Limit(s'))
  {
    MarksKeepOrder(s.slots, s'.slots, Limit(s));
    MarksKeepSets(s.slots, s'.slots);
    MarksKeepLives(s.trace, s.slots, s'.slots, |s.slots|, |s.slots|, Limit(s));
  }

  lemma {:induction false} QuietInSweep(s: State, s': State, k: nat, j: nat)
    requires InSweep(s.slots, s.pfds, s.trace, s.nextId, k, j) && Quiet(s, s') && s'.pc == s.pc
    ensures InSweep(s'.slots, s'.pfds, s'.trace, s'.nextId, k, j)
  {
    MarksKeep(s.slots, s'.slots, s.nextId, k, j);
    MarksKeepLives(s.trace, s.slots, s'.slots, k, j, s.nextId);
    if NoNull(s'.slots) { MarksKeepWatch(Fds(s.pfds), s.slots, s'.slots, k, j); }
  }

  /** Marking clients keeps the whole invariant, at every point of the loop. */
  lemma {:induction false} QuietKeepsInv(s: State, s': State)
    requires Inv(s) && Quiet(s, s')
    ensures Inv(s')
  {
    if s'.pc == s.pc && !s.pc.Fault? && !s.pc.Destroyed? {
      MarksKeepSets(s.slots, s'.slots);
      QuietSockets(s, s');
      if Sweeping(s.pc) { QuietInSweep(s, s', s.pc.k, TodoStart(s)); } else { QuietAtRest(s, s'); }
    }
  }
}
