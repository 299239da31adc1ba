/** message_all_clients: who is sent to, in which order, and who is marked because of it. */
module Broadcasting {
  import opened Types
  import opened OwningVector
  import opened Machine
  import opened Clients
  import opened Interface
  import opened Preservation

  /** The client at n is sent the message: connected and not the excluded one. */
  predicate Addressed(s: seq<Slot>, exclude: ClientId, n: int) {
    0 <= n < |s| && s[n].Own? && s[n].c.connected && s[n].c.id != exclude
  }

  /** The send of the client at i, if it gets one. */
  function SendOf(s: seq<Slot>, msg: Bytes, exclude: ClientId, each: seq<Answers>, i: nat): seq<Sending> {
    if Addressed(s, exclude, i)
    then [Sending(s[i].c.id, msg, Wire.Send(s[i].c.sock, msg, 0, AnswersAt(each, i)).wire)]
    else []
  }

  /** The sends of the loop from position i on: each addressed client once, in order. */
  function SendsFrom(s: seq<Slot>, msg: Bytes, exclude: ClientId, each: seq<Answers>, i: nat): seq<Sending>
    decreases |s| - i
  {
    if i >= |s| then [] else SendOf(s, msg, exclude, each, i) + SendsFrom(s, msg, exclude, each, i + 1)
  }

  /** The error code when the clients from i up to, not including, n have had their turn. */
  function CodeAfter(
    s: seq<Slot>, msg: Bytes, exclude: ClientId, ec: ErrorCode, each: seq<Answers>, i: nat, n: nat): ErrorCode
    decreases n
  {
    if n <= i then ec
    else
      var before := CodeAfter(s, msg, exclude, ec, each, i, n - 1);
      if Addressed(s, exclude, n - 1) then SendCode(s[n - 1].c.sock, msg, before, AnswersAt(each, n - 1)) else before
  }

  /** An addressed client is marked exactly if the code is nonzero after its own send. */
  function AfterBroadcast(s: State, msg: Bytes, exclude: ClientId, each: seq<Answers>, i: nat, n: nat): Slot
    requires n < |s.slots|
  {
    if n >= i && Addressed(s.slots, exclude, n) && CodeAfter(s.slots, msg, exclude, s.ec, each, i, n + 1) != 0
    then Own(s.slots[n].c.(connected := false))
    else s.slots[n]
  }

  /** Some client from i up to, not including, n is marked by the loop. */
  predicate MarksSome(
    s: seq<Slot>, msg: Bytes, exclude: ClientId, ec: ErrorCode, each: seq<Answers>, i: nat, n: nat)
    decreases n
  {
    n > i &&
    (MarksSome(s, msg, exclude, ec, each, i, n - 1) ||
     (Addressed(s, exclude, n - 1) && CodeAfter(s, msg, exclude, ec, each, i, n) != 0))
  }

  /** One turn of the loop. */
  lemma {:induction false} MessageAt(s: State, msg: Bytes, i: nat, answers: Answers)
    requires NoNull(s.slots) && Pairwise(s.slots) && i < |s.slots|
    ensures var c := s.slots[i].c;
            var s' := Message(s, msg, c.id, answers);
            if !c.connected then s' == s
            else s'.ec == SendCode(c.sock, msg, s.ec, answers) &&
                 s'.sends == s.sends + [Sending(c.id, msg, Wire.Send(c.sock, msg, 0, answers).wire)] &&
                 s'.slots == (if s'.ec != 0 then MarkAt(s.slots, i) else s.slots) &&
                 s'.flag == (s.flag || s'.ec != 0)
  {
    FindIdExact(s.slots, i);
    Wire.WireIgnoresCode(s.slots[i].c.sock, msg, s.ec, answers);
  }

  lemma {:induction false} MarkAtKeeps(s: seq<Slot>, i: nat)
    requires NoNull(s) && Pairwise(s) && i < |s|
    ensures NoNull(MarkAt(s, i)) && Pairwise(MarkAt(s, i))
  {
    var t := MarkAt(s, i);
    forall p, q | 0 <= p < q < |t| ensures Apart(t[p], t[q]) { assert Apart(s[p], s[q]); }
  }

  /** r is the state after the loop has run from position i in state s. */
  ghost predicate Done(s: State, r: State, msg: Bytes, exclude: ClientId, each: seq<Answers>, i: nat) {
    i <= |s.slots| == |r.slots| &&
    (forall n :: 0 <= n < |s.slots| ==> r.slots[n] == AfterBroadcast(s, msg, exclude, each, i, n)) &&
    r.sends == s.sends + SendsFrom(s.slots, msg, exclude, each, i) &&
    r.ec == CodeAfter(s.slots, msg, exclude, s.ec, each, i, |s.slots|) &&
    (r.flag <==> s.flag || MarksSome(s.slots, msg, exclude, s.ec, each, i, |s.slots|))
  }

  lemma {:induction false} BroadcastFrom(s: State, msg: Bytes, exclude: ClientId, each: seq<Answers>, i: nat)
    requires NoNull(s.slots) && Pairwise(s.slots) && i <= |s.slots| && !s.pc.Fault?
    ensures Done(s, Broadcast(s, msg, exclude, each, i), msg, exclude, each, i)
    decreases |s.slots| - i
  {
    if i == |s.slots| {
    } else {
      var c := s.slots[i].c;
      var s' := if c.id == exclude then s else Message(s, msg, c.id, AnswersAt(each, i));
      MessageIsQuiet(s, msg, c.id, AnswersAt(each, i));
      MarkAtKeeps(s.slots, i);
      TurnOf(s, s', msg, exclude, each, i);
      BroadcastFrom(s', msg, exclude, each, i + 1);
      TurnDone(s, s', Broadcast(s', msg, exclude, each, i + 1), msg, exclude, each, i);
    }
  }

  /** The codes seen from position i are those seen from i + 1 after the turn of client i. */
  lemma {:induction false} CodeShift(
    s: seq<Slot>, s': seq<Slot>, msg: Bytes, exclude: ClientId, ec: ErrorCode, each: seq<Answers>, i: nat, n: nat)
    requires i < n <= |s| == |s'| && forall t :: i < t < |s| ==> s'[t] == s[t]
    ensures CodeAfter(s, msg, exclude, ec, each, i, n) ==
            CodeAfter(s', msg, exclude, CodeAfter(s, msg, exclude, ec, each, i, i + 1), each, i + 1, n)
    decreases n
  {
    if n == i + 1 {
    } else {
      CodeShift(s, s', msg, exclude, ec, each, i, n - 1);
      assert Addressed(s, exclude, n - 1) <==> Addressed(s', exclude, n - 1);
    }
  }

  /** s' is s after the turn of client i. */
  ghost predicate Turned(s: State, s': State, msg: Bytes, exclude: ClientId, each: seq<Answers>, i: nat) {
    i < |s.slots| == |s'.slots| && NoNull(s.slots) &&
    s'.ec == CodeAfter(s.slots, msg, exclude, s.ec, each, i, i + 1) &&
    s'.slots == (if Addressed(s.slots, exclude, i) && s'.ec != 0 then MarkAt(s.slots, i) else s.slots) &&
    s'.sends == s.sends + SendOf(s.slots, msg, exclude, each, i) &&
    s'.flag == (s.flag || (Addressed(s.slots, exclude, i) && s'.ec != 0))
  }

  lemma {:induction false} TurnOf(s: State, s': State, msg: Bytes, exclude: ClientId, each: seq<Answers>, i: nat)
    requires NoNull(s.slots) && Pairwise(s.slots) && i < |s.slots|
    requires s' == if s.slots[i].c.id == exclude then s else Message(s, msg, s.slots[i].c.id, AnswersAt(each, i))
    ensures Turned(s, s', msg, exclude, each, i)
  {
    MessageAt(s, msg, i, AnswersAt(each, i));
    if Addressed(s.slots, exclude, i) {
      assert SendOf(s.slots, msg, exclude, each, i) ==
             [Sending(s.slots[i].c.id, msg, Wire.Send(s.slots[i].c.sock, msg, 0, AnswersAt(each, i)).wire)];
    } else {
      assert s' == s;
      assert SendOf(s.slots, msg, exclude, each, i) == [] && s.sends + [] == s.sends;
    }
  }

  lemma {:induction false} MarkShift(
    s: State, s': State, msg: Bytes, exclude: ClientId, each: seq<Answers>, i: nat, n: nat)
    requires Turned(s, s', msg, exclude, each, i) && n < |s.slots|
    ensures AfterBroadcast(s, msg, exclude, each, i, n) == AfterBroadcast(s', msg, exclude, each, i + 1, n)
  {
    if n > i {
      CodeShift(s.slots, s'.slots, msg, exclude, s.ec, each, i, n + 1);
    }
  }

  lemma {:induction false} SendsShift(
    s: seq<Slot>, s': seq<Slot>, msg: Bytes, exclude: ClientId, each: seq<Answers>, i: nat)
    requires |s| == |s'| && forall t :: i <= t < |s| ==> s'[t] == s[t]
    ensures SendsFrom(s', msg, exclude, each, i) == SendsFrom(s, msg, exclude, each, i)
    decreases |s| - i
  {
    if i >= |s| {
    } else {
      SendsShift(s, s', msg, exclude, each, i + 1);
      assert Addressed(s, exclude, i) <==> Addressed(s', exclude, i);
    }
  }

  lemma {:induction false} TurnSends(s: State, s': State, msg: Bytes, exclude: ClientId, each: seq<Answers>, i: nat)
    requires Turned(s, s', msg, exclude, each, i)
    ensures s'.sends + SendsFrom(s'.slots, msg, exclude, each, i + 1) ==
            s.sends + SendsFrom(s.slots, msg, exclude, each, i)
  {
    SendsShift(s.slots, s'.slots, msg, exclude, each, i + 1);
    var now, later := SendOf(s.slots, msg, exclude, each, i), SendsFrom(s.slots, msg, exclude, each, i + 1);
    assert s.sends + now + later == s.sends + (now + later);
  }

  lemma {:induction false} FlagShift(
    s: State, s': State, msg: Bytes, exclude: ClientId, each: seq<Answers>, i: nat, n: nat)
    requires Turned(s, s', msg, exclude, each, i) && i < n <= |s.slots|
    ensures MarksSome(s.slots, msg, exclude, s.ec, each, i, n) <==>
            (Addressed(s.slots, exclude, i) && s'.ec != 0) || MarksSome(s'.slots, msg, exclude, s'.ec, each, i + 1, n)
    decreases n
  {
    if n == i + 1 {
    } else {
      FlagShift(s, s', msg, exclude, each, i, n - 1);
      CodeShift(s.slots, s'.slots, msg, exclude, s.ec, each, i, n);
      assert Addressed(s.slots, exclude, n - 1) <==> Addressed(s'.slots, exclude, n - 1);
    }
  }

  lemma {:induction false} TurnDone(
    s: State, s': State, r: State, msg: Bytes, exclude: ClientId, each: seq<Answers>, i: nat)
    requires Turned(s, s', msg, exclude, each, i) && Done(s', r, msg, exclude, each, i + 1)
    ensures Done(s, r, msg, exclude, each, i)
  {
    assert r.ec == CodeAfter(s.slots, msg, exclude, s.ec, each, i, |s.slots|) by {
      CodeShift(s.slots, s'.slots, msg, exclude, s.ec, each, i, |s.slots|);
    }
    TurnSends(s, s', msg, exclude, each, i);
    FlagShift(s, s', msg, exclude, each, i, |s.slots|);
    forall n: nat | n < |s.slots| ensures r.slots[n] == AfterBroadcast(s, msg, exclude, each, i, n) {
      MarkShift(s, s', msg, exclude, each, i, n);
    }
  }

  /** Who is sent to: the client at n, from position i on, exactly if connected and not excluded. */
  lemma {:induction false} SentTo(s: seq<Slot>, msg: Bytes, exclude: ClientId, each: seq<Answers>, i: nat, n: nat)
    requires NoNull(s) && Pairwise(s) && n < |s|
    ensures (exists x :: x in SendsFrom(s, msg, exclude, each, i) && x.id == s[n].c.id) <==>
            n >= i && s[n].c.connected && s[n].c.id != exclude
    ensures forall x :: x in SendsFrom(s, msg, exclude, each, i) && x.id == s[n].c.id ==>
              x == Sending(s[n].c.id, msg, Wire.Send(s[n].c.sock, msg, 0, AnswersAt(each, n)).wire)
    decreases |s| - i
  {
    if i >= |s| {
    } else {
      SentTo(s, msg, exclude, each, i + 1, n);
      var now, later := SendOf(s, msg, exclude, each, i), SendsFrom(s, msg, exclude, each, i + 1);
      assert forall x :: x in now + later <==> x in now || x in later;
      if n < i { assert Apart(s[n], s[i]); }
      if n > i { assert Apart(s[i], s[n]); }
      if n == i && s[n].c.connected && s[n].c.id != exclude {
        assert now[0] in now && now[0].id == s[n].c.id;
      }
    }
  }

  // ----- a null slot -----

  /** From position i on, the loop dereferences a null pointer exactly if one lies ahead. */
  lemma {:induction false} BroadcastFaultsFrom(s: State, msg: Bytes, exclude: ClientId, each: seq<Answers>, i: nat)
    requires i <= |s.slots| && !s.pc.Fault? && forall n :: 0 <= n < i ==> s.slots[n].Own?
    ensures Broadcast(s, msg, exclude, each, i).pc.Fault? <==> !NoNull(s.slots)
    decreases |s.slots| - i
  {
    if i == |s.slots| || s.slots[i].Null? {
    } else if s.slots[i].c.id == exclude {
      BroadcastFaultsFrom(s, msg, exclude, each, i + 1);
    } else {
      var s' := Message(s, msg, s.slots[i].c.id, AnswersAt(each, i));
      FindIdBefore(s.slots, s.slots[i].c.id, i, 0);
      MessageIsQuiet(s, msg, s.slots[i].c.id, AnswersAt(each, i));
      MarksKeepSets(s.slots, s'.slots);
      assert forall n :: 0 <= n <= i ==> MarkedOnly(s.slots[n], s'.slots[n]);
      BroadcastFaultsFrom(s', msg, exclude, each, i + 1);
    }
  }

  /** A lookup that meets its client before any null slot finds one. */
  lemma {:induction false} FindIdBefore(s: seq<Slot>, id: ClientId, i: nat, from: nat)
    requires from <= i < |s| && s[i].Own? && s[i].c.id == id && forall n :: from <= n < i ==> s[n].Own?
    ensures FindId(s, id, from).Found?
    decreases i - from
  {
    if from == i || s[from].c.id == id {
    } else {
      FindIdBefore(s, id, i, from + 1);
    }
  }

  // ----- the main results -----

  lemma {:induction false} BroadcastIs(s: State, msg: Bytes, exclude: ClientId, each: seq<Answers>)
    requires NoNull(s.slots) && Pairwise(s.slots) && !s.pc.Fault?
    ensures var r := Broadcast(s, msg, exclude, each);
            Done(s, r, msg, exclude, each, 0) &&
            r == s.(slots := r.slots, flag := r.flag, ec := r.ec, sends := r.sends)
  {
    BroadcastFrom(s, msg, exclude, each, 0);
    BroadcastIsQuiet(s, msg, exclude, each, 0);
    BroadcastKeepsRunning(s, msg, exclude, each, 0);
  }

  /**
   * In every reachable state message_all_clients faults exactly if the vector holds a null slot.
   * Otherwise it calls send exactly once, in order, for each connected client that is not
   * excluded, whether or not an earlier send failed, marks exactly those after whose send the
   * shared error code is set, sets the flag if it marks somebody, and changes nothing else.
   */
  lemma {:induction false} BroadcastEffect(m: Mode, s: State, msg: Bytes, exclude: ClientId, each: seq<Answers>)
    requires Reachable(m, s) && !s.pc.Fault?
    ensures var r := Do(s, MessageAllClients(msg, exclude, each));
            (r.pc.Fault? <==> !NoNull(s.slots)) && |r.slots| == |s.slots| &&
            (NoNull(s.slots) ==>
               r == s.(slots := r.slots, flag := r.flag, ec := r.ec, sends := r.sends) &&
               r.sends == s.sends + SendsFrom(s.slots, msg, exclude, each, 0) &&
               (forall n :: 0 <= n < |s.slots| ==> r.slots[n] == AfterBroadcast(s, msg, exclude, each, 0, n)) &&
               r.ec == CodeAfter(s.slots, msg, exclude, s.ec, each, 0, |s.slots|) &&
               (r.flag <==> s.flag || MarksSome(s.slots, msg, exclude, s.ec, each, 0, |s.slots|)))
  {
    BroadcastFaultsFrom(s, msg, exclude, each, 0);
    BroadcastIsQuiet(s, msg, exclude, each, 0);
    if NoNull(s.slots) {
      assert Pairwise(s.slots) by { ReachableInv(m, s); }
      BroadcastIs(s, msg, exclude, each);
    }
  }

  /** An addressed send before position n resets the code, and no addressed one after it fails. */
  predicate ResetBefore(s: seq<Slot>, msg: Bytes, exclude: ClientId, each: seq<Answers>, n: nat) {
    exists t :: 0 <= t < n && Addressed(s, exclude, t) && Wire.SendResets(s[t].c.sock, msg, AnswersAt(each, t)) &&
      forall u :: t < u < n && Addressed(s, exclude, u) ==> !Wire.SendFails(s[u].c.sock, msg, AnswersAt(each, u))
  }

  /** How one more send decides whether an old error has been cleared. */
  lemma {:induction false} ResetStep(s: seq<Slot>, msg: Bytes, exclude: ClientId, each: seq<Answers>, n: nat)
    requires n < |s| && Returns(s, MessageAllClients(msg, exclude, each)) && Addressed(s, exclude, n)
    ensures ResetBefore(s, msg, exclude, each, n + 1) <==>
            Wire.SendResets(s[n].c.sock, msg, each[n]) ||
            (ResetBefore(s, msg, exclude, each, n) && !Wire.SendFails(s[n].c.sock, msg, each[n]))
  {
    assert AnswersAt(each, n) == each[n] && Answered(msg, each[n]);
    Wire.SendResetsIff(s[n].c.sock, msg, 1, each[n]);
    if ResetBefore(s, msg, exclude, each, n) && !Wire.SendFails(s[n].c.sock, msg, each[n]) {
      var t :| 0 <= t < n && Addressed(s, exclude, t) && Wire.SendResets(s[t].c.sock, msg, AnswersAt(each, t)) &&
        forall u :: t < u < n && Addressed(s, exclude, u) ==> !Wire.SendFails(s[u].c.sock, msg, AnswersAt(each, u));
      assert 0 <= t < n + 1;
    }
  }

  lemma {:induction false} ResetSkip(s: seq<Slot>, msg: Bytes, exclude: ClientId, each: seq<Answers>, n: nat)
    requires n < |s| && !Addressed(s, exclude, n)
    ensures ResetBefore(s, msg, exclude, each, n + 1) <==> ResetBefore(s, msg, exclude, each, n)
  {
    if ResetBefore(s, msg, exclude, each, n) {
      var t :| 0 <= t < n && Addressed(s, exclude, t) && Wire.SendResets(s[t].c.sock, msg, AnswersAt(each, t)) &&
        forall u :: t < u < n && Addressed(s, exclude, u) ==> !Wire.SendFails(s[u].c.sock, msg, AnswersAt(each, u));
      assert 0 <= t < n + 1;
    }
  }

  /** After the turns of the first n clients an old error is gone exactly if it was reset for good. */
  lemma {:induction false} CodeClearedIff(
    s: seq<Slot>, msg: Bytes, exclude: ClientId, ec: ErrorCode, each: seq<Answers>, n: nat)
    requires ec != 0 && n <= |s| && Returns(s, MessageAllClients(msg, exclude, each))
    ensures CodeAfter(s, msg, exclude, ec, each, 0, n) == 0 <==> ResetBefore(s, msg, exclude, each, n)
    decreases n
  {
    if n == 0 {
    } else {
      CodeClearedIff(s, msg, exclude, ec, each, n - 1);
      var before := CodeAfter(s, msg, exclude, ec, each, 0, n - 1);
      if Addressed(s, exclude, n - 1) {
        assert Answered(msg, each[n - 1]);
        ResetStep(s, msg, exclude, each, n - 1);
        Wire.SendResetsIff(s[n - 1].c.sock, msg, before, each[n - 1]);
      } else {
        ResetSkip(s, msg, exclude, each, n - 1);
      }
    }
  }

  /** Some send to an addressed client before position n reports an error of its own. */
  predicate FailedBefore(s: seq<Slot>, msg: Bytes, exclude: ClientId, each: seq<Answers>, n: nat) {
    exists t :: 0 <= t < n && Addressed(s, exclude, t) && Wire.SendFails(s[t].c.sock, msg, AnswersAt(each, t))
  }

  /** No send of the broadcast can reset the code. */
  predicate BroadcastCannotReset(s: seq<Slot>, msg: Bytes, each: seq<Answers>) {
    |msg| < Wire.LOOKS_FAILED || forall n :: 0 <= n < |s| ==> Wire.Below(AnswersAt(each, n), Wire.LOOKS_FAILED)
  }

  /** Then an error, once made, is there for all later clients. */
  lemma {:induction false} CodeSticks(
    s: seq<Slot>, msg: Bytes, exclude: ClientId, ec: ErrorCode, each: seq<Answers>, n: nat)
    requires BroadcastCannotReset(s, msg, each) && n <= |s| && Returns(s, MessageAllClients(msg, exclude, each))
    ensures CodeAfter(s, msg, exclude, ec, each, 0, n) != 0 <==> ec != 0 || FailedBefore(s, msg, exclude, each, n)
    decreases n
  {
    if n == 0 {
    } else {
      CodeSticks(s, msg, exclude, ec, each, n - 1);
      var before := CodeAfter(s, msg, exclude, ec, each, 0, n - 1);
      assert Answered(msg, each[n - 1]);
      if Addressed(s, exclude, n - 1) {
        Wire.SendCodeIff(s[n - 1].c.sock, msg, before, each[n - 1]);
      }
      if FailedBefore(s, msg, exclude, each, n - 1) {
        var t :| 0 <= t < n - 1 && Addressed(s, exclude, t) && Wire.SendFails(s[t].c.sock, msg, AnswersAt(each, t));
        assert 0 <= t < n;
      }
    }
  }

  /** The client at n is marked exactly if it is addressed and ec_ was set or a send up to its own failed. */
  ghost predicate MarkedFromFirstFailure(s: State, msg: Bytes, exclude: ClientId, each: seq<Answers>, n: nat)
    requires n < |s.slots|
  {
    var r := Do(s, MessageAllClients(msg, exclude, each));
    |r.slots| == |s.slots| &&
    r.slots[n] ==
    if Addressed(s.slots, exclude, n) && (s.ec != 0 || FailedBefore(s.slots, msg, exclude, each, n + 1))
    then Own(s.slots[n].c.(connected := false)) else s.slots[n]
  }

  /**
   * A broadcast none of whose sends can reset the code, because the message is below 2^32 - 1 bytes
   * or the counts are, marks exactly the addressed clients from the first failing send on, or all
   * of them if ec_ was already set: nothing clears the error in between.
   */
  lemma {:induction false} BroadcastMarksOn(
    m: Mode, s: State, msg: Bytes, exclude: ClientId, each: seq<Answers>, n: nat)
    requires Reachable(m, s) && !s.pc.Fault? && NoNull(s.slots) && n < |s.slots|
    requires BroadcastCannotReset(s.slots, msg, each) && Returns(s.slots, MessageAllClients(msg, exclude, each))
    ensures MarkedFromFirstFailure(s, msg, exclude, each, n)
  {
    BroadcastEffect(m, s, msg, exclude, each);
    CodeSticks(s.slots, msg, exclude, s.ec, each, n + 1);
  }

  /** An empty message is an error to every addressed client: the broadcast marks them all. */
  lemma {:induction false} EmptyBroadcastMarksAll(s: State, exclude: ClientId, each: seq<Answers>, n: nat)
    requires NoNull(s.slots) && Pairwise(s.slots) && !s.pc.Fault? && Addressed(s.slots, exclude, n)
    ensures |Broadcast(s, [], exclude, each).slots| == |s.slots|
    ensures IsMarked(Broadcast(s, [], exclude, each).slots[n])
  {
    BroadcastFrom(s, [], exclude, each, 0);
    assert CodeAfter(s.slots, [], exclude, s.ec, each, 0, n + 1) == 1;
  }
}
