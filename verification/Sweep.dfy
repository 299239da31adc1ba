/**
 * A whole sweep: what it does to clients, poll group, descriptors and callbacks whatever the
 * disconnect handlers do meanwhile, and exactly when std::remove_if makes it do that.
 */
module Sweep {
  import opened Types
  import opened OwningVector
  import opened Poll
  import opened Machine
  import opened Clients
  import opened Separation
  import opened Invariant
  import opened Interface
  import opened Preservation

  // ----- the effect of one sweep -----

  /** The disconnect callbacks for a run of clients, in order. */
  function Goodbyes(s: seq<Slot>): (r: seq<Event>)
    requires NoNull(s)
    ensures |r| == |s|
    ensures forall i :: 0 <= i < |s| ==> r[i] == Disconnect(s[i].c.id)
  {
    seq(|s|, i requires 0 <= i < |s| => Disconnect(s[i].c.id))
  }

  /** The sweep will meet no null slot. */
  predicate Whole(m: Mode, s: seq<Slot>) {
    NoNull(s) && (m.Intended? || MarkedSuffix(s))
  }

  lemma {:induction false} MarkedOwns(s: seq<Slot>)
    ensures NoNull(Marked(s))
  {
    forall i | 0 <= i < |Marked(s)| ensures Marked(s)[i].Own? { assert IsMarked(Marked(s)[i]); }
  }

  /** State s lies in the sweep that began in s0, with the first n marked clients disconnected. */
  ghost predicate Within(s0: State, s: State, n: nat) {
    var kept, marked := Kept(s0.slots), Marked(s0.slots);
    NoNull(marked) && n <= |marked| &&
    Sweeping(s.pc) && s.pc.k == |kept| && TodoStart(s) == |kept| + n &&
    |s.slots| == |kept| + |marked| &&
    SameButMarks(kept, s.slots[..|kept|]) && s.slots[|kept| + n..] == marked[n..] &&
    s.trace == s0.trace + Goodbyes(marked[..n]) &&
    s.kernel.server == s0.kernel.server - Socks(marked[..n])
  }

  /** The sweep that began in s0 has ended in s. */
  ghost predicate Swept(s0: State, s: State) {
    var kept, marked := Kept(s0.slots), Marked(s0.slots);
    NoNull(kept) && NoNull(marked) && s.pc.Head? &&
    SameButMarks(kept, s.slots) &&
    Fds(s.pfds) == FdSeq(kept) &&
    s.trace == s0.trace + Goodbyes(marked) &&
    s.kernel.server == s0.kernel.server - Socks(marked)
  }

  lemma {:induction false} WithinBegins(m: Mode, s0: State)
    requires s0.flag && Whole(m, s0.slots)
    ensures Within(s0, SweepBegin(m, s0), 0)
  {
    var s := SweepBegin(m, s0);
    SeparatedWhole(m, s0.slots);
    assert s.slots == Partitioned(s0.slots) && s.kernel == s0.kernel;
    MarkedOwns(s0.slots);
    assert s.slots[..|Kept(s0.slots)|] == Kept(s0.slots);
    assert s.slots[|Kept(s0.slots)|..] == Marked(s0.slots);
    assert Marked(s0.slots)[..0] == [] && Socks([]) == {};
  }

  lemma {:induction false} WithinQuiet(s0: State, s: State, s': State, n: nat)
    requires Within(s0, s, n) && Quiet(s, s') && s'.pc == s.pc
    ensures Within(s0, s', n)
  {
    var kept, marked := Kept(s0.slots), Marked(s0.slots);
    var k := |kept|;
    forall i | 0 <= i < k ensures MarkedOnly(kept[i], s'.slots[..k][i]) {
      assert MarkedOnly(kept[i], s.slots[..k][i]) && MarkedOnly(s.slots[i], s'.slots[i]);
    }
    forall i | 0 <= i < |marked| - n ensures s'.slots[k + n..][i] == marked[n..][i] {
      assert s.slots[k + n..][i] == marked[n + i] && IsMarked(marked[n + i]);
      assert MarkedOnly(s.slots[k + n + i], s'.slots[k + n + i]);
    }
  }

  /** One more marked client: its goodbye and its descriptor. */
  lemma {:induction false} OneMore(marked: seq<Slot>, n: nat)
    requires NoNull(marked) && n < |marked|
    ensures Goodbyes(marked[..n + 1]) == Goodbyes(marked[..n]) + [Disconnect(marked[n].c.id)]
    ensures Socks(marked[..n + 1]) == Socks(marked[..n]) + Socks([marked[n]])
  {
    assert marked[..n + 1] == marked[..n] + [marked[n]];
    SetsOfConcat(marked[..n], [marked[n]]);
  }

  lemma {:induction false} WithinOne(s0: State, s: State, n: nat)
    requires 0 !in s.kernel.server && Within(s0, s, n) && s.pc.SweepWalk? && n < |Marked(s0.slots)|
    ensures s.pc.j < |s.slots| && Within(s0, SweepOne(s), n + 1)
  {
    var kept, marked := Kept(s0.slots), Marked(s0.slots);
    var k, j, s' := |kept|, s.pc.j, SweepOne(s);
    assert s.slots[k + n..][0] == marked[n];
    assert s'.slots[..k] == s.slots[..k];
    assert s'.slots[k + n + 1..] == s.slots[k + n..][1..] == marked[n + 1..];
    OneMore(marked, n);
    SetsOfOne(marked[n].c);
    assert s'.kernel.server == s.kernel.server - Socks([marked[n]]);
  }

  /** The walk is over: nothing is left to close, and the poll group watches the front. */
  ghost predicate WalkOver(s: State) {
    s.pc.SweepWalk? && s.pc.k <= s.pc.j == |s.slots| && NoNull(s.slots[..s.pc.k]) &&
    Fds(s.pfds) == FdSeq(s.slots[..s.pc.k]) && ReleaseAll(s.kernel, s.slots[s.pc.k..]) == s.kernel
  }

  lemma {:induction false} WalkIsOver(s: State)
    requires Inv(s) && s.pc.SweepWalk? && s.pc.j >= |s.slots|
    ensures WalkOver(s)
  {
    SweepEndInv(s);
  }

  lemma {:induction false} WithinEnds(s0: State, s: State, n: nat)
    requires NoNull(s0.slots) && Within(s0, s, n) && WalkOver(s)
    ensures Swept(s0, SweepEnd(s))
  {
    var kept, marked, s' := Kept(s0.slots), Marked(s0.slots), SweepEnd(s);
    assert n == |marked| && marked[..n] == marked;
    KeptOwns(s0.slots);
    MarksKeepSets(kept, s'.slots);
  }

  /** Still in the sweep, perhaps one client further, or done with it. */
  ghost predicate Progress(s0: State, s: State, n: nat) {
    if Sweeping(s.pc) then NoNull(s.slots) && (Within(s0, s, n) || Within(s0, s, n + 1))
    else Swept(s0, s)
  }

  lemma {:induction false} WithinWalk(m: Mode, s0: State, s: State, n: nat)
    requires 0 !in s.kernel.server && Within(s0, s, n) && NoNull(s.slots) && s.pc.SweepWalk? && s.pc.j < |s.slots|
    ensures Progress(s0, Step(m, s, Go), n)
  {
    assert Step(m, s, Go) == SweepOne(s);
    WithinOne(s0, s, n);
    UnsockOwns(s.slots, s.pc.j);
  }

  lemma {:induction false} WithinCall(m: Mode, s0: State, s: State, n: nat, call: Call)
    requires Within(s0, s, n) && NoNull(s.slots)
    ensures Progress(s0, Step(m, s, Api(call)), n)
  {
    CallIsQuiet(s, call);
    WithinQuiet(s0, s, Do(s, call), n);
    MarksKeepSets(s.slots, Do(s, call).slots);
  }

  lemma {:induction false} WithinIdle(m: Mode, s0: State, s: State, n: nat, i: Input)
    requires Within(s0, s, n) && NoNull(s.slots) && (i.Go? ==> !s.pc.SweepWalk?) && !i.Api?
    ensures Progress(s0, Step(m, s, i), n)
  {
    var s' := Step(m, s, i);
    assert s'.slots == s.slots && s'.trace == s.trace && s'.kernel.server == s.kernel.server;
    assert Sweeping(s'.pc) && s'.pc.k == s.pc.k && TodoStart(s') == TodoStart(s);
  }

  lemma {:induction false} WithinGo(m: Mode, s0: State, s: State, n: nat)
    requires NoNull(s0.slots) && 0 !in s.kernel.server && Within(s0, s, n) && NoNull(s.slots) && s.pc.SweepWalk?
    requires s.pc.j >= |s.slots| ==> WalkOver(s)
    ensures Progress(s0, Step(m, s, Go), n)
  {
    if s.pc.j < |s.slots| {
      WithinWalk(m, s0, s, n);
    } else {
      WithinEnds(s0, s, n);
    }
  }

  /** One step inside a sweep. */
  lemma {:induction false} WithinStep(m: Mode, s0: State, s: State, n: nat, i: Input)
    requires NoNull(s0.slots) && Inv(s) && Within(s0, s, n) && NoNull(s.slots)
    ensures Progress(s0, Step(m, s, i), n)
  {
    if i.Go? && s.pc.SweepWalk? {
      if s.pc.j >= |s.slots| { WalkIsOver(s); }
      WithinGo(m, s0, s, n);
    } else if i.Api? {
      WithinCall(m, s0, s, n, i.call);
    } else {
      WithinIdle(m, s0, s, n, i);
    }
  }

  /** The run never leaves the sweep it starts in. */
  ghost predicate Throughout(m: Mode, s: State, inputs: seq<Input>) {
    Sweeping(Run(m, s, inputs).pc) && (inputs == [] || Throughout(m, s, inputs[..|inputs| - 1]))
  }

  lemma {:induction false} WithinRun(m: Mode, s0: State, inputs: seq<Input>) returns (n: nat)
    requires Inv(s0) && s0.pc.SweepTest? && s0.flag && Whole(m, s0.slots)
    requires Throughout(m, SweepBegin(m, s0), inputs)
    ensures Within(s0, Run(m, SweepBegin(m, s0), inputs), n)
    ensures NoNull(Run(m, SweepBegin(m, s0), inputs).slots)
    ensures Inv(Run(m, SweepBegin(m, s0), inputs))
  {
    if inputs == [] {
      SweepBeginInv(m, s0);
      WithinBegins(m, s0);
      SeparatedWhole(m, s0.slots);
      n := 0;
    } else {
      var prefix, i := inputs[..|inputs| - 1], inputs[|inputs| - 1];
      n := WithinRun(m, s0, prefix);
      var s := Run(m, SweepBegin(m, s0), prefix);
      assert Inv(Step(m, s, i)) by { StepInv(m, s, i); }
      WithinStep(m, s0, s, n, i);
      if !Within(s0, Step(m, s, i), n) { n := n + 1; }
    }
  }

  /**
   * Whatever calls the disconnect handlers and other threads make during a sweep, when it ends
   * the vector holds exactly the clients kept at its start, in order and differing only by new
   * marks; the poll group watches exactly them; each marked client got one Disconnect, in order,
   * and no other callback was made; and exactly the marked clients' descriptors were closed.
   */
  lemma {:induction false} SweepEffect(m: Mode, s0: State, inputs: seq<Input>, last: Input)
    requires Reachable(m, s0) && s0.pc.SweepTest? && s0.flag && Whole(m, s0.slots)
    requires Throughout(m, SweepBegin(m, s0), inputs)
    requires Run(m, SweepBegin(m, s0), inputs + [last]).pc.Head?
    ensures Swept(s0, Run(m, SweepBegin(m, s0), inputs + [last]))
  {
    assert Inv(s0) by { ReachableInv(m, s0); }
    WholeSweep(m, s0, inputs, last);
  }

  lemma {:induction false} WholeSweep(m: Mode, s0: State, inputs: seq<Input>, last: Input)
    requires Inv(s0) && s0.pc.SweepTest? && s0.flag && Whole(m, s0.slots)
    requires Throughout(m, SweepBegin(m, s0), inputs)
    requires Run(m, SweepBegin(m, s0), inputs + [last]).pc.Head?
    ensures Swept(s0, Run(m, SweepBegin(m, s0), inputs + [last]))
  {
    var n := WithinRun(m, s0, inputs);
    WithinStep(m, s0, Run(m, SweepBegin(m, s0), inputs), n, last);
    assert (inputs + [last])[..|inputs|] == inputs;
  }

  /** A client marked before a sweep is gone after it: out of the vector, and told so once. */
  lemma {:induction false} MarkedAreRemoved(m: Mode, s0: State, s: State, i: nat)
    requires Inv(s0) && s0.pc.SweepTest? && Swept(s0, s) && i < |s0.slots| && IsMarked(s0.slots[i])
    ensures s0.flag
    ensures s0.slots[i].c.id !in IdSet(s.slots)
    ensures Disconnect(s0.slots[i].c.id) in s.trace[|s0.trace|..]
  {
    var kept, marked, x := Kept(s0.slots), Marked(s0.slots), s0.slots[i];
    FilterMembers(s0.slots, x);
    MarksKeepSets(kept, s.slots);
    if x.c.id in IdSet(kept) {
      var y :| y in kept && y.Own? && y.c.id == x.c.id;
      FilterMembers(s0.slots, y);
      MembersApart(s0.slots, x, y);
    }
    var n :| 0 <= n < |marked| && marked[n] == x;
    assert s.trace[|s0.trace|..] == Goodbyes(marked);
    assert Goodbyes(marked)[n] == Disconnect(x.c.id);
  }

  // ----- when remove_if makes the sweep the intended one -----

  /** A null slot lies ahead of the walk. */
  predicate Doomed(s: State) {
    Sweeping(s.pc) && exists i :: TodoStart(s) <= i < |s.slots| && 0 <= i && s.slots[i].Null?
  }

  lemma {:induction false} RestOwns(m: Mode, s: State)
    requires Inv(s) && s.pc.SweepTest?
    ensures NoNull(s.slots)
  {
  }

  lemma {:induction false} BeginAgrees(s: State)
    requires NoNull(s.slots) && s.pc.SweepTest? && s.flag && MarkedSuffix(s.slots)
    ensures SweepBegin(AsWritten, s) == SweepBegin(Intended, s)
    ensures NoNull(SweepBegin(AsWritten, s).slots)
  {
    RemoveIfIsPartitionIff(s.slots);
  }

  lemma {:induction false} BeginDoomed(s: State)
    requires NoNull(s.slots) && s.pc.SweepTest? && s.flag && !MarkedSuffix(s.slots)
    ensures SweepBegin(AsWritten, s) != SweepBegin(Intended, s)
    ensures Doomed(SweepBegin(AsWritten, s))
  {
    RemoveIfIsPartitionIff(s.slots);
    var j := NonSuffixHole(s.slots);
    assert SweepBegin(AsWritten, s).slots[j].Null?;
  }

  /** One sweep begins alike in both modes exactly when the marked clients are a suffix. */
  lemma {:induction false} SweepAgreesIff(s: State)
    requires Reachable(AsWritten, s) && s.pc.SweepTest? && s.flag
    ensures SweepBegin(AsWritten, s) == SweepBegin(Intended, s) <==> MarkedSuffix(s.slots)
    ensures Doomed(SweepBegin(AsWritten, s)) <==> !MarkedSuffix(s.slots)
  {
    assert NoNull(s.slots) by {
      ReachableInv(AsWritten, s);
      RestOwns(AsWritten, s);
    }
    if MarkedSuffix(s.slots) {
      BeginAgrees(s);
      DoomedNotSane(SweepBegin(AsWritten, s));
    } else {
      BeginDoomed(s);
    }
  }

  /** Every sweep of the run under std::remove_if begins with the marked clients as a suffix. */
  ghost predicate CleanSweeps(s: State, inputs: seq<Input>) {
    inputs == [] ||
    (var before := Run(AsWritten, s, inputs[..|inputs| - 1]);
     CleanSweeps(s, inputs[..|inputs| - 1]) &&
     (before.pc.SweepTest? && before.flag && inputs[|inputs| - 1].Go? ==> MarkedSuffix(before.slots)))
  }

  lemma {:induction false} StepsAgree(s: State, i: Input)
    requires s.pc.SweepTest? && s.flag && i.Go? ==> NoNull(s.slots) && MarkedSuffix(s.slots)
    ensures Step(AsWritten, s, i) == Step(Intended, s, i)
  {
    if s.pc.SweepTest? && s.flag && i.Go? { BeginAgrees(s); }
  }

  /** While sweeps are clean, the server behaves as if it used the stable partition. */
  lemma {:induction false} RunsAgree(s: State, inputs: seq<Input>)
    requires Inv(s) && CleanSweeps(s, inputs)
    ensures Run(AsWritten, s, inputs) == Run(Intended, s, inputs)
  {
    if inputs == [] {
    } else {
      var prefix, i := inputs[..|inputs| - 1], inputs[|inputs| - 1];
      RunsAgree(s, prefix);
      var before := Run(AsWritten, s, prefix);
      assert before.pc.SweepTest? ==> NoNull(before.slots) by {
        RunInv(AsWritten, s, prefix);
        if before.pc.SweepTest? { RestOwns(AsWritten, before); }
      }
      StepsAgree(before, i);
    }
  }

  ghost predicate Sane(s: State) {
    !s.pc.Fault? && NoNull(s.slots)
  }

  lemma {:induction false} SaneRemove(s: State, id: ClientId)
    requires Sane(s)
    ensures Sane(Remove(s, id)) && Remove(s, id).pc == s.pc
  {
  }

  lemma {:induction false} SaneCall(s: State, call: Call)
    requires Sane(s)
    ensures Sane(Do(s, call))
  {
    CallIsQuiet(s, call);
    MarksKeepSets(s.slots, Do(s, call).slots);
  }

  lemma {:induction false} SaneRead(s: State)
    requires Sane(s) && s.pc.ReadEvent? && s.pc.i < |s.pc.events|
    ensures Sane(ReadSilently(s))
  {
    var r := FindFd(s.slots, s.pc.events[s.pc.i].fd);
    if r.Found? { SaneRemove(s, s.slots[r.i].c.id); }
  }

  lemma {:induction false} SaneReceive(s: State, i: nat, r: Recv)
    requires Sane(s) && s.pc.ReadEvent? && i < |s.slots|
    ensures Sane(Receive(s, i, r))
  {
    assert Sane(Heard(s, i, r)) by { UnsockOwns(s.slots, i); }
    SaneRemove(Heard(s, i, r), s.slots[i].c.id);
  }

  lemma {:induction false} SaneBegin(m: Mode, s: State)
    requires Sane(s) && (m.Intended? || (s.flag ==> MarkedSuffix(s.slots)))
    ensures Sane(SweepBegin(m, s))
  {
    if s.flag { SeparatedWhole(m, s.slots); }
  }

  /** A step keeps the vector free of null slots unless it is the start of an unclean sweep. */
  lemma {:induction false} SaneStep(m: Mode, s: State, i: Input)
    requires Sane(s)
    requires m.Intended? || (s.pc.SweepTest? && s.flag && i.Go? ==> MarkedSuffix(s.slots))
    ensures Sane(Step(m, s, i))
  {
    if Enabled(s, i) {
      match i
      case Api(call) => SaneCall(s, call);
      case Received(r) => SaneReceive(s, FindFd(s.slots, s.pc.events[s.pc.i].fd).i, r);
      case Go =>
        if s.pc.SweepTest? { SaneBegin(m, s); }
        if s.pc.ReadEvent? { SaneRead(s); }
      case _ =>
    }
  }

  /** The intended sweep never faults, in any run. */
  lemma {:induction false} IntendedNeverFaults(foreign: set<Fd>, inputs: seq<Input>)
    ensures Sane(Run(Intended, Initial(foreign), inputs))
  {
    if inputs == [] {
    } else {
      var prefix := inputs[..|inputs| - 1];
      IntendedNeverFaults(foreign, prefix);
      SaneStep(Intended, Run(Intended, Initial(foreign), prefix), inputs[|inputs| - 1]);
    }
  }

  // ----- an unclean sweep faults -----

  lemma {:induction false} DoomedStep(m: Mode, s: State, i: Input)
    requires Doomed(s)
    ensures var s' := Step(m, s, i);
            s'.pc.Fault? || (Doomed(s') && |s'.slots| == |s.slots| && TodoStart(s') == TodoStart(s)) ||
            (Doomed(s') && |s'.slots| == |s.slots| && TodoStart(s') == TodoStart(s) + 1)
  {
    var n :| TodoStart(s) <= n < |s.slots| && 0 <= n && s.slots[n].Null?;
    var s' := Step(m, s, i);
    if Enabled(s, i) && i.Api? {
      CallIsQuiet(s, i.call);
      assert MarkedOnly(s.slots[n], s'.slots[n]);
    }
    assert s'.pc.Fault? || s'.slots[n].Null?;
  }

  /** Once a sweep is doomed the server never gets back to its loop: it stays there or faults. */
  lemma {:induction false} DoomedForever(m: Mode, s: State, inputs: seq<Input>)
    requires s.pc.Fault? || Doomed(s)
    ensures Run(m, s, inputs).pc.Fault? || Doomed(Run(m, s, inputs))
  {
    if inputs == [] {
    } else {
      var prefix := inputs[..|inputs| - 1];
      DoomedForever(m, s, prefix);
      if Doomed(Run(m, s, prefix)) { DoomedStep(m, Run(m, s, prefix), inputs[|inputs| - 1]); }
    }
  }

  /** Steps of the network thread itself, as opposed to calls, peers and foreign descriptors. */
  predicate ThreadInput(i: Input) {
    !i.Api? && !ByOthers(i)
  }

  function ThreadSteps(m: Mode, s: State, inputs: seq<Input>): nat {
    if inputs == [] then 0
    else
      ThreadSteps(m, s, inputs[..|inputs| - 1]) +
      (if ThreadInput(inputs[|inputs| - 1]) && Enabled(Run(m, s, inputs[..|inputs| - 1]), inputs[|inputs| - 1])
       then 1 else 0)
  }

  /** Thread steps left before a doomed walk must have met a null slot. */
  function Fuse(s: State): nat
    requires Doomed(s)
  {
    2 * (|s.slots| - TodoStart(s)) + if s.pc.DisconnectHandler? then 1 else 0
  }

  lemma {:induction false} FuseBurns(m: Mode, s: State, i: Input)
    requires Doomed(s)
    ensures var s' := Step(m, s, i);
            s'.pc.Fault? || (Doomed(s') && Fuse(s') + (if ThreadInput(i) && Enabled(s, i) then 1 else 0) <= Fuse(s))
  {
    DoomedStep(m, s, i);
    if Enabled(s, i) && i.Api? { CallIsQuiet(s, i.call); }
  }

  /** An unclean sweep faults after a bounded number of the thread's own steps. */
  lemma {:induction false} DoomedFaults(m: Mode, s: State, inputs: seq<Input>)
    requires Doomed(s)
    ensures var s' := Run(m, s, inputs);
            s'.pc.Fault? || (Doomed(s') && Fuse(s') + ThreadSteps(m, s, inputs) <= Fuse(s))
    ensures ThreadSteps(m, s, inputs) >= Fuse(s) - 1 ==> Run(m, s, inputs).pc.Fault?
  {
    if inputs == [] {
    } else {
      var prefix := inputs[..|inputs| - 1];
      DoomedFaults(m, s, prefix);
      var before := Run(m, s, prefix);
      if Doomed(before) { FuseBurns(m, before, inputs[|inputs| - 1]); }
    }
  }

  /**
   * A run of the server as written is in order exactly when every sweep so far began with the
   * marked clients as a suffix; otherwise it has faulted or is inside the sweep that will.
   */
  lemma {:induction false} FaultIff(foreign: set<Fd>, inputs: seq<Input>)
    ensures CleanSweeps(Initial(foreign), inputs) <==> Sane(Run(AsWritten, Initial(foreign), inputs))
    ensures !CleanSweeps(Initial(foreign), inputs) ==>
              Run(AsWritten, Initial(foreign), inputs).pc.Fault? || Doomed(Run(AsWritten, Initial(foreign), inputs))
  {
    if inputs == [] {
    } else {
      var prefix, i := inputs[..|inputs| - 1], inputs[|inputs| - 1];
      var s0 := Initial(foreign);
      FaultIff(foreign, prefix);
      var before := Run(AsWritten, s0, prefix);
      if !CleanSweeps(s0, prefix) {
        UnsaneStep(before, i);
      } else {
        CleanStep(before, i);
      }
    }
  }

  lemma {:induction false} CleanStep(s: State, i: Input)
    requires Sane(s)
    ensures if s.pc.SweepTest? && s.flag && i.Go? && !MarkedSuffix(s.slots)
            then Doomed(Step(AsWritten, s, i)) && !Sane(Step(AsWritten, s, i))
            else Sane(Step(AsWritten, s, i))
  {
    if s.pc.SweepTest? && s.flag && i.Go? && !MarkedSuffix(s.slots) {
      BeginDoomed(s);
      DoomedNotSane(SweepBegin(AsWritten, s));
    } else {
      SaneStep(AsWritten, s, i);
    }
  }

  lemma {:induction false} UnsaneStep(s: State, i: Input)
    requires s.pc.Fault? || Doomed(s)
    ensures Step(AsWritten, s, i).pc.Fault? || Doomed(Step(AsWritten, s, i))
    ensures !Sane(Step(AsWritten, s, i))
  {
    if Doomed(s) { DoomedStep(AsWritten, s, i); }
    DoomedNotSane(Step(AsWritten, s, i));
  }

  lemma {:induction false} DoomedNotSane(s: State)
    ensures s.pc.Fault? || Doomed(s) ==> !Sane(s)
  {
  }
}
