/** What can still happen after stop(): how many callbacks, how many sweeps, how many steps. */
module Stopping {
  import opened Types
  import opened OwningVector
  import opened Poll
  import opened Machine
  import opened Invariant
  import opened Interface
  import opened Preservation
  import opened Errors
  import opened Sweep

  /** The thread has set running_ (a stop before that is overwritten). */
  predicate Begun(s: State) {
    !s.pc.Starting?
  }

  /** Connect or Data callbacks the thread may still make: it has passed its running_ test. */
  function CallbacksLeft(pc: PC): nat {
    if pc.AcceptAsk? || pc.AcceptCall? || pc.ReadEvent? then 1 else 0
  }

  lemma {:induction false} QuietCallbacks(s: State, s': State)
    requires Quiet(s, s')
    ensures CallbacksLeft(s'.pc) <= CallbacksLeft(s.pc) && s'.trace == s.trace
  {
  }

  lemma {:induction false} DropCallbacks(s: State, id: ClientId)
    requires s.pc.ReadEvent?
    ensures Drop(s, id).trace == s.trace && Drop(s, id).running == s.running && CallbacksLeft(Drop(s, id).pc) == 0
    ensures !Drop(s, id).pc.Starting?
  {
  }

  lemma {:induction false} ReceiveCallbacks(s: State, i: nat, r: Recv)
    requires s.pc.ReadEvent? && i < |s.slots| && s.slots[i].Own?
    ensures |Deliveries(Receive(s, i, r).trace)| + CallbacksLeft(Receive(s, i, r).pc) <= |Deliveries(s.trace)| + 1
    ensures Receive(s, i, r).running == s.running && !Receive(s, i, r).pc.Starting?
  {
    var s', c := Heard(s, i, r), s.slots[i].c;
    assert s'.pc == s.pc && s'.trace == s.trace && s'.running == s.running;
    if Receive(s, i, r) == Drop(s', c.id) {
      DropCallbacks(s', c.id);
    } else {
      DeliveriesAfter(s.trace, Data(c.id, r.bytes));
    }
  }

  lemma {:induction false} AcceptCallbacks(s: State, fd: Fd)
    requires s.pc.AcceptCall? && s.nextId > 0
    ensures |Deliveries(AcceptOk(s, fd).trace)| <= |Deliveries(s.trace)| + 1
  {
    DeliveriesAfter(s.trace, Connect(s.pc.newId));
  }

  lemma {:induction false} GoCallbacks(m: Mode, s: State)
    requires !s.running && Begun(s) && Enabled(s, Go)
    ensures var s' := Next(m, s, Go);
            !s'.running && Begun(s') && CallbacksLeft(s'.pc) == 0 && Deliveries(s'.trace) == Deliveries(s.trace)
  {
    GoShrinks(m, s);
  }

  lemma {:induction false} StoppedStep(m: Mode, s: State, i: Input)
    requires !s.running && Begun(s)
    ensures !Step(m, s, i).running && Begun(Step(m, s, i))
    ensures |Deliveries(Step(m, s, i).trace)| + CallbacksLeft(Step(m, s, i).pc)
            <= |Deliveries(s.trace)| + CallbacksLeft(s.pc)
  {
    if Enabled(s, i) {
      match i
      case Api(call) => CallIsQuiet(s, call); QuietCallbacks(s, Do(s, call));
      case Received(r) => ReceiveCallbacks(s, FindFd(s.slots, s.pc.events[s.pc.i].fd).i, r);
      case Accepted(fd) => AcceptCallbacks(s, fd);
      case Go => GoCallbacks(m, s);
      case _ =>
    }
  }

  /**
   * After a stop, whenever it comes and whoever calls it, at most one more Connect or Data
   * callback is made, and none if the thread is inside a handler or past its last test.
   */
  lemma {:induction false} StopBoundsCallbacks(m: Mode, s: State, inputs: seq<Input>)
    requires !s.running && Begun(s)
    ensures !Run(m, s, inputs).running && Begun(Run(m, s, inputs))
    ensures |Deliveries(Run(m, s, inputs).trace)| + CallbacksLeft(Run(m, s, inputs).pc)
            <= |Deliveries(s.trace)| + CallbacksLeft(s.pc)
  {
    if inputs == [] {
    } else {
      var prefix := inputs[..|inputs| - 1];
      StopBoundsCallbacks(m, s, prefix);
      StoppedStep(m, Run(m, s, prefix), inputs[|inputs| - 1]);
    }
  }

  /** A stop made now is obeyed for good: running_ is never set again. */
  ghost predicate StopIsObeyed(m: Mode, s: State) {
    forall inputs :: !Run(m, Step(m, s, Api(Stop)), inputs).running
  }

  /** A stop made before the thread has set running_ is overwritten by the thread's first step. */
  lemma {:induction false} EarlyStopIsLost(m: Mode, s: State)
    requires s.pc.Starting?
    ensures Run(m, Step(m, s, Api(Stop)), [Go]).running
  {
    var s' := Step(m, s, Api(Stop));
    assert [Go][..0] == [] && Run(m, s', []) == s';
  }

  /** A stop is obeyed exactly if the thread has set running_ before, whenever and by whom it is made. */
  lemma {:induction false} StopIsObeyedIff(m: Mode, s: State)
    requires !s.pc.Fault? && !s.pc.Destroyed?
    ensures StopIsObeyed(m, s) <==> Begun(s)
  {
    var s' := Step(m, s, Api(Stop));
    if Begun(s) {
      forall inputs ensures !Run(m, s', inputs).running { StopBoundsCallbacks(m, s', inputs); }
    } else {
      EarlyStopIsLost(m, s);
    }
  }

  // ----- sweeps -----

  function SweepsLeft(pc: PC): nat {
    if pc.AcceptTest? || pc.AcceptAsk? || pc.AcceptCall? || pc.ConnectHandler? || pc.PollCall? ||
       Reading(pc) || pc.SweepTest? then 1 else 0
  }

  /** Sweeps begun during a run. */
  function Sweeps(m: Mode, s: State, inputs: seq<Input>): nat {
    if inputs == [] then 0
    else
      Sweeps(m, s, inputs[..|inputs| - 1]) +
      if Run(m, s, inputs[..|inputs| - 1]).pc.SweepTest? && inputs[|inputs| - 1].Go? then 1 else 0
  }

  lemma {:induction false} StoppedSweepStep(m: Mode, s: State, i: Input)
    requires !s.running && Begun(s)
    ensures SweepsLeft(Step(m, s, i).pc) + (if s.pc.SweepTest? && i.Go? then 1 else 0) <= SweepsLeft(s.pc)
  {
    if Enabled(s, i) && i.Api? { CallIsQuiet(s, i.call); }
  }

  /** After a stop at most one more sweep begins. */
  lemma {:induction false} StopBoundsSweeps(m: Mode, s: State, inputs: seq<Input>)
    requires !s.running && Begun(s)
    ensures SweepsLeft(Run(m, s, inputs).pc) + Sweeps(m, s, inputs) <= SweepsLeft(s.pc) <= 1
  {
    if inputs == [] {
    } else {
      var prefix := inputs[..|inputs| - 1];
      StopBoundsSweeps(m, s, prefix);
      StopBoundsCallbacks(m, s, prefix);
      StoppedSweepStep(m, Run(m, s, prefix), inputs[|inputs| - 1]);
    }
  }

  // ----- the thread ends -----

  /** A bound on the thread's own steps from a stopped state to the end of the server. */
  function StepsLeft(s: State): int {
    var n := 2 * |s.slots|;
    match s.pc
    case Starting => 0
    case Opening => 3
    case Head => 2
    case AcceptAsk => n + 12
    case AcceptCall(_) => n + 11
    case ConnectHandler => n + 8
    case AcceptTest => n + 7
    case PollCall => n + 6
    case ReadEvent(_, _) => n + 7
    case DataHandler(_, _) => n + 6
    case ReadTest(_, _) => n + 5
    case SweepTest => n + 4
    case SweepWalk(_, j) => n - 2 * j + 3
    case DisconnectHandler(_, j) => n - 2 * j + 2
    case Exited => 1
    case Destroyed => 0
    case Fault => 0
  }

  /** The walk of a sweep stays inside the vector. */
  predicate InRange(s: State) {
    Sweeping(s.pc) ==> TodoStart(s) <= |s.slots|
  }

  lemma {:induction false} AlwaysInRange(s: State)
    requires Inv(s)
    ensures InRange(s) && StepsLeft(s) >= 0
  {
  }

  lemma {:induction false} ReceiveSize(s: State, i: nat, r: Recv)
    requires s.pc.ReadEvent? && i < |s.slots| && s.slots[i].Own?
    ensures |Receive(s, i, r).slots| == |s.slots|
    ensures Receive(s, i, r).pc.Fault? || Receive(s, i, r).pc.ReadTest? || Receive(s, i, r).pc.DataHandler?
  {
  }

  lemma {:induction false} GoSteps(m: Mode, s: State)
    requires InRange(s) && !s.running && Begun(s) && Enabled(s, Go)
    ensures Next(m, s, Go).pc.Fault? || StepsLeft(Next(m, s, Go)) < StepsLeft(s)
    ensures StepsLeft(s) > 0
  {
    match s.pc
    case SweepTest => SweepSize(m, s);
    case ReadEvent(_, _) => SilentSize(s);
    case _ =>
  }

  lemma {:induction false} SilentSize(s: State)
    requires s.pc.ReadEvent? && s.pc.i < |s.pc.events|
    ensures |ReadSilently(s).slots| == |s.slots|
    ensures ReadSilently(s).pc.Fault? || ReadSilently(s).pc.ReadTest?
  {
  }

  lemma {:induction false} SweepSize(m: Mode, s: State)
    ensures |SweepBegin(m, s).slots| == |s.slots|
  {
    SplitLengths(s.slots);
  }

  lemma {:induction false} StoppedThreadStep(m: Mode, s: State, i: Input)
    requires InRange(s) && !s.running && Begun(s) && Enabled(s, i) && ThreadInput(i)
    ensures StepsLeft(Step(m, s, i)) < StepsLeft(s)
  {
    if i.Go? {
      GoSteps(m, s);
    } else if i.Received? {
      ReceiveSize(s, FindFd(s.slots, s.pc.events[s.pc.i].fd).i, i.r);
    } else {
      AnswerSteps(m, s, i);
    }
  }

  lemma {:induction false} AnswerSteps(m: Mode, s: State, i: Input)
    requires InRange(s) && !s.running && Enabled(s, i) && ThreadInput(i) && !i.Go? && !i.Received?
    ensures StepsLeft(Next(m, s, i)) < StepsLeft(s)
  {
  }

  lemma {:induction false} StoppedOtherStep(m: Mode, s: State, i: Input)
    requires InRange(s) && !(Enabled(s, i) && ThreadInput(i))
    ensures StepsLeft(Step(m, s, i)) <= StepsLeft(s)
  {
    if Enabled(s, i) && i.Api? { StoppedCall(s, i.call); }
  }

  lemma {:induction false} StoppedCall(s: State, call: Call)
    requires InRange(s)
    ensures StepsLeft(Do(s, call)) <= StepsLeft(s)
  {
    CallIsQuiet(s, call);
  }

  /** After a stop the thread takes a bounded number of steps of its own, whatever callers do. */
  lemma {:induction false} StopTerminates(m: Mode, s: State, inputs: seq<Input>)
    requires Inv(s) && !s.running && Begun(s)
    ensures StepsLeft(Run(m, s, inputs)) + ThreadSteps(m, s, inputs) <= StepsLeft(s)
    ensures ThreadSteps(m, s, inputs) <= StepsLeft(s)
  {
    if inputs == [] {
    } else {
      var prefix, i := inputs[..|inputs| - 1], inputs[|inputs| - 1];
      StopTerminates(m, s, prefix);
      StopBoundsCallbacks(m, s, prefix);
      var before := Run(m, s, prefix);
      assert InRange(before) by { RunInv(m, s, prefix); AlwaysInRange(before); }
      if Enabled(before, i) && ThreadInput(i) {
        StoppedThreadStep(m, before, i);
      } else {
        StoppedOtherStep(m, before, i);
      }
    }
    RunInv(m, s, inputs);
    AlwaysInRange(Run(m, s, inputs));
  }

  /** An answer the thread is waiting for; opening the acceptor is the caller's business. */
  function SomeAnswer(s: State): Input {
    match s.pc
    case AcceptAsk => Pending(false)
    case AcceptCall(_) => AcceptFailed(1)
    case PollCall => Polled(PollFailed)
    case ReadEvent(_, i) => if i < |s.pc.events| && NoReceive(s) then Go else Received(RecvError(1))
    case ConnectHandler => Return
    case DataHandler(_, _) => Return
    case DisconnectHandler(_, _) => Return
    case Exited => Destroy
    case _ => Go
  }

  /** The thread is never stuck: some answer of kernel or handler lets it move on. */
  lemma {:induction false} ThreadCanMove(s: State)
    requires Inv(s) && !s.pc.Fault? && !s.pc.Destroyed? && !s.pc.Opening?
    ensures ThreadInput(SomeAnswer(s)) && Enabled(s, SomeAnswer(s))
  {
    if s.pc.ReadEvent? { EventResolves(s); }
  }
}
