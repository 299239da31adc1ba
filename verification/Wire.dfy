/**
 * Bytes: the send loop with its 32-bit narrowing, recv with and without peek, and the byte
 * stream between two connections for every way the kernel may split the traffic.
 */
module Wire {
  import opened Types

  const TWO_31 := 0x8000_0000
  const TWO_32 := 0x1_0000_0000
  const TWO_63 := 0x8000_0000_0000_0000
  const TWO_64 := 0x1_0000_0000_0000_0000

  /** ssize_t to int, as the assignment to `int send_result` converts it: reduction modulo 2^32. */
  function ToInt(n: int): (r: int)
    requires n >= -TWO_31
    ensures -TWO_31 <= r < TWO_31 && r <= n
    decreases n + TWO_31
  {
    if n < TWO_31 then n else ToInt(n - TWO_32)
  }

  lemma {:induction false} ToIntIsModular(n: int)
    requires n >= -TWO_31
    ensures (n - ToInt(n)) % TWO_32 == 0
    decreases n + TWO_31
  {
    if n >= TWO_31 {
      ToIntIsModular(n - TWO_32);
    }
  }

  /** size_t += int: addition modulo 2^64. */
  function AddSize(count: nat, n: int): nat
    requires count < TWO_64 && -TWO_31 <= n < TWO_31
  {
    if count + n < 0 then count + n + TWO_64 else if count + n >= TWO_64 then count + n - TWO_64 else count + n
  }

  lemma AddSizeIsModular(count: nat, n: int)
    requires count < TWO_64 && -TWO_31 <= n < TWO_31
    ensures AddSize(count, n) == (count + n) % TWO_64
  {
  }

  /** A system call's return value and the errno a caller would read afterwards. */
  datatype Answer = Answer(result: int, errno: ErrorCode)

  /** What ::send or ::recv does of what it is asked: fail, or move between 1 byte and all. */
  function Granted(result: int, room: nat): (n: int)
    ensures n == -1 || 0 <= n <= room
    ensures room > 0 && result >= 0 ==> 1 <= n
  {
    if result < 0 then -1 else if result > room then room else if result == 0 && room > 0 then 1 else result
  }

  /** wire: bytes handed to the kernel; ended: the call has returned; ec: the caller's code then. */
  datatype Sent = Sent(wire: Bytes, ended: bool, ec: ErrorCode)

  /**
   * The loop of connection::send from a given count, with `wire` already handed over and the
   * next system call getting the i-th answer; it blocks when the answers run out.
   */
  function SendLoop(data: Bytes, count: nat, wire: Bytes, ec: ErrorCode, answers: seq<Answer>, i: nat): (r: Sent)
    requires count < TWO_64
    decreases |answers| - i
  {
    if count >= |data| then Sent(wire, true, ec)
    else if i >= |answers| then Sent(wire, false, ec)
    else
      var n := Granted(answers[i].result, |data| - count);
      if n == -1 then Sent(wire, true, answers[i].errno)
      else
        var handed := wire + data[count..count + n];
        if ToInt(n) == -1 then Sent(handed, true, answers[i].errno)
        else SendLoop(data, AddSize(count, ToInt(n)), handed, ec, answers, i + 1)
  }

  function Send(sock: Fd, data: Bytes, ec: ErrorCode, answers: seq<Answer>): Sent {
    if sock == 0 || data == [] then Sent([], true, 1) else SendLoop(data, 0, [], ec, answers, 0)
  }

  /** The while loop of connection::send; each turn is one ::send. */
  method RunSendLoop(data: Bytes, ec: ErrorCode, answers: seq<Answer>) returns (r: Sent)
    ensures r == SendLoop(data, 0, [], ec, answers, 0)
  {
    var count: nat, i: nat, wire: Bytes := 0, 0, [];
    while count < |data|
      invariant i <= |answers| && count < TWO_64
      invariant SendLoop(data, 0, [], ec, answers, 0) == SendLoop(data, count, wire, ec, answers, i)
      decreases |answers| - i
    {
      if i == |answers| { return Sent(wire, false, ec); }
      var n := Granted(answers[i].result, |data| - count);
      if n == -1 { return Sent(wire, true, answers[i].errno); }
      wire := wire + data[count..count + n];
      var sendResult := ToInt(n);
      if sendResult == -1 { return Sent(wire, true, answers[i].errno); }
      count := AddSize(count, sendResult);
      i := i + 1;
    }
    r := Sent(wire, true, ec);
  }

  /** Some call failed with this errno. */
  predicate FailedWith(answers: seq<Answer>, errno: ErrorCode) {
    exists i :: 0 <= i < |answers| && answers[i].result < 0 && answers[i].errno == errno
  }

  lemma NarrowingIsExact(count: nat, n: nat)
    requires n < TWO_31 && count + n < TWO_64
    ensures ToInt(n) == n && AddSize(count, ToInt(n)) == count + n
  {
  }

  lemma NarrowingWraps()
    ensures ToInt(TWO_31) == -TWO_31 && AddSize(0, ToInt(TWO_31)) == TWO_64 - TWO_31
  {
  }

  /** Every answer is a count below the limit. */
  predicate Below(answers: seq<Answer>, limit: nat) {
    forall i :: 0 <= i < |answers| ==> answers[i].result < limit
  }

  /** The narrowing does no harm: every count fits int, or the buffer has at most 2^31 bytes. */
  predicate CountsFit(data: Bytes, answers: seq<Answer>) {
    |data| <= TWO_31 || (|data| < TWO_64 && Below(answers, TWO_31))
  }

  /** One turn of the loop when the counts fit. */
  lemma {:induction false} SendLoopTurn(data: Bytes, count: nat, ec: ErrorCode, answers: seq<Answer>, i: nat)
    requires count < |data| && CountsFit(data, answers) && i < |answers| && answers[i].result >= 0
    ensures var n := Granted(answers[i].result, |data| - count);
            1 <= n <= |data| - count &&
            SendLoop(data, count, data[..count], ec, answers, i) ==
            SendLoop(data, count + n, data[..count + n], ec, answers, i + 1)
  {
    var n := Granted(answers[i].result, |data| - count);
    assert data[..count] + data[count..count + n] == data[..count + n];
    if n < TWO_31 {
      NarrowingIsExact(count, n);
    } else {
      NarrowingWraps();
      assert SendLoop(data, TWO_64 - TWO_31, data, ec, answers, i + 1) == Sent(data, true, ec);
      assert data[..count + n] == data;
    }
  }

  /**
   * What was handed over is a prefix of the data; all of it means that the call ended and left ec
   * alone; ending with less means a system call failed and ec holds its errno.
   */
  predicate HonestSend(data: Bytes, ec: ErrorCode, answers: seq<Answer>, r: Sent) {
    r.wire <= data &&
    (r.wire == data ==> r.ended && r.ec == ec) &&
    (r.ended && r.wire != data ==> FailedWith(answers, r.ec)) &&
    (!r.ended ==> r.ec == ec)
  }

  /** The loop is honest for every buffer if the counts fit int, and up to 2^31 bytes in any case. */
  lemma {:induction false} SendLoopExact(data: Bytes, count: nat, ec: ErrorCode, answers: seq<Answer>, i: nat)
    requires count <= |data| && CountsFit(data, answers)
    ensures HonestSend(data, ec, answers, SendLoop(data, count, data[..count], ec, answers, i))
    decreases |answers| - i
  {
    if count == |data| {
      assert data[..count] == data;
    } else if i >= |answers| {
      assert |data[..count]| < |data|;
    } else if answers[i].result < 0 {
      assert |data[..count]| < |data|;
      assert FailedWith(answers, answers[i].errno);
    } else {
      SendLoopTurn(data, count, ec, answers, i);
      SendLoopExact(data, count + Granted(answers[i].result, |data| - count), ec, answers, i + 1);
    }
  }

  /** If the kernel answers often enough, one call per byte at most, the loop ends. */
  lemma {:induction false} SendLoopEnds(data: Bytes, count: nat, ec: ErrorCode, answers: seq<Answer>, i: nat)
    requires count <= |data| && CountsFit(data, answers) && |answers| - i >= |data| - count
    ensures SendLoop(data, count, data[..count], ec, answers, i).ended
    decreases |answers| - i
  {
    if count == |data| || answers[i].result < 0 {
    } else {
      SendLoopTurn(data, count, ec, answers, i);
      SendLoopEnds(data, count + Granted(answers[i].result, |data| - count), ec, answers, i + 1);
    }
  }

  /** Beyond 2^31 bytes one large answer makes the loop report success after part of the data. */
  lemma {:induction false} SendLoopCutsShort(data: Bytes, errno: ErrorCode)
    requires TWO_31 < |data| < TWO_63
    ensures var r := Send(1, data, 0, [Answer(TWO_31, errno)]);
            r.ended && r.ec == 0 && r.wire == data[..TWO_31] && r.wire != data
  {
    var answers := [Answer(TWO_31, errno)];
    assert Granted(TWO_31, |data|) == TWO_31;
    NarrowingWraps();
    assert [] + data[0..TWO_31] == data[..TWO_31];
    assert SendLoop(data, TWO_64 - TWO_31, data[..TWO_31], 0, answers, 1) == Sent(data[..TWO_31], true, 0);
  }

  /** A failing system call sets errno to something other than 0. */
  predicate ErrnosSet(answers: seq<Answer>) {
    forall i :: 0 <= i < |answers| && answers[i].result < 0 ==> answers[i].errno != 0
  }

  /** For buffers of this size, a send that returns without an error has sent everything. */
  ghost predicate SuccessIsComplete(size: nat) {
    forall data: Bytes, answers: seq<Answer> | |data| == size && ErrnosSet(answers) ::
      var r := Send(1, data, 0, answers);
      r.ended && r.ec == 0 ==> r.wire == data
  }

  /** Buffers of up to 2^31 bytes are sent whole or an error is reported; larger ones may not be. */
  lemma {:induction false} SuccessIsCompleteIff(size: nat)
    requires size < TWO_63
    ensures SuccessIsComplete(size) <==> size <= TWO_31
  {
    if size <= TWO_31 {
      forall data: Bytes, answers: seq<Answer> | |data| == size && ErrnosSet(answers)
        ensures var r := Send(1, data, 0, answers); r.ended && r.ec == 0 ==> r.wire == data
      {
        SendLoopExact(data, 0, 0, answers, 0);
        assert data[..0] == [];
      }
    } else {
      var data: Bytes := seq(size, i => 0);
      var answers := [Answer(TWO_31, 0)];
      SendLoopCutsShort(data, 0);
      assert ErrnosSet(answers);
      assert Send(1, data, 0, answers).wire != data;
    }
  }

  /** A send whose counts fit and that returns without an error has sent everything. */
  lemma {:induction false} SuccessIsCompleteIfFits(data: Bytes, answers: seq<Answer>)
    requires CountsFit(data, answers) && ErrnosSet(answers)
    ensures Send(1, data, 0, answers).wire <= data
    ensures Send(1, data, 0, answers).ended && Send(1, data, 0, answers).ec == 0 ==>
              Send(1, data, 0, answers).wire == data
  {
    SendLoopExact(data, 0, 0, answers, 0);
    assert data[..0] == [];
  }

  // ----- how much is handed over -----

  /** What successful answers add up to; a kernel that accepts takes at least one byte. */
  function Total(answers: seq<Answer>): nat {
    if answers == [] then 0
    else
      var last := answers[|answers| - 1].result;
      Total(answers[..|answers| - 1]) + if last < 1 then 1 else last
  }

  lemma {:induction false} TotalStep(answers: seq<Answer>, k: nat)
    requires k < |answers|
    ensures Total(answers[..k + 1]) == Total(answers[..k]) + if answers[k].result < 1 then 1 else answers[k].result
  {
    assert answers[..k + 1][..k] == answers[..k];
  }

  lemma {:induction false} TotalGrows(answers: seq<Answer>, k: nat, n: nat)
    requires k <= n <= |answers|
    ensures Total(answers[..k]) <= Total(answers[..n])
    decreases n
  {
    if n == k {
    } else {
      TotalGrows(answers, k, n - 1);
      TotalStep(answers, n - 1);
    }
  }

  /** The first f answers are counts, and the next one, if any, is a failure. */
  predicate FirstFailure(answers: seq<Answer>, f: nat) {
    f <= |answers| && (forall k :: 0 <= k < f ==> answers[k].result >= 0) && (f < |answers| ==> answers[f].result < 0)
  }

  /**
   * The result of a send by sums alone: all of the data if the counts before the first failure reach
   * its size; otherwise as many bytes as they add up to, and the failure's errno or a send still
   * waiting for the kernel.
   */
  function SumOutcome(data: Bytes, ec: ErrorCode, answers: seq<Answer>, f: nat): Sent
    requires FirstFailure(answers, f)
  {
    var sum := Total(answers[..f]);
    if sum >= |data| then Sent(data, true, ec)
    else if f < |answers| then Sent(data[..sum], true, answers[f].errno)
    else Sent(data[..sum], false, ec)
  }

  lemma {:induction false} SendLoopIsExact(data: Bytes, ec: ErrorCode, answers: seq<Answer>, f: nat, k: nat)
    requires CountsFit(data, answers) && FirstFailure(answers, f) && k <= f
    ensures var sum := Total(answers[..k]);
            var count := if sum < |data| then sum else |data|;
            SendLoop(data, count, data[..count], ec, answers, k) == SumOutcome(data, ec, answers, f)
    decreases f - k
  {
    var sum := Total(answers[..k]);
    TotalGrows(answers, k, f);
    if sum >= |data| {
      assert data[..|data|] == data;
    } else if k == f {
    } else {
      SendLoopTurn(data, sum, ec, answers, k);
      TotalStep(answers, k);
      SendLoopIsExact(data, ec, answers, f, k + 1);
    }
  }

  /** A send whose counts fit has exactly the outcome that adding up the answers gives. */
  lemma {:induction false} SendIsExact(sock: Fd, data: Bytes, ec: ErrorCode, answers: seq<Answer>, f: nat)
    requires sock != 0 && data != [] && CountsFit(data, answers) && FirstFailure(answers, f)
    ensures Send(sock, data, ec, answers) == SumOutcome(data, ec, answers, f)
  {
    assert answers[..0] == [] && data[..0] == [];
    SendLoopIsExact(data, ec, answers, f, 0);
  }

  /** A closed connection or an empty buffer: nothing is handed over and error 1 is reported. */
  lemma {:induction false} SendRefused(sock: Fd, data: Bytes, ec: ErrorCode, answers: seq<Answer>)
    requires sock == 0 || data == []
    ensures Send(sock, data, ec, answers) == Sent([], true, 1)
  {
  }

  // ----- bytes sent twice -----

  /** For buffers of this size, what is handed over is always a prefix of the buffer. */
  ghost predicate SendsPrefix(size: nat) {
    forall data: Bytes, answers: seq<Answer> | |data| == size && ErrnosSet(answers) ::
      Send(1, data, 0, answers).wire <= data
  }

  /** Below 2^32 bytes a count either fits, or is the last: taken for a failure or for more than all. */
  lemma {:induction false} LargeCountIsLast(data: Bytes, count: nat, n: nat)
    requires TWO_31 <= n && count + n <= |data| < TWO_32
    ensures ToInt(n) == n - TWO_32 && AddSize(count, ToInt(n)) >= |data|
  {
    assert ToInt(n) == ToInt(n - TWO_32);
  }

  lemma {:induction false} SendLoopPrefix(data: Bytes, count: nat, ec: ErrorCode, answers: seq<Answer>, i: nat)
    requires count <= |data| < TWO_32
    ensures SendLoop(data, count, data[..count], ec, answers, i).wire <= data
    decreases |answers| - i
  {
    if count == |data| || i >= |answers| || answers[i].result < 0 {
    } else {
      var n := Granted(answers[i].result, |data| - count);
      assert data[..count] + data[count..count + n] == data[..count + n];
      if n < TWO_31 {
        NarrowingIsExact(count, n);
        SendLoopPrefix(data, count + n, ec, answers, i + 1);
      } else {
        LargeCountIsLast(data, count, n);
      }
    }
  }

  /** A count of 2^32 is narrowed to 0: the loop does not notice it and sends the same bytes again. */
  lemma {:induction false} LargeSendRepeats(data: Bytes, ec: ErrorCode)
    requires |data| >= TWO_32
    ensures var answers := [Answer(TWO_32, 0), Answer(1, 0)];
            ErrnosSet(answers) && Send(1, data, ec, answers).wire == data[..TWO_32] + data[..1]
  {
    var answers := [Answer(TWO_32, 0), Answer(1, 0)];
    assert ToInt(TWO_32) == 0 && AddSize(0, 0) == 0;
    assert Granted(TWO_32, |data|) == TWO_32 && Granted(1, |data|) == 1;
    assert [] + data[0..TWO_32] == data[..TWO_32];
    assert SendLoop(data, 0, [], ec, answers, 0) == SendLoop(data, 0, data[..TWO_32], ec, answers, 1);
    assert SendLoop(data, 0, data[..TWO_32], ec, answers, 1) ==
           SendLoop(data, 1, data[..TWO_32] + data[0..1], ec, answers, 2);
  }

  /** Below 2^32 bytes the bytes handed over are a prefix; from there on some may go out twice. */
  lemma {:induction false} SendsPrefixIff(size: nat)
    ensures SendsPrefix(size) <==> size < TWO_32
  {
    if size < TWO_32 {
      forall data: Bytes, answers: seq<Answer> | |data| == size && ErrnosSet(answers)
        ensures Send(1, data, 0, answers).wire <= data
      {
        SendLoopPrefix(data, 0, 0, answers, 0);
        assert data[..0] == [];
      }
    } else {
      var data := [1] + Zeros(size - 1);
      var answers := [Answer(TWO_32, 0), Answer(1, 0)];
      LargeSendRepeats(data, 0);
      var wire := Send(1, data, 0, answers).wire;
      assert |wire| == TWO_32 + 1 && wire[TWO_32] == 1;
      assert |data| > TWO_32 ==> data[TWO_32] == 0;
      assert !(wire <= data);
    }
  }

  // ----- an old error behind a send -----

  lemma {:induction false} LoopIgnoresCode(
    data: Bytes, count: nat, wire: Bytes, ec: ErrorCode, answers: seq<Answer>, i: nat)
    requires count < TWO_64
    ensures SendLoop(data, count, wire, ec, answers, i).wire == SendLoop(data, count, wire, 0, answers, i).wire
    ensures SendLoop(data, count, wire, ec, answers, i).ended == SendLoop(data, count, wire, 0, answers, i).ended
    decreases |answers| - i
  {
    if count >= |data| || i >= |answers| {
    } else {
      var n := Granted(answers[i].result, |data| - count);
      if n != -1 && ToInt(n) != -1 {
        LoopIgnoresCode(data, AddSize(count, ToInt(n)), wire + data[count..count + n], ec, answers, i + 1);
      }
    }
  }

  /** What is handed over, and whether the send returns, does not depend on the caller's code. */
  lemma {:induction false} WireIgnoresCode(sock: Fd, data: Bytes, ec: ErrorCode, answers: seq<Answer>)
    ensures Send(sock, data, ec, answers).wire == Send(sock, data, 0, answers).wire
    ensures Send(sock, data, ec, answers).ended == Send(sock, data, 0, answers).ended
  {
    if sock != 0 && data != [] { LoopIgnoresCode(data, 0, [], ec, answers, 0); }
  }

  /** The smallest count that the narrowing turns into -1, the sign of a failed call. */
  const LOOKS_FAILED := TWO_32 - 1

  lemma {:induction false} SmallCountsDoNotFail(n: nat)
    requires n < LOOKS_FAILED
    ensures ToInt(n) != -1
  {
    if n >= TWO_31 { assert ToInt(n) == ToInt(n - TWO_32) == n - TWO_32; }
  }

  /** No count can be taken for a failure: the buffer or every answer is too small for that. */
  predicate CannotReset(data: Bytes, answers: seq<Answer>) {
    |data| < LOOKS_FAILED || Below(answers, LOOKS_FAILED)
  }

  /** Then the code after a send is nonzero exactly if it was before or the send failed. */
  lemma {:induction false} SendLoopCode(
    data: Bytes, count: nat, wire: Bytes, ec: ErrorCode, answers: seq<Answer>, i: nat)
    requires count < TWO_64 && CannotReset(data, answers) && ErrnosSet(answers)
    ensures SendLoop(data, count, wire, ec, answers, i).ec != 0 <==>
            ec != 0 || SendLoop(data, count, wire, 0, answers, i).ec != 0
    decreases |answers| - i
  {
    if count >= |data| || i >= |answers| {
    } else {
      var n := Granted(answers[i].result, |data| - count);
      if n != -1 {
        SmallCountsDoNotFail(n);
        SendLoopCode(data, AddSize(count, ToInt(n)), wire + data[count..count + n], ec, answers, i + 1);
      }
    }
  }

  /** The send reports an error of its own, whatever the caller's code was. */
  predicate SendFails(sock: Fd, data: Bytes, answers: seq<Answer>) {
    Send(sock, data, 0, answers).ec != 0
  }

  lemma {:induction false} SendCodeIff(sock: Fd, data: Bytes, ec: ErrorCode, answers: seq<Answer>)
    requires CannotReset(data, answers) && ErrnosSet(answers)
    ensures Send(sock, data, ec, answers).ec != 0 <==> ec != 0 || SendFails(sock, data, answers)
  {
    if sock != 0 && data != [] { SendLoopCode(data, 0, [], ec, answers, 0); }
  }

  /** The loop ends at an answer that is taken for a failure although it left errno at 0. */
  predicate LoopResets(data: Bytes, count: nat, answers: seq<Answer>, i: nat)
    requires count < TWO_64
    decreases |answers| - i
  {
    count < |data| && i < |answers| &&
    var n := Granted(answers[i].result, |data| - count);
    n != -1 &&
    if ToInt(n) == -1 then answers[i].errno == 0 else LoopResets(data, AddSize(count, ToInt(n)), answers, i + 1)
  }

  predicate SendResets(sock: Fd, data: Bytes, answers: seq<Answer>) {
    sock != 0 && data != [] && LoopResets(data, 0, answers, 0)
  }

  lemma {:induction false} LoopResetsIff(
    data: Bytes, count: nat, wire: Bytes, ec: ErrorCode, answers: seq<Answer>, i: nat)
    requires count < TWO_64 && ErrnosSet(answers)
    ensures ec != 0 ==> (SendLoop(data, count, wire, ec, answers, i).ec == 0 <==> LoopResets(data, count, answers, i))
    ensures LoopResets(data, count, answers, i) ==>
              !CannotReset(data, answers) && SendLoop(data, count, wire, ec, answers, i).ec == 0
    decreases |answers| - i
  {
    if count >= |data| || i >= |answers| {
    } else {
      var n := Granted(answers[i].result, |data| - count);
      if n != -1 && n < LOOKS_FAILED { SmallCountsDoNotFail(n); }
      if n != -1 && ToInt(n) != -1 {
        LoopResetsIff(data, AddSize(count, ToInt(n)), wire + data[count..count + n], ec, answers, i + 1);
      }
    }
  }

  /** An old error is cleared exactly by such a send, which takes a count of 2^32 - 1 or more. */
  lemma {:induction false} SendResetsIff(sock: Fd, data: Bytes, ec: ErrorCode, answers: seq<Answer>)
    requires ErrnosSet(answers)
    ensures ec != 0 ==> (Send(sock, data, ec, answers).ec == 0 <==> SendResets(sock, data, answers))
    ensures SendResets(sock, data, answers) ==> !CannotReset(data, answers) && !SendFails(sock, data, answers)
  {
    if sock != 0 && data != [] {
      LoopResetsIff(data, 0, [], ec, answers, 0);
      LoopResetsIff(data, 0, [], 0, answers, 0);
    }
  }

  /** For buffers of this size, a send never clears the caller's old error. */
  ghost predicate SendKeepsError(size: nat) {
    forall data: Bytes, ec: ErrorCode, answers: seq<Answer> | |data| == size && ec != 0 && ErrnosSet(answers) ::
      Send(1, data, ec, answers).ec != 0
  }

  /** A count of 2^32 - 1 is taken for a failure, and the errno then stored may be 0. */
  lemma {:induction false} LargeSendClears(data: Bytes, ec: ErrorCode)
    requires |data| >= LOOKS_FAILED
    ensures var answers := [Answer(LOOKS_FAILED, 0)];
            ErrnosSet(answers) && Send(1, data, ec, answers) == Sent(data[..LOOKS_FAILED], true, 0)
  {
    assert Granted(LOOKS_FAILED, |data|) == LOOKS_FAILED;
    assert ToInt(LOOKS_FAILED) == ToInt(-1) == -1;
    assert [] + data[0..LOOKS_FAILED] == data[..LOOKS_FAILED];
  }

  /** An old error survives every send of fewer than 2^32 - 1 bytes, and not every larger one. */
  lemma {:induction false} SendKeepsErrorIff(size: nat)
    ensures SendKeepsError(size) <==> size < LOOKS_FAILED
  {
    if size < LOOKS_FAILED {
      forall data: Bytes, ec: ErrorCode, answers: seq<Answer> | |data| == size && ec != 0 && ErrnosSet(answers)
        ensures Send(1, data, ec, answers).ec != 0
      {
        SendCodeIff(1, data, ec, answers);
      }
    } else {
      LargeSendClears(Zeros(size), 5);
    }
  }

  // ----- the stream between two connections -----

  /**
   * sent: everything handed to the kernel at one end; taken: how much the other end's kernel has
   * given up; shut: the sending end is closed; open: the receiving connection holds its socket.
   */
  datatype Pipe = Pipe(sent: Bytes, taken: nat, shut: bool, open: bool)

  predicate PipeOk(p: Pipe) {
    p.taken <= |p.sent|
  }

  datatype Op =
    | SendOp(data: Bytes, answers: seq<Answer>)
    | ShutOp
    | ReceiveOp(size: nat, result: int)
    | PeekOp(size: nat, result: int)

  /** ::recv: -1, or 0 once the closed stream is used up, or between 1 byte and what fits. */
  function Arriving(p: Pipe, size: nat, result: int): (n: int)
    requires PipeOk(p) && size > 0
    ensures n == -1 || (n == 0 && p.shut && p.taken == |p.sent|) || 1 <= n <= size
    ensures n <= |p.sent| - p.taken
  {
    var available := |p.sent| - p.taken;
    if available == 0 then (if p.shut && result >= 0 then 0 else -1)
    else Granted(result, if size < available then size else available)
  }

  /** data: what receive returns; removed: what ::recv took; closes: the connection closes itself. */
  datatype Took = Took(data: Bytes, removed: nat, closes: bool)

  /**
   * connection::receive, with the narrowing of ::recv's result to int: 0 after narrowing is taken
   * for the end of the stream, -1 for an error, and resize throws on any other negative size.
   */
  function Take(p: Pipe, size: nat, result: int): (r: Took)
    requires PipeOk(p)
    ensures r.removed <= |p.sent| - p.taken
  {
    if !p.open || size == 0 then Took([], 0, false)
    else
      var n := Arriving(p, size, result);
      if n == -1 then Took([], 0, false)
      else
        var m := ToInt(n);
        Took(if m > 0 then p.sent[p.taken..p.taken + m] else [], n, m == 0)
  }

  function After(p: Pipe, op: Op): (r: Pipe)
    requires PipeOk(p)
    ensures PipeOk(r)
  {
    match op
    case SendOp(data, answers) => if p.shut then p else p.(sent := p.sent + Send(1, data, 0, answers).wire)
    case ShutOp => p.(shut := true)
    case ReceiveOp(size, result) =>
      var t := Take(p, size, result);
      p.(taken := p.taken + t.removed, open := p.open && !t.closes)
    case PeekOp(size, result) => p.(open := p.open && !Take(p, size, result).closes)
  }

  function Through(p: Pipe, ops: seq<Op>): (r: Pipe)
    requires PipeOk(p)
    ensures PipeOk(r)
  {
    if ops == [] then p else After(Through(p, ops[..|ops| - 1]), ops[|ops| - 1])
  }

  const EMPTY := Pipe([], 0, false, true)

  /** The concatenation of what receive returned, peeks left aside. */
  function Received(ops: seq<Op>): Bytes {
    if ops == [] then []
    else
      var before, op := Through(EMPTY, ops[..|ops| - 1]), ops[|ops| - 1];
      Received(ops[..|ops| - 1]) + if op.ReceiveOp? then Take(before, op.size, op.result).data else []
  }

  predicate ReceivesUpTo(ops: seq<Op>, size: nat) {
    forall i :: 0 <= i < |ops| && ops[i].ReceiveOp? ==> ops[i].size <= size
  }

  predicate PeeksUpTo(ops: seq<Op>, size: nat) {
    forall i :: 0 <= i < |ops| && ops[i].PeekOp? ==> ops[i].size <= size
  }

  lemma {:induction false} StreamPush(ops: seq<Op>, op: Op)
    ensures Through(EMPTY, ops + [op]) == After(Through(EMPTY, ops), op)
    ensures Received(ops + [op]) ==
            Received(ops) + if op.ReceiveOp? then Take(Through(EMPTY, ops), op.size, op.result).data else []
  {
    assert (ops + [op])[..|ops|] == ops;
  }

  /** Every read is below 2^31 bytes or gets a count that is. */
  predicate ReadsFit(ops: seq<Op>) {
    forall i :: 0 <= i < |ops| && ops[i].ReceiveOp? ==> ops[i].size < TWO_31 || ops[i].result < TWO_31
  }

  /** Every peek is below 2^32 bytes or gets a count that is. */
  predicate PeeksFit(ops: seq<Op>) {
    forall i :: 0 <= i < |ops| && ops[i].PeekOp? ==> ops[i].size < TWO_32 || ops[i].result < TWO_32
  }

  /** Such a read returns exactly what it takes off the queue. */
  lemma {:induction false} SmallTake(p: Pipe, size: nat, result: int)
    requires PipeOk(p) && (size < TWO_31 || result < TWO_31)
    ensures var p' := After(p, ReceiveOp(size, result));
            p'.sent == p.sent && p.sent[..p.taken] + Take(p, size, result).data == p'.sent[..p'.taken]
  {
    var t := Take(p, size, result);
    assert t.data == p.sent[p.taken..p.taken + t.removed];
  }

  /** What was received is exactly the beginning of what was handed over, however it was split. */
  lemma {:induction false} ReceivedIsPrefix(ops: seq<Op>)
    requires ReadsFit(ops)
    ensures var p := Through(EMPTY, ops);
            Received(ops) == p.sent[..p.taken]
  {
    if ops == [] {
    } else {
      var prefix, op := ops[..|ops| - 1], ops[|ops| - 1];
      ReceivedIsPrefix(prefix);
      var before, p := Through(EMPTY, prefix), Through(EMPTY, ops);
      if op.ReceiveOp? {
        SmallTake(before, op.size, op.result);
      } else {
        assert p.sent[..p.taken] == before.sent[..before.taken];
      }
    }
  }

  /** Reading at most this many bytes at a time never loses or repeats a byte. */
  ghost predicate ReadsFaithfully(size: nat) {
    forall ops | ReceivesUpTo(ops, size) :: Received(ops) <= Through(EMPTY, ops).sent
  }

  function Zeros(n: nat): (r: Bytes)
    ensures |r| == n && forall i :: 0 <= i < n ==> r[i] == 0
  {
    seq(n, i => 0)
  }

  /** A send of up to 2^31 bytes that the kernel takes in one go. */
  lemma {:induction false} SentWhole(p: Pipe, data: Bytes)
    requires PipeOk(p) && !p.shut && 0 < |data| <= TWO_31
    ensures After(p, SendOp(data, [Answer(|data|, 0)])) == p.(sent := p.sent + data)
  {
    var answers := [Answer(|data|, 0)];
    SendLoopTurn(data, 0, 0, answers, 0);
    assert data[..0] == [] && data[..|data|] == data;
  }

  /** A read of 2^31 bytes takes them off the queue and returns none of them. */
  lemma {:induction false} LargeTake(p: Pipe, size: nat)
    requires p.open && p.taken == 0 && |p.sent| == TWO_31 + 1 && size >= TWO_31
    ensures After(p, ReceiveOp(size, TWO_31)) == p.(taken := TWO_31)
    ensures Take(p, size, TWO_31).data == []
    ensures Take(p.(taken := TWO_31), 1, 1).data == p.sent[TWO_31..]
  {
    NarrowingWraps();
    assert Arriving(p, size, TWO_31) == TWO_31;
  }

  lemma {:induction false} TwoSends(data: Bytes, more: Bytes) returns (ops: seq<Op>)
    requires 0 < |data| <= TWO_31 && 0 < |more| <= TWO_31
    ensures |ops| == 2 && ops[0].SendOp? && ops[1].SendOp?
    ensures Through(EMPTY, ops) == EMPTY.(sent := data + more) && Received(ops) == []
  {
    var a, b := SendOp(data, [Answer(|data|, 0)]), SendOp(more, [Answer(|more|, 0)]);
    SentWhole(EMPTY, data);
    SentWhole(EMPTY.(sent := data), more);
    StreamPush([], a);
    StreamPush([] + [a], b);
    ops := [] + [a] + [b];
  }

  /** 2^31 bytes, then a byte 1; the first read is of 2^31 bytes and the second of one. */
  lemma {:induction false} LargeReadLoses(size: nat) returns (ops: seq<Op>)
    requires size >= TWO_31
    ensures ReceivesUpTo(ops, size) && !(Received(ops) <= Through(EMPTY, ops).sent)
  {
    var sends := TwoSends(Zeros(TWO_31), [1]);
    var c, d := ReceiveOp(size, TWO_31), ReceiveOp(1, 1);
    ops := sends + [c] + [d];
    var p := Through(EMPTY, sends);
    LargeTake(p, size);
    StreamPush(sends, c);
    StreamPush(sends + [c], d);
    assert Received(ops)[0] == p.sent[TWO_31] == 1;
    assert Through(EMPTY, ops).sent[0] == 0;
  }

  /** The stream is faithful for reads of fewer than 2^31 bytes, and not for larger ones. */
  lemma {:induction false} ReadsFaithfullyIff(size: nat)
    ensures ReadsFaithfully(size) <==> size < TWO_31
  {
    if size < TWO_31 {
      forall ops | ReceivesUpTo(ops, size) ensures Received(ops) <= Through(EMPTY, ops).sent { ReceivedIsPrefix(ops); }
    } else {
      var ops := LargeReadLoses(size);
    }
  }

  /** Every send was made before the end was closed, in counts that fit, and returned no error. */
  predicate AllSucceed(ops: seq<Op>) {
    ops == [] ||
    (var op := ops[|ops| - 1];
     AllSucceed(ops[..|ops| - 1]) &&
     (op.SendOp? ==>
        !Through(EMPTY, ops[..|ops| - 1]).shut && CountsFit(op.data, op.answers) && ErrnosSet(op.answers) &&
        Send(1, op.data, 0, op.answers).ended && Send(1, op.data, 0, op.answers).ec == 0))
  }

  /** The concatenation of all buffers passed to send. */
  function Submitted(ops: seq<Op>): Bytes {
    if ops == [] then []
    else Submitted(ops[..|ops| - 1]) + if ops[|ops| - 1].SendOp? then ops[|ops| - 1].data else []
  }

  lemma {:induction false} SentIsSubmitted(ops: seq<Op>)
    requires AllSucceed(ops)
    ensures Through(EMPTY, ops).sent == Submitted(ops)
  {
    if ops == [] {
    } else {
      var op := ops[|ops| - 1];
      SentIsSubmitted(ops[..|ops| - 1]);
      if op.SendOp? {
        SuccessIsCompleteIfFits(op.data, op.answers);
      }
    }
  }

  /** Successful sends: the stream is the buffers end to end, so receive sees a prefix of them. */
  lemma {:induction false} StreamIsFaithful(ops: seq<Op>)
    requires AllSucceed(ops) && ReadsFit(ops)
    ensures Received(ops) <= Submitted(ops)
    ensures Through(EMPTY, ops).taken == |Submitted(ops)| ==> Received(ops) == Submitted(ops)
  {
    SentIsSubmitted(ops);
    ReceivedIsPrefix(ops);
  }

  function WithoutPeeks(ops: seq<Op>): seq<Op> {
    if ops == [] then []
    else WithoutPeeks(ops[..|ops| - 1]) + if ops[|ops| - 1].PeekOp? then [] else [ops[|ops| - 1]]
  }

  /** The same stream; a peek may only have noticed its end earlier. */
  predicate SameStream(p: Pipe, q: Pipe) {
    p.sent == q.sent && p.taken == q.taken && p.shut == q.shut &&
    (p.open == q.open || (p.open && q.shut && q.taken == |q.sent|))
  }

  lemma {:induction false} SameStreamAfter(p: Pipe, q: Pipe, op: Op)
    requires PipeOk(p) && PipeOk(q) && SameStream(p, q) && !op.PeekOp?
    ensures SameStream(After(p, op), After(q, op))
    ensures op.ReceiveOp? ==> Take(p, op.size, op.result).data == Take(q, op.size, op.result).data
  {
  }

  lemma {:induction false} SameStreamPeek(p: Pipe, q: Pipe, size: nat, result: int)
    requires PipeOk(p) && PipeOk(q) && SameStream(p, q) && (size < TWO_32 || result < TWO_32)
    ensures SameStream(p, After(q, PeekOp(size, result)))
  {
    if q.open && size > 0 {
      var n := Arriving(q, size, result);
      if n >= TWO_31 { assert ToInt(n) == n - TWO_32; }
    }
  }

  /** Peeks whose counts stay below 2^32 leave every later result as it would have been. */
  lemma {:induction false} PeeksAreHarmless(ops: seq<Op>)
    requires PeeksFit(ops)
    ensures SameStream(Through(EMPTY, WithoutPeeks(ops)), Through(EMPTY, ops))
    ensures Received(WithoutPeeks(ops)) == Received(ops)
  {
    if ops == [] {
    } else {
      var prefix, op := ops[..|ops| - 1], ops[|ops| - 1];
      PeeksAreHarmless(prefix);
      var w := WithoutPeeks(prefix);
      var p, q := Through(EMPTY, w), Through(EMPTY, prefix);
      if op.PeekOp? {
        assert WithoutPeeks(ops) == w;
        SameStreamPeek(p, q, op.size, op.result);
      } else {
        StreamPush(w, op);
        SameStreamAfter(p, q, op);
      }
    }
  }

  /** Peeking at up to this many bytes never changes what is received. */
  ghost predicate PeeksHarmlessly(size: nat) {
    forall ops | PeeksUpTo(ops, size) :: Received(WithoutPeeks(ops)) == Received(ops)
  }

  /** A peek at 2^32 bytes looks like the end of the stream and closes the connection. */
  lemma {:induction false} LargePeek(p: Pipe, size: nat)
    requires p.open && p.taken == 0 && |p.sent| == TWO_32 && size >= TWO_32
    ensures After(p, PeekOp(size, TWO_32)) == p.(open := false)
    ensures Take(p, 1, 1).data == p.sent[..1] && Take(p.(open := false), 1, 1).data == []
  {
    assert ToInt(TWO_32) == 0;
    assert Arriving(p, size, TWO_32) == TWO_32;
  }

  lemma {:induction false} LargePeekCloses(size: nat) returns (ops: seq<Op>)
    requires size >= TWO_32
    ensures PeeksUpTo(ops, size) && Received(WithoutPeeks(ops)) != Received(ops)
  {
    var sends := TwoSends(Zeros(TWO_31), Zeros(TWO_31));
    var b, c := PeekOp(size, TWO_32), ReceiveOp(1, 1);
    ops := sends + [b] + [c];
    PeekDropped(sends, b, c);
    LargePeek(Through(EMPTY, sends), size);
    StreamPush(sends, b);
    StreamPush(sends + [b], c);
    StreamPush(sends, c);
    assert |Received(sends + [c])| == 1 && Received(ops) == [];
  }

  lemma {:induction false} PeekDropped(sends: seq<Op>, b: Op, c: Op)
    requires |sends| == 2 && sends[0].SendOp? && sends[1].SendOp? && b.PeekOp? && c.ReceiveOp?
    ensures WithoutPeeks(sends + [b] + [c]) == sends + [c]
  {
    assert sends == [] + [sends[0]] + [sends[1]];
    WithoutPeeksPush([], sends[0]);
    WithoutPeeksPush([] + [sends[0]], sends[1]);
    WithoutPeeksPush(sends, b);
    WithoutPeeksPush(sends + [b], c);
  }

  lemma {:induction false} WithoutPeeksPush(ops: seq<Op>, op: Op)
    ensures WithoutPeeks(ops + [op]) == WithoutPeeks(ops) + if op.PeekOp? then [] else [op]
  {
    assert (ops + [op])[..|ops|] == ops;
  }

  /** Peeks are harmless below 2^32 bytes, and from there on they are not. */
  lemma {:induction false} PeeksHarmlesslyIff(size: nat)
    ensures PeeksHarmlessly(size) <==> size < TWO_32
  {
    if size < TWO_32 {
      forall ops | PeeksUpTo(ops, size) ensures Received(WithoutPeeks(ops)) == Received(ops) { PeeksAreHarmless(ops); }
    } else {
      var ops := LargePeekCloses(size);
    }
  }
}
