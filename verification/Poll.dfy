/**
 * Readiness: the translation of poll() bits into the library's status mask, and the poll group
 * that keeps one pollfd per watched socket.
 */
module Poll {
  import opened Types

  // poll.h
  const POLLIN: bv16 := 0x01
  const POLLOUT: bv16 := 0x04
  const POLLERR: bv16 := 0x08
  const POLLHUP: bv16 := 0x10

  /** socket_status_mask */
  type Mask = bv8
  const NONE: Mask := 0x00
  const ERROR: Mask := 0x01
  const HUNG_UP: Mask := 0x02
  const READABLE: Mask := 0x04
  const WRITABLE: Mask := 0x08

  datatype Pollfd = Pollfd(fd: Fd, events: bv16, revents: bv16)

  /** socket_status_info: one readiness report. */
  datatype Readiness = Readiness(fd: Fd, status: Mask)

  function MaskFromRevents(revents: bv16): Mask {
    (if revents & POLLIN != 0 then READABLE else NONE)
    | (if revents & POLLOUT != 0 then WRITABLE else NONE)
    | (if revents & POLLERR != 0 then ERROR else NONE)
    | (if revents & POLLHUP != 0 then HUNG_UP else NONE)
  }

  predicate Broken(status: Mask) {
    status & (ERROR | HUNG_UP) != 0
  }

  predicate CanRead(status: Mask) {
    status & READABLE != 0
  }

  /** The mask carries exactly the four conditions the library knows, and no other bit. */
  lemma MaskIsExact(revents: bv16)
    ensures Broken(MaskFromRevents(revents)) <==> revents & (POLLERR | POLLHUP) != 0
    ensures CanRead(MaskFromRevents(revents)) <==> revents & POLLIN != 0
    ensures MaskFromRevents(revents) & ERROR != 0 <==> revents & POLLERR != 0
    ensures MaskFromRevents(revents) & HUNG_UP != 0 <==> revents & POLLHUP != 0
    ensures MaskFromRevents(revents) & WRITABLE != 0 <==> revents & POLLOUT != 0
    ensures MaskFromRevents(revents) & 0xF0 == 0
    ensures MaskFromRevents(revents) == NONE <==> revents & 0x1D == 0
  {
  }

  function Fds(pfds: seq<Pollfd>): (r: seq<Fd>)
    ensures |r| == |pfds|
    ensures forall i :: 0 <= i < |r| ==> r[i] == pfds[i].fd
  {
    seq(|pfds|, i requires 0 <= i < |pfds| => pfds[i].fd)
  }

  /** remove_socket: drops every entry of the descriptor and keeps the order of the others. */
  function Without(pfds: seq<Pollfd>, fd: Fd): (r: seq<Pollfd>)
    ensures |r| <= |pfds|
  {
    if pfds == [] then []
    else
      var r := Without(pfds[..|pfds| - 1], fd);
      if pfds[|pfds| - 1].fd == fd then r else r + [pfds[|pfds| - 1]]
  }

  lemma {:induction false} WithoutIsExact(pfds: seq<Pollfd>, fd: Fd, p: Pollfd)
    ensures p in Without(pfds, fd) <==> p in pfds && p.fd != fd
  {
    if pfds == [] {
    } else {
      WithoutIsExact(pfds[..|pfds| - 1], fd, p);
      assert pfds == pfds[..|pfds| - 1] + [pfds[|pfds| - 1]];
    }
  }

  /**
   * `at` are the positions with keep[n], all of them, in increasing order: what is listed by them
   * is listed once and in its old order.
   */
  predicate Selects(at: seq<nat>, keep: seq<bool>) {
    (forall i, j :: 0 <= i < j < |at| ==> at[i] < at[j]) &&
    (forall i :: 0 <= i < |at| ==> at[i] < |keep| && keep[at[i]]) &&
    forall n :: 0 <= n < |keep| && keep[n] ==> n in at
  }

  lemma {:induction false} SelectsPush(at: seq<nat>, keep: seq<bool>, b: bool)
    requires Selects(at, keep)
    ensures Selects(if b then at + [|keep|] else at, keep + [b])
  {
    var at' := if b then at + [|keep|] else at;
    forall n | 0 <= n < |keep + [b]| && (keep + [b])[n] ensures n in at' {
      if n < |keep| { assert n in at; }
    }
  }

  /** r lists the elements of all at the given positions. */
  predicate Lists<T(==)>(r: seq<T>, all: seq<T>, at: seq<nat>) {
    |r| == |at| && forall i :: 0 <= i < |at| ==> at[i] < |all| && r[i] == all[at[i]]
  }

  lemma {:induction false} ListsPush<T>(r: seq<T>, all: seq<T>, at: seq<nat>, x: T)
    requires Lists(r, all, at)
    ensures Lists(r, all + [x], at) && Lists(r + [x], all + [x], at + [|all|])
  {
  }

  function Others(pfds: seq<Pollfd>, fd: Fd): (r: seq<bool>)
    ensures |r| == |pfds| && forall i :: 0 <= i < |r| ==> r[i] == (pfds[i].fd != fd)
  {
    seq(|pfds|, i requires 0 <= i < |pfds| => pfds[i].fd != fd)
  }

  /** The entries kept are those of other descriptors, each once and in their old order. */
  lemma {:induction false} WithoutInOrder(pfds: seq<Pollfd>, fd: Fd) returns (at: seq<nat>)
    ensures Selects(at, Others(pfds, fd)) && Lists(Without(pfds, fd), pfds, at)
  {
    if pfds == [] {
      at := [];
    } else {
      var before, last := pfds[..|pfds| - 1], pfds[|pfds| - 1];
      var at' := WithoutInOrder(before, fd);
      assert pfds == before + [last];
      assert Others(pfds, fd) == Others(before, fd) + [last.fd != fd];
      SelectsPush(at', Others(before, fd), last.fd != fd);
      ListsPush(Without(before, fd), before, at', last);
      at := if last.fd != fd then at' + [|before|] else at';
    }
  }

  /** The kernel's answer to ::poll: it fills every revents field, or fails and changes none. */
  datatype PollAnswer = PollFailed | PollFilled(revents: seq<bv16>)

  function Filled(pfds: seq<Pollfd>, answer: PollAnswer): (r: seq<Pollfd>)
    ensures |r| == |pfds|
    ensures forall i :: 0 <= i < |r| ==> r[i].fd == pfds[i].fd && r[i].events == pfds[i].events
    ensures answer.PollFilled? && |answer.revents| == |pfds| ==>
              forall i :: 0 <= i < |r| ==> r[i].revents == answer.revents[i]
    ensures answer.PollFailed? ==> r == pfds
  {
    if answer.PollFailed? || |answer.revents| != |pfds| then pfds
    else seq(|pfds|, i requires 0 <= i < |pfds| => pfds[i].(revents := answer.revents[i]))
  }

  function ReportOf(p: Pollfd): Readiness {
    Readiness(p.fd, MaskFromRevents(p.revents))
  }

  /** What poll_group::poll reports for entries whose revents are already in place. */
  function Reports(pfds: seq<Pollfd>): (r: seq<Readiness>)
    ensures |r| <= |pfds|
  {
    if pfds == [] then []
    else
      var last := pfds[|pfds| - 1];
      var r := Reports(pfds[..|pfds| - 1]);
      if last.revents == 0 then r else r + [ReportOf(last)]
  }

  lemma {:induction false} WithoutStep(pfds: seq<Pollfd>, fd: Fd, i: nat)
    requires i < |pfds|
    ensures Without(pfds[..i + 1], fd) == Without(pfds[..i], fd) + if pfds[i].fd == fd then [] else [pfds[i]]
  {
    assert pfds[..i + 1][..i] == pfds[..i];
  }

  lemma {:induction false} ReportsStep(pfds: seq<Pollfd>, i: nat)
    requires i < |pfds|
    ensures Reports(pfds[..i + 1]) ==
            Reports(pfds[..i]) + if pfds[i].revents == 0 then [] else [ReportOf(pfds[i])]
  {
    assert pfds[..i + 1][..i] == pfds[..i];
  }

  /** A report is made exactly for the entries with a nonzero revents field. */
  lemma {:induction false} ReportsAreExact(pfds: seq<Pollfd>, r: Readiness)
    ensures r in Reports(pfds) <==>
            exists i :: 0 <= i < |pfds| && pfds[i].revents != 0 && r == ReportOf(pfds[i])
  {
    if pfds == [] {
    } else {
      var p', p := pfds[..|pfds| - 1], pfds[|pfds| - 1];
      ReportsAreExact(p', r);
      if r in Reports(p') {
        var i :| 0 <= i < |p'| && p'[i].revents != 0 && r == ReportOf(p'[i]);
        assert pfds[i] == p'[i];
      }
      if exists i :: 0 <= i < |pfds| && pfds[i].revents != 0 && r == ReportOf(pfds[i]) {
        var i :| 0 <= i < |pfds| && pfds[i].revents != 0 && r == ReportOf(pfds[i]);
        if i < |p'| { assert p'[i] == pfds[i]; }
      }
    }
  }

  function Happened(pfds: seq<Pollfd>): (r: seq<bool>)
    ensures |r| == |pfds| && forall i :: 0 <= i < |r| ==> r[i] == (pfds[i].revents != 0)
  {
    seq(|pfds|, i requires 0 <= i < |pfds| => pfds[i].revents != 0)
  }

  function AllReports(pfds: seq<Pollfd>): (r: seq<Readiness>)
    ensures |r| == |pfds| && forall i :: 0 <= i < |r| ==> r[i] == ReportOf(pfds[i])
  {
    seq(|pfds|, i requires 0 <= i < |pfds| => ReportOf(pfds[i]))
  }

  /** The reports are those of the entries with nonzero revents, each once and in their order. */
  lemma {:induction false} ReportsInOrder(pfds: seq<Pollfd>) returns (at: seq<nat>)
    ensures Selects(at, Happened(pfds)) && Lists(Reports(pfds), AllReports(pfds), at)
  {
    if pfds == [] {
      at := [];
    } else {
      var before, last := pfds[..|pfds| - 1], pfds[|pfds| - 1];
      var at' := ReportsInOrder(before);
      assert Happened(pfds) == Happened(before) + [last.revents != 0];
      assert AllReports(pfds) == AllReports(before) + [ReportOf(last)];
      SelectsPush(at', Happened(before), last.revents != 0);
      ListsPush(Reports(before), AllReports(before), at', ReportOf(last));
      at := if last.revents != 0 then at' + [|before|] else at';
    }
  }

  /** poll_group */
  class PollGroup {
    var pfds: seq<Pollfd>
    const config: bv16

    constructor (mask: Mask)
      ensures pfds == []
      ensures config & POLLIN != 0 <==> mask & READABLE != 0
      ensures config & POLLOUT != 0 <==> mask & WRITABLE != 0
      ensures mask == READABLE ==> config == POLLIN
    {
      pfds := [];
      config := (if mask & READABLE != 0 then POLLIN else 0) | (if mask & WRITABLE != 0 then POLLOUT else 0);
    }

    method AddSocket(fd: Fd)
      modifies this`pfds
      ensures pfds == old(pfds) + [Pollfd(fd, config, 0)]
    {
      pfds := pfds + [Pollfd(fd, config, 0)];
    }

    /** The erase-remove_if of remove_socket, on values. */
    method RemoveSocket(fd: Fd)
      modifies this`pfds
      ensures pfds == Without(old(pfds), fd)
    {
      var kept: seq<Pollfd> := [];
      var i := 0;
      while i < |pfds|
        invariant 0 <= i <= |pfds| && pfds == old(pfds)
        invariant kept == Without(pfds[..i], fd)
      {
        WithoutStep(pfds, fd, i);
        if pfds[i].fd != fd { kept := kept + [pfds[i]]; }
        i := i + 1;
      }
      assert pfds[..i] == pfds;
      pfds := kept;
    }

    /** The kernel's answer comes in as a parameter; a failed poll leaves old revents in place. */
    method DoPoll(answer: PollAnswer) returns (events: seq<Readiness>)
      modifies this`pfds
      ensures pfds == Filled(old(pfds), answer)
      ensures answer.PollFilled? && |answer.revents| == |old(pfds)| ==>
                forall i :: 0 <= i < |pfds| ==>
                  pfds[i] == Pollfd(old(pfds)[i].fd, old(pfds)[i].events, answer.revents[i])
      ensures answer.PollFailed? ==> pfds == old(pfds)
      ensures events == Reports(pfds)
    {
      pfds := Filled(pfds, answer);
      events := [];
      var i := 0;
      while i < |pfds|
        invariant 0 <= i <= |pfds| && pfds == Filled(old(pfds), answer)
        invariant events == Reports(pfds[..i])
      {
        ReportsStep(pfds, i);
        if pfds[i].revents != 0 { events := events + [ReportOf(pfds[i])]; }
        i := i + 1;
      }
      assert pfds[..i] == pfds;
    }
  }
}
