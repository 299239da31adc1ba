/**
 * What must be true of the client vector, and how each operation on it (marking, adding,
 * closing a socket, separating, erasing) keeps it.
 */
module Clients {
  import opened Types
  import opened OwningVector

  predicate ClientOk(c: Client, limit: ClientId) {
    0 < c.id < limit && c.fd > 0 && (c.sock == 0 || c.sock == c.fd)
  }

  predicate Apart(a: Slot, b: Slot) {
    a.Own? && b.Own? ==> a.c.id != b.c.id && a.c.fd != b.c.fd
  }

  predicate Pairwise(s: seq<Slot>) {
    forall i, j :: 0 <= i < j < |s| ==> Apart(s[i], s[j])
  }

  /** Ids below the limit, own sockets, no id and no descriptor shared. */
  predicate Sound(s: seq<Slot>, limit: ClientId) {
    (forall i :: 0 <= i < |s| && s[i].Own? ==> ClientOk(s[i].c, limit)) && Pairwise(s)
  }

  predicate Increasing(s: seq<Slot>) {
    forall i, j :: 0 <= i < j < |s| && s[i].Own? && s[j].Own? ==> s[i].c.id < s[j].c.id
  }

  /**
   * During a sweep, slots before k stay, slots from k to j have been disconnected and slots from
   * j on are still to be; outside a sweep k and j are the length of the vector.
   */
  predicate Layout(s: seq<Slot>, k: int, j: int) {
    0 <= k <= j <= |s| &&
    (forall i :: 0 <= i < j ==> s[i].Own?) &&
    (forall i :: k <= i < |s| && s[i].Own? ==> !s[i].c.connected) &&
    (forall i :: k <= i < j ==> s[i].c.sock == 0) &&
    Increasing(s[..k])
  }

  /** The descriptors owned by the connections of the vector. */
  function Socks(s: seq<Slot>): set<Fd> {
    set x | x in s && x.Own? && x.c.sock != 0 :: x.c.sock
  }

  function FdSet(s: seq<Slot>): set<Fd> {
    set x | x in s && x.Own? :: x.c.fd
  }

  function IdSet(s: seq<Slot>): set<ClientId> {
    set x | x in s && x.Own? :: x.c.id
  }

  function FdSeq(s: seq<Slot>): (r: seq<Fd>)
    requires NoNull(s)
    ensures |r| == |s|
    ensures forall i :: 0 <= i < |s| ==> r[i] == s[i].c.fd
  {
    seq(|s|, i requires 0 <= i < |s| => s[i].c.fd)
  }

  lemma {:induction false} SetsOfConcat(a: seq<Slot>, b: seq<Slot>)
    ensures Socks(a + b) == Socks(a) + Socks(b)
    ensures FdSet(a + b) == FdSet(a) + FdSet(b)
    ensures IdSet(a + b) == IdSet(a) + IdSet(b)
  {
    assert forall x :: x in a + b <==> x in a || x in b;
  }

  // ----- marking -----

  predicate MarkedOnly(x: Slot, y: Slot) {
    x == y || (x.Own? && y == Own(x.c.(connected := false)))
  }

  /** b is a with some clients newly marked. */
  predicate SameButMarks(a: seq<Slot>, b: seq<Slot>) {
    |a| == |b| && forall i :: 0 <= i < |a| ==> MarkedOnly(a[i], b[i])
  }

  lemma {:induction false} MarksKeep(a: seq<Slot>, b: seq<Slot>, limit: ClientId, k: int, j: int)
    requires SameButMarks(a, b) && Sound(a, limit) && Layout(a, k, j)
    ensures Sound(b, limit) && Layout(b, k, j)
    ensures NoNull(a) <==> NoNull(b)
  {
    assert forall i :: 0 <= i < |a| ==> MarkedOnly(a[i], b[i]);
    forall i, i' | 0 <= i < i' < |b| ensures Apart(b[i], b[i']) {
      assert Apart(a[i], a[i']);
    }
    forall i, i' | 0 <= i < i' < k ensures b[i].c.id < b[i'].c.id {
      assert a[..k][i].c.id < a[..k][i'].c.id;
    }
  }

  lemma {:induction false} MarksKeepOrder(a: seq<Slot>, b: seq<Slot>, limit: ClientId)
    requires SameButMarks(a, b) && Sound(a, limit) && Increasing(a)
    ensures Sound(b, limit) && Increasing(b)
  {
    assert forall i :: 0 <= i < |a| ==> MarkedOnly(a[i], b[i]);
    forall i, i' | 0 <= i < i' < |b| ensures Apart(b[i], b[i']) {
      assert Apart(a[i], a[i']);
    }
  }

  lemma {:induction false} MarksKeepSets(a: seq<Slot>, b: seq<Slot>)
    requires SameButMarks(a, b)
    ensures Socks(a) == Socks(b)
    ensures FdSet(a) == FdSet(b)
    ensures IdSet(a) == IdSet(b)
    ensures NoNull(a) <==> NoNull(b)
    ensures NoNull(a) ==> FdSeq(a) == FdSeq(b)
  {
    assert forall i :: 0 <= i < |a| ==> MarkedOnly(a[i], b[i]);
    forall x | x in a ensures exists y :: y in b && MarkedOnly(x, y) {
      var i :| 0 <= i < |a| && a[i] == x;
      assert b[i] in b;
    }
    forall y | y in b ensures exists x :: x in a && MarkedOnly(x, y) {
      var i :| 0 <= i < |b| && b[i] == y;
      assert a[i] in a;
    }
  }

  // ----- replacing the socket of one client by 0 -----

  function Unsock(s: seq<Slot>, i: nat): seq<Slot>
    requires i < |s| && s[i].Own?
  {
    s[i := Own(s[i].c.(sock := 0))]
  }

  lemma {:induction false} SplitAt(s: seq<Slot>, i: nat, x: Slot)
    requires i < |s|
    ensures s[i := x] == s[..i] + [x] + s[i + 1..]
    ensures s == s[..i] + [s[i]] + s[i + 1..]
  {
  }

  lemma {:induction false} SocksAt(s: seq<Slot>, i: nat, x: Slot)
    requires i < |s|
    ensures Socks(s[i := x]) == Socks(s[..i]) + Socks([x]) + Socks(s[i + 1..])
    ensures FdSet(s[i := x]) == FdSet(s[..i]) + FdSet([x]) + FdSet(s[i + 1..])
    ensures IdSet(s[i := x]) == IdSet(s[..i]) + IdSet([x]) + IdSet(s[i + 1..])
  {
    SplitAt(s, i, x);
    SetsOfConcat(s[..i], [x]);
    SetsOfConcat(s[..i] + [x], s[i + 1..]);
  }

  lemma {:induction false} SoundPart(s: seq<Slot>, limit: ClientId, a: nat, b: nat)
    requires Sound(s, limit) && a <= b <= |s|
    ensures Sound(s[a..b], limit)
  {
    forall i, j | 0 <= i < j < b - a ensures Apart(s[a..b][i], s[a..b][j]) {
      assert Apart(s[a + i], s[a + j]);
    }
  }

  /** Nobody else in a sound vector owns the socket of the client at i. */
  lemma {:induction false} SockIsOwnedOnce(s: seq<Slot>, i: nat, limit: ClientId)
    requires Sound(s, limit) && i < |s| && s[i].Own?
    ensures s[i].c.sock !in Socks(s[..i]) && s[i].c.sock !in Socks(s[i + 1..])
    ensures s[i].c.fd !in FdSet(s[..i]) && s[i].c.fd !in FdSet(s[i + 1..])
  {
    forall x | x in s[..i] && x.Own? ensures x.c.fd != s[i].c.fd && (x.c.sock == 0 || x.c.sock == x.c.fd) {
      var p :| 0 <= p < i && s[..i][p] == x;
      assert Apart(s[p], s[i]);
    }
    forall x | x in s[i + 1..] && x.Own? ensures x.c.fd != s[i].c.fd && (x.c.sock == 0 || x.c.sock == x.c.fd) {
      var p :| 0 <= p < |s| - i - 1 && s[i + 1..][p] == x;
      assert s[i + 1 + p] == x;
      assert Apart(s[i], s[i + 1 + p]);
    }
  }

  lemma {:induction false} UnsockSound(s: seq<Slot>, i: nat, limit: ClientId)
    requires Sound(s, limit) && i < |s| && s[i].Own?
    ensures Sound(Unsock(s, i), limit)
    ensures NoNull(s) ==> NoNull(Unsock(s, i)) && FdSeq(Unsock(s, i)) == FdSeq(s)
  {
    var t := Unsock(s, i);
    forall p, q | 0 <= p < q < |t| ensures Apart(t[p], t[q]) {
      assert Apart(s[p], s[q]);
    }
  }

  lemma {:induction false} SetsOfOne(c: Client)
    ensures Socks([Own(c)]) == if c.sock == 0 then {} else {c.sock}
    ensures FdSet([Own(c)]) == {c.fd}
    ensures IdSet([Own(c)]) == {c.id}
  {
    assert forall x :: x in [Own(c)] <==> x == Own(c);
    assert Own(c) in [Own(c)];
  }

  lemma {:induction false} NoZeroSock(s: seq<Slot>)
    ensures 0 !in Socks(s)
  {
  }

  lemma {:induction false} UnsockSets(s: seq<Slot>, i: nat, limit: ClientId)
    requires Sound(s, limit) && i < |s| && s[i].Own?
    ensures Socks(Unsock(s, i)) == Socks(s) - {s[i].c.sock}
    ensures FdSet(Unsock(s, i)) == FdSet(s)
    ensures IdSet(Unsock(s, i)) == IdSet(s)
  {
    var c, d := s[i].c, s[i].c.(sock := 0);
    var a, b := Socks(s[..i]), Socks(s[i + 1..]);
    SetsOfOne(c);
    SetsOfOne(d);
    assert s[i := Own(c)] == s;
    SocksAt(s, i, Own(d));
    SocksAt(s, i, Own(c));
    assert Socks(s) == a + Socks([Own(c)]) + b;
    assert Socks(Unsock(s, i)) == a + b;
    assert c.sock !in a && c.sock !in b by { SockIsOwnedOnce(s, i, limit); }
  }

  // ----- adding a client -----

  lemma {:induction false} PushKeeps(s: seq<Slot>, c: Client, limit: ClientId)
    requires Sound(s, limit) && NoNull(s) && Increasing(s)
    requires c.id == limit && c.id > 0 && c.fd > 0 && c.sock == c.fd
    requires c.fd !in FdSet(s)
    ensures Sound(s + [Own(c)], limit + 1)
    ensures NoNull(s + [Own(c)]) && Increasing(s + [Own(c)])
    ensures Socks(s + [Own(c)]) == Socks(s) + {c.fd}
    ensures IdSet(s + [Own(c)]) == IdSet(s) + {c.id}
    ensures FdSeq(s + [Own(c)]) == FdSeq(s) + [c.fd]
  {
    var t := s + [Own(c)];
    forall i, j | 0 <= i < j < |t| ensures Apart(t[i], t[j]) {
      if j < |s| {
        assert Apart(s[i], s[j]);
      } else {
        assert s[i] in s && s[i].c.fd in FdSet(s);
      }
    }
    SetsOfConcat(s, [Own(c)]);
    SetsOfOne(c);
  }
}
