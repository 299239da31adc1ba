/**
 * Separating the marked clients from the kept ones keeps a sound vector sound, and loses exactly
 * the descriptors of the clients it destroys.
 */
module Separation {
  import opened Types
  import opened OwningVector
  import opened Machine
  import opened Clients

  lemma {:induction false} FilterMembers(s: seq<Slot>, x: Slot)
    ensures x in Kept(s) <==> x in s && !IsMarked(x)
    ensures x in Marked(s) <==> x in s && IsMarked(x)
  {
    if s == [] {
    } else {
      var s', y := s[..|s| - 1], s[|s| - 1];
      FilterMembers(s', x);
      assert s == s' + [y];
    }
  }

  lemma {:induction false} FilterSets(s: seq<Slot>)
    ensures Socks(s) == Socks(Kept(s)) + Socks(Marked(s))
    ensures FdSet(s) == FdSet(Kept(s)) + FdSet(Marked(s))
    ensures IdSet(s) == IdSet(Kept(s)) + IdSet(Marked(s))
  {
    forall x ensures x in s <==> x in Kept(s) + Marked(s) { FilterMembers(s, x); }
    SetsOfConcat(Kept(s), Marked(s));
  }

  lemma {:induction false} MemberOk(s: seq<Slot>, limit: ClientId, x: Slot)
    requires Sound(s, limit) && x in s && x.Own?
    ensures ClientOk(x.c, limit)
  {
  }

  lemma {:induction false} MembersApart(s: seq<Slot>, x: Slot, y: Slot)
    requires Pairwise(s) && x in s && y in s && x != y
    ensures Apart(x, y)
  {
    var i :| 0 <= i < |s| && s[i] == x;
    var j :| 0 <= j < |s| && s[j] == y;
    if i < j { assert Apart(s[i], s[j]); } else { assert Apart(s[j], s[i]); }
  }

  lemma {:induction false} FilterPairwise(s: seq<Slot>)
    requires Pairwise(s)
    ensures Pairwise(Kept(s)) && Pairwise(Marked(s))
  {
    if s == [] {
    } else {
      var s', y := s[..|s| - 1], s[|s| - 1];
      forall i, j | 0 <= i < j < |s'| ensures Apart(s'[i], s'[j]) { assert Apart(s[i], s[j]); }
      FilterPairwise(s');
      forall x | x in s' ensures Apart(x, y) {
        var i :| 0 <= i < |s'| && s'[i] == x;
        assert Apart(s[i], s[|s| - 1]);
      }
      forall x ensures (x in Kept(s') ==> x in s') && (x in Marked(s') ==> x in s') { FilterMembers(s', x); }
      PairwisePush(Kept(s'), y);
      PairwisePush(Marked(s'), y);
    }
  }

  lemma {:induction false} PairwisePush(s: seq<Slot>, y: Slot)
    requires Pairwise(s)
    ensures (forall x :: x in s ==> Apart(x, y)) ==> Pairwise(s + [y])
  {
    if forall x :: x in s ==> Apart(x, y) {
      var t := s + [y];
      forall i, j | 0 <= i < j < |t| ensures Apart(t[i], t[j]) {
        if j < |s| { assert Apart(s[i], s[j]); } else { assert s[i] in s; }
      }
    }
  }

  lemma {:induction false} KeptIncreasing(s: seq<Slot>)
    requires NoNull(s) && Increasing(s)
    ensures NoNull(Kept(s)) && Increasing(Kept(s))
  {
    KeptOwns(s);
    if s == [] {
    } else {
      var s', y := s[..|s| - 1], s[|s| - 1];
      KeptIncreasing(s');
      forall x | x in Kept(s') ensures x.Own? && x.c.id < y.c.id {
        FilterMembers(s', x);
        var i :| 0 <= i < |s'| && s'[i] == x;
        assert s[i] == x;
      }
      var t := Kept(s') + [y];
      forall i, j | 0 <= i < j < |t| ensures t[i].c.id < t[j].c.id {
        if j < |t| - 1 {
          assert Kept(s')[i].c.id < Kept(s')[j].c.id;
        } else {
          assert Kept(s')[i] in Kept(s');
        }
      }
    }
  }

  lemma {:induction false} SoundConcat(a: seq<Slot>, b: seq<Slot>, limit: ClientId)
    requires Sound(a, limit) && Sound(b, limit)
    requires forall x, y :: x in a && y in b ==> Apart(x, y)
    ensures Sound(a + b, limit)
  {
    var t := a + b;
    forall i, j | 0 <= i < j < |t| ensures Apart(t[i], t[j]) {
      if j < |a| {
        assert Apart(a[i], a[j]);
      } else if i >= |a| {
        assert Apart(b[i - |a|], b[j - |a|]);
      } else {
        assert a[i] in a && b[j - |a|] in b;
      }
    }
  }

  lemma {:induction false} SoundHalves(a: seq<Slot>, b: seq<Slot>, limit: ClientId)
    requires Sound(a + b, limit)
    ensures Socks(a) !! Socks(b)
  {
    forall x, y | x in a && y in b && x.Own? && y.Own?
      ensures x.c.fd != y.c.fd && (x.c.sock == 0 || x.c.sock == x.c.fd) && (y.c.sock == 0 || y.c.sock == y.c.fd)
    {
      var i :| 0 <= i < |a| && a[i] == x;
      var j :| 0 <= j < |b| && b[j] == y;
      assert (a + b)[i] == x && (a + b)[|a| + j] == y;
      assert Apart((a + b)[i], (a + b)[|a| + j]);
    }
  }

  lemma {:induction false} SoundFilters(s: seq<Slot>, limit: ClientId)
    requires Sound(s, limit)
    ensures Sound(Kept(s), limit) && Sound(Marked(s), limit) && Sound(Partitioned(s), limit)
    ensures forall x, y :: x in Kept(s) && y in Marked(s) ==> Apart(x, y)
  {
    FilterPairwise(s);
    forall x | x in Kept(s) || x in Marked(s) ensures x in s && (x.Own? ==> ClientOk(x.c, limit)) {
      FilterMembers(s, x);
      if x.Own? { MemberOk(s, limit, x); }
    }
    forall x, y | x in Kept(s) && y in Marked(s) ensures Apart(x, y) {
      FilterMembers(s, x);
      FilterMembers(s, y);
      MembersApart(s, x, y);
    }
    SoundConcat(Kept(s), Marked(s), limit);
  }

  lemma {:induction false} TailMembers(b: seq<Slot>)
    ensures forall x :: x in TailSlots(b) && x.Own? ==> x in Marked(b)
    ensures Socks(TailSlots(b)) == Socks(Marked(b))
    ensures IdSet(TailSlots(b)) == IdSet(Marked(b))
  {
    var t := TailSlots(b);
    forall x: Slot | x.Own? ensures x in t <==> x in Marked(b) {
      FilterMembers(b, x);
      if x in b && IsMarked(x) {
        var i :| 0 <= i < |b| && b[i] == x;
        assert t[i] == x;
      }
      if x in t {
        var i :| 0 <= i < |t| && t[i] == x;
        assert b[i] == x;
      }
    }
  }

  lemma {:induction false} TailSound(b: seq<Slot>, limit: ClientId)
    requires Sound(b, limit)
    ensures Sound(TailSlots(b), limit)
  {
    var t := TailSlots(b);
    forall i, j | 0 <= i < j < |t| ensures Apart(t[i], t[j]) { assert Apart(b[i], b[j]); }
  }

  lemma {:induction false} RemovedSound(s: seq<Slot>, limit: ClientId)
    requires Sound(s, limit)
    ensures Sound(Removed(s), limit)
  {
    var k := |Kept(s)|;
    SoundFilters(s, limit);
    SoundPart(s, limit, k, |s|);
    assert s[k..|s|] == s[k..];
    TailSound(s[k..], limit);
    TailMembers(s[k..]);
    forall x, y | x in Kept(s) && y in TailSlots(s[k..]) ensures Apart(x, y) {
      if y.Own? {
        FilterMembers(s[k..], y);
        FilterMembers(s, y);
      }
    }
    SoundConcat(Kept(s), TailSlots(s[k..]), limit);
  }

  /** The descriptors still owned after separating are those owned before minus the lost ones. */
  lemma {:induction false} SeparatedSocks(m: Mode, s: seq<Slot>, limit: ClientId)
    requires Sound(s, limit)
    ensures Socks(Separated(m, s)) == Socks(s) - Socks(Lost(m, s))
    ensures Socks(Lost(m, s)) <= Socks(s)
    ensures Sound(Lost(m, s), limit)
  {
    var k := |Kept(s)|;
    FilterSets(s);
    SetsOfConcat(Kept(s), Marked(s));
    if m.AsWritten? {
      var a, b := s[..k], s[k..];
      assert s == a + b;
      assert Marked(s) == Marked(a) + Marked(b) by { FiltersOfConcat(a, b); }
      SoundFilters(s, limit);
      SetsOfConcat(Marked(a), Marked(b));
      SoundHalves(Marked(a), Marked(b), limit);
      SoundHalves(Kept(s), Marked(s), limit);
      TailMembers(b);
      SetsOfConcat(Kept(s), TailSlots(b));
      SoundPart(Marked(s), limit, 0, |Marked(a)|);
      assert Marked(s)[0..|Marked(a)|] == Marked(a);
    } else {
      assert Socks([]) == {};
    }
  }

  /** The layout in which the walk over the marked clients begins. */
  lemma {:induction false} SeparatedLayout(m: Mode, s: seq<Slot>, limit: ClientId)
    requires NoNull(s) && Sound(s, limit) && Increasing(s)
    ensures |Separated(m, s)| == |s|
    ensures Sound(Separated(m, s), limit)
    ensures Layout(Separated(m, s), |Kept(s)|, |Kept(s)|)
    ensures Separated(m, s)[..|Kept(s)|] == Kept(s)
  {
    var k, t := |Kept(s)|, Separated(m, s);
    SplitLengths(s);
    SoundFilters(s, limit);
    RemovedSound(s, limit);
    KeptIncreasing(s);
    assert t[..k] == Kept(s);
    forall i | 0 <= i < k ensures t[i].Own? { assert t[i] == Kept(s)[i]; }
    TailIsMarked(m, s);
  }

  lemma {:induction false} TailIsMarked(m: Mode, s: seq<Slot>)
    ensures forall i :: |Kept(s)| <= i < |Separated(m, s)| && Separated(m, s)[i].Own? ==> IsMarked(Separated(m, s)[i])
  {
    var k, t := |Kept(s)|, Separated(m, s);
    forall i | k <= i < |t| && t[i].Own? ensures IsMarked(t[i]) {
      if m.AsWritten? { assert t[i] == TailSlots(s[k..])[i - k]; } else { assert t[i] == Marked(s)[i - k]; }
    }
  }

  /** Without a null slot, separating is the stable partition and loses nobody, in either mode. */
  lemma {:induction false} SeparatedWhole(m: Mode, s: seq<Slot>)
    requires NoNull(s)
    ensures NoNull(Separated(m, s)) <==> m.Intended? || MarkedSuffix(s)
    ensures NoNull(Separated(m, s)) ==> Separated(m, s) == Partitioned(s) && Lost(m, s) == []
  {
    RemoveIfIsPartitionIff(s);
    KeptOwns(s);
  }
}
