/**
 * std::remove_if over a vector of owning pointers, as the sweep uses it, beside the stable
 * partition the sweep was written to expect.
 */
module OwningVector {
  import opened Types

  /** The predicate of the sweep: the client has been marked for removal. */
  predicate IsMarked(x: Slot) {
    x.Own? && !x.c.connected
  }

  predicate NoNull(s: seq<Slot>) {
    forall i :: 0 <= i < |s| ==> s[i].Own?
  }

  function Kept(s: seq<Slot>): (r: seq<Slot>)
    ensures |r| <= |s|
    ensures forall i :: 0 <= i < |r| ==> !IsMarked(r[i])
  {
    if s == [] then []
    else
      var r := Kept(s[..|s| - 1]);
      if IsMarked(s[|s| - 1]) then r else r + [s[|s| - 1]]
  }

  function Marked(s: seq<Slot>): (r: seq<Slot>)
    ensures |r| <= |s|
    ensures forall i :: 0 <= i < |r| ==> IsMarked(r[i])
  {
    if s == [] then []
    else
      var r := Marked(s[..|s| - 1]);
      if IsMarked(s[|s| - 1]) then r + [s[|s| - 1]] else r
  }

  /** What the sweep was written to expect: kept clients first, then the marked ones, in order. */
  function Partitioned(s: seq<Slot>): seq<Slot> {
    Kept(s) + Marked(s)
  }

  /** Slot i after remove_if has moved away every kept element at or beyond position k. */
  function TailSlot(x: Slot): Slot {
    if IsMarked(x) then x else Null
  }

  function TailSlots(s: seq<Slot>): (r: seq<Slot>)
    ensures |r| == |s|
    ensures forall i :: 0 <= i < |s| ==> r[i] == TailSlot(s[i])
  {
    seq(|s|, i requires 0 <= i < |s| => TailSlot(s[i]))
  }

  /** The whole vector after std::remove_if: kept elements in front, moved-from slots null. */
  function Removed(s: seq<Slot>): seq<Slot> {
    Kept(s) + TailSlots(s[|Kept(s)|..])
  }

  /** The marked elements whose slots were overwritten, in the order they were destroyed. */
  function Overwritten(s: seq<Slot>): seq<Slot> {
    Marked(s[..|Kept(s)|])
  }

  /** Every element after a marked one is marked. */
  predicate MarkedSuffix(s: seq<Slot>) {
    forall i, j :: 0 <= i < j < |s| && IsMarked(s[i]) ==> IsMarked(s[j])
  }

  function Nulls(s: seq<Slot>): (n: nat)
    ensures n <= |s|
  {
    if s == [] then 0 else Nulls(s[..|s| - 1]) + if s[|s| - 1].Null? then 1 else 0
  }

  // ----- counting -----

  lemma {:induction false} SplitLengths(s: seq<Slot>)
    ensures |Kept(s)| + |Marked(s)| == |s|
  {
    if s == [] {
    } else {
      SplitLengths(s[..|s| - 1]);
    }
  }

  lemma {:induction false} FiltersOfConcat(a: seq<Slot>, b: seq<Slot>)
    ensures Kept(a + b) == Kept(a) + Kept(b)
    ensures Marked(a + b) == Marked(a) + Marked(b)
  {
    if b == [] {
      assert a + b == a;
    } else {
      var b' := b[..|b| - 1];
      assert (a + b)[..|a + b| - 1] == a + b';
      FiltersOfConcat(a, b');
    }
  }

  lemma {:induction false} AllKept(s: seq<Slot>)
    requires Marked(s) == []
    ensures Kept(s) == s
  {
    if s == [] {
    } else {
      var s' := s[..|s| - 1];
      AllKept(s');
      assert s == s' + [s[|s| - 1]];
    }
  }

  lemma {:induction false} AllMarked(s: seq<Slot>)
    requires Kept(s) == []
    ensures Marked(s) == s
  {
    if s == [] {
    } else {
      var s' := s[..|s| - 1];
      AllMarked(s');
      assert s == s' + [s[|s| - 1]];
    }
  }

  lemma {:induction false} SomeMarked(s: seq<Slot>) returns (i: nat)
    requires Marked(s) != []
    ensures i < |s| && IsMarked(s[i])
  {
    i := |s| - 1;
    if !IsMarked(s[i]) { i := SomeMarked(s[..|s| - 1]); }
  }

  lemma {:induction false} SomeKept(s: seq<Slot>) returns (i: nat)
    requires Kept(s) != []
    ensures i < |s| && !IsMarked(s[i])
  {
    i := |s| - 1;
    if IsMarked(s[i]) { i := SomeKept(s[..|s| - 1]); }
  }

  lemma {:induction false} NullsOfTail(s: seq<Slot>)
    ensures Nulls(TailSlots(s)) == |Kept(s)|
  {
    if s == [] {
    } else {
      var s' := s[..|s| - 1];
      NullsOfTail(s');
      assert TailSlots(s)[..|s| - 1] == TailSlots(s');
    }
  }

  lemma {:induction false} NullsZero(s: seq<Slot>)
    ensures Nulls(s) == 0 <==> NoNull(s)
  {
    if s == [] {
    } else {
      var s' := s[..|s| - 1];
      NullsZero(s');
      if NoNull(s') && s[|s| - 1].Own? {
        forall i | 0 <= i < |s| ensures s[i].Own? {
          if i < |s'| { assert s'[i] == s[i]; }
        }
      }
      if NoNull(s) {
        forall i | 0 <= i < |s'| ensures s'[i].Own? { assert s'[i] == s[i]; }
      }
    }
  }

  // ----- the exact effect of remove_if -----

  /**
   * Front slots hold the kept clients in order; tail slot j is null exactly when element j was
   * kept and otherwise still owns element j; as many tail slots are null as marked clients were
   * destroyed by being overwritten.
   */
  lemma {:induction false} RemoveIfEffect(s: seq<Slot>)
    requires NoNull(s)
    ensures |Removed(s)| == |s|
    ensures Removed(s)[..|Kept(s)|] == Kept(s)
    ensures forall j :: |Kept(s)| <= j < |s| ==> (Removed(s)[j].Null? <==> !IsMarked(s[j]))
    ensures forall j :: |Kept(s)| <= j < |s| && IsMarked(s[j]) ==> Removed(s)[j] == s[j]
    ensures Nulls(Removed(s)[|Kept(s)|..]) == |Overwritten(s)|
  {
    var k := |Kept(s)|;
    assert s == s[..k] + s[k..];
    FiltersOfConcat(s[..k], s[k..]);
    SplitLengths(s[..k]);
    NullsOfTail(s[k..]);
    assert Removed(s)[k..] == TailSlots(s[k..]);
  }

  /** Nothing marked in front of position |Kept(s)| is the same as nothing kept behind it. */
  lemma {:induction false} CutBalance(s: seq<Slot>)
    ensures Marked(s[..|Kept(s)|]) == [] <==> Kept(s[|Kept(s)|..]) == []
  {
    var k := |Kept(s)|;
    assert s == s[..k] + s[k..];
    FiltersOfConcat(s[..k], s[k..]);
    SplitLengths(s[..k]);
  }

  lemma {:induction false} SuffixIff(s: seq<Slot>)
    ensures MarkedSuffix(s) <==> Marked(s[..|Kept(s)|]) == []
    ensures MarkedSuffix(s) <==> Kept(s[|Kept(s)|..]) == []
  {
    var k := |Kept(s)|;
    var a, b := s[..k], s[k..];
    CutBalance(s);
    if Marked(a) == [] {
      AllKept(a);
      AllMarked(b);
      forall i | 0 <= i < k ensures !IsMarked(s[i]) { assert s[i] == Kept(a)[i]; }
      forall i | k <= i < |s| ensures IsMarked(s[i]) { assert s[i] == Marked(b)[i - k]; }
    } else {
      var i := SomeMarked(a);
      var j := SomeKept(b);
      assert IsMarked(s[i]) && !IsMarked(s[k + j]);
    }
  }

  lemma {:induction false} SuffixUntouched(s: seq<Slot>)
    requires MarkedSuffix(s)
    ensures Removed(s) == s == Partitioned(s)
  {
    var k := |Kept(s)|;
    var a, b := s[..k], s[k..];
    assert Kept(b) == [] && Marked(a) == [] by { SuffixIff(s); }
    assert Kept(a) == a by { AllKept(a); }
    assert Marked(b) == b by { AllMarked(b); }
    assert s == a + b;
    assert Kept(s) == a && Marked(s) == b by { FiltersOfConcat(a, b); }
    assert TailSlots(b) == b by {
      forall i | 0 <= i < |b| ensures TailSlots(b)[i] == b[i] { assert IsMarked(Marked(b)[i]); }
    }
  }

  lemma {:induction false} NonSuffixHole(s: seq<Slot>) returns (j: nat)
    requires !MarkedSuffix(s)
    ensures |Kept(s)| <= j < |s| == |Removed(s)|
    ensures |Partitioned(s)| == |s| && Removed(s)[j].Null? && Partitioned(s)[j].Own?
  {
    var k := |Kept(s)|;
    var b := s[k..];
    assert Kept(b) != [] by { SuffixIff(s); }
    assert |Marked(s)| == |s| - k by { SplitLengths(s); }
    var t := SomeKept(b);
    j := k + t;
    assert Removed(s)[j] == TailSlots(b)[t];
    assert IsMarked(Marked(s)[t]);
  }

  lemma {:induction false} KeptOwns(s: seq<Slot>)
    requires NoNull(s)
    ensures NoNull(Kept(s))
  {
    if s == [] {
    } else {
      KeptOwns(s[..|s| - 1]);
    }
  }

  /**
   * remove_if behaves like the stable partition exactly when the marked clients are a suffix;
   * otherwise it destroys a marked client and leaves a null slot in the tail.
   */
  lemma {:induction false} RemoveIfIsPartitionIff(s: seq<Slot>)
    requires NoNull(s)
    ensures Removed(s) == Partitioned(s) <==> MarkedSuffix(s)
    ensures Overwritten(s) == [] <==> MarkedSuffix(s)
    ensures NoNull(Removed(s)) <==> MarkedSuffix(s)
    ensures MarkedSuffix(s) ==> Removed(s) == s
  {
    SuffixIff(s);
    if MarkedSuffix(s) {
      SuffixUntouched(s);
    } else {
      var j := NonSuffixHole(s);
    }
  }

  // ----- the algorithm -----

  lemma {:induction false} FiltersStep(s: seq<Slot>, i: nat)
    requires i < |s|
    ensures Kept(s[..i + 1]) == Kept(s[..i]) + if IsMarked(s[i]) then [] else [s[i]]
    ensures Marked(s[..i + 1]) == Marked(s[..i]) + if IsMarked(s[i]) then [s[i]] else []
  {
    assert s[..i + 1][..i] == s[..i];
  }

  /** The vector when the algorithm has dealt with the first i elements. */
  function Stage(s: seq<Slot>, i: nat): (r: seq<Slot>)
    requires i <= |s|
    ensures |r| == |s| && |Kept(s[..i])| <= i
  {
    var k := |Kept(s[..i])|;
    Kept(s[..i]) + TailSlots(s[k..i]) + s[i..]
  }

  lemma {:induction false} StageMarked(s: seq<Slot>, i: nat)
    requires i < |s| && IsMarked(s[i])
    ensures Stage(s, i + 1) == Stage(s, i)
  {
    var k := |Kept(s[..i])|;
    FiltersStep(s, i);
    assert s[k..i + 1] == s[k..i] + [s[i]];
    assert TailSlots(s[k..i + 1]) == TailSlots(s[k..i]) + [s[i]];
    assert s[i..] == [s[i]] + s[i + 1..];
  }

  lemma {:induction false} StageKept(s: seq<Slot>, i: nat)
    requires i < |s| && !IsMarked(s[i]) && |Kept(s[..i])| < i
    ensures var k := |Kept(s[..i])|;
            Stage(s, i)[k] == TailSlot(s[k]) && Stage(s, i)[i] == s[i] &&
            Stage(s, i + 1) == Stage(s, i)[k := s[i]][i := Null]
  {
    var k := |Kept(s[..i])|;
    FiltersStep(s, i);
    var kept, tail := Kept(s[..i]), TailSlots(s[k..i]);
    assert TailSlots(s[k + 1..i + 1]) == tail[1..] + [Null] by { TailShift(s, k, i); }
    assert s[i..] == [s[i]] + s[i + 1..];
    assert Stage(s, i) == kept + tail + ([s[i]] + s[i + 1..]);
    assert Stage(s, i + 1) == (kept + [s[i]]) + (tail[1..] + [Null]) + s[i + 1..];
  }

  lemma {:induction false} TailShift(s: seq<Slot>, k: nat, i: nat)
    requires k < i < |s| && !IsMarked(s[i])
    ensures TailSlots(s[k + 1..i + 1]) == TailSlots(s[k..i])[1..] + [Null]
  {
    assert s[k + 1..i + 1] == s[k..i][1..] + [s[i]];
  }

  lemma {:induction false} StageBegin(s: seq<Slot>, i: nat)
    requires i <= |s| && Kept(s[..i]) == s[..i]
    ensures Stage(s, i) == s && |Kept(s[..i])| == i
  {
    assert s == s[..i] + s[i..];
    assert s[i..i] == [] && s[..i] + [] + s[i..] == s;
  }

  lemma {:induction false} StageEnd(s: seq<Slot>)
    ensures s[..|s|] == s && Stage(s, |s|) == Removed(s)
  {
    var k := |Kept(s)|;
    assert s[..|s|] == s && s[|s|..] == [] && s[k..|s|] == s[k..];
  }

  /** What turn i does, by whether element i is kept. */
  lemma {:induction false} StageTurn(s: seq<Slot>, i: nat)
    requires i < |s| && (|Kept(s[..i])| == i ==> IsMarked(s[i]))
    ensures var k := |Kept(s[..i])|;
            k <= i && Stage(s, i)[i] == s[i] &&
            if IsMarked(s[i]) then Stage(s, i + 1) == Stage(s, i) && |Kept(s[..i + 1])| == k
            else k < i && Stage(s, i + 1) == Stage(s, i)[k := s[i]][i := Null] && |Kept(s[..i + 1])| == k + 1 &&
                 Marked(s[..k + 1]) == Marked(s[..k]) + if Stage(s, i)[k].Own? then [Stage(s, i)[k]] else []
  {
    var k := |Kept(s[..i])|;
    FiltersStep(s, i);
    if IsMarked(s[i]) {
      StageMarked(s, i);
    } else {
      StageKept(s, i);
      FiltersStep(s, k);
    }
  }

  /** std::find_if with the sweep's predicate. */
  method FirstMarked(a: array<Slot>) returns (first: nat)
    ensures first <= a.Length && (first < a.Length ==> IsMarked(a[first]))
    ensures Kept(a[..first]) == a[..first] && Marked(a[..first]) == []
  {
    first := 0;
    while first < a.Length && !IsMarked(a[first])
      invariant first <= a.Length
      invariant Kept(a[..first]) == a[..first] && Marked(a[..first]) == []
    {
      FiltersStep(a[..], first);
      assert a[..][..first] == a[..first] && a[..][..first + 1] == a[..first + 1] == a[..first] + [a[first]];
      first := first + 1;
    }
  }

  /** a[to] = std::move(a[from]): what a[to] owned is destroyed, a[from] becomes null. */
  method MoveAssign(a: array<Slot>, to: nat, from: nat) returns (destroyed: seq<Slot>)
    requires to < from < a.Length
    modifies a
    ensures a[..] == old(a[..])[to := old(a[from])][from := Null]
    ensures destroyed == if old(a[to]).Own? then [old(a[to])] else []
  {
    destroyed := if a[to].Own? then [a[to]] else [];
    a[to] := a[from];
    a[from] := Null;
  }

  /**
   * std::remove_if with move assignment of unique_ptr: a moved-from slot becomes null, and
   * assigning to a slot destroys what it owned.
   */
  method RemoveIf(a: array<Slot>) returns (first: nat, destroyed: seq<Slot>)
    requires NoNull(a[..])
    modifies a
    ensures first == |Kept(old(a[..]))| && destroyed == Overwritten(old(a[..]))
    ensures a[..] == Removed(old(a[..]))
  {
    ghost var was := a[..];
    first := FirstMarked(a);
    destroyed := [];
    var i := first;
    assert was[..i] == a[..first];
    StageBegin(was, i);
    while i < a.Length
      invariant i <= a.Length == |was| && (i < a.Length && first == i ==> IsMarked(was[i]))
      invariant first == |Kept(was[..i])| && a[..] == Stage(was, i)
      invariant destroyed == Marked(was[..first])
    {
      StageTurn(was, i);
      assert a[i] == a[..][i] && a[first] == a[..][first];
      if !IsMarked(a[i]) {
        var lost := MoveAssign(a, first, i);
        destroyed := destroyed + lost;
        first := first + 1;
      }
      i := i + 1;
    }
    StageEnd(was);
  }
}
