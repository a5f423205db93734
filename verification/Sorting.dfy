/** The in-place exchange sort of snapshot listings, newest first. */
module Sorting {
  /** One line of a snapshot listing. */
  datatype Info = Info(name: string, created: int)

  ghost predicate NewestFirst(s: seq<Info>) {
    forall i, j | 0 <= i < j < |s| :: s[i].created >= s[j].created
  }

  function Swapped(s: seq<Info>, i: nat, j: nat): (r: seq<Info>)
    requires i < |s| && j < |s|
    ensures |r| == |s|
  {
    seq(|s|, k requires 0 <= k < |s| => if k == i then s[j] else if k == j then s[i] else s[k])
  }

  /** The inner loop from position j on: position i takes over every newer element it meets. */
  function Inner(s: seq<Info>, i: nat, j: nat): (r: seq<Info>)
    requires i < j && i < |s|
    ensures |r| == |s|
    decreases |s| - j
  {
    if j >= |s| then s
    else Inner(if s[j].created > s[i].created then Swapped(s, i, j) else s, i, j + 1)
  }

  /** The outer loop from position i on. */
  function Outer(s: seq<Info>, i: nat): (r: seq<Info>)
    ensures |r| == |s|
    decreases |s| - i
  {
    if i >= |s| then s else Outer(Inner(s, i, i + 1), i + 1)
  }

  function Exchanged(s: seq<Info>): (r: seq<Info>)
    ensures |r| == |s|
  {
    Outer(s, 0)
  }

  /** No element from position i on is newer than `bound`. */
  ghost predicate Below(s: seq<Info>, i: nat, bound: int) {
    forall k | i <= k < |s| :: s[k].created <= bound
  }

  lemma SwapBelow(s: seq<Info>, i: nat, j: nat, bound: int)
    requires i < j < |s|
    ensures Below(s, i, bound) ==> Below(Swapped(s, i, j), i, bound)
    ensures forall k | 0 <= k < i :: Swapped(s, i, j)[k] == s[k]
  {
  }

  /** The inner loop brings the newest of the rest to position i, leaves what lies
      before alone, and takes nothing from outside the rest. */
  lemma {:induction false} InnerSelects(s: seq<Info>, i: nat, j: nat, bound: int)
    requires i < j && i < |s|
    requires forall k | i < k < j && k < |s| :: s[k].created <= s[i].created
    ensures var r := Inner(s, i, j);
            && (forall k | 0 <= k < i :: r[k] == s[k])
            && Below(r, i, r[i].created)
            && (Below(s, i, bound) ==> Below(r, i, bound))
    decreases |s| - j
  {
    if j >= |s| {
    } else {
      if s[j].created > s[i].created {
        SwapBelow(s, i, j, bound);
        InnerSelects(Swapped(s, i, j), i, j + 1, bound);
      } else {
        InnerSelects(s, i, j + 1, bound);
      }
    }
  }

  lemma {:induction false} OuterSorts(s: seq<Info>, i: nat)
    requires i <= |s| && forall k | 0 <= k < i :: Below(s, k, s[k].created)
    ensures NewestFirst(Outer(s, i))
    decreases |s| - i
  {
    if i < |s| {
      var t := Inner(s, i, i + 1);
      InnerSelects(s, i, i + 1, 0);
      forall k | 0 <= k < i ensures Below(t, k, t[k].created) {
        InnerSelects(s, i, i + 1, s[k].created);
        assert Below(s, k, s[k].created) && t[k] == s[k];
      }
      OuterSorts(t, i + 1);
    } else {
      forall a, b | 0 <= a < b < |s| ensures s[a].created >= s[b].created {
        assert Below(s, a, s[a].created);
      }
    }
  }

  lemma SwapKeeps(s: seq<Info>, i: nat, j: nat)
    requires i < j < |s|
    ensures multiset(Swapped(s, i, j)) == multiset(s)
  {
    assert Swapped(s, i, j) == s[i := s[j]][j := s[i]];
  }

  /** One round of the inner loop. */
  lemma InnerRound(s: seq<Info>, i: nat, j: nat) returns (t: seq<Info>)
    requires i < j < |s|
    ensures |t| == |s| && Inner(s, i, j) == Inner(t, i, j + 1) && multiset(t) == multiset(s)
  {
    if s[j].created > s[i].created {
      t := Swapped(s, i, j);
      SwapKeeps(s, i, j);
    } else {
      t := s;
    }
  }

  lemma {:induction false} InnerKeeps(s: seq<Info>, i: nat, j: nat)
    requires i < j <= |s|
    ensures multiset(Inner(s, i, j)) == multiset(s)
    decreases |s| - j
  {
    if j == |s| {
    } else {
      var t := InnerRound(s, i, j);
      var r := Inner(t, i, j + 1);
      assert multiset(r) == multiset(t) by { InnerKeeps(t, i, j + 1); }
    }
  }

  lemma {:induction false} OuterKeeps(s: seq<Info>, i: nat)
    ensures multiset(Outer(s, i)) == multiset(s)
    decreases |s| - i
  {
    if i >= |s| {
    } else {
      InnerKeeps(s, i, i + 1);
      OuterKeeps(Inner(s, i, i + 1), i + 1);
    }
  }

  /** The result is ordered by creation time, newest first, and has the same elements. */
  lemma ExchangedSorts(s: seq<Info>)
    ensures NewestFirst(Exchanged(s)) && multiset(Exchanged(s)) == multiset(s)
  {
    OuterSorts(s, 0);
    OuterKeeps(s, 0);
  }

  lemma {:induction false} InnerIdle(s: seq<Info>, i: nat, j: nat)
    requires i < j && i < |s| && forall k | j <= k < |s| :: s[k].created <= s[i].created
    ensures Inner(s, i, j) == s
    decreases |s| - j
  {
    if j >= |s| {
    } else {
      InnerIdle(s, i, j + 1);
    }
  }

  /** What is in order stays as it is, ties included. */
  lemma {:induction false} OuterIdle(s: seq<Info>, i: nat)
    requires NewestFirst(s)
    ensures Outer(s, i) == s
    decreases |s| - i
  {
    if i >= |s| {
    } else {
      InnerIdle(s, i, i + 1);
      OuterIdle(s, i + 1);
    }
  }

  method SortByCreatedDesc(a: array<Info>)
    modifies a
    ensures a[..] == Exchanged(old(a[..]))
    ensures NewestFirst(a[..]) && multiset(a[..]) == multiset(old(a[..]))
  {
    ghost var was := a[..];
    var i := 0;
    while i < a.Length
      invariant 0 <= i <= a.Length && Outer(a[..], i) == Outer(was, 0)
    {
      ghost var before := a[..];
      var j := i + 1;
      while j < a.Length
        invariant i < j <= a.Length && Inner(a[..], i, j) == Inner(before, i, i + 1)
      {
        if a[j].created > a[i].created {
          assert a[..][i := a[j]][j := a[i]] == Swapped(a[..], i, j);
          a[i], a[j] := a[j], a[i];
        }
        j := j + 1;
      }
      i := i + 1;
    }
    ExchangedSorts(was);
  }
}
