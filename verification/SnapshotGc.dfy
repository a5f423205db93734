/** Which archived snapshots a collection removes, as a function of one listing. */
module SnapshotGc {
  import opened Common
  import opened Names
  import opened Sorting

  ghost predicate DistinctNames(l: seq<Info>) {
    forall i, j | 0 <= i < j < |l| :: l[i].name != l[j].name
  }

  /** The archived snapshots with a prefix, in listing order. */
  function GroupOf(l: seq<Info>, prefix: string): (g: seq<Info>)
    ensures |g| <= |l|
  {
    if l == [] then []
    else
      var init := GroupOf(l[..|l| - 1], prefix);
      if ArchivePrefix(l[|l| - 1].name) == Some(prefix) then init + [l[|l| - 1]] else init
  }

  /** What lies beyond the first `keep` of a sorted group. */
  function Beyond(g: seq<Info>, keep: nat): seq<Info> {
    if |g| <= keep then [] else g[keep..]
  }

  /** The names a collection removes from one group; `busy` holds the names of the
      snapshots clones depend on. */
  function GroupVictims(g: seq<Info>, keep: nat, busy: set<string>): set<string> {
    set s | s in Beyond(Exchanged(g), keep) && s.name !in busy :: s.name
  }

  /** A listed snapshot that a collection removes. */
  predicate Doomed(l: seq<Info>, keep: nat, busy: set<string>, s: Info) {
    var p := ArchivePrefix(s.name);
    p.Some? && s in Beyond(Exchanged(GroupOf(l, p.value)), keep) && s.name !in busy
  }

  /** All the names a collection removes: no order of the groups enters into it. */
  function Victims(l: seq<Info>, keep: nat, busy: set<string>): set<string> {
    set s | s in l && Doomed(l, keep, busy, s) :: s.name
  }

  /** The test for an archive name. */
  method PrefixOf(name: string) returns (prefix: Option<string>)
    ensures prefix == ArchivePrefix(name)
  {
    var cut := |name| - SUFFIX_LENGTH;
    if cut < 0 { return None; }
    var suffix := name[cut..];
    var date := IsAllDigits(suffix[1..9]);
    var time := IsAllDigits(suffix[10..16]);
    prefix := if suffix[0] == '-' && suffix[9] == '-' && date && time then Some(name[..cut]) else None;
  }

  /** The map of groups the collection starts from. */
  method GroupArchives(l: seq<Info>) returns (groups: map<string, seq<Info>>)
    ensures forall p :: p in groups <==> GroupOf(l, p) != []
    ensures forall p | p in groups :: groups[p] == GroupOf(l, p)
  {
    groups := map[];
    var i := 0;
    while i < |l|
      invariant 0 <= i <= |l|
      invariant forall p :: p in groups <==> GroupOf(l[..i], p) != []
      invariant forall p | p in groups :: groups[p] == GroupOf(l[..i], p)
    {
      assert l[..i + 1][..i] == l[..i];
      var s := l[i];
      var prefix := PrefixOf(s.name);
      if prefix.Some? {
        var p := prefix.value;
        groups := groups[p := (if p in groups then groups[p] else []) + [s]];
      }
      i := i + 1;
    }
    assert l[..|l|] == l;
  }

  // ---- groups and their sorted form ----

  lemma {:induction false} GroupMembers(l: seq<Info>, prefix: string)
    ensures forall s :: s in GroupOf(l, prefix) <==> s in l && ArchivePrefix(s.name) == Some(prefix)
    ensures DistinctNames(l) ==> DistinctNames(GroupOf(l, prefix))
  {
    if l == [] {
    } else {
      var init, last := l[..|l| - 1], l[|l| - 1];
      GroupMembers(init, prefix);
      assert l == init + [last];
      forall s ensures s in l <==> s in init || s == last {
      }
      var g := GroupOf(init, prefix);
      if DistinctNames(l) {
        forall i | 0 <= i < |g| ensures g[i].name != last.name {
          assert g[i] in init;
        }
      }
    }
  }

  /** A group is in listing order. */
  lemma {:induction false} GroupInOrder(l: seq<Info>, prefix: string, i: nat, j: nat) returns (a: nat, b: nat)
    requires i < j < |GroupOf(l, prefix)|
    ensures a < b < |l| && l[a] == GroupOf(l, prefix)[i] && l[b] == GroupOf(l, prefix)[j]
  {
    var init, last := l[..|l| - 1], l[|l| - 1];
    var g := GroupOf(init, prefix);
    if j < |g| {
      a, b := GroupInOrder(init, prefix, i, j);
    } else {
      GroupMembers(init, prefix);
      assert g[i] in init;
      a :| 0 <= a < |init| && init[a] == g[i];
      b := |l| - 1;
    }
  }

  lemma SortedMembers(g: seq<Info>)
    ensures forall s :: s in Exchanged(g) <==> s in g
    ensures NewestFirst(Exchanged(g))
    ensures DistinctNames(g) ==> DistinctNames(Exchanged(g))
  {
    ExchangedSorts(g);
    var r := Exchanged(g);
    forall s ensures s in r <==> s in g {
      assert s in multiset(r) <==> s in multiset(g);
    }
    if DistinctNames(g) {
      forall i, j | 0 <= i < j < |r| ensures r[i].name != r[j].name {
        TwiceInMultiset(r, i, j);
        TwiceOrDistinct(g, r[i], r[j]);
      }
    }
  }

  lemma TwiceInMultiset(r: seq<Info>, i: nat, j: nat)
    requires i < j < |r|
    ensures r[i] == r[j] ==> multiset(r)[r[i]] >= 2
  {
    assert r == r[..j] + [r[j]] + r[j + 1..];
    assert r[i] in multiset(r[..j]) by { assert r[..j][i] == r[i]; }
  }

  lemma {:induction false} OnceInMultiset(g: seq<Info>, x: Info)
    requires DistinctNames(g)
    ensures multiset(g)[x] <= 1
  {
    if g == [] {
    } else {
      var init := g[..|g| - 1];
      assert g == init + [g[|g| - 1]];
      OnceInMultiset(init, x);
      if x == g[|g| - 1] {
        assert forall k | 0 <= k < |init| :: init[k] != x;
        assert x !in multiset(init);
      }
    }
  }

  /** Two elements of a listing without repeated names share a name only if they are
      one element, occurring once. */
  lemma TwiceOrDistinct(g: seq<Info>, x: Info, y: Info)
    requires DistinctNames(g) && multiset(g)[x] >= 1 && multiset(g)[y] >= 1
    requires x == y ==> multiset(g)[x] >= 2
    ensures x.name != y.name
  {
    OnceInMultiset(g, x);
    assert x in multiset(g) && y in multiset(g);
    assert x in g && y in g;
  }

  /** The group of a prefix, sorted: the order the collection works by. */
  function Ranked(l: seq<Info>, prefix: string): seq<Info> {
    Exchanged(GroupOf(l, prefix))
  }

  lemma RankedMembers(l: seq<Info>, prefix: string)
    requires DistinctNames(l)
    ensures forall s :: s in Ranked(l, prefix) <==> s in l && ArchivePrefix(s.name) == Some(prefix)
    ensures NewestFirst(Ranked(l, prefix)) && DistinctNames(Ranked(l, prefix))
  {
    GroupMembers(l, prefix);
    SortedMembers(GroupOf(l, prefix));
  }

  // ---- what a collection keeps ----

  /** Exactly the archived snapshots beyond the first `keep` of their group that no
      clone depends on are removed. */
  lemma ExactlyTheOldUnused(l: seq<Info>, keep: nat, busy: set<string>, i: nat, prefix: string)
    requires DistinctNames(l) && i < |Ranked(l, prefix)|
    ensures var s := Ranked(l, prefix)[i];
            s.name in Victims(l, keep, busy) <==> i >= keep && s.name !in busy
  {
    RankedMembers(l, prefix);
    var g := Ranked(l, prefix);
    var s := g[i];
    assert s in g;
    if i >= keep && s.name !in busy {
      assert s == Beyond(g, keep)[i - keep];
      assert Doomed(l, keep, busy, s);
    }
    if s.name in Victims(l, keep, busy) {
      var t :| t in l && Doomed(l, keep, busy, t) && t.name == s.name;
      assert t == s;
      var k :| 0 <= k < |Beyond(g, keep)| && Beyond(g, keep)[k] == s;
      assert g[keep + k] == g[i];
    }
  }

  /** The victims of one group are the victims with its prefix. */
  lemma GroupVictimsAre(l: seq<Info>, keep: nat, busy: set<string>, prefix: string)
    requires DistinctNames(l)
    ensures forall n :: n in GroupVictims(GroupOf(l, prefix), keep, busy) <==>
                        n in Victims(l, keep, busy) && ArchivePrefix(n) == Some(prefix)
  {
    RankedMembers(l, prefix);
    var late := Beyond(Ranked(l, prefix), keep);
    assert forall s | s in late :: s in Ranked(l, prefix);
    forall s | s in late && s.name !in busy ensures s.name in Victims(l, keep, busy) {
      assert s in l && Doomed(l, keep, busy, s);
    }
    forall n | n in Victims(l, keep, busy) && ArchivePrefix(n) == Some(prefix)
      ensures n in GroupVictims(GroupOf(l, prefix), keep, busy)
    {
      var s :| s in l && Doomed(l, keep, busy, s) && s.name == n;
      assert s in late;
    }
  }

  /** A snapshot whose name does not end in a dash, eight digits, a dash and six digits is
      never removed. */
  lemma OthersUntouched(l: seq<Info>, keep: nat, busy: set<string>, name: string)
    requires |name| >= 16 ==>
               var s := name[|name| - 16..];
               !(s[0] == '-' && s[9] == '-' && forall i | 1 <= i < 9 || 10 <= i < 16 :: '0' <= s[i] <= '9')
    ensures name !in Victims(l, keep, busy)
  {
    if |name| >= 16 { StampSuffixExactly(name[|name| - 16..]); }
  }

  /** The name of a victim ends in a dash, eight digits, a dash and six digits. */
  lemma VictimStamped(l: seq<Info>, keep: nat, n: string)
    requires n in Victims(l, keep, {})
    ensures |n| >= 16 && n[|n| - 16] == '-' && n[|n| - 7] == '-' &&
            forall i | |n| - 15 <= i < |n| && i != |n| - 7 :: '0' <= n[i] <= '9'
  {
    var s := n[|n| - 16..];
    StampSuffixExactly(s);
    forall i | |n| - 15 <= i < |n| && i != |n| - 7 ensures '0' <= n[i] <= '9' {
      assert n[i] == s[i - (|n| - 16)];
    }
  }

  /** Every removed snapshot leaves behind `keep` members of its group that were
      created no earlier. */
  lemma SurvivorsAreNewer(l: seq<Info>, keep: nat, busy: set<string>, s: Info)
    requires DistinctNames(l) && s in l && Doomed(l, keep, busy, s)
    ensures var g := Ranked(l, ArchivePrefix(s.name).value);
            && |g| > keep
            && DistinctNames(g)
            && forall k | 0 <= k < keep ::
                 && g[k] in l && ArchivePrefix(g[k].name) == ArchivePrefix(s.name)
                 && g[k].created >= s.created
                 && g[k].name !in Victims(l, keep, busy)
  {
    var p := ArchivePrefix(s.name).value;
    var g := Ranked(l, p);
    RankedMembers(l, p);
    var j :| 0 <= j < |Beyond(g, keep)| && Beyond(g, keep)[j] == s;
    forall k | 0 <= k < keep
      ensures g[k] in l && ArchivePrefix(g[k].name) == Some(p) && g[k].created >= s.created
      ensures g[k].name !in Victims(l, keep, busy)
    {
      assert g[k] in g && g[keep + j] == s;
      ExactlyTheOldUnused(l, keep, busy, k, p);
    }
  }

  // ---- collecting twice ----

  /** In every group, each kept snapshot not in use is newer than each one in use
      beyond the cut. */
  ghost predicate Settled(l: seq<Info>, keep: nat, busy: set<string>) {
    forall p: string, i, j | 0 <= i < keep <= j < |Ranked(l, p)| ::
      Ranked(l, p)[j].name in busy && Ranked(l, p)[i].name !in busy ==>
        Ranked(l, p)[i].created > Ranked(l, p)[j].created
  }

  /** In no group is the last kept snapshot as old as the first beyond it. */
  ghost predicate NoTieAtCut(l: seq<Info>, keep: nat) {
    forall p: string :: 0 < keep < |Ranked(l, p)| ==> Ranked(l, p)[keep - 1].created > Ranked(l, p)[keep].created
  }

  /** `m` lists what a collection over `l` leaves, in any order. */
  ghost predicate LeftOver(l: seq<Info>, keep: nat, busy: set<string>, m: seq<Info>) {
    DistinctNames(m) && forall s :: s in m <==> s in l && !Doomed(l, keep, busy, s)
  }

  lemma DistinctPrefix(g: seq<Info>, n: nat)
    requires DistinctNames(g) && n <= |g|
    ensures |Elements(g[..n])| == n
  {
    assert Distinct(g[..n]) by {
      forall i, j | 0 <= i < j < n ensures g[..n][i] != g[..n][j] {
        assert g[i].name != g[j].name;
      }
    }
    DistinctCount(g[..n]);
  }

  /** A second collection finds nothing to remove, whatever the order in which the first
      one's leavings are listed, exactly if the first left its groups settled. */
  lemma SecondRunIdleExactly(l: seq<Info>, keep: nat, busy: set<string>)
    requires DistinctNames(l)
    ensures Settled(l, keep, busy) <==>
            forall m :: LeftOver(l, keep, busy, m) ==> Victims(m, keep, busy) == {}
  {
    if Settled(l, keep, busy) {
      forall m | LeftOver(l, keep, busy, m) ensures Victims(m, keep, busy) == {} {
        forall v | v in m ensures !Doomed(m, keep, busy, v) {
          KeptAgain(l, keep, busy, m, v);
        }
      }
    } else {
      var p: string, i, j :| 0 <= i < keep <= j < |Ranked(l, p)| && Ranked(l, p)[j].name in busy
        && Ranked(l, p)[i].name !in busy && Ranked(l, p)[i].created <= Ranked(l, p)[j].created;
      var m := UnsettledRemovesMore(l, keep, busy, p, i, j);
      assert LeftOver(l, keep, busy, m);
    }
  }

  /** Without a tie at the cut, a second collection finds nothing to remove. */
  lemma SecondRunIdle(l: seq<Info>, keep: nat, busy: set<string>, m: seq<Info>)
    requires DistinctNames(l) && NoTieAtCut(l, keep) && LeftOver(l, keep, busy, m)
    ensures Victims(m, keep, busy) == {}
  {
    NoTieSettled(l, keep, busy);
    SecondRunIdleExactly(l, keep, busy);
  }

  lemma NoTieSettled(l: seq<Info>, keep: nat, busy: set<string>)
    requires DistinctNames(l) && NoTieAtCut(l, keep)
    ensures Settled(l, keep, busy)
  {
    forall p: string, i, j | 0 <= i < keep <= j < |Ranked(l, p)|
      ensures Ranked(l, p)[i].created > Ranked(l, p)[j].created
    {
      RankedMembers(l, p);
      ApartAtCut(Ranked(l, p), keep, i, j);
    }
  }

  lemma ApartAtCut(g: seq<Info>, keep: nat, i: nat, j: nat)
    requires NewestFirst(g) && i < keep <= j < |g| && g[keep - 1].created > g[keep].created
    ensures g[i].created > g[j].created
  {
    assert i < keep - 1 ==> g[i].created >= g[keep - 1].created;
    assert keep < j ==> g[keep].created >= g[j].created;
  }

  lemma KeptAgain(l: seq<Info>, keep: nat, busy: set<string>, m: seq<Info>, v: Info)
    requires DistinctNames(l) && Settled(l, keep, busy) && LeftOver(l, keep, busy, m) && v in m
    ensures !Doomed(m, keep, busy, v)
  {
    if ArchivePrefix(v.name).Some? && v.name !in busy {
      var p := ArchivePrefix(v.name).value;
      var g, h := Ranked(l, p), Ranked(m, p);
      RankedMembers(l, p);
      RankedMembers(m, p);
      assert v in g && v in h;
      var a :| 0 <= a < |g| && g[a] == v;
      assert forall t | t in l && t.name == v.name :: t == v;
      ExactlyTheOldUnused(l, keep, busy, a, p);
      if a < keep { StillAmongFirst(l, keep, busy, m, p, a, v); }
    }
  }

  lemma StillAmongFirst(l: seq<Info>, keep: nat, busy: set<string>, m: seq<Info>, p: string, a: nat, v: Info)
    requires DistinctNames(l) && Settled(l, keep, busy) && LeftOver(l, keep, busy, m) && v.name !in busy
    requires a < keep && a < |Ranked(l, p)| && Ranked(l, p)[a] == v
    ensures v !in Beyond(Ranked(m, p), keep)
  {
    var late := Beyond(Ranked(m, p), keep);
    forall k | 0 <= k < |late| ensures late[k] != v {
      if late[k] == v { RankKept(l, keep, busy, m, p, a, keep + k); }
    }
  }

  /** The first `keep` of a group as a set. */
  function TopSet(g: seq<Info>, keep: nat): set<Info> {
    if keep <= |g| then Elements(g[..keep]) else Elements(g)
  }

  /** One of the first `keep`, not in use, is still among the first `keep` of what is left. */
  lemma RankKept(l: seq<Info>, keep: nat, busy: set<string>, m: seq<Info>, p: string, a: nat, b: nat)
    requires DistinctNames(l) && Settled(l, keep, busy) && LeftOver(l, keep, busy, m)
    requires a < keep && a < |Ranked(l, p)| && b < |Ranked(m, p)| && Ranked(m, p)[b] == Ranked(l, p)[a]
    requires Ranked(l, p)[a].name !in busy
    ensures b < keep
  {
    var g, h := Ranked(l, p), Ranked(m, p);
    var v := g[a];
    RankedMembers(l, p);
    RankedMembers(m, p);
    var before := Elements(h[..b]);
    var top := TopSet(g, keep);
    forall s | s in before ensures s in top - {v} {
      var k :| 0 <= k < b && h[k] == s;
      assert s in h && s in m && s in g;
      assert h[k].name != h[b].name;
      InTop(l, keep, busy, p, s, a);
    }
    assert v in top by {
      if keep <= |g| { assert g[..keep][a] == v; }
    }
    DistinctPrefix(h, b);
    DistinctPrefix(g, if keep <= |g| then keep else |g|);
    assert g[..|g|] == g;
    Subset(before, top - {v});
  }

  /** A member that is left over and at least as new as one of the first `keep` that is
      not in use is itself among them. */
  lemma InTop(l: seq<Info>, keep: nat, busy: set<string>, p: string, s: Info, a: nat)
    requires DistinctNames(l) && Settled(l, keep, busy) && !Doomed(l, keep, busy, s)
    requires a < keep && a < |Ranked(l, p)| && Ranked(l, p)[a].name !in busy
    requires s in Ranked(l, p) && s.created >= Ranked(l, p)[a].created
    ensures s in TopSet(Ranked(l, p), keep)
  {
    var g := Ranked(l, p);
    RankedMembers(l, p);
    var i :| 0 <= i < |g| && g[i] == s;
    if i < keep {
      assert keep <= |g| ==> g[..keep][i] == s;
    } else {
      LateKept(l, keep, busy, p, i);
    }
  }

  /** What is left over beyond the cut is in use. */
  lemma LateKept(l: seq<Info>, keep: nat, busy: set<string>, p: string, i: nat)
    requires DistinctNames(l) && keep <= i < |Ranked(l, p)| && !Doomed(l, keep, busy, Ranked(l, p)[i])
    ensures Ranked(l, p)[i].name in busy
  {
    var g := Ranked(l, p);
    RankedMembers(l, p);
    assert Beyond(g, keep)[i - keep] == g[i];
    assert g[i] in g;
  }

  /** Distinct creation times within each group leave no tie at any cut. */
  lemma DistinctTimesNoTie(l: seq<Info>, keep: nat)
    requires DistinctNames(l)
    requires forall s, t | s in l && t in l && s != t && ArchivePrefix(s.name) == ArchivePrefix(t.name) ::
               s.created != t.created
    ensures NoTieAtCut(l, keep)
  {
    forall p: string | 0 < keep < |Ranked(l, p)|
      ensures Ranked(l, p)[keep - 1].created > Ranked(l, p)[keep].created
    {
      RankedMembers(l, p);
      var g := Ranked(l, p);
      assert g[keep - 1] in g && g[keep] in g && g[keep - 1].name != g[keep].name;
    }
  }

  // ---- when a second collection removes more ----

  /** The elements of a sequence that satisfy a condition, in order. */
  function Filter(s: seq<Info>, f: Info -> bool): seq<Info> {
    if s == [] then []
    else
      var init := Filter(s[..|s| - 1], f);
      if f(s[|s| - 1]) then init + [s[|s| - 1]] else init
  }

  lemma {:induction false} FilterMembers(s: seq<Info>, f: Info -> bool)
    ensures forall x :: x in Filter(s, f) <==> x in s && f(x)
    ensures DistinctNames(s) ==> DistinctNames(Filter(s, f))
    ensures NewestFirst(s) ==> NewestFirst(Filter(s, f))
  {
    if s == [] {
    } else {
      var init, last := s[..|s| - 1], s[|s| - 1];
      FilterMembers(init, f);
      assert s == init + [last];
      var r := Filter(init, f);
      forall i | 0 <= i < |r|
        ensures DistinctNames(s) ==> r[i].name != last.name
        ensures NewestFirst(s) ==> r[i].created >= last.created
      {
        assert r[i] in init;
      }
    }
  }

  lemma {:induction false} GroupOfConcat(a: seq<Info>, b: seq<Info>, prefix: string)
    ensures GroupOf(a + b, prefix) == GroupOf(a, prefix) + GroupOf(b, prefix)
  {
    if b == [] {
      assert a + b == a;
    } else {
      assert (a + b)[..|a + b| - 1] == a + b[..|b| - 1];
      GroupOfConcat(a, b[..|b| - 1], prefix);
    }
  }

  /** The group as left over by the first collection, with the kept snapshot i moved just
      behind the snapshot j in use that was created at the same time. */
  function Reordered(g: seq<Info>, keep: nat, busy: set<string>, i: nat, j: nat): seq<Info>
    requires i < keep <= j < |g|
  {
    g[..i] + g[i + 1..keep] + [g[j], g[i]] + Filter(g[keep..j] + g[j + 1..], (s: Info) => s.name in busy)
  }

  /** Where the element at x of the front came from. */
  function Place(keep: nat, i: nat, j: nat, x: nat): nat {
    if x < i then x else if x + 1 < keep then x + 1 else if x + 1 == keep then j else i
  }

  /** The kept members with the one in use at j, i last. */
  lemma FrontMembers(g: seq<Info>, keep: nat, i: nat, j: nat)
    requires i < keep <= j < |g| && DistinctNames(g)
    ensures var front := g[..i] + g[i + 1..keep] + [g[j], g[i]];
            && DistinctNames(front)
            && (forall s :: s in front <==> s in g[..keep] || s == g[j])
  {
    var front := g[..i] + g[i + 1..keep] + [g[j], g[i]];
    forall x | 0 <= x < |front| ensures front[x] == g[Place(keep, i, j, x)] {
    }
    forall k | 0 <= k < keep ensures g[k] in front {
      var x := if k < i then k else if k == i then keep else k - 1;
      assert front[x] == g[k];
    }
    assert front[keep - 1] == g[j];
    forall x | 0 <= x < |front| ensures front[x] in g[..keep] || front[x] == g[j] {
      if x != keep - 1 { assert g[..keep][Place(keep, i, j, x)] == front[x]; }
    }
    forall x, y | 0 <= x < y < |front| ensures front[x].name != front[y].name {
      assert Place(keep, i, j, x) != Place(keep, i, j, y);
    }
  }

  /** The members beyond the cut without the one at j. */
  lemma BackMembers(g: seq<Info>, keep: nat, j: nat)
    requires keep <= j < |g| && DistinctNames(g)
    ensures var back := g[keep..j] + g[j + 1..];
            && DistinctNames(back)
            && (forall s :: s in g <==> s in g[..keep] || s == g[j] || s in back)
            && (forall s, t | s in back && (t in g[..keep] || t == g[j]) :: s.name != t.name)
  {
    var back := g[keep..j] + g[j + 1..];
    assert forall y | 0 <= y < |back| :: back[y] == g[if y < j - keep then keep + y else keep + y + 1];
    forall k | keep <= k < |g| && k != j ensures g[k] in back {
      assert back[if k < j then k - keep else k - keep - 1] == g[k];
    }
    assert forall k | 0 <= k < keep :: g[..keep][k] == g[k];
  }

  lemma ReorderedMembers(g: seq<Info>, keep: nat, busy: set<string>, i: nat, j: nat)
    requires i < keep <= j < |g| && DistinctNames(g) && g[j].name in busy
    ensures forall s :: s in Reordered(g, keep, busy, i, j) <==> s in g && (s in g[..keep] || s.name in busy)
    ensures DistinctNames(Reordered(g, keep, busy, i, j))
  {
    var front, back := g[..i] + g[i + 1..keep] + [g[j], g[i]], g[keep..j] + g[j + 1..];
    var inUse := (s: Info) => s.name in busy;
    FrontMembers(g, keep, i, j);
    BackMembers(g, keep, j);
    FilterMembers(back, inUse);
    assert Reordered(g, keep, busy, i, j) == front + Filter(back, inUse);
    DistinctJoined(front, Filter(back, inUse));
  }

  lemma DistinctJoined(a: seq<Info>, b: seq<Info>)
    requires DistinctNames(a) && DistinctNames(b) && forall s, t | s in a && t in b :: s.name != t.name
    ensures DistinctNames(a + b)
  {
    forall x, y | 0 <= x < y < |a + b| ensures (a + b)[x].name != (a + b)[y].name {
      if x < |a| <= y { assert a[x] in a && b[y - |a|] in b; }
    }
  }

  lemma ReorderedSorted(g: seq<Info>, keep: nat, busy: set<string>, i: nat, j: nat)
    requires i < keep <= j < |g| && NewestFirst(g) && g[i].created == g[j].created
    ensures NewestFirst(Reordered(g, keep, busy, i, j))
  {
    var inUse := (s: Info) => s.name in busy;
    var front, back := g[..i] + g[i + 1..keep] + [g[j], g[i]], g[keep..j] + g[j + 1..];
    FilterMembers(back, inUse);
    FrontSorted(g, keep, i, j);
    forall y | 0 <= y < |Filter(back, inUse)| ensures Filter(back, inUse)[y].created <= g[i].created {
      assert Filter(back, inUse)[y] in back;
    }
    SortedJoined(front, Filter(back, inUse), g[i].created);
  }

  lemma FrontSorted(g: seq<Info>, keep: nat, i: nat, j: nat)
    requires i < keep <= j < |g| && NewestFirst(g) && g[i].created == g[j].created
    ensures var front := g[..i] + g[i + 1..keep] + [g[j], g[i]];
            NewestFirst(front) && forall x | 0 <= x < |front| :: front[x].created >= g[i].created
  {
    var front := g[..i] + g[i + 1..keep] + [g[j], g[i]];
    forall x | 0 <= x < |front|
      ensures front[x] == g[Place(keep, i, j, x)] && front[x].created >= g[i].created
    {
      assert Place(keep, i, j, x) < j ==> g[Place(keep, i, j, x)].created >= g[j].created;
    }
    forall x, y | 0 <= x < y < |front| ensures front[x].created >= front[y].created {
      if y < keep - 1 {
        assert Place(keep, i, j, x) < Place(keep, i, j, y);
      } else {
        assert front[y].created == g[i].created;
      }
    }
  }

  lemma SortedJoined(a: seq<Info>, b: seq<Info>, cut: int)
    requires NewestFirst(a) && NewestFirst(b)
    requires forall x | 0 <= x < |a| :: a[x].created >= cut
    requires forall y | 0 <= y < |b| :: b[y].created <= cut
    ensures NewestFirst(a + b)
  {
  }

  /** Of an unsettled group: a listing of what the first collection left from which a
      second one removes the snapshot at position i. */
  lemma UnsettledRemovesMore(l: seq<Info>, keep: nat, busy: set<string>, p: string, i: nat, j: nat)
    returns (m: seq<Info>)
    requires DistinctNames(l) && i < keep <= j < |Ranked(l, p)|
    requires Ranked(l, p)[j].name in busy && Ranked(l, p)[i].name !in busy
    requires Ranked(l, p)[i].created <= Ranked(l, p)[j].created
    ensures LeftOver(l, keep, busy, m)
    ensures Ranked(l, p)[i].name in Victims(m, keep, busy)
  {
    var g := Ranked(l, p);
    RankedMembers(l, p);
    var h := Reordered(g, keep, busy, i, j);
    ReorderedMembers(g, keep, busy, i, j);
    ReorderedSorted(g, keep, busy, i, j);
    var others := Filter(l, (s: Info) => !Doomed(l, keep, busy, s) && ArchivePrefix(s.name) != Some(p));
    FilterMembers(l, (s: Info) => !Doomed(l, keep, busy, s) && ArchivePrefix(s.name) != Some(p));
    m := h + others;
    ReorderedLeftOver(l, keep, busy, p, h, others);
    RankedReordered(h, others, p);
    assert h[keep] == g[i];
    assert Beyond(h, keep)[0] == g[i];
    assert Doomed(m, keep, busy, g[i]);
  }

  lemma ReorderedLeftOver(l: seq<Info>, keep: nat, busy: set<string>, p: string, h: seq<Info>, others: seq<Info>)
    requires DistinctNames(l) && DistinctNames(h) && DistinctNames(others) && keep <= |Ranked(l, p)|
    requires forall s :: s in h <==> s in Ranked(l, p) && (s in Ranked(l, p)[..keep] || s.name in busy)
    requires forall s :: s in others <==> s in l && !Doomed(l, keep, busy, s) && ArchivePrefix(s.name) != Some(p)
    ensures LeftOver(l, keep, busy, h + others)
  {
    var g := Ranked(l, p);
    RankedMembers(l, p);
    DistinctJoined(h, others);
    forall s | s in g ensures s in h <==> !Doomed(l, keep, busy, s) {
      LeftOverInGroup(l, keep, busy, p, s);
    }
  }

  lemma LeftOverInGroup(l: seq<Info>, keep: nat, busy: set<string>, p: string, s: Info)
    requires DistinctNames(l) && s in Ranked(l, p) && keep <= |Ranked(l, p)|
    ensures Doomed(l, keep, busy, s) <==> s !in Ranked(l, p)[..keep] && s.name !in busy
  {
    var g := Ranked(l, p);
    RankedMembers(l, p);
    var k :| 0 <= k < |g| && g[k] == s;
    Sides(g, keep, k);
  }

  lemma Sides(g: seq<Info>, keep: nat, k: nat)
    requires DistinctNames(g) && keep <= |g| && k < |g|
    ensures g[k] in g[..keep] <==> k < keep
    ensures g[k] in Beyond(g, keep) <==> k >= keep
  {
    if k < keep {
      assert g[..keep][k] == g[k];
      assert forall b | 0 <= b < |Beyond(g, keep)| :: Beyond(g, keep)[b] == g[keep + b];
    } else {
      assert Beyond(g, keep)[k - keep] == g[k];
      assert forall b | 0 <= b < keep :: g[..keep][b] == g[b];
    }
  }

  lemma {:induction false} GroupNone(l: seq<Info>, prefix: string)
    requires forall s | s in l :: ArchivePrefix(s.name) != Some(prefix)
    ensures GroupOf(l, prefix) == []
  {
    if l == [] {
    } else {
      assert l[|l| - 1] in l;
      GroupNone(l[..|l| - 1], prefix);
    }
  }

  /** A group already in order is ranked as it is listed. */
  lemma RankedReordered(h: seq<Info>, others: seq<Info>, p: string)
    requires NewestFirst(h) && forall s | s in h :: ArchivePrefix(s.name) == Some(p)
    requires forall s | s in others :: ArchivePrefix(s.name) != Some(p)
    ensures Ranked(h + others, p) == h
  {
    GroupOfConcat(h, others, p);
    GroupAll(h, p);
    GroupNone(others, p);
    assert h + [] == h;
    OuterIdle(h, 0);
  }

  lemma {:induction false} Subset(a: set<Info>, b: set<Info>)
    requires a <= b
    ensures |a| <= |b|
  {
    if a == {} {
    } else {
      var x :| x in a;
      Subset(a - {x}, b - {x});
    }
  }

  /** With a tie at the cut a second collection may remove more: of three snapshots
      created together and a later one, the collection keeping two removes the first
      listed; once it is gone the sort brings the one in use to the front, and the next
      collection removes another. */
  lemma TieRemovesMore(prefix: string, r: Info, a: Info, b: Info, c: Info)
    requires DistinctNames([r, a, b, c])
    requires forall s | s in [r, a, b, c] :: ArchivePrefix(s.name) == Some(prefix)
    requires r.created == a.created == b.created < c.created
    ensures Victims([r, a, b, c], 2, {b.name}) == {r.name}
    ensures Victims([a, b, c], 2, {b.name}) == {a.name}
  {
    var l := [r, a, b, c];
    assert l[0].name != l[2].name && l[1].name != l[2].name;
    assert r in l && a in l && b in l && c in l;
    FirstRun(prefix, r, a, b, c);
    SecondRun(prefix, a, b, c);
  }

  lemma FirstRun(prefix: string, r: Info, a: Info, b: Info, c: Info)
    requires ArchivePrefix(r.name) == ArchivePrefix(a.name) == Some(prefix)
    requires ArchivePrefix(b.name) == ArchivePrefix(c.name) == Some(prefix)
    requires r.name != b.name && r.created == a.created == b.created < c.created
    ensures Victims([r, a, b, c], 2, {b.name}) == {r.name}
  {
    RankFour(r, a, b, c);
    OneGroup([r, a, b, c], prefix, 2, {b.name}, [b, r]);
    assert r in [b, r];
  }

  lemma SecondRun(prefix: string, a: Info, b: Info, c: Info)
    requires ArchivePrefix(a.name) == ArchivePrefix(b.name) == ArchivePrefix(c.name) == Some(prefix)
    requires a.name != b.name && a.created == b.created < c.created
    ensures Victims([a, b, c], 2, {b.name}) == {a.name}
  {
    RankThree(a, b, c);
    OneGroup([a, b, c], prefix, 2, {b.name}, [a]);
    assert a in [a];
  }

  /** The victims of a listing that is one group. */
  lemma OneGroup(l: seq<Info>, prefix: string, keep: nat, busy: set<string>, late: seq<Info>)
    requires forall s | s in l :: ArchivePrefix(s.name) == Some(prefix)
    requires late == Beyond(Exchanged(l), keep) && forall s | s in late :: s in l
    ensures Victims(l, keep, busy) == set s | s in late && s.name !in busy :: s.name
  {
    GroupAll(l, prefix);
    forall s | s in late && s.name !in busy ensures s.name in Victims(l, keep, busy) {
      assert Doomed(l, keep, busy, s);
    }
  }

  lemma RankFour(r: Info, a: Info, b: Info, c: Info)
    requires r.created == a.created == b.created < c.created
    ensures Exchanged([r, a, b, c]) == [c, a, b, r]
  {
    var l := [r, a, b, c];
    assert Inner(l, 0, 1) == Inner(l, 0, 2) == Inner(l, 0, 3) == Inner(Swapped(l, 0, 3), 0, 4);
    assert Swapped(l, 0, 3) == [c, a, b, r];
    OuterIdle([c, a, b, r], 1);
    assert Exchanged(l) == Outer(Inner(l, 0, 1), 1);
  }

  lemma RankThree(a: Info, b: Info, c: Info)
    requires a.created == b.created < c.created
    ensures Exchanged([a, b, c]) == [c, b, a]
  {
    var l := [a, b, c];
    assert Inner(l, 0, 1) == Inner(l, 0, 2) == Inner(Swapped(l, 0, 2), 0, 3);
    assert Swapped(l, 0, 2) == [c, b, a];
    OuterIdle([c, b, a], 1);
    assert Exchanged(l) == Outer(Inner(l, 0, 1), 1);
  }

  /** A listing of one group is that group. */
  lemma {:induction false} GroupAll(l: seq<Info>, prefix: string)
    requires forall s | s in l :: ArchivePrefix(s.name) == Some(prefix)
    ensures GroupOf(l, prefix) == l
  {
    if l == [] {
    } else {
      GroupAll(l[..|l| - 1], prefix);
      assert l[|l| - 1] in l;
      assert l == l[..|l| - 1] + [l[|l| - 1]];
    }
  }
}
