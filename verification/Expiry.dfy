/** The expiry of a branch over a series of passes, run when their answers ask for it. */
module Expiry {
  import opened Common
  import opened Branches
  import opened Ttl
  import opened Lifecycle
  import opened LifecycleInvariant
  import opened Convergence
  import opened Answers

  /** Cells between passes, one more than there are passes. */
  ghost predicate Spaced(cells: seq<Cell>, xs: seq<Inputs>) {
    |cells| == |xs| + 1 && forall i | 0 <= i < |cells| :: cells[i].Ok() && cells[i].pc.Idle?
  }

  /** Pass i, undisturbed, makes one cell of the one before. */
  ghost predicate Made(cfg: Config, name: string, cells: seq<Cell>, xs: seq<Inputs>, i: nat)
    requires Spaced(cells, xs) && i < |xs|
  {
    cells[i + 1] == Pass(cfg, name, cells[i], xs[i])
  }

  ghost predicate Driven(cfg: Config, name: string, cells: seq<Cell>, xs: seq<Inputs>) {
    Spaced(cells, xs) && forall i | 0 <= i < |xs| :: Made(cfg, name, cells, xs, i)
  }

  /** If pass i asks for the next one after some delay, the next one comes within it. */
  ghost predicate OnTime(cfg: Config, name: string, cells: seq<Cell>, xs: seq<Inputs>, i: nat)
    requires Spaced(cells, xs) && i + 1 < |xs|
  {
    var answer := PassAnswer(cfg, name, cells[i], xs[i]);
    answer.requeue.After? ==> xs[i].now <= xs[i + 1].now <= xs[i].now + answer.requeue.delay
  }

  ghost predicate Queued(cfg: Config, name: string, cells: seq<Cell>, xs: seq<Inputs>)
    requires Spaced(cells, xs)
  {
    forall i | 0 <= i && i + 1 < |xs| :: OnTime(cfg, name, cells, xs, i)
  }

  /** A pass over a serving branch that has not expired leaves everything as it is. */
  lemma QuietPass(cfg: Config, name: string, c: Cell, x: Inputs)
    requires Inv(cfg, name, c) && c.pc.Idle? && c.Current().Some?
    requires c.Current().value.Serving() && !Expired(c.Current().value, x.now)
    ensures var w := Pass(cfg, name, c, x);
            w.log == c.log && w.clones == c.clones && w.objects == c.objects
  {
    assert VersionOk(cfg, name, c.Current());
    assert Step(cfg, name, c, Read(c.Top(), x.now)).pc.Idle?;
  }

  lemma {:induction false} DrivenInv(cfg: Config, name: string, cells: seq<Cell>, xs: seq<Inputs>, i: nat)
    requires Driven(cfg, name, cells, xs) && Inv(cfg, name, cells[0]) && i < |cells|
    ensures Inv(cfg, name, cells[i])
  {
    if i == 0 {
    } else {
      DrivenInv(cfg, name, cells, xs, i - 1);
      assert Made(cfg, name, cells, xs, i - 1);
      PassInv(cfg, name, cells[i - 1], xs[i - 1]);
    }
  }

  /** The branch serves, with this expiry. */
  ghost predicate ServesUntil(c: Cell, e: int) {
    && c.Ok() && c.Current().Some? && c.Current().value.Serving()
    && c.Current().value.status.expiresAt == Some(e)
  }

  /** Up to its expiry the branch is not touched. */
  lemma {:induction false} QuietUntil(
      cfg: Config, name: string, cells: seq<Cell>, xs: seq<Inputs>, e: int, i: nat)
    requires Driven(cfg, name, cells, xs) && Inv(cfg, name, cells[0]) && 1 <= i < |cells|
    requires ServesUntil(cells[1], e) && forall k | 1 <= k < i :: xs[k].now <= e
    ensures cells[i].log == cells[1].log && cells[i].clones == cells[1].clones
    ensures cells[i].objects == cells[1].objects
  {
    if i == 1 {
    } else {
      QuietUntil(cfg, name, cells, xs, e, i - 1);
      assert xs[i - 1].now <= e;
      DrivenInv(cfg, name, cells, xs, i - 1);
      assert Made(cfg, name, cells, xs, i - 1);
      QuietPass(cfg, name, cells[i - 1], xs[i - 1]);
    }
  }

  /** The first of the instants, from the second on, that comes after e. */
  function FirstAfter(xs: seq<Inputs>, e: int, i: nat): (k: nat)
    requires i < |xs| && xs[|xs| - 1].now > e
    ensures i <= k < |xs| && xs[k].now > e && forall j | i <= j < k :: xs[j].now <= e
    decreases |xs| - i
  {
    if xs[i].now > e then i else FirstAfter(xs, e, i + 1)
  }

  /** After a pass that ends with the branch serving the next one is not late. */
  lemma SoonAfter(cfg: Config, name: string, cells: seq<Cell>, xs: seq<Inputs>, i: nat)
    requires Driven(cfg, name, cells, xs) && Inv(cfg, name, cells[0]) && Queued(cfg, name, cells, xs)
    requires 0 < i < |xs| && cells[i].Current().Some? && cells[i].Current().value.Serving()
    ensures xs[i].now <= xs[i - 1].now + REQUEUE_INTERVAL
  {
    DrivenInv(cfg, name, cells, xs, i - 1);
    assert Made(cfg, name, cells, xs, i - 1);
    PassAnswerExpected(cfg, name, cells[i - 1], xs[i - 1]);
    assert Expected(cells[i]) == RECHECK && OnTime(cfg, name, cells, xs, i - 1);
  }

  lemma FirstLate(cfg: Config, name: string, cells: seq<Cell>, xs: seq<Inputs>, e: int) returns (k: nat)
    requires Driven(cfg, name, cells, xs) && Inv(cfg, name, cells[0]) && Queued(cfg, name, cells, xs)
    requires |xs| >= 2 && ServesUntil(cells[1], e) && xs[0].now <= e < xs[|xs| - 1].now
    ensures 0 < k < |xs| && e < xs[k].now <= e + REQUEUE_INTERVAL
    ensures forall i | 0 <= i < k :: xs[i].now <= e
    ensures cells[k].log == cells[1].log && cells[k].clones == cells[1].clones
    ensures cells[k].objects == cells[1].objects
  {
    k := FirstAfter(xs, e, 1);
    QuietUntil(cfg, name, cells, xs, e, k);
    SoonAfter(cfg, name, cells, xs, k);
    assert xs[k - 1].now <= e;
  }

  /** A pass ends with the branch serving until e, and undisturbed passes follow, each when
      the answer of the one before asks for it.  Up to the first instant after e nothing
      changes; that instant is at most ten minutes after e; the pass then run marks the
      branch and changes nothing else; and after the next pass it is gone. */
  lemma ExpiredOnTime(cfg: Config, name: string, cells: seq<Cell>, xs: seq<Inputs>, e: int) returns (k: nat)
    requires Driven(cfg, name, cells, xs) && Inv(cfg, name, cells[0]) && Queued(cfg, name, cells, xs)
    requires |xs| >= 2 && ServesUntil(cells[1], e) && xs[0].now <= e < xs[|xs| - 1].now
    ensures 0 < k < |xs| && e < xs[k].now <= e + 600 * 1_000_000_000
    ensures forall i | 0 <= i < k :: xs[i].now <= e
    ensures forall i | 1 <= i <= k :: cells[i].Current() == cells[1].Current()
    ensures cells[k + 1].Current() == Some(cells[1].Current().value.(deleting := true))
    ensures cells[k + 1].clones == cells[1].clones && cells[k + 1].objects == cells[1].objects
    ensures k + 1 < |xs| ==> Gone(cfg, cells[k + 2])
  {
    k := FirstLate(cfg, name, cells, xs, e);
    forall i | 1 <= i <= k ensures cells[i].Current() == cells[1].Current() {
      QuietUntil(cfg, name, cells, xs, e, i);
    }
    MarkedNext(cfg, name, cells, xs, k, e);
    if k + 1 < |xs| { GoneNext(cfg, name, cells, xs, k); }
  }

  lemma MarkedNext(cfg: Config, name: string, cells: seq<Cell>, xs: seq<Inputs>, k: nat, e: int)
    requires Driven(cfg, name, cells, xs) && Inv(cfg, name, cells[0]) && k < |xs|
    requires ServesUntil(cells[k], e) && xs[k].now > e
    ensures cells[k + 1].Current() == Some(cells[k].Current().value.(deleting := true))
    ensures cells[k + 1].clones == cells[k].clones && cells[k + 1].objects == cells[k].objects
  {
    DrivenInv(cfg, name, cells, xs, k);
    assert Made(cfg, name, cells, xs, k);
    ExpiryRequested(cfg, name, cells[k], xs[k]);
  }

  lemma GoneNext(cfg: Config, name: string, cells: seq<Cell>, xs: seq<Inputs>, k: nat)
    requires Driven(cfg, name, cells, xs) && k + 1 < |xs| && Inv(cfg, name, cells[0])
    requires cells[k + 1].Current().Some? && cells[k + 1].Current().value.deleting
    ensures Gone(cfg, cells[k + 2])
  {
    DrivenInv(cfg, name, cells, xs, k + 1);
    assert Made(cfg, name, cells, xs, k + 1);
    DeletedWithinOnePass(cfg, name, cells[k + 1], xs[k + 1]);
  }

  /** A branch that the next pass brings up. */
  ghost predicate ComingUp(cfg: Config, c: Cell, x: Inputs) {
    && c.Ok() && c.pc.Idle? && c.Current().Some? && PortsAssigned(c, x)
    && c.Current().value.Live() && c.Current().value.status.phase != Ready
    && cfg.Supported(c.Current().value.spec.dbType)
  }

  /** The life of a branch with a TTL in range: the first pass makes it serve, nothing
      touches it for its TTL, less the second lost to rounding, and at most ten minutes
      after its TTL it is marked for deletion, to be gone with the next pass. */
  lemma TtlBound(cfg: Config, name: string, cells: seq<Cell>, xs: seq<Inputs>) returns (k: nat)
    requires Driven(cfg, name, cells, xs) && Inv(cfg, name, cells[0]) && Queued(cfg, name, cells, xs)
    requires |xs| >= 2 && ComingUp(cfg, cells[0], xs[0])
    requires 0 < cells[0].Current().value.spec.ttlHours <= 2_562_047
    requires xs[|xs| - 1].now > xs[0].now + cells[0].Current().value.spec.ttlHours * 3_600 * 1_000_000_000
    ensures ServesFrom(cells[1], cells[0].Current().value.spec, xs[0].now)
    ensures 0 < k < |xs| &&
            var due := xs[0].now + cells[0].Current().value.spec.ttlHours * 3_600 * 1_000_000_000;
            due - 1_000_000_000 < xs[k].now <= due + 600 * 1_000_000_000
    ensures forall i | 1 <= i <= k :: cells[i].Current() == cells[1].Current()
    ensures cells[k + 1].Current() == Some(cells[1].Current().value.(deleting := true))
    ensures k + 1 < |xs| ==> Gone(cfg, cells[k + 2])
  {
    var spec, start := cells[0].Current().value.spec, xs[0].now;
    assert Made(cfg, name, cells, xs, 0);
    ReadyWithExpiry(cfg, name, cells[0], xs[0]);
    ExpiryInTime(start, spec.ttlHours);
    k := ExpiredOnTime(cfg, name, cells, xs, ExpiresAt(start, spec.ttlHours));
  }

  /** A branch without a TTL is not touched by any number of passes. */
  lemma {:induction false} NoTtlStays(
      cfg: Config, name: string, cells: seq<Cell>, xs: seq<Inputs>, i: nat)
    requires Driven(cfg, name, cells, xs) && Inv(cfg, name, cells[0]) && 1 <= i < |cells|
    requires ComingUp(cfg, cells[0], xs[0]) && cells[0].Current().value.spec.ttlHours <= 0
    ensures ServesFrom(cells[1], cells[0].Current().value.spec, xs[0].now)
    ensures cells[i].log == cells[1].log && cells[i].clones == cells[1].clones
    ensures cells[i].objects == cells[1].objects
  {
    if i == 1 {
      assert Made(cfg, name, cells, xs, 0);
      ReadyWithExpiry(cfg, name, cells[0], xs[0]);
    } else {
      NoTtlStays(cfg, name, cells, xs, i - 1);
      DrivenInv(cfg, name, cells, xs, i - 1);
      assert Made(cfg, name, cells, xs, i - 1);
      QuietPass(cfg, name, cells[i - 1], xs[i - 1]);
    }
  }

  /** A branch whose TTL is one hour past the range serves after one pass and is marked for
      deletion by the next, however soon it comes. */
  lemma OverflowMarksNext(cfg: Config, name: string, c: Cell, x: Inputs, y: Inputs)
    requires Inv(cfg, name, c) && ComingUp(cfg, c, x) && x.now <= y.now
    requires c.Current().value.spec.ttlHours == 2_562_048
    ensures var w := Pass(cfg, name, c, x);
            && ServesFrom(w, c.Current().value.spec, x.now)
            && Pass(cfg, name, w, y).Current() == Some(w.Current().value.(deleting := true))
  {
    ReadyWithExpiry(cfg, name, c, x);
    OverflowExpiresAtOnce(x.now);
    PassInv(cfg, name, c, x);
    ExpiryRequested(cfg, name, Pass(cfg, name, c, x), y);
  }
}
