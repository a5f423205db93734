/** What a reconcile pass asks of the work queue, and what its answer says about the branch. */
module Answers {
  import opened Common
  import opened Branches
  import opened Ttl
  import opened Lifecycle
  import opened LifecycleInvariant
  import opened Convergence

  datatype Requeue = Never | AtOnce | After(delay: int)

  datatype Answer = Answer(requeue: Requeue, err: bool)

  const FAILURE := Answer(Never, true)
  const NOTHING := Answer(Never, false)
  const RECHECK := Answer(After(REQUEUE_INTERVAL), false)

  /** The steps of the operator. */
  predicate Own(e: Event) {
    e.Read? || e.Perform?
  }

  /** The caller of a conditional write sees an error. */
  predicate Refused(c: Cell, o: Outcome)
    requires c.Ok() && c.pc.At?
  {
    o != Done || !Accepts(c, c.pc.rv)
  }

  /** The answer of a pass whose last step is `e`, taken in `c`. */
  function Answered(c: Cell, e: Event): Answer
    requires Enabled(c, e) && Own(e)
  {
    match e
    case Read(version, _) =>
      var v := c.log[version];
      if v.Some? && v.value.Serving() then RECHECK else NOTHING
    case Perform(o, _) => (
      match c.pc.call
      case AddFinalizer => if Refused(c, o) then FAILURE else Answer(AtOnce, false)
      case MarkReady(_) => if Refused(c, o) then FAILURE else RECHECK
      case DeleteExpired(_) => if o != Done || c.Current().None? then FAILURE else NOTHING
      case RemoveFinalizer => if Refused(c, o) then FAILURE else NOTHING
      case _ => FAILURE)
  }

  // ---- no branch is forgotten ----

  /** A pass that asks for nothing and reports no error has read that the branch is
      absent, or there is a version newer than the one it read, whose event brings the
      next pass. */
  lemma NothingForgotten(cfg: Config, name: string, c: Cell, e: Event)
    requires Inv(cfg, name, c) && Enabled(c, e) && Own(e)
    requires Step(cfg, name, c, e).pc.Idle? && Answered(c, e) == NOTHING
    ensures var w := Step(cfg, name, c, e); w.Ok() && (w.log[w.seen].None? || w.seen < w.Top())
  {
    if e.Read? {
      assert VersionOk(cfg, name, c.log[e.version]);
    } else {
      CallNotForgotten(cfg, name, c, e.outcome, e.inputs);
    }
  }

  lemma CallNotForgotten(cfg: Config, name: string, c: Cell, o: Outcome, x: Inputs)
    requires PcInv(c) && c.pc.At? && Answered(c, Perform(o, x)) == NOTHING
    ensures var w := PerformCall(cfg, name, c, o, x); w.Ok() && w.seen < w.Top()
  {
  }

  /** A pass that asks to be run again later has read, or itself written, a serving branch. */
  lemma RecheckMeansServing(cfg: Config, name: string, c: Cell, e: Event)
    requires Inv(cfg, name, c) && Enabled(c, e) && Own(e)
    ensures var w := Step(cfg, name, c, e);
            w.pc.Idle? && Answered(c, e).requeue.After? ==>
              && w.Ok() && Answered(c, e) == Answer(After(600 * 1_000_000_000), false)
              && var v := if e.Read? then w.log[w.seen] else w.Current();
                 v.Some? && v.value.Serving() && (e.Read? ==> !Expired(v.value, e.now))
  {
    if e.Perform? && Answered(c, e).requeue.After? {
      ReadyWrittenServes(cfg, name, c, e.outcome, e.inputs);
    }
  }

  lemma ReadyWrittenServes(cfg: Config, name: string, c: Cell, o: Outcome, x: Inputs)
    requires PcInv(c) && c.pc.At? && Answered(c, Perform(o, x)).requeue.After?
    ensures var w := PerformCall(cfg, name, c, o, x);
            && w.Ok() && Answered(c, Perform(o, x)) == RECHECK
            && w.Current().Some? && w.Current().value.Serving()
  {
  }

  /** A pass that asks to be run again at once has just given the branch its finalizer. */
  lemma AtOnceMeansProtected(cfg: Config, name: string, c: Cell, e: Event)
    requires Inv(cfg, name, c) && Enabled(c, e) && Own(e) && Answered(c, e).requeue.AtOnce?
    ensures var w := Step(cfg, name, c, e);
            && w.Ok() && w.Current().Some? && w.Current().value.Live() && w.seen < w.Top()
  {
    assert VersionOk(cfg, name, c.log[c.seen]);
  }

  // ---- the answer of an undisturbed pass ----

  /** The answer read off the cell an undisturbed pass ends in. */
  function Expected(w: Cell): Answer
    requires w.Ok()
  {
    match w.Current()
    case None => NOTHING
    case Some(b) =>
      if b.deleting then NOTHING
      else if b.status.phase == Ready then RECHECK
      else if b.status.phase == Error then FAILURE
      else Answer(AtOnce, false)
  }

  /** In the hands of an undisturbed pass: the local copy is the newest version, and
      only the creation flow has an error to record. */
  ghost predicate Fresh(c: Cell) {
    c.Ok() && (c.pc.At? ==> c.pc.rv == c.Top() && (c.pc.call.RecordError? ==> !c.pc.b.deleting))
  }

  lemma FreshStep(cfg: Config, name: string, c: Cell, x: Inputs)
    requires PcInv(c) && Fresh(c) && c.pc.At?
    ensures Fresh(Advance(cfg, name, c, x))
  {
    if Writes(c.pc.call) {
      WriteEffect(cfg, name, c, Done, x);
    } else {
      EffectPc(cfg, name, c, Done, x);
    }
  }

  lemma LastAnswer(cfg: Config, name: string, c: Cell, x: Inputs)
    requires PcInv(c) && Fresh(c) && c.pc.At? && VersionOk(cfg, name, c.log[c.pc.rv])
    requires Advance(cfg, name, c, x).Ok() && Advance(cfg, name, c, x).pc.Idle?
    ensures Answered(c, Perform(Done, x)) == Expected(Advance(cfg, name, c, x))
  {
    if !Writes(c.pc.call) {
      EffectPc(cfg, name, c, Done, x);
    } else if c.pc.call.MarkReady? || c.pc.call.RecordError? {
      StatusAnswer(cfg, name, c, x);
    } else if c.pc.call.AddFinalizer? || c.pc.call.RemoveFinalizer? {
      FinalizerAnswer(cfg, name, c, x);
    }
  }

  lemma FinalizerAnswer(cfg: Config, name: string, c: Cell, x: Inputs)
    requires PcInv(c) && Fresh(c) && c.pc.At? && VersionOk(cfg, name, c.log[c.pc.rv])
    requires c.pc.call.AddFinalizer? || c.pc.call.RemoveFinalizer?
    ensures var w := PerformCall(cfg, name, c, Done, x); w.Ok() && Answered(c, Perform(Done, x)) == Expected(w)
  {
  }

  lemma StatusAnswer(cfg: Config, name: string, c: Cell, x: Inputs)
    requires PcInv(c) && Fresh(c) && c.pc.At? && (c.pc.call.MarkReady? || c.pc.call.RecordError?)
    ensures var w := PerformCall(cfg, name, c, Done, x); w.Ok() && Answered(c, Perform(Done, x)) == Expected(w)
  {
  }

  lemma CalmStep(cfg: Config, name: string, c: Cell, x: Inputs)
    requires Inv(cfg, name, c) && Fresh(c) && c.pc.At?
    ensures var w := Advance(cfg, name, c, x);
            Inv(cfg, name, w) && Fresh(w) && (w.pc.Idle? ==> Answered(c, Perform(Done, x)) == Expected(w))
  {
    StepInv(cfg, name, c, Perform(Done, x));
    FreshStep(cfg, name, c, x);
    if Advance(cfg, name, c, x).pc.Idle? {
      LastAnswer(cfg, name, c, x);
    }
  }

  /** The answer of the pass under way, if every call succeeds from here on. */
  function FinishedAnswer(cfg: Config, name: string, c: Cell, x: Inputs): Answer
    requires c.Ok() && c.pc.At?
    decreases PcRank(c.pc)
  {
    AdvanceRank(cfg, name, c, x);
    var w := Advance(cfg, name, c, x);
    if w.pc.Idle? then Answered(c, Perform(Done, x)) else FinishedAnswer(cfg, name, w, x)
  }

  /** The answer of Pass. */
  function PassAnswer(cfg: Config, name: string, c: Cell, x: Inputs): Answer
    requires c.Ok() && c.pc.Idle?
  {
    var e := Read(c.Top(), x.now);
    var r := Step(cfg, name, c, e);
    if r.pc.Idle? then Answered(c, e) else FinishedAnswer(cfg, name, r, x)
  }

  lemma {:induction false} FinishedAnswerExpected(cfg: Config, name: string, c: Cell, x: Inputs)
    requires Inv(cfg, name, c) && Fresh(c) && c.pc.At?
    ensures FinishedAnswer(cfg, name, c, x) == Expected(Finished(cfg, name, c, x))
    decreases PcRank(c.pc)
  {
    CalmStep(cfg, name, c, x);
    AdvanceRank(cfg, name, c, x);
    var w := Advance(cfg, name, c, x);
    if w.pc.Idle? {
      assert Finished(cfg, name, c, x) == Finished(cfg, name, w, x) == w;
    } else {
      FinishedAnswerExpected(cfg, name, w, x);
    }
  }

  /** An undisturbed pass asks to be run again later exactly if it ends with the branch
      serving, reports an error exactly if it ends with one recorded, asks to be run again
      at once exactly if it has only added the finalizer, and asks for nothing exactly if
      it ends with the branch gone or marked. */
  lemma PassAnswerExpected(cfg: Config, name: string, c: Cell, x: Inputs)
    requires Inv(cfg, name, c) && c.pc.Idle?
    ensures PassAnswer(cfg, name, c, x) == Expected(Pass(cfg, name, c, x))
  {
    ReadAnswer(cfg, name, c, x.now);
    var r := Step(cfg, name, c, Read(c.Top(), x.now));
    if r.pc.At? { FinishedAnswerExpected(cfg, name, r, x); }
  }

  lemma ReadAnswer(cfg: Config, name: string, c: Cell, now: int)
    requires Inv(cfg, name, c) && c.pc.Idle?
    ensures var e := Read(c.Top(), now); var w := Step(cfg, name, c, e);
            Inv(cfg, name, w) && Fresh(w) && (w.pc.Idle? ==> Answered(c, e) == Expected(w))
  {
    StepInv(cfg, name, c, Read(c.Top(), now));
    FreshRead(cfg, name, c, now);
  }

  lemma FreshRead(cfg: Config, name: string, c: Cell, now: int)
    requires c.Ok() && c.pc.Idle? && VersionOk(cfg, name, c.Current())
    ensures var e := Read(c.Top(), now); var w := Step(cfg, name, c, e);
            Fresh(w) && (w.pc.Idle? ==> Answered(c, e) == Expected(w))
  {
  }
}
