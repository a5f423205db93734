/** The reconciler as methods that read and write the cluster call by call, with
    early returns.  Before every call the other parties
    may act any number of times, and every call may fail or lose its answer; each
    call is shown to be one step of the machine in module Lifecycle. */
module Reconciler {
  import opened Common
  import opened Branches
  import opened Ttl
  import opened Lifecycle
  import opened LifecycleInvariant
  import opened Convergence
  import opened Answers
  import Z = Zfs

  /** The status a call of Status().Update sends. */
  function Sent(cfg: Config, name: string, at: Pc, now: int): Option<Status> {
    if at.Idle? then None else
    match at.call
    case MarkCreating => Some(at.b.status.(phase := Creating))
    case MarkDeleting => Some(at.b.status.(phase := Deleting))
    case MarkReady(port) => Some(ReadyStatus(cfg, name, at.b, port, now))
    case RecordError(m) => Some(at.b.status.(phase := Error, message := m))
    case _ => None
  }

  /** Where the operator stands after its status has been accepted. */
  function AfterUpdate(at: Pc, b: Branch, rv: nat): Pc
    requires at.At?
  {
    match at.call
    case MarkCreating => At(CloneSnapshot, b, rv)
    case MarkDeleting => At(DeleteObject(Service), b, rv)
    case _ => Idle
  }

  /** The four status writes of the machine are one and the same update. */
  lemma StatusStep(cfg: Config, name: string, c: Cell, o: Outcome, x: Inputs, st: Status)
    requires c.Ok() && c.pc.At? && Sent(cfg, name, c.pc, x.now) == Some(st)
    ensures var w := WithStatus(c, st);
            Step(cfg, name, c, Perform(o, x)) ==
            Written(c, o, c.pc.rv, w, AfterUpdate(c.pc, c.pc.b.(status := st), w.Top()))
  {
  }

  lemma FinalizerStep(cfg: Config, name: string, c: Cell, o: Outcome, x: Inputs, present: bool)
    requires c.Ok() && c.pc.At? && c.pc.call == if present then AddFinalizer else RemoveFinalizer
    ensures Step(cfg, name, c, Perform(o, x)) == Written(c, o, c.pc.rv, WithFinalizer(c, present), Idle)
  {
  }

  /** Successful calls to the end of a pass, from the cell at position k. */
  lemma {:induction false} CalmEnds(cfg: Config, name: string, trace: seq<Cell>, events: seq<Event>, k: nat, x: Inputs)
    requires Connected(cfg, name, trace, events) && k < |trace|
    requires forall i | k <= i < |events| :: events[i] == Perform(Done, x)
    requires trace[k].Ok() && trace[|events|].pc.Idle?
    ensures trace[|events|] == Finished(cfg, name, trace[k], x)
    ensures k < |events| && trace[k].pc.At? ==>
              Answered(trace[|events| - 1], events[|events| - 1]) == FinishedAnswer(cfg, name, trace[k], x)
    decreases |events| - k
  {
    if k == |events| {
    } else {
      assert events[k] == Perform(Done, x);
      AdvanceRank(cfg, name, trace[k], x);
      CalmEnds(cfg, name, trace, events, k + 1, x);
      if k + 1 < |events| {
        assert events[k + 1] == Perform(Done, x);
      }
    }
  }

  /** A read of the newest version and successful calls to the end of a pass, coming
      after the history `past`: exactly Pass, with its answer. */
  lemma CalmPass(
      cfg: Config, name: string, past: seq<Cell>, done: seq<Event>, trace: seq<Cell>, events: seq<Event>, x: Inputs)
    requires Connected(cfg, name, past, done) && Connected(cfg, name, trace, events)
    requires past[0] == trace[0] && done < events
    requires past[|done|].Ok() && past[|done|].pc.Idle? && trace[|events|].Ok() && trace[|events|].pc.Idle?
    requires events[|done|] == Read(past[|done|].Top(), x.now)
    requires forall i | |done| < i < |events| :: events[i] == Perform(Done, x)
    ensures trace[|events|] == Pass(cfg, name, past[|done|], x)
    ensures Own(events[|events| - 1])
    ensures Answered(trace[|events| - 1], events[|events| - 1]) == PassAnswer(cfg, name, past[|done|], x)
  {
    var n, c := |done|, past[|done|];
    SameTrace(cfg, name, past, done, trace, events, n);
    assert trace[n + 1] == Step(cfg, name, c, Read(c.Top(), x.now));
    CalmEnds(cfg, name, trace, events, n + 1, x);
    if n + 1 < |events| {
      assert events[n + 1] == Perform(Done, x);
    }
  }

  /** What the calls on objects change. */
  lemma CreateStep(cfg: Config, name: string, c: Cell, o: Outcome, x: Inputs, kind: Kind)
    requires c.Ok() && c.pc.At? && c.pc.call == CreateObject(kind)
    ensures var w := Step(cfg, name, c, Perform(o, x));
            && w.Ok() && w.log == c.log && w.clones == c.clones && w.seen == c.seen
            && w.objects == (if o == Failed || kind in c.objects then c.objects
                             else c.objects[kind := Numbered(Desired(cfg, name, c.pc.b.spec, kind, 0), x.nodePort)])
  {
    if o != Failed && kind !in c.objects {
      MakeStep(cfg, name, c, o, x, kind);
    }
  }

  lemma CreatePc(cfg: Config, name: string, c: Cell, o: Outcome, x: Inputs, kind: Kind)
    requires c.Ok() && c.pc.At? && c.pc.call == CreateObject(kind)
    ensures Step(cfg, name, c, Perform(o, x)).pc == c.pc.(call :=
              if o == Done then NextCreate(cfg, kind, c.pc.b.spec.dbType) else RecordError(StartDatabaseFailed))
  {
  }

  lemma MakeStep(cfg: Config, name: string, c: Cell, o: Outcome, x: Inputs, kind: Kind)
    requires c.Ok() && c.pc.At? && c.pc.call == CreateObject(kind) && o != Failed && kind !in c.objects
    ensures var w := Step(cfg, name, c, Perform(o, x));
            && w.Ok() && w.log == c.log && w.clones == c.clones && w.seen == c.seen
            && w.objects == c.objects[kind := Desired(cfg, name, c.pc.b.spec, kind, x.nodePort)]
  {
    HoldingNotes(c, c.objects[kind := Desired(cfg, name, c.pc.b.spec, kind, x.nodePort)]);
  }

  lemma DeleteStep(cfg: Config, name: string, c: Cell, o: Outcome, x: Inputs, kind: Kind)
    requires c.Ok() && c.pc.At? && c.pc.call == DeleteObject(kind)
    ensures var w := Step(cfg, name, c, Perform(o, x));
            && w.Ok() && w.log == c.log && w.clones == c.clones && w.seen == c.seen
            && w.objects == (if o == Failed then c.objects else c.objects - {kind})
  {
  }

  /** The other parties leave the kinds of object, and where the operator stands. */
  lemma OtherStep(cfg: Config, name: string, c: Cell, e: Event)
    requires c.Ok() && Enabled(c, e) && (e.UserCreate? || e.UserDelete? || e.AssignPort? || e.Sweep?)
    ensures var w := Step(cfg, name, c, e);
            && w.Ok() && w.pc == c.pc && w.seen == c.seen && w.objects.Keys == c.objects.Keys
            && Grown(c.objects, w.objects, map[])
  {
  }

  /** Nothing has gone from the objects, and what has come is as wanted, up to the port
      the cluster assigns to a Service. */
  ghost predicate Grown(was: Objects, now: Objects, wanted: Objects) {
    && was.Keys <= now.Keys <= was.Keys + wanted.Keys
    && forall k | k in now :: SameButPort(now[k], if k in was then was[k] else wanted[k])
  }

  predicate AsksFor(wanted: Objects, kind: Kind, o: Object) {
    kind in wanted && wanted[kind] == o
  }

  lemma GrownMore(was: Objects, mid: Objects, now: Objects, some: Objects, more: Objects, all: Objects)
    requires Grown(was, mid, some) && Grown(mid, now, more)
    requires forall k | k in some :: k in all && all[k] == some[k]
    requires forall k | k in more :: k in all && all[k] == more[k]
    ensures Grown(was, now, all)
  {
  }

  /** The deletes of Stop, ending as given. */
  function AllDeletes(ends: seq<Outcome>): seq<(Kind, Outcome)>
    requires |ends| == 5
  {
    [(Service, ends[0]), (Pod, ends[1]), (ConfigMap, ends[2]), (PVC, ends[3]), (PV, ends[4])]
  }

  /** The kinds left when these deletes have ended like this. */
  function Remaining(kinds: set<Kind>, deletes: seq<(Kind, Outcome)>): set<Kind> {
    set k | k in kinds && forall i | 0 <= i < |deletes| && deletes[i].0 == k :: deletes[i].1 == Failed
  }

  lemma RemainingOne(kinds: set<Kind>, kind: Kind, o: Outcome)
    ensures Remaining(kinds, [(kind, o)]) == if o == Failed then kinds else kinds - {kind}
  {
    assert [(kind, o)][0] == (kind, o);
  }

  /** What the five deletes leave, kind by kind. */
  lemma LeftBehind(kinds: set<Kind>, ends: seq<Outcome>)
    requires |ends| == 5
    ensures forall kind :: kind in Remaining(kinds, AllDeletes(ends)) <==>
              kind in kinds && Failed ==
                match kind {
                  case Service => ends[0] case Pod => ends[1] case ConfigMap => ends[2]
                  case PVC => ends[3] case PV => ends[4]
                }
  {
    var l := AllDeletes(ends);
    assert l[0] == (Service, ends[0]) && l[1] == (Pod, ends[1]) && l[2] == (ConfigMap, ends[2]);
    assert l[3] == (PVC, ends[3]) && l[4] == (PV, ends[4]);
  }

  /** Deletes after deletes. */
  lemma DeletesThen(
      kinds: set<Kind>, past: seq<(Kind, Outcome)>, some: seq<(Kind, Outcome)>,
      left: set<Kind>, done: seq<(Kind, Outcome)>, more: seq<(Kind, Outcome)>,
      rest: set<Kind>, all: seq<(Kind, Outcome)>, both: seq<(Kind, Outcome)>)
    requires both == some + more
    requires done == past + some && left == Remaining(kinds, some)
    requires all == done + more && rest == Remaining(left, more)
    ensures all == past + both && rest == Remaining(kinds, both)
  {
    forall k ensures k in rest <==> k in Remaining(kinds, both) {
      assert forall i | 0 <= i < |some| :: both[i] == some[i];
      assert forall i | 0 <= i < |more| :: both[|some| + i] == more[i];
    }
  }

  class Cluster {
    const cfg: Config
    const name: string
    const calm: bool        // nobody else acts, reads are current, no call fails
    const inputs: Inputs    // what calls take from outside when all is calm

    var log: seq<Option<Branch>>
    var seen: nat
    var clones: map<string, Clone>
    var objects: Objects
    var ports: seq<nat>
    var portSeen: nat
    var pc: Pc
    var attempt: nat
    var leftover: Objects
    var harmed: bool

    ghost const start: Cell
    ghost var trace: seq<Cell>
    ghost var events: seq<Event>
    ghost var deletes: seq<(Kind, Outcome)>   // the object deletes issued, and how they ended
    ghost var asked: seq<Z.Command>           // the clone commands asked of the agent

    constructor (cfg: Config, name: string, calm: bool, inputs: Inputs, c: Cell)
      requires c.Ok()
      ensures Valid() && View() == c && start == c && events == []
      ensures this.cfg == cfg && this.name == name && this.calm == calm && this.inputs == inputs
    {
      this.cfg, this.name, this.calm, this.inputs := cfg, name, calm, inputs;
      log, seen, clones, objects, pc := c.log, c.seen, c.clones, c.objects, c.pc;
      ports, portSeen := c.ports, c.portSeen;
      attempt, leftover, harmed := c.attempt, c.leftover, c.harmed;
      start, trace, events, deletes, asked := c, [c], [], [], [];
    }

    function View(): Cell
      reads this
    {
      Cell(log, seen, clones, objects, ports, portSeen, pc, attempt, leftover, harmed)
    }

    /** Everything that has happened to the cluster is a run of the machine. */
    ghost predicate Valid()
      reads this
    {
      View().Ok() && Connected(cfg, name, trace, events) && trace[0] == start && trace[|events|] == View()
    }

    /** The history only grows, and all that is added to it when all is calm are calls
        of the operator that succeed. */
    twostate predicate Onward()
      reads this
    {
      && old(events) <= events
      && (calm ==> forall i | |old(events)| <= i < |events| :: events[i] == Perform(Done, inputs))
    }

    /** The last thing to have happened is the operator's call at `at`. */
    ghost predicate Called(at: Pc)
      reads this
    {
      && |trace| == |events| + 1 && events != [] && events[|events| - 1].Perform?
      && at.At? && trace[|events| - 1].Ok() && trace[|events| - 1].pc == at
    }

    /** The cell the last event met. */
    ghost function Met(): Cell
      requires |trace| == |events| + 1 && events != []
      reads this
    {
      trace[|events| - 1]
    }

    /** How the last call ended, and what it took from outside. */
    ghost function Came(): Outcome
      requires events != [] && events[|events| - 1].Perform?
      reads this
    {
      events[|events| - 1].outcome
    }

    ghost function Took(): Inputs
      requires events != [] && events[|events| - 1].Perform?
      reads this
    {
      events[|events| - 1].inputs
    }

    /** The pass has ended with a step that calls for this answer. */
    ghost predicate Ends(requeue: Requeue, err: bool)
      reads this
    {
      && |trace| == |events| + 1 && events != [] && Own(events[|events| - 1])
      && Enabled(Met(), events[|events| - 1])
      && Answered(Met(), events[|events| - 1]) == Answers.Answer(requeue, err)
    }

    // ---- the world around a call ----

    /** Takes over the bookkeeping of a step whose effect on the stores has been carried out. */
    method Record(c: Cell, e: Event)
      requires c.Ok() && Connected(cfg, name, trace, events) && trace[0] == start && trace[|events|] == c
          && Enabled(c, e)
      requires var w := Step(cfg, name, c, e);
               w.Ok() && log == w.log && clones == w.clones && objects == w.objects && seen == w.seen
      modifies this`ports, this`portSeen
      modifies this`pc, this`attempt, this`leftover, this`harmed, this`trace, this`events
      ensures View() == Step(cfg, name, c, e) && Valid()
      ensures events == old(events) + [e] && trace == old(trace) + [View()]
    {
      var w := Step(cfg, name, c, e);
      pc, attempt, leftover, harmed := w.pc, w.attempt, w.leftover, w.harmed;
      ports, portSeen := w.ports, w.portSeen;
      ConnectedThen(cfg, name, trace, events, e);
      trace, events := trace + [w], events + [e];
    }

    /** The same for a call of the operator. */
    method RecordCall(c: Cell, o: Outcome, x: Inputs)
      requires c.Ok() && Connected(cfg, name, trace, events) && trace[0] == start && trace[|events|] == c && c.pc.At?
      requires var w := Step(cfg, name, c, Perform(o, x));
               w.Ok() && log == w.log && clones == w.clones && objects == w.objects && seen == w.seen
      modifies this`ports, this`portSeen
      modifies this`pc, this`attempt, this`leftover, this`harmed, this`trace, this`events, this`deletes
      ensures pc == Step(cfg, name, c, Perform(o, x)).pc && Valid()
      ensures events == old(events) + [Perform(o, x)]
      ensures deletes == old(deletes) + if c.pc.call.DeleteObject? then [(c.pc.call.kind, o)] else []
      ensures Called(c.pc) && Met() == c && Came() == o && Took() == x
    {
      Record(c, Perform(o, x));
      if c.pc.call.DeleteObject? { deletes := deletes + [(c.pc.call.kind, o)]; }
    }

    /** The same for a conditional write: `w` is the cell with the write applied. */
    method RecordWrite(c: Cell, o: Outcome, x: Inputs, ghost w: Cell, ghost next: Pc)
      requires c.Ok() && Connected(cfg, name, trace, events) && trace[0] == start && trace[|events|] == c && c.pc.At?
      requires Step(cfg, name, c, Perform(o, x)) == Written(c, o, c.pc.rv, w, next)
      requires w.Ok() && w == c.(log := w.log)
      requires View() == c.(log := if o != Failed && Accepts(c, c.pc.rv) then w.log else c.log)
      modifies this`ports, this`portSeen
      modifies this`pc, this`attempt, this`leftover, this`harmed, this`trace, this`events, this`deletes
      ensures pc == (if Refused(c, o) then Idle else next) && Valid()
      ensures events == old(events) + [Perform(o, x)]
      ensures Called(c.pc) && Met() == c && Came() == o && Took() == x
    {
      RecordCall(c, o, x);
    }

    /** The other parties act, any number of times. */
    method Others()
      requires Valid()
      modifies this
      ensures Valid() && pc == old(pc) && old(events) <= events
      ensures forall i | |old(events)| <= i < |events| :: !Own(events[i])
      ensures objects.Keys == old(objects.Keys) && deletes == old(deletes) && asked == old(asked)
      ensures Grown(old(objects), objects, map[])
      ensures calm ==> View() == old(View()) && events == old(events)
    {
      var steps: nat := *;
      if calm { return; }
      while steps > 0
        invariant Valid() && pc == old(pc) && old(events) <= events
        invariant forall i | |old(events)| <= i < |events| :: !Own(events[i])
        invariant objects.Keys == old(objects.Keys) && deletes == old(deletes) && asked == old(asked)
        invariant Grown(old(objects), objects, map[])
      {
        var e: Event := *;
        if (e.UserCreate? || e.UserDelete? || e.AssignPort? || e.Sweep?) && Enabled(View(), e) {
          ghost var grown := objects;
          Other(e);
          GrownMore(old(objects), grown, objects, map[], map[], map[]);
        }
        steps := steps - 1;
      }
    }

    /** One step of another party. */
    method Other(e: Event)
      requires Valid() && (e.UserCreate? || e.UserDelete? || e.AssignPort? || e.Sweep?) && Enabled(View(), e)
      modifies this
      ensures Valid() && pc == old(pc) && events == old(events) + [e]
      ensures objects.Keys == old(objects.Keys) && deletes == old(deletes) && asked == old(asked)
      ensures Grown(old(objects), objects, map[])
    {
      var c := View();
      var w := Step(cfg, name, c, e);
      OtherStep(cfg, name, c, e);
      log, clones, objects := w.log, w.clones, w.objects;
      Record(c, e);
    }

    /** How the next call ends, and what it takes from outside. */
    method Reply() returns (o: Outcome, x: Inputs)
      ensures calm ==> o == Done && x == inputs
    {
      o, x := *, *;
      if calm { o, x := Done, inputs; }
    }

    method Now() returns (now: int)
      ensures calm ==> now == inputs.now
    {
      now := *;
      if calm { now := inputs.now; }
    }

    // ---- API server ----

    /** The API server stores an object; one that is unchanged gets no new version. */
    method Put(v: Option<Branch>)
      requires View().Ok()
      modifies this`log
      ensures View() == Store(old(View()), v)
    {
      if log[|log| - 1] != v { log := log + [v]; }
    }

    /** Get through a cache that may be behind, but never goes back. */
    method Get() returns (err: bool, found: Option<Branch>, rv: nat, now: int)
      requires Valid() && pc == Idle
      modifies this
      ensures Valid() && old(events) <= events
      ensures err ==> pc == Idle && !calm && forall i | |old(events)| <= i < |events| :: !Own(events[i])
      ensures !err ==> |events| > |old(events)| && events[|events| - 1] == Read(rv, now)
      ensures !err ==> rv < |Met().log| && Met().log[rv] == found
      ensures !err && found.None? ==> pc == Idle
      ensures !err && found.Some? ==> pc == Decide(found.value, rv, now)
      ensures calm ==> events == old(events) + [Read(old(|log|) - 1, inputs.now)] && now == inputs.now
    {
      Others();
      now := Now();
      err, rv := *, *;
      if calm || rv < seen || rv >= |log| { rv := |log| - 1; }
      if err && !calm { return true, None, rv, now; }
      err := false;
      found := Look(rv, now);
    }

    /** The read itself. */
    method Look(rv: nat, now: int) returns (found: Option<Branch>)
      requires Valid() && pc == Idle && seen <= rv < |log|
      modifies this
      ensures Valid() && events == old(events) + [Read(rv, now)] && |trace| == |events| + 1 && Met() == old(View())
      ensures found == old(log)[rv] && pc == if found.Some? then Decide(found.value, rv, now) else Idle
    {
      found := log[rv];
      var c := View();
      seen := rv;
      Record(c, Read(rv, now));
    }

    /** The API server's side of a status update. */
    method PutStatus(rv: nat, st: Status)
      requires View().Ok()
      modifies this`log
      ensures View() == if Accepts(old(View()), rv) then WithStatus(old(View()), st) else old(View())
    {
      if rv == |log| - 1 && log[rv].Some? {
        var stored := log[rv].value;
        Put(Some(stored.(status := st)));
      }
    }

    /** The API server's side of a metadata update. */
    method PutFinalizer(rv: nat, present: bool)
      requires View().Ok()
      modifies this`log
      ensures View() == if Accepts(old(View()), rv) then WithFinalizer(old(View()), present) else old(View())
    {
      if rv == |log| - 1 && log[rv].Some? {
        var stored := log[rv].value;
        Put(if !present && stored.deleting then None else Some(stored.(finalizer := present)));
      }
    }

    /** A status update as its caller sees it. */
    method ServeStatus(st: Status, rv: nat, o: Outcome) returns (err: bool, newRv: nat)
      requires View().Ok() && pc.At? && pc.rv == rv
      modifies this`log
      ensures View() == if o != Failed && Accepts(old(View()), rv) then WithStatus(old(View()), st) else old(View())
      ensures err == Refused(old(View()), o) && newRv == |log| - 1
    {
      err := o != Done || rv != |log| - 1 || log[rv].None?;
      if o != Failed { PutStatus(rv, st); }
      newRv := |log| - 1;
    }

    /** The call itself, once the other parties have had their turn. */
    method SendStatus(b: Branch, rv: nat, o: Outcome, x: Inputs) returns (err: bool, newRv: nat)
      requires Valid() && pc.At? && pc.rv == rv && pc.b == b.(status := pc.b.status)
      requires Sent(cfg, name, pc, x.now) == Some(b.status)
      modifies this
      ensures Valid() && events == old(events) + [Perform(o, x)]
      ensures Called(old(pc)) && Met() == old(View()) && Came() == o && err == Refused(Met(), o)
      ensures log == (if o != Failed && Accepts(Met(), rv) then WithStatus(Met(), b.status).log else Met().log)
      ensures clones == Met().clones && objects == Met().objects
      ensures pc == if err then Idle else AfterUpdate(old(pc), b, newRv)
    {
      var c := View();
      err, newRv := ServeStatus(b.status, rv, o);
      ghost var w := WithStatus(c, b.status);
      ghost var next := AfterUpdate(c.pc, b, w.Top());
      assert Step(cfg, name, c, Perform(o, x)) == Written(c, o, rv, w, next) by {
        StatusStep(cfg, name, c, o, x, b.status);
      }
      RecordWrite(c, o, x, w, next);
    }

    /** Goes through against the newest version only, and takes over the status alone. */
    method UpdateStatus(b: Branch, rv: nat, now: int) returns (err: bool, newRv: nat)
      requires Valid() && pc.At? && pc.rv == rv && pc.b == b.(status := pc.b.status)
      requires Sent(cfg, name, pc, now) == Some(b.status) && (calm ==> now == inputs.now)
      modifies this
      ensures Valid() && Onward()
      ensures Called(old(pc)) && err == Refused(Met(), Came())
      ensures log == (if Came() != Failed && Accepts(Met(), rv) then WithStatus(Met(), b.status).log else Met().log)
      ensures clones == Met().clones && objects == Met().objects
      ensures pc == if err then Idle else AfterUpdate(old(pc), b, newRv)
    {
      Others();
      var o, x := Reply();
      err, newRv := SendStatus(b, rv, o, x.(now := now));
    }

    /** A metadata update as its caller sees it. */
    method ServeFinalizer(present: bool, rv: nat, o: Outcome) returns (err: bool)
      requires View().Ok() && pc.At? && pc.rv == rv
      modifies this`log
      ensures View() == if o != Failed && Accepts(old(View()), rv) then WithFinalizer(old(View()), present)
          else old(View())
      ensures err == Refused(old(View()), o)
    {
      err := o != Done || rv != |log| - 1 || log[rv].None?;
      if o != Failed { PutFinalizer(rv, present); }
    }

    method SendFinalizer(present: bool, rv: nat, o: Outcome, x: Inputs) returns (err: bool)
      requires Valid() && pc.At? && pc.rv == rv
      requires pc.call == if present then AddFinalizer else RemoveFinalizer
      modifies this
      ensures Valid() && pc == Idle && events == old(events) + [Perform(o, x)]
      ensures Called(old(pc)) && Met() == old(View()) && Came() == o && err == Refused(Met(), o)
      ensures log == (if o != Failed && Accepts(Met(), rv) then WithFinalizer(Met(), present).log else Met().log)
      ensures clones == Met().clones && objects == Met().objects
    {
      var c := View();
      err := ServeFinalizer(present, rv, o);
      ghost var w := WithFinalizer(c, present);
      assert Step(cfg, name, c, Perform(o, x)) == Written(c, o, rv, w, Idle) by {
        FinalizerStep(cfg, name, c, o, x, present);
      }
      RecordWrite(c, o, x, w, Idle);
    }

    /** Update of the metadata, against the newest version only; a marked branch goes
        with its finalizer. */
    method UpdateFinalizer(present: bool, rv: nat) returns (err: bool)
      requires Valid() && pc.At? && pc.rv == rv
      requires pc.call == if present then AddFinalizer else RemoveFinalizer
      modifies this
      ensures Valid() && Onward() && pc == Idle
      ensures Called(old(pc)) && err == Refused(Met(), Came())
      ensures log == (if Came() != Failed && Accepts(Met(), rv) then WithFinalizer(Met(), present).log else Met().log)
      ensures clones == Met().clones && objects == Met().objects
    {
      Others();
      var o, x := Reply();
      err := SendFinalizer(present, rv, o, x);
    }

    /** The first write of a flow: the branch is marked Creating or Deleting. */
    method MarkPhase(b: Branch, rv: nat) returns (err: bool, newRv: nat)
      requires Valid() && pc.At? && pc.rv == rv && pc.b == b.(status := pc.b.status)
      requires pc.call.MarkCreating? || pc.call.MarkDeleting?
      requires b.status == pc.b.status.(phase := if pc.call.MarkCreating? then Creating else Deleting)
      modifies this
      ensures Valid() && Onward()
      ensures if err then pc == Idle && Ends(Never, true) else pc == AfterUpdate(old(pc), b, newRv)
    {
      var now := Now();
      err, newRv := UpdateStatus(b, rv, now);
    }

    /** Delete by name, with no precondition on the version. */
    method DeleteBranch() returns (err: bool)
      requires Valid() && pc.At? && pc.call.DeleteExpired?
      modifies this
      ensures Valid() && Onward() && pc == Idle
      ensures Called(old(pc)) && err == (Came() != Done || Met().Current().None?)
      ensures log == (if Came() != Failed then RequestDelete(Met()).log else Met().log)
      ensures clones == Met().clones && objects == Met().objects
    {
      Others();
      var o, x := Reply();
      var c := View();
      err := o != Done || log[|log| - 1].None?;
      if o != Failed && log[|log| - 1].Some? {
        Put(Marked(log[|log| - 1].value));
      }
      RecordCall(c, o, x);
    }

    // ---- ZFS agent ----

    /** `zfs clone`, taken for done when the clone exists. */
    method ZfsClone(dataset: string, snapshot: string, cloneName: string) returns (o: Outcome, made: bool)
      requires Valid() && pc.At? && pc.call == CloneSnapshot && dataset == cfg.Dataset(pc.b.spec.dbType)
      requires snapshot == pc.b.spec.snapshotRef && cloneName == name
      modifies this
      ensures Valid() && Onward()
      ensures pc == old(pc).(call := if o == Done then ShareClone(made) else RecordError(CreateCloneFailed))
      ensures Called(old(pc)) && o == Came() && made == (dataset !in Met().clones)
      ensures log == Met().log && objects == Met().objects
      ensures clones == if o == Failed || !made then Met().clones
                        else Met().clones[dataset := Clone(Took().content, false, attempt)]
      ensures asked == old(asked) + [Z.MakeClone(Z.SnapId(dataset, snapshot), Z.CloneId(dataset, cloneName))]
      ensures calm ==> o == Done
    {
      Others();
      var x: Inputs;
      o, x := Reply();
      var c := View();
      made := dataset !in clones;
      if o != Failed && made {
        clones := clones[dataset := Clone(x.content, false, attempt)];
      }
      asked := asked + [Z.MakeClone(Z.SnapId(dataset, snapshot), Z.CloneId(dataset, cloneName))];
      RecordCall(c, o, x);
    }

    /** `zfs share`, and the query of the share property after it has failed. */
    method ZfsShare() returns (o: Outcome)
      requires Valid() && pc.At? && (pc.call.ShareClone? || pc.call.CheckShare?)
      modifies this
      ensures Valid() && Onward()
      ensures pc == old(pc).(call :=
                if o == Done then (if cfg.Supported(old(pc).b.spec.dbType) then CreateObject(PV)
                    else RecordError(StartDatabaseFailed))
                else if o == Lost then RecordError(CreateCloneFailed)
                else if old(pc).call.ShareClone? then CheckShare(old(pc).call.made)
                else if old(pc).call.made then RollBack else RecordError(CreateCloneFailed))
      ensures Called(old(pc)) && o == Came()
      ensures log == Met().log && clones == Met().clones && objects == Met().objects
      ensures calm ==> o == Done
    {
      Others();
      var x: Inputs;
      o, x := Reply();
      RecordCall(View(), o, x);
    }

    /** `zfs destroy -f` of the clone. */
    method ZfsDestroy(dataset: string) returns (o: Outcome)
      requires Valid() && pc.At? && (pc.call == RollBack || pc.call == DeleteClone)
      requires dataset == cfg.Dataset(pc.b.spec.dbType)
      modifies this
      ensures Valid() && Onward()
      ensures old(pc).call == RollBack ==> pc == old(pc).(call := RecordError(CreateCloneFailed))
      ensures old(pc).call == DeleteClone ==>
                pc == old(pc).(call := if o == Done then RemoveFinalizer else RecordError(DeleteCloneFailed))
      ensures Called(old(pc)) && o == Came() && log == Met().log && objects == Met().objects
      ensures clones == if o == Failed then Met().clones else Met().clones - {dataset}
      ensures calm ==> o == Done
    {
      Others();
      var x: Inputs;
      o, x := Reply();
      var c := View();
      if o != Failed { clones := clones - {dataset}; }
      RecordCall(c, o, x);
    }

    /** The clone and its share, undone if sharing fails on a new clone. */
    method CreateClone(dbType: string, snapshot: string, cloneName: string) returns (err: bool, vol: Volume)
      requires Valid() && pc.At? && pc.call == CloneSnapshot && pc.b.spec.dbType == dbType
      requires snapshot == pc.b.spec.snapshotRef && cloneName == name
      modifies this
      ensures vol == Volume(cfg.nfsServer, cfg.Dataset(dbType), cloneName)
      ensures Valid() && Onward()
      ensures |trace| == |events| + 1 && events != [] && Called(Met().pc)
      ensures Met().pc.call in {CloneSnapshot, ShareClone(true), ShareClone(false), CheckShare(true),
          CheckShare(false), RollBack}
      ensures err == (Came() != Done || Met().pc.call == RollBack)
      ensures err ==> pc == old(pc).(call := RecordError(CreateCloneFailed)) && !calm
      ensures !err ==> pc == old(pc).(call := if cfg.Supported(dbType) then CreateObject(PV)
          else RecordError(StartDatabaseFailed))
    {
      var dataset := cfg.Dataset(dbType);
      vol := Volume(cfg.nfsServer, dataset, cloneName);
      var o, made := ZfsClone(dataset, snapshot, cloneName);
      if o != Done { return true, vol; }
      err := ShareOrUndo(dataset, made);
    }

    /** The share of a clone, undone with it if sharing fails on a new clone. */
    method ShareOrUndo(dataset: string, made: bool) returns (err: bool)
      requires Valid() && pc.At? && pc.call == ShareClone(made) && dataset == cfg.Dataset(pc.b.spec.dbType)
      modifies this
      ensures Valid() && Onward()
      ensures |trace| == |events| + 1 && events != [] && Called(Met().pc)
      ensures Met().pc.call in {ShareClone(made), CheckShare(made), RollBack}
      ensures err == (Came() != Done || Met().pc.call == RollBack)
      ensures err ==> pc == old(pc).(call := RecordError(CreateCloneFailed)) && !calm
      ensures !err ==>
        pc == old(pc).(call := if cfg.Supported(pc.b.spec.dbType) then CreateObject(PV)
            else RecordError(StartDatabaseFailed))
    {
      var o := ZfsShare();
      if o == Failed {
        o := ZfsShare();
        if o == Failed && made {
          var _ := ZfsDestroy(dataset);
        }
      }
      err := o != Done;
    }

    // ---- objects of the branch ----

    /** The call itself, once the other parties have had their turn. */
    method SendCreate(kind: Kind, desired: Object, o: Outcome, x: Inputs) returns (err: bool)
      requires Valid() && pc.At? && pc.call == CreateObject(kind)
      requires desired == Desired(cfg, name, pc.b.spec, kind, 0)
      modifies this
      ensures Valid() && events == old(events) + [Perform(o, x)]
      ensures Called(old(pc)) && Met() == old(View()) && Came() == o && Took() == x && err == (o != Done)
      ensures pc == Step(cfg, name, old(View()), Perform(o, x)).pc
      ensures log == Met().log && clones == Met().clones
      ensures objects == if o == Failed || kind in Met().objects then Met().objects
                         else Met().objects[kind := Numbered(desired, x.nodePort)]
    {
      var c := View();
      if o != Failed && kind !in objects {
        objects := objects[kind := Numbered(desired, x.nodePort)];
      }
      err := o != Done;
      CreateStep(cfg, name, c, o, x, kind);
      RecordCall(c, o, x);
    }

    /** Create, taken for done when the object exists. */
    method CreateIfMissing(kind: Kind, desired: Object) returns (err: bool)
      requires Valid() && pc.At? && pc.call == CreateObject(kind)
      requires desired == Desired(cfg, name, pc.b.spec, kind, 0)
      modifies this
      ensures Valid() && Onward()
      ensures pc == old(pc).(call :=
        if err then RecordError(StartDatabaseFailed) else NextCreate(cfg, kind, old(pc).b.spec.dbType))
      ensures Called(old(pc)) && err == (Came() != Done) && log == Met().log && clones == Met().clones
      ensures objects == if Came() == Failed || kind in Met().objects then Met().objects
                         else Met().objects[kind := Numbered(desired, Took().nodePort)]
      ensures Grown(old(objects), objects, map[kind := desired]) && (!err ==> kind in objects)
      ensures calm ==> !err
    {
      Others();
      var o, x := Reply();
      CreatePc(cfg, name, View(), o, x, kind);
      err := SendCreate(kind, desired, o, x);
    }

    method GetNodePort() returns (err: bool, port: nat)
      requires Valid() && pc.At? && pc.call == ReadNodePort
      modifies this
      ensures Valid() && Onward()
      ensures pc == old(pc).(call := if err then RecordError(StartDatabaseFailed) else MarkReady(port))
      ensures Called(old(pc)) && port == PortShown(Met(), Took().service) && err == (Came() != Done || port == 0)
      ensures log == Met().log && clones == Met().clones && objects == Met().objects
      ensures Grown(old(objects), objects, map[])
    {
      Others();
      var o, x := Reply();
      port := PortShown(View(), x.service);
      err := o != Done || port == 0;
      RecordCall(View(), o, x);
    }

    /** The volume of the clone, and the claim on it. */
    method CreateVolume(vol: Volume, ghost all: Objects) returns (err: bool)
      requires Valid() && pc.At? && pc.call == CreateObject(PV)
      requires vol == Volume(cfg.nfsServer, cfg.Dataset(pc.b.spec.dbType), name)
      requires AsksFor(all, PV, PVObject(vol.nfsServer, vol.dataset, vol.clone)) && AsksFor(all, PVC, PVCObject)
      modifies this
      ensures Valid() && Onward()
      ensures pc == old(pc).(call := if err then RecordError(StartDatabaseFailed)
          else NextCreate(cfg, PVC, old(pc).b.spec.dbType))
      ensures Grown(old(objects), objects, all)
      ensures !err ==> PV in objects && PVC in objects
      ensures calm ==> !err
    {
      ghost var was := objects;
      var volume := PVObject(vol.nfsServer, vol.dataset, vol.clone);
      err := CreateIfMissing(PV, volume);
      if !err {
        ghost var grown := objects;
        err := CreateIfMissing(PVC, PVCObject);
        GrownMore(was, grown, objects, map[PV := volume], map[PVC := PVCObject], all);
      }
    }

    /** The configuration of a type that has one. */
    method CreateConfig(t: string, ghost all: Objects) returns (err: bool)
      requires Valid() && pc.At? && pc.call == NextCreate(cfg, PVC, pc.b.spec.dbType)
      requires t in cfg.builtin && t == cfg.EffectiveType(pc.b.spec.dbType)
      requires AsksFor(all, ConfigMap, ConfigMapObject(t))
      modifies this
      ensures Valid() && Onward()
      ensures pc == old(pc).(call := if err then RecordError(StartDatabaseFailed) else CreateObject(Pod))
      ensures Grown(old(objects), objects, all)
      ensures !err && cfg.builtin[t].extraConfig ==> ConfigMap in objects
      ensures calm ==> !err
    {
      err := false;
      if cfg.builtin[t].extraConfig {
        err := CreateIfMissing(ConfigMap, ConfigMapObject(t));
      }
    }

    /** The pod, and the Service in front of it. */
    method CreateServer(t: string, dbVersion: string, ghost all: Objects) returns (err: bool)
      requires Valid() && pc.At? && pc.call == CreateObject(Pod) && pc.b.spec.dbVersion == dbVersion
      requires t in cfg.builtin && t == cfg.EffectiveType(pc.b.spec.dbType)
      requires AsksFor(all, Pod, PodObject(t, dbVersion))
      requires AsksFor(all, Service, ServiceObject(cfg.builtin[t].port, 0))
      modifies this
      ensures Valid() && Onward()
      ensures pc == old(pc).(call := if err then RecordError(StartDatabaseFailed) else ReadNodePort)
      ensures Grown(old(objects), objects, all)
      ensures !err ==> Pod in objects && Service in objects
      ensures calm ==> !err
    {
      ghost var was := objects;
      var pod, service := PodObject(t, dbVersion), ServiceObject(cfg.builtin[t].port, 0);
      err := CreateIfMissing(Pod, pod);
      if !err {
        ghost var grown := objects;
        err := CreateIfMissing(Service, service);
        GrownMore(was, grown, objects, map[Pod := pod], map[Service := service], all);
      }
    }

    /** What the pod mounts. */
    method CreateMounts(vol: Volume, t: string, ghost all: Objects) returns (err: bool)
      requires Valid() && pc.At? && pc.call == CreateObject(PV)
      requires t in cfg.builtin && t == cfg.EffectiveType(pc.b.spec.dbType)
      requires vol == Volume(cfg.nfsServer, cfg.Dataset(pc.b.spec.dbType), name)
      requires AsksFor(all, PV, PVObject(vol.nfsServer, vol.dataset, vol.clone)) && AsksFor(all, PVC, PVCObject)
      requires AsksFor(all, ConfigMap, ConfigMapObject(t))
      modifies this
      ensures Valid() && Onward()
      ensures pc == old(pc).(call := if err then RecordError(StartDatabaseFailed) else CreateObject(Pod))
      ensures Grown(old(objects), objects, all)
      ensures !err ==> PV in objects && PVC in objects && (cfg.builtin[t].extraConfig ==> ConfigMap in objects)
      ensures calm ==> !err
    {
      ghost var was := objects;
      err := CreateVolume(vol, all);
      if err { return; }
      ghost var grown := objects;
      err := CreateConfig(t, all);
      GrownMore(was, grown, objects, all, all, all);
    }

    /** The volume, the configuration and the server, in this order. */
    method CreateAll(vol: Volume, t: string, dbVersion: string, ghost all: Objects) returns (err: bool)
      requires Valid() && pc.At? && pc.call == CreateObject(PV) && pc.b.spec.dbVersion == dbVersion
      requires t in cfg.builtin && t == cfg.EffectiveType(pc.b.spec.dbType)
      requires vol == Volume(cfg.nfsServer, cfg.Dataset(pc.b.spec.dbType), name)
      requires AsksFor(all, PV, PVObject(vol.nfsServer, vol.dataset, vol.clone)) && AsksFor(all, PVC, PVCObject)
      requires AsksFor(all, ConfigMap, ConfigMapObject(t)) && AsksFor(all, Pod, PodObject(t, dbVersion))
      requires AsksFor(all, Service, ServiceObject(cfg.builtin[t].port, 0))
      modifies this
      ensures Valid() && Onward()
      ensures pc == old(pc).(call := if err then RecordError(StartDatabaseFailed) else ReadNodePort)
      ensures Grown(old(objects), objects, all)
      ensures !err ==> {PV, PVC, Pod, Service} <= objects.Keys && (cfg.builtin[t].extraConfig ==> ConfigMap in objects)
      ensures calm ==> !err
    {
      ghost var was := objects;
      err := CreateMounts(vol, t, all);
      if err { return; }
      ghost var grown := objects;
      err := CreateServer(t, dbVersion, all);
      GrownMore(was, grown, objects, all, all, all);
    }

    /** The database on a volume: whatever objects there are stay, up to the port the
        cluster assigns, and those missing are made for this volume, type and version. */
    method Start(vol: Volume, dbType: string, dbVersion: string) returns (err: bool, port: nat)
      requires Valid() && pc.At? && pc.b.spec.dbType == dbType && pc.b.spec.dbVersion == dbVersion
      requires pc.call == if cfg.Supported(dbType) then CreateObject(PV) else RecordError(StartDatabaseFailed)
      requires vol == Volume(cfg.nfsServer, cfg.Dataset(dbType), name)
      modifies this
      ensures Valid() && Onward()
      ensures pc == old(pc).(call := if err then RecordError(StartDatabaseFailed) else MarkReady(port))
      ensures !err ==> Called(old(pc).(call := ReadNodePort)) && Came() == Done
      ensures !err ==> port == PortShown(Met(), Took().service) > 0
      ensures var t := if dbType == "" then cfg.fallbackType else dbType;
              if t !in cfg.builtin then err && View() == old(View())
              else
                && Grown(old(objects), objects,
                     map[PV := PVObject(vol.nfsServer, vol.dataset, vol.clone), PVC := PVCObject,
                         ConfigMap := ConfigMapObject(t), Pod := PodObject(t, dbVersion),
                         Service := ServiceObject(cfg.builtin[t].port, 0)])
                && (!err ==> {PV, PVC, Pod, Service} <= objects.Keys)
                && (!err && cfg.builtin[t].extraConfig ==> ConfigMap in objects)
    {
      port := 0;
      var t := if dbType == "" then cfg.fallbackType else dbType;
      if t !in cfg.builtin { return true, 0; }
      ghost var was := objects;
      ghost var all: Objects := map[PV := PVObject(vol.nfsServer, vol.dataset, vol.clone), PVC := PVCObject,
          ConfigMap := ConfigMapObject(t), Pod := PodObject(t, dbVersion),
          Service := ServiceObject(cfg.builtin[t].port, 0)];
      err := CreateAll(vol, t, dbVersion, all);
      if err { return; }
      ghost var grown := objects;
      err, port := GetNodePort();
      GrownMore(was, grown, objects, all, map[], all);
    }

    /** Delete of one object; the caller never learns whether it worked. */
    method DeleteAnyway(kind: Kind)
      requires Valid() && pc.At? && pc.call == DeleteObject(kind)
      modifies this
      ensures Valid() && Onward()
      ensures pc == old(pc).(call := NextDelete(kind))
      ensures Called(old(pc)) && deletes == old(deletes) + [(kind, Came())]
      ensures objects.Keys == Remaining(old(objects.Keys), [(kind, Came())])
      ensures calm ==> Came() == Done
    {
      Others();
      var o, x := Reply();
      var c := View();
      if o != Failed { objects := objects - {kind}; }
      RemainingOne(c.objects.Keys, kind, o);
      DeleteStep(cfg, name, c, o, x, kind);
      RecordCall(c, o, x);
    }

    /** The first two deletes. */
    method DeleteServer() returns (ghost a: Outcome, ghost b: Outcome)
      requires Valid() && pc.At? && pc.call == DeleteObject(Service)
      modifies this
      ensures Valid() && Onward()
      ensures pc == old(pc).(call := DeleteObject(ConfigMap))
      ensures deletes == old(deletes) + [(Service, a), (Pod, b)]
      ensures objects.Keys == Remaining(old(objects.Keys), [(Service, a), (Pod, b)])
      ensures calm ==> a == b == Done
    {
      ghost var kinds, past := objects.Keys, deletes;
      DeleteAnyway(Service);
      a := Came();
      ghost var left, done := objects.Keys, deletes;
      DeleteAnyway(Pod);
      b := Came();
      DeletesThen(kinds, past, [(Service, a)], left, done, [(Pod, b)], objects.Keys, deletes, [(Service, a), (Pod, b)]);
    }

    /** The last two deletes. */
    method DeleteVolume() returns (ghost a: Outcome, ghost b: Outcome)
      requires Valid() && pc.At? && pc.call == DeleteObject(PVC)
      modifies this
      ensures Valid() && Onward()
      ensures pc == old(pc).(call := ReturnFromStop)
      ensures deletes == old(deletes) + [(PVC, a), (PV, b)]
      ensures objects.Keys == Remaining(old(objects.Keys), [(PVC, a), (PV, b)])
      ensures calm ==> a == b == Done
    {
      ghost var kinds, past := objects.Keys, deletes;
      DeleteAnyway(PVC);
      a := Came();
      ghost var left, done := objects.Keys, deletes;
      DeleteAnyway(PV);
      b := Came();
      DeletesThen(kinds, past, [(PVC, a)], left, done, [(PV, b)], objects.Keys, deletes, [(PVC, a), (PV, b)]);
    }

    /** The five deletes, in order, each whatever the ones before have come to. */
    method DeleteObjects() returns (ghost ends: seq<Outcome>)
      requires Valid() && pc.At? && pc.call == DeleteObject(Service)
      modifies this
      ensures Valid() && Onward()
      ensures pc == old(pc).(call := ReturnFromStop)
      ensures |ends| == 5 && deletes == old(deletes) + AllDeletes(ends)
      ensures objects.Keys == Remaining(old(objects.Keys), AllDeletes(ends))
      ensures calm ==> ends == [Done, Done, Done, Done, Done]
    {
      ghost var kinds, past := objects.Keys, deletes;
      ghost var a, b := DeleteServer();
      ghost var left, done := objects.Keys, deletes;
      DeleteAnyway(ConfigMap);
      ghost var c := Came();
      ghost var three := [(Service, a), (Pod, b), (ConfigMap, c)];
      DeletesThen(kinds, past, [(Service, a), (Pod, b)], left, done, [(ConfigMap, c)], objects.Keys, deletes, three);
      left, done := objects.Keys, deletes;
      ghost var d, e := DeleteVolume();
      ends := [a, b, c, d, e];
      DeletesThen(kinds, past, three, left, done, [(PVC, d), (PV, e)], objects.Keys, deletes, AllDeletes(ends));
    }

    /** The five deletes, and exactly the objects whose delete failed are left. */
    method Stop() returns (err: bool, ghost ends: seq<Outcome>)
      requires Valid() && pc.At? && pc.call == DeleteObject(Service)
      modifies this
      ensures Valid() && Onward()
      ensures pc == old(pc).(call := if err then RecordError(StopDatabaseFailed) else DeleteClone)
      ensures |ends| == 5 && deletes == old(deletes) + [(Service, ends[0]), (Pod, ends[1]), (ConfigMap, ends[2]),
                  (PVC, ends[3]), (PV, ends[4])]
      ensures forall kind :: kind in objects <==>
                kind in old(objects) && Failed ==
                  match kind {
                    case Service => ends[0] case Pod => ends[1] case ConfigMap => ends[2]
                    case PVC => ends[3] case PV => ends[4]
                  }
      ensures calm ==> !err && ends == [Done, Done, Done, Done, Done]
    {
      ends := DeleteObjects();
      LeftBehind(old(objects.Keys), ends);
      Others();
      var o, x := Reply();
      err := o != Done;
      RecordCall(View(), o, x);
    }

    // ---- the reconciler ----

    method SetError(b: Branch, rv: nat, message: Message)
      requires Valid() && pc == At(RecordError(message), b, rv)
      modifies this
      ensures Valid() && Onward() && pc == Idle && Ends(Never, true)
      ensures Called(old(pc))
      ensures log == if Came() == Failed || !Accepts(Met(), rv) then Met().log
                     else WithStatus(Met(), b.status.(phase := Error, message := message)).log
    {
      var now := Now();
      var _, _ := UpdateStatus(b.(status := b.status.(phase := Error, message := message)), rv, now);
    }

    /** The database stopped and its clone destroyed; a failure is recorded. */
    method Clean(branch: Branch, version: nat) returns (err: bool)
      requires Valid() && pc == At(DeleteObject(Service), branch, version)
      modifies this
      ensures Valid() && Onward()
      ensures pc == if err then Idle else At(RemoveFinalizer, branch, version)
      ensures err ==> Ends(Never, true)
    {
      ghost var ends;
      err, ends := Stop();
      if err {
        SetError(branch, version, StopDatabaseFailed);
      } else {
        var o := ZfsDestroy(cfg.Dataset(branch.spec.dbType));
        err := o != Done;
        if err { SetError(branch, version, DeleteCloneFailed); }
      }
    }

    /** The last write of the flow. */
    method DropFinalizer(rv: nat) returns (err: bool)
      requires Valid() && pc.At? && pc.rv == rv && pc.call == RemoveFinalizer
      modifies this
      ensures Valid() && Onward() && pc == Idle && Ends(Never, err)
    {
      err := UpdateFinalizer(false, rv);
    }

    method HandleDeletion(b: Branch, rv: nat) returns (err: bool)
      requires Valid() && pc == if b.finalizer then At(MarkDeleting, b, rv) else Idle
      requires !b.finalizer ==> Ends(Never, false)
      modifies this
      ensures Valid() && Onward() && pc == Idle && Ends(Never, err)
    {
      if !b.finalizer { return false; }
      var branch := b.(status := b.status.(phase := Deleting));
      var version;
      err, version := MarkPhase(branch, rv);
      if err { return; }
      err := Clean(branch, version);
      if err { return; }
      err := DropFinalizer(version);
    }

    /** Reconcile: every execution, whatever fails and whoever acts in between, is a
        run of the machine that ends between passes, and its answer is the one its last
        step calls for; an error when nothing could be read.  A calm execution does
        exactly Pass, with its answer. */
    method Reconcile() returns (requeue: Requeue, err: bool)
      requires Valid() && pc == Idle
      modifies this
      ensures Valid() && old(events) <= events && pc == Idle
      ensures Ends(requeue, err) ||
              (requeue == Never && err && forall i | |old(events)| <= i < |events| :: !Own(events[i]))
      ensures calm ==> View() == Pass(cfg, name, old(View()), inputs)
      ensures calm ==> Answers.Answer(requeue, err) == PassAnswer(cfg, name, old(View()), inputs)
    {
      ghost var past, done := trace, events;
      requeue, err := ReadAndReconcile();
      if calm {
        CalmPass(cfg, name, past, done, trace, events, inputs);
      }
    }

    method ReadAndReconcile() returns (requeue: Requeue, err: bool)
      requires Valid() && pc == Idle
      modifies this
      ensures Valid() && old(events) <= events && pc == Idle
      ensures Ends(requeue, err) ||
              (!calm && requeue == Never && err && forall i | |old(events)| <= i < |events| :: !Own(events[i]))
      ensures calm ==>
        && |events| > |old(events)| && events[|old(events)|] == Read(old(|log|) - 1, inputs.now)
        && (forall i | |old(events)| < i < |events| :: events[i] == Perform(Done, inputs))
    {
      requeue := Never;
      var found, rv, now;
      err, found, rv, now := Get();
      if !err && found.Some? {
        requeue, err := ReconcileBranch(found.value, rv, now);
      }
    }

    /** What follows once the branch has been read. */
    method ReconcileBranch(branch: Branch, rv: nat, now: int) returns (requeue: Requeue, err: bool)
      requires Valid() && pc == Decide(branch, rv, now)
      requires events != [] && events[|events| - 1] == Read(rv, now)
      requires rv < |Met().log| && Met().log[rv] == Some(branch)
      modifies this
      ensures Valid() && Onward() && pc == Idle && Ends(requeue, err)
    {
      requeue := Never;
      if branch.deleting {
        err := HandleDeletion(branch, rv);
        return;
      }
      if branch.status.expiresAt.Some? && branch.status.phase == Ready {
        if now > branch.status.expiresAt.value {
          err := DeleteBranch();
          return;
        }
      }
      if !branch.finalizer {
        err := UpdateFinalizer(true, rv);
        return if err then Never else AtOnce, err;
      }
      if branch.status.phase == Ready {
        return After(REQUEUE_INTERVAL), false;
      }
      requeue, err := Create(branch, rv);
    }

    /** The branch with its connection data, its expiry and the phase Ready filled in. */
    function Filled(b: Branch, port: nat, now: int): (r: Branch)
      ensures r == b.(status := ReadyStatus(cfg, name, b, port, now))
    {
      var status := b.status.(
        clusterHost := cfg.ClusterHost(name), clusterPort := cfg.DbPort(b.spec.dbType),
        externalHost := cfg.externalHost, externalPort := port);
      var expiring := if b.spec.ttlHours > 0 then status.(expiresAt := Some(ExpiresAt(now, b.spec.ttlHours)))
          else status;
      b.(status := expiring.(phase := Ready, message := NoMessage))
    }

    /** The clone and the database on it; a failure is recorded. */
    method Provision(branch: Branch, version: nat) returns (err: bool, port: nat)
      requires Valid() && pc == At(CloneSnapshot, branch, version)
      modifies this
      ensures Valid() && Onward()
      ensures pc == if err then Idle else At(MarkReady(port), branch, version)
      ensures err ==> Ends(Never, true)
    {
      port := 0;
      var vol;
      err, vol := CloneFor(branch, version);
      if !err { err, port := StartFor(branch, version, vol); }
    }

    method CloneFor(branch: Branch, version: nat) returns (err: bool, vol: Volume)
      requires Valid() && pc == At(CloneSnapshot, branch, version)
      modifies this
      ensures vol == Volume(cfg.nfsServer, cfg.Dataset(branch.spec.dbType), name)
      ensures Valid() && Onward()
      ensures pc == if err then Idle else StartPoint(branch, version)
      ensures err ==> Ends(Never, true)
    {
      err, vol := CreateClone(branch.spec.dbType, branch.spec.snapshotRef, name);
      if err { SetError(branch, version, CreateCloneFailed); }
    }

    /** Where the start begins; an unsupported type is refused at once. */
    function StartPoint(branch: Branch, version: nat): Pc {
      var call := if cfg.Supported(branch.spec.dbType) then CreateObject(PV) else RecordError(StartDatabaseFailed);
      At(call, branch, version)
    }

    method StartFor(branch: Branch, version: nat, vol: Volume) returns (err: bool, port: nat)
      requires Valid() && pc == StartPoint(branch, version)
      requires vol == Volume(cfg.nfsServer, cfg.Dataset(branch.spec.dbType), name)
      modifies this
      ensures Valid() && Onward()
      ensures pc == if err then Idle else At(MarkReady(port), branch, version)
      ensures err ==> Ends(Never, true)
    {
      err, port := Start(vol, branch.spec.dbType, branch.spec.dbVersion);
      if err { SetError(branch, version, StartDatabaseFailed); }
    }

    /** The creation flow. */
    method Create(b: Branch, rv: nat) returns (requeue: Requeue, err: bool)
      requires Valid() && pc == At(MarkCreating, b, rv)
      modifies this
      ensures Valid() && Onward() && pc == Idle && Ends(requeue, err)
    {
      requeue := Never;
      var branch, version, port := b.(status := b.status.(phase := Creating)), rv, 0;
      err, version := MarkPhase(branch, rv);
      if err { return; }
      err, port := Provision(branch, version);
      if err { return; }
      var now := Now();
      branch := Filled(branch, port, now);
      err, version := UpdateStatus(branch, version, now);
      if !err { requeue := After(REQUEUE_INTERVAL); }
    }
  }
}
