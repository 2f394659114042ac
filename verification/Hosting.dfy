/** The slot that holds at most one simulation, and the background creators that
    write to it (core/simulation_host.py). A task runs from one point where it
    may be suspended to the next as one step; requests never suspend while they
    hold the lifecycle lock, so each is one step too. A cancelled task raises at
    its next step. */
module Hosting {
  import opened Wrappers
  import opened Lifecycle

  datatype Stage = NotBegun | Generating | Ran | StartingSidecar(held: nat) | StoppingInstance(held: nat) | Finished

  datatype Task = Task(record: nat, flags: Flags, port: Option<int>, stage: Stage, cancelled: bool) {
    /** Still has code to run. */
    predicate Live() {
      !stage.Finished? && !cancelled
    }
  }

  /** Records and tasks are numbered in order of creation. */
  datatype Host = Host(slot: Option<nat>, creation: Option<nat>, records: seq<Rec>, tasks: seq<Task>)

  const EMPTY_HOST := Host(None, None, [], [])

  datatype Event =
    | Declare(name: string, port: Option<int>, regenerate: bool)
    | Setup(name: string, regenerate: bool)
    | Start(name: string, port: Option<int>, complete: bool, readable: bool)
    | Delete
    | Resume(task: nat, env: Env)

  function Launch(h: Host, record: nat, flags: Flags, port: Option<int>): (r: Host) {
    h.(creation := Some(|h.tasks|),
       tasks := h.tasks + [Task(record, flags, if flags.start then port else None, NotBegun, false)])
  }

  function Occupy(h: Host, name: string): (r: Host) {
    h.(slot := Some(|h.records|), records := h.records + [Declared(name)])
  }

  const START_ONLY := Flags(false, true, false)

  /** Whether `start` may consume the record in the slot. */
  predicate Consumable(h: Host, name: string) {
    && h.slot.Some? && h.slot.value < |h.records|
    && h.records[h.slot.value].status.Generated? && h.records[h.slot.value].name == name
  }

  /** `readable` says whether the baked specification can be read; if not, the
      request raises after the slot was taken. */
  function StartRequest(h: Host, name: string, port: Option<int>, complete: bool, readable: bool): (r: Host) {
    if !complete then h
    else if h.slot.Some? && !Consumable(h, name) then h
    else
      var h1 := if h.slot.Some? then h else Occupy(h, name);
      if readable then Launch(h1, h1.slot.value, START_ONLY, port) else h1
  }

  function CancelTask(h: Host, task: Option<nat>): (r: Host) {
    if task.Some? && task.value < |h.tasks| && !h.tasks[task.value].stage.Finished?
    then h.(tasks := h.tasks[task.value := h.tasks[task.value].(cancelled := true)])
    else h
  }

  function AfterStretch(task: Task, end: End): (r: Task) {
    task.(stage := match end case Awaiting => Generating case Returned => Ran case Escaped => Finished)
  }

  /** One stretch of a background task. */
  function ResumeTask(h: Host, t: nat, env: Env): (r: Host)
    requires t < |h.tasks| && h.tasks[t].record < |h.records|
    requires h.slot.Some? ==> h.slot.value < |h.records|
    requires (h.tasks[t].stage.StartingSidecar? || h.tasks[t].stage.StoppingInstance?) ==> h.tasks[t].stage.held < |h.records|
  {
    var task := h.tasks[t];
    if task.cancelled then h.(tasks := h.tasks[t := task.(stage := Finished)])
    else match task.stage
      case NotBegun =>
        var (rec, end) := BeginPipeline(h.records[task.record], task.flags, env);
        h.(records := h.records[task.record := rec], tasks := h.tasks[t := AfterStretch(task, end)])
      case Generating =>
        var (rec, end) := ResumePipeline(h.records[task.record], task.flags, env);
        h.(records := h.records[task.record := rec], tasks := h.tasks[t := AfterStretch(task, end)])
      case Ran =>
        // The creator looks at whatever the slot holds, not at its own record.
        if h.slot.Some? && h.records[h.slot.value].status.Ready? && task.port.Some?
        then h.(tasks := h.tasks[t := task.(stage := StartingSidecar(h.slot.value))])
        else h.(tasks := h.tasks[t := task.(stage := Finished)])
      case StartingSidecar(held) =>
        h.(tasks := h.tasks[t := task.(stage := if env.sidecarUp then Finished else StoppingInstance(held))])
      case StoppingInstance(held) =>
        var replacement := Do(Declared(h.records[held].name), Fail("sidecar_start_failed")).0;
        h.(slot := Some(|h.records|), records := h.records + [replacement],
           tasks := h.tasks[t := task.(stage := Finished)])
      case Finished => h
  }

  /** References between slot, tasks and records stay within bounds. */
  ghost predicate WellFormed(h: Host) {
    && (h.slot.Some? ==> h.slot.value < |h.records|)
    && (h.creation.Some? ==> h.creation.value < |h.tasks|)
    && forall t | 0 <= t < |h.tasks| ::
         && h.tasks[t].record < |h.records|
         && (h.tasks[t].stage.StartingSidecar? ==> h.tasks[t].stage.held < |h.records|)
         && (h.tasks[t].stage.StoppingInstance? ==> h.tasks[t].stage.held < |h.records|)
  }

  ghost predicate Enabled(h: Host, e: Event) {
    e.Resume? ==> e.task < |h.tasks| && !h.tasks[e.task].stage.Finished?
  }

  ghost function Step(h: Host, e: Event): (r: Host)
    requires WellFormed(h) && Enabled(h, e)
  {
    match e
    case Declare(name, port, regenerate) =>
      if h.slot.Some? then h else Launch(Occupy(h, name), |h.records|, Flags(true, true, regenerate), port)
    case Setup(name, regenerate) =>
      if h.slot.Some? then h else Launch(Occupy(h, name), |h.records|, Flags(true, false, regenerate), None)
    case Start(name, port, complete, readable) => StartRequest(h, name, port, complete, readable)
    case Delete => CancelTask(h, h.creation).(slot := None, creation := None)
    case Resume(t, env) => ResumeTask(h, t, env)
  }

  lemma RequestWellFormed(h: Host, name: string, record: nat, flags: Flags, port: Option<int>)
    requires WellFormed(h)
    ensures WellFormed(Occupy(h, name))
    ensures record < |h.records| ==> WellFormed(Launch(h, record, flags, port))
    ensures WellFormed(Launch(Occupy(h, name), |h.records|, flags, port))
  {
  }

  lemma ResumeWellFormed(h: Host, t: nat, env: Env)
    requires WellFormed(h) && t < |h.tasks|
    ensures WellFormed(ResumeTask(h, t, env))
  {
    hide BeginPipeline, ResumePipeline, Do;
  }

  lemma StepWellFormed(h: Host, e: Event)
    requires WellFormed(h) && Enabled(h, e)
    ensures WellFormed(Step(h, e))
  {
    match e
    case Declare(name, port, regenerate) => RequestWellFormed(h, name, 0, Flags(true, true, regenerate), port);
    case Setup(name, regenerate) => RequestWellFormed(h, name, 0, Flags(true, false, regenerate), None);
    case Start(name, port, _, _) => RequestWellFormed(h, name, h.slot.GetOr(0), START_ONLY, port);
    case Delete =>
    case Resume(t, env) => ResumeWellFormed(h, t, env);
  }

  /** The state a run from an empty host ends in, if its steps can happen. */
  ghost function After(events: seq<Event>): (r: Option<Host>)
    ensures r.Some? ==> WellFormed(r.value)
  {
    if events == [] then Some(EMPTY_HOST)
    else
      var n := |events| - 1;
      match After(events[..n])
      case Some(h) => if Enabled(h, events[n]) then StepWellFormed(h, events[n]); Some(Step(h, events[n])) else None
      case None => None
  }

  /** The host's two fields, and the records and tasks it has ever made. */
  class SimulationHost {
    var record: Option<nat>
    var creationTask: Option<nat>
    var records: seq<Rec>
    var tasks: seq<Task>

    ghost function State(): Host
      reads this
    {
      Host(record, creationTask, records, tasks)
    }

    constructor ()
      ensures State() == EMPTY_HOST
    {
      record, creationTask, records, tasks := None, None, [], [];
    }

    method LaunchCreator(owner: nat, flags: Flags, port: Option<int>)
      modifies this
      ensures State() == Launch(old(State()), owner, flags, port)
    {
      creationTask := Some(|tasks|);
      tasks := tasks + [Task(owner, flags, if flags.start then port else None, NotBegun, false)];
    }

    method DeclareRecord(name: string)
      modifies this
      ensures State() == Occupy(old(State()), name)
    {
      record := Some(|records|);
      records := records + [Declared(name)];
    }

    method DeclareSimulation(name: string, port: Option<int>, regenerate: bool) returns (accepted: bool)
      requires WellFormed(State())
      modifies this
      ensures accepted <==> old(record).None?
      ensures State() == Step(old(State()), Declare(name, port, regenerate))
    {
      if record.Some? { return false; }
      DeclareRecord(name);
      LaunchCreator(record.value, Flags(true, true, regenerate), port);
      return true;
    }

    method SetupSimulation(name: string, regenerate: bool) returns (accepted: bool)
      requires WellFormed(State())
      modifies this
      ensures accepted <==> old(record).None?
      ensures State() == Step(old(State()), Setup(name, regenerate))
    {
      if record.Some? { return false; }
      DeclareRecord(name);
      LaunchCreator(record.value, Flags(true, false, regenerate), None);
      return true;
    }

    method StartSimulation(name: string, port: Option<int>, complete: bool, readable: bool) returns (accepted: bool)
      requires WellFormed(State())
      modifies this
      ensures accepted <==> complete && readable && (old(record).None? || Consumable(old(State()), name))
      ensures State() == Step(old(State()), Start(name, port, complete, readable))
    {
      if !complete { return false; }
      if record.Some? {
        var existing := records[record.value];
        if !(existing.status.Generated? && existing.name == name) { return false; }
      } else {
        DeclareRecord(name);
      }
      if !readable { return false; }
      LaunchCreator(record.value, START_ONLY, port);
      return true;
    }

    method DeleteSimulation()
      requires WellFormed(State())
      modifies this
      ensures State() == Step(old(State()), Delete)
    {
      var task := creationTask;
      record := None;
      creationTask := None;
      if task.Some? && !tasks[task.value].stage.Finished? {
        tasks := tasks[task.value := tasks[task.value].(cancelled := true)];
      }
    }
  }

  // ---- records, over all runs ----

  /** Every record ever made is consistent, whatever competes for it. */
  lemma {:induction false} RecordsConsistent(events: seq<Event>)
    requires After(events).Some?
    ensures forall r | r in After(events).value.records :: Consistent(r)
  {
    if events != [] {
      var n := |events| - 1;
      RecordsConsistent(events[..n]);
      var h, e := After(events[..n]).value, events[n];
      if e.Resume? {
        var task := h.tasks[e.task];
        StretchConsistent(h.records[task.record], task.flags, e.env);
      }
    }
  }

  // ---- the slot, over guarded runs ----

  /** A `start` that consumes a generated record while a creator still runs on it. */
  ghost predicate DoubleStart(h: Host, e: Event) {
    && e.Start? && e.complete && e.readable && Consumable(h, e.name)
    && exists t | 0 <= t < |h.tasks| :: h.tasks[t].Live() && h.tasks[t].record == h.slot.value
  }

  ghost predicate Guarded(events: seq<Event>)
    requires After(events).Some?
  {
    events == [] ||
    var n := |events| - 1;
    After(events[..n]).Some? && Guarded(events[..n]) && !DoubleStart(After(events[..n]).value, events[n])
  }

  /** A running creator is the one the host would cancel, the slot holds its
      record, and the record is where that stage of the creator expects it. */
  ghost predicate Owns(h: Host, t: nat)
    requires WellFormed(h) && t < |h.tasks|
  {
    var task := h.tasks[t];
    var rec := h.records[task.record];
    && h.creation == Some(t)
    && h.slot == Some(task.record)
    && match task.stage
       case NotBegun => Drivable(rec, task.flags)
       case Generating => MidGeneration(rec) && task.flags.generate
       case Ran => Settled(rec, task.flags)
       case StartingSidecar(held) => held == task.record && rec.status.Ready?
       case StoppingInstance(held) => held == task.record && rec.status.Ready?
       case Finished => true
  }

  ghost predicate SlotInv(h: Host) {
    && WellFormed(h)
    && (forall r | r in h.records :: Consistent(r))
    && forall t | 0 <= t < |h.tasks| :: h.tasks[t].Live() ==> Owns(h, t)
  }

  lemma RequestKeepsSlotInv(h: Host, e: Event)
    requires SlotInv(h) && Enabled(h, e) && !e.Resume? && !DoubleStart(h, e)
    ensures SlotInv(Step(h, e))
  {
    StepWellFormed(h, e);
    var h1 := Step(h, e);
    forall t | 0 <= t < |h1.tasks| && h1.tasks[t].Live() ensures Owns(h1, t) {
      if t < |h.tasks| {
        assert h.tasks[t].Live() ==> Owns(h, t);
      }
    }
  }

  lemma ResumeKeepsSlotInv(h: Host, t: nat, env: Env)
    requires SlotInv(h) && t < |h.tasks| && !h.tasks[t].stage.Finished?
    ensures SlotInv(ResumeTask(h, t, env))
  {
    var task := h.tasks[t];
    var rec := h.records[task.record];
    StepWellFormed(h, Resume(t, env));
    StretchConsistent(rec, task.flags, env);
    if !task.cancelled {
      assert Owns(h, t);
      if task.stage.NotBegun? { BeginSettlesOrWaits(rec, task.flags, env); }
      if task.stage.Generating? { ResumeSettles(rec, task.flags, env); }
    }
    var h1 := ResumeTask(h, t, env);
    forall u | 0 <= u < |h1.tasks| && h1.tasks[u].Live() ensures Owns(h1, u) {
      assert u != t ==> h1.tasks[u] == h.tasks[u] && Owns(h, u);
    }
  }

  lemma {:induction false} GuardedInv(events: seq<Event>)
    requires After(events).Some? && Guarded(events)
    ensures SlotInv(After(events).value)
  {
    if events != [] {
      var n := |events| - 1;
      GuardedInv(events[..n]);
      var h, e := After(events[..n]).value, events[n];
      if e.Resume? { ResumeKeepsSlotInv(h, e.task, e.env); } else { RequestKeepsSlotInv(h, e); }
    }
  }

  lemma GuardedLast(events: seq<Event>, e: Event)
    requires After(events + [e]).Some? && Guarded(events + [e])
    ensures After(events).Some? && Guarded(events) && SlotInv(After(events).value)
    ensures Enabled(After(events).value, e) && After(events + [e]) == Some(Step(After(events).value, e))
    ensures !DoubleStart(After(events).value, e)
  {
    assert (events + [e])[..|events|] == events;
    GuardedInv(events);
  }

  /** The guard is exact: only such a start breaks the hold of the running
      creator on the slot, and it always does. */
  lemma GuardExact(events: seq<Event>, e: Event)
    requires After(events).Some? && Guarded(events) && After(events + [e]).Some?
    ensures SlotInv(After(events + [e]).value) <==> !DoubleStart(After(events).value, e)
  {
    AfterLast(events, e);
    GuardedInv(events);
    var h, h1 := After(events).value, After(events + [e]).value;
    if DoubleStart(h, e) {
      var t :| 0 <= t < |h.tasks| && h.tasks[t].Live() && h.tasks[t].record == h.slot.value;
      assert !Owns(h1, t);
    } else if e.Resume? {
      ResumeKeepsSlotInv(h, e.task, e.env);
    } else {
      RequestKeepsSlotInv(h, e);
    }
  }

  /** The ways a step may change the slot: a request takes an empty slot, a
      delete clears it, or the owner of the held record replaces that record by
      a failed one of the same name. */
  ghost predicate Displaces(h: Host, e: Event, h1: Host)
    requires WellFormed(h) && Enabled(h, e)
  {
    || (&& h.slot.None? && (e.Declare? || e.Setup? || e.Start?)
        && h1.slot == Some(|h.records|) && |h1.records| > |h.records|
        && h1.records[|h.records|].name == e.name)
    || (e.Delete? && h1.slot.None?)
    || (&& e.Resume? && h.tasks[e.task].Live() && h.slot == Some(h.tasks[e.task].record)
        && h1.slot == Some(|h.records|) && |h1.records| > |h.records|
        && h1.records[|h.records|].name == h.records[h.slot.value].name
        && h1.records[|h.records|].status.Failed?)
  }

  lemma StepDisplaces(h: Host, e: Event)
    requires SlotInv(h) && Enabled(h, e) && Step(h, e).slot != h.slot
    ensures Displaces(h, e, Step(h, e))
  {
    if e.Resume? && h.tasks[e.task].Live() { assert Owns(h, e.task); }
  }

  /** A held record leaves the slot in no other way. */
  lemma SlotDisplacement(events: seq<Event>, e: Event)
    requires After(events + [e]).Some? && Guarded(events + [e])
    ensures After(events).Some? && Enabled(After(events).value, e)
    ensures var h, h1 := After(events).value, After(events + [e]).value;
            h1.slot != h.slot ==> Displaces(h, e, h1)
  {
    GuardedLast(events, e);
    hide Guarded, Displaces;
    if After(events + [e]).value.slot != After(events).value.slot {
      StepDisplaces(After(events).value, e);
    }
  }

  /** When a creator gets past its pipeline, it has settled its record. */
  lemma CreatorSettles(events: seq<Event>, t: nat, env: Env)
    requires After(events + [Resume(t, env)]).Some? && Guarded(events + [Resume(t, env)])
    ensures var h1 := After(events + [Resume(t, env)]).value;
            t < |h1.tasks| && (h1.tasks[t].Live() && h1.tasks[t].stage.Ran? ==>
              Settled(h1.records[h1.tasks[t].record], h1.tasks[t].flags))
  {
    GuardedInv(events + [Resume(t, env)]);
    GuardedLast(events, Resume(t, env));
    var h1 := After(events + [Resume(t, env)]).value;
    assert h1.tasks[t].Live() ==> Owns(h1, t);
  }

  lemma AfterLast(events: seq<Event>, e: Event)
    requires After(events + [e]).Some?
    ensures After(events).Some? && Enabled(After(events).value, e)
    ensures After(events + [e]) == Some(Step(After(events).value, e))
  {
    assert (events + [e])[..|events|] == events;
  }

  lemma NextState(events: seq<Event>, h: Host, e: Event, h1: Host)
    requires After(events) == Some(h) && Enabled(h, e) && h1 == Step(h, e)
    ensures After(events + [e]) == Some(h1)
  {
    assert (events + [e])[..|events|] == events;
  }

  // ---- what a delete leaves behind ----

  /** No creator runs but the one the host would cancel. */
  ghost predicate OneCreator(h: Host) {
    forall t | 0 <= t < |h.tasks| && h.tasks[t].Live() :: h.creation == Some(t)
  }

  lemma GuardedOneCreator(events: seq<Event>)
    requires After(events).Some? && Guarded(events)
    ensures OneCreator(After(events).value)
  {
    GuardedInv(events);
    var h := After(events).value;
    assert forall t | 0 <= t < |h.tasks| && h.tasks[t].Live() :: Owns(h, t);
  }

  /** The first `n` creators have no code left to run. */
  ghost predicate DeadBefore(h: Host, n: nat) {
    n <= |h.tasks| && forall t | 0 <= t < n :: !h.tasks[t].Live()
  }

  /** Deleting leaves no live creator exactly if none ran but the one the host
      knows. */
  lemma DeleteSilences(events: seq<Event>)
    requires After(events).Some?
    ensures After(events + [Delete]).Some?
    ensures var h, h1 := After(events).value, After(events + [Delete]).value;
            h1.slot.None? && (DeadBefore(h1, |h.tasks|) <==> OneCreator(h))
  {
    NextState(events, After(events).value, Delete, Step(After(events).value, Delete));
    var h, h1 := After(events).value, After(events + [Delete]).value;
    forall t | 0 <= t < |h.tasks| ensures h1.tasks[t].Live() <==> h.tasks[t].Live() && h.creation != Some(t) {
    }
  }

  /** Nothing brings a creator back. */
  lemma StepKeepsDead(h: Host, e: Event, n: nat)
    requires WellFormed(h) && Enabled(h, e) && DeadBefore(h, n)
    ensures DeadBefore(Step(h, e), n)
  {
    hide BeginPipeline, ResumePipeline, Do;
  }

  lemma RunSplit(base: seq<Event>, more: seq<Event>)
    requires more != []
    ensures base + more == (base + more[..|more| - 1]) + [more[|more| - 1]]
  {
  }

  lemma {:induction false} DeadRun(base: seq<Event>, more: seq<Event>, n: nat)
    requires After(base).Some? && DeadBefore(After(base).value, n)
    requires After(base + more).Some?
    ensures DeadBefore(After(base + more).value, n)
  {
    if more == [] {
      assert base + more == base;
    } else {
      var init, e := more[..|more| - 1], more[|more| - 1];
      hide After, DeadBefore, Step, Enabled;
      RunSplit(base, more);
      AfterLast(base + init, e);
      DeadRun(base, init, n);
      StepKeepsDead(After(base + init).value, e, n);
    }
  }

  lemma DeadResume(h: Host, t: nat, env: Env, n: nat)
    requires WellFormed(h) && Enabled(h, Resume(t, env)) && DeadBefore(h, n) && t < n
    ensures var h1 := Step(h, Resume(t, env)); h1.slot == h.slot && h1.records == h.records
  {
    assert !h.tasks[t].Live();
  }

  /** Whatever happens after a delete - the slot may be taken again before the
      cancelled creators unwind - a step of a creator from before it changes
      neither the slot nor any record, if the host knew the only one running. */
  lemma SilencedForGood(events: seq<Event>, more: seq<Event>, t: nat, env: Env)
    requires After(events).Some? && OneCreator(After(events).value) && t < |After(events).value.tasks|
    requires After(events + [Delete] + more + [Resume(t, env)]).Some?
    ensures After(events + [Delete] + more).Some?
    ensures var h, h1 := After(events + [Delete] + more).value, After(events + [Delete] + more + [Resume(t, env)]).value;
            h1.slot == h.slot && h1.records == h.records
  {
    var n, run := |After(events).value.tasks|, events + [Delete] + more;
    hide After, OneCreator, DeadBefore, Step, Enabled;
    DeleteSilences(events);
    AfterLast(run, Resume(t, env));
    DeadRun(events + [Delete], more, n);
    DeadResume(After(run).value, t, env, n);
  }

  /** In every run without a second start over a running creator, a delete is
      the last the creators before it have to say. */
  lemma DeletedStaysDeleted(events: seq<Event>, more: seq<Event>, t: nat, env: Env)
    requires After(events).Some? && Guarded(events) && t < |After(events).value.tasks|
    requires After(events + [Delete] + more + [Resume(t, env)]).Some?
    ensures After(events + [Delete] + more).Some?
    ensures var h, h1 := After(events + [Delete] + more).value, After(events + [Delete] + more + [Resume(t, env)]).value;
            h1.slot == h.slot && h1.records == h.records
  {
    GuardedOneCreator(events);
    SilencedForGood(events, more, t, env);
  }

  // ---- when a deleted slot stays empty ----

  ghost predicate AllResumes(more: seq<Event>) {
    forall e | e in more :: e.Resume?
  }

  /** However the creators left over are scheduled, the slot stays empty until
      the next request. */
  ghost predicate StaysEmpty(events: seq<Event>) {
    forall more | AllResumes(more) && After(events + [Delete] + more).Some? :: After(events + [Delete] + more).value.slot.None?
  }

  predicate AtSidecar(stage: Stage) {
    stage.StartingSidecar? || stage.StoppingInstance?
  }

  /** Every creator at its sidecar is the one the host would cancel. */
  ghost predicate SidecarKnown(h: Host) {
    forall t | 0 <= t < |h.tasks| && h.tasks[t].Live() && AtSidecar(h.tasks[t].stage) :: h.creation == Some(t)
  }

  ghost predicate NoSidecar(h: Host) {
    h.slot.None? && forall t | 0 <= t < |h.tasks| && h.tasks[t].Live() :: !AtSidecar(h.tasks[t].stage)
  }

  lemma ResumeNoSidecar(h: Host, t: nat, env: Env)
    requires WellFormed(h) && Enabled(h, Resume(t, env)) && NoSidecar(h)
    ensures NoSidecar(Step(h, Resume(t, env)))
  {
    hide BeginPipeline, ResumePipeline, Do;
  }

  lemma {:induction false} NoSidecarRun(base: seq<Event>, more: seq<Event>)
    requires After(base).Some? && NoSidecar(After(base).value)
    requires AllResumes(more) && After(base + more).Some?
    ensures NoSidecar(After(base + more).value)
  {
    if more == [] {
      assert base + more == base;
    } else {
      var init, e := more[..|more| - 1], more[|more| - 1];
      assert e in more && AllResumes(init);
      hide After, NoSidecar, Step, Enabled, AllResumes;
      RunSplit(base, more);
      AfterLast(base + init, e);
      NoSidecarRun(base, init);
      ResumeNoSidecar(After(base + init).value, e.task, e.env);
    }
  }

  /** One whose instance is being stopped fills the slot at its next step. */
  lemma StoppingFills(base: seq<Event>, t: nat)
    requires After(base).Some? && t < |After(base).value.tasks|
    requires After(base).value.tasks[t].Live() && After(base).value.tasks[t].stage.StoppingInstance?
    ensures After(base + [Resume(t, DOWN)]).Some? && After(base + [Resume(t, DOWN)]).value.slot.Some?
  {
    NextState(base, After(base).value, Resume(t, DOWN), Step(After(base).value, Resume(t, DOWN)));
  }

  /** One whose sidecar is being started fills the slot if the sidecar fails. */
  lemma SidecarFills(base: seq<Event>, t: nat) returns (more: seq<Event>)
    requires After(base).Some? && t < |After(base).value.tasks|
    requires After(base).value.tasks[t].Live() && AtSidecar(After(base).value.tasks[t].stage)
    ensures AllResumes(more) && After(base + more).Some? && After(base + more).value.slot.Some?
  {
    var e := Resume(t, DOWN);
    if After(base).value.tasks[t].stage.StoppingInstance? {
      more := [e];
      StoppingFills(base, t);
    } else {
      more := [e] + [e];
      NextState(base, After(base).value, e, Step(After(base).value, e));
      assert Step(After(base).value, e).tasks[t].stage.StoppingInstance?;
      StoppingFills(base + [e], t);
      assert base + more == base + [e] + [e];
    }
  }

  /** A delete is final exactly if no creator unknown to the host is at its
      sidecar. */
  lemma DeleteFinal(events: seq<Event>)
    requires After(events).Some?
    ensures StaysEmpty(events) <==> SidecarKnown(After(events).value)
  {
    NextState(events, After(events).value, Delete, Step(After(events).value, Delete));
    var h, base := After(events).value, events + [Delete];
    var h1 := After(base).value;
    assert forall t | 0 <= t < |h.tasks| :: h1.tasks[t].stage == h.tasks[t].stage;
    assert forall t | 0 <= t < |h.tasks| :: h1.tasks[t].Live() <==> h.tasks[t].Live() && h.creation != Some(t);
    if SidecarKnown(h) {
      assert NoSidecar(h1);
      hide After, SidecarKnown;
      forall more | AllResumes(more) && After(base + more).Some? ensures After(base + more).value.slot.None? {
        NoSidecarRun(base, more);
      }
    } else {
      var t :| 0 <= t < |h.tasks| && h.tasks[t].Live() && AtSidecar(h.tasks[t].stage) && h.creation != Some(t);
      hide After, SidecarKnown;
      var more := SidecarFills(base, t);
    }
  }

  /** So a deleted slot refills by itself only after a second start. */
  lemma RefillNeedsDoubleStart(events: seq<Event>)
    requires After(events).Some? && !StaysEmpty(events)
    ensures !Guarded(events)
  {
    DeleteFinal(events);
    if Guarded(events) { GuardedOneCreator(events); }
  }

  // ---- which creators left over may still write ----

  /** This creator can still get to replacing the record in the slot: it is at
      its sidecar, or has a port to start one on and can get past its pipeline. */
  ghost predicate MayWrite(h: Host, t: nat)
    requires WellFormed(h) && t < |h.tasks|
  {
    var task := h.tasks[t];
    && task.Live()
    && (AtSidecar(task.stage)
        || (task.port.Some? && (task.stage.Ran? || !Terminal(h.records[task.record].status))))
  }

  /** After a delete, whatever else happens, some step of this creator changes
      the slot. */
  ghost predicate Writes(events: seq<Event>, t: nat) {
    exists more, env ::
      && After(events + [Delete] + more).Some? && After(events + [Delete] + more + [Resume(t, env)]).Some?
      && After(events + [Delete] + more + [Resume(t, env)]).value.slot != After(events + [Delete] + more).value.slot
  }

  /** A creator on a terminal record never gets past its pipeline. */
  lemma TerminalEscapes(r: Rec, flags: Flags, env: Env)
    requires Terminal(r.status)
    ensures BeginPipeline(r, flags, env).0 == r && !BeginPipeline(r, flags, env).1.Returned?
    ensures ResumePipeline(r, flags, env).0 == r && ResumePipeline(r, flags, env).1.Escaped?
  {
  }

  lemma HarmlessResume(h: Host, t: nat, env: Env)
    requires WellFormed(h) && t < |h.tasks| && !h.tasks[t].stage.Finished? && !MayWrite(h, t)
    ensures WellFormed(ResumeTask(h, t, env)) && !MayWrite(ResumeTask(h, t, env), t)
    ensures ResumeTask(h, t, env).slot == h.slot
  {
    ResumeWellFormed(h, t, env);
    var task := h.tasks[t];
    var rec := h.records[task.record];
    if Terminal(rec.status) { TerminalEscapes(rec, task.flags, env); }
    hide BeginPipeline, ResumePipeline;
  }

  lemma OthersResume(h: Host, t: nat, other: nat, env: Env)
    requires WellFormed(h) && t < |h.tasks| && other < |h.tasks| && other != t && !MayWrite(h, t)
    ensures WellFormed(ResumeTask(h, other, env)) && !MayWrite(ResumeTask(h, other, env), t)
  {
    ResumeWellFormed(h, other, env);
    var task := h.tasks[other];
    var rec := h.records[task.record];
    if Terminal(rec.status) { TerminalEscapes(rec, task.flags, env); }
    hide BeginPipeline, ResumePipeline, Do;
  }

  lemma StepStaysHarmless(h: Host, e: Event, t: nat)
    requires WellFormed(h) && Enabled(h, e) && t < |h.tasks| && !MayWrite(h, t)
    ensures WellFormed(Step(h, e)) && t < |Step(h, e).tasks| && !MayWrite(Step(h, e), t)
  {
    StepWellFormed(h, e);
    if e.Resume? {
      if e.task == t { HarmlessResume(h, t, e.env); } else { OthersResume(h, t, e.task, e.env); }
      hide ResumeTask, MayWrite;
    }
  }

  lemma {:induction false} HarmlessRun(base: seq<Event>, more: seq<Event>, t: nat)
    requires After(base).Some? && t < |After(base).value.tasks| && !MayWrite(After(base).value, t)
    requires After(base + more).Some?
    ensures t < |After(base + more).value.tasks| && !MayWrite(After(base + more).value, t)
  {
    if more == [] {
      assert base + more == base;
    } else {
      var init, e := more[..|more| - 1], more[|more| - 1];
      RunSplit(base, more);
      hide After, MayWrite, Step, Enabled;
      AfterLast(base + init, e);
      HarmlessRun(base, init, t);
      StepStaysHarmless(After(base + init).value, e, t);
    }
  }

  lemma Extend(base: seq<Event>, more: seq<Event>, e: Event)
    requires After(base + more).Some? && Enabled(After(base + more).value, e)
    ensures After(base + (more + [e])) == Some(Step(After(base + more).value, e))
  {
    assert base + (more + [e]) == (base + more) + [e];
    NextState(base + more, After(base + more).value, e, Step(After(base + more).value, e));
  }

  /** Everything raises. */
  const BAD := Env(Raises(OtherError), Raises(OtherError), Some(OtherError), Raises(OtherError), false)

  /** On a record that is not terminal a creator that raises gets past its pipeline. */
  lemma BadReturns(r: Rec, flags: Flags)
    requires !Terminal(r.status)
    ensures BeginPipeline(r, flags, BAD).1 == Returned && ResumePipeline(r, flags, BAD).1 == Returned
  {
  }

  lemma BadResume(h: Host, t: nat)
    requires WellFormed(h) && t < |h.tasks| && MayWrite(h, t) && (h.tasks[t].stage.NotBegun? || h.tasks[t].stage.Generating?)
    ensures var h1 := Step(h, Resume(t, BAD)); h1.slot == h.slot && AtRan(h1, t)
  {
    BadReturns(h.records[h.tasks[t].record], h.tasks[t].flags);
    hide BeginPipeline, ResumePipeline;
  }

  ghost predicate AtRan(h: Host, t: nat) {
    t < |h.tasks| && h.tasks[t].Live() && h.tasks[t].stage.Ran? && h.tasks[t].port.Some?
  }

  ghost predicate AtStop(h: Host, t: nat) {
    t < |h.tasks| && h.tasks[t].Live() && h.tasks[t].stage.StoppingInstance?
  }

  /** A new simulation, declared without a port and created without a hitch. */
  lemma NewReady(h: Host, name: string, t: nat)
    requires WellFormed(h) && h.slot.None? && AtRan(h, t)
    ensures var h1 := Step(h, Declare(name, None, false));
            && WellFormed(h1) && Enabled(h1, Resume(|h.tasks|, UP))
            && var h2 := Step(h1, Resume(|h.tasks|, UP));
               && WellFormed(h2) && Enabled(h2, Resume(|h.tasks|, UP))
               && var h3 := Step(h2, Resume(|h.tasks|, UP));
                  && WellFormed(h3) && AtRan(h3, t)
                  && h3.slot.Some? && h3.records[h3.slot.value].status.Ready?
  {
    var h1 := Step(h, Declare(name, None, false));
    StepWellFormed(h, Declare(name, None, false));
    var n, rec, task := |h.tasks|, Declared(name), Task(|h.records|, Flags(true, true, false), None, NotBegun, false);
    assert h1 == Host(Some(|h.records|), Some(n), h.records + [rec], h.tasks + [task]);
    StepWellFormed(h1, Resume(n, UP));
    var begun := Do(rec, BeginSkill).0;
    var h2 := Step(h1, Resume(n, UP));
    assert h2 == Host(Some(|h.records|), Some(n), h.records + [begun], h.tasks + [task.(stage := Generating)]);
    StepWellFormed(h2, Resume(n, UP));
  }

  lemma StopFromRan(base: seq<Event>, t: nat) returns (more: seq<Event>)
    requires After(base).Some? && After(base).value.slot.None? && AtRan(After(base).value, t)
    ensures After(base + more).Some? && AtStop(After(base + more).value, t)
  {
    var h := After(base).value;
    var n := |h.tasks|;
    NewReady(h, "x", t);
    assert base + [] == base;
    hide After, AtRan;
    more := [];
    Extend(base, more, Declare("x", None, false));
    more := more + [Declare("x", None, false)];
    Extend(base, more, Resume(n, UP));
    more := more + [Resume(n, UP)];
    Extend(base, more, Resume(n, UP));
    more := more + [Resume(n, UP)];
    more := StopFromReady(base, more, t);
  }

  lemma StopFromReady(base: seq<Event>, before: seq<Event>, t: nat) returns (more: seq<Event>)
    requires After(base + before).Some? && AtRan(After(base + before).value, t)
    requires var h := After(base + before).value; h.slot.Some? && h.records[h.slot.value].status.Ready?
    ensures After(base + more).Some? && AtStop(After(base + more).value, t)
  {
    hide After;
    Extend(base, before, Resume(t, UP));
    more := before + [Resume(t, UP)];
    Extend(base, more, Resume(t, DOWN));
    more := more + [Resume(t, DOWN)];
  }

  lemma Regrouped(base: seq<Event>, e: Event, rest: seq<Event>)
    ensures base + ([e] + rest) == base + [e] + rest
  {
  }

  lemma StopFromPipeline(base: seq<Event>, t: nat) returns (more: seq<Event>)
    requires After(base).Some? && After(base).value.slot.None? && t < |After(base).value.tasks| && MayWrite(After(base).value, t)
    requires After(base).value.tasks[t].stage.NotBegun? || After(base).value.tasks[t].stage.Generating?
    ensures After(base + more).Some? && AtStop(After(base + more).value, t)
  {
    var h := After(base).value;
    BadResume(h, t);
    var e := Resume(t, BAD);
    NextState(base, h, e, Step(h, e));
    hide After, MayWrite, Step, AtRan, AtStop, Enabled;
    var rest := StopFromRan(base + [e], t);
    more := [e] + rest;
    Regrouped(base, e, rest);
  }

  lemma StopReached(base: seq<Event>, t: nat) returns (more: seq<Event>)
    requires After(base).Some? && After(base).value.slot.None? && t < |After(base).value.tasks| && MayWrite(After(base).value, t)
    ensures After(base + more).Some? && AtStop(After(base + more).value, t)
  {
    var h := After(base).value;
    assert base + [] == base;
    hide After;
    match h.tasks[t].stage
    case StoppingInstance(_) => more := [];
    case StartingSidecar(_) =>
      Extend(base, [], Resume(t, DOWN));
      more := [] + [Resume(t, DOWN)];
    case Ran => more := StopFromRan(base, t);
    case _ => more := StopFromPipeline(base, t);
  }

  lemma StoppedFills(base: seq<Event>, t: nat)
    requires After(base).Some? && AtStop(After(base).value, t)
    ensures After(base + [Resume(t, DOWN)]).Some?
    ensures After(base + [Resume(t, DOWN)]).value.slot != After(base).value.slot
  {
    NextState(base, After(base).value, Resume(t, DOWN), Step(After(base).value, Resume(t, DOWN)));
  }

  lemma DeleteLeaves(events: seq<Event>, t: nat)
    requires After(events).Some? && t < |After(events).value.tasks|
    ensures After(events + [Delete]).Some? && t < |After(events + [Delete]).value.tasks|
    ensures var h, h1 := After(events).value, After(events + [Delete]).value;
            h1.slot.None? && (MayWrite(h1, t) <==> h.creation != Some(t) && MayWrite(h, t))
  {
    var h := After(events).value;
    NextState(events, h, Delete, Step(h, Delete));
    var h1 := Step(h, Delete);
    assert h1.records == h.records && h1.tasks[t].record == h.tasks[t].record;
    assert h.creation != Some(t) ==> h1.tasks[t] == h.tasks[t];
    assert h.creation == Some(t) ==> !h1.tasks[t].Live();
  }

  /** Exactly these creators can still change a deleted slot, new requests or
      not: those the host does not know that may get to replacing a record. */
  lemma LeftoverWrites(events: seq<Event>, t: nat)
    requires After(events).Some? && t < |After(events).value.tasks|
    ensures Writes(events, t) <==> After(events).value.creation != Some(t) && MayWrite(After(events).value, t)
  {
    var base := events + [Delete];
    DeleteLeaves(events, t);
    hide After, MayWrite, AtStop;
    if MayWrite(After(base).value, t) {
      var more := StopReached(base, t);
      StoppedFills(base + more, t);
    } else {
      forall more, env | After(base + more).Some? && After(base + more + [Resume(t, env)]).Some?
        ensures After(base + more + [Resume(t, env)]).value.slot == After(base + more).value.slot
      {
        HarmlessRun(base, more, t);
        AfterLast(base + more, Resume(t, env));
        HarmlessResume(After(base + more).value, t, env);
      }
    }
  }

  // ---- why the guard is needed ----

  lemma Unguarded(events: seq<Event>, e: Event)
    requires After(events).Some? && After(events + [e]).Some?
    ensures DoubleStart(After(events).value, e) || !Guarded(events) ==> !Guarded(events + [e])
  {
    assert (events + [e])[..|events|] == events;
  }

  const UP := Env(Done(false), Done(true), None, Done(0), true)
  const DOWN := UP.(sidecarUp := false)
  const SETUP_ONLY := Flags(true, false, false)

  ghost function GeneratedRec(name: string): Rec {
    Do(Do(Declared(name), BeginSkill).0, MarkGenerated).0
  }

  ghost function ReadyRec(name: string): Rec {
    Do(Do(GeneratedRec(name), BeginInit).0, MarkReady(0)).0
  }

  /** A host whose only simulation was set up and not started. */
  ghost function SetUpHost(name: string): Host {
    Host(Some(0), Some(0), [GeneratedRec(name)], [Task(0, SETUP_ONLY, None, Finished, false)])
  }

  lemma SetUpRun(name: string) returns (events: seq<Event>)
    ensures After(events) == Some(SetUpHost(name))
  {
    var task := Task(0, SETUP_ONLY, None, NotBegun, false);
    var rec := Declared(name);
    assert After([]) == Some(EMPTY_HOST);
    hide After;
    var h := Host(Some(0), Some(0), [rec], [task]);
    NextState([], EMPTY_HOST, Setup(name, false), h);
    events := [] + [Setup(name, false)];
    var h1 := Host(Some(0), Some(0), [Do(rec, BeginSkill).0], [task.(stage := Generating)]);
    NextState(events, h, Resume(0, UP), h1);
    events := events + [Resume(0, UP)];
    var h2 := Host(Some(0), Some(0), [GeneratedRec(name)], [task.(stage := Ran)]);
    NextState(events, h1, Resume(0, UP), h2);
    events := events + [Resume(0, UP)];
    NextState(events, h2, Resume(0, UP), SetUpHost(name));
    events := events + [Resume(0, UP)];
  }

  /** Both starts accepted; the first one's creator waits for its sidecar. */
  ghost function StartedTwice(name: string, port: int): Host {
    var task := Task(0, START_ONLY, Some(port), NotBegun, false);
    Host(Some(0), Some(2), [ReadyRec(name)],
         [Task(0, SETUP_ONLY, None, Finished, false), task.(stage := StartingSidecar(0)), task])
  }

  /** Two starts accepted before either creator begins. */
  lemma StartTwice(name: string, port: int, setup: seq<Event>) returns (events: seq<Event>)
    requires After(setup) == Some(SetUpHost(name))
    ensures var task := Task(0, START_ONLY, Some(port), NotBegun, false);
            After(events) == Some(Host(Some(0), Some(2), [GeneratedRec(name)],
                                       [Task(0, SETUP_ONLY, None, Finished, false), task, task]))
    ensures !Guarded(events)
  {
    var start := Start(name, Some(port), true, true);
    var task := Task(0, START_ONLY, Some(port), NotBegun, false);
    var done := Task(0, SETUP_ONLY, None, Finished, false);
    hide After, Guarded;
    var h1 := Host(Some(0), Some(1), [GeneratedRec(name)], [done, task]);
    NextState(setup, SetUpHost(name), start, h1);
    events := setup + [start];
    var h2 := Host(Some(0), Some(2), [GeneratedRec(name)], [done, task, task]);
    NextState(events, h1, start, h2);
    assert h1.tasks[1].Live();
    Unguarded(events, start);
    events := events + [start];
  }

  /** A second start by itself does not yet undo a delete: the creator the host
      lost finds the slot empty and ends. */
  lemma DoubleStartMayBeQuiet(name: string, port: int) returns (events: seq<Event>)
    ensures After(events).Some? && !Guarded(events) && !OneCreator(After(events).value)
    ensures StaysEmpty(events)
  {
    var setup := SetUpRun(name);
    events := StartTwice(name, port, setup);
    hide After, Guarded, StaysEmpty;
    assert After(events).value.tasks[1].Live();
    DeleteFinal(events);
  }

  lemma StartTwiceRun(name: string, port: int, setup: seq<Event>) returns (events: seq<Event>)
    requires After(setup) == Some(SetUpHost(name))
    ensures After(events) == Some(StartedTwice(name, port)) && !Guarded(events)
  {
    events := StartTwice(name, port, setup);
    var task := Task(0, START_ONLY, Some(port), NotBegun, false);
    var done := Task(0, SETUP_ONLY, None, Finished, false);
    hide After, Guarded;
    var h2 := Host(Some(0), Some(2), [GeneratedRec(name)], [done, task, task]);
    var h3 := Host(Some(0), Some(2), [ReadyRec(name)], [done, task.(stage := Ran), task]);
    NextState(events, h2, Resume(1, UP), h3);
    Unguarded(events, Resume(1, UP));
    events := events + [Resume(1, UP)];
    NextState(events, h3, Resume(1, UP), StartedTwice(name, port));
    Unguarded(events, Resume(1, UP));
    events := events + [Resume(1, UP)];
  }

  /** Two `start` requests on one generated record, then a delete: the first
      creator is not cancelled, and when its sidecar fails it writes a failed
      record into the slot that was cleared. */
  lemma DoubleStartRevives(name: string, port: int) returns (before: seq<Event>, after: seq<Event>)
    ensures After(before).Some? && !Guarded(before) && !StaysEmpty(before)
    ensures After(before + [Delete]).Some? && After(before + [Delete]).value.slot.None?
    ensures AllResumes(after) && After(before + [Delete] + after).Some?
    ensures After(before + [Delete] + after).value.slot.Some?
  {
    var setup := SetUpRun(name);
    before := StartTwiceRun(name, port, setup);
    var h := StartedTwice(name, port);
    assert Step(h, Delete).tasks[1] == h.tasks[1] && Step(h, Delete).slot.None?;
    NextState(before, After(before).value, Delete, Step(After(before).value, Delete));
    hide After, Guarded;
    after := SidecarFills(before + [Delete], 1);
  }
}
