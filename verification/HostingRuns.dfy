/** What the requests lead to when all goes well, from request to sidecar
    (core/simulation_host.py, core/simulation_creator.py). */
module HostingRuns {
  import opened Wrappers
  import opened Lifecycle
  import opened Hosting

  /** Everything succeeds; the instance built is this one. */
  ghost predicate Smooth(env: Env, instance: nat) {
    && env.skillExists.Done? && env.artifactsComplete == Done(true)
    && env.generation.None? && env.built == Done(instance)
  }

  lemma StepFrom(events: seq<Event>, h: Host, e: Event)
    requires After(events) == Some(h) && Enabled(h, e)
    ensures After(events + [e]) == Some(Step(h, e))
  {
    NextState(events, h, e, Step(h, e));
  }

  /** The newest task, on the newest record, which is in the slot. */
  ghost predicate Newest(h: Host, name: string, port: Option<int>, flags: Flags, stage: Stage, status: Status) {
    && |h.tasks| > 0 && |h.records| > 0
    && h.creation == Some(|h.tasks| - 1) && h.slot == Some(|h.records| - 1)
    && h.tasks[|h.tasks| - 1] == Task(|h.records| - 1, flags, port, stage, false)
    && h.records[|h.records| - 1].name == name && h.records[|h.records| - 1].status == status
  }

  /** What each request launches on an empty slot: a declare and a setup generate,
      as asked anew or not; a declare and a start start, on the port asked for. */
  lemma RequestLaunches(h: Host, name: string, port: Option<int>, regenerate: bool)
    requires WellFormed(h) && h.slot.None?
    ensures Newest(Step(h, Declare(name, port, regenerate)), name, port, Flags(true, true, regenerate), NotBegun, Pending)
    ensures Newest(Step(h, Setup(name, regenerate)), name, None, Flags(true, false, regenerate), NotBegun, Pending)
    ensures Newest(Step(h, Start(name, port, true, true)), name, port, Flags(false, true, false), NotBegun, Pending)
  {
  }

  /** A `start` of the generated record in the slot reuses it. */
  lemma StartConsumes(h: Host, name: string, port: Option<int>)
    requires WellFormed(h) && h.slot.Some?
    requires h.records[h.slot.value].name == name && h.records[h.slot.value].status.Generated?
    ensures var h1 := Step(h, Start(name, port, true, true));
            && h1.slot == h.slot && h1.records == h.records && h1.creation == Some(|h.tasks|)
            && h1.tasks == h.tasks + [Task(h.slot.value, Flags(false, true, false), port, NotBegun, false)]
  {
  }

  /** Without complete artifacts, or with the slot held by another record, a
      `start` does nothing; so do a declare and a setup on a held slot. */
  lemma RequestsRefused(h: Host, name: string, port: Option<int>, regenerate: bool, readable: bool)
    requires WellFormed(h)
    ensures Step(h, Start(name, port, false, readable)) == h
    ensures h.slot.Some? ==> Step(h, Declare(name, port, regenerate)) == h && Step(h, Setup(name, regenerate)) == h
    ensures h.slot.Some? && !(h.records[h.slot.value].name == name && h.records[h.slot.value].status.Generated?) ==>
              Step(h, Start(name, port, true, readable)) == h
  {
  }

  /** The last stretches of a creator whose record is ready in the slot. */
  lemma SidecarIfPort(h: Host, name: string, port: Option<int>, flags: Flags, env: Env)
    requires WellFormed(h) && Newest(h, name, port, flags, Ran, Ready)
    ensures var h1 := Step(h, Resume(|h.tasks| - 1, env));
            && h1.records == h.records
            && Newest(h1, name, port, flags, if port.Some? then StartingSidecar(|h.records| - 1) else Finished, Ready)
  {
  }

  /** Generation is suspended once, and reusing artifacts skips its status. */
  lemma GenerationBegins(h: Host, name: string, port: Option<int>, flags: Flags, env: Env, instance: nat)
    requires WellFormed(h) && Newest(h, name, port, flags, NotBegun, Pending) && flags.generate && Smooth(env, instance)
    ensures var h1 := Step(h, Resume(|h.tasks| - 1, env));
            Newest(h1, name, port, flags, Generating, if env.skillExists.value && !flags.regenerate then Pending else GeneratingSkill)
  {
  }

  lemma GenerationEnds(h: Host, name: string, port: Option<int>, flags: Flags, env: Env, instance: nat, status: Status)
    requires WellFormed(h) && Newest(h, name, port, flags, Generating, status) && (status.Pending? || status.GeneratingSkill?)
    requires Smooth(env, instance)
    ensures var h1 := Step(h, Resume(|h.tasks| - 1, env));
            && Newest(h1, name, port, flags, Ran, if flags.start then Ready else Generated)
            && (flags.start ==> h1.records[|h1.records| - 1].instance == Some(instance))
  {
  }

  lemma StartingEnds(h: Host, name: string, port: Option<int>, flags: Flags, env: Env, instance: nat)
    requires WellFormed(h) && Newest(h, name, port, flags, NotBegun, Pending) && !flags.generate && flags.start
    requires Smooth(env, instance)
    ensures var h1 := Step(h, Resume(|h.tasks| - 1, env));
            && Newest(h1, name, port, flags, Ran, Ready) && h1.records[|h1.records| - 1].instance == Some(instance)
  {
  }

  /** From any run that left the slot empty, a declare whose environment succeeds
      ends with its record ready in the slot, and its creator at the sidecar
      exactly if a port was given. */
  lemma DeclareSucceeds(events: seq<Event>, name: string, port: Option<int>, regenerate: bool, env: Env, instance: nat)
    requires After(events).Some? && After(events).value.slot.None? && Smooth(env, instance)
    ensures var n := |After(events).value.tasks|;
            var run := events + [Declare(name, port, regenerate)] + [Resume(n, env)] + [Resume(n, env)] + [Resume(n, env)];
            && After(run).Some?
            && Newest(After(run).value, name, port, Flags(true, true, regenerate),
                      if port.Some? then StartingSidecar(|After(events).value.records|) else Finished, Ready)
  {
    var h := After(events).value;
    var flags, resume := Flags(true, true, regenerate), Resume(|h.tasks|, env);
    RequestLaunches(h, name, port, regenerate);
    StepFrom(events, h, Declare(name, port, regenerate));
    var h1 := Step(h, Declare(name, port, regenerate));
    assert |h1.tasks| == |h.tasks| + 1 && |h1.records| == |h.records| + 1;
    hide After, Smooth;
    CreatorRuns(events + [Declare(name, port, regenerate)], h1, name, port, flags, env, instance);
  }

  lemma CreatorRuns(events: seq<Event>, h: Host, name: string, port: Option<int>, flags: Flags, env: Env, instance: nat)
    requires After(events) == Some(h) && Newest(h, name, port, flags, NotBegun, Pending) && flags.generate && Smooth(env, instance)
    ensures var resume := Resume(|h.tasks| - 1, env);
            var run := events + [resume] + [resume] + [resume];
            && After(run).Some?
            && Newest(After(run).value, name, port, flags,
                      if flags.start && port.Some? then StartingSidecar(|h.records| - 1) else Finished, if flags.start then Ready else Generated)
  {
    assert |h.tasks| > 0;
    hide *;
    var resume := Resume(|h.tasks| - 1, env);
    var h2 := Generates(events, h, name, port, flags, env, instance);
    LastStretch(h2, name, port, flags, env);
    var h3 := Resumed(events + [resume] + [resume], h2, name, port, flags, Ran, if flags.start then Ready else Generated, env);
  }

  lemma Generates(events: seq<Event>, h: Host, name: string, port: Option<int>, flags: Flags, env: Env, instance: nat)
    returns (h2: Host)
    requires After(events) == Some(h) && Newest(h, name, port, flags, NotBegun, Pending) && flags.generate && Smooth(env, instance)
    ensures |h2.tasks| == |h.tasks| && |h2.records| == |h.records| && WellFormed(h2)
    ensures After(events + [Resume(|h.tasks| - 1, env)] + [Resume(|h.tasks| - 1, env)]) == Some(h2)
    ensures Newest(h2, name, port, flags, Ran, if flags.start then Ready else Generated)
  {
    assert |h.tasks| > 0;
    hide *;
    SkillKnown(env, instance);
    var status := if env.skillExists.value && !flags.regenerate then Pending else GeneratingSkill;
    GenerationBegins(h, name, port, flags, env, instance);
    var h1 := Resumed(events, h, name, port, flags, NotBegun, Pending, env);
    GenerationEnds(h1, name, port, flags, env, instance, status);
    h2 := Resumed(events + [Resume(|h.tasks| - 1, env)], h1, name, port, flags, Generating, status, env);
  }

  lemma SkillKnown(env: Env, instance: nat)
    requires Smooth(env, instance)
    ensures env.skillExists.Done?
  {
  }

  lemma LastStretch(h: Host, name: string, port: Option<int>, flags: Flags, env: Env)
    requires WellFormed(h) && Newest(h, name, port, flags, Ran, if flags.start then Ready else Generated)
    ensures Newest(Step(h, Resume(|h.tasks| - 1, env)), name, port, flags,
                   if flags.start && port.Some? then StartingSidecar(|h.records| - 1) else Finished,
                   if flags.start then Ready else Generated)
  {
    if flags.start {
      SidecarIfPort(h, name, port, flags, env);
    }
  }

  lemma Resumed(events: seq<Event>, h: Host, name: string, port: Option<int>, flags: Flags, stage: Stage, status: Status, env: Env)
    returns (h1: Host)
    requires After(events) == Some(h) && WellFormed(h) && Newest(h, name, port, flags, stage, status)
    requires stage.NotBegun? || stage.Generating? || stage.Ran?
    ensures h1 == Step(h, Resume(|h.tasks| - 1, env)) && After(events + [Resume(|h.tasks| - 1, env)]) == Some(h1)
    ensures WellFormed(h1) && |h1.tasks| == |h.tasks| && |h1.records| == |h.records|
  {
    var resume := Resume(|h.tasks| - 1, env);
    h1 := Step(h, resume);
    hide After;
    StepFrom(events, h, resume);
    SameSizes(h, resume);
  }

  lemma SameSizes(h: Host, e: Event)
    requires WellFormed(h) && Enabled(h, e) && e.Resume? && !h.tasks[e.task].stage.StoppingInstance?
    ensures WellFormed(Step(h, e)) && |Step(h, e).tasks| == |h.tasks| && |Step(h, e).records| == |h.records|
  {
    StepWellFormed(h, e);
    hide BeginPipeline, ResumePipeline;
  }

  /** A setup that succeeds ends with its record generated in the slot. */
  lemma SetupSucceeds(events: seq<Event>, name: string, regenerate: bool, env: Env, instance: nat)
    requires After(events).Some? && After(events).value.slot.None? && Smooth(env, instance)
    ensures var n := |After(events).value.tasks|;
            var run := events + [Setup(name, regenerate)] + [Resume(n, env)] + [Resume(n, env)] + [Resume(n, env)];
            && After(run).Some?
            && Newest(After(run).value, name, None, Flags(true, false, regenerate), Finished, Generated)
  {
    var h := After(events).value;
    RequestLaunches(h, name, None, regenerate);
    StepFrom(events, h, Setup(name, regenerate));
    var h1 := Step(h, Setup(name, regenerate));
    assert |h1.tasks| == |h.tasks| + 1;
    hide After, Smooth;
    CreatorRuns(events + [Setup(name, regenerate)], h1, name, None, Flags(true, false, regenerate), env, instance);
  }

  /** A start on an empty slot ends like a declare, without generating. */
  lemma StartSucceeds(events: seq<Event>, name: string, port: Option<int>, env: Env, instance: nat)
    requires After(events).Some? && After(events).value.slot.None? && Smooth(env, instance)
    ensures var n := |After(events).value.tasks|;
            var run := events + [Start(name, port, true, true)] + [Resume(n, env)] + [Resume(n, env)];
            && After(run).Some?
            && Newest(After(run).value, name, port, Flags(false, true, false),
                      if port.Some? then StartingSidecar(|After(events).value.records|) else Finished, Ready)
  {
    var h := After(events).value;
    var e := Start(name, port, true, true);
    RequestLaunches(h, name, port, false);
    StepFrom(events, h, e);
    var h1 := Step(h, e);
    assert |h1.tasks| == |h.tasks| + 1 && |h1.records| == |h.records| + 1;
    hide *;
    StarterRuns(events + [e], h1, name, port, env, instance);
  }

  lemma StarterRuns(events: seq<Event>, h: Host, name: string, port: Option<int>, env: Env, instance: nat)
    requires After(events) == Some(h) && Newest(h, name, port, Flags(false, true, false), NotBegun, Pending) && Smooth(env, instance)
    ensures var resume := Resume(|h.tasks| - 1, env);
            var run := events + [resume] + [resume];
            && After(run).Some?
            && Newest(After(run).value, name, port, Flags(false, true, false),
                      if port.Some? then StartingSidecar(|h.records| - 1) else Finished, Ready)
  {
    assert |h.tasks| > 0;
    hide *;
    var flags, resume := Flags(false, true, false), Resume(|h.tasks| - 1, env);
    StartingEnds(h, name, port, flags, env, instance);
    var h1 := Resumed(events, h, name, port, flags, NotBegun, Pending, env);
    LastStretch(h1, name, port, flags, env);
    var h2 := Resumed(events + [resume], h1, name, port, flags, Ran, Ready, env);
  }

  /** A sidecar that fails leaves a failed record of the same name in the slot,
      with the cause; one that comes up leaves everything as it is. */
  lemma SidecarOutcome(h: Host, name: string, port: Option<int>, flags: Flags, env: Env)
    requires WellFormed(h) && |h.records| > 0 && Newest(h, name, port, flags, StartingSidecar(|h.records| - 1), Ready)
    ensures var t := |h.tasks| - 1;
            var h1 := Step(h, Resume(t, env));
            if env.sidecarUp then h1 == h.(tasks := h.tasks[t := h.tasks[t].(stage := Finished)])
            else
              && WellFormed(h1) && Enabled(h1, Resume(t, env))
              && var h2 := Step(h1, Resume(t, env));
                 && h2.slot == Some(|h.records|) && |h2.records| == |h.records| + 1
                 && h2.records[|h.records|] == Rec(name, Failed, None, Some("sidecar_start_failed"), None)
  {
    StepWellFormed(h, Resume(|h.tasks| - 1, env));
  }

  /** A delete empties the slot and forgets the creator, whatever it was at. */
  lemma DeleteClears(h: Host)
    requires WellFormed(h)
    ensures var h1 := Step(h, Delete);
            && h1.slot.None? && h1.creation.None? && h1.records == h.records && |h1.tasks| == |h.tasks|
            && forall t | 0 <= t < |h.tasks| ::
                 h1.tasks[t] == if h.creation == Some(t) && !h.tasks[t].stage.Finished? then h.tasks[t].(cancelled := true) else h.tasks[t]
  {
  }
}
