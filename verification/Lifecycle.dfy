/** The lifecycle of one simulation: its record and the creator that drives it
    (core/simulation_record.py, core/simulation_creator.py). */
module Lifecycle {
  import opened Wrappers

  datatype Status = Pending | GeneratingSkill | Generated | Initializing | Ready | Failed

  predicate Terminal(s: Status) {
    s.Ready? || s.Failed?
  }

  function NextOf(s: Status): (r: set<Status>) {
    match s
    case Pending => {GeneratingSkill, Generated, Initializing, Failed}
    case GeneratingSkill => {Generated, Initializing, Failed}
    case Generated => {Initializing, Failed}
    case Initializing => {Ready, Failed}
    case Ready => {}
    case Failed => {}
  }

  /** A record's fields, timestamps aside. `instance` stands for the running instance. */
  datatype Rec = Rec(name: string, status: Status, phase: Option<string>, error: Option<string>, instance: Option<nat>)

  function Declared(name: string): (r: Rec) {
    Rec(name, Pending, None, None, None)
  }

  /** The changes the system makes to a record. */
  datatype RecOp =
    | BeginSkill
    | BeginInit
    | MarkReady(instance: nat)
    | MarkGenerated
    | Fail(code: string)
    | SetPhase(phase: string)

  function Target(op: RecOp): (r: Status)
    requires !op.SetPhase?
  {
    match op
    case BeginSkill => GeneratingSkill
    case BeginInit => Initializing
    case MarkReady(_) => Ready
    case MarkGenerated => Generated
    case Fail(_) => Failed
  }

  /** The new record, and whether the change was allowed; a refused one raises. */
  function Do(r: Rec, op: RecOp): (res: (Rec, bool)) {
    if op.SetPhase? then (r.(phase := Some(op.phase)), true)
    else if Target(op) !in NextOf(r.status) then (r, false)
    else
      var moved := r.(status := Target(op));
      (match op
       case BeginSkill => moved.(phase := Some("skill_generation"))
       case BeginInit => moved.(phase := Some("agent_init"))
       case MarkReady(i) => moved.(phase := None, instance := Some(i))
       case MarkGenerated => moved.(phase := None)
       case Fail(code) => moved.(error := Some(code))
       case SetPhase(_) => moved, true)
  }

  class SimulationRecord {
    const name: string
    var status: Status
    var phase: Option<string>
    var error: Option<string>
    var instance: Option<nat>

    function State(): (r: Rec)
      reads this
    {
      Rec(name, status, phase, error, instance)
    }

    constructor Declare(name: string)
      ensures State() == Declared(name)
    {
      this.name := name;
      status, phase, error, instance := Pending, None, None, None;
    }

    method Transition(to: Status, phase: Option<string>) returns (ok: bool)
      modifies this
      ensures ok <==> to in NextOf(old(status))
      ensures !ok ==> State() == old(State())
      ensures ok ==> State() == old(State()).(status := to, phase := if phase.Some? then phase else old(this.phase))
    {
      if Terminal(status) { return false; }
      if to !in NextOf(status) { return false; }
      status := to;
      if phase.Some? { this.phase := phase; }
      return true;
    }

    /** Every change, through the method that makes it. */
    method Perform(op: RecOp) returns (ok: bool)
      modifies this
      ensures (State(), ok) == Do(old(State()), op)
    {
      match op
      case BeginSkill => ok := Transition(GeneratingSkill, Some("skill_generation"));
      case BeginInit => ok := Transition(Initializing, Some("agent_init"));
      case MarkReady(i) =>
        ok := Transition(Ready, None);
        if ok { phase := None; instance := Some(i); }
      case MarkGenerated =>
        ok := Transition(Generated, None);
        if ok { phase := None; }
      case Fail(code) =>
        ok := Transition(Failed, None);
        if ok { error := Some(code); }
      case SetPhase(p) =>
        phase := Some(p);
        ok := true;
    }
  }

  // ---- what every record satisfies ----

  function DoAll(r: Rec, ops: seq<RecOp>): (res: Rec) {
    if ops == [] then r else Do(DoAll(r, ops[..|ops| - 1]), ops[|ops| - 1]).0
  }

  /** How often the status changes. */
  function Changes(r: Rec, ops: seq<RecOp>): (n: nat) {
    if ops == [] then 0
    else
      var before := DoAll(r, ops[..|ops| - 1]);
      Changes(r, ops[..|ops| - 1]) + if Do(before, ops[|ops| - 1]).0.status != before.status then 1 else 0
  }

  function Rank(s: Status): (r: nat) {
    match s
    case Pending => 0
    case GeneratingSkill => 1
    case Generated => 2
    case Initializing => 3
    case Ready => 4
    case Failed => 4
  }

  /** The instance is set exactly when ready, the error exactly when failed. */
  ghost predicate Consistent(r: Rec) {
    (r.instance.Some? <==> r.status.Ready?) && (r.error.Some? <==> r.status.Failed?)
  }

  lemma DoConsistent(r: Rec, op: RecOp)
    requires Consistent(r)
    ensures Consistent(Do(r, op).0) && Do(r, op).0.name == r.name
    ensures Do(r, op).0.status == r.status || Rank(Do(r, op).0.status) > Rank(r.status)
  {
  }

  /** Whatever is done to a record, in any order and however often it raises,
      it stays consistent and changes status at most four times. */
  lemma {:induction false} RecordSafe(name: string, ops: seq<RecOp>)
    ensures var r := DoAll(Declared(name), ops);
            Consistent(r) && r.name == name && Changes(Declared(name), ops) <= Rank(r.status) <= 4
  {
    if ops != [] {
      RecordSafe(name, ops[..|ops| - 1]);
      DoConsistent(DoAll(Declared(name), ops[..|ops| - 1]), ops[|ops| - 1]);
    }
  }

  // ---- the creator ----

  datatype Flags = Flags(generate: bool, start: bool, regenerate: bool)

  /** The exceptions `run` tells apart. `Timeout` is the creation budget's, or
      one raised by any call the pipeline makes. */
  datatype Failure = StageTimeout | Timeout | OtherError

  /** A call into the surroundings. */
  datatype Attempt<+T> = Done(value: T) | Raises(failure: Failure)

  /** What the surroundings decide: files on disk, the generator, the factory. */
  datatype Env = Env(
    skillExists: Attempt<bool>, artifactsComplete: Attempt<bool>, generation: Option<Failure>, built: Attempt<nat>,
    sidecarUp: bool)

  /** Where a stretch of the creator ends: suspended in generation, returned, or
      with an exception of its own (a refused `fail`). */
  datatype End = Awaiting | Returned | Escaped

  function FailWith(r: Rec, code: string): (res: (Rec, End)) {
    var (r1, ok) := Do(r, Fail(code));
    (r1, if ok then Returned else Escaped)
  }

  /** What `run` does about an exception of the pipeline. */
  function HandleError(r: Rec, flags: Flags, failure: Failure): (res: (Rec, End)) {
    FailWith(r, match failure
                case StageTimeout => "stage_timeout"
                case Timeout => "creation_timeout"
                case OtherError =>
                  if flags.generate && (r.status.Pending? || r.status.GeneratingSkill?)
                  then "skill_generation_failed" else "instance_init_failed")
  }

  /** The pipeline after the artifacts are in place. */
  function FinishPipeline(r: Rec, flags: Flags, env: Env): (res: (Rec, End)) {
    if !flags.start then
      var (r1, ok) := Do(r, MarkGenerated);
      if ok then (r1, Returned) else HandleError(r1, flags, OtherError)
    else
      var (r1, ok) := Do(r, BeginInit);
      if !ok then HandleError(r1, flags, OtherError)
      else match env.built
        case Raises(failure) => HandleError(r1, flags, failure)
        case Done(instance) =>
          var (r2, ok2) := Do(r1, MarkReady(instance));
          if ok2 then (r2, Returned) else HandleError(r2, flags, OtherError)
  }

  /** From the start of the creator to its one suspension, or to its end. */
  function BeginPipeline(r: Rec, flags: Flags, env: Env): (res: (Rec, End)) {
    if flags.generate then
      match env.skillExists
      case Raises(failure) => HandleError(r, flags, failure)
      case Done(exists_) =>
        if exists_ && !flags.regenerate then (r, Awaiting)
        else
          var (r1, ok) := Do(r, BeginSkill);
          if ok then (r1, Awaiting) else HandleError(r1, flags, OtherError)
    else
      match env.artifactsComplete
      case Raises(failure) => HandleError(r, flags, failure)
      case Done(complete) => if complete then FinishPipeline(r, flags, env) else HandleError(r, flags, OtherError)
  }

  /** From the end of generation on. */
  function ResumePipeline(r: Rec, flags: Flags, env: Env): (res: (Rec, End)) {
    match env.generation
    case None => FinishPipeline(r, flags, env)
    case Some(failure) => HandleError(r, flags, failure)
  }

  /** A record a creator may be given: new, or generated and only to be started. */
  ghost predicate Drivable(r: Rec, flags: Flags) {
    Consistent(r) && (r.status.Pending? || (r.status.Generated? && !flags.generate && flags.start))
  }

  ghost predicate Settled(r: Rec, flags: Flags) {
    Consistent(r) && (r.status.Ready? || r.status.Failed? || (r.status.Generated? && !flags.start))
  }

  class SimulationCreator {
    const record: SimulationRecord
    const flags: Flags

    constructor (record: SimulationRecord, flags: Flags)
      ensures this.record == record && this.flags == flags
    {
      this.record := record;
      this.flags := flags;
    }

    method HandleException(failure: Failure) returns (end: End)
      modifies record
      ensures (record.State(), end) == HandleError(old(record.State()), flags, failure)
    {
      var code;
      match failure {
        case StageTimeout => code := "stage_timeout";
        case Timeout => code := "creation_timeout";
        case OtherError =>
          code := if flags.generate && (record.status.Pending? || record.status.GeneratingSkill?)
                  then "skill_generation_failed" else "instance_init_failed";
      }
      var ok := record.Perform(Fail(code));
      end := if ok then Returned else Escaped;
    }

    method Finish(env: Env) returns (end: End)
      modifies record
      ensures (record.State(), end) == FinishPipeline(old(record.State()), flags, env)
    {
      if !flags.start {
        var ok := record.Perform(MarkGenerated);
        if ok { return Returned; }
        end := HandleException(OtherError);
        return;
      }
      var ok := record.Perform(BeginInit);
      if !ok {
        end := HandleException(OtherError);
        return;
      }
      match env.built
      case Raises(failure) => end := HandleException(failure);
      case Done(instance) =>
        ok := record.Perform(MarkReady(instance));
        if ok { return Returned; }
        end := HandleException(OtherError);
    }

    /** The whole run, uncancelled. */
    method Run(env: Env) returns (end: End)
      modifies record
      ensures (record.State(), end) == WholeRun(old(record.State()), flags, env)
    {
      if flags.generate {
        if env.skillExists.Raises? {
          end := HandleException(env.skillExists.failure);
          return;
        }
        if !env.skillExists.value || flags.regenerate {
          var ok := record.Perform(BeginSkill);
          if !ok {
            end := HandleException(OtherError);
            return;
          }
        }
        match env.generation
        case None => end := Finish(env);
        case Some(failure) => end := HandleException(failure);
      } else {
        match env.artifactsComplete
        case Raises(failure) => end := HandleException(failure);
        case Done(complete) => if complete { end := Finish(env); } else { end := HandleException(OtherError); }
      }
    }
  }

  function WholeRun(r: Rec, flags: Flags, env: Env): (res: (Rec, End)) {
    var (r1, end) := BeginPipeline(r, flags, env);
    if end.Awaiting? then ResumePipeline(r1, flags, env) else (r1, end)
  }

  /** What goes wrong while the artifacts are made or found. */
  ghost function ArtifactFailure(flags: Flags, env: Env): Option<Failure> {
    if flags.generate then
      if env.skillExists.Raises? then Some(env.skillExists.failure) else env.generation
    else match env.artifactsComplete
      case Raises(failure) => Some(failure)
      case Done(complete) => if complete then None else Some(OtherError)
  }

  /** What goes wrong while the instance is built. */
  ghost function BuildFailure(flags: Flags, env: Env): Option<Failure> {
    if flags.start && env.built.Raises? then Some(env.built.failure) else None
  }

  /** Everything the creator needs goes well. */
  ghost predicate Succeeds(flags: Flags, env: Env) {
    ArtifactFailure(flags, env).None? && BuildFailure(flags, env).None?
  }

  /** The reported cause, when something does not: timeouts by their kind,
      anything else by the phase it happened in. */
  ghost function FailureCode(flags: Flags, env: Env): string
    requires !Succeeds(flags, env)
  {
    var early := ArtifactFailure(flags, env);
    var failure := if early.Some? then early.value else BuildFailure(flags, env).value;
    CodeOf(failure, early.Some? && flags.generate)
  }

  ghost function CodeOf(failure: Failure, generating: bool): string {
    match failure
    case StageTimeout => "stage_timeout"
    case Timeout => "creation_timeout"
    case OtherError => if generating then "skill_generation_failed" else "instance_init_failed"
  }

  // ---- where a creator leaves its record ----

  /** The record while its creator is suspended. */
  ghost predicate MidGeneration(r: Rec) {
    Consistent(r) && (r.status.Pending? || r.status.GeneratingSkill?)
  }

  lemma ErrorHandled(r: Rec, flags: Flags, failure: Failure)
    requires Consistent(r) && !Terminal(r.status)
    ensures var (r1, end) := HandleError(r, flags, failure);
            && end == Returned && Settled(r1, flags) && r1.name == r.name && r1.status.Failed?
            && r1.error == Some(CodeOf(failure, flags.generate && (r.status.Pending? || r.status.GeneratingSkill?)))
  {
  }

  /** From before initialization, the rest of the pipeline fails exactly if the
      instance cannot be built. */
  lemma FinishSettles(r: Rec, flags: Flags, env: Env)
    requires MidGeneration(r) || Drivable(r, flags)
    ensures var (r1, end) := FinishPipeline(r, flags, env);
            && end == Returned && Settled(r1, flags) && r1.name == r.name
            && (r1.status.Failed? <==> BuildFailure(flags, env).Some?)
            && (r1.status.Generated? ==> !flags.start)
            && (r1.status.Ready? ==> flags.start)
            && (r1.status.Failed? ==> r1.error == Some(CodeOf(BuildFailure(flags, env).value, false)))
  {
    if flags.start {
      ErrorHandled(Do(r, BeginInit).0, flags, if env.built.Raises? then env.built.failure else OtherError);
    }
  }

  lemma BeginSettlesOrWaits(r: Rec, flags: Flags, env: Env)
    requires Drivable(r, flags)
    ensures var (r1, end) := BeginPipeline(r, flags, env);
            && r1.name == r.name
            && (end.Returned? ==> Settled(r1, flags))
            && (end.Awaiting? ==> MidGeneration(r1) && flags.generate && env.skillExists.Done?)
            && !end.Escaped?
  {
    FinishSettles(r, flags, env);
    hide FinishPipeline, HandleError;
    forall failure: Failure ensures HandleError(r, flags, failure).1 == Returned && Settled(HandleError(r, flags, failure).0, flags)
      && HandleError(r, flags, failure).0.name == r.name
    {
      ErrorHandled(r, flags, failure);
    }
  }

  lemma ResumeSettles(r: Rec, flags: Flags, env: Env)
    requires MidGeneration(r)
    ensures var (r1, end) := ResumePipeline(r, flags, env);
            r1.name == r.name && end.Returned? && Settled(r1, flags)
  {
    hide FinishPipeline, HandleError;
    match env.generation
    case None => FinishSettles(r, flags, env);
    case Some(failure) => ErrorHandled(r, flags, failure);
  }

  /** For every flag combination and failure point, a creator that alone drives
      its record ends ready, failed with the right cause, or - only with start
      off - generated; and it is ready or generated exactly if nothing failed. */
  lemma AloneSettles(r: Rec, flags: Flags, env: Env)
    requires Drivable(r, flags)
    ensures var (r1, end) := WholeRun(r, flags, env);
            && end == Returned && Settled(r1, flags) && r1.name == r.name
            && (r1.status.Ready? <==> Succeeds(flags, env) && flags.start)
            && (r1.status.Generated? <==> Succeeds(flags, env) && !flags.start)
            && (r1.status.Failed? <==> !Succeeds(flags, env))
            && (r1.status.Failed? ==> r1.error == Some(FailureCode(flags, env)))
  {
    var (r1, end) := BeginPipeline(r, flags, env);
    BeginSettlesOrWaits(r, flags, env);
    var at := if end.Awaiting? then r1 else r;
    if ArtifactFailure(flags, env).Some? {
      ErrorHandled(at, flags, ArtifactFailure(flags, env).value);
    } else {
      FinishSettles(at, flags, env);
    }
    hide FinishPipeline, HandleError, Do, CodeOf;
  }

  lemma HandleErrorConsistent(r: Rec, flags: Flags, failure: Failure)
    requires Consistent(r)
    ensures Consistent(HandleError(r, flags, failure).0) && HandleError(r, flags, failure).0.name == r.name
  {
  }

  lemma FinishConsistent(r: Rec, flags: Flags, env: Env)
    requires Consistent(r)
    ensures Consistent(FinishPipeline(r, flags, env).0) && FinishPipeline(r, flags, env).0.name == r.name
  {
    var (g, _) := Do(r, MarkGenerated);
    var (i, _) := Do(r, BeginInit);
    DoConsistent(r, MarkGenerated);
    DoConsistent(r, BeginInit);
    HandleErrorConsistent(g, flags, OtherError);
    HandleErrorConsistent(i, flags, OtherError);
    match env.built
    case Raises(failure) => HandleErrorConsistent(i, flags, failure);
    case Done(instance) =>
      DoConsistent(i, MarkReady(instance));
      HandleErrorConsistent(Do(i, MarkReady(instance)).0, flags, OtherError);
  }

  /** Even a creator that competes for its record leaves it consistent. */
  lemma StretchConsistent(r: Rec, flags: Flags, env: Env)
    requires Consistent(r)
    ensures Consistent(BeginPipeline(r, flags, env).0) && BeginPipeline(r, flags, env).0.name == r.name
    ensures Consistent(ResumePipeline(r, flags, env).0) && ResumePipeline(r, flags, env).0.name == r.name
  {
    hide HandleError, FinishPipeline;
    DoConsistent(r, BeginSkill);
    FinishConsistent(r, flags, env);
    forall failure ensures Consistent(HandleError(r, flags, failure).0) && HandleError(r, flags, failure).0.name == r.name {
      HandleErrorConsistent(r, flags, failure);
    }
    HandleErrorConsistent(Do(r, BeginSkill).0, flags, OtherError);
  }
}
