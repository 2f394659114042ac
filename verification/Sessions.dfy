/** Bounded admission of concurrent tool calls, session expiry and reset, and the
    store cache behind them (core/simulation_instance.py; state/registry.py;
    core/simulation_host.py, `replace_database`). Every stretch of code between
    two points where a task may be suspended is one step, and steps of different
    calls interleave freely. */
module Sessions {
  import opened Wrappers
  import opened Store
  import opened StoreProperties
  import opened Registry

  datatype Limits = Limits(maxMessages: nat, idleTimeout: int, maxDepth: nat) {
    /** The configuration demands positive limits. */
    ghost predicate Valid() {
      maxMessages > 0 && idleTimeout > 0 && maxDepth > 0
    }
  }

  /** Times are in seconds; no clock reading is assumed to be monotonic. */
  datatype Session = Session(toolCallCount: nat, lastActivity: Option<int>, queueDepth: int)

  const NEW_SESSION := Session(0, None, 0)

  function Admit(limits: Limits, s: Session): (r: (Session, bool)) {
    if s.queueDepth >= limits.maxDepth then (s, false) else (s.(queueDepth := s.queueDepth + 1), true)
  }

  function StartTimer(s: Session, now: int): (r: Session) {
    if s.lastActivity.None? then s.(lastActivity := Some(now)) else s
  }

  predicate Expired(limits: Limits, s: Session, now: int) {
    || s.toolCallCount >= limits.maxMessages
    || (s.lastActivity.Some? && now - s.lastActivity.value > limits.idleTimeout)
  }

  function ClearSession(s: Session): (r: Session) {
    s.(toolCallCount := 0, lastActivity := None)
  }

  /** The timer may start at `started`; the expiry check reads the clock again. */
  function CheckExpiry(limits: Limits, s: Session, started: int, now: int): (r: (Session, bool)) {
    var s1 := StartTimer(s, started);
    if Expired(limits, s1, now) then (ClearSession(s1), true) else (s1, false)
  }

  function Respond(s: Session, success: bool, now: int): (r: Session) {
    if success then s.(toolCallCount := s.toolCallCount + 1, lastActivity := Some(now)) else s
  }

  function Release(s: Session): (r: Session) {
    s.(queueDepth := s.queueDepth - 1)
  }

  // ---- the instance: one method per step ----

  class SimulationInstance {
    const limits: Limits
    const registry: StoreRegistry
    var toolCallCount: nat
    var lastActivity: Option<int>
    var currentQueueDepth: int

    function State(): (r: Session)
      reads this
    {
      Session(toolCallCount, lastActivity, currentQueueDepth)
    }

    constructor (limits: Limits)
      ensures this.limits == limits && State() == NEW_SESSION
      ensures fresh(registry) && registry.Valid() && registry.View() == map[]
    {
      this.limits := limits;
      registry := new StoreRegistry();
      toolCallCount, lastActivity, currentQueueDepth := 0, None, 0;
    }

    method AdmitCall() returns (admitted: bool)
      modifies this
      ensures (State(), admitted) == Admit(limits, old(State()))
    {
      if currentQueueDepth >= limits.maxDepth { return false; }
      currentQueueDepth := currentQueueDepth + 1;
      return true;
    }

    method CheckCall(started: int, now: int) returns (expired: bool)
      modifies this, registry
      ensures (State(), expired) == CheckExpiry(limits, old(State()), started, now)
      ensures registry.View() == if expired then map[] else old(registry.View())
    {
      if lastActivity.None? { lastActivity := Some(started); }
      expired := toolCallCount >= limits.maxMessages;
      if !expired && lastActivity.Some? {
        expired := now - lastActivity.value > limits.idleTimeout;
      }
      if expired { ResetSession(); }
    }

    /** The agent's reset drops every cached store. */
    method ResetSession()
      modifies this, registry
      ensures State() == ClearSession(old(State())) && registry.Valid() && registry.View() == map[]
    {
      toolCallCount := 0;
      lastActivity := None;
      registry.DropAll();
    }

    method RespondCall(success: bool, now: int)
      modifies this
      ensures State() == Respond(old(State()), success, now)
    {
      if success {
        toolCallCount := toolCallCount + 1;
        lastActivity := Some(now);
      }
    }

    method ReleaseCall()
      modifies this
      ensures State() == Release(old(State()))
    {
      currentQueueDepth := currentQueueDepth - 1;
    }
  }

  // ---- the whole system ----

  type Db = map<string, seq<Row>>

  datatype Phase = Admitted | Executing | Responded

  /** `db` is what `db.json` holds. */
  datatype System = System(session: Session, calls: map<nat, Phase>, db: Db, cache: Cache)

  /** Loading a skill directory, which may fail; a loaded store is seeded from `db.json`. */
  ghost predicate Loader(load: Db -> Option<Config>) {
    forall db :: load(db).Some? ==> load(db).value.seed == db
  }

  /** A database with only rows their entity schemas accept; no other is ever
      written. */
  ghost predicate Sound(load: Db -> Option<Config>, db: Db) {
    load(db).Some? ==> SeedAccepted(load(db).value)
  }

  /** One step, with the outcomes that clocks, the agent and the file system decide. */
  datatype Event =
    | Admitting(call: nat)
    | Refused(call: nat)
    | Checking(call: nat, started: int, now: int, expired: bool)
    | Responding(call: nat, success: bool, now: int)
    | Releasing(call: nat)
    | Resetting
    | Touching(thread: string)
    | Operating(thread: string, op: Op)
    | ResettingThread(thread: string)
    | Dropping(thread: string)
    | Replacing(db: Db)

  /** A session reset also drops every cached store. */
  function ResetAll(s: System): (r: System) {
    s.(session := ClearSession(s.session), cache := map[])
  }

  ghost predicate Enabled(limits: Limits, load: Db -> Option<Config>, s: System, e: Event) {
    match e
    case Admitting(c) => c !in s.calls && Admit(limits, s.session).1
    case Refused(c) => c !in s.calls && !Admit(limits, s.session).1
    case Checking(c, started, now, expired) =>
      c in s.calls && s.calls[c].Admitted? && CheckExpiry(limits, s.session, started, now).1 == expired
    case Responding(c, _, _) => c in s.calls && s.calls[c].Executing?
    case Releasing(c) => c in s.calls && s.calls[c].Responded?
    case Operating(t, _) => t in s.cache
    case Replacing(new_) => s.session.queueDepth <= 0 && Sound(load, new_)
    case _ => true
  }

  ghost function Step(limits: Limits, load: Db -> Option<Config>, s: System, e: Event): (r: System)
    requires Enabled(limits, load, s, e)
  {
    match e
    case Admitting(c) => s.(session := Admit(limits, s.session).0, calls := s.calls[c := Admitted])
    case Refused(_) => s
    case Checking(c, started, now, expired) =>
      var s1 := s.(session := CheckExpiry(limits, s.session, started, now).0);
      if expired then s1.(calls := s.calls[c := Responded], cache := map[])
      else s1.(calls := s.calls[c := Executing])
    case Responding(c, success, now) =>
      s.(session := Respond(s.session, success, now), calls := s.calls[c := Responded])
    case Releasing(c) => s.(session := Release(s.session), calls := s.calls - {c})
    case Resetting => ResetAll(s)
    case Touching(t) => s.(cache := Touched(s.cache, t, load(s.db)))
    case Operating(t, op) => s.(cache := Operated(s.cache, t, op))
    case ResettingThread(t) => s.(cache := ResetThread(s.cache, t))
    case Dropping(t) => s.(cache := s.cache - {t})
    case Replacing(db) => ResetAll(s.(db := db))
  }

  function Start(db: Db): (r: System) {
    System(NEW_SESSION, map[], db, map[])
  }

  /** The state a run from a fresh instance ends in, if its steps can happen. */
  ghost function After(limits: Limits, load: Db -> Option<Config>, db: Db, events: seq<Event>): (r: Option<System>) {
    if events == [] then Some(Start(db))
    else
      var n := |events| - 1;
      match After(limits, load, db, events[..n])
      case Some(before) =>
        if Enabled(limits, load, before, events[n]) then Some(Step(limits, load, before, events[n])) else None
      case None => None
  }

  // ---- what the history says ----

  /** Successful responses since the last reset of any kind. */
  ghost function Successes(events: seq<Event>): (r: nat) {
    if events == [] then 0
    else
      var before, e := Successes(events[..|events| - 1]), events[|events| - 1];
      if e.Responding? && e.success then before + 1
      else if (e.Checking? && e.expired) || e.Resetting? || e.Replacing? then 0
      else before
  }

  /** The calls admitted and not yet released. */
  ghost function Outstanding(events: seq<Event>): (r: set<nat>) {
    if events == [] then {}
    else
      var n := |events| - 1;
      match events[n]
      case Admitting(c) => Outstanding(events[..n]) + {c}
      case Releasing(c) => Outstanding(events[..n]) - {c}
      case _ => Outstanding(events[..n])
  }

  ghost function ExecutingCalls(s: System): (r: set<nat>) {
    set c | c in s.calls && s.calls[c].Executing?
  }

  /** What `db.json` holds after a run. */
  ghost function CurrentDb(db: Db, events: seq<Event>): (r: Db) {
    if events == [] then db
    else match events[|events| - 1]
      case Replacing(new_) => new_
      case _ => CurrentDb(db, events[..|events| - 1])
  }

  // ---- what every reachable state satisfies ----

  ghost predicate AdmissionInv(limits: Limits, events: seq<Event>, s: System) {
    && s.calls.Keys == Outstanding(events)
    && s.session.queueDepth == |s.calls.Keys|
    && 0 <= s.session.queueDepth <= limits.maxDepth
    && s.session.toolCallCount == Successes(events)
    && s.session.toolCallCount + |ExecutingCalls(s)| <= limits.maxMessages - 1 + limits.maxDepth
  }

  /** How a step changes the outstanding and the executing calls. */
  lemma CallsStep(limits: Limits, load: Db -> Option<Config>, s: System, e: Event)
    requires Enabled(limits, load, s, e)
    ensures Step(limits, load, s, e).calls.Keys ==
              if e.Admitting? then s.calls.Keys + {e.call}
              else if e.Releasing? then s.calls.Keys - {e.call}
              else s.calls.Keys
    ensures ExecutingCalls(Step(limits, load, s, e)) ==
              if e.Checking? && !e.expired then ExecutingCalls(s) + {e.call}
              else if e.Responding? then ExecutingCalls(s) - {e.call}
              else ExecutingCalls(s)
    ensures e.Responding? ==> e.call in ExecutingCalls(s)
    ensures e.Releasing? ==> e.call in s.calls
  {
    var t := Step(limits, load, s, e);
    if !(e.Admitting? || e.Checking? || e.Responding? || e.Releasing?) {
      assert t.calls == s.calls;
    }
  }

  lemma HistoryStep(events: seq<Event>, e: Event)
    ensures Outstanding(events + [e]) ==
              if e.Admitting? then Outstanding(events) + {e.call}
              else if e.Releasing? then Outstanding(events) - {e.call}
              else Outstanding(events)
    ensures Successes(events + [e]) ==
              if e.Responding? && e.success then Successes(events) + 1
              else if (e.Checking? && e.expired) || e.Resetting? || e.Replacing? then 0
              else Successes(events)
  {
    assert (events + [e])[..|events|] == events;
  }

  /** How a step changes the queue depth and the counter. */
  lemma SessionStep(limits: Limits, load: Db -> Option<Config>, s: System, e: Event)
    requires Enabled(limits, load, s, e)
    ensures Step(limits, load, s, e).session.queueDepth ==
              s.session.queueDepth + if e.Admitting? then 1 else if e.Releasing? then -1 else 0
    ensures e.Admitting? ==> e.call !in s.calls && s.session.queueDepth < limits.maxDepth
    ensures Step(limits, load, s, e).session.toolCallCount ==
              if e.Responding? && e.success then s.session.toolCallCount + 1
              else if (e.Checking? && e.expired) || e.Resetting? || e.Replacing? then 0
              else s.session.toolCallCount
    ensures e.Checking? && !e.expired ==> s.session.toolCallCount < limits.maxMessages
  {
    hide Touched, Operated, ResetThread;
  }

  lemma DepthStep(limits: Limits, load: Db -> Option<Config>, s: System, e: Event)
    requires Enabled(limits, load, s, e)
    requires s.session.queueDepth == |s.calls.Keys| && s.session.queueDepth <= limits.maxDepth
    ensures var t := Step(limits, load, s, e);
            t.session.queueDepth == |t.calls.Keys| && t.session.queueDepth <= limits.maxDepth
  {
    CallsStep(limits, load, s, e);
    SessionStep(limits, load, s, e);
    hide Step, Enabled, ExecutingCalls;
  }

  lemma ExecutingStep(limits: Limits, load: Db -> Option<Config>, s: System, e: Event)
    requires Enabled(limits, load, s, e)
    ensures var t := Step(limits, load, s, e);
            && |ExecutingCalls(t)| <= |ExecutingCalls(s)| + (if e.Checking? && !e.expired then 1 else 0)
            && (e.Responding? ==> |ExecutingCalls(t)| == |ExecutingCalls(s)| - 1)
  {
    CallsStep(limits, load, s, e);
    hide Step, Enabled, ExecutingCalls;
  }

  lemma AdmissionStep(limits: Limits, load: Db -> Option<Config>, events: seq<Event>, s: System, e: Event)
    requires limits.Valid() && AdmissionInv(limits, events, s) && Enabled(limits, load, s, e)
    ensures AdmissionInv(limits, events + [e], Step(limits, load, s, e))
  {
    var t := Step(limits, load, s, e);
    CallsStep(limits, load, s, e);
    DepthStep(limits, load, s, e);
    SessionStep(limits, load, s, e);
    ExecutingStep(limits, load, s, e);
    HistoryStep(events, e);
    SubsetSize(ExecutingCalls(t), t.calls.Keys);
    hide Step, Enabled, Outstanding, Successes, ExecutingCalls;
  }

  lemma StartSafe(limits: Limits, db: Db)
    requires limits.Valid()
    ensures AdmissionInv(limits, [], Start(db))
  {
    assert ExecutingCalls(Start(db)) == {};
  }

  lemma LastSplit(events: seq<Event>)
    requires events != []
    ensures events == events[..|events| - 1] + [events[|events| - 1]]
  {
  }

  /** In every interleaving: the queue depth is the number of outstanding calls
      and never exceeds its bound, the counter is the number of successes since
      the last reset, and together with the calls still executing it stays below
      the message limit plus the queue bound. */
  lemma {:induction false} AdmissionSafe(limits: Limits, load: Db -> Option<Config>, db: Db, events: seq<Event>, s: System)
    requires limits.Valid() && After(limits, load, db, events) == Some(s)
    ensures AdmissionInv(limits, events, s)
  {
    if events == [] {
      StartSafe(limits, db);
    } else {
      var n := |events| - 1;
      var before := After(limits, load, db, events[..n]).value;
      AdmissionSafe(limits, load, db, events[..n], before);
      LastSplit(events);
      hide AdmissionInv, Step;
      AdmissionStep(limits, load, events[..n], before, events[n]);
    }
  }

  // ---- are calls serialised? ----

  /** Never do two calls execute at once. */
  ghost predicate Serialised(limits: Limits, load: Db -> Option<Config>, db: Db) {
    forall events | After(limits, load, db, events).Some? :: |ExecutingCalls(After(limits, load, db, events).value)| <= 1
  }

  lemma Proceed(limits: Limits, load: Db -> Option<Config>, db: Db, events: seq<Event>, s: System, e: Event)
    requires After(limits, load, db, events) == Some(s) && Enabled(limits, load, s, e)
    ensures After(limits, load, db, events + [e]) == Some(Step(limits, load, s, e))
  {
    assert (events + [e])[..|events|] == events;
  }

  /** A call admitted and checked while fewer than the queue holds are executing. */
  lemma OneMoreCall(limits: Limits, load: Db -> Option<Config>, db: Db, before: seq<Event>, s: System, call: nat) returns (events: seq<Event>)
    requires After(limits, load, db, before) == Some(s) && call !in s.calls && s.session.queueDepth < limits.maxDepth
    requires s.session.toolCallCount < limits.maxMessages && limits.Valid() && s.session.lastActivity.GetOr(0) == 0
    ensures After(limits, load, db, events) ==
      Some(s.(session := Session(s.session.toolCallCount, Some(0), s.session.queueDepth + 1), calls := s.calls[call := Executing]))
  {
    hide After;
    var s1 := Step(limits, load, s, Admitting(call));
    Proceed(limits, load, db, before, s, Admitting(call));
    Proceed(limits, load, db, before + [Admitting(call)], s1, Checking(call, 0, 0, false));
    events := before + [Admitting(call)] + [Checking(call, 0, 0, false)];
    assert s1.calls[call := Executing] == s.calls[call := Executing];
  }

  /** Two calls, each admitted and checked before either is answered. */
  lemma TwoAtOnce(limits: Limits, load: Db -> Option<Config>, db: Db) returns (events: seq<Event>)
    requires limits.Valid() && limits.maxDepth >= 2
    ensures After(limits, load, db, events).Some?
    ensures ExecutingCalls(After(limits, load, db, events).value) == {0, 1}
  {
    assert After(limits, load, db, []) == Some(Start(db));
    hide After;
    events := OneMoreCall(limits, load, db, [], Start(db), 0);
    events := OneMoreCall(limits, load, db, events, After(limits, load, db, events).value, 1);
  }

  /** Calls are serialised exactly if the queue has room for one only. */
  lemma SerialisedExactly(limits: Limits, load: Db -> Option<Config>, db: Db)
    requires limits.Valid()
    ensures Serialised(limits, load, db) <==> limits.maxDepth == 1
  {
    if limits.maxDepth == 1 {
      forall events | After(limits, load, db, events).Some?
        ensures |ExecutingCalls(After(limits, load, db, events).value)| <= 1
      {
        var s := After(limits, load, db, events).value;
        AdmissionSafe(limits, load, db, events, s);
        SubsetSize(ExecutingCalls(s), s.calls.Keys);
      }
    } else {
      var events := TwoAtOnce(limits, load, db);
      assert |ExecutingCalls(After(limits, load, db, events).value)| == 2;
    }
  }

  // ---- is the message limit kept? ----

  /** The counter never exceeds the message limit. */
  ghost predicate LimitKept(limits: Limits, load: Db -> Option<Config>, db: Db) {
    forall events | After(limits, load, db, events).Some? ::
      After(limits, load, db, events).value.session.toolCallCount <= limits.maxMessages
  }

  /** A session with this count, clock not advanced, and the first of `calls`
      calls answered. */
  ghost function Busy(db: Db, count: nat, calls: nat, answered: nat): (r: System) {
    System(Session(count, if count + calls == 0 then None else Some(0), calls),
           Calls(calls, answered), db, map[])
  }

  ghost function Calls(calls: nat, answered: nat): (r: map<nat, Phase>) {
    if calls == 0 then map[]
    else Calls(calls - 1, answered)[calls - 1 := if calls - 1 < answered then Responded else Executing]
  }

  lemma {:induction false} CallsAre(calls: nat, answered: nat)
    ensures forall c: nat :: c in Calls(calls, answered) <==> c < calls
    ensures forall c | c in Calls(calls, answered) :: Calls(calls, answered)[c] == if c < answered then Responded else Executing
  {
    if calls > 0 { CallsAre(calls - 1, answered); }
  }

  lemma Answer(limits: Limits, load: Db -> Option<Config>, db: Db, before: seq<Event>, count: nat, calls: nat, answered: nat)
    returns (events: seq<Event>)
    requires After(limits, load, db, before) == Some(Busy(db, count, calls, answered)) && answered < calls
    ensures After(limits, load, db, events) == Some(Busy(db, count + 1, calls, answered + 1))
  {
    hide After;
    var s := Busy(db, count, calls, answered);
    CallsAre(calls, answered);
    CallsAre(calls, answered + 1);
    Proceed(limits, load, db, before, s, Responding(answered, true, 0));
    events := before + [Responding(answered, true, 0)];
    assert s.calls[answered := Responded] == Busy(db, count + 1, calls, answered + 1).calls;
  }

  lemma OneInTurn(limits: Limits, load: Db -> Option<Config>, db: Db, before: seq<Event>, count: nat) returns (events: seq<Event>)
    requires limits.Valid() && count < limits.maxMessages && After(limits, load, db, before) == Some(Busy(db, count, 0, 0))
    ensures After(limits, load, db, events) == Some(Busy(db, count + 1, 0, 0))
  {
    assert Calls(0, 0) == map[] && Calls(1, 0) == map[0 := Executing] && Calls(1, 1) == map[0 := Responded];
    hide After, Calls;
    events := OneMoreCall(limits, load, db, before, Busy(db, count, 0, 0), 0);
    events := Answer(limits, load, db, events, count, 1, 0);
    Proceed(limits, load, db, events, Busy(db, count + 1, 1, 1), Releasing(0));
    events := events + [Releasing(0)];
  }

  /** One call after the other, each successful. */
  lemma {:induction false} InTurn(limits: Limits, load: Db -> Option<Config>, db: Db, n: nat) returns (events: seq<Event>)
    requires limits.Valid() && n <= limits.maxMessages
    ensures After(limits, load, db, events) == Some(Busy(db, n, 0, 0))
  {
    events := [];
    if n > 0 {
      events := InTurn(limits, load, db, n - 1);
      hide After;
      events := OneInTurn(limits, load, db, events, n - 1);
    }
  }

  /** As many calls at once as the queue holds. */
  lemma {:induction false} AtOnce(limits: Limits, load: Db -> Option<Config>, db: Db, count: nat, calls: nat) returns (events: seq<Event>)
    requires limits.Valid() && count < limits.maxMessages && calls <= limits.maxDepth
    ensures After(limits, load, db, events) == Some(Busy(db, count, calls, 0))
  {
    if calls == 0 {
      events := InTurn(limits, load, db, count);
    } else {
      events := AtOnce(limits, load, db, count, calls - 1);
      hide After;
      CallsAre(calls - 1, 0);
      events := OneMoreCall(limits, load, db, events, Busy(db, count, calls - 1, 0), calls - 1);
    }
  }

  lemma {:induction false} AllAnswered(limits: Limits, load: Db -> Option<Config>, db: Db, count: nat, calls: nat, answered: nat)
    returns (events: seq<Event>)
    requires limits.Valid() && count < limits.maxMessages && answered <= calls <= limits.maxDepth
    ensures After(limits, load, db, events) == Some(Busy(db, count + answered, calls, answered))
  {
    if answered == 0 {
      events := AtOnce(limits, load, db, count, calls);
    } else {
      events := AllAnswered(limits, load, db, count, calls, answered - 1);
      events := Answer(limits, load, db, events, count + answered - 1, calls, answered - 1);
    }
  }

  /** The bound of `AdmissionSafe` is reached: all but one message in turn, then
      a queue full of calls that all succeed. */
  lemma BoundAttained(limits: Limits, load: Db -> Option<Config>, db: Db) returns (events: seq<Event>)
    requires limits.Valid()
    ensures After(limits, load, db, events).Some?
    ensures After(limits, load, db, events).value.session.toolCallCount == limits.maxMessages - 1 + limits.maxDepth
  {
    events := AllAnswered(limits, load, db, limits.maxMessages - 1, limits.maxDepth, limits.maxDepth);
  }

  /** So the message limit is kept exactly if the queue has room for one only. */
  lemma LimitKeptExactly(limits: Limits, load: Db -> Option<Config>, db: Db)
    requires limits.Valid()
    ensures LimitKept(limits, load, db) <==> limits.maxDepth == 1
  {
    if limits.maxDepth == 1 {
      forall events | After(limits, load, db, events).Some?
        ensures After(limits, load, db, events).value.session.toolCallCount <= limits.maxMessages
      {
        AdmissionSafe(limits, load, db, events, After(limits, load, db, events).value);
      }
    } else {
      var events := BoundAttained(limits, load, db);
    }
  }

  /** The database is only ever replaced while no call is admitted. */
  lemma NoCallSpansReplacement(limits: Limits, load: Db -> Option<Config>, db: Db, events: seq<Event>, s: System, new_: Db)
    requires limits.Valid() && After(limits, load, db, events + [Replacing(new_)]) == Some(s)
    ensures Outstanding(events) == {}
  {
    var all := events + [Replacing(new_)];
    assert all[..|events|] == events;
    var before := After(limits, load, db, events).value;
    AdmissionSafe(limits, load, db, events, before);
    assert |before.calls.Keys| == 0;
  }

  /** A cached store was built from the current database and holds what some
      operations made of it. */
  ghost predicate Coherent(load: Db -> Option<Config>, db: Db, cached: Cached) {
    && load(db) == Some(cached.cfg)
    && exists ops :: cached.data == Run(cached.cfg, cached.cfg.SeedData(), ops)
  }

  lemma OperatedCoherent(load: Db -> Option<Config>, db: Db, cached: Cached, op: Op)
    requires Coherent(load, db, cached)
    ensures Coherent(load, db, cached.(data := Apply(cached.cfg, cached.data, op).0))
  {
    var ops :| cached.data == Run(cached.cfg, cached.cfg.SeedData(), ops);
    assert (ops + [op])[..|ops|] == ops;
    assert Run(cached.cfg, cached.cfg.SeedData(), ops + [op]) == Apply(cached.cfg, cached.data, op).0;
  }

  lemma StepCoherent(limits: Limits, load: Db -> Option<Config>, s: System, e: Event)
    requires Enabled(limits, load, s, e) && forall t | t in s.cache :: Coherent(load, s.db, s.cache[t])
    ensures var s1 := Step(limits, load, s, e); forall t | t in s1.cache :: Coherent(load, s1.db, s1.cache[t])
  {
    hide Coherent, Apply;
    match e
    case Touching(_) => if load(s.db).Some? { SeededCoherent(load, s.db); }
    case Operating(t, op) => OperatedCoherent(load, s.db, s.cache[t], op);
    case ResettingThread(t) => if t in s.cache { OperatedCoherent(load, s.db, s.cache[t], Op.Reset); }
    case _ =>
  }

  lemma SeededCoherent(load: Db -> Option<Config>, db: Db)
    requires load(db).Some?
    ensures Coherent(load, db, Cached(load(db).value, load(db).value.SeedData()))
  {
    assert Run(load(db).value, load(db).value.SeedData(), []) == load(db).value.SeedData();
  }

  lemma DbStep(limits: Limits, load: Db -> Option<Config>, s: System, e: Event)
    requires Enabled(limits, load, s, e)
    ensures Step(limits, load, s, e).db == if e.Replacing? then e.db else s.db
    ensures e.Replacing? ==> Sound(load, e.db)
  {
  }

  /** In every run, each cached store is a store of the current `db.json`, which
      is sound if the first was. */
  lemma {:induction false} CacheCoherent(limits: Limits, load: Db -> Option<Config>, db: Db, events: seq<Event>, s: System)
    requires After(limits, load, db, events) == Some(s)
    ensures s.db == CurrentDb(db, events) && (Sound(load, db) ==> Sound(load, s.db))
    ensures forall t | t in s.cache :: Coherent(load, s.db, s.cache[t])
  {
    if events != [] {
      var n := |events| - 1;
      var before := After(limits, load, db, events[..n]).value;
      CacheCoherent(limits, load, db, events[..n], before);
      hide Step, Enabled, Coherent, Sound;
      StepCoherent(limits, load, before, events[n]);
      DbStep(limits, load, before, events[n]);
    }
  }

  /** Hence a valid first `db.json` keeps every row of every cached store valid,
      in every interleaving of operations, resets, evictions and replacements. */
  lemma CachedRowsValid(limits: Limits, load: Db -> Option<Config>, db: Db, events: seq<Event>, s: System, thread: string)
    requires Loader(load) && After(limits, load, db, events) == Some(s) && thread in s.cache
    requires Sound(load, db)
    ensures s.cache[thread].cfg.seed == CurrentDb(db, events)
    ensures AllAccepted(s.cache[thread].cfg, s.cache[thread].data)
  {
    CacheCoherent(limits, load, db, events, s);
    var cached := s.cache[thread];
    assert Coherent(load, s.db, cached);
    var ops :| cached.data == Run(cached.cfg, cached.cfg.SeedData(), ops);
    RunKeepsRowsValid(cached.cfg, ops);
  }
}
