/** When a session expires, in terms of what has happened since its last reset
    (core/simulation_instance.py). */
module SessionExpiry {
  import opened Wrappers
  import opened Store
  import opened Registry
  import opened Sessions

  /** The last sign of activity since the last reset of any kind: a success, or
      the first call that was checked without expiring. */
  ghost function LastActive(events: seq<Event>): (r: Option<int>) {
    if events == [] then None
    else
      var before, e := LastActive(events[..|events| - 1]), events[|events| - 1];
      if e.Resetting? || e.Replacing? || (e.Checking? && e.expired) then None
      else if e.Responding? && e.success then Some(e.now)
      else if e.Checking? && before.None? then Some(e.started)
      else before
  }

  lemma ActiveStep(limits: Limits, load: Db -> Option<Config>, s: System, e: Event)
    requires Enabled(limits, load, s, e)
    ensures Step(limits, load, s, e).session.lastActivity ==
              if e.Resetting? || e.Replacing? || (e.Checking? && e.expired) then None
              else if e.Responding? && e.success then Some(e.now)
              else if e.Checking? && s.session.lastActivity.None? then Some(e.started)
              else s.session.lastActivity
  {
    hide Touched, Operated, ResetThread;
  }

  lemma {:induction false} ActivityKept(limits: Limits, load: Db -> Option<Config>, db: Db, events: seq<Event>, s: System)
    requires After(limits, load, db, events) == Some(s)
    ensures s.session.lastActivity == LastActive(events)
  {
    if events != [] {
      var n := |events| - 1;
      var before := After(limits, load, db, events[..n]).value;
      ActivityKept(limits, load, db, events[..n], before);
      ActiveStep(limits, load, before, events[n]);
      hide Step, Enabled;
    }
  }

  /** After every run, the check of an admitted call finds the session expired
      exactly if the message limit is reached, or the session has been idle too
      long; expired, the session starts over, and otherwise the call executes. */
  lemma ExpiryExactly(limits: Limits, load: Db -> Option<Config>, db: Db, events: seq<Event>, s: System, c: nat, started: int, now: int, expired: bool)
    requires limits.Valid() && After(limits, load, db, events) == Some(s)
    requires c in s.calls && s.calls[c].Admitted?
    ensures var e := Checking(c, started, now, expired);
            && (Enabled(limits, load, s, e) <==>
                  (expired <==>
                     || Successes(events) >= limits.maxMessages
                     || now - LastActive(events).GetOr(started) > limits.idleTimeout))
            && (Enabled(limits, load, s, e) ==>
                  var after := Step(limits, load, s, e);
                  if expired then after.calls[c] == Responded && after.session.toolCallCount == 0 && after.session.lastActivity.None? && after.cache == map[]
                  else after.calls[c] == Executing && after.session.toolCallCount == Successes(events)
                       && after.session.lastActivity == Some(LastActive(events).GetOr(started)) && after.cache == s.cache)
  {
    AdmissionSafe(limits, load, db, events, s);
    ActivityKept(limits, load, db, events, s);
    hide After, Touched, Operated, ResetThread, LastActive, Successes, Outstanding, ExecutingCalls;
  }

  /** After every run, a call that is not outstanding is admitted exactly while
      fewer calls are outstanding than the queue holds, and else refused, which
      changes nothing; an admitted call waits for its check. */
  lemma AdmissionExactly(limits: Limits, load: Db -> Option<Config>, db: Db, events: seq<Event>, s: System, c: nat)
    requires limits.Valid() && After(limits, load, db, events) == Some(s) && c !in Outstanding(events)
    ensures Enabled(limits, load, s, Admitting(c)) <==> |Outstanding(events)| < limits.maxDepth
    ensures Enabled(limits, load, s, Refused(c)) <==> |Outstanding(events)| >= limits.maxDepth
    ensures Enabled(limits, load, s, Refused(c)) ==> Step(limits, load, s, Refused(c)) == s
    ensures Enabled(limits, load, s, Admitting(c)) ==> c in Step(limits, load, s, Admitting(c)).calls && Step(limits, load, s, Admitting(c)).calls[c] == Admitted
  {
    AdmissionSafe(limits, load, db, events, s);
    hide After, Touched, Operated, ResetThread, Successes, Outstanding, ExecutingCalls;
  }

  /** What an outstanding call does next: an executing call responds and a call
      that responded is released; only a success counts. */
  lemma CallGoesOn(limits: Limits, load: Db -> Option<Config>, db: Db, events: seq<Event>, s: System, c: nat, success: bool, now: int)
    requires limits.Valid() && After(limits, load, db, events) == Some(s) && c in Outstanding(events)
    ensures c in s.calls
    ensures Enabled(limits, load, s, Responding(c, success, now)) <==> s.calls[c].Executing?
    ensures Enabled(limits, load, s, Releasing(c)) <==> s.calls[c].Responded?
    ensures s.calls[c].Executing? ==>
              var after := Step(limits, load, s, Responding(c, success, now));
              && after.calls[c] == Responded && after.cache == s.cache
              && after.session.toolCallCount == Successes(events) + (if success then 1 else 0)
              && after.session.lastActivity == if success then Some(now) else LastActive(events)
    ensures s.calls[c].Responded? ==>
              var after := Step(limits, load, s, Releasing(c));
              after.session.queueDepth == |Outstanding(events)| - 1 && after.calls.Keys == Outstanding(events) - {c}
  {
    AdmissionSafe(limits, load, db, events, s);
    ActivityKept(limits, load, db, events, s);
    hide After, Touched, Operated, ResetThread, Successes, Outstanding, ExecutingCalls, LastActive;
  }
}
