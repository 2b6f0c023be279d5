/** Provision retries of the forming worker: the backoff ladder, the retry timers, and what the
    retry callback's missing identity check costs.

    Same conventions as `Debounce`: one label per critical section, `Next` total. */
module Provision {
  import opened Timers

  /** A session id; `NIL` stands for `uuid.Nil`. */
  type Session = nat

  const NIL: Session := 0

  /** What one timer made by `ScheduleProvisionRetry` is for, and the delay it was armed with. */
  datatype Retry = Retry(session: Session, delay: nat)

  datatype State = State(timers: map<Session, nat>, attempts: map<Session, nat>, pool: seq<Timer<Retry>>)

  datatype Label =
    | Schedule(id: Session)
    | Clear(id: Session)
    | Fire(t: nat)
    | Enter(t: nat)
    | Shutdown

  const INIT := State(map[], map[], [])

  const MAX_DELAY := 30_000

  /** The delay, in milliseconds, before a retry. */
  function Backoff(attempt: nat): nat {
    match attempt
    case 0 => 100
    case 1 => 500
    case 2 => 2_000
    case 3 => 5_000
    case 4 => 15_000
    case _ => MAX_DELAY
  }

  function Attempts(s: State, id: Session): nat {
    if id in s.attempts then s.attempts[id] else 0
  }

  function Next(s: State, l: Label): State {
    match l
    case Schedule(id) =>
      if id == NIL then s else
      var attempt := Attempts(s, id);
      var pool := if id in s.timers then HaltAt(s.pool, s.timers[id]) else s.pool;
      State(s.timers[id := |pool|], s.attempts[id := attempt + 1], pool + [Timer(Retry(id, Backoff(attempt)), Armed)])
    case Clear(id) =>
      if id == NIL then s else
      State(s.timers - {id}, s.attempts - {id}, if id in s.timers then HaltAt(s.pool, s.timers[id]) else s.pool)
    case Fire(t) =>
      if t < |s.pool| && s.pool[t].phase.Armed? then s.(pool := s.pool[t := s.pool[t].(phase := Waiting)]) else s
    case Enter(t) =>
      // delete(w.provisionTimers, sessionID), whichever timer the map holds by now
      if !(t < |s.pool| && s.pool[t].phase.Waiting?) then s else
      s.(timers := s.timers - {s.pool[t].job.session}, pool := s.pool[t := s.pool[t].(phase := InFlight)])
    case Shutdown =>
      s.(timers := map[], pool := HaltAll(s.pool, s.timers.Values))
  }

  function After(s: State, ls: seq<Label>): State
    decreases |ls|
  {
    if ls == [] then s else After(Next(s, ls[0]), ls[1..])
  }

  lemma {:induction false} AfterConcat(s: State, a: seq<Label>, b: seq<Label>)
    ensures After(s, a + b) == After(After(s, a), b)
    decreases |a|
  {
    hide Next;
    if a == [] {
      assert a + b == b;
    } else {
      assert (a + b)[1..] == a[1..] + b;
      AfterConcat(Next(s, a[0]), a[1..], b);
    }
  }

  lemma AfterLast(s: State, ls: seq<Label>, l: Label)
    ensures After(s, ls + [l]) == Next(After(s, ls), l)
  {
    hide Next;
    AfterConcat(s, ls, [l]);
    assert [l][1..] == [];
  }

  lemma AfterFirst(s: State, l: Label, ls: seq<Label>)
    ensures After(s, [l] + ls) == After(Next(s, l), ls)
  {
    hide Next;
    assert ([l] + ls)[1..] == ls;
  }

  // ----- which retry timers can still be stopped

  /** The map holds only timers of the right session that have not entered their callback. */
  ghost predicate Wf(s: State) {
    forall id :: id in s.timers ==>
      && id != NIL && s.timers[id] < |s.pool| && s.pool[s.timers[id]].job.session == id
      && (s.pool[s.timers[id]].phase.Armed? || s.pool[s.timers[id]].phase.Waiting?)
  }

  ghost predicate IsTracked(s: State, t: nat)
    requires t < |s.pool|
  {
    s.pool[t].job.session in s.timers && s.timers[s.pool[t].job.session] == t
  }

  /** Every armed retry timer is in the map, so `ClearProvisionRetry` and `Shutdown` can stop it. */
  ghost predicate Tracked(s: State) {
    forall t :: 0 <= t < |s.pool| && s.pool[t].phase.Armed? ==> IsTracked(s, t)
  }

  /** The guard the callback lacks: it deletes the entry although the map has moved on to another
      timer, which is still armed. */
  predicate Orphans(s: State, l: Label) {
    && l.Enter? && l.t < |s.pool| && s.pool[l.t].phase.Waiting?
    && s.pool[l.t].job.session in s.timers
    && var mapped := s.timers[s.pool[l.t].job.session];
       mapped != l.t && mapped < |s.pool| && s.pool[mapped].phase.Armed?
  }

  lemma StepWf(s: State, l: Label)
    requires Wf(s)
    ensures Wf(Next(s, l))
  {
    var s' := Next(s, l);
    forall id | id in s'.timers
      ensures id != NIL && s'.timers[id] < |s'.pool| && s'.pool[s'.timers[id]].job.session == id
      ensures s'.pool[s'.timers[id]].phase.Armed? || s'.pool[s'.timers[id]].phase.Waiting?
    {
      if l != Schedule(id) {
        assert id in s.timers;
      }
    }
  }

  lemma {:induction false} WfAfter(s: State, ls: seq<Label>)
    requires Wf(s)
    ensures Wf(After(s, ls))
    decreases |ls|
  {
    hide Next;
    if ls != [] {
      StepWf(s, ls[0]);
      WfAfter(Next(s, ls[0]), ls[1..]);
    }
  }

  /** Exactly the callbacks that meet a newer armed timer break tracking; every other step keeps it. */
  lemma TrackedExactly(s: State, l: Label)
    requires Wf(s) && Tracked(s)
    ensures Tracked(Next(s, l)) <==> !Orphans(s, l)
  {
    var s' := Next(s, l);
    if Orphans(s, l) {
      var mapped := s.timers[s.pool[l.t].job.session];
      assert s'.pool[mapped].phase.Armed? && !IsTracked(s', mapped);
    } else {
      forall t | 0 <= t < |s'.pool| && s'.pool[t].phase.Armed? ensures IsTracked(s', t) {
        if t < |s.pool| {
          assert s.pool[t] == s'.pool[t] && IsTracked(s, t);
        }
      }
    }
  }

  /** Over a whole run: while no callback orphans a newer timer, every armed retry stays stoppable. */
  lemma {:induction false} TrackedAlways(s: State, ls: seq<Label>)
    requires Wf(s) && Tracked(s)
    requires forall i :: 0 <= i < |ls| ==> !Orphans(After(s, ls[..i]), ls[i])
    ensures Wf(After(s, ls)) && Tracked(After(s, ls))
    decreases |ls|
  {
    hide Next;
    if ls != [] {
      var l, rest := ls[0], ls[1..];
      assert ls[..0] == [] && !Orphans(After(s, ls[..0]), l);
      StepWf(s, l);
      TrackedExactly(s, l);
      forall i | 0 <= i < |rest| ensures !Orphans(After(Next(s, l), rest[..i]), rest[i]) {
        assert ls[..i + 1] == [l] + rest[..i];
        assert ls[..i + 1][1..] == rest[..i];
        assert !Orphans(After(s, ls[..i + 1]), ls[i + 1]);
      }
      TrackedAlways(Next(s, l), rest);
    }
  }

  // ----- what becomes of one timer over a run

  /** The step deletes the entry of `t`, which is armed, on behalf of another timer. */
  predicate OrphansTimer(s: State, l: Label, t: nat) {
    Orphans(s, l) && s.timers[s.pool[l.t].job.session] == t
  }

  /** Some step of the run orphans `t`. */
  predicate OrphanedIn(s: State, ls: seq<Label>, t: nat)
    decreases |ls|
  {
    ls != [] && (OrphansTimer(s, ls[0], t) || OrphanedIn(Next(s, ls[0]), ls[1..], t))
  }

  /** `t` fires in the run. */
  predicate FiredIn(s: State, ls: seq<Label>, t: nat)
    decreases |ls|
  {
    ls != [] && (
      || (ls[0] == Fire(t) && t < |s.pool| && s.pool[t].phase.Armed?)
      || FiredIn(Next(s, ls[0]), ls[1..], t))
  }

  /** The timer has fired: its callback will run, or has run. */
  predicate Escaped(p: Phase) {
    p.Waiting? || p.InFlight?
  }

  lemma StepPhase(s: State, l: Label, t: nat)
    requires t < |s.pool|
    ensures t < |Next(s, l).pool| && Next(s, l).pool[t].job == s.pool[t].job
    ensures var p, p' := s.pool[t].phase, Next(s, l).pool[t].phase;
      && (p.Armed? ==> (p'.Waiting? <==> l == Fire(t)) && (p'.Armed? || p'.Waiting? || p'.Stopped?))
      && (!p.Armed? ==> !p'.Armed? && (Escaped(p') <==> Escaped(p)) && (p'.Stopped? <==> p.Stopped?))
  {
  }

  /** A timer the map has lost is lost for good: only `Fire` can still move it. */
  lemma StepTracked(s: State, l: Label, t: nat)
    requires Wf(s) && t < |s.pool| && s.pool[t].phase.Armed? && t < |Next(s, l).pool|
    ensures Next(s, l).pool[t].phase.Armed? ==>
      (IsTracked(Next(s, l), t) <==> IsTracked(s, t) && !OrphansTimer(s, l, t))
    ensures Next(s, l).pool[t].phase.Stopped? ==> IsTracked(s, t) && !OrphansTimer(s, l, t)
    ensures OrphansTimer(s, l, t) ==> Next(s, l).pool[t].phase.Armed?
  {
  }

  lemma {:induction false} NoLongerArmed(s: State, ls: seq<Label>, t: nat)
    requires t < |s.pool| && !s.pool[t].phase.Armed?
    ensures !OrphanedIn(s, ls, t) && !FiredIn(s, ls, t)
    ensures t < |After(s, ls).pool| && After(s, ls).pool[t].job == s.pool[t].job
    ensures var p, p' := s.pool[t].phase, After(s, ls).pool[t].phase;
      !p'.Armed? && (Escaped(p') <==> Escaped(p)) && (p'.Stopped? <==> p.Stopped?)
    decreases |ls|
  {
    hide Next;
    if ls != [] {
      StepPhase(s, ls[0], t);
      NoLongerArmed(Next(s, ls[0]), ls[1..], t);
    }
  }

  /** The whole fate of an armed timer: it has escaped exactly if it fired; it is armed and out of the
      map's reach exactly if it did not fire and some step orphaned it, or it was out of reach before;
      and otherwise it is armed in the map or has been stopped. */
  lemma {:induction false} Fate(s: State, ls: seq<Label>, t: nat)
    requires Wf(s) && t < |s.pool| && s.pool[t].phase.Armed?
    ensures t < |After(s, ls).pool| && After(s, ls).pool[t].job == s.pool[t].job
    ensures var p' := After(s, ls).pool[t].phase; p'.Armed? || Escaped(p') || p'.Stopped?
    ensures Escaped(After(s, ls).pool[t].phase) <==> FiredIn(s, ls, t)
    ensures After(s, ls).pool[t].phase.Armed? && !IsTracked(After(s, ls), t)
       <==> !FiredIn(s, ls, t) && (!IsTracked(s, t) || OrphanedIn(s, ls, t))
    decreases |ls|
  {
    hide Next;
    if ls != [] {
      var s', rest := Next(s, ls[0]), ls[1..];
      StepWf(s, ls[0]);
      StepPhase(s, ls[0], t);
      StepTracked(s, ls[0], t);
      if s'.pool[t].phase.Armed? {
        Fate(s', rest, t);
      } else {
        NoLongerArmed(s', rest, t);
      }
    }
  }

  // ----- shutdown

  lemma ShutdownLeaves(s: State, t: nat)
    requires Wf(s) && t < |s.pool|
    ensures Next(s, Shutdown).pool[t].phase.Armed? <==> s.pool[t].phase.Armed? && !IsTracked(s, t)
  {
    if s.pool[t].phase.Armed? && t in s.timers.Values {
      var id :| id in s.timers && s.timers[id] == t;
    }
  }

  /** Step `i` of the run from the start orphans `t`, and `t` has not fired since. */
  ghost predicate StillOrphaned(ls: seq<Label>, i: nat, t: nat) {
    && i < |ls| && OrphansTimer(After(INIT, ls[..i]), ls[i], t)
    && !FiredIn(After(INIT, ls[..i + 1]), ls[i + 1..], t)
  }

  lemma InitWf()
    ensures Wf(INIT)
  {
  }

  lemma Cut(ls: seq<Label>, i: nat)
    requires i < |ls|
    ensures ls[..i + 1] == ls[..i] + [ls[i]] && ls == ls[..i + 1] + ls[i + 1..]
  {
  }

  lemma Halves(ls: seq<Label>, i: nat)
    requires i < |ls|
    ensures After(INIT, ls[..i + 1]) == Next(After(INIT, ls[..i]), ls[i])
    ensures After(INIT, ls) == After(After(INIT, ls[..i + 1]), ls[i + 1..])
    ensures Wf(After(INIT, ls[..i])) && Wf(After(INIT, ls[..i + 1]))
  {
    hide *;
    Cut(ls, i);
    AfterLast(INIT, ls[..i], ls[i]);
    AfterConcat(INIT, ls[..i + 1], ls[i + 1..]);
    InitWf();
    WfAfter(INIT, ls[..i]);
    WfAfter(INIT, ls[..i + 1]);
  }

  /** A timer is in the map when it is made. */
  lemma NewIsTracked(s: State, l: Label, t: nat)
    requires t < |Next(s, l).pool|
    ensures t >= |s.pool| ==> IsTracked(Next(s, l), t)
  {
  }

  lemma {:induction false} FindOrphan(ls: seq<Label>, t: nat) returns (i: nat)
    requires t < |After(INIT, ls).pool| && After(INIT, ls).pool[t].phase.Armed? && !IsTracked(After(INIT, ls), t)
    ensures i < |ls| && OrphansTimer(After(INIT, ls[..i]), ls[i], t)
    decreases |ls|
  {
    hide Next;
    var n := |ls| - 1;
    var front, s := ls[..n], After(INIT, ls[..n]);
    Halves(ls, n);
    assert ls[..n + 1] == ls;
    NewIsTracked(s, ls[n], t);
    StepPhase(s, ls[n], t);
    StepTracked(s, ls[n], t);
    if IsTracked(s, t) {
      i := n;
    } else {
      i := FindOrphan(front, t);
      assert front[..i] == ls[..i];
    }
  }

  /** A run, then `Shutdown`: some retry timer is left armed exactly when a step of the run orphaned a
      timer that has not fired since. */
  lemma ShutdownStopsAllExactly(ls: seq<Label>)
    ensures (exists t :: 0 <= t < |Next(After(INIT, ls), Shutdown).pool|
                         && Next(After(INIT, ls), Shutdown).pool[t].phase.Armed?)
       <==> exists i: nat, t: nat :: StillOrphaned(ls, i, t)
  {
    var s := After(INIT, ls);
    var s' := Next(s, Shutdown);
    WfAfter(INIT, ls);
    if t :| 0 <= t < |s'.pool| && s'.pool[t].phase.Armed? {
      ShutdownLeaves(s, t);
      var i := FindOrphan(ls, t);
      Halves(ls, i);
      StepTracked(After(INIT, ls[..i]), ls[i], t);
      Fate(After(INIT, ls[..i + 1]), ls[i + 1..], t);
      assert StillOrphaned(ls, i, t);
    }
    if i: nat, t: nat :| StillOrphaned(ls, i, t) {
      Halves(ls, i);
      StepTracked(After(INIT, ls[..i]), ls[i], t);
      Fate(After(INIT, ls[..i + 1]), ls[i + 1..], t);
      ShutdownLeaves(s, t);
    }
  }

  /** A retry that fires while its session is being rescheduled leaves the new timer armed through
      `Shutdown`, although `Shutdown` is documented to stop every pending timer. */
  lemma ShutdownMissesAnOrphan(id: Session)
    requires id != NIL
    ensures var s := After(INIT, [Schedule(id), Fire(0), Schedule(id), Enter(0), Shutdown]);
      |s.pool| == 2 && s.pool[1].phase.Armed? && id !in s.timers
  {
    var s1 := Next(INIT, Schedule(id));
    var s2 := Next(s1, Fire(0));
    var s3 := Next(s2, Schedule(id));
    var s4 := Next(s3, Enter(0));
    assert s4.timers == map[];
    AfterFirst(INIT, Schedule(id), [Fire(0), Schedule(id), Enter(0), Shutdown]);
    AfterFirst(s1, Fire(0), [Schedule(id), Enter(0), Shutdown]);
    AfterFirst(s2, Schedule(id), [Enter(0), Shutdown]);
    AfterFirst(s3, Enter(0), [Shutdown]);
    AfterFirst(s4, Shutdown, []);
  }

  // ----- ProvisionNow, and the resolver's hook behind it

  /** How one `ProvisionNow` goes: the store cannot say, or has the session provisioned already, or the
      hook runs.  It fails before touching the retry, or after clearing it when a table cannot be
      published; or returns nil having rolled the session back, leaving the retry alone; or having
      cleared it; or, the transient failure, having scheduled a retry itself. */
  datatype Outcome = StoreFailed | Complete | HookFailed | ClearedThenFailed | RolledBack | HookDone | Deferred

  predicate Fails(o: Outcome) {
    o.StoreFailed? || o.HookFailed? || o.ClearedThenFailed?
  }

  /** The critical sections a `ProvisionNow` goes through, with those of other goroutines before its last. */
  function Steps(id: Session, o: Outcome, others: seq<Label>): seq<Label> {
    match o
    case StoreFailed => others
    case Complete => others + [Clear(id)]
    case HookFailed => others + [Schedule(id)]
    case ClearedThenFailed => [Clear(id)] + others + [Schedule(id)]
    case RolledBack => others + [Clear(id)]
    case HookDone => [Clear(id)] + others + [Clear(id)]
    case Deferred => [Schedule(id)] + others + [Clear(id)]
  }

  lemma AfterSteps(s: State, a: Label, others: seq<Label>, b: Label)
    ensures After(s, [a] + others + [b]) == Next(After(Next(s, a), others), b)
  {
    hide Next;
    AfterLast(s, [a] + others, b);
    AfterFirst(s, a, others);
  }

  /** Whatever runs in between: when a `ProvisionNow` returns its session has a retry pending exactly if
      the hook returned an error, or the store did and one is pending anyway: an error means that
      one is pending, unless it was the store's.  A hook that cleared the
      retry before failing starts the ladder over, unless another goroutine has climbed it since. */
  lemma RetryPendingExactly(s: State, id: Session, o: Outcome, others: seq<Label>)
    requires id != NIL
    ensures var s' := After(s, Steps(id, o, others));
      && (id in s'.timers <==>
            o.HookFailed? || o.ClearedThenFailed? || (o.StoreFailed? && id in After(s, others).timers))
      && Attempts(s', id) == match o {
           case StoreFailed => Attempts(After(s, others), id)
           case HookFailed => Attempts(After(s, others), id) + 1
           case ClearedThenFailed => Attempts(After(Next(s, Clear(id)), others), id) + 1
           case _ => 0
         }
      && (Fails(o) <==> o.StoreFailed? || id in s'.timers)
    ensures Attempts(Next(s, Clear(id)), id) == 0
  {
    AfterLast(s, others, Clear(id));
    AfterLast(s, others, Schedule(id));
    AfterSteps(s, Clear(id), others, Schedule(id));
    AfterSteps(s, Clear(id), others, Clear(id));
    AfterSteps(s, Schedule(id), others, Clear(id));
  }

  /** Whether the retry that is pending when `ProvisionNow` is called still runs on its own: only if it fires
      while the store or the hook is busy, and never once a hook has begun by clearing or replacing it. */
  lemma PendingRetryRuns(s: State, id: Session, o: Outcome, others: seq<Label>, t: nat)
    requires Wf(s) && id in s.timers && s.timers[id] == t && s.pool[t].phase.Armed?
    ensures var s' := After(s, Steps(id, o, others));
      && t < |s'.pool|
      && (Escaped(s'.pool[t].phase) <==>
            FiredIn(s, others, t) && !o.ClearedThenFailed? && !o.HookDone? && !o.Deferred?)
  {
    match o
    case ClearedThenFailed => StoppedFirst(s, Clear(id), others, Schedule(id), t);
    case HookDone => StoppedFirst(s, Clear(id), others, Clear(id), t);
    case Deferred => StoppedFirst(s, Schedule(id), others, Clear(id), t);
    case StoreFailed => Fate(s, others, t);
    case HookFailed => EscapesBefore(s, others, Schedule(id), t);
    case _ => EscapesBefore(s, others, Clear(id), t);
  }

  lemma StoppedFirst(s: State, a: Label, others: seq<Label>, b: Label, t: nat)
    requires t < |s.pool| && t < |Next(s, a).pool| && Next(s, a).pool[t].phase.Stopped?
    ensures var s' := After(s, [a] + others + [b]); t < |s'.pool| && s'.pool[t].phase.Stopped?
  {
    hide Next;
    AfterSteps(s, a, others, b);
    NoLongerArmed(Next(s, a), others, t);
    StepPhase(After(Next(s, a), others), b, t);
  }

  lemma EscapesBefore(s: State, others: seq<Label>, b: Label, t: nat)
    requires Wf(s) && t < |s.pool| && s.pool[t].phase.Armed? && !b.Fire?
    ensures var s' := After(s, others + [b]);
      t < |s'.pool| && (Escaped(s'.pool[t].phase) <==> FiredIn(s, others, t))
  {
    hide Next;
    AfterLast(s, others, b);
    Fate(s, others, t);
    StepPhase(After(s, others), b, t);
  }

  /** What becomes of the retry a deferring hook schedules, by the time `ProvisionNow` has cleared the
      session, from every state and whatever ran in between.  It has escaped to its callback exactly if
      it fired, it is armed exactly if a callback orphaned it and it did not fire, and it is stopped,
      and so lost, in all other runs.  The attempt count starts over in any case. */
  lemma DeferredRetryIsLost(s: State, id: Session, others: seq<Label>)
    requires Wf(s) && id != NIL
    ensures var s1, s', t := Next(s, Schedule(id)), After(s, Steps(id, Deferred, others)), |s.pool|;
      && t < |s'.pool| && s'.pool[t].job == Retry(id, Backoff(Attempts(s, id)))
      && (Escaped(s'.pool[t].phase) <==> FiredIn(s1, others, t))
      && (s'.pool[t].phase.Armed? <==> !FiredIn(s1, others, t) && OrphanedIn(s1, others, t))
      && (s'.pool[t].phase.Stopped? <==> !FiredIn(s1, others, t) && !OrphanedIn(s1, others, t))
      && id !in s'.timers && Attempts(s', id) == 0
  {
    var t, s1 := |s.pool|, Next(s, Schedule(id));
    var s2 := After(s1, others);
    assert s1.pool[t] == Timer(Retry(id, Backoff(Attempts(s, id))), Armed) && IsTracked(s1, t);
    StepWf(s, Schedule(id));
    Fate(s1, others, t);
    WfAfter(s1, others);
    AfterSteps(s, Schedule(id), others, Clear(id));
    ClearReaches(s2, id, t);
  }

  lemma ClearReaches(s: State, id: Session, t: nat)
    requires Wf(s) && id != NIL && t < |s.pool| && s.pool[t].job.session == id
    ensures var s' := Next(s, Clear(id));
      && t < |s'.pool| && s'.pool[t].job == s.pool[t].job && id !in s'.timers && Attempts(s', id) == 0
      && s'.pool[t].phase == if s.pool[t].phase.Armed? && IsTracked(s, t) then Stopped else s.pool[t].phase
  {
  }

  /** Undisturbed it is always lost; but there is a run in which it survives, armed and unmapped: an older
      retry of the session was waiting for the lock, and its callback comes in between. */
  lemma DeferredRetrySurvives(id: Session)
    requires id != NIL
    ensures var s := After(INIT, [Schedule(id), Fire(0)]);
      var s' := After(s, Steps(id, Deferred, [Enter(0)]));
      Tracked(s) && |s.pool| == 1 && |s'.pool| == 2 && s'.pool[1].phase.Armed? && s'.timers == map[]
  {
    var s1 := Next(INIT, Schedule(id));
    var s2 := Next(s1, Fire(0));
    var s3 := Next(s2, Schedule(id));
    var s4 := Next(s3, Enter(0));
    assert s4.timers == map[] && s4.pool[1].phase.Armed?;
    AfterFirst(INIT, Schedule(id), [Fire(0)]);
    AfterFirst(s1, Fire(0), []);
    AfterSteps(s2, Schedule(id), [Enter(0)], Clear(id));
    AfterFirst(s3, Enter(0), []);
  }

  // ----- the ladder

  /** `ClearProvisionRetry` with something to clear. */
  predicate Resets(s: State, l: Label, id: Session) {
    l == Clear(id) && Next(s, l) != s
  }

  predicate Unreset(s: State, ls: seq<Label>, id: Session)
    decreases |ls|
  {
    ls == [] || (!Resets(s, ls[0], id) && Unreset(Next(s, ls[0]), ls[1..], id))
  }

  /** How often the session is scheduled in the run. */
  function Climbs(ls: seq<Label>, id: Session): nat {
    if ls == [] then 0 else (if ls[0] == Schedule(id) then 1 else 0) + Climbs(ls[1..], id)
  }

  lemma StepAttempts(s: State, l: Label, id: Session)
    requires id != NIL && !Resets(s, l, id)
    ensures Attempts(Next(s, l), id) == Attempts(s, id) + if l == Schedule(id) then 1 else 0
  {
  }

  lemma {:induction false} AttemptsCount(s: State, ls: seq<Label>, id: Session)
    requires id != NIL && Unreset(s, ls, id)
    ensures Attempts(After(s, ls), id) == Attempts(s, id) + Climbs(ls, id)
    decreases |ls|
  {
    hide Next;
    if ls != [] {
      StepAttempts(s, ls[0], id);
      AttemptsCount(Next(s, ls[0]), ls[1..], id);
    }
  }

  lemma {:induction false} JobsFixed(s: State, ls: seq<Label>, t: nat)
    requires t < |s.pool|
    ensures t < |After(s, ls).pool| && After(s, ls).pool[t].job == s.pool[t].job
    decreases |ls|
  {
    hide Next;
    if ls != [] {
      StepPhase(s, ls[0], t);
      JobsFixed(Next(s, ls[0]), ls[1..], t);
    }
  }

  /** The timer that step `i` of the run makes, if it makes one. */
  function Rung(s: State, ls: seq<Label>, i: nat): nat
    requires i <= |ls|
  {
    |After(s, ls[..i]).pool|
  }

  /** The ladder is climbed a rung at a time: whatever fires, runs or is scheduled for other sessions in
      between, as long as nothing resets the session its next `ScheduleProvisionRetry` after `k` others
      arms and maps a timer with the delay of attempt `k`, counted from where the session stood. */
  lemma LadderClimbs(s: State, ls: seq<Label>, id: Session, i: nat)
    requires id != NIL && i < |ls| && ls[i] == Schedule(id) && Unreset(s, ls[..i], id)
    ensures var t, m := Rung(s, ls, i), Next(After(s, ls[..i]), ls[i]);
      && t < |After(s, ls).pool|
      && After(s, ls).pool[t].job == Retry(id, Backoff(Attempts(s, id) + Climbs(ls[..i], id)))
      && t < |m.pool| && m.pool[t].phase.Armed? && id in m.timers && m.timers[id] == t
  {
    var before := After(s, ls[..i]);
    AttemptsCount(s, ls[..i], id);
    AfterConcat(s, ls[..i], ls[i..]);
    assert ls == ls[..i] + ls[i..] && ls[i..] == [ls[i]] + ls[i + 1..];
    AfterFirst(before, ls[i], ls[i + 1..]);
    JobsFixed(Next(before, ls[i]), ls[i + 1..], Rung(s, ls, i));
  }

  lemma {:induction false} UnresetPrefix(s: State, ls: seq<Label>, id: Session, i: nat)
    requires i <= |ls| && Unreset(s, ls, id)
    ensures Unreset(s, ls[..i], id) && Climbs(ls[..i], id) <= Climbs(ls, id)
    decreases |ls|
  {
    hide Next;
    if i > 0 {
      assert ls[..i][1..] == ls[1..][..i - 1];
      UnresetPrefix(Next(s, ls[0]), ls[1..], id, i - 1);
    }
  }

  /** Delays never shrink along the ladder, and level off at thirty seconds from the sixth attempt on. */
  lemma BackoffMonotone(i: nat, j: nat)
    requires i <= j
    ensures Backoff(i) <= Backoff(j) <= MAX_DELAY
    ensures Backoff(j) == MAX_DELAY <==> j >= 5
  {
  }

  /** The delays of the first `n` rungs, one after the other. */
  function Span(n: nat): nat {
    if n == 0 then 0 else Span(n - 1) + Backoff(n - 1)
  }

  /** A session whose provisioning keeps failing is tried again within a tenth of a second, and five times in
      the first 22.6 seconds; after that twice a minute. */
  lemma {:induction false} LadderSpan(n: nat)
    requires n >= 5
    ensures Span(1) == 100 && Span(2) == 600 && Span(3) == 2_600 && Span(4) == 7_600
    ensures Span(n) == 22_600 + (n - 5) * 30_000
  {
    assert Span(1) == 100;
    assert Span(2) == 600;
    assert Span(3) == 2_600;
    assert Span(4) == 7_600;
    if n > 5 {
      LadderSpan(n - 1);
    }
  }

  /** So of two rungs of a climb the later never waits less, and none waits longer than the last delay. */
  lemma LadderNeverEases(s: State, ls: seq<Label>, id: Session, i: nat, j: nat)
    requires id != NIL && i <= j < |ls| && ls[i] == ls[j] == Schedule(id) && Unreset(s, ls[..j], id)
    ensures var pool, a, b := After(s, ls).pool, Rung(s, ls, i), Rung(s, ls, j);
      && a < |pool| && b < |pool| && pool[a].job.delay <= pool[b].job.delay <= MAX_DELAY
      && (Attempts(s, id) + Climbs(ls[..j], id) >= 5 ==> pool[b].job.delay == MAX_DELAY)
  {
    hide Next;
    UnresetPrefix(s, ls[..j], id, i);
    assert ls[..j][..i] == ls[..i];
    LadderClimbs(s, ls, id, i);
    LadderClimbs(s, ls, id, j);
    BackoffMonotone(Attempts(s, id) + Climbs(ls[..i], id), Attempts(s, id) + Climbs(ls[..j], id));
  }
}
