/** The debounce and drain protocol of the forming worker as a transition system.

    Every label is one critical section of `Worker.mu`, or one thing the Go runtime does to
    a timer.  `Next` is total: a label that is not enabled leaves the state alone, so the
    interleavings of any number of goroutines are exactly the label sequences, and a theorem
    about every `seq<Label>` is a theorem about every interleaving. */
module Debounce {
  import opened Timers

  /** A mode queue id; `NIL` stands for `uuid.Nil`. */
  type Queue = nat

  const NIL: Queue := 0

  /** `timers` and `running` are the worker's two maps; `pool` holds every debounce timer made
      so far, a timer's index being its identity (the Go pointer). */
  datatype State = State(timers: map<Queue, nat>, running: map<Queue, nat>, pool: seq<Timer<Queue>>)

  datatype Label =
    | Schedule(q: Queue)
    | Fire(t: nat)
    | Enter(t: nat)
    | End(t: nat)
    | Drain(q: Queue)
    | Shutdown

  const INIT := State(map[], map[], [])

  // ----- the critical sections

  function Clear(s: State, q: Queue): State {
    if q in s.timers then s.(pool := HaltAt(s.pool, s.timers[q]), timers := s.timers - {q}) else s
  }

  /** The timer has fired, and its callback is the one the map still wants. */
  predicate Begins(s: State, l: Label) {
    && l.Enter? && l.t < |s.pool| && s.pool[l.t].phase.Waiting?
    && s.pool[l.t].job in s.timers && s.timers[s.pool[l.t].job] == l.t
  }

  function Running(s: State, q: Queue): nat {
    if q in s.running then s.running[q] else 0
  }

  function Next(s: State, l: Label): State {
    match l
    case Schedule(q) =>
      if q == NIL then s else
      var pool := if q in s.timers then HaltAt(s.pool, s.timers[q]) else s.pool;
      s.(pool := pool + [Timer(q, Armed)], timers := s.timers[q := |pool|])
    case Fire(t) =>
      if t < |s.pool| && s.pool[t].phase.Armed? then s.(pool := s.pool[t := s.pool[t].(phase := Waiting)]) else s
    case Enter(t) =>
      if !(t < |s.pool| && s.pool[t].phase.Waiting?) then s else
      var q := s.pool[t].job;
      if Begins(s, l) then
        State(s.timers - {q}, s.running[q := Running(s, q) + 1], s.pool[t := Timer(q, InFlight)])
      else
        s.(pool := s.pool[t := Timer(q, Superseded)])
    case End(t) =>
      if !(t < |s.pool| && s.pool[t].phase.InFlight?) then s else
      var q := s.pool[t].job;
      var running := if Running(s, q) > 1 then s.running[q := s.running[q] - 1] else s.running - {q};
      s.(running := running, pool := s.pool[t := Timer(q, Finished)])
    case Drain(q) =>
      if q == NIL then s else Clear(s, q)
    case Shutdown =>
      s.(timers := map[], pool := HaltAll(s.pool, s.timers.Values))
  }

  function After(s: State, ls: seq<Label>): State
    decreases |ls|
  {
    if ls == [] then s else After(Next(s, ls[0]), ls[1..])
  }

  lemma {:induction false} AfterConcat(s: State, a: seq<Label>, b: seq<Label>)
    ensures After(s, a + b) == After(After(s, a), b)
    decreases |a|
  {
    if a == [] {
      assert a + b == b;
    } else {
      assert (a + b)[1..] == a[1..] + b;
      AfterConcat(Next(s, a[0]), a[1..], b);
    }
  }

  // ----- the invariant of every reachable state

  /** The callbacks of `q` between `beginRunLocked` and `endRun`. */
  function InFlightOf(pool: seq<Timer<Queue>>, q: Queue): set<nat> {
    set t | 0 <= t < |pool| && pool[t] == Timer(q, InFlight)
  }

  ghost predicate MapSound(s: State) {
    forall q :: q in s.timers ==>
      && q != NIL && s.timers[q] < |s.pool| && s.pool[s.timers[q]].job == q
      && (s.pool[s.timers[q]].phase.Armed? || s.pool[s.timers[q]].phase.Waiting?)
  }

  /** Every armed timer is in the map, so at most one is armed per queue. */
  ghost predicate ArmedMapped(s: State) {
    forall t :: 0 <= t < |s.pool| && s.pool[t].phase.Armed? ==>
      s.pool[t].job in s.timers && s.timers[s.pool[t].job] == t
  }

  /** `running` counts the callbacks in flight, and holds no zero entries. */
  ghost predicate RunningExact(s: State) {
    && (forall q :: q in s.running ==> s.running[q] > 0)
    && (forall q :: Running(s, q) == |InFlightOf(s.pool, q)|)
  }

  ghost predicate Inv(s: State) {
    MapSound(s) && ArmedMapped(s) && RunningExact(s)
  }

  lemma InFlightUpdate(pool: seq<Timer<Queue>>, t: nat, timer: Timer<Queue>, q: Queue)
    requires t < |pool|
    ensures InFlightOf(pool[t := timer], q)
         == if timer == Timer(q, InFlight) then InFlightOf(pool, q) + {t} else InFlightOf(pool, q) - {t}
  {
  }

  lemma ScheduleMapSound(s: State, p: Queue)
    requires MapSound(s)
    ensures MapSound(Next(s, Schedule(p)))
  {
    var s' := Next(s, Schedule(p));
    forall q | q in s'.timers
      ensures q != NIL && s'.timers[q] < |s'.pool| && s'.pool[s'.timers[q]].job == q
      ensures s'.pool[s'.timers[q]].phase.Armed? || s'.pool[s'.timers[q]].phase.Waiting?
    {
      if q != p && p in s.timers {
        assert s.pool[s.timers[p]].job == p && s.pool[s.timers[q]].job == q;
      }
    }
  }

  lemma StepMapSound(s: State, l: Label)
    requires MapSound(s) && ArmedMapped(s)
    ensures MapSound(Next(s, l))
  {
    match l
    case Schedule(q) => ScheduleMapSound(s, q);
    case _ =>
  }

  lemma StepArmedMapped(s: State, l: Label)
    requires MapSound(s) && ArmedMapped(s)
    ensures ArmedMapped(Next(s, l))
  {
    var s' := Next(s, l);
    forall t | 0 <= t < |s'.pool| && s'.pool[t].phase.Armed?
      ensures s'.pool[t].job in s'.timers && s'.timers[s'.pool[t].job] == t
    {
      if t < |s.pool| {
        assert s.pool[t] == s'.pool[t];
      }
    }
  }

  /** The steps that start or end no run leave every in-flight set alone. */
  lemma InFlightUnchanged(s: State, l: Label, q: Queue)
    requires !Begins(s, l) && !(l.End? && l.t < |s.pool| && s.pool[l.t].phase.InFlight?)
    ensures InFlightOf(Next(s, l).pool, q) == InFlightOf(s.pool, q)
  {
    var s' := Next(s, l);
    forall t ensures t in InFlightOf(s'.pool, q) <==> t in InFlightOf(s.pool, q) {
    }
  }

  /** A step that starts or ends a run changes the count of that run's queue by one. */
  lemma InFlightChanged(s: State, l: Label, q: Queue)
    requires (l.Enter? && Begins(s, l)) || (l.End? && l.t < |s.pool| && s.pool[l.t].phase.InFlight?)
    ensures |InFlightOf(Next(s, l).pool, q)| == |InFlightOf(s.pool, q)|
      + (if s.pool[l.t].job != q then 0 else if l.Enter? then 1 else -1)
  {
    var s' := Next(s, l);
    InFlightUpdate(s.pool, l.t, s'.pool[l.t], q);
    assert l.t in InFlightOf(s.pool, q) <==> s.pool[l.t] == Timer(q, InFlight);
  }

  lemma CountStep(s: State, l: Label, q: Queue)
    requires Inv(s)
    ensures Running(Next(s, l), q) == |InFlightOf(Next(s, l).pool, q)|
  {
    assert Running(s, q) == |InFlightOf(s.pool, q)|;
    if (l.Enter? && Begins(s, l)) || (l.End? && l.t < |s.pool| && s.pool[l.t].phase.InFlight?) {
      InFlightChanged(s, l, q);
    } else {
      assert Next(s, l).running == s.running;
      InFlightUnchanged(s, l, q);
    }
  }

  lemma StepRunning(s: State, l: Label)
    requires Inv(s)
    ensures RunningExact(Next(s, l))
  {
    forall q ensures Running(Next(s, l), q) == |InFlightOf(Next(s, l).pool, q)| {
      CountStep(s, l, q);
    }
  }

  lemma StepInv(s: State, l: Label)
    requires Inv(s)
    ensures Inv(Next(s, l))
  {
    StepMapSound(s, l);
    StepArmedMapped(s, l);
    StepRunning(s, l);
  }

  /** In every interleaving: the map holds exactly the wanted timers, every armed timer is in
      it, and `running` is the number of reconciles in flight. */
  lemma {:induction false} InvAlways(s: State, ls: seq<Label>)
    requires Inv(s)
    ensures Inv(After(s, ls))
    decreases |ls|
  {
    if ls != [] {
      StepInv(s, ls[0]);
      InvAlways(Next(s, ls[0]), ls[1..]);
    }
  }

  lemma InitInv()
    ensures Inv(INIT)
  {
    forall q ensures Running(INIT, q) == |InFlightOf(INIT.pool, q)| {
      assert InFlightOf(INIT.pool, q) == {};
    }
  }

  // ----- drain safety

  /** What a drain of `q` leaves behind: of the first `n` timers, the map wants none of `q`'s. */
  ghost predicate Disowned(s: State, q: Queue, n: nat) {
    n <= |s.pool| && (q in s.timers ==> s.timers[q] >= n)
  }

  lemma {:induction false} DisownedAlways(s: State, q: Queue, n: nat, ls: seq<Label>)
    requires Disowned(s, q, n)
    ensures Disowned(After(s, ls), q, n)
    decreases |ls|
  {
    if ls != [] {
      DisownedAlways(Next(s, ls[0]), q, n, ls[1..]);
    }
  }

  /** A timer's queue never changes, and the pool only grows. */
  lemma {:induction false} QueueFixed(s: State, ls: seq<Label>, t: nat)
    requires t < |s.pool|
    ensures t < |After(s, ls).pool| && After(s, ls).pool[t].job == s.pool[t].job
    decreases |ls|
  {
    if ls != [] {
      QueueFixed(Next(s, ls[0]), ls[1..], t);
    }
  }

  /** A disowned timer that is not in flight stays out of flight. */
  lemma {:induction false} StaysOut(s: State, q: Queue, n: nat, ls: seq<Label>, t: nat)
    requires Disowned(s, q, n) && t < n && s.pool[t].job == q && !s.pool[t].phase.InFlight?
    ensures t < |After(s, ls).pool| && !After(s, ls).pool[t].phase.InFlight?
    decreases |ls|
  {
    if ls != [] {
      StaysOut(Next(s, ls[0]), q, n, ls[1..], t);
    }
  }

  /** Drain safety, from any reachable state `s0`.  `during` is whatever the other goroutines do
      while the drain waits, `later` anything afterwards.  The drain returns nil when it finds
      `running[q]` at zero; then no reconcile of `q` is in flight, and no timer that a `Schedule`
      made before the drain can begin one, during the wait or ever after — not even one that had
      already fired and was waiting for the lock. */
  lemma DrainSafety(s0: State, q: Queue, during: seq<Label>, later: seq<Label>, t: nat)
    requires Inv(s0) && q != NIL
    requires t < |s0.pool| && s0.pool[t].job == q
    requires Running(After(Next(s0, Drain(q)), during), q) == 0
    ensures var s := After(Next(s0, Drain(q)), during);
      && InFlightOf(s.pool, q) == {}
      && !Begins(s, Enter(t)) && !Begins(After(s, later), Enter(t))
      && t < |After(s, later).pool| && !After(s, later).pool[t].phase.InFlight?
  {
    var n := |s0.pool|;
    var s1 := Next(s0, Drain(q));
    StepInv(s0, Drain(q));
    assert Disowned(s1, q, n);
    InvAlways(s1, during);
    DisownedAlways(s1, q, n, during);
    QueueFixed(s1, during, t);
    var s := After(s1, during);
    assert |InFlightOf(s.pool, q)| == 0;
    assert t !in InFlightOf(s.pool, q);
    StaysOut(s, q, n, later, t);
    DisownedAlways(s, q, n, later);
    QueueFixed(s, later, t);
  }

  /** The same for `Shutdown`, which waits for every queue at once. */
  lemma ShutdownSafety(s0: State, during: seq<Label>, later: seq<Label>, t: nat)
    requires Inv(s0) && t < |s0.pool|
    requires After(Next(s0, Shutdown), during).running == map[]
    ensures var s := After(Next(s0, Shutdown), during);
      && (forall u :: 0 <= u < |s.pool| ==> !s.pool[u].phase.InFlight?)
      && !Begins(After(s, later), Enter(t))
      && t < |After(s, later).pool| && !After(s, later).pool[t].phase.InFlight?
  {
    var n, q := |s0.pool|, s0.pool[t].job;
    var s1 := Next(s0, Shutdown);
    StepInv(s0, Shutdown);
    assert Disowned(s1, q, n);
    InvAlways(s1, during);
    DisownedAlways(s1, q, n, during);
    QueueFixed(s1, during, t);
    var s := After(s1, during);
    forall u | 0 <= u < |s.pool| ensures !s.pool[u].phase.InFlight? {
      assert |InFlightOf(s.pool, s.pool[u].job)| == 0;
      assert u !in InFlightOf(s.pool, s.pool[u].job);
    }
    StaysOut(s, q, n, later, t);
    DisownedAlways(s, q, n, later);
    QueueFixed(s, later, t);
  }

  // ----- no lost wake-up

  /** The three things that may consume a pending wake-up of `q`. */
  predicate Consumes(s: State, l: Label, q: Queue) {
    || l == Drain(q)
    || l == Shutdown
    || (Begins(s, l) && s.pool[l.t].job == q)
  }

  /** `q` has a wanted timer made at or after identity `n`, armed or waiting for the lock. */
  ghost predicate WakeupPending(s: State, q: Queue, n: nat) {
    && q in s.timers && n <= s.timers[q] < |s.pool|
    && s.pool[s.timers[q]].job == q
    && (s.pool[s.timers[q]].phase.Armed? || s.pool[s.timers[q]].phase.Waiting?)
  }

  lemma StepKeepsWakeup(s: State, l: Label, q: Queue, n: nat)
    requires Inv(s) && WakeupPending(s, q, n) && !Consumes(s, l, q)
    ensures WakeupPending(Next(s, l), q, n)
  {
  }

  /** No lost wake-up: after `Schedule(q)`, until a reconcile of `q` begins or a drain or shutdown
      clears it, a timer made no earlier than that `Schedule` is armed or waiting for the lock. */
  lemma {:induction false} NoLostWakeup(s0: State, q: Queue, ls: seq<Label>)
    requires Inv(s0) && q != NIL
    requires forall i :: 0 <= i < |ls| ==> !Consumes(After(Next(s0, Schedule(q)), ls[..i]), ls[i], q)
    ensures WakeupPending(After(Next(s0, Schedule(q)), ls), q, |s0.pool|)
    decreases |ls|
  {
    var s1 := Next(s0, Schedule(q));
    if ls != [] {
      var front, last := ls[..|ls| - 1], ls[|ls| - 1];
      forall i | 0 <= i < |front| ensures !Consumes(After(s1, front[..i]), front[i], q) {
        assert front[..i] == ls[..i];
      }
      NoLostWakeup(s0, q, front);
      StepInv(s0, Schedule(q));
      InvAlways(s1, front);
      StepKeepsWakeup(After(s1, front), last, q, |s0.pool|);
      AfterConcat(s1, front, [last]);
      assert front + [last] == ls;
    }
  }

  /** A reconcile that ends is one fewer of its queue, and no other queue is the wiser; the last to end
      leaves the entry a drain of its queue waits to go. */
  lemma RunEnds(s: State, t: nat, q: Queue)
    requires Inv(s) && t < |s.pool| && s.pool[t].phase.InFlight?
    ensures var s' := Next(s, End(t));
      && Running(s', q) == Running(s, q) - (if s.pool[t].job == q then 1 else 0)
      && (q in s'.running <==> InFlightOf(s.pool, q) - {t} != {})
      && s'.timers == s.timers
  {
    StepInv(s, End(t));
    InFlightUpdate(s.pool, t, Timer(s.pool[t].job, Finished), q);
    CountStep(s, End(t), q);
    InFlightChanged(s, End(t), q);
    assert Running(s, q) == |InFlightOf(s.pool, q)|;
  }

  /** And the pending wake-up is not idle: letting its timer fire (if it has not) and its callback
      take the lock begins exactly one more reconcile of `q`. */
  lemma WakeupRuns(s: State, q: Queue, n: nat)
    requires Inv(s) && WakeupPending(s, q, n)
    ensures var t := s.timers[q];
      && Begins(Next(s, Fire(t)), Enter(t))
      && Running(After(s, [Fire(t), Enter(t)]), q) == Running(s, q) + 1
      && q !in After(s, [Fire(t), Enter(t)]).timers
  {
    var t := s.timers[q];
    var ls := [Fire(t), Enter(t)];
    assert ls[1..] == [Enter(t)] && ls[1..][1..] == [];
    assert After(s, ls) == After(Next(s, Fire(t)), ls[1..]);
    assert After(Next(s, Fire(t)), ls[1..]) == After(Next(Next(s, Fire(t)), Enter(t)), []);
  }
}
