/** The forming worker itself: the mutable fields, its critical sections, and the two waits. */
module FormingWorker {
  import opened Timers
  import D = Debounce
  import P = Provision

  /** The critical sections other goroutines went through, one batch per `idle.Wait()`. */
  function Flatten(batches: seq<seq<D.Label>>): seq<D.Label> {
    if batches == [] then [] else Flatten(batches[..|batches| - 1]) + batches[|batches| - 1]
  }

  lemma OneMoreWait(s: D.State, others: seq<seq<D.Label>>, i: nat)
    requires i < |others|
    ensures D.After(s, Flatten(others[..i + 1])) == D.After(D.After(s, Flatten(others[..i])), others[i])
    ensures others[..i + 1][..i] == others[..i]
  {
    assert others[..i + 1][..i] == others[..i];
    D.AfterConcat(s, Flatten(others[..i]), others[i]);
  }

  /** Every look before the last of these waits found a run of `q` in flight. */
  predicate BusyAtEach(s: D.State, q: D.Queue, waits: seq<seq<D.Label>>) {
    waits == [] || (
      && BusyAtEach(s, q, waits[..|waits| - 1])
      && D.Running(D.After(s, Flatten(waits[..|waits| - 1])), q) > 0)
  }

  class Worker {
    var hasHook: bool
    var timers: map<D.Queue, nat>
    var running: map<D.Queue, nat>
    var provisionTimers: map<P.Session, nat>
    var provisionRetry: map<P.Session, nat>
    /** The runtime's side of the timers: every one made so far, by identity. */
    var debounced: seq<Timer<D.Queue>>
    var retries: seq<Timer<P.Retry>>

    function Debounced(): D.State
      reads this
    {
      D.State(timers, running, debounced)
    }

    function Retries(): P.State
      reads this
    {
      P.State(provisionTimers, provisionRetry, retries)
    }

    ghost predicate Valid()
      reads this
    {
      D.Inv(Debounced()) && P.Wf(Retries())
    }

    constructor ()
      ensures Valid() && !hasHook && Debounced() == D.INIT && Retries() == P.INIT
    {
      hasHook := false;
      timers, running, debounced := map[], map[], [];
      provisionTimers, provisionRetry, retries := map[], map[], [];
      new;
      D.InitInv();
    }

    method SetProvisionHook()
      requires Valid()
      modifies this`hasHook
      ensures Valid() && hasHook
    {
      hasHook := true;
    }

    // ----- debounced reconciles

    /** `timer.Stop()` on a debounce timer. */
    method StopTimer(t: nat)
      modifies this`debounced
      ensures debounced == HaltAt(old(debounced), t)
    {
      if t < |debounced| && debounced[t].phase.Armed? {
        debounced := debounced[t := debounced[t].(phase := Stopped)];
      }
    }

    method Schedule(q: D.Queue)
      requires Valid()
      modifies this`timers, this`debounced
      ensures Valid() && Debounced() == D.Next(old(Debounced()), D.Schedule(q))
    {
      D.StepInv(Debounced(), D.Schedule(q));
      if q == D.NIL {
        return;
      }
      if q in timers {
        StopTimer(timers[q]);
      }
      var timer := |debounced|;
      debounced := debounced + [Timer(q, Armed)];
      timers := timers[q := timer];
    }

    /** The runtime's step: the timer's duration is over and its callback's goroutine starts. */
    method Expire(t: nat)
      requires Valid()
      modifies this`debounced
      ensures Valid() && Debounced() == D.Next(old(Debounced()), D.Fire(t))
    {
      D.StepInv(Debounced(), D.Fire(t));
      if t < |debounced| && debounced[t].phase.Armed? {
        debounced := debounced[t := debounced[t].(phase := Waiting)];
      }
    }

    /** The first critical section of timer `t`'s callback, with the identity check. */
    method Callback(t: nat) returns (wanted: bool)
      requires Valid()
      modifies this`timers, this`running, this`debounced
      ensures Valid() && Debounced() == D.Next(old(Debounced()), D.Enter(t))
      ensures wanted <==> D.Begins(old(Debounced()), D.Enter(t))
    {
      D.StepInv(Debounced(), D.Enter(t));
      wanted := false;
      if !(t < |debounced| && debounced[t].phase.Waiting?) {
        return;
      }
      var q := debounced[t].job;
      if !(q in timers && timers[q] == t) {
        debounced := debounced[t := Timer(q, Superseded)];
        return;
      }
      timers := timers - {q};
      BeginRunLocked(q);
      debounced := debounced[t := Timer(q, InFlight)];
      wanted := true;
    }

    method BeginRunLocked(q: D.Queue)
      modifies this`running
      ensures running == old(running)[q := D.Running(old(Debounced()), q) + 1]
    {
      running := running[q := (if q in running then running[q] else 0) + 1];
    }

    /** `endRun`, as the callback of timer `t` defers it. */
    method EndRun(t: nat)
      requires Valid()
      modifies this`running, this`debounced
      ensures Valid() && Debounced() == D.Next(old(Debounced()), D.End(t))
    {
      D.StepInv(Debounced(), D.End(t));
      if !(t < |debounced| && debounced[t].phase.InFlight?) {
        return;
      }
      var q := debounced[t].job;
      if q in running && running[q] > 1 {
        running := running[q := running[q] - 1];
      } else {
        running := running - {q};
      }
      debounced := debounced[t := Timer(q, Finished)];
    }

    /** The part of `DrainPending` before its wait. */
    method ClearTimer(q: D.Queue)
      requires Valid()
      modifies this`timers, this`debounced
      ensures Valid() && Debounced() == D.Next(old(Debounced()), D.Drain(q))
    {
      D.StepInv(Debounced(), D.Drain(q));
      if q != D.NIL && q in timers {
        StopTimer(timers[q]);
        timers := timers - {q};
      }
    }

    /** The loop over `w.timers` that opens `Shutdown`. */
    method ClearTimers()
      requires Valid()
      modifies this`timers, this`debounced
      ensures Valid() && Debounced() == D.Next(old(Debounced()), D.Shutdown)
    {
      D.StepInv(Debounced(), D.Shutdown);
      ghost var stopped := HaltAll(debounced, timers.Values);
      while timers != map[]
        invariant HaltAll(debounced, timers.Values) == stopped
        decreases |timers|
      {
        var q :| q in timers;
        HaltOneOf(debounced, timers, q);
        StopTimer(timers[q]);
        timers := timers - {q};
      }
      assert HaltAll(debounced, timers.Values) == debounced;
    }

    /** One critical section of some other goroutine. */
    method Perform(l: D.Label)
      requires Valid()
      modifies this`timers, this`running, this`debounced
      ensures Valid() && Debounced() == D.Next(old(Debounced()), l)
    {
      match l
      case Schedule(q) => Schedule(q);
      case Fire(t) => Expire(t);
      case Enter(t) => var _ := Callback(t);
      case End(t) => EndRun(t);
      case Drain(q) => ClearTimer(q);
      case Shutdown => ClearTimers();
    }

    /** `idle.Wait()`: the lock is released, others run, the waiter comes back holding it. */
    method Wait(others: seq<D.Label>)
      requires Valid()
      modifies this`timers, this`running, this`debounced
      ensures Valid() && Debounced() == D.After(old(Debounced()), others)
    {
      ghost var was := Debounced();
      for i := 0 to |others|
        invariant Valid() && Debounced() == D.After(was, others[..i])
      {
        D.AfterConcat(was, others[..i], [others[i]]);
        assert others[..i] + [others[i]] == others[..i + 1];
        Perform(others[i]);
      }
      assert others[..|others|] == others;
    }

    /** `DrainPending`.  `others[i]` is what the rest of the process does during the i-th wait, and
        the context ends after the last of them.  The drain returns nil at the first look that
        finds nothing running, and the context's error only when a run is still in flight. */
    method DrainPending(q: D.Queue, others: seq<seq<D.Label>>) returns (err: bool, waits: nat)
      requires Valid()
      modifies this`timers, this`running, this`debounced
      ensures Valid()
      ensures waits <= |others|
      ensures Debounced() == D.After(D.Next(old(Debounced()), D.Drain(q)), Flatten(others[..waits]))
      ensures q != D.NIL ==> (err <==> D.Running(Debounced(), q) > 0) && (err ==> waits == |others|)
      ensures q == D.NIL ==> !err && waits == 0
      ensures BusyAtEach(D.Next(old(Debounced()), D.Drain(q)), q, others[..waits])
    {
      err, waits := false, 0;
      ClearTimer(q);
      ghost var cleared := Debounced();
      if q == D.NIL {
        return;
      }
      while q in running && running[q] > 0
        invariant Valid() && waits <= |others|
        invariant Debounced() == D.After(cleared, Flatten(others[..waits]))
        invariant BusyAtEach(cleared, q, others[..waits])
        decreases |others| - waits
      {
        if waits == |others| {
          err := true;
          return;
        }
        Wait(others[waits]);
        OneMoreWait(cleared, others, waits);
        waits := waits + 1;
      }
    }

    /** `Shutdown`: stops both kinds of timer, then waits for every run.  It has no deadline, so
        `done` is false when the given waits end with a run still in flight and the call goes on. */
    method Shutdown(others: seq<seq<D.Label>>) returns (done: bool, waits: nat)
      requires Valid()
      modifies this`timers, this`running, this`debounced, this`provisionTimers, this`retries
      ensures Valid()
      ensures waits <= |others|
      ensures Debounced() == D.After(D.Next(old(Debounced()), D.Shutdown), Flatten(others[..waits]))
      ensures Retries() == P.Next(old(Retries()), P.Shutdown)
      ensures done <==> running == map[]
      ensures !done ==> waits == |others|
    {
      done, waits := true, 0;
      ClearTimers();
      ghost var cleared := Debounced();
      ClearRetryTimers();
      while running != map[]
        invariant Valid() && waits <= |others|
        invariant Debounced() == D.After(cleared, Flatten(others[..waits]))
        invariant Retries() == P.Next(old(Retries()), P.Shutdown)
        decreases |others| - waits
      {
        if waits == |others| {
          done := false;
          return;
        }
        Wait(others[waits]);
        OneMoreWait(cleared, others, waits);
        waits := waits + 1;
      }
    }

    // ----- provision retries

    method StopRetry(t: nat)
      modifies this`retries
      ensures retries == HaltAt(old(retries), t)
    {
      if t < |retries| && retries[t].phase.Armed? {
        retries := retries[t := retries[t].(phase := Stopped)];
      }
    }

    method ClearRetryTimers()
      requires Valid()
      modifies this`provisionTimers, this`retries
      ensures Valid() && Retries() == P.Next(old(Retries()), P.Shutdown)
    {
      hide D.Inv;
      ghost var stopped := HaltAll(retries, provisionTimers.Values);
      while provisionTimers != map[]
        invariant HaltAll(retries, provisionTimers.Values) == stopped
        decreases |provisionTimers|
      {
        var id :| id in provisionTimers;
        HaltOneOf(retries, provisionTimers, id);
        StopRetry(provisionTimers[id]);
        provisionTimers := provisionTimers - {id};
      }
      assert HaltAll(retries, provisionTimers.Values) == retries;
    }

    method ScheduleProvisionRetry(id: P.Session)
      requires Valid()
      modifies this`provisionTimers, this`provisionRetry, this`retries
      ensures Valid()
      ensures Retries() == if hasHook then P.Next(old(Retries()), P.Schedule(id)) else old(Retries())
    {
      P.StepWf(Retries(), P.Schedule(id));
      if !hasHook || id == P.NIL {
        return;
      }
      var attempt := if id in provisionRetry then provisionRetry[id] else 0;
      var delay := P.Backoff(attempt);
      provisionRetry := provisionRetry[id := attempt + 1];
      if id in provisionTimers {
        StopRetry(provisionTimers[id]);
      }
      provisionTimers := provisionTimers[id := |retries|];
      retries := retries + [Timer(P.Retry(id, delay), Armed)];
    }

    method ClearProvisionRetry(id: P.Session)
      requires Valid()
      modifies this`provisionTimers, this`provisionRetry, this`retries
      ensures Valid() && Retries() == P.Next(old(Retries()), P.Clear(id))
    {
      P.StepWf(Retries(), P.Clear(id));
      if id == P.NIL {
        return;
      }
      provisionRetry := provisionRetry - {id};
      if id in provisionTimers {
        StopRetry(provisionTimers[id]);
        provisionTimers := provisionTimers - {id};
      }
      assert provisionTimers == old(provisionTimers) - {id};
    }

    /** The critical section of a retry timer's callback: it deletes by session id. */
    method RetryCallback(t: nat)
      requires Valid()
      modifies this`provisionTimers, this`retries
      ensures Valid() && Retries() == P.Next(old(Retries()), P.Enter(t))
    {
      P.StepWf(Retries(), P.Enter(t));
      if t < |retries| && retries[t].phase.Waiting? {
        provisionTimers := provisionTimers - {retries[t].job.session};
        retries := retries[t := retries[t].(phase := InFlight)];
      }
    }

    /** The runtime's step: a retry's delay is over and its callback's goroutine starts. */
    method ExpireRetry(t: nat)
      requires Valid()
      modifies this`retries
      ensures Valid() && Retries() == P.Next(old(Retries()), P.Fire(t))
    {
      P.StepWf(Retries(), P.Fire(t));
      if t < |retries| && retries[t].phase.Armed? {
        retries := retries[t := retries[t].(phase := Waiting)];
      }
    }

    /** One critical section of some other goroutine, as far as retries go. */
    method PerformRetry(l: P.Label)
      requires Valid() && hasHook
      modifies this`provisionTimers, this`provisionRetry, this`retries
      ensures Valid() && Retries() == P.Next(old(Retries()), l)
    {
      match l
      case Schedule(id) => ScheduleProvisionRetry(id);
      case Clear(id) => ClearProvisionRetry(id);
      case Fire(t) => ExpireRetry(t);
      case Enter(t) => RetryCallback(t);
      case Shutdown => ClearRetryTimers();
    }

    /** The lock is free, and others run. */
    method Meanwhile(others: seq<P.Label>)
      requires Valid() && hasHook
      modifies this`provisionTimers, this`provisionRetry, this`retries
      ensures Valid() && Retries() == P.After(old(Retries()), others)
    {
      hide P.Next;
      ghost var was := Retries();
      for i := 0 to |others|
        invariant Valid() && Retries() == P.After(was, others[..i])
      {
        P.AfterLast(was, others[..i], others[i]);
        assert others[..i] + [others[i]] == others[..i + 1];
        PerformRetry(others[i]);
      }
      assert others[..|others|] == others;
    }

    /** `ProvisionNow`, with the store's answer and the hook's behaviour given by `o`, and what other
        goroutines do before its last critical section by `others`. */
    method ProvisionNow(id: P.Session, o: P.Outcome, others: seq<P.Label>) returns (failed: bool)
      requires Valid()
      modifies this`provisionTimers, this`provisionRetry, this`retries
      ensures Valid()
      ensures Retries() ==
        if hasHook && id != P.NIL then P.After(old(Retries()), P.Steps(id, o, others)) else old(Retries())
      ensures failed <==> hasHook && id != P.NIL && P.Fails(o)
    {
      hide P.Next, P.After;
      ghost var s := Retries();
      P.AfterLast(s, others, P.Clear(id));
      P.AfterLast(s, others, P.Schedule(id));
      P.AfterSteps(s, P.Clear(id), others, P.Schedule(id));
      P.AfterSteps(s, P.Clear(id), others, P.Clear(id));
      P.AfterSteps(s, P.Schedule(id), others, P.Clear(id));
      failed := false;
      if !hasHook || id == P.NIL {
        return;
      }
      failed := P.Fails(o);
      match o {
        case ClearedThenFailed => ClearProvisionRetry(id);
        case HookDone => ClearProvisionRetry(id);
        case Deferred => ScheduleProvisionRetry(id);
        case _ =>
      }
      Meanwhile(others);
      match o {
        case StoreFailed =>
        case HookFailed => ScheduleProvisionRetry(id);
        case ClearedThenFailed => ScheduleProvisionRetry(id);
        case _ => ClearProvisionRetry(id);
      }
    }
  }
}
