/** What the Go runtime and a mutex-guarded map do to the timers of `time.AfterFunc`. */
module Timers {
  /** Where a timer is.  `Waiting` is the delicate phase: the timer has fired, so `Stop` can no longer
      reach it, but its callback has not got the lock. */
  datatype Phase = Armed | Waiting | InFlight | Finished | Superseded | Stopped

  datatype Timer<+T> = Timer(job: T, phase: Phase)

  /** `timer.Stop()`: reaches a timer only while it is still armed. */
  function Halt<T>(timer: Timer<T>): Timer<T> {
    if timer.phase.Armed? then timer.(phase := Stopped) else timer
  }

  function HaltAt<T>(pool: seq<Timer<T>>, t: nat): (r: seq<Timer<T>>)
    ensures |r| == |pool|
  {
    if t < |pool| then pool[t := Halt(pool[t])] else pool
  }

  function HaltAll<T>(pool: seq<Timer<T>>, ids: set<nat>): (r: seq<Timer<T>>)
    ensures |r| == |pool|
  {
    seq(|pool|, i requires 0 <= i < |pool| => if i in ids then Halt(pool[i]) else pool[i])
  }

  /** Stopping the timers of a map one entry at a time, in any order, stops them all. */
  lemma HaltOneOf<T>(pool: seq<Timer<T>>, timers: map<nat, nat>, k: nat)
    requires k in timers
    ensures HaltAll(HaltAt(pool, timers[k]), (timers - {k}).Values) == HaltAll(pool, timers.Values)
  {
    var rest := timers - {k};
    assert forall i :: i in timers.Values <==> i == timers[k] || i in rest.Values by {
      forall i | i in timers.Values ensures i == timers[k] || i in rest.Values {
        var q :| q in timers && timers[q] == i;
        assert q == k || q in rest;
      }
    }
  }
}
