/** The presence tracker and the store slice behind it, as the mutable objects they are. */
module PresenceTracking {
  import opened Common
  import P = Presence

  /** One registered deadline; `handled` is false where the expiry function is nil. */
  datatype Expiry = Expiry(grace: nat, handled: bool)

  function Graces(expiries: seq<Expiry>): seq<nat> {
    if expiries == [] then [] else
    Graces(expiries[..|expiries| - 1])
    + (if expiries[|expiries| - 1].handled then [expiries[|expiries| - 1].grace] else [])
  }

  /** How many of the first `i` expiries have a handler. */
  function HandledBefore(expiries: seq<Expiry>, i: nat): nat
    requires i <= |expiries|
  {
    if i == 0 then 0 else HandledBefore(expiries, i - 1) + if expiries[i - 1].handled then 1 else 0
  }

  lemma {:induction false} GracesPrefix(expiries: seq<Expiry>, i: nat)
    requires i <= |expiries|
    ensures |Graces(expiries[..i])| == HandledBefore(expiries, i)
    ensures forall k :: 0 <= k < i && expiries[k].handled ==>
      HandledBefore(expiries, k) < |Graces(expiries[..i])|
      && Graces(expiries[..i])[HandledBefore(expiries, k)] == expiries[k].grace
  {
    if i > 0 {
      GracesPrefix(expiries, i - 1);
      assert expiries[..i][..i - 1] == expiries[..i - 1];
    }
  }

  /** The set holds, in order, one live window for every expiry with a handler, of that expiry's grace. */
  predicate ArmedFor(expiries: seq<Expiry>, armed: P.ArmedWindows) {
    && |armed.windows| == armed.pending == HandledBefore(expiries, |expiries|)
    && forall k :: 0 <= k < |expiries| && expiries[k].handled ==>
         HandledBefore(expiries, k) < |armed.windows|
         && armed.windows[HandledBefore(expiries, k)] == P.Window(expiries[k].grace, P.Armed)
  }

  /** `user_presence`, with the two statements that move a socket count. */
  class Store {
    var rows: map<P.User, P.Row>

    constructor ()
      ensures rows == map[]
    {
      rows := map[];
    }

    method Connected(u: P.User) returns (edge: bool)
      modifies this
      ensures u in rows && (rows[u], edge) == P.Connected(if u in old(rows) then Some(old(rows)[u]) else None)
      ensures rows == old(rows)[u := rows[u]]
    {
      var count := if u in rows then rows[u].count + 1 else 1;
      rows := rows[u := P.Row(count, None)];
      edge := count == 1;
    }

    method Disconnected(u: P.User, now: nat) returns (stamp: Option<nat>, edge: bool)
      modifies this
      ensures u !in old(rows) ==> rows == old(rows) && stamp.None? && !edge
      ensures u in old(rows) ==>
        && u in rows && rows == old(rows)[u := rows[u]]
        && (rows[u], edge) == P.Disconnected(old(rows)[u], now) && stamp == rows[u].stamp
    {
      if u !in rows {
        return None, false;
      }
      var previous := rows[u];
      var count := if previous.count > 0 then previous.count - 1 else 0;
      stamp := if count > 0 then None else if previous.stamp.Some? then previous.stamp else Some(now);
      rows := rows[u := P.Row(count, stamp)];
      edge := previous.count == 1 && count == 0;
    }

    /** The store's half of a removing expiry: zero rows affected unless the disconnect still stands.
        In every state of the protocol whose rows these are, it acts exactly for the expiries that take
        effect; and over every run that has led to these rows, exactly when the user's last socket
        closed at the stamp and none has been open since. */
    method Evictable(u: P.User, stamp: nat) returns (acted: bool)
      ensures acted <==> u in rows && rows[u] == P.Row(0, Some(stamp))
      ensures forall s: P.State, l: P.Label :: s.rows == rows && P.Expires(s, l, u, stamp) ==>
        (acted <==> P.TakesEffect(s, l))
      ensures forall graces: seq<nat>, ls: seq<P.Label> :: P.At(graces, ls).rows == rows ==>
        (acted <==> P.GoneSince(graces, ls, u, stamp))
    {
      forall graces: seq<nat>, ls: seq<P.Label> | P.At(graces, ls).rows == rows
        ensures P.RowOf(P.At(graces, ls), u) == P.Row(0, Some(stamp)) <==> P.GoneSince(graces, ls, u, stamp)
      {
        P.StandingExactly(graces, ls, u, stamp);
      }
      acted := u in rows && rows[u].count == 0 && rows[u].stamp == Some(stamp);
    }
  }

  class PresenceTracker {
    var expiries: seq<Expiry>
    var timers: map<P.User, nat>
    var sets: seq<P.ArmedWindows>

    function View(): P.Tracker
      reads this
    {
      P.Tracker(timers, sets)
    }

    ghost predicate Valid()
      reads this
    {
      P.Bookkeeping(View())
    }

    constructor (grace: nat, handled: bool)
      ensures Valid() && expiries == [Expiry(grace, handled)] && View() == P.INIT.tracker
    {
      expiries := [Expiry(grace, handled)];
      timers, sets := map[], [];
    }

    method WithExpiry(grace: nat, handled: bool)
      requires Valid()
      modifies this`expiries
      ensures Valid() && Graces(expiries) == Graces(old(expiries)) + if handled then [grace] else []
    {
      expiries := expiries + [Expiry(grace, handled)];
    }

    method StopLocked(u: P.User)
      requires Valid()
      modifies this`timers, this`sets
      ensures Valid() && View() == P.StopLocked(old(View()), u)
    {
      P.StopKeepsBooks(View(), u);
      if u !in timers {
        return;
      }
      var i := timers[u];
      var armed := sets[i];
      var windows := armed.windows;
      for j := 0 to |windows|
        invariant |windows| == |armed.windows|
        invariant forall k :: 0 <= k < |windows| ==>
          windows[k] == if k < j then P.Halt(armed.windows[k]) else armed.windows[k]
      {
        if windows[j].phase.Armed? {
          windows := windows[j := windows[j].(phase := P.Stopped)];
        }
      }
      assert windows == P.HaltAll(armed.windows);
      sets := sets[i := armed.(windows := windows)];
      timers := timers - {u};
    }

    method CancelTimer(u: P.User)
      requires Valid()
      modifies this`timers, this`sets
      ensures Valid() && View() == P.StopLocked(old(View()), u)
    {
      StopLocked(u);
    }

    method ArmTimer(u: P.User, stamp: nat, now: nat)
      requires Valid()
      modifies this`timers, this`sets
      ensures Valid() && View() == P.ArmTimer(old(View()), Graces(expiries), u, stamp, now)
      ensures HandledBefore(expiries, |expiries|) == 0 ==> u !in timers
      ensures HandledBefore(expiries, |expiries|) > 0 ==>
        && u in timers && timers[u] == |sets| - 1
        && var armed := sets[|sets| - 1];
           armed.user == u && armed.stamp == stamp && armed.since == now && ArmedFor(expiries, armed)
    {
      GracesPrefix(expiries, |expiries|);
      assert expiries[..|expiries|] == expiries;
      P.ArmKeepsBooks(View(), Graces(expiries), u, stamp, now);
      StopLocked(u);
      var armed: seq<P.Window>, pending := [], 0;
      for i := 0 to |expiries|
        invariant armed == P.ArmAll(Graces(expiries[..i])) && pending == |armed|
      {
        assert expiries[..i + 1][..i] == expiries[..i];
        if expiries[i].handled {
          pending := pending + 1;
          armed := armed + [P.Window(expiries[i].grace, P.Armed)];
        }
      }
      if pending > 0 {
        timers := timers[u := |sets|];
        sets := sets + [P.ArmedWindows(u, stamp, now, armed, pending)];
      }
    }

    /** The critical section of the callback of window `w` of set `i`. */
    method Callback(i: nat, w: nat)
      requires Valid() && P.PhaseOf(View(), i, w) == Some(P.Waiting)
      modifies this`timers, this`sets
      ensures Valid() && View() == P.WindowDone(old(View()), i, w)
    {
      P.DoneKeepsBooks(View(), i, w);
      ghost var done := P.WindowDone(View(), i, w);
      var armed := sets[i];
      var windows := armed.windows[w := armed.windows[w].(phase := P.Counted)];
      armed := armed.(windows := windows, pending := armed.pending - 1);
      sets := sets[i := armed];
      if armed.pending == 0 && armed.user in timers && timers[armed.user] == i {
        timers := timers - {armed.user};
      }
      assert View() == done;
    }

    /** `Track`, run without interruption: only the first socket's edge cancels. */
    method Track(store: Store, u: P.User) returns (edge: bool)
      requires Valid()
      modifies store, this`timers, this`sets
      ensures Valid()
      ensures edge <==> u !in old(store.rows) || old(store.rows)[u].count == 0
      ensures u in store.rows && store.rows[u].stamp.None?
      ensures View() == if edge then P.StopLocked(old(View()), u) else old(View())
    {
      edge := store.Connected(u);
      if edge {
        CancelTimer(u);
      }
    }

    /** `release`, run without interruption: only the last socket's edge arms, for the stamp it wrote. */
    method Release(store: Store, u: P.User, now: nat)
      requires Valid()
      modifies store, this`timers, this`sets
      ensures Valid()
      ensures if u in old(store.rows) && old(store.rows)[u].count == 1
        then u in store.rows && store.rows[u].count == 0 && store.rows[u].stamp.Some?
             && View() == P.ArmTimer(old(View()), Graces(expiries), u, store.rows[u].stamp.value, now)
        else View() == old(View())
    {
      var stamp, edge := store.Disconnected(u, now);
      if !edge || stamp.None? {
        return;
      }
      ArmTimer(u, stamp.value, now);
    }
  }
}
