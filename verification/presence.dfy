/** Presence windows as a transition system: the socket count in the store, the tracker's map of
    armed windows, and the gap between a store write and the arm or cancel that follows it.

    Every label is one atomic step — a store write, one critical section of the tracker, one
    compare-and-act in the store, or the clock.  `Next` is total: a label that is not enabled
    leaves the state alone, so label sequences are exactly the interleavings. */
module Presence {
  import opened Common

  type User = nat

  /** A `user_presence` row: the live sockets, and the stamp of the disconnect now standing. */
  datatype Row = Row(count: nat, stamp: Option<nat>)

  /** `Waiting`: fired, callback not yet at the lock.  `Counted`: it has decremented `pending` and
      is on its way to the expiry function.  `Acted`: the expiry function has run. */
  datatype Phase = Armed | Waiting | Counted | Acted | Stopped

  datatype Window = Window(grace: nat, phase: Phase)

  /** One disconnect's deadlines.  `since` is when they were armed; a set's index in the arena
      is its identity (the Go pointer). */
  datatype ArmedWindows = ArmedWindows(user: User, stamp: nat, since: nat, windows: seq<Window>, pending: int)

  datatype Tracker = Tracker(timers: map<User, nat>, sets: seq<ArmedWindows>)

  /** What a store write has promised but not yet done to the tracker. */
  datatype Op = Arm(user: User, stamp: nat) | Cancel(user: User)

  datatype State = State(now: nat, rows: map<User, Row>, ops: multiset<Op>, tracker: Tracker)

  /** `reported` is false when the store call returned an error after its write. */
  datatype Label =
    | Tick
    | Connect(u: User, reported: bool)
    | Disconnect(u: User, reported: bool)
    | RunArm(u: User, stamp: nat)
    | RunCancel(u: User)
    | Fire(i: nat, w: nat)
    | Count(i: nat, w: nat)
    | Act(i: nat, w: nat)

  const INIT := State(0, map[], multiset{}, Tracker(map[], []))

  // ----- the store

  function Connected(row: Option<Row>): (Row, bool) {
    var count := if row.Some? then row.value.count + 1 else 1;
    (Row(count, None), count == 1)
  }

  /** One socket fewer.  The stamp is written when the count reaches zero and kept if one stands. */
  function Disconnected(row: Row, now: nat): (Row, bool) {
    var count := if row.count > 0 then row.count - 1 else 0;
    (Row(count, if count > 0 then None else if row.stamp.Some? then row.stamp else Some(now)),
     row.count == 1)
  }

  function RowOf(s: State, u: User): Row {
    if u in s.rows then s.rows[u] else Row(0, None)
  }

  // ----- the tracker

  function Halt(window: Window): Window {
    if window.phase.Armed? then window.(phase := Stopped) else window
  }

  function HaltAll(windows: seq<Window>): (r: seq<Window>)
    ensures |r| == |windows|
  {
    seq(|windows|, j requires 0 <= j < |windows| => Halt(windows[j]))
  }

  function StopLocked(t: Tracker, u: User): Tracker {
    if u !in t.timers then t else
    var i := t.timers[u];
    Tracker(t.timers - {u},
            if i < |t.sets| then t.sets[i := t.sets[i].(windows := HaltAll(t.sets[i].windows))] else t.sets)
  }

  function ArmAll(graces: seq<nat>): seq<Window> {
    seq(|graces|, j requires 0 <= j < |graces| => Window(graces[j], Armed))
  }

  function ArmTimer(t: Tracker, graces: seq<nat>, u: User, stamp: nat, now: nat): Tracker {
    var t' := StopLocked(t, u);
    if graces == [] then t' else
    Tracker(t'.timers[u := |t'.sets|], t'.sets + [ArmedWindows(u, stamp, now, ArmAll(graces), |graces|)])
  }

  function PhaseOf(t: Tracker, i: nat, w: nat): Option<Phase> {
    if i < |t.sets| && w < |t.sets[i].windows| then Some(t.sets[i].windows[w].phase) else None
  }

  function SetPhase(t: Tracker, i: nat, w: nat, phase: Phase): Tracker
    requires PhaseOf(t, i, w).Some?
  {
    var set_ := t.sets[i];
    t.(sets := t.sets[i := set_.(windows := set_.windows[w := set_.windows[w].(phase := phase)])])
  }

  /** The callback's critical section: one window fewer, and the last of a still-mapped set drops
      the entry. */
  function WindowDone(t: Tracker, i: nat, w: nat): Tracker
    requires PhaseOf(t, i, w).Some?
  {
    var t' := SetPhase(t, i, w, Counted);
    var set_ := t'.sets[i].(pending := t'.sets[i].pending - 1);
    Tracker(
      if set_.pending == 0 && set_.user in t.timers && t.timers[set_.user] == i
      then t.timers - {set_.user} else t.timers,
      t'.sets[i := set_])
  }

  // ----- one step

  /** The removing expiry of window `w` of set `i` goes through: the store's UPDATE finds no socket
      and the very stamp the window was armed with. */
  predicate TakesEffect(s: State, l: Label) {
    && l.Act? && PhaseOf(s.tracker, l.i, l.w) == Some(Counted)
    && var set_ := s.tracker.sets[l.i];
       RowOf(s, set_.user) == Row(0, Some(set_.stamp))
  }

  /** The step is an expiry of a window armed for `u` and `stamp`, past its critical section. */
  predicate Expires(s: State, l: Label, u: User, stamp: nat) {
    && l.Act? && PhaseOf(s.tracker, l.i, l.w) == Some(Counted)
    && s.tracker.sets[l.i].user == u && s.tracker.sets[l.i].stamp == stamp
  }

  function Next(graces: seq<nat>, s: State, l: Label): State {
    match l
    case Tick => s.(now := s.now + 1)
    case Connect(u, reported) =>
      var (row, edge) := Connected(if u in s.rows then Some(s.rows[u]) else None);
      s.(rows := s.rows[u := row], ops := if edge && reported then s.ops + multiset{Cancel(u)} else s.ops)
    case Disconnect(u, reported) =>
      if u !in s.rows then s else
      // The clock moves with every disconnect, which is what makes each stamp fresh.
      var (row, edge) := Disconnected(s.rows[u], s.now);
      s.(now := s.now + 1, rows := s.rows[u := row],
         ops := if edge && reported && row.stamp.Some? then s.ops + multiset{Arm(u, row.stamp.value)} else s.ops)
    case RunArm(u, stamp) =>
      if Arm(u, stamp) !in s.ops then s else
      s.(ops := s.ops - multiset{Arm(u, stamp)}, tracker := ArmTimer(s.tracker, graces, u, stamp, s.now))
    case RunCancel(u) =>
      if Cancel(u) !in s.ops then s else
      s.(ops := s.ops - multiset{Cancel(u)}, tracker := StopLocked(s.tracker, u))
    case Fire(i, w) =>
      if PhaseOf(s.tracker, i, w) == Some(Armed)
         && s.tracker.sets[i].since + s.tracker.sets[i].windows[w].grace <= s.now
      then s.(tracker := SetPhase(s.tracker, i, w, Waiting)) else s
    case Count(i, w) =>
      if PhaseOf(s.tracker, i, w) == Some(Waiting) then s.(tracker := WindowDone(s.tracker, i, w)) else s
    case Act(i, w) =>
      if PhaseOf(s.tracker, i, w) == Some(Counted) then s.(tracker := SetPhase(s.tracker, i, w, Acted)) else s
  }

  /** The state a run has reached. */
  function At(graces: seq<nat>, ls: seq<Label>): State
    decreases |ls|
  {
    if ls == [] then INIT else Next(graces, At(graces, ls[..|ls| - 1]), ls[|ls| - 1])
  }

  // ----- bookkeeping

  /** The windows whose callback has not decremented `pending`. */
  function Undone(windows: seq<Window>): set<nat> {
    set w | 0 <= w < |windows| && (windows[w].phase.Armed? || windows[w].phase.Waiting? || windows[w].phase.Stopped?)
  }

  ghost predicate MapSound(t: Tracker) {
    forall u :: u in t.timers ==>
      t.timers[u] < |t.sets| && t.sets[t.timers[u]].user == u && t.sets[t.timers[u]].pending > 0
  }

  ghost predicate PendingExact(t: Tracker) {
    forall i :: 0 <= i < |t.sets| ==> t.sets[i].pending == |Undone(t.sets[i].windows)|
  }

  predicate IsMapped(t: Tracker, i: nat)
    requires i < |t.sets|
  {
    t.sets[i].user in t.timers && t.timers[t.sets[i].user] == i
  }

  /** Only mapped sets hold armed windows, and only unmapped ones hold stopped windows. */
  ghost predicate LiveMapped(t: Tracker) {
    forall i, w :: 0 <= i < |t.sets| && 0 <= w < |t.sets[i].windows| ==>
      && (t.sets[i].windows[w].phase.Armed? ==> IsMapped(t, i))
      && (t.sets[i].windows[w].phase.Stopped? ==> !IsMapped(t, i))
  }

  ghost predicate Bookkeeping(t: Tracker) {
    MapSound(t) && PendingExact(t) && LiveMapped(t)
  }

  lemma UndoneHalt(windows: seq<Window>)
    ensures Undone(HaltAll(windows)) == Undone(windows)
  {
    forall w ensures w in Undone(HaltAll(windows)) <==> w in Undone(windows) {
    }
  }

  lemma {:induction false} UndoneArmed(graces: seq<nat>)
    ensures |Undone(ArmAll(graces))| == |graces|
  {
    if graces == [] {
      assert Undone(ArmAll(graces)) == {};
    } else {
      var n := |graces| - 1;
      UndoneArmed(graces[..n]);
      assert Undone(ArmAll(graces)) == Undone(ArmAll(graces[..n])) + {n};
    }
  }

  lemma StopKeepsBooks(t: Tracker, u: User)
    requires Bookkeeping(t)
    ensures Bookkeeping(StopLocked(t, u))
  {
    if u in t.timers {
      UndoneHalt(t.sets[t.timers[u]].windows);
    }
  }

  lemma ArmKeepsBooks(t: Tracker, graces: seq<nat>, u: User, stamp: nat, now: nat)
    requires Bookkeeping(t)
    ensures Bookkeeping(ArmTimer(t, graces, u, stamp, now))
  {
    StopKeepsBooks(t, u);
    UndoneArmed(graces);
    var t1, t2 := StopLocked(t, u), ArmTimer(t, graces, u, stamp, now);
    if graces != [] {
      forall i, w | 0 <= i < |t2.sets| && 0 <= w < |t2.sets[i].windows|
        ensures t2.sets[i].windows[w].phase.Armed? ==> IsMapped(t2, i)
        ensures t2.sets[i].windows[w].phase.Stopped? ==> !IsMapped(t2, i)
      {
        if i < |t1.sets| {
          assert t2.sets[i] == t1.sets[i];
        }
      }
    }
  }

  lemma MoveKeepsBooks(t: Tracker, i: nat, w: nat, phase: Phase)
    requires Bookkeeping(t) && PhaseOf(t, i, w).Some?
    requires (PhaseOf(t, i, w) == Some(Armed) && phase == Waiting) || (PhaseOf(t, i, w) == Some(Counted) && phase == Acted)
    ensures Bookkeeping(SetPhase(t, i, w, phase))
  {
    var t' := SetPhase(t, i, w, phase);
    assert Undone(t'.sets[i].windows) == Undone(t.sets[i].windows);
    forall j, v | 0 <= j < |t'.sets| && 0 <= v < |t'.sets[j].windows|
      ensures t'.sets[j].windows[v].phase.Armed? ==> IsMapped(t', j)
      ensures t'.sets[j].windows[v].phase.Stopped? ==> !IsMapped(t', j)
    {
      assert IsMapped(t', j) == IsMapped(t, j);
      assert t.sets[j].windows[v].phase.Armed? ==> IsMapped(t, j);
    }
  }

  lemma DoneKeepsBooks(t: Tracker, i: nat, w: nat)
    requires Bookkeeping(t) && PhaseOf(t, i, w) == Some(Waiting)
    ensures Bookkeeping(WindowDone(t, i, w))
  {
    var t' := WindowDone(t, i, w);
    assert Undone(t'.sets[i].windows) == Undone(t.sets[i].windows) - {w};
    assert w in Undone(t.sets[i].windows);
    assert t'.sets[i].pending == |Undone(t'.sets[i].windows)|;
    forall j, v | 0 <= j < |t'.sets| && 0 <= v < |t'.sets[j].windows|
      ensures t'.sets[j].windows[v].phase.Armed? ==> IsMapped(t', j)
      ensures t'.sets[j].windows[v].phase.Stopped? ==> !IsMapped(t', j)
    {
      assert t.sets[j].windows[v].phase.Armed? ==> IsMapped(t, j);
      if t'.sets[j].windows[v].phase.Armed? && j == i {
        assert v in Undone(t'.sets[i].windows);
      }
    }
  }

  lemma StepBooks(graces: seq<nat>, s: State, l: Label)
    requires Bookkeeping(s.tracker)
    ensures Bookkeeping(Next(graces, s, l).tracker)
  {
    match l
    case RunArm(u, stamp) => ArmKeepsBooks(s.tracker, graces, u, stamp, s.now);
    case RunCancel(u) => StopKeepsBooks(s.tracker, u);
    case Fire(i, w) =>
      if PhaseOf(s.tracker, i, w) == Some(Armed) { MoveKeepsBooks(s.tracker, i, w, Waiting); }
    case Count(i, w) =>
      if PhaseOf(s.tracker, i, w) == Some(Waiting) { DoneKeepsBooks(s.tracker, i, w); }
    case Act(i, w) =>
      if PhaseOf(s.tracker, i, w) == Some(Counted) { MoveKeepsBooks(s.tracker, i, w, Acted); }
    case _ =>
  }

  /** In every reachable state: a set's `pending` counts its callbacks still to decrement, a mapped
      set has some, every armed window is in a mapped set, and no mapped set has been stopped. */
  lemma {:induction false} BooksAlways(graces: seq<nat>, ls: seq<Label>)
    ensures Bookkeeping(At(graces, ls).tracker)
    decreases |ls|
  {
    if ls != [] {
      BooksAlways(graces, ls[..|ls| - 1]);
      StepBooks(graces, At(graces, ls[..|ls| - 1]), ls[|ls| - 1]);
    }
  }

  /** A reconnect's cancel leaves the player without a live window, and a window left by an earlier
      disconnect is never live beside a newer one. */
  lemma CancelLeavesNoneLive(graces: seq<nat>, ls: seq<Label>, u: User, i: nat, w: nat)
    requires PhaseOf(StopLocked(At(graces, ls).tracker, u), i, w).Some?
    requires StopLocked(At(graces, ls).tracker, u).sets[i].user == u
    ensures PhaseOf(StopLocked(At(graces, ls).tracker, u), i, w) != Some(Armed)
  {
    BooksAlways(graces, ls);
    StopKeepsBooks(At(graces, ls).tracker, u);
  }

  /** A callback's critical section removes an entry exactly when it is the last of the set that is
      mapped now; so the last callback of an older set never removes a newer one, and once every
      window of the mapped set has fired the entry is gone. */
  lemma LastCallbackExactly(graces: seq<nat>, ls: seq<Label>, i: nat, w: nat)
    requires PhaseOf(At(graces, ls).tracker, i, w) == Some(Waiting)
    ensures var t := At(graces, ls).tracker;
      var t' := WindowDone(t, i, w);
      var u := t.sets[i].user;
      && (forall v :: v in t.timers && v != u ==> v in t'.timers && t'.timers[v] == t.timers[v])
      && (t'.timers != t.timers <==> IsMapped(t, i) && Undone(t.sets[i].windows) == {w})
      && (t'.timers != t.timers ==> u !in t'.timers)
      && (IsMapped(t', i) ==> Undone(t'.sets[i].windows) != {})
  {
    BooksAlways(graces, ls);
    var t := At(graces, ls).tracker;
    DoneKeepsBooks(t, i, w);
    var t' := WindowDone(t, i, w);
    assert Undone(t'.sets[i].windows) == Undone(t.sets[i].windows) - {w};
    assert w in Undone(t.sets[i].windows);
  }

  // ----- stamps

  /** A stamp stands exactly while the user has no socket, and is older than the clock. */
  ghost predicate RowsSound(s: State) {
    forall u :: u in s.rows ==>
      && (s.rows[u].count == 0 <==> s.rows[u].stamp.Some?)
      && (s.rows[u].stamp.Some? ==> s.rows[u].stamp.value < s.now)
  }

  ghost predicate OwedOnce(s: State) {
    forall u: User, x: nat :: Arm(u, x) in s.ops ==> x < s.now && s.ops[Arm(u, x)] == 1
  }

  ghost predicate ArmedPast(s: State) {
    forall i :: 0 <= i < |s.tracker.sets| ==>
      && s.tracker.sets[i].stamp <= s.tracker.sets[i].since <= s.now
      && s.tracker.sets[i].stamp < s.now
      && Arm(s.tracker.sets[i].user, s.tracker.sets[i].stamp) !in s.ops
  }

  ghost predicate ArmedOnce(s: State) {
    forall i, j :: 0 <= i < j < |s.tracker.sets| ==>
      s.tracker.sets[i].user != s.tracker.sets[j].user || s.tracker.sets[i].stamp != s.tracker.sets[j].stamp
  }

  /** A disconnect's stamp is armed at most once, and by then the clock has passed it. */
  ghost predicate StampsSound(s: State) {
    OwedOnce(s) && ArmedPast(s) && ArmedOnce(s)
  }

  predicate Started(t: Tracker, i: nat, w: nat) {
    && i < |t.sets| && w < |t.sets[i].windows|
    && !t.sets[i].windows[w].phase.Armed? && !t.sets[i].windows[w].phase.Stopped?
  }

  /** A window whose callback has started had its grace. */
  ghost predicate GraceServed(s: State) {
    forall i: nat, w: nat :: Started(s.tracker, i, w) ==>
      s.tracker.sets[i].since + s.tracker.sets[i].windows[w].grace <= s.now
  }

  ghost predicate Inv(s: State) {
    Bookkeeping(s.tracker) && RowsSound(s) && StampsSound(s) && GraceServed(s)
  }

  lemma StepRows(graces: seq<nat>, s: State, l: Label)
    requires RowsSound(s)
    ensures RowsSound(Next(graces, s, l))
  {
  }

  /** For whom and since when the windows of a set are armed, and for how long. */
  ghost predicate SameDeadlines(a: ArmedWindows, b: ArmedWindows) {
    && a.user == b.user && a.stamp == b.stamp && a.since == b.since && |a.windows| == |b.windows|
    && forall w :: 0 <= w < |a.windows| ==> a.windows[w].grace == b.windows[w].grace
  }

  ghost predicate SameSets(t: Tracker, t': Tracker) {
    |t'.sets| == |t.sets| && forall i :: 0 <= i < |t.sets| ==> SameDeadlines(t'.sets[i], t.sets[i])
  }

  lemma StopSame(t: Tracker, u: User)
    ensures SameSets(t, StopLocked(t, u))
  {
  }

  lemma PhaseSame(t: Tracker, i: nat, w: nat, phase: Phase)
    requires PhaseOf(t, i, w).Some?
    ensures SameSets(t, SetPhase(t, i, w, phase))
  {
  }

  /** A step never touches who a set is for; only an arm adds one. */
  lemma SetsPersist(graces: seq<nat>, s: State, l: Label)
    requires MapSound(s.tracker)
    ensures var t, t' := s.tracker, Next(graces, s, l).tracker;
      && |t.sets| <= |t'.sets| <= |t.sets| + 1
      && (forall i :: 0 <= i < |t.sets| ==>
            && t'.sets[i].user == t.sets[i].user && t'.sets[i].stamp == t.sets[i].stamp
            && t'.sets[i].since == t.sets[i].since && |t'.sets[i].windows| == |t.sets[i].windows|
            && forall w :: 0 <= w < |t.sets[i].windows| ==> t'.sets[i].windows[w].grace == t.sets[i].windows[w].grace)
      && (|t'.sets| > |t.sets| ==>
            && l.RunArm? && Arm(l.u, l.stamp) in s.ops
            && t'.sets[|t.sets|] == ArmedWindows(l.u, l.stamp, s.now, ArmAll(graces), |graces|))
  {
    var t := s.tracker;
    match l
    case RunArm(u, stamp) => StopSame(t, u);
    case RunCancel(u) => StopSame(t, u);
    case Fire(i, w) => if PhaseOf(t, i, w).Some? { PhaseSame(t, i, w, Waiting); }
    case Count(i, w) => if PhaseOf(t, i, w).Some? { PhaseSame(t, i, w, Counted); }
    case Act(i, w) => if PhaseOf(t, i, w).Some? { PhaseSame(t, i, w, Acted); }
    case _ =>
  }

  lemma StepOwed(graces: seq<nat>, s: State, l: Label)
    requires RowsSound(s) && OwedOnce(s)
    ensures OwedOnce(Next(graces, s, l))
  {
    var s' := Next(graces, s, l);
    forall u: User, x: nat | Arm(u, x) in s'.ops ensures x < s'.now && s'.ops[Arm(u, x)] == 1 {
      if Arm(u, x) in s.ops {
        assert s.ops[Arm(u, x)] == 1;
      }
    }
  }

  /** Arms come to be owed only for the stamp a disconnect has just written. */
  lemma NewArm(graces: seq<nat>, s: State, l: Label, u: User, x: nat)
    requires RowsSound(s) && Arm(u, x) !in s.ops && Arm(u, x) in Next(graces, s, l).ops
    ensures x == s.now
  {
  }

  lemma StepPast(graces: seq<nat>, s: State, l: Label)
    requires MapSound(s.tracker) && RowsSound(s) && OwedOnce(s) && ArmedPast(s)
    ensures ArmedPast(Next(graces, s, l))
  {
    SetsPersist(graces, s, l);
    var s' := Next(graces, s, l);
    forall i | 0 <= i < |s'.tracker.sets|
      ensures s'.tracker.sets[i].stamp <= s'.tracker.sets[i].since <= s'.now
      ensures s'.tracker.sets[i].stamp < s'.now
      ensures Arm(s'.tracker.sets[i].user, s'.tracker.sets[i].stamp) !in s'.ops
    {
      if i < |s.tracker.sets| {
        var u, x := s.tracker.sets[i].user, s.tracker.sets[i].stamp;
        assert Arm(u, x) !in s.ops;
        if Arm(u, x) in s'.ops {
          NewArm(graces, s, l, u, x);
        }
      } else {
        assert s.ops[Arm(l.u, l.stamp)] == 1;
      }
    }
  }

  lemma StepOnce(graces: seq<nat>, s: State, l: Label)
    requires MapSound(s.tracker) && ArmedPast(s) && ArmedOnce(s)
    ensures ArmedOnce(Next(graces, s, l))
  {
    SetsPersist(graces, s, l);
    hide Next;
  }

  lemma StepStamps(graces: seq<nat>, s: State, l: Label)
    requires Inv(s)
    ensures StampsSound(Next(graces, s, l))
  {
    hide Next;
    StepOwed(graces, s, l);
    StepPast(graces, s, l);
    StepOnce(graces, s, l);
  }

  // ----- what is armed

  /** The windows of a set are the registered deadlines, each with its own grace. */
  ghost predicate Registered(graces: seq<nat>, armed: ArmedWindows) {
    |armed.windows| == |graces| && forall w :: 0 <= w < |graces| ==> armed.windows[w].grace == graces[w]
  }

  ghost predicate AllRegistered(graces: seq<nat>, t: Tracker) {
    forall i :: 0 <= i < |t.sets| ==> Registered(graces, t.sets[i])
  }

  lemma StepRegistered(graces: seq<nat>, s: State, l: Label)
    requires MapSound(s.tracker) && AllRegistered(graces, s.tracker)
    ensures AllRegistered(graces, Next(graces, s, l).tracker)
  {
    SetsPersist(graces, s, l);
    hide Next;
    var t, t' := s.tracker, Next(graces, s, l).tracker;
    forall i | 0 <= i < |t'.sets| ensures Registered(graces, t'.sets[i]) {
      assert i < |t.sets| ==> Registered(graces, t.sets[i]);
    }
  }

  /** In every run window `w` of every set ever armed has the grace of deadline `w`. */
  lemma {:induction false} RegisteredAlways(graces: seq<nat>, ls: seq<Label>)
    ensures AllRegistered(graces, At(graces, ls).tracker)
    decreases |ls|
  {
    hide Next, AllRegistered, Bookkeeping;
    if ls == [] {
      NoneRegistered(graces);
    } else {
      var front := ls[..|ls| - 1];
      RegisteredAlways(graces, front);
      BooksAlways(graces, front);
      BooksSound(At(graces, front).tracker);
      StepRegistered(graces, At(graces, front), ls[|ls| - 1]);
    }
  }

  lemma NoneRegistered(graces: seq<nat>)
    ensures AllRegistered(graces, INIT.tracker)
  {
  }

  lemma BooksSound(t: Tracker)
    requires Bookkeeping(t)
    ensures MapSound(t)
  {
  }

  /** An arm that runs maps one new set for the user, with every registered window live. */
  lemma ArmsEveryWindow(graces: seq<nat>, s: State, u: User, x: nat)
    requires Arm(u, x) in s.ops && graces != []
    ensures var t := Next(graces, s, RunArm(u, x)).tracker;
      && u in t.timers && t.timers[u] < |t.sets|
      && var armed := t.sets[t.timers[u]];
         && armed.user == u && armed.stamp == x && armed.since == s.now && armed.pending == |graces|
         && |armed.windows| == |graces|
         && forall w :: 0 <= w < |graces| ==> armed.windows[w] == Window(graces[w], Armed)
  {
  }

  lemma StartedByFire(graces: seq<nat>, s: State, l: Label, i: nat, w: nat)
    requires MapSound(s.tracker) && Started(Next(graces, s, l).tracker, i, w)
    ensures Started(s.tracker, i, w)
      || (l == Fire(i, w) && PhaseOf(s.tracker, i, w) == Some(Armed)
          && s.tracker.sets[i].since + s.tracker.sets[i].windows[w].grace <= s.now)
  {
    match l
    case RunArm(u, _) => StopStartsNone(s.tracker, u, i, w);
    case RunCancel(u) => StopStartsNone(s.tracker, u, i, w);
    case _ =>
  }

  lemma StopStartsNone(t: Tracker, u: User, i: nat, w: nat)
    ensures Started(StopLocked(t, u), i, w) ==> Started(t, i, w)
    ensures |StopLocked(t, u).sets| == |t.sets|
  {
  }

  lemma StepGrace(graces: seq<nat>, s: State, l: Label)
    requires MapSound(s.tracker) && GraceServed(s)
    ensures GraceServed(Next(graces, s, l))
  {
    var s' := Next(graces, s, l);
    forall i: nat, w: nat | Started(s'.tracker, i, w)
      ensures s'.tracker.sets[i].since + s'.tracker.sets[i].windows[w].grace <= s'.now
    {
      StartedByFire(graces, s, l, i, w);
      SetsPersist(graces, s, l);
    }
  }

  lemma {:induction false} InvAlways(graces: seq<nat>, ls: seq<Label>)
    ensures Inv(At(graces, ls))
    decreases |ls|
  {
    if ls != [] {
      var s, l := At(graces, ls[..|ls| - 1]), ls[|ls| - 1];
      hide Next;
      InvAlways(graces, ls[..|ls| - 1]);
      StepBooks(graces, s, l);
      StepRows(graces, s, l);
      StepStamps(graces, s, l);
      StepGrace(graces, s, l);
    }
  }

  // ----- what an expiry may take away

  lemma AtSnoc(graces: seq<nat>, ls: seq<Label>, k: nat)
    requires k < |ls|
    ensures At(graces, ls[..k + 1]) == Next(graces, At(graces, ls[..k]), ls[k])
  {
    assert ls[..k + 1][..k] == ls[..k];
  }

  /** A stamp comes to stand only by the last socket closing, at that moment. */
  lemma StampStep(graces: seq<nat>, s: State, l: Label, u: User, x: nat)
    requires RowsSound(s) && RowOf(Next(graces, s, l), u).stamp == Some(x)
    ensures RowOf(Next(graces, s, l), u).count == 0
    ensures RowOf(s, u).stamp == Some(x) || (l.Disconnect? && l.u == u && s.now == x && RowOf(s, u).count == 1)
  {
  }

  /** `x` was written at step `d` by `u`'s last socket closing, and none has been open since. */
  ghost predicate StampedAt(graces: seq<nat>, ls: seq<Label>, u: User, x: nat, d: nat) {
    && d < |ls| && ls[d].Disconnect? && ls[d].u == u
    && At(graces, ls[..d]).now == x && RowOf(At(graces, ls[..d]), u).count == 1
    && forall j :: d < j <= |ls| ==> RowOf(At(graces, ls[..j]), u).count == 0
  }

  lemma StampedLonger(graces: seq<nat>, ls: seq<Label>, l: Label, u: User, x: nat, d: nat)
    requires StampedAt(graces, ls, u, x, d) && RowOf(At(graces, ls + [l]), u).count == 0
    ensures StampedAt(graces, ls + [l], u, x, d)
  {
    var longer := ls + [l];
    assert longer[..d] == ls[..d];
    forall j | d < j <= |longer| ensures RowOf(At(graces, longer[..j]), u).count == 0 {
      assert longer[..j] == if j <= |ls| then ls[..j] else longer;
    }
  }

  lemma StampedNow(graces: seq<nat>, ls: seq<Label>, l: Label, u: User)
    requires l.Disconnect? && l.u == u && RowOf(At(graces, ls), u).count == 1
    requires RowOf(At(graces, ls + [l]), u).count == 0
    ensures StampedAt(graces, ls + [l], u, At(graces, ls).now, |ls|)
  {
    hide Next;
    var longer := ls + [l];
    assert longer[..|ls|] == ls;
    assert longer[..|longer|] == longer;
  }

  lemma {:induction false} StampHistory(graces: seq<nat>, ls: seq<Label>, u: User, x: nat) returns (d: nat)
    requires RowOf(At(graces, ls), u).stamp == Some(x)
    ensures StampedAt(graces, ls, u, x, d)
    decreases |ls|
  {
    var front, l := ls[..|ls| - 1], ls[|ls| - 1];
    InvAlways(graces, front);
    StampStep(graces, At(graces, front), l, u, x);
    assert ls == front + [l];
    if RowOf(At(graces, front), u).stamp == Some(x) {
      d := StampHistory(graces, front, u, x);
      StampedLonger(graces, front, l, u, x, d);
    } else {
      d := |front|;
      StampedNow(graces, front, l, u);
    }
  }

  /** A standing stamp stays while no socket is open. */
  lemma StampStands(graces: seq<nat>, s: State, l: Label, u: User, x: nat)
    requires RowOf(s, u) == Row(0, Some(x)) && RowOf(Next(graces, s, l), u).count == 0
    ensures RowOf(Next(graces, s, l), u) == Row(0, Some(x))
  {
  }

  lemma StampWritten(graces: seq<nat>, s: State, l: Label, u: User)
    requires RowsSound(s) && l.Disconnect? && l.u == u && RowOf(s, u).count == 1
    ensures RowOf(Next(graces, s, l), u) == Row(0, Some(s.now))
  {
  }

  lemma {:induction false} StampKept(graces: seq<nat>, ls: seq<Label>, u: User, x: nat, d: nat, k: nat)
    requires StampedAt(graces, ls, u, x, d) && d < k <= |ls|
    ensures RowOf(At(graces, ls[..k]), u) == Row(0, Some(x))
    decreases k
  {
    hide Next, RowsSound, StampsSound, GraceServed, Bookkeeping;
    AtSnoc(graces, ls, k - 1);
    if k == d + 1 {
      InvAlways(graces, ls[..d]);
      StampWritten(graces, At(graces, ls[..d]), ls[d], u);
    } else {
      StampKept(graces, ls, u, x, d, k - 1);
      StampStands(graces, At(graces, ls[..k - 1]), ls[k - 1], u, x);
    }
  }

  /** What the store's guard stands for: no socket and stamp `x` exactly when the user's last socket
      closed at `x` and none has been open since. */
  lemma StandingExactly(graces: seq<nat>, ls: seq<Label>, u: User, x: nat)
    ensures RowOf(At(graces, ls), u) == Row(0, Some(x)) <==> GoneSince(graces, ls, u, x)
  {
    hide Next;
    if RowOf(At(graces, ls), u) == Row(0, Some(x)) {
      var d := StampHistory(graces, ls, u, x);
    }
    if d: nat :| StampedAt(graces, ls, u, x, d) {
      StampKept(graces, ls, u, x, d, |ls|);
      assert ls[..|ls|] == ls;
    }
  }

  /** The user's last socket closed at `x`, and none has been open since. */
  ghost predicate GoneSince(graces: seq<nat>, ls: seq<Label>, u: User, x: nat) {
    exists d: nat :: StampedAt(graces, ls, u, x, d)
  }

  /** Grace safety, in every interleaving of sockets, arms and cancels.  When a removing expiry takes
      effect, the user's last socket closed at step `d`, at exactly the stamp the window was armed
      with; there has been no socket in any state since; and the grace registered for that window has
      passed. */
  lemma GraceSafety(graces: seq<nat>, ls: seq<Label>, l: Label) returns (d: nat)
    requires TakesEffect(At(graces, ls), l)
    ensures var s := At(graces, ls);
      var armed := s.tracker.sets[l.i];
      && d < |ls| && ls[d].Disconnect? && ls[d].u == armed.user
      && At(graces, ls[..d]).now == armed.stamp && RowOf(At(graces, ls[..d]), armed.user).count == 1
      && (forall j :: d < j <= |ls| ==> RowOf(At(graces, ls[..j]), armed.user).count == 0)
      && armed.stamp + armed.windows[l.w].grace <= s.now
      && l.w < |graces| && armed.stamp + graces[l.w] <= s.now
  {
    hide Next;
    var s := At(graces, ls);
    var armed := s.tracker.sets[l.i];
    InvAlways(graces, ls);
    RegisteredAlways(graces, ls);
    assert Registered(graces, armed);
    assert Started(s.tracker, l.i, l.w);
    d := StampHistory(graces, ls, armed.user, armed.stamp);
  }

  function Ticks(n: nat): seq<Label> {
    seq(n, _ => Tick)
  }

  lemma {:induction false} TimePasses(graces: seq<nat>, ls: seq<Label>, n: nat)
    ensures At(graces, ls + Ticks(n)) == At(graces, ls).(now := At(graces, ls).now + n)
  {
    if n == 0 {
      assert ls + Ticks(0) == ls;
    } else {
      var longer := ls + Ticks(n - 1);
      TimePasses(graces, ls, n - 1);
      assert ls + Ticks(n) == longer + [Tick];
      assert (longer + [Tick])[..|longer|] == longer;
    }
  }

  lemma AtOneMore(graces: seq<nat>, ls: seq<Label>, l: Label)
    ensures At(graces, ls + [l]) == Next(graces, At(graces, ls), l)
  {
    hide Next;
    assert (ls + [l])[..|ls|] == ls;
  }

  lemma LiveWindow(graces: seq<nat>, ls: seq<Label>, i: nat, w: nat)
    requires PhaseOf(At(graces, ls).tracker, i, w) == Some(Armed)
    ensures w < |graces| && At(graces, ls).tracker.sets[i].windows[w].grace == graces[w]
    ensures At(graces, ls).tracker.sets[i].since <= At(graces, ls).now
  {
    hide Next;
    InvAlways(graces, ls);
    RegisteredAlways(graces, ls);
    assert Registered(graces, At(graces, ls).tracker.sets[i]);
  }

  /** And the other way round: a live window of the disconnect that stands does act, once its own grace
      has passed and its callback has run. */
  lemma StandingWindowActs(graces: seq<nat>, ls: seq<Label>, i: nat, w: nat)
    requires PhaseOf(At(graces, ls).tracker, i, w) == Some(Armed)
    requires var armed := At(graces, ls).tracker.sets[i];
      RowOf(At(graces, ls), armed.user) == Row(0, Some(armed.stamp))
    ensures w < |graces|
    ensures var due := ls + Ticks(graces[w]) + [Fire(i, w)] + [Count(i, w)];
      && TakesEffect(At(graces, due), Act(i, w))
      && PhaseOf(At(graces, due + [Act(i, w)]).tracker, i, w) == Some(Acted)
  {
    hide Next;
    var s := At(graces, ls);
    LiveWindow(graces, ls, i, w);
    var a := ls + Ticks(graces[w]);
    TimePasses(graces, ls, graces[w]);
    AtOneMore(graces, a, Fire(i, w));
    AtOneMore(graces, a + [Fire(i, w)], Count(i, w));
    AtOneMore(graces, a + [Fire(i, w)] + [Count(i, w)], Act(i, w));
    FiresAndActs(graces, s.(now := s.now + graces[w]), i, w);
  }

  lemma FiresAndActs(graces: seq<nat>, s: State, i: nat, w: nat)
    requires PhaseOf(s.tracker, i, w) == Some(Armed)
    requires s.tracker.sets[i].since + s.tracker.sets[i].windows[w].grace <= s.now
    requires RowOf(s, s.tracker.sets[i].user) == Row(0, Some(s.tracker.sets[i].stamp))
    ensures var t := Next(graces, Next(graces, s, Fire(i, w)), Count(i, w));
      && TakesEffect(t, Act(i, w)) && PhaseOf(Next(graces, t, Act(i, w)).tracker, i, w) == Some(Acted)
  {
  }

  // ----- sockets

  function Opened(ls: seq<Label>, u: User): nat {
    if ls == [] then 0 else
    Opened(ls[..|ls| - 1], u) + if ls[|ls| - 1].Connect? && ls[|ls| - 1].u == u then 1 else 0
  }

  function Closed(ls: seq<Label>, u: User): nat {
    if ls == [] then 0 else
    Closed(ls[..|ls| - 1], u) + if ls[|ls| - 1].Disconnect? && ls[|ls| - 1].u == u then 1 else 0
  }

  lemma CountStep(graces: seq<nat>, s: State, l: Label, u: User)
    ensures RowOf(Next(graces, s, l), u).count ==
      if l.Connect? && l.u == u then RowOf(s, u).count + 1
      else if l.Disconnect? && l.u == u && RowOf(s, u).count > 0 then RowOf(s, u).count - 1
      else RowOf(s, u).count
  {
  }

  /** While no more sockets are released than were opened, the count is the number now open. */
  lemma {:induction false} SocketCount(graces: seq<nat>, ls: seq<Label>, u: User)
    requires forall k :: 0 <= k <= |ls| ==> Closed(ls[..k], u) <= Opened(ls[..k], u)
    ensures RowOf(At(graces, ls), u).count == Opened(ls, u) - Closed(ls, u)
    decreases |ls|
  {
    hide Next;
    if ls != [] {
      var front := ls[..|ls| - 1];
      forall k | 0 <= k <= |front| ensures Closed(front[..k], u) <= Opened(front[..k], u) {
        assert front[..k] == ls[..k];
      }
      SocketCount(graces, front, u);
      CountStep(graces, At(graces, front), ls[|ls| - 1], u);
      assert ls[..|ls|] == ls;
    }
  }

  /** Only the first socket owes a cancel, and only the last one's close an arm, for the stamp it wrote; and
      neither is owed when the store reported an error, although its write is there. */
  lemma EdgesOwe(graces: seq<nat>, s: State, u: User)
    requires RowsSound(s)
    ensures Next(graces, s, Connect(u, true)).ops
         == if RowOf(s, u).count == 0 then s.ops + multiset{Cancel(u)} else s.ops
    ensures Next(graces, s, Disconnect(u, true)).ops
         == if RowOf(s, u).count == 1 then s.ops + multiset{Arm(u, s.now)} else s.ops
    ensures Next(graces, s, Connect(u, false)) == Next(graces, s, Connect(u, true)).(ops := s.ops)
    ensures Next(graces, s, Disconnect(u, false)) == Next(graces, s, Disconnect(u, true)).(ops := s.ops)
  {
  }

  lemma {:induction false} SetIdentity(graces: seq<nat>, ls: seq<Label>, k: nat, i: nat)
    requires k <= |ls| && i < |At(graces, ls[..k]).tracker.sets|
    ensures var t, t' := At(graces, ls[..k]).tracker, At(graces, ls).tracker;
      && i < |t'.sets| && t'.sets[i].user == t.sets[i].user && t'.sets[i].stamp == t.sets[i].stamp
      && |t'.sets[i].windows| == |t.sets[i].windows|
    decreases |ls|
  {
    hide Next;
    var n := |ls|;
    if k == n {
      assert ls[..k] == ls;
    } else {
      assert ls[..n - 1][..k] == ls[..k];
      SetIdentity(graces, ls[..n - 1], k, i);
      BooksAlways(graces, ls[..n - 1]);
      SetsPersist(graces, At(graces, ls[..n - 1]), ls[n - 1]);
    }
  }

  lemma FinalStep(graces: seq<nat>, s: State, l: Label, i: nat, w: nat)
    requires MapSound(s.tracker)
    requires PhaseOf(s.tracker, i, w) == Some(Acted) || PhaseOf(s.tracker, i, w) == Some(Stopped)
    ensures PhaseOf(Next(graces, s, l).tracker, i, w) == PhaseOf(s.tracker, i, w)
  {
    match l
    case RunArm(u, _) => StopKeepsPhase(s.tracker, u, i, w);
    case RunCancel(u) => StopKeepsPhase(s.tracker, u, i, w);
    case _ =>
  }

  lemma StopKeepsPhase(t: Tracker, u: User, i: nat, w: nat)
    requires PhaseOf(t, i, w) == Some(Acted) || PhaseOf(t, i, w) == Some(Stopped)
    ensures PhaseOf(StopLocked(t, u), i, w) == PhaseOf(t, i, w)
    ensures |StopLocked(t, u).sets| == |t.sets|
  {
  }

  /** A window that has acted, or was stopped before it fired, keeps that phase for good. */
  lemma {:induction false} FinalPhase(graces: seq<nat>, ls: seq<Label>, k: nat, i: nat, w: nat, phase: Phase)
    requires k <= |ls| && PhaseOf(At(graces, ls[..k]).tracker, i, w) == Some(phase) && (phase.Acted? || phase.Stopped?)
    ensures PhaseOf(At(graces, ls).tracker, i, w) == Some(phase)
    decreases |ls|
  {
    hide Next;
    var n := |ls|;
    if k == n {
      assert ls[..k] == ls;
    } else {
      assert ls[..n - 1][..k] == ls[..k];
      FinalPhase(graces, ls[..n - 1], k, i, w, phase);
      BooksAlways(graces, ls[..n - 1]);
      FinalStep(graces, At(graces, ls[..n - 1]), ls[n - 1], i, w);
    }
  }

  lemma ActedAfter(graces: seq<nat>, ls: seq<Label>, k: nat, m: nat)
    requires k < m <= |ls| && TakesEffect(At(graces, ls[..k]), ls[k])
    ensures PhaseOf(At(graces, ls[..m]).tracker, ls[k].i, ls[k].w) == Some(Acted)
  {
    AtSnoc(graces, ls, k);
    assert ls[..m][..k + 1] == ls[..k + 1];
    FinalPhase(graces, ls[..m], k + 1, ls[k].i, ls[k].w, Acted);
  }

  /** No two removals of a run are for the same window of the same stamp of the same user. */
  lemma AtMostOncePerStamp(graces: seq<nat>, ls: seq<Label>, k: nat, m: nat)
    requires k < m < |ls|
    requires TakesEffect(At(graces, ls[..k]), ls[k]) && TakesEffect(At(graces, ls[..m]), ls[m])
    ensures var a := At(graces, ls[..k]).tracker.sets[ls[k].i];
      var b := At(graces, ls[..m]).tracker.sets[ls[m].i];
      a.user != b.user || a.stamp != b.stamp || ls[k].w != ls[m].w
  {
    var upto := ls[..m];
    var a := At(graces, ls[..k]).tracker.sets[ls[k].i];
    var b := At(graces, upto).tracker.sets[ls[m].i];
    assert upto[..k] == ls[..k];
    SetIdentity(graces, upto, k, ls[k].i);
    if a.user == b.user && a.stamp == b.stamp && ls[k].w == ls[m].w {
      OneSetPerStamp(graces, upto, ls[k].i, ls[m].i);
      ActedAfter(graces, ls, k, m);
      assert false;
    }
  }

  // ----- which windows are missed

  /** Set `i` was armed for the disconnect now standing against `u`. */
  predicate StandingSet(s: State, u: User, i: nat) {
    && i < |s.tracker.sets| && s.tracker.sets[i].user == u
    && RowOf(s, u).stamp == Some(s.tracker.sets[i].stamp)
  }

  /** A window armed for the disconnect now standing was stopped before it fired. */
  ghost predicate Lost(s: State, u: User) {
    exists i: nat, w: nat :: StandingSet(s, u, i) && PhaseOf(s.tracker, i, w) == Some(Stopped)
  }

  ghost predicate HasLive(t: Tracker, i: nat) {
    exists w: nat :: PhaseOf(t, i, w) == Some(Armed)
  }

  /** An arm or cancel left over from an earlier edge runs after the standing disconnect was armed. */
  ghost predicate Overtaken(s: State, l: Label, u: User) {
    && ((l.RunArm? && l.u == u && Arm(u, l.stamp) in s.ops) || (l == RunCancel(u) && Cancel(u) in s.ops))
    && u in s.tracker.timers && StandingSet(s, u, s.tracker.timers[u]) && HasLive(s.tracker, s.tracker.timers[u])
  }

  /** Only an arm or a cancel stops a window, and only an armed one of the set it finds mapped. */
  lemma StopsArmed(graces: seq<nat>, s: State, l: Label, i: nat, w: nat)
    requires MapSound(s.tracker)
    requires PhaseOf(Next(graces, s, l).tracker, i, w) == Some(Stopped) && PhaseOf(s.tracker, i, w) != Some(Stopped)
    ensures i < |s.tracker.sets| && PhaseOf(s.tracker, i, w) == Some(Armed)
    ensures (l.RunArm? && Arm(l.u, l.stamp) in s.ops) || (l.RunCancel? && Cancel(l.u) in s.ops)
    ensures l.u in s.tracker.timers && s.tracker.timers[l.u] == i
  {
    match l
    case RunArm(_, _) =>
    case RunCancel(_) =>
    case _ =>
  }

  lemma StoppedOnlyBy(graces: seq<nat>, s: State, l: Label, u: User, i: nat, w: nat)
    requires Inv(s) && StandingSet(Next(graces, s, l), u, i)
    requires PhaseOf(Next(graces, s, l).tracker, i, w) == Some(Stopped) && PhaseOf(s.tracker, i, w) != Some(Stopped)
    ensures Overtaken(s, l, u) && s.tracker.timers[u] == i
  {
    SetsPersist(graces, s, l);
    StopsArmed(graces, s, l, i, w);
    assert IsMapped(s.tracker, i);
    StandingStays(graces, s, l, u, i);
  }

  lemma StandingStays(graces: seq<nat>, s: State, l: Label, u: User, i: nat)
    requires Inv(s) && StandingSet(Next(graces, s, l), u, i) && i < |s.tracker.sets|
    ensures StandingSet(s, u, i)
  {
    SetsPersist(graces, s, l);
  }

  lemma OvertakenLoses(graces: seq<nat>, s: State, l: Label, u: User)
    requires Inv(s) && Overtaken(s, l, u)
    ensures Lost(Next(graces, s, l), u)
  {
    var s' := Next(graces, s, l);
    var i := s.tracker.timers[u];
    var w: nat :| PhaseOf(s.tracker, i, w) == Some(Armed);
    assert StandingSet(s', u, i) && PhaseOf(s'.tracker, i, w) == Some(Stopped);
  }

  /** From any reachable state in which the standing disconnect has lost no window: the next step
      loses one exactly when it is a stale arm or cancel that overtakes the live windows. */
  lemma LostExactly(graces: seq<nat>, s: State, l: Label, u: User)
    requires Inv(s) && !Lost(s, u)
    ensures Lost(Next(graces, s, l), u) <==> Overtaken(s, l, u)
  {
    hide Next;
    var s' := Next(graces, s, l);
    if Lost(s', u) {
      var i: nat, w: nat :| StandingSet(s', u, i) && PhaseOf(s'.tracker, i, w) == Some(Stopped);
      SetsPersist(graces, s, l);
      if i < |s.tracker.sets| {
        StandingStays(graces, s, l, u, i);
      }
      StoppedOnlyBy(graces, s, l, u, i, w);
    }
    if Overtaken(s, l, u) {
      OvertakenLoses(graces, s, l, u);
    }
  }

  lemma BackAndForth(graces: seq<nat>, u: User) returns (ls: seq<Label>)
    ensures var s := At(graces, ls);
      && u in s.rows && s.rows[u] == Row(0, Some(1)) && s.ops[Arm(u, 0)] == 1 && s.ops[Arm(u, 1)] == 1
      && s.tracker == INIT.tracker
  {
    ls := [];
    AtOneMore(graces, ls, Connect(u, true));
    ls := ls + [Connect(u, true)];
    AtOneMore(graces, ls, Disconnect(u, true));
    ls := ls + [Disconnect(u, true)];
    AtOneMore(graces, ls, Connect(u, true));
    ls := ls + [Connect(u, true)];
    AtOneMore(graces, ls, Disconnect(u, true));
    ls := ls + [Disconnect(u, true)];
  }

  lemma StaleArmStops(graces: seq<nat>, s: State, u: User)
    requires u in s.rows && s.rows[u] == Row(0, Some(1)) && s.ops[Arm(u, 0)] == 1 && s.ops[Arm(u, 1)] == 1
    requires s.tracker == INIT.tracker && graces != []
    ensures var b := Next(graces, Next(graces, s, RunArm(u, 1)), RunArm(u, 0));
      && RowOf(b, u) == Row(0, Some(1))
      && StandingSet(b, u, 0) && b.tracker.sets[0].stamp == 1 && |b.tracker.sets[0].windows| == |graces|
      && forall w: nat :: w < |graces| ==> PhaseOf(b.tracker, 0, w) == Some(Stopped)
  {
    var a := Next(graces, s, RunArm(u, 1));
    assert a.tracker.sets == [ArmedWindows(u, 1, s.now, ArmAll(graces), |graces|)] && a.ops[Arm(u, 0)] == 1;
  }

  /** It does happen.  The first socket's close is slow to arm its windows; the player comes back and
      goes again; the second disconnect arms its windows, and then the first one's arm stops them.
      The windows now mapped carry a dead stamp, so in no continuation does any removal for the standing
      disconnect take effect. */
  lemma StaleArmLosesTheStandingWindows(graces: seq<nat>, u: User) returns (ls: seq<Label>)
    requires graces != []
    ensures Lost(At(graces, ls), u) && RowOf(At(graces, ls), u) == Row(0, Some(1))
    ensures forall more: seq<Label>, l: Label :: TakesEffect(At(graces, ls + more), l) ==>
      var armed := At(graces, ls + more).tracker.sets[l.i]; armed.user != u || armed.stamp != 1
  {
    ls := BackAndForth(graces, u);
    hide Next;
    var s := At(graces, ls);
    var b := Next(graces, Next(graces, s, RunArm(u, 1)), RunArm(u, 0));
    StaleArmStops(graces, s, u);
    AtOneMore(graces, ls, RunArm(u, 1));
    ls := ls + [RunArm(u, 1)];
    AtOneMore(graces, ls, RunArm(u, 0));
    ls := ls + [RunArm(u, 0)];
    assert StandingSet(b, u, 0) && PhaseOf(b.tracker, 0, 0) == Some(Stopped);
    forall more: seq<Label>, l: Label | TakesEffect(At(graces, ls + more), l)
      ensures var armed := At(graces, ls + more).tracker.sets[l.i]; armed.user != u || armed.stamp != 1
    {
      StoppedSetIsSilent(graces, ls, more, l);
    }
  }

  /** Once every window of set 0 is stopped, no removal ever takes effect for that set's disconnect. */
  lemma StoppedSetIsSilent(graces: seq<nat>, ls: seq<Label>, more: seq<Label>, l: Label)
    requires var t := At(graces, ls).tracker;
      && t.sets != []
      && forall w: nat :: w < |t.sets[0].windows| ==> PhaseOf(t, 0, w) == Some(Stopped)
    requires TakesEffect(At(graces, ls + more), l)
    ensures var was, armed := At(graces, ls).tracker.sets[0], At(graces, ls + more).tracker.sets[l.i];
      armed.user != was.user || armed.stamp != was.stamp
  {
    hide Next;
    var all := ls + more;
    assert all[..|ls|] == ls;
    SetIdentity(graces, all, |ls|, 0);
    if l.w < |At(graces, ls).tracker.sets[0].windows| {
      FinalPhase(graces, all, |ls|, 0, l.w, Stopped);
    }
    OneSetPerStamp(graces, all, 0, l.i);
  }

  lemma OneSetPerStamp(graces: seq<nat>, ls: seq<Label>, i: nat, j: nat)
    requires i < |At(graces, ls).tracker.sets| && j < |At(graces, ls).tracker.sets|
    ensures var a, b := At(graces, ls).tracker.sets[i], At(graces, ls).tracker.sets[j];
      a.user == b.user && a.stamp == b.stamp ==> i == j
  {
    InvAlways(graces, ls);
  }
}
