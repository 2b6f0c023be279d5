/** Refitting every ordered pair of modes in one game. */
module Recompute {
  import opened Common
  import opened Order
  import opened Reals
  import opened Seeding
  import opened PairMoments
  import opened CrossValidation

  /** The players of one mode and their ratings. */
  type Players = map<string, real>

  datatype ConvergedRating = ConvergedRating(user: string, mode: string, mu: real)

  function ByMode(ratings: seq<ConvergedRating>): map<string, Players> {
    if ratings == [] then map[] else
    var rest, r := ByMode(ratings[..|ratings| - 1]), ratings[|ratings| - 1];
    rest[r.mode := (if r.mode in rest then rest[r.mode] else map[])[r.user := r.mu]]
  }

  ghost predicate HasMode(ratings: seq<ConvergedRating>, mode: string) {
    exists i :: 0 <= i < |ratings| && ratings[i].mode == mode
  }

  ghost predicate HasRating(ratings: seq<ConvergedRating>, mode: string, user: string) {
    exists i :: 0 <= i < |ratings| && ratings[i].mode == mode && ratings[i].user == user
  }

  lemma HasNext(ratings: seq<ConvergedRating>, mode: string, user: string)
    requires ratings != []
    ensures var n := |ratings| - 1;
      && (HasMode(ratings, mode) <==> HasMode(ratings[..n], mode) || ratings[n].mode == mode)
      && (HasRating(ratings, mode, user) <==>
            HasRating(ratings[..n], mode, user) || (ratings[n].mode == mode && ratings[n].user == user))
  {
    var n := |ratings| - 1;
    assert forall i :: 0 <= i < n ==> ratings[..n][i] == ratings[i];
  }

  lemma NobodyRated(mode: string, user: string)
    ensures !HasMode([], mode) && !HasRating([], mode, user)
  {
  }

  /** A mode is there exactly when somebody holds a rating in it, a player in a mode exactly when that
      player does. */
  lemma {:induction false} ByModeExactly(ratings: seq<ConvergedRating>, mode: string, user: string)
    ensures var modes := ByMode(ratings);
      && (mode in modes <==> HasMode(ratings, mode))
      && (mode in modes && user in modes[mode] <==> HasRating(ratings, mode, user))
  {
    hide HasMode, HasRating;
    if ratings == [] {
      NobodyRated(mode, user);
    } else {
      ByModeExactly(ratings[..|ratings| - 1], mode, user);
      HasNext(ratings, mode, user);
    }
  }

  /** And of several ratings of one player in one mode the last counts. */
  lemma {:induction false} LastRatingCounts(ratings: seq<ConvergedRating>, i: nat)
    requires i < |ratings|
    requires forall j :: i < j < |ratings| ==> (ratings[j].mode, ratings[j].user) != (ratings[i].mode, ratings[i].user)
    ensures var modes, r := ByMode(ratings), ratings[i];
      r.mode in modes && r.user in modes[r.mode] && modes[r.mode][r.user] == r.mu
  {
    var n := |ratings| - 1;
    if i < n {
      LastRatingCounts(ratings[..n], i);
    }
  }

  // ----- the players two modes share

  ghost function Observe(keys: seq<string>, source: Players, target: Players): (r: seq<Observation>)
    requires forall i :: 0 <= i < |keys| ==> keys[i] in source && keys[i] in target
    ensures |r| == |keys|
  {
    seq(|keys|, i requires 0 <= i < |keys| => Observation(keys[i], source[keys[i]], target[keys[i]]))
  }

  /** The shared players in key order. */
  ghost function Paired(source: Players, target: Players): seq<Observation> {
    SortedKeysProperties(source.Keys * target.Keys);
    var keys := SortedKeys(source.Keys * target.Keys);
    assert forall i :: 0 <= i < |keys| ==> keys[i] in source.Keys * target.Keys;
    Observe(keys, source, target)
  }

  predicate Shared(o: Observation, source: Players, target: Players) {
    o.key in source && o.key in target && o.source == source[o.key] && o.target == target[o.key]
  }

  lemma PairedProperties(source: Players, target: Players)
    ensures StrictlySorted(Paired(source, target), ByKey)
    ensures forall o :: o in Paired(source, target) <==> Shared(o, source, target)
    ensures Paired(source, target) == [] <==> source.Keys * target.Keys == {}
  {
    var both := source.Keys * target.Keys;
    SortedKeysProperties(both);
    var keys, obs := SortedKeys(both), Paired(source, target);
    forall o ensures o in obs <==> Shared(o, source, target) {
      if Shared(o, source, target) {
        assert o.key in keys;
        var i :| 0 <= i < |keys| && keys[i] == o.key;
        assert obs[i] == o;
      }
      if o in obs {
        var i :| 0 <= i < |obs| && obs[i] == o;
        assert keys[i] in keys;
      }
    }
    if obs == [] {
      assert forall k :: k in both ==> k in keys;
      assert both == {};
    } else {
      assert keys[0] in keys;
    }
  }

  /** Seen from the other mode, the shared players are the same with their ratings swapped. */
  lemma PairedSwapped(source: Players, target: Players)
    ensures Paired(target, source) == Swap(Paired(source, target))
  {
    assert source.Keys * target.Keys == target.Keys * source.Keys;
    SortedKeysProperties(source.Keys * target.Keys);
  }

  method PairedObservations(source: Players, target: Players) returns (obs: seq<Observation>)
    ensures obs == Paired(source, target)
  {
    obs := [];
    var left := source;
    while left != map[]
      invariant left.Keys <= source.Keys && forall k :: k in left ==> left[k] == source[k]
      invariant forall o :: o in obs <==> Shared(o, source, target) && o.key !in left
      invariant forall i, j :: 0 <= i < j < |obs| ==> obs[i].key != obs[j].key
      decreases |left|
    {
      var user :| user in left;
      var sourceMu := left[user];
      left := left - {user};
      if user !in target {
        continue;
      }
      obs := obs + [Observation(user, sourceMu, target[user])];
    }
    SortsToPaired(obs, source, target);
    obs := Sort(obs, ByKey);
  }

  lemma SortsToPaired(obs: seq<Observation>, source: Players, target: Players)
    requires forall o :: o in obs <==> Shared(o, source, target)
    requires forall i, j :: 0 <= i < j < |obs| ==> obs[i].key != obs[j].key
    ensures Sort(obs, ByKey) == Paired(source, target)
  {
    KeyOrder();
    PairedProperties(source, target);
    forall i, j | 0 <= i < j < |obs| ensures ByKey(obs[i], obs[j]) || ByKey(obs[j], obs[i]) {
      LessTotal(obs[i].key, obs[j].key);
    }
    StrictSort(obs, ByKey);
    SameMembers(Sort(obs, ByKey), obs);
    SortedUnique(Sort(obs, ByKey), Paired(source, target), ByKey);
  }

  // ----- every ordered pair

  /** What one ordered pair of modes contributes: nothing for a mode with itself, or without a shared
      player. */
  ghost function Entry(byMode: map<string, Players>, sqrt: real -> real): (string, string) -> Option<PairStats>
    requires IsSqrt(sqrt)
  {
    (a: string, b: string) =>
      if a in byMode && b in byMode && a != b && Paired(byMode[a], byMode[b]) != []
      then Some(FitOf(a, b, Paired(byMode[a], byMode[b]), sqrt)) else None
  }

  /** The rows of source `a` against the first `n` modes, and of the first `n` sources against all. */
  ghost function Row(entry: (string, string) -> Option<PairStats>, a: string, modes: seq<string>, n: nat): seq<PairStats>
    requires n <= |modes|
  {
    if n == 0 then [] else
    Row(entry, a, modes, n - 1)
    + if entry(a, modes[n - 1]).Some? then [entry(a, modes[n - 1]).value] else []
  }

  ghost function Rows(entry: (string, string) -> Option<PairStats>, modes: seq<string>, n: nat): seq<PairStats>
    requires n <= |modes|
  {
    if n == 0 then [] else Rows(entry, modes, n - 1) + Row(entry, modes[n - 1], modes, |modes|)
  }

  /** Everything `FitPairs` returns. */
  ghost function PairsOf(ratings: seq<ConvergedRating>, sqrt: real -> real): seq<PairStats>
    requires IsSqrt(sqrt)
  {
    var modes := SortedKeys(ByMode(ratings).Keys);
    Rows(Entry(ByMode(ratings), sqrt), modes, |modes|)
  }

  method FitPairs(ratings: seq<ConvergedRating>, sqrt: real -> real) returns (out: seq<PairStats>)
    requires IsSqrt(sqrt)
    ensures out == PairsOf(ratings, sqrt)
  {
    var byMode := GroupByMode(ratings);
    var modes := ModesInOrder(byMode);

    hide Entry, Paired, ByMode, SortedKeys, IsSqrt, FitOf;
    ghost var entry := Entry(byMode, sqrt);
    out := [];
    for i := 0 to |modes|
      invariant out == Rows(entry, modes, i)
    {
      for j := 0 to |modes|
        invariant out == Rows(entry, modes, i) + Row(entry, modes[i], modes, j)
      {
        assert modes[i] in modes && modes[j] in modes;
        var stats := FitPair(byMode, modes[i], modes[j], sqrt);
        if stats.None? {
          continue;
        }
        out := out + [stats.value];
      }
    }
  }

  /** One ordered pair of modes, unless they are one mode or share no player. */
  method FitPair(byMode: map<string, Players>, a: string, b: string, sqrt: real -> real) returns (stats: Option<PairStats>)
    requires IsSqrt(sqrt) && a in byMode && b in byMode
    ensures stats == Entry(byMode, sqrt)(a, b)
  {
    if a == b {
      return None;
    }
    var obs := PairedObservations(byMode[a], byMode[b]);
    if obs == [] {
      return None;
    }
    var fitted := Fit(a, b, obs, sqrt);
    return Some(fitted);
  }

  method GroupByMode(ratings: seq<ConvergedRating>) returns (byMode: map<string, Players>)
    ensures byMode == ByMode(ratings)
  {
    byMode := map[];
    for i := 0 to |ratings|
      invariant byMode == ByMode(ratings[..i])
    {
      assert ratings[..i + 1][..i] == ratings[..i];
      var r := ratings[i];
      if r.mode !in byMode {
        byMode := byMode[r.mode := map[]];
      }
      byMode := byMode[r.mode := byMode[r.mode][r.user := r.mu]];
    }
    assert ratings[..|ratings|] == ratings;
  }

  method ModesInOrder(byMode: map<string, Players>) returns (modes: seq<string>)
    ensures modes == SortedKeys(byMode.Keys)
    ensures forall m :: m in modes <==> m in byMode
  {
    modes := [];
    var left := byMode.Keys;
    while left != {}
      invariant left <= byMode.Keys
      invariant forall m :: m in modes <==> m in byMode.Keys && m !in left
      invariant forall i, j :: 0 <= i < j < |modes| ==> modes[i] != modes[j]
      decreases left
    {
      var m :| m in left;
      left := left - {m};
      modes := modes + [m];
    }
    StringOrder();
    forall i, j | 0 <= i < j < |modes| ensures Less(modes[i], modes[j]) || Less(modes[j], modes[i]) {
      LessTotal(modes[i], modes[j]);
    }
    StrictSort(modes, Less);
    SameMembers(Sort(modes, Less), modes);
    SortedKeysProperties(byMode.Keys);
    SortedUnique(Sort(modes, Less), SortedKeys(byMode.Keys), Less);
    modes := Sort(modes, Less);
  }

  // ----- what comes out

  /** An entry is labelled with its own two modes. */
  ghost predicate Labelled(entry: (string, string) -> Option<PairStats>) {
    forall a, b :: entry(a, b).Some? ==> entry(a, b).value.sourceMode == a && entry(a, b).value.targetMode == b
  }

  predicate PairLess(p: PairStats, q: PairStats) {
    Less(p.sourceMode, q.sourceMode) || (p.sourceMode == q.sourceMode && Less(p.targetMode, q.targetMode))
  }

  ghost predicate InRow(entry: (string, string) -> Option<PairStats>, p: PairStats, a: string, modes: seq<string>, n: nat)
    requires n <= |modes|
  {
    exists j :: 0 <= j < n && entry(a, modes[j]) == Some(p)
  }

  lemma {:induction false} RowMembers(entry: (string, string) -> Option<PairStats>, a: string, modes: seq<string>, n: nat)
    requires n <= |modes| && Labelled(entry) && StrictlySorted(modes, Less)
    ensures forall p :: p in Row(entry, a, modes, n) <==> InRow(entry, p, a, modes, n)
    ensures StrictlySorted(Row(entry, a, modes, n), PairLess)
  {
    if n > 0 {
      RowMembers(entry, a, modes, n - 1);
      var front := Row(entry, a, modes, n - 1);
      forall i | 0 <= i < |front| && entry(a, modes[n - 1]).Some?
        ensures PairLess(front[i], entry(a, modes[n - 1]).value)
      {
        assert front[i] in front;
        var j :| 0 <= j < n - 1 && entry(a, modes[j]) == Some(front[i]);
        assert Less(modes[j], modes[n - 1]);
      }
      forall p ensures p in Row(entry, a, modes, n) <==> InRow(entry, p, a, modes, n) {
        assert p in front <==> InRow(entry, p, a, modes, n - 1);
        if InRow(entry, p, a, modes, n) && p !in front {
          assert entry(a, modes[n - 1]) == Some(p);
        }
      }
    }
  }

  ghost predicate InRows(entry: (string, string) -> Option<PairStats>, p: PairStats, modes: seq<string>, n: nat)
    requires n <= |modes|
  {
    exists i :: 0 <= i < n && InRow(entry, p, modes[i], modes, |modes|)
  }

  lemma InRowSource(entry: (string, string) -> Option<PairStats>, p: PairStats, a: string, modes: seq<string>)
    requires Labelled(entry) && InRow(entry, p, a, modes, |modes|)
    ensures p.sourceMode == a
  {
  }

  /** Everything measured from an earlier source comes before everything measured from a later one. */
  lemma RowsBefore(entry: (string, string) -> Option<PairStats>, modes: seq<string>, n: nat, p: PairStats, q: PairStats)
    requires n < |modes| && Labelled(entry) && StrictlySorted(modes, Less)
    requires InRows(entry, p, modes, n) && InRow(entry, q, modes[n], modes, |modes|)
    ensures PairLess(p, q)
  {
    var r :| 0 <= r < n && InRow(entry, p, modes[r], modes, |modes|);
    InRowSource(entry, p, modes[r], modes);
    InRowSource(entry, q, modes[n], modes);
    assert Less(modes[r], modes[n]);
  }

  lemma SortedTogether(front: seq<PairStats>, back: seq<PairStats>)
    requires StrictlySorted(front, PairLess) && StrictlySorted(back, PairLess)
    requires forall p, q :: p in front && q in back ==> PairLess(p, q)
    ensures StrictlySorted(front + back, PairLess)
  {
  }

  lemma {:induction false} RowsMembers(entry: (string, string) -> Option<PairStats>, modes: seq<string>, n: nat)
    requires n <= |modes| && Labelled(entry) && StrictlySorted(modes, Less)
    ensures forall p :: p in Rows(entry, modes, n) <==> InRows(entry, p, modes, n)
    ensures StrictlySorted(Rows(entry, modes, n), PairLess)
  {
    if n > 0 {
      RowsMembers(entry, modes, n - 1);
      RowMembers(entry, modes[n - 1], modes, |modes|);
      var front, back := Rows(entry, modes, n - 1), Row(entry, modes[n - 1], modes, |modes|);
      forall p, q | p in front && q in back ensures PairLess(p, q) {
        RowsBefore(entry, modes, n - 1, p, q);
      }
      SortedTogether(front, back);
      forall p ensures p in Rows(entry, modes, n) <==> InRows(entry, p, modes, n) {
        assert p in Rows(entry, modes, n) <==> p in front || p in back;
      }
    }
  }

  lemma EntryLabelled(byMode: map<string, Players>, sqrt: real -> real)
    requires IsSqrt(sqrt)
    ensures Labelled(Entry(byMode, sqrt))
  {
    forall a: string, b: string | Entry(byMode, sqrt)(a, b).Some?
      ensures Entry(byMode, sqrt)(a, b).value.sourceMode == a && Entry(byMode, sqrt)(a, b).value.targetMode == b
    {
      FitCoherent(a, b, Paired(byMode[a], byMode[b]), sqrt);
    }
  }

  /** The returned rows are exactly the fits of the ordered pairs of distinct modes with a player in
      common, in strictly increasing order of their two mode keys — so each pair appears once. */
  lemma PairsExactly(ratings: seq<ConvergedRating>, sqrt: real -> real)
    requires IsSqrt(sqrt)
    ensures StrictlySorted(PairsOf(ratings, sqrt), PairLess)
    ensures var byMode := ByMode(ratings);
      forall p :: p in PairsOf(ratings, sqrt) <==>
        && p.sourceMode in byMode && p.targetMode in byMode && p.sourceMode != p.targetMode
        && byMode[p.sourceMode].Keys * byMode[p.targetMode].Keys != {}
        && p == FitOf(p.sourceMode, p.targetMode, Paired(byMode[p.sourceMode], byMode[p.targetMode]), sqrt)
  {
    var byMode := ByMode(ratings);
    var entry, modes := Entry(byMode, sqrt), SortedKeys(byMode.Keys);
    SortedKeysProperties(byMode.Keys);
    EntryLabelled(byMode, sqrt);
    RowsMembers(entry, modes, |modes|);
    forall p ensures p in PairsOf(ratings, sqrt) <==> entry(p.sourceMode, p.targetMode) == Some(p) {
      if entry(p.sourceMode, p.targetMode) == Some(p) {
        assert p.sourceMode in modes && p.targetMode in modes;
        var i :| 0 <= i < |modes| && modes[i] == p.sourceMode;
        var j :| 0 <= j < |modes| && modes[j] == p.targetMode;
        assert InRow(entry, p, modes[i], modes, |modes|);
      }
    }
    forall p: PairStats | p.sourceMode in byMode && p.targetMode in byMode
      ensures Paired(byMode[p.sourceMode], byMode[p.targetMode]) == []
        <==> byMode[p.sourceMode].Keys * byMode[p.targetMode].Keys == {}
    {
      PairedProperties(byMode[p.sourceMode], byMode[p.targetMode]);
    }
  }

  /** Both directions of a pair are measured or neither is, over the same players and with the same
      correlation. */
  lemma PairsSymmetric(ratings: seq<ConvergedRating>, sqrt: real -> real, p: PairStats) returns (q: PairStats)
    requires IsSqrt(sqrt) && p in PairsOf(ratings, sqrt)
    ensures q in PairsOf(ratings, sqrt) && q.sourceMode == p.targetMode && q.targetMode == p.sourceMode
    ensures q.pairedPlayers == p.pairedPlayers && q.correlation == p.correlation
  {
    var byMode := ByMode(ratings);
    PairsExactly(ratings, sqrt);
    var a, b := p.sourceMode, p.targetMode;
    q := FitOf(b, a, Paired(byMode[b], byMode[a]), sqrt);
    PairedSwapped(byMode[a], byMode[b]);
    FitSwapped(a, b, Paired(byMode[a], byMode[b]), sqrt);
    FitCoherent(b, a, Paired(byMode[b], byMode[a]), sqrt);
  }
}
