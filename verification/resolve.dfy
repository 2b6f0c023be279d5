/** The stored form of a selection: groups in declaration order, ids sorted, captions from the roster. */
module StoredSelections {
  import opened Common
  import opened PreQueue
  import Order

  function Ids(sel: Selection): seq<string> {
    Order.Sort(TrimAll(sel.optionIds), Order.Less)
  }

  /** What each group was last given. */
  function Picks(sels: seq<Selection>): map<string, seq<string>> {
    if sels == [] then map[] else
    var last := sels[|sels| - 1];
    Picks(sels[..|sels| - 1])[Trim(last.groupKey) := Ids(last)]
  }

  /** The game's own name for an id, or the id where the game has none. */
  function Caption(roster: seq<RosterGroup>, key: string, id: string): string {
    var offered := Offered(roster);
    var title := if key in offered && id in offered[key] then offered[key][id].title else "";
    if Trim(title) == "" then id else title
  }

  function Entry(roster: seq<RosterGroup>, key: string, ids: seq<string>): Selection {
    Selection(key, ids, seq(|ids|, i requires 0 <= i < |ids| => Caption(roster, key, ids[i])))
  }

  function Entries(groups: seq<Group>, roster: seq<RosterGroup>, picks: map<string, seq<string>>): (r: seq<Selection>)
    ensures |r| <= |groups|
  {
    if groups == [] then [] else
    var key := groups[|groups| - 1].key;
    Entries(groups[..|groups| - 1], roster, picks) + if key in picks then [Entry(roster, key, picks[key])] else []
  }

  function Resolved(groups: seq<Group>, roster: seq<RosterGroup>, sels: seq<Selection>): seq<Selection> {
    Entries(groups, roster, Picks(sels))
  }

  method CollectPicks(sels: seq<Selection>) returns (byKey: map<string, seq<string>>)
    ensures byKey == Picks(sels)
  {
    byKey := map[];
    for i := 0 to |sels|
      invariant byKey == Picks(sels[..i])
    {
      var ids: seq<string> := [];
      for j := 0 to |sels[i].optionIds|
        invariant ids == TrimAll(sels[i].optionIds)[..j]
      {
        ids := ids + [Trim(sels[i].optionIds[j])];
      }
      assert ids == TrimAll(sels[i].optionIds);
      ids := Order.Sort(ids, Order.Less);
      assert sels[..i + 1][..i] == sels[..i];
      byKey := byKey[Trim(sels[i].groupKey) := ids];
    }
    assert sels[..|sels|] == sels;
  }

  method CaptionAll(roster: seq<RosterGroup>, offered: map<string, map<string, Choice>>, key: string, ids: seq<string>)
    returns (captions: seq<string>)
    requires offered == Offered(roster)
    ensures captions == Entry(roster, key, ids).captions
  {
    captions := [];
    for i := 0 to |ids|
      invariant captions == Entry(roster, key, ids).captions[..i]
    {
      var title := if key in offered && ids[i] in offered[key] then offered[key][ids[i]].title else "";
      if Trim(title) == "" {
        title := ids[i];
      }
      captions := captions + [title];
    }
  }

  method Resolve(groups: seq<Group>, roster: seq<RosterGroup>, sels: seq<Selection>) returns (out: seq<Selection>)
    ensures out == Resolved(groups, roster, sels)
  {
    var offered := IndexRoster(roster);
    var byKey := CollectPicks(sels);
    out := [];
    for k := 0 to |groups|
      invariant out == Entries(groups[..k], roster, byKey)
    {
      assert groups[..k + 1][..k] == groups[..k];
      var key := groups[k].key;
      if key !in byKey {
        continue;
      }
      var captions := CaptionAll(roster, offered, key, byKey[key]);
      out := out + [Selection(key, byKey[key], captions)];
    }
    assert groups[..|groups|] == groups;
  }

  // ----- captions

  lemma {:induction false} ByIdLast(choices: seq<Choice>, i: nat)
    requires i < |choices| && forall j :: i < j < |choices| ==> choices[j].id != choices[i].id
    ensures choices[i].id in ById(choices) && ById(choices)[choices[i].id] == choices[i]
  {
    var n := |choices| - 1;
    if i < n {
      ByIdLast(choices[..n], i);
    }
  }

  lemma {:induction false} OfferedLast(roster: seq<RosterGroup>, i: nat)
    requires i < |roster| && forall j :: i < j < |roster| ==> roster[j].key != roster[i].key
    ensures roster[i].key in Offered(roster) && Offered(roster)[roster[i].key] == ById(roster[i].choices)
  {
    var n := |roster| - 1;
    if i < n {
      OfferedLast(roster[..n], i);
    }
  }

  lemma {:induction false} ByIdMember(choices: seq<Choice>, id: string)
    ensures id in ById(choices) <==> exists i :: 0 <= i < |choices| && choices[i].id == id
  {
    if choices != [] {
      var n := |choices| - 1;
      ByIdMember(choices[..n], id);
      if i :| 0 <= i < n && choices[i].id == id {
        assert choices[..n][i].id == id;
      }
    }
  }

  lemma {:induction false} OfferedMember(roster: seq<RosterGroup>, key: string)
    ensures key in Offered(roster) <==> exists i :: 0 <= i < |roster| && roster[i].key == key
  {
    if roster != [] {
      var n := |roster| - 1;
      OfferedMember(roster[..n], key);
      if i :| 0 <= i < n && roster[i].key == key {
        assert roster[..n][i].key == key;
      }
    }
  }

  /** Where the game served no such group every id stands for itself. */
  lemma CaptionsUnserved(roster: seq<RosterGroup>, key: string, id: string)
    requires forall i :: 0 <= i < |roster| ==> roster[i].key != key
    ensures Caption(roster, key, id) == id
  {
    OfferedMember(roster, key);
  }

  /** A choice the game served is captioned with the game's own title, unless that is blank, and an id it
      did not serve with itself: of several groups with one key, or choices with one id, the last counts. */
  lemma CaptionsFromRoster(roster: seq<RosterGroup>, g: nat, c: nat, id: string)
    requires g < |roster| && forall j :: g < j < |roster| ==> roster[j].key != roster[g].key
    requires c < |roster[g].choices|
    requires forall j :: c < j < |roster[g].choices| ==> roster[g].choices[j].id != roster[g].choices[c].id
    ensures var choice := roster[g].choices[c];
      Caption(roster, roster[g].key, choice.id) == if Trim(choice.title) == "" then choice.id else choice.title
    ensures (forall j :: 0 <= j < |roster[g].choices| ==> roster[g].choices[j].id != id) ==>
      Caption(roster, roster[g].key, id) == id
  {
    OfferedLast(roster, g);
    ByIdLast(roster[g].choices, c);
    ByIdMember(roster[g].choices, id);
  }

  // ----- what was picked

  /** What a player picked, without order, captions or stray white space: which groups were answered,
      and which id was picked in which. */
  datatype Chosen = Chosen(keys: set<string>, picks: set<(string, string)>)

  function PickPairs(sels: seq<Selection>): set<(string, string)> {
    set i, j | 0 <= i < |sels| && 0 <= j < |sels[i].optionIds| :: (KeyAt(sels, i), TrimAll(sels[i].optionIds)[j])
  }

  function ChosenOf(sels: seq<Selection>): Chosen {
    Chosen(ChosenKeys(sels), PickPairs(sels))
  }

  predicate OncePerGroup(sels: seq<Selection>) {
    forall i, j :: 0 <= i < j < |sels| ==> KeyAt(sels, i) != KeyAt(sels, j)
  }

  predicate NoRepeats(sels: seq<Selection>) {
    forall i :: 0 <= i < |sels| ==> NoRepeat(TrimAll(sels[i].optionIds))
  }

  lemma DeclaredOnce(groups: seq<Group>, sels: seq<Selection>)
    requires DeclaredOk(groups, sels)
    ensures OncePerGroup(sels) && NoRepeats(sels)
  {
    forall i, j | 0 <= i < j < |sels| ensures KeyAt(sels, i) != KeyAt(sels, j) {
      assert SelectionOk(groups, sels, j);
      assert KeyAt(sels[..j], i) == KeyAt(sels, i);
    }
    forall i | 0 <= i < |sels| ensures NoRepeat(TrimAll(sels[i].optionIds)) {
      assert SelectionOk(groups, sels, i);
    }
  }

  lemma {:induction false} PicksKeys(sels: seq<Selection>)
    ensures Picks(sels).Keys == ChosenKeys(sels)
  {
    if sels != [] {
      var n := |sels| - 1;
      PicksKeys(sels[..n]);
      ChosenNext(sels, n);
      assert sels[..n + 1] == sels;
    }
  }

  lemma OnceFront(sels: seq<Selection>)
    requires OncePerGroup(sels) && sels != []
    ensures OncePerGroup(sels[..|sels| - 1])
  {
    var front := sels[..|sels| - 1];
    assert forall k :: 0 <= k < |front| ==> KeyAt(front, k) == KeyAt(sels, k);
  }

  /** With each group answered once, its picks are those of its one selection. */
  lemma {:induction false} PicksAt(sels: seq<Selection>, i: nat)
    requires OncePerGroup(sels) && i < |sels|
    ensures KeyAt(sels, i) in Picks(sels) && Picks(sels)[KeyAt(sels, i)] == Ids(sels[i])
  {
    var n := |sels| - 1;
    if i < n {
      OnceFront(sels);
      assert KeyAt(sels[..n], i) == KeyAt(sels, i) && KeyAt(sels, i) != KeyAt(sels, n);
      PicksAt(sels[..n], i);
    }
  }

  lemma IdsSorted(sel: Selection)
    requires NoRepeat(TrimAll(sel.optionIds))
    ensures Order.StrictlySorted(Ids(sel), Order.Less)
    ensures forall id :: id in Ids(sel) <==> id in TrimAll(sel.optionIds)
  {
    var ids := TrimAll(sel.optionIds);
    Order.StringOrder();
    forall i, j | 0 <= i < j < |ids| ensures Order.Less(ids[i], ids[j]) || Order.Less(ids[j], ids[i]) {
      Order.LessTotal(ids[i], ids[j]);
    }
    Order.StrictSort(ids, Order.Less);
    Order.SameMembers(Ids(sel), ids);
  }

  /** `Picks` holds exactly the chosen pairs, each group's in strict order. */
  lemma PicksAreChosen(sels: seq<Selection>, key: string)
    requires OncePerGroup(sels) && NoRepeats(sels) && key in Picks(sels)
    ensures Order.StrictlySorted(Picks(sels)[key], Order.Less)
    ensures forall id :: id in Picks(sels)[key] <==> (key, id) in PickPairs(sels)
  {
    PicksKeys(sels);
    var i :| 0 <= i < |sels| && KeyAt(sels, i) == key;
    PicksAt(sels, i);
    IdsSorted(sels[i]);
    var ids := TrimAll(sels[i].optionIds);
    forall id ensures id in Picks(sels)[key] <==> (key, id) in PickPairs(sels) {
      if id in ids {
        var j :| 0 <= j < |ids| && ids[j] == id;
        assert (KeyAt(sels, i), TrimAll(sels[i].optionIds)[j]) in PickPairs(sels);
      }
      if (key, id) in PickPairs(sels) {
        var i', j :| 0 <= i' < |sels| && 0 <= j < |sels[i'].optionIds|
          && (KeyAt(sels, i'), TrimAll(sels[i'].optionIds)[j]) == (key, id);
        assert i' == i;
        assert ids[j] == id;
      }
    }
  }

  lemma PicksByChosen(a: seq<Selection>, b: seq<Selection>)
    requires OncePerGroup(a) && NoRepeats(a) && OncePerGroup(b) && NoRepeats(b)
    requires ChosenOf(a) == ChosenOf(b)
    ensures Picks(a) == Picks(b)
  {
    PicksKeys(a);
    PicksKeys(b);
    Order.StringOrder();
    forall key | key in Picks(a) ensures key in Picks(b) && Picks(a)[key] == Picks(b)[key] {
      assert key in Picks(b).Keys;
      PicksAreChosen(a, key);
      PicksAreChosen(b, key);
      Order.SortedUnique(Picks(a)[key], Picks(b)[key], Order.Less);
    }
    assert Picks(a).Keys == Picks(b).Keys;
  }

  lemma ChosenByPicks(a: seq<Selection>, b: seq<Selection>)
    requires OncePerGroup(a) && NoRepeats(a) && OncePerGroup(b) && NoRepeats(b)
    requires Picks(a) == Picks(b)
    ensures ChosenOf(a) == ChosenOf(b)
  {
    PicksKeys(a);
    PicksKeys(b);
    forall pair: (string, string) ensures pair in PickPairs(a) <==> pair in PickPairs(b) {
      PairKeys(a, pair);
      PairKeys(b, pair);
      if pair.0 in Picks(a) {
        PicksAreChosen(a, pair.0);
        PicksAreChosen(b, pair.0);
      }
    }
  }

  lemma PairKeys(sels: seq<Selection>, pair: (string, string))
    ensures pair in PickPairs(sels) ==> pair.0 in Picks(sels)
  {
    PicksKeys(sels);
  }

  // ----- the stored entries

  lemma EntriesNext(groups: seq<Group>, roster: seq<RosterGroup>, picks: map<string, seq<string>>, key: string)
    requires groups != []
    ensures HasEntry(Entries(groups, roster, picks), key) <==>
      (HasEntry(Entries(groups[..|groups| - 1], roster, picks), key) || (key == groups[|groups| - 1].key && key in picks))
  {
    var front, last := Entries(groups[..|groups| - 1], roster, picks), groups[|groups| - 1].key;
    var all := Entries(groups, roster, picks);
    assert all == front + if last in picks then [Entry(roster, last, picks[last])] else [];
    if HasEntry(front, key) {
      var j :| 0 <= j < |front| && front[j].groupKey == key;
      assert all[j].groupKey == key;
    }
    if key == last && key in picks {
      assert all[|front|].groupKey == key;
    }
  }

  predicate HasEntry(out: seq<Selection>, key: string) {
    exists j :: 0 <= j < |out| && out[j].groupKey == key
  }

  /** The entries are the chosen declared groups, each as it was picked. */
  lemma {:induction false} EntriesExactly(groups: seq<Group>, roster: seq<RosterGroup>, picks: map<string, seq<string>>)
    ensures var out := Entries(groups, roster, picks);
      && (forall key :: HasEntry(out, key) <==> key in Keys(groups) && key in picks)
      && (forall j :: 0 <= j < |out| ==>
            out[j].groupKey in picks && out[j] == Entry(roster, out[j].groupKey, picks[out[j].groupKey]))
  {
    if groups != [] {
      var front := groups[..|groups| - 1];
      EntriesExactly(front, roster, picks);
      var out := Entries(groups, roster, picks);
      forall key ensures HasEntry(out, key) <==> key in Keys(groups) && key in picks {
        EntriesNext(groups, roster, picks, key);
        KeysNext(groups, key);
      }
    }
  }

  lemma KeysNext(groups: seq<Group>, key: string)
    requires groups != []
    ensures key in Keys(groups) <==> key in Keys(groups[..|groups| - 1]) || key == groups[|groups| - 1].key
  {
    var front := groups[..|groups| - 1];
    assert forall i :: 0 <= i < |front| ==> front[i].key == groups[i].key;
  }

  /** The entry of the group at `g`: its picks, and beside every id that id's own caption. */
  ghost predicate EntryAt(groups: seq<Group>, roster: seq<RosterGroup>, picks: map<string, seq<string>>,
                          g: nat, entry: Selection) {
    && g < |groups| && groups[g].key in picks
    && entry.groupKey == groups[g].key && entry.optionIds == picks[groups[g].key]
    && |entry.captions| == |entry.optionIds|
    && forall i :: 0 <= i < |entry.captions| ==> entry.captions[i] == Caption(roster, groups[g].key, entry.optionIds[i])
  }

  lemma EntryLast(groups: seq<Group>, roster: seq<RosterGroup>, picks: map<string, seq<string>>)
    requires groups != [] && groups[|groups| - 1].key in picks
    ensures var key := groups[|groups| - 1].key;
      EntryAt(groups, roster, picks, |groups| - 1, Entry(roster, key, picks[key]))
  {
  }

  lemma EntryKept(groups: seq<Group>, roster: seq<RosterGroup>, picks: map<string, seq<string>>, g: nat, entry: Selection)
    requires groups != [] && EntryAt(groups[..|groups| - 1], roster, picks, g, entry)
    ensures EntryAt(groups, roster, picks, g, entry)
  {
  }

  /** The positions of the chosen groups, in the order of the declaration. */
  function ChosenAt(groups: seq<Group>, picks: map<string, seq<string>>): seq<nat> {
    if groups == [] then [] else
    var n := |groups| - 1;
    ChosenAt(groups[..n], picks) + if groups[n].key in picks then [n] else []
  }

  lemma {:induction false} ChosenAtExactly(groups: seq<Group>, picks: map<string, seq<string>>)
    ensures var at := ChosenAt(groups, picks);
      && (forall j, k :: 0 <= j < k < |at| ==> at[j] < at[k])
      && (forall g: nat :: g in at <==> g < |groups| && groups[g].key in picks)
  {
    if groups != [] {
      var n := |groups| - 1;
      ChosenAtExactly(groups[..n], picks);
      assert forall k :: 0 <= k < |ChosenAt(groups[..n], picks)| ==>
        ChosenAt(groups[..n], picks)[k] in ChosenAt(groups[..n], picks);
    }
  }

  /** Entry by entry they follow the declaration: the `k`-th is that of the `k`-th chosen group. */
  lemma {:induction false} EntriesInOrder(groups: seq<Group>, roster: seq<RosterGroup>, picks: map<string, seq<string>>)
    ensures var out, at := Entries(groups, roster, picks), ChosenAt(groups, picks);
      && |out| == |at|
      && forall k :: 0 <= k < |out| ==> EntryAt(groups, roster, picks, at[k], out[k])
  {
    hide EntryAt, Entry;
    if groups != [] {
      var n := |groups| - 1;
      var front, at := Entries(groups[..n], roster, picks), ChosenAt(groups[..n], picks);
      EntriesInOrder(groups[..n], roster, picks);
      forall k | 0 <= k < |front| ensures EntryAt(groups, roster, picks, at[k], front[k]) {
        EntryKept(groups, roster, picks, at[k], front[k]);
      }
      if groups[n].key in picks {
        EntryLast(groups, roster, picks);
      }
    }
  }

  predicate DistinctEntries(out: seq<Selection>) {
    forall i, j :: 0 <= i < j < |out| ==> out[i].groupKey != out[j].groupKey
  }

  lemma {:induction false} EntriesDistinct(groups: seq<Group>, roster: seq<RosterGroup>, picks: map<string, seq<string>>)
    requires DistinctKeys(groups)
    ensures DistinctEntries(Entries(groups, roster, picks))
  {
    if groups != [] {
      var front := groups[..|groups| - 1];
      EntriesDistinct(front, roster, picks);
      EntriesExactly(front, roster, picks);
      var out, before := Entries(groups, roster, picks), Entries(front, roster, picks);
      forall i, j | 0 <= i < j < |out| ensures out[i].groupKey != out[j].groupKey {
        if j == |before| {
          assert HasEntry(before, before[i].groupKey);
          var k :| 0 <= k < |front| && front[k].key == out[i].groupKey;
          assert groups[k].key == out[i].groupKey;
        }
      }
    }
  }

  /** Equal stored forms come from equal picks of the declared groups. */
  lemma PicksByEntries(groups: seq<Group>, roster: seq<RosterGroup>,
                       p: map<string, seq<string>>, q: map<string, seq<string>>)
    requires Entries(groups, roster, p) == Entries(groups, roster, q)
    requires p.Keys <= Keys(groups) && q.Keys <= Keys(groups)
    ensures p == q
  {
    EntriesExactly(groups, roster, p);
    EntriesExactly(groups, roster, q);
    var out := Entries(groups, roster, p);
    assert forall key :: key in p <==> HasEntry(out, key);
    assert forall key :: key in q <==> HasEntry(out, key);
    forall key | key in p ensures key in q && p[key] == q[key] {
      assert HasEntry(out, key);
      var j :| 0 <= j < |out| && out[j].groupKey == key;
      assert out[j].optionIds == p[key] && out[j].optionIds == q[key];
    }
  }

  // ----- canonical form

  lemma {:induction false} DeclaredMember(groups: seq<Group>, key: string)
    ensures key in Declared(groups) <==> key in Keys(groups)
    ensures key in Declared(groups) ==> Declared(groups)[key] in groups && Declared(groups)[key].key == key
  {
    if groups != [] {
      DeclaredMember(groups[..|groups| - 1], key);
      KeysNext(groups, key);
    }
  }

  lemma ChosenDeclared(groups: seq<Group>, sels: seq<Selection>)
    requires DeclaredOk(groups, sels)
    ensures Picks(sels).Keys <= Keys(groups)
  {
    PicksKeys(sels);
    forall key | key in ChosenKeys(sels) ensures key in Keys(groups) {
      var i :| 0 <= i < |sels| && KeyAt(sels, i) == key;
      assert SelectionOk(groups, sels, i);
      DeclaredMember(groups, key);
    }
  }

  /** Two allowed selections are stored alike exactly when they answer the same groups with the same
      picks: their order, the order of their ids, white space and any captions they carry do not show. */
  lemma CanonicalExactly(groups: seq<Group>, roster: seq<RosterGroup>, a: seq<Selection>, b: seq<Selection>)
    requires DeclaredOk(groups, a) && DeclaredOk(groups, b)
    ensures Resolved(groups, roster, a) == Resolved(groups, roster, b) <==> ChosenOf(a) == ChosenOf(b)
  {
    DeclaredOnce(groups, a);
    DeclaredOnce(groups, b);
    ChosenDeclared(groups, a);
    ChosenDeclared(groups, b);
    if ChosenOf(a) == ChosenOf(b) {
      PicksByChosen(a, b);
    }
    if Resolved(groups, roster, a) == Resolved(groups, roster, b) {
      PicksByEntries(groups, roster, Picks(a), Picks(b));
      ChosenByPicks(a, b);
    }
  }

  // ----- reordering

  /** One selection without the order of its ids, its captions or stray white space. */
  function Shape(sel: Selection): (string, multiset<string>) {
    (Trim(sel.groupKey), multiset(TrimAll(sel.optionIds)))
  }

  function Shapes(sels: seq<Selection>): (r: seq<(string, multiset<string>)>)
    ensures |r| == |sels|
  {
    seq(|sels|, i requires 0 <= i < |sels| => Shape(sels[i]))
  }

  /** `b` is `a` with its selections and their ids in another order, under other captions. */
  predicate Reordered(a: seq<Selection>, b: seq<Selection>) {
    multiset(Shapes(a)) == multiset(Shapes(b))
  }

  lemma Counterpart(a: seq<Selection>, b: seq<Selection>, j: nat) returns (i: nat)
    requires Reordered(a, b) && j < |b|
    ensures i < |a| && Shape(a[i]) == Shape(b[j])
  {
    assert Shapes(b)[j] in multiset(Shapes(b));
    assert Shapes(b)[j] in multiset(Shapes(a));
    i :| 0 <= i < |a| && Shapes(a)[i] == Shapes(b)[j];
  }

  lemma SameIds(xs: seq<string>, ys: seq<string>)
    requires multiset(xs) == multiset(ys)
    ensures |xs| == |ys| && forall id :: id in xs <==> id in ys
    ensures NoRepeat(xs) ==> NoRepeat(ys)
  {
    Order.SameMembers(xs, ys);
    assert |multiset(xs)| == |xs| && |multiset(ys)| == |ys|;
    if NoRepeat(xs) {
      Order.StringOrder();
      forall i, j | 0 <= i < j < |xs| ensures Order.Less(xs[i], xs[j]) || Order.Less(xs[j], xs[i]) {
        Order.LessTotal(xs[i], xs[j]);
      }
      Order.DistinctByMultiset(xs, ys, Order.Less);
      forall i, j | 0 <= i < j < |ys| ensures ys[i] != ys[j] {
        Order.LessIrreflexive(ys[i]);
      }
    }
  }

  lemma ReorderedOnce(a: seq<Selection>, b: seq<Selection>)
    requires Reordered(a, b) && OncePerGroup(a)
    ensures OncePerGroup(b)
  {
    forall i, j | 0 <= i < j < |b| ensures KeyAt(b, i) != KeyAt(b, j) {
      var i' := Counterpart(a, b, i);
      var j' := Counterpart(a, b, j);
      Order.Pair(Shapes(b), i, j);
      OnceShape(a, Shapes(b)[i]);
      OnceAt(a, i', j');
    }
  }

  lemma OnceAt(sels: seq<Selection>, i: nat, j: nat)
    requires OncePerGroup(sels) && i < |sels| && j < |sels|
    ensures KeyAt(sels, i) == KeyAt(sels, j) ==> i == j
  {
    assert i < j ==> KeyAt(sels, i) != KeyAt(sels, j);
    assert j < i ==> KeyAt(sels, j) != KeyAt(sels, i);
  }

  lemma OnceShape(sels: seq<Selection>, shape: (string, multiset<string>))
    requires OncePerGroup(sels)
    ensures multiset(Shapes(sels))[shape] <= 1
  {
    assert forall k :: 0 <= k < |sels| ==> Shapes(sels)[k].0 == KeyAt(sels, k);
    if multiset(Shapes(sels))[shape] >= 2 {
      var k, l := Order.Twice(Shapes(sels), shape);
      assert false;
    }
  }

  lemma ReorderedSize(a: seq<Selection>, b: seq<Selection>)
    requires Reordered(a, b)
    ensures |a| == |b|
  {
    assert |multiset(Shapes(a))| == |Shapes(a)| && |multiset(Shapes(b))| == |Shapes(b)|;
  }

  lemma ReorderedChosen(a: seq<Selection>, b: seq<Selection>)
    requires Reordered(a, b)
    ensures ChosenKeys(b) <= ChosenKeys(a) && PickPairs(b) <= PickPairs(a)
  {
    forall key | key in ChosenKeys(b) ensures key in ChosenKeys(a) {
      var j :| 0 <= j < |b| && KeyAt(b, j) == key;
      var i := Counterpart(a, b, j);
      assert KeyAt(a, i) == key;
    }
    forall pair | pair in PickPairs(b) ensures pair in PickPairs(a) {
      var j, k :| 0 <= j < |b| && 0 <= k < |b[j].optionIds| && (KeyAt(b, j), TrimAll(b[j].optionIds)[k]) == pair;
      var i := Counterpart(a, b, j);
      SameIds(TrimAll(a[i].optionIds), TrimAll(b[j].optionIds));
      assert pair.1 in TrimAll(b[j].optionIds);
      var l :| 0 <= l < |TrimAll(a[i].optionIds)| && TrimAll(a[i].optionIds)[l] == pair.1;
      assert (KeyAt(a, i), TrimAll(a[i].optionIds)[l]) == pair;
    }
  }

  lemma ReorderedDeclared(groups: seq<Group>, a: seq<Selection>, b: seq<Selection>)
    requires Reordered(a, b) && DeclaredOk(groups, a)
    ensures DeclaredOk(groups, b)
  {
    DeclaredOnce(groups, a);
    ReorderedOnce(a, b);
    ReorderedChosen(b, a);
    ReorderedSize(a, b);
    if groups != [] {
      forall j | 0 <= j < |b| ensures SelectionOk(groups, b, j) {
        var i := Counterpart(a, b, j);
        assert SelectionOk(groups, a, i);
        SameIds(TrimAll(a[i].optionIds), TrimAll(b[j].optionIds));
        Earlier(b, j);
      }
    }
  }

  lemma Earlier(sels: seq<Selection>, i: nat)
    requires OncePerGroup(sels) && i < |sels|
    ensures KeyAt(sels, i) !in ChosenKeys(sels[..i])
  {
    assert forall k :: 0 <= k < i ==> KeyAt(sels[..i], k) == KeyAt(sels, k);
  }

  /** Reordering selections or their ids and relabelling them changes neither that they are allowed nor
      how they are stored. */
  lemma ReorderedAlike(groups: seq<Group>, roster: seq<RosterGroup>, a: seq<Selection>, b: seq<Selection>)
    requires Reordered(a, b) && DeclaredOk(groups, a)
    ensures DeclaredOk(groups, b) && Resolved(groups, roster, a) == Resolved(groups, roster, b)
  {
    ReorderedDeclared(groups, a, b);
    ReorderedChosen(a, b);
    ReorderedChosen(b, a);
    CanonicalExactly(groups, roster, a, b);
  }

  // ----- the stored form is itself a selection

  lemma TrimmedIds(sel: Selection, i: nat)
    requires i < |Ids(sel)|
    ensures Trim(Ids(sel)[i]) == Ids(sel)[i]
  {
    var ids := TrimAll(sel.optionIds);
    Order.SortPermutes(ids, Order.Less);
    Order.SameMembers(Ids(sel), ids);
    assert Ids(sel)[i] in Ids(sel);
    var k :| 0 <= k < |ids| && ids[k] == Ids(sel)[i];
    TrimTwice(sel.optionIds[k]);
  }

  /** One stored entry, against the selection it came from. */
  lemma EntryOf(groups: seq<Group>, roster: seq<RosterGroup>, sels: seq<Selection>, j: nat) returns (i: nat)
    requires WellFormed(groups) && DeclaredOk(groups, sels) && j < |Resolved(groups, roster, sels)|
    ensures var e := Resolved(groups, roster, sels)[j];
      && i < |sels| && KeyAt(sels, i) == e.groupKey && Trim(e.groupKey) == e.groupKey
      && e.optionIds == Ids(sels[i]) && TrimAll(e.optionIds) == e.optionIds && |e.optionIds| == |sels[i].optionIds|
      && NoRepeat(TrimAll(sels[i].optionIds))
  {
    DeclaredOnce(groups, sels);
    EntriesExactly(groups, roster, Picks(sels));
    PicksKeys(sels);
    var out := Resolved(groups, roster, sels);
    var key := out[j].groupKey;
    assert HasEntry(out, key);
    var k :| 0 <= k < |groups| && groups[k].key == key;
    i :| 0 <= i < |sels| && KeyAt(sels, i) == key;
    PicksAt(sels, i);
    assert out[j].optionIds == Ids(sels[i]);
    forall n | 0 <= n < |Ids(sels[i])| ensures TrimAll(Ids(sels[i]))[n] == Ids(sels[i])[n] {
      TrimmedIds(sels[i], n);
    }
    assert TrimAll(Ids(sels[i])) == Ids(sels[i]);
  }

  lemma ResolvedOnce(groups: seq<Group>, roster: seq<RosterGroup>, sels: seq<Selection>)
    requires WellFormed(groups) && DeclaredOk(groups, sels)
    ensures OncePerGroup(Resolved(groups, roster, sels))
  {
    var out := Resolved(groups, roster, sels);
    EntriesDistinct(groups, roster, Picks(sels));
    assert DistinctEntries(out);
    forall i, j | 0 <= i < j < |out| ensures KeyAt(out, i) != KeyAt(out, j) {
      assert out[i].groupKey != out[j].groupKey;
      var i' := EntryOf(groups, roster, sels, i);
      var j' := EntryOf(groups, roster, sels, j);
      assert KeyAt(out, i) == out[i].groupKey && KeyAt(out, j) == out[j].groupKey;
    }
  }

  /** Every answered group has an entry. */
  lemma EntryFor(groups: seq<Group>, roster: seq<RosterGroup>, sels: seq<Selection>, key: string) returns (j: nat)
    requires WellFormed(groups) && DeclaredOk(groups, sels) && key in ChosenKeys(sels)
    ensures var out := Resolved(groups, roster, sels);
      j < |out| && KeyAt(out, j) == key && key in Picks(sels) && TrimAll(out[j].optionIds) == Picks(sels)[key]
  {
    var out := Resolved(groups, roster, sels);
    EntriesExactly(groups, roster, Picks(sels));
    ChosenDeclared(groups, sels);
    PicksKeys(sels);
    DeclaredOnce(groups, sels);
    assert HasEntry(out, key);
    j :| 0 <= j < |out| && out[j].groupKey == key;
    var i := EntryOf(groups, roster, sels, j);
    PicksAt(sels, i);
  }

  lemma ResolvedKeys(groups: seq<Group>, roster: seq<RosterGroup>, sels: seq<Selection>)
    requires WellFormed(groups) && DeclaredOk(groups, sels)
    ensures ChosenKeys(Resolved(groups, roster, sels)) == ChosenKeys(sels)
  {
    var out := Resolved(groups, roster, sels);
    forall key | key in ChosenKeys(out) ensures key in ChosenKeys(sels) {
      var j :| 0 <= j < |out| && KeyAt(out, j) == key;
      var i := EntryOf(groups, roster, sels, j);
      assert KeyAt(sels, i) == key;
    }
    forall key | key in ChosenKeys(sels) ensures key in ChosenKeys(out) {
      var j := EntryFor(groups, roster, sels, key);
      assert KeyAt(out, j) == key;
    }
  }

  lemma ResolvedPairs(groups: seq<Group>, roster: seq<RosterGroup>, sels: seq<Selection>, pair: (string, string))
    requires WellFormed(groups) && DeclaredOk(groups, sels)
    ensures pair in PickPairs(Resolved(groups, roster, sels)) <==> pair in PickPairs(sels)
  {
    var out := Resolved(groups, roster, sels);
    DeclaredOnce(groups, sels);
    ResolvedOnce(groups, roster, sels);
    PicksKeys(sels);
    if pair.0 in ChosenKeys(sels) {
      var j := EntryFor(groups, roster, sels, pair.0);
      PicksAreChosen(sels, pair.0);
      PairsOf(out, j, pair);
    } else {
      PairKeys(sels, pair);
      ResolvedKeys(groups, roster, sels);
      PicksKeys(out);
      PairKeys(out, pair);
    }
  }

  lemma PairsOf(sels: seq<Selection>, j: nat, pair: (string, string))
    requires OncePerGroup(sels) && j < |sels| && KeyAt(sels, j) == pair.0
    ensures pair in PickPairs(sels) <==> pair.1 in TrimAll(sels[j].optionIds)
  {
    if pair.1 in TrimAll(sels[j].optionIds) {
      var n :| 0 <= n < |sels[j].optionIds| && TrimAll(sels[j].optionIds)[n] == pair.1;
      assert (KeyAt(sels, j), TrimAll(sels[j].optionIds)[n]) == pair;
    }
    if pair in PickPairs(sels) {
      var i, n :| 0 <= i < |sels| && 0 <= n < |sels[i].optionIds|
        && (KeyAt(sels, i), TrimAll(sels[i].optionIds)[n]) == pair;
      assert i == j;
    }
  }

  /** The stored form answers the same groups with the same picks. */
  lemma ResolvedKeepsPicks(groups: seq<Group>, roster: seq<RosterGroup>, sels: seq<Selection>)
    requires WellFormed(groups) && DeclaredOk(groups, sels)
    ensures ChosenOf(Resolved(groups, roster, sels)) == ChosenOf(sels)
  {
    ResolvedKeys(groups, roster, sels);
    forall pair: (string, string)
      ensures pair in PickPairs(Resolved(groups, roster, sels)) <==> pair in PickPairs(sels)
    {
      ResolvedPairs(groups, roster, sels, pair);
    }
  }

  lemma ResolvedDeclared(groups: seq<Group>, roster: seq<RosterGroup>, sels: seq<Selection>)
    requires WellFormed(groups) && DeclaredOk(groups, sels)
    ensures DeclaredOk(groups, Resolved(groups, roster, sels))
  {
    var out := Resolved(groups, roster, sels);
    if groups != [] {
      ResolvedOnce(groups, roster, sels);
      ResolvedKeepsPicks(groups, roster, sels);
      forall j | 0 <= j < |out| ensures SelectionOk(groups, out, j) {
        var i := EntryOf(groups, roster, sels, j);
        assert SelectionOk(groups, sels, i);
        Earlier(out, j);
        Order.SortPermutes(TrimAll(sels[i].optionIds), Order.Less);
        SameIds(TrimAll(sels[i].optionIds), Ids(sels[i]));
      }
      assert ChosenKeys(out) == ChosenKeys(sels);
    }
  }

  /** What `Resolve` stores passes both validations again whenever the request did, and resolving it
      once more, as the store may, changes nothing. */
  lemma ResolvedValid(groups: seq<Group>, roster: seq<RosterGroup>, sels: seq<Selection>)
    requires WellFormed(groups) && ValidOk(groups, roster, sels)
    ensures var out := Resolved(groups, roster, sels);
      && DeclaredOk(groups, out) && ValidOk(groups, roster, out)
      && Resolved(groups, roster, out) == out
  {
    var out := Resolved(groups, roster, sels);
    ResolvedDeclared(groups, roster, sels);
    forall j | 0 <= j < |out| ensures Served(roster, out, j) {
      var i := EntryOf(groups, roster, sels, j);
      assert Served(roster, sels, i);
      IdsSorted(sels[i]);
      forall n | 0 <= n < |out[j].optionIds|
        ensures InReach(Offered(roster)[KeyAt(out, j)], TrimAll(out[j].optionIds)[n])
      {
        assert out[j].optionIds[n] in Ids(sels[i]);
        var m :| 0 <= m < |sels[i].optionIds| && TrimAll(sels[i].optionIds)[m] == out[j].optionIds[n];
      }
    }
    ResolvedKeepsPicks(groups, roster, sels);
    CanonicalExactly(groups, roster, out, sels);
  }

  /** Picking nothing in an optional group and not naming it are the same picks, both allowed, and are
      stored differently. */
  lemma EmptyPickShows(g: Group, served: RosterGroup)
    requires WellFormedGroup(g) && g.min == 0 && served.key == g.key
    ensures var named := [Selection(g.key, [], [])];
      && ValidOk([g], [served], []) && ValidOk([g], [served], named)
      && PickPairs([]) == PickPairs(named)
      && Resolved([g], [served], []) != Resolved([g], [served], named)
  {
    var named := [Selection(g.key, [], [])];
    assert [g][..0] == [] && [served][..0] == [] && named[..0] == [];
    assert Declared([g]) == map[g.key := g];
    assert Offered([served]) == map[g.key := ById(served.choices)];
    assert SelectionOk([g], named, 0);
    assert KeyAt(named, 0) == g.key;
    assert g.key in ChosenKeys(named) && g.key !in ChosenKeys([]);
    CanonicalExactly([g], [served], [], named);
  }
}
