/** Pre-queue declarations and selections: reading a mode's groups, validating what a player picked
    against them, and the one form in which a selection is stored. */
module PreQueue {
  import opened Common
  import Order

  // ----- trimming

  /** White space as Unicode's property of that name has it. */
  predicate IsSpace(c: char) {
    var n := c as int;
    || 9 <= n <= 13 || n == 32 || n == 0x85 || n == 0xA0 || n == 0x1680 || 0x2000 <= n <= 0x200A
    || n == 0x2028 || n == 0x2029 || n == 0x202F || n == 0x205F || n == 0x3000
  }

  function Trim(s: string): (r: string)
    ensures |r| <= |s|
    ensures r != "" ==> !IsSpace(r[0]) && !IsSpace(r[|r| - 1])
  {
    if s == "" then "" else
    if IsSpace(s[0]) then Trim(s[1..]) else
    if IsSpace(s[|s| - 1]) then Trim(s[..|s| - 1]) else s
  }

  lemma TrimTwice(s: string)
    ensures Trim(Trim(s)) == Trim(s)
  {
  }

  ghost predicate AllSpace(s: string) {
    forall i :: 0 <= i < |s| ==> IsSpace(s[i])
  }

  /** Trimming takes white space off the two ends and nothing else. */
  lemma {:induction false} TrimExactly(s: string) returns (left: string, right: string)
    ensures s == left + Trim(s) + right && AllSpace(left) && AllSpace(right)
    decreases |s|
  {
    hide Trim, IsSpace, AllSpace;
    TrimNext(s);
    var n := |s| - 1;
    if s != "" && IsSpace(s[0]) {
      left, right := TrimExactly(s[1..]);
      SpaceMore(left, s[0]);
      assert s == [s[0]] + s[1..];
      left := [s[0]] + left;
    } else if s != "" && IsSpace(s[n]) {
      left, right := TrimExactly(s[..n]);
      SpaceMore(right, s[n]);
      assert s == s[..n] + [s[n]];
      right := right + [s[n]];
    } else {
      left, right := "", "";
      assert s == left + s + right;
      NoSpace();
    }
  }

  lemma TrimNext(s: string)
    ensures Trim(s) ==
      if s == "" then "" else
      if IsSpace(s[0]) then Trim(s[1..]) else
      if IsSpace(s[|s| - 1]) then Trim(s[..|s| - 1]) else s
  {
  }

  lemma SpaceMore(s: string, c: char)
    requires AllSpace(s) && IsSpace(c)
    ensures AllSpace([c] + s) && AllSpace(s + [c])
  {
  }

  lemma NoSpace()
    ensures AllSpace("")
  {
  }

  function TrimAll(ids: seq<string>): (r: seq<string>)
    ensures |r| == |ids|
  {
    seq(|ids|, i requires 0 <= i < |ids| => Trim(ids[i]))
  }

  // ----- declarations

  datatype Group = Group(key: string, kind: string, title: string, min: int, max: int)

  const KINDS := {"Character", "Loadout", "Deck"}

  /** A manifest's block as JSON decoding leaves it. */
  datatype Block = Absent | Undecodable | Decoded(groups: seq<Group>)

  datatype Fault =
    KeyRequired | DuplicateKey | UnknownKind | LabelRequired | NegativeMin | MaxBelowOne | MaxBelowMin

  datatype DeclarationError = Undecoded | NoGroups | BadGroup(at: nat, fault: Fault)

  /** Keys and labels are trimmed, and a group without bounds takes exactly one pick. */
  function Normal(g: Group): Group {
    var g := g.(key := Trim(g.key), title := Trim(g.title));
    if g.min == 0 && g.max == 0 then g.(min := 1, max := 1) else g
  }

  /** A group without bounds takes exactly one pick; one with a bound takes what that says; and nothing
      but its key and title lose anything. */
  lemma BoundsOfNormal(g: Group, n: nat)
    ensures var t := Normal(g);
      && (t.min <= n <= t.max <==> if g.min == g.max == 0 then n == 1 else g.min <= n <= g.max)
      && t.kind == g.kind && t.key == Trim(g.key) && t.title == Trim(g.title)
  {
  }

  function Normals(groups: seq<Group>): (r: seq<Group>)
    ensures |r| == |groups|
  {
    seq(|groups|, i requires 0 <= i < |groups| => Normal(groups[i]))
  }

  /** What every later reader of a declaration relies on in each group. */
  predicate WellFormedGroup(g: Group) {
    && g.key != "" && Trim(g.key) == g.key && g.kind in KINDS
    && g.title != "" && Trim(g.title) == g.title
    && 0 <= g.min <= g.max && 1 <= g.max
  }

  predicate DistinctKeys(groups: seq<Group>) {
    forall i, j :: 0 <= i < j < |groups| ==> groups[i].key != groups[j].key
  }

  predicate WellFormed(groups: seq<Group>) {
    && (forall i :: 0 <= i < |groups| ==> WellFormedGroup(groups[i]))
    && DistinctKeys(groups)
  }

  function Keys(groups: seq<Group>): set<string> {
    set i | 0 <= i < |groups| :: groups[i].key
  }

  /** `fault` is true of a normalised group that follows groups with the keys `taken`. */
  predicate Has(g: Group, taken: set<string>, fault: Fault) {
    match fault
    case KeyRequired => g.key == ""
    case DuplicateKey => g.key in taken
    case UnknownKind => g.kind !in KINDS
    case LabelRequired => g.title == ""
    case NegativeMin => g.min < 0
    case MaxBelowOne => g.max < 1
    case MaxBelowMin => g.max < g.min
  }

  /** `at` is the first group at fault, and `fault` is true of it. */
  predicate Faulty(groups: seq<Group>, at: nat, fault: Fault) {
    && at < |groups| && WellFormed(Normals(groups[..at]))
    && Has(Normal(groups[at]), Keys(Normals(groups[..at])), fault)
  }

  lemma NormalsNext(groups: seq<Group>, i: nat)
    requires i < |groups|
    ensures Normals(groups[..i + 1]) == Normals(groups[..i]) + [Normal(groups[i])]
    ensures Keys(Normals(groups[..i + 1])) == Keys(Normals(groups[..i])) + {Normal(groups[i]).key}
  {
    var before, g := Normals(groups[..i]), Normal(groups[i]);
    assert Normals(groups[..i + 1]) == before + [g];
    forall key | key in Keys(before) ensures key in Keys(before + [g]) {
      var k :| 0 <= k < i && before[k].key == key;
      assert (before + [g])[k].key == key;
    }
    assert (before + [g])[i].key == g.key;
  }

  /** A fault anywhere spoils the whole declaration. */
  lemma FaultySpoils(groups: seq<Group>, at: nat, fault: Fault)
    requires Faulty(groups, at, fault)
    ensures !WellFormed(Normals(groups))
  {
    assert Normals(groups)[at] == Normal(groups[at]);
    if fault.DuplicateKey? {
      var i :| 0 <= i < at && Normals(groups[..at])[i].key == Normal(groups[at]).key;
      assert Normals(groups)[i] == Normals(groups[..at])[i];
    }
  }

  lemma WellFormedNext(groups: seq<Group>, i: nat)
    requires i < |groups| && WellFormed(Normals(groups[..i]))
    requires WellFormedGroup(Normal(groups[i])) && Normal(groups[i]).key !in Keys(Normals(groups[..i]))
    ensures WellFormed(Normals(groups[..i + 1]))
  {
    NormalsNext(groups, i);
  }

  /** One group's turn: normalised and checked. */
  method ReadGroup(raw: Group, seen: set<string>) returns (r: Result<Group, Fault>)
    ensures r.Ok? ==> r.value == Normal(raw) && WellFormedGroup(r.value) && r.value.key !in seen
    ensures r.Err? ==> Has(Normal(raw), seen, r.error)
  {
    var g := raw.(key := Trim(raw.key));
    g := g.(title := Trim(g.title));
    TrimTwice(raw.key);
    TrimTwice(raw.title);
    if g.key == "" {
      return Err(KeyRequired);
    }
    if g.key in seen {
      return Err(DuplicateKey);
    }
    if g.kind !in KINDS {
      return Err(UnknownKind);
    }
    if g.title == "" {
      return Err(LabelRequired);
    }
    if g.min == 0 && g.max == 0 {
      g := g.(min := 1, max := 1);
    }
    if g.min < 0 {
      return Err(NegativeMin);
    }
    if g.max < 1 {
      return Err(MaxBelowOne);
    }
    if g.max < g.min {
      return Err(MaxBelowMin);
    }
    return Ok(g);
  }

  /** Accepts a block exactly when its normalised groups are well formed, and returns those; a mode
      without a block has no declaration, and an error names the first group at fault and why. */
  method Parse(raw: Block) returns (r: Result<Option<seq<Group>>, DeclarationError>)
    ensures raw.Absent? ==> r == Ok(None)
    ensures raw.Undecodable? ==> r == Err(Undecoded)
    ensures raw.Decoded? && raw.groups == [] ==> r == Err(NoGroups)
    ensures raw.Decoded? && raw.groups != [] ==> (r.Ok? <==> WellFormed(Normals(raw.groups)))
    ensures raw.Decoded? && r.Ok? ==> r.value == Some(Normals(raw.groups))
    ensures raw.Decoded? && raw.groups != [] && r.Err? ==>
      r.error.BadGroup? && Faulty(raw.groups, r.error.at, r.error.fault)
  {
    if raw.Absent? {
      return Ok(None);
    }
    if raw.Undecodable? {
      return Err(Undecoded);
    }
    if raw.groups == [] {
      return Err(NoGroups);
    }
    var groups := raw.groups;
    var seen: set<string> := {};
    for i := 0 to |groups|
      invariant |groups| == |raw.groups|
      invariant groups[..i] == Normals(raw.groups[..i])
      invariant forall j :: i <= j < |groups| ==> groups[j] == raw.groups[j]
      invariant WellFormed(Normals(raw.groups[..i]))
      invariant seen == Keys(Normals(raw.groups[..i]))
    {
      var g := ReadGroup(groups[i], seen);
      if g.Err? {
        FaultySpoils(raw.groups, i, g.error);
        return Err(BadGroup(i, g.error));
      }
      WellFormedNext(raw.groups, i);
      NormalsNext(raw.groups, i);
      seen := seen + {g.value.key};
      assert groups[i := g.value][..i + 1] == groups[..i] + [g.value];
      groups := groups[i := g.value];
    }
    assert raw.groups[..|groups|] == raw.groups && groups[..|groups|] == groups;
    return Ok(Some(groups));
  }

  /** Reading a declaration that was read before changes nothing. */
  lemma NormalsOfWellFormed(groups: seq<Group>)
    requires WellFormed(groups)
    ensures Normals(groups) == groups
  {
  }

  // ----- selections

  datatype Choice = Choice(id: string, title: string, locked: bool)

  datatype RosterGroup = RosterGroup(key: string, choices: seq<Choice>)

  /** `captions` are the names a selection is stored with; in a request they are whatever a client sent. */
  datatype Selection = Selection(groupKey: string, optionIds: seq<string>, captions: seq<string>)

  /** Why a selection is refused: `at` is a selection, `pick` one of its ids. */
  datatype Refusal =
    | NoOptions
    | UnknownGroup(at: nat)
    | ChosenTwice(at: nat)
    | WrongCount(at: nat)
    | PickedTwice(at: nat, pick: nat)
    | GroupRequired(group: nat)
    | NotServed(at: nat)
    | NotOffered(at: nat, pick: nat)
    | OutOfReach(at: nat, pick: nat)

  /** Groups by key; of groups with one key the last counts. */
  function Declared(groups: seq<Group>): map<string, Group> {
    if groups == [] then map[] else
    var last := groups[|groups| - 1];
    Declared(groups[..|groups| - 1])[last.key := last]
  }

  function KeyAt(sels: seq<Selection>, i: nat): string
    requires i < |sels|
  {
    Trim(sels[i].groupKey)
  }

  function ChosenKeys(sels: seq<Selection>): set<string> {
    set i | 0 <= i < |sels| :: KeyAt(sels, i)
  }

  predicate NoRepeat(ids: seq<string>) {
    forall i, j :: 0 <= i < j < |ids| ==> ids[i] != ids[j]
  }

  /** `pick` is the first place where an id appears a second time. */
  predicate FirstTwice(ids: seq<string>, pick: nat) {
    pick < |ids| && NoRepeat(ids[..pick]) && exists j :: 0 <= j < pick && ids[j] == ids[pick]
  }

  /** As many picks as the group takes. */
  predicate Counts(groups: seq<Group>, sels: seq<Selection>, i: nat)
    requires i < |sels| && KeyAt(sels, i) in Declared(groups)
  {
    Declared(groups)[KeyAt(sels, i)].min <= |sels[i].optionIds| <= Declared(groups)[KeyAt(sels, i)].max
  }

  /** A declared group not chosen before, and as many different ids as it takes. */
  predicate SelectionOk(groups: seq<Group>, sels: seq<Selection>, i: nat)
    requires i < |sels|
  {
    && KeyAt(sels, i) in Declared(groups)
    && KeyAt(sels, i) !in ChosenKeys(sels[..i])
    && Counts(groups, sels, i)
    && NoRepeat(TrimAll(sels[i].optionIds))
  }

  predicate DeclaredOk(groups: seq<Group>, sels: seq<Selection>) {
    if groups == [] then sels == [] else
    && (forall i :: 0 <= i < |sels| ==> SelectionOk(groups, sels, i))
    && (forall k :: 0 <= k < |groups| ==> groups[k].key in ChosenKeys(sels) || groups[k].min == 0)
  }

  /** The refusal is true, and the first there is about its selection or group. */
  predicate Refuses(groups: seq<Group>, sels: seq<Selection>, e: Refusal) {
    match e
    case NoOptions => groups == [] && sels != []
    case UnknownGroup(at) => at < |sels| && KeyAt(sels, at) !in Declared(groups)
    case ChosenTwice(at) =>
      at < |sels| && KeyAt(sels, at) in Declared(groups) && KeyAt(sels, at) in ChosenKeys(sels[..at])
    case WrongCount(at) =>
      && at < |sels| && KeyAt(sels, at) in Declared(groups) && KeyAt(sels, at) !in ChosenKeys(sels[..at])
      && !Counts(groups, sels, at)
    case PickedTwice(at, pick) =>
      && at < |sels| && KeyAt(sels, at) in Declared(groups) && KeyAt(sels, at) !in ChosenKeys(sels[..at])
      && Counts(groups, sels, at) && FirstTwice(TrimAll(sels[at].optionIds), pick)
    case GroupRequired(k) =>
      && k < |groups| && groups[k].key !in ChosenKeys(sels) && groups[k].min != 0
      && forall j :: 0 <= j < k ==> groups[j].key in ChosenKeys(sels) || groups[j].min == 0
    case _ => false
  }

  /** Every selection before the refused one was in order. */
  predicate InOrderBefore(groups: seq<Group>, sels: seq<Selection>, e: Refusal) {
    match e
    case NoOptions => true
    case GroupRequired(_) => forall i :: 0 <= i < |sels| ==> SelectionOk(groups, sels, i)
    case _ => forall i :: 0 <= i < e.at && i < |sels| ==> SelectionOk(groups, sels, i)
  }

  lemma RefusedFails(groups: seq<Group>, sels: seq<Selection>, e: Refusal)
    requires Refuses(groups, sels, e)
    ensures !DeclaredOk(groups, sels)
  {
    if groups != [] && !e.GroupRequired? && !e.NoOptions? {
      assert !SelectionOk(groups, sels, e.at);
    }
  }

  method IndexGroups(groups: seq<Group>) returns (declared: map<string, Group>)
    ensures declared == Declared(groups)
  {
    declared := map[];
    for i := 0 to |groups|
      invariant declared == Declared(groups[..i])
    {
      assert groups[..i + 1][..i] == groups[..i];
      declared := declared[groups[i].key := groups[i]];
    }
    assert groups[..|groups|] == groups;
  }

  /** The first id picked a second time. */
  method FirstRepeat(ids: seq<string>) returns (r: Option<nat>)
    ensures r.None? <==> NoRepeat(TrimAll(ids))
    ensures r.Some? ==> FirstTwice(TrimAll(ids), r.value)
  {
    var seen: set<string> := {};
    for i := 0 to |ids|
      invariant forall id :: id in seen <==> exists j :: 0 <= j < i && TrimAll(ids)[j] == id
      invariant NoRepeat(TrimAll(ids)[..i])
    {
      var id := Trim(ids[i]);
      assert TrimAll(ids)[i] == id;
      if id in seen {
        return Some(i);
      }
      seen := seen + {id};
    }
    assert TrimAll(ids)[..|ids|] == TrimAll(ids);
    return None;
  }

  lemma ChosenNext(sels: seq<Selection>, i: nat)
    requires i < |sels|
    ensures ChosenKeys(sels[..i + 1]) == ChosenKeys(sels[..i]) + {KeyAt(sels, i)}
  {
    forall key | key in ChosenKeys(sels[..i]) ensures key in ChosenKeys(sels[..i + 1]) {
      var k :| 0 <= k < i && KeyAt(sels[..i], k) == key;
      assert KeyAt(sels[..i + 1], k) == key;
    }
    forall key | key in ChosenKeys(sels[..i + 1]) ensures key in ChosenKeys(sels[..i]) + {KeyAt(sels, i)} {
      var k :| 0 <= k < i + 1 && KeyAt(sels[..i + 1], k) == key;
      assert k < i ==> KeyAt(sels[..i], k) == key;
    }
    assert KeyAt(sels[..i + 1], i) == KeyAt(sels, i);
  }

  /** Accepts exactly what the declaration allows, and refuses for the first reason there is. */
  method ValidateDeclared(groups: seq<Group>, sels: seq<Selection>) returns (r: Option<Refusal>)
    ensures r.None? <==> DeclaredOk(groups, sels)
    ensures r.Some? ==> Refuses(groups, sels, r.value) && InOrderBefore(groups, sels, r.value)
  {
    if groups == [] {
      return if sels == [] then None else Some(NoOptions);
    }
    var declared := IndexGroups(groups);
    var chosen: set<string> := {};
    for i := 0 to |sels|
      invariant chosen == ChosenKeys(sels[..i])
      invariant forall j :: 0 <= j < i ==> SelectionOk(groups, sels, j)
    {
      var refusal: Option<Refusal> := None;
      var key := Trim(sels[i].groupKey);
      if key !in declared {
        refusal := Some(UnknownGroup(i));
      } else if key in chosen {
        refusal := Some(ChosenTwice(i));
      } else if |sels[i].optionIds| < declared[key].min || |sels[i].optionIds| > declared[key].max {
        refusal := Some(WrongCount(i));
      } else {
        var twice := FirstRepeat(sels[i].optionIds);
        if twice.Some? {
          refusal := Some(PickedTwice(i, twice.value));
        }
      }
      if refusal.Some? {
        RefusedFails(groups, sels, refusal.value);
        return refusal;
      }
      ChosenNext(sels, i);
      chosen := chosen + {key};
    }
    assert sels[..|sels|] == sels;
    for k := 0 to |groups|
      invariant forall j :: 0 <= j < k ==> groups[j].key in chosen || groups[j].min == 0
    {
      if groups[k].key !in chosen && groups[k].min != 0 {
        RefusedFails(groups, sels, GroupRequired(k));
        return Some(GroupRequired(k));
      }
    }
    return None;
  }

  // ----- the roster

  function ById(choices: seq<Choice>): map<string, Choice> {
    if choices == [] then map[] else
    var last := choices[|choices| - 1];
    ById(choices[..|choices| - 1])[last.id := last]
  }

  function Offered(roster: seq<RosterGroup>): map<string, map<string, Choice>> {
    if roster == [] then map[] else
    var last := roster[|roster| - 1];
    Offered(roster[..|roster| - 1])[last.key := ById(last.choices)]
  }

  method IndexChoices(choices: seq<Choice>) returns (byId: map<string, Choice>)
    ensures byId == ById(choices)
  {
    byId := map[];
    for i := 0 to |choices|
      invariant byId == ById(choices[..i])
    {
      assert choices[..i + 1][..i] == choices[..i];
      byId := byId[choices[i].id := choices[i]];
    }
    assert choices[..|choices|] == choices;
  }

  method IndexRoster(roster: seq<RosterGroup>) returns (offered: map<string, map<string, Choice>>)
    ensures offered == Offered(roster)
  {
    offered := map[];
    for i := 0 to |roster|
      invariant offered == Offered(roster[..i])
    {
      assert roster[..i + 1][..i] == roster[..i];
      var byId := IndexChoices(roster[i].choices);
      offered := offered[roster[i].key := byId];
    }
    assert roster[..|roster|] == roster;
  }

  predicate InReach(choices: map<string, Choice>, id: string) {
    id in choices && !choices[id].locked
  }

  predicate Served(roster: seq<RosterGroup>, sels: seq<Selection>, i: nat)
    requires i < |sels|
  {
    && KeyAt(sels, i) in Offered(roster)
    && forall j :: 0 <= j < |sels[i].optionIds| ==>
         InReach(Offered(roster)[KeyAt(sels, i)], TrimAll(sels[i].optionIds)[j])
  }

  predicate ValidOk(groups: seq<Group>, roster: seq<RosterGroup>, sels: seq<Selection>) {
    DeclaredOk(groups, sels) && forall i :: 0 <= i < |sels| ==> Served(roster, sels, i)
  }

  predicate RosterRefuses(roster: seq<RosterGroup>, sels: seq<Selection>, e: Refusal) {
    match e
    case NotServed(at) => at < |sels| && KeyAt(sels, at) !in Offered(roster)
    case NotOffered(at, pick) =>
      && at < |sels| && KeyAt(sels, at) in Offered(roster) && pick < |sels[at].optionIds|
      && TrimAll(sels[at].optionIds)[pick] !in Offered(roster)[KeyAt(sels, at)]
    case OutOfReach(at, pick) =>
      && at < |sels| && KeyAt(sels, at) in Offered(roster) && pick < |sels[at].optionIds|
      && var id, choices := TrimAll(sels[at].optionIds)[pick], Offered(roster)[KeyAt(sels, at)];
         id in choices && choices[id].locked
    case _ => false
  }

  /** Accepts exactly the selections the declaration allows and the roster offers unlocked. */
  method Validate(groups: seq<Group>, roster: seq<RosterGroup>, sels: seq<Selection>) returns (r: Option<Refusal>)
    ensures r.None? <==> ValidOk(groups, roster, sels)
    ensures r.Some? ==>
      Refuses(groups, sels, r.value) || (DeclaredOk(groups, sels) && RosterRefuses(roster, sels, r.value))
  {
    r := ValidateDeclared(groups, sels);
    if r.Some? || groups == [] {
      return;
    }
    var offered := IndexRoster(roster);
    for i := 0 to |sels|
      invariant r.None?
      invariant forall k :: 0 <= k < i ==> Served(roster, sels, k)
    {
      var key := Trim(sels[i].groupKey);
      if key !in offered {
        assert !Served(roster, sels, i);
        return Some(NotServed(i));
      }
      for j := 0 to |sels[i].optionIds|
        invariant forall k :: 0 <= k < j ==> InReach(offered[key], TrimAll(sels[i].optionIds)[k])
      {
        var id := Trim(sels[i].optionIds[j]);
        assert TrimAll(sels[i].optionIds)[j] == id;
        if id !in offered[key] {
          assert !Served(roster, sels, i);
          return Some(NotOffered(i, j));
        }
        if offered[key][id].locked {
          assert !Served(roster, sels, i);
          return Some(OutOfReach(i, j));
        }
      }
    }
  }
}
