/** The two short-lived caches of the game client, which share one protocol: a miss is fetched outside
    the lock, stored under a fresh token, and a timer armed afterwards evicts the entry only while it
    still carries that token.

    Every label is one critical section, the end of a fetch, or one thing the runtime does to a timer;
    `Next` is total, so a theorem about every `seq<Label>` is one about every interleaving of calls. */
module TokenCache {
  import opened Common

  /** What a call asks for.  The address and the fallback group a fetch also takes are no part of the key. */
  datatype Request = Request(gameId: string, lobbyUserId: string, modeKey: string)

  function QueueOptionsKey(r: Request): string {
    r.gameId + "|" + r.lobbyUserId + "|" + r.modeKey
  }

  function EligibilityKey(r: Request): string {
    r.gameId + "|" + r.lobbyUserId
  }

  /** The two caches, which differ in what they key on. */
  datatype Kind = QueueOptions | Eligibility

  datatype Config = Config(kind: Kind, ttl: nat)

  function KeyOf(cfg: Config, r: Request): string {
    match cfg.kind
    case QueueOptions => QueueOptionsKey(r)
    case Eligibility => EligibilityKey(r)
  }

  /** A fetched roster or eligibility map. */
  type Value = int

  /** `owner` is the call that stored the entry, and `at` when; the code keeps neither. */
  datatype Entry = Entry(value: Value, token: nat, owner: nat, at: nat)

  /** Where one `Get` is: fetching; fetched; failed; answered by a hit on the entry that call `from`
      stored; or stored, and then its eviction
      still to be armed, armed, fired and waiting for the lock, and done. */
  datatype Phase =
    | Fetching
    | Fetched(value: Value)
    | Failed
    | Hit(value: Value, from: nat)
    | Stored(value: Value, token: nat)
    | Armed(value: Value, token: nat, due: nat)
    | Fired(value: Value, token: nat)
    | Done(value: Value, token: nat)

  datatype Call = Call(request: Request, key: string, phase: Phase)

  /** `fetches` holds every answer a game has given, with the request it was fetched for. */
  datatype State = State(items: map<string, Entry>, nextTok: nat, now: nat, calls: seq<Call>,
                         fetches: set<(Request, Value)>)

  datatype Label =
    | Begin(request: Request)
    | Fetch(c: nat, value: Value)
    | Fail(c: nat)
    | Store(c: nat)
    | Arm(c: nat)
    | Fire(c: nat)
    | Evict(c: nat)
    | Wait(time: nat)

  const INIT := State(map[], 0, 0, [], {})

  predicate HasToken(p: Phase) {
    p.Stored? || p.Armed? || p.Fired? || p.Done?
  }

  /** The call's eviction is armed, about to be, or about to act. */
  predicate Pending(p: Phase) {
    p.Stored? || p.Armed? || p.Fired?
  }

  /** What the caller has been given. */
  function Answer(p: Phase): Option<Value> {
    match p
    case Hit(v, _) => Some(v)
    case Armed(v, _, _) => Some(v)
    case Fired(v, _) => Some(v)
    case Done(v, _) => Some(v)
    case _ => None
  }

  // ----- steps

  function Move(s: State, c: nat, phase: Phase): State
    requires c < |s.calls|
  {
    s.(calls := s.calls[c := s.calls[c].(phase := phase)])
  }

  /** Deletes the key's entry if it still carries the token. */
  function Evicted(items: map<string, Entry>, key: string, token: nat): map<string, Entry> {
    if key in items && items[key].token == token then items - {key} else items
  }

  function Next(cfg: Config, s: State, l: Label): State {
    match l
    case Begin(r) =>
      var key := KeyOf(cfg, r);
      var phase := if key in s.items then Hit(s.items[key].value, s.items[key].owner) else Fetching;
      s.(calls := s.calls + [Call(r, key, phase)])
    case Wait(time) => s.(now := s.now + time)
    case Fetch(c, v) =>
      if c < |s.calls| && s.calls[c].phase.Fetching? then
        Move(s, c, Fetched(v)).(fetches := s.fetches + {(s.calls[c].request, v)})
      else s
    case Fail(c) => if c < |s.calls| && s.calls[c].phase.Fetching? then Move(s, c, Failed) else s
    case Store(c) =>
      if c < |s.calls| && s.calls[c].phase.Fetched? then
        var key, v, token := s.calls[c].key, s.calls[c].phase.value, s.nextTok + 1;
        Move(s, c, Stored(v, token)).(nextTok := token, items := s.items[key := Entry(v, token, c, s.now)])
      else s
    case Arm(c) =>
      if c < |s.calls| && s.calls[c].phase.Stored? then
        Move(s, c, Armed(s.calls[c].phase.value, s.calls[c].phase.token, s.now + cfg.ttl))
      else s
    case Fire(c) =>
      if c < |s.calls| && s.calls[c].phase.Armed? && s.calls[c].phase.due <= s.now then
        Move(s, c, Fired(s.calls[c].phase.value, s.calls[c].phase.token))
      else s
    case Evict(c) =>
      if c < |s.calls| && s.calls[c].phase.Fired? then
        Move(s, c, Done(s.calls[c].phase.value, s.calls[c].phase.token)).(
          items := Evicted(s.items, s.calls[c].key, s.calls[c].phase.token))
      else s
  }

  function After(cfg: Config, s: State, ls: seq<Label>): State
    decreases |ls|
  {
    if ls == [] then s else After(cfg, Next(cfg, s, ls[0]), ls[1..])
  }

  // ----- the invariant

  function TokenOf(p: Phase): nat {
    if HasToken(p) then p.token else 0
  }

  /** The call's key is its request's and its token has been issued; what it fetched was fetched for its
      request, and what it was handed by a hit is what another call stored under the key. */
  ghost predicate CallOk(cfg: Config, s: State, c: nat)
    requires c < |s.calls|
  {
    var call := s.calls[c];
    && call.key == KeyOf(cfg, call.request)
    && (HasToken(call.phase) ==> 1 <= call.phase.token <= s.nextTok)
    && (HasToken(call.phase) || call.phase.Fetched? ==> (call.request, call.phase.value) in s.fetches)
    && (call.phase.Hit? ==>
          && call.phase.from < |s.calls| && s.calls[call.phase.from].key == call.key
          && HasToken(s.calls[call.phase.from].phase) && s.calls[call.phase.from].phase.value == call.phase.value)
  }

  ghost predicate CallsOk(cfg: Config, s: State) {
    forall c :: 0 <= c < |s.calls| ==> CallOk(cfg, s, c)
  }

  /** No token is issued twice. */
  ghost predicate Unique(s: State) {
    forall c, d :: 0 <= c < d < |s.calls| && TokenOf(s.calls[c].phase) != 0
      ==> TokenOf(s.calls[c].phase) != TokenOf(s.calls[d].phase)
  }

  /** The entry is its owner's, whose eviction is pending and comes no earlier than `ttl` after the
      entry was stored. */
  ghost predicate Owned(cfg: Config, s: State, e: Entry, key: string) {
    && e.owner < |s.calls| && s.calls[e.owner].key == key && e.at <= s.now && e.token >= 1
    && var phase := s.calls[e.owner].phase;
       && Pending(phase) && phase.value == e.value && phase.token == e.token
       && (phase.Armed? ==> e.at + cfg.ttl <= phase.due)
       && (phase.Fired? ==> e.at + cfg.ttl <= s.now)
  }

  /** No call has stored a later entry for the key. */
  ghost predicate Latest(s: State, e: Entry, key: string) {
    forall c :: 0 <= c < |s.calls| && s.calls[c].key == key ==> TokenOf(s.calls[c].phase) <= e.token
  }

  ghost predicate EntriesOk(cfg: Config, s: State) {
    forall key :: key in s.items ==> Owned(cfg, s, s.items[key], key) && Latest(s, s.items[key], key)
  }

  ghost predicate Inv(cfg: Config, s: State) {
    CallsOk(cfg, s) && Unique(s) && EntriesOk(cfg, s)
  }

  // ----- every step keeps it

  lemma BeginKeeps(cfg: Config, s: State, r: Request)
    requires Inv(cfg, s)
    ensures Inv(cfg, Next(cfg, s, Begin(r)))
  {
    var t, key := Next(cfg, s, Begin(r)), KeyOf(cfg, r);
    var n := |s.calls|;
    if key in s.items {
      assert Owned(cfg, s, s.items[key], key) && CallOk(cfg, s, s.items[key].owner);
    }
    assert CallOk(cfg, t, n) && TokenOf(t.calls[n].phase) == 0;
    forall c | 0 <= c < |t.calls| ensures CallOk(cfg, t, c) {
      assert c < n ==> CallOk(cfg, s, c) && t.calls[c] == s.calls[c];
    }
  }

  lemma FetchKeeps(cfg: Config, s: State, c: nat, value: Value)
    requires Inv(cfg, s)
    ensures Inv(cfg, Next(cfg, s, Fetch(c, value)))
  {
    var t := Next(cfg, s, Fetch(c, value));
    forall d | 0 <= d < |t.calls| ensures CallOk(cfg, t, d) {
      assert CallOk(cfg, s, d);
    }
  }

  /** A call that moves on without a new token, keeping value and token, takes nothing from the rest. */
  lemma MoveKeeps(cfg: Config, s: State, c: nat, phase: Phase)
    requires Inv(cfg, s) && c < |s.calls| && HasToken(s.calls[c].phase) && HasToken(phase)
    requires phase.value == s.calls[c].phase.value && phase.token == s.calls[c].phase.token
    ensures CallsOk(cfg, Move(s, c, phase)) && Unique(Move(s, c, phase))
    ensures forall key :: key in s.items ==> Latest(Move(s, c, phase), s.items[key], key)
    ensures forall key :: key in s.items && s.items[key].owner != c ==> Owned(cfg, Move(s, c, phase), s.items[key], key)
  {
    var t := Move(s, c, phase);
    forall d | 0 <= d < |t.calls| ensures CallOk(cfg, t, d) {
      assert CallOk(cfg, s, d);
    }
  }

  lemma StoreKeeps(cfg: Config, s: State, c: nat)
    requires Inv(cfg, s)
    ensures Inv(cfg, Next(cfg, s, Store(c)))
  {
    if c < |s.calls| && s.calls[c].phase.Fetched? {
      var t, key := Next(cfg, s, Store(c)), s.calls[c].key;
      forall d | 0 <= d < |t.calls| ensures CallOk(cfg, t, d) && TokenOf(t.calls[d].phase) <= t.nextTok {
        assert CallOk(cfg, s, d);
      }
      forall d | 0 <= d < |t.calls| && d != c ensures TokenOf(t.calls[d].phase) < TokenOf(t.calls[c].phase) {
        assert CallOk(cfg, s, d);
      }
      forall k | k in t.items ensures Owned(cfg, t, t.items[k], k) && Latest(t, t.items[k], k) {
        if k != key {
          assert Owned(cfg, s, s.items[k], k) && Latest(s, s.items[k], k);
        }
      }
    }
  }

  lemma ArmKeeps(cfg: Config, s: State, c: nat)
    requires Inv(cfg, s)
    ensures Inv(cfg, Next(cfg, s, Arm(c)))
  {
    if c < |s.calls| && s.calls[c].phase.Stored? {
      MoveKeeps(cfg, s, c, Armed(s.calls[c].phase.value, s.calls[c].phase.token, s.now + cfg.ttl));
    }
  }

  lemma FireKeeps(cfg: Config, s: State, c: nat)
    requires Inv(cfg, s)
    ensures Inv(cfg, Next(cfg, s, Fire(c)))
  {
    if c < |s.calls| && s.calls[c].phase.Armed? && s.calls[c].phase.due <= s.now {
      MoveKeeps(cfg, s, c, Fired(s.calls[c].phase.value, s.calls[c].phase.token));
    }
  }

  lemma UniqueAt(s: State, c: nat, d: nat)
    requires Unique(s) && c < |s.calls| && d < |s.calls|
    ensures TokenOf(s.calls[c].phase) == TokenOf(s.calls[d].phase) != 0 ==> c == d
  {
    assert c < d && TokenOf(s.calls[c].phase) != 0 ==> TokenOf(s.calls[c].phase) != TokenOf(s.calls[d].phase);
    assert d < c && TokenOf(s.calls[d].phase) != 0 ==> TokenOf(s.calls[d].phase) != TokenOf(s.calls[c].phase);
  }

  /** An eviction takes away its own entry or none: the entry it finds under another token belongs to a
      later call, whose own eviction is still to come. */
  lemma EvictsOwnOnly(cfg: Config, s: State, c: nat, key: string)
    requires Inv(cfg, s) && key in s.items && key !in Next(cfg, s, Evict(c)).items
    ensures s.items[key].owner == c && s.items[key].at + cfg.ttl <= s.now
  {
    var e := s.items[key];
    assert Owned(cfg, s, e, key);
    UniqueAt(s, c, e.owner);
  }

  lemma EvictKeeps(cfg: Config, s: State, c: nat)
    requires Inv(cfg, s)
    ensures Inv(cfg, Next(cfg, s, Evict(c)))
  {
    if c < |s.calls| && s.calls[c].phase.Fired? {
      var t := Next(cfg, s, Evict(c));
      var m := Move(s, c, Done(s.calls[c].phase.value, s.calls[c].phase.token));
      MoveKeeps(cfg, s, c, Done(s.calls[c].phase.value, s.calls[c].phase.token));
      forall d | 0 <= d < |t.calls| ensures CallOk(cfg, t, d) {
        assert CallOk(cfg, m, d);
      }
      forall key | key in t.items ensures s.items[key].owner != c {
        assert Owned(cfg, s, s.items[key], key);
      }
    }
  }

  lemma FailKeeps(cfg: Config, s: State, c: nat)
    requires Inv(cfg, s)
    ensures Inv(cfg, Next(cfg, s, Fail(c)))
  {
    var t := Next(cfg, s, Fail(c));
    forall d | 0 <= d < |t.calls| ensures CallOk(cfg, t, d) {
      assert CallOk(cfg, s, d);
    }
  }

  lemma WaitKeeps(cfg: Config, s: State, time: nat)
    requires Inv(cfg, s)
    ensures Inv(cfg, Next(cfg, s, Wait(time)))
  {
    var t := Next(cfg, s, Wait(time));
    forall d | 0 <= d < |t.calls| ensures CallOk(cfg, t, d) {
      assert CallOk(cfg, s, d);
    }
  }

  lemma StepInv(cfg: Config, s: State, l: Label)
    requires Inv(cfg, s)
    ensures Inv(cfg, Next(cfg, s, l))
  {
    hide Next, Inv;
    match l
    case Begin(r) => BeginKeeps(cfg, s, r);
    case Fetch(c, v) => FetchKeeps(cfg, s, c, v);
    case Fail(c) => FailKeeps(cfg, s, c);
    case Store(c) => StoreKeeps(cfg, s, c);
    case Arm(c) => ArmKeeps(cfg, s, c);
    case Fire(c) => FireKeeps(cfg, s, c);
    case Evict(c) => EvictKeeps(cfg, s, c);
    case Wait(time) => WaitKeeps(cfg, s, time);
  }

  lemma {:induction false} InvAfter(cfg: Config, s: State, ls: seq<Label>)
    requires Inv(cfg, s)
    ensures Inv(cfg, After(cfg, s, ls))
    decreases |ls|
  {
    if ls != [] {
      StepInv(cfg, s, ls[0]);
      InvAfter(cfg, Next(cfg, s, ls[0]), ls[1..]);
    }
  }

  // ----- what holds in every interleaving

  /** The call whose fetch a call's answer came from: its own, or the one that stored what it hit. */
  function Origin(s: State, c: nat): nat
    requires c < |s.calls|
  {
    if s.calls[c].phase.Hit? then s.calls[c].phase.from else c
  }

  /** Whatever a call was answered with, hit or miss, a game gave for a request with that call's own key. */
  lemma AnswersAgree(cfg: Config, ls: seq<Label>, c: nat)
    requires c < |After(cfg, INIT, ls).calls| && Answer(After(cfg, INIT, ls).calls[c].phase).Some?
    ensures var s := After(cfg, INIT, ls);
      && Origin(s, c) < |s.calls|
      && (s.calls[Origin(s, c)].request, Answer(s.calls[c].phase).value) in s.fetches
      && KeyOf(cfg, s.calls[Origin(s, c)].request) == KeyOf(cfg, s.calls[c].request) == s.calls[c].key
  {
    InvAfter(cfg, INIT, ls);
    var s := After(cfg, INIT, ls);
    assert CallOk(cfg, s, c);
    assert CallOk(cfg, s, Origin(s, c));
  }

  /** Every entry was fetched for a request with its key, carries the largest token any call stored for
      that key, and has exactly one pending eviction that can remove it: its owner's. */
  lemma OneEvictionEach(cfg: Config, ls: seq<Label>, key: string)
    requires key in After(cfg, INIT, ls).items
    ensures var s := After(cfg, INIT, ls);
      var e := s.items[key];
      && e.owner < |s.calls| && (s.calls[e.owner].request, e.value) in s.fetches
      && KeyOf(cfg, s.calls[e.owner].request) == key
      && (forall c :: 0 <= c < |s.calls| && s.calls[c].key == key ==> TokenOf(s.calls[c].phase) <= e.token)
      && (forall c :: 0 <= c < |s.calls| ==>
            (Pending(s.calls[c].phase) && s.calls[c].phase.token == e.token <==> c == e.owner))
  {
    InvAfter(cfg, INIT, ls);
    var s := After(cfg, INIT, ls);
    var e := s.items[key];
    assert Owned(cfg, s, e, key) && Latest(s, e, key) && CallOk(cfg, s, e.owner);
    forall c | 0 <= c < |s.calls|
      ensures Pending(s.calls[c].phase) && s.calls[c].phase.token == e.token <==> c == e.owner
    {
      UniqueAt(s, c, e.owner);
    }
  }

  /** A timer removes an entry only once it is its own and `ttl` old: an older fetch's timer never
      removes a newer entry. */
  lemma OlderSparesNewer(cfg: Config, ls: seq<Label>, c: nat, key: string)
    requires var s := After(cfg, INIT, ls); key in s.items && key !in Next(cfg, s, Evict(c)).items
    ensures var s := After(cfg, INIT, ls); s.items[key].owner == c && s.items[key].at + cfg.ttl <= s.now
  {
    InvAfter(cfg, INIT, ls);
    EvictsOwnOnly(cfg, After(cfg, INIT, ls), c, key);
  }

  lemma {:induction false} TimePasses(cfg: Config, s: State, ls: seq<Label>)
    ensures s.now <= After(cfg, s, ls).now
    decreases |ls|
  {
    if ls != [] {
      TimePasses(cfg, Next(cfg, s, ls[0]), ls[1..]);
    }
  }

  lemma Survives(cfg: Config, s: State, l: Label, key: string)
    requires Inv(cfg, s) && key in s.items && Next(cfg, s, l).now < s.items[key].at + cfg.ttl
    ensures var t := Next(cfg, s, l);
      && key in t.items && t.items[key].token >= s.items[key].token && t.items[key].at >= s.items[key].at
      && (t.items[key].token == s.items[key].token ==> t.items[key] == s.items[key])
  {
    var e := s.items[key];
    assert Owned(cfg, s, e, key) && CallOk(cfg, s, e.owner);
    if l.Evict? && key !in Next(cfg, s, l).items {
      EvictsOwnOnly(cfg, s, l.c, key);
    }
  }

  /** For `ttl` after it was stored an entry is there, or a later one for its key is, whatever else runs. */
  lemma {:induction false} LivesForTtl(cfg: Config, s: State, ls: seq<Label>, key: string)
    requires Inv(cfg, s) && key in s.items && After(cfg, s, ls).now < s.items[key].at + cfg.ttl
    ensures var t := After(cfg, s, ls);
      && key in t.items && t.items[key].token >= s.items[key].token
      && (t.items[key].token == s.items[key].token ==> t.items[key] == s.items[key])
    decreases |ls|
  {
    if ls != [] {
      var t := Next(cfg, s, ls[0]);
      TimePasses(cfg, t, ls[1..]);
      StepInv(cfg, s, ls[0]);
      Survives(cfg, s, ls[0], key);
      LivesForTtl(cfg, t, ls[1..], key);
    }
  }

  /** No timer is set further ahead than `ttl`. */
  ghost predicate DueSoon(cfg: Config, s: State) {
    forall c :: 0 <= c < |s.calls| && s.calls[c].phase.Armed? ==> s.calls[c].phase.due <= s.now + cfg.ttl
  }

  lemma DueSoonStep(cfg: Config, s: State, l: Label)
    requires DueSoon(cfg, s)
    ensures DueSoon(cfg, Next(cfg, s, l))
  {
    var t := Next(cfg, s, l);
    forall c | 0 <= c < |t.calls| && t.calls[c].phase.Armed? ensures t.calls[c].phase.due <= t.now + cfg.ttl {
      assert c < |s.calls| && s.calls[c].phase.Armed? ==> s.calls[c].phase.due <= s.now + cfg.ttl;
    }
  }

  lemma {:induction false} DueSoonAfter(cfg: Config, s: State, ls: seq<Label>)
    requires DueSoon(cfg, s)
    ensures DueSoon(cfg, After(cfg, s, ls))
    decreases |ls|
  {
    if ls != [] {
      hide Next, DueSoon;
      DueSoonStep(cfg, s, ls[0]);
      DueSoonAfter(cfg, Next(cfg, s, ls[0]), ls[1..]);
    }
  }

  /** From whatever moment of whatever run an entry is found at, it takes no more than `ttl` and its owner's
      own timer to be rid of it. */
  lemma EvictionComes(cfg: Config, ls: seq<Label>, key: string)
    requires key in After(cfg, INIT, ls).items
    ensures var s := After(cfg, INIT, ls);
      var o := s.items[key].owner;
      key !in Next(cfg, Next(cfg, Next(cfg, Next(cfg, s, Arm(o)), Wait(cfg.ttl)), Fire(o)), Evict(o)).items
  {
    InvAfter(cfg, INIT, ls);
    DueSoonAfter(cfg, INIT, ls);
    var s := After(cfg, INIT, ls);
    var e, o := s.items[key], s.items[key].owner;
    assert Owned(cfg, s, e, key);
    var s1 := Next(cfg, s, Arm(o));
    assert s1.calls[o].phase.Armed? || s1.calls[o].phase.Fired?;
    assert s1.calls[o].phase.Armed? ==> s1.calls[o].phase.due <= s.now + cfg.ttl;
  }

  /** When every eviction has had its turn nothing is cached. */
  lemma NothingOutlivesItsEviction(cfg: Config, ls: seq<Label>)
    requires var s := After(cfg, INIT, ls); forall c :: 0 <= c < |s.calls| ==> !Pending(s.calls[c].phase)
    ensures After(cfg, INIT, ls).items == map[]
  {
    InvAfter(cfg, INIT, ls);
    var s := After(cfg, INIT, ls);
    assert forall key :: key in s.items ==> Owned(cfg, s, s.items[key], key);
  }

  // ----- the keys

  predicate Plain(s: string) {
    '|' !in s
  }

  function FirstBar(s: string): nat {
    if s == "" || s[0] == '|' then 0 else 1 + FirstBar(s[1..])
  }

  lemma {:induction false} FirstBarAfter(a: string, x: string)
    requires Plain(a)
    ensures FirstBar(a + "|" + x) == |a|
  {
    if a == "" {
      assert a + "|" + x == "|" + x;
    } else {
      FirstBarAfter(a[1..], x);
      assert (a + "|" + x)[1..] == a[1..] + "|" + x;
    }
  }

  lemma FirstPart(a: string, b: string, x: string, y: string)
    requires Plain(a) && Plain(b) && a + "|" + x == b + "|" + y
    ensures a == b && x == y
  {
    FirstBarAfter(a, x);
    FirstBarAfter(b, y);
    var s := a + "|" + x;
    assert a == s[..|a|] && b == s[..|b|];
    assert x == s[|a| + 1..] && y == s[|b| + 1..];
  }

  /** Plain game and user ids — UUIDs are — keep every request's key apart from every other's. */
  lemma PlainKeysApart(a: Request, b: Request)
    requires Plain(a.gameId) && Plain(a.lobbyUserId) && Plain(b.gameId) && Plain(b.lobbyUserId)
    ensures QueueOptionsKey(a) == QueueOptionsKey(b) <==> a == b
    ensures EligibilityKey(a) == EligibilityKey(b) <==> a.gameId == b.gameId && a.lobbyUserId == b.lobbyUserId
  {
    if QueueOptionsKey(a) == QueueOptionsKey(b) {
      assert QueueOptionsKey(a) == a.gameId + "|" + (a.lobbyUserId + "|" + a.modeKey);
      assert QueueOptionsKey(b) == b.gameId + "|" + (b.lobbyUserId + "|" + b.modeKey);
      FirstPart(a.gameId, b.gameId, a.lobbyUserId + "|" + a.modeKey, b.lobbyUserId + "|" + b.modeKey);
      FirstPart(a.lobbyUserId, b.lobbyUserId, a.modeKey, b.modeKey);
    }
    if EligibilityKey(a) == EligibilityKey(b) {
      FirstPart(a.gameId, b.gameId, a.lobbyUserId, b.lobbyUserId);
    }
  }

  lemma Parts(s: string) returns (x: string, y: string)
    requires !Plain(s)
    ensures s == x + "|" + y
  {
    var i :| 0 <= i < |s| && s[i] == '|';
    x, y := s[..i], s[i + 1..];
  }

  /** A bar in either id and either key is some other request's as well, for another game or user. */
  lemma BarredKeyShared(a: Request) returns (b: Request)
    requires !Plain(a.gameId) || !Plain(a.lobbyUserId)
    ensures (b.gameId, b.lobbyUserId) != (a.gameId, a.lobbyUserId)
    ensures QueueOptionsKey(b) == QueueOptionsKey(a) && EligibilityKey(b) == EligibilityKey(a)
  {
    if !Plain(a.lobbyUserId) {
      var x, y := Parts(a.lobbyUserId);
      b := Request(a.gameId + "|" + x, y, a.modeKey);
      assert EligibilityKey(b) == EligibilityKey(a);
    } else {
      var x, y := Parts(a.gameId);
      b := Request(x, y + "|" + a.lobbyUserId, a.modeKey);
      assert EligibilityKey(b) == EligibilityKey(a);
    }
    assert QueueOptionsKey(a) == EligibilityKey(a) + "|" + a.modeKey;
    assert QueueOptionsKey(b) == EligibilityKey(b) + "|" + b.modeKey;
  }

  predicate PlainRequest(r: Request) {
    Plain(r.gameId) && Plain(r.lobbyUserId)
  }

  lemma {:induction false} RequestsBegun(cfg: Config, s: State, ls: seq<Label>)
    requires forall c :: 0 <= c < |s.calls| ==> PlainRequest(s.calls[c].request)
    requires forall i :: 0 <= i < |ls| && ls[i].Begin? ==> PlainRequest(ls[i].request)
    ensures forall c :: 0 <= c < |After(cfg, s, ls).calls| ==> PlainRequest(After(cfg, s, ls).calls[c].request)
    decreases |ls|
  {
    if ls != [] {
      RequestKept(cfg, s, ls[0]);
      hide Next;
      RequestsBegun(cfg, Next(cfg, s, ls[0]), ls[1..]);
    }
  }

  lemma RequestKept(cfg: Config, s: State, l: Label)
    ensures |s.calls| <= |Next(cfg, s, l).calls| <= |s.calls| + 1
    ensures forall c :: 0 <= c < |s.calls| ==> Next(cfg, s, l).calls[c].request == s.calls[c].request
    ensures |Next(cfg, s, l).calls| > |s.calls| ==> l.Begin? && Next(cfg, s, l).calls[|s.calls|].request == l.request
  {
  }

  /** So where every caller's ids are plain, what a call was answered with was fetched for its very
      request: the same game, user and mode; or, from the eligibility cache, the same game and user. */
  lemma AnsweredForOwnRequest(cfg: Config, ls: seq<Label>, c: nat)
    requires forall i :: 0 <= i < |ls| && ls[i].Begin? ==> PlainRequest(ls[i].request)
    requires c < |After(cfg, INIT, ls).calls| && Answer(After(cfg, INIT, ls).calls[c].phase).Some?
    ensures var s := After(cfg, INIT, ls);
      var asked, answer := s.calls[c].request, Answer(s.calls[c].phase).value;
      && (cfg.kind.QueueOptions? ==> (asked, answer) in s.fetches)
      && (cfg.kind.Eligibility? ==> exists r ::
            (r, answer) in s.fetches && r.gameId == asked.gameId && r.lobbyUserId == asked.lobbyUserId)
  {
    var s := After(cfg, INIT, ls);
    AnswersAgree(cfg, ls, c);
    RequestsBegun(cfg, INIT, ls);
    PlainKeysApart(s.calls[Origin(s, c)].request, s.calls[c].request);
  }

  // ----- the object

  datatype Item = Item(value: Value, token: nat)

  /** The entries as the code keeps them. */
  function Bare(items: map<string, Entry>): map<string, Item> {
    map key | key in items :: Item(items[key].value, items[key].token)
  }

  class Cache {
    const cfg: Config
    var items: map<string, Item>
    var nextTok: nat

    constructor (cfg: Config)
      ensures this.cfg == cfg && Shows(INIT)
    {
      this.cfg := cfg;
      items, nextTok := map[], 0;
    }

    /** The part of `s` that the cache object holds. */
    ghost predicate Shows(s: State)
      reads this
    {
      items == Bare(s.items) && nextTok == s.nextTok
    }

    /** The first critical section of `Get`. */
    method Lookup(r: Request, ghost s: State) returns (hit: Option<Value>)
      requires Shows(s)
      ensures hit.Some? <==> KeyOf(cfg, r) in s.items
      ensures var t := Next(cfg, s, Begin(r));
        && Shows(t) && |t.calls| == |s.calls| + 1
        && t.calls[|s.calls|] == Call(r, KeyOf(cfg, r),
             if hit.Some? then Hit(hit.value, s.items[KeyOf(cfg, r)].owner) else Fetching)
    {
      var key := KeyOf(cfg, r);
      return if key in items then Some(items[key].value) else None;
    }

    /** The second, with the value a game gave. */
    method Insert(r: Request, fetched: Value, ghost s: State, ghost c: nat) returns (token: nat)
      requires Shows(s) && c < |s.calls| && s.calls[c] == Call(r, KeyOf(cfg, r), Fetched(fetched))
      modifies this
      ensures var t := Next(cfg, s, Store(c)); Shows(t) && t.calls[c].phase == Stored(fetched, token)
      ensures token == nextTok == old(nextTok) + 1 && items == old(items)[KeyOf(cfg, r) := Item(fetched, token)]
    {
      nextTok := nextTok + 1;
      token := nextTok;
      items := items[KeyOf(cfg, r) := Item(fetched, token)];
    }

    /** The timer's callback. */
    method EvictEntry(key: string, token: nat, ghost s: State, ghost c: nat)
      requires Shows(s) && c < |s.calls| && s.calls[c].key == key
      requires s.calls[c].phase.Fired? && s.calls[c].phase.token == token
      modifies this
      ensures Shows(Next(cfg, s, Evict(c)))
    {
      if key in items && items[key].token == token {
        items := items - {key};
      }
    }

    /** A whole `Get` that nothing else interrupts: the labels it is made of, and its answer. */
    method Get(r: Request, response: Result<Value, string>, ghost s: State)
      returns (answer: Result<Value, string>, ghost ls: seq<Label>)
      requires Shows(s)
      modifies this
      ensures Shows(After(cfg, s, ls))
      ensures KeyOf(cfg, r) in s.items ==> answer == Ok(s.items[KeyOf(cfg, r)].value) && ls == [Begin(r)]
      ensures KeyOf(cfg, r) !in s.items ==> answer == response
      ensures KeyOf(cfg, r) !in s.items && response.Err? ==> items == old(items) && nextTok == old(nextTok)
      ensures KeyOf(cfg, r) !in s.items && response.Ok? ==>
        && nextTok == old(nextTok) + 1
        && items == old(items)[KeyOf(cfg, r) := Item(response.value, nextTok)]
      ensures var t := After(cfg, s, ls);
        |s.calls| < |t.calls| && (answer.Ok? ==> Answer(t.calls[|s.calls|].phase) == Some(answer.value))
    {
      ghost var c := |s.calls|;
      ghost var s1 := Next(cfg, s, Begin(r));
      ls := [Begin(r)];
      Runs1(cfg, s, Begin(r));
      var hit := Lookup(r, s);
      if hit.Some? {
        return Ok(hit.value), ls;
      }
      if response.Err? {
        ls := [Begin(r), Fail(c)];
        Runs(cfg, s, Begin(r), [Fail(c)]);
        Runs1(cfg, s1, Fail(c));
        return response, ls;
      }
      ghost var rest := [Fetch(c, response.value), Store(c), Arm(c)];
      ghost var s2 := Next(cfg, s1, Fetch(c, response.value));
      ls := [Begin(r)] + rest;
      Runs(cfg, s, Begin(r), rest);
      Runs(cfg, s1, Fetch(c, response.value), [Store(c), Arm(c)]);
      Runs(cfg, s2, Store(c), [Arm(c)]);
      Runs1(cfg, Next(cfg, s2, Store(c)), Arm(c));
      var token := Insert(r, response.value, s2, c);
      return response, ls;
    }
  }

  lemma Runs(cfg: Config, s: State, l: Label, rest: seq<Label>)
    ensures After(cfg, s, [l] + rest) == After(cfg, Next(cfg, s, l), rest)
  {
    assert ([l] + rest)[1..] == rest;
  }

  lemma Runs1(cfg: Config, s: State, l: Label)
    ensures After(cfg, s, [l]) == Next(cfg, s, l)
  {
    assert [l] + [] == [l];
    Runs(cfg, s, l, []);
  }
}
