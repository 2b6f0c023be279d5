/** The bounded activity writer as a transition system: any number of producers, one writer goroutine.

    Every label is one thing a producer or the goroutine does to what they share.  `Next` is total, a
    label that is not enabled changing nothing, so a theorem about every `seq<Label>` is a theorem about
    every interleaving. */
module ActivityWriter {
  import opened Common
  import PayloadKeys

  /** A payload value, as far as encoding it goes. */
  datatype Value = Encodable(text: string) | Unencodable

  /** `columns` stands for the user, game, mode and session columns, which the writer only carries. */
  datatype Event = Event(kind: string, source: string, occurredAt: Option<int>, columns: string,
                         payload: Option<map<string, Value>>)

  const LOBBY := "lobby"
  const BUFFER: nat := 4096
  const BATCH: nat := 64

  /** Waiting in `select`; `next` events into encoding a batch, `encoded` of which could be, and
      `leaving` when the goroutine returns afterwards; or returned. */
  datatype Stage = Selecting | Encoding(next: nat, encoded: nat, leaving: bool) | Exited

  /** What has happened so far: how many events with a type were recorded, which were accepted, handed
      to `writeBatch`, and stored. */
  datatype Log = Log(recorded: nat, accepted: seq<Event>, delivered: seq<Event>, stored: seq<Event>)

  datatype State = State(db: bool, queue: seq<Event>, batch: seq<Event>, stage: Stage, draining: bool, closed: bool,
                         dropped: nat, written: nat, log: Log)

  datatype Label =
    | Record(event: Event, now: int)
    | Close
    | Receive
    | Tick
    | Stop
    | Empty
    | Encode
    | Insert(ok: bool)

  function Init(db: bool): State {
    State(db, [], [], Selecting, false, false, 0, 0, Log(0, [], [], []))
  }

  // ----- events

  /** The event as it is queued: source and time filled in, and no forbidden payload key. */
  function Prepare(e: Event, now: int): Event {
    e.(source := if e.source == "" then LOBBY else e.source,
       occurredAt := if e.occurredAt.None? then Some(now) else e.occurredAt,
       payload := PayloadKeys.Sanitized(PayloadKeys.OrEmpty(e.payload)))
  }

  predicate Encodes(e: Event) {
    e.payload.None? || forall key :: key in e.payload.value ==> e.payload.value[key].Encodable?
  }

  function Encodables(batch: seq<Event>): (r: seq<Event>)
    ensures |r| <= |batch|
  {
    if batch == [] then [] else
    var last := batch[|batch| - 1];
    Encodables(batch[..|batch| - 1]) + if Encodes(last) then [last] else []
  }

  // ----- steps

  function Away(leaving: bool): Stage {
    if leaving then Exited else Selecting
  }

  /** `flush` up to the first row: an empty batch needs nothing, and without a database `writeBatch`
      returns at once. */
  function Flush(s: State, leaving: bool): State {
    if s.batch == [] then s.(stage := Away(leaving)) else
    var s := s.(log := s.log.(delivered := s.log.delivered + s.batch));
    if s.db then s.(stage := Encoding(0, 0, leaving)) else s.(batch := [], stage := Away(leaving))
  }

  function Next(s: State, l: Label): State {
    match l
    case Record(e, now) =>
      if e.kind == "" then s else
      var s := s.(log := s.log.(recorded := s.log.recorded + 1));
      if |s.queue| < BUFFER then
        s.(queue := s.queue + [Prepare(e, now)], log := s.log.(accepted := s.log.accepted + [Prepare(e, now)]))
      else
        s.(dropped := s.dropped + 1)
    case Close => s.(closed := true)
    case Receive =>
      if !(s.stage.Selecting? && s.queue != []) then s else
      var s := s.(queue := s.queue[1..], batch := s.batch + [s.queue[0]]);
      if |s.batch| >= BATCH then Flush(s, false) else s
    case Tick => if s.stage.Selecting? && !s.draining then Flush(s, false) else s
    case Stop => if s.stage.Selecting? && !s.draining && s.closed then s.(draining := true) else s
    case Empty => if s.stage.Selecting? && s.draining && s.queue == [] then Flush(s, true) else s
    case Encode =>
      if !(s.stage.Encoding? && s.stage.next < |s.batch|) then s else
      var st := s.stage.(next := s.stage.next + 1);
      if Encodes(s.batch[s.stage.next]) then s.(stage := st.(encoded := st.encoded + 1))
      else s.(stage := st, dropped := s.dropped + 1)
    case Insert(ok) =>
      if !(s.stage.Encoding? && s.stage.next == |s.batch|) then s else
      var done := s.(batch := [], stage := Away(s.stage.leaving));
      if s.stage.encoded == 0 then done else
      if ok then
        done.(written := s.written + s.stage.encoded, log := s.log.(stored := s.log.stored + Encodables(s.batch)))
      else done.(dropped := s.dropped + s.stage.encoded)
  }

  function After(s: State, ls: seq<Label>): State
    decreases |ls|
  {
    if ls == [] then s else After(Next(s, ls[0]), ls[1..])
  }

  lemma {:induction false} AfterConcat(s: State, a: seq<Label>, b: seq<Label>)
    ensures After(s, a + b) == After(After(s, a), b)
    decreases |a|
  {
    if a == [] {
      assert a + b == b;
    } else {
      assert (a + b)[1..] == a[1..] + b;
      AfterConcat(Next(s, a[0]), a[1..], b);
    }
  }

  // ----- the invariant

  /** Events accepted and not yet handed to `writeBatch`. */
  function Held(s: State): seq<Event> {
    (if s.stage.Selecting? then s.batch else []) + s.queue
  }

  /** Events in the goroutine's hand that have been neither stored nor dropped. */
  function InHand(s: State): int {
    match s.stage
    case Selecting => |s.batch|
    case Encoding(next, encoded, _) => |s.batch| - next + encoded
    case Exited => 0
  }

  ghost predicate Shape(s: State) {
    && |s.queue| <= BUFFER
    && (s.draining ==> s.closed)
    && match s.stage
       case Selecting => |s.batch| < BATCH
       case Encoding(next, encoded, leaving) =>
         && s.db && 0 < |s.batch| <= BATCH && next <= |s.batch| && encoded == |Encodables(s.batch[..next])|
         && (leaving ==> s.draining)
         && |s.batch| <= |s.log.delivered| && s.log.delivered[|s.log.delivered| - |s.batch|..] == s.batch
       case Exited => s.batch == [] && s.draining
  }

  ghost predicate Fifo(s: State) {
    s.log.accepted == s.log.delivered + Held(s)
  }

  ghost predicate Books(s: State) {
    && s.log.recorded == s.dropped + s.written + |s.queue| + InHand(s) + (if s.db then 0 else |s.log.delivered|)
    && s.written == |s.log.stored|
  }

  /** `a` is `b` with some events left out, the rest in order and none repeated. */
  ghost predicate Subsequence(a: seq<Event>, b: seq<Event>)
    decreases |b|
  {
    if a == [] then true else
    if b == [] then false else
    || (a[|a| - 1] == b[|b| - 1] && Subsequence(a[..|a| - 1], b[..|b| - 1]))
    || Subsequence(a, b[..|b| - 1])
  }

  /** The events of finished batches. */
  function Settled(s: State): seq<Event>
    requires Shape(s)
  {
    if s.stage.Encoding? then s.log.delivered[..|s.log.delivered| - |s.batch|] else s.log.delivered
  }

  ghost predicate IsPrepared(e: Event) {
    && e.kind != "" && e.source != "" && e.occurredAt.Some? && e.payload != Some(map[])
    && forall key :: key in PayloadKeys.OrEmpty(e.payload) ==> !PayloadKeys.Forbidden(key)
  }

  ghost predicate AllPrepared(es: seq<Event>) {
    forall i :: 0 <= i < |es| ==> IsPrepared(es[i])
  }

  ghost predicate AllEncode(es: seq<Event>) {
    forall i :: 0 <= i < |es| ==> Encodes(es[i])
  }

  ghost predicate Inv(s: State) {
    Shape(s) && Fifo(s) && Books(s)
  }

  /** What has been stored so far came out of finished batches, in their order. */
  ghost predicate StoredInOrder(s: State)
    requires Shape(s)
  {
    Subsequence(s.log.stored, Settled(s)) && AllEncode(s.log.stored)
  }

  /** What a caller did say is kept, what it left out is filled in, and of the payload stays all that may. */
  lemma PrepareClean(e: Event, now: int)
    requires e.kind != ""
    ensures IsPrepared(Prepare(e, now))
    ensures var p := Prepare(e, now);
      && p.kind == e.kind && p.columns == e.columns
      && p.source == (if e.source != "" then e.source else "lobby")
      && p.occurredAt == Some(if e.occurredAt.Some? then e.occurredAt.value else now)
      && forall key :: key in PayloadKeys.OrEmpty(e.payload) && !PayloadKeys.Forbidden(key) ==>
           && key in PayloadKeys.OrEmpty(p.payload)
           && PayloadKeys.OrEmpty(p.payload)[key] == PayloadKeys.OrEmpty(e.payload)[key]
  {
    PayloadKeys.SanitizedExactly(PayloadKeys.OrEmpty(e.payload));
  }

  lemma {:induction false} EncodablesEncode(batch: seq<Event>)
    ensures AllEncode(Encodables(batch))
  {
    if batch != [] {
      EncodablesEncode(batch[..|batch| - 1]);
    }
  }

  lemma SubsequencePush(a: seq<Event>, b: seq<Event>, e: Event, kept: bool)
    requires Subsequence(a, b)
    ensures Subsequence(a + (if kept then [e] else []), b + [e])
  {
    assert (b + [e])[..|b|] == b && (a + [e])[..|a|] == a && a + [] == a;
  }

  lemma {:induction false} SubsequenceGrows(a: seq<Event>, b: seq<Event>, more: seq<Event>)
    requires Subsequence(a, b)
    ensures Subsequence(a, b + more) && Subsequence(a + Encodables(more), b + more)
    decreases |more|
  {
    if more == [] {
      assert b + more == b && a + Encodables(more) == a;
    } else {
      var front, last := more[..|more| - 1], more[|more| - 1];
      var tail := if Encodes(last) then [last] else [];
      SubsequenceGrows(a, b, front);
      SubsequencePush(a, b + front, last, false);
      SubsequencePush(a + Encodables(front), b + front, last, Encodes(last));
      assert a + [] == a;
      assert b + more == (b + front) + [last];
      assert Encodables(more) == Encodables(front) + tail;
      assert a + (Encodables(front) + tail) == (a + Encodables(front)) + tail;
    }
  }

  lemma {:induction false} SubsequenceMembers(a: seq<Event>, b: seq<Event>)
    requires Subsequence(a, b)
    ensures multiset(a) <= multiset(b) && |a| <= |b|
    decreases |b|
  {
    if a != [] {
      var a', b' := a[..|a| - 1], b[..|b| - 1];
      assert a == a' + [a[|a| - 1]] && b == b' + [b[|b| - 1]];
      if a[|a| - 1] == b[|b| - 1] && Subsequence(a', b') {
        SubsequenceMembers(a', b');
      } else {
        SubsequenceMembers(a, b');
      }
    }
  }

  // ----- every step keeps it

  lemma FlushKeeps(s: State, leaving: bool)
    requires s.stage.Selecting? && Shape(s.(batch := [])) && |s.batch| <= BATCH && (leaving ==> s.draining)
    requires Fifo(s) && Books(s)
    ensures Inv(Flush(s, leaving))
  {
    if s.batch != [] {
      var more := s.log.delivered + s.batch;
      assert more[|more| - |s.batch|..] == s.batch;
      assert s.log.delivered + (s.batch + s.queue) == more + s.queue;
      assert [] + s.queue == s.queue;
      assert s.batch[..0] == [];
    }
  }

  lemma RecordKeeps(s: State, e: Event, now: int)
    requires Inv(s)
    ensures Inv(Next(s, Record(e, now)))
  {
    if e.kind != "" && |s.queue| < BUFFER {
      var t := Next(s, Record(e, now));
      assert Held(t) == Held(s) + [Prepare(e, now)];
      assert s.log.delivered + (Held(s) + [Prepare(e, now)]) == (s.log.delivered + Held(s)) + [Prepare(e, now)];
    }
  }

  lemma ReceiveKeeps(s: State)
    requires Inv(s)
    ensures Inv(Next(s, Receive))
  {
    if s.stage.Selecting? && s.queue != [] {
      var t := s.(queue := s.queue[1..], batch := s.batch + [s.queue[0]]);
      assert s.batch + s.queue == t.batch + t.queue;
      if |t.batch| >= BATCH {
        FlushKeeps(t, false);
      }
    }
  }

  lemma EncodablesNext(batch: seq<Event>, next: nat)
    requires next < |batch|
    ensures Encodables(batch[..next + 1]) == Encodables(batch[..next]) + if Encodes(batch[next]) then [batch[next]] else []
  {
    assert batch[..next + 1][..next] == batch[..next];
  }

  lemma EncodeKeeps(s: State)
    requires Inv(s)
    ensures Inv(Next(s, Encode))
  {
    if s.stage.Encoding? && s.stage.next < |s.batch| {
      EncodablesNext(s.batch, s.stage.next);
    }
  }

  lemma InsertKeeps(s: State, ok: bool)
    requires Inv(s)
    ensures Inv(Next(s, Insert(ok)))
  {
    if s.stage.Encoding? && s.stage.next == |s.batch| {
      assert s.batch[..|s.batch|] == s.batch;
      assert [] + s.queue == s.queue;
    }
  }

  lemma StepInv(s: State, l: Label)
    requires Inv(s)
    ensures Inv(Next(s, l))
  {
    match l
    case Record(e, now) => RecordKeeps(s, e, now);
    case Receive => ReceiveKeeps(s);
    case Tick => if s.stage.Selecting? && !s.draining { FlushKeeps(s, false); }
    case Empty => if s.stage.Selecting? && s.draining && s.queue == [] { FlushKeeps(s, true); }
    case Encode => EncodeKeeps(s);
    case Insert(ok) => InsertKeeps(s, ok);
    case Close =>
    case Stop =>
  }

  lemma {:induction false} InvAfter(s: State, ls: seq<Label>)
    requires Inv(s)
    ensures Inv(After(s, ls))
    decreases |ls|
  {
    if ls != [] {
      StepInv(s, ls[0]);
      InvAfter(Next(s, ls[0]), ls[1..]);
    }
  }

  lemma {:induction false} SameDatabase(s: State, ls: seq<Label>)
    ensures After(s, ls).db == s.db
    decreases |ls|
  {
    if ls != [] {
      SameDatabase(Next(s, ls[0]), ls[1..]);
    }
  }

  lemma FlushStored(s: State, leaving: bool)
    requires s.stage.Selecting? && Subsequence(s.log.stored, s.log.delivered)
    requires Shape(Flush(s, leaving))
    ensures Subsequence(s.log.stored, Settled(Flush(s, leaving)))
  {
    SubsequenceGrows(s.log.stored, s.log.delivered, s.batch);
    assert (s.log.delivered + s.batch)[..|s.log.delivered|] == s.log.delivered;
  }

  lemma InsertStored(s: State, ok: bool)
    requires Shape(s) && s.stage.Encoding? && s.stage.next == |s.batch| && StoredInOrder(s)
    requires Shape(Next(s, Insert(ok)))
    ensures StoredInOrder(Next(s, Insert(ok)))
  {
    hide Shape;
    var settled := Settled(s);
    assert settled + s.batch == s.log.delivered by { BatchLast(s); }
    SubsequenceGrows(s.log.stored, settled, s.batch);
    EncodablesEncode(s.batch);
    BothEncode(s.log.stored, Encodables(s.batch));
  }

  /** A batch being written was the last to be handed over. */
  lemma BatchLast(s: State)
    requires Shape(s) && s.stage.Encoding?
    ensures |s.batch| <= |s.log.delivered| && Settled(s) + s.batch == s.log.delivered
  {
  }

  lemma BothEncode(a: seq<Event>, b: seq<Event>)
    requires AllEncode(a) && AllEncode(b)
    ensures AllEncode(a + b)
  {
  }

  lemma ReceiveStored(s: State)
    requires Shape(s) && StoredInOrder(s) && Shape(Next(s, Receive))
    ensures StoredInOrder(Next(s, Receive))
  {
    if s.stage.Selecting? && s.queue != [] && |s.batch| + 1 >= BATCH {
      FlushStored(s.(queue := s.queue[1..], batch := s.batch + [s.queue[0]]), false);
    }
  }

  /** The other labels neither hand over nor store anything. */
  lemma Quiet(s: State, l: Label)
    requires l.Record? || l.Close? || l.Stop? || l.Encode?
    ensures var t := Next(s, l);
      && t.batch == s.batch && t.log.delivered == s.log.delivered && t.log.stored == s.log.stored
      && (t.stage.Encoding? <==> s.stage.Encoding?)
  {
    match l
    case Record(_, _) =>
    case Encode =>
    case _ =>
  }

  lemma StoredSame(s: State, t: State)
    requires Shape(s) && Shape(t) && StoredInOrder(s)
    requires t.batch == s.batch && t.log.delivered == s.log.delivered && t.log.stored == s.log.stored
    requires t.stage.Encoding? <==> s.stage.Encoding?
    ensures StoredInOrder(t)
  {
    assert Settled(t) == Settled(s);
  }

  lemma StoredStep(s: State, l: Label)
    requires Shape(s) && StoredInOrder(s) && Shape(Next(s, l))
    ensures StoredInOrder(Next(s, l))
  {
    match l
    case Receive => ReceiveStored(s);
    case Tick => if s.stage.Selecting? && !s.draining { FlushStored(s, false); }
    case Empty => if s.stage.Selecting? && s.draining && s.queue == [] { FlushStored(s, true); }
    case Insert(ok) => if s.stage.Encoding? && s.stage.next == |s.batch| { InsertStored(s, ok); }
    case _ => Quiet(s, l); StoredSame(s, Next(s, l));
  }

  lemma {:induction false} StoredAfter(s: State, ls: seq<Label>)
    requires Inv(s) && StoredInOrder(s)
    ensures Shape(After(s, ls)) && StoredInOrder(After(s, ls))
    decreases |ls|
  {
    if ls != [] {
      StepInv(s, ls[0]);
      StoredStep(s, ls[0]);
      StoredAfter(Next(s, ls[0]), ls[1..]);
    }
  }

  /** Only `Record` accepts, and only prepared events. */
  lemma AcceptedStep(s: State, l: Label)
    requires AllPrepared(s.log.accepted)
    ensures AllPrepared(Next(s, l).log.accepted)
  {
    if l.Record? && l.event.kind != "" {
      PrepareClean(l.event, l.now);
    }
  }

  lemma {:induction false} AcceptedPrepared(s: State, ls: seq<Label>)
    requires AllPrepared(s.log.accepted)
    ensures AllPrepared(After(s, ls).log.accepted)
    decreases |ls|
  {
    if ls != [] {
      AcceptedStep(s, ls[0]);
      AcceptedPrepared(Next(s, ls[0]), ls[1..]);
    }
  }

  // ----- what holds in every interleaving

  /** How many events with a type the producers recorded. */
  function Recorded(ls: seq<Label>): nat {
    if ls == [] then 0 else (if ls[0].Record? && ls[0].event.kind != "" then 1 else 0) + Recorded(ls[1..])
  }

  lemma {:induction false} RecordedExactly(s: State, ls: seq<Label>)
    ensures After(s, ls).log.recorded == s.log.recorded + Recorded(ls)
    decreases |ls|
  {
    if ls != [] {
      RecordedExactly(Next(s, ls[0]), ls[1..]);
    }
  }

  /** Every event recorded with a type is, at every moment of every interleaving, counted in exactly one
      place: dropped, written, queued or in hand.  Without a database the accounts balance only until
      the first batch is handed over: what `writeBatch` is then given is in no count. */
  lemma Conservation(db: bool, ls: seq<Label>)
    ensures var s := After(Init(db), ls);
      Recorded(ls) == s.dropped + s.written + |s.queue| + InHand(s) <==> db || s.log.delivered == []
  {
    InvAfter(Init(db), ls);
    SameDatabase(Init(db), ls);
    RecordedExactly(Init(db), ls);
  }

  lemma StoredDelivered(s: State)
    requires Shape(s) && StoredInOrder(s)
    ensures Subsequence(s.log.stored, s.log.delivered)
  {
    if s.stage.Encoding? {
      assert Settled(s) + s.batch == s.log.delivered;
      SubsequenceGrows(s.log.stored, Settled(s), s.batch);
    }
  }

  lemma MembersPrepared(a: seq<Event>, b: seq<Event>, c: seq<Event>)
    requires Subsequence(a, b) && AllPrepared(b + c)
    ensures AllPrepared(a)
  {
    SubsequenceMembers(a, b);
    forall i | 0 <= i < |a| ensures IsPrepared(a[i]) {
      assert a[i] in multiset(a) && a[i] in multiset(b);
      var k :| 0 <= k < |b| && b[k] == a[i];
      assert (b + c)[k] == b[k];
    }
  }

  /** Accepted events reach `writeBatch` in the order they were accepted, each once; what is stored is
      a subsequence of them, as long as the counter says, and holds no forbidden payload key. */
  lemma OrderKept(db: bool, ls: seq<Label>)
    ensures var s := After(Init(db), ls);
      && s.log.accepted == s.log.delivered + Held(s)
      && Subsequence(s.log.stored, s.log.delivered) && |s.log.stored| == s.written
      && AllPrepared(s.log.stored) && AllEncode(s.log.stored)
  {
    var s := After(Init(db), ls);
    InvAfter(Init(db), ls);
    StoredAfter(Init(db), ls);
    AcceptedPrepared(Init(db), ls);
    StoredDelivered(s);
    MembersPrepared(s.log.stored, s.log.delivered, Held(s));
  }

  /** No batch ever holds more than its size, the queue never more than its buffer, and the goroutine
      waits only with room in its batch and returns only with none in hand. */
  lemma Bounded(db: bool, ls: seq<Label>)
    ensures var s := After(Init(db), ls);
      && |s.batch| <= BATCH && |s.queue| <= BUFFER
      && (s.stage.Selecting? ==> |s.batch| < BATCH)
      && (s.stage.Exited? ==> s.batch == [] && s.closed)
  {
    InvAfter(Init(db), ls);
  }

  /** An event is dropped on arrival exactly when the queue is full, and otherwise it is the next accepted. */
  lemma RecordExactly(db: bool, ls: seq<Label>, e: Event, now: int)
    requires e.kind != ""
    ensures var s := After(Init(db), ls);
      var t := Next(s, Record(e, now));
      && t.batch == s.batch && t.stage == s.stage && t.written == s.written
      && (t.dropped == s.dropped <==> |s.queue| < 4096)
      && (t.dropped == s.dropped + 1 <==> |s.queue| == 4096)
      && t.log.accepted == s.log.accepted + (if |s.queue| == 4096 then [] else [Prepare(e, now)])
      && t.log.accepted == t.log.delivered + Held(t)
  {
    var s := After(Init(db), ls);
    InvAfter(Init(db), ls);
    StepInv(s, Record(e, now));
    assert s.log.accepted + [] == s.log.accepted;
  }

  /** A received event is the oldest in the queue; it joins the batch, which is handed over as its
      sixty-fourth joins and not before. */
  lemma ReceiveExactly(db: bool, ls: seq<Label>)
    requires After(Init(db), ls).stage.Selecting? && After(Init(db), ls).queue != []
    ensures var s, t := After(Init(db), ls), Next(After(Init(db), ls), Receive);
      && t.queue == s.queue[1..] && t.log.accepted == s.log.accepted && t.dropped == s.dropped
      && t.log.delivered == s.log.delivered + (if |s.batch| == 63 then s.batch + [s.queue[0]] else [])
      && (t.stage.Selecting? ==> t.batch == if |s.batch| == 63 then [] else s.batch + [s.queue[0]])
  {
    var s := After(Init(db), ls);
    InvAfter(Init(db), ls);
    assert s.log.delivered + [] == s.log.delivered;
  }

  lemma {:induction false} EncodablesConcat(a: seq<Event>, b: seq<Event>)
    ensures Encodables(a + b) == Encodables(a) + Encodables(b)
    decreases |b|
  {
    if b == [] {
      assert a + b == a && Encodables(a) + [] == Encodables(a);
    } else {
      var n := |b| - 1;
      EncodablesConcat(a, b[..n]);
      assert (a + b)[..|a + b| - 1] == a + b[..n];
    }
  }

  /** Every insert of the run succeeds. */
  ghost predicate NoFailure(ls: seq<Label>) {
    forall i :: 0 <= i < |ls| ==> ls[i] != Insert(false)
  }

  /** Everything encodable of the finished batches is stored. */
  ghost predicate AllStored(s: State)
    requires Shape(s)
  {
    s.db ==> s.log.stored == Encodables(Settled(s))
  }

  lemma FlushAllStored(s: State, leaving: bool)
    requires s.stage.Selecting? && (s.db ==> s.log.stored == Encodables(s.log.delivered))
    requires Shape(Flush(s, leaving))
    ensures AllStored(Flush(s, leaving))
  {
    assert (s.log.delivered + s.batch)[..|s.log.delivered|] == s.log.delivered;
  }

  lemma AllStoredStep(s: State, l: Label)
    requires Shape(s) && AllStored(s) && l != Insert(false) && Shape(Next(s, l))
    ensures AllStored(Next(s, l))
  {
    hide Encodables, Encodes;
    match l
    case Receive =>
      if s.stage.Selecting? && s.queue != [] && |s.batch| + 1 >= BATCH {
        FlushAllStored(s.(queue := s.queue[1..], batch := s.batch + [s.queue[0]]), false);
      }
    case Tick => if s.stage.Selecting? && !s.draining { FlushAllStored(s, false); }
    case Empty => if s.stage.Selecting? && s.draining && s.queue == [] { FlushAllStored(s, true); }
    case Insert(_) => if s.stage.Encoding? && s.stage.next == |s.batch| { InsertAllStored(s); }
    case _ =>
      Quiet(s, l);
      SameDatabase(s, [l]);
      AllStoredSame(s, Next(s, l));
  }

  lemma InsertAllStored(s: State)
    requires Shape(s) && s.stage.Encoding? && s.stage.next == |s.batch| && AllStored(s)
    requires Shape(Next(s, Insert(true)))
    ensures AllStored(Next(s, Insert(true)))
  {
    BatchLast(s);
    EncodablesConcat(Settled(s), s.batch);
    assert s.batch[..|s.batch|] == s.batch;
    hide Encodables, Encodes, Subsequence;
    assert Encodables(s.batch) == [] ==> s.log.stored + Encodables(s.batch) == s.log.stored;
  }

  lemma AllStoredSame(s: State, t: State)
    requires Shape(s) && Shape(t) && AllStored(s) && t.db == s.db
    requires t.batch == s.batch && t.log.delivered == s.log.delivered && t.log.stored == s.log.stored
    requires t.stage.Encoding? <==> s.stage.Encoding?
    ensures AllStored(t)
  {
    assert Settled(t) == Settled(s);
  }

  lemma {:induction false} AllStoredAfter(s: State, ls: seq<Label>)
    requires Inv(s) && AllStored(s) && NoFailure(ls)
    ensures Shape(After(s, ls)) && AllStored(After(s, ls))
    decreases |ls|
  {
    hide Next, AllStored, Shape, Inv;
    if ls != [] {
      StepInv(s, ls[0]);
      Shaped(s);
      Shaped(Next(s, ls[0]));
      AllStoredStep(s, ls[0]);
      AllStoredAfter(Next(s, ls[0]), ls[1..]);
    } else {
      Shaped(s);
    }
  }

  lemma Shaped(s: State)
    requires Inv(s)
    ensures Shape(s)
  {
  }

  /** As long as no insert fails, every event of a finished batch that can be encoded is stored. */
  lemma StoredExactly(ls: seq<Label>)
    requires NoFailure(ls)
    ensures var s := After(Init(true), ls);
      Shape(s) && s.log.stored == Encodables(Settled(s))
  {
    SameDatabase(Init(true), ls);
    AllStoredAfter(Init(true), ls);
  }

  // ----- ticking

  /** What the goroutine has taken off the queue. */
  function Received(s: State): seq<Event> {
    s.log.delivered + if s.stage.Selecting? then s.batch else []
  }

  lemma ReceivedSplits(s: State)
    requires Fifo(s)
    ensures |s.queue| <= |s.log.accepted| && Received(s) == s.log.accepted[..|s.log.accepted| - |s.queue|]
  {
    assert s.log.accepted == Received(s) + s.queue;
  }

  lemma ReceivedGrows(s: State, l: Label)
    ensures Received(s) <= Received(Next(s, l))
  {
    assert s.log.delivered + [] == s.log.delivered;
    match l
    case Receive =>
    case Insert(_) =>
    case _ =>
  }

  lemma {:induction false} ReceivedAfter(s: State, ls: seq<Label>)
    ensures Received(s) <= Received(After(s, ls))
    decreases |ls|
  {
    hide Next, Received;
    if ls != [] {
      ReceivedGrows(s, ls[0]);
      ReceivedAfter(Next(s, ls[0]), ls[1..]);
    }
  }

  /** The goroutine is waiting, not writing and not draining: the arm of the ticker can be taken. */
  ghost predicate Waiting(s: State) {
    s.stage.Selecting? && !s.draining
  }

  /** A tick hands over the batch in hand, however few its events. */
  lemma TickFlushes(s: State)
    requires Inv(s) && Waiting(s)
    ensures var t := Next(s, Tick);
      && t.log.delivered == s.log.delivered + s.batch && t.queue == s.queue && t.log.accepted == s.log.accepted
      && t.log.accepted == t.log.delivered + t.queue
      && (t.stage.Selecting? ==> t.batch == []) && (t.stage.Encoding? ==> s.db && t.batch == s.batch)
  {
    StepInv(s, Tick);
    assert s.log.delivered + [] == s.log.delivered && [] + s.queue == s.queue;
  }

  /** While the goroutine is not draining, no received event waits longer than to the next tick: whatever had been
      taken off the queue by step `j` has been handed over once the ticker's arm is taken at a later step `i`,
      and then all that is still undelivered is in the queue. */
  lemma ReceivedByTick(db: bool, ls: seq<Label>, j: nat, i: nat)
    requires j <= i < |ls| && ls[i] == Tick && Waiting(After(Init(db), ls[..i]))
    ensures var s, t := After(Init(db), ls[..j]), After(Init(db), ls[..i + 1]);
      && |s.queue| <= |s.log.accepted|
      && s.log.accepted[..|s.log.accepted| - |s.queue|] <= t.log.delivered
      && t.log.accepted == t.log.delivered + t.queue
  {
    hide Next, Waiting, Inv;
    var s, u := After(Init(db), ls[..j]), After(Init(db), ls[..i]);
    Fresh(db);
    InvAfter(Init(db), ls[..j]);
    InvAfter(Init(db), ls[..i]);
    InvIsFifo(s);
    ReceivedSplits(s);
    assert ls[..i] == ls[..j] + ls[j..i];
    AfterConcat(Init(db), ls[..j], ls[j..i]);
    ReceivedAfter(s, ls[j..i]);
    AfterNext(db, ls, i);
    TickFlushes(u);
    WaitingReceived(u);
  }

  lemma Fresh(db: bool)
    ensures Inv(Init(db))
  {
  }

  lemma InvIsFifo(s: State)
    requires Inv(s)
    ensures Fifo(s)
  {
  }

  lemma WaitingReceived(s: State)
    requires Waiting(s)
    ensures Received(s) == s.log.delivered + s.batch
  {
  }

  // ----- closing

  ghost predicate Leaving(s: State) {
    s.stage.Exited? || (s.stage.Encoding? && s.stage.leaving)
  }

  /** Once the goroutine is on its way out, everything in `base` has been handed over. */
  ghost predicate Owes(s: State, base: seq<Event>) {
    base <= s.log.accepted && (Leaving(s) ==> base <= s.log.delivered)
  }

  lemma LogGrows(s: State, l: Label)
    ensures s.log.accepted <= Next(s, l).log.accepted && s.log.delivered <= Next(s, l).log.delivered
  {
  }

  /** `Close` only announces itself: the drain starts where the goroutine, waiting, takes the arm. */
  lemma DrainStartsExactly(s: State, l: Label)
    requires !s.draining
    ensures Next(s, l).draining <==> l.Stop? && s.closed && s.stage.Selecting?
  {
  }

  /** The way out starts with an empty queue observed, and everything accepted by then is handed over. */
  lemma LeavesEmpty(s: State, l: Label)
    requires Fifo(s) && Leaving(Next(s, l)) && !Leaving(s)
    ensures l.Empty? && s.queue == [] && Next(s, l).log.delivered == s.log.accepted
  {
    assert s.batch + [] == s.batch && s.log.delivered + [] == s.log.delivered;
  }

  lemma OwesStep(s: State, l: Label, base: seq<Event>)
    requires Fifo(s) && Owes(s, base)
    ensures Owes(Next(s, l), base)
  {
    LogGrows(s, l);
    if Leaving(Next(s, l)) && !Leaving(s) {
      LeavesEmpty(s, l);
    }
  }

  lemma {:induction false} OwesAfter(s: State, ls: seq<Label>, base: seq<Event>)
    requires Inv(s) && Owes(s, base)
    ensures Owes(After(s, ls), base)
    decreases |ls|
  {
    if ls != [] {
      StepInv(s, ls[0]);
      OwesStep(s, ls[0], base);
      OwesAfter(Next(s, ls[0]), ls[1..], base);
    }
  }

  /** When the goroutine has returned, every event accepted before `Close` was called has been handed to
      `writeBatch`, whatever was recorded, ticked or closed in the meantime. */
  lemma CloseDrains(db: bool, before: seq<Label>, after: seq<Label>)
    requires !After(Init(db), before).closed && After(Init(db), before + after).stage.Exited?
    ensures After(Init(db), before).log.accepted <= After(Init(db), before + after).log.delivered
  {
    var s := After(Init(db), before);
    InvAfter(Init(db), before);
    AfterConcat(Init(db), before, after);
    OwesAfter(s, after, s.log.accepted);
  }

  /** On its way out the goroutine takes nothing more. */
  lemma LeavingTakesNothing(s: State, l: Label)
    requires Leaving(s)
    ensures Leaving(Next(s, l)) && Next(s, l).log.delivered == s.log.delivered
  {
  }

  lemma {:induction false} NothingAfterLeaving(s: State, ls: seq<Label>)
    requires Leaving(s)
    ensures Leaving(After(s, ls)) && After(s, ls).log.delivered == s.log.delivered
    decreases |ls|
  {
    hide Next, Leaving;
    if ls != [] {
      LeavingTakesNothing(s, ls[0]);
      NothingAfterLeaving(Next(s, ls[0]), ls[1..]);
    }
  }

  lemma {:induction false} AcceptedGrows(s: State, ls: seq<Label>)
    ensures |s.log.accepted| <= |After(s, ls).log.accepted|
    decreases |ls|
  {
    hide Next;
    if ls != [] {
      LogGrows(s, ls[0]);
      AcceptedGrows(Next(s, ls[0]), ls[1..]);
    }
  }

  lemma AcceptedBy(db: bool, ls: seq<Label>, i: nat, j: nat)
    requires i <= j <= |ls|
    ensures |After(Init(db), ls[..i]).log.accepted| <= |After(Init(db), ls[..j]).log.accepted|
  {
    hide Next;
    assert ls[..j] == ls[..i] + ls[i..j];
    AfterConcat(Init(db), ls[..i], ls[i..j]);
    AcceptedGrows(After(Init(db), ls[..i]), ls[i..j]);
  }

  lemma AfterNext(db: bool, ls: seq<Label>, i: nat)
    requires i < |ls|
    ensures After(Init(db), ls[..i + 1]) == Next(After(Init(db), ls[..i]), ls[i])
  {
    hide Next;
    assert ls[..i + 1] == ls[..i] + [ls[i]] && [ls[i]][1..] == [];
    AfterConcat(Init(db), ls[..i], [ls[i]]);
  }

  lemma {:induction false} FindLeaving(db: bool, ls: seq<Label>) returns (i: nat)
    requires Leaving(After(Init(db), ls))
    ensures i < |ls| && !Leaving(After(Init(db), ls[..i])) && Leaving(After(Init(db), ls[..i + 1]))
    decreases |ls|
  {
    hide Next;
    var n := |ls| - 1;
    assert ls != [];
    assert ls[..n + 1] == ls;
    if Leaving(After(Init(db), ls[..n])) {
      i := FindLeaving(db, ls[..n]);
      assert ls[..n][..i] == ls[..i] && ls[..n][..i + 1] == ls[..i + 1];
    } else {
      i := n;
    }
  }

  /** Step `j` of the run accepts an event. */
  ghost predicate AcceptsAt(db: bool, ls: seq<Label>, j: nat)
    requires j < |ls|
  {
    |After(Init(db), ls[..j + 1]).log.accepted| > |After(Init(db), ls[..j]).log.accepted|
  }

  /** Which events the goroutine hands over before it returns, whether recorded before `Close` or after:
      exactly those accepted before the step `i` at which it observed an empty queue for the last time. */
  lemma HandedOverExactly(db: bool, ls: seq<Label>) returns (i: nat)
    requires Leaving(After(Init(db), ls))
    ensures i < |ls| && ls[i] == Empty && After(Init(db), ls[..i]).queue == [] && After(Init(db), ls[..i]).closed
    ensures After(Init(db), ls).log.delivered == After(Init(db), ls[..i]).log.accepted
    ensures forall j :: 0 <= j < |ls| && AcceptsAt(db, ls, j) ==>
      (|After(Init(db), ls[..j]).log.accepted| < |After(Init(db), ls).log.delivered| <==> j < i)
  {
    i := FindLeaving(db, ls);
    var s := After(Init(db), ls[..i]);
    InvAfter(Init(db), ls[..i]);
    AfterNext(db, ls, i);
    LeavesEmpty(s, ls[i]);
    assert ls == ls[..i + 1] + ls[i + 1..];
    AfterConcat(Init(db), ls[..i + 1], ls[i + 1..]);
    NothingAfterLeaving(After(Init(db), ls[..i + 1]), ls[i + 1..]);
    forall j | 0 <= j < |ls| && AcceptsAt(db, ls, j)
      ensures |After(Init(db), ls[..j]).log.accepted| < |After(Init(db), ls).log.delivered| <==> j < i
    {
      if j < i {
        AcceptedBy(db, ls, j + 1, i);
      } else {
        AcceptedBy(db, ls, i, j);
      }
    }
  }

  // ----- writing a batch without interruption

  /** The labels of one `writeBatch` that encodes `k` events and then runs its insert. */
  function Write(k: nat, ok: bool): seq<Label> {
    seq(k, _ => Encode) + [Insert(ok)]
  }

  /** The state after a whole `writeBatch`: unencodable events dropped one by one, and all the others
      either written or dropped together. */
  function Written(s: State, ok: bool): State
    requires s.stage.Encoding?
  {
    var good := Encodables(s.batch);
    var done := s.(batch := [], stage := Away(s.stage.leaving), dropped := s.dropped + |s.batch| - |good|);
    if ok then done.(written := s.written + |good|, log := s.log.(stored := s.log.stored + good))
    else done.(dropped := done.dropped + |good|)
  }

  function Encoded(s: State, k: nat): State
    requires s.stage.Encoding? && k <= |s.batch|
  {
    var n := |Encodables(s.batch[..k])|;
    s.(stage := s.stage.(next := k, encoded := n), dropped := s.dropped + k - n)
  }

  lemma EncodedNext(s: State, k: nat)
    requires s.stage.Encoding? && k < |s.batch|
    ensures Next(Encoded(s, k), Encode) == Encoded(s, k + 1)
  {
    EncodablesNext(s.batch, k);
  }

  lemma {:induction false} EncodeRun(s: State, k: nat)
    requires s.stage.Encoding? && s.stage.next == s.stage.encoded == 0 && k <= |s.batch|
    ensures After(s, seq(k, _ => Encode)) == Encoded(s, k)
  {
    var all: seq<Label> := seq(k, _ => Encode);
    if k == 0 {
      assert s.batch[..0] == [];
    } else {
      var front: seq<Label> := seq(k - 1, _ => Encode);
      EncodeRun(s, k - 1);
      EncodedNext(s, k - 1);
      AfterConcat(s, front, [Encode]);
      assert all == front + [Encode] && [Encode][1..] == [];
    }
  }

  lemma WriteRun(s: State, ok: bool)
    requires s.stage.Encoding? && s.stage.next == s.stage.encoded == 0
    ensures After(s, Write(|s.batch|, ok)) == Written(s, ok)
  {
    var k := |s.batch|;
    EncodeRun(s, k);
    AfterConcat(s, seq(k, _ => Encode), [Insert(ok)]);
    assert s.batch[..k] == s.batch;
    assert [Insert(ok)][1..] == [];
    assert s.log.stored + [] == s.log.stored;
  }

  // ----- how long the drain takes

  /** One more event recorded while the goroutine drains, received, and written if it fills the batch. */
  function Round(s: State, e: Event, now: int): seq<Label> {
    [Record(e, now), Receive] + if s.db && |s.batch| + 1 >= BATCH then Write(|s.batch| + 1, true) else []
  }

  function KeepOpen(s: State, e: Event, now: int, n: nat): seq<Label>
    decreases n
  {
    if n == 0 then [] else
    var round := Round(s, e, now);
    round + KeepOpen(After(s, round), e, now, n - 1)
  }

  ghost predicate Idle(s: State) {
    s.stage.Selecting? && s.draining && s.queue == [] && |s.batch| < BATCH
  }

  lemma RoundStaysOpen(s: State, e: Event, now: int)
    requires Idle(s) && e.kind != ""
    ensures Idle(After(s, Round(s, e, now)))
    ensures After(s, Round(s, e, now)).log.accepted == s.log.accepted + [Prepare(e, now)]
  {
    var a := Next(s, Record(e, now));
    var b := Next(a, Receive);
    var head := [Record(e, now), Receive];
    assert head[1..] == [Receive] && [Receive][1..] == [];
    assert After(s, head) == b;
    assert a.queue[1..] == [];
    if s.db && |s.batch| + 1 >= BATCH {
      WriteRun(b, true);
      AfterConcat(s, head, Write(|s.batch| + 1, true));
    } else {
      assert head + [] == head;
    }
  }

  /** New arrivals are waited for: whoever keeps recording can hold the drain open for any number of
      events after `Close`, each of them received. */
  lemma {:induction false} DrainHeldOpen(s: State, e: Event, now: int, n: nat)
    requires Idle(s) && e.kind != ""
    ensures var t := After(s, KeepOpen(s, e, now, n));
      Idle(t) && |t.log.accepted| == |s.log.accepted| + n
    decreases n
  {
    if n > 0 {
      var round := Round(s, e, now);
      RoundStaysOpen(s, e, now);
      DrainHeldOpen(After(s, round), e, now, n - 1);
      AfterConcat(s, round, KeepOpen(After(s, round), e, now, n - 1));
    }
  }

  /** So after `Close` any number of events may be recorded and every one of them received, the queue empty
      again and the drain still going on. */
  lemma DrainHeldOpenAfterClose(db: bool, e: Event, now: int, n: nat)
    requires e.kind != ""
    ensures exists ls: seq<Label> ::
      var t := After(Init(db), [Close, Stop] + ls);
      && Idle(t) && |t.log.accepted| == n && t.log.accepted == t.log.delivered + t.batch
  {
    var ls := [Close, Stop];
    assert ls[1..] == [Stop] && [Stop][1..] == [];
    var s := After(Init(db), ls);
    assert s == Next(Next(Init(db), Close), Stop);
    DrainHeldOpen(s, e, now, n);
    AfterConcat(Init(db), ls, KeepOpen(s, e, now, n));
    var t := After(Init(db), ls + KeepOpen(s, e, now, n));
    InvAfter(Init(db), ls + KeepOpen(s, e, now, n));
    assert t.batch + [] == t.batch;
  }

  /** What the drain still has to do. */
  function Measure(s: State): int {
    match s.stage
    case Selecting => 3 * |s.queue| + 2 * |s.batch| + 1
    case Encoding(next, _, leaving) => |s.batch| - next + 1 + if leaving then 0 else 3 * |s.queue| + 1
    case Exited => 0
  }

  function Records(ls: seq<Label>): nat {
    if ls == [] then 0 else (if ls[0].Record? then 1 else 0) + Records(ls[1..])
  }

  /** Every label of the run takes effect. */
  ghost predicate Effective(s: State, ls: seq<Label>)
    decreases |ls|
  {
    ls == [] || (Next(s, ls[0]) != s && Effective(Next(s, ls[0]), ls[1..]))
  }

  lemma MeasureStep(s: State, l: Label)
    requires Inv(s) && s.draining && Next(s, l) != s
    ensures Next(s, l).draining
    ensures Measure(Next(s, l)) <= Measure(s) + if l.Record? then 3 else -1
  {
  }

  /** With no more than `Records(ls)` new arrivals the drain takes at most the measure plus three steps for each, and
      until it has returned the goroutine always has a step to take. */
  lemma {:induction false} DrainBounded(s: State, ls: seq<Label>)
    requires Inv(s) && s.draining && Effective(s, ls)
    ensures |ls| - Records(ls) <= Measure(s) + 3 * Records(ls)
    ensures !After(s, ls).stage.Exited? ==> exists l: Label :: !l.Record? && Next(After(s, ls), l) != After(s, ls)
    decreases |ls|
  {
    if ls == [] {
      if !s.stage.Exited? {
        GoesOn(s);
      }
    } else {
      StepInv(s, ls[0]);
      MeasureStep(s, ls[0]);
      DrainBounded(Next(s, ls[0]), ls[1..]);
    }
  }

  lemma GoesOn(s: State)
    requires Inv(s) && s.draining && !s.stage.Exited?
    ensures exists l: Label :: !l.Record? && Next(s, l) != s
  {
    var l := match s.stage
      case Selecting => if s.queue == [] then Empty else Receive
      case Encoding(next, _, _) => if next < |s.batch| then Encode else Insert(true);
    assert Next(s, l) != s;
  }

  // ----- the object

  datatype Arm = FromQueue | FromTicker | FromStop

  /** One thing that happens while `run` is selecting: another goroutine calls `Record` or `Close`, or
      the `select` takes an arm, a batch written on the way meeting `ok`. */
  datatype Turn = Arrival(event: Event, now: int) | Closing | Pick(arm: Arm, ok: bool)

  function FirstLabel(s: State, arm: Arm): Label {
    if s.draining then if s.queue == [] then Empty else Receive else
    match arm
    case FromQueue => Receive
    case FromTicker => Tick
    case FromStop => Stop
  }

  function TurnLabels(s: State, turn: Turn): seq<Label> {
    match turn
    case Arrival(e, now) => [Record(e, now)]
    case Closing => [Close]
    case Pick(arm, ok) =>
      var t := Next(s, FirstLabel(s, arm));
      [FirstLabel(s, arm)] + if t.stage.Encoding? then Write(|t.batch|, ok) else []
  }

  function Labels(s: State, script: seq<Turn>): seq<Label>
    decreases |script|
  {
    if script == [] then [] else
    TurnLabels(s, script[0]) + Labels(After(s, TurnLabels(s, script[0])), script[1..])
  }

  /** A whole `flush`. */
  function Flushed(s: State, leaving: bool, ok: bool): State {
    var t := Flush(s, leaving);
    if t.stage.Encoding? then Written(t, ok) else t
  }

  lemma TurnRun(s: State, arm: Arm, ok: bool)
    requires !s.stage.Encoding?
    ensures var t := Next(s, FirstLabel(s, arm));
      After(s, TurnLabels(s, Pick(arm, ok))) == if t.stage.Encoding? then Written(t, ok) else t
  {
    var first := FirstLabel(s, arm);
    var t := Next(s, first);
    assert t.stage.Encoding? ==> t.stage.next == t.stage.encoded == 0;
    Thereafter(s, first, if t.stage.Encoding? then Write(|t.batch|, ok) else []);
    if t.stage.Encoding? {
      WriteRun(t, ok);
    }
  }

  lemma Thereafter(s: State, first: Label, rest: seq<Label>)
    ensures After(s, [first] + rest) == After(Next(s, first), rest)
  {
    assert ([first] + rest)[1..] == rest;
  }

  class Writer {
    const db: bool
    var queue: seq<Event>
    var batch: seq<Event>
    var draining: bool
    var exited: bool
    var closed: bool
    var dropped: nat
    var written: nat
    ghost var log: Log

    ghost function View(): State
      reads this
    {
      State(db, queue, batch, Away(exited), draining, closed, dropped, written, log)
    }

    constructor (db: bool)
      ensures View() == Init(db)
    {
      this.db := db;
      queue, batch, draining, exited, closed, dropped, written := [], [], false, false, false, 0, 0;
      log := Log(0, [], [], []);
    }

    method Record(e: Event, now: int)
      modifies this
      ensures View() == Next(old(View()), Label.Record(e, now))
    {
      if e.kind == "" {
        return;
      }
      log := log.(recorded := log.recorded + 1);
      var filled := e;
      if filled.source == "" {
        filled := filled.(source := LOBBY);
      }
      if filled.occurredAt.None? {
        filled := filled.(occurredAt := Some(now));
      }
      var payload := PayloadKeys.SanitizePayload(PayloadKeys.OrEmpty(filled.payload));
      filled := filled.(payload := payload);
      if |queue| < BUFFER {
        queue := queue + [filled];
        log := log.(accepted := log.accepted + [filled]);
      } else {
        dropped := dropped + 1;
      }
    }

    method Close()
      modifies this
      ensures View() == Next(old(View()), Label.Close)
    {
      closed := true;
    }

    /** Counts for the batch in hand, which it leaves where it is. */
    method WriteBatch(ok: bool)
      modifies this`dropped, this`written, this`log
      ensures !db ==> dropped == old(dropped) && written == old(written) && log.stored == old(log.stored)
      ensures db ==> dropped == old(dropped) + |batch| - if ok then |Encodables(batch)| else 0
      ensures db && ok ==> written == old(written) + |Encodables(batch)|
      ensures db && ok ==> log.stored == old(log.stored) + Encodables(batch)
      ensures db && !ok ==> written == old(written) && log.stored == old(log.stored)
      ensures log == old(log).(delivered := old(log).delivered + batch, stored := log.stored)
    {
      log := log.(delivered := log.delivered + batch);
      if !db || batch == [] {
        return;
      }
      var values := 0;
      for i := 0 to |batch|
        invariant values == |Encodables(batch[..i])| && dropped == old(dropped) + i - values
        invariant written == old(written) && log == old(log).(delivered := old(log).delivered + batch)
      {
        EncodablesNext(batch, i);
        if !Encodes(batch[i]) {
          dropped := dropped + 1;
          continue;
        }
        values := values + 1;
      }
      assert batch[..|batch|] == batch;
      if values == 0 {
        return;
      }
      if !ok {
        dropped := dropped + values;
        return;
      }
      log := log.(stored := log.stored + Encodables(batch));
      written := written + values;
    }

    method Flush(ok: bool)
      requires !exited
      modifies this
      ensures View() == Flushed(old(View()), false, ok)
      ensures batch == [] && log.delivered == old(log.delivered) + old(batch) && queue == old(queue)
    {
      if batch == [] {
        return;
      }
      WriteBatch(ok);
      batch := [];
    }

    method Receive(ok: bool)
      requires !exited && queue != []
      modifies this
      ensures View() == var t := Next(old(View()), Label.Receive); if t.stage.Encoding? then Written(t, ok) else t
    {
      queue, batch := queue[1..], batch + [queue[0]];
      if |batch| >= BATCH {
        Flush(ok);
      }
    }

    /** The loop after `stop`: another event if there is one, and else the last flush and the return. */
    method Drain(ok: bool)
      requires !exited && draining
      modifies this
      ensures View() == var s := old(View());
        var t := Next(s, if s.queue == [] then Empty else Label.Receive);
        if t.stage.Encoding? then Written(t, ok) else t
    {
      if queue != [] {
        Receive(ok);
      } else {
        Flush(ok);
        exited := true;
      }
    }

    /** The `select` takes an arm; the ticker's leaves nothing in hand. */
    method Serve(arm: Arm, ok: bool)
      modifies this
      ensures View() == After(old(View()), TurnLabels(old(View()), Pick(arm, ok)))
      ensures arm == FromTicker && !old(draining) && !old(exited) ==>
        batch == [] && log.delivered == old(log.delivered) + old(batch) && queue == old(queue)
    {
      hide After, TurnLabels, Written, Prepare;
      TurnRun(View(), arm, ok);
      if exited {
        return;
      }
      if draining {
        Drain(ok);
        return;
      }
      match arm {
        case FromQueue =>
          if queue != [] {
            Receive(ok);
          }
        case FromTicker => Flush(ok);
        case FromStop => draining := draining || closed;
      }
    }

    method Take(turn: Turn)
      modifies this
      ensures View() == After(old(View()), TurnLabels(old(View()), turn))
      ensures turn.Pick? && turn.arm == FromTicker && !old(draining) && !old(exited) ==>
        batch == [] && log.delivered == old(log.delivered) + old(batch) && queue == old(queue)
    {
      match turn
      case Arrival(e, now) => Record(e, now);
      case Closing => Close();
      case Pick(arm, ok) => Serve(arm, ok);
    }

    /** The goroutine under any script of arrivals and selected arms: one of the interleavings the
        theorems above are about. */
    method Run(script: seq<Turn>)
      modifies this
      ensures View() == After(old(View()), Labels(old(View()), script))
    {
      ghost var goal := After(View(), Labels(View(), script));
      for i := 0 to |script|
        invariant After(View(), Labels(View(), script[i..])) == goal
      {
        ghost var s, rest := View(), script[i..];
        assert rest[0] == script[i] && rest[1..] == script[i + 1..];
        AfterConcat(s, TurnLabels(s, rest[0]), Labels(After(s, TurnLabels(s, rest[0])), rest[1..]));
        Take(script[i]);
      }
    }
  }
}
