/**
 The notification outbox: leases, attempt bounds and backoff, over every run of
 any number of replicas with crashes and lost acknowledgements. Times are in
 nanoseconds.
 */
module Outbox {
  import opened Options

  const SECOND := 1_000_000_000
  const LEASE := 120 * SECOND
  const HOUR := 3600 * SECOND
  const MAX_ATTEMPTS := 8
  const BATCH_SIZE := 25

  // ----- backoff -----

  function Pow2(k: nat): nat {
    if k == 0 then 1 else 2 * Pow2(k - 1)
  }

  /** 64-bit two's complement. */
  function Wrap64(x: int): int {
    (x + 0x8000_0000_0000_0000) % 0x1_0000_0000_0000_0000 - 0x8000_0000_0000_0000
  }

  /** 15 seconds shifted left by attempts - 1 in 64-bit arithmetic, capped at an hour. */
  function Backoff(attempts: int): int {
    var d := Wrap64(15 * SECOND * Pow2(if attempts - 1 > 0 then attempts - 1 else 0));
    if d < HOUR then d else HOUR
  }

  lemma {:induction false} Pow2Monotone(j: nat, k: nat)
    requires j <= k
    ensures Pow2(j) <= Pow2(k)
  {
    if j >= k {
    } else {
      Pow2Monotone(j, k - 1);
    }
  }

  lemma Pow2Values()
    ensures Pow2(7) == 128 && Pow2(29) == 0x2000_0000 && Pow2(30) == 0x4000_0000
  {
    assert Pow2(7) == 128;
    assert Pow2(14) == 128 * Pow2(7);
    assert Pow2(21) == 128 * Pow2(14);
    assert Pow2(28) == 128 * Pow2(21);
  }

  /** Up to the thirtieth attempt the shift does not overflow and the cap is exact. */
  lemma BackoffIsExact(attempts: nat)
    requires 1 <= attempts <= 30
    ensures var d := 15 * SECOND * Pow2(attempts - 1);
            Backoff(attempts) == if d < HOUR then d else HOUR
  {
    Pow2Values();
    Pow2Monotone(attempts - 1, 29);
  }

  /** The thirty-first would overflow into the past; the attempt bound keeps it out of reach. */
  lemma BackoffOverflows()
    ensures Backoff(31) < 0
  {
    Pow2Values();
  }

  /** Every attempt count the outbox can reach: the delay doubles and never needs the cap. */
  lemma BackoffDoubles(attempts: nat)
    requires 1 <= attempts <= MAX_ATTEMPTS
    ensures Backoff(attempts) == 15_000_000_000 * Pow2(attempts - 1) <= 3_600_000_000_000
    ensures attempts < MAX_ATTEMPTS ==> Backoff(attempts + 1) == 2 * Backoff(attempts)
  {
    BackoffUncapped(attempts);
    if attempts < MAX_ATTEMPTS { BackoffUncapped(attempts + 1); }
  }

  lemma BackoffUncapped(attempts: nat)
    requires 1 <= attempts <= MAX_ATTEMPTS
    ensures Backoff(attempts) == 15 * SECOND * Pow2(attempts - 1) <= HOUR
  {
    Pow2Values();
    Pow2Monotone(attempts - 1, 7);
    BackoffIsExact(attempts);
  }

  // ----- the outbox -----

  datatype Key = Key(id: string, channel: string)

  datatype Row = Row(attempts: nat, nextAttempt: int, delivered: bool, created: int)

  datatype Stage = Leased | Sending | Settling(delivered: bool)

  /** A leased row in some worker's hands, with the attempt count the lease returned. */
  datatype Claim = Claim(key: Key, attempts: nat, leaseEnd: int, stage: Stage)

  datatype Event = Took(key: Key) | Started(key: Key) | Delivered(key: Key)

  datatype State = State(rows: map<Key, Row>, now: int, claims: map<nat, Claim>, history: seq<Event>)

  datatype Act =
    | Take(key: Key, acked: bool)
    | Send
    | Skip
    | ReadFails
    | SendEnds(ok: bool)
    | Settle(applied: bool, clock: int)
    | Crash

  datatype Action = Tick(by_: nat) | Enqueue(key: Key) | On(c: nat, act: Act)

  predicate Due(s: State, key: Key) {
    && key in s.rows && !s.rows[key].delivered
    && s.rows[key].attempts < MAX_ATTEMPTS && s.rows[key].nextAttempt <= s.now
  }

  function Lease(s: State, key: Key): State
    requires Due(s, key)
  {
    s.(rows := s.rows[key := s.rows[key].(attempts := s.rows[key].attempts + 1, nextAttempt := s.now + LEASE)],
       history := s.history + [Took(key)])
  }

  function Advance(s: State, c: nat, stage: Stage): State
    requires c in s.claims
  {
    s.(claims := s.claims[c := s.claims[c].(stage := stage)])
  }

  /** MarkNotificationDelivered, or MarkNotificationFailed with the worker's own clock. */
  function Mark(s: State, claim: Claim, clock: int): State
    requires claim.key in s.rows && claim.stage.Settling?
  {
    if claim.stage.delivered then
      s.(rows := s.rows[claim.key := s.rows[claim.key].(delivered := true)],
         history := s.history + [Delivered(claim.key)])
    else
      s.(rows := s.rows[claim.key := s.rows[claim.key].(nextAttempt := clock + Backoff(claim.attempts))])
  }

  function ClaimNext(s: State, c: nat, a: Act): Option<State> {
    if a.Take? then
      if c in s.claims || !Due(s, a.key) then None
      else
        var t := Lease(s, a.key);
        // A lease whose acknowledgement is lost stays in the table but in no worker's hands.
        Some(if a.acked then t.(claims := t.claims[c := Claim(a.key, t.rows[a.key].attempts, s.now + LEASE, Leased)])
             else t)
    else if c !in s.claims then None
    else
      var claim := s.claims[c];
      match a
      case Send =>
        if claim.stage.Leased? then Some(Advance(s, c, Sending).(history := s.history + [Started(claim.key)])) else None
      case Skip => if claim.stage.Leased? then Some(Advance(s, c, Settling(true))) else None
      case ReadFails => if claim.stage.Leased? then Some(Advance(s, c, Settling(false))) else None
      case SendEnds(ok) => if claim.stage.Sending? then Some(Advance(s, c, Settling(ok))) else None
      case Settle(applied, clock) =>
        if !claim.stage.Settling? || claim.key !in s.rows then None
        else
          var t := if applied then Mark(s, claim, clock) else s;
          Some(t.(claims := t.claims - {c}))
      case Crash => Some(s.(claims := s.claims - {c}))
  }

  function Next(s: State, a: Action): Option<State> {
    match a
    case Tick(d) => Some(s.(now := s.now + d))
    case Enqueue(key) => Some(if key in s.rows then s else s.(rows := s.rows[key := Row(0, s.now, false, s.now)]))
    case On(c, act) => ClaimNext(s, c, act)
  }

  function After(start: int, run: seq<Action>): Option<State> {
    if run == [] then Some(State(map[], start, map[], []))
    else
      var s := After(start, run[..|run| - 1]);
      if s.None? then None else Next(s.value, run[|run| - 1])
  }

  // ----- attempt bound -----

  /** How often a notification was sent. */
  function Sends(h: seq<Event>, key: Key): nat {
    if h == [] then 0
    else Sends(h[..|h| - 1], key) + if h[|h| - 1] == Started(key) then 1 else 0
  }

  lemma SendsPush(h: seq<Event>, e: Event, key: Key)
    ensures Sends(h + [e], key) == Sends(h, key) + if e == Started(key) then 1 else 0
  {
    assert (h + [e])[..|h|] == h;
  }

  /** The claims on a row that may still send. */
  function Unsent(s: State, key: Key): set<nat> {
    set c | c in s.claims && s.claims[c].key == key && s.claims[c].stage.Leased?
  }

  /** Every send, done or still possible, was paid for with an attempt. */
  predicate Bounded(s: State, key: Key) {
    if key !in s.rows then Sends(s.history, key) == 0 && Unsent(s, key) == {}
    else
      && Sends(s.history, key) + |Unsent(s, key)| <= s.rows[key].attempts <= MAX_ATTEMPTS
  }

  ghost predicate Inv(s: State) {
    && (forall key :: Bounded(s, key))
    && (forall c :: c in s.claims ==>
          s.claims[c].key in s.rows && 1 <= s.claims[c].attempts <= s.rows[s.claims[c].key].attempts)
    && (forall i :: 0 <= i < |s.history| && s.history[i].Delivered? ==>
          s.history[i].key in s.rows && s.rows[s.history[i].key].delivered)
    && NoLeaseAfterDelivery(s.history)
  }

  ghost predicate NoLeaseAfterDelivery(h: seq<Event>) {
    forall i, j :: 0 <= i < j < |h| && h[i].Delivered? ==> h[j] != Took(h[i].key)
  }

  lemma TakeUnsent(s: State, c: nat, a: Act, key: Key)
    requires a.Take? && ClaimNext(s, c, a).Some?
    ensures Unsent(ClaimNext(s, c, a).value, key) == if a.acked && key == a.key then Unsent(s, key) + {c} else Unsent(s, key)
    ensures c !in Unsent(s, key)
  {
  }

  lemma TakeBounded(s: State, c: nat, a: Act, key: Key)
    requires Bounded(s, key) && a.Take? && ClaimNext(s, c, a).Some?
    ensures Bounded(ClaimNext(s, c, a).value, key)
  {
    var t := ClaimNext(s, c, a).value;
    TakeUnsent(s, c, a, key);
    SendsPush(s.history, Took(a.key), key);
    TakeRows(s, c, a, key);
    var u, u' := Unsent(s, key), Unsent(t, key);
    assert |u'| == |u| + if a.acked && key == a.key then 1 else 0;
  }

  lemma TakeRows(s: State, c: nat, a: Act, key: Key)
    requires a.Take? && ClaimNext(s, c, a).Some?
    ensures var t := ClaimNext(s, c, a).value;
            && t.history == s.history + [Took(a.key)]
            && (key in t.rows <==> key in s.rows)
            && (key in s.rows ==> t.rows[key].attempts == s.rows[key].attempts + if key == a.key then 1 else 0)
    ensures a.key in s.rows && s.rows[a.key].attempts < MAX_ATTEMPTS
  {
  }

  lemma SendBounded(s: State, c: nat, key: Key)
    requires Inv(s) && ClaimNext(s, c, Send).Some?
    ensures Bounded(ClaimNext(s, c, Send).value, key)
  {
    var t, k := ClaimNext(s, c, Send).value, s.claims[c].key;
    assert Bounded(s, key);
    SendsPush(s.history, Started(k), key);
    assert Unsent(t, key) == if key == k then Unsent(s, key) - {c} else Unsent(s, key);
  }

  lemma OtherBounded(s: State, c: nat, a: Act, key: Key)
    requires Inv(s) && !a.Take? && !a.Send? && ClaimNext(s, c, a).Some?
    ensures Bounded(ClaimNext(s, c, a).value, key)
  {
    var t := ClaimNext(s, c, a).value;
    assert Bounded(s, key);
    if |t.history| > |s.history| { SendsPush(s.history, Delivered(s.claims[c].key), key); }
    assert Unsent(t, key) <= Unsent(s, key);
    SubsetSize(Unsent(t, key), Unsent(s, key));
  }

  lemma {:induction false} SubsetSize(a: set<nat>, b: set<nat>)
    requires a <= b
    ensures |a| <= |b|
  {
    assert b == a + (b - a);
  }

  lemma StepInv(s: State, a: Action)
    requires Inv(s) && Next(s, a).Some?
    ensures Inv(Next(s, a).value)
  {
    var t := Next(s, a).value;
    forall key
      ensures Bounded(t, key)
    {
      assert Bounded(s, key);
      if a.On? {
        if a.act.Take? {
          TakeBounded(s, a.c, a.act, key);
        } else if a.act.Send? {
          SendBounded(s, a.c, key);
        } else {
          OtherBounded(s, a.c, a.act, key);
        }
      } else {
        assert Unsent(t, key) == Unsent(s, key);
      }
    }
    if a.On? { RecordsKept(s, a.c, a.act); }
  }

  lemma RecordsKept(s: State, c: nat, a: Act)
    requires Inv(s) && ClaimNext(s, c, a).Some?
    ensures var t := ClaimNext(s, c, a).value;
            && (forall d :: d in t.claims ==>
                  t.claims[d].key in t.rows && 1 <= t.claims[d].attempts <= t.rows[t.claims[d].key].attempts)
            && (forall i :: 0 <= i < |t.history| && t.history[i].Delivered? ==>
                  t.history[i].key in t.rows && t.rows[t.history[i].key].delivered)
            && NoLeaseAfterDelivery(t.history)
  {
    var t := ClaimNext(s, c, a).value;
    assert s.history <= t.history && |t.history| <= |s.history| + 1;
    forall i, j | 0 <= i < j < |t.history| && t.history[i].Delivered?
      ensures t.history[j] != Took(t.history[i].key)
    {
      assert t.history[i] == s.history[i];
      if j < |s.history| { assert t.history[j] == s.history[j]; }
    }
  }

  lemma {:induction false} InvAlways(start: int, run: seq<Action>)
    requires After(start, run).Some?
    ensures Inv(After(start, run).value)
  {
    if run == [] {
    } else {
      InvAlways(start, run[..|run| - 1]);
      StepInv(After(start, run[..|run| - 1]).value, run[|run| - 1]);
    }
  }

  /**
   Over every run each (action, channel) row is sent at most eight times, is never
   leased again once its delivery is recorded, and every attempt count a worker
   backs off with is between one and eight.
   */
  lemma OutboxBounds(start: int, run: seq<Action>, key: Key)
    requires After(start, run).Some?
    ensures var s := After(start, run).value;
            && Sends(s.history, key) <= 8
            && NoLeaseAfterDelivery(s.history)
            && (forall c :: c in s.claims ==> 1 <= s.claims[c].attempts <= 8)
  {
    InvAlways(start, run);
    var s := After(start, run).value;
    assert Bounded(s, key);
    forall c | c in s.claims
      ensures 1 <= s.claims[c].attempts <= MAX_ATTEMPTS
    {
      assert Bounded(s, s.claims[c].key);
    }
  }

  // ----- leases -----

  /** Every claim on the row is still within its lease. */
  ghost predicate WithinLease(s: State, key: Key) {
    forall c :: c in s.claims && s.claims[c].key == key ==> s.now < s.claims[c].leaseEnd
  }

  ghost predicate Exclusive(s: State, key: Key) {
    && (forall c, d :: c in s.claims && d in s.claims && s.claims[c].key == key == s.claims[d].key ==> c == d)
    && (forall c :: c in s.claims && s.claims[c].key == key ==>
          key in s.rows && s.rows[key].nextAttempt == s.claims[c].leaseEnd)
  }

  lemma TakeExclusive(s: State, c: nat, a: Act, key: Key)
    requires WithinLease(s, key) && Exclusive(s, key)
    requires a.Take? && ClaimNext(s, c, a).Some?
    ensures Exclusive(ClaimNext(s, c, a).value, key)
  {
    if key == a.key {
      assert forall d :: d in s.claims ==> s.claims[d].key != key;
    }
  }

  /** Dropping or advancing a claim touches no other claim, and the row only when the claim goes. */
  lemma ActExclusive(s: State, c: nat, a: Act, key: Key)
    requires Exclusive(s, key)
    requires !a.Take? && ClaimNext(s, c, a).Some?
    ensures Exclusive(ClaimNext(s, c, a).value, key)
  {
    var t := ClaimNext(s, c, a).value;
    assert forall d :: d in t.claims ==> d in s.claims && t.claims[d].key == s.claims[d].key && t.claims[d].leaseEnd == s.claims[d].leaseEnd;
    if c in t.claims {
      assert t.rows == s.rows;
    } else {
      assert forall k :: k in s.rows && k != s.claims[c].key ==> k in t.rows && t.rows[k] == s.rows[k];
    }
  }

  lemma StepExclusive(s: State, a: Action, key: Key)
    requires WithinLease(s, key) && Exclusive(s, key)
    requires Next(s, a).Some?
    ensures Exclusive(Next(s, a).value, key)
  {
    if a.On? {
      if a.act.Take? { TakeExclusive(s, a.c, a.act, key); } else { ActExclusive(s, a.c, a.act, key); }
    }
  }

  /**
   Two sends of one notification overlap only if some claim on it outlived its
   lease: as long as every claim is finished or dropped within the lease, at most
   one worker holds the row at any time.
   */
  lemma {:induction false} NoOverlapWithinLease(start: int, run: seq<Action>, key: Key)
    requires After(start, run).Some?
    requires forall k :: 0 <= k < |run| && After(start, run[..k]).Some? ==> WithinLease(After(start, run[..k]).value, key)
    ensures Exclusive(After(start, run).value, key)
  {
    if run == [] {
    } else {
      var past := run[..|run| - 1];
      assert forall k :: 0 <= k < |past| ==> past[..k] == run[..k];
      NoOverlapWithinLease(start, past, key);
      StepExclusive(After(start, past).value, run[|run| - 1], key);
    }
  }

  /** Seven waits separate eight attempts: just under 32 minutes of backoff in total. */
  lemma TotalBackoff()
    ensures Backoff(1) + Backoff(2) + Backoff(3) + Backoff(4) + Backoff(5) + Backoff(6) + Backoff(7) == 1905 * SECOND
  {
    BackoffDoubles(1);
    BackoffDoubles(2);
    BackoffDoubles(3);
    BackoffDoubles(4);
    BackoffDoubles(5);
    BackoffDoubles(6);
    assert Pow2(0) == 1;
  }

  lemma AfterPush(start: int, run: seq<Action>, a: Action)
    requires After(start, run).Some?
    ensures After(start, run + [a]) == Next(After(start, run).value, a)
  {
    assert (run + [a])[..|run|] == run;
  }

  /** A send that outlasts its lease is overtaken by a second send of the same notification. */
  lemma OutlivedLeaseOverlaps(key: Key) returns (run: seq<Action>)
    ensures After(0, run).Some?
    ensures var s := After(0, run).value;
            && 1 in s.claims && 2 in s.claims
            && s.claims[1].key == key == s.claims[2].key
            && s.claims[1].stage.Sending? && s.claims[2].stage.Sending?
  {
    run := [];
    AfterPush(0, run, Enqueue(key));
    run := run + [Enqueue(key)];
    AfterPush(0, run, On(1, Take(key, true)));
    run := run + [On(1, Take(key, true))];
    AfterPush(0, run, On(1, Send));
    run := run + [On(1, Send)];
    AfterPush(0, run, Tick(LEASE));
    run := run + [Tick(LEASE)];
    AfterPush(0, run, On(2, Take(key, true)));
    run := run + [On(2, Take(key, true))];
    AfterPush(0, run, On(2, Send));
    run := run + [On(2, Send)];
  }

  /** Two different claims are sending the same notification. */
  predicate Overlap(s: State, key: Key, c: nat, d: nat) {
    && c != d && c in s.claims && d in s.claims
    && s.claims[c].key == key == s.claims[d].key
    && s.claims[c].stage.Sending? && s.claims[d].stage.Sending?
  }

  /**
   When exactly a second send can start beside a first: while no claim had outlived
   its lease before, another worker can begin sending the same notification now if
   and only if the first claim's lease is over and the row is neither delivered nor
   out of attempts.
   */
  lemma OverlapExactly(start: int, run: seq<Action>, key: Key, c: nat, d: nat)
    requires After(start, run).Some?
    requires forall k :: 0 <= k < |run| && After(start, run[..k]).Some? ==> WithinLease(After(start, run[..k]).value, key)
    requires var s := After(start, run).value;
             c in s.claims && d !in s.claims && s.claims[c].key == key && s.claims[c].stage.Sending?
    ensures var s, more := After(start, run).value, After(start, run + [On(d, Take(key, true)), On(d, Send)]);
            key in s.rows &&
            (more.Some? && Overlap(more.value, key, c, d) <==>
             s.claims[c].leaseEnd <= s.now && !s.rows[key].delivered && s.rows[key].attempts < 8)
  {
    NoOverlapWithinLease(start, run, key);
    SecondSend(start, run, key, d);
  }

  lemma SecondSend(start: int, run: seq<Action>, key: Key, d: nat)
    requires After(start, run).Some? && d !in After(start, run).value.claims
    ensures var s, more := After(start, run).value, After(start, run + [On(d, Take(key, true)), On(d, Send)]);
            && (more.Some? <==> Due(s, key))
            && (more.Some? ==> d in more.value.claims && more.value.claims[d].key == key
                               && more.value.claims[d].stage.Sending? && more.value.claims - {d} == s.claims)
  {
    var s, take := After(start, run).value, On(d, Take(key, true));
    AfterPush(start, run, take);
    assert run + [take, On(d, Send)] == run + [take] + [On(d, Send)];
    if Due(s, key) {
      AfterPush(start, run + [take], On(d, Send));
    } else {
      assert (run + [take] + [On(d, Send)])[..|run| + 1] == run + [take];
    }
  }

  // ----- the worker's code -----

  ghost predicate NotBy(run: seq<Action>, i: nat, mine: set<nat>) {
    forall k :: i <= k < |run| ==> !run[k].On? || run[k].c !in mine
  }

  lemma {:induction false} OthersLeaveClaims(start: int, run: seq<Action>, i: nat, mine: set<nat>)
    requires After(start, run).Some? && i <= |run| && NotBy(run, i, mine)
    ensures After(start, run[..i]).Some?
    ensures var s, t := After(start, run[..i]).value, After(start, run).value;
            forall c :: c in mine ==> (c in t.claims <==> c in s.claims) && (c in s.claims ==> t.claims[c] == s.claims[c])
    decreases |run|
  {
    if i < |run| {
      var past := run[..|run| - 1];
      OthersLeaveClaims(start, past, i, mine);
      assert past[..i] == run[..i];
    } else {
      assert run[..i] == run;
    }
  }

  /** The stages a claim passes through before its row is marked. */
  function StageAfter(stage: Stage, act: Act): Option<Stage> {
    match act
    case Send => if stage.Leased? then Some(Sending) else None
    case Skip => if stage.Leased? then Some(Settling(true)) else None
    case ReadFails => if stage.Leased? then Some(Settling(false)) else None
    case SendEnds(ok) => if stage.Sending? then Some(Settling(ok)) else None
    case _ => None
  }

  lemma MoveStage(s: State, c: nat, act: Act)
    requires c in s.claims && StageAfter(s.claims[c].stage, act).Some?
    ensures ClaimNext(s, c, act).Some?
    ensures ClaimNext(s, c, act).value.claims == s.claims[c := s.claims[c].(stage := StageAfter(s.claims[c].stage, act).value)]
  {
  }

  /** Everything the outside world answers while one notification is delivered. */
  datatype Answers = Answers(configured: bool, readable: bool, pending: bool, sendOk: bool, applied: bool, clock: int)

  predicate Sendable(a: Answers) {
    a.configured && a.readable && a.pending
  }

  /** The row is closed when the channel is gone, the action is already reviewed, or the send succeeded. */
  predicate Closes(a: Answers) {
    !a.configured || (a.readable && (!a.pending || a.sendOk))
  }

  /** The steps of one delivery, given the answers. */
  function Steps(a: Answers): seq<Act> {
    Tried(a) + [Settle(a.applied, a.clock)]
  }

  function Tried(a: Answers): seq<Act> {
    if Sendable(a) then [Send, SendEnds(a.sendOk)]
    else if a.configured && !a.readable then [ReadFails] else [Skip]
  }

  /** Other claims of the same worker took no step and are as they were. */
  ghost predicate Spared(s: State, t: State, past: seq<Action>, run: seq<Action>, mine: set<nat>, c: nat) {
    forall d :: d in mine && d != c ==> Untouched(s, t, d) && Acts(run, |past|, d) == []
  }

  lemma SparedThen(s: State, t: State, u: State, r0: seq<Action>, r1: seq<Action>, r2: seq<Action>, mine: set<nat>, c: nat)
    requires r0 <= r1 <= r2 && Spared(s, t, r0, r1, mine, c) && Spared(t, u, r1, r2, mine, c)
    ensures Spared(s, u, r0, r2, mine, c)
  {
    forall d | d in mine && d != c
      ensures Untouched(s, u, d) && Acts(r2, |r0|, d) == []
    {
      ActsThen(r0, r1, r2, d);
      assert Untouched(s, t, d) && Untouched(t, u, d);
    }
  }

  ghost predicate Untouched(s: State, t: State, c: nat) {
    (c in t.claims <==> c in s.claims) && (c in s.claims ==> t.claims[c] == s.claims[c])
  }

  /** The steps of one claim in a run, from a position on. */
  function Acts(run: seq<Action>, from_: nat, c: nat): seq<Act> {
    if |run| <= from_ then []
    else
      var a := run[|run| - 1];
      Acts(run[..|run| - 1], from_, c) + if a.On? && a.c == c then [a.act] else []
  }

  lemma {:induction false} ActsOfOthers(run: seq<Action>, i: nat, c: nat, mine: set<nat>)
    requires c in mine && NotBy(run, i, mine)
    ensures Acts(run, i, c) == []
    decreases |run|
  {
    if |run| <= i {
    } else {
      ActsOfOthers(run[..|run| - 1], i, c, mine);
    }
  }

  lemma {:induction false} ActsThen(r0: seq<Action>, r1: seq<Action>, r2: seq<Action>, c: nat)
    requires r0 <= r1 <= r2
    ensures Acts(r2, |r0|, c) == Acts(r1, |r0|, c) + Acts(r2, |r1|, c)
    decreases |r2|
  {
    if |r2| > |r1| {
      ActsThen(r0, r1, r2[..|r2| - 1], c);
    } else {
      assert r2 == r1;
    }
  }

  /** What the claim statement did about a row: leased under the id exactly when it was due. */
  ghost predicate LeasedIfDue(s: State, t: State, key: Key, c: nat) {
    && (c in t.claims <==> Due(s, key))
    && (c in t.claims ==> t.claims[c] == Claim(key, s.rows[key].attempts + 1, s.now + 120_000_000_000, Leased))
    && (c in t.claims ==> key in t.rows && t.rows[key] == s.rows[key].(attempts := s.rows[key].attempts + 1, nextAttempt := s.now + 120_000_000_000))
  }

  function Taken(s: State, key: Key): seq<Act> {
    if Due(s, key) then [Take(key, true)] else []
  }

  /** How far the claim statement has come with one row of its answer. */
  ghost predicate RowAt(s: State, t: State, past: seq<Action>, run: seq<Action>, key: Key, c: nat, done: bool) {
    if done then LeasedIfDue(s, t, key, c) && Acts(run, |past|, c) == Taken(s, key)
    else
      && c !in t.claims && Acts(run, |past|, c) == []
      && t.now == s.now && (key in t.rows <==> key in s.rows) && (key in s.rows ==> t.rows[key] == s.rows[key])
  }

  /** Leasing one row, under one id, as seen from another row or from the same one. */
  ghost predicate LeaseStep(t: State, u: State, r1: seq<Action>, r2: seq<Action>, key: Key, c: nat) {
    && LeasedIfDue(t, u, key, c) && u.now == t.now && u.rows.Keys == t.rows.Keys
    && (forall k :: k in u.rows && k != key ==> u.rows[k] == t.rows[k])
    && (forall d :: d != c ==> Untouched(t, u, d))
    && (forall d :: Acts(r2, |r1|, d) == if d == c then Taken(t, key) else [])
  }

  lemma RowKept(s: State, t: State, u: State, past: seq<Action>, r1: seq<Action>, r2: seq<Action>,
                key: Key, c: nat, other: Key, d: nat, done: bool)
    requires past <= r1 <= r2 && RowAt(s, t, past, r1, other, d, done)
    requires LeaseStep(t, u, r1, r2, key, c) && other != key && d != c
    ensures RowAt(s, u, past, r2, other, d, done)
  {
    ActsThen(past, r1, r2, d);
    assert Untouched(t, u, d);
  }

  lemma RowTaken(s: State, t: State, u: State, past: seq<Action>, r1: seq<Action>, r2: seq<Action>, key: Key, c: nat)
    requires past <= r1 <= r2 && RowAt(s, t, past, r1, key, c, false)
    requires LeaseStep(t, u, r1, r2, key, c)
    ensures RowAt(s, u, past, r2, key, c, true)
  {
    ActsThen(past, r1, r2, c);
  }

  /** How far the delivery loop has come with the k-th claim. */
  ghost predicate ClaimAt(s: State, t: State, past: seq<Action>, run: seq<Action>, c: nat, answers: seq<Answers>, k: nat) {
    if k < |answers| then c !in t.claims && Acts(run, |past|, c) == if c in s.claims then Steps(answers[k]) else []
    else Untouched(s, t, c) && Acts(run, |past|, c) == []
  }

  /** No step removes a row. */
  lemma {:induction false} RowsStay(start: int, run: seq<Action>, i: nat)
    requires After(start, run).Some? && i <= |run|
    ensures After(start, run[..i]).Some?
    ensures After(start, run[..i]).value.rows.Keys <= After(start, run).value.rows.Keys
    decreases |run|
  {
    if i < |run| {
      var past := run[..|run| - 1];
      RowsStay(start, past, i);
      assert past[..i] == run[..i];
    } else {
      assert run[..i] == run;
    }
  }

  /** The rows one claim statement takes: due, each once, the oldest first, as many as the limit allows. */
  ghost predicate DueBatch(s: State, due: seq<Key>, limit: nat) {
    && |due| <= limit
    && (forall i, j :: 0 <= i < j < |due| ==> due[i] != due[j])
    && (forall key :: key in due ==> Due(s, key))
    && (forall key, other :: key in due && other !in due && Due(s, other) ==> s.rows[key].created <= s.rows[other].created)
    && (|due| < limit ==> forall key :: Due(s, key) ==> key in due)
  }

  lemma {:induction false} OldestExists(s: State, keys: set<Key>) returns (oldest: Key)
    requires keys != {} && keys <= s.rows.Keys
    ensures oldest in keys && forall o :: o in keys ==> s.rows[oldest].created <= s.rows[o].created
    decreases keys
  {
    oldest :| oldest in keys;
    if keys == {oldest} {
    } else {
      assert keys == {oldest} + (keys - {oldest});
      var other := OldestExists(s, keys - {oldest});
      if s.rows[other].created < s.rows[oldest].created { oldest := other; }
    }
  }

  /** The selection inside the claim statement. */
  method SelectDue(s: State, limit: nat) returns (due: seq<Key>)
    ensures DueBatch(s, due, limit)
  {
    due := [];
    var left := set key | key in s.rows && Due(s, key);
    while |due| < limit && left != {}
      invariant |due| <= limit
      invariant forall i, j :: 0 <= i < j < |due| ==> due[i] != due[j]
      invariant forall key :: Due(s, key) <==> key in due || key in left
      invariant forall key :: key in due ==> key !in left
      invariant forall key, o :: key in due && o in left ==> s.rows[key].created <= s.rows[o].created
      decreases left
    {
      ghost var oldest := OldestExists(s, left);
      var key :| key in left && forall o :: o in left ==> s.rows[key].created <= s.rows[o].created;
      due, left := due + [key], left - {key};
    }
  }

  /** Claim ids not in use. */
  method FreshIds(claims: map<nat, Claim>, n: nat) returns (ids: seq<nat>)
    ensures |ids| == n
    ensures forall i, j :: 0 <= i < j < n ==> ids[i] != ids[j]
    ensures forall i :: 0 <= i < n ==> ids[i] !in claims
  {
    var bound, left := 0, claims.Keys;
    while left != {}
      invariant forall c :: c in claims && c !in left ==> c < bound
      decreases left
    {
      var c :| c in left;
      if bound <= c { bound := c + 1; }
      left := left - {c};
    }
    ids := seq(n, i requires 0 <= i < n => bound + i);
  }

  class Worker {
    const start: int
    var state: State
    ghost var run: seq<Action>

    ghost predicate Consistent()
      reads this
    {
      After(start, run) == Some(state)
    }

    constructor (start: int)
      ensures this.start == start && Consistent()
    {
      this.start, this.state, this.run := start, State(map[], start, map[], []), [];
    }

    /** Between two statements the other replicas and the clock do anything; this body is one case of it. */
    method Interfere(ghost mine: set<nat>)
      requires Consistent()
      modifies this
      ensures Consistent() && old(run) <= run && NotBy(run, |old(run)|, mine)
    {
    }

    /** A point between two statements; no claim of this worker is touched, and no row disappears. */
    method Yield(ghost mine: set<nat>)
      requires Consistent()
      modifies this
      ensures Consistent() && old(run) <= run
      ensures forall c :: c in mine ==> Untouched(old(state), state, c) && Acts(run, |old(run)|, c) == []
      ensures old(state).rows.Keys <= state.rows.Keys
    {
      Interfere(mine);
      assert run[..|old(run)|] == old(run);
      OthersLeaveClaims(start, run, |old(run)|, mine);
      RowsStay(start, run, |old(run)|);
      forall c | c in mine
        ensures Acts(run, |old(run)|, c) == []
      {
        ActsOfOthers(run, |old(run)|, c, mine);
      }
    }

    method Do(a: Action)
      requires Consistent() && Next(state, a).Some?
      modifies this
      ensures Consistent() && run == old(run) + [a] && Some(state) == Next(old(state), a)
      ensures forall c :: Acts(run, |old(run)|, c) == if a.On? && a.c == c then [a.act] else []
    {
      AfterPush(start, run, a);
      assert (run + [a])[..|run|] == run;
      state := Next(state, a).value;
      run := run + [a];
    }

    /** One step of this claim. */
    method TakeStep(c: nat, act: Act, ghost mine: set<nat>)
      requires Consistent() && c in state.claims && StageAfter(state.claims[c].stage, act).Some?
      modifies this
      ensures Consistent() && old(run) <= run && Acts(run, |old(run)|, c) == [act]
      ensures c in state.claims
      ensures state.claims[c] == old(state).claims[c].(stage := StageAfter(old(state).claims[c].stage, act).value)
      ensures Spared(old(state), state, old(run), run, mine, c)
      ensures old(state).rows.Keys <= state.rows.Keys
    {
      MoveStage(state, c, act);
      Do(On(c, act));
    }

    /** Let the others run, then take one step of this claim. */
    method Move(c: nat, act: Act, ghost mine: set<nat>)
      requires Consistent() && c in mine && c in state.claims
      requires StageAfter(state.claims[c].stage, act).Some?
      modifies this
      ensures Consistent() && old(run) <= run && Acts(run, |old(run)|, c) == [act]
      ensures c in state.claims
      ensures state.claims[c] == old(state).claims[c].(stage := StageAfter(old(state).claims[c].stage, act).value)
      ensures Spared(old(state), state, old(run), run, mine, c)
      ensures old(state).rows.Keys <= state.rows.Keys
    {
      ghost var before := state;
      Yield(mine);
      assert Untouched(before, state, c);
      ghost var yielded, seen := run, state;
      assert Spared(before, seen, old(run), yielded, mine, c);
      TakeStep(c, act, mine);
      ActsThen(old(run), yielded, run, c);
      SparedThen(before, seen, state, old(run), yielded, run, mine, c);
    }

    /** Look the held action up and send it, or find a reason not to. */
    method Try(c: nat, a: Answers, ghost mine: set<nat>)
      requires Consistent() && c in mine && c in state.claims && state.claims[c].stage.Leased?
      modifies this
      ensures Consistent() && old(run) <= run
      ensures c in state.claims && state.claims[c] == old(state).claims[c].(stage := Settling(Closes(a)))
      ensures Acts(run, |old(run)|, c) == Tried(a)
      ensures Send in Acts(run, |old(run)|, c) <==> a.configured && a.readable && a.pending
      ensures Spared(old(state), state, old(run), run, mine, c)
      ensures old(state).rows.Keys <= state.rows.Keys
    {
      if Sendable(a) {
        Move(c, Send, mine);
        ghost var sent, seen := run, state;
        Move(c, SendEnds(a.sendOk), mine);
        ActsThen(old(run), sent, run, c);
        SparedThen(old(state), seen, state, old(run), sent, run, mine, c);
      } else {
        Move(c, if a.configured && !a.readable then ReadFails else Skip, mine);
      }
    }

    /** Mark the row delivered, or due again after the backoff of its attempt count. */
    method Close(c: nat, a: Answers, ghost mine: set<nat>)
      requires Consistent() && c in mine && c in state.claims && state.claims[c].stage == Settling(Closes(a))
      modifies this
      ensures Consistent() && old(run) <= run && c !in state.claims
      ensures Acts(run, |old(run)|, c) == [Settle(a.applied, a.clock)]
      ensures Spared(old(state), state, old(run), run, mine, c)
      ensures old(state).rows.Keys <= state.rows.Keys
      ensures var claim := old(state).claims[c];
              claim.key in state.rows &&
              (a.applied ==> if Closes(a) then state.rows[claim.key].delivered
                             else state.rows[claim.key].nextAttempt == a.clock + Backoff(claim.attempts))
    {
      ghost var before := state;
      Yield(mine);
      assert Untouched(before, state, c);
      ghost var yielded, seen := run, state;
      InvAlways(start, run);
      Do(On(c, Settle(a.applied, a.clock)));
      ActsThen(old(run), yielded, run, c);
      assert Spared(before, seen, old(run), yielded, mine, c) && Spared(seen, state, yielded, run, mine, c);
      SparedThen(before, seen, state, old(run), yielded, run, mine, c);
    }

    /**
     Deliver one leased notification: the steps are exactly those its answers call
     for. The row is then closed for good, or due again after the backoff of its
     attempt count.
     */
    method Deliver(c: nat, a: Answers, ghost mine: set<nat>)
      requires Consistent() && c in mine && c in state.claims && state.claims[c].stage.Leased?
      modifies this
      ensures Consistent() && old(run) <= run && c !in state.claims
      ensures Acts(run, |old(run)|, c) == Steps(a)
      ensures Send in Acts(run, |old(run)|, c) <==> a.configured && a.readable && a.pending
      ensures Spared(old(state), state, old(run), run, mine, c)
      ensures old(state).rows.Keys <= state.rows.Keys
      ensures var claim := old(state).claims[c];
              claim.key in state.rows &&
              (a.applied ==> if !a.configured || (a.readable && !a.pending) || (a.readable && a.sendOk) then state.rows[claim.key].delivered
                             else state.rows[claim.key].nextAttempt == a.clock + Backoff(claim.attempts))
    {
      Try(c, a, mine);
      ghost var tried, seen := run, state;
      Close(c, a, mine);
      ActsThen(old(run), tried, run, c);
      SparedThen(old(state), seen, state, old(run), tried, run, mine, c);
    }

    /** Lease one row of the claim statement's answer, if it is due. */
    method LeaseOne(key: Key, c: nat)
      requires Consistent() && c !in state.claims
      modifies this
      ensures Consistent() && old(run) <= run
      ensures LeaseStep(old(state), state, old(run), run, key, c)
    {
      if Due(state, key) { Do(On(c, Take(key, true))); }
    }

    /** The claim statement: every row of the answer that is due is leased, under its own fresh id, and no other. */
    method Lease(due: seq<Key>, ids: seq<nat>)
      requires Consistent() && |due| == |ids|
      requires forall i, j :: 0 <= i < j < |ids| ==> ids[i] != ids[j] && due[i] != due[j]
      requires forall i :: 0 <= i < |ids| ==> ids[i] !in state.claims
      modifies this
      ensures Consistent() && old(run) <= run && state.rows.Keys == old(state).rows.Keys
      ensures forall key :: key in state.rows && key !in due ==> state.rows[key] == old(state).rows[key]
      ensures forall i :: 0 <= i < |ids| ==> LeasedIfDue(old(state), state, due[i], ids[i])
      ensures forall i :: 0 <= i < |ids| ==> Acts(run, |old(run)|, ids[i]) == Taken(old(state), due[i])
    {
      var i := 0;
      while i < |due|
        invariant 0 <= i <= |due|
        invariant Consistent() && old(run) <= run && state.rows.Keys == old(state).rows.Keys
        invariant forall key :: key in state.rows && key !in due ==> state.rows[key] == old(state).rows[key]
        invariant forall k :: 0 <= k < |ids| ==> RowAt(old(state), state, old(run), run, due[k], ids[k], k < i)
      {
        i := LeaseNext(due, ids, i, old(state), old(run));
      }
      forall k | 0 <= k < |ids|
        ensures LeasedIfDue(old(state), state, due[k], ids[k]) && Acts(run, |old(run)|, ids[k]) == Taken(old(state), due[k])
      {
        assert RowAt(old(state), state, old(run), run, due[k], ids[k], k < i);
      }
    }

    /** One row of the claim statement. */
    method LeaseNext(due: seq<Key>, ids: seq<nat>, i: nat, ghost s: State, ghost past: seq<Action>) returns (next: nat)
      requires Consistent() && |due| == |ids| && i < |due| && past <= run
      requires forall j, k :: 0 <= j < k < |ids| ==> ids[j] != ids[k] && due[j] != due[k]
      requires forall k :: 0 <= k < |ids| ==> RowAt(s, state, past, run, due[k], ids[k], k < i)
      modifies this
      ensures Consistent() && old(run) <= run && next == i + 1 && state.rows.Keys == old(state).rows.Keys
      ensures forall key :: key in state.rows && key != due[i] ==> state.rows[key] == old(state).rows[key]
      ensures forall k :: 0 <= k < |ids| ==> RowAt(s, state, past, run, due[k], ids[k], k < next)
    {
      ghost var t, r1 := state, run;
      assert RowAt(s, t, past, r1, due[i], ids[i], false);
      LeaseOne(due[i], ids[i]);
      next := i + 1;
      forall k | 0 <= k < |ids|
        ensures RowAt(s, state, past, run, due[k], ids[k], k < next)
      {
        if k == i {
          RowTaken(s, t, state, past, r1, run, due[i], ids[i]);
        } else {
          RowKept(s, t, state, past, r1, run, due[i], ids[i], due[k], ids[k], k < i);
        }
      }
    }

    /** Work through the leases in order, each exactly once. */
    method DeliverAll(ids: seq<nat>) returns (ghost answers: seq<Answers>)
      requires Consistent()
      requires forall i, j :: 0 <= i < j < |ids| ==> ids[i] != ids[j]
      requires forall i :: 0 <= i < |ids| && ids[i] in state.claims ==> state.claims[ids[i]].stage.Leased?
      modifies this
      ensures Consistent() && old(run) <= run && old(state).rows.Keys <= state.rows.Keys
      ensures |answers| == |ids| && forall i :: 0 <= i < |ids| ==> ids[i] !in state.claims
      ensures forall i :: 0 <= i < |ids| ==>
                Acts(run, |old(run)|, ids[i]) == if ids[i] in old(state).claims then Steps(answers[i]) else []
    {
      ghost var mine := set c | c in ids;
      answers := [];
      var i := 0;
      while i < |ids|
        invariant 0 <= i == |answers| <= |ids|
        invariant Consistent() && old(run) <= run && old(state).rows.Keys <= state.rows.Keys
        invariant forall k :: 0 <= k < |ids| ==> ClaimAt(old(state), state, old(run), run, ids[k], answers, k)
      {
        var given: Answers := *;
        assert ClaimAt(old(state), state, old(run), run, ids[i], answers, i) && ids[i] in mine;
        ghost var t, r1, more := state, run, answers + [given];
        DeliverNext(ids[i], given, mine, old(run));
        forall k | 0 <= k < |ids|
          ensures ClaimAt(old(state), state, old(run), run, ids[k], more, k)
        {
          assert ClaimAt(old(state), t, old(run), r1, ids[k], answers, k);
          if k != i { assert ids[k] in mine && ids[k] != ids[i] && Untouched(t, state, ids[k]); }
        }
        i, answers := i + 1, more;
      }
      assert forall k :: 0 <= k < |ids| ==> ClaimAt(old(state), state, old(run), run, ids[k], answers, k);
    }

    /** One turn of that loop, for a claim that may or may not have been taken. */
    method DeliverNext(c: nat, a: Answers, ghost mine: set<nat>, ghost past: seq<Action>)
      requires Consistent() && past <= run && c in mine
      requires c in state.claims ==> state.claims[c].stage.Leased?
      modifies this
      ensures Consistent() && old(run) <= run && old(state).rows.Keys <= state.rows.Keys && c !in state.claims
      ensures Acts(run, |past|, c) == Acts(old(run), |past|, c) + if c in old(state).claims then Steps(a) else []
      ensures forall d :: d in mine && d != c ==>
                Untouched(old(state), state, d) && Acts(run, |past|, d) == Acts(old(run), |past|, d)
    {
      if c in state.claims { Deliver(c, a, mine); }
      forall d | d in mine
        ensures Acts(run, |past|, d) == Acts(old(run), |past|, d) + Acts(run, |old(run)|, d)
      {
        ActsThen(past, old(run), run, d);
      }
    }

    /** Lease what is due now and work the leases through. */
    method LeaseAndDeliver(due: seq<Key>, ids: seq<nat>) returns (ghost answers: seq<Answers>)
      requires Consistent() && |due| == |ids|
      requires forall i, j :: 0 <= i < j < |ids| ==> ids[i] != ids[j] && due[i] != due[j]
      requires forall i :: 0 <= i < |ids| ==> ids[i] !in state.claims
      modifies this
      ensures Consistent() && old(run) <= run && old(state).rows.Keys <= state.rows.Keys && |answers| == |ids|
      ensures forall i :: 0 <= i < |ids| ==> ids[i] !in state.claims
      ensures forall i :: 0 <= i < |ids| ==>
                Acts(run, |old(run)|, ids[i]) == if Due(old(state), due[i]) then [Take(due[i], true)] + Steps(answers[i]) else []
    {
      Lease(due, ids);
      ghost var leased := run;
      answers := DeliverAll(ids);
      forall i | 0 <= i < |ids|
        ensures Acts(run, |old(run)|, ids[i]) == Acts(leased, |old(run)|, ids[i]) + Acts(run, |leased|, ids[i])
      {
        ActsThen(old(run), leased, run, ids[i]);
      }
    }

    /**
     One tick. Every held action has its row afterwards; the claim statement sees the
     table as it stands at some point `at` of the tick and leases the oldest due rows
     there, up to the batch size; each lease is worked through once and gone when the
     tick ends. If either statement reports failure the tick ends with nothing leased;
     what such a statement may have done all the same counts as someone else's step.
     */
    method ProcessOnce(held: seq<Key>, queued: bool, claimed: bool)
      returns (ghost at: nat, ghost due: seq<Key>, ghost ids: seq<nat>, ghost answers: seq<Answers>)
      requires Consistent()
      modifies this
      ensures Consistent() && old(run) <= run && |old(run)| <= at <= |run| && |due| == |ids| == |answers|
      ensures queued ==> forall i :: 0 <= i < |held| ==> held[i] in state.rows
      ensures After(start, run[..at]).Some?
      ensures if queued && claimed then DueBatch(After(start, run[..at]).value, due, 25) else due == []
      ensures forall i :: 0 <= i < |ids| ==> Acts(run, at, ids[i]) == [Take(due[i], true)] + Steps(answers[i])
      ensures forall i :: 0 <= i < |ids| ==> ids[i] !in state.claims
    {
      if queued { EnqueueHeld(held); }
      Yield({});
      ghost var before := run;
      at, due, ids, answers := |run|, [], [], [];
      assert run[..at] == run;
      if !queued || !claimed { return; }
      var keys := SelectDue(state, BATCH_SIZE);
      var unused := FreshIds(state.claims, |keys|);
      due, ids := keys, unused;
      answers := LeaseAndDeliver(keys, unused);
      assert run[..at] == before;
    }

    /** Queue every held action that has no row yet. */
    method EnqueueHeld(held: seq<Key>)
      requires Consistent()
      modifies this
      ensures Consistent() && old(run) <= run && state.claims == old(state).claims
      ensures state.rows.Keys == old(state).rows.Keys + (set k | k in held)
      ensures forall k :: k in old(state).rows ==> state.rows[k] == old(state).rows[k]
      ensures forall k :: k in state.rows && k !in old(state).rows ==>
                state.rows[k] == Row(0, old(state).now, false, old(state).now)
    {
      var i := 0;
      while i < |held|
        invariant 0 <= i <= |held|
        invariant Consistent() && old(run) <= run && state.claims == old(state).claims
        invariant state.rows.Keys == old(state).rows.Keys + (set k | k in held[..i])
        invariant forall k :: k in old(state).rows ==> state.rows[k] == old(state).rows[k]
        invariant state.now == old(state).now
        invariant forall k :: k in state.rows && k !in old(state).rows ==>
                    state.rows[k] == Row(0, old(state).now, false, old(state).now)
      {
        Do(Enqueue(held[i]));
        assert held[..i + 1] == held[..i] + [held[i]];
        i := i + 1;
      }
      assert held[..|held|] == held;
    }
  }
}
