/**
 The worker's own code, statement by statement, over a database, ledger and
 upstream that other actors use at the same time. Everything a pass does is an
 action of the protocol, so whatever holds of every run holds of this code.
 */
module ReplayWorker {
  import opened Options
  import opened Quarantine
  import opened Replay
  import opened ReplayOwnership
  import opened ReplayDrain
  import opened ReplaySettle

  /** From position i on, no action of the run is by replica `me`. */
  ghost predicate OthersOnly(run: seq<Action>, i: nat, me: Replica) {
    forall k :: i <= k < |run| ==> !(run[k].Pass? && run[k].r == me) && !(run[k].Entry? && run[k].r == me)
  }

  /** Whatever the others do, a replica's own phase stays as it left it. */
  lemma {:induction false} OthersLeaveMe(env: Env, run: seq<Action>, i: nat, me: Replica)
    requires After(env, run).Some? && i <= |run| && OthersOnly(run, i, me)
    ensures After(env, run[..i]).Some?
    ensures PhaseOf(After(env, run).value, me) == PhaseOf(After(env, run[..i]).value, me)
    decreases |run|
  {
    PrefixIsRun(env, run, i);
    if i < |run| {
      var past, a := run[..|run| - 1], run[|run| - 1];
      OthersLeaveMe(env, past, i, me);
      assert past[..i] == run[..i];
      OwnershipAlways(env, past);
      var s := After(env, past).value;
      match a {
        case Pass(o, pass) => PassLeavesOthers(env, s, o, pass, me);
        case Entry(o, work) => EntryLeavesOthers(env, s, o, work, me);
        case Proxy(n, step) => ProxySpares(env, s, n, step);
        case Reviewer(n, act) => ReviewerSpares(env, s, n, act);
        case Upstream(_) =>
      }
    } else {
      assert run[..i] == run;
    }
  }

  lemma {:induction false} OldestExists(t: Table, ids: set<Id>) returns (oldest: Id)
    requires ids != {} && ids <= t.Keys
    ensures oldest in ids && forall o :: o in ids ==> t[oldest].created <= t[o].created
    decreases ids
  {
    oldest :| oldest in ids;
    if ids == {oldest} {
    } else {
      assert ids == {oldest} + (ids - {oldest});
      var other := OldestExists(t, ids - {oldest});
      if t[other].created < t[oldest].created { oldest := other; }
    }
  }

  /** The claim query: approved rows, oldest first, up to the limit. */
  method SelectApproved(t: Table, limit: nat) returns (ids: seq<Id>)
    ensures Claimable(t, ids, limit)
  {
    ids := [];
    var left := set id | id in t && t[id].status == Approved;
    while |ids| < limit && left != {}
      invariant |ids| <= limit
      invariant forall i, j :: 0 <= i < j < |ids| ==> ids[i] != ids[j]
      invariant forall id :: id in t && t[id].status == Approved <==> id in ids || id in left
      invariant forall id :: id in ids ==> id !in left
      invariant forall id, o :: id in ids && o in left ==> t[id].created <= t[o].created
      decreases left
    {
      ghost var oldest := OldestExists(t, left);
      var id :| id in left && forall o :: o in left ==> t[id].created <= t[o].created;
      ids, left := ids + [id], left - {id};
    }
  }

  // ----- what processing one entry amounts to -----

  /** Everything the outside world answers while one entry is processed. */
  datatype Answers = Answers(
    blocked: bool,
    started: Fault,
    built: bool,
    accepted: bool,
    outcome: string,
    noted: Fault,
    settled: Fault,
    recorded: Fault)

  /** The ledger entry about a settled entry is written only if the update reported success. */
  function Noted(a: Answers): seq<EntryAct> {
    if a.settled == Done then [Note(a.recorded)] else []
  }

  function Attempted(a: Answers, confirmed: bool): seq<EntryAct> {
    if !a.built then [SendFails] + [Outcome(a.noted), Settle(a.settled)]
    else [Send, Answer(confirmed, a.outcome)] +
         if confirmed then [Settle(a.settled)] + Noted(a) else [Outcome(a.noted), Settle(a.settled)]
  }

  /** The protocol steps an entry takes, given the answers and whether the upstream confirmed the call. */
  function Script(env: Env, entry: Snap, a: Answers, confirmed: bool): seq<EntryAct> {
    var exhausted := entry.row.attempts > env.maxAttempts;
    [Decide(!exhausted && a.blocked)] +
    if exhausted || a.blocked then [Settle(a.settled)] + Noted(a)
    else [WriteAhead(a.started)] + if a.started == Done then Attempted(a, confirmed) else [Settle(a.settled)]
  }

  /**
   An entry is sent at most once per pass, only within its attempt limit, only if
   current policy does not block it, and only directly after its write-ahead
   ledger entry was acknowledged; and it is settled exactly once.
   */
  lemma ScriptIsSafe(env: Env, entry: Snap, a: Answers, confirmed: bool)
    ensures var acts := Script(env, entry, a, confirmed);
            && (Send in acts <==> entry.row.attempts <= env.maxAttempts && !a.blocked && a.started == Done && a.built)
            && (forall i :: 0 <= i < |acts| && acts[i] == Send ==> i == 2 && acts[i - 1] == WriteAhead(Done))
            && (forall i, j :: 0 <= i < |acts| && 0 <= j < |acts| && acts[i].Settle? && acts[j].Settle? ==> i == j)
            && (exists i :: 0 <= i < |acts| && acts[i] == Settle(a.settled))
  {
    var acts := Script(env, entry, a, confirmed);
    assert |acts| >= 2;
    assert acts[1] == Settle(a.settled) || (|acts| > 2 && acts[2] == Settle(a.settled))
           || (|acts| > 4 && acts[4] == Settle(a.settled)) || (|acts| > 5 && acts[5] == Settle(a.settled));
    if entry.row.attempts <= env.maxAttempts && !a.blocked && a.started == Done && a.built {
      assert acts[2] == Send;
    }
  }

  /** How one entry went: what the world answered, and whether the upstream confirmed the call. */
  datatype Processing = Processing(answers: Answers, confirmed: bool)

  /** The steps of a batch, entry by entry in claim order. */
  function Scripts(env: Env, entries: seq<Snap>, went: seq<Processing>): seq<EntryAct>
    requires |went| <= |entries|
  {
    if went == [] then []
    else
      var k := |went| - 1;
      Scripts(env, entries, went[..k]) + Script(env, entries[k], went[k].answers, went[k].confirmed)
  }

  lemma {:induction false} MineOfOthers(run: seq<Action>, i: nat, me: Replica)
    requires OthersOnly(run, i, me)
    ensures Mine(run, i, me) == []
    decreases |run|
  {
    if |run| <= i {
    } else {
      MineOfOthers(run[..|run| - 1], i, me);
    }
  }

  lemma {:induction false} MineConcat(run: seq<Action>, i: nat, j: nat, me: Replica)
    requires i <= j <= |run|
    ensures Mine(run, i, me) == Mine(run[..j], i, me) + Mine(run, j, me)
    decreases |run|
  {
    if |run| > j {
      MineConcat(run[..|run| - 1], i, j, me);
      assert run[..|run| - 1][..j] == run[..j];
    } else {
      assert run[..j] == run;
    }
  }

  lemma MineThen(r0: seq<Action>, r1: seq<Action>, r2: seq<Action>, me: Replica)
    requires r0 <= r1 <= r2
    ensures Mine(r2, |r0|, me) == Mine(r1, |r0|, me) + Mine(r2, |r1|, me)
  {
    MineConcat(r2, |r0|, |r1|, me);
    assert r2[..|r1|] == r1;
  }

  lemma MineOne(run: seq<Action>, me: Replica, a: EntryAct)
    ensures Mine(run + [Entry(me, a)], |run|, me) == [a]
  {
    assert (run + [Entry(me, a)])[..|run|] == run;
  }

  // ----- the row the entry ends up in -----

  /**
   The row a claimed entry is settled to, by what the world answered: parked if it came
   in past the limit or policy blocks it; back to approved if its write-ahead entry was
   not acknowledged; replayed if the call was confirmed; and after a failed attempt
   parked at the limit, approved again below it.
   */
  function RowGiven(env: Env, row: Row, a: Answers, confirmed: bool): Row {
    var parked := row.(status := ReplayFailed);
    var again := row.(status := Approved, attempts := row.attempts + 1);
    if row.attempts > env.maxAttempts || a.blocked then parked
    else if a.started != Done then again
    else if a.built && confirmed then row.(status := Replayed, attempts := row.attempts + 1)
    else if row.attempts == env.maxAttempts then parked
    else again
  }

  /** At this position the replica settled this entry. */
  ghost predicate SettledAt(env: Env, run: seq<Action>, at: nat, me: Replica, entry: Snap, fault: Fault) {
    && at < |run| && run[at] == Entry(me, Settle(fault)) && After(env, run[..at]).Some?
    && PhaseOf(After(env, run[..at]).value, me).Settling? && PhaseOf(After(env, run[..at]).value, me).cur == entry
  }

  /** The settle at this position turned the claimed row, and no other, into the given one, or was lost. */
  ghost predicate SettledTo(env: Env, run: seq<Action>, at: nat, me: Replica, entry: Snap, fault: Fault, row: Row) {
    && at < |run| && run[at] == Entry(me, Settle(fault))
    && After(env, run[..at]).Some? && After(env, run[..at + 1]).Some?
    && var before, after := After(env, run[..at]).value.rows, After(env, run[..at + 1]).value.rows;
       && entry.id in before && before[entry.id] == entry.row
       && after == if fault == Lost then before else before[entry.id := row]
  }

  lemma SettledAtStays(env: Env, run: seq<Action>, run': seq<Action>, at: nat, me: Replica, entry: Snap, fault: Fault)
    requires SettledAt(env, run, at, me, entry, fault) && run <= run'
    ensures SettledAt(env, run', at, me, entry, fault)
  {
    assert run'[..at] == run[..at];
  }

  lemma MineAt(run: seq<Action>, from_: nat, me: Replica, at: nat)
    requires from_ <= at < |run| && run[at].Entry? && run[at].r == me
    ensures var acts, j := Mine(run, from_, me), |Mine(run[..at], from_, me)|;
            j < |acts| && acts[j] == run[at].work && acts[..j] == Mine(run[..at], from_, me)
  {
    MineConcat(run, from_, at + 1, me);
    assert run[..at + 1][..at] == run[..at];
  }

  /** What the steps before the settle tell, whatever came before them. */
  lemma ScriptTells(env: Env, entry: Snap, a: Answers, confirmed: bool, earlier: seq<EntryAct>, j: nat)
    requires j < |Script(env, entry, a, confirmed)| && Script(env, entry, a, confirmed)[j].Settle?
    ensures RowAfter(env, entry.row, Told(earlier + Script(env, entry, a, confirmed)[..j])) == RowGiven(env, entry.row, a, confirmed)
  {
    var acts := Script(env, entry, a, confirmed);
    var told := earlier + acts[..j];
    assert told[|told| - 1] == acts[j - 1];
    if acts[j - 1].Outcome? {
      assert told[..|told| - 1] == earlier + acts[..j - 1];
      assert told[..|told| - 1][|told| - 2] == acts[j - 2];
    }
  }

  lemma ScriptSettles(env: Env, run: seq<Action>, from_: nat, me: Replica, at: nat, entry: Snap, a: Answers, confirmed: bool)
    requires After(env, run).Some? && from_ <= at && SettledAt(env, run, at, me, entry, a.settled)
    requires Mine(run, from_, me) == Script(env, entry, a, confirmed)
    ensures SettledTo(env, run, at, me, entry, a.settled, RowGiven(env, entry.row, a, confirmed))
  {
    var before := run[..at];
    MineAt(run, from_, me, at);
    MineConcat(before, 0, from_, me);
    ScriptTells(env, entry, a, confirmed, Mine(before[..from_], 0, me), |Mine(before, from_, me)|);
    PrefixIsRun(env, run, at + 1);
    assert run[..at + 1][..at] == before;
    SettledRow(env, before, me, a.settled);
  }

  /** The step is enabled whatever the others did: it depends on the replica's own phase only. */
  predicate Free(p: Phase, a: EntryAct) {
    match a
    case Decide(_) => p.Draining? && p.batch != []
    case WriteAhead(_) => p.Permitted?
    case Send => p.Starting?
    case SendFails => p.Starting?
    case Answer(ok, _) => p.Waiting? && !ok
    case Outcome(_) => p.Failing?
    case Settle(_) => p.Settling?
    case Note(_) => p.Noting?
  }

  /** Where a step leads from a phase. */
  predicate Leads(env: Env, p: Phase, a: EntryAct, p': Phase)
    requires Free(p, a)
  {
    match a
    case Decide(blocked) =>
      var cur, rest := p.batch[0], p.batch[1..];
      if cur.row.attempts > env.maxAttempts then p' == Settling(cur, rest, Park, "replay_exhausted")
      else if blocked then p' == Settling(cur, rest, Park, "replay_blocked_by_policy")
      else p' == Permitted(cur, rest)
    case WriteAhead(fault) =>
      if fault == Done then p'.Starting? && p'.cur == p.cur && p'.rest == p.rest
      else p' == Settling(p.cur, p.rest, Release, "")
    case Send => p' == Waiting(p.cur, p.rest)
    case SendFails => p' == Failing(p.cur, p.rest, "replay_error")
    case Answer(_, outcome) => p' == Failing(p.cur, p.rest, outcome)
    case Outcome(_) =>
      p' == Settling(p.cur, p.rest, if p.cur.row.attempts >= env.maxAttempts then Park else Release, "")
    case Settle(fault) =>
      p' == if fault == Done && p.note != "" then Noting(p.cur, p.rest, p.note) else Draining(p.rest)
    case Note(_) => p' == Draining(p.rest)
  }

  lemma FreeStepLeads(env: Env, s: State, p: Phase, a: EntryAct)
    requires Free(p, a) && AllHeld(s.rows, Unprocessed(p))
    ensures EntryStep(env, s, p, a).Some? && Leads(env, p, a, EntryStep(env, s, p, a).value.1)
  {
    if a.Settle? { Tail(s.rows, p.cur, p.rest); }
  }

  // ----- handler calls -----

  datatype Handler = ForRequest(n: nat) | ForReview(n: nat)

  datatype Served = AuditUnavailable | Forwarded | DeniedByPolicy | Quarantined(id: Id) | StoreFailed

  datatype Verdicts = Success | NotFound | AlreadyResolved | DecidedUnaudited | StoreError

  /** What a handler call keeps between its statements. */
  datatype Locals = OfRequest(request: Option<Ingress>) | OfReview(review: Option<Review>)

  function Local(s: State, me: Handler): Locals {
    match me
    case ForRequest(n) => OfRequest(if n in s.requests then Some(s.requests[n]) else None)
    case ForReview(n) => OfReview(if n in s.reviews then Some(s.reviews[n]) else None)
  }

  ghost predicate NotBy(run: seq<Action>, i: nat, me: Handler) {
    forall k :: i <= k < |run| ==>
      match me
      case ForRequest(n) => !(run[k].Proxy? && run[k].n == n)
      case ForReview(n) => !(run[k].Reviewer? && run[k].n == n)
  }

  lemma EntryKeepsHandlers(env: Env, s: State, p: Phase, a: EntryAct)
    requires EntryStep(env, s, p, a).Some?
    ensures var t := EntryStep(env, s, p, a).value.0;
            t.requests == s.requests && t.reviews == s.reviews
  {
  }

  lemma {:induction false} OthersLeaveHandler(env: Env, run: seq<Action>, i: nat, me: Handler)
    requires After(env, run).Some? && i <= |run| && NotBy(run, i, me)
    ensures After(env, run[..i]).Some?
    ensures Local(After(env, run).value, me) == Local(After(env, run[..i]).value, me)
    decreases |run|
  {
    PrefixIsRun(env, run, i);
    if i < |run| {
      var past, a := run[..|run| - 1], run[|run| - 1];
      OthersLeaveHandler(env, past, i, me);
      assert past[..i] == run[..i];
      var s := After(env, past).value;
      match a {
        case Pass(o, pass) => PassKeepsHandlers(env, s, o, pass);
        case Entry(o, work) => EntryKeepsHandlers(env, s, PhaseOf(s, o), work);
        case Proxy(n, step) => ProxyKeepsOthers(env, s, n, step);
        case Reviewer(n, act) => ReviewKeepsOthers(env, s, n, act);
        case Upstream(_) =>
      }
    } else {
      assert run[..i] == run;
    }
  }

  lemma PassKeepsHandlers(env: Env, s: State, r: Replica, a: PassAct)
    requires PassNext(env, s, r, a).Some?
    ensures var t := PassNext(env, s, r, a).value;
            t.requests == s.requests && t.reviews == s.reviews
  {
  }

  lemma ProxyKeepsOthers(env: Env, s: State, n: nat, a: ProxyAct)
    requires ProxyNext(env, s, n, a).Some?
    ensures var t := ProxyNext(env, s, n, a).value;
            && t.reviews == s.reviews
            && forall m :: m != n ==> Local(t, ForRequest(m)) == Local(s, ForRequest(m))
  {
  }

  lemma ReviewKeepsOthers(env: Env, s: State, n: nat, a: ReviewAct)
    requires ReviewNext(env, s, n, a).Some?
    ensures var t := ReviewNext(env, s, n, a).value;
            && t.requests == s.requests
            && forall m :: m != n ==> Local(t, ForReview(m)) == Local(s, ForReview(m))
  {
  }

  /** Some id that is not in use; the database generates one. */
  method FreshId(t: Table) returns (id: Id)
    ensures id !in t
  {
    id := "0";
    var left := t.Keys;
    while left != {}
      invariant forall o :: o in t && o !in left ==> |o| < |id|
      decreases left
    {
      var o :| o in left;
      if |o| >= |id| { id := o + "0"; }
      left := left - {o};
    }
  }

  /** At position k the handler's update was acknowledged, on a row open for review or not. */
  ghost predicate CommittedAt(env: Env, run: seq<Action>, k: nat, n: nat, id: Id, open: bool)
    requires k < |run|
  {
    && run[k] == Reviewer(n, Commit(Done))
    && After(env, run[..k]).Some? && Resolvable(After(env, run[..k]).value.rows, id) == open
  }

  /** The verdict at position k left the row under the reviewer's name, with a fresh count if approved. */
  ghost predicate VerdictAt(env: Env, run: seq<Action>, k: nat, id: Id, who: string, approve: bool)
    requires k < |run|
  {
    && After(env, run[..k]).Some? && After(env, run[..k + 1]).Some?
    && var before, after := After(env, run[..k]).value.rows, After(env, run[..k + 1]).value.rows;
       && id in before && id in after
       && after[id] == Row(before[id].agent, before[id].tool, before[id].payload, before[id].created,
                           if approve then Approved else Denied, if approve then 0 else before[id].attempts, who)
  }

  ghost predicate MadeAt(env: Env, run: seq<Action>, k: nat, n: nat, id: Id, who: string, approve: bool)
    requires k < |run|
  {
    CommittedAt(env, run, k, n, id, true) && VerdictAt(env, run, k, id, who, approve)
  }

  lemma MadeStays(env: Env, run: seq<Action>, run': seq<Action>, k: nat, n: nat, id: Id, who: string, approve: bool)
    requires run <= run' && k < |run| && MadeAt(env, run, k, n, id, who, approve)
    ensures MadeAt(env, run', k, n, id, who, approve)
  {
    assert run'[..k] == run[..k] && run'[..k + 1] == run[..k + 1];
  }

  /** After the run some other replica holds the lock. */
  ghost predicate HeldElsewhere(env: Env, run: seq<Action>, me: Replica) {
    After(env, run).Some? && After(env, run).value.owner.Some? && After(env, run).value.owner != Some(me)
  }

  class World {
    const env: Env
    /** No approvals arrive and table updates succeed; other replicas, reviewers and agents still act. */
    const calm: bool
    var state: State
    ghost var run: seq<Action>

    ghost predicate Consistent()
      reads this
    {
      After(env, run) == Some(state)
    }

    /** Everything since the given point was done by others and, when calm, added no work. */
    ghost predicate Interfered(past: seq<Action>, me: Replica)
      reads this
    {
      && past <= run && OthersOnly(run, |past|, me)
      && (calm ==> CalmStretch(env, run, |past|, |run|, me))
    }

    constructor (env: Env, calm: bool)
      ensures this.env == env && this.calm == calm && Consistent() && run == [] && state == INIT
    {
      this.env, this.calm, this.state, this.run := env, calm, INIT, [];
    }

    /**
     Other actors may do anything, any number of times, while a replica is
     between two statements. Doing nothing is one such case; callers are verified
     against all of them.
     */
    method Interfere(me: Replica)
      requires Consistent()
      modifies this
      ensures Consistent() && Interfered(old(run), me)
    {
    }

    /** What any interference leaves a replica with. */
    lemma AfterInterference(past: seq<Action>, me: Replica)
      requires Consistent() && Interfered(past, me)
      ensures After(env, past).Some?
      ensures PhaseOf(state, me) == PhaseOf(After(env, past).value, me)
      ensures calm ==> Work(env, state.rows) <= Work(env, After(env, past).value.rows)
    {
      assert run[..|past|] == past && run[..|run|] == run;
      OthersLeaveMe(env, run, |past|, me);
      if calm {
        StretchProgress(env, run, |past|, |run|, me);
      }
    }

    /** A table update may fail either way unless the world is calm. */
    method StoreFault() returns (fault: Fault)
      ensures calm ==> fault == Done
    {
      if calm { fault := Done; } else { fault := *; }
    }

    /** One step of this replica on its current entry. */
    method Do(me: Replica, a: EntryAct)
      requires Consistent()
      requires EntryStep(env, state, PhaseOf(state, me), a).Some?
      requires calm && a.Settle? ==> a.fault == Done
      modifies this
      ensures Consistent() && run == old(run) + [Entry(me, a)]
      ensures Some(state) == EntryNext(env, old(state), me, a)
      ensures PhaseOf(state, me) == EntryStep(env, old(state), PhaseOf(old(state), me), a).value.1
      ensures Did(old(run), me, [a])
      ensures calm ==> Debt(env, state, me) <= Debt(env, old(state), me)
    {
      OwnershipAlways(env, run);
      if calm { CalmProgress(env, state, Entry(me, a), me); }
      var step := EntryStep(env, state, PhaseOf(state, me), a).value;
      state := Enter(step.0, me, step.1);
      assert (run + [Entry(me, a)])[..|run|] == run;
      MineOne(run, me, a);
      run := run + [Entry(me, a)];
    }

    /** Since the given point this replica has taken exactly these steps on entries. */
    ghost predicate Did(past: seq<Action>, me: Replica, acts: seq<EntryAct>)
      reads this
    {
      past <= run && Mine(run, |past|, me) == acts
    }

    /** A point between two statements, where the others run. */
    method Yield(me: Replica)
      requires Consistent()
      modifies this
      ensures Consistent() && Did(old(run), me, [])
      ensures PhaseOf(state, me) == old(PhaseOf(state, me))
      ensures calm ==> Work(env, state.rows) <= old(Work(env, state.rows))
    {
      Interfere(me);
      AfterInterference(old(run), me);
      MineOfOthers(run, |old(run)|, me);
    }

    /** Let the others run, then take one step. */
    method Step(me: Replica, a: EntryAct)
      requires Consistent() && Free(PhaseOf(state, me), a)
      requires calm && a.Settle? ==> a.fault == Done
      modifies this
      ensures Consistent() && Did(old(run), me, [a])
      ensures Leads(env, old(PhaseOf(state, me)), a, PhaseOf(state, me))
      ensures calm ==> Debt(env, state, me) <= old(Debt(env, state, me))
    {
      Yield(me);
      ghost var before := run;
      OwnershipAlways(env, run);
      OwnPhase(env, state, me);
      FreeStepLeads(env, state, PhaseOf(state, me), a);
      Do(me, a);
      MineThen(old(run), before, run, me);
    }

    /** The upstream's answer; a 2xx is only possible for an action the upstream has carried out. */
    method Await(me: Replica, cur: Snap, ghost rest: seq<Snap>, accepted: bool, outcome: string) returns (ok: bool)
      requires Consistent() && PhaseOf(state, me) == Waiting(cur, rest)
      modifies this
      ensures Consistent() && Did(old(run), me, [Answer(ok, outcome)])
      ensures ok ==> accepted && Executed(state.effects, Key(cur.id))
      ensures PhaseOf(state, me) == if ok then Settling(cur, rest, Complete, "approved_replayed")
                                    else Failing(cur, rest, outcome)
      ensures calm ==> Debt(env, state, me) <= old(Debt(env, state, me))
    {
      Yield(me);
      ghost var before := run;
      ok := accepted && Executed(state.effects, Key(cur.id));
      Do(me, Answer(ok, outcome));
      MineThen(old(run), before, run, me);
    }

    /** The update that takes the current entry out of 'replaying'. */
    method SettleEntry(me: Replica, cur: Snap, ghost rest: seq<Snap>, fault: Fault) returns (ghost at: nat)
      requires Consistent() && (calm ==> fault == Done)
      requires var p := PhaseOf(state, me);
               p.Settling? && p.cur == cur && p.rest == rest
      modifies this
      ensures Consistent() && Did(old(run), me, [Settle(fault)])
      ensures |old(run)| <= at && SettledAt(env, run, at, me, cur, fault)
      ensures Leads(env, old(PhaseOf(state, me)), Settle(fault), PhaseOf(state, me))
      ensures calm ==> Debt(env, state, me) <= old(Debt(env, state, me))
    {
      Yield(me);
      ghost var before := run;
      at := |run|;
      OwnershipAlways(env, run);
      OwnPhase(env, state, me);
      FreeStepLeads(env, state, PhaseOf(state, me), Settle(fault));
      Do(me, Settle(fault));
      assert run[..at] == before;
      MineThen(old(run), before, run, me);
    }

    /** An update, followed by a ledger entry if the update reported success. */
    method SettleAndRecord(me: Replica, cur: Snap, ghost rest: seq<Snap>, a: Answers) returns (ghost at: nat)
      requires Consistent() && (calm ==> a.settled == Done)
      requires var p := PhaseOf(state, me);
               p.Settling? && p.cur == cur && p.rest == rest && p.note != ""
      modifies this
      ensures Consistent() && PhaseOf(state, me) == Draining(rest)
      ensures Did(old(run), me, [Settle(a.settled)] + Noted(a))
      ensures |old(run)| <= at && SettledAt(env, run, at, me, cur, a.settled)
      ensures calm ==> Debt(env, state, me) <= old(Debt(env, state, me))
    {
      at := SettleEntry(me, cur, rest, a.settled);
      if a.settled == Done {
        ghost var settled := run;
        Step(me, Note(a.recorded));
        MineThen(old(run), settled, run, me);
        SettledAtStays(env, settled, run, at, me, cur, a.settled);
      }
    }

    /** A failed attempt: a ledger entry, then back to 'approved' or parked. */
    method FailAttempt(me: Replica, cur: Snap, ghost rest: seq<Snap>, a: Answers) returns (ghost at: nat)
      requires Consistent() && (calm ==> a.settled == Done)
      requires PhaseOf(state, me).Failing? && PhaseOf(state, me).cur == cur && PhaseOf(state, me).rest == rest
      modifies this
      ensures Consistent() && PhaseOf(state, me) == Draining(rest)
      ensures Did(old(run), me, [Outcome(a.noted), Settle(a.settled)])
      ensures |old(run)| <= at && SettledAt(env, run, at, me, cur, a.settled)
      ensures calm ==> Debt(env, state, me) <= old(Debt(env, state, me))
    {
      Step(me, Outcome(a.noted));
      ghost var noted := run;
      at := SettleEntry(me, cur, rest, a.settled);
      MineThen(old(run), noted, run, me);
    }

    /** The POST of an audited entry. */
    method DoReplay(me: Replica, cur: Snap, ghost rest: seq<Snap>, a: Answers) returns (ok: bool)
      requires Consistent()
      requires PhaseOf(state, me).Starting? && PhaseOf(state, me).cur == cur && PhaseOf(state, me).rest == rest
      modifies this
      ensures Consistent()
      ensures Did(old(run), me, if a.built then [Send, Answer(ok, a.outcome)] else [SendFails])
      ensures ok ==> a.built && a.accepted && Executed(state.effects, Key(cur.id))
      ensures var p := PhaseOf(state, me);
              if ok then p == Settling(cur, rest, Complete, "approved_replayed")
              else p.Failing? && p.cur == cur && p.rest == rest
      ensures calm ==> Debt(env, state, me) <= old(Debt(env, state, me))
    {
      if !a.built {
        Step(me, SendFails);
        return false;
      }
      Step(me, Send);
      ghost var sent := run;
      ok := Await(me, cur, rest, a.accepted, a.outcome);
      MineThen(old(run), sent, run, me);
    }

    /** The POST and what follows from its answer. */
    method Attempt(me: Replica, entry: Snap, ghost rest: seq<Snap>, a: Answers) returns (confirmed: bool, ghost at: nat)
      requires Consistent() && (calm ==> a.settled == Done)
      requires PhaseOf(state, me).Starting? && PhaseOf(state, me).cur == entry && PhaseOf(state, me).rest == rest
      modifies this
      ensures Consistent() && PhaseOf(state, me) == Draining(rest)
      ensures confirmed ==> a.built && a.accepted
      ensures Did(old(run), me, Attempted(a, confirmed))
      ensures |old(run)| <= at && SettledAt(env, run, at, me, entry, a.settled)
      ensures calm ==> Debt(env, state, me) <= old(Debt(env, state, me))
    {
      confirmed := DoReplay(me, entry, rest, a);
      ghost var answered := run;
      if confirmed {
        at := SettleAndRecord(me, entry, rest, a);
      } else {
        at := FailAttempt(me, entry, rest, a);
      }
      MineThen(old(run), answered, run, me);
    }

    /** The write-ahead ledger entry, without which nothing is sent. */
    method AuditAndAttempt(me: Replica, entry: Snap, ghost rest: seq<Snap>, a: Answers) returns (confirmed: bool, ghost at: nat)
      requires Consistent() && (calm ==> a.settled == Done)
      requires PhaseOf(state, me) == Permitted(entry, rest)
      modifies this
      ensures Consistent() && PhaseOf(state, me) == Draining(rest)
      ensures confirmed ==> a.built && a.accepted
      ensures Did(old(run), me, [WriteAhead(a.started)] + if a.started == Done then Attempted(a, confirmed) else [Settle(a.settled)])
      ensures |old(run)| <= at && SettledAt(env, run, at, me, entry, a.settled)
      ensures calm ==> Debt(env, state, me) <= old(Debt(env, state, me))
    {
      confirmed := false;
      Step(me, WriteAhead(a.started));
      ghost var started := run;
      if a.started == Done {
        confirmed, at := Attempt(me, entry, rest, a);
      } else {
        at := SettleEntry(me, entry, rest, a.settled);
      }
      MineThen(old(run), started, run, me);
    }

    /**
     One attempt at a claimed entry: this replica's steps are exactly the script of
     the answers it got, whatever the others do in between, and its settle turns the
     row into the one those answers call for.
     */
    method ProcessClaimed(me: Replica, entry: Snap, ghost rest: seq<Snap>, a: Answers) returns (confirmed: bool, ghost at: nat)
      requires Consistent() && PhaseOf(state, me) == Draining([entry] + rest)
      requires calm ==> a.settled == Done
      modifies this
      ensures Consistent() && PhaseOf(state, me) == Draining(rest)
      ensures confirmed ==> a.built && a.accepted
      ensures Did(old(run), me, Script(env, entry, a, confirmed))
      ensures |old(run)| <= at && SettledTo(env, run, at, me, entry, a.settled, RowGiven(env, entry.row, a, confirmed))
      ensures calm ==> Work(env, state.rows) < old(Work(env, state.rows))
    {
      confirmed := false;
      assert ([entry] + rest)[1..] == rest;
      var exhausted := entry.row.attempts > env.maxAttempts;
      var blocked := !exhausted && a.blocked;
      Step(me, Decide(blocked));
      ghost var decided := run;
      if exhausted || blocked {
        at := SettleAndRecord(me, entry, rest, a);
      } else {
        confirmed, at := AuditAndAttempt(me, entry, rest, a);
      }
      MineThen(old(run), decided, run, me);
      ScriptSettles(env, run, |old(run)|, me, at, entry, a, confirmed);
    }

    /** One step of this replica on the pass itself. */
    ghost method Log(a: Action)
      requires After(env, run).Some? && Next(env, After(env, run).value, a) == Some(state)
      modifies this`run
      ensures Consistent() && run == old(run) + [a]
    {
      assert (run + [a])[..|run|] == run;
      run := run + [a];
    }

    /** pg_try_advisory_xact_lock: succeeds exactly when no one holds the lock. */
    method TryLock(me: Replica) returns (acquired: bool)
      requires Consistent() && PhaseOf(state, me) == Idle
      modifies this
      ensures Consistent() && old(run) <= run
      ensures state.rows == old(state.rows)
      ensures acquired <==> old(state.owner) == None
      ensures PhaseOf(state, me) == if acquired then Locked else Idle
      ensures !acquired ==> state == old(state)
    {
      acquired := state.owner.None?;
      if acquired {
        state := Enter(state.(owner := Some(me)), me, Locked);
        Log(Pass(me, Acquire));
      }
    }

    method RecoverStuckReplays(me: Replica) returns (ok: bool)
      requires Consistent() && PhaseOf(state, me) == Locked
      modifies this
      ensures Consistent() && old(run) <= run
      ensures PhaseOf(state, me) == if ok then Cleared else Idle
      ensures state.rows == RecoverAll(old(state.rows)) || (!ok && state.rows == old(state.rows))
      ensures calm ==> ok && Work(env, state.rows) <= old(Work(env, state.rows))
    {
      var fault := StoreFault();
      OwnershipAlways(env, run);
      if calm { CalmWork(env, state, Pass(me, Recover(fault))); }
      if fault != Lost { state := state.(rows := RecoverAll(state.rows)); }
      ok := fault == Done;
      state := if ok then Enter(state, me, Cleared) else Leave(state, me);
      Log(Pass(me, Recover(fault)));
    }

    method ClaimApproved(me: Replica) returns (ok: bool, entries: seq<Snap>)
      requires Consistent() && PhaseOf(state, me) == Cleared
      modifies this
      ensures Consistent() && old(run) <= run
      ensures PhaseOf(state, me) == if ok then Draining(entries) else Idle
      ensures ok ==> exists ids ::
                && Claimable(old(state.rows), ids, env.batchSize) && entries == Snaps(old(state.rows), ids)
                && state.rows == ClaimAll(old(state.rows), ids)
      ensures calm ==> ok && Work(env, state.rows) <= old(Work(env, state.rows))
      ensures calm && entries == [] && env.batchSize > 0 ==> Work(env, state.rows) == 0
    {
      var fault := StoreFault();
      OwnershipAlways(env, run);
      var ids := SelectApproved(state.rows, env.batchSize);
      if calm { CalmWork(env, state, Pass(me, Claim(ids, fault))); }
      if ids == [] && env.batchSize > 0 { EmptyClaimMeansDrained(env, run, me); }
      entries := Snaps(state.rows, ids);
      if fault != Lost { state := state.(rows := ClaimAll(state.rows, ids)); }
      ok := fault == Done;
      state := if ok then Enter(state, me, Draining(entries)) else Leave(state, me);
      Log(Pass(me, Claim(ids, fault)));
    }

    /** The transaction that held the lock rolls back when the pass returns. */
    method Unlock(me: Replica)
      requires Consistent() && PhaseOf(state, me).Draining?
      modifies this
      ensures Consistent() && old(run) <= run
      ensures PhaseOf(state, me) == Idle && state.rows == old(state.rows)
      ensures state.owner == None
    {
      OwnershipAlways(env, run);
      OwnPhase(env, state, me);
      state := Leave(state, me);
      Log(Pass(me, Finish));
    }

    /**
     Work through a claimed batch, stopping early when the context is cancelled: the
     steps taken are the scripts of the entries processed, in claim order, and the
     rest of the batch is left as it was claimed.
     */
    method DrainOnce(me: Replica, entries: seq<Snap>) returns (ghost went: seq<Processing>)
      requires Consistent() && PhaseOf(state, me) == Draining(entries)
      modifies this
      ensures Consistent() && |went| <= |entries|
      ensures Did(old(run), me, Scripts(env, entries, went))
      ensures PhaseOf(state, me) == Draining(entries[|went|..])
      ensures calm ==> |went| == |entries|
      ensures calm ==> Work(env, state.rows) + |entries| <= old(Work(env, state.rows))
    {
      var i := 0;
      went := [];
      while i < |entries|
        invariant 0 <= i == |went| <= |entries|
        invariant Consistent() && Did(old(run), me, Scripts(env, entries, went))
        invariant PhaseOf(state, me) == Draining(entries[i..])
        invariant calm ==> Work(env, state.rows) + i <= old(Work(env, state.rows))
      {
        var cancelled := false;
        if !calm { cancelled := *; }
        if cancelled { return; }
        assert entries[i..] == [entries[i]] + entries[i + 1..];
        var answers: Answers := *;
        if calm { answers := answers.(settled := Done); }
        ghost var before := run;
        ghost var at;
        var confirmed;
        confirmed, at := ProcessClaimed(me, entries[i], entries[i + 1..], answers);
        MineThen(old(run), before, run, me);
        ghost var next := went + [Processing(answers, confirmed)];
        assert next[..i] == went;
        i, went := i + 1, next;
      }
    }

    /** At some point since the given one another replica held the lock. */
    ghost predicate Contended(from_: nat, me: Replica)
      reads this
    {
      exists k :: from_ <= k <= |run| && HeldElsewhere(env, run[..k], me)
    }

    /**
     One exclusive recover-claim-replay pass. It is skipped only because another
     replica holds the lock; otherwise it lowers the work or finds none, however the
     others act meanwhile.
     */
    method ProcessOnce(me: Replica) returns (acquired: bool)
      requires Consistent() && PhaseOf(state, me) == Idle
      modifies this
      ensures Consistent() && old(run) <= run
      ensures PhaseOf(state, me) == Idle
      ensures !acquired ==> Contended(|old(run)|, me)
      ensures calm ==> Work(env, state.rows) <= old(Work(env, state.rows))
      ensures calm && acquired ==> state.owner == None
      ensures calm && acquired && env.batchSize > 0 ==>
                Work(env, state.rows) < old(Work(env, state.rows)) || Work(env, state.rows) == 0
    {
      Yield(me);
      OwnerBusyAlways(env, run);
      acquired := TryLock(me);
      if !acquired {
        assert run[..|run|] == run && HeldElsewhere(env, run[..|run|], me);
        return;
      }
      Exclusive(me);
    }

    /** What a replica does while it holds the lock. */
    method Exclusive(me: Replica)
      requires Consistent() && PhaseOf(state, me) == Locked
      modifies this
      ensures Consistent() && old(run) <= run
      ensures PhaseOf(state, me) == Idle
      ensures calm ==> state.owner == None && Work(env, state.rows) <= old(Work(env, state.rows))
      ensures calm && env.batchSize > 0 ==>
                Work(env, state.rows) < old(Work(env, state.rows)) || Work(env, state.rows) == 0
    {
      Yield(me);
      var recovered := RecoverStuckReplays(me);
      if !recovered { return; }
      Yield(me);
      var claimed, entries := ClaimApproved(me);
      if !claimed { return; }
      ghost var _ := DrainOnce(me, entries);
      Unlock(me);
    }

    /**
     The polling loop, for as many ticks as it is left running. A tick without a pass
     means another replica held the lock. In a calm world, once this replica has passed
     as often as there was work, every entry that was approved or replaying is replayed
     or parked for the reviewers (who may since have denied a parked one), whatever the
     other replicas did.
     */
    method Run(me: Replica, ticks: nat) returns (passes: nat)
      requires Consistent() && PhaseOf(state, me) == Idle
      modifies this
      ensures Consistent() && old(run) <= run
      ensures PhaseOf(state, me) == Idle && passes <= ticks
      ensures passes < ticks ==> Contended(|old(run)|, me)
      ensures calm && env.batchSize > 0 && passes >= old(Work(env, state.rows)) ==>
                && (forall id :: id in state.rows ==> !Live(state.rows[id]))
                && (forall id :: id in old(state.rows) && Live(old(state.rows)[id]) ==>
                      && id in state.rows
                      && (state.rows[id].status == Replayed || state.rows[id].status == ReplayFailed || state.rows[id].status == Denied))
    {
      passes := 0;
      for tick := 0 to ticks
        invariant Consistent() && old(run) <= run
        invariant PhaseOf(state, me) == Idle && passes <= tick
        invariant passes < tick ==> Contended(|old(run)|, me)
        invariant calm && env.batchSize > 0 ==>
                    Work(env, state.rows) + passes <= old(Work(env, state.rows)) || Work(env, state.rows) == 0
      {
        ghost var before := run;
        var acquired := ProcessOnce(me);
        ContendedStays(before, |old(run)|, me);
        if acquired { passes := passes + 1; }
      }
      NoWorkNoLiveRow(env, state.rows);
      DecidedByNow(old(state), old(run));
    }

    /** Contention in an earlier part of the run, or in the latest one, is contention in the whole. */
    lemma ContendedStays(before: seq<Action>, from_: nat, me: Replica)
      requires from_ <= |before| && before <= run
      ensures (exists k :: from_ <= k <= |before| && HeldElsewhere(env, before[..k], me)) ==> Contended(from_, me)
      ensures Contended(|before|, me) ==> Contended(from_, me)
    {
      if k :| from_ <= k <= |before| && HeldElsewhere(env, before[..k], me) {
        assert run[..k] == before[..k];
      }
    }

    lemma DecidedByNow(s: State, past: seq<Action>)
      requires Consistent() && past <= run && After(env, past) == Some(s)
      ensures forall id :: id in s.rows && Live(s.rows[id]) ==> id in state.rows && state.rows[id].status != Pending
    {
      forall id | id in s.rows && Live(s.rows[id])
        ensures id in state.rows && state.rows[id].status != Pending
      {
        assert run[..|past|] == past;
        DecidedStays(env, run, |past|, id);
      }
    }

    // ----- the proxy and the reviewer handler -----

    /** While one handler call is between two statements, everyone else may act. */
    method InterfereWith(me: Handler)
      requires Consistent()
      modifies this
      ensures Consistent() && old(run) <= run && NotBy(run, |old(run)|, me)
    {
    }

    method YieldFrom(me: Handler)
      requires Consistent()
      modifies this
      ensures Consistent() && old(run) <= run && NotBy(run, |old(run)|, me)
      ensures Local(state, me) == old(Local(state, me))
    {
      InterfereWith(me);
      assert run[..|old(run)|] == old(run);
      OthersLeaveHandler(env, run, |old(run)|, me);
    }

    method DoProxy(n: nat, a: ProxyAct)
      requires Consistent() && ProxyNext(env, state, n, a).Some?
      modifies this
      ensures Consistent() && run == old(run) + [Proxy(n, a)]
      ensures Some(state) == ProxyNext(env, old(state), n, a)
    {
      state := ProxyNext(env, state, n, a).value;
      Log(Proxy(n, a));
    }

    ghost predicate NeverForwards(n: nat, from_: nat)
      reads this
    {
      forall k :: from_ <= k < |run| ==> run[k] != Proxy(n, Forward)
    }

    /** Store a held request; if that fails, note it in the ledger. */
    method HoldRequest(n: nat, q: Request) returns (outcome: Served)
      requires Consistent() && q.decision == Hold
      requires n in state.requests && state.requests[n].Audited? && state.requests[n].request == q
      modifies this
      ensures Consistent() && old(run) <= run && n !in state.requests
      ensures NeverForwards(n, |old(run)|)
      ensures outcome.StoreFailed? || outcome.Quarantined?
      ensures outcome.Quarantined? ==> Resolvable(state.rows, outcome.id) && state.rows[outcome.id].payload == q.payload
      ensures outcome.StoreFailed? ==> old(run) < run && run[|run| - 1].Proxy? && run[|run| - 1].n == n && run[|run| - 1].step.StoreNote?
    {
      var id := FreshId(state.rows);
      var created: nat, fault: Fault := *, *;
      DoProxy(n, ProxyAct.Store(id, created, fault));
      if fault == Done { return Quarantined(id); }
      YieldFrom(ForRequest(n));
      assert Local(state, ForRequest(n)) == OfRequest(Some(HoldFailed(q)));
      fault := *;
      DoProxy(n, StoreNote(fault));
      return StoreFailed;
    }

    /** The proxy after policy evaluation: audit first, and act only if that succeeded. */
    method ServeHTTP(n: nat, q: Request) returns (outcome: Served)
      requires Consistent() && n !in state.requests
      modifies this
      ensures Consistent() && old(run) < run && n !in state.requests
      ensures run[|old(run)|].Proxy? && run[|old(run)|].step.Log? && run[|old(run)|].step.request == q
      ensures outcome.AuditUnavailable? <==> run[|old(run)|].step.fault != Done
      ensures outcome.AuditUnavailable? ==> |run| == |old(run)| + 1 && state.rows == old(state).rows
      ensures !outcome.AuditUnavailable? ==>
                match q.decision
                case Allow => outcome.Forwarded?
                case Deny => outcome.DeniedByPolicy?
                case Hold => outcome.Quarantined? || outcome.StoreFailed?
      ensures outcome.Forwarded? ==> q.decision == Allow && run[|run| - 1] == Proxy(n, Forward)
      ensures !outcome.Forwarded? ==> NeverForwards(n, |old(run)|)
      ensures outcome.Quarantined? ==>
                q.decision == Hold && Resolvable(state.rows, outcome.id) && state.rows[outcome.id].payload == q.payload
    {
      var fault: Fault := *;
      DoProxy(n, ProxyAct.Log(q, fault));
      if fault != Done { return AuditUnavailable; }
      YieldFrom(ForRequest(n));
      assert Local(state, ForRequest(n)).request.value.request == q;
      match q.decision {
        case Allow =>
          DoProxy(n, Forward);
          return Forwarded;
        case Deny =>
          DoProxy(n, Drop);
          return DeniedByPolicy;
        case Hold =>
          outcome := HoldRequest(n, q);
      }
    }

    method DoReview(n: nat, a: ReviewAct)
      requires Consistent() && ReviewNext(env, state, n, a).Some?
      modifies this
      ensures Consistent() && run == old(run) + [Reviewer(n, a)]
      ensures Some(state) == ReviewNext(env, old(state), n, a)
    {
      state := ReviewNext(env, state, n, a).value;
      Log(Reviewer(n, a));
    }

    /** The row as the handler reads it, before others act on it. */
    method FetchEntry(n: nat, id: Id, who: string, approve: bool)
      requires Consistent() && n !in state.reviews && id in state.rows
      modifies this
      ensures Consistent() && old(run) < run && run[|old(run)|] == Reviewer(n, Fetch(id, who, approve))
      ensures n in state.reviews && state.reviews[n] == Fetched(id, who, approve, old(state).rows[id])
    {
      DoReview(n, Fetch(id, who, approve));
      YieldFrom(ForReview(n));
      assert Local(state, ForReview(n)).review == Some(Fetched(id, who, approve, old(state).rows[id]));
    }

    /** The guarded update of a verdict. */
    method CommitVerdict(n: nat, id: Id, ghost who: string, ghost approve: bool, ghost from_: nat) returns (fault: Fault, open: bool)
      requires Consistent() && n in state.reviews && state.reviews[n].Fetched? && state.reviews[n].id == id && from_ <= |run|
      requires state.reviews[n].who == who && state.reviews[n].approve == approve
      modifies this
      ensures Consistent() && run == old(run) + [Reviewer(n, Commit(fault))]
      ensures if fault == Done && open then n in state.reviews && state.reviews[n].Resolved? else n !in state.reviews
      ensures fault == Done ==> if open then Decided(n, id, who, approve, from_) else Conflicted(n, id, from_)
    {
      fault := *;
      open := Resolvable(state.rows, id);
      DoReview(n, Commit(fault));
      ghost var k := |old(run)|;
      assert run[..k] == old(run) && run[..k + 1] == run;
      if fault == Done {
        assert CommittedAt(env, run, k, n, id, open);
        if open { assert MadeAt(env, run, k, n, id, who, approve); }
      }
    }

    /** The ledger entry about a verdict that was made. */
    method RecordVerdict(n: nat, ghost id: Id, ghost who: string, ghost approve: bool, ghost from_: nat) returns (fault: Fault)
      requires Consistent() && n in state.reviews && state.reviews[n].Resolved? && Decided(n, id, who, approve, from_)
      modifies this
      ensures Consistent() && old(run) < run && n !in state.reviews && Decided(n, id, who, approve, from_)
      ensures run[|run| - 1] == Reviewer(n, Record(fault))
    {
      YieldFrom(ForReview(n));
      assert Local(state, ForReview(n)).review.Some?;
      fault := *;
      DoReview(n, Record(fault));
      ghost var k :| from_ <= k < |old(run)| && MadeAt(env, old(run), k, n, id, who, approve);
      MadeStays(env, old(run), run, k, n, id, who, approve);
    }

    /** A reviewer's approval or denial: fetch, which may fail, then the guarded update, then the ledger entry. */
    method Resolve(n: nat, id: Id, who: string, approve: bool, readable: bool) returns (err: Verdicts)
      requires Consistent() && n !in state.reviews
      modifies this
      ensures Consistent() && old(run) <= run && n !in state.reviews
      ensures err.Success? || err.DecidedUnaudited? ==> Decided(n, id, who, approve, |old(run)|)
      ensures err.AlreadyResolved? ==> Conflicted(n, id, |old(run)|)
      ensures !readable ==> err.StoreError?
      ensures err.NotFound? <==> readable && id !in old(state.rows)
      ensures if err.NotFound? || !readable then run == old(run)
              else old(run) < run && run[|old(run)|] == Reviewer(n, Fetch(id, who, approve))
      ensures err.Success? ==> run[|run| - 1] == Reviewer(n, Record(Done))
      ensures err.DecidedUnaudited? ==> exists fault :: fault != Done && run[|run| - 1] == Reviewer(n, Record(fault))
    {
      if !readable { return StoreError; }
      if id !in state.rows { return NotFound; }
      FetchEntry(n, id, who, approve);
      err := ResolveFetched(n, id, who, approve, |old(run)|);
    }

    /** From the update on. */
    method ResolveFetched(n: nat, id: Id, ghost who: string, ghost approve: bool, ghost from_: nat) returns (err: Verdicts)
      requires Consistent() && n in state.reviews && state.reviews[n].Fetched? && state.reviews[n].id == id && from_ <= |run|
      requires state.reviews[n].who == who && state.reviews[n].approve == approve
      modifies this
      ensures Consistent() && old(run) < run && n !in state.reviews && !err.NotFound?
      ensures err.Success? || err.DecidedUnaudited? ==> Decided(n, id, who, approve, from_)
      ensures err.AlreadyResolved? ==> Conflicted(n, id, from_)
      ensures err.Success? ==> run[|run| - 1] == Reviewer(n, Record(Done))
      ensures err.DecidedUnaudited? ==> exists fault :: fault != Done && run[|run| - 1] == Reviewer(n, Record(fault))
    {
      var fault, open := CommitVerdict(n, id, who, approve, from_);
      if fault != Done { return StoreError; }
      if !open { return AlreadyResolved; }
      fault := RecordVerdict(n, id, who, approve, from_);
      return if fault == Done then Success else DecidedUnaudited;
    }

    /** This call's own update was applied to a row that was pending or parked, and made this verdict. */
    ghost predicate Decided(n: nat, id: Id, who: string, approve: bool, from_: nat)
      reads this
    {
      exists k :: from_ <= k < |run| && MadeAt(env, run, k, n, id, who, approve)
    }

    /** This call's own update found the row already decided. */
    ghost predicate Conflicted(n: nat, id: Id, from_: nat)
      reads this
    {
      exists k :: from_ <= k < |run| && CommittedAt(env, run, k, n, id, false)
    }
  }
}
