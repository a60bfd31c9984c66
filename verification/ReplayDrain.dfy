/**
 Drain termination: with no new approvals and no failing table update, every
 pass that claims anything makes progress, whatever the upstream, the policy and
 the ledger answer and however the batch limit cuts the work.
 */
module ReplayDrain {
  import opened Quarantine
  import opened Replay
  import opened ReplaySteps
  import opened ReplayOwnership

  /** What a row still costs: one parking, and one pass per attempt left. */
  function Weight(env: Env, row: Row): nat {
    if !Live(row) then 0
    else 1 + if row.attempts <= env.maxAttempts then env.maxAttempts + 1 - row.attempts else 0
  }

  ghost function Sum(env: Env, t: Table, ids: set<Id>): nat
    requires ids <= t.Keys
  {
    if ids == {} then 0
    else
      var id :| id in ids;
      Weight(env, t[id]) + Sum(env, t, ids - {id})
  }

  /** The work left in the table. */
  ghost function Work(env: Env, t: Table): nat {
    Sum(env, t, t.Keys)
  }

  lemma {:induction false} SumAt(env: Env, t: Table, ids: set<Id>, k: Id)
    requires ids <= t.Keys && k in ids
    ensures Sum(env, t, ids) == Weight(env, t[k]) + Sum(env, t, ids - {k})
    decreases ids
  {
    var id :| id in ids && Sum(env, t, ids) == Weight(env, t[id]) + Sum(env, t, ids - {id});
    if id == k {
    } else {
      SumAt(env, t, ids - {id}, k);
      SumAt(env, t, ids - {k}, id);
      assert ids - {id} - {k} == ids - {k} - {id};
    }
  }

  lemma {:induction false} SumMonotone(env: Env, t: Table, t': Table, ids: set<Id>)
    requires ids <= t.Keys && ids <= t'.Keys
    requires forall id :: id in ids ==> Weight(env, t'[id]) <= Weight(env, t[id])
    ensures Sum(env, t', ids) <= Sum(env, t, ids)
    decreases ids
  {
    if ids == {} {
    } else {
      var id :| id in ids;
      SumAt(env, t, ids, id);
      SumAt(env, t', ids, id);
      SumMonotone(env, t, t', ids - {id});
    }
  }

  lemma WorkUpdated(env: Env, t: Table, id: Id, row: Row)
    ensures Work(env, t[id := row]) + (if id in t then Weight(env, t[id]) else 0) == Work(env, t) + Weight(env, row)
  {
    var t' := t[id := row];
    SumAt(env, t', t'.Keys, id);
    assert t'.Keys - {id} == t.Keys - {id};
    SumMonotone(env, t, t', t.Keys - {id});
    SumMonotone(env, t', t, t.Keys - {id});
    if id in t {
      SumAt(env, t, t.Keys, id);
    } else {
      assert t.Keys - {id} == t.Keys;
    }
  }

  /** Nothing is left to do exactly when no row is approved or replaying. */
  lemma NoWorkNoLiveRow(env: Env, t: Table)
    ensures Work(env, t) == 0 <==> forall id :: id in t ==> !Live(t[id])
  {
    if Work(env, t) == 0 {
      forall id | id in t
        ensures !Live(t[id])
      {
        SumAt(env, t, t.Keys, id);
      }
    } else if forall id :: id in t ==> !Live(t[id]) {
      SumZero(env, t, t.Keys);
    }
  }

  lemma {:induction false} SumZero(env: Env, t: Table, ids: set<Id>)
    requires ids <= t.Keys && forall id :: id in ids ==> !Live(t[id])
    ensures Sum(env, t, ids) == 0
    decreases ids
  {
    if ids == {} {
    } else {
      var id :| id in ids;
      SumAt(env, t, ids, id);
      SumZero(env, t, ids - {id});
    }
  }

  /** No approval is committed and no settle fails. Ledger, policy and upstream may do as they like. */
  ghost predicate Calm(env: Env, s: State, a: Action)
    requires Next(env, s, a).Some?
  {
    && !(DeltaOf(env, s, a).Verdict? && DeltaOf(env, s, a).approve)
    && (a.Entry? && a.work.Settle? ==> a.work.fault == Done)
  }

  /** Only an approval adds work; settling an entry removes some. */
  lemma ChangeWork(env: Env, s: State, t: State, d: Delta)
    requires Changes(s, t, d)
    requires !(d.Verdict? && d.approve)
    requires d.Moved? && d.op == Release ==> s.rows[d.id].attempts <= env.maxAttempts
    ensures Work(env, t.rows) + (if d.Moved? then 1 else 0) <= Work(env, s.rows)
  {
    match d {
      case Created(id, row) => WorkUpdated(env, s.rows, id, row);
      case Verdict(id, _, _) => WorkUpdated(env, s.rows, id, t.rows[id]);
      case Moved(id, op) => WorkUpdated(env, s.rows, id, t.rows[id]);
      case Swept =>
        assert t.rows.Keys == s.rows.Keys;
        SumMonotone(env, s.rows, t.rows, s.rows.Keys);
      case Taken(ids) =>
        assert t.rows.Keys == s.rows.Keys;
        SumMonotone(env, s.rows, t.rows, s.rows.Keys);
      case _ =>
    }
  }

  lemma ReleasedWithinLimit(env: Env, s: State, a: Action)
    requires Ownership(env, s) && Next(env, s, a).Some?
    requires DeltaOf(env, s, a).Moved? && DeltaOf(env, s, a).op == Release
    ensures s.rows[DeltaOf(env, s, a).id].attempts <= env.maxAttempts
  {
    var p := PhaseOf(s, a.r);
    OwnPhase(env, s, a.r);
    Tail(s.rows, p.cur, p.rest);
  }

  lemma CalmWork(env: Env, s: State, a: Action)
    requires Ownership(env, s)
    requires Next(env, s, a).Some? && Calm(env, s, a)
    ensures Work(env, Next(env, s, a).value.rows) + (if DeltaOf(env, s, a).Moved? then 1 else 0) <= Work(env, s.rows)
  {
    var d := DeltaOf(env, s, a);
    StepChanges(env, s, a);
    if d.Moved? && d.op == Release { ReleasedWithinLimit(env, s, a); }
    ChangeWork(env, s, Next(env, s, a).value, d);
  }

  /** A settle takes exactly one entry off the pass's batch; other entry steps take none. */
  lemma EntryProgress(env: Env, s: State, p: Phase, a: EntryAct)
    requires WithinLimit(env, p) && AllHeld(s.rows, Unprocessed(p))
    requires EntryStep(env, s, p, a).Some?
    requires a.Settle? ==> a.fault == Done
    ensures var p' := EntryStep(env, s, p, a).value.1;
            |Unprocessed(p)| == |Unprocessed(p')| + if EntryDelta(env, s, p, a).Moved? then 1 else 0
  {
    if a.Settle? { Tail(s.rows, p.cur, p.rest); }
  }

  /** Work on the table that the pass of `r` has not itself claimed. */
  ghost function Debt(env: Env, s: State, r: Replica): int {
    Work(env, s.rows) - |Unprocessed(PhaseOf(s, r))|
  }

  /** Whoever acts, the pass of `r` shrinks only when the table loses as much work. */
  lemma CalmProgress(env: Env, s: State, a: Action, r: Replica)
    requires Ownership(env, s)
    requires Next(env, s, a).Some? && Calm(env, s, a)
    requires !(a.Pass? && a.r == r)
    ensures Debt(env, Next(env, s, a).value, r) <= Debt(env, s, r)
  {
    CalmWork(env, s, a);
    match a {
      case Pass(o, pass) => PassLeavesOthers(env, s, o, pass, r);
      case Entry(o, work) =>
        if o == r {
          OwnPhase(env, s, r);
          EntryProgress(env, s, PhaseOf(s, r), work);
        } else {
          EntryLeavesOthers(env, s, o, work, r);
        }
      case Proxy(n, step) => ProxySpares(env, s, n, step);
      case Reviewer(n, act) => ReviewerSpares(env, s, n, act);
      case Upstream(_) =>
    }
  }

  ghost predicate CalmAt(env: Env, run: seq<Action>, k: nat)
    requires k < |run|
  {
    && After(env, run[..k]).Some?
    && Next(env, After(env, run[..k]).value, run[k]).Some?
    && Calm(env, After(env, run[..k]).value, run[k])
  }

  /** The actions i to j of a run are calm, and `r` neither takes nor leaves a pass among them. */
  ghost predicate CalmStretch(env: Env, run: seq<Action>, i: nat, j: nat, r: Replica) {
    && i <= j <= |run|
    && forall k :: i <= k < j ==> CalmFor(env, run, k, r)
  }

  ghost predicate CalmFor(env: Env, run: seq<Action>, k: nat, r: Replica)
    requires k < |run|
  {
    CalmAt(env, run, k) && !(run[k].Pass? && run[k].r == r)
  }

  /** The slack of a replica at a point of a run: work left, less what it has in hand. */
  ghost function SlackAt(env: Env, run: seq<Action>, k: nat, r: Replica): int
    requires k <= |run| && After(env, run[..k]).Some?
  {
    Debt(env, After(env, run[..k]).value, r)
  }

  lemma StretchStep(env: Env, run: seq<Action>, k: nat, r: Replica)
    requires k < |run| && CalmFor(env, run, k, r)
    ensures After(env, run[..k + 1]).Some?
    ensures SlackAt(env, run, k + 1, r) <= SlackAt(env, run, k, r)
  {
    assert run[..k + 1][..k] == run[..k];
    OwnershipAlways(env, run[..k]);
    CalmProgress(env, After(env, run[..k]).value, run[k], r);
  }

  lemma {:induction false} Descends(f: nat -> int, i: nat, j: nat)
    requires i <= j && forall k :: i <= k < j ==> f(k + 1) <= f(k)
    ensures f(j) <= f(i)
    decreases j
  {
    if i >= j {
    } else {
      Descends(f, i, j - 1);
      assert f(j - 1 + 1) <= f(j - 1);
    }
  }

  /** The slack along a run, as a function of the position alone. */
  ghost function Slacks(env: Env, run: seq<Action>, r: Replica): nat -> int {
    (k: nat) => if k <= |run| && After(env, run[..k]).Some? then SlackAt(env, run, k, r) else 0
  }

  lemma SlackFalls(env: Env, run: seq<Action>, k: nat, r: Replica)
    requires k < |run| && CalmFor(env, run, k, r)
    ensures Slacks(env, run, r)(k + 1) <= Slacks(env, run, r)(k)
  {
    StretchStep(env, run, k, r);
  }

  lemma SlacksFall(env: Env, run: seq<Action>, i: nat, j: nat, r: Replica)
    requires CalmStretch(env, run, i, j, r)
    ensures Slacks(env, run, r)(j) <= Slacks(env, run, r)(i)
  {
    forall k | i <= k < j
      ensures Slacks(env, run, r)(k + 1) <= Slacks(env, run, r)(k)
    {
      SlackFalls(env, run, k, r);
    }
    Descends(Slacks(env, run, r), i, j);
  }

  lemma StretchProgress(env: Env, run: seq<Action>, i: nat, j: nat, r: Replica)
    requires After(env, run).Some? && CalmStretch(env, run, i, j, r)
    ensures After(env, run[..i]).Some? && After(env, run[..j]).Some?
    ensures SlackAt(env, run, j, r) <= SlackAt(env, run, i, r)
  {
    PrefixIsRun(env, run, i);
    PrefixIsRun(env, run, j);
    SlacksFall(env, run, i, j, r);
  }

  /**
   Drain progress: from the claim of a batch to the point where it is worked
   off, the work left falls by at least the size of the batch.
   */
  lemma PassDrains(env: Env, run: seq<Action>, i: nat, j: nat, r: Replica)
    requires After(env, run).Some? && CalmStretch(env, run, i, j, r)
    requires After(env, run[..i]).Some? && After(env, run[..j]).Some?
    requires PhaseOf(After(env, run[..i]).value, r).Draining?
    requires PhaseOf(After(env, run[..j]).value, r) == Draining([])
    ensures Work(env, After(env, run[..j]).value.rows) + |PhaseOf(After(env, run[..i]).value, r).batch|
            <= Work(env, After(env, run[..i]).value.rows)
  {
    StretchProgress(env, run, i, j, r);
  }

  /** How many claimed entries were settled by the actions i to j, by whichever replica. */
  ghost function Settles(env: Env, run: seq<Action>, i: nat, j: nat): nat
    requires i <= j <= |run| && After(env, run).Some?
    decreases j
  {
    if i == j then 0
    else
      PrefixIsRun(env, run, j - 1);
      PrefixIsRun(env, run, j);
      assert run[..j][..j - 1] == run[..j - 1];
      Settles(env, run, i, j - 1) +
      if DeltaOf(env, After(env, run[..j - 1]).value, run[j - 1]).Moved? then 1 else 0
  }

  ghost function WorkAt(env: Env, run: seq<Action>, k: nat): nat
    requires k <= |run| && After(env, run[..k]).Some?
  {
    Work(env, After(env, run[..k]).value.rows)
  }

  lemma SettleStep(env: Env, run: seq<Action>, i: nat, k: nat)
    requires i <= k < |run| && After(env, run).Some? && CalmAt(env, run, k)
    ensures After(env, run[..k + 1]).Some?
    ensures Settles(env, run, i, k + 1) + WorkAt(env, run, k + 1) <= Settles(env, run, i, k) + WorkAt(env, run, k)
  {
    assert run[..k + 1][..k] == run[..k];
    OwnershipAlways(env, run[..k]);
    CalmWork(env, After(env, run[..k]).value, run[k]);
  }

  /**
   Drain termination over any number of replicas, passes, crashes and
   cancellations: without new approvals, the work present at one point bounds
   every later settle, and what they leave is the work still present.
   */
  lemma SettlesAreBounded(env: Env, run: seq<Action>, i: nat, j: nat)
    requires After(env, run).Some? && i <= j <= |run|
    requires forall k :: i <= k < j ==> CalmAt(env, run, k)
    ensures After(env, run[..i]).Some? && After(env, run[..j]).Some?
    ensures Settles(env, run, i, j) + WorkAt(env, run, j) <= WorkAt(env, run, i)
  {
    PrefixIsRun(env, run, i);
    PrefixIsRun(env, run, j);
    ghost var left := (k: nat) =>
        if i <= k <= |run| && After(env, run[..k]).Some? then Settles(env, run, i, k) + WorkAt(env, run, k) else 0;
    forall k | i <= k < j
      ensures left(k + 1) <= left(k)
    {
      assert CalmAt(env, run, k);
      SettleStep(env, run, i, k);
    }
    Descends(left, i, j);
  }

  /** After recovery the lock holder is the only one who may claim: no row is left 'replaying'. */
  ghost predicate RecoveredClean(s: State) {
    forall r: Replica, id :: PhaseOf(s, r) == Cleared && id in s.rows ==> s.rows[id].status != Replaying
  }

  lemma OnlyClaimsMakeReplaying(s: State, t: State, d: Delta, id: Id)
    requires Changes(s, t, d) && !d.Taken? && Claimed(t.rows, id)
    ensures !d.Swept? && Claimed(s.rows, id)
  {
  }

  /** A pass reaches `Cleared` by a recovery, and while it is there no one can claim. */
  lemma ClearedBy(env: Env, s: State, a: Action, r: Replica)
    requires Ownership(env, s) && Next(env, s, a).Some?
    requires PhaseOf(Next(env, s, a).value, r) == Cleared
    ensures DeltaOf(env, s, a).Swept? || (PhaseOf(s, r) == Cleared && !DeltaOf(env, s, a).Taken?)
  {
    OwnPhase(env, s, r);
    match a {
      case Pass(o, pass) =>
        OwnPhase(env, s, o);
        if r != o { PassLeavesOthers(env, s, o, pass, r); }
      case Entry(o, work) =>
        if r != o { EntryLeavesOthers(env, s, o, work, r); }
      case Proxy(n, step) => ProxySpares(env, s, n, step);
      case Reviewer(n, act) => ReviewerSpares(env, s, n, act);
      case Upstream(_) =>
    }
  }

  lemma StepRecoveredClean(env: Env, s: State, a: Action)
    requires Ownership(env, s) && RecoveredClean(s)
    requires Next(env, s, a).Some?
    ensures RecoveredClean(Next(env, s, a).value)
  {
    var t := Next(env, s, a).value;
    StepChanges(env, s, a);
    forall r: Replica, id | PhaseOf(t, r) == Cleared && id in t.rows
      ensures t.rows[id].status != Replaying
    {
      ClearedBy(env, s, a, r);
      if Claimed(t.rows, id) { OnlyClaimsMakeReplaying(s, t, DeltaOf(env, s, a), id); }
    }
  }

  lemma {:induction false} RecoveredCleanAlways(env: Env, run: seq<Action>)
    requires After(env, run).Some?
    ensures RecoveredClean(After(env, run).value)
  {
    if run == [] {
    } else {
      var past := run[..|run| - 1];
      RecoveredCleanAlways(env, past);
      OwnershipAlways(env, past);
      StepRecoveredClean(env, After(env, past).value, run[|run| - 1]);
    }
  }

  /** A claim comes back empty only when no entry is left to drain. */
  lemma EmptyClaimMeansDrained(env: Env, run: seq<Action>, r: Replica)
    requires After(env, run).Some? && env.batchSize > 0
    requires var s := After(env, run).value;
             PhaseOf(s, r) == Cleared && Claimable(s.rows, [], env.batchSize)
    ensures Work(env, After(env, run).value.rows) == 0
  {
    RecoveredCleanAlways(env, run);
    var s := After(env, run).value;
    var none: seq<Id> := [];
    forall id | id in s.rows
      ensures !Live(s.rows[id])
    {
      assert s.rows[id].status == Approved ==> id in none;
    }
    NoWorkNoLiveRow(env, s.rows);
  }

  /** Once an entry has been decided it never vanishes and never becomes undecided. */
  lemma {:induction false} DecidedStays(env: Env, run: seq<Action>, i: nat, id: Id)
    requires After(env, run).Some? && i <= |run| && After(env, run[..i]).Some?
    requires var s := After(env, run[..i]).value;
             id in s.rows && s.rows[id].status != Pending
    ensures var t := After(env, run).value;
            id in t.rows && t.rows[id].status != Pending
    decreases |run|
  {
    if i == |run| {
      assert run[..i] == run;
    } else {
      var past := run[..|run| - 1];
      assert past[..i] == run[..i];
      DecidedStays(env, past, i, id);
      StepChanges(env, After(env, past).value, run[|run| - 1]);
    }
  }

  // ----- successive passes, by whichever replicas -----

  /** A pass of `r` whose claim was acknowledged at one point and whose batch is worked off at another. */
  datatype Round = Round(r: Replica, claimed: nat, done: nat)

  ghost predicate WorkedOff(env: Env, run: seq<Action>, round: Round) {
    var r, claim := round.r, round.claimed;
    && claim < round.done <= |run|
    && run[claim].Pass? && run[claim].r == r && run[claim].pass.Claim? && run[claim].pass.fault == Done
    && (forall k :: claim < k < round.done ==> !(run[k].Pass? && run[k].r == r))
    && After(env, run[..round.done]).Some?
    && PhaseOf(After(env, run[..round.done]).value, r) == Draining([])
  }

  ghost predicate CalmFrom(env: Env, run: seq<Action>, i: nat) {
    forall k :: i <= k < |run| ==> CalmAt(env, run, k)
  }

  /** Between two points of a calm run the work does not grow. */
  lemma WorkFalls(env: Env, run: seq<Action>, i: nat, j: nat)
    requires After(env, run).Some? && CalmFrom(env, run, i) && i <= j <= |run|
    ensures After(env, run[..i]).Some? && After(env, run[..j]).Some?
    ensures WorkAt(env, run, j) <= WorkAt(env, run, i)
  {
    SettlesAreBounded(env, run, i, j);
  }

  /** What an acknowledged claim leaves the claimer with. */
  lemma ClaimBegins(env: Env, run: seq<Action>, k: nat)
    requires After(env, run).Some? && k < |run|
    requires run[k].Pass? && run[k].pass.Claim? && run[k].pass.fault == Done
    ensures After(env, run[..k]).Some? && After(env, run[..k + 1]).Some?
    ensures PhaseOf(After(env, run[..k]).value, run[k].r) == Cleared
    ensures Claimable(After(env, run[..k]).value.rows, run[k].pass.ids, env.batchSize)
    ensures PhaseOf(After(env, run[..k + 1]).value, run[k].r).Draining?
    ensures |PhaseOf(After(env, run[..k + 1]).value, run[k].r).batch| == |run[k].pass.ids|
  {
    PrefixIsRun(env, run, k);
    PrefixIsRun(env, run, k + 1);
    assert run[..k + 1][..k] == run[..k];
  }

  lemma StretchOf(env: Env, run: seq<Action>, round: Round)
    requires CalmFrom(env, run, round.claimed) && WorkedOff(env, run, round)
    ensures CalmStretch(env, run, round.claimed + 1, round.done, round.r)
  {
    forall k | round.claimed + 1 <= k < round.done
      ensures CalmFor(env, run, k, round.r)
    {
      assert CalmAt(env, run, k);
    }
  }

  /** A worked-off pass lowers the work, or found none to claim. */
  lemma RoundLowers(env: Env, run: seq<Action>, round: Round)
    requires After(env, run).Some? && env.batchSize > 0
    requires CalmFrom(env, run, round.claimed) && WorkedOff(env, run, round)
    ensures After(env, run[..round.claimed]).Some?
    ensures WorkAt(env, run, round.done) < WorkAt(env, run, round.claimed) || WorkAt(env, run, round.done) == 0
  {
    var c := round.claimed;
    ClaimBegins(env, run, c);
    if run[c].pass.ids == [] {
      EmptyClaimMeansDrained(env, run[..c], round.r);
      WorkFalls(env, run, c, round.done);
    } else {
      StretchOf(env, run, round);
      PassDrains(env, run, c + 1, round.done, round.r);
      WorkFalls(env, run, c, c + 1);
    }
  }

  /** Rounds one after the other, the first not before i. */
  ghost predicate Successive(env: Env, run: seq<Action>, i: nat, rounds: seq<Round>) {
    forall k :: 0 <= k < |rounds| ==> Follows(env, run, i, rounds, k)
  }

  ghost predicate Follows(env: Env, run: seq<Action>, i: nat, rounds: seq<Round>, k: nat)
    requires k < |rounds|
  {
    WorkedOff(env, run, rounds[k]) && EndOf(i, rounds, k) <= rounds[k].claimed
  }

  /** Where the first n rounds end. */
  function EndOf(i: nat, rounds: seq<Round>, n: nat): nat
    requires n <= |rounds|
  {
    if n == 0 then i else rounds[n - 1].done
  }

  lemma {:induction false} EndBounds(env: Env, run: seq<Action>, i: nat, rounds: seq<Round>, n: nat)
    requires i <= |run| && n <= |rounds| && Successive(env, run, i, rounds)
    ensures i <= EndOf(i, rounds, n) <= |run|
    decreases n
  {
    if n == 0 {
    } else {
      EndBounds(env, run, i, rounds, n - 1);
      assert Follows(env, run, i, rounds, n - 1);
    }
  }

  /** The work left when the first n rounds have ended, as a function of n alone. */
  ghost function LeftAfter(env: Env, run: seq<Action>, i: nat, rounds: seq<Round>): nat -> nat {
    (n: nat) =>
      if n <= |rounds| && EndOf(i, rounds, n) <= |run| && After(env, run[..EndOf(i, rounds, n)]).Some?
      then WorkAt(env, run, EndOf(i, rounds, n)) else 0
  }

  lemma RoundCounts(env: Env, run: seq<Action>, i: nat, rounds: seq<Round>, n: nat)
    requires After(env, run).Some? && env.batchSize > 0 && i <= |run| && n < |rounds|
    requires CalmFrom(env, run, i) && Successive(env, run, i, rounds)
    ensures var left := LeftAfter(env, run, i, rounds);
            left(n + 1) < left(n) || left(n + 1) == 0
  {
    EndBounds(env, run, i, rounds, n);
    var start, round := EndOf(i, rounds, n), rounds[n];
    assert Follows(env, run, i, rounds, n);
    assert CalmFrom(env, run, start) && CalmFrom(env, run, round.claimed);
    WorkFalls(env, run, start, round.claimed);
    RoundLowers(env, run, round);
  }

  lemma {:induction false} Exhausts(f: nat -> nat, n: nat)
    requires forall k :: 0 <= k < n ==> f(k + 1) < f(k) || f(k + 1) == 0
    ensures f(n) + n <= f(0) || f(n) == 0
  {
    if n == 0 {
    } else {
      Exhausts(f, n - 1);
      assert f(n - 1 + 1) < f(n - 1) || f(n - 1 + 1) == 0;
    }
  }

  lemma RoundsExhaust(env: Env, run: seq<Action>, i: nat, rounds: seq<Round>)
    requires After(env, run).Some? && env.batchSize > 0 && i <= |run|
    requires CalmFrom(env, run, i) && Successive(env, run, i, rounds)
    requires |rounds| >= LeftAfter(env, run, i, rounds)(0)
    ensures LeftAfter(env, run, i, rounds)(|rounds|) == 0
  {
    var left := LeftAfter(env, run, i, rounds);
    forall k | 0 <= k < |rounds|
      ensures left(k + 1) < left(k) || left(k + 1) == 0
    {
      RoundCounts(env, run, i, rounds, k);
    }
    Exhausts(left, |rounds|);
  }

  /**
   Drain termination, with any number of replicas taking passes: from any point on
   without new approvals and without failing settles, once as many passes have been
   worked off as there was work, no entry is approved or replaying any more; every one
   that was is replayed or parked, or denied since.
   */
  lemma DrainTerminates(env: Env, run: seq<Action>, i: nat, rounds: seq<Round>)
    requires After(env, run).Some? && env.batchSize > 0 && i <= |run| && After(env, run[..i]).Some?
    requires CalmFrom(env, run, i) && Successive(env, run, i, rounds)
    requires |rounds| >= WorkAt(env, run, i)
    ensures var s, t := After(env, run[..i]).value.rows, After(env, run).value.rows;
            && (forall id :: id in t ==> !Live(t[id]))
            && (forall id :: id in s && Live(s[id]) ==>
                  id in t && (t[id].status == Replayed || t[id].status == ReplayFailed || t[id].status == Denied))
  {
    RoundsExhaust(env, run, i, rounds);
    EndBounds(env, run, i, rounds, |rounds|);
    var end := EndOf(i, rounds, |rounds|);
    assert CalmFrom(env, run, end);
    WorkFalls(env, run, end, |run|);
    assert run[..|run|] == run;
    var s, t := After(env, run[..i]).value.rows, After(env, run).value.rows;
    NoWorkNoLiveRow(env, t);
    forall id | id in s && Live(s[id])
      ensures id in t && t[id].status != Pending
    {
      DecidedStays(env, run, i, id);
    }
  }
}
