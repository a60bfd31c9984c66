/**
 Single ownership: the advisory lock and the status guards together keep every
 claimed entry with the one pass that claimed it, unchanged in the table.
 */
module ReplayOwnership {
  import opened Options
  import opened Quarantine
  import opened Replay

  /** The table still holds exactly the row the pass claimed. */
  predicate Held(t: Table, snap: Snap) {
    snap.id in t && t[snap.id] == snap.row && snap.row.status == Replaying
  }

  ghost predicate AllHeld(t: Table, batch: seq<Snap>) {
    && (forall i :: 0 <= i < |batch| ==> Held(t, batch[i]))
    && (forall i, j :: 0 <= i < j < |batch| ==> batch[i].id != batch[j].id)
  }

  /** An entry past the attempt limit is only ever parked, never sent or released. */
  predicate WithinLimit(env: Env, p: Phase) {
    match p
    case Permitted(cur, _) => cur.row.attempts <= env.maxAttempts
    case Starting(cur, _, _) => cur.row.attempts <= env.maxAttempts
    case Waiting(cur, _) => cur.row.attempts <= env.maxAttempts
    case Failing(cur, _, _) => cur.row.attempts <= env.maxAttempts
    case Settling(cur, _, op, _) => op == Release ==> cur.row.attempts <= env.maxAttempts
    case _ => true
  }

  ghost predicate Ownership(env: Env, s: State) {
    && (forall r: Replica :: PhaseOf(s, r) != Idle ==> s.owner == Some(r))
    && (forall r: Replica :: AllHeld(s.rows, Unprocessed(PhaseOf(s, r))))
    && (forall r: Replica :: WithinLimit(env, PhaseOf(s, r)))
  }

  lemma Entered(env: Env, s: State, t: State, r: Replica, p: Phase)
    requires Ownership(env, s)
    requires t.owner == Some(r) && t.phases == s.phases[r := p]
    requires s.owner == Some(r) || s.owner == None
    requires WithinLimit(env, p) && AllHeld(t.rows, Unprocessed(p))
    ensures Ownership(env, t)
  {
    forall o: Replica
      ensures PhaseOf(t, o) != Idle ==> t.owner == Some(o)
      ensures AllHeld(t.rows, Unprocessed(PhaseOf(t, o)))
      ensures WithinLimit(env, PhaseOf(t, o))
    {
      assert PhaseOf(s, o) != Idle ==> s.owner == Some(o);
      assert o != r ==> PhaseOf(t, o) == PhaseOf(s, o) == Idle;
    }
  }

  /** A pass that ends keeps nothing, whatever became of its rows. */
  lemma Left(env: Env, s: State, t: State, r: Replica)
    requires Ownership(env, s)
    requires PhaseOf(s, r) == Idle ==> t.rows == s.rows
    requires t.phases == s.phases[r := Idle]
    requires t.owner == if s.owner == Some(r) then None else s.owner
    ensures Ownership(env, t)
  {
    forall o: Replica
      ensures PhaseOf(t, o) != Idle ==> t.owner == Some(o)
      ensures AllHeld(t.rows, Unprocessed(PhaseOf(t, o)))
      ensures WithinLimit(env, PhaseOf(t, o))
    {
      assert PhaseOf(s, o) != Idle ==> s.owner == Some(o);
      assert PhaseOf(s, r) != Idle ==> s.owner == Some(r);
      assert AllHeld(s.rows, Unprocessed(PhaseOf(s, o)));
      assert WithinLimit(env, PhaseOf(s, o));
      assert PhaseOf(t, o) == if o == r then Idle else PhaseOf(s, o);
    }
  }

  /** Actors other than the workers never touch a claimed row. */
  lemma Bystander(env: Env, s: State, t: State)
    requires Ownership(env, s)
    requires SparesPasses(s, t)
    ensures Ownership(env, t)
  {
    forall r: Replica
      ensures PhaseOf(t, r) != Idle ==> t.owner == Some(r)
      ensures AllHeld(t.rows, Unprocessed(PhaseOf(t, r)))
      ensures WithinLimit(env, PhaseOf(t, r))
    {
      assert PhaseOf(t, r) == PhaseOf(s, r);
      assert PhaseOf(s, r) != Idle ==> s.owner == Some(r);
      assert AllHeld(s.rows, Unprocessed(PhaseOf(s, r)));
      assert WithinLimit(env, PhaseOf(s, r));
    }
  }

  /** A step that leaves every pass, and every row a pass may have claimed, as it was. */
  ghost predicate SparesPasses(s: State, t: State) {
    && t.owner == s.owner
    && t.phases == s.phases
    && forall id :: Claimed(s.rows, id) ==> id in t.rows && t.rows[id] == s.rows[id]
  }

  lemma ProxySpares(env: Env, s: State, n: nat, a: ProxyAct)
    requires ProxyNext(env, s, n, a).Some?
    ensures SparesPasses(s, ProxyNext(env, s, n, a).value)
  {
  }

  lemma ReviewerSpares(env: Env, s: State, n: nat, a: ReviewAct)
    requires ReviewNext(env, s, n, a).Some?
    ensures SparesPasses(s, ReviewNext(env, s, n, a).value)
  {
  }

  lemma Tail(t: Table, cur: Snap, rest: seq<Snap>)
    requires AllHeld(t, [cur] + rest)
    ensures Held(t, cur) && AllHeld(t, rest)
    ensures forall i :: 0 <= i < |rest| ==> rest[i].id != cur.id
  {
    var all := [cur] + rest;
    assert Held(t, all[0]);
    forall i | 0 <= i < |rest|
      ensures Held(t, rest[i]) && rest[i].id != cur.id
    {
      assert all[i + 1] == rest[i] && Held(t, all[i + 1]) && all[0].id != all[i + 1].id;
    }
    forall i, j | 0 <= i < j < |rest|
      ensures rest[i].id != rest[j].id
    {
      assert all[i + 1].id != all[j + 1].id;
    }
  }

  /** Settling the current entry leaves the rest of the batch held. */
  lemma SettledHeld(s: State, cur: Snap, rest: seq<Snap>, op: Op, fault: Fault)
    requires AllHeld(s.rows, [cur] + rest)
    ensures AllHeld(ApplyOp(s, cur.id, op, fault).rows, rest)
  {
    Tail(s.rows, cur, rest);
  }

  lemma ClaimHeld(s: State, ids: seq<Id>, limit: nat)
    requires Claimable(s.rows, ids, limit)
    ensures AllHeld(ClaimAll(s.rows, ids), Snaps(s.rows, ids))
  {
    var batch, t := Snaps(s.rows, ids), ClaimAll(s.rows, ids);
    forall i | 0 <= i < |batch|
      ensures Held(t, batch[i])
    {
      assert batch[i].id == ids[i] && ids[i] in ids;
    }
  }

  /** What a pass may rely on while it holds the lock. */
  lemma OwnPhase(env: Env, s: State, r: Replica)
    requires Ownership(env, s)
    ensures PhaseOf(s, r) != Idle ==> s.owner == Some(r)
    ensures AllHeld(s.rows, Unprocessed(PhaseOf(s, r)))
    ensures WithinLimit(env, PhaseOf(s, r))
  {
  }

  lemma PassKeepsOwnership(env: Env, s: State, r: Replica, a: PassAct)
    requires Ownership(env, s)
    requires PassNext(env, s, r, a).Some?
    ensures Ownership(env, PassNext(env, s, r, a).value)
  {
    var t := PassNext(env, s, r, a).value;
    OwnPhase(env, s, r);
    if PhaseOf(t, r) == Idle {
      Left(env, s, t, r);
    } else {
      if a.Claim? { ClaimHeld(s, a.ids, env.batchSize); }
      Entered(env, s, t, r, PhaseOf(t, r));
    }
  }

  lemma EntryStepHeld(env: Env, s: State, p: Phase, a: EntryAct)
    requires WithinLimit(env, p) && AllHeld(s.rows, Unprocessed(p))
    requires EntryStep(env, s, p, a).Some?
    ensures var (t, p') := EntryStep(env, s, p, a).value;
            && p != Idle && t.owner == s.owner && t.phases == s.phases
            && WithinLimit(env, p') && AllHeld(t.rows, Unprocessed(p'))
  {
    if a.Decide? { assert [p.batch[0]] + p.batch[1..] == p.batch; }
    if a.Settle? { SettledHeld(s, p.cur, p.rest, p.op, a.fault); }
  }

  lemma EntryKeepsOwnership(env: Env, s: State, r: Replica, a: EntryAct)
    requires Ownership(env, s)
    requires EntryNext(env, s, r, a).Some?
    ensures Ownership(env, EntryNext(env, s, r, a).value)
  {
    OwnPhase(env, s, r);
    EntryStepHeld(env, s, PhaseOf(s, r), a);
    var (t, p') := EntryStep(env, s, PhaseOf(s, r), a).value;
    Entered(env, s, Enter(t, r, p'), r, p');
  }

  /** A replica's action changes its own phase only, and never the history when it takes or leaves a pass. */
  lemma PassLeavesOthers(env: Env, s: State, r: Replica, a: PassAct, other: Replica)
    requires PassNext(env, s, r, a).Some? && other != r
    ensures PhaseOf(PassNext(env, s, r, a).value, other) == PhaseOf(s, other)
    ensures PassNext(env, s, r, a).value.history == s.history
  {
  }

  lemma EntryLeavesOthers(env: Env, s: State, r: Replica, a: EntryAct, other: Replica)
    requires Ownership(env, s)
    requires EntryNext(env, s, r, a).Some? && other != r
    ensures PhaseOf(EntryNext(env, s, r, a).value, other) == PhaseOf(s, other) == Idle
  {
    OwnPhase(env, s, r);
    OwnPhase(env, s, other);
    EntryStepHeld(env, s, PhaseOf(s, r), a);
  }

  lemma StepKeepsOwnership(env: Env, s: State, a: Action)
    requires Ownership(env, s)
    requires Next(env, s, a).Some?
    ensures Ownership(env, Next(env, s, a).value)
  {
    match a {
      case Pass(r, pass) => PassKeepsOwnership(env, s, r, pass);
      case Entry(r, work) => EntryKeepsOwnership(env, s, r, work);
      case Proxy(n, step) =>
        ProxySpares(env, s, n, step);
        Bystander(env, s, Next(env, s, a).value);
      case Reviewer(n, act) =>
        ReviewerSpares(env, s, n, act);
        Bystander(env, s, Next(env, s, a).value);
      case Upstream(pos) =>
        Bystander(env, s, Next(env, s, a).value);
    }
  }

  lemma {:induction false} OwnershipAlways(env: Env, run: seq<Action>)
    requires After(env, run).Some?
    ensures Ownership(env, After(env, run).value)
  {
    if run == [] {
    } else {
      OwnershipAlways(env, run[..|run| - 1]);
      StepKeepsOwnership(env, After(env, run[..|run| - 1]).value, run[|run| - 1]);
    }
  }

  /** The lock is never left behind: whoever holds it is in a pass. */
  ghost predicate OwnerBusy(s: State) {
    s.owner.Some? ==> PhaseOf(s, s.owner.value) != Idle
  }

  lemma EntryStaysBusy(env: Env, s: State, p: Phase, a: EntryAct)
    requires EntryStep(env, s, p, a).Some?
    ensures var (t, p') := EntryStep(env, s, p, a).value;
            p' != Idle && t.owner == s.owner && t.phases == s.phases
  {
  }

  lemma PassStaysBusy(env: Env, s: State, r: Replica, a: PassAct)
    requires OwnerBusy(s) && PassNext(env, s, r, a).Some?
    ensures OwnerBusy(PassNext(env, s, r, a).value)
  {
  }

  lemma {:induction false} OwnerBusyAlways(env: Env, run: seq<Action>)
    requires After(env, run).Some?
    ensures OwnerBusy(After(env, run).value)
  {
    if run == [] {
    } else {
      var s, a := After(env, run[..|run| - 1]).value, run[|run| - 1];
      OwnerBusyAlways(env, run[..|run| - 1]);
      match a {
        case Pass(r, pass) => PassStaysBusy(env, s, r, pass);
        case Entry(r, work) => EntryStaysBusy(env, s, PhaseOf(s, r), work);
        case Proxy(n, step) => ProxySpares(env, s, n, step);
        case Reviewer(n, act) => ReviewerSpares(env, s, n, act);
        case Upstream(_) =>
      }
    }
  }

  /**
   In every reachable state an entry that some live pass has yet to settle is
   'replaying', equals its claimed snapshot in every column, and is in no
   other replica's batch nor twice in the same one.
   */
  lemma SingleOwnership(env: Env, run: seq<Action>, r: Replica, i: nat)
    requires After(env, run).Some?
    requires i < |Unprocessed(PhaseOf(After(env, run).value, r))|
    ensures var s := After(env, run).value;
            var snap := Unprocessed(PhaseOf(s, r))[i];
            && s.owner == Some(r)
            && snap.id in s.rows
            && s.rows[snap.id] == snap.row
            && s.rows[snap.id].status == Replaying
            && (forall o: Replica, j :: 0 <= j < |Unprocessed(PhaseOf(s, o))| && (o != r || j != i) ==>
                  Unprocessed(PhaseOf(s, o))[j].id != snap.id)
  {
    OwnershipAlways(env, run);
    var s := After(env, run).value;
    var batch := Unprocessed(PhaseOf(s, r));
    assert AllHeld(s.rows, batch) && Held(s.rows, batch[i]);
    forall o: Replica, j | 0 <= j < |Unprocessed(PhaseOf(s, o))| && (o != r || j != i)
      ensures Unprocessed(PhaseOf(s, o))[j].id != batch[i].id
    {
      assert PhaseOf(s, o) != Idle && PhaseOf(s, r) != Idle;
    }
  }
}
