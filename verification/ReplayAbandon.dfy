/**
 What a pass leaves behind when it releases the lock: exactly which rows stay
 'replaying', and so exactly when a pass has recovered its own claims.
 */
module ReplayAbandon {
  import opened Options
  import opened Quarantine
  import opened Replay
  import opened ReplaySteps
  import opened ReplayOwnership
  import opened ReplayDrain
  import Status = ReplayStatus

  /** The pass has claimed its batch. */
  predicate Working(p: Phase) {
    !p.Idle? && !p.Locked? && !p.Cleared?
  }

  predicate InBatch(batch: seq<Snap>, id: Id) {
    exists i :: 0 <= i < |batch| && batch[i].id == id
  }

  /** The entries whose settle was lost, of those the current pass of `r` has worked on. */
  ghost function LostBy(env: Env, run: seq<Action>, r: Replica): set<Id>
    requires After(env, run).Some?
  {
    if run == [] then {}
    else
      var past, a := run[..|run| - 1], run[|run| - 1];
      if a.Pass? && a.r == r then {}
      else if a == Entry(r, Settle(Lost)) then LostBy(env, past, r) + {PhaseOf(After(env, past).value, r).cur.id}
      else LostBy(env, past, r)
  }

  /** While a pass works, the claimed rows are its batch and what it has lost. */
  ghost predicate Explained(s: State, r: Replica, lost: set<Id>) {
    Working(PhaseOf(s, r)) ==>
      forall id :: Claimed(s.rows, id) <==> InBatch(Unprocessed(PhaseOf(s, r)), id) || id in lost
  }

  lemma ClaimedSame(s: State, t: State, d: Delta, id: Id)
    requires Changes(s, t, d) && !d.Moved? && !d.Swept? && !d.Taken?
    ensures Claimed(t.rows, id) <==> Claimed(s.rows, id)
  {
  }

  lemma ClaimExplained(env: Env, s: State, r: Replica, ids: seq<Id>, id: Id)
    requires RecoveredClean(s) && PassNext(env, s, r, Claim(ids, Done)).Some?
    ensures var t := PassNext(env, s, r, Claim(ids, Done)).value;
            Claimed(t.rows, id) <==> InBatch(Unprocessed(PhaseOf(t, r)), id)
  {
    var t := PassNext(env, s, r, Claim(ids, Done)).value;
    var batch := Snaps(s.rows, ids);
    assert PhaseOf(s, r) == Cleared && Unprocessed(PhaseOf(t, r)) == batch;
    assert id in s.rows ==> s.rows[id].status != Replaying;
    if id in ids {
      var i :| 0 <= i < |ids| && ids[i] == id;
      assert batch[i].id == id;
    }
    if InBatch(batch, id) {
      var i :| 0 <= i < |batch| && batch[i].id == id;
      assert ids[i] in ids;
    }
  }

  lemma PassExplained(env: Env, s: State, r: Replica, a: PassAct)
    requires RecoveredClean(s) && PassNext(env, s, r, a).Some?
    ensures Explained(PassNext(env, s, r, a).value, r, {})
  {
    var t := PassNext(env, s, r, a).value;
    if Working(PhaseOf(t, r)) {
      forall id
        ensures Claimed(t.rows, id) <==> InBatch(Unprocessed(PhaseOf(t, r)), id)
      {
        ClaimExplained(env, s, r, a.ids, id);
      }
    }
  }

  /** While one replica works no other can change a row. */
  lemma OtherPassExplained(env: Env, s: State, r: Replica, o: Replica, a: PassAct, lost: set<Id>)
    requires Ownership(env, s) && Explained(s, r, lost) && o != r
    requires PassNext(env, s, o, a).Some?
    ensures Explained(PassNext(env, s, o, a).value, r, lost)
  {
    OwnPhase(env, s, r);
    OwnPhase(env, s, o);
    PassLeavesOthers(env, s, o, a, r);
  }

  lemma HeadOfBatch(cur: Snap, rest: seq<Snap>, id: Id)
    ensures InBatch([cur] + rest, id) <==> cur.id == id || InBatch(rest, id)
  {
    var all := [cur] + rest;
    if InBatch(rest, id) {
      var i :| 0 <= i < |rest| && rest[i].id == id;
      assert all[i + 1].id == id;
    }
    if cur.id == id { assert all[0].id == id; }
    if InBatch(all, id) {
      var i :| 0 <= i < |all| && all[i].id == id;
      if i > 0 { assert rest[i - 1].id == id; }
    }
  }

  lemma SettleExplained(env: Env, s: State, p: Phase, fault: Fault, lost: set<Id>, id: Id)
    requires p.Settling? && AllHeld(s.rows, Unprocessed(p))
    requires Claimed(s.rows, id) <==> InBatch(Unprocessed(p), id) || id in lost
    requires id in lost ==> !InBatch(Unprocessed(p), id)
    ensures var (t, p') := EntryStep(env, s, p, Settle(fault)).value;
            var lost' := if fault == Lost then lost + {p.cur.id} else lost;
            && (Claimed(t.rows, id) <==> InBatch(Unprocessed(p'), id) || id in lost')
            && (id in lost' ==> !InBatch(Unprocessed(p'), id))
  {
    Tail(s.rows, p.cur, p.rest);
    HeadOfBatch(p.cur, p.rest, id);
  }

  /** Other steps on the current entry neither claim nor settle anything. */
  lemma OtherEntryExplained(env: Env, s: State, p: Phase, a: EntryAct, id: Id)
    requires EntryStep(env, s, p, a).Some? && !a.Settle?
    ensures var (t, p') := EntryStep(env, s, p, a).value;
            && Working(p) && Working(p')
            && t.rows == s.rows && (InBatch(Unprocessed(p'), id) <==> InBatch(Unprocessed(p), id))
  {
    if a.Decide? { assert [p.batch[0]] + p.batch[1..] == p.batch; }
  }

  /** A lost entry is no longer in the batch. */
  ghost predicate Apart(p: Phase, lost: set<Id>) {
    forall id :: id in lost ==> !InBatch(Unprocessed(p), id)
  }

  lemma EntryExplained(env: Env, s: State, r: Replica, a: EntryAct, lost: set<Id>)
    requires Ownership(env, s) && Explained(s, r, lost) && Apart(PhaseOf(s, r), lost)
    requires EntryNext(env, s, r, a).Some?
    ensures var t, p := EntryNext(env, s, r, a).value, PhaseOf(s, r);
            var lost' := if a == Settle(Lost) then lost + {p.cur.id} else lost;
            Explained(t, r, lost') && Apart(PhaseOf(t, r), lost')
  {
    var p := PhaseOf(s, r);
    OwnPhase(env, s, r);
    var (t, p') := EntryStep(env, s, p, a).value;
    var lost' := if a == Settle(Lost) then lost + {p.cur.id} else lost;
    forall id
      ensures Claimed(t.rows, id) <==> InBatch(Unprocessed(p'), id) || id in lost'
      ensures id in lost' ==> !InBatch(Unprocessed(p'), id)
    {
      if a.Settle? { SettleExplained(env, s, p, a.fault, lost, id); } else { OtherEntryExplained(env, s, p, a, id); }
    }
  }

  lemma BystanderExplained(env: Env, s: State, a: Action, r: Replica, lost: set<Id>)
    requires Explained(s, r, lost) && !a.Pass? && !a.Entry? && Next(env, s, a).Some?
    ensures Explained(Next(env, s, a).value, r, lost)
    ensures PhaseOf(Next(env, s, a).value, r) == PhaseOf(s, r)
  {
    var t := Next(env, s, a).value;
    match a {
      case Proxy(n, step) => ProxySpares(env, s, n, step);
      case Reviewer(n, act) => ReviewerSpares(env, s, n, act);
      case Upstream(_) =>
    }
    StepChanges(env, s, a);
    forall id
      ensures Claimed(t.rows, id) <==> Claimed(s.rows, id)
    {
      ClaimedSame(s, t, DeltaOf(env, s, a), id);
    }
  }

  /** In every reachable state of a working pass the claimed rows are its batch and what it lost, with no overlap. */
  lemma {:induction false} ExplainedAlways(env: Env, run: seq<Action>, r: Replica)
    requires After(env, run).Some?
    ensures Explained(After(env, run).value, r, LostBy(env, run, r))
    ensures Working(PhaseOf(After(env, run).value, r)) ==> Apart(PhaseOf(After(env, run).value, r), LostBy(env, run, r))
  {
    if run == [] {
    } else {
      var past, a := run[..|run| - 1], run[|run| - 1];
      ExplainedAlways(env, past, r);
      OwnershipAlways(env, past);
      RecoveredCleanAlways(env, past);
      StepExplained(env, After(env, past).value, a, r, LostBy(env, past, r));
    }
  }

  lemma StepExplained(env: Env, s: State, a: Action, r: Replica, lost: set<Id>)
    requires Ownership(env, s) && RecoveredClean(s) && Next(env, s, a).Some?
    requires Explained(s, r, lost) && (Working(PhaseOf(s, r)) ==> Apart(PhaseOf(s, r), lost))
    ensures var t := Next(env, s, a).value;
            var lost' := if a.Pass? && a.r == r then {}
                         else if a == Entry(r, Settle(Lost)) then lost + {PhaseOf(s, r).cur.id} else lost;
            && Explained(t, r, lost')
            && (Working(PhaseOf(t, r)) ==> Apart(PhaseOf(t, r), lost'))
  {
    match a {
      case Pass(o, pass) =>
        if o == r {
          PassExplained(env, s, r, pass);
        } else {
          OtherPassExplained(env, s, r, o, pass, lost);
          PassLeavesOthers(env, s, o, pass, r);
        }
      case Entry(o, work) =>
        if o == r {
          EntryExplained(env, s, r, work, lost);
        } else {
          EntryLeavesOthers(env, s, o, work, r);
        }
      case _ => BystanderExplained(env, s, a, r, lost);
    }
  }

  /** What a pass that ends with this action leaves claimed. */
  ghost predicate Abandoned(env: Env, run: seq<Action>, r: Replica, a: PassAct, id: Id)
    requires After(env, run).Some?
  {
    var s := After(env, run).value;
    var p := PhaseOf(s, r);
    if Working(p) then InBatch(Unprocessed(p), id) || id in LostBy(env, run, r)
    else if p.Cleared? then a.Claim? && a.fault == Unacked && id in a.ids
    else (a.Recover? ==> a.fault == Lost) && Claimed(s.rows, id)
  }

  /**
   However a pass ends (its batch over or cancelled, its recovery or claim failed, or
   a crash), the lock is free and the rows it leaves 'replaying' are exactly: the
   entries it has not settled and those whose settle was lost; or, before it had a
   batch, what a claim took without being acknowledged, or what an earlier pass left
   and this one's recovery never touched.
   */
  lemma AbandonsExactly(env: Env, run: seq<Action>, r: Replica, a: PassAct)
    requires After(env, run).Some? && PassNext(env, After(env, run).value, r, a).Some?
    requires PhaseOf(After(env, run).value, r) != Idle
    requires PhaseOf(PassNext(env, After(env, run).value, r, a).value, r) == Idle
    ensures var t := PassNext(env, After(env, run).value, r, a).value;
            t.owner == None && forall id :: Claimed(t.rows, id) <==> Abandoned(env, run, r, a, id)
  {
    var s := After(env, run).value;
    ExplainedAlways(env, run, r);
    OwnershipAlways(env, run);
    OwnPhase(env, s, r);
    RecoveredCleanAlways(env, run);
    var t := PassNext(env, s, r, a).value;
    forall id
      ensures Claimed(t.rows, id) <==> Abandoned(env, run, r, a, id)
    {
      EndsWith(env, s, r, a, id);
    }
  }

  lemma EndsWith(env: Env, s: State, r: Replica, a: PassAct, id: Id)
    requires RecoveredClean(s) && PassNext(env, s, r, a).Some?
    requires PhaseOf(s, r) != Idle && PhaseOf(PassNext(env, s, r, a).value, r) == Idle
    ensures var t, p := PassNext(env, s, r, a).value, PhaseOf(s, r);
            Claimed(t.rows, id) <==>
            if Working(p) then Claimed(s.rows, id)
            else if p.Cleared? then a.Claim? && a.fault == Unacked && id in a.ids
            else (a.Recover? ==> a.fault == Lost) && Claimed(s.rows, id)
  {
  }

  /**
   A pass that returns from its batch has recovered its own claims, as documented,
   exactly when the batch is worked off and no settle of it was lost.
   */
  lemma NothingAbandoned(env: Env, run: seq<Action>, r: Replica)
    requires After(env, run).Some? && PhaseOf(After(env, run).value, r).Draining?
    ensures var t := PassNext(env, After(env, run).value, r, Finish).value;
            (forall id :: !Claimed(t.rows, id)) <==>
            PhaseOf(After(env, run).value, r).batch == [] && LostBy(env, run, r) == {}
  {
    AbandonsExactly(env, run, r, Finish);
    var t, batch := PassNext(env, After(env, run).value, r, Finish).value, PhaseOf(After(env, run).value, r).batch;
    if batch != [] {
      assert InBatch(batch, batch[0].id) && Abandoned(env, run, r, Finish, batch[0].id);
    } else if LostBy(env, run, r) != {} {
      var id :| id in LostBy(env, run, r);
      assert Abandoned(env, run, r, Finish, id);
    } else {
      forall id ensures !Claimed(t.rows, id) { assert !Abandoned(env, run, r, Finish, id); }
    }
  }

  /** A cancelled pass releases the lock with its claim still in the table. */
  lemma ClaimIsAbandoned(env: Env, id: Id) returns (run: seq<Action>)
    requires env.batchSize > 0
    ensures run != [] && run[|run| - 1] == Pass(0, Finish) && After(env, run).Some?
    ensures var s := After(env, run).value;
            s.owner == None && id in s.rows && s.rows[id].status == Replaying
  {
    var r, s := Status.ClaimOne(env, id);
    var a := Pass(0, Finish);
    run := r + [a];
    Status.Then(env, r, s, a, Next(env, s, a).value);
  }
}
