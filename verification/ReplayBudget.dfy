/**
 The replay bound: however crashes and failures fall, one approval pays for at
 most maxAttempts + 1 upstream calls.
 */
module ReplayBudget {
  import opened Quarantine
  import opened Replay
  import opened ReplaySteps
  import opened ReplayOwnership
  import opened ReplayHistory

  predicate IsReplayOf(e: Event, id: Id) {
    e.Sent? && e.call.ReplayCall? && e.call.id == id
  }

  /** Upstream calls for an entry in a stretch of history. */
  function Calls(h: seq<Event>, id: Id): nat {
    if h == [] then 0
    else Calls(h[..|h| - 1], id) + if IsReplayOf(h[|h| - 1], id) then 1 else 0
  }

  /** Upstream calls for an entry since its last approval. */
  function CallsSince(h: seq<Event>, id: Id): nat {
    if h == [] then 0
    else
      var e, past := h[|h| - 1], h[..|h| - 1];
      if Marks(e, id, Approvals) then 0
      else CallsSince(past, id) + if IsReplayOf(e, id) then 1 else 0
  }

  lemma CallsSincePush(h: seq<Event>, e: Event, id: Id)
    ensures CallsSince(h + [e], id) ==
            if Marks(e, id, Approvals) then 0 else CallsSince(h, id) + if IsReplayOf(e, id) then 1 else 0
  {
    assert (h + [e])[..|h|] == h;
  }

  /** The attempt counter never lags behind the calls it stands for. */
  predicate Paid(env: Env, t: Table, h: seq<Event>, id: Id) {
    var n := CallsSince(h, id);
    if id !in t then n == 0
    else
      && n <= env.maxAttempts + 1
      && (t[id].status == Approved ==> n <= t[id].attempts)
      && (t[id].status == Replaying ==> n <= t[id].attempts + 1)
  }

  /** The claimed entries this pass has not yet sent. */
  function Unsent(p: Phase): seq<Snap> {
    match p
    case Draining(batch) => batch
    case Permitted(cur, rest) => [cur] + rest
    case Starting(cur, rest, _) => [cur] + rest
    case Waiting(_, rest) => rest
    case Failing(_, rest, _) => rest
    case Settling(_, rest, _, _) => rest
    case Noting(_, rest, _) => rest
    case _ => []
  }

  ghost predicate Unspent(h: seq<Event>, batch: seq<Snap>) {
    forall i :: 0 <= i < |batch| ==> CallsSince(h, batch[i].id) <= batch[i].row.attempts
  }

  ghost predicate Within(env: Env, h: seq<Event>) {
    forall id, k :: 0 <= k <= |h| ==> CallsSince(h[..k], id) <= env.maxAttempts + 1
  }

  ghost predicate Budget(env: Env, s: State) {
    && (forall id :: Paid(env, s.rows, s.history, id))
    && (forall r: Replica :: Unspent(s.history, Unsent(PhaseOf(s, r))))
    && Within(env, s.history)
  }

  lemma SentAfterUnsent(env: Env, s: State, a: Action)
    requires Ownership(env, s) && Budget(env, s)
    requires Next(env, s, a).Some?
    requires DeltaOf(env, s, a).Issued? && DeltaOf(env, s, a).call.ReplayCall?
    ensures var id := DeltaOf(env, s, a).call.id;
            && Claimed(s.rows, id)
            && CallsSince(s.history, id) <= s.rows[id].attempts <= env.maxAttempts
  {
    SendIsHeld(env, s, a);
    var p := PhaseOf(s, a.r);
    assert Unspent(s.history, Unsent(p)) && Unsent(p)[0] == p.cur;
  }

  /** A call raises the count of its own entry and of no other; an approval resets it. */
  lemma CountsOnlyItsEntry(s: State, t: State, d: Delta, id: Id)
    requires Changes(s, t, d)
    ensures CallsSince(t.history, id) <=
            CallsSince(s.history, id) + if d.Issued? && d.call.ReplayCall? && d.call.id == id then 1 else 0
    ensures d.Verdict? && d.approve && d.id == id ==> CallsSince(t.history, id) == 0
  {
    match d {
      case Logged(entry) => CallsSincePush(s.history, entry, id);
      case Issued(call, at) => CallsSincePush(s.history, Sent(call, at), id);
      case Created(other, _) => CallsSincePush(s.history, Holding(other), id);
      case Verdict(other, who, approve) =>
        CallsSincePush(s.history, if approve then Approval(other, who) else Denial(other, who), id);
      case Moved(other, op) =>
        CallsSincePush(s.history, if op == Park then Parking(other) else Completion(other), id);
        if op == Release { assert t.history == s.history; }
      case _ =>
    }
  }

  lemma ChangePaid(env: Env, s: State, t: State, d: Delta, id: Id)
    requires Changes(s, t, d)
    requires Paid(env, s.rows, s.history, id)
    requires d.Issued? && d.call.ReplayCall? ==>
               && Claimed(s.rows, d.call.id)
               && CallsSince(s.history, d.call.id) <= s.rows[d.call.id].attempts <= env.maxAttempts
    ensures Paid(env, t.rows, t.history, id)
  {
    CountsOnlyItsEntry(s, t, d, id);
  }

  /** No step on an entry adds to what a pass has yet to send, and sending removes the entry sent. */
  lemma UnsentShrinks(env: Env, s: State, p: Phase, a: EntryAct)
    requires AllHeld(s.rows, Unprocessed(p))
    requires EntryStep(env, s, p, a).Some?
    ensures var p' := EntryStep(env, s, p, a).value.1;
            forall i :: 0 <= i < |Unsent(p')| ==> Unsent(p')[i] in Unsent(p)
    ensures var p' := EntryStep(env, s, p, a).value.1;
            a.Send? ==> forall i :: 0 <= i < |Unsent(p')| ==> Unsent(p')[i].id != p.cur.id
  {
    if a.Send? { Tail(s.rows, p.cur, p.rest); }
  }

  lemma EntryUnspent(env: Env, s: State, r: Replica, a: EntryAct)
    requires Ownership(env, s) && Budget(env, s)
    requires EntryNext(env, s, r, a).Some?
    ensures var t := EntryNext(env, s, r, a).value;
            Unspent(t.history, Unsent(PhaseOf(t, r)))
  {
    var p := PhaseOf(s, r);
    var (t, p') := EntryStep(env, s, p, a).value;
    OwnPhase(env, s, r);
    EntryChanges(env, s, p, a);
    UnsentShrinks(env, s, p, a);
    assert Unspent(s.history, Unsent(p));
    forall i | 0 <= i < |Unsent(p')|
      ensures CallsSince(t.history, Unsent(p')[i].id) <= Unsent(p')[i].row.attempts
    {
      CountsOnlyItsEntry(s, t, EntryDelta(env, s, p, a), Unsent(p')[i].id);
    }
  }

  lemma PassUnspent(env: Env, s: State, r: Replica, a: PassAct)
    requires Budget(env, s)
    requires PassNext(env, s, r, a).Some?
    ensures var t := PassNext(env, s, r, a).value;
            Unspent(t.history, Unsent(PhaseOf(t, r)))
  {
    var t := PassNext(env, s, r, a).value;
    var p := PhaseOf(t, r);
    assert t.history == s.history;
    if p.Draining? {
      forall i | 0 <= i < |p.batch|
        ensures CallsSince(t.history, p.batch[i].id) <= p.batch[i].row.attempts
      {
        assert p.batch[i].id == a.ids[i] && a.ids[i] in a.ids;
        assert Paid(env, s.rows, s.history, a.ids[i]);
      }
    }
  }

  lemma StepUnspent(env: Env, s: State, a: Action, r: Replica)
    requires Ownership(env, s) && Budget(env, s)
    requires Next(env, s, a).Some?
    ensures var t := Next(env, s, a).value;
            Unspent(t.history, Unsent(PhaseOf(t, r)))
  {
    match a {
      case Pass(o, pass) =>
        if r == o {
          PassUnspent(env, s, o, pass);
        } else {
          PassLeavesOthers(env, s, o, pass, r);
          assert Unspent(s.history, Unsent(PhaseOf(s, r)));
        }
      case Entry(o, work) =>
        if r == o {
          EntryUnspent(env, s, o, work);
        } else {
          EntryLeavesOthers(env, s, o, work, r);
        }
      case _ => BystanderUnspent(env, s, a, r);
    }
  }

  lemma BystanderUnspent(env: Env, s: State, a: Action, r: Replica)
    requires Budget(env, s)
    requires !a.Pass? && !a.Entry? && Next(env, s, a).Some?
    ensures var t := Next(env, s, a).value;
            Unspent(t.history, Unsent(PhaseOf(t, r)))
  {
    var t := Next(env, s, a).value;
    match a {
      case Proxy(n, step) => ProxySpares(env, s, n, step);
      case Reviewer(n, act) => ReviewerSpares(env, s, n, act);
      case Upstream(_) =>
    }
    StepChanges(env, s, a);
    assert Unspent(s.history, Unsent(PhaseOf(s, r)));
    forall i | 0 <= i < |Unsent(PhaseOf(t, r))|
      ensures CallsSince(t.history, Unsent(PhaseOf(t, r))[i].id) <= Unsent(PhaseOf(t, r))[i].row.attempts
    {
      CountsOnlyItsEntry(s, t, DeltaOf(env, s, a), Unsent(PhaseOf(t, r))[i].id);
    }
  }

  lemma {:induction false} BudgetAlways(env: Env, run: seq<Action>)
    requires After(env, run).Some?
    ensures Budget(env, After(env, run).value)
  {
    if run == [] {
    } else {
      var past, a := run[..|run| - 1], run[|run| - 1];
      var s, t := After(env, past).value, After(env, run).value;
      BudgetAlways(env, past);
      OwnershipAlways(env, past);
      StepPaid(env, s, a);
      forall r: Replica
        ensures Unspent(t.history, Unsent(PhaseOf(t, r)))
      {
        StepUnspent(env, s, a, r);
      }
    }
  }

  lemma StepPaid(env: Env, s: State, a: Action)
    requires Ownership(env, s) && Budget(env, s)
    requires Next(env, s, a).Some?
    ensures var t := Next(env, s, a).value;
            (forall id :: Paid(env, t.rows, t.history, id)) && Within(env, t.history)
  {
    var t, d := Next(env, s, a).value, DeltaOf(env, s, a);
    StepChanges(env, s, a);
    if d.Issued? && d.call.ReplayCall? { SentAfterUnsent(env, s, a); }
    forall id
      ensures Paid(env, t.rows, t.history, id)
    {
      ChangePaid(env, s, t, d, id);
    }
    WithinExtends(env, s.history, t.history, t.rows);
  }

  lemma WithinExtends(env: Env, h: seq<Event>, h': seq<Event>, t: Table)
    requires Within(env, h) && h <= h' && |h'| <= |h| + 1
    requires forall id :: Paid(env, t, h', id)
    ensures Within(env, h')
  {
    forall id, k | 0 <= k <= |h'|
      ensures CallsSince(h'[..k], id) <= env.maxAttempts + 1
    {
      if k <= |h| {
        assert h'[..k] == h[..k];
      } else {
        assert h'[..k] == h' && Paid(env, t, h', id);
      }
    }
  }

  /** Counting from any point after the last approval never exceeds counting from the approval. */
  lemma {:induction false} WindowWithinSince(h: seq<Event>, id: Id, i: nat, j: nat)
    requires i <= j <= |h|
    requires forall k :: i <= k < j ==> !Marks(h[k], id, Approvals)
    ensures Calls(h[i..j], id) <= CallsSince(h[..j], id)
    decreases j
  {
    if i >= j {
    } else {
      WindowWithinSince(h, id, i, j - 1);
      assert h[i..j][..j - i - 1] == h[i..j - 1];
      assert h[..j][..j - 1] == h[..j - 1];
    }
  }

  /**
   Replay bound: in any stretch of any run's history without a new approval of
   the entry, at most maxAttempts + 1 upstream calls are made for it.
   */
  lemma ReplayBound(env: Env, run: seq<Action>, id: Id, i: nat, j: nat)
    requires After(env, run).Some?
    requires i <= j <= |After(env, run).value.history|
    requires forall k :: i <= k < j ==> !Marks(After(env, run).value.history[k], id, Approvals)
    ensures Calls(After(env, run).value.history[i..j], id) <= env.maxAttempts + 1
  {
    BudgetAlways(env, run);
    WindowWithinSince(After(env, run).value.history, id, i, j);
  }
}
