/**
 What one action does to the table and the history, said once for all the
 invariants that depend on nothing else.
 */
module ReplaySteps {
  import opened Quarantine
  import opened Replay

  datatype Delta =
    | Same
    | Logged(entry: Event)
    | Issued(call: Call, at: nat)
    | Created(id: Id, row: Row)
    | Verdict(id: Id, who: string, approve: bool)
    | Moved(id: Id, op: Op)
    | Swept
    | Taken(ids: seq<Id>)

  ghost predicate Changes(s: State, t: State, d: Delta) {
    match d
    case Same => t.rows == s.rows && t.history == s.history
    case Logged(entry) => entry.Audit? && t.rows == s.rows && t.history == s.history + [entry]
    case Issued(call, at) => t.rows == s.rows && t.history == s.history + [Sent(call, at)]
    case Created(id, row) =>
      && id !in s.rows && row.status == Pending && row.attempts == 0
      && t.rows == s.rows[id := row] && t.history == s.history + [Holding(id)]
    case Verdict(id, who, approve) =>
      && Resolvable(s.rows, id) && t.rows == Resolve(s.rows, id, who, approve)
      && t.history == s.history + [if approve then Approval(id, who) else Denial(id, who)]
    case Moved(id, op) =>
      && Claimed(s.rows, id) && t.rows == s.rows[id := Settled(s.rows[id], op)]
      && t.history == s.history + SettleEvents(id, op)
    case Swept => t.rows == RecoverAll(s.rows) && t.history == s.history
    case Taken(ids) =>
      && (forall id :: id in ids ==> id in s.rows && s.rows[id].status == Approved)
      && t.rows == ClaimAll(s.rows, ids) && t.history == s.history
  }

  /** An action records at most one event. */
  lemma HistoryGrows(s: State, t: State, d: Delta)
    requires Changes(s, t, d)
    ensures || t.history == s.history
            || (|t.history| == |s.history| + 1 && t.history == s.history + [t.history[|s.history|]])
  {
    if d.Moved? && d.op == Release { assert t.history == s.history; }
  }

  ghost function PassDelta(env: Env, s: State, r: Replica, a: PassAct): Delta
    requires PassNext(env, s, r, a).Some?
  {
    match a
    case Recover(fault) => if fault == Lost then Same else Swept
    case Claim(ids, fault) => if fault == Lost then Same else Taken(ids)
    case _ => Same
  }

  function EntryDelta(env: Env, s: State, p: Phase, a: EntryAct): Delta
    requires EntryStep(env, s, p, a).Some?
  {
    match a
    case WriteAhead(fault) => if fault == Lost then Same else Logged(WorkerEntry(env, p.cur, "replay_started"))
    case Send => Issued(CallFor(p.cur), p.at)
    case Outcome(fault) => if fault == Lost then Same else Logged(WorkerEntry(env, p.cur, p.outcome))
    case Settle(fault) => if fault == Lost || !Claimed(s.rows, p.cur.id) then Same else Moved(p.cur.id, p.op)
    case Note(fault) => if fault == Lost then Same else Logged(WorkerEntry(env, p.cur, p.note))
    case _ => Same
  }

  function ProxyDelta(env: Env, s: State, n: nat, a: ProxyAct): Delta
    requires ProxyNext(env, s, n, a).Some?
  {
    match a
    case Log(q, fault) => if fault == Lost then Same else Logged(ProxyEntry(env, q, DecisionText(q.decision)))
    case Forward => Issued(ForwardCall(s.requests[n].request.payload), s.requests[n].at)
    case Store(id, created, fault) =>
      var q := s.requests[n].request;
      if fault == Lost then Same else Created(id, Row(q.agent, q.tool, q.payload, created, Pending, 0, ""))
    case StoreNote(fault) =>
      if fault == Lost then Same else Logged(ProxyEntry(env, s.requests[n].request, "quarantine_store_failed"))
    case Drop => Same
  }

  function ReviewDelta(env: Env, s: State, n: nat, a: ReviewAct): Delta
    requires ReviewNext(env, s, n, a).Some?
  {
    match a
    case Fetch(_, _, _) => Same
    case Commit(fault) =>
      var v := s.reviews[n];
      if fault == Lost || !Resolvable(s.rows, v.id) then Same else Verdict(v.id, v.who, v.approve)
    case Record(fault) => if fault == Lost then Same else Logged(ReviewEntry(env, s.reviews[n]))
    case Abandon => Same
  }

  ghost function DeltaOf(env: Env, s: State, a: Action): Delta
    requires Next(env, s, a).Some?
  {
    match a
    case Pass(r, pass) => PassDelta(env, s, r, pass)
    case Entry(r, work) => EntryDelta(env, s, PhaseOf(s, r), work)
    case Proxy(n, step) => ProxyDelta(env, s, n, step)
    case Reviewer(n, act) => ReviewDelta(env, s, n, act)
    case Upstream(_) => Same
  }

  lemma PassChanges(env: Env, s: State, r: Replica, a: PassAct)
    requires PassNext(env, s, r, a).Some?
    ensures Changes(s, PassNext(env, s, r, a).value, PassDelta(env, s, r, a))
  {
  }

  lemma EntryChanges(env: Env, s: State, p: Phase, a: EntryAct)
    requires EntryStep(env, s, p, a).Some?
    ensures Changes(s, EntryStep(env, s, p, a).value.0, EntryDelta(env, s, p, a))
  {
  }

  lemma ProxyChanges(env: Env, s: State, n: nat, a: ProxyAct)
    requires ProxyNext(env, s, n, a).Some?
    ensures Changes(s, ProxyNext(env, s, n, a).value, ProxyDelta(env, s, n, a))
  {
  }

  lemma ReviewChanges(env: Env, s: State, n: nat, a: ReviewAct)
    requires ReviewNext(env, s, n, a).Some?
    ensures Changes(s, ReviewNext(env, s, n, a).value, ReviewDelta(env, s, n, a))
  {
  }

  lemma StepChanges(env: Env, s: State, a: Action)
    requires Next(env, s, a).Some?
    ensures Changes(s, Next(env, s, a).value, DeltaOf(env, s, a))
  {
    match a {
      case Pass(r, pass) => PassChanges(env, s, r, pass);
      case Entry(r, work) => EntryChanges(env, s, PhaseOf(s, r), work);
      case Proxy(n, step) => ProxyChanges(env, s, n, step);
      case Reviewer(n, act) => ReviewChanges(env, s, n, act);
      case Upstream(_) =>
    }
  }
}
