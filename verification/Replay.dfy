/**
 The durable replay protocol as a transition system. Any number of worker
 replicas, proxy requests and reviewers act on one database, one audit ledger
 and one upstream; every action is one statement, one ledger append or one
 HTTP exchange, so a run is an arbitrary interleaving of them.
 */
module Replay {
  import opened Options
  import opened Quarantine

  /** What stays fixed over a run: the payload digest and the worker's limits. */
  datatype Env = Env(hash: string -> string, maxAttempts: nat, batchSize: nat)

  /** How a database or ledger call ends: applied, lost, or applied with the acknowledgement lost. */
  datatype Fault = Done | Lost | Unacked

  /** A row as ClaimApproved returned it. */
  datatype Snap = Snap(id: Id, row: Row)

  /** Where one replica's pass stands. `cur` is the entry being processed. */
  datatype Phase =
    | Idle
    | Locked
    | Cleared
    | Draining(batch: seq<Snap>)
    | Permitted(cur: Snap, rest: seq<Snap>)
    | Starting(cur: Snap, rest: seq<Snap>, at: nat)
    | Waiting(cur: Snap, rest: seq<Snap>)
    | Failing(cur: Snap, rest: seq<Snap>, outcome: string)
    | Settling(cur: Snap, rest: seq<Snap>, op: Op, note: string)
    | Noting(cur: Snap, rest: seq<Snap>, note: string)

  /** An in-flight proxy request after its decision was evaluated. */
  datatype Decision = Allow | Deny | Hold
  datatype Request = Request(agent: string, tool: string, payload: string, requestId: string, decision: Decision)
  datatype Ingress =
    | Audited(request: Request, at: nat)
    | HoldFailed(request: Request)

  /** A reviewer's handler call. */
  datatype Review =
    | Fetched(id: Id, who: string, approve: bool, snap: Row)
    | Resolved(id: Id, who: string, approve: bool, snap: Row)

  /** An upstream HTTP exchange. */
  datatype Call =
    | ForwardCall(payload: string)
    | ReplayCall(id: Id, payload: string, approver: string, key: string)

  /**
   What the run has recorded so far, in order. An `Audit` is a ledger entry.
   `Sent.at` is the position of the call's own write-ahead ledger entry.
   */
  datatype Event =
    | Audit(decision: string, agent: string, hash: string, requestId: string)
    | Sent(call: Call, at: nat)
    | Holding(id: Id)
    | Approval(id: Id, who: string)
    | Denial(id: Id, who: string)
    | Parking(id: Id)
    | Completion(id: Id)

  /** One action actually carried out by the upstream. */
  datatype Effect = Effect(key: string, payload: string)

  type Replica = nat

  datatype State = State(
    rows: Table,
    owner: Option<Replica>,
    phases: map<Replica, Phase>,
    requests: map<nat, Ingress>,
    reviews: map<nat, Review>,
    effects: seq<Effect>,
    history: seq<Event>)

  const INIT := State(map[], None, map[], map[], map[], [], [])

  /** Taking and leaving a pass. */
  datatype PassAct =
    | Acquire
    | Recover(fault: Fault)
    | Claim(ids: seq<Id>, fault: Fault)
    | Finish
    | Crash

  /** Working through the claimed entries. */
  datatype EntryAct =
    | Decide(blocked: bool)
    | WriteAhead(fault: Fault)
    | Send
    | SendFails
    | Answer(ok: bool, outcome: string)
    | Outcome(fault: Fault)
    | Settle(fault: Fault)
    | Note(fault: Fault)

  datatype ProxyAct =
    | Log(request: Request, fault: Fault)
    | Forward
    | Store(id: Id, created: nat, fault: Fault)
    | StoreNote(fault: Fault)
    | Drop

  datatype ReviewAct =
    | Fetch(id: Id, who: string, approve: bool)
    | Commit(fault: Fault)
    | Record(fault: Fault)
    | Abandon

  datatype Action =
    | Pass(r: Replica, pass: PassAct)
    | Entry(r: Replica, work: EntryAct)
    | Proxy(n: nat, step: ProxyAct)
    | Reviewer(n: nat, act: ReviewAct)
    | Upstream(pos: nat)

  function PhaseOf(s: State, r: Replica): Phase {
    if r in s.phases then s.phases[r] else Idle
  }

  /** The claimed entries a pass has not settled yet. */
  function Unprocessed(p: Phase): seq<Snap> {
    match p
    case Idle => []
    case Locked => []
    case Cleared => []
    case Draining(batch) => batch
    case Permitted(cur, rest) => [cur] + rest
    case Starting(cur, rest, _) => [cur] + rest
    case Waiting(cur, rest) => [cur] + rest
    case Failing(cur, rest, _) => [cur] + rest
    case Settling(cur, rest, _, _) => [cur] + rest
    case Noting(_, rest, _) => rest
  }

  function Label(resolvedBy: string): string {
    if resolvedBy == "" then "unknown" else resolvedBy
  }

  const KEY_PREFIX := "kiterail-quarantine-"

  function Key(id: Id): string {
    KEY_PREFIX + id
  }

  predicate Executed(effects: seq<Effect>, key: string) {
    exists i :: 0 <= i < |effects| && effects[i].key == key
  }

  function Enter(s: State, r: Replica, p: Phase): State {
    s.(phases := s.phases[r := p])
  }

  /** Leaving the pass releases the advisory lock. */
  function Leave(s: State, r: Replica): State {
    s.(phases := s.phases[r := Idle], owner := if s.owner == Some(r) then None else s.owner)
  }

  function Emit(s: State, e: Event): State {
    s.(history := s.history + [e])
  }

  /** A ledger append: recorded unless the fault lost it. */
  function Append(s: State, e: Event, fault: Fault): State {
    if fault == Lost then s else Emit(s, e)
  }

  /** The ledger entry the worker writes about an entry. */
  function WorkerEntry(env: Env, snap: Snap, decision: string): Event {
    Audit(decision, Label(snap.row.resolvedBy), env.hash(snap.row.payload), snap.id)
  }

  function CallFor(snap: Snap): Call {
    ReplayCall(snap.id, snap.row.payload, Label(snap.row.resolvedBy), Key(snap.id))
  }

  function Snaps(t: Table, ids: seq<Id>): seq<Snap>
    requires forall id :: id in ids ==> id in t
  {
    seq(|ids|, i requires 0 <= i < |ids| => Snap(ids[i], t[ids[i]].(status := Replaying)))
  }

  /** The event a settled row leaves in the history, if any. */
  function SettleEvents(id: Id, op: Op): seq<Event> {
    match op
    case Park => [Parking(id)]
    case Release => []
    case Complete => [Completion(id)]
  }

  /** The update of a settle: guarded on 'replaying', so a stale row is left alone. */
  function ApplyOp(s: State, id: Id, op: Op, fault: Fault): State {
    if fault == Lost || !Claimed(s.rows, id) then s
    else s.(rows := s.rows[id := Settled(s.rows[id], op)], history := s.history + SettleEvents(id, op))
  }

  ghost function PassNext(env: Env, s: State, r: Replica, a: PassAct): Option<State> {
    var p := PhaseOf(s, r);
    match a
    case Acquire =>
      if p.Idle? && s.owner.None? then Some(Enter(s.(owner := Some(r)), r, Locked)) else None
    case Recover(fault) =>
      if !p.Locked? then None
      else
        var t := if fault == Lost then s else s.(rows := RecoverAll(s.rows));
        Some(if fault == Done then Enter(t, r, Cleared) else Leave(t, r))
    case Claim(ids, fault) =>
      if !p.Cleared? || !Claimable(s.rows, ids, env.batchSize) then None
      else
        var t := if fault == Lost then s else s.(rows := ClaimAll(s.rows, ids));
        Some(if fault == Done then Enter(t, r, Draining(Snaps(s.rows, ids))) else Leave(t, r))
    case Finish =>
      // The batch is done, or the context was cancelled before its next entry.
      if !p.Draining? then None else Some(Leave(s, r))
    case Crash =>
      Some(Leave(s, r))
  }

  /** One step of processing an entry: the new shared state and the pass's new phase. */
  function EntryStep(env: Env, s: State, p: Phase, a: EntryAct): Option<(State, Phase)> {
    match a
    case Decide(blocked) =>
      if !p.Draining? || p.batch == [] then None
      else
        var cur, rest := p.batch[0], p.batch[1..];
        if cur.row.attempts > env.maxAttempts then Some((s, Settling(cur, rest, Park, "replay_exhausted")))
        else if blocked then Some((s, Settling(cur, rest, Park, "replay_blocked_by_policy")))
        else Some((s, Permitted(cur, rest)))
    case WriteAhead(fault) =>
      if !p.Permitted? then None
      else
        Some((Append(s, WorkerEntry(env, p.cur, "replay_started"), fault),
              if fault == Done then Starting(p.cur, p.rest, |s.history|)
              else Settling(p.cur, p.rest, Release, "")))
    case Send =>
      if !p.Starting? then None
      else Some((Emit(s, Sent(CallFor(p.cur), p.at)), Waiting(p.cur, p.rest)))
    case SendFails =>
      if !p.Starting? then None else Some((s, Failing(p.cur, p.rest, "replay_error")))
    case Answer(ok, outcome) =>
      // A 2xx answer means the upstream has carried out this key, now or on an earlier attempt.
      if !p.Waiting? || (ok && !Executed(s.effects, Key(p.cur.id))) then None
      else
        Some((s, if ok then Settling(p.cur, p.rest, Complete, "approved_replayed")
                 else Failing(p.cur, p.rest, outcome)))
    case Outcome(fault) =>
      if !p.Failing? then None
      else
        Some((Append(s, WorkerEntry(env, p.cur, p.outcome), fault),
              Settling(p.cur, p.rest, if p.cur.row.attempts >= env.maxAttempts then Park else Release, "")))
    case Settle(fault) =>
      if !p.Settling? then None
      else
        var reported := fault == Done && Claimed(s.rows, p.cur.id);
        Some((ApplyOp(s, p.cur.id, p.op, fault),
              if reported && p.note != "" then Noting(p.cur, p.rest, p.note) else Draining(p.rest)))
    case Note(fault) =>
      if !p.Noting? then None
      else Some((Append(s, WorkerEntry(env, p.cur, p.note), fault), Draining(p.rest)))
  }

  function EntryNext(env: Env, s: State, r: Replica, a: EntryAct): Option<State> {
    var step := EntryStep(env, s, PhaseOf(s, r), a);
    if step.None? then None else Some(Enter(step.value.0, r, step.value.1))
  }

  function DecisionText(d: Decision): string {
    match d
    case Allow => "allow"
    case Deny => "deny"
    case Hold => "quarantine"
  }

  function ProxyEntry(env: Env, q: Request, decision: string): Event {
    Audit(decision, q.agent, env.hash(q.payload), q.requestId)
  }

  function ProxyNext(env: Env, s: State, n: nat, a: ProxyAct): Option<State> {
    match a
    case Log(q, fault) =>
      if n in s.requests then None
      else
        var t := Append(s, ProxyEntry(env, q, DecisionText(q.decision)), fault);
        Some(if fault == Done then t.(requests := s.requests[n := Audited(q, |s.history|)]) else t)
    case Forward =>
      if n !in s.requests || !s.requests[n].Audited? || s.requests[n].request.decision != Allow then None
      else
        var i := s.requests[n];
        Some(Emit(s, Sent(ForwardCall(i.request.payload), i.at)).(requests := s.requests - {n}))
    case Store(id, created, fault) =>
      if n !in s.requests || !s.requests[n].Audited? || s.requests[n].request.decision != Hold || id in s.rows then None
      else
        var q := s.requests[n].request;
        var row := Row(q.agent, q.tool, q.payload, created, Pending, 0, "");
        var t := if fault == Lost then s else Emit(s.(rows := s.rows[id := row]), Holding(id));
        Some(t.(requests := if fault == Done then s.requests - {n} else s.requests[n := HoldFailed(q)]))
    case StoreNote(fault) =>
      if n !in s.requests || !s.requests[n].HoldFailed? then None
      else
        Some(Append(s, ProxyEntry(env, s.requests[n].request, "quarantine_store_failed"), fault)
             .(requests := s.requests - {n}))
    case Drop =>
      Some(s.(requests := s.requests - {n}))
  }

  function ReviewEntry(env: Env, v: Review): Event {
    Audit(if v.approve then "approved" else "denied", v.who, env.hash(v.snap.payload), v.id)
  }

  function ReviewNext(env: Env, s: State, n: nat, a: ReviewAct): Option<State> {
    match a
    case Fetch(id, who, approve) =>
      if n in s.reviews || id !in s.rows then None
      else Some(s.(reviews := s.reviews[n := Fetched(id, who, approve, s.rows[id])]))
    case Commit(fault) =>
      if n !in s.reviews || !s.reviews[n].Fetched? then None
      else
        var v := s.reviews[n];
        var t :=
          if fault == Lost || !Resolvable(s.rows, v.id) then s
          else Emit(s.(rows := Resolve(s.rows, v.id, v.who, v.approve)),
                    if v.approve then Approval(v.id, v.who) else Denial(v.id, v.who));
        Some(t.(reviews := if fault == Done && Resolvable(s.rows, v.id)
                           then s.reviews[n := Resolved(v.id, v.who, v.approve, v.snap)]
                           else s.reviews - {n}))
    case Record(fault) =>
      if n !in s.reviews || !s.reviews[n].Resolved? then None
      else Some(Append(s, ReviewEntry(env, s.reviews[n]), fault).(reviews := s.reviews - {n}))
    case Abandon =>
      Some(s.(reviews := s.reviews - {n}))
  }

  /** The upstream carries out a call it received, at any later time, unless its key was seen before. */
  function UpstreamNext(s: State, pos: nat): Option<State> {
    if pos >= |s.history| || !s.history[pos].Sent? || !s.history[pos].call.ReplayCall? then None
    else
      var c := s.history[pos].call;
      Some(if Executed(s.effects, c.key) then s else s.(effects := s.effects + [Effect(c.key, c.payload)]))
  }

  ghost function Next(env: Env, s: State, a: Action): Option<State> {
    match a
    case Pass(r, pass) => PassNext(env, s, r, pass)
    case Entry(r, work) => EntryNext(env, s, r, work)
    case Proxy(n, step) => ProxyNext(env, s, n, step)
    case Reviewer(n, act) => ReviewNext(env, s, n, act)
    case Upstream(pos) => UpstreamNext(s, pos)
  }

  /** The state after a run, or None when some action was not enabled. */
  ghost function After(env: Env, run: seq<Action>): Option<State> {
    if run == [] then Some(INIT)
    else
      var before := After(env, run[..|run| - 1]);
      if before.None? then None else Next(env, before.value, run[|run| - 1])
  }

  /** Every prefix of a run is a run. */
  lemma {:induction false} PrefixIsRun(env: Env, run: seq<Action>, k: nat)
    requires After(env, run).Some?
    requires k <= |run|
    ensures After(env, run[..k]).Some?
    decreases |run|
  {
    if k < |run| {
      PrefixIsRun(env, run[..|run| - 1], k);
      assert run[..|run| - 1][..k] == run[..k];
    } else {
      assert run[..k] == run;
    }
  }
}
