/**
 The status machine of a held action: exactly which status changes one action of the
 protocol can make, each with a run that makes it.
 */
module ReplayStatus {
  import opened Options
  import opened Quarantine
  import opened Replay
  import opened ReplaySteps

  function StatusOf(t: Table, id: Id): Option<Status> {
    if id in t then Some(t[id].status) else None
  }

  /** The status changes of the guarded updates; None stands for an id not in use. */
  predicate Edge(before: Option<Status>, after: Option<Status>) {
    || (before == None && after == Some(Pending))
    || (before == Some(Pending) && (after == Some(Approved) || after == Some(Denied)))
    || (before == Some(Approved) && after == Some(Replaying))
    || (before == Some(Replaying) && (after == Some(Replayed) || after == Some(ReplayFailed) || after == Some(Approved)))
    || (before == Some(ReplayFailed) && (after == Some(Approved) || after == Some(Denied)))
  }

  /** The arrows of the documented diagram. */
  predicate Drawn(before: Status, after: Status) {
    || (before == Pending && (after == Approved || after == Denied))
    || (before == Approved && after == Replaying)
    || (before == Replaying && (after == Replayed || after == ReplayFailed))
    || (before == ReplayFailed && after == Approved)
  }

  /** No action changes a status along anything but an edge, reachable state or not. */
  lemma OnlyEdges(env: Env, s: State, a: Action, id: Id)
    requires Next(env, s, a).Some?
    ensures var before, after := StatusOf(s.rows, id), StatusOf(Next(env, s, a).value.rows, id);
            before == after || Edge(before, after)
  {
    StepChanges(env, s, a);
    ChangeIsEdge(s, Next(env, s, a).value, DeltaOf(env, s, a), id);
  }

  lemma ChangeIsEdge(s: State, t: State, d: Delta, id: Id)
    requires Changes(s, t, d)
    ensures StatusOf(s.rows, id) == StatusOf(t.rows, id) || Edge(StatusOf(s.rows, id), StatusOf(t.rows, id))
  {
  }

  // ----- the columns -----

  /** A verdict or an end of the entry. */
  predicate Concerns(e: Event, id: Id) {
    (e.Approval? || e.Denial? || e.Parking? || e.Completion?) && e.id == id
  }

  /** What one action can do to a row, column by column, and what it records about it. */
  predicate RowStep(r: Row, r': Row, id: Id, news: seq<Event>) {
    && r'.agent == r.agent && r'.tool == r.tool && r'.payload == r.payload && r'.created == r.created
    && var open := r.status == Pending || r.status == ReplayFailed;
       || (r' == r && forall e :: e in news ==> !Concerns(e, id))
       || (open && r'.status == Approved && r'.attempts == 0 && news == [Approval(id, r'.resolvedBy)])
       || (open && r'.status == Denied && r'.attempts == r.attempts && news == [Denial(id, r'.resolvedBy)])
       || (&& r'.resolvedBy == r.resolvedBy
           && (|| (r.status == Approved && r'.status == Replaying && r'.attempts == r.attempts && news == [])
               || (r.status == Replaying && r'.status == Approved && r'.attempts == r.attempts + 1 && news == [])
               || (r.status == Replaying && r'.status == ReplayFailed && r'.attempts == r.attempts && news == [Event.Parking(id)])
               || (r.status == Replaying && r'.status == Replayed && r'.attempts == r.attempts + 1 && news == [Completion(id)])))
  }

  lemma ChangeIsRowStep(s: State, t: State, d: Delta, id: Id)
    requires Changes(s, t, d) && id in s.rows
    ensures s.history <= t.history && id in t.rows && RowStep(s.rows[id], t.rows[id], id, t.history[|s.history|..])
  {
    HistoryGrows(s, t, d);
    if t.history == s.history {
      assert t.history[|s.history|..] == [];
    } else {
      assert t.history[|s.history|..] == [t.history[|s.history|]];
    }
  }

  /** Every action on every row, and the row a held request starts with. */
  lemma RowChanges(env: Env, s: State, a: Action, id: Id)
    requires Next(env, s, a).Some?
    ensures var t := Next(env, s, a).value;
            && s.history <= t.history
            && (id in s.rows ==> id in t.rows && RowStep(s.rows[id], t.rows[id], id, t.history[|s.history|..]))
            && (id !in s.rows && id in t.rows ==>
                  && t.history == s.history + [Holding(id)]
                  && a.Proxy? && a.step.Store? && a.n in s.requests
                  && var q := s.requests[a.n].request;
                     t.rows[id] == Row(q.agent, q.tool, q.payload, a.step.created, Pending, 0, ""))
  {
    var t := Next(env, s, a).value;
    StepChanges(env, s, a);
    HistoryGrows(s, t, DeltaOf(env, s, a));
    if id in s.rows { ChangeIsRowStep(s, t, DeltaOf(env, s, a), id); }
  }

  lemma LastNews(h: seq<Event>, e: Event)
    ensures (h + [e])[|h|..] == [e]
  {
  }

  /**
   Over every run: directly after an approval the entry is approved under that
   reviewer's name with a fresh attempt count, directly after a denial it is denied
   with its count kept, and what was held is untouched by either.
   */
  lemma VerdictRow(env: Env, run: seq<Action>, a: Action, id: Id, who: string, approve: bool)
    requires After(env, run + [a]).Some? && After(env, run).Some?
    requires After(env, run + [a]).value.history ==
             After(env, run).value.history + [if approve then Approval(id, who) else Denial(id, who)]
    ensures var s, t := After(env, run).value.rows, After(env, run + [a]).value.rows;
            && id in s && id in t
            && t[id] == Row(s[id].agent, s[id].tool, s[id].payload, s[id].created,
                            if approve then Approved else Denied, if approve then 0 else s[id].attempts, who)
  {
    var s, t := After(env, run).value, After(env, run + [a]).value;
    assert (run + [a])[..|run|] == run;
    LastNews(s.history, if approve then Approval(id, who) else Denial(id, who));
    StepChanges(env, s, a);
    VerdictIsDelta(s, t, DeltaOf(env, s, a), id, who, approve);
    RowChanges(env, s, a, id);
  }

  lemma VerdictIsDelta(s: State, t: State, d: Delta, id: Id, who: string, approve: bool)
    requires Changes(s, t, d) && t.history == s.history + [if approve then Approval(id, who) else Denial(id, who)]
    ensures id in s.rows
  {
    var e := if approve then Approval(id, who) else Denial(id, who);
    assert t.history[|s.history|] == e;
  }

  // ----- runs that take the edges -----

  ghost predicate Reaches(env: Env, run: seq<Action>, s: State) {
    After(env, run) == Some(s)
  }

  lemma Then(env: Env, run: seq<Action>, s: State, a: Action, t: State)
    requires Reaches(env, run, s) && Next(env, s, a) == Some(t)
    ensures Reaches(env, run + [a], t)
  {
    assert (run + [a])[..|run|] == run;
  }

  /** The one held action has this status, and nobody is in the middle of anything. */
  ghost predicate Resting(s: State, id: Id, status: Status) {
    && s.rows.Keys == {id} && s.rows[id].status == status && s.rows[id].attempts == 0
    && s.owner == None && PhaseOf(s, 0) == Idle && 0 !in s.requests && 0 !in s.reviews
  }

  /** Replica 0 has claimed the one held action. */
  ghost predicate Working(s: State, id: Id) {
    && s.rows.Keys == {id} && s.rows[id].status == Replaying && s.rows[id].attempts == 0
    && PhaseOf(s, 0) == Draining([Snap(id, s.rows[id])])
    && s.owner == Some(0) && 0 !in s.requests && 0 !in s.reviews
  }

  const HELD := Request("agent", "tool", "payload", "request", Hold)

  lemma Logged(env: Env) returns (run: seq<Action>, s: State)
    ensures Reaches(env, run, s) && s.rows == map[]
    ensures s.requests.Keys == {0} && s.requests[0].Audited? && s.requests[0].request == HELD
    ensures s.owner == None && s.phases == map[] && s.reviews == map[]
  {
    var a := Proxy(0, Log(HELD, Done));
    run, s := [a], Next(env, INIT, a).value;
    assert [] + [a] == [a];
    Then(env, [], INIT, a, s);
  }

  lemma Stored(env: Env, run: seq<Action>, s: State, id: Id) returns (a: Action, t: State)
    requires Reaches(env, run, s) && s.rows == map[]
    requires s.requests.Keys == {0} && s.requests[0].Audited? && s.requests[0].request == HELD
    requires s.owner == None && s.phases == map[] && s.reviews == map[]
    ensures Next(env, s, a) == Some(t) && Reaches(env, run + [a], t) && Resting(t, id, Pending)
  {
    a := Proxy(0, Store(id, 0, Done));
    t := Next(env, s, a).value;
    Then(env, run, s, a, t);
  }

  lemma HoldOne(env: Env, id: Id) returns (run: seq<Action>, s: State)
    ensures Reaches(env, run, s) && Resting(s, id, Pending)
  {
    var r0, s0 := Logged(env);
    var a, t := Stored(env, r0, s0, id);
    run, s := r0 + [a], t;
  }

  /** A reviewer has fetched the action; the update is next. */
  lemma Reviewing(env: Env, run: seq<Action>, s: State, id: Id, status: Status, approve: bool)
    returns (run': seq<Action>, s': State)
    requires Reaches(env, run, s) && Resting(s, id, status)
    ensures Reaches(env, run', s') && s' == s.(reviews := s.reviews[0 := Fetched(id, "who", approve, s.rows[id])])
  {
    var a := Reviewer(0, Fetch(id, "who", approve));
    s' := Next(env, s, a).value;
    run' := run + [a];
    Then(env, run, s, a, s');
  }

  lemma Verdict(env: Env, run: seq<Action>, s: State, id: Id, status: Status, approve: bool)
    returns (run': seq<Action>, s': State, a: Action, t: State)
    requires Reaches(env, run, s) && Resting(s, id, status) && (status == Pending || status == ReplayFailed)
    ensures Reaches(env, run', s') && s'.rows == s.rows
    ensures Next(env, s', a) == Some(t) && t.rows.Keys == {id} && t.rows[id].status == if approve then Approved else Denied
    ensures approve ==> t.rows[id].attempts == 0
    ensures Reaches(env, run' + [a], t) && t.owner == None && PhaseOf(t, 0) == Idle && 0 !in t.requests
  {
    run', s' := Reviewing(env, run, s, id, status, approve);
    a := Reviewer(0, Commit(Done));
    t := Next(env, s', a).value;
    Then(env, run', s', a, t);
  }

  lemma ApproveOne(env: Env, run: seq<Action>, s: State, id: Id, status: Status) returns (run': seq<Action>, s': State)
    requires Reaches(env, run, s) && Resting(s, id, status) && (status == Pending || status == ReplayFailed)
    ensures Reaches(env, run', s') && Resting(s', id, Approved)
  {
    var r1, s1, a, t := Verdict(env, run, s, id, status, true);
    var b := Reviewer(0, Abandon);
    s' := Next(env, t, b).value;
    run' := r1 + [a] + [b];
    Then(env, r1 + [a], t, b, s');
  }

  /** Replica 0 holds the lock and has recovered; the claim is next. */
  lemma Clearing(env: Env, run: seq<Action>, s: State, id: Id) returns (run': seq<Action>, s': State)
    requires Reaches(env, run, s) && Resting(s, id, Approved)
    ensures Reaches(env, run', s') && s'.rows == s.rows
    ensures PhaseOf(s', 0) == Cleared && s'.owner == Some(0) && 0 !in s'.requests && 0 !in s'.reviews
  {
    var a, b := Pass(0, Acquire), Pass(0, Recover(Done));
    var t := Next(env, s, a).value;
    Then(env, run, s, a, t);
    s' := Next(env, t, b).value;
    assert s'.rows == s.rows;
    run' := run + [a] + [b];
    Then(env, run + [a], t, b, s');
  }

  lemma Claiming(env: Env, run: seq<Action>, s: State, id: Id)
    returns (run': seq<Action>, s': State, a: Action, t: State)
    requires env.batchSize > 0 && Reaches(env, run, s) && Resting(s, id, Approved)
    ensures Reaches(env, run', s') && s'.rows == s.rows
    ensures Next(env, s', a) == Some(t) && Reaches(env, run' + [a], t) && Working(t, id)
  {
    run', s' := Clearing(env, run, s, id);
    a := Pass(0, Claim([id], Done));
    assert [id][0] == id && id in [id];
    assert Claimable(s'.rows, [id], env.batchSize);
    t := Next(env, s', a).value;
    assert Snaps(s'.rows, [id]) == [Snap(id, t.rows[id])];
    Then(env, run', s', a, t);
  }

  lemma ClaimOne(env: Env, id: Id) returns (run: seq<Action>, s: State)
    requires env.batchSize > 0
    ensures Reaches(env, run, s) && Working(s, id)
  {
    var r0, s0 := HoldOne(env, id);
    var r1, s1 := ApproveOne(env, r0, s0, id, Pending);
    var r2, s2, a, t := Claiming(env, r1, s1, id);
    run, s := r2 + [a], t;
  }

  /** Policy blocks the claimed action, or the write-ahead entry is lost: a settle is next. */
  lemma Deciding(env: Env, run: seq<Action>, s: State, id: Id, blocked: bool) returns (run': seq<Action>, s': State)
    requires Reaches(env, run, s) && Working(s, id)
    ensures Reaches(env, run', s') && s'.rows == s.rows && s'.owner == s.owner
    ensures s'.requests == s.requests && s'.reviews == s.reviews
    ensures PhaseOf(s', 0) == if blocked then Settling(Snap(id, s.rows[id]), [], Park, "replay_blocked_by_policy")
                              else Permitted(Snap(id, s.rows[id]), [])
  {
    var a := Entry(0, Decide(blocked));
    s' := Next(env, s, a).value;
    run' := run + [a];
    Then(env, run, s, a, s');
  }

  lemma Parking(env: Env, run: seq<Action>, s: State, id: Id)
    returns (run': seq<Action>, s': State, a: Action, t: State)
    requires Reaches(env, run, s) && Working(s, id)
    ensures Reaches(env, run', s') && s'.rows == s.rows
    ensures Next(env, s', a) == Some(t) && Reaches(env, run' + [a], t)
    ensures t.rows.Keys == {id} && t.rows[id].status == ReplayFailed && t.rows[id].attempts == 0
    ensures t.owner == Some(0) && PhaseOf(t, 0).Noting? && PhaseOf(t, 0).rest == [] && 0 !in t.requests && 0 !in t.reviews
  {
    run', s' := Deciding(env, run, s, id, true);
    a := Entry(0, Settle(Done));
    t := Next(env, s', a).value;
    Then(env, run', s', a, t);
  }

  lemma ParkOne(env: Env, run: seq<Action>, s: State, id: Id) returns (run': seq<Action>, s': State)
    requires Reaches(env, run, s) && Working(s, id)
    ensures Reaches(env, run', s') && Resting(s', id, ReplayFailed)
  {
    var r1, s1, a, t := Parking(env, run, s, id);
    var b := Pass(0, Crash);
    s' := Next(env, t, b).value;
    run' := r1 + [a] + [b];
    Then(env, r1 + [a], t, b, s');
  }

  lemma Releasing(env: Env, run: seq<Action>, s: State, id: Id)
    returns (run': seq<Action>, s': State, a: Action, t: State)
    requires Reaches(env, run, s) && Working(s, id)
    ensures Reaches(env, run', s') && s'.rows == s.rows
    ensures Next(env, s', a) == Some(t) && id in t.rows && t.rows[id].status == Approved
  {
    var r1, s1 := Deciding(env, run, s, id, false);
    var b := Entry(0, WriteAhead(Lost));
    s' := Next(env, s1, b).value;
    run' := r1 + [b];
    Then(env, r1, s1, b, s');
    a := Entry(0, Settle(Done));
    t := Next(env, s', a).value;
  }

  /** The write-ahead entry is written and the call sent. */
  lemma Sending(env: Env, run: seq<Action>, s: State, id: Id) returns (run': seq<Action>, s': State)
    requires Reaches(env, run, s) && Working(s, id)
    ensures Reaches(env, run', s') && s'.rows == s.rows
    ensures PhaseOf(s', 0) == Waiting(Snap(id, s.rows[id]), [])
    ensures s'.history != [] && s'.history[|s'.history| - 1].Sent?
    ensures s'.history[|s'.history| - 1].call == CallFor(Snap(id, s.rows[id]))
  {
    var r1, s1 := Deciding(env, run, s, id, false);
    var a, b := Entry(0, WriteAhead(Done)), Entry(0, Send);
    var t := Next(env, s1, a).value;
    Then(env, r1, s1, a, t);
    s' := Next(env, t, b).value;
    run' := r1 + [a] + [b];
    Then(env, r1 + [a], t, b, s');
  }

  /** The upstream carries the call out. */
  lemma CarriedOut(env: Env, run: seq<Action>, s: State, id: Id, snap: Snap) returns (run': seq<Action>, s': State)
    requires Reaches(env, run, s) && PhaseOf(s, 0) == Waiting(snap, []) && snap.id == id
    requires s.history != [] && s.history[|s.history| - 1].Sent? && s.history[|s.history| - 1].call == CallFor(snap)
    ensures Reaches(env, run', s') && s'.rows == s.rows
    ensures PhaseOf(s', 0) == Waiting(snap, []) && Executed(s'.effects, Key(id))
  {
    var a := Upstream(|s.history| - 1);
    s' := Next(env, s, a).value;
    assert Executed(s.effects, Key(id)) || s'.effects[|s.effects|].key == Key(id);
    run' := run + [a];
    Then(env, run, s, a, s');
  }

  lemma Completing(env: Env, run: seq<Action>, s: State, id: Id)
    returns (run': seq<Action>, s': State, a: Action, t: State)
    requires Reaches(env, run, s) && Working(s, id)
    ensures Reaches(env, run', s') && s'.rows == s.rows
    ensures Next(env, s', a) == Some(t) && id in t.rows && t.rows[id].status == Replayed
  {
    var r1, s1 := Sending(env, run, s, id);
    var r2, s2 := CarriedOut(env, r1, s1, id, Snap(id, s.rows[id]));
    var b := Entry(0, Answer(true, ""));
    s' := Next(env, s2, b).value;
    run' := r2 + [b];
    Then(env, r2, s2, b, s');
    a := Entry(0, Settle(Done));
    t := Next(env, s', a).value;
  }

  /** Some action of some run takes this edge. */
  ghost predicate Takes(env: Env, run: seq<Action>, a: Action, id: Id, before: Option<Status>, after: Option<Status>) {
    && After(env, run).Some? && Next(env, After(env, run).value, a).Some?
    && StatusOf(After(env, run).value.rows, id) == before != after
    && StatusOf(Next(env, After(env, run).value, a).value.rows, id) == after
  }

  lemma PendingEdge(env: Env, id: Id) returns (run: seq<Action>, a: Action)
    ensures Takes(env, run, a, id, None, Some(Pending))
  {
    var r, s := Logged(env);
    var b, t := Stored(env, r, s, id);
    run, a := r, b;
  }

  lemma VerdictEdge(env: Env, id: Id, parked: bool, approve: bool) returns (run: seq<Action>, a: Action)
    requires env.batchSize > 0
    ensures Takes(env, run, a, id, Some(if parked then ReplayFailed else Pending), Some(if approve then Approved else Denied))
  {
    var r, s;
    if parked {
      var r0, s0 := ClaimOne(env, id);
      r, s := ParkOne(env, r0, s0, id);
    } else {
      r, s := HoldOne(env, id);
    }
    var r1, s1, b, t := Verdict(env, r, s, id, if parked then ReplayFailed else Pending, approve);
    run, a := r1, b;
  }

  lemma ClaimEdge(env: Env, id: Id) returns (run: seq<Action>, a: Action)
    requires env.batchSize > 0
    ensures Takes(env, run, a, id, Some(Approved), Some(Replaying))
  {
    var r0, s0 := HoldOne(env, id);
    var r1, s1 := ApproveOne(env, r0, s0, id, Pending);
    var r2, s2, b, t := Claiming(env, r1, s1, id);
    run, a := r2, b;
  }

  lemma SettleEdge(env: Env, id: Id, op: Op) returns (run: seq<Action>, a: Action)
    requires env.batchSize > 0
    ensures Takes(env, run, a, id, Some(Replaying),
                  Some(match op case Park => ReplayFailed case Release => Approved case Complete => Replayed))
  {
    var r0, s0 := ClaimOne(env, id);
    var r1, s1, b, t;
    match op {
      case Park => r1, s1, b, t := Parking(env, r0, s0, id);
      case Release => r1, s1, b, t := Releasing(env, r0, s0, id);
      case Complete => r1, s1, b, t := Completing(env, r0, s0, id);
    }
    run, a := r1, b;
  }

  lemma EdgeIsTaken(env: Env, id: Id, before: Option<Status>, after: Option<Status>) returns (run: seq<Action>, a: Action)
    requires env.batchSize > 0 && Edge(before, after)
    ensures Takes(env, run, a, id, before, after)
  {
    match before {
      case None => run, a := PendingEdge(env, id);
      case Some(Approved) => run, a := ClaimEdge(env, id);
      case Some(Replaying) =>
        run, a := SettleEdge(env, id, if after == Some(ReplayFailed) then Park else if after == Some(Approved) then Release else Complete);
      case Some(status) => run, a := VerdictEdge(env, id, status == ReplayFailed, after == Some(Approved));
    }
  }

  /**
   The status machine: over all runs, the changes of an entry's status by one action
   are exactly the edges. The documented diagram draws all of them but two, from parked
   to denied and from replaying back to approved, and nothing else.
   */
  lemma EdgesAreExact(env: Env, id: Id, before: Option<Status>, after: Option<Status>)
    requires env.batchSize > 0
    ensures Edge(before, after) <==> exists run, a :: Takes(env, run, a, id, before, after)
    ensures before.Some? && after.Some? ==>
              (Edge(before, after) <==>
               || Drawn(before.value, after.value)
               || (before.value == ReplayFailed && after.value == Denied)
               || (before.value == Replaying && after.value == Approved))
  {
    if Edge(before, after) {
      var run, a := EdgeIsTaken(env, id, before, after);
    }
    forall run, a | Takes(env, run, a, id, before, after)
      ensures Edge(before, after)
    {
      OnlyEdges(env, After(env, run).value, a, id);
    }
  }
}
