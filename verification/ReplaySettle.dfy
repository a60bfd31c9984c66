/**
 How an entry is settled. The row after a settle is a function of the row that was
 claimed and of what happened since: what policy said, whether the write-ahead entry
 was acknowledged, and how the call ended. Over a whole approval this fixes the number
 of calls an entry gets before it is parked.
 */
module ReplaySettle {
  import opened Options
  import opened Quarantine
  import opened Replay
  import opened ReplaySteps
  import opened ReplayOwnership
  import opened ReplayBudget

  /** A replica's own steps on entries in a run, from a position on. */
  function Mine(run: seq<Action>, from_: nat, me: Replica): seq<EntryAct> {
    if |run| <= from_ then []
    else
      var a := run[|run| - 1];
      Mine(run[..|run| - 1], from_, me) + if a.Entry? && a.r == me then [a.work] else []
  }

  /** What has happened to the entry in hand so far. */
  datatype Story =
    | Unheard
    | Judged(blocked: bool)
    | AuditFailed
    | AuditOk
    | CallFailed(sent: bool, outcome: string)
    | CallConfirmed

  /** The story told by a replica's steps. */
  function Told(acts: seq<EntryAct>): Story {
    if acts == [] then Unheard
    else
      match acts[|acts| - 1]
      case Decide(blocked) => Judged(blocked)
      case WriteAhead(fault) => if fault == Done then AuditOk else AuditFailed
      case SendFails => CallFailed(false, "replay_error")
      case Answer(ok, outcome) => if ok then CallConfirmed else CallFailed(true, outcome)
      case _ => Told(acts[..|acts| - 1])
  }

  lemma ToldPush(acts: seq<EntryAct>, a: EntryAct)
    ensures Told(acts + [a]) ==
            match a
            case Decide(blocked) => Judged(blocked)
            case WriteAhead(fault) => if fault == Done then AuditOk else AuditFailed
            case SendFails => CallFailed(false, "replay_error")
            case Answer(ok, outcome) => if ok then CallConfirmed else CallFailed(true, outcome)
            case _ => Told(acts)
  {
    assert (acts + [a])[..|acts|] == acts;
  }

  /**
   The row a settle leaves: replayed if the call was confirmed; parked, attempts
   unchanged, if it came in past the limit, was blocked by policy, or failed at the
   limit; otherwise approved again. A confirmed or released attempt is counted.
   */
  function RowAfter(env: Env, row: Row, told: Story): Row {
    if told.CallConfirmed? then
      Row(row.agent, row.tool, row.payload, row.created, Replayed, row.attempts + 1, row.resolvedBy)
    else if row.attempts > env.maxAttempts || told == Judged(true) || (told.CallFailed? && row.attempts == env.maxAttempts) then
      Row(row.agent, row.tool, row.payload, row.created, ReplayFailed, row.attempts, row.resolvedBy)
    else
      Row(row.agent, row.tool, row.payload, row.created, Approved, row.attempts + 1, row.resolvedBy)
  }

  /** What the ledger is told once the settle is acknowledged; nothing after a failed attempt, which has its own entry. */
  function NoteFor(env: Env, row: Row, told: Story): string {
    if told.CallConfirmed? then "approved_replayed"
    else if row.attempts > env.maxAttempts then "replay_exhausted"
    else if told == Judged(true) then "replay_blocked_by_policy"
    else ""
  }

  /** The phase of a pass agrees with the story of its entry. */
  predicate Fits(env: Env, p: Phase, told: Story) {
    match p
    case Permitted(cur, _) => told == Judged(false) && cur.row.attempts <= env.maxAttempts
    case Starting(cur, _, _) => told == AuditOk && cur.row.attempts <= env.maxAttempts
    case Waiting(cur, _) => told == AuditOk && cur.row.attempts <= env.maxAttempts
    case Failing(cur, _, outcome) => told.CallFailed? && told.outcome == outcome && cur.row.attempts <= env.maxAttempts
    case Settling(cur, _, op, note) => Settled(cur.row, op) == RowAfter(env, cur.row, told) && note == NoteFor(env, cur.row, told)
    case Noting(cur, _, note) => note == NoteFor(env, cur.row, told)
    case _ => true
  }

  lemma EntryFits(env: Env, s: State, p: Phase, a: EntryAct, acts: seq<EntryAct>)
    requires Fits(env, p, Told(acts)) && EntryStep(env, s, p, a).Some?
    ensures Fits(env, EntryStep(env, s, p, a).value.1, Told(acts + [a]))
  {
    ToldPush(acts, a);
  }

  lemma MinePush(run: seq<Action>, a: Action, r: Replica)
    ensures Mine(run + [a], 0, r) == if a.Entry? && a.r == r then Mine(run, 0, r) + [a.work] else Mine(run, 0, r)
  {
    assert (run + [a])[..|run|] == run;
  }

  lemma StepFits(env: Env, s: State, a: Action, r: Replica, acts: seq<EntryAct>)
    requires Ownership(env, s) && Fits(env, PhaseOf(s, r), Told(acts)) && Next(env, s, a).Some?
    ensures Fits(env, PhaseOf(Next(env, s, a).value, r), Told(if a.Entry? && a.r == r then acts + [a.work] else acts))
  {
    match a {
      case Pass(o, pass) => if o != r { PassLeavesOthers(env, s, o, pass, r); }
      case Entry(o, work) =>
        if o == r { EntryFits(env, s, PhaseOf(s, r), work, acts); } else { EntryLeavesOthers(env, s, o, work, r); }
      case Proxy(n, step) => ProxySpares(env, s, n, step);
      case Reviewer(n, act) => ReviewerSpares(env, s, n, act);
      case Upstream(_) =>
    }
  }

  ghost predicate AllFit(env: Env, s: State, run: seq<Action>) {
    forall r: Replica :: Fits(env, PhaseOf(s, r), Told(Mine(run, 0, r)))
  }

  lemma AllFitPush(env: Env, s: State, past: seq<Action>, a: Action, t: State, run: seq<Action>)
    requires Ownership(env, s) && AllFit(env, s, past) && Next(env, s, a) == Some(t) && run == past + [a]
    ensures AllFit(env, t, run)
  {
    forall r: Replica
      ensures Fits(env, PhaseOf(t, r), Told(Mine(run, 0, r)))
    {
      MinePush(past, a, r);
      StepFits(env, s, a, r, Mine(past, 0, r));
    }
  }

  /** In every reachable state each pass agrees with the story of its own steps. */
  lemma {:induction false} AllFitAlways(env: Env, run: seq<Action>)
    requires After(env, run).Some?
    ensures AllFit(env, After(env, run).value, run)
  {
    if run == [] {
    } else {
      var past, a := run[..|run| - 1], run[|run| - 1];
      var s, t := After(env, past).value, After(env, run).value;
      assert run == past + [a] && Next(env, s, a) == Some(t);
      AllFitAlways(env, past);
      OwnershipAlways(env, past);
      AllFitPush(env, s, past, a, t, run);
    }
  }

  lemma FitsAlways(env: Env, run: seq<Action>, r: Replica)
    requires After(env, run).Some?
    ensures Fits(env, PhaseOf(After(env, run).value, r), Told(Mine(run, 0, r)))
  {
    AllFitAlways(env, run);
  }

  /**
   Over every run, a settle that is applied turns exactly the row that was claimed
   into the row its story calls for, and records a parking or a completion exactly
   when that row is parked or replayed; a lost one changes nothing.
   */
  lemma SettledRow(env: Env, run: seq<Action>, r: Replica, fault: Fault)
    requires After(env, run).Some? && EntryNext(env, After(env, run).value, r, Settle(fault)).Some?
    ensures var s, t := After(env, run).value, EntryNext(env, After(env, run).value, r, Settle(fault)).value;
            var entry := PhaseOf(s, r).cur;
            var row := RowAfter(env, entry.row, Told(Mine(run, 0, r)));
            && entry.id in s.rows && s.rows[entry.id] == entry.row
            && t.rows == (if fault == Lost then s.rows else s.rows[entry.id := row])
            && t.history == s.history +
                 if fault == Lost || row.status == Approved then []
                 else if row.status == ReplayFailed then [Parking(entry.id)] else [Completion(entry.id)]
  {
    var s := After(env, run).value;
    var p := PhaseOf(s, r);
    FitsAlways(env, run, r);
    OwnershipAlways(env, run);
    OwnPhase(env, s, r);
    Tail(s.rows, p.cur, p.rest);
  }

  // ----- how many calls an approval gets -----

  /**
   Since the entry's last approval every claim of it ended in a failed call whose
   settle was applied: no recovery interrupted one, none was blocked, deferred for
   want of an audit entry, or given up before sending.
   */
  ghost predicate Undisturbed(env: Env, run: seq<Action>, id: Id)
    requires After(env, run).Some?
  {
    if run == [] then true
    else
      var past, a := run[..|run| - 1], run[|run| - 1];
      var s := After(env, past).value;
      Approves(env, s, a, id) || (!Disturbs(s, past, a, id) && Undisturbed(env, past, id))
  }

  ghost predicate Approves(env: Env, s: State, a: Action, id: Id)
    requires Next(env, s, a).Some?
  {
    DeltaOf(env, s, a).Verdict? && DeltaOf(env, s, a).approve && DeltaOf(env, s, a).id == id
  }

  ghost predicate Disturbs(s: State, past: seq<Action>, a: Action, id: Id) {
    || (a.Pass? && a.pass.Recover? && a.pass.fault != Lost && Claimed(s.rows, id))
    || (&& a.Entry? && a.work.Settle? && PhaseOf(s, a.r).Settling? && PhaseOf(s, a.r).cur.id == id
        && (a.work.fault == Lost || !CalledAndFailed(Told(Mine(past, 0, a.r)))))
  }

  predicate CalledAndFailed(told: Story) {
    told.CallFailed? && told.sent
  }

  /** The entry in hand has been sent on this claim and is not settled yet. */
  predicate HasSent(p: Phase, told: Story) {
    || p.Waiting?
    || (p.Failing? && CalledAndFailed(told))
    || (p.Settling? && (CalledAndFailed(told) || told.CallConfirmed?))
  }

  /** The attempt count is the number of calls: before this claim's call, or with it. */
  ghost predicate PassExact(p: Phase, told: Story, h: seq<Event>, id: Id) {
    && (forall i :: 0 <= i < |Unsent(p)| && Unsent(p)[i].id == id ==> CallsSince(h, id) == Unsent(p)[i].row.attempts)
    && (HasSent(p, told) && p.cur.id == id ==> CallsSince(h, id) == p.cur.row.attempts + 1)
  }

  ghost predicate Exact(s: State, run: seq<Action>, id: Id) {
    && (id in s.rows && s.rows[id].status == Approved ==> CallsSince(s.history, id) == s.rows[id].attempts)
    && (forall r: Replica :: PassExact(PhaseOf(s, r), Told(Mine(run, 0, r)), s.history, id))
  }

  /** An entry that is not claimed is in nobody's hands. */
  lemma NotInHand(env: Env, s: State, r: Replica, told: Story, h: seq<Event>, id: Id)
    requires Ownership(env, s) && !Claimed(s.rows, id)
    ensures PassExact(PhaseOf(s, r), told, h, id)
  {
    OwnPhase(env, s, r);
    var p := PhaseOf(s, r);
    forall i | 0 <= i < |Unsent(p)|
      ensures Unsent(p)[i].id != id
    {
      UnsentUnprocessed(p, i);
    }
    if HasSent(p, told) { assert Unprocessed(p)[0] == p.cur; }
  }

  lemma UnsentUnprocessed(p: Phase, i: nat)
    requires i < |Unsent(p)|
    ensures exists j :: 0 <= j < |Unprocessed(p)| && Unprocessed(p)[j] == Unsent(p)[i]
  {
    if p.Waiting? || p.Failing? || p.Settling? {
      assert Unprocessed(p)[i + 1] == Unsent(p)[i];
    } else {
      assert Unprocessed(p)[i] == Unsent(p)[i];
    }
  }

  lemma ApprovalExact(env: Env, s: State, a: Action, run: seq<Action>, id: Id)
    requires Ownership(env, s) && Next(env, s, a).Some? && Approves(env, s, a, id)
    ensures Exact(Next(env, s, a).value, run, id)
  {
    var t := Next(env, s, a).value;
    StepChanges(env, s, a);
    StepKeepsOwnership(env, s, a);
    CountsOnlyItsEntry(s, t, DeltaOf(env, s, a), id);
    forall r: Replica
      ensures PassExact(PhaseOf(t, r), Told(Mine(run, 0, r)), t.history, id)
    {
      NotInHand(env, t, r, Told(Mine(run, 0, r)), t.history, id);
    }
  }

  /** Without a call and without an approval the count stands still. */
  lemma CountStays(s: State, t: State, d: Delta, id: Id)
    requires Changes(s, t, d) && !(d.Verdict? && d.approve && d.id == id)
    requires !(d.Issued? && d.call.ReplayCall? && d.call.id == id)
    ensures CallsSince(t.history, id) == CallsSince(s.history, id)
  {
    HistoryGrows(s, t, d);
    if t.history != s.history { CallsSincePush(s.history, t.history[|s.history|], id); }
  }

  /** A row becomes approved only by an approval, a recovery or a release, and otherwise keeps its count. */
  lemma ApprovedStays(s: State, t: State, d: Delta, id: Id)
    requires Changes(s, t, d) && !(d.Verdict? && d.approve && d.id == id) && !(d.Moved? && d.id == id)
    requires !(d.Swept? && Claimed(s.rows, id))
    requires id in t.rows && t.rows[id].status == Approved
    ensures id in s.rows && s.rows[id].status == Approved && s.rows[id].attempts == t.rows[id].attempts
  {
  }

  lemma PassStepExact(env: Env, s: State, run: seq<Action>, r: Replica, a: PassAct, id: Id)
    requires Exact(s, run, id) && PassNext(env, s, r, a).Some?
    requires !Disturbs(s, run, Pass(r, a), id)
    ensures Exact(PassNext(env, s, r, a).value, run + [Pass(r, a)], id)
  {
    var t, d := PassNext(env, s, r, a).value, PassDelta(env, s, r, a);
    PassChanges(env, s, r, a);
    assert t.history == s.history;
    CountStays(s, t, d, id);
    if id in t.rows && t.rows[id].status == Approved { ApprovedStays(s, t, d, id); }
    forall o: Replica
      ensures PassExact(PhaseOf(t, o), Told(Mine(run + [Pass(r, a)], 0, o)), t.history, id)
    {
      MinePush(run, Pass(r, a), o);
      if o == r { OwnPassExact(env, s, run, r, a, id); } else {
        PassLeavesOthers(env, s, r, a, o);
        assert PassExact(PhaseOf(s, o), Told(Mine(run, 0, o)), s.history, id);
      }
    }
  }

  lemma OwnPassExact(env: Env, s: State, run: seq<Action>, r: Replica, a: PassAct, id: Id)
    requires Exact(s, run, id) && PassNext(env, s, r, a).Some?
    ensures var t := PassNext(env, s, r, a).value;
            PassExact(PhaseOf(t, r), Told(Mine(run, 0, r)), s.history, id)
  {
    var t := PassNext(env, s, r, a).value;
    var p := PhaseOf(t, r);
    if p.Draining? {
      forall i | 0 <= i < |p.batch| && p.batch[i].id == id
        ensures CallsSince(s.history, id) == p.batch[i].row.attempts
      {
        assert a.ids[i] in a.ids;
      }
    }
  }

  /** A step on an entry, for the replica that takes it. */
  lemma OwnEntryExact(env: Env, s: State, p: Phase, a: EntryAct, acts: seq<EntryAct>, id: Id)
    requires AllHeld(s.rows, Unprocessed(p)) && Fits(env, p, Told(acts)) && EntryStep(env, s, p, a).Some?
    requires PassExact(p, Told(acts), s.history, id)
    ensures var (t, p') := EntryStep(env, s, p, a).value;
            PassExact(p', Told(acts + [a]), t.history, id)
  {
    var (t, p') := EntryStep(env, s, p, a).value;
    ToldPush(acts, a);
    EntryChanges(env, s, p, a);
    UnsentShrinks(env, s, p, a);
    if a.Send? {
      CallsSincePush(s.history, Sent(CallFor(p.cur), p.at), id);
      assert Unsent(p)[0] == p.cur;
    } else {
      CountStays(s, t, EntryDelta(env, s, p, a), id);
    }
    forall i | 0 <= i < |Unsent(p')| && Unsent(p')[i].id == id
      ensures CallsSince(t.history, id) == Unsent(p')[i].row.attempts
    {
      var j :| 0 <= j < |Unsent(p)| && Unsent(p)[j] == Unsent(p')[i];
    }
  }

  /** Settling after a failed call counts it. */
  lemma SettleExact(env: Env, s: State, p: Phase, fault: Fault, acts: seq<EntryAct>, id: Id)
    requires p.Settling? && AllHeld(s.rows, Unprocessed(p)) && Fits(env, p, Told(acts))
    requires PassExact(p, Told(acts), s.history, id)
    requires p.cur.id == id ==> fault != Lost && CalledAndFailed(Told(acts))
    requires id in s.rows && s.rows[id].status == Approved ==> CallsSince(s.history, id) == s.rows[id].attempts
    ensures var t := EntryStep(env, s, p, Settle(fault)).value.0;
            id in t.rows && t.rows[id].status == Approved ==> CallsSince(t.history, id) == t.rows[id].attempts
  {
    var t := EntryStep(env, s, p, Settle(fault)).value.0;
    Tail(s.rows, p.cur, p.rest);
    EntryChanges(env, s, p, Settle(fault));
    CountStays(s, t, EntryDelta(env, s, p, Settle(fault)), id);
  }

  /** Other steps on an entry do not touch the table, and send only what is claimed. */
  lemma OtherEntryExact(env: Env, s: State, p: Phase, a: EntryAct, id: Id)
    requires AllHeld(s.rows, Unprocessed(p)) && EntryStep(env, s, p, a).Some? && !a.Settle?
    ensures var t := EntryStep(env, s, p, a).value.0;
            t.rows == s.rows && (id in s.rows && s.rows[id].status == Approved ==> CallsSince(t.history, id) == CallsSince(s.history, id))
  {
    var t := EntryStep(env, s, p, a).value.0;
    EntryChanges(env, s, p, a);
    if a.Send? {
      Tail(s.rows, p.cur, p.rest);
      CallsSincePush(s.history, Sent(CallFor(p.cur), p.at), id);
    } else {
      CountStays(s, t, EntryDelta(env, s, p, a), id);
    }
  }

  lemma EntryTableExact(env: Env, s: State, run: seq<Action>, r: Replica, a: EntryAct, id: Id)
    requires Ownership(env, s) && Exact(s, run, id) && Fits(env, PhaseOf(s, r), Told(Mine(run, 0, r)))
    requires EntryNext(env, s, r, a).Some? && !Disturbs(s, run, Entry(r, a), id)
    ensures var t := EntryNext(env, s, r, a).value;
            id in t.rows && t.rows[id].status == Approved ==> CallsSince(t.history, id) == t.rows[id].attempts
  {
    var p := PhaseOf(s, r);
    OwnPhase(env, s, r);
    if a.Settle? {
      assert PassExact(p, Told(Mine(run, 0, r)), s.history, id);
      SettleExact(env, s, p, a.fault, Mine(run, 0, r), id);
    } else {
      OtherEntryExact(env, s, p, a, id);
    }
  }

  lemma EntryHandsExact(env: Env, s: State, run: seq<Action>, r: Replica, a: EntryAct, id: Id, o: Replica)
    requires Ownership(env, s) && Exact(s, run, id) && Fits(env, PhaseOf(s, r), Told(Mine(run, 0, r)))
    requires EntryNext(env, s, r, a).Some?
    ensures var t := EntryNext(env, s, r, a).value;
            PassExact(PhaseOf(t, o), Told(Mine(run + [Entry(r, a)], 0, o)), t.history, id)
  {
    MinePush(run, Entry(r, a), o);
    if o == r {
      OwnPhase(env, s, r);
      OwnEntryExact(env, s, PhaseOf(s, r), a, Mine(run, 0, r), id);
    } else {
      EntryLeavesOthers(env, s, r, a, o);
    }
  }

  lemma EntryStepExact(env: Env, s: State, run: seq<Action>, r: Replica, a: EntryAct, id: Id)
    requires Ownership(env, s) && Exact(s, run, id) && Fits(env, PhaseOf(s, r), Told(Mine(run, 0, r)))
    requires EntryNext(env, s, r, a).Some? && !Disturbs(s, run, Entry(r, a), id)
    ensures Exact(EntryNext(env, s, r, a).value, run + [Entry(r, a)], id)
  {
    var t := EntryNext(env, s, r, a).value;
    EntryTableExact(env, s, run, r, a, id);
    forall o: Replica
      ensures PassExact(PhaseOf(t, o), Told(Mine(run + [Entry(r, a)], 0, o)), t.history, id)
    {
      EntryHandsExact(env, s, run, r, a, id, o);
    }
  }

  lemma BystanderExact(env: Env, s: State, run: seq<Action>, a: Action, id: Id)
    requires Exact(s, run, id) && !a.Pass? && !a.Entry? && Next(env, s, a).Some? && !Approves(env, s, a, id)
    ensures Exact(Next(env, s, a).value, run + [a], id)
  {
    var t, d := Next(env, s, a).value, DeltaOf(env, s, a);
    match a {
      case Proxy(n, step) => ProxySpares(env, s, n, step);
      case Reviewer(n, act) => ReviewerSpares(env, s, n, act);
      case Upstream(_) =>
    }
    StepChanges(env, s, a);
    CountStays(s, t, d, id);
    if id in t.rows && t.rows[id].status == Approved { ApprovedStays(s, t, d, id); }
    forall o: Replica
      ensures PassExact(PhaseOf(t, o), Told(Mine(run + [a], 0, o)), t.history, id)
    {
      MinePush(run, a, o);
      assert PassExact(PhaseOf(s, o), Told(Mine(run, 0, o)), s.history, id);
    }
  }

  lemma {:induction false} ExactAlways(env: Env, run: seq<Action>, id: Id)
    requires After(env, run).Some? && Undisturbed(env, run, id)
    ensures Exact(After(env, run).value, run, id)
  {
    if run == [] {
    } else {
      var past, a := run[..|run| - 1], run[|run| - 1];
      var s := After(env, past).value;
      assert run == past + [a];
      OwnershipAlways(env, past);
      if Approves(env, s, a, id) {
        ApprovalExact(env, s, a, run, id);
      } else {
        ExactAlways(env, past, id);
        match a {
          case Pass(r, pass) => PassStepExact(env, s, past, r, pass, id);
          case Entry(r, work) =>
            FitsAlways(env, past, r);
            EntryStepExact(env, s, past, r, work, id);
          case _ => BystanderExact(env, s, past, a, id);
        }
      }
    }
  }

  /**
   The retry rule: when every call of an approved entry fails and every settle is
   applied, the entry goes back to approved until exactly maxAttempts + 1 calls have
   been made under the approval, and is parked at that one.
   */
  lemma RetriedExactly(env: Env, run: seq<Action>, r: Replica, fault: Fault)
    requires After(env, run).Some? && EntryNext(env, After(env, run).value, r, Settle(fault)).Some? && fault != Lost
    requires Undisturbed(env, run, PhaseOf(After(env, run).value, r).cur.id)
    requires CalledAndFailed(Told(Mine(run, 0, r)))
    ensures var t, entry := EntryNext(env, After(env, run).value, r, Settle(fault)).value, PhaseOf(After(env, run).value, r).cur;
            var calls := CallsSince(t.history, entry.id);
            && entry.id in t.rows && calls == entry.row.attempts + 1
            && (t.rows[entry.id].status == ReplayFailed <==> calls == env.maxAttempts + 1)
            && (t.rows[entry.id].status == Approved <==> calls <= env.maxAttempts)
  {
    var s := After(env, run).value;
    var p := PhaseOf(s, r);
    var t, id := EntryNext(env, s, r, Settle(fault)).value, p.cur.id;
    ExactAlways(env, run, id);
    assert PassExact(p, Told(Mine(run, 0, r)), s.history, id);
    SettledRow(env, run, r, fault);
    OwnershipAlways(env, run);
    OwnPhase(env, s, r);
    EntryChanges(env, s, p, Settle(fault));
    CountStays(s, EntryStep(env, s, p, Settle(fault)).value.0, EntryDelta(env, s, p, Settle(fault)), id);
    BudgetAlways(env, run);
    assert Paid(env, s.rows, s.history, id);
  }
}
