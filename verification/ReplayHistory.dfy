/**
 What the recorded history of every run satisfies: verdicts, parkings and
 completions balance, and every replay names the reviewer who approved it last.
 */
module ReplayHistory {
  import opened Options
  import opened Quarantine
  import opened Replay
  import opened ReplaySteps
  import opened ReplayOwnership

  datatype Mark = Approvals | Denials | Parkings | Completions

  predicate Marks(e: Event, id: Id, k: Mark) {
    match k
    case Approvals => e.Approval? && e.id == id
    case Denials => e.Denial? && e.id == id
    case Parkings => e.Parking? && e.id == id
    case Completions => e.Completion? && e.id == id
  }

  /** How often a kind of event happened to an entry. */
  function Count(h: seq<Event>, id: Id, k: Mark): nat {
    if h == [] then 0
    else Count(h[..|h| - 1], id, k) + if Marks(h[|h| - 1], id, k) then 1 else 0
  }

  /** The reviewer of the entry's most recent approval. */
  function LastApprover(h: seq<Event>, id: Id): Option<string> {
    if h == [] then None
    else
      var e := h[|h| - 1];
      if e.Approval? && e.id == id then Some(e.who) else LastApprover(h[..|h| - 1], id)
  }

  lemma CountPush(h: seq<Event>, e: Event, id: Id, k: Mark)
    ensures Count(h + [e], id, k) == Count(h, id, k) + if Marks(e, id, k) then 1 else 0
    ensures LastApprover(h + [e], id) == if e.Approval? && e.id == id then Some(e.who) else LastApprover(h, id)
  {
    assert (h + [e])[..|h|] == h;
  }

  /** The status fixes the four counts: the protocol loses and invents no round. */
  predicate Balanced(t: Table, h: seq<Event>, id: Id) {
    var a, d, f, c := Count(h, id, Approvals), Count(h, id, Denials), Count(h, id, Parkings), Count(h, id, Completions);
    if id !in t then a == d == f == c == 0
    else
      match t[id].status
      case Pending => a == d == f == c == 0
      case Approved => a == f + 1 && d == c == 0
      case Replaying => a == f + 1 && d == c == 0
      case ReplayFailed => a == f && f >= 1 && d == c == 0
      case Denied => d == 1 && a == f && c == 0
      case Replayed => c == 1 && a == f + 1 && d == 0
  }

  /** An entry under approval carries the approving reviewer. */
  predicate Attributed(t: Table, h: seq<Event>, id: Id) {
    id in t && t[id].status != Pending && t[id].status != Denied ==>
      LastApprover(h, id) == Some(t[id].resolvedBy)
  }

  /** What must be true of the past when an event is recorded. */
  predicate Justified(past: seq<Event>, e: Event) {
    && (e.Sent? && e.call.ReplayCall? ==>
          && Count(past, e.call.id, Denials) == 0
          && Count(past, e.call.id, Completions) == 0
          && Count(past, e.call.id, Approvals) == Count(past, e.call.id, Parkings) + 1
          && LastApprover(past, e.call.id).Some?
          && e.call.approver == Label(LastApprover(past, e.call.id).value))
    && (e.Approval? || e.Denial? ==>
          && Count(past, e.id, Denials) == 0
          && Count(past, e.id, Approvals) == Count(past, e.id, Parkings))
  }

  predicate AllJustified(h: seq<Event>) {
    h == [] || (AllJustified(h[..|h| - 1]) && Justified(h[..|h| - 1], h[|h| - 1]))
  }

  ghost predicate Recorded(s: State) {
    && (forall id :: Balanced(s.rows, s.history, id) && Attributed(s.rows, s.history, id))
    && AllJustified(s.history)
  }

  lemma PushAll(h: seq<Event>, e: Event, id: Id)
    ensures forall k :: Count(h + [e], id, k) == Count(h, id, k) + if Marks(e, id, k) then 1 else 0
    ensures LastApprover(h + [e], id) == if e.Approval? && e.id == id then Some(e.who) else LastApprover(h, id)
  {
    forall k ensures Count(h + [e], id, k) == Count(h, id, k) + if Marks(e, id, k) then 1 else 0 {
      CountPush(h, e, id, k);
    }
    CountPush(h, e, id, Approvals);
  }

  lemma UntouchedKeepsBalance(s: State, t: State, e: Event, id: Id)
    requires t.history == s.history || t.history == s.history + [e]
    requires e.Audit? || e.Sent? || e.Holding? || e.id != id
    requires id in t.rows <==> id in s.rows
    requires id in t.rows ==> t.rows[id] == s.rows[id]
    requires Balanced(s.rows, s.history, id) && Attributed(s.rows, s.history, id)
    ensures Balanced(t.rows, t.history, id) && Attributed(t.rows, t.history, id)
  {
    PushAll(s.history, e, id);
  }

  lemma VerdictKeepsBalance(s: State, t: State, id: Id, who: string, approve: bool)
    requires Changes(s, t, Verdict(id, who, approve))
    requires Balanced(s.rows, s.history, id)
    ensures Balanced(t.rows, t.history, id) && Attributed(t.rows, t.history, id)
  {
    PushAll(s.history, if approve then Approval(id, who) else Denial(id, who), id);
  }

  lemma MoveKeepsBalance(s: State, t: State, id: Id, op: Op)
    requires Changes(s, t, Moved(id, op))
    requires Balanced(s.rows, s.history, id) && Attributed(s.rows, s.history, id)
    ensures Balanced(t.rows, t.history, id) && Attributed(t.rows, t.history, id)
  {
    PushAll(s.history, if op == Park then Parking(id) else Completion(id), id);
    if op == Release { assert t.history == s.history; }
  }

  lemma ChangeKeepsBalance(s: State, t: State, d: Delta, id: Id)
    requires Changes(s, t, d)
    requires Balanced(s.rows, s.history, id) && Attributed(s.rows, s.history, id)
    ensures Balanced(t.rows, t.history, id) && Attributed(t.rows, t.history, id)
  {
    match d {
      case Same => UntouchedKeepsBalance(s, t, Holding(id), id);
      case Logged(entry) => UntouchedKeepsBalance(s, t, entry, id);
      case Issued(call, at) => UntouchedKeepsBalance(s, t, Sent(call, at), id);
      case Created(other, _) => PushAll(s.history, Holding(other), id);
      case Verdict(other, who, approve) =>
        if other == id {
          VerdictKeepsBalance(s, t, id, who, approve);
        } else {
          UntouchedKeepsBalance(s, t, t.history[|s.history|], id);
        }
      case Moved(other, op) =>
        if other == id {
          MoveKeepsBalance(s, t, id, op);
        } else {
          UntouchedKeepsBalance(s, t, if op == Park then Parking(other) else Completion(other), id);
        }
      case Swept =>
      case Taken(ids) =>
    }
  }

  /** A replay is sent only for a row that is 'replaying' and within its limit. */
  lemma SendIsHeld(env: Env, s: State, a: Action)
    requires Ownership(env, s)
    requires Next(env, s, a).Some?
    requires DeltaOf(env, s, a).Issued? && DeltaOf(env, s, a).call.ReplayCall?
    ensures a.Entry? && a.work.Send?
    ensures var p, call := PhaseOf(s, a.r), DeltaOf(env, s, a).call;
            && p.Starting? && call == CallFor(p.cur)
            && Held(s.rows, p.cur) && p.cur.row.attempts <= env.maxAttempts
  {
    var p := PhaseOf(s, a.r);
    OwnPhase(env, s, a.r);
    Tail(s.rows, p.cur, p.rest);
  }

  lemma PushJustified(h: seq<Event>, e: Event)
    requires AllJustified(h) && Justified(h, e)
    ensures AllJustified(h + [e])
  {
    assert (h + [e])[..|h|] == h;
  }

  lemma ChangeJustified(s: State, t: State, d: Delta)
    requires Changes(s, t, d) && Recorded(s)
    requires d.Issued? ==> Justified(s.history, Sent(d.call, d.at))
    ensures AllJustified(t.history)
  {
    match d {
      case Logged(entry) => PushJustified(s.history, entry);
      case Issued(call, at) => PushJustified(s.history, Sent(call, at));
      case Created(id, _) => PushJustified(s.history, Holding(id));
      case Verdict(id, who, approve) =>
        assert Balanced(s.rows, s.history, id);
        PushJustified(s.history, if approve then Approval(id, who) else Denial(id, who));
      case Moved(id, op) =>
        PushJustified(s.history, if op == Park then Parking(id) else Completion(id));
        if op == Release { assert t.history == s.history; }
      case _ =>
    }
  }

  lemma SendJustified(env: Env, s: State, a: Action)
    requires Ownership(env, s) && Recorded(s)
    requires Next(env, s, a).Some? && DeltaOf(env, s, a).Issued?
    ensures Justified(s.history, Sent(DeltaOf(env, s, a).call, DeltaOf(env, s, a).at))
  {
    var call := DeltaOf(env, s, a).call;
    if call.ReplayCall? {
      SendIsHeld(env, s, a);
      assert Balanced(s.rows, s.history, call.id) && Attributed(s.rows, s.history, call.id);
    }
  }

  lemma {:induction false} RecordedAlways(env: Env, run: seq<Action>)
    requires After(env, run).Some?
    ensures Recorded(After(env, run).value)
  {
    if run == [] {
    } else {
      var past, a := run[..|run| - 1], run[|run| - 1];
      var s, t := After(env, past).value, After(env, run).value;
      RecordedAlways(env, past);
      OwnershipAlways(env, past);
      StepChanges(env, s, a);
      if DeltaOf(env, s, a).Issued? { SendJustified(env, s, a); }
      ChangeJustified(s, t, DeltaOf(env, s, a));
      forall id
        ensures Balanced(t.rows, t.history, id) && Attributed(t.rows, t.history, id)
      {
        ChangeKeepsBalance(s, t, DeltaOf(env, s, a), id);
      }
    }
  }

  /** Conservation: in every reachable state each entry's status determines its four counts. */
  lemma Conservation(env: Env, run: seq<Action>, id: Id)
    requires After(env, run).Some?
    ensures Balanced(After(env, run).value.rows, After(env, run).value.history, id)
  {
    RecordedAlways(env, run);
  }

  lemma {:induction false} JustifiedAt(h: seq<Event>, i: nat)
    requires AllJustified(h) && i < |h|
    ensures Justified(h[..i], h[i])
    decreases |h|
  {
    if i >= |h| - 1 {
    } else {
      JustifiedAt(h[..|h| - 1], i);
      assert h[..|h| - 1][..i] == h[..i];
    }
  }

  lemma {:induction false} NeverMarked(h: seq<Event>, id: Id, k: Mark, i: nat)
    requires i < |h| && Marks(h[i], id, k)
    ensures Count(h, id, k) > 0
    decreases |h|
  {
    if i >= |h| - 1 {
    } else {
      NeverMarked(h[..|h| - 1], id, k, i);
    }
  }

  /**
   Every replay the workers ever sent went out before any denial and any
   recorded completion of its entry, and named the reviewer of the entry's most
   recent approval.
   */
  lemma ReplaysAreAuthorised(env: Env, run: seq<Action>, i: nat)
    requires After(env, run).Some?
    requires var h := After(env, run).value.history;
             i < |h| && h[i].Sent? && h[i].call.ReplayCall?
    ensures var h := After(env, run).value.history;
            var call := h[i].call;
            && LastApprover(h[..i], call.id).Some?
            && (var who := LastApprover(h[..i], call.id).value; call.approver == if who == "" then "unknown" else who)
            && forall j :: 0 <= j < i ==> !Marks(h[j], call.id, Denials) && !Marks(h[j], call.id, Completions)
  {
    RecordedAlways(env, run);
    var h := After(env, run).value.history;
    JustifiedAt(h, i);
    forall j | 0 <= j < i
      ensures !Marks(h[j], h[i].call.id, Denials) && !Marks(h[j], h[i].call.id, Completions)
    {
      if Marks(h[j], h[i].call.id, Denials) { NeverMarked(h[..i], h[i].call.id, Denials, j); }
      if Marks(h[j], h[i].call.id, Completions) { NeverMarked(h[..i], h[i].call.id, Completions, j); }
    }
  }

  /** At the moment a replay is sent its row is 'replaying': neither denied nor replayed. */
  lemma SentWhileReplaying(env: Env, run: seq<Action>, k: nat)
    requires After(env, run).Some?
    requires k < |run| && run[k].Entry? && run[k].work.Send?
    ensures After(env, run[..k]).Some?
    ensures var s := After(env, run[..k]).value;
            var p := PhaseOf(s, run[k].r);
            && p.Starting? && p.cur.id in s.rows
            && s.rows[p.cur.id].status == Replaying && s.rows[p.cur.id].attempts <= env.maxAttempts
  {
    PrefixIsRun(env, run, k);
    PrefixIsRun(env, run, k + 1);
    assert run[..k + 1][..k] == run[..k];
    var s := After(env, run[..k]).value;
    assert Next(env, s, run[k]).Some?;
    OwnershipAlways(env, run[..k]);
    SendIsHeld(env, s, run[k]);
  }

  lemma {:induction false} CountGrows(h: seq<Event>, id: Id, k: Mark, i: nat, j: nat) returns (m: nat)
    requires i <= j <= |h|
    requires Count(h[..j], id, k) > Count(h[..i], id, k)
    ensures i <= m < j && Marks(h[m], id, k)
    decreases j
  {
    assert h[..j][..j - 1] == h[..j - 1];
    if Marks(h[j - 1], id, k) {
      m := j - 1;
    } else {
      m := CountGrows(h, id, k, i, j - 1);
    }
  }

  lemma {:induction false} CountMonotone(h: seq<Event>, id: Id, k: Mark, i: nat, j: nat)
    requires i <= j <= |h|
    ensures Count(h[..i], id, k) <= Count(h[..j], id, k)
    decreases j
  {
    if i >= j {
    } else {
      assert h[..j][..j - 1] == h[..j - 1];
      CountMonotone(h, id, k, i, j - 1);
    }
  }

  /**
   Racing reviewers: between two verdicts on the same entry lies a parking, so
   of all reviewers who race in one round exactly one decides it; and no
   verdict ever follows a denial.
   */
  lemma OneVerdictPerRound(env: Env, run: seq<Action>, id: Id, i: nat, j: nat) returns (m: nat)
    requires After(env, run).Some?
    requires var h := After(env, run).value.history;
             && i < j < |h|
             && (Marks(h[i], id, Approvals) || Marks(h[i], id, Denials))
             && (Marks(h[j], id, Approvals) || Marks(h[j], id, Denials))
    ensures var h := After(env, run).value.history;
            i < m < j && h[m] == Parking(id) && Marks(h[i], id, Approvals)
  {
    RecordedAlways(env, run);
    var h := After(env, run).value.history;
    JustifiedAt(h, i);
    JustifiedAt(h, j);
    if Marks(h[i], id, Denials) {
      NeverMarked(h[..j], id, Denials, i);
    }
    assert h[..i + 1] == h[..i] + [h[i]];
    PushAll(h[..i], h[i], id);
    CountMonotone(h, id, Approvals, i + 1, j);
    m := CountGrows(h, id, Parkings, i + 1, j);
  }
}
