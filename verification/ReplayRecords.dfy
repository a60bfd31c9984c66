/**
 What the audit ledger is told. Over every run the entry an action appends is given
 here word for word: by the proxy about a request, by the workers about an entry they
 claimed, by the reviewers about a verdict they made.
 */
module ReplayRecords {
  import opened Replay
  import opened ReplaySteps
  import opened ReplayOwnership
  import opened ReplaySettle
  import Status = ReplayStatus

  /** The history grows by this ledger entry, unless the append was lost. */
  predicate Tells(s: State, t: State, fault: Fault, decision: string, agent: string, hash: string, requestId: string) {
    t.history == s.history + if fault == Lost then [] else [Audit(decision, agent, hash, requestId)]
  }

  /** The proxy tells of every request it evaluated, and of every hold it could not store. */
  lemma ProxyTells(env: Env, s: State, n: nat, a: ProxyAct)
    requires ProxyNext(env, s, n, a).Some? && (a.Log? || a.StoreNote?)
    ensures var t := ProxyNext(env, s, n, a).value;
            if a.Log? then
              Tells(s, t, a.fault,
                    if a.request.decision == Allow then "allow" else if a.request.decision == Deny then "deny" else "quarantine",
                    a.request.agent, env.hash(a.request.payload), a.request.requestId)
            else
              var q := s.requests[n].request;
              Tells(s, t, a.fault, "quarantine_store_failed", q.agent, env.hash(q.payload), q.requestId)
  {
  }

  /** What a worker has to say at this step about the entry in hand. */
  function WorkerSays(env: Env, entry: Snap, told: Story, a: EntryAct): string {
    match a
    case WriteAhead(_) => "replay_started"
    case Outcome(_) => if told.CallFailed? then told.outcome else ""
    case _ =>
      if told.CallConfirmed? then "approved_replayed"
      else if entry.row.attempts > env.maxAttempts then "replay_exhausted"
      else "replay_blocked_by_policy"
  }

  /**
   The workers tell, in the name of the reviewer who approved the entry, that a replay
   starts, how a failed one ended, and how an acknowledged settle left the entry: carried
   out, exhausted, or blocked by policy.
   */
  lemma WorkerTells(env: Env, run: seq<Action>, r: Replica, a: EntryAct)
    requires After(env, run).Some? && EntryNext(env, After(env, run).value, r, a).Some?
    requires a.WriteAhead? || a.Outcome? || a.Note?
    ensures var s, t := After(env, run).value, EntryNext(env, After(env, run).value, r, a).value;
            var p := PhaseOf(s, r);
            && (p.Permitted? || p.Failing? || p.Noting?)
            && Tells(s, t, a.fault, WorkerSays(env, p.cur, Told(Mine(run, 0, r)), a),
                     if p.cur.row.resolvedBy == "" then "unknown" else p.cur.row.resolvedBy,
                     env.hash(p.cur.row.payload), p.cur.id)
  {
    FitsAlways(env, run, r);
    NotedHasText(env, run, r);
  }

  /** A ledger entry follows a settle only if there is something to say. */
  ghost predicate NotesSpeak(s: State) {
    forall r: Replica :: PhaseOf(s, r).Noting? ==> PhaseOf(s, r).note != ""
  }

  lemma EntrySpeaks(env: Env, s: State, p: Phase, a: EntryAct)
    requires EntryStep(env, s, p, a).Some?
    ensures var p' := EntryStep(env, s, p, a).value.1;
            p'.Noting? ==> p'.note != ""
  {
  }

  lemma StepSpeaks(env: Env, s: State, a: Action, r: Replica)
    requires Ownership(env, s) && NotesSpeak(s) && Next(env, s, a).Some?
    ensures PhaseOf(Next(env, s, a).value, r).Noting? ==> PhaseOf(Next(env, s, a).value, r).note != ""
  {
    assert PhaseOf(s, r).Noting? ==> PhaseOf(s, r).note != "";
    match a {
      case Pass(o, pass) => if o != r { PassLeavesOthers(env, s, o, pass, r); }
      case Entry(o, work) => if o == r { EntrySpeaks(env, s, PhaseOf(s, r), work); } else { EntryLeavesOthers(env, s, o, work, r); }
      case Proxy(n, step) => ProxySpares(env, s, n, step);
      case Reviewer(n, act) => ReviewerSpares(env, s, n, act);
      case Upstream(_) =>
    }
  }

  lemma {:induction false} NotesSpeakAlways(env: Env, run: seq<Action>)
    requires After(env, run).Some?
    ensures NotesSpeak(After(env, run).value)
  {
    if run == [] {
    } else {
      var past, t := run[..|run| - 1], After(env, run).value;
      NotesSpeakAlways(env, past);
      OwnershipAlways(env, past);
      forall r: Replica
        ensures PhaseOf(t, r).Noting? ==> PhaseOf(t, r).note != ""
      {
        StepSpeaks(env, After(env, past).value, run[|run| - 1], r);
      }
    }
  }

  lemma NotedHasText(env: Env, run: seq<Action>, r: Replica)
    requires After(env, run).Some?
    ensures PhaseOf(After(env, run).value, r).Noting? ==> PhaseOf(After(env, run).value, r).note != ""
  {
    NotesSpeakAlways(env, run);
  }

  // ----- reviewers -----

  /** A reviewer's view of the entry is of what is held, and a verdict in hand has been made. */
  ghost predicate ReviewTrue(s: State, v: Review) {
    && v.id in s.rows && s.rows[v.id].payload == v.snap.payload
    && (v.Resolved? ==> (if v.approve then Approval(v.id, v.who) else Denial(v.id, v.who)) in s.history)
  }

  ghost predicate ReviewsTrue(s: State) {
    forall n :: n in s.reviews ==> ReviewTrue(s, s.reviews[n])
  }

  lemma ReviewStaysTrue(env: Env, s: State, a: Action, v: Review)
    requires ReviewTrue(s, v) && Next(env, s, a).Some?
    ensures ReviewTrue(Next(env, s, a).value, v)
  {
    Status.RowChanges(env, s, a, v.id);
  }

  /** The review a step starts or advances. */
  lemma OwnReviewTrue(env: Env, s: State, n: nat, a: ReviewAct)
    requires ReviewsTrue(s) && ReviewNext(env, s, n, a).Some?
    ensures var t := ReviewNext(env, s, n, a).value;
            && (n in t.reviews ==> ReviewTrue(t, t.reviews[n]))
            && forall m :: m in t.reviews && m != n ==> m in s.reviews && t.reviews[m] == s.reviews[m]
  {
    var t := ReviewNext(env, s, n, a).value;
    if a.Commit? && n in t.reviews {
      var v := s.reviews[n];
      assert ReviewTrue(s, v);
      assert t.history[|s.history|] == if v.approve then Approval(v.id, v.who) else Denial(v.id, v.who);
    }
  }

  lemma OthersKeepReviews(env: Env, s: State, a: Action)
    requires !a.Reviewer? && Next(env, s, a).Some?
    ensures Next(env, s, a).value.reviews == s.reviews
  {
    match a {
      case Pass(r, pass) => assert PassNext(env, s, r, pass).Some?;
      case Entry(r, work) => EntryKeepsReviews(env, s, PhaseOf(s, r), work);
      case Proxy(n, step) => assert ProxyNext(env, s, n, step).Some?;
      case Upstream(_) =>
    }
  }

  lemma EntryKeepsReviews(env: Env, s: State, p: Phase, a: EntryAct)
    requires EntryStep(env, s, p, a).Some?
    ensures EntryStep(env, s, p, a).value.0.reviews == s.reviews
  {
  }

  lemma StepReviewsTrue(env: Env, s: State, a: Action)
    requires ReviewsTrue(s) && Next(env, s, a).Some?
    ensures ReviewsTrue(Next(env, s, a).value)
  {
    var t := Next(env, s, a).value;
    if a.Reviewer? { OwnReviewTrue(env, s, a.n, a.act); } else { OthersKeepReviews(env, s, a); }
    forall m | m in t.reviews
      ensures ReviewTrue(t, t.reviews[m])
    {
      if !a.Reviewer? || m != a.n {
        assert ReviewTrue(s, s.reviews[m]);
        ReviewStaysTrue(env, s, a, s.reviews[m]);
      }
    }
  }

  lemma {:induction false} ReviewsTrueAlways(env: Env, run: seq<Action>)
    requires After(env, run).Some?
    ensures ReviewsTrue(After(env, run).value)
  {
    if run == [] {
    } else {
      ReviewsTrueAlways(env, run[..|run| - 1]);
      StepReviewsTrue(env, After(env, run[..|run| - 1]).value, run[|run| - 1]);
    }
  }

  /**
   The reviewers tell the truth: the entry about a verdict names the reviewer and the
   held action, carries the digest of what is held, and follows that very verdict.
   */
  lemma ReviewerTells(env: Env, run: seq<Action>, n: nat, fault: Fault)
    requires After(env, run).Some? && ReviewNext(env, After(env, run).value, n, Record(fault)).Some?
    ensures var s, t := After(env, run).value, ReviewNext(env, After(env, run).value, n, Record(fault)).value;
            var v := s.reviews[n];
            && v.id in s.rows
            && Tells(s, t, fault, if v.approve then "approved" else "denied", v.who, env.hash(s.rows[v.id].payload), v.id)
            && (if v.approve then Approval(v.id, v.who) else Denial(v.id, v.who)) in s.history
  {
    ReviewsTrueAlways(env, run);
    var s := After(env, run).value;
    assert ReviewTrue(s, s.reviews[n]);
  }

  /** Nothing else is told. */
  lemma NothingElseIsTold(env: Env, s: State, a: Action)
    requires Next(env, s, a).Some?
    requires !(a.Proxy? && (a.step.Log? || a.step.StoreNote?)) && !(a.Reviewer? && a.act.Record?)
    requires !(a.Entry? && (a.work.WriteAhead? || a.work.Outcome? || a.work.Note?))
    ensures var t := Next(env, s, a).value;
            s.history <= t.history && forall i :: |s.history| <= i < |t.history| ==> !t.history[i].Audit?
  {
    StepChanges(env, s, a);
    HistoryGrows(s, Next(env, s, a).value, DeltaOf(env, s, a));
  }
}
