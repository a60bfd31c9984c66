/**
 The replay protocol on top of the ledger's own append code. The protocol treats a
 ledger append as one step that is done, lost, or done without an acknowledgement; the
 append itself is many steps of many callers. Here both run together, every protocol
 append standing for one append call that has returned, and the audit guarantee is
 restated about entries of the verified chain.
 */
module ReplayLedger {
  import opened Options
  import opened Replay
  import opened ReplaySteps
  import opened Ledger
  import opened LedgerChain
  import Appends = LedgerAppend
  import Audit = ReplayAudit

  // ----- how an append call ends -----

  predicate Returned(l: Appends.State, c: nat) {
    c in l.calls && l.calls[c].Returned?
  }

  /** How a returned call ended: acknowledged, written without acknowledgement, or not written. */
  function FaultOf(l: Appends.State, c: nat): Fault
    requires Returned(l, c)
  {
    if l.calls[c].ok then Done else if c in l.tags then Unacked else Lost
  }

  /** The chain entry a call wrote. */
  ghost predicate WroteAt(l: Appends.State, c: nat, x: nat) {
    && |l.tags| == |l.chain| && c in l.calls && x < |l.chain|
    && l.tags[x] == c && Appends.Wrote(l.chain[x], l.calls[c].draft)
  }

  /**
   Every append call that returns has ended in one of the three ways the protocol
   allows for: lost means it wrote nothing; otherwise it wrote exactly one entry, with
   the caller's fields, whether or not that was acknowledged.
   */
  lemma AppendEndsInOneOfThree(H: string -> string, seal: Entry -> string, run: seq<Appends.Action>, c: nat)
    requires Seals(seal, H) && Appends.After(seal, run).Some? && Returned(Appends.After(seal, run).value, c)
    ensures var l := Appends.After(seal, run).value;
            && |l.tags| == |l.chain|
            && (FaultOf(l, c) == Lost <==> forall x :: 0 <= x < |l.tags| ==> l.tags[x] != c)
            && (FaultOf(l, c) != Lost <==> exists x :: WroteAt(l, c, x))
            && (forall x, y :: WroteAt(l, c, x) && WroteAt(l, c, y) ==> x == y)
            && (FaultOf(l, c) == Done <==> l.calls[c].ok)
  {
    Appends.SealIgnoresHash(seal, H);
    Appends.InvAlways(seal, run);
    var l := Appends.After(seal, run).value;
    if FaultOf(l, c) != Lost {
      var x :| 0 <= x < |l.tags| && l.tags[x] == c;
      assert WroteAt(l, c, x);
    }
  }

  /** The way a call has ended is final. */
  lemma EndIsFinal(seal: Entry -> string, l: Appends.State, x: Appends.Action, c: nat)
    requires Returned(l, c) && Appends.Next(seal, l, x).Some?
    ensures var m := Appends.Next(seal, l, x).value;
            Returned(m, c) && m.calls[c] == l.calls[c] && (c in m.tags <==> c in l.tags) && FaultOf(m, c) == FaultOf(l, c)
  {
  }

  // ----- the appends of the protocol -----

  /** The ledger entry an action tries to append, and how that ends. */
  function AppendOf(env: Env, s: State, a: Action): Option<(Event, Fault)> {
    match a
    case Entry(r, WriteAhead(fault)) =>
      if PhaseOf(s, r).Permitted? then Some((WorkerEntry(env, PhaseOf(s, r).cur, "replay_started"), fault)) else None
    case Entry(r, Outcome(fault)) =>
      if PhaseOf(s, r).Failing? then Some((WorkerEntry(env, PhaseOf(s, r).cur, PhaseOf(s, r).outcome), fault)) else None
    case Entry(r, Note(fault)) =>
      if PhaseOf(s, r).Noting? then Some((WorkerEntry(env, PhaseOf(s, r).cur, PhaseOf(s, r).note), fault)) else None
    case Proxy(_, Log(q, fault)) => Some((ProxyEntry(env, q, DecisionText(q.decision)), fault))
    case Proxy(n, StoreNote(fault)) =>
      if n in s.requests then Some((ProxyEntry(env, s.requests[n].request, "quarantine_store_failed"), fault)) else None
    case Reviewer(n, Record(fault)) => if n in s.reviews then Some((ReviewEntry(env, s.reviews[n]), fault)) else None
    case _ => None
  }

  /** An action adds a ledger entry to the history exactly when its append was not lost, and then that entry. */
  lemma AppendsExactly(env: Env, s: State, a: Action)
    requires Next(env, s, a).Some?
    ensures var d, append := DeltaOf(env, s, a), AppendOf(env, s, a);
            && (d.Logged? <==> append.Some? && append.value.1 != Lost)
            && (d.Logged? ==> d.entry == append.value.0)
  {
  }

  // ----- both together -----

  /**
   The two systems side by side. `calls` maps the history position of a ledger entry to
   the append call that wrote it; `used` are the calls that already stand for an append.
   */
  datatype Both = Both(replay: State, ledger: Appends.State, calls: map<nat, nat>, used: set<nat>)

  datatype Joint = InLedger(x: Appends.Action) | InReplay(a: Action, c: nat)

  /** The call was made with the fields of the entry. */
  predicate Says(d: Appends.Draft, e: Event) {
    e.Audit? && d.decision == e.decision && d.agent == e.agent && d.payloadHash == e.hash && d.requestId == e.requestId
  }

  ghost function JointNext(env: Env, seal: Entry -> string, b: Both, j: Joint): Option<Both> {
    match j
    case InLedger(x) =>
      var l := Appends.Next(seal, b.ledger, x);
      if l.None? then None else Some(b.(ledger := l.value))
    case InReplay(a, c) =>
      var s, append := Next(env, b.replay, a), AppendOf(env, b.replay, a);
      if s.None? then None
      else if append.None? then Some(b.(replay := s.value))
      else if !Stands(b, append.value.0, append.value.1, c) then None
      else
        Some(Both(s.value, b.ledger,
                  if append.value.1 == Lost then b.calls else b.calls[|b.replay.history| := c], b.used + {c}))
  }

  /** A fresh returned call that was made for this entry and ended this way. */
  predicate Stands(b: Both, e: Event, fault: Fault, c: nat) {
    c !in b.used && Returned(b.ledger, c) && FaultOf(b.ledger, c) == fault && Says(b.ledger.calls[c].draft, e)
  }

  ghost function JointAfter(env: Env, seal: Entry -> string, run: seq<Joint>): Option<Both> {
    if run == [] then Some(Both(INIT, Appends.INIT, map[], {}))
    else
      var b := JointAfter(env, seal, run[..|run| - 1]);
      if b.None? then None else JointNext(env, seal, b.value, run[|run| - 1])
  }

  /** What the protocol did in a joint run. */
  function ReplayPart(run: seq<Joint>): seq<Action> {
    if run == [] then []
    else ReplayPart(run[..|run| - 1]) + if run[|run| - 1].InReplay? then [run[|run| - 1].a] else []
  }

  /** What the append callers did in a joint run. */
  function LedgerPart(run: seq<Joint>): seq<Appends.Action> {
    if run == [] then []
    else LedgerPart(run[..|run| - 1]) + if run[|run| - 1].InLedger? then [run[|run| - 1].x] else []
  }

  lemma ReplayPush(env: Env, run: seq<Action>, a: Action)
    requires After(env, run).Some?
    ensures After(env, run + [a]) == Next(env, After(env, run).value, a)
  {
    assert (run + [a])[..|run|] == run;
  }

  lemma LedgerPush(seal: Entry -> string, run: seq<Appends.Action>, x: Appends.Action)
    requires Appends.After(seal, run).Some?
    ensures Appends.After(seal, run + [x]) == Appends.Next(seal, Appends.After(seal, run).value, x)
  {
    assert (run + [x])[..|run|] == run;
  }

  /** Each side of a joint run is a run of its own, so everything proved of such runs holds here. */
  lemma {:induction false} PartsAreRuns(env: Env, seal: Entry -> string, run: seq<Joint>)
    requires JointAfter(env, seal, run).Some?
    ensures After(env, ReplayPart(run)) == Some(JointAfter(env, seal, run).value.replay)
    ensures Appends.After(seal, LedgerPart(run)) == Some(JointAfter(env, seal, run).value.ledger)
  {
    if run == [] {
    } else {
      var past, j := run[..|run| - 1], run[|run| - 1];
      PartsAreRuns(env, seal, past);
      match j {
        case InLedger(x) =>
          LedgerPush(seal, LedgerPart(past), x);
          assert ReplayPart(run) == ReplayPart(past);
        case InReplay(a, c) =>
          ReplayPush(env, ReplayPart(past), a);
          assert LedgerPart(run) == LedgerPart(past);
      }
    }
  }

  /** The ledger entry at a history position was written by its call. */
  predicate WrittenBy(b: Both, p: nat) {
    && p < |b.replay.history| && p in b.calls && b.calls[p] in b.used
    && Returned(b.ledger, b.calls[p]) && b.calls[p] in b.ledger.tags
    && Says(b.ledger.calls[b.calls[p]].draft, b.replay.history[p])
  }

  ghost predicate Grounded(b: Both) {
    && (forall p :: 0 <= p < |b.replay.history| && b.replay.history[p].Audit? ==> WrittenBy(b, p))
    && (forall p :: p in b.calls ==> p < |b.replay.history| && b.calls[p] in b.used)
    && (forall p, q :: p in b.calls && q in b.calls && b.calls[p] == b.calls[q] ==> p == q)
  }

  lemma LedgerStepGrounded(seal: Entry -> string, b: Both, x: Appends.Action)
    requires Grounded(b) && Appends.Next(seal, b.ledger, x).Some?
    ensures Grounded(b.(ledger := Appends.Next(seal, b.ledger, x).value))
  {
    var b' := b.(ledger := Appends.Next(seal, b.ledger, x).value);
    forall p | 0 <= p < |b'.replay.history| && b'.replay.history[p].Audit?
      ensures WrittenBy(b', p)
    {
      assert WrittenBy(b, p);
      EndIsFinal(seal, b.ledger, x, b.calls[p]);
    }
  }

  /** A protocol step that appends no entry. */
  lemma SilentStepGrounded(b: Both, b': Both)
    requires Grounded(b) && b'.ledger == b.ledger && b'.calls == b.calls && b.used <= b'.used
    requires b.replay.history <= b'.replay.history && |b'.replay.history| <= |b.replay.history| + 1
    requires |b'.replay.history| > |b.replay.history| ==> !b'.replay.history[|b.replay.history|].Audit?
    ensures Grounded(b')
  {
    forall p | 0 <= p < |b'.replay.history| && b'.replay.history[p].Audit?
      ensures WrittenBy(b', p)
    {
      assert WrittenBy(b, p);
    }
  }

  /** A protocol step whose append was written. */
  lemma WritingStepGrounded(b: Both, b': Both, e: Event, c: nat)
    requires Grounded(b) && Returned(b.ledger, c) && FaultOf(b.ledger, c) != Lost
    requires c !in b.used && Says(b.ledger.calls[c].draft, e) && (b.ledger.calls[c].ok ==> c in b.ledger.tags)
    requires b'.ledger == b.ledger && b'.used == b.used + {c} && b'.calls == b.calls[|b.replay.history| := c]
    requires b'.replay.history == b.replay.history + [e]
    ensures Grounded(b')
  {
    forall p | 0 <= p < |b'.replay.history| && b'.replay.history[p].Audit?
      ensures WrittenBy(b', p)
    {
      if p < |b.replay.history| { assert WrittenBy(b, p); }
    }
  }

  lemma ReplayStepGrounded(env: Env, seal: Entry -> string, b: Both, a: Action, c: nat)
    requires Grounded(b) && JointNext(env, seal, b, InReplay(a, c)).Some?
    requires Returned(b.ledger, c) && b.ledger.calls[c].ok ==> c in b.ledger.tags
    ensures Grounded(JointNext(env, seal, b, InReplay(a, c)).value)
  {
    var b', d := JointNext(env, seal, b, InReplay(a, c)).value, DeltaOf(env, b.replay, a);
    StepChanges(env, b.replay, a);
    AppendsExactly(env, b.replay, a);
    HistoryGrows(b.replay, b'.replay, d);
    if d.Logged? {
      WritingStepGrounded(b, b', d.entry, c);
    } else {
      SilentChange(b.replay, b'.replay, d);
      SilentStepGrounded(b, b');
    }
  }

  lemma SilentChange(s: State, t: State, d: Delta)
    requires Changes(s, t, d) && !d.Logged?
    ensures s.history <= t.history && |t.history| <= |s.history| + 1
    ensures |t.history| > |s.history| ==> !t.history[|s.history|].Audit?
  {
  }

  lemma {:induction false} GroundedAlways(H: string -> string, env: Env, seal: Entry -> string, run: seq<Joint>)
    requires Seals(seal, H) && JointAfter(env, seal, run).Some?
    ensures Grounded(JointAfter(env, seal, run).value)
  {
    if run == [] {
    } else {
      var past, j := run[..|run| - 1], run[|run| - 1];
      var b := JointAfter(env, seal, past).value;
      GroundedAlways(H, env, seal, past);
      match j {
        case InLedger(x) => LedgerStepGrounded(seal, b, x);
        case InReplay(a, c) =>
          PartsAreRuns(env, seal, past);
          Appends.SealIgnoresHash(seal, H);
          Appends.InvAlways(seal, LedgerPart(past));
          ReplayStepGrounded(env, seal, b, a, c);
      }
    }
  }

  /** The chain entry attests the upstream call. */
  predicate Attests(env: Env, e: Entry, call: Call) {
    && e.payloadHash == env.hash(call.payload)
    && match call
       case ForwardCall(_) => e.decision == "allow"
       case ReplayCall(id, _, approver, _) => e.decision == "replay_started" && e.requestId == id && e.agent == approver
  }

  /** The chain entry behind a ledger entry of the history. */
  lemma EntryOf(H: string -> string, env: Env, seal: Entry -> string, run: seq<Joint>, p: nat) returns (x: nat)
    requires Seals(seal, H) && JointAfter(env, seal, run).Some?
    requires var b := JointAfter(env, seal, run).value;
             p < |b.replay.history| && b.replay.history[p].Audit?
    ensures var b := JointAfter(env, seal, run).value;
            && p in b.calls && WroteAt(b.ledger, b.calls[p], x)
            && Says(b.ledger.calls[b.calls[p]].draft, b.replay.history[p])
  {
    var b := JointAfter(env, seal, run).value;
    GroundedAlways(H, env, seal, run);
    PartsAreRuns(env, seal, run);
    assert WrittenBy(b, p);
    AppendEndsInOneOfThree(H, seal, LedgerPart(run), b.calls[p]);
    x :| WroteAt(b.ledger, b.calls[p], x);
  }

  /**
   Nothing runs off the chain: whatever the interleaving of the protocol with the
   transactions of the ledger, every upstream call made so far has an entry of its own
   in a chain that verifies, with the decision, the reviewer and the digest of the
   payload sent; no two calls share one.
   */
  lemma NothingRunsOffTheChain(H: string -> string, env: Env, seal: Entry -> string, run: seq<Joint>, i: nat, j: nat)
    returns (x: nat, y: nat)
    requires Seals(seal, H) && JointAfter(env, seal, run).Some?
    requires var h := JointAfter(env, seal, run).value.replay.history;
             i < |h| && h[i].Sent? && j < |h| && h[j].Sent?
    ensures var b := JointAfter(env, seal, run).value;
            && Verifies(seal, b.ledger.chain, None)
            && x < |b.ledger.chain| && Attests(env, b.ledger.chain[x], b.replay.history[i].call)
            && y < |b.ledger.chain| && Attests(env, b.ledger.chain[y], b.replay.history[j].call)
            && (i != j ==> x != y)
  {
    var b := JointAfter(env, seal, run).value;
    var h := b.replay.history;
    PartsAreRuns(env, seal, run);
    Appends.AppendsKeepTheChain(H, seal, LedgerPart(run));
    Audit.NothingRunsUnaudited(env, ReplayPart(run), i, j);
    Audit.NothingRunsUnaudited(env, ReplayPart(run), j, i);
    x := EntryOf(H, env, seal, run, h[i].at);
    y := EntryOf(H, env, seal, run, h[j].at);
    GroundedAlways(H, env, seal, run);
    assert i != j ==> b.calls[h[i].at] != b.calls[h[j].at];
  }
}
