/**
 The specification the replay protocol is meant to meet: each held action is
 carried out at most once, with the payload that was held, only once approved,
 and 'finished' means carried out.
 */
module HeldActions {
  import opened Options
  import opened Quarantine

  datatype Docket = Docket(held: map<Id, string>, approved: set<Id>, executed: seq<(Id, string)>, finished: set<Id>)

  datatype Move = Stutter | Hold(id: Id, payload: string) | Approve(id: Id) | Execute(id: Id) | Finish(id: Id)

  predicate Ran(x: Docket, id: Id) {
    exists i :: 0 <= i < |x.executed| && x.executed[i].0 == id
  }

  function Step(x: Docket, m: Move): Option<Docket> {
    match m
    case Stutter => Some(x)
    case Hold(id, payload) => if id in x.held then None else Some(x.(held := x.held[id := payload]))
    case Approve(id) => if id !in x.held then None else Some(x.(approved := x.approved + {id}))
    case Execute(id) =>
      if id !in x.held || id !in x.approved || Ran(x, id) then None
      else Some(x.(executed := x.executed + [(id, x.held[id])]))
    case Finish(id) => if !Ran(x, id) then None else Some(x.(finished := x.finished + {id}))
  }

  function Play(moves: seq<Move>): Option<Docket> {
    if moves == [] then Some(Docket(map[], {}, [], {}))
    else
      var x := Play(moves[..|moves| - 1]);
      if x.None? then None else Step(x.value, moves[|moves| - 1])
  }

  ghost predicate Sound(x: Docket) {
    && (forall i, j :: 0 <= i < j < |x.executed| ==> x.executed[i].0 != x.executed[j].0)
    && (forall i :: 0 <= i < |x.executed| ==>
          var (id, payload) := x.executed[i];
          id in x.held && x.held[id] == payload && id in x.approved)
    && (forall id :: id in x.finished ==> Ran(x, id))
  }

  lemma StepSound(x: Docket, m: Move)
    requires Sound(x) && Step(x, m).Some?
    ensures Sound(Step(x, m).value)
  {
    var y := Step(x, m).value;
    forall id | id in y.finished
      ensures Ran(y, id)
    {
      assert Ran(x, id);
      var i :| 0 <= i < |x.executed| && x.executed[i].0 == id;
      assert y.executed[i].0 == id;
    }
  }

  /** No sequence of moves makes the specification carry an action out twice or unapproved. */
  lemma {:induction false} PlaySound(moves: seq<Move>)
    requires Play(moves).Some?
    ensures Sound(Play(moves).value)
  {
    if moves == [] {
    } else {
      PlaySound(moves[..|moves| - 1]);
      StepSound(Play(moves[..|moves| - 1]).value, moves[|moves| - 1]);
    }
  }
}

/**
 Refinement: against an upstream that deduplicates on the Idempotency-Key, every
 run of the replay protocol is a run of `HeldActions`.
 */
module ReplayOnce {
  import opened Options
  import opened Quarantine
  import opened Replay
  import opened ReplaySteps
  import opened ReplayOwnership
  import opened ReplayHistory
  import Spec = HeldActions

  /** The entry an idempotency key belongs to. */
  function IdOf(key: string): Id {
    if KEY_PREFIX <= key then key[|KEY_PREFIX|..] else key
  }

  lemma KeyRoundTrip(id: Id)
    ensures IdOf(Key(id)) == id
  {
    assert KEY_PREFIX <= Key(id);
  }

  function ExecutedView(effects: seq<Effect>): seq<(Id, string)> {
    seq(|effects|, i requires 0 <= i < |effects| => (IdOf(effects[i].key), effects[i].payload))
  }

  /** What the specification sees of a protocol state. */
  function View(s: State): Spec.Docket {
    Spec.Docket(
      (map id | id in s.rows :: s.rows[id].payload),
      (set id | id in s.rows && Count(s.history, id, Approvals) > 0),
      ExecutedView(s.effects),
      (set id | id in s.rows && s.rows[id].status == Replayed))
  }

  /** Every call ever sent belongs to an approved entry and carries its payload and key. */
  predicate Genuine(s: State, call: Call) {
    call.ReplayCall? ==>
      && call.id in s.rows && call.payload == s.rows[call.id].payload && call.key == Key(call.id)
      && Count(s.history, call.id, Approvals) > 0
  }

  ghost predicate Faithful(s: State) {
    && (forall i :: 0 <= i < |s.history| && s.history[i].Sent? ==> Genuine(s, s.history[i].call))
    && (forall i :: 0 <= i < |s.effects| ==> s.effects[i].key == Key(IdOf(s.effects[i].key)))
    && (forall r: Replica :: Confirmed(s, PhaseOf(s, r)))
  }

  /** A pass records success only for an action the upstream has carried out. */
  predicate Confirmed(s: State, p: Phase) {
    p.Settling? && p.op == Complete ==> Executed(s.effects, Key(p.cur.id))
  }

  /** The specification move an action amounts to. */
  ghost function MoveOf(env: Env, s: State, a: Action): Spec.Move
    requires Next(env, s, a).Some?
  {
    if a.Upstream? then
      var c := s.history[a.pos].call;
      if Executed(s.effects, c.key) then Spec.Stutter else Spec.Execute(c.id)
    else MoveOfDelta(DeltaOf(env, s, a))
  }

  lemma RanIffExecuted(s: State, id: Id)
    requires Faithful(s)
    ensures Spec.Ran(View(s), id) <==> Executed(s.effects, Key(id))
  {
    KeyRoundTrip(id);
    if Spec.Ran(View(s), id) {
      var i :| 0 <= i < |View(s).executed| && View(s).executed[i].0 == id;
      assert s.effects[i].key == Key(id);
    }
    if Executed(s.effects, Key(id)) {
      var i :| 0 <= i < |s.effects| && s.effects[i].key == Key(id);
      assert View(s).executed[i].0 == id;
    }
  }

  /** Payloads and past approvals are never lost. */
  lemma ChangeKeepsGenuine(s: State, t: State, d: Delta, call: Call)
    requires Changes(s, t, d) && Genuine(s, call)
    ensures Genuine(t, call)
  {
    HistoryGrows(s, t, d);
    if call.ReplayCall? && t.history != s.history {
      CountPush(s.history, t.history[|s.history|], call.id, Approvals);
    }
  }

  lemma SendGenuine(env: Env, s: State, a: Action)
    requires Ownership(env, s) && Recorded(s)
    requires Next(env, s, a).Some? && DeltaOf(env, s, a).Issued?
    ensures Genuine(s, DeltaOf(env, s, a).call)
  {
    var call := DeltaOf(env, s, a).call;
    if call.ReplayCall? {
      SendIsHeld(env, s, a);
      assert Balanced(s.rows, s.history, call.id);
    }
  }

  lemma StepGenuine(env: Env, s: State, a: Action)
    requires Ownership(env, s) && Recorded(s) && Faithful(s)
    requires Next(env, s, a).Some?
    ensures var t := Next(env, s, a).value;
            forall i :: 0 <= i < |t.history| && t.history[i].Sent? ==> Genuine(t, t.history[i].call)
  {
    var t, d := Next(env, s, a).value, DeltaOf(env, s, a);
    StepChanges(env, s, a);
    if d.Issued? { SendGenuine(env, s, a); }
    forall i | 0 <= i < |t.history| && t.history[i].Sent?
      ensures Genuine(t, t.history[i].call)
    {
      if i < |s.history| {
        assert t.history[i] == s.history[i];
      } else {
        assert d.Issued? && t.history[i].call == d.call;
      }
      ChangeKeepsGenuine(s, t, d, t.history[i].call);
    }
  }

  lemma EntryConfirmed(env: Env, s: State, p: Phase, a: EntryAct)
    requires EntryStep(env, s, p, a).Some?
    ensures var (t, p') := EntryStep(env, s, p, a).value;
            t.effects == s.effects && Confirmed(t, p')
  {
  }

  lemma StepConfirmed(env: Env, s: State, a: Action, r: Replica)
    requires Ownership(env, s) && Faithful(s)
    requires Next(env, s, a).Some?
    ensures var t := Next(env, s, a).value;
            Confirmed(t, PhaseOf(t, r))
  {
    assert Confirmed(s, PhaseOf(s, r));
    match a {
      case Pass(o, pass) =>
        if r != o { PassLeavesOthers(env, s, o, pass, r); }
      case Entry(o, work) =>
        EntryConfirmed(env, s, PhaseOf(s, o), work);
        if r != o { EntryLeavesOthers(env, s, o, work, r); }
      case Proxy(n, step) => ProxySpares(env, s, n, step);
      case Reviewer(n, act) => ReviewerSpares(env, s, n, act);
      case Upstream(pos) => UpstreamGrows(s, pos);
    }
  }

  lemma UpstreamGrows(s: State, pos: nat)
    requires UpstreamNext(s, pos).Some?
    ensures var t := UpstreamNext(s, pos).value;
            forall key :: Executed(s.effects, key) ==> Executed(t.effects, key)
  {
    var t := UpstreamNext(s, pos).value;
    forall key | Executed(s.effects, key)
      ensures Executed(t.effects, key)
    {
      var i :| 0 <= i < |s.effects| && s.effects[i].key == key;
      assert t.effects[i].key == key;
    }
  }

  lemma StepFaithful(env: Env, s: State, a: Action)
    requires Ownership(env, s) && Recorded(s) && Faithful(s)
    requires Next(env, s, a).Some?
    ensures Faithful(Next(env, s, a).value)
  {
    var t := Next(env, s, a).value;
    StepGenuine(env, s, a);
    forall r: Replica
      ensures Confirmed(t, PhaseOf(t, r))
    {
      StepConfirmed(env, s, a, r);
    }
    if a.Upstream? {
      KeyRoundTrip(s.history[a.pos].call.id);
    } else {
      OnlyUpstreamExecutes(env, s, a);
    }
  }

  lemma OnlyUpstreamExecutes(env: Env, s: State, a: Action)
    requires !a.Upstream? && Next(env, s, a).Some?
    ensures Next(env, s, a).value.effects == s.effects
  {
    match a {
      case Pass(r, pass) => assert PassNext(env, s, r, pass).Some?;
      case Entry(r, work) => EntryConfirmed(env, s, PhaseOf(s, r), work);
      case Proxy(n, step) => assert ProxyNext(env, s, n, step).Some?;
      case Reviewer(n, act) => assert ReviewNext(env, s, n, act).Some?;
    }
  }

  lemma UpstreamRefines(env: Env, s: State, pos: nat)
    requires Faithful(s)
    requires UpstreamNext(s, pos).Some?
    ensures Spec.Step(View(s), MoveOf(env, s, Upstream(pos))) == Some(View(UpstreamNext(s, pos).value))
  {
    var c, t := s.history[pos].call, UpstreamNext(s, pos).value;
    assert Genuine(s, c);
    RanIffExecuted(s, c.id);
    KeyRoundTrip(c.id);
    if !Executed(s.effects, c.key) {
      assert View(t).executed == View(s).executed + [(c.id, View(s).held[c.id])];
    }
  }

  ghost function MoveOfDelta(d: Delta): Spec.Move {
    match d
    case Created(id, row) => Spec.Hold(id, row.payload)
    case Verdict(id, _, approve) => if approve then Spec.Approve(id) else Spec.Stutter
    case Moved(id, op) => if op == Complete then Spec.Finish(id) else Spec.Stutter
    case _ => Spec.Stutter
  }

  lemma HeldView(s: State, t: State, d: Delta)
    requires Changes(s, t, d)
    ensures View(t).held == if d.Created? then View(s).held[d.id := d.row.payload] else View(s).held
  {
  }

  lemma ApprovedAt(s: State, t: State, d: Delta, id: Id)
    requires Changes(s, t, d) && Balanced(s.rows, s.history, id)
    ensures id in t.rows && Count(t.history, id, Approvals) > 0 <==>
            (id in s.rows && Count(s.history, id, Approvals) > 0) || (d.Verdict? && d.approve && id == d.id)
  {
    HistoryGrows(s, t, d);
    if t.history != s.history { CountPush(s.history, t.history[|s.history|], id, Approvals); }
  }

  lemma ApprovedView(s: State, t: State, d: Delta)
    requires Changes(s, t, d)
    requires forall id :: Balanced(s.rows, s.history, id)
    ensures View(t).approved == if d.Verdict? && d.approve then View(s).approved + {d.id} else View(s).approved
  {
    forall id
      ensures id in View(t).approved <==> id in View(s).approved || (d.Verdict? && d.approve && id == d.id)
    {
      assert Balanced(s.rows, s.history, id);
      ApprovedAt(s, t, d, id);
    }
  }

  lemma FinishedView(s: State, t: State, d: Delta)
    requires Changes(s, t, d)
    ensures View(t).finished ==
            if d.Moved? && d.op == Complete then View(s).finished + {d.id} else View(s).finished
  {
  }

  lemma ChangeRefines(s: State, t: State, d: Delta)
    requires Changes(s, t, d) && t.effects == s.effects
    requires Faithful(s)
    requires forall id :: Balanced(s.rows, s.history, id)
    requires d.Moved? && d.op == Complete ==> Executed(s.effects, Key(d.id))
    ensures Spec.Step(View(s), MoveOfDelta(d)) == Some(View(t))
  {
    HeldView(s, t, d);
    ApprovedView(s, t, d);
    FinishedView(s, t, d);
    if d.Moved? { RanIffExecuted(s, d.id); }
  }

  lemma CompleteWasExecuted(env: Env, s: State, a: Action)
    requires Faithful(s)
    requires Next(env, s, a).Some?
    requires DeltaOf(env, s, a).Moved? && DeltaOf(env, s, a).op == Complete
    ensures Executed(s.effects, Key(DeltaOf(env, s, a).id))
  {
    assert Confirmed(s, PhaseOf(s, a.r));
  }

  lemma StepRefines(env: Env, s: State, a: Action)
    requires Faithful(s) && Recorded(s)
    requires Next(env, s, a).Some?
    ensures Spec.Step(View(s), MoveOf(env, s, a)) == Some(View(Next(env, s, a).value))
  {
    if a.Upstream? {
      UpstreamRefines(env, s, a.pos);
    } else {
      var d := DeltaOf(env, s, a);
      StepChanges(env, s, a);
      OnlyUpstreamExecutes(env, s, a);
      if d.Moved? && d.op == Complete { CompleteWasExecuted(env, s, a); }
      ChangeRefines(s, Next(env, s, a).value, d);
    }
  }

  lemma {:induction false} FaithfulAlways(env: Env, run: seq<Action>)
    requires After(env, run).Some?
    ensures Faithful(After(env, run).value)
  {
    if run == [] {
    } else {
      var past := run[..|run| - 1];
      FaithfulAlways(env, past);
      OwnershipAlways(env, past);
      RecordedAlways(env, past);
      StepFaithful(env, After(env, past).value, run[|run| - 1]);
    }
  }

  /** Every call ever made for an entry carries its held payload and its own fixed idempotency key. */
  lemma CallsAreGenuine(env: Env, run: seq<Action>, i: nat)
    requires After(env, run).Some?
    requires var h := After(env, run).value.history;
             i < |h| && h[i].Sent? && h[i].call.ReplayCall?
    ensures var s := After(env, run).value;
            var call := s.history[i].call;
            && call.key == "kiterail-quarantine-" + call.id
            && call.id in s.rows && call.payload == s.rows[call.id].payload
  {
    FaithfulAlways(env, run);
  }

  /** The specification moves a run amounts to, one per action. */
  ghost function Moves(env: Env, run: seq<Action>): seq<Spec.Move>
    requires After(env, run).Some?
  {
    if run == [] then []
    else
      Moves(env, run[..|run| - 1]) + [MoveOf(env, After(env, run[..|run| - 1]).value, run[|run| - 1])]
  }

  /** Every run refines the specification, move for move. */
  lemma {:induction false} RunRefines(env: Env, run: seq<Action>)
    requires After(env, run).Some?
    ensures |Moves(env, run)| == |run|
    ensures Spec.Play(Moves(env, run)) == Some(View(After(env, run).value))
  {
    if run == [] {
      assert View(INIT) == Spec.Play([]).value;
    } else {
      var past := run[..|run| - 1];
      RunRefines(env, past);
      FaithfulAlways(env, past);
      RecordedAlways(env, past);
      StepRefines(env, After(env, past).value, run[|run| - 1]);
      assert Moves(env, run)[..|run| - 1] == Moves(env, past);
    }
  }

  /**
   At most once: over every run with any crashes and retries, the upstream
   carries out no idempotency key twice, only approved entries, each with the
   payload that was held; and a row is 'replayed' only if it was carried out.
   */
  lemma AtMostOnce(env: Env, run: seq<Action>)
    requires After(env, run).Some?
    ensures var s := After(env, run).value;
            && (forall i, j :: 0 <= i < j < |s.effects| ==> s.effects[i].key != s.effects[j].key)
            && (forall i :: 0 <= i < |s.effects| ==>
                  var id := IdOf(s.effects[i].key);
                  && s.effects[i].key == Key(id) && id in s.rows && s.rows[id].payload == s.effects[i].payload
                  && Count(s.history, id, Approvals) > 0)
            && (forall id :: id in s.rows && s.rows[id].status == Replayed ==> Executed(s.effects, Key(id)))
  {
    var s := After(env, run).value;
    RunRefines(env, run);
    FaithfulAlways(env, run);
    Spec.PlaySound(Moves(env, run));
    forall i, j | 0 <= i < j < |s.effects|
      ensures s.effects[i].key != s.effects[j].key
    {
      assert View(s).executed[i].0 != View(s).executed[j].0;
    }
    forall i | 0 <= i < |s.effects|
      ensures var id := IdOf(s.effects[i].key);
              id in s.rows && s.rows[id].payload == s.effects[i].payload && Count(s.history, id, Approvals) > 0
    {
      var (id, payload) := View(s).executed[i];
      assert id in View(s).held && id in View(s).approved;
    }
    forall id | id in s.rows && s.rows[id].status == Replayed
      ensures Executed(s.effects, Key(id))
    {
      assert id in View(s).finished;
      RanIffExecuted(s, id);
    }
  }
}
