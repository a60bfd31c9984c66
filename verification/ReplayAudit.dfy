/**
 Nothing runs unaudited: every upstream call, forwarded or replayed, is preceded
 by a ledger entry of its own.
 */
module ReplayAudit {
  import opened Options
  import opened Replay

  /** The ledger entry that must come before a call. */
  predicate Backs(env: Env, entry: Event, call: Call) {
    && entry.Audit?
    && entry.hash == env.hash(call.payload)
    && match call
       case ForwardCall(_) => entry.decision == "allow"
       case ReplayCall(id, _, approver, _) =>
         entry.decision == "replay_started" && entry.requestId == id && entry.agent == approver
  }

  /** A write-ahead entry in hand, not yet spent on its call. */
  datatype Slot = OfReplica(r: Replica) | OfRequest(n: nat)
  datatype Ticket = Ticket(at: nat, call: Call)

  function TicketOf(s: State, k: Slot): Option<Ticket> {
    match k
    case OfReplica(r) =>
      var p := PhaseOf(s, r);
      if p.Starting? then Some(Ticket(p.at, CallFor(p.cur))) else None
    case OfRequest(n) =>
      if n in s.requests && s.requests[n].Audited? && s.requests[n].request.decision == Allow
      then Some(Ticket(s.requests[n].at, ForwardCall(s.requests[n].request.payload))) else None
  }

  ghost predicate Unspent(h: seq<Event>, at: nat) {
    forall i :: 0 <= i < |h| && h[i].Sent? ==> h[i].at != at
  }

  ghost predicate Valid(env: Env, h: seq<Event>, ticket: Ticket) {
    ticket.at < |h| && Backs(env, h[ticket.at], ticket.call) && Unspent(h, ticket.at)
  }

  /** Each call follows its own ledger entry, and no two calls share one. */
  ghost predicate AllBacked(env: Env, h: seq<Event>) {
    && (forall i :: 0 <= i < |h| && h[i].Sent? ==> h[i].at < i && Backs(env, h[h[i].at], h[i].call))
    && (forall i, j :: 0 <= i < j < |h| && h[i].Sent? && h[j].Sent? ==> h[i].at != h[j].at)
  }

  ghost predicate Audited(env: Env, s: State) {
    && AllBacked(env, s.history)
    && (forall k :: TicketOf(s, k).Some? ==> Valid(env, s.history, TicketOf(s, k).value))
    && (forall k, l :: k != l && TicketOf(s, k).Some? && TicketOf(s, l).Some? ==>
          TicketOf(s, k).value.at != TicketOf(s, l).value.at)
  }

  /** Only the slot `k` may gain or change a ticket between two states. */
  ghost predicate OnlySlot(s: State, t: State, k: Slot) {
    forall l :: l != k ==> TicketOf(t, l) == TicketOf(s, l)
  }

  lemma BackedExtends(env: Env, h: seq<Event>, h': seq<Event>)
    requires AllBacked(env, h) && h <= h' && |h'| <= |h| + 1
    requires |h'| > |h| ==> !h'[|h|].Sent?
    ensures AllBacked(env, h')
    ensures forall at :: Unspent(h, at) ==> Unspent(h', at)
  {
    assert forall i :: 0 <= i < |h'| && h'[i].Sent? ==> i < |h| && h'[i] == h[i];
  }

  /** A step that sends nothing: its slot keeps its ticket, drops it, or gains one for the entry just written. */
  lemma QuietStep(env: Env, s: State, t: State, k: Slot)
    requires Audited(env, s) && OnlySlot(s, t, k)
    requires s.history <= t.history && |t.history| <= |s.history| + 1
    requires |t.history| > |s.history| ==> !t.history[|s.history|].Sent?
    requires TicketOf(t, k).Some? ==>
               || TicketOf(t, k) == TicketOf(s, k)
               || (&& |t.history| > |s.history| && TicketOf(t, k).value.at == |s.history|
                   && Backs(env, t.history[|s.history|], TicketOf(t, k).value.call))
    ensures Audited(env, t)
  {
    BackedExtends(env, s.history, t.history);
    forall l | TicketOf(t, l).Some?
      ensures Valid(env, t.history, TicketOf(t, l).value)
    {
      if TicketOf(t, l) == TicketOf(s, l) { assert Valid(env, s.history, TicketOf(s, l).value); }
    }
    forall l, m | l != m && TicketOf(t, l).Some? && TicketOf(t, m).Some?
      ensures TicketOf(t, l).value.at != TicketOf(t, m).value.at
    {
      if TicketOf(s, l).Some? { assert Valid(env, s.history, TicketOf(s, l).value); }
      if TicketOf(s, m).Some? { assert Valid(env, s.history, TicketOf(s, m).value); }
    }
  }

  /** A step that sends spends the ticket of its slot. */
  lemma SendingStep(env: Env, s: State, t: State, k: Slot)
    requires Audited(env, s) && OnlySlot(s, t, k)
    requires TicketOf(s, k).Some? && TicketOf(t, k).None?
    requires t.history == s.history + [Sent(TicketOf(s, k).value.call, TicketOf(s, k).value.at)]
    ensures Audited(env, t)
  {
    var ticket := TicketOf(s, k).value;
    assert Valid(env, s.history, ticket);
    forall l | TicketOf(t, l).Some?
      ensures Valid(env, t.history, TicketOf(t, l).value)
    {
      assert Valid(env, s.history, TicketOf(s, l).value) && TicketOf(s, l).value.at != ticket.at;
    }
  }

  lemma PassTicket(env: Env, s: State, r: Replica, a: PassAct)
    requires PassNext(env, s, r, a).Some?
    ensures var t := PassNext(env, s, r, a).value;
            t.history == s.history && t.requests == s.requests && !PhaseOf(t, r).Starting?
            && OnlySlot(s, t, OfReplica(r))
  {
  }

  lemma PassAudited(env: Env, s: State, r: Replica, a: PassAct)
    requires Audited(env, s)
    requires PassNext(env, s, r, a).Some?
    ensures Audited(env, PassNext(env, s, r, a).value)
  {
    PassTicket(env, s, r, a);
    QuietStep(env, s, PassNext(env, s, r, a).value, OfReplica(r));
  }

  lemma EntryTicket(env: Env, s: State, p: Phase, a: EntryAct)
    requires EntryStep(env, s, p, a).Some?
    ensures var (t, p') := EntryStep(env, s, p, a).value;
            && t.requests == s.requests && t.phases == s.phases
            && (p'.Starting? ==>
                  && t.history == s.history + [WorkerEntry(env, p'.cur, "replay_started")]
                  && p'.at == |s.history|)
            && (if a.Send? then p.Starting? && !p'.Starting? && t.history == s.history + [Sent(CallFor(p.cur), p.at)]
                else
                  && s.history <= t.history && |t.history| <= |s.history| + 1
                  && (|t.history| > |s.history| ==> !t.history[|s.history|].Sent?))
  {
  }

  lemma EntryAudited(env: Env, s: State, r: Replica, a: EntryAct)
    requires Audited(env, s)
    requires EntryNext(env, s, r, a).Some?
    ensures Audited(env, EntryNext(env, s, r, a).value)
  {
    EntryTicket(env, s, PhaseOf(s, r), a);
    var t := EntryNext(env, s, r, a).value;
    if a.Send? {
      SendingStep(env, s, t, OfReplica(r));
    } else {
      QuietStep(env, s, t, OfReplica(r));
    }
  }

  lemma ProxySlot(env: Env, s: State, n: nat, a: ProxyAct)
    requires ProxyNext(env, s, n, a).Some?
    ensures var t := ProxyNext(env, s, n, a).value;
            && t.phases == s.phases
            && t.requests - {n} == s.requests - {n}
            && (n in t.requests && t.requests[n].Audited? && !a.Store? ==>
                  || (n in s.requests && t.requests[n] == s.requests[n])
                  || (&& t.requests[n].at == |s.history|
                      && t.history == s.history +
                                      [ProxyEntry(env, t.requests[n].request, DecisionText(t.requests[n].request.decision))]))
  {
  }

  lemma SlotAlone(s: State, t: State, n: nat)
    requires t.phases == s.phases && t.requests - {n} == s.requests - {n}
    ensures OnlySlot(s, t, OfRequest(n))
  {
    forall l | l != OfRequest(n)
      ensures TicketOf(t, l) == TicketOf(s, l)
    {
      if l.OfRequest? {
        assert l.n in t.requests <==> l.n in t.requests - {n};
        assert l.n in s.requests <==> l.n in s.requests - {n};
        assert l.n in s.requests ==> t.requests[l.n] == (t.requests - {n})[l.n] == (s.requests - {n})[l.n];
      }
    }
  }

  lemma ProxyAudited(env: Env, s: State, n: nat, a: ProxyAct)
    requires Audited(env, s)
    requires ProxyNext(env, s, n, a).Some?
    ensures Audited(env, ProxyNext(env, s, n, a).value)
  {
    var t := ProxyNext(env, s, n, a).value;
    ProxySlot(env, s, n, a);
    SlotAlone(s, t, n);
    if a.Forward? {
      SendingStep(env, s, t, OfRequest(n));
    } else {
      QuietStep(env, s, t, OfRequest(n));
    }
  }

  lemma ReviewAudited(env: Env, s: State, n: nat, a: ReviewAct)
    requires Audited(env, s)
    requires ReviewNext(env, s, n, a).Some?
    ensures Audited(env, ReviewNext(env, s, n, a).value)
  {
    QuietStep(env, s, ReviewNext(env, s, n, a).value, OfRequest(0));
  }

  lemma {:induction false} AuditedAlways(env: Env, run: seq<Action>)
    requires After(env, run).Some?
    ensures Audited(env, After(env, run).value)
  {
    if run == [] {
    } else {
      var past, a := run[..|run| - 1], run[|run| - 1];
      var s := After(env, past).value;
      AuditedAlways(env, past);
      match a {
        case Pass(r, pass) => PassAudited(env, s, r, pass);
        case Entry(r, work) => EntryAudited(env, s, r, work);
        case Proxy(n, step) => ProxyAudited(env, s, n, step);
        case Reviewer(n, act) => ReviewAudited(env, s, n, act);
        case Upstream(pos) => QuietStep(env, s, UpstreamNext(s, pos).value, OfRequest(0));
      }
    }
  }

  /**
   In every reachable state `Sent.at` is an injection from the upstream calls
   into earlier ledger entries: 'allow' for a forward, 'replay_started' of the
   same entry for a replay, always with the digest of the payload sent.
   */
  lemma NothingRunsUnaudited(env: Env, run: seq<Action>, i: nat, j: nat)
    requires After(env, run).Some?
    requires var h := After(env, run).value.history;
             i < |h| && h[i].Sent? && j < |h| && h[j].Sent?
    ensures var h := After(env, run).value.history;
            && h[i].at < i
            && Backs(env, h[h[i].at], h[i].call)
            && (i != j ==> h[i].at != h[j].at)
  {
    AuditedAlways(env, run);
  }
}
