/**
 Concurrent appends: any number of callers in any number of replicas extend one
 chain under an advisory lock, with failures, retries, lost acknowledgements and
 crashes anywhere in between.
 */
module LedgerAppend {
  import opened Options
  import opened Ledger
  import opened LedgerChain

  /** What a caller hands to Append; a missing time is filled in at the append. */
  datatype Draft = Draft(
    timestamp: Option<Timestamp>,
    agent: string,
    tool: string,
    decision: string,
    policyRule: string,
    payloadHash: string,
    requestId: string,
    policyVersion: string)

  datatype Call =
    | Waiting(draft: Draft, attempt: nat)
    | Holding(draft: Draft, attempt: nat)
    | Ready(draft: Draft, attempt: nat, tip: Anchor)
    | Backoff(draft: Draft, attempt: nat)
    | Returned(draft: Draft, ok: bool)

  /** `tags[i]` is the call that wrote chain entry i; `heads` are the heads read so far. */
  datatype State = State(
    chain: seq<Entry>,
    tags: seq<nat>,
    lock: Option<nat>,
    calls: map<nat, Call>,
    heads: seq<Anchor>)

  const INIT := State([], [], None, map[], [])
  const MAX_RETRIES := 8

  datatype Act =
    | Begin(draft: Draft)
    | Lock
    | ReadTip
    | Commit(now: Timestamp, acked: bool)
    | Fail(serialization: bool)
    | Retry
    | Cancel
    | Crash

  datatype Action = On(c: nat, act: Act) | ReadHead

  function TipOf(es: seq<Entry>): Anchor {
    if es == [] then Anchor(0, "") else Anchor(es[|es| - 1].seqNum, es[|es| - 1].hash)
  }

  /** The entry an append inserts. */
  function Stamp(seal: Entry -> string, d: Draft, tip: Anchor, now: Timestamp): Entry {
    var e := Entry(tip.seqNum + 1, Normalize(if d.timestamp.Some? then d.timestamp.value else now),
                   d.agent, d.tool, d.decision, d.policyRule, d.payloadHash, d.requestId, tip.hash, "", d.policyVersion);
    e.(hash := seal(e))
  }

  /** Ending a transaction releases the lock it held. */
  function Release(s: State, c: nat): State {
    s.(lock := if s.lock == Some(c) then None else s.lock)
  }

  function Set(s: State, c: nat, call: Call): State {
    s.(calls := s.calls[c := call])
  }

  function CallNext(seal: Entry -> string, s: State, c: nat, a: Act): Option<State> {
    if a.Begin? then
      if c in s.calls then None else Some(Set(s, c, Waiting(a.draft, 0)))
    else if c !in s.calls || s.calls[c].Returned? then None
    else
      var call := s.calls[c];
      match a
      case Lock =>
        if call.Waiting? && s.lock.None? then Some(Set(s, c, Holding(call.draft, call.attempt)).(lock := Some(c)))
        else None
      case ReadTip =>
        if call.Holding? then Some(Set(s, c, Ready(call.draft, call.attempt, TipOf(s.chain)))) else None
      case Commit(now, acked) =>
        if !call.Ready? then None
        else
          var e := Stamp(seal, call.draft, call.tip, now);
          Some(Set(Release(s, c), c, Returned(call.draft, acked)).(chain := s.chain + [e], tags := s.tags + [c]))
      case Fail(serialization) =>
        // The transaction rolls back; only SQLSTATE 40001 is worth another attempt.
        if call.Backoff? then None
        else
          Some(Set(Release(s, c), c,
                   if serialization && call.attempt < MAX_RETRIES - 1 then Backoff(call.draft, call.attempt)
                   else Returned(call.draft, false)))
      case Retry =>
        if call.Backoff? then Some(Set(s, c, Waiting(call.draft, call.attempt + 1))) else None
      case Cancel =>
        if call.Backoff? then Some(Set(s, c, Returned(call.draft, false))) else None
      case Crash => Some(Set(Release(s, c), c, Returned(call.draft, false)))
  }

  function Next(seal: Entry -> string, s: State, a: Action): Option<State> {
    match a
    case On(c, act) => CallNext(seal, s, c, act)
    case ReadHead => if s.chain == [] then None else Some(s.(heads := s.heads + [TipOf(s.chain)]))
  }

  function After(seal: Entry -> string, run: seq<Action>): Option<State> {
    if run == [] then Some(INIT)
    else
      var s := After(seal, run[..|run| - 1]);
      if s.None? then None else Next(seal, s.value, run[|run| - 1])
  }

  /** The entry hash does not depend on the hash column itself. */
  ghost predicate IgnoresHash(seal: Entry -> string) {
    forall e: Entry, h: string :: seal(e.(hash := h)) == seal(e)
  }

  lemma SealIgnoresHash(seal: Entry -> string, H: string -> string)
    requires Seals(seal, H)
    ensures IgnoresHash(seal)
  {
    forall e: Entry, h: string
      ensures seal(e.(hash := h)) == seal(e)
    {
      PreimageIsExact(e.(hash := h), e);
    }
  }

  // ----- the chain -----

  /** Numbered from one, linked and sealed. */
  ghost predicate WellFormed(seal: Entry -> string, es: seq<Entry>) {
    Chained(seal, es) && forall i :: 0 <= i < |es| ==> es[i].seqNum == i + 1
  }

  lemma ExtendWellFormed(seal: Entry -> string, es: seq<Entry>, d: Draft, now: Timestamp)
    requires IgnoresHash(seal) && WellFormed(seal, es)
    ensures WellFormed(seal, es + [Stamp(seal, d, TipOf(es), now)])
  {
    var e := Stamp(seal, d, TipOf(es), now);
    var es' := es + [e];
    assert seal(e) == seal(e.(hash := ""));
    forall i | 0 <= i < |es'|
      ensures LinkOk(es', i) && HashOk(seal, es', i) && es'[i].seqNum == i + 1
    {
      assert es'[..i] == es[..i];
      if i < |es| {
        assert LinkOk(es, i) && HashOk(seal, es, i);
      } else {
        assert es[..i] == es;
      }
    }
  }

  // ----- the calls -----

  predicate InTransaction(call: Call) {
    call.Holding? || call.Ready?
  }

  /** The lock belongs to the one call inside its critical section, whose view of the tip is current. */
  ghost predicate Serialized(s: State) {
    forall c :: c in s.calls ==>
      && (InTransaction(s.calls[c]) ==> s.lock == Some(c))
      && (s.calls[c].Ready? ==> s.calls[c].tip == TipOf(s.chain))
  }

  /** The entry was written from the draft. */
  predicate Wrote(e: Entry, d: Draft) {
    && e.agent == d.agent && e.tool == d.tool && e.decision == d.decision && e.policyRule == d.policyRule
    && e.payloadHash == d.payloadHash && e.requestId == d.requestId && e.policyVersion == d.policyVersion
    && (d.timestamp.Some? ==> e.timestamp == Normalize(d.timestamp.value))
  }

  /** No call writes twice, none that is still running has written, and success means written. */
  ghost predicate Accounted(s: State) {
    && |s.tags| == |s.chain|
    && (forall i, j :: 0 <= i < j < |s.tags| ==> s.tags[i] != s.tags[j])
    && (forall i :: 0 <= i < |s.tags| ==>
          s.tags[i] in s.calls && s.calls[s.tags[i]].Returned? && Wrote(s.chain[i], s.calls[s.tags[i]].draft))
    && (forall c :: c in s.calls && s.calls[c].Returned? && s.calls[c].ok ==> c in s.tags)
  }

  ghost predicate HeadsKept(s: State) {
    forall k :: 0 <= k < |s.heads| ==>
      && 1 <= s.heads[k].seqNum <= |s.chain|
      && s.chain[s.heads[k].seqNum - 1].hash == s.heads[k].hash
  }

  ghost predicate Inv(seal: Entry -> string, s: State) {
    WellFormed(seal, s.chain) && Serialized(s) && Accounted(s) && HeadsKept(s)
  }

  lemma CommitAccounted(s: State, t: State, c: nat, e: Entry, d: Draft, acked: bool)
    requires Accounted(s) && c in s.calls && !s.calls[c].Returned?
    requires t.chain == s.chain + [e] && t.tags == s.tags + [c] && Wrote(e, d)
    requires t.calls == s.calls[c := Returned(d, acked)]
    ensures Accounted(t)
  {
    assert c !in s.tags;
  }

  lemma CommitSerialized(s: State, t: State, c: nat)
    requires Serialized(s) && s.lock == Some(c) && c in t.calls && t.calls[c].Returned?
    requires t.calls == s.calls[c := t.calls[c]]
    ensures Serialized(t)
  {
  }

  lemma CommitKeeps(seal: Entry -> string, s: State, c: nat, now: Timestamp, acked: bool)
    requires IgnoresHash(seal) && Inv(seal, s)
    requires CallNext(seal, s, c, Commit(now, acked)).Some?
    ensures Inv(seal, CallNext(seal, s, c, Commit(now, acked)).value)
  {
    var call, t := s.calls[c], CallNext(seal, s, c, Commit(now, acked)).value;
    var e := Stamp(seal, call.draft, call.tip, now);
    ExtendWellFormed(seal, s.chain, call.draft, now);
    CommitAccounted(s, t, c, e, call.draft, acked);
    CommitSerialized(s, t, c);
    HeadsExtend(s, t);
  }

  lemma HeadsExtend(s: State, t: State)
    requires HeadsKept(s) && s.chain <= t.chain && t.heads == s.heads
    ensures HeadsKept(t)
  {
  }

  /** Every action but a commit leaves the ledger alone, and only its own call changes. */
  lemma CallStep(seal: Entry -> string, s: State, c: nat, a: Act)
    requires Serialized(s)
    requires CallNext(seal, s, c, a).Some? && !a.Commit?
    ensures var t := CallNext(seal, s, c, a).value;
            && t.chain == s.chain && t.tags == s.tags && t.heads == s.heads
            && c in t.calls && t.calls == s.calls[c := t.calls[c]]
            && (c in s.calls ==> !s.calls[c].Returned?)
            && (t.calls[c].Returned? ==> !t.calls[c].ok)
            && (InTransaction(t.calls[c]) ==> t.lock == Some(c))
            && (t.calls[c].Ready? ==> t.calls[c].tip == TipOf(s.chain))
            && (forall d :: d != c && s.lock == Some(d) ==> t.lock == Some(d))
  {
  }

  lemma OtherActsKeep(seal: Entry -> string, s: State, c: nat, a: Act)
    requires Inv(seal, s)
    requires CallNext(seal, s, c, a).Some? && !a.Commit?
    ensures Inv(seal, CallNext(seal, s, c, a).value)
  {
    CallStep(seal, s, c, a);
    OwnCallOnly(seal, s, CallNext(seal, s, c, a).value, c);
  }

  lemma OwnCallOnly(seal: Entry -> string, s: State, t: State, c: nat)
    requires Inv(seal, s)
    requires t.chain == s.chain && t.tags == s.tags && t.heads == s.heads
    requires c in t.calls && t.calls == s.calls[c := t.calls[c]]
    requires c in s.calls ==> !s.calls[c].Returned?
    requires t.calls[c].Returned? ==> !t.calls[c].ok
    requires InTransaction(t.calls[c]) ==> t.lock == Some(c)
    requires t.calls[c].Ready? ==> t.calls[c].tip == TipOf(s.chain)
    requires forall d :: d != c && s.lock == Some(d) ==> t.lock == Some(d)
    ensures Inv(seal, t)
  {
    assert c !in s.tags;
  }

  lemma HeadPush(es: seq<Entry>, s: State, t: State)
    requires HeadsKept(s) && es != [] && es[|es| - 1].seqNum == |es|
    requires s.chain == t.chain == es && t.heads == s.heads + [TipOf(es)]
    ensures HeadsKept(t)
  {
  }

  lemma HeadKeeps(seal: Entry -> string, s: State)
    requires Inv(seal, s) && Next(seal, s, ReadHead).Some?
    ensures Inv(seal, Next(seal, s, ReadHead).value)
  {
    HeadPush(s.chain, s, s.(heads := s.heads + [TipOf(s.chain)]));
  }

  lemma {:induction false} InvAlways(seal: Entry -> string, run: seq<Action>)
    requires IgnoresHash(seal) && After(seal, run).Some?
    ensures Inv(seal, After(seal, run).value)
  {
    if run == [] {
    } else {
      var past, a := run[..|run| - 1], run[|run| - 1];
      var s := After(seal, past).value;
      InvAlways(seal, past);
      if a.ReadHead? {
        HeadKeeps(seal, s);
      } else if a.act.Commit? {
        CommitKeeps(seal, s, a.c, a.act.now, a.act.acked);
      } else {
        OtherActsKeep(seal, s, a.c, a.act);
      }
    }
  }

  /**
   However appends interleave, fail and retry, the chain is numbered 1 to n and
   verifies, and every head read earlier in the run still verifies as an anchor.
   */
  lemma AppendsKeepTheChain(H: string -> string, seal: Entry -> string, run: seq<Action>)
    requires Seals(seal, H) && After(seal, run).Some?
    ensures var s := After(seal, run).value;
            && (forall i :: 0 <= i < |s.chain| ==> s.chain[i].seqNum == i + 1)
            && Verifies(seal, s.chain, None)
            && (forall k :: 0 <= k < |s.heads| ==> Verifies(seal, s.chain, Some(s.heads[k])))
  {
    SealIgnoresHash(seal, H);
    InvAlways(seal, run);
    var s := After(seal, run).value;
    forall k | 0 <= k < |s.heads|
      ensures Verifies(seal, s.chain, Some(s.heads[k]))
    {
      HeadVerifies(seal, s, k);
    }
  }

  lemma HeadVerifies(seal: Entry -> string, s: State, k: nat)
    requires WellFormed(seal, s.chain) && HeadsKept(s) && k < |s.heads|
    ensures Verifies(seal, s.chain, Some(s.heads[k]))
  {
    assert s.chain[s.heads[k].seqNum - 1].seqNum == s.heads[k].seqNum;
  }

  /**
   Each Append adds at most one entry, whatever it reports; when it reports
   success it has added exactly one, and that entry carries the caller's fields.
   */
  lemma AppendAddsAtMostOne(H: string -> string, seal: Entry -> string, run: seq<Action>, c: nat)
    requires Seals(seal, H) && After(seal, run).Some?
    ensures var s := After(seal, run).value;
            && |s.tags| == |s.chain|
            && (forall i, j :: 0 <= i < |s.tags| && 0 <= j < |s.tags| && s.tags[i] == c == s.tags[j] ==> i == j)
            && (c in s.calls && s.calls[c].Returned? && s.calls[c].ok ==>
                  exists i :: 0 <= i < |s.tags| && s.tags[i] == c && Wrote(s.chain[i], s.calls[c].draft))
  {
    SealIgnoresHash(seal, H);
    InvAlways(seal, run);
    var s := After(seal, run).value;
    if c in s.calls && s.calls[c].Returned? && s.calls[c].ok {
      var i :| 0 <= i < |s.tags| && s.tags[i] == c;
      assert Wrote(s.chain[i], s.calls[c].draft);
    }
  }

  /**
   A commit adds one entry: the number after the tip it read, linked to that tip's hash,
   with the caller's fields, and with the given time or, if none was given, the time of
   the append, cut to the microsecond.
   */
  lemma CommitAdds(seal: Entry -> string, s: State, c: nat, now: Timestamp, acked: bool)
    requires CallNext(seal, s, c, Commit(now, acked)).Some?
    ensures s.calls[c].Ready?
    ensures var t, d, tip := CallNext(seal, s, c, Commit(now, acked)).value, s.calls[c].draft, s.calls[c].tip;
            && |t.chain| == |s.chain| + 1 && t.chain == s.chain + [t.chain[|s.chain|]]
            && var e := t.chain[|s.chain|];
               && e.seqNum == tip.seqNum + 1 && e.prevHash == tip.hash && e.hash == seal(e.(hash := ""))
               && e.agent == d.agent && e.tool == d.tool && e.decision == d.decision && e.policyRule == d.policyRule
               && e.payloadHash == d.payloadHash && e.requestId == d.requestId && e.policyVersion == d.policyVersion
               && CutToMicrosecond(if d.timestamp.Some? then d.timestamp.value else now, e.timestamp)
  {
    NormalizeCuts(if s.calls[c].draft.timestamp.Some? then s.calls[c].draft.timestamp.value else now);
  }

  lemma NormalizeCuts(t: Timestamp)
    ensures CutToMicrosecond(t, Normalize(t))
  {
  }

  predicate CutToMicrosecond(t: Timestamp, u: Timestamp) {
    && u.(nanos := 0) == t.(nanos := 0)
    && u.nanos % 1000 == 0 && u.nanos <= t.nanos < u.nanos + 1000
  }

  // ----- the append code -----

  ghost predicate NotBy(run: seq<Action>, i: nat, c: nat) {
    forall k :: i <= k < |run| ==> run[k].ReadHead? || run[k].c != c
  }

  lemma {:induction false} PrefixIsRun(seal: Entry -> string, run: seq<Action>, i: nat)
    requires After(seal, run).Some? && i <= |run|
    ensures After(seal, run[..i]).Some?
    decreases |run|
  {
    if i < |run| {
      PrefixIsRun(seal, run[..|run| - 1], i);
      assert run[..|run| - 1][..i] == run[..i];
    } else {
      assert run[..i] == run;
    }
  }

  /** The chain only ever grows at its end. */
  lemma {:induction false} ChainGrows(seal: Entry -> string, run: seq<Action>, i: nat)
    requires After(seal, run).Some? && i <= |run|
    ensures After(seal, run[..i]).Some?
    ensures After(seal, run[..i]).value.chain <= After(seal, run).value.chain
    decreases |run|
  {
    PrefixIsRun(seal, run, i);
    if i < |run| {
      var past := run[..|run| - 1];
      ChainGrows(seal, past, i);
      assert past[..i] == run[..i];
    } else {
      assert run[..i] == run;
    }
  }

  /** Other callers never touch this call. */
  lemma {:induction false} OthersLeaveCall(seal: Entry -> string, run: seq<Action>, i: nat, c: nat)
    requires After(seal, run).Some? && i <= |run| && NotBy(run, i, c)
    ensures After(seal, run[..i]).Some?
    ensures var s, t := After(seal, run[..i]).value, After(seal, run).value;
            (c in t.calls <==> c in s.calls) && (c in s.calls ==> t.calls[c] == s.calls[c])
    decreases |run|
  {
    PrefixIsRun(seal, run, i);
    if i < |run| {
      var past := run[..|run| - 1];
      OthersLeaveCall(seal, past, i, c);
      assert past[..i] == run[..i];
    } else {
      assert run[..i] == run;
    }
  }

  /** How the retry loop ended. */
  datatype End = Acknowledged | Failed | Cancelled | Exhausted

  /** The steps of one call in a run, from a position on. */
  function Own(run: seq<Action>, from_: nat, c: nat): seq<Act> {
    if |run| <= from_ then []
    else
      var a := run[|run| - 1];
      Own(run[..|run| - 1], from_, c) + if a.On? && a.c == c then [a.act] else []
  }

  lemma {:induction false} OwnOfOthers(run: seq<Action>, from_: nat, i: nat, c: nat)
    requires from_ <= i <= |run| && NotBy(run, i, c)
    ensures Own(run, from_, c) == Own(run[..i], from_, c)
    decreases |run|
  {
    if i == |run| {
      assert run[..i] == run;
    } else {
      OwnOfOthers(run[..|run| - 1], from_, i, c);
      assert run[..|run| - 1][..i] == run[..i];
    }
  }

  /** The step that ends a transaction, and what it means for the caller. */
  predicate Ends(last: Act, ok: bool, serialization: bool) {
    if ok then last.Commit? && last.acked && !serialization
    else if serialization then last == Fail(true)
    else last == Fail(false) || (last.Commit? && !last.acked)
  }

  /** The steps of one transaction: lock, read the tip and commit, or as far as it came before failing. */
  predicate Transaction(acts: seq<Act>, ok: bool, serialization: bool) {
    && acts != [] && Ends(acts[|acts| - 1], ok, serialization)
    && acts[..|acts| - 1] <= [Lock, ReadTip]
    && (acts[|acts| - 1].Commit? ==> |acts| == 3)
  }

  /** Transactions that were each followed by a retry. */
  function Retried(tries: seq<seq<Act>>): seq<Act> {
    if tries == [] then [] else Retried(tries[..|tries| - 1]) + tries[|tries| - 1] + [Retry]
  }

  predicate AllSerialization(tries: seq<seq<Act>>) {
    forall k :: 0 <= k < |tries| ==> Transaction(tries[k], false, true)
  }

  /**
   All an append call does: it begins, and after each transaction lost to a
   serialization failure it retries, until one is acknowledged, fails for another
   reason, the eighth is lost too, or the caller gives up waiting.
   */
  predicate RetryLoop(acts: seq<Act>, draft: Draft, lost: seq<seq<Act>>, last: seq<Act>, end: End) {
    && acts == [Begin(draft)] + Retried(lost) + last + (if end == Cancelled then [Cancel] else [])
    && AllSerialization(lost)
    && Transaction(last, end == Acknowledged, end == Cancelled || end == Exhausted)
    && (if end == Exhausted then |lost| == 7 else if end == Cancelled then |lost| < 7 else |lost| < 8)
  }

  /** So far every transaction was lost to a serialization failure and retried. */
  predicate Retrying(acts: seq<Act>, draft: Draft, lost: seq<seq<Act>>) {
    acts == [Begin(draft)] + Retried(lost) && AllSerialization(lost) && |lost| < MAX_RETRIES
  }

  lemma RetryAgain(acts: seq<Act>, draft: Draft, lost: seq<seq<Act>>, last: seq<Act>)
    requires Retrying(acts, draft, lost) && Transaction(last, false, true) && |lost| < MAX_RETRIES - 1
    ensures Retrying(acts + last + [Retry], draft, lost + [last])
  {
    assert (lost + [last])[..|lost|] == lost;
    assert acts + last + [Retry] == [Begin(draft)] + (Retried(lost) + last + [Retry]);
  }

  lemma RetryEnds(acts: seq<Act>, draft: Draft, lost: seq<seq<Act>>, last: seq<Act>, end: End)
    requires Retrying(acts, draft, lost)
    requires Transaction(last, end == Acknowledged, end == Cancelled || end == Exhausted)
    requires if end == Exhausted then |lost| == MAX_RETRIES - 1
             else if end == Cancelled then |lost| < MAX_RETRIES - 1 else true
    ensures RetryLoop(acts + last + (if end == Cancelled then [Cancel] else []), draft, lost, last, end)
    ensures end != Cancelled ==> RetryLoop(acts + last, draft, lost, last, end)
  {
    assert acts + last + [] == acts + last;
  }

  /** Where an action takes the call that makes it; `tip` is the end of the chain. */
  function CallAfter(call: Call, a: Act, tip: Anchor): Option<Call> {
    match a
    case Lock => if call.Waiting? then Some(Holding(call.draft, call.attempt)) else None
    case ReadTip => if call.Holding? then Some(Ready(call.draft, call.attempt, tip)) else None
    case Commit(_, acked) => if call.Ready? then Some(Returned(call.draft, acked)) else None
    case Fail(serialization) =>
      if call.Backoff? || call.Returned? then None
      else if serialization && call.attempt < MAX_RETRIES - 1 then Some(Backoff(call.draft, call.attempt))
      else Some(Returned(call.draft, false))
    case Retry => if call.Backoff? then Some(Waiting(call.draft, call.attempt + 1)) else None
    case Cancel => if call.Backoff? then Some(Returned(call.draft, false)) else None
    case _ => None
  }

  /** The call after a transaction: worth another attempt, or over. */
  function AfterEnd(draft: Draft, attempt: nat, ok: bool, serialization: bool): Call {
    if serialization && attempt < MAX_RETRIES - 1 then Backoff(draft, attempt) else Returned(draft, ok)
  }

  lemma CallMoves(seal: Entry -> string, s: State, c: nat, a: Act)
    requires c in s.calls && CallAfter(s.calls[c], a, TipOf(s.chain)).Some? && (a.Lock? ==> s.lock.None?)
    ensures CallNext(seal, s, c, a).Some?
    ensures CallNext(seal, s, c, a).value.calls == s.calls[c := CallAfter(s.calls[c], a, TipOf(s.chain)).value]
  {
  }

  class Store {
    const seal: Entry -> string
    var state: State
    ghost var run: seq<Action>

    ghost predicate Consistent()
      reads this
    {
      After(seal, run) == Some(state)
    }

    constructor (seal: Entry -> string)
      ensures this.seal == seal && Consistent() && state == INIT
    {
      this.seal, this.state, this.run := seal, INIT, [];
    }

    /** Between two statements of a call other callers do anything; this body is one case of it. */
    method Interfere(c: nat)
      requires Consistent()
      modifies this
      ensures Consistent() && old(run) <= run && NotBy(run, |old(run)|, c)
    {
    }

    method Yield(c: nat, ghost from_: nat)
      requires Consistent() && from_ <= |run|
      modifies this
      ensures Consistent() && old(run) <= run
      ensures Own(run, from_, c) == Own(old(run), from_, c)
      ensures (c in state.calls <==> c in old(state).calls) && (c in state.calls ==> state.calls[c] == old(state).calls[c])
    {
      Interfere(c);
      assert run[..|old(run)|] == old(run);
      OthersLeaveCall(seal, run, |old(run)|, c);
      OwnOfOthers(run, from_, |old(run)|, c);
    }

    method Do(c: nat, a: Act, ghost from_: nat)
      requires Consistent() && from_ <= |run| && CallNext(seal, state, c, a).Some?
      modifies this
      ensures Consistent() && run == old(run) + [On(c, a)]
      ensures Some(state) == CallNext(seal, old(state), c, a)
      ensures Own(run, from_, c) == Own(old(run), from_, c) + [a]
    {
      state := CallNext(seal, state, c, a).value;
      assert (run + [On(c, a)])[..|run|] == run;
      run := run + [On(c, a)];
    }

    /** A new call, waiting for its first transaction. */
    method Start(c: nat, draft: Draft)
      requires Consistent() && c !in state.calls
      modifies this
      ensures Consistent() && old(run) <= run && c in state.calls && state.calls[c] == Waiting(draft, 0)
      ensures Own(run, |old(run)|, c) == [Begin(draft)]
    {
      Do(c, Begin(draft), |run|);
    }

    /** One step of a call that has begun. */
    method Move(c: nat, a: Act, ghost from_: nat)
      requires Consistent() && from_ <= |run| && c in state.calls
      requires CallAfter(state.calls[c], a, TipOf(state.chain)).Some? && (a.Lock? ==> state.lock.None?)
      modifies this
      ensures Consistent() && old(run) <= run && c in state.calls
      ensures Some(state.calls[c]) == CallAfter(old(state).calls[c], a, TipOf(old(state).chain))
      ensures Own(run, from_, c) == Own(old(run), from_, c) + [a]
    {
      CallMoves(seal, state, c, a);
      Do(c, a, from_);
    }

    /** The insert and commit of a transaction that has read the tip. */
    method Insert(c: nat, ghost draft: Draft, ghost attempt: nat, ghost from_: nat)
      returns (ok: bool, serialization: bool, ghost last: Act)
      requires Consistent() && attempt < MAX_RETRIES && from_ <= |run| && c in state.calls
      requires state.calls[c].Ready? && state.calls[c].draft == draft && state.calls[c].attempt == attempt
      modifies this
      ensures Consistent() && old(run) <= run && c in state.calls && Ends(last, ok, serialization)
      ensures state.calls[c] == AfterEnd(draft, attempt, ok, serialization)
      ensures Own(run, from_, c) == Own(old(run), from_, c) + [last]
    {
      Yield(c, from_);
      var broken := *;
      if broken {
        ok, serialization := false, *;
        last := Fail(serialization);
        Move(c, Fail(serialization), from_);
      } else {
        var now: Timestamp := *;
        ok, serialization := *, false;
        last := Commit(now, ok);
        Move(c, Commit(now, ok), from_);
      }
    }

    /** From the lock on: read the tip, then insert. */
    method ReadAndInsert(c: nat, ghost draft: Draft, ghost attempt: nat, ghost from_: nat)
      returns (ok: bool, serialization: bool, ghost acts: seq<Act>)
      requires Consistent() && attempt < MAX_RETRIES && from_ <= |run| && c in state.calls
      requires state.calls[c] == Holding(draft, attempt)
      modifies this
      ensures Consistent() && old(run) <= run && c in state.calls
      ensures state.calls[c] == AfterEnd(draft, attempt, ok, serialization)
      ensures acts != [] && Ends(acts[|acts| - 1], ok, serialization)
      ensures acts == [Fail(serialization)] || acts == [ReadTip, acts[|acts| - 1]]
      ensures Own(run, from_, c) == Own(old(run), from_, c) + acts
    {
      Yield(c, from_);
      var broken := *;
      if broken {
        ok, serialization := false, *;
        Move(c, Fail(serialization), from_);
        acts := [Fail(serialization)];
      } else {
        Move(c, ReadTip, from_);
        ghost var last;
        ok, serialization, last := Insert(c, draft, attempt, from_);
        acts := [ReadTip, last];
        assert [ReadTip] + [last] == acts;
      }
    }

    /** One transaction: lock, read the tip, insert, commit; any of them may fail. */
    method AppendOnce(c: nat, ghost draft: Draft, ghost attempt: nat, ghost from_: nat)
      returns (ok: bool, serialization: bool, ghost acts: seq<Act>)
      requires Consistent() && attempt < MAX_RETRIES && from_ <= |run|
      requires c in state.calls && state.calls[c] == Waiting(draft, attempt)
      modifies this
      ensures Consistent() && old(run) <= run && c in state.calls
      ensures state.calls[c] == AfterEnd(draft, attempt, ok, serialization)
      ensures Transaction(acts, ok, serialization)
      ensures Own(run, from_, c) == Own(old(run), from_, c) + acts
    {
      Yield(c, from_);
      var broken := *;
      if broken || state.lock.Some? {
        ok, serialization := false, *;
        Move(c, Fail(serialization), from_);
        acts := [Fail(serialization)];
      } else {
        Move(c, Lock, from_);
        ghost var more;
        ok, serialization, more := ReadAndInsert(c, draft, attempt, from_);
        acts := [Lock] + more;
        assert acts[..|acts| - 1] == [Lock] + more[..|more| - 1];
      }
    }

    /**
     The bounded, cancellable retry loop. Success means the entry is in the chain;
     failure leaves the call without one or, when only the acknowledgement was
     lost, with exactly one.
     */
    method Append(c: nat, draft: Draft) returns (ok: bool)
      requires Consistent() && IgnoresHash(seal) && c !in state.calls
      modifies this
      ensures Consistent() && old(run) <= run
      ensures c in state.calls && state.calls[c] == Returned(draft, ok)
      ensures |state.tags| == |state.chain| && Chained(seal, state.chain)
      ensures ok ==> exists i :: 0 <= i < |state.tags| && state.tags[i] == c && Wrote(state.chain[i], draft)
      ensures forall i, j :: 0 <= i < j < |state.tags| ==> !(state.tags[i] == c && state.tags[j] == c)
    {
      ghost var lost, last, end;
      ok, lost, last, end := Attempts(c, draft);
      InvAlways(seal, run);
      if ok {
        ghost var i :| 0 <= i < |state.tags| && state.tags[i] == c;
        assert Wrote(state.chain[i], draft);
      }
    }

    /**
     Up to eight transactions, each but the last lost to a serialization failure; the
     loop ends early only on success, when cancelled, or on any other error.
     */
    method Attempts(c: nat, draft: Draft)
      returns (ok: bool, ghost lost: seq<seq<Act>>, ghost last: seq<Act>, ghost end: End)
      requires Consistent() && c !in state.calls
      modifies this
      ensures Consistent() && old(run) <= run
      ensures c in state.calls && state.calls[c] == Returned(draft, ok)
      ensures ok <==> end == Acknowledged
      ensures RetryLoop(Own(run, |old(run)|, c), draft, lost, last, end)
    {
      Start(c, draft);
      var attempt, again := 0, true;
      ok, lost, last, end := false, [], [], Failed;
      while again
        invariant Consistent() && old(run) <= run && c in state.calls && attempt <= MAX_RETRIES
        invariant again ==> attempt == |lost| && state.calls[c] == Waiting(draft, attempt)
        invariant again ==> Retrying(Own(run, |old(run)|, c), draft, lost)
        invariant !again ==> state.calls[c] == Returned(draft, ok) && (ok <==> end == Acknowledged)
        invariant !again ==> RetryLoop(Own(run, |old(run)|, c), draft, lost, last, end)
        decreases again, MAX_RETRIES - attempt
      {
        again, ok, last, end := Attempt(c, draft, attempt, lost, |old(run)|);
        if again { attempt, lost := attempt + 1, lost + [last]; }
      }
    }

    /** One turn of the loop. */
    method Attempt(c: nat, ghost draft: Draft, attempt: nat, ghost lost: seq<seq<Act>>, ghost from_: nat)
      returns (again: bool, ok: bool, ghost last: seq<Act>, ghost end: End)
      requires Consistent() && from_ <= |run| && c in state.calls && state.calls[c] == Waiting(draft, attempt)
      requires attempt == |lost| && Retrying(Own(run, from_, c), draft, lost)
      modifies this
      ensures Consistent() && old(run) <= run && c in state.calls
      ensures again ==> state.calls[c] == Waiting(draft, attempt + 1) && Retrying(Own(run, from_, c), draft, lost + [last])
      ensures !again ==> state.calls[c] == Returned(draft, ok) && (ok <==> end == Acknowledged)
      ensures !again ==> RetryLoop(Own(run, from_, c), draft, lost, last, end)
    {
      ghost var before := Own(run, from_, c);
      var serialization;
      ok, serialization, last := AppendOnce(c, draft, attempt, from_);
      again := serialization && attempt < MAX_RETRIES - 1;
      if !again {
        end := if ok then Acknowledged else if serialization then Exhausted else Failed;
        RetryEnds(before, draft, lost, last, end);
        return;
      }
      var cancelled := WaitToRetry(c, draft, attempt, from_);
      again, end := !cancelled, Cancelled;
      if cancelled { RetryEnds(before, draft, lost, last, Cancelled); } else { RetryAgain(before, draft, lost, last); }
    }

    /** The backoff between two attempts, which a cancelled context cuts short. */
    method WaitToRetry(c: nat, ghost draft: Draft, ghost attempt: nat, ghost from_: nat) returns (cancelled: bool)
      requires Consistent() && from_ <= |run| && c in state.calls && state.calls[c] == Backoff(draft, attempt)
      modifies this
      ensures Consistent() && old(run) <= run && c in state.calls
      ensures state.calls[c] == if cancelled then Returned(draft, false) else Waiting(draft, attempt + 1)
      ensures Own(run, from_, c) == Own(old(run), from_, c) + [if cancelled then Cancel else Retry]
    {
      Yield(c, from_);
      cancelled := *;
      Move(c, if cancelled then Cancel else Retry, from_);
    }
  }
}
