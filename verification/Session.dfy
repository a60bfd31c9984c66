/**
 Console session idle tracking: last_seen_at is written at most once a minute, and
 that must agree, within the minute, with writing it on every request. Times are
 in nanoseconds on one clock.
 */
module Session {
  const MINUTE := 60 * 1_000_000_000

  /** A session row; `reviewer` says whether its role may use the console at all. */
  datatype Row = Row(lastSeen: int, expires: int, revoked: bool, reviewer: bool)

  /** What happens to a session: a request (its touch may fail), or a sign-out. */
  datatype Event = Visit(at: int, touchOk: bool) | Revoke

  /** Not revoked, before its absolute expiry, and seen within the idle window. */
  predicate Active(idle: int, s: Row, now: int) {
    !s.revoked && s.expires > now && s.lastSeen > now - idle
  }

  predicate Admits(idle: int, s: Row, now: int) {
    Active(idle, s, now) && s.reviewer
  }

  /** The row after an event under the throttled policy. */
  function Throttled(idle: int, s: Row, e: Event): Row {
    match e
    case Visit(at, touchOk) =>
      if Admits(idle, s, at) && at - s.lastSeen > MINUTE && touchOk then s.(lastSeen := at) else s
    case Revoke => s.(revoked := true)
  }

  /** The row after an event when every admitted request is written down. */
  function EveryRequest(idle: int, s: Row, e: Event): Row {
    match e
    case Visit(at, _) => if Admits(idle, s, at) then s.(lastSeen := at) else s
    case Revoke => s.(revoked := true)
  }

  /** Which events of a trace are admitted requests. */
  function Verdicts(step: (int, Row, Event) -> Row, idle: int, s: Row, trace: seq<Event>): (r: seq<bool>)
    ensures |r| == |trace|
    decreases |trace|
  {
    if trace == [] then []
    else [trace[0].Visit? && Admits(idle, s, trace[0].at)] + Verdicts(step, idle, step(idle, s, trace[0]), trace[1..])
  }

  const THROTTLED := (idle: int, s: Row, e: Event) => Throttled(idle, s, e)
  const EVERY_REQUEST := (idle: int, s: Row, e: Event) => EveryRequest(idle, s, e)

  /** Requests come in clock order, none before the last recorded activity. */
  predicate Ordered(from_: int, trace: seq<Event>)
    decreases |trace|
  {
    trace == [] ||
    (if trace[0].Visit? then from_ <= trace[0].at && Ordered(trace[0].at, trace[1..]) else Ordered(from_, trace[1..]))
  }

  predicate SameBut(s: Row, t: Row) {
    s.expires == t.expires && s.revoked == t.revoked && s.reviewer == t.reviewer
  }

  lemma {:induction false} NeverLaxer(idle: int, t: Row, s: Row, now: int, trace: seq<Event>, i: nat)
    requires SameBut(t, s) && t.lastSeen <= s.lastSeen && t.lastSeen <= now
    requires Ordered(now, trace) && i < |trace|
    requires Verdicts(THROTTLED, idle, t, trace)[i]
    ensures Verdicts(EVERY_REQUEST, idle, s, trace)[i]
    decreases |trace|
  {
    if i <= 0 {
    } else {
      var e := trace[0];
      NeverLaxer(idle, Throttled(idle, t, e), EveryRequest(idle, s, e), if e.Visit? then e.at else now, trace[1..], i - 1);
    }
  }

  /** The throttled policy admits nothing that writing on every request would reject, even if touches fail. */
  lemma ThrottleAdmitsNoMore(idle: int, s: Row, trace: seq<Event>, i: nat)
    requires Ordered(s.lastSeen, trace) && i < |trace|
    ensures Verdicts(THROTTLED, idle, s, trace)[i] ==> Verdicts(EVERY_REQUEST, idle, s, trace)[i]
  {
    if Verdicts(THROTTLED, idle, s, trace)[i] { NeverLaxer(idle, s, s, s.lastSeen, trace, i); }
  }

  predicate TouchesSucceed(trace: seq<Event>) {
    forall k :: 0 <= k < |trace| && trace[k].Visit? ==> trace[k].touchOk
  }

  lemma {:induction false} StrictByAMinute(idle: int, t: Row, s: Row, now: int, trace: seq<Event>, i: nat)
    requires SameBut(t, s) && s.lastSeen <= t.lastSeen + MINUTE && t.lastSeen <= now
    requires Ordered(now, trace) && TouchesSucceed(trace) && i < |trace|
    requires Verdicts(EVERY_REQUEST, idle - MINUTE, s, trace)[i]
    ensures Verdicts(THROTTLED, idle, t, trace)[i]
    decreases |trace|
  {
    if i <= 0 {
    } else {
      var e := trace[0];
      assert forall k :: 0 <= k < |trace[1..]| ==> trace[1..][k] == trace[k + 1];
      StrictByAMinute(idle, Throttled(idle, t, e), EveryRequest(idle - MINUTE, s, e),
                      if e.Visit? then e.at else now, trace[1..], i - 1);
    }
  }

  /** It admits everything that writing on every request with a minute less idle time would admit. */
  lemma ThrottleLosesAtMostAMinute(idle: int, s: Row, trace: seq<Event>, i: nat)
    requires Ordered(s.lastSeen, trace) && TouchesSucceed(trace) && i < |trace|
    ensures Verdicts(EVERY_REQUEST, idle - MINUTE, s, trace)[i] ==> Verdicts(THROTTLED, idle, s, trace)[i]
  {
    if Verdicts(EVERY_REQUEST, idle - MINUTE, s, trace)[i] { StrictByAMinute(idle, s, s, s.lastSeen, trace, i); }
  }

  /** The minute is not slack in the proof: a visit at one minute is forgotten. */
  lemma TheMinuteIsReal(idle: int, expires: int)
    requires MINUTE < idle < expires
    ensures var s, trace := Row(0, expires, false, true), [Visit(MINUTE, true), Visit(idle, true)];
            && Ordered(s.lastSeen, trace)
            && Verdicts(EVERY_REQUEST, idle, s, trace)[1] && !Verdicts(THROTTLED, idle, s, trace)[1]
  {
    var s, trace := Row(0, expires, false, true), [Visit(MINUTE, true), Visit(idle, true)];
    assert trace[1..] == [Visit(idle, true)] && trace[1..][1..] == [];
    assert Throttled(idle, s, trace[0]) == s;
    assert EveryRequest(idle, s, trace[0]) == s.(lastSeen := MINUTE);
  }

  lemma {:induction false} StaysDead(idle: int, s: Row, now: int, trace: seq<Event>, j: nat)
    requires !Admits(idle, s, now) && Ordered(now, trace) && j < |trace|
    ensures !Verdicts(THROTTLED, idle, s, trace)[j]
    decreases |trace|
  {
    if j <= 0 {
    } else {
      var e := trace[0];
      StaysDead(idle, Throttled(idle, s, e), if e.Visit? then e.at else now, trace[1..], j - 1);
    }
  }

  /** A session once refused, for idleness or any other reason, is never admitted again. */
  lemma {:induction false} NeverRevives(idle: int, s: Row, now: int, trace: seq<Event>, i: nat, j: nat)
    requires Ordered(now, trace) && i < j < |trace|
    requires trace[i].Visit? && !Verdicts(THROTTLED, idle, s, trace)[i]
    ensures !Verdicts(THROTTLED, idle, s, trace)[j]
    decreases |trace|
  {
    var e := trace[0];
    var t, at := Throttled(idle, s, e), if e.Visit? then e.at else now;
    if i == 0 {
      StaysDead(idle, t, at, trace[1..], j - 1);
    } else {
      NeverRevives(idle, t, at, trace[1..], i - 1, j - 1);
    }
  }

  /** The two policies and nothing else. */
  ghost predicate IsPolicy(step: (int, Row, Event) -> Row) {
    step == THROTTLED || step == EVERY_REQUEST
  }

  lemma StepKeeps(step: (int, Row, Event) -> Row, idle: int, s: Row, e: Event)
    requires IsPolicy(step)
    ensures var t := step(idle, s, e);
            t.expires == s.expires && t.reviewer == s.reviewer && (t.revoked <==> s.revoked || e.Revoke?)
  {
  }

  /**
   Whatever came before and however recently the session was seen, under either policy
   no request is admitted at or after the absolute expiry, none to a session whose role
   is not a reviewer's, and none after a sign-out.
   */
  lemma {:induction false} HardLimits(step: (int, Row, Event) -> Row, idle: int, s: Row, trace: seq<Event>, i: nat)
    requires IsPolicy(step) && i < |trace| && Verdicts(step, idle, s, trace)[i]
    ensures trace[i].Visit? && trace[i].at < s.expires && s.reviewer && !s.revoked
    ensures forall j :: 0 <= j < i ==> !trace[j].Revoke?
    decreases |trace|
  {
    if i == 0 {
    } else {
      StepKeeps(step, idle, s, trace[0]);
      HardLimits(step, idle, step(idle, s, trace[0]), trace[1..], i - 1);
      assert forall j :: 1 <= j < i ==> trace[j] == trace[1..][j - 1];
    }
  }

  /** The session table entry behind a cookie. */
  class Store {
    const idle: int
    var row: Row

    constructor (idle: int, row: Row)
      ensures this.idle == idle && this.row == row
    {
      this.idle, this.row := idle, row;
    }

    /** Look the session up, check its role, and write its activity down if that is a minute old. */
    method AuthenticateSession(now: int, touchOk: bool) returns (ok: bool)
      modifies this
      ensures ok <==> Admits(idle, old(row), now)
      ensures ok <==> !old(row).revoked && now < old(row).expires && now - old(row).lastSeen < idle && old(row).reviewer
      ensures row == Throttled(idle, old(row), Visit(now, touchOk))
      ensures row == old(row).(lastSeen := if ok && touchOk && now > old(row).lastSeen + 60_000_000_000 then now
                                           else old(row).lastSeen)
    {
      if !Active(idle, row, now) { return false; }
      if !row.reviewer { return false; }
      if now - row.lastSeen > MINUTE {
        if touchOk { row := row.(lastSeen := now); }
      }
      return true;
    }

    method RevokeSession()
      modifies this
      ensures row == old(row).(revoked := true)
      ensures forall now :: !Admits(idle, row, now)
    {
      row := row.(revoked := true);
    }
  }
}
