/**
 The quarantine table and its guarded updates. Each function is one UPDATE
 statement: it changes the rows its WHERE clause matches and no others.
 */
module Quarantine {

  type Id = string

  datatype Status = Pending | Approved | Replaying | Replayed | ReplayFailed | Denied

  datatype Row = Row(
    agent: string,
    tool: string,
    payload: string,
    created: nat,
    status: Status,
    attempts: nat,
    resolvedBy: string)

  type Table = map<Id, Row>

  /** A row the worker still owes an execution attempt or a parking. */
  predicate Live(row: Row) {
    row.status == Approved || row.status == Replaying
  }

  /** The WHERE clause of both reviewer updates. */
  predicate Resolvable(t: Table, id: Id) {
    id in t && (t[id].status == Pending || t[id].status == ReplayFailed)
  }

  /** A reviewer's verdict: approving also clears the attempt count. */
  function Resolve(t: Table, id: Id, who: string, approve: bool): (t': Table)
    requires Resolvable(t, id)
  {
    if approve then
      t[id := t[id].(status := Approved, resolvedBy := who, attempts := 0)]
    else
      t[id := t[id].(status := Denied, resolvedBy := who)]
  }

  /** The three ways a claimed row leaves 'replaying'. */
  datatype Op = Park | Release | Complete

  predicate Claimed(t: Table, id: Id) {
    id in t && t[id].status == Replaying
  }

  function Settled(row: Row, op: Op): Row {
    match op
    case Park => row.(status := ReplayFailed)
    case Release => row.(status := Approved, attempts := row.attempts + 1)
    case Complete => row.(status := Replayed, attempts := row.attempts + 1)
  }

  /** Crash recovery: every 'replaying' row returns to 'approved', counted as an attempt. */
  function Recovered(row: Row): Row {
    if row.status == Replaying then Settled(row, Release) else row
  }

  function RecoverAll(t: Table): Table {
    map id | id in t :: Recovered(t[id])
  }

  /** The ids a claim may take: approved, distinct, oldest first, as many as the limit allows. */
  ghost predicate Claimable(t: Table, ids: seq<Id>, limit: nat) {
    && |ids| <= limit
    && (forall i, j :: 0 <= i < j < |ids| ==> ids[i] != ids[j])
    && (forall id :: id in ids ==> id in t && t[id].status == Approved)
    && (forall id, other :: id in ids && other in t && t[other].status == Approved && other !in ids ==>
          t[id].created <= t[other].created)
    && (|ids| < limit ==> forall id :: id in t && t[id].status == Approved ==> id in ids)
  }

  function ClaimAll(t: Table, ids: seq<Id>): Table {
    map id | id in t :: if id in ids then t[id].(status := Replaying) else t[id]
  }
}
