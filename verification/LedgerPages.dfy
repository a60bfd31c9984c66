/**
 Keyset pagination of the ledger: following the cursor from page to page while
 the ledger keeps growing.
 */
module LedgerPages {
  import opened Options
  import opened Ledger
  import opened LedgerChain
  import Appends = LedgerAppend

  const MAX_INT64 := 0x7FFF_FFFF_FFFF_FFFF
  const DEFAULT_PAGE_SIZE := 100
  const MAX_PAGE_SIZE := 1000

  /** Empty filters match everything. */
  datatype Filter = Filter(agent: string, decision: string, tool: string)

  predicate Matches(f: Filter, e: Entry) {
    && (f.agent == "" || e.agent == f.agent)
    && (f.decision == "" || e.decision == f.decision)
    && (f.tool == "" || e.tool == f.tool)
  }

  /** The matching rows below a sequence number, newest first. */
  function Below(es: seq<Entry>, f: Filter, before: int): seq<Entry> {
    if es == [] then []
    else
      var e, older := es[|es| - 1], Below(es[..|es| - 1], f, before);
      if e.seqNum < before && Matches(f, e) then [e] + older else older
  }

  /** All matching rows, newest first. */
  function Newest(es: seq<Entry>, f: Filter): seq<Entry> {
    if es == [] then []
    else
      var e, older := es[|es| - 1], Newest(es[..|es| - 1], f);
      if Matches(f, e) then [e] + older else older
  }

  /** One page; a bound of zero or less starts at the head. */
  function Page(es: seq<Entry>, f: Filter, beforeSeq: int, limit: nat): seq<Entry> {
    var rows := Below(es, f, if beforeSeq <= 0 then MAX_INT64 else beforeSeq);
    if |rows| <= limit then rows else rows[..limit]
  }

  /** A query parameter: missing, a number, or something that is not a number. */
  datatype Param = Absent | Number(n: int) | Garbage

  datatype Response = BadRequest | Rows(entries: seq<Entry>, next: Option<int>)

  /** The query handler and its cursor rule. */
  function HandleQuery(es: seq<Entry>, f: Filter, limit: Param, before: Param): Response {
    if limit.Garbage? || (limit.Number? && (limit.n < 1 || limit.n > MAX_PAGE_SIZE)) then BadRequest
    else if before.Garbage? || (before.Number? && before.n < 1) then BadRequest
    else
      var size: nat := if limit.Number? then limit.n else DEFAULT_PAGE_SIZE;
      var page := Page(es, f, if before.Number? then before.n else 0, size);
      Rows(page, if |page| == size then Some(page[size - 1].seqNum) else None)
  }

  /** The ledger a reader may see: positive ascending sequence numbers below the first page's bound. */
  ghost predicate Numbered(es: seq<Entry>) {
    Ascending(es) && forall i :: 0 <= i < |es| ==> 1 <= es[i].seqNum < MAX_INT64
  }

  /** Snapshots of a growing ledger, one per page request. */
  ghost predicate Growing(view: nat -> seq<Entry>) {
    && (forall k :: Numbered(view(k)))
    && (forall k: nat :: view(k) <= view(k + 1))
  }

  /** Follow the cursor: page k is served from snapshot k. */
  ghost function Follow(view: nat -> seq<Entry>, f: Filter, limit: nat, k: nat, before: Param): seq<Entry>
    requires Growing(view) && 1 <= limit <= MAX_PAGE_SIZE
    requires before.Absent? || (before.Number? && before.n >= 1)
    decreases if before.Number? then before.n else MAX_INT64
  {
    var r := HandleQuery(view(k), f, Number(limit), before);
    if r.next.None? then r.entries
    else
      CursorDecreases(view(k), f, limit, before);
      r.entries + Follow(view, f, limit, k + 1, Number(r.next.value))
  }

  lemma {:induction false} BelowBounds(es: seq<Entry>, f: Filter, before: int)
    ensures forall i :: 0 <= i < |Below(es, f, before)| ==>
              Below(es, f, before)[i] in es && Below(es, f, before)[i].seqNum < before
  {
    if es == [] {
    } else {
      BelowBounds(es[..|es| - 1], f, before);
    }
  }

  lemma CursorDecreases(es: seq<Entry>, f: Filter, limit: nat, before: Param)
    requires Numbered(es) && 1 <= limit <= MAX_PAGE_SIZE
    requires before.Absent? || (before.Number? && before.n >= 1)
    requires HandleQuery(es, f, Number(limit), before).next.Some?
    ensures var b := if before.Number? then before.n else MAX_INT64;
            1 <= HandleQuery(es, f, Number(limit), before).next.value < b
  {
    var b := if before.Number? then before.n else MAX_INT64;
    BelowBounds(es, f, b);
    var rows := Below(es, f, b);
    assert rows[limit - 1] in es;
  }

  /** Below a bound that the older rows do not reach there is nothing to skip. */
  lemma {:induction false} BelowDrop(es: seq<Entry>, f: Filter, before: int, n: nat)
    requires Ascending(es) && 0 < n <= |Below(es, f, before)|
    ensures Below(es, f, before)[n..] == Below(es, f, Below(es, f, before)[n - 1].seqNum)
  {
    var rows := Below(es, f, before);
    var e, past := es[|es| - 1], es[..|es| - 1];
    var older := Below(past, f, before);
    BelowBounds(past, f, before);
    if e.seqNum < before && Matches(f, e) {
      assert rows[1..] == older;
      if n == 1 {
        BelowLoose(past, f, before, e.seqNum);
      } else {
        BelowDrop(past, f, before, n - 1);
        assert rows[n..] == older[n - 1..];
        assert older[n - 2] in past;
      }
    } else {
      BelowDrop(past, f, before, n);
      assert older[n - 1] in past;
    }
  }

  /** Bounds above every row select alike. */
  lemma {:induction false} BelowLoose(es: seq<Entry>, f: Filter, b: int, c: int)
    requires forall i :: 0 <= i < |es| ==> es[i].seqNum < b && es[i].seqNum < c
    ensures Below(es, f, b) == Below(es, f, c)
  {
    if es == [] {
    } else {
      BelowLoose(es[..|es| - 1], f, b, c);
    }
  }

  /** Rows appended later do not show below an older row's number. */
  lemma {:induction false} BelowIgnoresAppends(es: seq<Entry>, fs: seq<Entry>, f: Filter, b: int)
    requires es <= fs
    requires forall i :: |es| <= i < |fs| ==> fs[i].seqNum >= b
    ensures Below(fs, f, b) == Below(es, f, b)
    decreases |fs|
  {
    if |es| == |fs| {
      assert es == fs;
    } else {
      BelowIgnoresAppends(es, fs[..|fs| - 1], f, b);
    }
  }

  lemma {:induction false} GrowsFrom(view: nat -> seq<Entry>, k: nat)
    requires Growing(view)
    ensures view(0) <= view(k)
  {
    if k <= 0 {
    } else {
      GrowsFrom(view, k - 1);
      assert view(k - 1) <= view(k - 1 + 1);
    }
  }

  lemma SnapshotAgrees(view: nat -> seq<Entry>, f: Filter, k: nat, b: int)
    requires Growing(view)
    requires k > 0 ==> exists i :: 0 <= i < |view(0)| && view(0)[i].seqNum == b
    ensures Below(view(k), f, b) == Below(view(0), f, b)
  {
    var es, fs := view(0), view(k);
    GrowsFrom(view, k);
    assert Numbered(fs);
    if k > 0 {
      var i :| 0 <= i < |es| && es[i].seqNum == b;
      forall j | |es| <= j < |fs|
        ensures fs[j].seqNum >= b
      {
        assert fs[i] == es[i];
      }
    }
    BelowIgnoresAppends(es, fs, f, b);
  }

  function Bound(before: Param): int {
    if before.Number? then before.n else MAX_INT64
  }

  /** One request of the walk, in terms of the rows below its bound. */
  lemma FollowStep(view: nat -> seq<Entry>, f: Filter, limit: nat, k: nat, before: Param)
    requires Growing(view) && 1 <= limit <= MAX_PAGE_SIZE
    requires before.Absent? || (before.Number? && before.n >= 1)
    ensures var rows := Below(view(k), f, Bound(before));
            if |rows| < limit then Follow(view, f, limit, k, before) == rows
            else
              && 1 <= rows[limit - 1].seqNum < Bound(before)
              && Follow(view, f, limit, k, before)
                 == rows[..limit] + Follow(view, f, limit, k + 1, Number(rows[limit - 1].seqNum))
  {
    var rows := Below(view(k), f, Bound(before));
    if |rows| >= limit {
      assert Numbered(view(k));
      CursorDecreases(view(k), f, limit, before);
      if |rows| == limit { assert rows[..limit] == rows; }
    }
  }

  /** Every later page continues where the first snapshot left off. */
  lemma {:induction false} FollowContinues(view: nat -> seq<Entry>, f: Filter, limit: nat, k: nat, before: Param)
    requires Growing(view) && 1 <= limit <= MAX_PAGE_SIZE
    requires before.Absent? || (before.Number? && before.n >= 1)
    requires k > 0 ==> exists i :: 0 <= i < |view(0)| && view(0)[i].seqNum == Bound(before)
    ensures Follow(view, f, limit, k, before) == Below(view(0), f, Bound(before))
    decreases Bound(before)
  {
    var es, b := view(0), Bound(before);
    var rows := Below(es, f, b);
    SnapshotAgrees(view, f, k, b);
    FollowStep(view, f, limit, k, before);
    if |rows| >= limit {
      var last := rows[limit - 1];
      BelowBounds(es, f, b);
      assert last in es;
      assert Numbered(es);
      BelowDrop(es, f, b, limit);
      FollowContinues(view, f, limit, k + 1, Number(last.seqNum));
      assert rows == rows[..limit] + rows[limit..];
    }
  }

  /** The first page's bound hides exactly the matching rows numbered MaxInt64 or more. */
  lemma {:induction false} FirstBoundIsExact(es: seq<Entry>, f: Filter)
    ensures Below(es, f, MAX_INT64) == Newest(es, f) <==>
            forall i :: 0 <= i < |es| && Matches(f, es[i]) ==> es[i].seqNum < MAX_INT64
  {
    if es == [] {
    } else {
      var past, e := es[..|es| - 1], es[|es| - 1];
      FirstBoundIsExact(past, f);
      BelowNoLonger(past, f, MAX_INT64);
      if e.seqNum < MAX_INT64 && Matches(f, e) {
        assert Below(es, f, MAX_INT64)[1..] == Below(past, f, MAX_INT64);
        assert Newest(es, f)[1..] == Newest(past, f);
      }
      assert forall i :: 0 <= i < |past| ==> past[i] == es[i];
    }
  }

  lemma {:induction false} BelowNoLonger(es: seq<Entry>, f: Filter, b: int)
    ensures |Below(es, f, b)| <= |Newest(es, f)|
  {
    if es == [] {
    } else {
      BelowNoLonger(es[..|es| - 1], f, b);
    }
  }

  /**
   Following the cursor until it is absent returns exactly the ledger as of the
   first page, filtered, newest first, with no gap and no repeat, whatever is
   appended between the pages and whatever the page size.
   */
  lemma PaginationIsExact(view: nat -> seq<Entry>, f: Filter, limit: nat)
    requires Growing(view) && 1 <= limit <= MAX_PAGE_SIZE
    ensures Follow(view, f, limit, 0, Absent) == Newest(view(0), f)
  {
    FollowContinues(view, f, limit, 0, Absent);
    assert Numbered(view(0));
    FirstBoundIsExact(view(0), f);
  }

  // ----- what a page holds -----

  lemma {:induction false} BelowMeans(es: seq<Entry>, f: Filter, b: int, e: Entry)
    ensures e in Below(es, f, b) <==>
            && e in es && e.seqNum < b
            && (f.agent == "" || f.agent == e.agent) && (f.decision == "" || f.decision == e.decision)
            && (f.tool == "" || f.tool == e.tool)
  {
    if es == [] {
    } else {
      BelowMeans(es[..|es| - 1], f, b, e);
      assert es == es[..|es| - 1] + [es[|es| - 1]];
    }
  }

  /** The walk ends up with exactly the rows that pass every filter that is set. */
  lemma {:induction false} NewestMeans(es: seq<Entry>, f: Filter, e: Entry)
    ensures e in Newest(es, f) <==>
            && e in es
            && (f.agent == "" || f.agent == e.agent) && (f.decision == "" || f.decision == e.decision)
            && (f.tool == "" || f.tool == e.tool)
  {
    if es == [] {
    } else {
      NewestMeans(es[..|es| - 1], f, e);
      assert es == es[..|es| - 1] + [es[|es| - 1]];
    }
  }

  ghost predicate Descending(es: seq<Entry>) {
    forall i, j :: 0 <= i < j < |es| ==> es[i].seqNum > es[j].seqNum
  }

  lemma {:induction false} BelowDescends(es: seq<Entry>, f: Filter, b: int)
    requires Ascending(es)
    ensures Descending(Below(es, f, b))
  {
    if es == [] {
    } else {
      var past, older := es[..|es| - 1], Below(es[..|es| - 1], f, b);
      BelowDescends(past, f, b);
      BelowBounds(past, f, b);
      forall i | 0 <= i < |older|
        ensures older[i].seqNum < es[|es| - 1].seqNum
      {
        assert older[i] in past;
      }
    }
  }

  lemma {:induction false} NewestDescends(es: seq<Entry>, f: Filter)
    requires Ascending(es)
    ensures Descending(Newest(es, f))
  {
    if es == [] {
    } else {
      var past, older := es[..|es| - 1], Newest(es[..|es| - 1], f);
      NewestDescends(past, f);
      forall i | 0 <= i < |older|
        ensures older[i].seqNum < es[|es| - 1].seqNum
      {
        NewestMeans(past, f, older[i]);
      }
    }
  }

  /** The query is refused exactly for a limit outside 1 to 1000 or a cursor below 1, or for either not being a number. */
  lemma RefusedExactly(es: seq<Entry>, f: Filter, limit: Param, before: Param)
    ensures HandleQuery(es, f, limit, before).BadRequest? <==>
            || limit.Garbage? || (limit.Number? && !(1 <= limit.n <= 1000))
            || before.Garbage? || (before.Number? && before.n < 1)
  {
  }

  /**
   What a page answers: the newest rows below the cursor that pass the filters, newest
   first, as many as the limit (100 if none is given) allows, and a next cursor, the
   last row's number, exactly when the page is full.
   */
  lemma PageMeans(es: seq<Entry>, f: Filter, limit: Param, before: Param, e: Entry)
    requires Ascending(es) && !HandleQuery(es, f, limit, before).BadRequest?
    ensures var r, size := HandleQuery(es, f, limit, before), if limit.Number? then limit.n else 100;
            && |r.entries| <= size && Descending(r.entries)
            && (e in r.entries ==> Wanted(f, before, e) && e in es)
            && (e in es && Wanted(f, before, e) && e !in r.entries ==>
                  |r.entries| == size && r.entries[size - 1].seqNum > e.seqNum)
            && r.next == if |r.entries| == size then Some(r.entries[size - 1].seqNum) else None
  {
    var b := if before.Number? then before.n else MAX_INT64;
    var size := if limit.Number? then limit.n else 100;
    var rows := Below(es, f, b);
    BelowMeans(es, f, b, e);
    BelowDescends(es, f, b);
    if e in rows && |rows| > size {
      var k :| 0 <= k < |rows| && rows[k] == e;
      assert k < size ==> rows[..size][k] == e;
    }
  }

  /** The row passes every filter that is set and stands below the cursor, or below MaxInt64 on a first page. */
  predicate Wanted(f: Filter, before: Param, e: Entry) {
    && e.seqNum < (if before.Number? then before.n else 0x7FFF_FFFF_FFFF_FFFF)
    && (f.agent == "" || f.agent == e.agent) && (f.decision == "" || f.decision == e.decision)
    && (f.tool == "" || f.tool == e.tool)
  }

  // ----- pages served while appends go on -----

  /** The chain after the first i actions of a run of appends. */
  function ChainAt(seal: Entry -> string, run: seq<Appends.Action>, i: nat): seq<Entry> {
    if i <= |run| && Appends.After(seal, run[..i]).Some? then Appends.After(seal, run[..i]).value.chain else []
  }

  lemma ChainAtGrows(seal: Entry -> string, run: seq<Appends.Action>, i: nat, j: nat)
    requires Appends.After(seal, run).Some? && i <= j <= |run|
    ensures ChainAt(seal, run, i) <= ChainAt(seal, run, j)
  {
    Appends.PrefixIsRun(seal, run, j);
    Appends.ChainGrows(seal, run[..j], i);
    assert run[..j][..i] == run[..i];
  }

  lemma ChainAtNumbered(seal: Entry -> string, run: seq<Appends.Action>, i: nat)
    requires Appends.IgnoresHash(seal) && Appends.After(seal, run).Some? && i <= |run|
    requires |ChainAt(seal, run, |run|)| < MAX_INT64
    ensures Numbered(ChainAt(seal, run, i))
  {
    ChainAtGrows(seal, run, i, |run|);
    Appends.PrefixIsRun(seal, run, i);
    Appends.InvAlways(seal, run[..i]);
  }

  /** The moments at which pages are served, in order, within a run of n actions. */
  ghost predicate Moments(at: nat -> nat, n: nat) {
    forall j: nat, k: nat :: j <= k ==> at(j) <= at(k) <= n
  }

  lemma NextMoment(at: nat -> nat, n: nat, k: nat)
    requires Moments(at, n)
    ensures at(k) <= at(k + 1) <= n
  {
  }

  /** What the page requests of a run see. */
  function Views(seal: Entry -> string, run: seq<Appends.Action>, at: nat -> nat): nat -> seq<Entry> {
    (k: nat) => ChainAt(seal, run, at(k))
  }

  lemma ViewStep(seal: Entry -> string, run: seq<Appends.Action>, at: nat -> nat, k: nat)
    requires Appends.IgnoresHash(seal) && Appends.After(seal, run).Some?
    requires Moments(at, |run|) && |ChainAt(seal, run, |run|)| < MAX_INT64
    ensures Numbered(Views(seal, run, at)(k)) && Views(seal, run, at)(k) <= Views(seal, run, at)(k + 1)
  {
    NextMoment(at, |run|, k);
    ChainAtNumbered(seal, run, at(k));
    ChainAtGrows(seal, run, at(k), at(k + 1));
  }

  lemma ViewsGrow(seal: Entry -> string, run: seq<Appends.Action>, at: nat -> nat)
    requires Appends.IgnoresHash(seal) && Appends.After(seal, run).Some?
    requires Moments(at, |run|) && |ChainAt(seal, run, |run|)| < MAX_INT64
    ensures Growing(Views(seal, run, at))
  {
    forall k: nat
      ensures Numbered(Views(seal, run, at)(k)) && Views(seal, run, at)(k) <= Views(seal, run, at)(k + 1)
    {
      ViewStep(seal, run, at, k);
    }
  }

  /**
   Pagination over a live ledger: page k is served after the first `at(k)` actions of
   any run of concurrent appends, and the walk still returns exactly the ledger as of
   its first page.
   */
  lemma PagesOfARun(H: string -> string, seal: Entry -> string, run: seq<Appends.Action>, at: nat -> nat, f: Filter, limit: nat)
    requires Seals(seal, H) && Appends.After(seal, run).Some?
    requires Moments(at, |run|) && |ChainAt(seal, run, |run|)| < MAX_INT64 && 1 <= limit <= MAX_PAGE_SIZE
    ensures Growing(Views(seal, run, at))
    ensures Follow(Views(seal, run, at), f, limit, 0, Absent) == Newest(ChainAt(seal, run, at(0)), f)
  {
    Appends.SealIgnoresHash(seal, H);
    ViewsGrow(seal, run, at);
    PaginationIsExact(Views(seal, run, at), f, limit);
  }
}
