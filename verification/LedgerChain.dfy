/**
 Verifying the hash chain, and what a verified chain is worth. The entry hash is
 a parameter `seal`; the tamper-evidence results instantiate it with the digest
 of the canonical preimage.
 */
module LedgerChain {
  import opened Options
  import opened Ledger

  function HeadHash(es: seq<Entry>): string {
    if es == [] then "" else es[|es| - 1].hash
  }

  predicate LinkOk(es: seq<Entry>, i: nat)
    requires i < |es|
  {
    es[i].prevHash == HeadHash(es[..i])
  }

  predicate HashOk(seal: Entry -> string, es: seq<Entry>, i: nat)
    requires i < |es|
  {
    es[i].hash == seal(es[i])
  }

  /** Every entry links to the one before it and carries the hash of its own content. */
  ghost predicate Chained(seal: Entry -> string, es: seq<Entry>) {
    forall i :: 0 <= i < |es| ==> LinkOk(es, i) && HashOk(seal, es, i)
  }

  /** A chain head recorded outside the database. */
  datatype Anchor = Anchor(seqNum: int, hash: string)

  predicate AnchorOk(es: seq<Entry>, i: nat, anchor: Option<Anchor>)
    requires i < |es|
  {
    anchor.Some? && es[i].seqNum == anchor.value.seqNum ==> es[i].hash == anchor.value.hash
  }

  ghost predicate AnchorPresent(es: seq<Entry>, anchor: Option<Anchor>) {
    anchor.None? || exists i :: 0 <= i < |es| && es[i].seqNum == anchor.value.seqNum
  }

  predicate EntryOk(seal: Entry -> string, es: seq<Entry>, anchor: Option<Anchor>, i: nat)
    requires i < |es|
  {
    LinkOk(es, i) && HashOk(seal, es, i) && AnchorOk(es, i, anchor)
  }

  /** What verification is meant to decide. */
  ghost predicate Verifies(seal: Entry -> string, es: seq<Entry>, anchor: Option<Anchor>) {
    && Chained(seal, es)
    && AnchorPresent(es, anchor)
    && forall i :: 0 <= i < |es| ==> AnchorOk(es, i, anchor)
  }

  lemma VerifiesEntrywise(seal: Entry -> string, es: seq<Entry>, anchor: Option<Anchor>)
    ensures Verifies(seal, es, anchor) <==>
            AnchorPresent(es, anchor) && forall i :: 0 <= i < |es| ==> EntryOk(seal, es, anchor, i)
  {
    if Verifies(seal, es, anchor) {
      assert forall i :: 0 <= i < |es| ==> LinkOk(es, i) && HashOk(seal, es, i) && AnchorOk(es, i, anchor);
    }
    if forall i :: 0 <= i < |es| ==> EntryOk(seal, es, anchor, i) {
      forall i | 0 <= i < |es|
        ensures LinkOk(es, i) && HashOk(seal, es, i) && AnchorOk(es, i, anchor)
      {
        assert EntryOk(seal, es, anchor, i);
      }
    }
  }

  const BAD_LINK := "prev_hash does not link to the previous entry"
  const BAD_HASH := "hash does not match entry contents"
  const BAD_ANCHOR := "entry differs from the external anchor"
  const NO_ANCHOR := "anchored entry is missing (ledger truncated or rewritten)"

  datatype Report = Report(valid: bool, entries: nat, headSeq: int, headHash: string, firstInvalidSeq: int, reason: string)

  /** The report names the first entry that fails, and the first check it fails. */
  ghost predicate BlamesFirst(seal: Entry -> string, es: seq<Entry>, anchor: Option<Anchor>, report: Report) {
    && 0 < report.entries <= |es|
    && var i := report.entries - 1;
       && (forall j :: 0 <= j < i ==> EntryOk(seal, es, anchor, j))
       && !EntryOk(seal, es, anchor, i)
       && report.firstInvalidSeq == es[i].seqNum
       && report.headHash == HeadHash(es[..i])
       && report.reason == (if !LinkOk(es, i) then BAD_LINK else if !HashOk(seal, es, i) then BAD_HASH else BAD_ANCHOR)
  }

  /**
   The streaming verification loop. It is sound and complete, and when it fails
   it blames the first offending entry or, if every entry is good, the missing
   anchor.
   */
  method VerifyChain(seal: Entry -> string, es: seq<Entry>, anchor: Option<Anchor>) returns (report: Report)
    ensures report.valid <==> Verifies(seal, es, anchor)
    ensures report.valid ==> report.entries == |es| && report.headHash == HeadHash(es)
                             && report.headSeq == (if es == [] then 0 else es[|es| - 1].seqNum)
    ensures !report.valid ==>
              || BlamesFirst(seal, es, anchor, report)
              || (&& (forall j :: 0 <= j < |es| ==> EntryOk(seal, es, anchor, j))
                  && !AnchorPresent(es, anchor)
                  && report.firstInvalidSeq == anchor.value.seqNum && report.reason == NO_ANCHOR)
  {
    VerifiesEntrywise(seal, es, anchor);
    report := Report(true, 0, 0, "", 0, "");
    var anchorSeen := false;
    var i := 0;
    while i < |es|
      invariant 0 <= i <= |es|
      invariant report == Report(true, i, if i == 0 then 0 else es[i - 1].seqNum, HeadHash(es[..i]), 0, "")
      invariant forall j :: 0 <= j < i ==> EntryOk(seal, es, anchor, j)
      invariant anchorSeen <==> anchor.Some? && exists j :: 0 <= j < i && es[j].seqNum == anchor.value.seqNum
    {
      var entry := es[i];
      report := report.(entries := report.entries + 1);
      if entry.prevHash != report.headHash {
        report := report.(valid := false, firstInvalidSeq := entry.seqNum, reason := BAD_LINK);
        assert !EntryOk(seal, es, anchor, i);
        return;
      }
      if entry.hash != seal(entry) {
        report := report.(valid := false, firstInvalidSeq := entry.seqNum, reason := BAD_HASH);
        assert !EntryOk(seal, es, anchor, i);
        return;
      }
      if anchor.Some? && entry.seqNum == anchor.value.seqNum {
        anchorSeen := true;
        if entry.hash != anchor.value.hash {
          report := report.(valid := false, firstInvalidSeq := entry.seqNum, reason := BAD_ANCHOR);
          assert !EntryOk(seal, es, anchor, i);
          return;
        }
      }
      report := report.(headSeq := entry.seqNum, headHash := entry.hash);
      i := i + 1;
    }
    assert es[..|es|] == es;
    if anchor.Some? && !anchorSeen {
      report := report.(valid := false, firstInvalidSeq := anchor.value.seqNum, reason := NO_ANCHOR);
    }
  }

  // ----- what verification is worth -----

  /** Rows come in primary-key order. */
  ghost predicate Ascending(es: seq<Entry>) {
    forall i, j :: 0 <= i < j < |es| ==> es[i].seqNum < es[j].seqNum
  }

  lemma PrefixChained(seal: Entry -> string, es: seq<Entry>, k: nat)
    requires Chained(seal, es) && k <= |es|
    ensures Chained(seal, es[..k])
  {
    forall i | 0 <= i < k
      ensures LinkOk(es[..k], i) && HashOk(seal, es[..k], i)
    {
      assert LinkOk(es, i) && HashOk(seal, es, i);
      assert es[..k][..i] == es[..i];
    }
  }

  /** Truncation passes unanchored verification and fails against the old head. */
  lemma TruncationNeedsAnAnchor(seal: Entry -> string, es: seq<Entry>, k: nat)
    requires Verifies(seal, es, None) && Ascending(es) && k < |es|
    ensures Verifies(seal, es[..k], None)
    ensures !Verifies(seal, es[..k], Some(Anchor(es[|es| - 1].seqNum, es[|es| - 1].hash)))
  {
    PrefixChained(seal, es, k);
  }

  /** The entry hash is a 64-character digest of the canonical preimage. */
  ghost predicate Seals(seal: Entry -> string, H: string -> string) {
    && (forall x :: |H(x)| == 64)
    && (forall e :: seal(e) == CalculateHash(H, e))
  }

  /** Two chains with the same committed content, entry by entry. */
  ghost predicate SameContent(ds: seq<Entry>, es: seq<Entry>) {
    && |ds| == |es|
    && forall i :: 0 <= i < |ds| ==> Committed(ds[i]) == Committed(es[i]) && ds[i].hash == es[i].hash
  }

  predicate Collision(H: string -> string, pair: (string, string)) {
    pair.0 != pair.1 && H(pair.0) == H(pair.1)
  }

  lemma SameContentPush(ds: seq<Entry>, es: seq<Entry>)
    requires ds != [] && es != []
    requires SameContent(ds[..|ds| - 1], es[..|es| - 1])
    requires Committed(ds[|ds| - 1]) == Committed(es[|es| - 1]) && ds[|ds| - 1].hash == es[|es| - 1].hash
    ensures SameContent(ds, es)
  {
    var m := |ds| - 1;
    forall i | 0 <= i < |ds|
      ensures Committed(ds[i]) == Committed(es[i]) && ds[i].hash == es[i].hash
    {
      if i < m { assert ds[..m][i] == ds[i] && es[..m][i] == es[i]; }
    }
  }

  lemma LastEntry(seal: Entry -> string, es: seq<Entry>)
    requires Chained(seal, es) && es != []
    ensures es[|es| - 1].hash == seal(es[|es| - 1]) == HeadHash(es)
    ensures es[|es| - 1].prevHash == HeadHash(es[..|es| - 1])
    ensures Chained(seal, es[..|es| - 1])
  {
    assert LinkOk(es, |es| - 1) && HashOk(seal, es, |es| - 1);
    PrefixChained(seal, es, |es| - 1);
  }

  /** A digest is never the empty string that stands before the first entry. */
  lemma NoEmptyHead(seal: Entry -> string, es: seq<Entry>)
    requires (forall e :: seal(e) != "") && Chained(seal, es)
    ensures HeadHash(es) == "" <==> es == []
  {
    if es != [] { LastEntry(seal, es); }
  }

  /**
   Walk two verified chains with the same head hash back from their ends: either
   they have the same length and content, or the walk meets two entries with the
   same hash and different content.
   */
  function FindConflict(seal: Entry -> string, ds: seq<Entry>, es: seq<Entry>): (r: Option<(Entry, Entry)>)
    requires (forall e :: seal(e) != "") && Chained(seal, ds) && Chained(seal, es)
    requires HeadHash(ds) == HeadHash(es)
    ensures r.None? ==> SameContent(ds, es)
    ensures r.Some? ==> seal(r.value.0) == seal(r.value.1) && Committed(r.value.0) != Committed(r.value.1)
  {
    if ds == [] || es == [] then
      NoEmptyHead(seal, ds);
      NoEmptyHead(seal, es);
      None
    else
      var d, e := ds[|ds| - 1], es[|es| - 1];
      LastEntry(seal, ds);
      LastEntry(seal, es);
      if Committed(d) != Committed(e) then Some((d, e))
      else
        assert d.prevHash == Committed(d).prevHash == Committed(e).prevHash == e.prevHash;
        var earlier := FindConflict(seal, ds[..|ds| - 1], es[..|es| - 1]);
        if earlier.None? then SameContentPush(ds, es); None else earlier
  }

  /**
   Tamper evidence: two verified chains that end in the same hash have the same
   length and agree on every hashed field, or two different preimages with the
   same digest are computed from them.
   */
  lemma FindCollision(H: string -> string, seal: Entry -> string, ds: seq<Entry>, es: seq<Entry>)
    returns (r: Option<(string, string)>)
    requires Seals(seal, H) && Chained(seal, ds) && Chained(seal, es)
    requires HeadHash(ds) == HeadHash(es)
    ensures r.None? ==> SameContent(ds, es)
    ensures r.Some? ==> Collision(H, r.value)
  {
    SealsNonEmpty(seal, H);
    var conflict := FindConflict(seal, ds, es);
    if conflict.None? { return None; }
    var (d, e) := conflict.value;
    PreimageIsExact(d, e);
    r := Some((Preimage(d), Preimage(e)));
  }

  lemma SealsNonEmpty(seal: Entry -> string, H: string -> string)
    requires Seals(seal, H)
    ensures forall e :: seal(e) != ""
  {
    forall e ensures seal(e) != "" {
      assert |H(Preimage(e))| == 64;
    }
  }

  /**
   An anchor fixes history: a chain that verifies against the head of an earlier
   verified chain starts with exactly that chain's content, or a collision of
   the digest is computed from the two.
   */
  lemma AnchorFixesHistory(H: string -> string, seal: Entry -> string, original: seq<Entry>, current: seq<Entry>)
    returns (k: nat, collision: Option<(string, string)>)
    requires Seals(seal, H) && Chained(seal, original) && original != []
    requires var head := original[|original| - 1];
             Verifies(seal, current, Some(Anchor(head.seqNum, head.hash)))
    ensures k <= |current|
    ensures collision.Some? ==> Collision(H, collision.value)
    ensures collision.None? ==> k == |original| && SameContent(original, current[..k])
  {
    var head := original[|original| - 1];
    var i :| 0 <= i < |current| && current[i].seqNum == head.seqNum;
    assert AnchorOk(current, i, Some(Anchor(head.seqNum, head.hash)));
    k := i + 1;
    PrefixChained(seal, current, k);
    collision := FindCollision(H, seal, original, current[..k]);
  }
}
