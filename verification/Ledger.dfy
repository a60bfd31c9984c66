/**
 What a ledger entry's hash commits to. The digest is an arbitrary function, so
 the results hold of SHA-256 and of any other digest.
 */
module Ledger {
  import opened Options
  import opened Encoding

  // ----- timestamps -----

  type TwoDigits = n: nat | n < 100
  type Nanos = n: nat | n < 1_000_000_000

  /** A civil UTC time. */
  datatype Timestamp = Timestamp(
    year: int,
    month: TwoDigits,
    day: TwoDigits,
    hour: TwoDigits,
    minute: TwoDigits,
    second: TwoDigits,
    nanos: Nanos)

  /** Truncated to the microsecond, the precision the database keeps. */
  function Normalize(t: Timestamp): Timestamp {
    t.(nanos := t.nanos / 1000 * 1000)
  }

  function Pow10(w: nat): nat {
    if w == 0 then 1 else 10 * Pow10(w - 1)
  }

  /** The last w decimal digits. */
  function Fixed(n: nat, w: nat): (s: string)
    ensures |s| == w
  {
    if w == 0 then "" else Fixed(n / 10, w - 1) + [Digit(n % 10)]
  }

  lemma {:induction false} FixedVal(n: nat, w: nat)
    requires n < Pow10(w)
    ensures Val(Fixed(n, w)) == n && AllDigits(Fixed(n, w))
  {
    if w <= 0 {
    } else {
      FixedVal(n / 10, w - 1);
      assert Fixed(n, w)[..w - 1] == Fixed(n / 10, w - 1);
    }
  }

  /** At least four digits, with a sign for years before year zero. */
  function FormatYear(y: int): string {
    var n: nat := if y < 0 then -y else y;
    (if y < 0 then "-" else "") + if n < 10000 then Fixed(n, 4) else Dec(n)
  }

  lemma YearRoundTrip(y: int)
    ensures SignedVal(FormatYear(y)) == y
  {
    var n: nat := if y < 0 then -y else y;
    var digits := if n < 10000 then Fixed(n, 4) else Dec(n);
    if n < 10000 {
      assert Pow10(4) == 10000;
      FixedVal(n, 4);
    } else {
      DecVal(n);
    }
    assert FormatYear(y) == if y < 0 then "-" + digits else digits;
    assert ("-" + digits)[1..] == digits;
    assert IsDigit(digits[0]);
  }

  /** "T15:04:05.000000Z". */
  function FormatClock(t: Timestamp): string {
    "T" + Fixed(t.hour, 2) + (":" + Fixed(t.minute, 2) + (":" + Fixed(t.second, 2) + ("." + Fixed(t.nanos / 1000, 6) + "Z")))
  }

  /** "2006-01-02T15:04:05.000000Z07:00" in UTC. */
  function FormatTime(t: Timestamp): string {
    FormatYear(t.year) + ("-" + Fixed(t.month, 2) + ("-" + Fixed(t.day, 2) + FormatClock(t)))
  }

  /** The digits from i to j, read as a number. */
  predicate Shows(f: string, i: nat, j: nat, n: nat) {
    i <= j <= |f| && (forall k :: i <= k < j ==> IsDigit(f[k])) && Val(f[i..j]) == n
  }

  predicate ShowsClock(f: string, i: nat, t: Timestamp) {
    && i + 17 == |f|
    && f[i] == 'T' && Shows(f, i + 1, i + 3, t.hour)
    && f[i + 3] == ':' && Shows(f, i + 4, i + 6, t.minute)
    && f[i + 6] == ':' && Shows(f, i + 7, i + 9, t.second)
    && f[i + 9] == '.' && Shows(f, i + 10, i + 16, t.nanos / 1000)
    && f[i + 16] == 'Z'
  }

  predicate ShowsDate(f: string, n: nat, t: Timestamp) {
    && n + 6 <= |f|
    && f[n] == '-' && Shows(f, n + 1, n + 3, t.month)
    && f[n + 3] == '-' && Shows(f, n + 4, n + 6, t.day)
  }

  /** "YYYY-MM-DDThh:mm:ss.uuuuuuZ": the year from the left, everything else at a fixed distance from the right. */
  predicate ShowsTime(f: string, t: Timestamp) {
    && |f| >= 27
    && var n := |f| - 23;
       && SignedVal(f[..n]) == t.year && (0 <= t.year < 10000 ==> n == 4)
       && ShowsDate(f, n, t) && ShowsClock(f, n + 6, t)
  }

  /** A separator and a fixed-width number, after what stands to the left. */
  lemma PieceShows(f: string, left: string, sep: char, n: nat, w: nat, right: string) returns (next: string)
    requires n < Pow10(w) && f == left + ([sep] + Fixed(n, w) + right)
    ensures f == next + right && |next| == |left| + 1 + w <= |f|
    ensures f[|left|] == sep && Shows(f, |left| + 1, |left| + 1 + w, n)
  {
    var d, i := Fixed(n, w), |left| + 1;
    next := left + ([sep] + d);
    FixedVal(n, w);
    assert f[i..i + w] == d;
    forall k | i <= k < i + w
      ensures IsDigit(f[k])
    {
      assert f[k] == d[k - i];
    }
  }

  lemma YearWidth(y: int)
    ensures |FormatYear(y)| >= 4 && (0 <= y < 10000 ==> |FormatYear(y)| == 4)
  {
    var n: nat := if y < 0 then -y else y;
    if n >= 10000 { DecWidth(n, 4); }
  }

  lemma {:induction false} DecWidth(n: nat, w: nat)
    requires n >= Pow10(w)
    ensures |Dec(n)| > w
  {
    if w == 0 {
      DecVal(n);
    } else {
      assert n / 10 >= Pow10(w - 1);
      DecWidth(n / 10, w - 1);
    }
  }

  lemma ClockIsShown(f: string, left: string, t: Timestamp)
    requires f == left + FormatClock(t)
    ensures ShowsClock(f, |left|, t)
  {
    assert Pow10(2) == 100 && Pow10(6) == 1000000;
    var r3 := "." + Fixed(t.nanos / 1000, 6) + "Z";
    var r2 := ":" + Fixed(t.second, 2) + r3;
    var r1 := ":" + Fixed(t.minute, 2) + r2;
    var l1 := PieceShows(f, left, 'T', t.hour, 2, r1);
    var l2 := PieceShows(f, l1, ':', t.minute, 2, r2);
    var l3 := PieceShows(f, l2, ':', t.second, 2, r3);
    var l4 := PieceShows(f, l3, '.', t.nanos / 1000, 6, "Z");
    assert f[|l4|] == 'Z';
  }

  lemma DateIsShown(f: string, left: string, t: Timestamp, clock: string) returns (next: string)
    requires f == left + ("-" + Fixed(t.month, 2) + ("-" + Fixed(t.day, 2) + clock))
    ensures ShowsDate(f, |left|, t) && f == next + clock && |next| == |left| + 6
  {
    assert Pow10(2) == 100;
    var l1 := PieceShows(f, left, '-', t.month, 2, "-" + Fixed(t.day, 2) + clock);
    next := PieceShows(f, l1, '-', t.day, 2, clock);
  }

  lemma TimeIsShown(t: Timestamp)
    ensures ShowsTime(FormatTime(t), t)
  {
    YearWidth(t.year);
    YearRoundTrip(t.year);
    PartsShowTime(FormatTime(t), FormatYear(t.year), t);
  }

  lemma PartsShowTime(f: string, y: string, t: Timestamp)
    requires f == y + ("-" + Fixed(t.month, 2) + ("-" + Fixed(t.day, 2) + FormatClock(t)))
    requires |y| >= 4 && SignedVal(y) == t.year && (0 <= t.year < 10000 ==> |y| == 4)
    ensures ShowsTime(f, t)
  {
    var left := DateIsShown(f, y, t, FormatClock(t));
    ClockIsShown(f, left, t);
    PartsTogether(f, y, t);
  }

  lemma PartsTogether(f: string, y: string, t: Timestamp)
    requires y <= f && ShowsDate(f, |y|, t) && ShowsClock(f, |y| + 6, t)
    requires |y| >= 4 && SignedVal(y) == t.year && (0 <= t.year < 10000 ==> |y| == 4)
    ensures ShowsTime(f, t)
  {
    assert f[..|y|] == y;
  }

  lemma SameTimeShown(f: string, t: Timestamp, u: Timestamp)
    requires ShowsTime(f, t) && ShowsTime(f, u)
    ensures t.(nanos := 0) == u.(nanos := 0) && t.nanos / 1000 == u.nanos / 1000
  {
  }

  lemma TimeInjective(t: Timestamp, u: Timestamp)
    requires FormatTime(t) == FormatTime(u)
    ensures Normalize(t) == Normalize(u)
  {
    TimeIsShown(t);
    TimeIsShown(u);
    SameTimeShown(FormatTime(t), t, u);
  }

  // ----- entries and their hash -----

  datatype Entry = Entry(
    seqNum: int,
    timestamp: Timestamp,
    agent: string,
    tool: string,
    decision: string,
    policyRule: string,
    payloadHash: string,
    requestId: string,
    prevHash: string,
    hash: string,
    policyVersion: string)

  /** The fields that are hashed; the policy version joins only when set. */
  function Fields(e: Entry): seq<string> {
    [SignedDec(e.seqNum), FormatTime(Normalize(e.timestamp)), e.agent, e.tool, e.decision, e.policyRule,
     e.payloadHash, e.requestId, e.prevHash]
    + if e.policyVersion != "" then [e.policyVersion] else []
  }

  function Preimage(e: Entry): string {
    EncodeFields(Fields(e))
  }

  function CalculateHash(H: string -> string, e: Entry): string {
    H(Preimage(e))
  }

  /** Everything about an entry that its hash commits to. */
  function Committed(e: Entry): Entry {
    e.(timestamp := Normalize(e.timestamp), hash := "")
  }

  lemma FieldsCommit(d: Entry, e: Entry)
    requires Fields(d) == Fields(e)
    ensures Committed(d) == Committed(e)
  {
    var fs, gs := Fields(d), Fields(e);
    assert |fs| == |gs|;
    assert fs[0] == gs[0] && fs[1] == gs[1] && fs[2] == gs[2] && fs[3] == gs[3] && fs[4] == gs[4];
    assert fs[5] == gs[5] && fs[6] == gs[6] && fs[7] == gs[7] && fs[8] == gs[8];
    assert |fs| == 10 ==> fs[9] == gs[9];
    SignedRoundTrip(d.seqNum);
    SignedRoundTrip(e.seqNum);
    TimeInjective(Normalize(d.timestamp), Normalize(e.timestamp));
  }

  /**
   Two entries have the same preimage exactly when they agree on every hashed
   field; in particular an entry without a policy version never shares one with
   an entry that has it.
   */
  lemma PreimageIsExact(d: Entry, e: Entry)
    ensures Preimage(d) == Preimage(e) <==> Committed(d) == Committed(e)
  {
    var fs, gs := Fields(d), Fields(e);
    if EncodeFields(fs) == EncodeFields(gs) {
      Encoding.FieldsInjective(fs, gs);
      FieldsCommit(d, e);
    }
    if Committed(d) == Committed(e) {
      assert d.timestamp.nanos / 1000 * 1000 == Committed(d).timestamp.nanos;
      assert Normalize(d.timestamp) == Committed(d).timestamp == Committed(e).timestamp == Normalize(e.timestamp);
      assert fs == gs;
    }
  }

  // ----- where each column stands in the preimage -----

  /**
   What the hashed bytes say: decoded again they are the nine columns in this order,
   sequence number and time in their text form, and the policy version as a tenth
   exactly when it is set.
   */
  lemma PreimageLayout(e: Entry, fs: seq<string>)
    requires DecodeFields(Preimage(e)) == Some(fs)
    ensures |fs| == if e.policyVersion == "" then 9 else 10
    ensures SignedVal(fs[0]) == e.seqNum && ShowsTime(fs[1], e.timestamp)
    ensures fs[2] == e.agent && fs[3] == e.tool && fs[4] == e.decision && fs[5] == e.policyRule
    ensures fs[6] == e.payloadHash && fs[7] == e.requestId && fs[8] == e.prevHash
    ensures e.policyVersion != "" ==> fs[9] == e.policyVersion
  {
    FieldsRoundTrip(Fields(e));
    ColumnsInOrder(e);
    SignedRoundTrip(e.seqNum);
    NormalizedIsShown(e.timestamp);
  }

  lemma ColumnsInOrder(e: Entry)
    ensures var fs := Fields(e);
            && |fs| == (if e.policyVersion == "" then 9 else 10)
            && fs[0] == SignedDec(e.seqNum) && fs[1] == FormatTime(Normalize(e.timestamp))
            && fs[2] == e.agent && fs[3] == e.tool && fs[4] == e.decision && fs[5] == e.policyRule
            && fs[6] == e.payloadHash && fs[7] == e.requestId && fs[8] == e.prevHash
            && (e.policyVersion != "" ==> fs[9] == e.policyVersion)
  {
  }

  lemma NormalizedIsShown(t: Timestamp)
    ensures ShowsTime(FormatTime(Normalize(t)), t)
  {
    TimeIsShown(Normalize(t));
    assert t.nanos / 1000 * 1000 / 1000 == t.nanos / 1000;
  }

  /** The bytes of a field: its length in decimal, a colon, the field and a semicolon. */
  lemma FieldBytes()
    ensures EncodeFields(["bot", "pay"]) == "3:bot;3:pay;" && EncodeFields([""]) == "0:;"
  {
    assert ["bot", "pay"][1..] == ["pay"] && ["pay"][1..] == [] && [""][1..] == [];
    assert Chunk("bot") == "3:bot" && Chunk("pay") == "3:pay" && Chunk("") == "0:";
  }
}
