/**
 HTTP headers as Go maps: any key casing, any iteration order. Looking up a
 mirrored header at ingress, and capturing the headers a replay may carry.

 Names and values are sequences of runes. Case mapping is exact wherever the
 result is compared with an ASCII name: besides the ASCII letters, only U+212A
 (Kelvin sign) and U+0130 (dotted I) lower to an ASCII letter, and only U+212A and
 U+017F (long s) fold to one.
 */
module Headers {
  type Header = map<string, seq<string>>

  // ----- names -----

  function AsciiLower(c: char): char {
    if 'A' <= c <= 'Z' then c + 32 as char else c
  }

  /** strings.ToLower, rune by rune. */
  function LowerRune(c: char): char {
    if c == '\U{212A}' then 'k' else if c == '\U{0130}' then 'i' else AsciiLower(c)
  }

  /** The class of runes strings.EqualFold treats as equal. */
  function FoldRune(c: char): char {
    if c == '\U{212A}' then 'k' else if c == '\U{017F}' then 's' else AsciiLower(c)
  }

  function ToLower(s: string): string {
    seq(|s|, i requires 0 <= i < |s| => LowerRune(s[i]))
  }

  predicate EqualFold(s: string, t: string) {
    |s| == |t| && forall i :: 0 <= i < |s| ==> FoldRune(s[i]) == FoldRune(t[i])
  }

  predicate IsTokenChar(c: char) {
    || 'a' <= c <= 'z' || 'A' <= c <= 'Z' || '0' <= c <= '9'
    || c == '!' || '#' <= c <= '\'' || c == '*' || c == '+' || c == '-' || c == '.'
    || '^' <= c <= '`' || c == '|' || c == '~'
  }

  predicate IsToken(s: string) {
    forall i :: 0 <= i < |s| ==> IsTokenChar(s[i])
  }

  function CanonChar(c: char, upper: bool): char {
    if upper && 'a' <= c <= 'z' then c - 32 as char
    else if !upper && 'A' <= c <= 'Z' then c + 32 as char
    else c
  }

  /** textproto.CanonicalMIMEHeaderKey: names that are not tokens stay as they are. */
  function Canon(s: string): string {
    if IsToken(s) then seq(|s|, i requires 0 <= i < |s| => CanonChar(s[i], i == 0 || s[i - 1] == '-')) else s
  }

  const MCP_METHOD := "Mcp-Method"
  const MCP_NAME := "Mcp-Name"
  const MCP_VERSION := "MCP-Protocol-Version"

  predicate Mirrored(name: string) {
    name == MCP_METHOD || name == MCP_NAME || name == MCP_VERSION
  }

  /** The headers a replay may carry. */
  predicate Allowed(name: string) {
    var lower := ToLower(name);
    || lower == "accept" || lower == "mcp-method" || lower == "mcp-name" || lower == "mcp-protocol-version"
    || ("mcp-param-" <= lower && lower != "mcp-param-")
  }

  lemma CanonCharKeeps(c: char, upper: bool)
    requires IsTokenChar(c)
    ensures AsciiLower(CanonChar(c, upper)) == AsciiLower(c)
    ensures FoldRune(CanonChar(c, upper)) == FoldRune(c) && LowerRune(CanonChar(c, upper)) == LowerRune(c)
  {
  }

  lemma CanonKeepsFold(s: string, t: string)
    ensures EqualFold(Canon(s), t) <==> EqualFold(s, t)
    ensures ToLower(Canon(s)) == ToLower(s)
  {
    var c := Canon(s);
    if IsToken(s) {
      forall i | 0 <= i < |s|
        ensures FoldRune(c[i]) == FoldRune(s[i]) && LowerRune(c[i]) == LowerRune(s[i])
      {
        CanonCharKeeps(s[i], i == 0 || s[i - 1] == '-');
      }
    }
  }

  lemma RuneIsAscii(c: char, d: char)
    requires FoldRune(c) == FoldRune(d) && LowerRune(c) == LowerRune(d)
    requires IsTokenChar(d) && AsciiLower(d) != 'k'
    ensures IsTokenChar(c) && AsciiLower(c) == AsciiLower(d)
    ensures c == '-' <==> d == '-'
    ensures forall u :: CanonChar(c, u) == CanonChar(d, u)
  {
  }

  lemma MirroredRune(name: string, i: nat)
    requires Mirrored(name) && i < |name|
    ensures IsTokenChar(name[i]) && AsciiLower(name[i]) != 'k'
  {
  }

  /** A name that both lowers and folds to a mirrored header is that header in some ASCII casing. */
  lemma MirroredIsToken(n: string, name: string)
    requires Mirrored(name) && EqualFold(n, name) && ToLower(n) == ToLower(name)
    ensures IsToken(n) && IsToken(name) && Canon(n) == Canon(name)
  {
    forall i | 0 <= i < |n|
      ensures IsTokenChar(n[i]) && IsTokenChar(name[i]) && (n[i] == '-' <==> name[i] == '-')
      ensures forall u :: CanonChar(n[i], u) == CanonChar(name[i], u)
    {
      assert ToLower(n)[i] == ToLower(name)[i];
      MirroredRune(name, i);
      RuneIsAscii(n[i], name[i]);
    }
    var c, d := Canon(n), Canon(name);
    forall i | 0 <= i < |n|
      ensures c[i] == d[i]
    {
      if i > 0 { assert n[i - 1] == '-' <==> name[i - 1] == '-'; }
    }
  }

  /** An allowed name that folds to a mirrored header also lowers to it. */
  lemma AllowedFoldLowers(n: string, name: string)
    requires Mirrored(name) && EqualFold(n, name) && Allowed(n)
    ensures ToLower(n) == ToLower(name)
  {
    var lower := ToLower(n);
    assert ToLower(MCP_METHOD) == "mcp-method" && ToLower(MCP_NAME) == "mcp-name";
    assert ToLower(MCP_VERSION) == "mcp-protocol-version";
    assert |lower| == |name|;
    assert FoldRune(n[4]) == FoldRune(name[4]);
    assert FoldRune(n[5]) == FoldRune(name[5]);
    assert "mcp-param-" <= lower ==> lower[4] == 'p' && lower[5] == 'a';
  }

  // ----- iteration -----

  /** An iteration order of the header map: every key once. */
  ghost predicate Iterates(order: seq<string>, h: Header) {
    && (forall i, j :: 0 <= i < j < |order| ==> order[i] != order[j])
    && (forall n :: n in order <==> n in h)
  }

  /** The values met under the keys that satisfy p, in iteration order. */
  function Gather(h: Header, order: seq<string>, p: string -> bool): seq<string>
    requires forall n :: n in order ==> n in h
  {
    if order == [] then []
    else
      var n := order[|order| - 1];
      Gather(h, order[..|order| - 1], p) + if p(n) then h[n] else []
  }

  lemma {:induction false} GatherNothing(h: Header, order: seq<string>, p: string -> bool)
    requires forall n :: n in order ==> n in h
    requires forall n :: n in order && p(n) ==> h[n] == []
    ensures Gather(h, order, p) == []
  {
    if order == [] {
    } else {
      var past, n := order[..|order| - 1], order[|order| - 1];
      assert forall m :: m in past ==> m in order;
      GatherNothing(h, past, p);
    }
  }

  lemma {:induction false} GatherOnly(h: Header, order: seq<string>, p: string -> bool, n: string)
    requires forall m :: m in order ==> m in h
    requires forall i, j :: 0 <= i < j < |order| ==> order[i] != order[j]
    requires n in order && p(n)
    requires forall m :: m in order && p(m) && m != n ==> h[m] == []
    ensures Gather(h, order, p) == h[n]
  {
    var past, last := order[..|order| - 1], order[|order| - 1];
    assert order == past + [last];
    if last == n {
      GatherNothing(h, past, p);
    } else {
      GatherOnly(h, past, p, n);
    }
  }

  /** If one value is met in all, one key holds it and the others hold none. */
  lemma {:induction false} GatherOneValue(h: Header, order: seq<string>, p: string -> bool) returns (n: string)
    requires forall m :: m in order ==> m in h
    requires forall i, j :: 0 <= i < j < |order| ==> order[i] != order[j]
    requires |Gather(h, order, p)| == 1
    ensures n in order && p(n) && h[n] == Gather(h, order, p)
    ensures forall m :: m in order && p(m) && m != n ==> h[m] == []
  {
    var past, last := order[..|order| - 1], order[|order| - 1];
    assert order == past + [last];
    if p(last) && h[last] != [] {
      n := last;
      assert Gather(h, past, p) == [];
      GatherEmptyMeans(h, past, p);
    } else {
      n := GatherOneValue(h, past, p);
    }
  }

  lemma {:induction false} GatherEmptyMeans(h: Header, order: seq<string>, p: string -> bool)
    requires forall m :: m in order ==> m in h
    requires Gather(h, order, p) == []
    ensures forall m :: m in order && p(m) ==> h[m] == []
  {
    if order == [] {
    } else {
      var past, last := order[..|order| - 1], order[|order| - 1];
      assert order == past + [last];
      GatherEmptyMeans(h, past, p);
    }
  }

  // ----- looking a header up -----

  datatype Found = Absent | Present(value: string) | Invalid

  /** One visible value without surrounding blanks. */
  predicate GoodValue(v: string) {
    && v != ""
    && v[0] != ' ' && v[0] != '\t' && v[|v| - 1] != ' ' && v[|v| - 1] != '\t'
    && forall i :: 0 <= i < |v| ==> (v[i] >= ' ' || v[i] == '\t') && v[i] <= '~'
  }

  /** Of all keys that fold to the name, n holds the one value and the others none. */
  ghost predicate SoleValue(h: Header, name: string, n: string, v: string) {
    && n in h && EqualFold(n, name) && h[n] == [v]
    && forall m :: m in h && EqualFold(m, name) && m != n ==> h[m] == []
  }

  /** The meaning of a lookup, whatever order the map is walked in. */
  ghost function Lookup(h: Header, name: string): Found {
    if forall n :: n in h ==> !EqualFold(n, name) then Absent
    else if exists n, v :: SoleValue(h, name, n, v) && GoodValue(v) then
      var n, v :| SoleValue(h, name, n, v) && GoodValue(v);
      Present(v)
    else Invalid
  }

  lemma LookupPresent(h: Header, name: string, n: string, v: string)
    requires SoleValue(h, name, n, v)
    ensures Lookup(h, name) == if GoodValue(v) then Present(v) else Invalid
  {
    forall m, w | SoleValue(h, name, m, w)
      ensures m == n && w == v
    {
    }
  }

  /** singleHeader: walk the map in some order, collect, then judge. */
  method SingleHeader(h: Header, name: string) returns (r: Found)
    ensures r == Lookup(h, name)
  {
    var values, present := [], false;
    var left := h.Keys;
    ghost var order, folds := [], (n: string) => EqualFold(n, name);
    while left != {}
      invariant left <= h.Keys
      invariant forall n :: n in order <==> n in h && n !in left
      invariant forall i, j :: 0 <= i < j < |order| ==> order[i] != order[j]
      invariant values == Gather(h, order, folds)
      invariant present <==> exists n :: n in order && EqualFold(n, name)
      decreases left
    {
      var n :| n in left;
      if EqualFold(n, name) {
        present := true;
        values := values + h[n];
      }
      assert (order + [n])[..|order|] == order;
      order, left := order + [n], left - {n};
    }
    if !present { return Absent; }
    if |values| != 1 {
      forall n, v
        ensures !SoleValue(h, name, n, v)
      {
        if SoleValue(h, name, n, v) { GatherOnly(h, order, folds, n); }
      }
      return Invalid;
    }
    ghost var n := GatherOneValue(h, order, folds);
    assert SoleValue(h, name, n, values[0]);
    LookupPresent(h, name, n, values[0]);
    var good := CheckValue(values[0]);
    r := if good then Present(values[0]) else Invalid;
  }

  /** The checks on a single value: not empty, not padded, every character visible or a tab. */
  method CheckValue(value: string) returns (good: bool)
    ensures good <==> GoodValue(value)
  {
    if value == "" { return false; }
    var first, last := value[0], value[|value| - 1];
    if first == ' ' || first == '\t' || last == ' ' || last == '\t' { return false; }
    for i := 0 to |value|
      invariant forall j :: 0 <= j < i ==> (value[j] >= ' ' || value[j] == '\t') && value[j] <= '~'
    {
      var c := value[i];
      if (c < ' ' && c != '\t') || c > '~' { return false; }
    }
    return true;
  }

  // ----- capturing replay headers -----

  function Add(h: Header, name: string, values: seq<string>): Header {
    if values == [] then h
    else h[Canon(name) := (if Canon(name) in h then h[Canon(name)] else []) + values]
  }

  /** What capturing in a given iteration order yields. */
  function CaptureInOrder(h: Header, order: seq<string>): Header
    requires forall n :: n in order ==> n in h
  {
    if order == [] then map[]
    else
      var past, n := CaptureInOrder(h, order[..|order| - 1]), order[|order| - 1];
      if Allowed(n) then Add(past, n, h[n]) else past
  }

  ghost predicate Captures(h: Header, c: Header) {
    exists order :: Iterates(order, h) && c == CaptureInOrder(h, order)
  }

  method CaptureReplayHeaders(h: Header) returns (captured: Header)
    ensures Captures(h, captured)
  {
    captured := map[];
    var left := h.Keys;
    ghost var order := [];
    while left != {}
      invariant left <= h.Keys
      invariant forall n :: n in order <==> n in h && n !in left
      invariant forall i, j :: 0 <= i < j < |order| ==> order[i] != order[j]
      invariant captured == CaptureInOrder(h, order)
      decreases left
    {
      var n :| n in left;
      if Allowed(n) { captured := Add(captured, n, h[n]); }
      assert (order + [n])[..|order|] == order;
      order, left := order + [n], left - {n};
    }
    assert Iterates(order, h);
  }

  /** A captured key holds exactly the values of the allowed keys that canonicalise to it. */
  lemma {:induction false} CapturedAt(h: Header, order: seq<string>, key: string)
    requires forall n :: n in order ==> n in h
    ensures var c, g := CaptureInOrder(h, order), Gather(h, order, (n: string) => Allowed(n) && Canon(n) == key);
            (key in c <==> g != []) && (key in c ==> c[key] == g)
  {
    if order == [] {
    } else {
      CapturedAt(h, order[..|order| - 1], key);
    }
  }

  /** Only allowed headers are ever captured, and none without a value. */
  lemma CapturedAreAllowed(h: Header, c: Header, key: string)
    requires Captures(h, c) && key in c
    ensures Allowed(key) && c[key] != []
  {
    var order :| Iterates(order, h) && c == CaptureInOrder(h, order);
    var p := (n: string) => Allowed(n) && Canon(n) == key;
    CapturedAt(h, order, key);
    if forall n :: n in order ==> !p(n) { GatherNothing(h, order, p); }
    var n :| n in order && p(n);
    CanonKeepsFold(n, n);
  }

  /** Which key a captured header came from. */
  lemma CapturedFrom(h: Header, c: Header, key: string) returns (n: string)
    requires Captures(h, c) && key in c
    ensures n in h && Allowed(n) && Canon(n) == key && h[n] != []
  {
    var order :| Iterates(order, h) && c == CaptureInOrder(h, order);
    var p := (n: string) => Allowed(n) && Canon(n) == key;
    CapturedAt(h, order, key);
    if forall n :: n in order && p(n) ==> h[n] == [] { GatherNothing(h, order, p); }
    n :| n in order && p(n) && h[n] != [];
  }

  lemma MirroredIsAllowed(name: string)
    requires Mirrored(name)
    ensures forall n :: ToLower(n) == ToLower(name) ==> Allowed(n)
  {
    assert ToLower(MCP_METHOD) == "mcp-method" && ToLower(MCP_NAME) == "mcp-name";
    assert ToLower(MCP_VERSION) == "mcp-protocol-version";
  }

  /** A mirrored header under any ASCII casing is captured under its canonical name. */
  lemma SoleSurvivesCapture(h: Header, c: Header, name: string, n: string, v: string)
    requires Mirrored(name) && Captures(h, c)
    requires SoleValue(h, name, n, v) && ToLower(n) == ToLower(name)
    ensures SoleValue(c, name, Canon(name), v) && ToLower(Canon(name)) == ToLower(name)
  {
    var order :| Iterates(order, h) && c == CaptureInOrder(h, order);
    var key := Canon(name);
    var p := (m: string) => Allowed(m) && Canon(m) == key;
    MirroredIsToken(n, name);
    MirroredIsAllowed(name);
    CanonKeepsFold(name, name);
    forall m | m in order && p(m) && m != n
      ensures h[m] == []
    {
      CanonKeepsFold(m, name);
    }
    GatherOnly(h, order, p, n);
    CapturedAt(h, order, key);
    forall k | k in c && EqualFold(k, name)
      ensures k == key
    {
      var m := CapturedFrom(h, c, k);
      CanonKeepsFold(m, name);
    }
  }

  /** Without an allowed key that holds a value the header is absent after capture. */
  lemma NoneSurvivesCapture(h: Header, c: Header, name: string)
    requires Captures(h, c)
    requires forall m :: m in h && Allowed(m) && EqualFold(m, name) ==> h[m] == []
    ensures forall k :: k in c ==> !EqualFold(k, name)
  {
    forall k | k in c
      ensures !EqualFold(k, name)
    {
      var m := CapturedFrom(h, c, k);
      CanonKeepsFold(m, name);
    }
  }

  // ----- storing headers as JSON -----

  /** Encoding a string as JSON and decoding it again replaces undecodable bytes, here the `bad` runes. */
  function Wire(bad: char -> bool, s: string): string {
    seq(|s|, i requires 0 <= i < |s| => if bad(s[i]) then '\U{FFFD}' else s[i])
  }

  function WireAll(bad: char -> bool, vs: seq<string>): seq<string> {
    seq(|vs|, i requires 0 <= i < |vs| => Wire(bad, vs[i]))
  }

  /** Undecodable bytes are represented by runes outside the basic plane. */
  ghost predicate StandsForBytes(bad: char -> bool) {
    forall c :: bad(c) ==> c > '\U{FFFF}'
  }

  /** d is what the stored form of h decodes to; keys that become equal keep one of their lists. */
  ghost predicate RoundTrips(bad: char -> bool, h: Header, d: Header) {
    && (forall k :: k in h ==> Wire(bad, k) in d)
    && (forall k :: k in d ==> exists n :: n in h && Wire(bad, n) == k && d[k] == WireAll(bad, h[n]))
  }

  lemma WireKeepsFold(bad: char -> bool, s: string, name: string)
    requires StandsForBytes(bad) && Mirrored(name)
    ensures EqualFold(Wire(bad, s), name) <==> EqualFold(s, name)
    ensures EqualFold(s, name) ==> Wire(bad, s) == s
  {
    forall i | 0 <= i < |s| && i < |name|
      ensures (FoldRune(Wire(bad, s)[i]) == FoldRune(name[i])) <==> (FoldRune(s[i]) == FoldRune(name[i]))
      ensures FoldRune(s[i]) == FoldRune(name[i]) ==> !bad(s[i])
    {
      MirroredRune(name, i);
    }
    if |s| == |name| {
      assert EqualFold(Wire(bad, s), name) <==> EqualFold(s, name);
    }
  }

  lemma SoleSurvivesStorage(bad: char -> bool, h: Header, d: Header, name: string, n: string, v: string)
    requires StandsForBytes(bad) && Mirrored(name) && RoundTrips(bad, h, d)
    requires SoleValue(h, name, n, v) && GoodValue(v)
    ensures SoleValue(d, name, n, v)
  {
    WireKeepsFold(bad, n, name);
    assert Wire(bad, v) == v;
    assert WireAll(bad, [v]) == [v];
    forall k | k in d && EqualFold(k, name)
      ensures k in h && d[k] == WireAll(bad, h[k])
    {
      var m :| m in h && Wire(bad, m) == k && d[k] == WireAll(bad, h[m]);
      WireKeepsFold(bad, m, name);
    }
    assert Wire(bad, n) in d;
  }

  lemma NoneSurvivesStorage(bad: char -> bool, h: Header, d: Header, name: string)
    requires StandsForBytes(bad) && Mirrored(name) && RoundTrips(bad, h, d)
    requires forall k :: k in h ==> !EqualFold(k, name)
    ensures forall k :: k in d ==> !EqualFold(k, name)
  {
    forall k | k in d
      ensures !EqualFold(k, name)
    {
      var m :| m in h && Wire(bad, m) == k && d[k] == WireAll(bad, h[m]);
      WireKeepsFold(bad, m, name);
    }
  }

  /**
   The whole way from ingress to replay: captured by the proxy, captured again on
   storing, encoded and decoded, and filtered once more.
   */
  ghost predicate Restored(bad: char -> bool, h: Header, r: Header) {
    exists c, s, d :: Captures(h, c) && Captures(c, s) && RoundTrips(bad, s, d) && Captures(d, r)
  }

  lemma SoleRestored(bad: char -> bool, h: Header, r: Header, name: string, n: string, v: string)
    requires StandsForBytes(bad) && Mirrored(name) && Restored(bad, h, r)
    requires SoleValue(h, name, n, v) && GoodValue(v) && ToLower(n) == ToLower(name)
    ensures Lookup(r, name) == Present(v)
  {
    var c, s, d :| Captures(h, c) && Captures(c, s) && RoundTrips(bad, s, d) && Captures(d, r);
    var key := Canon(name);
    SoleSurvivesCapture(h, c, name, n, v);
    SoleSurvivesCapture(c, s, name, key, v);
    SoleSurvivesStorage(bad, s, d, name, key, v);
    SoleSurvivesCapture(d, r, name, key, v);
    LookupPresent(r, name, key, v);
  }

  lemma NoneRestored(bad: char -> bool, h: Header, r: Header, name: string)
    requires StandsForBytes(bad) && Mirrored(name) && Restored(bad, h, r)
    requires forall m :: m in h && Allowed(m) && EqualFold(m, name) ==> h[m] == []
    ensures Lookup(r, name) == Absent
  {
    var c, s, d :| Captures(h, c) && Captures(c, s) && RoundTrips(bad, s, d) && Captures(d, r);
    NoneSurvivesCapture(h, c, name);
    NoneSurvivesCapture(c, s, name);
    NoneSurvivesStorage(bad, s, d, name);
    NoneSurvivesCapture(d, r, name);
  }

  /** Every key that holds the header's value is an ASCII spelling of its name. */
  ghost predicate PlainlyNamed(h: Header, name: string) {
    forall n :: n in h && EqualFold(n, name) && h[n] != [] ==> ToLower(n) == ToLower(name)
  }

  /** A lookup that succeeded at ingress gives the same after restoring exactly when it was plainly named. */
  lemma LookupRestored(bad: char -> bool, h: Header, r: Header, name: string)
    requires StandsForBytes(bad) && Mirrored(name) && Restored(bad, h, r)
    requires !Lookup(h, name).Invalid?
    ensures Lookup(r, name) == if PlainlyNamed(h, name) then Lookup(h, name) else Absent
    ensures !PlainlyNamed(h, name) ==> Lookup(h, name).Present?
  {
    if Lookup(h, name).Absent? {
      NoneRestored(bad, h, r, name);
    } else {
      var n, v :| SoleValue(h, name, n, v) && GoodValue(v);
      LookupPresent(h, name, n, v);
      if ToLower(n) == ToLower(name) {
        SoleRestored(bad, h, r, name, n, v);
      } else {
        forall m | m in h && Allowed(m) && EqualFold(m, name)
          ensures h[m] == []
        {
          AllowedFoldLowers(m, name);
        }
        NoneRestored(bad, h, r, name);
        assert h[n] == [v] && !PlainlyNamed(h, name);
      }
    }
  }

  // ----- which headers a replay carries -----

  function AsciiLowered(s: string): string {
    seq(|s|, i requires 0 <= i < |s| => AsciiLower(s[i]))
  }

  /** For names HTTP allows, the allowlist is four names and one family, in any casing. */
  lemma AllowedExactly(n: string)
    requires IsToken(n)
    ensures Allowed(n) <==>
            || AsciiLowered(n) == "accept" || AsciiLowered(n) == "mcp-method" || AsciiLowered(n) == "mcp-name"
            || AsciiLowered(n) == "mcp-protocol-version"
            || (|n| > 10 && AsciiLowered(n)[..10] == "mcp-param-")
  {
    assert forall i :: 0 <= i < |n| ==> IsTokenChar(n[i]) && LowerRune(n[i]) == AsciiLower(n[i]);
    assert ToLower(n) == AsciiLowered(n);
    if |n| > 10 { assert "mcp-param-" <= ToLower(n) <==> ToLower(n)[..10] == "mcp-param-"; }
  }

  /** Every allowed name starts with an m, but for one of six letters starting with an a. */
  lemma NotAllowed(n: string)
    requires |n| > 0 && LowerRune(n[0]) != 'm' && !(LowerRune(n[0]) == 'a' && |n| == 6)
    ensures !Allowed(n)
  {
    assert ToLower(n)[0] == LowerRune(n[0]);
    assert "mcp-param-"[0] == 'm' && "mcp-method"[0] == 'm' && "mcp-name"[0] == 'm' && "mcp-protocol-version"[0] == 'm';
    assert "accept"[0] == 'a';
  }

  lemma BareParamNotAllowed()
    ensures !Allowed("Mcp-Param-")
  {
    assert ToLower("Mcp-Param-") == "mcp-param-";
  }

  lemma CredentialNames()
    ensures !Allowed("Authorization") && !Allowed("Proxy-Authorization") && !Allowed("Cookie") && !Allowed("Connection")
    ensures !Allowed("Idempotency-Key") && !Allowed("Mcp-Param-")
  {
    NotAllowed("Authorization");
    NotAllowed("Proxy-Authorization");
    NotAllowed("Cookie");
    NotAllowed("Connection");
    NotAllowed("Idempotency-Key");
    BareParamNotAllowed();
  }

  /** Credentials, cookies, connection headers and execution metadata never reach a replay from a captured request. */
  lemma CredentialsAreNeverCaptured(h: Header, c: Header, n: string)
    requires Captures(h, c) && n in c
    ensures n != "Authorization" && n != "Proxy-Authorization" && n != "Cookie" && n != "Connection"
    ensures n != "Idempotency-Key" && n != "Mcp-Param-"
  {
    CapturedAreAllowed(h, c, n);
    CredentialNames();
  }

  /** What the upstream needs is captured: the one key of an allowed canonical name keeps its values. */
  lemma AllowedIsCaptured(h: Header, c: Header, n: string)
    requires Captures(h, c) && n in h && h[n] != [] && Allowed(n) && Canon(n) == n
    requires forall m :: m in h && Canon(m) == n ==> m == n
    ensures n in c && c[n] == h[n]
  {
    var order :| Iterates(order, h) && c == CaptureInOrder(h, order);
    CapturedAt(h, order, n);
    GatherOnly(h, order, (m: string) => Allowed(m) && Canon(m) == n, n);
  }

  lemma AcceptIsAllowed()
    ensures Allowed("Accept") && Canon("Accept") == "Accept"
  {
    assert ToLower("Accept") == "accept";
  }

  // ----- what restoring preserves -----

  predicate Clean(bad: char -> bool, s: string) {
    forall i :: 0 <= i < |s| ==> !bad(s[i])
  }

  ghost predicate CleanValues(bad: char -> bool, vs: seq<string>) {
    forall i :: 0 <= i < |vs| ==> Clean(bad, vs[i])
  }

  /** No name and no value holds an undecodable byte. */
  ghost predicate CleanHeader(bad: char -> bool, h: Header) {
    forall k :: k in h ==> Clean(bad, k) && CleanValues(bad, h[k])
  }

  /** The form of a capture: allowed canonical names, none without a value. */
  ghost predicate Canonical(h: Header) {
    forall k :: k in h ==> Canon(k) == k && Allowed(k) && h[k] != []
  }

  lemma CanonCharTwice(c: char, upper: bool)
    requires IsTokenChar(c)
    ensures var d := CanonChar(c, upper);
            IsTokenChar(d) && (d == '-' <==> c == '-') && CanonChar(d, upper) == d
  {
  }

  lemma CanonIdempotent(s: string)
    ensures Canon(Canon(s)) == Canon(s)
  {
    var c := Canon(s);
    if IsToken(s) {
      forall i | 0 <= i < |s|
        ensures IsTokenChar(c[i]) && (c[i] == '-' <==> s[i] == '-')
        ensures CanonChar(c[i], i == 0 || s[i - 1] == '-') == c[i]
      {
        CanonCharTwice(s[i], i == 0 || s[i - 1] == '-');
      }
      var cc := Canon(c);
      forall i | 0 <= i < |s|
        ensures cc[i] == c[i]
      {
        if i > 0 { assert c[i - 1] == '-' <==> s[i - 1] == '-'; }
      }
    }
  }

  lemma CapturedIsCanonical(h: Header, c: Header)
    requires Captures(h, c)
    ensures Canonical(c)
  {
    forall k | k in c
      ensures Canon(k) == k && Allowed(k) && c[k] != []
    {
      CapturedAreAllowed(h, c, k);
      var n := CapturedFrom(h, c, k);
      CanonIdempotent(n);
    }
  }

  /** Capturing a capture again changes nothing. */
  lemma RecaptureKeeps(c: Header, s: Header)
    requires Canonical(c) && Captures(c, s)
    ensures s == c
  {
    var order :| Iterates(order, c) && s == CaptureInOrder(c, order);
    forall key
      ensures key in s <==> key in c
      ensures key in c && key in s ==> s[key] == c[key]
    {
      var p := (n: string) => Allowed(n) && Canon(n) == key;
      CapturedAt(c, order, key);
      if key in c { GatherOnly(c, order, p, key); } else { GatherNothing(c, order, p); }
    }
  }

  /** Storing keeps a string exactly when it is clean, and what comes back is clean. */
  lemma WireExact(bad: char -> bool, s: string)
    requires StandsForBytes(bad)
    ensures Wire(bad, s) == s <==> Clean(bad, s)
    ensures Clean(bad, Wire(bad, s))
  {
    if Wire(bad, s) == s {
      assert forall i :: 0 <= i < |s| ==> Wire(bad, s)[i] == s[i];
    }
  }

  lemma WireAllExact(bad: char -> bool, vs: seq<string>)
    requires StandsForBytes(bad)
    ensures CleanValues(bad, vs) ==> WireAll(bad, vs) == vs
    ensures CleanValues(bad, WireAll(bad, vs))
  {
    forall i | 0 <= i < |vs|
      ensures Clean(bad, WireAll(bad, vs)[i]) && (Clean(bad, vs[i]) ==> WireAll(bad, vs)[i] == vs[i])
    {
      WireExact(bad, vs[i]);
    }
  }

  lemma StoredKey(bad: char -> bool, h: Header, d: Header, key: string)
    requires StandsForBytes(bad) && RoundTrips(bad, h, d) && CleanHeader(bad, h)
    ensures key in d <==> key in h
    ensures key in h && key in d ==> d[key] == h[key]
  {
    if key in h { WireExact(bad, key); }
    if key in d {
      var n :| n in h && Wire(bad, n) == key && d[key] == WireAll(bad, h[n]);
      WireExact(bad, n);
      WireAllExact(bad, h[n]);
    }
  }

  predicate SameAt(h: Header, d: Header, key: string) {
    (key in d <==> key in h) && (key in h && key in d ==> d[key] == h[key])
  }

  lemma SameEverywhere(h: Header, d: Header)
    requires forall key :: SameAt(h, d, key)
    ensures d == h
  {
    assert forall key :: key in d.Keys <==> key in h.Keys by {
      forall key ensures key in d.Keys <==> key in h.Keys { assert SameAt(h, d, key); }
    }
    assert forall key :: key in h ==> d[key] == h[key] by {
      forall key | key in h ensures key in d && d[key] == h[key] { assert SameAt(h, d, key); }
    }
  }

  lemma CleanSurvivesStorage(bad: char -> bool, h: Header, d: Header)
    requires StandsForBytes(bad) && RoundTrips(bad, h, d) && CleanHeader(bad, h)
    ensures d == h
  {
    forall key ensures SameAt(h, d, key) { StoredKey(bad, h, d, key); }
    SameEverywhere(h, d);
  }

  lemma StoredIsClean(bad: char -> bool, h: Header, d: Header)
    requires StandsForBytes(bad) && RoundTrips(bad, h, d)
    ensures CleanHeader(bad, d)
  {
    forall k | k in d
      ensures Clean(bad, k) && CleanValues(bad, d[k])
    {
      var n :| n in h && Wire(bad, n) == k && d[k] == WireAll(bad, h[n]);
      WireExact(bad, n);
      WireAllExact(bad, h[n]);
    }
  }

  lemma CanonClean(bad: char -> bool, s: string)
    requires StandsForBytes(bad)
    ensures Clean(bad, Canon(s)) <==> Clean(bad, s)
  {
  }

  lemma {:induction false} GatherClean(bad: char -> bool, h: Header, order: seq<string>, p: string -> bool)
    requires forall n :: n in order ==> n in h
    requires CleanHeader(bad, h)
    ensures CleanValues(bad, Gather(h, order, p))
  {
    if order == [] {
    } else {
      var past, n := order[..|order| - 1], order[|order| - 1];
      assert forall m :: m in past ==> m in order;
      GatherClean(bad, h, past, p);
      assert CleanValues(bad, h[n]);
    }
  }

  lemma CapturedIsClean(bad: char -> bool, h: Header, c: Header)
    requires StandsForBytes(bad) && CleanHeader(bad, h) && Captures(h, c)
    ensures CleanHeader(bad, c)
  {
    var order :| Iterates(order, h) && c == CaptureInOrder(h, order);
    forall k | k in c
      ensures Clean(bad, k) && CleanValues(bad, c[k])
    {
      var n := CapturedFrom(h, c, k);
      CanonClean(bad, n);
      CapturedAt(h, order, k);
      GatherClean(bad, h, order, (m: string) => Allowed(m) && Canon(m) == k);
    }
  }

  /**
   When exactly the captured headers are preserved byte for byte on their way to the
   replay: if and only if no captured name or value holds an undecodable byte.
   */
  lemma PreservedExactly(bad: char -> bool, h: Header, c: Header, s: Header, d: Header, r: Header)
    requires StandsForBytes(bad)
    requires Captures(h, c) && Captures(c, s) && RoundTrips(bad, s, d) && Captures(d, r)
    ensures r == c <==> CleanHeader(bad, c)
  {
    CapturedIsCanonical(h, c);
    RecaptureKeeps(c, s);
    StoredIsClean(bad, s, d);
    CapturedIsClean(bad, d, r);
    if CleanHeader(bad, c) {
      CleanSurvivesStorage(bad, s, d);
      RecaptureKeeps(c, r);
    }
  }

  const PARAM := "Mcp-Param-X"

  lemma ParamIsAllowed()
    ensures Allowed(PARAM) && Canon(PARAM) == PARAM
  {
    assert ToLower(PARAM) == "mcp-param-x";
  }

  lemma ParamIsCaptured(h: Header, v: string)
    requires h == map[PARAM := [v]]
    ensures Captures(h, h)
  {
    ParamIsAllowed();
    var order := [PARAM];
    assert order[..0] == [] && CaptureInOrder(h, []) == map[];
    var none: Header := map[];
    assert [] + [v] == [v];
    assert Add(none, PARAM, [v]) == none[PARAM := [] + [v]] == h;
    assert CaptureInOrder(h, order) == Add(none, PARAM, h[PARAM]);
    assert Iterates(order, h);
  }

  /** A parameter header with an undecodable byte comes back with a replacement character in its place. */
  lemma BadByteIsReplaced(bad: char -> bool, b: char) returns (h: Header, r: Header)
    requires StandsForBytes(bad) && bad(b)
    ensures h == map[PARAM := [[b]]] && Captures(h, h)
    ensures Restored(bad, h, r) && r == map[PARAM := ["\U{FFFD}"]] && r != h
  {
    h, r := map[PARAM := [[b]]], map[PARAM := ["\U{FFFD}"]];
    ParamIsCaptured(h, [b]);
    ParamIsCaptured(r, "\U{FFFD}");
    ParamIsStored(bad, b, h, r);
  }

  lemma ParamIsStored(bad: char -> bool, b: char, h: Header, r: Header)
    requires StandsForBytes(bad) && bad(b)
    requires h == map[PARAM := [[b]]] && r == map[PARAM := ["\U{FFFD}"]]
    ensures RoundTrips(bad, h, r) && r != h
  {
    WireExact(bad, PARAM);
    assert Clean(bad, PARAM);
    assert Wire(bad, [b]) == "\U{FFFD}";
    assert WireAll(bad, h[PARAM]) == r[PARAM];
    assert h[PARAM][0][0] == b && r[PARAM][0][0] == '\U{FFFD}';
  }
}
