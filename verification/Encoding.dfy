/**
 The length-prefixed encodings that are hashed: ledger fields and policy bundle
 files. A Go string is a byte sequence; here each `char` stands for one byte.
 */
module Encoding {
  import opened Options

  // ----- decimal numbers -----

  predicate IsDigit(c: char) {
    '0' <= c <= '9'
  }

  ghost predicate AllDigits(s: string) {
    forall i :: 0 <= i < |s| ==> IsDigit(s[i])
  }

  function Digit(d: nat): char
    requires d < 10
  {
    '0' + d as char
  }

  /** `%d` of a natural number. */
  function Dec(n: nat): string {
    if n < 10 then [Digit(n)] else Dec(n / 10) + [Digit(n % 10)]
  }

  /** The number a digit string denotes; other characters count as zero. */
  function Val(s: string): nat {
    if s == "" then 0
    else Val(s[..|s| - 1]) * 10 + if IsDigit(s[|s| - 1]) then (s[|s| - 1] - '0') as nat else 0
  }

  lemma {:induction false} DecVal(n: nat)
    ensures |Dec(n)| > 0 && AllDigits(Dec(n)) && Val(Dec(n)) == n
  {
    if n < 10 {
      assert Dec(n)[..0] == "";
    } else {
      DecVal(n / 10);
      assert Dec(n)[..|Dec(n)| - 1] == Dec(n / 10);
    }
  }

  /** It has no leading zero, so it is the one decimal numeral of the number. */
  lemma {:induction false} DecHasNoLeadingZero(n: nat)
    ensures |Dec(n)| > 0 && (n > 0 ==> Dec(n)[0] != '0') && (n < 10 ==> |Dec(n)| == 1)
  {
    if n < 10 {
    } else {
      DecHasNoLeadingZero(n / 10);
    }
  }

  /** `%d` of a signed number. */
  function SignedDec(x: int): string {
    if x < 0 then "-" + Dec(-x) else Dec(x)
  }

  function SignedVal(s: string): int {
    if s != "" && s[0] == '-' then 0 - Val(s[1..]) as int else Val(s) as int
  }

  lemma SignedRoundTrip(x: int)
    ensures SignedVal(SignedDec(x)) == x
  {
    DecVal(if x < 0 then -x else x);
    if x < 0 { assert SignedDec(x)[1..] == Dec(-x); }
  }

  // ----- chunks: a length, a colon and that many bytes -----

  function Chunk(f: string): string {
    Dec(|f|) + ":" + f
  }

  function DigitRun(s: string): (k: nat)
    ensures k <= |s| && (forall i :: 0 <= i < k ==> IsDigit(s[i])) && (k < |s| ==> !IsDigit(s[k]))
  {
    if s == "" || !IsDigit(s[0]) then 0 else 1 + DigitRun(s[1..])
  }

  /** Read one chunk off the front: its content and what follows it. */
  function TakeChunk(s: string): (r: Option<(string, string)>)
    ensures r.Some? ==> |r.value.1| < |s|
  {
    var k := DigitRun(s);
    if k == |s| || s[k] != ':' then None
    else
      var n := Val(s[..k]);
      if |s| < k + 1 + n then None else Some((s[k + 1..k + 1 + n], s[k + 1 + n..]))
  }

  lemma TakeChunkUndoes(f: string, rest: string)
    ensures TakeChunk(Chunk(f) + rest) == Some((f, rest))
  {
    var d, s := Dec(|f|), Chunk(f) + rest;
    DecVal(|f|);
    assert s[..|d|] == d && s[|d|] == ':';
    assert forall i :: 0 <= i < |d| ==> s[i] == d[i] && IsDigit(s[i]);
    assert DigitRun(s) == |d|;
    assert s[|d| + 1..|d| + 1 + |f|] == f;
    assert s[|d| + 1 + |f|..] == rest;
  }

  // ----- ledger fields: chunks closed by a semicolon -----

  function EncodeFields(fs: seq<string>): string {
    if fs == [] then "" else Chunk(fs[0]) + ";" + EncodeFields(fs[1..])
  }

  function DecodeFields(s: string): Option<seq<string>>
    decreases |s|
  {
    if s == "" then Some([])
    else
      var c := TakeChunk(s);
      if c.None? || c.value.1 == "" || c.value.1[0] != ';' then None
      else
        var rest := DecodeFields(c.value.1[1..]);
        if rest.None? then None else Some([c.value.0] + rest.value)
  }

  lemma FieldsStep(x: string, code: string, fs: seq<string>)
    requires DecodeFields(code) == Some(fs)
    ensures DecodeFields(Chunk(x) + (";" + code)) == Some([x] + fs)
  {
    var tail := ";" + code;
    TakeChunkUndoes(x, tail);
    assert tail[0] == ';' && tail[1..] == code;
    assert |Chunk(x) + tail| > 0;
  }

  /** The encoding can be undone, whatever the fields contain and however many there are. */
  lemma {:induction false} FieldsRoundTrip(fs: seq<string>)
    ensures DecodeFields(EncodeFields(fs)) == Some(fs)
  {
    if fs == [] {
    } else {
      FieldsRoundTrip(fs[1..]);
      FieldsStep(fs[0], EncodeFields(fs[1..]), fs[1..]);
      assert EncodeFields(fs) == Chunk(fs[0]) + (";" + EncodeFields(fs[1..]));
      assert fs == [fs[0]] + fs[1..];
    }
  }

  lemma FieldsInjective(fs: seq<string>, gs: seq<string>)
    requires EncodeFields(fs) == EncodeFields(gs)
    ensures fs == gs
  {
    FieldsRoundTrip(fs);
    FieldsRoundTrip(gs);
  }

  // ----- policy bundle files: a closed path chunk, then a content chunk -----

  datatype File = File(path: string, content: string)

  function EncodeFile(f: File): string {
    Chunk(f.path) + ";" + Chunk(f.content)
  }

  function EncodeBundle(fs: seq<File>): string {
    if fs == [] then "" else EncodeFile(fs[0]) + EncodeBundle(fs[1..])
  }

  function DecodeBundle(s: string): Option<seq<File>>
    decreases |s|
  {
    if s == "" then Some([])
    else
      var p := TakeChunk(s);
      if p.None? || p.value.1 == "" || p.value.1[0] != ';' then None
      else
        var c := TakeChunk(p.value.1[1..]);
        if c.None? then None
        else
          var rest := DecodeBundle(c.value.1);
          if rest.None? then None else Some([File(p.value.0, c.value.0)] + rest.value)
  }

  lemma DecodeStep(s: string, tail: string, f: File, more: string)
    requires TakeChunk(s) == Some((f.path, tail))
    requires tail != "" && tail[0] == ';' && TakeChunk(tail[1..]) == Some((f.content, more))
    requires DecodeBundle(more).Some?
    ensures DecodeBundle(s) == Some([f] + DecodeBundle(more).value)
  {
  }

  lemma DecodeFirst(f: File, more: string)
    requires DecodeBundle(more).Some?
    ensures DecodeBundle(EncodeFile(f) + more) == Some([f] + DecodeBundle(more).value)
  {
    var p, c := Chunk(f.path), Chunk(f.content);
    assert p + ";" + c + more == p + (";" + (c + more));
    TakeChunkUndoes(f.path, ";" + (c + more));
    TakeChunkUndoes(f.content, more);
    assert (";" + (c + more))[1..] == c + more;
    DecodeStep(p + (";" + (c + more)), ";" + (c + more), f, more);
  }

  lemma {:induction false} BundleRoundTrip(fs: seq<File>)
    ensures DecodeBundle(EncodeBundle(fs)) == Some(fs)
  {
    if fs == [] {
    } else {
      BundleRoundTrip(fs[1..]);
      DecodeFirst(fs[0], EncodeBundle(fs[1..]));
      assert fs == [fs[0]] + fs[1..];
    }
  }

  /** Byte order, the order of sort.Strings. */
  predicate Before(a: string, b: string) {
    if b == "" then false
    else if a == "" then true
    else a[0] < b[0] || (a[0] == b[0] && Before(a[1..], b[1..]))
  }

  /** One string comes before another if it is a proper prefix, or smaller at the first difference. */
  lemma {:induction false} BeforeIsLexicographic(a: string, b: string)
    ensures Before(a, b) <==> a < b || exists k: nat :: DiffersAt(a, b, k) && a[k] < b[k]
  {
    if a == "" || b == "" {
    } else if a[0] != b[0] {
      assert a[..0] == b[..0] && DiffersAt(a, b, 0);
      assert forall k: nat :: 0 < k <= |a| && k <= |b| ==> a[..k][0] == a[0] && b[..k][0] == b[0];
    } else {
      var a', b' := a[1..], b[1..];
      BeforeIsLexicographic(a', b');
      assert a == [a[0]] + a' && b == [b[0]] + b';
      assert a < b <==> a' < b';
      if k: nat :| DiffersAt(a', b', k) && a'[k] < b'[k] {
        assert a[..k + 1] == [a[0]] + a'[..k] && b[..k + 1] == [b[0]] + b'[..k];
        assert DiffersAt(a, b, k + 1);
      }
      if k: nat :| DiffersAt(a, b, k) && a[k] < b[k] {
        assert k > 0;
        assert a'[..k - 1] == a[..k][1..] && b'[..k - 1] == b[..k][1..];
        assert DiffersAt(a', b', k - 1);
      }
    }
  }

  /** The strings agree up to position k and differ there. */
  predicate DiffersAt(a: string, b: string, k: nat) {
    k < |a| && k < |b| && a[..k] == b[..k] && a[k] != b[k]
  }

  lemma {:induction false} BeforeIsStrictTotal(a: string, b: string)
    ensures a == b <==> !Before(a, b) && !Before(b, a)
    ensures !(Before(a, b) && Before(b, a))
  {
    if a != "" && b != "" && a[0] == b[0] {
      BeforeIsStrictTotal(a[1..], b[1..]);
      assert a == [a[0]] + a[1..] && b == [b[0]] + b[1..];
    }
  }

  type Bundle = map<string, string>

  /** The bundle's files in sorted path order, each path once. */
  ghost predicate Lists(fs: seq<File>, bundle: Bundle) {
    && (forall i, j :: 0 <= i < j < |fs| ==> Before(fs[i].path, fs[j].path))
    && (forall i :: 0 <= i < |fs| ==> fs[i].path in bundle && bundle[fs[i].path] == fs[i].content)
    && (forall p :: p in bundle ==> exists i :: 0 <= i < |fs| && fs[i].path == p)
  }

  lemma ListingHead(fs: seq<File>, gs: seq<File>, bundle: Bundle)
    requires Lists(fs, bundle) && Lists(gs, bundle) && fs != []
    ensures gs != [] && !Before(fs[0].path, gs[0].path)
  {
    assert fs[0].path in bundle;
    var j :| 0 <= j < |gs| && gs[j].path == fs[0].path;
    BeforeIsStrictTotal(gs[0].path, fs[0].path);
  }

  lemma ListingTail(fs: seq<File>, bundle: Bundle)
    requires Lists(fs, bundle) && fs != []
    ensures Lists(fs[1..], bundle - {fs[0].path})
  {
    var rest := bundle - {fs[0].path};
    forall i | 0 <= i < |fs[1..]|
      ensures fs[1..][i].path in rest && rest[fs[1..][i].path] == fs[1..][i].content
    {
      assert fs[1..][i] == fs[i + 1] && Before(fs[0].path, fs[i + 1].path);
      BeforeIsStrictTotal(fs[0].path, fs[i + 1].path);
    }
    forall p | p in rest
      ensures exists i :: 0 <= i < |fs[1..]| && fs[1..][i].path == p
    {
      var i :| 0 <= i < |fs| && fs[i].path == p;
      assert fs[1..][i - 1].path == p;
    }
  }

  lemma SameHead(fs: seq<File>, gs: seq<File>, bundle: Bundle)
    requires Lists(fs, bundle) && Lists(gs, bundle) && fs != []
    ensures gs != [] && fs[0] == gs[0]
  {
    ListingHead(fs, gs, bundle);
    ListingHead(gs, fs, bundle);
    BeforeIsStrictTotal(fs[0].path, gs[0].path);
    assert bundle[fs[0].path] == fs[0].content && bundle[gs[0].path] == gs[0].content;
  }

  /** A bundle has one sorted listing. */
  lemma {:induction false} ListingIsUnique(fs: seq<File>, gs: seq<File>, bundle: Bundle)
    requires Lists(fs, bundle) && Lists(gs, bundle)
    ensures fs == gs
    decreases |fs| + |gs|
  {
    if fs != [] {
      SameHead(fs, gs, bundle);
      var head, rest := fs[0], bundle - {fs[0].path};
      ListingTail(fs, bundle);
      ListingTail(gs, bundle);
      ListingIsUnique(fs[1..], gs[1..], rest);
      assert fs == [head] + fs[1..] && gs == [head] + gs[1..];
    } else if gs != [] {
      SameHead(gs, fs, bundle);
    }
  }

  lemma ListingFixesBundle(fs: seq<File>, a: Bundle, b: Bundle)
    requires Lists(fs, a) && Lists(fs, b)
    ensures a == b
  {
    forall p
      ensures p in a <==> p in b
      ensures p in a && p in b ==> a[p] == b[p]
    {
      if p in a { var i :| 0 <= i < |fs| && fs[i].path == p; }
      if p in b { var i :| 0 <= i < |fs| && fs[i].path == p; }
    }
  }

  /**
   Two policy bundles feed the digest the same bytes exactly when they hold the
   same files with the same content: any edit, addition, removal or rename
   changes what is hashed.
   */
  lemma BundlePreimageIsExact(a: Bundle, fs: seq<File>, b: Bundle, gs: seq<File>)
    requires Lists(fs, a) && Lists(gs, b)
    ensures EncodeBundle(fs) == EncodeBundle(gs) <==> a == b
  {
    if EncodeBundle(fs) == EncodeBundle(gs) {
      BundleRoundTrip(fs);
      BundleRoundTrip(gs);
      ListingFixesBundle(fs, a, b);
    }
    if a == b { ListingIsUnique(fs, gs, a); }
  }

  lemma {:induction false} EncodeBundlePush(fs: seq<File>, f: File)
    ensures EncodeBundle(fs + [f]) == EncodeBundle(fs) + EncodeFile(f)
  {
    if fs == [] {
      assert fs + [f] == [f];
    } else {
      assert (fs + [f])[1..] == fs[1..] + [f];
      EncodeBundlePush(fs[1..], f);
    }
  }

  /** The loop that feeds the digest, over the sorted paths. */
  method BundlePreimage(bundle: Bundle, paths: seq<string>) returns (data: string)
    requires forall i :: 0 <= i < |paths| ==> paths[i] in bundle
    ensures data == EncodeBundle(seq(|paths|, i requires 0 <= i < |paths| => File(paths[i], bundle[paths[i]])))
  {
    data := "";
    ghost var fs := seq(|paths|, i requires 0 <= i < |paths| => File(paths[i], bundle[paths[i]]));
    for i := 0 to |paths|
      invariant data == EncodeBundle(fs[..i])
    {
      var content := bundle[paths[i]];
      var head := Dec(|paths[i]|) + ":" + paths[i] + ";" + (Dec(|content|) + ":");
      assert EncodeFile(fs[i]) == head + content;
      assert data + (head + content) == data + head + content;
      EncodeBundlePush(fs[..i], fs[i]);
      assert fs[..i + 1] == fs[..i] + [fs[i]];
      data := data + head;
      data := data + content;
    }
    assert fs[..|paths|] == fs;
  }
}
