/**
 Duplicate-rejecting JSON decoding. The syntax of a body is a `Json` tree whose
 objects list their members in order, repeated names included; decoding walks
 its token stream and builds maps.
 */
module Json {
  import opened Options

  datatype Member = Member(name: string, value: Json)

  /** A JSON text after lexing: names and strings unescaped, numbers kept as written. */
  datatype Json = Lit(leaf: Leaf) | Arr(items: seq<Json>) | Obj(members: seq<Member>)

  datatype Leaf = Null | Bool(b: bool) | Num(text: string) | Str(s: string)

  /** What the token reader returns; colons and commas are skipped by the reader. */
  datatype Token = OpenObj | CloseObj | OpenArr | CloseArr | Atom(leaf: Leaf)

  /** A decoded value: objects have become maps. */
  datatype Value = Plain(leaf: Leaf) | List(items: seq<Value>) | Map(members: map<string, Value>)

  function Tokens(v: Json): seq<Token> {
    match v
    case Arr(items) => [OpenArr] + ItemTokens(items) + [CloseArr]
    case Obj(members) => [OpenObj] + MemberTokens(members) + [CloseObj]
    case Lit(leaf) => [Atom(leaf)]
  }

  function ItemTokens(items: seq<Json>): seq<Token> {
    if items == [] then [] else Tokens(items[0]) + ItemTokens(items[1..])
  }

  function MemberTokens(ms: seq<Member>): seq<Token> {
    if ms == [] then [] else [Atom(Str(ms[0].name))] + Tokens(ms[0].value) + MemberTokens(ms[1..])
  }

  /** No object at any depth repeats a member name. */
  ghost predicate Unique(v: Json) {
    match v
    case Arr(items) => forall i :: 0 <= i < |items| ==> Unique(items[i])
    case Obj(ms) =>
      && (forall i, j :: 0 <= i < j < |ms| ==> ms[i].name != ms[j].name)
      && (forall i :: 0 <= i < |ms| ==> Unique(ms[i].value))
    case Lit(_) => true
  }

  /** A reader that keeps the last of repeated members, at every depth. */
  function ReadLast(v: Json): Value {
    match v
    case Arr(items) => List(ReadLastItems(items))
    case Obj(ms) => Map(LastWins(ms))
    case Lit(leaf) => Plain(leaf)
  }

  function ReadLastItems(items: seq<Json>): seq<Value> {
    if items == [] then [] else ReadLastItems(items[..|items| - 1]) + [ReadLast(items[|items| - 1])]
  }

  function LastWins(ms: seq<Member>): map<string, Value> {
    if ms == [] then map[]
    else LastWins(ms[..|ms| - 1])[ms[|ms| - 1].name := ReadLast(ms[|ms| - 1].value)]
  }

  /** A reader that keeps the first of repeated members, at every depth. */
  function ReadFirst(v: Json): Value {
    match v
    case Arr(items) => List(ReadFirstItems(items))
    case Obj(ms) => Map(FirstWins(ms))
    case Lit(leaf) => Plain(leaf)
  }

  function ReadFirstItems(items: seq<Json>): seq<Value> {
    if items == [] then [] else ReadFirstItems(items[..|items| - 1]) + [ReadFirst(items[|items| - 1])]
  }

  function FirstWins(ms: seq<Member>): map<string, Value> {
    if ms == [] then map[]
    else
      var m, earlier := ms[|ms| - 1], FirstWins(ms[..|ms| - 1]);
      if m.name in earlier then earlier else earlier[m.name := ReadFirst(m.value)]
  }

  lemma {:induction false} LastWinsNames(ms: seq<Member>)
    ensures forall n :: n in LastWins(ms) <==> exists i :: 0 <= i < |ms| && ms[i].name == n
  {
    if ms == [] {
    } else {
      var past := ms[..|ms| - 1];
      LastWinsNames(past);
      assert forall i :: 0 <= i < |past| ==> past[i] == ms[i];
    }
  }

  /** Both readers keep every item of an array in its place. */
  lemma {:induction false} ItemsInPlace(items: seq<Json>, i: nat)
    requires i < |items|
    ensures |ReadLastItems(items)| == |ReadFirstItems(items)| == |items|
    ensures ReadLastItems(items)[i] == ReadLast(items[i]) && ReadFirstItems(items)[i] == ReadFirst(items[i])
  {
    var past := items[..|items| - 1];
    if past == [] {
    } else {
      ItemsInPlace(past, if i < |past| then i else 0);
    }
  }

  /** The last-wins reader takes the last member of a name. */
  lemma {:induction false} LastWinsAt(ms: seq<Member>, i: nat)
    requires i < |ms| && forall j :: i < j < |ms| ==> ms[j].name != ms[i].name
    ensures ms[i].name in LastWins(ms) && LastWins(ms)[ms[i].name] == ReadLast(ms[i].value)
  {
    if i == |ms| - 1 {
    } else {
      LastWinsAt(ms[..|ms| - 1], i);
    }
  }

  /** The first-wins reader takes the first member of a name. */
  lemma {:induction false} FirstWinsAt(ms: seq<Member>, i: nat)
    requires i < |ms| && forall j :: 0 <= j < i ==> ms[j].name != ms[i].name
    ensures ms[i].name in FirstWins(ms) && FirstWins(ms)[ms[i].name] == ReadFirst(ms[i].value)
    decreases |ms|
  {
    if i == |ms| - 1 {
      FirstWinsNames(ms[..i], ms[i].name);
    } else {
      FirstWinsAt(ms[..|ms| - 1], i);
    }
  }

  lemma {:induction false} FirstWinsNames(ms: seq<Member>, n: string)
    requires forall j :: 0 <= j < |ms| ==> ms[j].name != n
    ensures n !in FirstWins(ms)
  {
    if ms == [] {
    } else {
      FirstWinsNames(ms[..|ms| - 1], n);
    }
  }

  /** In an object without repeated names every member is read under its name, and nothing else is. */
  lemma MemberIsRead(ms: seq<Member>, name: string, v: Json)
    requires Unique(Obj(ms)) && Member(name, v) in ms
    ensures name in LastWins(ms) && LastWins(ms)[name] == ReadLast(v) && Unique(v)
    ensures forall w :: Member(name, w) in ms ==> w == v
  {
    var i :| 0 <= i < |ms| && ms[i] == Member(name, v);
    LastWinsAt(ms, i);
  }

  /** When no name repeats the two kinds of reader see the same value. */
  lemma {:induction false} ReadersAgree(v: Json)
    requires Unique(v)
    ensures ReadFirst(v) == ReadLast(v)
    decreases v, 1, 0
  {
    match v {
      case Arr(items) => ItemReadersAgree(v, items);
      case Obj(ms) => MemberReadersAgree(v, ms);
      case Lit(_) =>
    }
  }

  lemma {:induction false} ItemReadersAgree(v: Json, items: seq<Json>)
    requires forall i :: 0 <= i < |items| ==> items[i] < v && Unique(items[i])
    ensures ReadFirstItems(items) == ReadLastItems(items)
    decreases v, 0, |items|
  {
    if items == [] {
    } else {
      ItemReadersAgree(v, items[..|items| - 1]);
      ReadersAgree(items[|items| - 1]);
    }
  }

  lemma {:induction false} MemberReadersAgree(v: Json, ms: seq<Member>)
    requires forall i :: 0 <= i < |ms| ==> ms[i].value < v && Unique(ms[i].value)
    requires forall i, j :: 0 <= i < j < |ms| ==> ms[i].name != ms[j].name
    ensures FirstWins(ms) == LastWins(ms)
    decreases v, 0, |ms|
  {
    if ms == [] {
    } else {
      var past := ms[..|ms| - 1];
      MemberReadersAgree(v, past);
      ReadersAgree(ms[|ms| - 1].value);
      LastWinsNames(past);
    }
  }

  /** A value starts with a token that closes nothing. */
  lemma FirstToken(v: Json)
    ensures Tokens(v) != [] && !Tokens(v)[0].CloseArr? && !Tokens(v)[0].CloseObj?
  {
  }

  /** A token stream spells one value in one way: what follows it is fixed too. */
  lemma {:induction false} TokensUnambiguous(v: Json, w: Json, r: seq<Token>, q: seq<Token>)
    requires Tokens(v) + r == Tokens(w) + q
    ensures v == w && r == q
    decreases v, 1, 0
  {
    FirstToken(v);
    FirstToken(w);
    assert Tokens(v)[0] == (Tokens(v) + r)[0] == (Tokens(w) + q)[0] == Tokens(w)[0];
    match v {
      case Lit(leaf) =>
        assert r == (Tokens(v) + r)[1..] && q == (Tokens(w) + q)[1..];
      case Arr(items) =>
        assert (Tokens(v) + r)[1..] == ItemTokens(items) + ([CloseArr] + r);
        assert (Tokens(w) + q)[1..] == ItemTokens(w.items) + ([CloseArr] + q);
        ItemsUnambiguous(v, items, w.items, r, q);
      case Obj(ms) =>
        assert (Tokens(v) + r)[1..] == MemberTokens(ms) + ([CloseObj] + r);
        assert (Tokens(w) + q)[1..] == MemberTokens(w.members) + ([CloseObj] + q);
        MembersUnambiguous(v, ms, w.members, r, q);
    }
  }

  lemma {:induction false} ItemsUnambiguous(v: Json, xs: seq<Json>, ys: seq<Json>, r: seq<Token>, q: seq<Token>)
    requires forall i :: 0 <= i < |xs| ==> xs[i] < v
    requires ItemTokens(xs) + ([CloseArr] + r) == ItemTokens(ys) + ([CloseArr] + q)
    ensures xs == ys && r == q
    decreases v, 0, |xs|
  {
    var left, right := ItemTokens(xs) + ([CloseArr] + r), ItemTokens(ys) + ([CloseArr] + q);
    if xs != [] { FirstToken(xs[0]); }
    if ys != [] { FirstToken(ys[0]); }
    if xs == [] || ys == [] {
      assert xs == [] ==> left[0] == CloseArr;
      assert ys == [] ==> right[0] == CloseArr;
      assert r == left[1..] && q == right[1..];
    } else {
      var r', q' := ItemTokens(xs[1..]) + ([CloseArr] + r), ItemTokens(ys[1..]) + ([CloseArr] + q);
      assert left == Tokens(xs[0]) + r' && right == Tokens(ys[0]) + q';
      TokensUnambiguous(xs[0], ys[0], r', q');
      ItemsUnambiguous(v, xs[1..], ys[1..], r, q);
      assert xs == [xs[0]] + xs[1..] && ys == [ys[0]] + ys[1..];
    }
  }

  lemma {:induction false} MembersUnambiguous(v: Json, xs: seq<Member>, ys: seq<Member>, r: seq<Token>, q: seq<Token>)
    requires forall i :: 0 <= i < |xs| ==> xs[i].value < v
    requires MemberTokens(xs) + ([CloseObj] + r) == MemberTokens(ys) + ([CloseObj] + q)
    ensures xs == ys && r == q
    decreases v, 0, |xs|
  {
    var left, right := MemberTokens(xs) + ([CloseObj] + r), MemberTokens(ys) + ([CloseObj] + q);
    assert xs != [] ==> left[0] == Atom(Str(xs[0].name));
    assert ys != [] ==> right[0] == Atom(Str(ys[0].name));
    if xs == [] || ys == [] {
      assert xs == [] ==> left[0] == CloseObj;
      assert ys == [] ==> right[0] == CloseObj;
      assert r == left[1..] && q == right[1..];
    } else {
      var r', q' := MemberTokens(xs[1..]) + ([CloseObj] + r), MemberTokens(ys[1..]) + ([CloseObj] + q);
      assert left[1..] == Tokens(xs[0].value) + r' && right[1..] == Tokens(ys[0].value) + q';
      TokensUnambiguous(xs[0].value, ys[0].value, r', q');
      MembersUnambiguous(v, xs[1..], ys[1..], r, q);
      assert xs == [xs[0]] + xs[1..] && ys == [ys[0]] + ys[1..];
    }
  }

  datatype Error = Duplicate(name: string) | NotOneValue | NotAnObject
  datatype Result<T> = Ok(value: T) | Err(error: Error)

  /** The token reader of encoding/json over a syntax-checked body. */
  class Decoder {
    const tokens: seq<Token>
    var pos: nat

    constructor (tokens: seq<Token>)
      ensures this.tokens == tokens && pos == 0
    {
      this.tokens, this.pos := tokens, 0;
    }

    ghost predicate Reads(expected: seq<Token>)
      reads this
    {
      pos <= |tokens| && tokens[pos..] == expected
    }

    /** The next token. */
    method Token(ghost t: Token, ghost rest: seq<Token>) returns (next: Token)
      requires Reads([t] + rest)
      modifies this
      ensures next == t && Reads(rest)
    {
      next := tokens[pos];
      assert tokens[pos + 1..] == tokens[pos..][1..] == rest;
      pos := pos + 1;
    }

    /** Whether another element of the current array or object follows. */
    method More(ghost t: Token, ghost rest: seq<Token>) returns (more: bool)
      requires Reads([t] + rest)
      ensures more <==> !t.CloseArr? && !t.CloseObj?
    {
      more := !tokens[pos].CloseArr? && !tokens[pos].CloseObj?;
    }
  }

  /**
   Decode the value whose tokens come next. It succeeds exactly when no object
   in it repeats a name; then it has consumed that one value and nothing else, and
   returns what a last-wins reader (and so a first-wins reader) sees.
   */
  method DecodeValue(d: Decoder, ghost v: Json, ghost rest: seq<Token>) returns (r: Result<Value>)
    requires d.Reads(Tokens(v) + rest)
    modifies d
    ensures r.Ok? <==> Unique(v)
    ensures r.Ok? ==> d.Reads(rest) && r.value == ReadLast(v)
    ensures r.Err? ==> r.error.Duplicate?
    decreases v, 1
  {
    FirstToken(v);
    ghost var first, tail := Tokens(v)[0], Tokens(v)[1..];
    assert Tokens(v) + rest == [first] + (tail + rest);
    var token := d.Token(first, tail + rest);
    match token {
      case OpenObj =>
        assert tail + rest == MemberTokens(v.members) + ([CloseObj] + rest);
        r := DecodeObjectBody(d, v, rest);
      case OpenArr =>
        assert tail + rest == ItemTokens(v.items) + ([CloseArr] + rest);
        r := DecodeArrayBody(d, v, rest);
      case Atom(leaf) =>
        assert tail + rest == rest;
        r := Ok(Plain(leaf));
      case _ => assert false;
    }
  }

  method DecodeArrayBody(d: Decoder, ghost v: Json, ghost rest: seq<Token>) returns (r: Result<Value>)
    requires v.Arr? && d.Reads(ItemTokens(v.items) + ([CloseArr] + rest))
    modifies d
    ensures r.Ok? <==> Unique(v)
    ensures r.Ok? ==> d.Reads(rest) && r.value == ReadLast(v)
    ensures r.Err? ==> r.error.Duplicate?
    decreases v, 0
  {
    var values := [];
    ghost var items, i := v.items, 0;
    assert items[..0] == [] && items[0..] == items;
    ghost var next := NextItem(items, 0, rest);
    var more := d.More(next.0, next.1);
    while more
      invariant 0 <= i <= |items|
      invariant d.Reads(ItemTokens(items[i..]) + ([CloseArr] + rest))
      invariant values == ReadLastItems(items[..i])
      invariant forall k :: 0 <= k < i ==> Unique(items[k])
      invariant more <==> i < |items|
      decreases |items| - i
    {
      ghost var after := ItemTokens(items[i + 1..]) + ([CloseArr] + rest);
      assert items[i..][1..] == items[i + 1..];
      assert ItemTokens(items[i..]) + ([CloseArr] + rest) == Tokens(items[i]) + after;
      var item := DecodeValue(d, items[i], after);
      if item.Err? { return Err(item.error); }
      values := values + [item.value];
      assert items[..i + 1][..i] == items[..i];
      i := i + 1;
      next := NextItem(items, i, rest);
      more := d.More(next.0, next.1);
    }
    assert items[i..] == [] && items[..i] == items;
    assert ItemTokens(items[i..]) + ([CloseArr] + rest) == [CloseArr] + rest;
    var _ := d.Token(CloseArr, rest);
    r := Ok(List(values));
  }

  /** What the reader peeks at before item i, and what follows it. */
  ghost function NextItem(items: seq<Json>, i: nat, rest: seq<Token>): (r: (Token, seq<Token>))
    requires i <= |items|
    ensures ItemTokens(items[i..]) + ([CloseArr] + rest) == [r.0] + r.1
    ensures r.0.CloseArr? || r.0.CloseObj? <==> i == |items|
  {
    var all := ItemTokens(items[i..]) + ([CloseArr] + rest);
    if i < |items| then
      FirstToken(items[i]);
      (all[0], all[1..])
    else (CloseArr, rest)
  }

  method DecodeObjectBody(d: Decoder, ghost v: Json, ghost rest: seq<Token>) returns (r: Result<Value>)
    requires v.Obj? && d.Reads(MemberTokens(v.members) + ([CloseObj] + rest))
    modifies d
    ensures r.Ok? <==> Unique(v)
    ensures r.Ok? ==> d.Reads(rest) && r.value == ReadLast(v)
    ensures r.Err? ==> r.error.Duplicate?
    decreases v, 0
  {
    var found: map<string, Value> := map[];
    ghost var ms, i := v.members, 0;
    assert ms[..0] == [] && ms[0..] == ms;
    ghost var next := NextMember(ms, 0, rest);
    var more := d.More(next.0, next.1);
    while more
      invariant 0 <= i <= |ms|
      invariant d.Reads(MemberTokens(ms[i..]) + ([CloseObj] + rest))
      invariant found == LastWins(ms[..i])
      invariant Unique(Obj(ms[..i]))
      invariant more <==> i < |ms|
      decreases |ms| - i
    {
      ghost var m, after := ms[i], MemberTokens(ms[i + 1..]) + ([CloseObj] + rest);
      MemberStep(ms, i, [CloseObj] + rest);
      UniquePush(ms, i);
      var keyToken := d.Token(Atom(Str(m.name)), Tokens(m.value) + after);
      var key := keyToken.leaf.s;
      if key in found { return Err(Duplicate(key)); }
      var value := DecodeValue(d, m.value, after);
      if value.Err? { return Err(value.error); }
      found := found[key := value.value];
      i := i + 1;
      next := NextMember(ms, i, rest);
      more := d.More(next.0, next.1);
    }
    assert ms[i..] == [] && ms[..i] == ms;
    assert MemberTokens(ms[i..]) + ([CloseObj] + rest) == [CloseObj] + rest;
    var _ := d.Token(CloseObj, rest);
    r := Ok(Map(found));
  }

  lemma MemberStep(ms: seq<Member>, i: nat, rest: seq<Token>)
    requires i < |ms|
    ensures MemberTokens(ms[i..]) + rest ==
            [Atom(Str(ms[i].name))] + (Tokens(ms[i].value) + (MemberTokens(ms[i + 1..]) + rest))
  {
    assert ms[i..][1..] == ms[i + 1..];
  }

  /** One more member: still unique exactly when its name is new and its value unique. */
  lemma UniquePush(ms: seq<Member>, i: nat)
    requires i < |ms|
    ensures LastWins(ms[..i + 1]) == LastWins(ms[..i])[ms[i].name := ReadLast(ms[i].value)]
    ensures Unique(Obj(ms[..i + 1])) <==>
            Unique(Obj(ms[..i])) && ms[i].name !in LastWins(ms[..i]) && Unique(ms[i].value)
    ensures Unique(Obj(ms)) ==> Unique(Obj(ms[..i + 1]))
  {
    var past, next := ms[..i], ms[..i + 1];
    assert next[..i] == past;
    LastWinsNames(past);
    assert forall k :: 0 <= k < i ==> next[k] == past[k] == ms[k];
    if Unique(Obj(next)) {
      assert Unique(next[i].value);
      forall k | 0 <= k < i ensures Unique(past[k].value) && past[k].name != ms[i].name {
        assert Unique(next[k].value) && next[k].name != next[i].name;
      }
    }
  }

  ghost function NextMember(ms: seq<Member>, i: nat, rest: seq<Token>): (r: (Token, seq<Token>))
    requires i <= |ms|
    ensures MemberTokens(ms[i..]) + ([CloseObj] + rest) == [r.0] + r.1
    ensures r.0.CloseArr? || r.0.CloseObj? <==> i == |ms|
  {
    var all := MemberTokens(ms[i..]) + ([CloseObj] + rest);
    if i < |ms| then (all[0], all[1..]) else (CloseObj, rest)
  }

  /** What the body decodes to, said without a decoder. */
  ghost function Decoded(syntax: Option<Json>): Option<map<string, Value>> {
    if syntax.Some? && syntax.value.Obj? && Unique(syntax.value) then Some(LastWins(syntax.value.members)) else None
  }

  /**
   Decode a request body, given its syntax tree if it is one valid UTF-8 JSON
   text. The result is an object exactly when the text is an object that repeats
   no member name at any depth.
   */
  method DecodeObject(syntax: Option<Json>) returns (r: Result<map<string, Value>>)
    ensures r.Ok? <==> Decoded(syntax).Some?
    ensures r.Ok? ==> Some(r.value) == Decoded(syntax) && Map(r.value) == ReadFirst(syntax.value) == ReadLast(syntax.value)
  {
    if syntax.None? { return Err(NotOneValue); }
    var d := new Decoder(Tokens(syntax.value));
    assert Tokens(syntax.value) + [] == Tokens(syntax.value);
    var value := DecodeValue(d, syntax.value, []);
    if value.Err? { return Err(value.error); }
    if !value.value.Map? { return Err(NotAnObject); }
    ReadersAgree(syntax.value);
    r := Ok(value.value.members);
  }
}
