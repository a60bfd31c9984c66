/**
 The ingress adapter and the replay-time policy recheck: what a request means to
 policy, and whether the stored request still means the same when it is replayed.
 */
module Ingress {
  import opened Options
  import opened Headers
  import opened Json

  /** Strict Base64 of valid UTF-8, re-encoding to itself; a parameter of this model. */
  type Base64 = string -> Option<string>

  datatype Request = Request(
    method_: string,
    paramsName: string,
    tool: string,
    arguments: Option<map<string, Value>>,
    requestId: string,
    responseId: Option<Leaf>)

  datatype Invocation = Invocation(
    protocol: string,
    protocolVersion: string,
    method_: string,
    name: string,
    tool: string,
    arguments: Option<map<string, Value>>,
    requestId: string,
    responseId: Option<Leaf>)

  const INVALID_REQUEST := -32600
  const HEADER_BODY_MISMATCH := -32020

  datatype Rejection = Rejection(code: int, responseId: Option<Leaf>)
  datatype Outcome<T> = Accepted(value: T) | Rejected(error: Rejection)

  function StringAt(o: map<string, Value>, key: string): Option<string> {
    if key in o && o[key].Plain? && o[key].leaf.Str? then Some(o[key].leaf.s) else None
  }

  function ObjectAt(o: map<string, Value>, key: string): Option<map<string, Value>> {
    if key in o && o[key].Map? then Some(o[key].members) else None
  }

  /** The JSON-RPC id: absent, a string or a number. */
  function IdOf(o: map<string, Value>): Option<Leaf> {
    if "id" in o && o["id"].Plain? && (o["id"].leaf.Str? || o["id"].leaf.Num?) then Some(o["id"].leaf) else None
  }

  function IdText(id: Option<Leaf>): string {
    match id
    case Some(Str(s)) => s
    case Some(Num(text)) => text
    case _ => ""
  }

  /** The params member a method's routing header mirrors. */
  function NameField(method_: string): string {
    if method_ == "tools/call" || method_ == "prompts/get" then "name"
    else if method_ == "resources/read" then "uri"
    else ""
  }

  /** A single JSON-RPC request: no response, version 2.0, a method and object params. */
  predicate WellFormed(o: map<string, Value>) {
    && ("id" in o ==> IdOf(o).Some?)
    && "result" !in o && "error" !in o
    && StringAt(o, "jsonrpc") == Some("2.0")
    && "method" in o && "params" in o
    && StringAt(o, "method").Some? && StringAt(o, "method").value != ""
    && ObjectAt(o, "params").Some?
  }

  function ValidateIngress(o: map<string, Value>): Outcome<Request> {
    var id := IdOf(o);
    if !WellFormed(o) then Rejected(Rejection(INVALID_REQUEST, id))
    else
      var m, params := StringAt(o, "method").value, ObjectAt(o, "params").value;
      var field := NameField(m);
      var name := if field != "" && StringAt(params, field).Some? then StringAt(params, field).value else "";
      if field != "" && name == "" then Rejected(Rejection(INVALID_REQUEST, id))
      else if m == "tools/call" && "arguments" in params && ObjectAt(params, "arguments").None? then
        Rejected(Rejection(INVALID_REQUEST, id))
      else
        Accepted(Request(
                   m, name,
                   if m == "tools/call" then name else m,
                   if m == "tools/call" then ObjectAt(params, "arguments") else Some(params),
                   IdText(id), id))
  }

  const SENTINEL := "=?base64?"
  const SENTINEL_END := "?="

  predicate HasSuffix(s: string, suffix: string) {
    |suffix| <= |s| && s[|s| - |suffix|..] == suffix
  }

  /** The MCP name header, with its Base64 sentinel removed. */
  function DecodeHeaderName(b64: Base64, value: string): Option<string> {
    if !(SENTINEL <= value) || !HasSuffix(value, SENTINEL_END) then Some(value)
    else
      var body := value[|SENTINEL|..];
      b64(if HasSuffix(body, SENTINEL_END) then body[..|body| - |SENTINEL_END|] else body)
  }

  /** Mirrored headers may be missing but must not contradict the body. */
  ghost predicate HeadersAgree(b64: Base64, h: Header, q: Request) {
    var m, n, v := Lookup(h, MCP_METHOD), Lookup(h, MCP_NAME), Lookup(h, MCP_VERSION);
    && !m.Invalid? && !n.Invalid? && !v.Invalid?
    && (m.Present? ==> m.value == q.method_)
    && (n.Present? ==> q.paramsName != "" && DecodeHeaderName(b64, n.value) == Some(q.paramsName))
    && (v.Present? ==> ',' !in v.value)
  }

  ghost function VersionOf(h: Header): string {
    var v := Lookup(h, MCP_VERSION);
    if v.Present? then v.value else ""
  }

  /** What the adapter makes of a request. `syntax` is the body's syntax tree, if it has one. */
  ghost function Parse(b64: Base64, h: Header, syntax: Option<Json>): Outcome<Invocation> {
    var o := Decoded(syntax);
    if o.None? then Rejected(Rejection(INVALID_REQUEST, None))
    else
      var q := ValidateIngress(o.value);
      if q.Rejected? then Rejected(q.error)
      else if !HeadersAgree(b64, h, q.value) then Rejected(Rejection(HEADER_BODY_MISMATCH, q.value.responseId))
      else
        Accepted(Invocation("mcp", VersionOf(h), q.value.method_, q.value.paramsName, q.value.tool,
                            q.value.arguments, q.value.requestId, q.value.responseId))
  }

  /** The adapter's code: decode, validate, then compare the mirrored headers one by one. */
  method ParseRequest(b64: Base64, h: Header, syntax: Option<Json>) returns (r: Outcome<Invocation>)
    ensures r == Parse(b64, h, syntax)
  {
    var o := DecodeObject(syntax);
    if o.Err? { return Rejected(Rejection(INVALID_REQUEST, None)); }
    var checked := ValidateIngress(o.value);
    if checked.Rejected? { return Rejected(checked.error); }
    var q := checked.value;
    var mismatch := Rejected(Rejection(HEADER_BODY_MISMATCH, q.responseId));
    var m := SingleHeader(h, MCP_METHOD);
    if m.Invalid? || (m.Present? && m.value != q.method_) { return mismatch; }
    var n := SingleHeader(h, MCP_NAME);
    if n.Invalid? { return mismatch; }
    if n.Present? {
      var decoded := DecodeHeaderName(b64, n.value);
      if decoded.None? || q.paramsName == "" || decoded.value != q.paramsName { return mismatch; }
    }
    var v := SingleHeader(h, MCP_VERSION);
    if v.Invalid? || (v.Present? && ',' in v.value) { return mismatch; }
    r := Accepted(Invocation("mcp", if v.Present? then v.value else "", q.method_, q.paramsName, q.tool,
                             q.arguments, q.requestId, q.responseId));
  }

  /** The policy input. */
  datatype EvalInput = EvalInput(
    protocol: string,
    protocolVersion: string,
    tool: string,
    arguments: Option<map<string, Value>>,
    agent: string,
    timestamp: int,
    rawMethod: string)

  function InputOf(inv: Invocation, agent: string, now: int): EvalInput {
    EvalInput(inv.protocol, inv.protocolVersion, inv.tool, inv.arguments, agent, now, inv.method_)
  }

  /** The input the replay-time recheck evaluates for a stored request; None when it no longer parses. */
  ghost function RecheckInput(b64: Base64, restored: Header, syntax: Option<Json>, agent: string, now: int): Option<EvalInput> {
    var p := Parse(b64, restored, syntax);
    if p.Rejected? then None else Some(InputOf(p.value, agent, now))
  }

  // ----- what an accepted request says, read off its syntax -----

  predicate Lacks(ms: seq<Member>, key: string) {
    forall i :: 0 <= i < |ms| ==> ms[i].name != key
  }

  predicate IsId(leaf: Leaf) {
    leaf.Str? || leaf.Num?
  }

  /** The id member: absent, or a string or number. */
  predicate HasId(ms: seq<Member>, id: Option<Leaf>) {
    match id
    case None => Lacks(ms, "id")
    case Some(leaf) => IsId(leaf) && Member("id", Lit(leaf)) in ms
  }

  /** The name a method's params must carry, if any. */
  predicate HasName(m: string, ps: seq<Member>, name: string) {
    if m == "tools/call" || m == "prompts/get" then name != "" && Member("name", Lit(Str(name))) in ps
    else if m == "resources/read" then name != "" && Member("uri", Lit(Str(name))) in ps
    else name == ""
  }

  /** A tool call's arguments are its object of that name, if present; any other call's are its params. */
  ghost predicate HasArguments(m: string, ps: seq<Member>, args: Option<map<string, Value>>) {
    if m == "tools/call" then
      if args.None? then Lacks(ps, "arguments")
      else exists given :: Member("arguments", Obj(given)) in ps && args.value == LastWins(given)
    else args == Some(LastWins(ps))
  }

  /** The members of a body make up this request. */
  ghost predicate Describes(ms: seq<Member>, ps: seq<Member>, q: Request) {
    && Member("jsonrpc", Lit(Str("2.0"))) in ms && Lacks(ms, "result") && Lacks(ms, "error")
    && q.method_ != "" && Member("method", Lit(Str(q.method_))) in ms && Member("params", Obj(ps)) in ms
    && HasId(ms, q.responseId) && HasName(q.method_, ps, q.paramsName) && HasArguments(q.method_, ps, q.arguments)
    && q.tool == (if q.method_ == "tools/call" then q.paramsName else q.method_)
    && q.requestId == (match q.responseId case Some(Str(text)) => text case Some(Num(text)) => text case _ => "")
  }

  lemma AbsentFromMap(ms: seq<Member>, key: string)
    ensures key !in LastWins(ms) <==> Lacks(ms, key)
  {
    LastWinsNames(ms);
  }

  lemma PresentInMap(ms: seq<Member>, key: string) returns (v: Json)
    requires Unique(Obj(ms)) && key in LastWins(ms)
    ensures Member(key, v) in ms && LastWins(ms)[key] == ReadLast(v) && Unique(v)
  {
    LastWinsNames(ms);
    var i :| 0 <= i < |ms| && ms[i].name == key;
    v := ms[i].value;
    assert ms[i] == Member(key, v);
    MemberIsRead(ms, key, v);
  }

  lemma StringFound(ms: seq<Member>, key: string, text: string)
    requires Unique(Obj(ms))
    ensures StringAt(LastWins(ms), key) == Some(text) <==> Member(key, Lit(Str(text))) in ms
  {
    if Member(key, Lit(Str(text))) in ms { MemberIsRead(ms, key, Lit(Str(text))); }
    if StringAt(LastWins(ms), key) == Some(text) {
      var v := PresentInMap(ms, key);
      assert v == Lit(Str(text));
    }
  }

  lemma ObjectFound(ms: seq<Member>, key: string, ps: seq<Member>)
    requires Unique(Obj(ms)) && Member(key, Obj(ps)) in ms
    ensures ObjectAt(LastWins(ms), key) == Some(LastWins(ps)) && Unique(Obj(ps))
  {
    MemberIsRead(ms, key, Obj(ps));
  }

  lemma ObjectIsMember(ms: seq<Member>, key: string) returns (ps: seq<Member>)
    requires Unique(Obj(ms)) && ObjectAt(LastWins(ms), key).Some?
    ensures Member(key, Obj(ps)) in ms && Unique(Obj(ps)) && ObjectAt(LastWins(ms), key) == Some(LastWins(ps))
  {
    var v := PresentInMap(ms, key);
    assert v.Obj?;
    ps := v.members;
    assert v == Obj(ps);
  }

  lemma IdFound(ms: seq<Member>, id: Option<Leaf>)
    requires Unique(Obj(ms))
    ensures HasId(ms, id) <==> IdOf(LastWins(ms)) == id && ("id" in LastWins(ms) ==> id.Some?)
  {
    AbsentFromMap(ms, "id");
    if id.Some? && HasId(ms, id) { MemberIsRead(ms, "id", Lit(id.value)); }
    if "id" in LastWins(ms) && IdOf(LastWins(ms)).Some? {
      var v := PresentInMap(ms, "id");
      assert v == Lit(IdOf(LastWins(ms)).value);
    }
  }

  lemma NameFound(m: string, ps: seq<Member>, name: string)
    requires Unique(Obj(ps)) && HasName(m, ps, name)
    ensures NameField(m) == "" ==> name == ""
    ensures NameField(m) != "" ==> name != "" && StringAt(LastWins(ps), NameField(m)) == Some(name)
  {
    if NameField(m) != "" { StringFound(ps, NameField(m), name); }
  }

  lemma ArgumentsFound(m: string, ps: seq<Member>, args: Option<map<string, Value>>)
    requires Unique(Obj(ps)) && HasArguments(m, ps, args)
    ensures if m == "tools/call" then
              ObjectAt(LastWins(ps), "arguments") == args && ("arguments" in LastWins(ps) ==> args.Some?)
            else args == Some(LastWins(ps))
  {
    if m == "tools/call" {
      AbsentFromMap(ps, "arguments");
      if args.Some? {
        var given :| Member("arguments", Obj(given)) in ps && args.value == LastWins(given);
        ObjectFound(ps, "arguments", given);
      }
    }
  }

  /** A body that describes a request is accepted as exactly that request. */
  lemma DescribedIsAccepted(ms: seq<Member>, ps: seq<Member>, q: Request)
    requires Unique(Obj(ms)) && Describes(ms, ps, q)
    ensures ValidateIngress(LastWins(ms)) == Accepted(q)
  {
    IdFound(ms, q.responseId);
    AbsentFromMap(ms, "result");
    AbsentFromMap(ms, "error");
    StringFound(ms, "jsonrpc", "2.0");
    StringFound(ms, "method", q.method_);
    ObjectFound(ms, "params", ps);
    NameFound(q.method_, ps, q.paramsName);
    ArgumentsFound(q.method_, ps, q.arguments);
  }

  /** Every accepted body describes the request it was accepted as. */
  lemma AcceptedIsDescribed(ms: seq<Member>) returns (ps: seq<Member>)
    requires Unique(Obj(ms)) && ValidateIngress(LastWins(ms)).Accepted?
    ensures Describes(ms, ps, ValidateIngress(LastWins(ms)).value)
  {
    var o := LastWins(ms);
    var q := ValidateIngress(o).value;
    IdFound(ms, q.responseId);
    AbsentFromMap(ms, "result");
    AbsentFromMap(ms, "error");
    StringFound(ms, "jsonrpc", "2.0");
    StringFound(ms, "method", q.method_);
    ps := ObjectIsMember(ms, "params");
    if NameField(q.method_) != "" { StringFound(ps, NameField(q.method_), q.paramsName); }
    AbsentFromMap(ps, "arguments");
    if q.method_ == "tools/call" && q.arguments.Some? {
      var given := ObjectIsMember(ps, "arguments");
    }
  }

  /** The mirrored headers allow the request: each that is there is good and says what the body says. */
  ghost predicate HeadersAllow(b64: Base64, h: Header, m: string, name: string) {
    && Lookup(h, "Mcp-Method") in {Absent, Present(m)}
    && (var n := Lookup(h, "Mcp-Name");
        n == Absent || (n.Present? && name != "" && DecodeHeaderName(b64, n.value) == Some(name)))
    && (var v := Lookup(h, "MCP-Protocol-Version"); v == Absent || (v.Present? && ',' !in v.value))
  }

  /**
   What ingress makes of a request that a body without repeated names describes:
   rejected as a mismatch exactly when a mirrored header contradicts it, and otherwise
   accepted with these fields, of which policy sees the tool, the arguments, the method
   and the version.
   */
  lemma RequestMeans(b64: Base64, h: Header, ms: seq<Member>, ps: seq<Member>, q: Request, agent: string, now: int)
    requires Unique(Obj(ms)) && Describes(ms, ps, q)
    ensures var p := Parse(b64, h, Some(Obj(ms)));
            if !HeadersAllow(b64, h, q.method_, q.paramsName) then p == Rejected(Rejection(-32020, q.responseId))
            else
              && p.Accepted?
              && p.value.method_ == q.method_ && p.value.name == q.paramsName && p.value.tool == q.tool
              && p.value.arguments == q.arguments && p.value.requestId == q.requestId && p.value.responseId == q.responseId
              && var i := InputOf(p.value, agent, now);
                 && i.protocol == "mcp" && i.tool == q.tool && i.arguments == q.arguments && i.rawMethod == q.method_
                 && i.agent == agent && i.timestamp == now
                 && i.protocolVersion == (match Lookup(h, "MCP-Protocol-Version") case Present(v) => v case _ => "")
  {
    DescribedIsAccepted(ms, ps, q);
  }

  lemma ValidExactly(ms: seq<Member>)
    requires Unique(Obj(ms))
    ensures ValidateIngress(LastWins(ms)).Accepted? <==> exists ps, q :: Describes(ms, ps, q)
  {
    forall ps, q | Describes(ms, ps, q)
      ensures ValidateIngress(LastWins(ms)).Accepted?
    {
      DescribedIsAccepted(ms, ps, q);
    }
    if ValidateIngress(LastWins(ms)).Accepted? {
      var ps := AcceptedIsDescribed(ms);
    }
  }

  /** The id that is echoed is the one the body carries, if it is a string or number. */
  ghost predicate Echoes(ms: seq<Member>, id: Option<Leaf>) {
    (id.Some? ==> HasId(ms, id)) && forall leaf :: HasId(ms, Some(leaf)) ==> id == Some(leaf)
  }

  lemma IdIsEchoed(ms: seq<Member>)
    requires Unique(Obj(ms))
    ensures Echoes(ms, IdOf(LastWins(ms)))
  {
    var o := LastWins(ms);
    IdFound(ms, IdOf(o));
    forall leaf | HasId(ms, Some(leaf)) ensures IdOf(o) == Some(leaf) { IdFound(ms, Some(leaf)); }
  }

  /** A body without repeated names is invalid exactly when it describes no request; a usable id is echoed. */
  lemma InvalidExactly(b64: Base64, h: Header, ms: seq<Member>)
    requires Unique(Obj(ms))
    ensures var p := Parse(b64, h, Some(Obj(ms)));
            && (p.Rejected? && p.error.code == -32600 <==> !exists ps, q :: Describes(ms, ps, q))
            && (p.Rejected? && p.error.code == -32600 ==> Echoes(ms, p.error.responseId))
  {
    ValidExactly(ms);
    IdIsEchoed(ms);
  }

  /** A body that is not one JSON object without repeated names is invalid, with no id echoed. */
  lemma UnreadableIsInvalid(b64: Base64, h: Header, syntax: Option<Json>)
    requires syntax.None? || !syntax.value.Obj? || !Unique(syntax.value)
    ensures Parse(b64, h, syntax) == Rejected(Rejection(-32600, None))
  {
  }

  /** A name header in the sentinel form stands for the decoded text, any other for itself. */
  lemma HeaderNameMeans(b64: Base64, x: string)
    ensures DecodeHeaderName(b64, "=?base64?" + x + "?=") == b64(x)
    ensures !("=?base64?" <= x) || !HasSuffix(x, "?=") ==> DecodeHeaderName(b64, x) == Some(x)
  {
    var v := "=?base64?" + x + "?=";
    assert v[|v| - 2..] == "?=";
    assert v[9..] == x + "?=" && (x + "?=")[|x|..] == "?=" && (x + "?=")[..|x|] == x;
  }

  lemma VersionRestored(bad: char -> bool, h: Header, r: Header)
    requires StandsForBytes(bad) && Restored(bad, h, r) && !Lookup(h, MCP_VERSION).Invalid?
    ensures VersionOf(r) == if PlainlyNamed(h, MCP_VERSION) then VersionOf(h) else ""
    ensures !PlainlyNamed(h, MCP_VERSION) ==> VersionOf(h) != ""
  {
    LookupRestored(bad, h, r, MCP_VERSION);
    if Lookup(h, MCP_VERSION).Present? {
      var n, v :| SoleValue(h, MCP_VERSION, n, v) && GoodValue(v);
      LookupPresent(h, MCP_VERSION, n, v);
    }
  }

  /** Headers that agreed with the body at ingress still do after being restored. */
  lemma HeadersStillAgree(b64: Base64, bad: char -> bool, h: Header, r: Header, q: Request)
    requires StandsForBytes(bad) && Restored(bad, h, r) && HeadersAgree(b64, h, q)
    ensures HeadersAgree(b64, r, q)
  {
    LookupRestored(bad, h, r, MCP_METHOD);
    LookupRestored(bad, h, r, MCP_NAME);
    LookupRestored(bad, h, r, MCP_VERSION);
  }

  /** A stored request that ingress accepted always parses again, with nothing but its version in doubt. */
  lemma StoredRequestParses(b64: Base64, bad: char -> bool, h: Header, r: Header, syntax: Option<Json>)
    requires StandsForBytes(bad) && Restored(bad, h, r)
    requires Parse(b64, h, syntax).Accepted?
    ensures Parse(b64, r, syntax).Accepted?
    ensures Parse(b64, r, syntax).value == Parse(b64, h, syntax).value.(protocolVersion := VersionOf(r))
    ensures VersionOf(r) == if PlainlyNamed(h, MCP_VERSION) then VersionOf(h) else ""
    ensures !PlainlyNamed(h, MCP_VERSION) ==> VersionOf(h) != ""
  {
    HeadersStillAgree(b64, bad, h, r, ValidateIngress(Decoded(syntax).value).value);
    VersionRestored(bad, h, r);
  }

  /**
   Recheck parity: for every request ingress accepts, whatever the casing of its
   headers and the iteration orders on the way, the recheck sees the policy input
   that ingress saw, apart from the time, exactly when the protocol version header
   is plainly named.
   */
  lemma RecheckParity(b64: Base64, bad: char -> bool, h: Header, r: Header, syntax: Option<Json>, agent: string, now: int, later: int)
    requires StandsForBytes(bad) && Restored(bad, h, r)
    requires Parse(b64, h, syntax).Accepted?
    ensures RecheckInput(b64, r, syntax, agent, later).Some?
    ensures RecheckInput(b64, r, syntax, agent, later).value
            == InputOf(Parse(b64, h, syntax).value, agent, now).(timestamp := later)
            <==> PlainlyNamed(h, MCP_VERSION)
  {
    StoredRequestParses(b64, bad, h, r, syntax);
  }

  /** Header names made of token characters, as HTTP requires, are always plainly named. */
  lemma TokenNamesArePlain(h: Header)
    requires forall n :: n in h ==> IsToken(n)
    ensures PlainlyNamed(h, MCP_VERSION)
  {
    forall n | n in h && EqualFold(n, MCP_VERSION)
      ensures ToLower(n) == ToLower(MCP_VERSION)
    {
      forall i | 0 <= i < |n|
        ensures LowerRune(n[i]) == LowerRune(MCP_VERSION[i])
      {
        assert IsTokenChar(n[i]) && FoldRune(n[i]) == FoldRune(MCP_VERSION[i]);
        MirroredRune(MCP_VERSION, i);
      }
    }
  }

  /** The one spelling that parity misses: a long s folds to s but does not lower to it. */
  lemma LongSIsNotPlain(version: string)
    requires GoodValue(version) && ',' !in version
    ensures var h: Header := map["MCP-Protocol-Ver\U{017F}ion" := [version]];
            VersionOf(h) == version && !PlainlyNamed(h, MCP_VERSION)
  {
    var n := "MCP-Protocol-Ver\U{017F}ion";
    var h: Header := map[n := [version]];
    assert EqualFold(n, MCP_VERSION);
    assert SoleValue(h, MCP_VERSION, n, version);
    LookupPresent(h, MCP_VERSION, n, version);
    assert ToLower(n)[16] != ToLower(MCP_VERSION)[16];
  }
}
