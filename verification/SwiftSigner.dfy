/**
 The Secure Enclave signer (tools/approve/AikiriApprove.swift), which builds the
 approval message by hand. Whatever it does not refuse is, byte for byte, the
 message Python checks.
 */
module SwiftSigner {
  import opened Wrappers
  import opened Bytes
  import opened Canonical
  import opened Messages

  datatype Fail = BadCharacter(field: string) | BadRoot(at: nat)

  predicate SafeChar(c: char) {
    0x20 <= c as int <= 0x7E && c != '"' && c != '\\'
  }

  predicate Safe(s: string) {
    forall i | 0 <= i < |s| :: SafeChar(s[i])
  }

  lemma {:induction false} EscapeNeverShorter(s: string)
    ensures |Escape(s, true)| >= |s|
  {
    if s != "" {
      EscapeNeverShorter(s[1..]);
    }
  }

  /** The characters refused here are exactly those the canonical form escapes. */
  lemma {:induction false} SafeIffUnescaped(s: string)
    ensures Safe(s) <==> Escape(s, true) == s
  {
    if s != "" {
      var rest := s[1..];
      SafeIffUnescaped(rest);
      EscapeNeverShorter(rest);
      assert s == [s[0]] + rest;
      assert SafeChar(s[0]) <==> |EscapeChar(s[0], true)| == 1;
      if SafeChar(s[0]) {
        assert Escape(s, true)[1..] == Escape(rest, true);
        assert Safe(s) <==> Safe(rest);
      } else {
        assert |Escape(s, true)| > |s|;
      }
    }
  }

  /** The first of these texts that is refused. */
  function FirstUnsafe(texts: seq<string>): (f: Option<Fail>) {
    if texts == [] then None
    else if !Safe(texts[0]) then Some(BadCharacter(texts[0]))
    else FirstUnsafe(texts[1..])
  }

  lemma FirstOfTwo(a: string, b: string)
    ensures FirstUnsafe([a, b]) ==
      if !Safe(a) then Some(BadCharacter(a)) else if !Safe(b) then Some(BadCharacter(b)) else None
  {
    hide Safe;
    assert [a, b][1..] == [b] && [b][1..] == [];
    assert FirstUnsafe([b]) == if !Safe(b) then Some(BadCharacter(b)) else None;
  }

  lemma FirstOfThree(a: string, b: string, c: string)
    ensures FirstUnsafe([a, b, c]) == if !Safe(a) then Some(BadCharacter(a)) else FirstUnsafe([b, c])
  {
    hide Safe;
    assert [a, b, c][1..] == [b, c];
  }

  /** `jsonString`. */
  method JsonString(s: string) returns (r: Result<string, Fail>)
    ensures r.Ok? <==> Safe(s)
    ensures r.Ok? ==> r.value == PrintStr(s, true)
    ensures r.Err? ==> r.error == BadCharacter(s)
  {
    for i := 0 to |s|
      invariant Safe(s[..i])
    {
      if s[i] as int < 0x20 || s[i] as int > 0x7E || s[i] == '"' || s[i] == '\\' {
        return Err(BadCharacter(s));
      }
    }
    assert s[..|s|] == s;
    SafeIffUnescaped(s);
    return Ok("\"" + s + "\"");
  }

  /** A root as the request file gives it: a dictionary of strings. */
  type RawRoot = map<string, string>

  predicate WholeRoot(r: RawRoot) {
    r.Keys == {"kind", "sha256"}
  }

  function AsRoot(r: RawRoot): Root
    requires WholeRoot(r)
  {
    Root(r["kind"], r["sha256"])
  }

  predicate Signable(prevHash: string, roots: seq<RawRoot>, nonce: string, validator: string) {
    && (forall i | 0 <= i < |roots| ::
          WholeRoot(roots[i]) && Safe(roots[i]["kind"]) && Safe(roots[i]["sha256"]))
    && Safe(nonce) && Safe(prevHash) && Safe(validator)
  }

  /** What is wrong with a root, first of all. */
  function RootFail(r: RawRoot, at: nat): (f: Option<Fail>) {
    if !WholeRoot(r) then Some(BadRoot(at)) else FirstUnsafe([r["kind"], r["sha256"]])
  }

  /** What is wrong with the first root that is. */
  function RootsFail(roots: seq<RawRoot>, at: nat): (f: Option<Fail>)
    requires at <= |roots|
    decreases |roots| - at
  {
    if at == |roots| then None
    else if RootFail(roots[at], at).Some? then RootFail(roots[at], at)
    else RootsFail(roots, at + 1)
  }

  function AsRoots(roots: seq<RawRoot>): (rs: seq<Root>)
    requires forall i | 0 <= i < |roots| :: WholeRoot(roots[i])
    ensures |rs| == |roots|
    ensures forall i | 0 <= i < |roots| :: rs[i] == AsRoot(roots[i])
  {
    seq(|roots|, i requires 0 <= i < |roots| => AsRoot(roots[i]))
  }

  /** `joined(separator: ",")`. */
  function Joined(parts: seq<string>): (s: string) {
    if parts == [] then "" else if |parts| == 1 then parts[0] else parts[0] + "," + Joined(parts[1..])
  }

  lemma {:induction false} JoinedIsItems(parts: seq<string>, items: seq<Json>)
    requires |parts| == |items| > 0
    requires forall i | 0 <= i < |parts| :: parts[i] == Print(items[i], true)
    ensures Joined(parts) + "]" == PrintItems(items, true)
  {
    if |parts| > 1 {
      JoinedIsItems(parts[1..], items[1..]);
      Assoc(parts[0] + ",", Joined(parts[1..]), "]");
      Assoc(parts[0], ",", PrintItems(items[1..], true));
    }
  }

  /** Appending one more `,"key":value` to what is written so far. */
  lemma Glue(done: string, comma: string, key: string, value: string, rest: string)
    ensures done + (comma + ((key + value) + rest)) == done + (comma + key) + value + rest
  {
    Assoc(comma, key + value, rest);
    Assoc(comma, key, value);
    Assoc(done, (comma + key) + value, rest);
    Assoc(done, comma + key, value);
  }

  /** A key in quotes, and its colon. */
  function Quoted(key: string): (t: string) {
    "\"" + key + "\":"
  }

  lemma KeyText(m: Member)
    requires Safe(m.key)
    ensures PrintMember(m, true) == Quoted(m.key) + Print(m.value, true)
  {
    SafeIffUnescaped(m.key);
    Assoc("\"" + m.key, "\"", ":");
  }

  lemma LastText(ms: seq<Member>)
    requires |ms| == 1
    ensures PrintMembers(ms, true) == PrintMember(ms[0], true) + "}"
  {
  }

  lemma NextText(ms: seq<Member>)
    requires |ms| > 1
    ensures PrintMembers(ms, true) == PrintMember(ms[0], true) + ("," + PrintMembers(ms[1..], true))
  {
  }

  function RootText(kind: string, sha: string): string {
    "{\"kind\":" + kind + ",\"sha256\":" + sha + "}"
  }

  lemma RootLiterals()
    ensures "{" + Quoted("kind") == "{\"kind\":" && "," + Quoted("sha256") == ",\"sha256\":"
  {
  }

  lemma TwoGlue(open: string, comma: string, close: string, k0: string, v0: string, k1: string, v1: string)
    ensures open + ((k0 + v0) + (comma + ((k1 + v1) + close)))
         == (open + k0) + v0 + (comma + k1) + v1 + close
  {
    var r1 := comma + ((k1 + v1) + close);
    Assoc(open, k0 + v0, r1);
    Assoc(open, k0, v0);
    Glue((open + k0) + v0, comma, k1, v1, close);
  }

  lemma RootIsCanonical(r: Root)
    ensures RootText(PrintStr(r.kind, true), PrintStr(r.sha256, true)) == Print(RootJson(r), true)
  {
    var ms := RootJson(r).members;
    KeyText(ms[0]);
    KeyText(ms[1]);
    NextText(ms);
    LastText(ms[1..]);
    TwoGlue("{", ",", "}", Quoted("kind"), PrintStr(r.kind, true), Quoted("sha256"), PrintStr(r.sha256, true));
    RootLiterals();
  }

  function BodyText(index: string, nonce: string, prevHash: string, roots: string, validator: string): string {
    "{\"index\":" + index
    + ",\"nonce\":" + nonce
    + ",\"prev_hash\":" + prevHash
    + ",\"roots\":" + roots
    + ",\"validator\":" + validator + "}"
  }

  lemma BodyLiterals()
    ensures "{" + Quoted("index") == "{\"index\":"
    ensures "," + Quoted("nonce") == ",\"nonce\":"
    ensures "," + Quoted("prev_hash") == ",\"prev_hash\":"
    ensures "," + Quoted("roots") == ",\"roots\":"
    ensures "," + Quoted("validator") == ",\"validator\":"
  {
  }

  lemma FiveGlue(open: string, comma: string, close: string,
                 k0: string, v0: string, k1: string, v1: string, k2: string, v2: string,
                 k3: string, v3: string, k4: string, v4: string)
    ensures open + ((k0 + v0) + (comma + ((k1 + v1) + (comma + ((k2 + v2)
              + (comma + ((k3 + v3) + (comma + ((k4 + v4) + close)))))))))
         == (open + k0) + v0 + (comma + k1) + v1 + (comma + k2) + v2 + (comma + k3) + v3 + (comma + k4) + v4 + close
  {
    var r3 := comma + ((k4 + v4) + close);
    var r2 := comma + ((k3 + v3) + r3);
    var r1 := comma + ((k2 + v2) + r2);
    TwoGlue(open, comma, r1, k0, v0, k1, v1);
    var d1 := (open + k0) + v0 + (comma + k1) + v1;
    Glue(d1, comma, k2, v2, r2);
    var d2 := d1 + (comma + k2) + v2;
    Glue(d2, comma, k3, v3, r3);
    Glue(d2 + (comma + k3) + v3, comma, k4, v4, close);
  }

  lemma FiveMembers(ms: seq<Member>)
    requires |ms| == 5
    ensures Print(Obj(ms), true)
         == "{" + (PrintMember(ms[0], true) + ("," + (PrintMember(ms[1], true) + ("," + (PrintMember(ms[2], true)
            + ("," + (PrintMember(ms[3], true) + ("," + (PrintMember(ms[4], true) + "}")))))))))
  {
    NextText(ms);
    NextText(ms[1..]);
    NextText(ms[2..]);
    NextText(ms[3..]);
    LastText(ms[4..]);
    assert ms[1..][1..] == ms[2..] && ms[2..][1..] == ms[3..] && ms[3..][1..] == ms[4..];
  }

  function ValueText(ms: seq<Member>, i: nat): string
    requires i < |ms|
  {
    Print(ms[i].value, true)
  }

  lemma FiveText(ms: seq<Member>)
    requires |ms| == 5 && forall i | 0 <= i < 5 :: Safe(ms[i].key)
    ensures Print(Obj(ms), true)
         == ("{" + Quoted(ms[0].key)) + ValueText(ms, 0) + ("," + Quoted(ms[1].key)) + ValueText(ms, 1)
            + ("," + Quoted(ms[2].key)) + ValueText(ms, 2) + ("," + Quoted(ms[3].key)) + ValueText(ms, 3)
            + ("," + Quoted(ms[4].key)) + ValueText(ms, 4) + "}"
  {
    FiveMembers(ms);
    KeyText(ms[0]);
    KeyText(ms[1]);
    KeyText(ms[2]);
    KeyText(ms[3]);
    KeyText(ms[4]);
    FiveGlue("{", ",", "}", Quoted(ms[0].key), ValueText(ms, 0), Quoted(ms[1].key), ValueText(ms, 1),
             Quoted(ms[2].key), ValueText(ms, 2), Quoted(ms[3].key), ValueText(ms, 3),
             Quoted(ms[4].key), ValueText(ms, 4));
  }

  lemma StatementShape(s: Statement)
    ensures var ms := StatementJson(s).members;
      && |ms| == 5
      && ms[0].key == "index" && ms[1].key == "nonce" && ms[2].key == "prev_hash"
      && ms[3].key == "roots" && ms[4].key == "validator"
      && ValueText(ms, 0) == PrintInt(s.index) && ValueText(ms, 1) == PrintStr(s.nonce, true)
      && ValueText(ms, 2) == PrintStr(s.prevHash, true) && ValueText(ms, 3) == Print(RootsJson(s.roots), true)
      && ValueText(ms, 4) == PrintStr(s.validator, true)
  {
  }

  /** The hand-built body is the canonical form of the statement. */
  lemma BodyIsCanonical(s: Statement)
    ensures BodyText(PrintInt(s.index), PrintStr(s.nonce, true), PrintStr(s.prevHash, true),
                     Print(RootsJson(s.roots), true), PrintStr(s.validator, true))
         == Print(StatementJson(s), true)
  {
    StatementShape(s);
    FiveText(StatementJson(s).members);
    BodyLiterals();
  }

  /** One root's text, or the refusal. */
  method RootPart(r: RawRoot, at: nat) returns (part: Result<string, Fail>)
    ensures part.Ok? <==> WholeRoot(r) && Safe(r["kind"]) && Safe(r["sha256"])
    ensures part.Ok? ==> part.value == Print(RootJson(AsRoot(r)), true)
    ensures RootFail(r, at) == if part.Err? then Some(part.error) else None
  {
    if r.Keys != {"kind", "sha256"} {
      return Err(BadRoot(at));
    }
    FirstOfTwo(r["kind"], r["sha256"]);
    var kind := JsonString(r["kind"]);
    if kind.Err? {
      return Err(kind.error);
    }
    var sha := JsonString(r["sha256"]);
    if sha.Err? {
      return Err(sha.error);
    }
    RootIsCanonical(AsRoot(r));
    return Ok(RootText(kind.value, sha.value));
  }

  lemma ArrayText(parts: seq<string>, roots: seq<Root>)
    requires |parts| == |roots|
    requires forall i | 0 <= i < |parts| :: parts[i] == Print(RootJson(roots[i]), true)
    ensures "[" + Joined(parts) + "]" == Print(RootsJson(roots), true)
  {
    if roots != [] {
      JoinedIsItems(parts, RootsJson(roots).items);
      Assoc("[", Joined(parts), "]");
    }
  }

  /** The loop over the roots: each one's text, or what is wrong with the first that is. */
  method RootParts(roots: seq<RawRoot>) returns (r: Result<seq<string>, Fail>)
    ensures r.Ok? <==> forall i | 0 <= i < |roots| ::
              WholeRoot(roots[i]) && Safe(roots[i]["kind"]) && Safe(roots[i]["sha256"])
    ensures r.Ok? ==> |r.value| == |roots|
                      && forall i | 0 <= i < |roots| :: r.value[i] == Print(RootJson(AsRoot(roots[i])), true)
    ensures RootsFail(roots, 0) == if r.Err? then Some(r.error) else None
  {
    hide RootFail, Safe;
    var rootParts: seq<string> := [];
    for i := 0 to |roots|
      invariant |rootParts| == i
      invariant RootsFail(roots, 0) == RootsFail(roots, i)
      invariant forall k | 0 <= k < i ::
                  WholeRoot(roots[k]) && Safe(roots[k]["kind"]) && Safe(roots[k]["sha256"])
      invariant forall k | 0 <= k < i :: rootParts[k] == Print(RootJson(AsRoot(roots[k])), true)
    {
      var part := RootPart(roots[i], i);
      if part.Err? {
        return Err(part.error);
      }
      rootParts := rootParts + [part.value];
    }
    return Ok(rootParts);
  }

  /** `approvalMessage`: refuses, naming the first thing wrong, or yields Python's bytes. */
  method BuildApprovalMessage(index: int, prevHash: string, roots: seq<RawRoot>, nonce: string, validator: string)
    returns (r: Result<Bytes, Fail>)
    ensures r.Ok? <==> Signable(prevHash, roots, nonce, validator)
    ensures r.Ok? ==> r.value == ApprovalMessage(Statement(index, prevHash, AsRoots(roots), nonce, validator))
    ensures r.Err? ==> Some(r.error) == if RootsFail(roots, 0).Some? then RootsFail(roots, 0)
                                        else FirstUnsafe([nonce, prevHash, validator])
  {
    hide Safe, RootsFail;
    var rootParts := RootParts(roots);
    if rootParts.Err? {
      return Err(rootParts.error);
    }
    FirstOfThree(nonce, prevHash, validator);
    FirstOfTwo(prevHash, validator);
    hide FirstUnsafe;
    var n := JsonString(nonce);
    if n.Err? {
      return Err(n.error);
    }
    var p := JsonString(prevHash);
    if p.Err? {
      return Err(p.error);
    }
    var v := JsonString(validator);
    if v.Err? {
      return Err(v.error);
    }
    var body := BodyText(PrintInt(index), n.value, p.value, "[" + Joined(rootParts.value) + "]", v.value);
    ArrayText(rootParts.value, AsRoots(roots));
    BodyIsCanonical(Statement(index, prevHash, AsRoots(roots), nonce, validator));
    return Ok(Utf8(APPROVAL_DOMAIN_V1 + body));
  }
}
