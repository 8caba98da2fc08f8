/**
 Sealing client documents (aikiri_ledger/seal.py, and `seal` and `block` in
 aikiri_ledger/cli.py): one fingerprint, one request, one block.
 */
module SealRuns {
  import opened Wrappers
  import opened Bytes
  import opened Canonical
  import opened Crypto
  import opened Messages
  import opened Approvals
  import opened Blocks
  import opened Disks
  import opened VerifyChain
  import opened VerifyAll
  import opened Writer
  import opened System
  import opened Receipts
  import Requests

  /******* The line *******/

  /** `seal <document> <record id> <sha256>`. */
  datatype Line = Line(document: string, recordId: string, sha256: string)

  /** `kind_for`. */
  function KindFor(document: string): (kind: Option<string>) {
    if document == "agreement" then Some("acceptance")
    else if document == "invoice" then Some("invoice")
    else None
  }

  predicate IsIdStart(c: char) {
    'A' <= c <= 'Z' || 'a' <= c <= 'z' || '0' <= c <= '9'
  }

  predicate IsId(s: string) {
    1 <= |s| <= 64 && IsIdStart(s[0]) && forall i | 0 < i < |s| :: IsIdStart(s[i]) || s[i] == '_' || s[i] == '-'
  }

  /** `record_id`: the pattern's `$` also matches before one final newline. */
  predicate RecordIdOk(s: string) {
    IsId(s) || (s != "" && s[|s| - 1] == '\n' && IsId(s[..|s| - 1]))
  }

  /** An input the stated rule excludes and the code takes. */
  lemma NewlineIsTaken()
    ensures RecordIdOk("a\n") && !IsId("a\n")
  {
    assert "a\n"[..1] == "a";
  }

  /** The code keeps its stated rule exactly on what it takes that does not end in a newline. */
  lemma RecordIdIffNoNewline(s: string)
    requires RecordIdOk(s)
    ensures s != "" && (IsId(s) <==> s[|s| - 1] != '\n')
  {
  }

  predicate SpellsId(s: string, id: string) {
    && (s == id || s == id + "\n")
    && 0 < |id| < 65 && IsIdStart(id[0])
    && forall c | c in id :: 'A' <= c <= 'Z' || 'a' <= c <= 'z' || '0' <= c <= '9' || c == '_' || c == '-'
  }

  /** What is taken, spelled out: a letter or digit and up to 63 more, `_` or `-`, and one
      newline after them or none. */
  lemma RecordIdIff(s: string)
    ensures RecordIdOk(s) <==> exists id :: SpellsId(s, id)
  {
    if s != "" && s[|s| - 1] == '\n' {
      assert s == s[..|s| - 1] + "\n";
    }
    if RecordIdOk(s) {
      var id := if IsId(s) then s else s[..|s| - 1];
      assert SpellsId(s, id);
    }
    if id :| SpellsId(s, id) {
      assert forall i | 0 <= i < |id| :: id[i] in id;
      assert IsId(id);
      assert s != id ==> s[..|s| - 1] == id;
    }
  }

  function StripLeft(s: string): (t: string)
    ensures |t| <= |s|
    ensures t != "" ==> !IsSpace(t[0])
  {
    if s != "" && IsSpace(s[0]) then StripLeft(s[1..]) else s
  }

  function StripRight(s: string): (t: string)
    ensures t <= s
    ensures t != "" ==> !IsSpace(t[|t| - 1])
  {
    if s != "" && IsSpace(s[|s| - 1]) then StripRight(s[..|s| - 1]) else s
  }

  /** `fingerprint`. */
  function Fingerprint(value: string): (sha: Option<string>)
    ensures sha.Some? ==> IsHex64(sha.value)
  {
    var v := Lower(StripRight(StripLeft(value)));
    var bare := if |v| >= 2 && v[0] == '0' && v[1] == 'x' then v[2..] else v;
    if IsHex64(bare) then Some(bare) else None
  }

  lemma NothingToStrip(s: string)
    requires s != "" && !IsSpace(s[0]) && !IsSpace(s[|s| - 1])
    ensures StripRight(StripLeft(s)) == s
  {
  }

  /** Capitals and a 0x prefix are forgiven; what is kept is one form. */
  lemma FingerprintForgives(pasted: string, sha: string)
    requires IsHex64(sha) && Lower(pasted) == sha
    ensures Fingerprint(pasted) == Some(sha) && Fingerprint("0x" + pasted) == Some(sha)
  {
    forall i | 0 <= i < 64 ensures !IsSpace(pasted[i]) {
      assert IsHexDigit(sha[i]) && LowerChar(pasted[i]) == sha[i];
    }
    NothingToStrip(pasted);
    assert sha[1] != 'x' by { assert IsHexDigit(sha[1]); }
    var prefixed := "0x" + pasted;
    assert prefixed[|prefixed| - 1] == pasted[63];
    NothingToStrip(prefixed);
    assert Lower(prefixed) == "0x" + sha;
    assert ("0x" + sha)[2..] == sha;
  }

  predicate AllSpace(s: string) {
    forall c | c in s :: IsSpace(c)
  }

  lemma {:induction false} StripLeftIs(s: string) returns (pre: string)
    ensures s == pre + StripLeft(s) && AllSpace(pre)
  {
    if s != "" && IsSpace(s[0]) {
      var p := StripLeftIs(s[1..]);
      pre := [s[0]] + p;
    } else {
      pre := "";
    }
  }

  lemma {:induction false} StripRightIs(s: string) returns (post: string)
    ensures s == StripRight(s) + post && AllSpace(post)
  {
    if s != "" && IsSpace(s[|s| - 1]) {
      var p := StripRightIs(s[..|s| - 1]);
      post := p + [s[|s| - 1]];
    } else {
      post := "";
    }
  }

  lemma {:induction false} StripsLeft(pre: string, s: string)
    requires AllSpace(pre) && (s == "" || !IsSpace(s[0]))
    ensures StripLeft(pre + s) == s
  {
    if pre != "" {
      assert (pre + s)[1..] == pre[1..] + s;
      StripsLeft(pre[1..], s);
    } else {
      assert pre + s == s;
    }
  }

  lemma {:induction false} StripsRight(s: string, post: string)
    requires AllSpace(post) && (s == "" || !IsSpace(s[|s| - 1]))
    ensures StripRight(s + post) == s
  {
    if post != "" {
      assert (s + post)[..|s + post| - 1] == s + post[..|post| - 1];
      StripsRight(s, post[..|post| - 1]);
    } else {
      assert s + post == s;
    }
  }

  /** The text is this fingerprint, in any case, with a 0x before it or not, in spaces. */
  predicate Spells(value: string, pre: string, body: string, post: string, sha: string) {
    && value == pre + body + post && AllSpace(pre) && AllSpace(post)
    && (Lower(body) == sha || Lower(body) == "0x" + sha)
  }

  lemma HexEnds(body: string, sha: string)
    requires IsHex64(sha) && (Lower(body) == sha || Lower(body) == "0x" + sha)
    ensures body != "" && !IsSpace(body[0]) && !IsSpace(body[|body| - 1])
  {
    var low := Lower(body);
    assert low[0] == LowerChar(body[0]) && low[|low| - 1] == LowerChar(body[|body| - 1]);
    assert IsHexDigit(sha[0]) && IsHexDigit(sha[63]);
    assert IsHexDigit(low[0]) && IsHexDigit(low[|low| - 1]);
  }

  /** Nothing else is forgiven, and nothing else is read. */
  lemma FingerprintIff(value: string, sha: string)
    ensures Fingerprint(value) == Some(sha) <==> IsHex64(sha) && exists pre, body, post :: Spells(value, pre, body, post, sha)
  {
    if Fingerprint(value) == Some(sha) {
      var pre := StripLeftIs(value);
      var inner := StripLeft(value);
      var post := StripRightIs(inner);
      var body := StripRight(inner);
      assert value == pre + body + post;
      var v := Lower(body);
      assert v != sha ==> v == "0x" + v[2..];
      assert Spells(value, pre, body, post, sha);
    }
    if IsHex64(sha) {
      forall pre, body, post | Spells(value, pre, body, post, sha) ensures Fingerprint(value) == Some(sha) {
        HexEnds(body, sha);
        assert value == pre + (body + post);
        StripsLeft(pre, body + post);
        StripsRight(body, post);
        assert IsHexDigit(sha[1]);
        assert ("0x" + sha)[2..] == sha;
      }
    }
  }

  /******* Looking through the blocks *******/

  /** A block's roots, each its kind and fingerprint. */
  function RootsOf(b: Block): (pairs: seq<(Json, string)>) {
    match b
    case V1(_, _, _, roots, _, _, _, _) => seq(|roots|, i requires 0 <= i < |roots| => (roots[i].kind, roots[i].sha256))
    case V2(_, _, _, roots, _, _, _, _, _) => seq(|roots|, i requires 0 <= i < |roots| => (Str(roots[i].kind), roots[i].sha256))
  }

  predicate Carries(b: Block, sha: string) {
    exists i | 0 <= i < |RootsOf(b)| :: RootsOf(b)[i].1 == sha
  }

  /** The kind of the first root with this fingerprint. */
  function KindIn(pairs: seq<(Json, string)>, sha: string): (kind: Option<Json>)
    ensures kind.Some? <==> exists i :: 0 <= i < |pairs| && pairs[i].1 == sha
  {
    if pairs == [] then None else if pairs[0].1 == sha then Some(pairs[0].0) else KindIn(pairs[1..], sha)
  }

  lemma {:induction false} KindAfter(pairs: seq<(Json, string)>, j: nat, sha: string)
    requires j <= |pairs| && forall k | 0 <= k < j :: pairs[k].1 != sha
    ensures KindIn(pairs, sha) == KindIn(pairs[j..], sha)
  {
    if j > 0 {
      KindAfter(pairs[1..], j - 1, sha);
      assert pairs[1..][j - 1..] == pairs[j..];
    } else {
      assert pairs[0..] == pairs;
    }
  }

  datatype Finding = Nowhere | Found(at: nat, kind: Json) | Broken

  /** Blocks 0 to n - 1 read, and none of them carries it. */
  ghost predicate NoneBefore(w: World, files: map<nat, BlockFile>, sha: string, n: nat) {
    forall k: nat | k < n :: k in files && ReadFile(w, files[k]).Some? && !Carries(ReadFile(w, files[k]).value, sha)
  }

  /** Block `at` is the first to carry it, and carries it as `kind`. */
  ghost predicate FirstAt(w: World, files: map<nat, BlockFile>, sha: string, at: nat, kind: Json) {
    && NoneBefore(w, files, sha, at)
    && at in files && ReadFile(w, files[at]).Some?
    && KindIn(RootsOf(ReadFile(w, files[at]).value), sha) == Some(kind)
  }

  lemma FirstIsUnique(w: World, files: map<nat, BlockFile>, sha: string, a: nat, b: nat, j: Json, k: Json)
    requires FirstAt(w, files, sha, a, j) && FirstAt(w, files, sha, b, k)
    ensures a == b && j == k
  {
    NotBeforeFirst(w, files, sha, a, b, j);
    NotBeforeFirst(w, files, sha, b, a, k);
  }

  lemma NotBeforeFirst(w: World, files: map<nat, BlockFile>, sha: string, at: nat, n: nat, kind: Json)
    requires NoneBefore(w, files, sha, n)
    ensures FirstAt(w, files, sha, at, kind) ==> n <= at
  {
    if at < n {
      assert KindIn(RootsOf(ReadFile(w, files[at]).value), sha).None?;
    }
  }

  /** `find`: the first block holding the fingerprint, and the kind it was sealed as. */
  method Find(w: World, files: map<nat, BlockFile>, sha: string) returns (f: Finding)
    ensures f.Nowhere? <==> NoneBefore(w, files, sha, Count(files))
    ensures f.Found? ==> FirstAt(w, files, sha, f.at, f.kind)
    ensures f.Broken? ==> exists i: nat :: NoneBefore(w, files, sha, i) && i in files && ReadFile(w, files[i]).None?
  {
    var i: nat := 0;
    while i in files
      invariant i <= Count(files)
      invariant NoneBefore(w, files, sha, i)
      decreases Count(files) - i
    {
      var b := ReadFile(w, files[i]);
      if b.None? {
        return Broken;
      }
      var pairs := RootsOf(b.value);
      for j := 0 to |pairs|
        invariant forall k | 0 <= k < j :: pairs[k].1 != sha
      {
        if pairs[j].1 == sha {
          KindAfter(pairs, j, sha);
          return Found(i, pairs[j].0);
        }
      }
      i := i + 1;
    }
    CountUnique(files, i, Count(files));
    return Nowhere;
  }

  /******* The requests that wait *******/

  datatype Payload = Payload(index: int, prevHash: string, root: Root, nonce: string, validator: string)

  /** A file in requests/. */
  datatype RequestFile = NotARequest | Waiting(payload: Payload, approval: Option<Approval>)

  /** The ledger directory as sealing sees it, and the fingerprints `seal` ever asked for. */
  datatype Shop = Shop(disk: Disk, requests: seq<RequestFile>, asked: set<string>)

  datatype Outcome = Refused | IsSealed(at: nat, tx: Option<string>) | IsWaiting | Wrote

  predicate Asks(f: RequestFile, sha: string) {
    f.Waiting? && f.payload.root.sha256 == sha
  }

  /** `pending`: the root each waiting request asks for. */
  method Pending(requests: seq<RequestFile>) returns (r: Option<seq<Root>>)
    ensures r.None? <==> NotARequest in requests
    ensures r.Some? ==> |r.value| == |requests| && forall i | 0 <= i < |requests| :: requests[i].Waiting? && r.value[i] == requests[i].payload.root
  {
    var out: seq<Root> := [];
    for i := 0 to |requests|
      invariant |out| == i
      invariant forall k | 0 <= k < i :: requests[k].Waiting? && out[k] == requests[k].payload.root
    {
      if requests[i].NotARequest? {
        return None;
      }
      out := out + [requests[i].payload.root];
    }
    return Some(out);
  }

  /** The line itself is well-formed. */
  predicate LineOk(line: Line) {
    KindFor(line.document).Some? && RecordIdOk(line.recordId) && Fingerprint(line.sha256).Some?
  }

  /** The root a line asks for. */
  function RootFor(line: Line): (root: Root)
    requires LineOk(line)
  {
    Root(KindFor(line.document).value, Fingerprint(line.sha256).value)
  }

  /** What a line asks for: an agreement is sealed as an acceptance, an invoice as itself. */
  lemma LineAsksFor(line: Line)
    ensures LineOk(line) <==>
      (line.document == "agreement" || line.document == "invoice") && RecordIdOk(line.recordId) && Fingerprint(line.sha256).Some?
    ensures LineOk(line) ==>
      RootFor(line) == Root(if line.document == "agreement" then "acceptance" else "invoice", Fingerprint(line.sha256).value)
  {
    hide RecordIdOk, Fingerprint;
  }

  /** A new request may be written: the line is well-formed, every block reads, none
      carries the fingerprint, nothing waits, and HEAD reads. */
  ghost predicate MayAsk(w: World, s: Shop, line: Line) {
    && LineOk(line)
    && NoneBefore(w, s.disk.files, RootFor(line).sha256, Count(s.disk.files))
    && s.requests == []
    && HeadOf(w, s.disk).Some?
    && RootOk(w, RootFor(line))
  }

  /** The first waiting request for this fingerprint asks for it as this very root. */
  ghost predicate WaitsAs(requests: seq<RequestFile>, root: Root) {
    exists i | 0 <= i < |requests| ::
      && requests[i].Waiting? && requests[i].payload.root == root
      && forall k | 0 <= k < i :: !Asks(requests[k], root.sha256)
  }

  function Asking(w: World, trust: Trust, s: Shop, line: Line, nonce: string): (t: Shop)
    requires LineOk(line) && HeadOf(w, s.disk).Some?
  {
    var head := HeadOf(w, s.disk).value;
    var root := RootFor(line);
    var validator := if trust.validator.Some? then trust.validator.value else head.validator;
    s.(requests := [Waiting(Payload(head.index + 1, head.hash, root, nonce, validator), None)],
       asked := s.asked + {root.sha256})
  }

  ghost function AfterSeal(w: World, trust: Trust, s: Shop, line: Line, nonce: string): (t: Shop) {
    if MayAsk(w, s, line) then Asking(w, trust, s, line, nonce) else s
  }

  /** What waits decides, if anything does: the same root already, or in the way. */
  method LookAtWaiting(requests: seq<RequestFile>, root: Root) returns (o: Option<Outcome>)
    ensures o.None? <==> requests == []
    ensures o == Some(IsWaiting) <==> NotARequest !in requests && WaitsAs(requests, root)
    ensures o.Some? ==> o.value.IsWaiting? || o.value.Refused?
  {
    var waiting := Pending(requests);
    if waiting.None? {
      return Some(Refused);
    }
    for i := 0 to |waiting.value|
      invariant forall k | 0 <= k < i :: !Asks(requests[k], root.sha256)
    {
      if waiting.value[i].sha256 == root.sha256 {
        return Some(if waiting.value[i].kind == root.kind then IsWaiting else Refused);
      }
    }
    return if waiting.value != [] then Some(Refused) else None;
  }

  /** `_seal`: it writes a request in one case only, and otherwise changes nothing. A
      document is called sealed, or waiting, only as the kind it is, and sealed only with
      the Base transaction that its block's receipt names, or none if there is none. */
  method Seal(w: World, trust: Trust, s: Shop, line: Line, nonce: string, receipts: map<int, ReceiptFile>)
      returns (o: Outcome, t: Shop)
    ensures o.Wrote? <==> MayAsk(w, s, line)
    ensures forall at, tx :: o == IsSealed(at, tx) <==>
              && LineOk(line) && Reports(w, s.disk.files, receipts, at, tx)
              && FirstAt(w, s.disk.files, RootFor(line).sha256, at, Str(RootFor(line).kind))
    ensures o.IsWaiting? <==>
              && LineOk(line) && NoneBefore(w, s.disk.files, RootFor(line).sha256, Count(s.disk.files))
              && NotARequest !in s.requests && WaitsAs(s.requests, RootFor(line))
    ensures t == AfterSeal(w, trust, s, line, nonce)
  {
    hide FirstAt, NoneBefore, WaitsAs, Reports, LineOk, RootFor, RootOk;
    if !LineOk(line) {
      return Refused, s;
    }
    var root := RootFor(line);
    var found := Find(w, s.disk.files, root.sha256);
    if !found.Nowhere? {
      o := SealedAs(w, s.disk.files, root, found, receipts);
      return o, s;
    }
    assert forall at, kind :: !FirstAt(w, s.disk.files, root.sha256, at, kind) by {
      NowhereIsNotFirst(w, s.disk.files, root.sha256);
    }
    var waits := LookAtWaiting(s.requests, root);
    if waits.Some? {
      return waits.value, s;
    }
    if HeadOf(w, s.disk).None? || !RootOk(w, root) {
      return Refused, s;
    }
    return Wrote, Asking(w, trust, s, line, nonce);
  }

  /** What the receipt of a file's block says was its transaction. */
  ghost predicate Reports(w: World, files: map<nat, BlockFile>, receipts: map<int, ReceiptFile>, at: nat, tx: Option<string>) {
    at in files && ReadFile(w, files[at]).Some? && BaseTx(receipts, ReadFile(w, files[at]).value) == Some(tx)
  }

  /** One file is one document: it is sealed as the line says, or the line is refused. */
  method SealedAs(w: World, files: map<nat, BlockFile>, root: Root, found: Finding, receipts: map<int, ReceiptFile>)
      returns (o: Outcome)
    requires !found.Nowhere?
    requires found.Found? ==> FirstAt(w, files, root.sha256, found.at, found.kind)
    requires found.Broken? ==> exists i: nat :: NoneBefore(w, files, root.sha256, i) && i in files && ReadFile(w, files[i]).None?
    ensures forall at, tx :: o == IsSealed(at, tx) <==>
              Reports(w, files, receipts, at, tx) && FirstAt(w, files, root.sha256, at, Str(root.kind))
    ensures o.IsSealed? || o.Refused?
    ensures !NoneBefore(w, files, root.sha256, Count(files))
  {
    hide RootsOf, KindIn, BaseTx;
    match found
    case Found(at, had) =>
      forall other, kind | FirstAt(w, files, root.sha256, other, kind) ensures other == at && kind == had {
        FirstIsUnique(w, files, root.sha256, at, other, had, kind);
      }
      if NoneBefore(w, files, root.sha256, Count(files)) {
        NowhereIsNotFirst(w, files, root.sha256);
      }
      if had != Str(root.kind) {
        return Refused;
      }
      var base := BaseTx(receipts, ReadFile(w, files[at]).value);
      return if base.Some? then IsSealed(at, base.value) else Refused;
    case Broken =>
      forall at, kind ensures !FirstAt(w, files, root.sha256, at, kind) {
        if FirstAt(w, files, root.sha256, at, kind) {
          BrokenIsNotFirst(w, files, root.sha256, at, kind);
        }
      }
      BrokenIsNotNowhere(w, files, root.sha256);
      return Refused;
  }

  lemma NowhereIsNotFirst(w: World, files: map<nat, BlockFile>, sha: string)
    requires NoneBefore(w, files, sha, Count(files))
    ensures forall at, kind :: !FirstAt(w, files, sha, at, kind)
  {
    forall at: nat, kind ensures !FirstAt(w, files, sha, at, kind) {
      if at < Count(files) {
        assert KindIn(RootsOf(ReadFile(w, files[at]).value), sha).None?;
      }
    }
  }

  lemma BrokenIsNotFirst(w: World, files: map<nat, BlockFile>, sha: string, at: nat, kind: Json)
    requires exists i: nat :: NoneBefore(w, files, sha, i) && i in files && ReadFile(w, files[i]).None?
    ensures !FirstAt(w, files, sha, at, kind)
  {
    var i: nat :| NoneBefore(w, files, sha, i) && i in files && ReadFile(w, files[i]).None?;
    NotBeforeFirst(w, files, sha, at, i, kind);
  }

  lemma BrokenIsNotNowhere(w: World, files: map<nat, BlockFile>, sha: string)
    requires exists i: nat :: NoneBefore(w, files, sha, i) && i in files && ReadFile(w, files[i]).None?
    ensures !NoneBefore(w, files, sha, Count(files))
  {
    var i: nat :| NoneBefore(w, files, sha, i) && i in files && ReadFile(w, files[i]).None?;
    assert Count(files) !in files;
  }

  /** A line run again, whatever the first run did, changes no file. */
  lemma RepeatChangesNothing(w: World, trust: Trust, s: Shop, line: Line, nonce: string, other: string)
    ensures var t := AfterSeal(w, trust, s, line, nonce);
      AfterSeal(w, trust, t, line, other) == t
  {
  }

  /******* Runs *******/

  datatype Event =
    | Sealing(line: Line, nonce: string)
    | Approving(at: nat, approval: Approval)
    | Blocking(named: Option<RequestFile>, now: Moment)  // `--request`, or the one that waits
    | Removing(at: nat)

  function RequestOf(p: Payload, a: Approval): (r: Requests.Request) {
    Requests.Request(p.index, p.prevHash, [p.root], p.nonce, p.validator, a)
  }

  /** The request files `block` looks at: the one named, or those that wait. */
  function Chosen(s: Shop, named: Option<RequestFile>): (paths: seq<RequestFile>) {
    if named.Some? then [named.value] else s.requests
  }

  /** `block` would write one: a single approved request, which the writer takes. */
  predicate MayBlock(w: World, trust: Trust, sk: Signer, s: Shop, named: Option<RequestFile>, now: Moment) {
    var paths := Chosen(s, named);
    && |paths| == 1 && paths[0].Waiting? && paths[0].approval.Some?
    && trust.approvalKeys != []
    && var r := RequestOf(paths[0].payload, paths[0].approval.value);
       Requests.WellFormed(w, r) && Accepts(w, s.disk, r, sk, now, Some(trust.approvalKeys))
  }

  function Blocked(w: World, sk: Signer, s: Shop, f: RequestFile, now: Moment): (t: Shop)
    requires f.Waiting? && f.approval.Some? && f.payload.index >= 0
  {
    s.(disk := Appended(s.disk, BlockFor(w, sk, RequestOf(f.payload, f.approval.value), now)))
  }

  /** `block`. */
  method Block(w: World, trust: Trust, sk: Signer, s: Shop, named: Option<RequestFile>, now: Moment)
      returns (written: bool, t: Shop)
    ensures written <==> MayBlock(w, trust, sk, s, named, now)
    ensures t == if written then Blocked(w, sk, s, Chosen(s, named)[0], now) else s
  {
    hide BlockFor, Accepts, Appended;
    var paths := Chosen(s, named);
    if |paths| != 1 || paths[0].NotARequest? || paths[0].approval.None? || trust.approvalKeys == [] {
      return false, s;
    }
    var r := RequestOf(paths[0].payload, paths[0].approval.value);
    if !Requests.WellFormed(w, r) {
      return false, s;
    }
    var ledger := new Ledger(w, s.disk);
    var res := ledger.AppendFromRequest(r, sk, now, Some(trust.approvalKeys));
    return res.Ok?, s.(disk := ledger.OnDisk());
  }

  /** A device's approval of what `seal` asks for, in time, under the pinned or last
      block's validator. */
  ghost predicate ApprovesAsked(w: World, trust: Trust, sk: Signer, s: Shop, line: Line, nonce: string, a: Approval, now: Moment)
    requires LineOk(line) && BlocksOf(w, s.disk) != [] && AllWellFormed(w, BlocksOf(w, s.disk))
  {
    var bs := BlocksOf(w, s.disk);
    var last := bs[|bs| - 1];
    && IsHex64(sk.pub) && IsHex64(nonce) && nonce !in Nonces(bs)
    && now.at > TimeOf(w, last)
    && sk.pub == (if trust.validator.Some? then trust.validator.value else last.validator)
    && trust.approvalKeys != []
    && VerifyApproval(w, a, Statement(|bs|, last.hash, [RootFor(line)], nonce, sk.pub), Some(trust.approvalKeys)).None?
  }

  /** The shop with what `seal` wrote approved. */
  ghost function ApprovedShop(w: World, trust: Trust, s: Shop, line: Line, nonce: string, a: Approval): (t: Shop)
    requires MayAsk(w, s, line)
  {
    var asked := Asking(w, trust, s, line, nonce);
    asked.(requests := [asked.requests[0].(approval := Some(a))])
  }

  lemma AskedMayBlock(w: World, trust: Trust, sk: Signer, s: Shop, line: Line, nonce: string, a: Approval, now: Moment)
    requires LocallyValid(w, trust, s.disk) && NoStray(s.disk.files) && MayAsk(w, s, line) && BlocksOf(w, s.disk) != []
    requires ApprovesAsked(w, trust, sk, s, line, nonce, a, now)
    ensures MayBlock(w, trust, sk, ApprovedShop(w, trust, s, line, nonce, a), None, now)
  {
    hide LocallyValid, NoStray, LineOk, RootFor, RootOk, VerifyApproval, NoneBefore, Nonces;
    HeadIsLast(w, trust, s.disk);
    NextIsFree(w, trust, s.disk);
    HeadHashIsHex(w, s.disk);
  }

  /** What `seal` writes, once a device approves it, is a request that `block` takes, for a
      block that carries the document as its kind; so the document is then sealed. */
  lemma SealedRequestIsTaken(w: World, trust: Trust, sk: Signer, s: Shop, line: Line, nonce: string, a: Approval, now: Moment)
    requires LocallyValid(w, trust, s.disk) && NoStray(s.disk.files) && MayAsk(w, s, line) && BlocksOf(w, s.disk) != []
    requires ApprovesAsked(w, trust, sk, s, line, nonce, a, now)
    ensures var t := ApprovedShop(w, trust, s, line, nonce, a);
      var kind := if line.document == "agreement" then "acceptance" else "invoice";
      && MayBlock(w, trust, sk, t, None, now)
      && |t.requests| == 1 && t.requests[0].Waiting?
      && RootsOf(BlockFor(w, sk, RequestOf(t.requests[0].payload, a), now)) == [(Str(kind), Fingerprint(line.sha256).value)]
  {
    AskedMayBlock(w, trust, sk, s, line, nonce, a, now);
    LineAsksFor(line);
    hide LocallyValid, NoStray, LineOk, RootFor, NoneBefore, MayBlock, RootsOf, BlockFor, ApprovesAsked;
    RootsOfBlock(w, sk, Asking(w, trust, s, line, nonce).requests[0].payload, a, now);
  }

  lemma NextIsFree(w: World, trust: Trust, disk: Disk)
    requires LocallyValid(w, trust, disk)
    ensures |BlocksOf(w, disk)| !in disk.files && ReadBlocks(w, disk.files).Some?
  {
    hide ChainSound;
  }

  lemma HeadHashIsHex(w: World, disk: Disk)
    requires HeadOf(w, disk).Some?
    ensures IsHex64(HeadOf(w, disk).value.hash)
  {
  }

  ghost function Step(w: World, trust: Trust, sk: Signer, s: Shop, e: Event): (t: Shop) {
    match e
    case Sealing(line, nonce) => AfterSeal(w, trust, s, line, nonce)
    case Approving(at, approval) =>
      if at < |s.requests| && s.requests[at].Waiting? then
        s.(requests := s.requests[at := s.requests[at].(approval := Some(approval))])
      else s
    case Blocking(named, now) =>
      if w.when(now.text) == Some(now.at) && MayBlock(w, trust, sk, s, named, now)
      then Blocked(w, sk, s, Chosen(s, named)[0], now)
      else s
    case Removing(at) =>
      if at < |s.requests| then s.(requests := s.requests[..at] + s.requests[at + 1..]) else s
  }

  ghost function Run(w: World, trust: Trust, sk: Signer, s: Shop, events: seq<Event>): (t: Shop)
    decreases |events|
  {
    if events == [] then s else Run(w, trust, sk, Step(w, trust, sk, s, events[0]), events[1..])
  }

  /** The fingerprint is in at most one block, once, as one kind. */
  ghost predicate OneHome(bs: seq<Block>, sha: string) {
    forall i, j, p, q | 0 <= i < |bs| && 0 <= j < |bs| && p in RootsOf(bs[i]) && q in RootsOf(bs[j]) && p.1 == sha && q.1 == sha ::
      i == j && p == q
  }

  ghost predicate Absent(bs: seq<Block>, sha: string) {
    forall b | b in bs :: !Carries(b, sha)
  }

  /** A waiting request is spent, or is for the next block with a fingerprint no block has. */
  ghost predicate Pledged(bs: seq<Block>, asked: set<string>, f: RequestFile) {
    && f.Waiting?
    && f.payload.root.sha256 in asked
    && (f.payload.index < |bs| || (f.payload.index == |bs| && Absent(bs, f.payload.root.sha256)))
  }

  ghost predicate OneWaiting(bs: seq<Block>, s: Shop) {
    |s.requests| <= 1 && forall f | f in s.requests :: Pledged(bs, s.asked, f)
  }

  ghost predicate Homes(bs: seq<Block>, asked: set<string>) {
    forall sha | sha in asked :: OneHome(bs, sha)
  }

  /** What every run keeps, fair or not. */
  ghost predicate Kept(w: World, trust: Trust, s: Shop) {
    && LocallyValid(w, trust, s.disk) && NoStray(s.disk.files)
    && OneWaiting(BlocksOf(w, s.disk), s)
  }

  lemma AskingIsKept(w: World, trust: Trust, s: Shop, line: Line, nonce: string)
    requires Kept(w, trust, s) && MayAsk(w, s, line)
    ensures Kept(w, trust, Asking(w, trust, s, line, nonce))
    ensures Absent(BlocksOf(w, s.disk), RootFor(line).sha256)
  {
    hide LocallyValid, NoStray, RootsOf, LineOk, RootFor, RootOk;
    var bs := BlocksOf(w, s.disk);
    HeadIsLast(w, trust, s.disk);
    assert Absent(bs, RootFor(line).sha256);
  }

  lemma AskingAdds(w: World, trust: Trust, s: Shop, line: Line, nonce: string)
    requires MayAsk(w, s, line)
    ensures var t := Asking(w, trust, s, line, nonce);
      t.disk == s.disk && t.asked == s.asked + {RootFor(line).sha256}
  {
  }

  lemma AskingKeepsHomes(w: World, trust: Trust, s: Shop, line: Line, nonce: string)
    requires Kept(w, trust, s) && MayAsk(w, s, line) && Homes(BlocksOf(w, s.disk), s.asked)
    ensures Homes(BlocksOf(w, s.disk), Asking(w, trust, s, line, nonce).asked)
  {
    hide Kept, LineOk, RootFor, BlocksOf, OneHome, Absent, Asking, NoneBefore, HeadOf, RootOk;
    AskingIsKept(w, trust, s, line, nonce);
    AskingAdds(w, trust, s, line, nonce);
    var sha := RootFor(line).sha256;
    forall x | x in s.asked + {sha} ensures OneHome(BlocksOf(w, s.disk), x) {
      if x == sha {
        AbsentHasNoHome(BlocksOf(w, s.disk), sha);
      }
    }
  }

  lemma AbsentHasNoHome(bs: seq<Block>, sha: string)
    requires Absent(bs, sha)
    ensures OneHome(bs, sha)
  {
    hide RootsOf;
    forall i, p | 0 <= i < |bs| && p in RootsOf(bs[i]) ensures p.1 != sha {
      assert bs[i] in bs && !Carries(bs[i], sha);
    }
  }

  lemma HomesMore(bs: seq<Block>, b: Block, sha: string)
    requires OneHome(bs, sha) && |RootsOf(b)| == 1
    requires RootsOf(b)[0].1 == sha ==> Absent(bs, sha)
    ensures OneHome(bs + [b], sha)
  {
    hide RootsOf;
    var more := bs + [b];
    forall i, j, p, q | 0 <= i < |more| && 0 <= j < |more| && p in RootsOf(more[i]) && q in RootsOf(more[j]) && p.1 == sha && q.1 == sha
      ensures i == j && p == q
    {
      if i < |bs| && j < |bs| {
        assert more[i] == bs[i] && more[j] == bs[j];
      } else {
        assert RootsOf(b)[0].1 == sha;
        assert i < |bs| ==> bs[i] in bs && Carries(bs[i], sha);
        assert j < |bs| ==> bs[j] in bs && Carries(bs[j], sha);
      }
    }
  }

  lemma RootsOfBlock(w: World, sk: Signer, p: Payload, a: Approval, now: Moment)
    ensures RootsOf(BlockFor(w, sk, RequestOf(p, a), now)) == [(Str(p.root.kind), p.root.sha256)]
  {
  }

  /** This event writes a block. */
  predicate Writes(w: World, trust: Trust, sk: Signer, s: Shop, e: Event) {
    e.Blocking? && w.when(e.now.text) == Some(e.now.at) && MayBlock(w, trust, sk, s, e.named, e.now)
  }

  /** It does not, from a request named on the command line, put a fingerprint that `seal`
      asked for into a second block. */
  ghost predicate Fair(w: World, trust: Trust, sk: Signer, s: Shop, e: Event) {
    Writes(w, trust, sk, s, e) && e.named.Some? ==>
      var sha := e.named.value.payload.root.sha256;
      sha in s.asked ==> Absent(BlocksOf(w, s.disk), sha)
  }

  /** What a block adds, and to what. */
  lemma BlockAdds(w: World, trust: Trust, sk: Signer, s: Shop, named: Option<RequestFile>, now: Moment)
      returns (b: Block)
    requires Dependable(w, sk) && Pins(trust, sk) && w.when(now.text) == Some(now.at)
    requires LocallyValid(w, trust, s.disk) && NoStray(s.disk.files) && MayBlock(w, trust, sk, s, named, now)
    ensures var f := Chosen(s, named)[0];
      var t := Blocked(w, sk, s, f, now);
      && LocallyValid(w, trust, t.disk) && NoStray(t.disk.files)
      && BlocksOf(w, t.disk) == BlocksOf(w, s.disk) + [b]
      && RootsOf(b) == [(Str(f.payload.root.kind), f.payload.root.sha256)]
      && f.payload.index == |BlocksOf(w, s.disk)|
      && t.requests == s.requests && t.asked == s.asked
  {
    hide LocallyValid, NoStray, BlockFor, Requests.WellFormed, WellFormed, Requests.Verify, RootOk, RootsOf;
    var f := Chosen(s, named)[0];
    var r := RequestOf(f.payload, f.approval.value);
    b := BlockFor(w, sk, r, now);
    AppendKeeps(w, trust, sk, s.disk, r, now);
    HeadIsLast(w, trust, s.disk);
    RootsOfBlock(w, sk, f.payload, f.approval.value, now);
  }

  /** A block keeps one home for each fingerprint exactly when it is fair. */
  lemma BlockKeepsHomesIff(w: World, trust: Trust, sk: Signer, s: Shop, named: Option<RequestFile>, now: Moment)
    requires Dependable(w, sk) && Pins(trust, sk) && Writes(w, trust, sk, s, Blocking(named, now))
    requires Kept(w, trust, s) && Homes(BlocksOf(w, s.disk), s.asked)
    ensures var t := Blocked(w, sk, s, Chosen(s, named)[0], now);
      Homes(BlocksOf(w, t.disk), s.asked) <==> Fair(w, trust, sk, s, Blocking(named, now))
  {
    var bs, f := BlocksOf(w, s.disk), Chosen(s, named)[0];
    var b := BlockAdds(w, trust, sk, s, named, now);
    HomesIff(bs, b, s.asked, f.payload.root.sha256);
    if named.None? {
      assert f in s.requests;
      WaitingIsFair(w, trust, s, f);
    }
    hide LocallyValid, NoStray, MayBlock, RootsOf, Absent, Homes, Blocked, BlocksOf, OneWaiting;
  }

  lemma HomesIff(bs: seq<Block>, b: Block, asked: set<string>, sha: string)
    requires Homes(bs, asked) && |RootsOf(b)| == 1 && RootsOf(b)[0].1 == sha
    ensures Homes(bs + [b], asked) <==> (sha in asked ==> Absent(bs, sha))
  {
    hide RootsOf, OneHome, Absent;
    if sha in asked ==> Absent(bs, sha) {
      forall x | x in asked ensures OneHome(bs + [b], x) {
        HomesMore(bs, b, x);
      }
    } else {
      SecondHome(bs, b, sha);
    }
  }

  lemma WaitingIsFair(w: World, trust: Trust, s: Shop, f: RequestFile)
    requires Kept(w, trust, s) && f in s.requests && f.payload.index == |BlocksOf(w, s.disk)|
    ensures Absent(BlocksOf(w, s.disk), f.payload.root.sha256)
  {
    hide LocallyValid, NoStray, Absent;
    assert Pledged(BlocksOf(w, s.disk), s.asked, f);
  }

  lemma SecondHome(bs: seq<Block>, b: Block, sha: string)
    requires !Absent(bs, sha) && |RootsOf(b)| == 1 && RootsOf(b)[0].1 == sha
    ensures !OneHome(bs + [b], sha)
  {
    hide RootsOf;
    var a :| a in bs && Carries(a, sha);
    var i :| 0 <= i < |bs| && bs[i] == a;
    var j :| 0 <= j < |RootsOf(a)| && RootsOf(a)[j].1 == sha;
    var more := bs + [b];
    assert more[i] == a && more[|bs|] == b;
    assert RootsOf(a)[j] in RootsOf(more[i]) && RootsOf(b)[0] in RootsOf(more[|bs|]);
  }

  lemma BlockIsKept(w: World, trust: Trust, sk: Signer, s: Shop, named: Option<RequestFile>, now: Moment)
    requires Dependable(w, sk) && Pins(trust, sk) && Writes(w, trust, sk, s, Blocking(named, now))
    requires Kept(w, trust, s)
    ensures var t := Blocked(w, sk, s, Chosen(s, named)[0], now);
      Kept(w, trust, t) && BlocksOf(w, s.disk) <= BlocksOf(w, t.disk) && t.asked == s.asked
  {
    var f := Chosen(s, named)[0];
    assert f.Waiting? && f.approval.Some? && f.payload.index >= 0;
    hide LocallyValid, NoStray, MayBlock, BlocksOf, RootsOf, Blocked, OneWaiting, Dependable, Pins;
    var b := BlockAdds(w, trust, sk, s, named, now);
    StillOneWaiting(BlocksOf(w, s.disk), b, s, Blocked(w, sk, s, f, now));
  }

  lemma StillOneWaiting(bs: seq<Block>, b: Block, s: Shop, t: Shop)
    requires OneWaiting(bs, s) && t.requests == s.requests && t.asked == s.asked
    ensures OneWaiting(bs + [b], t)
  {
    hide Absent;
    forall f | f in t.requests ensures Pledged(bs + [b], t.asked, f) {
      assert Pledged(bs, s.asked, f);
    }
  }

  /** One event: what is kept stays so, and blocks and fingerprints asked for only grow. */
  lemma StepIsKept(w: World, trust: Trust, sk: Signer, s: Shop, e: Event)
    requires Dependable(w, sk) && Pins(trust, sk) && Kept(w, trust, s)
    ensures var t := Step(w, trust, sk, s, e);
      Kept(w, trust, t) && BlocksOf(w, s.disk) <= BlocksOf(w, t.disk) && s.asked <= t.asked
  {
    hide LocallyValid, NoStray, MayAsk, MayBlock, Absent, BlocksOf, Blocked, LineOk, RootFor, HeadOf;
    match e
    case Sealing(line, nonce) =>
      if MayAsk(w, s, line) {
        AskingIsKept(w, trust, s, line, nonce);
        AskingAdds(w, trust, s, line, nonce);
      }
    case Blocking(named, now) =>
      if Writes(w, trust, sk, s, e) {
        BlockIsKept(w, trust, sk, s, named, now);
      }
    case Approving(at, approval) =>
      if at < |s.requests| {
        assert s.requests[at] in s.requests;
      }
    case Removing(at) =>
  }

  /** Over any run at all: VALID LOCALLY, at most one request waiting, and blocks and
      fingerprints asked for only growing. */
  lemma {:induction false} RunIsKept(w: World, trust: Trust, sk: Signer, s: Shop, events: seq<Event>)
    requires Dependable(w, sk) && Pins(trust, sk) && Kept(w, trust, s)
    ensures var t := Run(w, trust, sk, s, events);
      Kept(w, trust, t) && BlocksOf(w, s.disk) <= BlocksOf(w, t.disk) && s.asked <= t.asked
    decreases |events|
  {
    hide Dependable, Kept, Step, BlocksOf;
    if events != [] {
      StepIsKept(w, trust, sk, s, events[0]);
      RunIsKept(w, trust, sk, Step(w, trust, sk, s, events[0]), events[1..]);
    }
  }

  /** One event keeps one home for each fingerprint exactly when it is fair. */
  lemma StepKeepsHomesIff(w: World, trust: Trust, sk: Signer, s: Shop, e: Event)
    requires Dependable(w, sk) && Pins(trust, sk) && Kept(w, trust, s) && Homes(BlocksOf(w, s.disk), s.asked)
    ensures var t := Step(w, trust, sk, s, e);
      Homes(BlocksOf(w, t.disk), t.asked) <==> Fair(w, trust, sk, s, e)
  {
    hide Kept, MayAsk, MayBlock, Absent, BlocksOf, Homes, LineOk, RootFor, HeadOf, Dependable;
    if Writes(w, trust, sk, s, e) {
      BlockKeepsHomesIff(w, trust, sk, s, e.named, e.now);
    } else if e.Sealing? && MayAsk(w, s, e.line) {
      AskingKeepsHomes(w, trust, s, e.line, e.nonce);
      AskingAdds(w, trust, s, e.line, e.nonce);
    }
  }

  /** Homes now were homes then: fewer blocks and fewer fingerprints have no more. */
  lemma HomesShrink(bs: seq<Block>, asked: set<string>, more: seq<Block>, moreAsked: set<string>)
    requires Homes(more, moreAsked) && bs <= more && asked <= moreAsked
    ensures Homes(bs, asked)
  {
    hide RootsOf;
    forall sha | sha in asked ensures OneHome(bs, sha) {
      assert OneHome(more, sha);
      assert forall i | 0 <= i < |bs| :: bs[i] == more[i];
    }
  }

  ghost predicate FairRun(w: World, trust: Trust, sk: Signer, s: Shop, events: seq<Event>)
    decreases |events|
  {
    events == [] ||
    (Fair(w, trust, sk, s, events[0]) && FairRun(w, trust, sk, Step(w, trust, sk, s, events[0]), events[1..]))
  }

  /** Over any run, one home for each fingerprint stays so if and only if every event
      is fair in its turn. */
  lemma {:induction false} RunKeepsHomesIff(w: World, trust: Trust, sk: Signer, s: Shop, events: seq<Event>)
    requires Dependable(w, sk) && Pins(trust, sk) && Kept(w, trust, s) && Homes(BlocksOf(w, s.disk), s.asked)
    ensures var t := Run(w, trust, sk, s, events);
      Homes(BlocksOf(w, t.disk), t.asked) <==> FairRun(w, trust, sk, s, events)
    decreases |events|
  {
    hide Dependable, Kept, Step, BlocksOf, Homes, Fair;
    if events != [] {
      var next := Step(w, trust, sk, s, events[0]);
      StepIsKept(w, trust, sk, s, events[0]);
      StepKeepsHomesIff(w, trust, sk, s, events[0]);
      if Fair(w, trust, sk, s, events[0]) {
        RunKeepsHomesIff(w, trust, sk, next, events[1..]);
      } else {
        RunIsKept(w, trust, sk, next, events[1..]);
        var t := Run(w, trust, sk, next, events[1..]);
        if Homes(BlocksOf(w, t.disk), t.asked) {
          HomesShrink(BlocksOf(w, next.disk), next.asked, BlocksOf(w, t.disk), t.asked);
        }
      }
    }
  }

  /** Any run of `seal`, approvals, `block` and removals, from a valid ledger where
      nothing waits: it stays VALID LOCALLY, at most one request waits, and no
      fingerprint that was asked for is in two blocks, or in one as two kinds, if and
      only if no request named with `--request` put one there. */
  lemma OneFingerprintOneBlock(w: World, trust: Trust, sk: Signer, disk: Disk, events: seq<Event>)
    requires Dependable(w, sk) && Pins(trust, sk) && LocallyValid(w, trust, disk) && NoStray(disk.files)
    ensures var start := Shop(disk, [], {});
      var t := Run(w, trust, sk, start, events);
      && LocallyValid(w, trust, t.disk)
      && |t.requests| <= 1
      && ((forall sha | sha in t.asked :: OneHome(BlocksOf(w, t.disk), sha)) <==> FairRun(w, trust, sk, start, events))
  {
    hide Dependable, LocallyValid, NoStray, Run, OneHome, FairRun;
    RunIsKept(w, trust, sk, Shop(disk, [], {}), events);
    RunKeepsHomesIff(w, trust, sk, Shop(disk, [], {}), events);
  }

  lemma {:induction false} UnnamedIsFair(w: World, trust: Trust, sk: Signer, s: Shop, events: seq<Event>)
    requires forall e | e in events && e.Blocking? :: e.named.None?
    ensures FairRun(w, trust, sk, s, events)
    decreases |events|
  {
    if events != [] {
      hide Step, Writes;
      assert events[0] in events;
      assert forall e | e in events[1..] :: e in events;
      UnnamedIsFair(w, trust, sk, Step(w, trust, sk, s, events[0]), events[1..]);
    }
  }

  /** So without `--request` it always holds: one fingerprint, one block, one kind. */
  lemma WaitingRequestsSealOnce(w: World, trust: Trust, sk: Signer, disk: Disk, events: seq<Event>)
    requires Dependable(w, sk) && Pins(trust, sk) && LocallyValid(w, trust, disk) && NoStray(disk.files)
    requires forall e | e in events && e.Blocking? :: e.named.None?
    ensures var t := Run(w, trust, sk, Shop(disk, [], {}), events);
      forall sha | sha in t.asked :: OneHome(BlocksOf(w, t.disk), sha)
  {
    hide Dependable, LocallyValid, NoStray, Run, OneHome, FairRun;
    OneFingerprintOneBlock(w, trust, sk, disk, events);
    UnnamedIsFair(w, trust, sk, Shop(disk, [], {}), events);
  }

  lemma CarriedIsNotNone(w: World, disk: Disk, sha: string)
    requires ReadBlocks(w, disk.files).Some? && !Absent(BlocksOf(w, disk), sha)
    ensures !NoneBefore(w, disk.files, sha, Count(disk.files))
  {
    hide RootsOf;
    var bs := BlocksOf(w, disk);
    var b :| b in bs && Carries(b, sha);
    var i :| 0 <= i < |bs| && bs[i] == b;
    assert ReadFile(w, disk.files[i]) == Some(b);
  }

  /** A document in a block stays sealed: after any run, its line, as either document
      and however often repeated, writes nothing. */
  lemma SealedStaysSealed(w: World, trust: Trust, sk: Signer, s: Shop, events: seq<Event>, line: Line, nonce: string)
    requires Dependable(w, sk) && Pins(trust, sk) && Kept(w, trust, s)
    requires LineOk(line) && !Absent(BlocksOf(w, s.disk), RootFor(line).sha256)
    ensures var t := Run(w, trust, sk, s, events);
      AfterSeal(w, trust, t, line, nonce) == t
  {
    hide Dependable, Run, BlocksOf, Carries, LineOk, Asking, OneWaiting;
    RunIsKept(w, trust, sk, s, events);
    var t := Run(w, trust, sk, s, events);
    var b :| b in BlocksOf(w, s.disk) && Carries(b, RootFor(line).sha256);
    assert b in BlocksOf(w, t.disk);
    CarriedIsNotNone(w, t.disk, RootFor(line).sha256);
  }
}
