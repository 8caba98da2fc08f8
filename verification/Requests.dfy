/** The sealed request (aikiri_ledger/request.py): one approved statement. */
module Requests {
  import opened Wrappers
  import opened Bytes
  import opened Canonical
  import opened Crypto
  import opened Messages
  import opened Approvals
  import opened Blocks

  const REQUEST_VERSION := 1
  const REQUEST_KEYS := ["approval", "index", "nonce", "prev_hash", "roots", "v", "validator"]

  datatype Request = Request(index: int, prevHash: string, roots: seq<Root>, nonce: string, validator: string,
                             approval: Approval)

  /** `as_dict`. */
  function ToJson(r: Request): (j: Json) {
    Obj([Member("approval", ApprovalJson(r.approval)), Member("index", Int(r.index)), Member("nonce", Str(r.nonce)),
         Member("prev_hash", Str(r.prevHash)), Member("roots", RootsJson(r.roots)),
         Member("v", Int(REQUEST_VERSION)), Member("validator", Str(r.validator))])
  }

  function StatementOf(r: Request): (s: Statement) {
    Statement(r.index, r.prevHash, r.roots, r.nonce, r.validator)
  }

  /** What a request that was read is known to be. */
  predicate WellFormed(w: World, r: Request) {
    && r.index >= 1
    && IsHex64(r.prevHash) && IsHex64(r.nonce) && IsHex64(r.validator)
    && |r.roots| == 1 && RootOk(w, r.roots[0])
  }

  /** `Request.parse`. */
  function Parse(w: World, j: Json): (r: Option<Request>) {
    if !Strict(j, REQUEST_KEYS) then None
    else
      var ms := j.members;
      if !AllStr(ms, {2, 3, 6}) || !ms[1].value.Int? || ms[5].value != Int(REQUEST_VERSION) then None
      else if !Strict(ms[0].value, ["device", "pubkey", "sig"]) then None
      else
        match ParseRoots(w, ms[4].value)
        case None => None
        case Some(roots) =>
          var a := ms[0].value.members;
          var r := Request(ms[1].value.n, ms[3].value.s, roots, ms[2].value.s, ms[6].value.s,
                           Approval(a[0].value, a[1].value, a[2].value));
          if WellFormed(w, r) then Some(r) else None
  }

  lemma ParseInverts(w: World, r: Request)
    requires WellFormed(w, r)
    ensures Parse(w, ToJson(r)) == Some(r)
  {
    var ms := ToJson(r).members;
    assert Keys(ms) == REQUEST_KEYS;
    assert Keys(ms[0].value.members) == ["device", "pubkey", "sig"];
    RootRoundTrip(w, r.roots);
  }

  /** A request file is read exactly when it is what writing some well-formed request
      makes, and reading gives that request. */
  lemma ParseIffWritten(w: World, j: Json, r: Request)
    ensures Parse(w, j) == Some(r) <==> j == ToJson(r) && WellFormed(w, r)
  {
    if j == ToJson(r) && WellFormed(w, r) {
      ParseInverts(w, r);
    }
    if Parse(w, j) == Some(r) {
      var ms := j.members;
      var item := ms[4].value.items[0];
      NamedMembers(item.members, ["kind", "sha256"]);
      assert item.members == RootJson(r.roots[0]).members;
      assert ms[4].value.items == RootsJson(r.roots).items;
      NamedMembers(ms[0].value.members, ["device", "pubkey", "sig"]);
      assert ms[0].value.members == ApprovalJson(r.approval).members;
      NamedMembers(ms, REQUEST_KEYS);
      assert ms == ToJson(r).members;
    }
  }

  /** `to_json`: canonical text and a newline. */
  function Text(r: Request): (t: string) {
    Print(ToJson(r), true) + "\n"
  }

  lemma RequestKeysSorted(r: Request)
    ensures InKeyOrder(Keys(ToJson(r).members))
  {
    var ks := Keys(ToJson(r).members);
    assert ks == REQUEST_KEYS;
    assert Before("v", "validator") by { assert "validator"[1..] != "" && "v"[1..] == ""; }
    forall i | 0 <= i < |ks| - 1 ensures Before(ks[i], ks[i + 1]) {
    }
  }

  /** The file `to_json` writes reads back as the request. */
  lemma TextRoundTrip(w: World, r: Request)
    requires WellFormed(w, r)
    ensures Load(Text(r)).Some? && Parse(w, Load(Text(r)).value) == Some(r)
  {
    LoadInvertsPrint(ToJson(r).members, true);
    ParseInverts(w, r);
  }

  /** `Request.verify`. */
  function Verify(w: World, r: Request, registered: Option<seq<ApprovalKey>>): (refusal: Option<Refusal>) {
    VerifyApproval(w, r.approval, StatementOf(r), registered)
  }
}
