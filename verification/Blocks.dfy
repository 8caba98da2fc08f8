/**
 Blocks (aikiri_ledger/chain.py, `Block`). Version 1 is readable and frozen;
 version 2 is the only one written. A block is what its file parses to.
 */
module Blocks {
  import opened Wrappers
  import opened Bytes
  import opened Canonical
  import opened Crypto
  import opened Messages
  import opened Approvals
  import Merkle

  /** A v1 root: only its hash is checked. */
  datatype LegacyRoot = LegacyRoot(kind: Json, ref: Json, sha256: string)

  datatype Block =
    | V1(index: int, timestamp: string, prevHash: string, legacyRoots: seq<LegacyRoot>, merkleRoot: string,
         validator: string, signature: string, hash: string)
    | V2(index: int, timestamp: string, prevHash: string, roots: seq<Root>, nonce: string, approval: Approval,
         validator: string, signature: string, hash: string)

  const BLOCK_VERSION := 2
  const ROOT_KINDS := ["journal", "scenario", "revocation", "deliverable", "acceptance", "invoice", "raw"]

  /** What the hash covers: everything but the signature and the hash itself. */
  function Body(b: Block): (body: Block) {
    b.(signature := "", hash := "")
  }

  function StatementOf(b: Block): (s: Statement)
    requires b.V2?
  {
    Statement(b.index, b.prevHash, b.roots, b.nonce, b.validator)
  }

  /******* As JSON *******/

  function ApprovalJson(a: Approval): (j: Json) {
    Obj([Member("device", a.device), Member("pubkey", a.pubkey), Member("sig", a.sig)])
  }

  function LegacyRootJson(r: LegacyRoot): (j: Json) {
    Obj([Member("kind", r.kind), Member("ref", r.ref), Member("sha256", Str(r.sha256))])
  }

  function LegacyRootsJson(roots: seq<LegacyRoot>): (j: Json)
    ensures j.Arr? && |j.items| == |roots|
    ensures forall i | 0 <= i < |roots| :: j.items[i] == LegacyRootJson(roots[i])
  {
    Arr(seq(|roots|, i requires 0 <= i < |roots| => LegacyRootJson(roots[i])))
  }

  function ToJson(b: Block): (j: Json) {
    match b
    case V1(index, timestamp, prevHash, roots, merkleRoot, validator, signature, hash) =>
      Obj([Member("hash", Str(hash)), Member("index", Int(index)), Member("merkle_root", Str(merkleRoot)),
           Member("prev_hash", Str(prevHash)), Member("roots", LegacyRootsJson(roots)),
           Member("signature", Str(signature)), Member("timestamp", Str(timestamp)),
           Member("validator", Str(validator))])
    case V2(index, timestamp, prevHash, roots, nonce, approval, validator, signature, hash) =>
      Obj([Member("approval", ApprovalJson(approval)), Member("hash", Str(hash)), Member("index", Int(index)),
           Member("nonce", Str(nonce)), Member("prev_hash", Str(prevHash)), Member("roots", RootsJson(roots)),
           Member("signature", Str(signature)), Member("timestamp", Str(timestamp)),
           Member("v", Int(BLOCK_VERSION)), Member("validator", Str(validator))])
  }

  /** `_body`. */
  function BodyJson(b: Block): (j: Json)
    ensures j.Obj? && j.members != []
  {
    match b
    case V1(index, timestamp, prevHash, roots, merkleRoot, validator, _, _) =>
      Obj([Member("index", Int(index)), Member("merkle_root", Str(merkleRoot)), Member("prev_hash", Str(prevHash)),
           Member("roots", LegacyRootsJson(roots)), Member("timestamp", Str(timestamp)),
           Member("validator", Str(validator))])
    case V2(index, timestamp, prevHash, roots, nonce, approval, validator, _, _) =>
      Obj([Member("approval", ApprovalJson(approval)), Member("index", Int(index)), Member("nonce", Str(nonce)),
           Member("prev_hash", Str(prevHash)), Member("roots", RootsJson(roots)),
           Member("timestamp", Str(timestamp)), Member("v", Int(BLOCK_VERSION)), Member("validator", Str(validator))])
  }

  lemma BodyKeysSorted(b: Block)
    ensures InKeyOrder(Keys(BodyJson(b).members))
  {
    var ks := Keys(BodyJson(b).members);
    if b.V1? {
      assert ks == ["index", "merkle_root", "prev_hash", "roots", "timestamp", "validator"];
    } else {
      assert ks == ["approval", "index", "nonce", "prev_hash", "roots", "timestamp", "v", "validator"];
      assert Before("v", "validator") by { assert "validator"[1..] != "" && "v"[1..] == ""; }
    }
    forall i | 0 <= i < |ks| - 1 ensures Before(ks[i], ks[i + 1]) {
    }
  }

  /******* The hash *******/

  /** `canonical`: the bytes that are hashed. */
  function Preimage(b: Block): (bytes: Bytes) {
    if b.V1? then Utf8(Print(BodyJson(b), false)) else Tagged(BlockDomain, BodyJson(b))
  }

  function ComputeHash(w: World, b: Block): (h: string)
    ensures IsHex64(h)
  {
    Sha256Hex(w, Preimage(b))
  }

  lemma LegacyRootsJsonInjective(a: seq<LegacyRoot>, b: seq<LegacyRoot>)
    requires LegacyRootsJson(a) == LegacyRootsJson(b)
    ensures a == b
  {
    assert |a| == |LegacyRootsJson(a).items| == |b|;
    forall i | 0 <= i < |a| ensures a[i] == b[i] {
      assert LegacyRootsJson(a).items[i] == LegacyRootJson(a[i]);
      assert LegacyRootsJson(b).items[i] == LegacyRootJson(b[i]);
      var ma, mb := LegacyRootJson(a[i]).members, LegacyRootJson(b[i]).members;
      assert ma[0].value == mb[0].value && ma[1].value == mb[1].value && ma[2].value == mb[2].value;
    }
  }

  lemma BodyJsonInjective(a: Block, b: Block)
    requires BodyJson(a) == BodyJson(b)
    ensures Body(a) == Body(b)
  {
    var ma, mb := BodyJson(a).members, BodyJson(b).members;
    assert |ma| == |mb|;
    assert a.V1? <==> b.V1?;
    if a.V1? {
      assert ma[0].value == mb[0].value && ma[1].value == mb[1].value && ma[2].value == mb[2].value;
      assert ma[3].value == mb[3].value && ma[4].value == mb[4].value && ma[5].value == mb[5].value;
      LegacyRootsJsonInjective(a.legacyRoots, b.legacyRoots);
    } else {
      assert ma[0].value == mb[0].value && ma[1].value == mb[1].value && ma[2].value == mb[2].value;
      assert ma[3].value == mb[3].value && ma[4].value == mb[4].value && ma[5].value == mb[5].value;
      assert ma[7].value == mb[7].value;
      var pa, pb := ma[0].value.members, mb[0].value.members;
      assert pa[0].value == pb[0].value && pa[1].value == pb[1].value && pa[2].value == pb[2].value;
      RootsJsonInjective(a.roots, b.roots);
    }
  }

  /** The hashed bytes determine the whole body, across both versions. */
  lemma PreimageInjective(a: Block, b: Block)
    requires Preimage(a) == Preimage(b)
    ensures Body(a) == Body(b)
  {
    var ja, jb := BodyJson(a), BodyJson(b);
    if a.V1? && b.V1? {
      Utf8Injective(Print(ja, false), Print(jb, false));
      PrintInjective(ja, jb, false);
    } else if a.V1? {
      BareIsNotTagged(ja.members, BlockDomain, jb);
    } else if b.V1? {
      BareIsNotTagged(jb.members, BlockDomain, ja);
    } else {
      TaggedInjective(BlockDomain, BlockDomain, ja, jb);
    }
    BodyJsonInjective(a, b);
  }

  /** Two blocks whose hashed bytes differ and hash alike. */
  ghost predicate Clash(w: World, a: Block, b: Block) {
    Collide(w, Preimage(a), Preimage(b))
  }

  /** Equal hashes, each its block's own: equal bodies, or a collision in hand. */
  lemma SameHashSameBody(w: World, a: Block, b: Block)
    requires ComputeHash(w, a) == ComputeHash(w, b)
    ensures Body(a) == Body(b) || Clash(w, a, b)
  {
    HexInjective(w.sha(Preimage(a)), w.sha(Preimage(b)));
    if Preimage(a) == Preimage(b) {
      PreimageInjective(a, b);
    }
  }

  /******* Reading *******/

  predicate RootOk(w: World, r: Root) {
    PlainStr(w, r.kind, 32) && r.kind in ROOT_KINDS && IsHex64(r.sha256)
  }

  /** `parse_roots`: exactly one root, closed schema, known kind. */
  function ParseRoots(w: World, j: Json): (r: Option<seq<Root>>)
  {
    if !j.Arr? || |j.items| != 1 then None
    else
      var item := j.items[0];
      if !Strict(item, ["kind", "sha256"]) then None
      else
        var kind, sha := item.members[0].value, item.members[1].value;
        if kind.Str? && sha.Str? && RootOk(w, Root(kind.s, sha.s)) then Some([Root(kind.s, sha.s)]) else None
  }

  predicate LegacyRootShape(j: Json) {
    Strict(j, ["kind", "ref", "sha256"]) && j.members[2].value.Str? && IsHex64(j.members[2].value.s)
  }

  function LegacyRootOf(j: Json): (r: LegacyRoot)
    requires LegacyRootShape(j)
  {
    LegacyRoot(j.members[0].value, j.members[1].value, j.members[2].value.s)
  }

  function ParseLegacyRoots(j: Json): (r: Option<seq<LegacyRoot>>)
    ensures r.Some? ==> j.Arr? && |r.value| == |j.items|
    ensures r.Some? ==> forall i | 0 <= i < |r.value| ::
                          LegacyRootShape(j.items[i]) && r.value[i] == LegacyRootOf(j.items[i])
  {
    if j.Arr? && forall i | 0 <= i < |j.items| :: LegacyRootShape(j.items[i]) then
      Some(seq(|j.items|, i requires 0 <= i < |j.items| && LegacyRootShape(j.items[i]) => LegacyRootOf(j.items[i])))
    else None
  }

  const V1_KEYS := ["hash", "index", "merkle_root", "prev_hash", "roots", "signature", "timestamp", "validator"]
  const V2_KEYS := ["approval", "hash", "index", "nonce", "prev_hash", "roots", "signature", "timestamp", "v", "validator"]

  predicate AllStr(ms: seq<Member>, at: set<nat>) {
    forall i | i in at :: i < |ms| && ms[i].value.Str?
  }

  function ParseV1(w: World, ms: seq<Member>): (r: Option<Block>)
  {
    if Keys(ms) != V1_KEYS || !AllStr(ms, {0, 2, 3, 5, 6, 7}) || !ms[1].value.Int? then None
    else
      match ParseLegacyRoots(ms[4].value)
      case None => None
      case Some(roots) =>
        var b := V1(ms[1].value.n, ms[6].value.s, ms[3].value.s, roots, ms[2].value.s,
                    ms[7].value.s, ms[5].value.s, ms[0].value.s);
        if WellFormed(w, b) then Some(b) else None
  }

  function ParseV2(w: World, ms: seq<Member>): (r: Option<Block>)
  {
    if Keys(ms) != V2_KEYS || !AllStr(ms, {1, 3, 4, 6, 7, 9}) || !ms[2].value.Int? then None
    else if ms[8].value != Int(BLOCK_VERSION) || !Strict(ms[0].value, ["device", "pubkey", "sig"]) then None
    else
      match ParseRoots(w, ms[5].value)
      case None => None
      case Some(roots) =>
        var a := ms[0].value.members;
        var b := V2(ms[2].value.n, ms[7].value.s, ms[4].value.s, roots, ms[3].value.s,
                    Approval(a[0].value, a[1].value, a[2].value), ms[9].value.s, ms[6].value.s, ms[1].value.s);
        if WellFormed(w, b) then Some(b) else None
  }

  /** `Block.parse`, from the JSON a file holds. */
  function ParseBlock(w: World, j: Json): (r: Option<Block>)
  {
    if !j.Obj? then None
    else if "v" in Keys(j.members) then ParseV2(w, j.members)
    else ParseV1(w, j.members)
  }

  /** What a block that was read is known to be. */
  predicate WellFormed(w: World, b: Block) {
    && w.when(b.timestamp).Some?
    && IsHex64(b.prevHash) && IsHex64(b.validator) && IsHex64(b.hash) && IsHexStr(b.signature)
    && (b.V1? ==> IsHex64(b.merkleRoot)
                  && forall i | 0 <= i < |b.legacyRoots| :: IsHex64(b.legacyRoots[i].sha256))
    && (b.V2? ==> IsHex64(b.nonce) && |b.roots| == 1 && RootOk(w, b.roots[0]))
  }

  /** Reading accepts exactly the files that writing could have made, and gives the
      block back: nothing is missing, nothing extra, nothing coerced. */
  lemma ParseIffWritten(w: World, j: Json, b: Block)
    ensures ParseBlock(w, j) == Some(b) <==> j == ToJson(b) && WellFormed(w, b)
  {
    if j == ToJson(b) && WellFormed(w, b) {
      ParseInvertsToJson(w, b);
    }
    if ParseBlock(w, j) == Some(b) {
      if "v" in Keys(j.members) {
        ParsedV2(w, j.members, b);
      } else {
        ParsedV1(w, j.members, b);
      }
    }
  }

  lemma KeysOfJson(b: Block)
    ensures Keys(ToJson(b).members) == if b.V1? then V1_KEYS else V2_KEYS
    ensures "v" in Keys(ToJson(b).members) <==> b.V2?
  {
    var ks := Keys(ToJson(b).members);
    if b.V2? {
      assert ks[8] == "v";
    }
  }

  lemma ParseInvertsToJson(w: World, b: Block)
    requires WellFormed(w, b)
    ensures ParseBlock(w, ToJson(b)) == Some(b)
  {
    var ms := ToJson(b).members;
    KeysOfJson(b);
    if b.V1? {
      LegacyRootsRoundTrip(b.legacyRoots);
    } else {
      assert Keys(ms[0].value.members) == ["device", "pubkey", "sig"];
      RootRoundTrip(w, b.roots);
    }
  }

  lemma LegacyRootsRoundTrip(roots: seq<LegacyRoot>)
    requires forall i | 0 <= i < |roots| :: IsHex64(roots[i].sha256)
    ensures ParseLegacyRoots(LegacyRootsJson(roots)) == Some(roots)
  {
    var items := LegacyRootsJson(roots).items;
    forall i | 0 <= i < |roots| ensures LegacyRootShape(items[i]) && LegacyRootOf(items[i]) == roots[i] {
      assert items[i] == LegacyRootJson(roots[i]);
      assert Keys(items[i].members) == ["kind", "ref", "sha256"];
    }
    assert ParseLegacyRoots(LegacyRootsJson(roots)).value == roots;
  }

  lemma RootRoundTrip(w: World, roots: seq<Root>)
    requires |roots| == 1 && RootOk(w, roots[0])
    ensures ParseRoots(w, RootsJson(roots)) == Some(roots)
  {
    var item := RootsJson(roots).items[0];
    assert item == RootJson(roots[0]);
    assert Keys(item.members) == ["kind", "sha256"];
    assert roots == [roots[0]];
  }

  lemma ParsedV1(w: World, ms: seq<Member>, b: Block)
    requires ParseV1(w, ms) == Some(b)
    ensures Obj(ms) == ToJson(b) && WellFormed(w, b)
  {
    var items := ms[4].value.items;
    forall i | 0 <= i < |items| ensures items[i] == LegacyRootsJson(b.legacyRoots).items[i] {
      assert Keys(items[i].members) == ["kind", "ref", "sha256"];
      NamedMembers(items[i].members, ["kind", "ref", "sha256"]);
    }
    assert ms[4].value == LegacyRootsJson(b.legacyRoots);
    NamedMembers(ms, V1_KEYS);
    assert ms == ToJson(b).members;
  }

  lemma ParsedV2(w: World, ms: seq<Member>, b: Block)
    requires ParseV2(w, ms) == Some(b)
    ensures Obj(ms) == ToJson(b) && WellFormed(w, b)
  {
    var item := ms[5].value.items[0];
    NamedMembers(item.members, ["kind", "sha256"]);
    assert item.members == RootJson(b.roots[0]).members;
    assert ms[5].value.items == RootsJson(b.roots).items;
    NamedMembers(ms[0].value.members, ["device", "pubkey", "sig"]);
    assert ms[0].value.members == ApprovalJson(b.approval).members;
    NamedMembers(ms, V2_KEYS);
    assert ms == ToJson(b).members;
  }

  lemma NamedMembers(ms: seq<Member>, keys: seq<string>)
    requires Keys(ms) == keys
    ensures |ms| == |keys| && forall i | 0 <= i < |ms| :: ms[i] == Member(keys[i], ms[i].value)
  {
  }

  /******* Self-verification *******/

  datatype SelfProblem = MerkleMismatch | HashMismatch | BadSignature

  function Leaves(roots: seq<LegacyRoot>): (leaves: seq<string>)
    ensures |leaves| == |roots| && forall i | 0 <= i < |roots| :: leaves[i] == roots[i].sha256
  {
    seq(|roots|, i requires 0 <= i < |roots| => roots[i].sha256)
  }

  /** `verify_self`: what is wrong with the block on its own, if anything. */
  function VerifySelf(w: World, b: Block): (r: Option<SelfProblem>)
    requires WellFormed(w, b)
  {
    if b.V1? && b.merkleRoot != Merkle.RootHex(w, Leaves(b.legacyRoots)) then Some(MerkleMismatch)
    else if b.hash != ComputeHash(w, b) then Some(HashMismatch)
    else if !w.ed25519(FromHex(b.validator), FromHex(b.hash), FromHex(b.signature)) then Some(BadSignature)
    else None
  }
}
