/**
 What the members of each record are called. The readers and writers go by place, in a
 listing in key order; here the same is said name by name, so that no two fields can be
 taken for each other.
 */
module Fields {
  import opened Wrappers
  import opened Bytes
  import opened Canonical
  import opened Crypto
  import opened Messages
  import opened Approvals
  import opened Blocks
  import Requests

  /******* The parts *******/

  /** A text under a name. */
  predicate HasStr(ms: seq<Member>, key: string, s: string) {
    Get(ms, key) == Some(Str(s))
  }

  predicate HasInt(ms: seq<Member>, key: string, n: int) {
    Get(ms, key) == Some(Int(n))
  }

  /** A label as people may write it. */
  predicate Printable(w: World, s: string, most: nat) {
    0 < |s| <= most && w.nfc(s) && forall c | c in s :: !(c as int < 0x20) && c as int != 0x7F
  }

  predicate SaysRoot(w: World, j: Json, r: Root) {
    && j.Obj? && Keys(j.members) == ["kind", "sha256"]
    && HasStr(j.members, "kind", r.kind) && HasStr(j.members, "sha256", r.sha256)
    && Printable(w, r.kind, 32) && r.kind in ROOT_KINDS && IsHex64(r.sha256)
  }

  /** `roots`: exactly one. */
  predicate SaysRoots(w: World, j: Option<Json>, roots: seq<Root>) {
    && j.Some? && j.value.Arr? && |j.value.items| == 1 && |roots| == 1
    && SaysRoot(w, j.value.items[0], roots[0])
  }

  /** A v1 root: kind and ref are whatever they are. */
  predicate SaysLegacyRoot(j: Json, r: LegacyRoot) {
    && j.Obj? && Keys(j.members) == ["kind", "ref", "sha256"]
    && Get(j.members, "kind") == Some(r.kind) && Get(j.members, "ref") == Some(r.ref)
    && HasStr(j.members, "sha256", r.sha256) && IsHex64(r.sha256)
  }

  predicate SaysLegacyRoots(j: Option<Json>, roots: seq<LegacyRoot>) {
    && j.Some? && j.value.Arr? && |j.value.items| == |roots|
    && forall i | 0 <= i < |roots| :: SaysLegacyRoot(j.value.items[i], roots[i])
  }

  predicate SaysApproval(j: Option<Json>, a: Approval) {
    && j.Some? && j.value.Obj? && Keys(j.value.members) == ["device", "pubkey", "sig"]
    && Get(j.value.members, "device") == Some(a.device)
    && Get(j.value.members, "pubkey") == Some(a.pubkey)
    && Get(j.value.members, "sig") == Some(a.sig)
  }

  /** Two listings under the same keys are one listing when the names say the same. */
  lemma SameByName(ms: seq<Member>, other: seq<Member>, keys: seq<string>)
    requires Keys(ms) == keys && Keys(other) == keys && AllDiffer(keys)
    ensures |ms| == |other| == |keys|
    ensures ms == other <==> forall i | 0 <= i < |keys| :: Get(ms, keys[i]) == Some(other[i].value)
  {
    GetEach(ms, keys);
    NamedMembers(ms, keys);
    NamedMembers(other, keys);
    if forall i | 0 <= i < |keys| :: Get(ms, keys[i]) == Some(other[i].value) {
      forall i | 0 <= i < |ms| ensures ms[i] == other[i] {
        assert Get(ms, keys[i]) == Some(ms[i].value);
      }
    }
  }

  lemma SameListing(ms: seq<Member>, other: seq<Member>, keys: seq<string>)
    requires Keys(ms) == keys && Keys(other) == keys
    ensures |ms| == |other| == |keys|
    ensures ms == other <==> forall i | 0 <= i < |ms| :: ms[i].value == other[i].value
  {
    NamedMembers(ms, keys);
    NamedMembers(other, keys);
  }

  lemma RootSaid(w: World, j: Json, r: Root)
    ensures SaysRoot(w, j, r) <==> j == RootJson(r) && RootOk(w, r)
  {
    var keys := ["kind", "sha256"];
    var other := RootJson(r).members;
    assert Keys(other) == keys;
    if j.Obj? && Keys(j.members) == keys {
      SameByName(j.members, other, keys);
      hide Get;
      assert keys[0] == "kind" && keys[1] == "sha256";
    }
  }

  lemma RootsSaid(w: World, j: Json, roots: seq<Root>)
    ensures SaysRoots(w, Some(j), roots) <==> j == RootsJson(roots) && |roots| == 1 && RootOk(w, roots[0])
  {
    hide RootOk;
    if |roots| == 1 && j.Arr? && |j.items| == 1 {
      RootSaid(w, j.items[0], roots[0]);
      assert RootsJson(roots).items == [RootJson(roots[0])];
    }
  }

  lemma LegacyRootSaid(j: Json, r: LegacyRoot)
    ensures SaysLegacyRoot(j, r) <==> j == LegacyRootJson(r) && IsHex64(r.sha256)
  {
    var keys := ["kind", "ref", "sha256"];
    var other := LegacyRootJson(r).members;
    assert Keys(other) == keys;
    if j.Obj? && Keys(j.members) == keys {
      SameByName(j.members, other, keys);
      hide Get;
      assert keys[0] == "kind" && keys[1] == "ref" && keys[2] == "sha256";
    }
  }

  lemma LegacyRootsSaid(j: Json, roots: seq<LegacyRoot>)
    ensures SaysLegacyRoots(Some(j), roots) <==>
      j == LegacyRootsJson(roots) && forall i | 0 <= i < |roots| :: IsHex64(roots[i].sha256)
  {
    hide SaysLegacyRoot, LegacyRootJson;
    if j.Arr? && |j.items| == |roots| {
      forall i | 0 <= i < |roots|
        ensures SaysLegacyRoot(j.items[i], roots[i]) <==> j.items[i] == LegacyRootJson(roots[i]) && IsHex64(roots[i].sha256)
      {
        LegacyRootSaid(j.items[i], roots[i]);
      }
      assert j == LegacyRootsJson(roots) <==> forall i | 0 <= i < |roots| :: j.items[i] == LegacyRootJson(roots[i]) by {
        if forall i | 0 <= i < |roots| :: j.items[i] == LegacyRootJson(roots[i]) {
          assert j.items == LegacyRootsJson(roots).items;
        }
      }
    }
  }

  lemma ApprovalSaid(j: Json, a: Approval)
    ensures SaysApproval(Some(j), a) <==> j == ApprovalJson(a)
  {
    var keys := ["device", "pubkey", "sig"];
    var other := ApprovalJson(a).members;
    assert Keys(other) == keys;
    if j.Obj? && Keys(j.members) == keys {
      SameByName(j.members, other, keys);
      hide Get;
      assert keys[0] == "device" && keys[1] == "pubkey" && keys[2] == "sig";
    }
  }

  /******* A block's file *******/

  /** The names it has: these and no others. */
  function BlockKeys(b: Block): (keys: seq<string>) {
    if b.V1? then V1_KEYS else V2_KEYS
  }

  predicate SaysBlock(w: World, ms: seq<Member>, b: Block) {
    && HasInt(ms, "index", b.index)
    && HasStr(ms, "timestamp", b.timestamp) && w.when(b.timestamp).Some?
    && HasStr(ms, "prev_hash", b.prevHash) && IsHex64(b.prevHash)
    && HasStr(ms, "validator", b.validator) && IsHex64(b.validator)
    && HasStr(ms, "signature", b.signature) && IsHexStr(b.signature)
    && HasStr(ms, "hash", b.hash) && IsHex64(b.hash)
    && match b
       case V1(_, _, _, roots, merkleRoot, _, _, _) =>
         && HasStr(ms, "merkle_root", merkleRoot) && IsHex64(merkleRoot)
         && SaysLegacyRoots(Get(ms, "roots"), roots)
       case V2(_, _, _, roots, nonce, approval, _, _, _) =>
         && HasInt(ms, "v", 2)
         && HasStr(ms, "nonce", nonce) && IsHex64(nonce)
         && SaysRoots(w, Get(ms, "roots"), roots)
         && SaysApproval(Get(ms, "approval"), approval)
  }

  lemma V1SaidNames()
    ensures var keys := V1_KEYS;
      && |keys| == 8 && InKeyOrder(keys)
      && keys[0] == "hash" && keys[1] == "index" && keys[2] == "merkle_root" && keys[3] == "prev_hash"
      && keys[4] == "roots" && keys[5] == "signature" && keys[6] == "timestamp" && keys[7] == "validator"
  {
    assert Before("v", "validator") by { assert "validator"[1..] != "" && "v"[1..] == ""; }
  }

  lemma V1SaidPlaces(ms: seq<Member>, keys: seq<string>)
    requires Keys(ms) == keys && |keys| == 8 && InKeyOrder(keys)
    requires keys[0] == "hash" && keys[1] == "index" && keys[2] == "merkle_root" && keys[3] == "prev_hash"
    requires keys[4] == "roots" && keys[5] == "signature" && keys[6] == "timestamp" && keys[7] == "validator"
    ensures |ms| == 8
    ensures Get(ms, "hash") == Some(ms[0].value) && Get(ms, "index") == Some(ms[1].value) && Get(ms, "merkle_root") == Some(ms[2].value)
    ensures Get(ms, "prev_hash") == Some(ms[3].value) && Get(ms, "roots") == Some(ms[4].value) && Get(ms, "signature") == Some(ms[5].value)
    ensures Get(ms, "timestamp") == Some(ms[6].value) && Get(ms, "validator") == Some(ms[7].value)
  {
    OrderedDiffer(keys);
    GetEach(ms, keys);
  }

  predicate V1SaidValues(ms: seq<Member>, b: Block)
    requires b.V1?
  {
    && |ms| == 8
    && ms[0].value == Str(b.hash) && ms[1].value == Int(b.index) && ms[2].value == Str(b.merkleRoot)
    && ms[3].value == Str(b.prevHash) && ms[4].value == LegacyRootsJson(b.legacyRoots) && ms[5].value == Str(b.signature)
    && ms[6].value == Str(b.timestamp) && ms[7].value == Str(b.validator)
  }

  lemma V1SaidListing(ms: seq<Member>, b: Block)
    requires b.V1? && Keys(ms) == V1_KEYS
    ensures Obj(ms) == ToJson(b) <==> V1SaidValues(ms, b)
  {
    KeysOfJson(b);
    SameListing(ms, ToJson(b).members, V1_KEYS);
    hide LegacyRootsJson, RootsJson, ApprovalJson, Keys;
  }

  lemma V1SaidFields(w: World, ms: seq<Member>, b: Block)
    requires b.V1? && |ms| == 8
    requires Get(ms, "hash") == Some(ms[0].value) && Get(ms, "index") == Some(ms[1].value) && Get(ms, "merkle_root") == Some(ms[2].value)
    requires Get(ms, "prev_hash") == Some(ms[3].value) && Get(ms, "roots") == Some(ms[4].value) && Get(ms, "signature") == Some(ms[5].value)
    requires Get(ms, "timestamp") == Some(ms[6].value) && Get(ms, "validator") == Some(ms[7].value)
    ensures SaysBlock(w, ms, b) <==> V1SaidValues(ms, b) && WellFormed(w, b)
  {
    hide Get, Keys, SaysLegacyRoots, LegacyRootsJson, IsHex64, IsHexStr;
    LegacyRootsSaid(ms[4].value, b.legacyRoots);
  }

  lemma V1Said(w: World, ms: seq<Member>, b: Block)
    requires b.V1? && Keys(ms) == V1_KEYS
    ensures SaysBlock(w, ms, b) <==> Obj(ms) == ToJson(b) && WellFormed(w, b)
  {
    hide SaysBlock, WellFormed, V1SaidValues, ToJson, Get;
    V1SaidNames();
    V1SaidPlaces(ms, V1_KEYS);
    V1SaidListing(ms, b);
    V1SaidFields(w, ms, b);
  }

  lemma V2SaidNames()
    ensures var keys := V2_KEYS;
      && |keys| == 10 && InKeyOrder(keys)
      && keys[0] == "approval" && keys[1] == "hash" && keys[2] == "index" && keys[3] == "nonce"
      && keys[4] == "prev_hash" && keys[5] == "roots" && keys[6] == "signature" && keys[7] == "timestamp"
      && keys[8] == "v" && keys[9] == "validator"
  {
    assert Before("v", "validator") by { assert "validator"[1..] != "" && "v"[1..] == ""; }
  }

  lemma V2SaidPlaces(ms: seq<Member>, keys: seq<string>)
    requires Keys(ms) == keys && |keys| == 10 && InKeyOrder(keys)
    requires keys[0] == "approval" && keys[1] == "hash" && keys[2] == "index" && keys[3] == "nonce"
    requires keys[4] == "prev_hash" && keys[5] == "roots" && keys[6] == "signature" && keys[7] == "timestamp"
    requires keys[8] == "v" && keys[9] == "validator"
    ensures |ms| == 10
    ensures Get(ms, "approval") == Some(ms[0].value) && Get(ms, "hash") == Some(ms[1].value) && Get(ms, "index") == Some(ms[2].value)
    ensures Get(ms, "nonce") == Some(ms[3].value) && Get(ms, "prev_hash") == Some(ms[4].value) && Get(ms, "roots") == Some(ms[5].value)
    ensures Get(ms, "signature") == Some(ms[6].value) && Get(ms, "timestamp") == Some(ms[7].value) && Get(ms, "v") == Some(ms[8].value)
    ensures Get(ms, "validator") == Some(ms[9].value)
  {
    OrderedDiffer(keys);
    GetEach(ms, keys);
  }

  predicate V2SaidValues(ms: seq<Member>, b: Block)
    requires b.V2?
  {
    && |ms| == 10
    && ms[0].value == ApprovalJson(b.approval) && ms[1].value == Str(b.hash) && ms[2].value == Int(b.index)
    && ms[3].value == Str(b.nonce) && ms[4].value == Str(b.prevHash) && ms[5].value == RootsJson(b.roots)
    && ms[6].value == Str(b.signature) && ms[7].value == Str(b.timestamp) && ms[8].value == Int(BLOCK_VERSION)
    && ms[9].value == Str(b.validator)
  }

  lemma V2SaidListing(ms: seq<Member>, b: Block)
    requires b.V2? && Keys(ms) == V2_KEYS
    ensures Obj(ms) == ToJson(b) <==> V2SaidValues(ms, b)
  {
    KeysOfJson(b);
    SameListing(ms, ToJson(b).members, V2_KEYS);
    hide LegacyRootsJson, RootsJson, ApprovalJson, Keys;
  }

  lemma V2SaidFields(w: World, ms: seq<Member>, b: Block)
    requires b.V2? && |ms| == 10
    requires Get(ms, "approval") == Some(ms[0].value) && Get(ms, "hash") == Some(ms[1].value) && Get(ms, "index") == Some(ms[2].value)
    requires Get(ms, "nonce") == Some(ms[3].value) && Get(ms, "prev_hash") == Some(ms[4].value) && Get(ms, "roots") == Some(ms[5].value)
    requires Get(ms, "signature") == Some(ms[6].value) && Get(ms, "timestamp") == Some(ms[7].value) && Get(ms, "v") == Some(ms[8].value)
    requires Get(ms, "validator") == Some(ms[9].value)
    ensures SaysBlock(w, ms, b) <==> V2SaidValues(ms, b) && WellFormed(w, b)
  {
    hide Get, Keys, SaysRoots, SaysApproval, RootOk, RootsJson, ApprovalJson, IsHex64, IsHexStr;
    RootsSaid(w, ms[5].value, b.roots);
    ApprovalSaid(ms[0].value, b.approval);
  }

  lemma V2Said(w: World, ms: seq<Member>, b: Block)
    requires b.V2? && Keys(ms) == V2_KEYS
    ensures SaysBlock(w, ms, b) <==> Obj(ms) == ToJson(b) && WellFormed(w, b)
  {
    hide SaysBlock, WellFormed, V2SaidValues, ToJson, Get;
    V2SaidNames();
    V2SaidPlaces(ms, V2_KEYS);
    V2SaidListing(ms, b);
    V2SaidFields(w, ms, b);
  }

  /** A block file is read, and as this block, exactly when it says so, name by name. */
  lemma BlockIsReadIff(w: World, j: Json, b: Block)
    ensures ParseBlock(w, j) == Some(b) <==> j.Obj? && Keys(j.members) == BlockKeys(b) && SaysBlock(w, j.members, b)
  {
    ParseIffWritten(w, j, b);
    KeysOfJson(b);
    ToJsonIsObj(b);
    hide SaysBlock, WellFormed, ParseBlock, ToJson, Keys;
    if j.Obj? && Keys(j.members) == BlockKeys(b) {
      if b.V1? {
        V1Said(w, j.members, b);
      } else {
        V2Said(w, j.members, b);
      }
    }
  }

  lemma ToJsonIsObj(b: Block)
    ensures ToJson(b).Obj?
  {
  }

  /** What is hashed is the file without its signature and its hash. */
  lemma BodyIsFile(b: Block)
    ensures forall m :: m in BodyJson(b).members <==> m in ToJson(b).members && m.key != "signature" && m.key != "hash"
  {
  }

  const STATEMENT_KEYS := ["index", "nonce", "prev_hash", "roots", "validator"]

  /** What a device signs is five members of the block's file. */
  lemma StatementIsOfBlock(b: Block)
    requires b.V2?
    ensures forall m :: m in StatementJson(StatementOf(b)).members <==> m in ToJson(b).members && m.key in STATEMENT_KEYS
  {
  }

  /** The bytes that are hashed, and those that are signed, spelled out. */
  lemma BytesSpelled(b: Block)
    ensures b.V1? ==> Preimage(b) == Utf8(Print(BodyJson(b), false))
    ensures b.V2? ==> Preimage(b) == Utf8("aikiri-ledger/block/v2\n" + Print(BodyJson(b), true))
    ensures b.V2? ==> (var s := StatementOf(b);
      ApprovalMessage(s) == Utf8("aikiri-ledger/approval/v1\n" + Print(StatementJson(s), true)))
  {
    hide Print, Utf8, BodyJson, StatementJson;
  }

  /******* A request's file *******/

  predicate SaysRequest(w: World, ms: seq<Member>, r: Requests.Request) {
    && HasInt(ms, "v", 1)
    && HasInt(ms, "index", r.index) && r.index >= 1
    && HasStr(ms, "nonce", r.nonce) && IsHex64(r.nonce)
    && HasStr(ms, "prev_hash", r.prevHash) && IsHex64(r.prevHash)
    && HasStr(ms, "validator", r.validator) && IsHex64(r.validator)
    && SaysRoots(w, Get(ms, "roots"), r.roots)
    && SaysApproval(Get(ms, "approval"), r.approval)
  }

  lemma RequestSaidNames()
    ensures var keys := Requests.REQUEST_KEYS;
      && |keys| == 7 && InKeyOrder(keys)
      && keys[0] == "approval" && keys[1] == "index" && keys[2] == "nonce" && keys[3] == "prev_hash"
      && keys[4] == "roots" && keys[5] == "v" && keys[6] == "validator"
  {
    assert Before("v", "validator") by { assert "validator"[1..] != "" && "v"[1..] == ""; }
  }

  lemma RequestSaidPlaces(ms: seq<Member>, keys: seq<string>)
    requires Keys(ms) == keys && |keys| == 7 && InKeyOrder(keys)
    requires keys[0] == "approval" && keys[1] == "index" && keys[2] == "nonce" && keys[3] == "prev_hash"
    requires keys[4] == "roots" && keys[5] == "v" && keys[6] == "validator"
    ensures |ms| == 7
    ensures Get(ms, "approval") == Some(ms[0].value) && Get(ms, "index") == Some(ms[1].value) && Get(ms, "nonce") == Some(ms[2].value)
    ensures Get(ms, "prev_hash") == Some(ms[3].value) && Get(ms, "roots") == Some(ms[4].value) && Get(ms, "v") == Some(ms[5].value)
    ensures Get(ms, "validator") == Some(ms[6].value)
  {
    OrderedDiffer(keys);
    GetEach(ms, keys);
  }

  predicate RequestSaidValues(ms: seq<Member>, r: Requests.Request)
  {
    && |ms| == 7
    && ms[0].value == ApprovalJson(r.approval) && ms[1].value == Int(r.index) && ms[2].value == Str(r.nonce)
    && ms[3].value == Str(r.prevHash) && ms[4].value == RootsJson(r.roots) && ms[5].value == Int(Requests.REQUEST_VERSION)
    && ms[6].value == Str(r.validator)
  }

  lemma RequestSaidListing(ms: seq<Member>, r: Requests.Request)
    requires Keys(ms) == Requests.REQUEST_KEYS
    ensures Obj(ms) == Requests.ToJson(r) <==> RequestSaidValues(ms, r)
  {
    assert Keys(Requests.ToJson(r).members) == Requests.REQUEST_KEYS;
    SameListing(ms, Requests.ToJson(r).members, Requests.REQUEST_KEYS);
    hide LegacyRootsJson, RootsJson, ApprovalJson, Keys;
  }

  lemma RequestSaid(w: World, ms: seq<Member>, r: Requests.Request)
    requires Keys(ms) == Requests.REQUEST_KEYS
    ensures SaysRequest(w, ms, r) <==> Obj(ms) == Requests.ToJson(r) && Requests.WellFormed(w, r)
  {
    RequestSaidNames();
    RequestSaidPlaces(ms, Requests.REQUEST_KEYS);
    RequestSaidListing(ms, r);
    hide Get, Keys, SaysRoots, SaysApproval, RootOk, RootsJson, ApprovalJson, Requests.ToJson;
    RootsSaid(w, ms[4].value, r.roots);
    ApprovalSaid(ms[0].value, r.approval);
  }

  /** A request is read, and as this request, exactly when it says so, name by name. */
  lemma RequestIsReadIff(w: World, j: Json, r: Requests.Request)
    ensures Requests.Parse(w, j) == Some(r) <==>
      j.Obj? && Keys(j.members) == Requests.REQUEST_KEYS && SaysRequest(w, j.members, r)
  {
    hide Requests.WellFormed, Requests.Parse;
    Requests.ParseIffWritten(w, j, r);
    assert Keys(Requests.ToJson(r).members) == Requests.REQUEST_KEYS;
    if j.Obj? && Keys(j.members) == Requests.REQUEST_KEYS {
      RequestSaid(w, j.members, r);
    }
  }

  /** And what a device signs is the same five members of the request's file. */
  lemma StatementIsOfRequest(r: Requests.Request)
    ensures forall m :: m in StatementJson(Requests.StatementOf(r)).members <==>
      m in Requests.ToJson(r).members && m.key in STATEMENT_KEYS
  {
  }
}
