/**
 Trust files (aikiri_ledger/trust.py): what is read, what is written back, and where
 the expectations came from.
 */
module TrustFile {
  import opened Wrappers
  import opened Bytes
  import opened Canonical
  import opened Crypto
  import opened Messages
  import opened Approvals
  import opened Blocks
  import opened VerifyChain
  import opened VerifyAll

  const TRUST_VERSION := 1
  const TRUST_KEYS := ["approval_keys", "chainId", "code_keccak", "contract", "genesis_hash", "legacy", "owner", "v",
                       "validator"]

  /******* Block indices as keys *******/

  predicate IsDecimal(k: string) {
    k != "" && AllDigits(k) && (|k| > 1 ==> k[0] != '0')
  }

  /** `_legacy_key`. */
  function LegacyKey(k: string): (n: Option<nat>) {
    if IsDecimal(k) then Some(Value(k)) else None
  }

  lemma {:induction false} DecimalOfValue(k: string)
    requires IsDecimal(k)
    ensures Decimal(Value(k)) == k
  {
    var front, last := k[..|k| - 1], k[|k| - 1];
    assert k == front + [last];
    if front != "" {
      DecimalOfValue(front);
      LeadingDigit(front);
    }
  }

  lemma {:induction false} LeadingDigit(k: string)
    requires k != "" && AllDigits(k) && k[0] != '0'
    ensures Value(k) > 0
  {
    if |k| > 1 {
      LeadingDigit(k[..|k| - 1]);
    }
  }

  /** A key is accepted if and only if it is the one way its index is written. */
  lemma LegacyKeyIffWritten(k: string, n: nat)
    ensures LegacyKey(k) == Some(n) <==> k == Decimal(n)
  {
    DecimalValue(n);
    if IsDecimal(k) {
      DecimalOfValue(k);
    }
    if n >= 10 {
      assert Decimal(n)[0] != '0';
    }
  }

  /******* Pins *******/

  predicate IsAddress(s: string) {
    |s| == 42 && s[0] == '0' && s[1] == 'x' && forall i | 2 <= i < 42 :: IsAnyHexDigit(s[i])
  }

  /** `_address`. */
  function ReadAddress(j: Json): (r: Option<Option<string>>)
    ensures r.Some? && r.value.Some? ==> IsAddress(r.value.value)
  {
    if j == Null then Some(None)
    else if j.Str? && IsAddress(j.s) then Some(Some(j.s))
    else None
  }

  /** `_hash_or_none`. */
  function ReadHash(j: Json): (r: Option<Option<string>>)
    ensures r.Some? && r.value.Some? ==> IsHex64(r.value.value)
  {
    if j == Null then Some(None)
    else if !j.Str? then None
    else
      var bare := if |j.s| >= 2 && j.s[0] == '0' && LowerChar(j.s[1]) == 'x' then j.s[2..] else j.s;
      if IsHex64(Lower(bare)) then Some(Some(Lower(bare))) else None
  }

  function OrNull(s: Option<string>): (j: Json) {
    if s.Some? then Str(s.value) else Null
  }

  lemma LowerHex(s: string)
    requires IsHex64(s)
    ensures Lower(s) == s
  {
  }

  /** A pin reads back from the form it is stored in. */
  lemma HashRoundTrip(s: Option<string>)
    requires s.Some? ==> IsHex64(s.value)
    ensures ReadHash(OrNull(s)) == Some(s)
  {
    if s.Some? {
      assert IsHexDigit(s.value[1]);
      LowerHex(s.value);
    }
  }

  /** What is read as a pin: null for none, or 64 hex digits in any case, with one 0x
      prefix in any case at most. */
  lemma HashIsReadIff(j: Json, sha: string)
    ensures ReadHash(j) == Some(None) <==> j == Null
    ensures ReadHash(j) == Some(Some(sha)) <==> IsHex64(sha) && j.Str? && (Lower(j.s) == sha || Lower(j.s) == "0x" + sha)
  {
    if j.Str? {
      var t := Lower(j.s);
      assert IsHex64(sha) ==> IsHexDigit(sha[1]);
      if |j.s| >= 2 && j.s[0] == '0' && LowerChar(j.s[1]) == 'x' {
        assert t == "0x" + Lower(j.s[2..]);
        assert ("0x" + sha)[2..] == sha && t[2..] == Lower(j.s[2..]);
      } else {
        assert t == "0x" + sha ==> t[0] == '0' && t[1] == 'x';
      }
    }
  }

  lemma AddressIsReadIff(j: Json, a: string)
    ensures ReadAddress(j) == Some(None) <==> j == Null
    ensures ReadAddress(j) == Some(Some(a)) <==>
      j == Str(a) && |a| == 42 && a[..2] == "0x" && forall c | c in a[2..] :: '0' <= c <= '9' || 'a' <= c <= 'f' || 'A' <= c <= 'F'
  {
    if |a| == 42 {
      assert a[..2] == [a[0], a[1]];
      assert forall i | 2 <= i < 42 :: a[i] == a[2..][i - 2];
      assert forall i | 2 <= i < 42 :: a[i] in a[2..];
    }
  }

  /** A hash pasted with a 0x prefix, in any case, is the pin it spells. */
  lemma PastedHash(pasted: string, sha: string)
    requires IsHex64(sha) && Lower(pasted) == sha
    ensures ReadHash(Str(pasted)) == Some(Some(sha))
    ensures ReadHash(Str("0x" + pasted)) == Some(Some(sha))
    ensures ReadHash(Str("0X" + pasted)) == Some(Some(sha))
  {
    assert LowerChar(pasted[1]) == sha[1] && IsHexDigit(sha[1]);
    assert ("0x" + pasted)[2..] == pasted && ("0X" + pasted)[2..] == pasted;
  }

  /******* The body *******/

  predicate KeyShape(w: World, j: Json) {
    && Strict(j, ["device", "pubkey"])
    && j.members[0].value.Str? && PlainStr(w, j.members[0].value.s, 64)
    && j.members[1].value.Str? && IsPublicKey(w, j.members[1].value.s)
  }

  function KeyOf(j: Json): (k: ApprovalKey)
    requires j.Obj? && |j.members| == 2 && j.members[0].value.Str? && j.members[1].value.Str?
  {
    ApprovalKey(j.members[0].value.s, j.members[1].value.s)
  }

  function KeyJson(k: ApprovalKey): (j: Json) {
    Obj([Member("device", Str(k.device)), Member("pubkey", Str(k.pubkey))])
  }

  ghost predicate LabelsUnique(keys: seq<ApprovalKey>) {
    forall i, j | 0 <= i < j < |keys| :: keys[i].device != keys[j].device
  }

  /** The set of device labels. */
  function Labels(keys: seq<ApprovalKey>): (labels: set<string>) {
    if keys == [] then {} else Labels(keys[..|keys| - 1]) + {keys[|keys| - 1].device}
  }

  lemma {:induction false} InLabels(keys: seq<ApprovalKey>, d: string)
    ensures d in Labels(keys) <==> exists i | 0 <= i < |keys| :: keys[i].device == d
  {
    if keys != [] {
      InLabels(keys[..|keys| - 1], d);
    }
  }

  /** The approval keys a body lists. */
  ghost predicate ListsKeys(w: World, items: seq<Json>, keys: seq<ApprovalKey>) {
    && |items| == |keys|
    && (forall i | 0 <= i < |items| :: KeyShape(w, items[i]) && keys[i] == KeyOf(items[i]))
    && LabelsUnique(keys)
  }

  /** A member of `legacy`: a block index and the hash pinned for it. */
  predicate LegacyShape(m: Member) {
    LegacyKey(m.key).Some? && m.value.Str? && IsHex64(m.value.s)
  }

  ghost predicate Lists(m: Member, legacy: map<int, string>) {
    LegacyShape(m) && LegacyKey(m.key).value in legacy && legacy[LegacyKey(m.key).value] == m.value.s
  }

  /** The pinned hashes a body lists, in whatever order. */
  ghost predicate ListsLegacy(ms: seq<Member>, legacy: map<int, string>) {
    && (forall i | 0 <= i < |ms| :: Lists(ms[i], legacy))
    && (forall n | n in legacy :: exists i :: 0 <= i < |ms| && LegacyKey(ms[i].key) == Some(n))
  }

  /** The loop over `approval_keys`. */
  method ReadKeys(w: World, items: seq<Json>) returns (r: Option<seq<ApprovalKey>>)
    ensures r.Some? ==> ListsKeys(w, items, r.value)
    ensures r.None? ==> !exists keys :: ListsKeys(w, items, keys)
  {
    var keys: seq<ApprovalKey> := [];
    for i := 0 to |items|
      invariant |keys| == i
      invariant forall k | 0 <= k < i :: KeyShape(w, items[k]) && keys[k] == KeyOf(items[k])
    {
      if !KeyShape(w, items[i]) {
        return None;
      }
      keys := keys + [KeyOf(items[i])];
    }
    LabelsCount(keys);
    if |Labels(keys)| != |keys| {
      OneListing(w, items, keys);
      return None;
    }
    return Some(keys);
  }

  lemma OneListing(w: World, items: seq<Json>, keys: seq<ApprovalKey>)
    requires |items| == |keys| && forall i | 0 <= i < |items| :: KeyShape(w, items[i]) && keys[i] == KeyOf(items[i])
    ensures forall others | ListsKeys(w, items, others) :: others == keys
  {
  }

  lemma UniqueMore(keys: seq<ApprovalKey>, k: ApprovalKey)
    ensures LabelsUnique(keys + [k]) <==> LabelsUnique(keys) && k.device !in Labels(keys)
  {
    InLabels(keys, k.device);
    var more := keys + [k];
    assert forall i | 0 <= i < |keys| :: more[i] == keys[i];
    assert more[|keys|] == k;
  }

  lemma {:induction false} LabelsCount(keys: seq<ApprovalKey>)
    ensures |Labels(keys)| <= |keys|
    ensures |Labels(keys)| == |keys| <==> LabelsUnique(keys)
  {
    if keys != [] {
      hide LabelsUnique;
      var before, last := keys[..|keys| - 1], keys[|keys| - 1];
      LabelsCount(before);
      UniqueMore(before, last);
      assert keys == before + [last];
    }
  }

  /** The loop over `legacy`. A dict's keys are distinct. */
  method ReadLegacy(ms: seq<Member>) returns (r: Option<map<int, string>>)
    requires forall i, j | 0 <= i < j < |ms| :: ms[i].key != ms[j].key
    ensures r.Some? ==> ListsLegacy(ms, r.value)
    ensures r.None? ==> !exists legacy :: ListsLegacy(ms, legacy)
  {
    var legacy: map<int, string> := map[];
    for i := 0 to |ms|
      invariant ListsLegacy(ms[..i], legacy)
    {
      if !LegacyShape(ms[i]) {
        return None;
      }
      var n := LegacyKey(ms[i].key).value;
      if n in legacy {
        var k :| 0 <= k < i && LegacyKey(ms[..i][k].key) == Some(n);
        LegacyKeyIffWritten(ms[k].key, n);
        LegacyKeyIffWritten(ms[i].key, n);
        assert false;
      }
      ListsOneMore(ms[..i], legacy, ms[i]);
      assert ms[..i + 1] == ms[..i] + [ms[i]];
      legacy := legacy[n := ms[i].value.s];
    }
    assert ms[..|ms|] == ms;
    return Some(legacy);
  }

  lemma ListsOneMore(ms: seq<Member>, legacy: map<int, string>, m: Member)
    requires ListsLegacy(ms, legacy) && LegacyShape(m) && LegacyKey(m.key).value !in legacy
    ensures ListsLegacy(ms + [m], legacy[LegacyKey(m.key).value := m.value.s])
  {
    hide LegacyKey;
    var more := legacy[LegacyKey(m.key).value := m.value.s];
    forall n | n in more ensures exists i :: 0 <= i < |ms + [m]| && LegacyKey((ms + [m])[i].key) == Some(n) {
      if n in legacy {
        var i :| 0 <= i < |ms| && LegacyKey(ms[i].key) == Some(n);
        assert (ms + [m])[i] == ms[i];
      } else {
        assert (ms + [m])[|ms|] == m;
      }
    }
  }

  lemma LegacyListedOnce(ms: seq<Member>, a: map<int, string>, b: map<int, string>)
    requires ListsLegacy(ms, a) && ListsLegacy(ms, b)
    ensures a == b
  {
    hide LegacyKey;
    forall n | n in a ensures n in b && a[n] == b[n] {
      var i :| 0 <= i < |ms| && LegacyKey(ms[i].key) == Some(n);
    }
    forall n | n in b ensures n in a {
      var i :| 0 <= i < |ms| && LegacyKey(ms[i].key) == Some(n);
    }
  }

  /** These names and no others. */
  predicate IsBody(j: Json) {
    Strict(j, TRUST_KEYS)
  }

  /** The pin under a name. */
  ghost predicate SaysHash(ms: seq<Member>, key: string, pin: Option<string>) {
    Get(ms, key).Some? && ReadHash(Get(ms, key).value) == Some(pin)
  }

  ghost predicate SaysAddress(ms: seq<Member>, key: string, pin: Option<string>) {
    Get(ms, key).Some? && ReadAddress(Get(ms, key).value) == Some(pin)
  }

  datatype Pins = Pins(contract: Option<string>, owner: Option<string>, codeKeccak: Option<string>,
                       genesisHash: Option<string>, validator: Option<string>)

  function PinsOf(t: Trust): (pins: Pins) {
    Pins(t.contract, t.owner, t.codeKeccak, t.genesisHash, t.validator)
  }

  ghost predicate SaysPins(ms: seq<Member>, pins: Pins) {
    && SaysAddress(ms, "contract", pins.contract) && SaysAddress(ms, "owner", pins.owner)
    && SaysHash(ms, "code_keccak", pins.codeKeccak) && SaysHash(ms, "genesis_hash", pins.genesisHash)
    && SaysHash(ms, "validator", pins.validator)
  }

  ghost predicate SaysKeys(w: World, ms: seq<Member>, keys: seq<ApprovalKey>) {
    var listed := Get(ms, "approval_keys");
    listed.Some? && listed.value.Arr? && ListsKeys(w, listed.value.items, keys)
  }

  ghost predicate SaysLegacy(ms: seq<Member>, legacy: map<int, string>) {
    var listed := Get(ms, "legacy");
    listed.Some? && listed.value.Obj? && ListsLegacy(listed.value.members, legacy)
  }

  /** A body that says `t`, name by name, and has no other names. */
  ghost predicate Says(w: World, j: Json, t: Trust) {
    && IsBody(j)
    && Get(j.members, "v") == Some(Int(1)) && Get(j.members, "chainId") == Some(Int(t.chainId))
    && SaysPins(j.members, PinsOf(t))
    && SaysKeys(w, j.members, t.approvalKeys) && SaysLegacy(j.members, t.legacy)
  }

  /** Where each name stands in a body's listing. */
  lemma TrustPlaces(ms: seq<Member>)
    requires Keys(ms) == TRUST_KEYS
    ensures |ms| == 9
    ensures Get(ms, "approval_keys") == Some(ms[0].value) && Get(ms, "chainId") == Some(ms[1].value)
    ensures Get(ms, "code_keccak") == Some(ms[2].value) && Get(ms, "contract") == Some(ms[3].value)
    ensures Get(ms, "genesis_hash") == Some(ms[4].value) && Get(ms, "legacy") == Some(ms[5].value)
    ensures Get(ms, "owner") == Some(ms[6].value) && Get(ms, "v") == Some(ms[7].value)
    ensures Get(ms, "validator") == Some(ms[8].value)
  {
    TrustNames();
    PlacesOf(ms, TRUST_KEYS);
  }

  lemma TrustHas(j: Json)
    requires IsBody(j)
    ensures j.Obj?
    ensures Get(j.members, "approval_keys").Some? && Get(j.members, "chainId").Some? && Get(j.members, "code_keccak").Some?
    ensures Get(j.members, "contract").Some? && Get(j.members, "genesis_hash").Some? && Get(j.members, "legacy").Some?
    ensures Get(j.members, "owner").Some? && Get(j.members, "v").Some? && Get(j.members, "validator").Some?
  {
    TrustPlaces(j.members);
  }

  lemma TrustNames()
    ensures var keys := TRUST_KEYS;
      && |keys| == 9 && InKeyOrder(keys)
      && keys[0] == "approval_keys" && keys[1] == "chainId" && keys[2] == "code_keccak" && keys[3] == "contract"
      && keys[4] == "genesis_hash" && keys[5] == "legacy" && keys[6] == "owner" && keys[7] == "v" && keys[8] == "validator"
  {
    assert Before("v", "validator") by { assert "validator"[1..] != "" && "v"[1..] == ""; }
    assert Before("code_keccak", "contract") by {
      assert "code_keccak"[1..][1..] == "de_keccak" && "contract"[1..][1..] == "ntract";
    }
  }

  lemma PlacesOf(ms: seq<Member>, keys: seq<string>)
    requires Keys(ms) == keys && InKeyOrder(keys)
    ensures |ms| == |keys| && forall i | 0 <= i < |ms| :: Get(ms, keys[i]) == Some(ms[i].value)
  {
    OrderedDiffer(keys);
    GetEach(ms, keys);
  }

  /** JSON as `json.loads` gives it: no object has a key twice. */
  predicate KeysDistinct(ms: seq<Member>) {
    forall i, j | 0 <= i < j < |ms| :: ms[i].key != ms[j].key
  }

  predicate LegacyIsDict(j: Json) {
    j.Obj? && Get(j.members, "legacy").Some? && Get(j.members, "legacy").value.Obj? ==>
      KeysDistinct(Get(j.members, "legacy").value.members)
  }

  /** `_from_body`: it reads what the body says, and refuses only a body that says nothing. */
  method FromBody(w: World, j: Json, source: Source) returns (r: Option<Trust>)
    requires LegacyIsDict(j)
    ensures r.Some? ==> Says(w, j, r.value) && r.value.source == source
    ensures r.None? ==> !exists t :: Says(w, j, t)
  {
    hide IsBody, SaysKeys, SaysLegacy, SaysPins, Get, LegacyIsDict;
    if !IsBody(j) {
      return None;
    }
    assert j.Obj? && Get(j.members, "v").Some? && Get(j.members, "chainId").Some? by { TrustHas(j); }
    var version, chainId := Get(j.members, "v").value, Get(j.members, "chainId").value;
    if version != Int(TRUST_VERSION) || !chainId.Int? {
      return None;
    }
    var keys := KeysIn(w, j);
    var legacy := LegacyIn(j);
    var pins := ReadPins(j);
    if keys.None? || legacy.None? || pins.None? {
      return None;
    }
    var Pins(contract, owner, code, genesis, validator) := pins.value;
    return Some(Trust(chainId.n, contract, owner, code, genesis, validator, keys.value, legacy.value, source));
  }

  /** The listed keys. */
  method KeysIn(w: World, j: Json) returns (r: Option<seq<ApprovalKey>>)
    requires IsBody(j)
    ensures r.Some? ==> SaysKeys(w, j.members, r.value)
    ensures r.None? ==> !exists keys :: SaysKeys(w, j.members, keys)
  {
    hide IsBody, ListsKeys, Get;
    TrustHas(j);
    var listed := Get(j.members, "approval_keys").value;
    if !listed.Arr? {
      return None;
    }
    r := ReadKeys(w, listed.items);
  }

  /** The pinned legacy hashes. */
  method LegacyIn(j: Json) returns (r: Option<map<int, string>>)
    requires IsBody(j) && LegacyIsDict(j)
    ensures r.Some? ==> SaysLegacy(j.members, r.value)
    ensures r.None? ==> !exists legacy :: SaysLegacy(j.members, legacy)
  {
    hide IsBody, ListsLegacy, Get;
    TrustHas(j);
    var listed := Get(j.members, "legacy").value;
    if !listed.Obj? {
      return None;
    }
    r := ReadLegacy(listed.members);
  }

  /** The pins, each under its name. */
  method ReadPins(j: Json) returns (r: Option<Pins>)
    requires IsBody(j)
    ensures r.Some? ==> SaysPins(j.members, r.value)
    ensures r.None? ==> !exists pins :: SaysPins(j.members, pins)
  {
    hide IsBody, ReadHash, ReadAddress, Get;
    TrustHas(j);
    var ms := j.members;
    var contract, owner := ReadAddress(Get(ms, "contract").value), ReadAddress(Get(ms, "owner").value);
    var code, genesis := ReadHash(Get(ms, "code_keccak").value), ReadHash(Get(ms, "genesis_hash").value);
    var validator := ReadHash(Get(ms, "validator").value);
    if contract.None? || owner.None? || code.None? || genesis.None? || validator.None? {
      return None;
    }
    return Some(Pins(contract.value, owner.value, code.value, genesis.value, validator.value));
  }

  /** A body says one thing at most, whatever its source. */
  lemma SaysOneThing(w: World, j: Json, a: Trust, b: Trust)
    requires Says(w, j, a) && Says(w, j, b)
    ensures a == b.(source := a.source)
  {
    hide KeyShape, KeyOf, ReadHash, ReadAddress, Get;
    LegacyListedOnce(Get(j.members, "legacy").value.members, a.legacy, b.legacy);
    assert a.approvalKeys == b.approvalKeys;
  }

  /******* Writing it back *******/

  ghost predicate IsPin(m: Member, n: int, legacy: map<int, string>) {
    n >= 0 && n in legacy && m == Member(Decimal(n), Str(legacy[n]))
  }

  /** The members of `legacy` as `body` writes them: each index once, in some order. */
  ghost predicate WritesLegacy(ms: seq<Member>, legacy: map<int, string>) {
    && (forall i | 0 <= i < |ms| :: exists n :: IsPin(ms[i], n, legacy))
    && (forall n | n in legacy :: exists i :: 0 <= i < |ms| && IsPin(ms[i], n, legacy))
  }

  function KeysJson(keys: seq<ApprovalKey>): (j: Json)
    ensures j.Arr?
  {
    Arr(seq(|keys|, i requires 0 <= i < |keys| => KeyJson(keys[i])))
  }

  /** `body`. */
  function BodyJson(t: Trust, legacy: seq<Member>): (j: Json)
    ensures j.Obj?
  {
    Obj([Member("approval_keys", KeysJson(t.approvalKeys)),
         Member("chainId", Int(t.chainId)),
         Member("code_keccak", OrNull(t.codeKeccak)),
         Member("contract", OrNull(t.contract)),
         Member("genesis_hash", OrNull(t.genesisHash)),
         Member("legacy", Obj(legacy)),
         Member("owner", OrNull(t.owner)),
         Member("v", Int(TRUST_VERSION)),
         Member("validator", OrNull(t.validator))])
  }

  /** A trust that can be written and read back. */
  ghost predicate Storable(w: World, t: Trust) {
    && (t.contract.Some? ==> IsAddress(t.contract.value)) && (t.owner.Some? ==> IsAddress(t.owner.value))
    && (t.codeKeccak.Some? ==> IsHex64(t.codeKeccak.value)) && (t.genesisHash.Some? ==> IsHex64(t.genesisHash.value))
    && (t.validator.Some? ==> IsHex64(t.validator.value))
    && (forall i | 0 <= i < |t.approvalKeys| ::
          PlainStr(w, t.approvalKeys[i].device, 64) && IsPublicKey(w, t.approvalKeys[i].pubkey))
    && LabelsUnique(t.approvalKeys)
    && (forall n | n in t.legacy :: n >= 0 && IsHex64(t.legacy[n]))
  }

  lemma PinReadsBack(m: Member, n: int, legacy: map<int, string>)
    requires IsPin(m, n, legacy) && IsHex64(legacy[n])
    ensures LegacyKey(m.key) == Some(n) && Lists(m, legacy)
  {
    LegacyKeyIffWritten(m.key, n);
  }

  lemma LegacyReadsBack(ms: seq<Member>, legacy: map<int, string>)
    requires WritesLegacy(ms, legacy) && forall n | n in legacy :: IsHex64(legacy[n])
    ensures ListsLegacy(ms, legacy)
  {
    hide IsPin, LegacyKey, Lists;
    forall i | 0 <= i < |ms| ensures Lists(ms[i], legacy) {
      var n :| IsPin(ms[i], n, legacy);
      assert n in legacy by { PinIsIn(ms[i], n, legacy); }
      PinReadsBack(ms[i], n, legacy);
    }
    forall n | n in legacy ensures exists i :: 0 <= i < |ms| && LegacyKey(ms[i].key) == Some(n) {
      var i :| 0 <= i < |ms| && IsPin(ms[i], n, legacy);
      PinReadsBack(ms[i], n, legacy);
    }
  }

  lemma PinIsIn(m: Member, n: int, legacy: map<int, string>)
    requires IsPin(m, n, legacy)
    ensures n in legacy
  {
  }

  lemma KeysReadBack(w: World, t: Trust)
    requires Storable(w, t)
    ensures ListsKeys(w, KeysJson(t.approvalKeys).items, t.approvalKeys)
  {
  }

  lemma BodyGets(t: Trust, legacy: seq<Member>)
    ensures var ms := BodyJson(t, legacy).members;
      && IsBody(BodyJson(t, legacy))
      && Get(ms, "v") == Some(Int(1)) && Get(ms, "chainId") == Some(Int(t.chainId))
      && Get(ms, "contract") == Some(OrNull(t.contract)) && Get(ms, "owner") == Some(OrNull(t.owner))
      && Get(ms, "code_keccak") == Some(OrNull(t.codeKeccak)) && Get(ms, "genesis_hash") == Some(OrNull(t.genesisHash))
      && Get(ms, "validator") == Some(OrNull(t.validator)) && Get(ms, "legacy") == Some(Obj(legacy))
      && Get(ms, "approval_keys") == Some(KeysJson(t.approvalKeys))
  {
    hide Get, OrNull, KeysJson;
    var j := BodyJson(t, legacy);
    assert Keys(j.members) == TRUST_KEYS;
    TrustPlaces(j.members);
  }

  /** What is written says what was meant, and whatever can be read can be written. */
  lemma BodySaysTrust(w: World, t: Trust, legacy: seq<Member>)
    requires Storable(w, t) && WritesLegacy(legacy, t.legacy)
    ensures Says(w, BodyJson(t, legacy), t)
  {
    hide IsBody, BodyJson, ListsKeys, ReadHash, ListsLegacy, Get, KeysJson;
    BodyGets(t, legacy);
    KeysReadBack(w, t);
    LegacyReadsBack(legacy, t.legacy);
    HashRoundTrip(t.codeKeccak);
    HashRoundTrip(t.genesisHash);
    HashRoundTrip(t.validator);
  }

  lemma SaidIsStorable(w: World, j: Json, t: Trust)
    requires Says(w, j, t)
    ensures Storable(w, t)
  {
    hide Get;
  }

  /** Read, written and read again: the same trust. */
  lemma RoundTrip(w: World, j: Json, t: Trust, legacy: seq<Member>)
    requires Says(w, j, t) && WritesLegacy(legacy, t.legacy)
    ensures Says(w, BodyJson(t, legacy), t)
  {
    SaidIsStorable(w, j, t);
    BodySaysTrust(w, t, legacy);
  }

  /******* The file *******/

  /** The file's members: `trust`, which must be there, `sig` and `note`, which may be. */
  const FILE_KEYS := ["trust", "sig", "note"]

  function TrustMessage(body: Json): (b: Bytes) {
    Tagged(TrustDomain, body)
  }

  /** The bytes a device signs for a trust file, with their prefix. */
  lemma TrustMessageSpelled(body: Json)
    ensures TrustMessage(body) == Utf8("aikiri-ledger/trust/v1\n" + Print(body, true))
  {
  }

  /** One of the devices the body declares signed exactly this body. */
  ghost predicate SignedByDevice(w: World, keys: seq<ApprovalKey>, body: Json, sig: Json) {
    && Strict(sig, ["device", "pubkey", "sig"])
    && sig.members[0].value.Str? && sig.members[1].value.Str? && sig.members[2].value.Str?
    && Registered(keys, sig.members[0].value.s, sig.members[1].value.s)
    && Signs(w, sig.members[1].value.s, TrustMessage(body), sig.members[2].value.s)
  }

  /** `_inside_this_repo`, from the worktree the file is in and, if a ledger is named,
      the one the ledger is in. */
  predicate InsideRepo(file: Option<string>, ledger: Option<Option<string>>) {
    file.Some? && (ledger.None? || ledger.value == file)
  }

  /** A file, at its place, gives `t`: it has no other members, its body says `t`, a
      signature that is there stands, and the source is the repository's whenever the
      file is in it, else signed exactly when there is one. */
  ghost predicate Gives(w: World, raw: Json, file: Option<string>, ledger: Option<Option<string>>, t: Trust) {
    && raw.Obj?
    && (forall i | 0 <= i < |raw.members| :: raw.members[i].key in FILE_KEYS)
    && var body, sig := Get(raw.members, "trust"), Get(raw.members, "sig");
       && body.Some? && Says(w, body.value, t)
       && (sig.Some? ==> SignedByDevice(w, t.approvalKeys, body.value, sig.value))
       && t.source == if file.Some? && (ledger.None? || ledger.value == file) then Repo else if sig.Some? then ExternalSigned else ExternalUnsigned
  }

  /** `set(raw) - {"trust", "sig", "note"}` is not empty. */
  predicate HasExtra(ms: seq<Member>)
    ensures HasExtra(ms) <==> exists i :: 0 <= i < |ms| && ms[i].key !in FILE_KEYS
  {
    ms != [] && (ms[0].key !in FILE_KEYS || HasExtra(ms[1..]))
  }

  /** `load`: it gives what the file gives, and refuses only a file that gives nothing. */
  method Load(w: World, raw: Json, file: Option<string>, ledger: Option<Option<string>>) returns (r: Option<Trust>)
    requires raw.Obj? && Get(raw.members, "trust").Some? ==> LegacyIsDict(Get(raw.members, "trust").value)
    ensures r.Some? ==> Gives(w, raw, file, ledger, r.value)
    ensures r.None? ==> !exists t :: Gives(w, raw, file, ledger, t)
  {
    hide Says, Signs, SignedByDevice, LegacyIsDict;
    if !raw.Obj? || Get(raw.members, "trust").None? || HasExtra(raw.members) {
      return None;
    }
    var body, sig := Get(raw.members, "trust").value, Get(raw.members, "sig");
    r := FromBody(w, body, ExternalUnsigned);
    if r.None? {
      return;
    }
    var trust := r.value;
    if sig.Some? {
      SameKeys(w, body, trust);
      var stands := SignatureStands(w, trust.approvalKeys, body, sig.value);
      if !stands {
        return None;
      }
      SaysAnySource(w, body, trust, ExternalSigned);
      trust := trust.(source := ExternalSigned);
    }
    if InsideRepo(file, ledger) {
      SaysAnySource(w, body, trust, Repo);
      trust := trust.(source := Repo);
    }
    return Some(trust);
  }

  /** The checks on `sig`. */
  method SignatureStands(w: World, keys: seq<ApprovalKey>, body: Json, sig: Json) returns (ok: bool)
    ensures ok <==> SignedByDevice(w, keys, body, sig)
  {
    hide Signs;
    if !Strict(sig, ["device", "pubkey", "sig"]) {
      return false;
    }
    var device, pubkey, bytes := sig.members[0].value, sig.members[1].value, sig.members[2].value;
    if !device.Str? || !pubkey.Str? || !bytes.Str? {
      return false;
    }
    KnownIffRegistered(keys, device.s, pubkey.s);
    if device.s !in Known(keys) || Known(keys)[device.s] != pubkey.s {
      return false;
    }
    return Signs(w, pubkey.s, TrustMessage(body), bytes.s);
  }

  /** `write`: the body, and the signature of whoever signed it. */
  function FileJson(body: Json, sig: Option<Json>): (j: Json) {
    Obj((if sig.Some? then [Member("sig", sig.value)] else []) + [Member("trust", body)])
  }

  /** A trust that is written, signed by one of its devices or by nobody, gives itself
      back: from outside the repository, with a source that says which. */
  lemma WrittenGives(w: World, t: Trust, legacy: seq<Member>, sig: Option<Json>, file: Option<string>, ledger: Option<Option<string>>)
    requires Storable(w, t) && WritesLegacy(legacy, t.legacy)
    requires sig.Some? ==> SignedByDevice(w, t.approvalKeys, BodyJson(t, legacy), sig.value)
    ensures var source := if file.Some? && (ledger.None? || ledger == Some(file)) then Repo
                          else if sig.Some? then ExternalSigned else ExternalUnsigned;
      Gives(w, FileJson(BodyJson(t, legacy), sig), file, ledger, t.(source := source))
  {
    hide Says, SignedByDevice, BodyJson, Storable, WritesLegacy;
    var body := BodyJson(t, legacy);
    BodySaysTrust(w, t, legacy);
    var ms := FileJson(body, sig).members;
    if sig.Some? {
      assert ms == [Member("sig", sig.value), Member("trust", body)];
      GetAt(ms, 0);
      GetAt(ms, 1);
    } else {
      assert ms == [Member("trust", body)];
    }
    var source := if file.Some? && (ledger.None? || ledger == Some(file)) then Repo
                  else if sig.Some? then ExternalSigned else ExternalUnsigned;
    SaysAnySource(w, body, t, source);
  }

  /** A file gives one trust at most, and its note changes nothing. */
  lemma GivesOneThing(w: World, raw: Json, other: Json, file: Option<string>, ledger: Option<Option<string>>, a: Trust, b: Trust)
    requires raw.Obj? && other.Obj?
    requires Get(raw.members, "trust") == Get(other.members, "trust") && Get(raw.members, "sig") == Get(other.members, "sig")
    requires Gives(w, raw, file, ledger, a) && Gives(w, other, file, ledger, b)
    ensures a == b
  {
    hide Says;
    SaysOneThing(w, Get(raw.members, "trust").value, a, b);
  }

  lemma SaysAnySource(w: World, j: Json, t: Trust, source: Source)
    requires Says(w, j, t)
    ensures Says(w, j, t.(source := source))
  {
  }

  lemma SameKeys(w: World, j: Json, t: Trust)
    requires Says(w, j, t)
    ensures forall other | Says(w, j, other) :: other.approvalKeys == t.approvalKeys
  {
    hide Says;
    forall other | Says(w, j, other) ensures other.approvalKeys == t.approvalKeys {
      SaysOneThing(w, j, other, t);
    }
  }
}
