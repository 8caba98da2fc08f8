/**
 A small world in which everything the theorems ask for holds at once: a key that
 signs, a registered device, a clock that moves, a ledger that starts and a request
 that is taken.
 */
module Example {
  import opened Wrappers
  import opened Bytes
  import opened Canonical
  import opened Crypto
  import opened Messages
  import opened Approvals
  import opened Blocks
  import opened Disks
  import opened VerifyChain
  import opened VerifyAll
  import opened Writer
  import opened System
  import Requests
  import Contract

  function ReadDecimal(s: string): (n: Option<int>) {
    if s != "" && AllDigits(s) then Some(Value(s)) else None
  }

  /** Every hash is one digest, every signature verifies, every point is on the curve,
      and a text is the time of its length. */
  function SmallWorld(d: Digest): (w: World) {
    World(_ => d, (_, _, _) => true, (_, _, _) => true, _ => true, _ => true, s => Some(|s|), ReadDecimal)
  }

  function DevicePubkey(): (pubkey: string)
    ensures IsHexStr(pubkey) && |pubkey| == 130 && FromHex(pubkey)[0] == 0x04
  {
    "04" + Contract.Zeros(128)
  }

  const DEVICE := "mac"

  function DeviceKeys(): (keys: seq<ApprovalKey>) {
    [ApprovalKey(DEVICE, DevicePubkey())]
  }

  /** The device's approval, of anything. */
  function DeviceApproval(): (a: Approval) {
    Approval(Str(DEVICE), Str(DevicePubkey()), Str("00"))
  }

  /** A clock `n` microseconds on. */
  function Tick(n: nat): (now: Moment)
    ensures |now.text| == n && now.at == n
  {
    Moment(Contract.Zeros(n), n)
  }

  /** A key of the right form that signs with something. */
  ghost predicate CanSign(sk: Signer) {
    IsHex64(sk.pub) && forall m :: sk.sign(m) != []
  }

  lemma SmallIsDependable(d: Digest, sk: Signer)
    requires CanSign(sk)
    ensures Dependable(SmallWorld(d), sk)
  {
    var w := SmallWorld(d);
    forall n: nat ensures w.parseInt(Decimal(n)) == Some(n) {
      DecimalValue(n);
    }
  }

  /** The trust file that pins such a ledger. */
  function TrustFor(d: Digest): (trust: Trust)
  {
    Trust(8453, None, None, None, None, None, DeviceKeys(), map[0 := Hex(d)], ExternalUnsigned)
  }

  /** The directory `init` leaves. */
  function Started(d: Digest, sk: Signer): (disk: Disk) {
    Appended(Disk(map[], NoHead), Genesis(SmallWorld(d), sk, Tick(0)))
  }

  lemma HashIsDigest(d: Digest, sk: Signer)
    ensures Genesis(SmallWorld(d), sk, Tick(0)).hash == Hex(d)
    ensures Genesis(SmallWorld(d), sk, Tick(0)).timestamp == ""
    ensures Genesis(SmallWorld(d), sk, Tick(0)).V1?
    ensures Genesis(SmallWorld(d), sk, Tick(0)).legacyRoots == []
  {
    hide Preimage;
  }

  lemma StartedIsValid(d: Digest, sk: Signer)
    requires CanSign(sk)
    ensures var w, disk := SmallWorld(d), Started(d, sk);
      && LocallyValid(w, TrustFor(d), disk) && NoStray(disk.files)
      && BlocksOf(w, disk) == [Genesis(w, sk, Tick(0))]
  {
    HashIsDigest(d, sk);
    hide Genesis, LocallyValid, Appended;
    SmallIsDependable(d, sk);
    GenesisIsValid(SmallWorld(d), TrustFor(d), sk, Tick(0));
  }

  /******* A request that is taken *******/

  /** The next request for a ledger, approved by the device. */
  function NextRequest(sk: Signer, index: int, prevHash: string, root: Root, nonce: string): (r: Requests.Request) {
    Requests.Request(index, prevHash, [root], nonce, sk.pub, DeviceApproval())
  }

  lemma DeviceApproves(d: Digest, s: Statement)
    ensures VerifyApproval(SmallWorld(d), DeviceApproval(), s, Some(DeviceKeys())).None?
  {
    hide ApprovalMessage;
    var keys := DeviceKeys();
    assert keys[..0] == [];
    assert Known(keys) == map[DEVICE := DevicePubkey()];
    assert AllHex("00");
  }

  /** Any fresh root and nonce, later than the last block. */
  lemma NextIsTaken(d: Digest, sk: Signer, trust: Trust, disk: Disk, root: Root, nonce: string, n: nat)
    requires LocallyValid(SmallWorld(d), trust, disk) && trust.approvalKeys == DeviceKeys()
    requires IsHex64(sk.pub) && RootOk(SmallWorld(d), root) && IsHex64(nonce)
    requires NoStray(disk.files)
    requires var bs := BlocksOf(SmallWorld(d), disk);
      bs != [] && nonce !in Nonces(bs) && n > |bs[|bs| - 1].timestamp|
    ensures var w, bs := SmallWorld(d), BlocksOf(SmallWorld(d), disk);
      var r := NextRequest(sk, |bs|, bs[|bs| - 1].hash, root, nonce);
      Requests.WellFormed(w, r) && Accepts(w, disk, r, sk, Tick(n), Some(trust.approvalKeys))
  {
    hide VerifyApproval, RootOk, DeviceKeys, LocallyValid, NoStray, DeviceApproval, HeadOf, ReadBlocks, BlocksOf, Nonces;
    var w, bs := SmallWorld(d), BlocksOf(SmallWorld(d), disk);
    var last := bs[|bs| - 1];
    var r := NextRequest(sk, |bs|, last.hash, root, nonce);
    LastIsRead(w, trust, disk);
    DeviceApproves(d, Requests.StatementOf(r));
  }

  lemma LastIsRead(w: World, trust: Trust, disk: Disk)
    requires LocallyValid(w, trust, disk) && NoStray(disk.files)
    ensures var bs := BlocksOf(w, disk);
      && bs != [] && ReadBlocks(w, disk.files) == Some(bs)
      && HeadOf(w, disk) == Some(bs[|bs| - 1])
      && bs[|bs| - 1].index == |bs| - 1 && |bs| !in disk.files && IsHex64(bs[|bs| - 1].hash)
  {
    hide EachSound;
    HeadIsLast(w, trust, disk);
    var bs := BlocksOf(w, disk);
    HashIsHex(w, bs[|bs| - 1]);
  }

  /******* All the hypotheses at once *******/

  lemma NotZero(d: Digest)
    requires d[0] != 0
    ensures Hex(d) != Contract.ZERO32
  {
    assert Hex(d)[0] == HexDigit(d[0] / 16) && Hex(d)[1] == HexDigit(d[0] % 16);
    assert Contract.ZERO32[0] == '0' && Contract.ZERO32[1] == '0';
    if Hex(d)[0] == '0' && Hex(d)[1] == '0' {
      HexDigitInjective(d[0] / 16, 0);
      HexDigitInjective(d[0] % 16, 0);
      assert false;
    }
  }

  /** The starting ledger and its contract. */
  function StartedSystem(d: Digest, sk: Signer): (s: Sys) {
    Sys(Started(d, sk), Contract.Deployed("", 0, Hex(d)))
  }

  lemma FirstIsTaken(d: Digest, sk: Signer, root: Root, nonce: string)
    requires CanSign(sk) && RootOk(SmallWorld(d), root) && IsHex64(nonce)
    ensures var w, r := SmallWorld(d), NextRequest(sk, 1, Hex(d), root, nonce);
      Requests.WellFormed(w, r) && Accepts(w, Started(d, sk), r, sk, Tick(1), Some(TrustFor(d).approvalKeys))
  {
    hide Genesis, Started, LocallyValid, NoStray, RootOk, Requests.WellFormed, Accepts, DeviceKeys;
    StartedIsValid(d, sk);
    HashIsDigest(d, sk);
    NextIsTaken(d, sk, TrustFor(d), Started(d, sk), root, nonce, 1);
  }

  /** Everything the theorems about honest runs ask for: a dependable key that the trust
      pins, a synced system under external trust with matching pins, and a request that
      its writer takes. */
  ghost predicate MeetsAll(w: World, trust: Trust, sk: Signer, s: Sys, r: Requests.Request, now: Moment) {
    && Dependable(w, sk) && Pins(trust, sk) && Synced(w, trust, s)
    && IsExternal(trust) && PinsMatch(trust, s.base, "", "")
    && w.when(now.text) == Some(now.at) && Requests.WellFormed(w, r)
    && Accepts(w, s.disk, r, sk, now, Some(trust.approvalKeys))
  }

  /** All of it holds at once, for any root and any nonce. */
  lemma HonestStartExists(d: Digest, sk: Signer, root: Root, nonce: string)
    requires d[0] != 0 && CanSign(sk) && RootOk(SmallWorld(d), root) && IsHex64(nonce)
    ensures MeetsAll(SmallWorld(d), TrustFor(d), sk, StartedSystem(d, sk), NextRequest(sk, 1, Hex(d), root, nonce), Tick(1))
  {
    hide Genesis, LocallyValid, NoStray, Dependable, RootOk, Requests.WellFormed, Accepts, Synced, DeviceKeys, Appended;
    var w, trust := SmallWorld(d), TrustFor(d);
    SmallIsDependable(d, sk);
    HashIsDigest(d, sk);
    NotZero(d);
    assert Seconds(w, Genesis(w, sk, Tick(0))) == 0;
    GenesisIsSynced(w, trust, sk, Tick(0), "", 0);
    FirstIsTaken(d, sk, root, nonce);
  }
}
