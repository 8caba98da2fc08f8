/**
 Where "one fingerprint, one block" fails: a request file named with `--request` is
 not looked for among the blocks (aikiri_ledger/cli.py, `block`), so it can carry a
 fingerprint that a block already has.
 */
module SealTwice {
  import opened Wrappers
  import opened Bytes
  import opened Canonical
  import opened Crypto
  import opened Messages
  import opened Blocks
  import opened Disks
  import opened VerifyChain
  import opened VerifyAll
  import opened Writer
  import opened System
  import opened Example
  import Requests
  import Contract
  import S = SealRuns

  function FirstNonce(): (n: string)
    ensures IsHex64(n)
  {
    Contract.Zeros(64)
  }

  function SecondNonce(): (n: string)
    ensures IsHex64(n) && n != FirstNonce()
  {
    assert ("1" + Contract.Zeros(63))[0] == '1' && FirstNonce()[0] == '0';
    "1" + Contract.Zeros(63)
  }

  /** The request `seal` writes for a line, on the starting ledger. */
  function FirstPayload(d: Digest, sk: Signer, root: Root): (p: S.Payload) {
    S.Payload(1, Hex(d), root, FirstNonce(), sk.pub)
  }

  /** A second one for the same root, approved too, kept elsewhere. */
  function SecondFile(d: Digest, sk: Signer, root: Root): (f: S.RequestFile) {
    S.Waiting(S.Payload(2, Hex(d), root, SecondNonce(), sk.pub), Some(DeviceApproval()))
  }

  /** `seal`, an approval, `block`; then `block --request` with the second file. */
  function Events(d: Digest, sk: Signer, line: S.Line): (events: seq<S.Event>)
    requires S.LineOk(line)
  {
    [S.Sealing(line, FirstNonce()),
     S.Approving(0, DeviceApproval()),
     S.Blocking(None, Tick(1)),
     S.Blocking(Some(SecondFile(d, sk, S.RootFor(line))), Tick(2))]
  }

  function StartShop(d: Digest, sk: Signer): (s: S.Shop) {
    S.Shop(Started(d, sk), [], {})
  }

  /** The shop with its one request approved. */
  function ApprovedShop(d: Digest, sk: Signer, root: Root): (s: S.Shop) {
    S.Shop(Started(d, sk), [S.Waiting(FirstPayload(d, sk, root), Some(DeviceApproval()))], {root.sha256})
  }

  lemma RootlessCarriesNothing(w: World, files: map<nat, BlockFile>, g: Block, sha: string)
    requires ReadBlocks(w, files) == Some([g]) && S.RootsOf(g) == []
    ensures S.NoneBefore(w, files, sha, Count(files))
  {
    hide ReadFile, S.RootsOf;
    assert ReadFile(w, files[0]) == Some(g);
  }

  lemma NothingCarried(d: Digest, sk: Signer, sha: string)
    requires CanSign(sk)
    ensures var files := Started(d, sk).files; S.NoneBefore(SmallWorld(d), files, sha, Count(files))
  {
    hide Genesis, Started, LocallyValid, NoStray, HeadOf, S.NoneBefore, ReadBlocks, BlocksOf;
    StartedIsValid(d, sk);
    HashIsDigest(d, sk);
    LastIsRead(SmallWorld(d), TrustFor(d), Started(d, sk));
    RootlessCarriesNothing(SmallWorld(d), Started(d, sk).files, Genesis(SmallWorld(d), sk, Tick(0)), sha);
  }

  lemma StartHead(d: Digest, sk: Signer)
    requires CanSign(sk)
    ensures var head := HeadOf(SmallWorld(d), Started(d, sk));
      head.Some? && head.value.index == 0 && head.value.hash == Hex(d) && head.value.validator == sk.pub
  {
    hide Genesis, Started, LocallyValid, NoStray, HeadOf, Dependable, BlocksOf, WellFormed, VerifySelf;
    StartedIsValid(d, sk);
    HashIsDigest(d, sk);
    SmallIsDependable(d, sk);
    GenesisIsSound(SmallWorld(d), sk, Tick(0));
    LastIsRead(SmallWorld(d), TrustFor(d), Started(d, sk));
  }

  lemma LineIsAsked(d: Digest, sk: Signer, line: S.Line)
    requires CanSign(sk) && S.LineOk(line) && RootOk(SmallWorld(d), S.RootFor(line))
    ensures var root := S.RootFor(line);
      S.Step(SmallWorld(d), TrustFor(d), sk, StartShop(d, sk), S.Sealing(line, FirstNonce()))
      == S.Shop(Started(d, sk), [S.Waiting(FirstPayload(d, sk, root), None)], {root.sha256})
  {
    hide Started, RootOk, S.LineOk, S.RootFor, HeadOf, FirstNonce, S.NoneBefore, DeviceKeys, SmallWorld;
    NothingCarried(d, sk, S.RootFor(line).sha256);
    StartHead(d, sk);
    assert S.MayAsk(SmallWorld(d), StartShop(d, sk), line);
  }

  /** The request that waits, as the writer reads it, and its block. */
  function FirstRequest(d: Digest, sk: Signer, root: Root): (r: Requests.Request) {
    NextRequest(sk, 1, Hex(d), root, FirstNonce())
  }

  function FirstBlock(d: Digest, sk: Signer, root: Root): (b: Block)
    ensures b.index == 1
  {
    BlockFor(SmallWorld(d), sk, FirstRequest(d, sk, root), Tick(1))
  }

  function FirstDisk(d: Digest, sk: Signer, root: Root): (disk: Disk) {
    Appended(Started(d, sk), FirstBlock(d, sk, root))
  }

  lemma FirstIsWritten(d: Digest, sk: Signer, root: Root)
    requires CanSign(sk) && RootOk(SmallWorld(d), root)
    ensures S.MayBlock(SmallWorld(d), TrustFor(d), sk, ApprovedShop(d, sk, root), None, Tick(1))
  {
    hide Started, RootOk, FirstNonce, DeviceApproval, DeviceKeys, Requests.WellFormed, Accepts;
    FirstIsTaken(d, sk, root, FirstNonce());
    KeysAreThere(d);
  }

  lemma KeysAreThere(d: Digest)
    ensures TrustFor(d).approvalKeys != []
  {
  }

  lemma FirstBlockIs(d: Digest, sk: Signer, root: Root)
    ensures var b := FirstBlock(d, sk, root);
      && b.hash == Hex(d) && b.V2? && b.timestamp == Tick(1).text && b.nonce == FirstNonce()
      && S.RootsOf(b) == [(Str(root.kind), root.sha256)]
  {
    hide Preimage;
    assert FirstBlock(d, sk, root).roots == [root];
  }

  /** The ledger after the first block. */
  lemma AfterFirst(d: Digest, sk: Signer, root: Root)
    requires CanSign(sk) && RootOk(SmallWorld(d), root)
    ensures var w, disk := SmallWorld(d), FirstDisk(d, sk, root);
      && LocallyValid(w, TrustFor(d), disk) && NoStray(disk.files)
      && BlocksOf(w, disk) == [Genesis(w, sk, Tick(0)), FirstBlock(d, sk, root)]
  {
    hide Genesis, Started, LocallyValid, NoStray, RootOk, FirstNonce, DeviceApproval, DeviceKeys, Requests.WellFormed,
         Accepts, BlockFor, Dependable, Appended, ReadBlocks;
    StartedIsValid(d, sk);
    SmallIsDependable(d, sk);
    FirstIsTaken(d, sk, root, FirstNonce());
    LastIsRead(SmallWorld(d), TrustFor(d), Started(d, sk));
    AppendKeeps(SmallWorld(d), TrustFor(d), sk, Started(d, sk), FirstRequest(d, sk, root), Tick(1));
  }

  lemma OneNonceSoFar(g: Block, b: Block)
    requires g.V1? && b.V2? && b.nonce == FirstNonce()
    ensures SecondNonce() !in Nonces([g, b])
  {
    hide FirstNonce, SecondNonce;
  }

  lemma SecondIsTaken(d: Digest, sk: Signer, root: Root)
    requires CanSign(sk) && RootOk(SmallWorld(d), root)
    ensures var r := NextRequest(sk, 2, Hex(d), root, SecondNonce());
      && Requests.WellFormed(SmallWorld(d), r)
      && Accepts(SmallWorld(d), FirstDisk(d, sk, root), r, sk, Tick(2), Some(TrustFor(d).approvalKeys))
      && !S.Absent(BlocksOf(SmallWorld(d), FirstDisk(d, sk, root)), root.sha256)
  {
    hide Genesis, FirstDisk, FirstBlock, LocallyValid, NoStray, RootOk, FirstNonce, SecondNonce, DeviceApproval, DeviceKeys,
         Requests.WellFormed, Accepts, BlocksOf, S.RootsOf, Nonces;
    var w, b, disk := SmallWorld(d), FirstBlock(d, sk, root), FirstDisk(d, sk, root);
    AfterFirst(d, sk, root);
    HashIsDigest(d, sk);
    FirstBlockIs(d, sk, root);
    OneNonceSoFar(Genesis(w, sk, Tick(0)), b);
    NextIsTaken(d, sk, TrustFor(d), disk, root, SecondNonce(), 2);
    assert S.RootsOf(b)[0].1 == root.sha256;
    assert b in BlocksOf(w, disk) && S.Carries(b, root.sha256);
  }

  lemma FairAtLast(w: World, trust: Trust, sk: Signer, s: S.Shop, e0: S.Event, e1: S.Event, e2: S.Event, e3: S.Event)
    requires S.FairRun(w, trust, sk, s, [e0, e1, e2, e3])
    ensures S.Fair(w, trust, sk, S.Step(w, trust, sk, S.Step(w, trust, sk, S.Step(w, trust, sk, s, e0), e1), e2), e3)
  {
    hide S.Fair, S.Step;
    var s1 := S.Step(w, trust, sk, s, e0);
    var s2 := S.Step(w, trust, sk, s1, e1);
    var s3 := S.Step(w, trust, sk, s2, e2);
    assert [e0, e1, e2, e3][1..] == [e1, e2, e3];
    assert [e1, e2, e3][1..] == [e2, e3];
    assert [e2, e3][1..] == [e3];
    assert S.FairRun(w, trust, sk, s1, [e1, e2, e3]);
    assert S.FairRun(w, trust, sk, s2, [e2, e3]);
    assert S.FairRun(w, trust, sk, s3, [e3]);
  }

  /** The shop after `seal`, the approval and `block`. */
  function BlockedShop(d: Digest, sk: Signer, root: Root): (s: S.Shop) {
    ApprovedShop(d, sk, root).(disk := FirstDisk(d, sk, root))
  }

  lemma ThreeSteps(d: Digest, sk: Signer, line: S.Line)
    requires CanSign(sk) && S.LineOk(line) && RootOk(SmallWorld(d), S.RootFor(line))
    ensures var w, trust, root := SmallWorld(d), TrustFor(d), S.RootFor(line);
      S.Step(w, trust, sk,
             S.Step(w, trust, sk, S.Step(w, trust, sk, StartShop(d, sk), S.Sealing(line, FirstNonce())),
                    S.Approving(0, DeviceApproval())),
             S.Blocking(None, Tick(1)))
      == BlockedShop(d, sk, root)
  {
    hide Started, RootOk, S.LineOk, S.RootFor, FirstNonce, DeviceKeys, DeviceApproval, S.MayBlock, S.AfterSeal,
         BlockFor, Appended;
    var w, trust, root := SmallWorld(d), TrustFor(d), S.RootFor(line);
    LineIsAsked(d, sk, line);
    var s1 := S.Step(w, trust, sk, StartShop(d, sk), S.Sealing(line, FirstNonce()));
    var s2 := S.Step(w, trust, sk, s1, S.Approving(0, DeviceApproval()));
    assert s2 == ApprovedShop(d, sk, root) by {
      assert s1.requests[0 := s1.requests[0].(approval := Some(DeviceApproval()))] == ApprovedShop(d, sk, root).requests;
    }
    FirstIsWritten(d, sk, root);
    assert S.Writes(w, trust, sk, s2, S.Blocking(None, Tick(1)));
    assert S.RequestOf(FirstPayload(d, sk, root), DeviceApproval()) == FirstRequest(d, sk, root);
  }

  lemma SecondIsUnfair(d: Digest, sk: Signer, root: Root)
    requires CanSign(sk) && RootOk(SmallWorld(d), root)
    ensures !S.Fair(SmallWorld(d), TrustFor(d), sk, BlockedShop(d, sk, root), S.Blocking(Some(SecondFile(d, sk, root)), Tick(2)))
  {
    hide Started, FirstDisk, RootOk, FirstNonce, SecondNonce, DeviceKeys, DeviceApproval, Requests.WellFormed, Accepts,
         S.Absent, BlocksOf;
    SecondIsTaken(d, sk, root);
    KeysAreThere(d);
  }

  lemma StartIsKept(d: Digest, sk: Signer)
    requires CanSign(sk)
    ensures S.Kept(SmallWorld(d), TrustFor(d), StartShop(d, sk))
    ensures Dependable(SmallWorld(d), sk) && Pins(TrustFor(d), sk)
  {
    hide Started, LocallyValid, NoStray, Dependable, BlocksOf, Genesis, S.Pledged;
    StartedIsValid(d, sk);
    SmallIsDependable(d, sk);
    assert S.OneWaiting(BlocksOf(SmallWorld(d), Started(d, sk)), StartShop(d, sk));
  }

  /** For every well-formed line: `seal`, an approval and `block` put its fingerprint in
      block 1, and `block --request` with a second approved request puts it in block 2.
      Of this run the rule, one fingerprint and one block, does not hold. */
  lemma NamedRequestSealsTwice(d: Digest, sk: Signer, line: S.Line)
    requires CanSign(sk) && S.LineOk(line) && RootOk(SmallWorld(d), S.RootFor(line))
    ensures var w, trust, start := SmallWorld(d), TrustFor(d), StartShop(d, sk);
      var end := S.Run(w, trust, sk, start, Events(d, sk, line));
      && Dependable(w, sk) && Pins(trust, sk) && S.Kept(w, trust, start)
      && !S.FairRun(w, trust, sk, start, Events(d, sk, line))
      && !S.Homes(BlocksOf(w, end.disk), end.asked)
  {
    hide SmallWorld, TrustFor, Started, RootOk, S.LineOk, S.RootFor, SecondFile, FirstNonce, DeviceApproval, Dependable,
         BlocksOf, S.Kept, S.Step, S.Fair, S.FairRun, S.Run, BlockedShop, Pins;
    var w, trust, start := SmallWorld(d), TrustFor(d), StartShop(d, sk);
    StartIsKept(d, sk);
    ThreeSteps(d, sk, line);
    SecondIsUnfair(d, sk, S.RootFor(line));
    var events := Events(d, sk, line);
    if S.FairRun(w, trust, sk, start, events) {
      FairAtLast(w, trust, sk, start, events[0], events[1], events[2], events[3]);
    }
    S.RunKeepsHomesIff(w, trust, sk, start, events);
  }
}
