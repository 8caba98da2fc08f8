/**
 The writer, the verifier and the contract as one system: what honest runs reach.
 */
module System {
  import opened Wrappers
  import opened Bytes
  import opened Crypto
  import opened Approvals
  import opened Blocks
  import opened Disks
  import opened VerifyChain
  import opened VerifyAll
  import opened Writer
  import Requests
  import Contract
  import Canonical

  /******* HEAD *******/

  lemma HexIsWord(s: string)
    requires IsHex64(s)
    ensures IsWord(s)
  {
    forall i | 0 <= i < |s| ensures !IsSpace(s[i]) {
      assert IsHexDigit(s[i]);
    }
  }

  lemma DecimalIsWord(n: nat)
    ensures IsWord(Canonical.Decimal(n)) && Canonical.PrintInt(n) == Canonical.Decimal(n)
  {
    Canonical.DecimalValue(n);
    var d := Canonical.Decimal(n);
    forall i | 0 <= i < |d| ensures !IsSpace(d[i]) {
      assert Canonical.IsDigit(d[i]);
    }
  }

  /** The words of HEAD, whole or cut short. */
  lemma HeadWords(b: Block, k: nat)
    requires b.index >= 0 && IsHex64(b.hash) && k <= |HeadText(b)|
    ensures |HeadText(b)| == |Canonical.Decimal(b.index)| + 66
    ensures HeadCut(b, k) == Head(CutWords(Canonical.Decimal(b.index), b.hash, k))
    ensures HeadFor(b) == Head([Canonical.Decimal(b.index), b.hash])
  {
    var first := Canonical.Decimal(b.index);
    DecimalIsWord(b.index);
    HexIsWord(b.hash);
    WordsOfCut(first, b.hash, k);
    WordsOfCut(first, b.hash, |HeadText(b)|);
    assert HeadText(b)[..|HeadText(b)|] == HeadText(b);
  }

  /******* One more block *******/

  /** No block file past the first gap. */
  ghost predicate NoStray(files: map<nat, BlockFile>) {
    forall i | i in files :: i < Count(files)
  }

  lemma HeadIsLast(w: World, trust: Trust, d: Disk)
    requires LocallyValid(w, trust, d)
    ensures var bs := ReadBlocks(w, d.files).value;
      bs != [] && HeadOf(w, d) == Some(bs[|bs| - 1]) && bs[|bs| - 1].index == |bs| - 1
  {
    hide OwnSound, EachSound;
    var bs := ReadBlocks(w, d.files).value;
    assert Placed(w, trust, bs, |bs| - 1);
    assert ReadFile(w, d.files[|bs| - 1]) == Some(bs[|bs| - 1]);
  }

  lemma CountGrows(files: map<nat, BlockFile>, f: BlockFile)
    requires NoStray(files)
    ensures var more := files[Count(files) := f];
      Count(more) == Count(files) + 1 && NoStray(more)
  {
    var more := files[Count(files) := f];
    CountUnique(more, Count(more), Count(files) + 1);
  }

  lemma ReadsOneMore(w: World, files: map<nat, BlockFile>, b: Block)
    requires NoStray(files) && ReadBlocks(w, files).Some? && WellFormed(w, b)
    ensures var more := files[Count(files) := Shaped(b)];
      NoStray(more) && ReadBlocks(w, more) == Some(ReadBlocks(w, files).value + [b])
  {
    hide WellFormed;
    var n := Count(files);
    var more := files[n := Shaped(b)];
    CountGrows(files, Shaped(b));
    var bs := ReadBlocks(w, files).value;
    assert ReadFile(w, more[n]) == Some(b);
    forall i: nat | i < n + 1 ensures ReadFile(w, more[i]) == Some((bs + [b])[i]) {
      assert i < n ==> more[i] == files[i];
    }
    assert ReadBlocks(w, more).value == bs + [b];
  }

  lemma SoundGrows(w: World, trust: Trust, bs: seq<Block>, b: Block)
    requires AllWellFormed(w, bs) && ChainSound(w, trust, bs)
    requires WellFormed(w, b) && OwnSound(w, trust, b)
    requires b.V2? && b.nonce !in Nonces(bs)
    requires b.index == |bs| && b.prevHash == bs[|bs| - 1].hash && Later(w, b, bs[|bs| - 1])
    requires trust.validator.Some? ==> b.validator == trust.validator.value
    ensures AllWellFormed(w, bs + [b]) && ChainSound(w, trust, bs + [b])
  {
    hide WellFormed, OwnSound, Later;
    var more := bs + [b];
    forall i | 0 <= i < |more| ensures Placed(w, trust, more, i) && OwnSound(w, trust, more[i]) {
      if i < |bs| {
        assert Placed(w, trust, bs, i) && more[i] == bs[i];
      }
    }
    forall i, j | 0 <= i < j < |more| && more[i].V2? && more[j].V2? ensures more[i].nonce != more[j].nonce {
      assert more[i] == bs[i];
      assert bs[i].nonce in Nonces(bs);
    }
  }

  lemma LaterThan(w: World, b: Block, prev: Block, at: int)
    requires WellFormed(w, prev) && w.when(b.timestamp) == Some(at) && at > TimeOf(w, prev)
    ensures Later(w, b, prev)
  {
  }

  lemma HashIsHex(w: World, b: Block)
    requires WellFormed(w, b)
    ensures IsHex64(b.hash)
  {
  }

  /** The trust pins the key that signs. */
  predicate Pins(trust: Trust, sk: Signer) {
    trust.validator.Some? ==> trust.validator.value == sk.pub
  }

  /** A block written for a request the writer takes leaves a directory that is VALID
      LOCALLY, with that block at its end and every other as it was. */
  lemma AppendKeeps(w: World, trust: Trust, sk: Signer, d: Disk, r: Requests.Request, now: Moment)
    requires Dependable(w, sk) && Pins(trust, sk) && w.when(now.text) == Some(now.at)
    requires LocallyValid(w, trust, d) && NoStray(d.files)
    requires Requests.WellFormed(w, r) && Accepts(w, d, r, sk, now, Some(trust.approvalKeys))
    ensures var b := BlockFor(w, sk, r, now);
      var after := Appended(d, b);
      && LocallyValid(w, trust, after) && NoStray(after.files) && Keeps(d, after)
      && ReadBlocks(w, after.files) == Some(ReadBlocks(w, d.files).value + [b])
  {
    hide WellFormed, Requests.WellFormed, VerifySelf, BlockFor, Approved, VerifyApproval, EachSound, Joined, HeadFor;
    var b := BlockFor(w, sk, r, now);
    var bs := ReadBlocks(w, d.files).value;
    WrittenIsSound(w, sk, r, now);
    HeadIsLast(w, trust, d);
    AcceptedIffApproved(w, b.approval, StatementOf(b), trust.approvalKeys);
    assert OwnSound(w, trust, b);
    LaterThan(w, b, bs[|bs| - 1], now.at);
    assert IsHex64(b.hash) by { HashIsHex(w, b); }
    HeadWords(b, 0);
    SoundGrows(w, trust, bs, b);
    ReadsOneMore(w, d.files, b);
  }

  /******* A crash between the block and HEAD *******/

  /** HEAD is left one behind: no later request is taken, whoever brings it, and no
      verifier calls the directory valid, whatever it trusts. */
  lemma CrashStops(w: World, trust: Trust, d: Disk, b: Block)
    requires LocallyValid(w, trust, d) && b.index == Count(d.files)
    ensures var crashed := BlockWritten(d, b);
      && HeadOf(w, crashed).Some? && HeadOf(w, crashed).value.index == b.index - 1
      && (forall t :: !LocallyValid(w, t, crashed))
      && (forall r, sk, now, registered :: !Accepts(w, crashed, r, sk, now, registered))
  {
    hide WellFormed, ChainSound, Requests.Verify;
    var crashed := BlockWritten(d, b);
    HeadIsLast(w, trust, d);
    assert HeadOf(w, crashed) == HeadOf(w, d);
    forall t ensures !LocallyValid(w, t, crashed) {
      if LocallyValid(w, t, crashed) {
        HeadIsLast(w, t, crashed);
        assert false;
      }
    }
  }

  /** The same while HEAD is empty, before its new words are in. */
  lemma EmptyHeadStops(w: World, d: Disk)
    requires d.head == Head([])
    ensures (forall t :: !LocallyValid(w, t, d))
    ensures (forall r, sk, now, registered :: !Accepts(w, d, r, sk, now, registered))
  {
  }

  /** A shorter beginning of a number's digits is a smaller number's digits. */
  lemma {:induction false} DigitsCut(n: nat, k: nat)
    requires 0 < k < |Canonical.Decimal(n)|
    ensures exists m: nat :: m < n && Canonical.Decimal(n)[..k] == Canonical.Decimal(m)
  {
    var d, front := Canonical.Decimal(n), Canonical.Decimal(n / 10);
    assert d[..|d| - 1] == front;
    if k < |d| - 1 {
      DigitsCut(n / 10, k);
      assert d[..k] == front[..k];
    } else {
      assert d[..k] == front && n / 10 < n;
    }
  }

  /** HEAD cut inside its index reads as nothing, or as the index of an earlier block. */
  lemma CutIndexIsEarlier(w: World, trust: Trust, d: Disk, b: Block, k: nat)
    requires LocallyValid(w, trust, d) && ReadsDecimals(w)
    requires b.index == Count(d.files) && IsHex64(b.hash) && k < |Canonical.Decimal(b.index)|
    ensures k <= |HeadText(b)|
    ensures var head := HeadOf(w, BlockWritten(d, b).(head := HeadCut(b, k)));
      head.Some? ==> 0 <= head.value.index < b.index
  {
    hide WellFormed, OwnSound, EachSound;
    HeadWords(b, 0);
    HeadWords(b, k);
    if k > 0 {
      DigitsCut(b.index, k);
      var m: nat :| m < b.index && Canonical.Decimal(b.index)[..k] == Canonical.Decimal(m);
      var bs := ReadBlocks(w, d.files).value;
      assert Placed(w, trust, bs, m);
      assert ReadFile(w, d.files[m]) == Some(bs[m]);
    }
  }

  lemma SameHeadSameAnswer(w: World, a: Disk, b: Disk)
    requires a.files == b.files && HeadOf(w, a) == HeadOf(w, b)
    ensures forall r, sk, now, registered :: Accepts(w, a, r, sk, now, registered) <==> Accepts(w, b, r, sk, now, registered)
  {
    hide HeadOf, ReadBlocks, Requests.Verify, TimeOf;
  }

  lemma TakenFileRefuses(w: World, d: Disk)
    requires HeadOf(w, d).Some? ==> HeadOf(w, d).value.index >= -1 && HeadOf(w, d).value.index + 1 in d.files
    ensures forall r, sk, now, registered :: !Accepts(w, d, r, sk, now, registered)
  {
    hide HeadOf, ReadBlocks, Requests.Verify, TimeOf;
  }

  lemma FirstWordDecides(w: World, files: map<nat, BlockFile>, a: seq<string>, b: seq<string>)
    requires a != [] && b != [] && a[0] == b[0]
    ensures HeadOf(w, Disk(files, Head(a))) == HeadOf(w, Disk(files, Head(b)))
  {
    hide ReadFile;
  }

  lemma CutAfterIndexReads(w: World, d: Disk, b: Block, k: nat)
    requires b.index >= 0 && IsHex64(b.hash)
    requires |Canonical.Decimal(b.index)| <= k <= |HeadText(b)|
    ensures HeadOf(w, BlockWritten(d, b).(head := HeadCut(b, k))) == HeadOf(w, Appended(d, b))
  {
    HeadWords(b, k);
    DecimalIsWord(b.index);
    var first := Canonical.Decimal(b.index);
    assert first[..|first|] == first;
    var cut := CutWords(first, b.hash, k);
    hide HeadOf, HeadCut, HeadFor;
    FirstWordDecides(w, BlockWritten(d, b).files, cut, [first, b.hash]);
  }

  lemma TornInIndex(w: World, trust: Trust, d: Disk, b: Block, k: nat)
    requires LocallyValid(w, trust, d) && ReadsDecimals(w)
    requires b.index == Count(d.files) && IsHex64(b.hash) && k < |Canonical.Decimal(b.index)| <= |HeadText(b)|
    ensures forall r, sk, now, registered ::
      !Accepts(w, BlockWritten(d, b).(head := HeadCut(b, k)), r, sk, now, registered)
  {
    hide HeadOf, HeadCut, LocallyValid, Accepts;
    var torn := BlockWritten(d, b).(head := HeadCut(b, k));
    CutIndexIsEarlier(w, trust, d, b, k);
    TakenFileRefuses(w, torn);
  }

  lemma TornWriter(w: World, trust: Trust, d: Disk, b: Block, k: nat)
    requires LocallyValid(w, trust, d) && ReadsDecimals(w)
    requires b.index == Count(d.files) && IsHex64(b.hash) && k <= |HeadText(b)|
    ensures var torn := BlockWritten(d, b).(head := HeadCut(b, k));
      if k < |Canonical.Decimal(b.index)| then forall r, sk, now, registered :: !Accepts(w, torn, r, sk, now, registered)
      else forall r, sk, now, registered ::
             Accepts(w, torn, r, sk, now, registered) <==> Accepts(w, Appended(d, b), r, sk, now, registered)
  {
    HeadWords(b, k);
    hide HeadFor, HeadCut, HeadOf, LocallyValid, Accepts, HeadText, Canonical.Decimal, CutWords;
    if k < |Canonical.Decimal(b.index)| {
      TornInIndex(w, trust, d, b, k);
    } else {
      CutAfterIndexReads(w, d, b, k);
      SameHeadSameAnswer(w, BlockWritten(d, b).(head := HeadCut(b, k)), Appended(d, b));
    }
  }

  lemma TornVerifier(w: World, d: Disk, b: Block, k: nat)
    requires b.index >= 0 && IsHex64(b.hash) && k <= |HeadText(b)|
    ensures var torn := BlockWritten(d, b).(head := HeadCut(b, k));
      if k < |Canonical.Decimal(b.index)| + 65 then forall t :: !LocallyValid(w, t, torn) else torn == Appended(d, b)
  {
    HeadWords(b, k);
    hide HeadFor, HeadCut, LocallyValid, HeadText, Canonical.Decimal;
    if k < |Canonical.Decimal(b.index)| + 65 {
      ShortHeadIsInvalid(w, BlockWritten(d, b).(head := HeadCut(b, k)));
    } else {
      assert b.hash[..64] == b.hash;
    }
  }

  /** HEAD cut anywhere, the block already written. Cut inside its index, no later request
      is taken from anyone. Cut after it, requests are taken as if it were whole, since the
      writer reads only the first word, and the next block written makes it whole. The
      verifier calls the directory valid only once all of the hash is there. */
  lemma TornHead(w: World, trust: Trust, d: Disk, b: Block, k: nat)
    requires LocallyValid(w, trust, d) && ReadsDecimals(w)
    requires b.index == Count(d.files) && WellFormed(w, b) && k <= |HeadText(b)|
    ensures var digits := |Canonical.Decimal(b.index)|;
      var torn, whole := BlockWritten(d, b).(head := HeadCut(b, k)), Appended(d, b);
      && (k < digits ==> forall r, sk, now, registered :: !Accepts(w, torn, r, sk, now, registered))
      && (k >= digits ==> forall r, sk, now, registered ::
            Accepts(w, torn, r, sk, now, registered) <==> Accepts(w, whole, r, sk, now, registered))
      && (forall next: Block | next.index >= 0 :: Appended(torn, next) == Appended(whole, next))
      && (k < digits + 65 ==> forall t :: !LocallyValid(w, t, torn))
      && (k >= digits + 65 ==> torn == whole)
  {
    HashIsHex(w, b);
    hide WellFormed, HeadFor, HeadCut, HeadText, LocallyValid, Accepts, Canonical.Decimal;
    TornWriter(w, trust, d, b, k);
    TornVerifier(w, d, b, k);
  }

  lemma ShortHeadIsInvalid(w: World, d: Disk)
    requires d.head.Head? && (|d.head.words| == 2 ==> |d.head.words[1]| < 64)
    ensures forall t :: !LocallyValid(w, t, d)
  {
    hide EachSound, Joined;
    forall t ensures !LocallyValid(w, t, d) {
      if LocallyValid(w, t, d) {
        var bs := ReadBlocks(w, d.files).value;
        HashIsHex(w, bs[|bs| - 1]);
        assert false;
      }
    }
  }

  /** So after a crash while HEAD is written, every later request is refused exactly when
      HEAD was cut inside its index, or each would be refused after a whole write too. */
  lemma TornHeadRefusesIff(w: World, trust: Trust, d: Disk, b: Block, k: nat)
    requires LocallyValid(w, trust, d) && ReadsDecimals(w)
    requires b.index == Count(d.files) && WellFormed(w, b) && k <= |HeadText(b)|
    ensures var torn := BlockWritten(d, b).(head := HeadCut(b, k));
      (forall r, sk, now, registered :: !Accepts(w, torn, r, sk, now, registered)) <==>
      || k < |Canonical.Decimal(b.index)|
      || (forall r, sk, now, registered :: !Accepts(w, Appended(d, b), r, sk, now, registered))
  {
    hide LocallyValid, WellFormed, Accepts, HeadCut, Appended, BlockWritten;
    TornHead(w, trust, d, b, k);
  }

  /******* Runs *******/

  datatype Sys = Sys(disk: Disk, base: Contract.Storage)

  datatype Event =
    | Request(r: Requests.Request, now: Moment)
    | Anchor(i: nat, clock: nat)         // by the owner, of the ledger's own block
    | Outsider(call: Contract.Call)    // by anyone else

  /** The block in file `i`, if it can be read. */
  function BlockAt(w: World, disk: Disk, i: nat): (b: Option<Block>)
    ensures b.Some? ==> WellFormed(w, b.value)
  {
    if i in disk.files then ReadFile(w, disk.files[i]) else None
  }

  /** One event. Base's clock is not behind the timestamp of a block it is given, and an
      event that cannot happen changes nothing. */
  function Step(w: World, sk: Signer, keys: seq<ApprovalKey>, s: Sys, e: Event): (t: Sys) {
    match e
    case Request(r, now) =>
      if w.when(now.text) == Some(now.at) && Requests.WellFormed(w, r) && Accepts(w, s.disk, r, sk, now, Some(keys))
      then s.(disk := Appended(s.disk, BlockFor(w, sk, r, now)))
      else s
    case Anchor(i, now) =>
      var b := BlockAt(w, s.disk, i);
      if b.Some? && Seconds(w, b.value) <= now < Contract.UINT64_SIZE
      then s.(base := Contract.Apply(s.base, Contract.Anchoring(s.base.owner, now, i, b.value.hash)))
      else s
    case Outsider(call) =>
      if call.sender != s.base.owner then s.(base := Contract.Apply(s.base, call)) else s
  }

  function Run(w: World, sk: Signer, keys: seq<ApprovalKey>, s: Sys, events: seq<Event>): (t: Sys)
    decreases |events|
  {
    if events == [] then s else Run(w, sk, keys, Step(w, sk, keys, s, events[0]), events[1..])
  }

  /** The contract holds the beginning of the ledger, each block anchored by the owner
      and not before its own time. */
  ghost predicate Mirrors(w: World, bs: seq<Block>, base: Contract.Storage) {
    && Contract.Valid(base)
    && base.latestIndex < |bs|
    && forall i: nat | i <= base.latestIndex :: Recorded(w, bs[i], base, i)
  }

  ghost predicate Recorded(w: World, b: Block, base: Contract.Storage, i: nat)
    requires i in base.anchors
  {
    var a := base.anchors[i];
    a.blockHash == b.hash && a.account == base.owner && Seconds(w, b) <= a.anchoredAt
  }

  ghost predicate Synced(w: World, trust: Trust, s: Sys) {
    LocallyValid(w, trust, s.disk) && NoStray(s.disk.files) && Mirrors(w, BlocksOf(w, s.disk), s.base)
  }

  /** What never changes on the way. */
  ghost predicate Follows(s: Sys, t: Sys) {
    && Keeps(s.disk, t.disk)
    && t.base.owner == s.base.owner && t.base.genesisHash == s.base.genesisHash
    && s.base.latestIndex <= t.base.latestIndex
  }

  lemma BlockAtIsRead(w: World, trust: Trust, disk: Disk, i: nat)
    requires LocallyValid(w, trust, disk) && NoStray(disk.files)
    ensures var bs := BlocksOf(w, disk);
      (i < |bs| ==> BlockAt(w, disk, i) == Some(bs[i])) && (i >= |bs| ==> BlockAt(w, disk, i) == None)
  {
    hide WellFormed, ChainSound;
  }

  lemma AnchorMirrors(w: World, bs: seq<Block>, base: Contract.Storage, i: nat, now: nat)
    requires Mirrors(w, bs, base) && i < |bs|
    requires Seconds(w, bs[i]) <= now < Contract.UINT64_SIZE
    ensures var next := Contract.Apply(base, Contract.Anchoring(base.owner, now, i, bs[i].hash));
      Mirrors(w, bs, next) && next.owner == base.owner
  {
    hide Seconds;
    var call := Contract.Anchoring(base.owner, now, i, bs[i].hash);
    var next := Contract.Apply(base, call);
    Contract.StepKeeps(base, call);
    forall k: nat | k <= next.latestIndex ensures Recorded(w, bs[k], next, k) {
      if k <= base.latestIndex {
        assert Recorded(w, bs[k], base, k);
      }
    }
  }

  lemma MirrorsMore(w: World, bs: seq<Block>, b: Block, base: Contract.Storage)
    requires Mirrors(w, bs, base)
    ensures Mirrors(w, bs + [b], base)
  {
  }

  lemma OutsiderChangesNothing(base: Contract.Storage, call: Contract.Call)
    requires call.sender != base.owner
    ensures Contract.Apply(base, call) == base
  {
  }

  lemma StepKeepsSynced(w: World, trust: Trust, sk: Signer, s: Sys, e: Event)
    requires Dependable(w, sk) && Pins(trust, sk) && Synced(w, trust, s)
    ensures var t := Step(w, sk, trust.approvalKeys, s, e);
      Synced(w, trust, t) && Follows(s, t)
  {
    hide LocallyValid, Mirrors, NoStray, Accepts, Appended, BlockFor, Requests.WellFormed, WellFormed, Seconds,
         Contract.Apply, Contract.Valid, ReadFile;
    match e
    case Request(r, now) =>
      if w.when(now.text) == Some(now.at) && Requests.WellFormed(w, r)
         && Accepts(w, s.disk, r, sk, now, Some(trust.approvalKeys)) {
        AppendKeeps(w, trust, sk, s.disk, r, now);
        MirrorsMore(w, BlocksOf(w, s.disk), BlockFor(w, sk, r, now), s.base);
      }
    case Anchor(i, now) =>
      BlockAtIsRead(w, trust, s.disk, i);
      var b := BlockAt(w, s.disk, i);
      if b.Some? && Seconds(w, b.value) <= now < Contract.UINT64_SIZE {
        AnchorMirrors(w, BlocksOf(w, s.disk), s.base, i, now);
        MirrorsKeep(w, BlocksOf(w, s.disk), s.base, Contract.Anchoring(s.base.owner, now, i, b.value.hash));
      }
    case Outsider(call) =>
      if call.sender != s.base.owner {
        OutsiderChangesNothing(s.base, call);
      }
  }

  lemma MirrorsKeep(w: World, bs: seq<Block>, base: Contract.Storage, call: Contract.Call)
    requires Mirrors(w, bs, base)
    ensures var next := Contract.Apply(base, call);
      base.latestIndex <= next.latestIndex && next.genesisHash == base.genesisHash
  {
  }

  /** Every run of requests, anchors and outsiders' calls keeps the ledger VALID LOCALLY
      and the contract its mirror, and no block file that was ever written changes. */
  lemma {:induction false} RunKeepsSynced(w: World, trust: Trust, sk: Signer, s: Sys, events: seq<Event>)
    requires Dependable(w, sk) && Pins(trust, sk) && Synced(w, trust, s)
    ensures var t := Run(w, sk, trust.approvalKeys, s, events);
      Synced(w, trust, t) && Follows(s, t)
    decreases |events|
  {
    hide Dependable, Synced, Step;
    if events != [] {
      StepKeepsSynced(w, trust, sk, s, events[0]);
      RunKeepsSynced(w, trust, sk, Step(w, sk, trust.approvalKeys, s, events[0]), events[1..]);
    }
  }

  /******* What a verifier says of it *******/

  /** The contract as an honest reader shows it. */
  function View(base: Contract.Storage, address: string, code: string): (view: BaseView) {
    BaseView(
      Some(address),
      Answered(Some(base.genesisHash)),
      Answered(Some(base.owner)),
      Some(Answered(code)),
      Answered(base.latestIndex),
      (i: nat, h) => Answered(Contract.Matches(base, i, h)),
      (i: nat) => var a := Contract.Slot(base, i); Answered(Some(Record(a.anchoredAt, a.account))))
  }

  /** Every pin the trust file has is the live value. */
  predicate PinsMatch(trust: Trust, base: Contract.Storage, address: string, code: string) {
    && (trust.contract.Some? ==> SameAddress(address, trust.contract.value))
    && (trust.owner.Some? ==> SameAddress(base.owner, trust.owner.value))
    && (trust.codeKeccak.Some? ==> trust.codeKeccak.value == code)
    && (trust.genesisHash.Some? ==> trust.genesisHash.value == base.genesisHash)
  }

  lemma MirrorHolds(w: World, trust: Trust, bs: seq<Block>, base: Contract.Storage, address: string, code: string)
    requires Mirrors(w, bs, base) && PinsMatch(trust, base, address, code)
    ensures var view := View(base, address, code);
      NoneRaised(view, bs) && BaseHolds(w, trust, view, bs)
  {
  }

  /** A synced system verifies, against a trust file from outside with matching pins:
      never INVALID, and BASE VERIFIED or better exactly when Base has every block. */
  lemma SyncedVerdict(w: World, trust: Trust, s: Sys, address: string, code: string, bitcoin: Option<Bitcoin>)
    requires Synced(w, trust, s) && IsExternal(trust) && PinsMatch(trust, s.base, address, code)
    requires bitcoin.Some? ==> !Refuted(bitcoin.value, |BlocksOf(w, s.disk)|)
    ensures var bs := BlocksOf(w, s.disk);
      Verdict(w, trust, LocallyValid(w, trust, s.disk), bs, Some(View(s.base, address, code)), bitcoin) == Some(
        if s.base.latestIndex < |bs| - 1 then ValidLocally
        else if bitcoin.Some? && Settled(bitcoin.value, |bs|) then FullyVerified
        else BaseVerified)
  {
    hide NoneRaised, BaseHolds, LocallyValid, Refuted, Settled, NoStray, PinsMatch;
    MirrorHolds(w, trust, BlocksOf(w, s.disk), s.base, address, code);
  }

  /** So every state that honest events reach verifies. */
  lemma HonestRunsVerify(w: World, trust: Trust, sk: Signer, s: Sys, events: seq<Event>, address: string, code: string,
                         bitcoin: Option<Bitcoin>)
    requires Dependable(w, sk) && Pins(trust, sk) && Synced(w, trust, s)
    requires IsExternal(trust) && PinsMatch(trust, s.base, address, code)
    requires var t := Run(w, sk, trust.approvalKeys, s, events);
      bitcoin.Some? ==> !Refuted(bitcoin.value, |BlocksOf(w, t.disk)|)
    ensures var t := Run(w, sk, trust.approvalKeys, s, events);
      var bs := BlocksOf(w, t.disk);
      && Keeps(s.disk, t.disk)
      && Verdict(w, trust, LocallyValid(w, trust, t.disk), bs, Some(View(t.base, address, code)), bitcoin) == Some(
           if t.base.latestIndex < |bs| - 1 then ValidLocally
           else if bitcoin.Some? && Settled(bitcoin.value, |bs|) then FullyVerified
           else BaseVerified)
  {
    hide Dependable, Synced, Run, Verdict, View;
    RunKeepsSynced(w, trust, sk, s, events);
    var t := Run(w, sk, trust.approvalKeys, s, events);
    SyncedVerdict(w, trust, t, address, code, bitcoin);
  }

  /******* Where it starts *******/

  /** A trust file for a ledger that starts with `g`. */
  predicate PinsGenesis(trust: Trust, sk: Signer, g: Block) {
    && Pins(trust, sk)
    && (trust.genesisHash.Some? ==> trust.genesisHash.value == g.hash)
    && 0 in trust.legacy && trust.legacy[0] == g.hash
  }

  lemma GenesisIsValid(w: World, trust: Trust, sk: Signer, now: Moment)
    requires Dependable(w, sk) && w.when(now.text) == Some(now.at)
    requires PinsGenesis(trust, sk, Genesis(w, sk, now))
    ensures var g := Genesis(w, sk, now);
      var d := Appended(Disk(map[], NoHead), g);
      LocallyValid(w, trust, d) && NoStray(d.files) && BlocksOf(w, d) == [g]
  {
    hide Genesis, WellFormed, VerifySelf, HeadFor;
    var g := Genesis(w, sk, now);
    GenesisIsSound(w, sk, now);
    var d := Appended(Disk(map[], NoHead), g);
    CountUnique(d.files, Count(d.files), 1);
    assert ReadFile(w, d.files[0]) == Some(g);
    assert ReadBlocks(w, d.files).value == [g];
    assert OwnSound(w, trust, g) && Placed(w, trust, [g], 0);
    HashIsHex(w, g);
    HeadWords(g, 0);
    assert w.parseInt(Canonical.Decimal(0)) == Some(0);
  }

  /** `init`, then the contract deployed with the genesis hash: a synced system. */
  lemma GenesisIsSynced(w: World, trust: Trust, sk: Signer, now: Moment, owner: Contract.Address, deployed: nat)
    requires Dependable(w, sk) && w.when(now.text) == Some(now.at)
    requires PinsGenesis(trust, sk, Genesis(w, sk, now))
    requires Genesis(w, sk, now).hash != Contract.ZERO32
    requires Seconds(w, Genesis(w, sk, now)) <= deployed < Contract.UINT64_SIZE
    ensures var g := Genesis(w, sk, now);
      Synced(w, trust, Sys(Appended(Disk(map[], NoHead), g), Contract.Deployed(owner, deployed, g.hash)))
  {
    hide Genesis, Seconds, LocallyValid;
    GenesisIsValid(w, trust, sk, now);
  }
}
