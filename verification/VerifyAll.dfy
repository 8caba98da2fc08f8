/** The four states (aikiri_ledger/verify.py, `verify_all`). */
module VerifyAll {
  import opened Wrappers
  import opened Crypto
  import opened Blocks
  import opened Disks
  import opened VerifyChain
  import opened Approvals

  /** What a witness says when asked, if it answers. */
  datatype Answer<+T> = Answered(v: T) | Failed

  datatype Record = Record(anchoredAt: int, account: string)

  /** A reader of the contract, or a quorum of them. */
  datatype BaseView = BaseView(
    address: Option<string>,
    genesisHash: Answer<Option<string>>,
    owner: Answer<Option<string>>,
    codeHash: Option<Answer<string>>,
    latestIndex: Answer<nat>,
    matches: (nat, string) -> Answer<bool>,
    record: nat -> Answer<Option<Record>>)

  datatype BitcoinResult = Complete | Pending | Unchecked | FailedProof

  /** Bitcoin's answer for each block, by index. */
  type Bitcoin = nat -> BitcoinResult

  function LowerChar(c: char): char {
    if 'A' <= c <= 'Z' then (c as int + 32) as char else c
  }

  function Lower(s: string): (t: string)
    ensures |t| == |s|
  {
    seq(|s|, i requires 0 <= i < |s| => LowerChar(s[i]))
  }

  /** `_same_address`. */
  predicate SameAddress(a: string, b: string) {
    Lower(a) == Lower(b)
  }

  /** `int(when.timestamp())`: whole seconds, toward zero. */
  function Seconds(w: World, b: Block): int {
    var us := w.when(b.timestamp);
    if us.None? then 0
    else if us.value >= 0 then us.value / 1_000_000
    else -(-us.value / 1_000_000)
  }

  /** Two letters that differ in case alone, or one character. */
  predicate SameLetter(a: char, b: char) {
    a == b || ('A' <= a <= 'Z' && b as int == a as int + 32) || ('A' <= b <= 'Z' && a as int == b as int + 32)
  }

  lemma SameAddressIff(a: string, b: string)
    ensures SameAddress(a, b) <==> |a| == |b| && forall i | 0 <= i < |a| :: SameLetter(a[i], b[i])
  {
    if SameAddress(a, b) {
      forall i | 0 <= i < |a| ensures SameLetter(a[i], b[i]) {
        assert Lower(a)[i] == Lower(b)[i];
      }
    }
  }

  /** Of a time that reads, the whole seconds: never further from 1970 than the time. */
  lemma SecondsTruncate(w: World, b: Block)
    requires w.when(b.timestamp).Some?
    ensures var us, s := w.when(b.timestamp).value, Seconds(w, b);
      if us >= 0 then s * 1_000_000 <= us < (s + 1) * 1_000_000 else (s - 1) * 1_000_000 < us <= s * 1_000_000
  {
  }

  predicate IsExternal(trust: Trust) {
    trust.source != Repo
  }

  /******* The verdict, said outright *******/

  predicate PinHolds(pin: Option<string>, live: Answer<Option<string>>, same: (string, string) -> bool) {
    live.Answered? && (pin.Some? && live.v.Some? ==> same(live.v.value, pin.value))
  }

  /** Every pin was read, and what was read agrees. */
  predicate PinsHold(trust: Trust, base: BaseView) {
    && (trust.contract.Some? && base.address.Some? ==> SameAddress(base.address.value, trust.contract.value))
    && PinHolds(trust.genesisHash, base.genesisHash, (a, b) => a == b)
    && PinHolds(trust.owner, base.owner, SameAddress)
    && (trust.codeKeccak.Some? ==> base.codeHash == Some(Answered(trust.codeKeccak.value)))
  }

  /** The anchor's time and account, as far as the witness gives them. */
  predicate RecordHolds(w: World, trust: Trust, base: BaseView, b: Block, i: nat) {
    match base.record(i)
    case Failed => true
    case Answered(None) => true
    case Answered(Some(rec)) =>
      && (rec.anchoredAt != 0 ==> Seconds(w, b) <= rec.anchoredAt)
      && (trust.owner.Some? && rec.account != "" ==> SameAddress(rec.account, trust.owner.value))
  }

  predicate AnchorHolds(w: World, trust: Trust, base: BaseView, b: Block, i: nat) {
    base.matches(i, b.hash) == Answered(true) && RecordHolds(w, trust, base, b, i)
  }

  function Min(a: int, b: int): int {
    if a < b then a else b
  }

  /** No witness that was asked about a block raised. */
  ghost predicate NoneRaised(base: BaseView, bs: seq<Block>) {
    base.latestIndex.Answered? ==>
      forall i | 0 <= i < |bs| && i <= base.latestIndex.v :: base.matches(i, bs[i].hash).Answered?
  }

  ghost predicate BaseHolds(w: World, trust: Trust, base: BaseView, bs: seq<Block>) {
    && PinsHold(trust, base)
    && base.latestIndex.Answered?
    && base.latestIndex.v < |bs|
    && forall i | 0 <= i < |bs| && i <= base.latestIndex.v :: AnchorHolds(w, trust, base, bs[i], i)
  }

  ghost predicate Refuted(bitcoin: Bitcoin, n: nat) {
    exists i: nat | i < n :: bitcoin(i) == FailedProof
  }

  ghost predicate Settled(bitcoin: Bitcoin, n: nat) {
    forall i: nat | i < n :: bitcoin(i) == Complete
  }

  /** The state a ledger has earned, from whether its chain is valid and the blocks
      it holds; None when a witness raised where nothing catches it. */
  ghost function Verdict(w: World, trust: Trust, valid: bool, bs: seq<Block>,
                         base: Option<BaseView>, bitcoin: Option<Bitcoin>): (r: Option<State>)
  {
    if !valid then Some(Invalid)
    else if base.Some? && !NoneRaised(base.value, bs) then None
    else if base.Some? && !BaseHolds(w, trust, base.value, bs) then Some(Invalid)
    else if bitcoin.Some? && Refuted(bitcoin.value, |bs|) then Some(Invalid)
    else if !IsExternal(trust) || base.None? || base.value.latestIndex.v < |bs| - 1 then Some(ValidLocally)
    else if bitcoin.Some? && Settled(bitcoin.value, |bs|) then Some(FullyVerified)
    else Some(BaseVerified)
  }

  /** FULLY VERIFIED, if and only if: the chain is valid, the trust came from outside,
      both witnesses were asked, every pin was read and held, Base ends where the
      ledger ends and carries every block, and Bitcoin settled every block. */
  lemma FullyVerifiedIff(w: World, trust: Trust, valid: bool, bs: seq<Block>, base: Option<BaseView>, bitcoin: Option<Bitcoin>)
    requires valid ==> bs != []
    ensures Verdict(w, trust, valid, bs, base, bitcoin) == Some(FullyVerified) <==>
      && valid
      && trust.source != Repo
      && base.Some? && bitcoin.Some?
      && PinsHold(trust, base.value)
      && base.value.latestIndex == Answered(|bs| - 1)
      && (forall i | 0 <= i < |bs| :: AnchorHolds(w, trust, base.value, bs[i], i))
      && (forall i: nat | i < |bs| :: bitcoin.value(i) == Complete)
  {
  }

  /** BASE VERIFIED or better: the same, without Bitcoin. */
  lemma BaseVerifiedIff(w: World, trust: Trust, valid: bool, bs: seq<Block>, base: Option<BaseView>, bitcoin: Option<Bitcoin>)
    requires valid ==> bs != []
    ensures (exists s :: Verdict(w, trust, valid, bs, base, bitcoin) == Some(s) && s.Rank() >= 2) <==>
      && valid
      && trust.source != Repo
      && base.Some? && (bitcoin.Some? ==> !Refuted(bitcoin.value, |bs|))
      && PinsHold(trust, base.value)
      && base.value.latestIndex == Answered(|bs| - 1)
      && (forall i | 0 <= i < |bs| :: AnchorHolds(w, trust, base.value, bs[i], i))
  {
    var r := Verdict(w, trust, valid, bs, base, bitcoin);
    if valid && base.Some? && base.value.latestIndex == Answered(|bs| - 1)
       && (forall i | 0 <= i < |bs| :: AnchorHolds(w, trust, base.value, bs[i], i)) {
      assert NoneRaised(base.value, bs);
    }
    assert (exists s :: r == Some(s) && s.Rank() >= 2) <==> r.Some? && r.value.Rank() >= 2;
  }

  /** At least as much is known: nothing that held fails, and more may be complete. */
  ghost predicate Improves(better: Bitcoin, worse: Bitcoin) {
    forall i: nat :: better(i) == worse(i) || (better(i) == Complete && worse(i) != FailedProof)
  }

  /** A Bitcoin proof that settles never lowers the verdict. */
  lemma SettlingNeverLowers(w: World, trust: Trust, valid: bool, bs: seq<Block>, base: Option<BaseView>, better: Bitcoin, worse: Bitcoin)
    requires Improves(better, worse)
    ensures var before := Verdict(w, trust, valid, bs, base, Some(worse));
      var after := Verdict(w, trust, valid, bs, base, Some(better));
      (before.None? <==> after.None?) && (before.Some? ==> before.value.Rank() <= after.value.Rank())
  {
  }

  /** Nor does bringing the same expectations from outside the repository. */
  lemma ExternalTrustNeverLowers(w: World, trust: Trust, source: Source, valid: bool, bs: seq<Block>, base: Option<BaseView>, bitcoin: Option<Bitcoin>)
    requires trust.source == Repo
    ensures var before := Verdict(w, trust, valid, bs, base, bitcoin);
      var after := Verdict(w, trust.(source := source), valid, bs, base, bitcoin);
      (before.None? <==> after.None?) && (before.Some? ==> before.value.Rank() <= after.value.Rank())
  {
  }

  /** And the chain itself is judged alike from either place. */
  lemma SourceIsNotChecked(w: World, trust: Trust, source: Source, disk: Disk)
    ensures LocallyValid(w, trust.(source := source), disk) <==> LocallyValid(w, trust, disk)
  {
    hide VerifySelf, Approved, WellFormed;
    var outside := trust.(source := source);
    var r := ReadBlocks(w, disk.files);
    if r.Some? {
      forall i | 0 <= i < |r.value|
        ensures OwnSound(w, outside, r.value[i]) <==> OwnSound(w, trust, r.value[i])
        ensures Placed(w, outside, r.value, i) <==> Placed(w, trust, r.value, i)
      {
      }
    }
  }

  /******* The procedure *******/

  /** `len(failures)` for the pins. */
  method CheckPins(trust: Trust, base: BaseView) returns (failures: nat)
    ensures failures == 0 <==> PinsHold(trust, base)
  {
    failures := 0;
    if trust.contract.Some? && base.address.Some? && !SameAddress(base.address.value, trust.contract.value) {
      failures := failures + 1;
    }
    if base.genesisHash.Failed? {
      failures := failures + 1;
    } else if trust.genesisHash.Some? && base.genesisHash.v.Some? && base.genesisHash.v.value != trust.genesisHash.value {
      failures := failures + 1;
    }
    if base.owner.Failed? {
      failures := failures + 1;
    } else if trust.owner.Some? && base.owner.v.Some? && !SameAddress(base.owner.v.value, trust.owner.value) {
      failures := failures + 1;
    }
    if trust.codeKeccak.Some? {
      if base.codeHash.None? {
        failures := failures + 1;
      } else if base.codeHash.value.Failed? {
        failures := failures + 1;
      } else if base.codeHash.value.v != trust.codeKeccak.value {
        failures := failures + 1;
      }
    }
  }

  /** The loop over the blocks Base should hold; `raised` when a witness did. */
  method CheckAnchors(w: World, trust: Trust, base: BaseView, bs: seq<Block>, latest: nat) returns (failures: nat, raised: bool)
    requires forall i | 0 <= i < |bs| :: bs[i].index == i
    ensures raised <==> exists i | 0 <= i < |bs| && i <= latest :: base.matches(i, bs[i].hash).Failed?
    ensures !raised ==> (failures == 0 <==> forall i | 0 <= i < |bs| && i <= latest :: AnchorHolds(w, trust, base, bs[i], i))
  {
    failures, raised := 0, false;
    for i := 0 to |bs|
      invariant i <= latest + 1
      invariant forall k | 0 <= k < i :: base.matches(k, bs[k].hash).Answered?
      invariant failures == 0 <==> forall k | 0 <= k < i :: AnchorHolds(w, trust, base, bs[k], k)
    {
      var b := bs[i];
      if b.index > Min(latest, |bs| - 1) {
        break;
      }
      var matches := base.matches(i, b.hash);
      if matches.Failed? {
        return failures, true;
      }
      if !matches.v {
        failures := failures + 1;
        continue;
      }
      var rec := base.record(i);
      if rec.Answered? && rec.v.Some? && rec.v.value.anchoredAt != 0 {
        if rec.v.value.anchoredAt < Seconds(w, b) {
          failures := failures + 1;
        }
      }
      if rec.Answered? && rec.v.Some? && trust.owner.Some? && rec.v.value.account != ""
         && !SameAddress(rec.v.value.account, trust.owner.value) {
        failures := failures + 1;
      }
    }
  }

  /** The loop over Bitcoin's answers: how many are pending, or that one failed. */
  method CheckBitcoin(bitcoin: Bitcoin, bs: seq<Block>) returns (pending: nat, failed: bool)
    ensures failed <==> Refuted(bitcoin, |bs|)
    ensures !failed ==> (pending == 0 <==> Settled(bitcoin, |bs|))
  {
    pending, failed := 0, false;
    for i := 0 to |bs|
      invariant forall k: nat | k < i :: bitcoin(k) != FailedProof
      invariant pending == 0 <==> forall k: nat | k < i :: bitcoin(k) == Complete
    {
      match bitcoin(i)
      case Complete =>
      case Unchecked => pending := pending + 1;
      case Pending => pending := pending + 1;
      case FailedProof => return pending, true;
    }
  }

  lemma IndicesCount(w: World, trust: Trust, disk: Disk)
    requires LocallyValid(w, trust, disk)
    ensures var bs := ReadBlocks(w, disk.files).value;
      bs != [] && forall i | 0 <= i < |bs| :: bs[i].index == i
  {
    hide OwnSound;
    var bs := ReadBlocks(w, disk.files).value;
    forall i | 0 <= i < |bs| ensures bs[i].index == i {
      assert Placed(w, trust, bs, i);
    }
  }

  /** What `verify_all` does once the chain is known to be valid. */
  method Weigh(w: World, trust: Trust, bs: seq<Block>, base: Option<BaseView>, bitcoin: Option<Bitcoin>) returns (r: Option<State>)
    requires bs != [] && forall i | 0 <= i < |bs| :: bs[i].index == i
    ensures r == Verdict(w, trust, true, bs, base, bitcoin)
  {
    var state, ceiling := ValidLocally, if IsExternal(trust) then FullyVerified else ValidLocally;
    var localHead := |bs| - 1;
    if base.Some? {
      var failures := CheckPins(trust, base.value);
      if base.value.latestIndex.Failed? {
        failures := failures + 1;
      } else {
        var latest := base.value.latestIndex.v;
        if latest > localHead {
          failures := failures + 1;
        }
        var wrong, raised := CheckAnchors(w, trust, base.value, bs, latest);
        if raised {
          return None;
        }
        failures := failures + wrong;
      }
      if failures > 0 {
        return Some(Invalid);
      }
      if localHead > base.value.latestIndex.v {
        ceiling := ValidLocally;
      } else {
        state := BaseVerified;
      }
    }
    if bitcoin.Some? {
      var pending, failed := CheckBitcoin(bitcoin.value, bs);
      if failed {
        return Some(Invalid);
      }
      if pending == 0 && state.Rank() >= BaseVerified.Rank() {
        state := FullyVerified;
      }
    }
    return Some(if ceiling.Rank() < state.Rank() then ceiling else state);
  }

  ghost function BlocksOf(w: World, disk: Disk): (bs: seq<Block>) {
    var r := ReadBlocks(w, disk.files);
    if r.Some? then r.value else []
  }

  /** `verify_all`. */
  method Verify(w: World, trust: Trust, disk: Disk, base: Option<BaseView>, bitcoin: Option<Bitcoin>) returns (r: Option<State>)
    ensures r == if RaisesOnRead(w, disk.files) then None
                 else Verdict(w, trust, LocallyValid(w, trust, disk), BlocksOf(w, disk), base, bitcoin)
  {
    hide ChainSound, AnchorHolds, PinsHold, Stands;
    var state, report := VerifyChain.Verify(w, trust, disk);
    if state.None? {
      return None;
    }
    if state.value == Invalid {
      return Some(Invalid);
    }
    IndicesCount(w, trust, disk);
    var loaded, _ := LoadBlocks(w, disk.files);
    r := Weigh(w, trust, loaded.value, base, bitcoin);
  }
}
