/**
 What the contract pins down: a ledger that reached BASE VERIFIED once is the
 beginning of every ledger that reaches it later against the same contract.
 */
module BasePrefix {
  import opened Wrappers
  import opened Crypto
  import opened Blocks
  import opened Disks
  import opened VerifyChain
  import opened VerifyAll
  import opened Uniqueness
  import Contract

  /** The contract's storage at each height of Base: later heights follow from earlier
      ones by calls to the contract. */
  type History = nat -> Contract.Storage

  ghost predicate Follows(s: Contract.Storage, t: Contract.Storage) {
    exists calls :: t == Contract.Run(s, calls)
  }

  ghost predicate Grows(history: History) {
    && (forall h: nat :: Contract.Valid(history(h)))
    && (forall g: nat, h: nat | g <= h :: Follows(history(g), history(h)))
  }

  /** The height each answer was read at: they need not agree. */
  datatype Heights = Heights(latest: nat, matches: (nat, string) -> nat)

  /** The reader tells the truth, of some height, about the two things that matter, when
      it answers. */
  ghost predicate Honest(base: BaseView, history: History, at: Heights) {
    && (base.latestIndex.Answered? ==> base.latestIndex.v == history(at.latest).latestIndex)
    && (forall i, h :: base.matches(i, h).Answered? ==>
          base.matches(i, h).v == Contract.Matches(history(at.matches(i, h)), i, h))
  }

  ghost predicate Witnessed(w: World, trust: Trust, disk: Disk, base: BaseView, bitcoin: Option<Bitcoin>) {
    var r := Verdict(w, trust, LocallyValid(w, trust, disk), BlocksOf(w, disk), Some(base), bitcoin);
    r.Some? && r.value.Rank() >= BaseVerified.Rank()
  }

  /** At some height Base holds this block's hash, and it is the block's own. */
  ghost predicate Held(w: World, history: History, i: nat, b: Block) {
    b.hash == ComputeHash(w, b) && exists h: nat :: Contract.Matches(history(h), i, b.hash)
  }

  /** Base holds exactly this ledger's hashes, each the hash of its block. */
  ghost predicate Recorded(w: World, bs: seq<Block>, history: History, at: Heights) {
    && |bs| == history(at.latest).latestIndex + 1
    && forall i | 0 <= i < |bs| :: Held(w, history, i, bs[i])
  }

  lemma WitnessedIsRecorded(w: World, trust: Trust, disk: Disk, base: BaseView, bitcoin: Option<Bitcoin>,
                            history: History, at: Heights)
    requires Witnessed(w, trust, disk, base, bitcoin) && Honest(base, history, at)
    ensures LocallyValid(w, trust, disk)
    ensures Recorded(w, BlocksOf(w, disk), history, at)
  {
    hide ComputeHash, RecordHolds, PinsHold, EachSound, Joined, Contract.Matches;
    var bs := BlocksOf(w, disk);
    var valid := LocallyValid(w, trust, disk);
    BaseVerifiedIff(w, trust, valid, bs, Some(base), bitcoin);
    SoundIsLinked(w, trust, bs);
    forall i | 0 <= i < |bs| ensures Held(w, history, i, bs[i]) {
      assert AnchorHolds(w, trust, base, bs[i], i);
      assert Contract.Matches(history(at.matches(i, bs[i].hash)), i, bs[i].hash);
    }
  }

  /** A slot that matched once matches nothing else, before or after. */
  lemma OneHashPerSlot(history: History, g: nat, h: nat, i: nat, x: string, y: string)
    requires Grows(history)
    requires Contract.Matches(history(g), i, x) && Contract.Matches(history(h), i, y)
    ensures x == y
  {
    var s, t := history(if g <= h then g else h), history(if g <= h then h else g);
    assert Follows(s, t);
    var calls :| t == Contract.Run(s, calls);
    assert Contract.Valid(s);
    Contract.NothingIsReanchored(s, calls);
    assert i in s.anchors;
  }

  lemma LatestGrows(history: History, g: nat, h: nat)
    requires Grows(history) && g <= h
    ensures history(g).latestIndex <= history(h).latestIndex
  {
    assert Follows(history(g), history(h)) && Contract.Valid(history(g));
    var calls :| history(h) == Contract.Run(history(g), calls);
    Contract.NothingIsReanchored(history(g), calls);
  }

  /** A ledger witnessed by Base is a prefix, block body by block body, of any ledger
      witnessed by the same contract later; or the two blocks at some height collide. */
  lemma LaterLedgersExtend(w: World, t1: Trust, t2: Trust, d1: Disk, d2: Disk, v1: BaseView, v2: BaseView,
                           b1: Option<Bitcoin>, b2: Option<Bitcoin>, history: History, at1: Heights, at2: Heights)
    requires Grows(history) && at1.latest <= at2.latest
    requires Honest(v1, history, at1) && Honest(v2, history, at2)
    requires Witnessed(w, t1, d1, v1, b1) && Witnessed(w, t2, d2, v2, b2)
    ensures var early, late := BlocksOf(w, d1), BlocksOf(w, d2);
      && |early| <= |late|
      && forall i | 0 <= i < |early| ::
           Body(early[i]) == Body(late[i]) || Clash(w, early[i], late[i])
  {
    hide ComputeHash, Witnessed, Honest, Body, Clash, Grows, Contract.Matches, BlocksOf;
    WitnessedIsRecorded(w, t1, d1, v1, b1, history, at1);
    WitnessedIsRecorded(w, t2, d2, v2, b2, history, at2);
    LatestGrows(history, at1.latest, at2.latest);
    var early, late := BlocksOf(w, d1), BlocksOf(w, d2);
    forall i | 0 <= i < |early|
      ensures Body(early[i]) == Body(late[i]) || Clash(w, early[i], late[i])
    {
      assert Held(w, history, i, early[i]) && Held(w, history, i, late[i]);
      var g: nat :| Contract.Matches(history(g), i, early[i].hash);
      var h: nat :| Contract.Matches(history(h), i, late[i].hash);
      OneHashPerSlot(history, g, h, i, early[i].hash, late[i].hash);
      SameHashSameBody(w, early[i], late[i]);
    }
  }
}
