/**
 What one HEAD hash pins down: the whole history behind it.

 Nothing is assumed of the hash function, so each result either holds or names
 two blocks, one from each ledger, whose hashed bytes collide.
 */
module Uniqueness {
  import opened Wrappers
  import opened Bytes
  import opened Crypto
  import opened Messages
  import opened Approvals
  import opened Blocks
  import opened Disks
  import opened VerifyChain
  import Merkle

  /** Each block holds its own hash, counts up from 0, and names the one before. */
  ghost predicate Linked(w: World, bs: seq<Block>) {
    forall i | 0 <= i < |bs| ::
      && bs[i].hash == ComputeHash(w, bs[i])
      && bs[i].index == i
      && (i > 0 ==> bs[i].prevHash == bs[i - 1].hash)
  }

  lemma SoundIsLinked(w: World, trust: Trust, bs: seq<Block>)
    requires AllWellFormed(w, bs) && ChainSound(w, trust, bs)
    ensures Linked(w, bs)
  {
    hide ComputeHash, Approved, Merkle.RootHex;
    forall i | 0 <= i < |bs|
      ensures bs[i].hash == ComputeHash(w, bs[i])
      ensures bs[i].index == i
      ensures i > 0 ==> bs[i].prevHash == bs[i - 1].hash
    {
      assert OwnSound(w, trust, bs[i]) && Placed(w, trust, bs, i);
    }
  }

  /** Walking back from both ends, the first two blocks with different hashed bytes. */
  function LastDifference(a: seq<Block>, b: seq<Block>): (r: Option<(Block, Block)>)
    ensures r.Some? ==> r.value.0 in a && r.value.1 in b
  {
    if a == [] || b == [] then None
    else
      var m, n := |a| - 1, |b| - 1;
      if Preimage(a[m]) != Preimage(b[n]) then Some((a[m], b[n])) else LastDifference(a[..m], b[..n])
  }

  lemma LastBlocks(w: World, x: Block, y: Block)
    requires x.hash == ComputeHash(w, x) && y.hash == ComputeHash(w, y) && x.hash == y.hash
    ensures if Preimage(x) == Preimage(y)
            then Body(x) == Body(y) && x.index == y.index && x.prevHash == y.prevHash
            else Clash(w, x, y)
  {
    hide Preimage;
    HexInjective(w.sha(Preimage(x)), w.sha(Preimage(y)));
    if Preimage(x) == Preimage(y) {
      PreimageInjective(x, y);
      assert x.index == Body(x).index == Body(y).index == y.index;
      assert x.prevHash == Body(x).prevHash == Body(y).prevHash == y.prevHash;
    }
  }

  lemma {:induction false} LinkedFromOneHash(w: World, a: seq<Block>, b: seq<Block>)
    requires Linked(w, a) && Linked(w, b) && a != [] && b != []
    requires a[|a| - 1].hash == b[|b| - 1].hash
    ensures var r := LastDifference(a, b);
      if r.Some? then Clash(w, r.value.0, r.value.1)
      else |a| == |b| && forall i | 0 <= i < |a| :: Body(a[i]) == Body(b[i])
  {
    hide ComputeHash, Preimage, Clash, Body;
    var m, n := |a| - 1, |b| - 1;
    LastBlocks(w, a[m], b[n]);
    if Preimage(a[m]) == Preimage(b[n]) && m > 0 {
      assert a[m - 1].hash == b[n - 1].hash;
      LinkedFromOneHash(w, a[..m], b[..n]);
    }
  }

  /** Two directories that are VALID LOCALLY, under whatever trust, and whose HEAD
      files hold one hash, hold the same blocks; or a collision is in hand. */
  lemma OneHeadOneHistory(w: World, t1: Trust, t2: Trust, d1: Disk, d2: Disk)
    requires LocallyValid(w, t1, d1) && LocallyValid(w, t2, d2)
    requires d1.head.words[1] == d2.head.words[1]
    ensures var a, b := ReadBlocks(w, d1.files).value, ReadBlocks(w, d2.files).value;
      var r := LastDifference(a, b);
      if r.Some? then r.value.0 in a && r.value.1 in b && Clash(w, r.value.0, r.value.1)
      else |a| == |b| && forall i | 0 <= i < |a| :: Body(a[i]) == Body(b[i])
  {
    hide ComputeHash, Preimage, Linked, LastDifference, EachSound, Joined;
    var a, b := ReadBlocks(w, d1.files).value, ReadBlocks(w, d2.files).value;
    SoundIsLinked(w, t1, a);
    SoundIsLinked(w, t2, b);
    LinkedFromOneHash(w, a, b);
  }

  /** In a sound chain no two blocks rest on one approval message: an approval that
      was used once cannot be used again, at any height, for anything. */
  lemma OneApprovalOneBlock(w: World, trust: Trust, bs: seq<Block>, i: nat, j: nat)
    requires AllWellFormed(w, bs) && ChainSound(w, trust, bs)
    requires i < |bs| && j < |bs| && bs[i].V2? && bs[j].V2?
    requires ApprovalMessage(StatementOf(bs[i])) == ApprovalMessage(StatementOf(bs[j]))
    ensures i == j
  {
    ApprovalMessageInjective(StatementOf(bs[i]), StatementOf(bs[j]));
    assert Placed(w, trust, bs, i) && Placed(w, trust, bs, j);
  }
}
