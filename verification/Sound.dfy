/**
 What VALID LOCALLY comes to, spelled out down to the hash and the two signature
 schemes: no check of the verifier's own is named here.
 */
module Sound {
  import opened Wrappers
  import opened Bytes
  import opened Crypto
  import opened Messages
  import opened Approvals
  import opened Blocks
  import opened Disks
  import opened VerifyChain
  import Fields
  import Merkle

  /******* One block *******/

  /** The v1 root is its leaves' root. */
  predicate RootStands(w: World, b: Block)
    requires WellFormed(w, b)
  {
    b.V1? ==> b.merkleRoot == Merkle.RootHex(w, Leaves(b.legacyRoots))
  }

  predicate HashStands(w: World, b: Block) {
    b.hash == Hex(w.sha(Preimage(b)))
  }

  /** The validator's key signed the hash. */
  predicate SignatureStands(w: World, b: Block)
    requires WellFormed(w, b)
  {
    w.ed25519(FromHex(b.validator), FromHex(b.hash), FromHex(b.signature))
  }

  /** A block verifies by itself if and only if all three stand, and a refusal names the
      first that does not. */
  lemma SelfVerifiesIff(w: World, b: Block)
    requires WellFormed(w, b)
    ensures VerifySelf(w, b) == None <==> RootStands(w, b) && HashStands(w, b) && SignatureStands(w, b)
    ensures VerifySelf(w, b) == Some(MerkleMismatch) <==> !RootStands(w, b)
    ensures VerifySelf(w, b) == Some(HashMismatch) <==> RootStands(w, b) && !HashStands(w, b)
    ensures VerifySelf(w, b) == Some(BadSignature) <==> RootStands(w, b) && HashStands(w, b) && !SignatureStands(w, b)
  {
    hide Preimage;
  }

  /** A label, a point on the curve, and hex. */
  predicate Formed(w: World, a: Approval) {
    && a.device.Str? && Fields.Printable(w, a.device.s, 64)
    && a.pubkey.Str? && |a.pubkey.s| == 130 && AllHex(a.pubkey.s)
    && FromHex(a.pubkey.s)[0] == 4 && w.onCurve(FromHex(a.pubkey.s))
    && a.sig.Str? && a.sig.s != "" && |a.sig.s| % 2 == 0 && AllHex(a.sig.s)
  }

  /** The last key listed for the label. */
  ghost predicate LastKey(keys: seq<ApprovalKey>, device: string, pubkey: string) {
    exists k | 0 <= k < |keys| :: keys[k].device == device && keys[k].pubkey == pubkey
      && forall later | k < later < |keys| :: keys[later].device != device
  }

  ghost predicate Covers(w: World, a: Approval, message: Bytes)
    requires Formed(w, a)
  {
    w.p256(FromHex(a.pubkey.s), message, FromHex(a.sig.s))
  }

  /** An approval is accepted if and only if it is well-formed, its key is the one its label
      has last, and that key signed the message; a refusal names the first that fails. */
  lemma ApprovalStandsIff(w: World, a: Approval, s: Statement, keys: seq<ApprovalKey>)
    ensures var r, message := VerifyApproval(w, a, s, Some(keys)), ApprovalMessage(s);
      && (r == Some(Malformed) <==> !Formed(w, a))
      && (r == None <==> Formed(w, a) && LastKey(keys, a.device.s, a.pubkey.s) && Covers(w, a, message))
      && (r == Some(DoesNotCover) <==> Formed(w, a) && LastKey(keys, a.device.s, a.pubkey.s) && !Covers(w, a, message))
      && (r == Some(NotRegistered) <==> Formed(w, a) && forall k | 0 <= k < |keys| :: keys[k].device != a.device.s)
  {
    hide ApprovalMessage;
    if a.device.Str? {
      PlainIffPrintable(w, a.device.s, 64);
    }
    if a.device.Str? && a.pubkey.Str? {
      KnownIffRegistered(keys, a.device.s, a.pubkey.s);
      KnownIffListed(keys, a.device.s);
      assert Registered(keys, a.device.s, a.pubkey.s) <==> LastKey(keys, a.device.s, a.pubkey.s);
    }
  }

  lemma PlainIffPrintable(w: World, s: string, most: nat)
    ensures PlainStr(w, s, most) <==> Fields.Printable(w, s, most)
  {
    assert forall i | 0 <= i < |s| :: s[i] in s;
  }

  lemma {:induction false} KnownIffListed(keys: seq<ApprovalKey>, device: string)
    ensures device in Known(keys) <==> exists k :: 0 <= k < |keys| && keys[k].device == device
  {
    if keys != [] {
      KnownIffListed(keys[..|keys| - 1], device);
    }
  }

  /******* The chain *******/

  /** By its version's rule. */
  ghost predicate Vetted(w: World, trust: Trust, b: Block) {
    match b
    case V1(index, _, _, _, _, _, _, hash) => index in trust.legacy && trust.legacy[index] == hash
    case V2(_, _, _, _, _, approval, _, _, _) =>
      && Formed(w, approval) && LastKey(trust.approvalKeys, approval.device.s, approval.pubkey.s)
      && Covers(w, approval, ApprovalMessage(StatementOf(b)))
  }

  ghost predicate Linked(w: World, prev: Block, b: Block)
    requires WellFormed(w, prev) && WellFormed(w, b)
  {
    b.prevHash == prev.hash && w.when(b.timestamp).value > w.when(prev.timestamp).value
  }

  /** HEAD is two words: a number, and the hash of the block of that number. */
  ghost predicate HeadSays(w: World, head: HeadFile, n: int, hash: string) {
    exists word :: head == Head([word, hash]) && w.parseInt(word) == Some(n)
  }

  ghost predicate Spelled(w: World, trust: Trust, bs: seq<Block>, head: HeadFile)
    requires AllWellFormed(w, bs)
  {
    && bs != []
    && (forall i | 0 <= i < |bs| ::
          && bs[i].index == i
          && RootStands(w, bs[i]) && HashStands(w, bs[i]) && SignatureStands(w, bs[i])
          && Vetted(w, trust, bs[i])
          && (trust.validator.Some? ==> bs[i].validator == trust.validator.value))
    && (forall i | 0 < i < |bs| :: Linked(w, bs[i - 1], bs[i]))
    && (trust.genesisHash.Some? ==> bs[0].hash == trust.genesisHash.value)
    && (forall i, j | 0 <= i < j < |bs| && bs[i].V2? && bs[j].V2? :: bs[i].nonce != bs[j].nonce)
    && HeadSays(w, head, |bs| - 1, bs[|bs| - 1].hash)
  }

  lemma VettedIff(w: World, trust: Trust, b: Block)
    requires WellFormed(w, b)
    ensures OwnSound(w, trust, b) <==>
      RootStands(w, b) && HashStands(w, b) && SignatureStands(w, b) && Vetted(w, trust, b)
  {
    SelfVerifiesIff(w, b);
    hide RootStands, HashStands, SignatureStands, Formed, LastKey, Covers;
    if b.V2? {
      ApprovalStandsIff(w, b.approval, StatementOf(b), trust.approvalKeys);
      AcceptedIffApproved(w, b.approval, StatementOf(b), trust.approvalKeys);
    }
  }

  lemma HeadIff(w: World, head: HeadFile, last: Block)
    ensures HeadNames(w, head, last) <==> HeadSays(w, head, last.index, last.hash)
  {
    if HeadNames(w, head, last) {
      assert head == Head([head.words[0], last.hash]);
    }
  }

  lemma PlacedIff(w: World, trust: Trust, bs: seq<Block>, i: nat)
    requires AllWellFormed(w, bs) && i < |bs|
    ensures Placed(w, trust, bs, i) <==>
      && bs[i].index == i
      && (trust.validator.Some? ==> bs[i].validator == trust.validator.value)
      && (i == 0 && trust.genesisHash.Some? ==> bs[0].hash == trust.genesisHash.value)
      && (i > 0 ==> Linked(w, bs[i - 1], bs[i]))
  {
  }

  lemma JoinedIff(w: World, trust: Trust, bs: seq<Block>)
    requires AllWellFormed(w, bs) && bs != []
    ensures Joined(w, trust, bs) <==>
      && (forall i | 0 <= i < |bs| ::
            bs[i].index == i && (trust.validator.Some? ==> bs[i].validator == trust.validator.value))
      && (forall i | 0 < i < |bs| :: Linked(w, bs[i - 1], bs[i]))
      && (trust.genesisHash.Some? ==> bs[0].hash == trust.genesisHash.value)
      && (forall i, j | 0 <= i < j < |bs| && bs[i].V2? && bs[j].V2? :: bs[i].nonce != bs[j].nonce)
  {
    hide WellFormed;
    if Joined(w, trust, bs) {
      forall i | 0 <= i < |bs|
        ensures bs[i].index == i && (trust.validator.Some? ==> bs[i].validator == trust.validator.value)
        ensures i > 0 ==> Linked(w, bs[i - 1], bs[i])
      {
        assert Placed(w, trust, bs, i);
        PlacedIff(w, trust, bs, i);
      }
      assert Placed(w, trust, bs, 0);
    } else if NoncesDistinct(bs) {
      var i :| 0 <= i < |bs| && !Placed(w, trust, bs, i);
      PlacedIff(w, trust, bs, i);
    }
  }

  /** VALID LOCALLY if and only if every block file reads and: blocks are numbered from 0;
      each has its own root, hash and validator's signature, is the pinned legacy block or
      signed by the device key its label has last, and is by the pinned validator; each
      names the hash before it and is strictly later; block 0 is the pinned genesis; no v2
      nonce is used twice; and HEAD is the last block's number and hash. */
  lemma LocallyValidIff(w: World, trust: Trust, disk: Disk)
    ensures LocallyValid(w, trust, disk) <==>
      ReadBlocks(w, disk.files).Some? && Spelled(w, trust, ReadBlocks(w, disk.files).value, disk.head)
  {
    hide WellFormed, OwnSound, RootStands, HashStands, SignatureStands, Vetted, Linked, Joined, HeadNames, HeadSays;
    var r := ReadBlocks(w, disk.files);
    if r.Some? && r.value != [] {
      var bs := r.value;
      forall i | 0 <= i < |bs|
        ensures OwnSound(w, trust, bs[i]) <==>
          RootStands(w, bs[i]) && HashStands(w, bs[i]) && SignatureStands(w, bs[i]) && Vetted(w, trust, bs[i])
      {
        VettedIff(w, trust, bs[i]);
      }
      HeadIff(w, disk.head, bs[|bs| - 1]);
      JoinedIff(w, trust, bs);
      assert LocallyValid(w, trust, disk) <==> EachSound(w, trust, bs) && Joined(w, trust, bs) && HeadNames(w, disk.head, bs[|bs| - 1]);
    }
  }
}
