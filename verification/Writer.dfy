/**
 Writing blocks (aikiri_ledger/chain.py, `Ledger`): genesis, and one block for one
 approved request. `history` holds every state of the directory on the way, which is
 where a crash can leave it.
 */
module Writer {
  import opened Wrappers
  import opened Bytes
  import opened Canonical
  import opened Crypto
  import opened Approvals
  import opened Blocks
  import opened Disks
  import Requests
  import Merkle

  const GENESIS_TEXT := "Aikiri Network ~ genesis ~ love, light, logic, legacy"

  /** A validator key: its public half, and how it signs. */
  datatype Signer = Signer(pub: string, sign: Bytes -> Bytes)

  /** A time, as `isoformat` writes it and as it compares. */
  datatype Moment = Moment(text: string, at: int)

  /** What the writer takes for granted: its signatures verify, the times it prints and
      the indices it prints read back. */
  ghost predicate Dependable(w: World, sk: Signer) {
    && IsHex64(sk.pub)
    && (forall m :: sk.sign(m) != [] && w.ed25519(FromHex(sk.pub), m, sk.sign(m)))
    && ReadsDecimals(w)
  }

  ghost predicate ReadsDecimals(w: World) {
    forall n: nat :: w.parseInt(Decimal(n)) == Some(n)
  }

  datatype WriteRefusal = HeadMissing | WrongIndex | WrongPrevHash | Unreadable | NonceUsed
                        | OtherValidator | Unapproved(why: Refusal) | NotAfter | Exists

  /******* What a write makes *******/

  function Sealed(w: World, sk: Signer, b: Block): (s: Block)
    ensures s.index == b.index
  {
    var hash := ComputeHash(w, b);
    b.(hash := hash, signature := Hex(sk.sign(FromHex(hash))))
  }

  function Genesis(w: World, sk: Signer, now: Moment): (b: Block)
    ensures b.index == 0
  {
    Sealed(w, sk, V1(0, now.text, Sha256Hex(w, Utf8(GENESIS_TEXT)), [], Merkle.RootHex(w, []), sk.pub, "", ""))
  }

  function BlockFor(w: World, sk: Signer, r: Requests.Request, now: Moment): (b: Block)
    ensures b.index == r.index
  {
    Sealed(w, sk, V2(r.index, now.text, r.prevHash, r.roots, r.nonce, r.approval, sk.pub, "", ""))
  }

  lemma SealingKeepsBody(w: World, sk: Signer, b: Block)
    ensures var s := Sealed(w, sk, b);
      Body(s) == Body(b) && Preimage(s) == Preimage(b) && s.hash == ComputeHash(w, s)
  {
  }

  lemma SealedIsSigned(w: World, sk: Signer, b: Block)
    requires Dependable(w, sk) && b.validator == sk.pub
    ensures var s := Sealed(w, sk, b);
      && s.hash == ComputeHash(w, s) && IsHex64(s.hash)
      && IsHexStr(s.signature)
      && w.ed25519(FromHex(s.validator), FromHex(s.hash), FromHex(s.signature))
  {
    hide ComputeHash, Preimage;
    SealingKeepsBody(w, sk, b);
    var s := Sealed(w, sk, b);
    HexRoundTrip(sk.sign(FromHex(s.hash)));
  }

  lemma GenesisIsSound(w: World, sk: Signer, now: Moment)
    requires Dependable(w, sk) && w.when(now.text) == Some(now.at)
    ensures var g := Genesis(w, sk, now);
      && WellFormed(w, g) && VerifySelf(w, g).None?
      && g.V1? && g.index == 0 && g.validator == sk.pub
  {
    hide ComputeHash, Preimage, Sha256Hex, Utf8;
    var bare := V1(0, now.text, Sha256Hex(w, Utf8(GENESIS_TEXT)), [], Merkle.RootHex(w, []), sk.pub, "", "");
    SealedIsSigned(w, sk, bare);
    assert Leaves([]) == [];
  }

  /** What the genesis block says: its time, no roots, and in place of a block before it the
      hash of the genesis text. */
  lemma GenesisSays(w: World, sk: Signer, now: Moment)
    ensures var g := Genesis(w, sk, now);
      && g.V1? && g.timestamp == now.text && g.legacyRoots == []
      && g.prevHash == Hex(w.sha(Utf8("Aikiri Network ~ genesis ~ love, light, logic, legacy")))
      && g.merkleRoot == Hex(w.sha([])) && g.hash == Hex(w.sha(Preimage(g)))
  {
    hide Preimage, Utf8;
    SealingKeepsBody(w, sk, V1(0, now.text, Sha256Hex(w, Utf8(GENESIS_TEXT)), [], Merkle.RootHex(w, []), sk.pub, "", ""));
    assert GENESIS_TEXT == "Aikiri Network ~ genesis ~ love, light, logic, legacy";
  }

  lemma WrittenIsSound(w: World, sk: Signer, r: Requests.Request, now: Moment)
    requires Dependable(w, sk) && w.when(now.text) == Some(now.at) && Requests.WellFormed(w, r)
    ensures var b := BlockFor(w, sk, r, now);
      WellFormed(w, b) && VerifySelf(w, b).None? && b.V2?
      && b.index == r.index && b.prevHash == r.prevHash && b.nonce == r.nonce && b.approval == r.approval
      && b.validator == sk.pub && b.timestamp == now.text && b.roots == r.roots
      && (r.validator == sk.pub ==> StatementOf(b) == Requests.StatementOf(r))
  {
    hide ComputeHash, Preimage, RootOk;
    SealedIsSigned(w, sk, V2(r.index, now.text, r.prevHash, r.roots, r.nonce, r.approval, sk.pub, "", ""));
  }

  /******* What the writer reads first *******/

  /** `head`: only the first word of HEAD is looked at. */
  function HeadOf(w: World, disk: Disk): (r: Option<Block>)
    ensures r.Some? ==> WellFormed(w, r.value)
  {
    if !disk.head.Head? || disk.head.words == [] then None
    else
      var index := w.parseInt(disk.head.words[0]);
      if index.None? || index.value < 0 || index.value !in disk.files then None
      else ReadFile(w, disk.files[index.value])
  }

  /** The head is the block in the file that HEAD's first word numbers. */
  lemma HeadOfIff(w: World, disk: Disk, b: Block)
    ensures HeadOf(w, disk) == Some(b) <==>
      exists n: nat ::
        && n in disk.files && disk.files[n] == Shaped(b) && WellFormed(w, b)
        && disk.head.Head? && disk.head.words != [] && w.parseInt(disk.head.words[0]) == Some(n)
  {
    hide WellFormed;
    if HeadOf(w, disk) == Some(b) {
      var n: nat := w.parseInt(disk.head.words[0]).value;
      assert n in disk.files;
    }
  }

  /** `nonces`. */
  function Nonces(bs: seq<Block>): (nonces: set<string>)
    ensures forall n :: n in nonces <==> exists i :: 0 <= i < |bs| && bs[i].V2? && bs[i].nonce == n
  {
    set i | 0 <= i < |bs| && bs[i].V2? :: bs[i].nonce
  }

  function TimeOf(w: World, b: Block): (t: int)
    requires WellFormed(w, b)
  {
    w.when(b.timestamp).value
  }

  predicate Consumable(w: World, disk: Disk, r: Requests.Request) {
    var head := HeadOf(w, disk);
    var bs := ReadBlocks(w, disk.files);
    && head.Some? && r.index == head.value.index + 1 && r.prevHash == head.value.hash
    && bs.Some? && r.nonce !in Nonces(bs.value)
  }

  /** Everything about a request but whether its file is free. */
  predicate Approvable(w: World, disk: Disk, r: Requests.Request, sk: Signer, now: Moment, registered: Option<seq<ApprovalKey>>) {
    && Consumable(w, disk, r)
    && r.validator == sk.pub
    && Requests.Verify(w, r, registered).None?
    && now.at > TimeOf(w, HeadOf(w, disk).value)
  }

  /** A request is taken exactly when: it is for the block after HEAD's, it names HEAD's
      hash, its nonce was never used, it names this validator, a device that counts
      approved it, the time has moved on, and no file is in the way. */
  predicate Accepts(w: World, disk: Disk, r: Requests.Request, sk: Signer, now: Moment, registered: Option<seq<ApprovalKey>>) {
    Approvable(w, disk, r, sk, now, registered) && (r.index < 0 || r.index !in disk.files)
  }

  /** The first thing in the way of consuming a request. */
  predicate ConsumeFails(w: World, disk: Disk, r: Requests.Request, why: WriteRefusal) {
    var head := HeadOf(w, disk);
    if head.None? then why == HeadMissing
    else if r.index != head.value.index + 1 then why == WrongIndex
    else if r.prevHash != head.value.hash then why == WrongPrevHash
    else
      var bs := ReadBlocks(w, disk.files);
      if bs.None? then why == Unreadable else r.nonce in Nonces(bs.value) && why == NonceUsed
  }

  /** A refusal names the first thing wrong, in the order the checks are made. */
  predicate Justified(w: World, disk: Disk, r: Requests.Request, sk: Signer, now: Moment,
                      registered: Option<seq<ApprovalKey>>, why: WriteRefusal) {
    if !Consumable(w, disk, r) then ConsumeFails(w, disk, r, why)
    else if r.validator != sk.pub then why == OtherValidator
    else
      var unapproved := Requests.Verify(w, r, registered);
      if unapproved.Some? then why == Unapproved(unapproved.value)
      else if now.at <= TimeOf(w, HeadOf(w, disk).value) then why == NotAfter
      else r.index in disk.files && why == Exists
  }

  /** What HEAD is to hold: the index, a space, the hash, a newline. */
  function HeadText(b: Block): (text: string) {
    PrintInt(b.index) + " " + b.hash + "\n"
  }

  /** HEAD with the first `k` characters of that. */
  function HeadCut(b: Block, k: nat): (h: HeadFile)
    requires k <= |HeadText(b)|
  {
    Head(Words(HeadText(b)[..k]))
  }

  function HeadFor(b: Block): (h: HeadFile) {
    Head(Words(HeadText(b)))
  }

  /** The directory with block `b` written, and HEAD not yet touched. */
  function BlockWritten(disk: Disk, b: Block): (d: Disk)
    requires b.index >= 0
  {
    disk.(files := disk.files[b.index := Shaped(b)])
  }

  function Appended(disk: Disk, b: Block): (d: Disk)
    requires b.index >= 0
  {
    BlockWritten(disk, b).(head := HeadFor(b))
  }

  /** The directory as HEAD is written, from empty to whole: a crash can leave any. */
  function HeadStates(files: map<nat, BlockFile>, text: string): (ds: seq<Disk>)
    ensures |ds| == |text| + 1
    ensures forall k | 0 <= k <= |text| :: ds[k] == Disk(files, Head(Words(text[..k])))
  {
    seq(|text| + 1, k requires 0 <= k <= |text| => Disk(files, Head(Words(text[..k]))))
  }

  function HeadsWritten(disk: Disk, b: Block): (ds: seq<Disk>)
    requires b.index >= 0
    ensures |ds| == |HeadText(b)| + 1
    ensures forall k | 0 <= k <= |HeadText(b)| :: ds[k] == BlockWritten(disk, b).(head := HeadCut(b, k))
  {
    HeadStates(BlockWritten(disk, b).files, HeadText(b))
  }

  /** No block file that was there has changed. */
  ghost predicate Keeps(before: Disk, after: Disk) {
    forall i | i in before.files :: i in after.files && after.files[i] == before.files[i]
  }

  /******* The ledger *******/

  class Ledger {
    const w: World
    var files: map<nat, BlockFile>
    var head: HeadFile
    ghost var history: seq<Disk>

    function OnDisk(): (d: Disk)
      reads this
    {
      Disk(files, head)
    }

    constructor (w: World, disk: Disk)
      ensures this.w == w && OnDisk() == disk && history == []
    {
      this.w, files, head, history := w, disk.files, disk.head, [];
    }

    /** `write_text` on HEAD: it is emptied, and then filled. */
    method WriteHead(text: string)
      modifies this`head, this`history
      ensures head == Head(Words(text))
      ensures history == old(history) + HeadStates(files, text)
    {
      hide Words;
      for k := 0 to |text| + 1
        invariant k > 0 ==> head == Head(Words(text[..k - 1]))
        invariant history == old(history) + HeadStates(files, text)[..k]
      {
        head := Head(Words(text[..k]));
        history := history + [OnDisk()];
      }
      assert text[..|text|] == text;
    }

    /** `_append`: the block file whole, in one step; then HEAD, so that a crash leaves
        any beginning of it. */
    method Append(b: Block) returns (ok: bool)
      requires b.index >= 0
      modifies this
      ensures ok <==> b.index !in old(files)
      ensures OnDisk() == if ok then Appended(old(OnDisk()), b) else old(OnDisk())
      ensures history == old(history) +
                if !ok then [] else [BlockWritten(old(OnDisk()), b)] + HeadsWritten(old(OnDisk()), b)
      ensures forall k | |old(history)| <= k < |history| :: Keeps(old(OnDisk()), history[k])
    {
      hide Words;
      if b.index in files {
        return false;
      }
      files := files[b.index := Shaped(b)];
      history := history + [OnDisk()];
      WriteHead(HeadText(b));
      return true;
    }

    /** `init`. */
    method Init(sk: Signer, now: Moment) returns (r: Result<Block, WriteRefusal>)
      modifies this
      ensures r.Ok? <==> 0 !in old(files)
      ensures r.Ok? ==> r.value == Genesis(w, sk, now) && OnDisk() == Appended(old(OnDisk()), r.value)
      ensures r.Err? ==> OnDisk() == old(OnDisk()) && history == old(history)
    {
      hide Genesis;
      if 0 in files {
        return Err(Exists);
      }
      var g := Genesis(w, sk, now);
      var ok := Append(g);
      return Ok(g);
    }

    /** `consume`. */
    method Consume(r: Requests.Request) returns (res: Result<Block, WriteRefusal>)
      ensures res.Ok? <==> Consumable(w, OnDisk(), r)
      ensures res.Ok? ==> HeadOf(w, OnDisk()) == Some(res.value)
      ensures res.Err? ==> ConsumeFails(w, OnDisk(), r, res.error)
    {
      var h := HeadOf(w, OnDisk());
      if h.None? {
        return Err(HeadMissing);
      }
      if r.index != h.value.index + 1 {
        return Err(WrongIndex);
      }
      if r.prevHash != h.value.hash {
        return Err(WrongPrevHash);
      }
      var bs, _ := LoadBlocks(w, files);
      if bs.None? {
        return Err(Unreadable);
      }
      if r.nonce in Nonces(bs.value) {
        return Err(NonceUsed);
      }
      return Ok(h.value);
    }

    /** The checks of `append_from_request`, in its order. */
    method Check(r: Requests.Request, sk: Signer, now: Moment, registered: Option<seq<ApprovalKey>>)
        returns (refusal: Option<WriteRefusal>)
      ensures refusal.None? <==> Approvable(w, OnDisk(), r, sk, now, registered)
      ensures refusal.Some? ==> Justified(w, OnDisk(), r, sk, now, registered, refusal.value)
    {
      var consumed := Consume(r);
      if consumed.Err? {
        return Some(consumed.error);
      }
      if r.validator != sk.pub {
        return Some(OtherValidator);
      }
      var unapproved := Requests.Verify(w, r, registered);
      if unapproved.Some? {
        return Some(Unapproved(unapproved.value));
      }
      if now.at <= TimeOf(w, consumed.value) {
        return Some(NotAfter);
      }
      return None;
    }

    /** `append_from_request`: either every check holds and exactly one block is added,
        or nothing changes. On the way no block file that was there changes. */
    method AppendFromRequest(r: Requests.Request, sk: Signer, now: Moment, registered: Option<seq<ApprovalKey>>)
        returns (res: Result<Block, WriteRefusal>)
      requires Requests.WellFormed(w, r)
      modifies this
      ensures res.Ok? <==> Accepts(w, old(OnDisk()), r, sk, now, registered)
      ensures res.Ok? ==> res.value == BlockFor(w, sk, r, now) && OnDisk() == Appended(old(OnDisk()), res.value)
      ensures res.Err? ==> OnDisk() == old(OnDisk()) && history == old(history)
      ensures res.Err? ==> Justified(w, OnDisk(), r, sk, now, registered, res.error)
      ensures old(history) <= history
      ensures forall k | |old(history)| <= k < |history| :: Keeps(old(OnDisk()), history[k])
    {
      assert r.index >= 1;
      hide BlockFor, Requests.WellFormed, Keeps, Consumable, Requests.Verify, ConsumeFails, HeadOf;
      var refusal := Check(r, sk, now, registered);
      if refusal.Some? {
        return Err(refusal.value);
      }
      var b := BlockFor(w, sk, r, now);
      var ok := Append(b);
      return if ok then Ok(b) else Err(Exists);
    }
  }
}
