/**
 The witness contract on Base (contracts/AikiriLedger.sol): a sequential,
 write-once record of block hashes.
 */
module Contract {
  import opened Wrappers

  type Address = string
  type Bytes32 = string  // 64 hex digits

  function Zeros(n: nat): (s: string)
    ensures |s| == n && forall i | 0 <= i < n :: s[i] == '0'
  {
    if n == 0 then "" else "0" + Zeros(n - 1)
  }

  const ZERO32: Bytes32 := Zeros(64)
  const ZERO_ADDRESS: Address := "0x0000000000000000000000000000000000000000"
  const UINT256_MAX: nat := 0xffff_ffff_ffff_ffff_ffff_ffff_ffff_ffff_ffff_ffff_ffff_ffff_ffff_ffff_ffff_ffff
  const UINT64_SIZE: nat := 0x1_0000_0000_0000_0000

  datatype Entry = Entry(blockHash: Bytes32, anchoredAt: nat, account: Address)

  /** Contract storage. `anchors` holds the slots that were written; the rest read as zero. */
  datatype Storage = Storage(owner: Address, genesisHash: Bytes32, latestIndex: nat, anchors: map<nat, Entry>)

  datatype Revert = NotOwner | AlreadyAnchored(index: nat) | NotSequential(expected: nat, got: nat) | ZeroHash | Panic

  function Slot(s: Storage, index: nat): (a: Entry) {
    if index in s.anchors then s.anchors[index] else Entry(ZERO32, 0, ZERO_ADDRESS)
  }

  /** `matches`. */
  predicate Matches(s: Storage, index: nat, blockHash: Bytes32) {
    Slot(s, index).blockHash == blockHash && blockHash != ZERO32
  }

  /** What storage always is: exactly blocks 0 to `latestIndex`, none of them zero. */
  ghost predicate Valid(s: Storage) {
    && (forall i: nat :: i in s.anchors <==> i <= s.latestIndex)
    && (forall i: nat | i in s.anchors :: s.anchors[i].blockHash != ZERO32)
    && s.anchors[0].blockHash == s.genesisHash
  }

  /** Storage as the constructor leaves it: block 0 is anchored. */
  function Deployed(sender: Address, now: nat, genesisHash: Bytes32): (s: Storage) {
    Storage(sender, genesisHash, 0, map[0 := Entry(genesisHash, now % UINT64_SIZE, sender)])
  }

  /** The whole effect of a call to `anchor`. */
  function AnchorCall(s: Storage, sender: Address, now: nat, index: nat, blockHash: Bytes32): (r: Result<Storage, Revert>)
  {
    if sender != s.owner then Err(NotOwner)
    else if blockHash == ZERO32 then Err(ZeroHash)
    else if Slot(s, index).blockHash != ZERO32 then Err(AlreadyAnchored(index))
    else if s.latestIndex >= UINT256_MAX then Err(Panic)
    else if index != s.latestIndex + 1 then Err(NotSequential(s.latestIndex + 1, index))
    else Ok(s.(latestIndex := index, anchors := s.anchors[index := Entry(blockHash, now % UINT64_SIZE, sender)]))
  }

  function TransferCall(s: Storage, sender: Address, newOwner: Address): (r: Result<Storage, Revert>) {
    if sender != s.owner then Err(NotOwner) else Ok(s.(owner := newOwner))
  }

  class AikiriLedger {
    var owner: Address
    var genesisHash: Bytes32
    var latestIndex: nat
    var anchors: map<nat, Entry>

    ghost function State(): (s: Storage)
      reads this
    {
      Storage(owner, genesisHash, latestIndex, anchors)
    }

    constructor (sender: Address, now: nat, genesisHash: Bytes32)
      requires genesisHash != ZERO32  // the deployment reverts otherwise
      ensures Valid(State())
      ensures State() == Deployed(sender, now, genesisHash)
    {
      this.owner := sender;
      this.genesisHash := genesisHash;
      this.anchors := map[0 := Entry(genesisHash, now % UINT64_SIZE, sender)];
      this.latestIndex := 0;
    }

    /** Deployment, which reverts on a zero genesis hash. */
    static method Deploy(sender: Address, now: nat, genesisHash: Bytes32) returns (r: Result<AikiriLedger, Revert>)
      ensures r.Ok? <==> genesisHash != ZERO32
      ensures r.Err? ==> r.error == ZeroHash
      ensures r.Ok? ==> fresh(r.value) && Valid(r.value.State())
      ensures r.Ok? ==> r.value.State() == Deployed(sender, now, genesisHash)
    {
      if genesisHash == ZERO32 {
        return Err(ZeroHash);
      }
      var c := new AikiriLedger(sender, now, genesisHash);
      return Ok(c);
    }

    /** Either the next block is recorded and nothing else changes, or nothing does. */
    method Anchor(sender: Address, now: nat, index: nat, blockHash: Bytes32) returns (r: Option<Revert>)
      requires Valid(State())
      modifies this
      ensures Valid(State())
      ensures r.None? <==> sender == old(owner) && blockHash != ZERO32
                           && index == old(latestIndex) + 1 && old(latestIndex) < UINT256_MAX
      ensures match AnchorCall(old(State()), sender, now, index, blockHash)
        case Ok(s) => r.None? && State() == s
        case Err(e) => r == Some(e) && State() == old(State())
    {
      if sender != owner {
        return Some(NotOwner);
      }
      if blockHash == ZERO32 {
        return Some(ZeroHash);
      }
      if index in anchors && anchors[index].blockHash != ZERO32 {
        return Some(AlreadyAnchored(index));
      }
      if latestIndex >= UINT256_MAX {
        return Some(Panic);
      }
      if index != latestIndex + 1 {
        return Some(NotSequential(latestIndex + 1, index));
      }
      anchors := anchors[index := Entry(blockHash, now % UINT64_SIZE, sender)];
      latestIndex := index;
      return None;
    }

    method TransferOwnership(sender: Address, newOwner: Address) returns (r: Option<Revert>)
      modifies this
      ensures match TransferCall(old(State()), sender, newOwner)
        case Ok(s) => r.None? && State() == s
        case Err(e) => r == Some(e) && State() == old(State())
    {
      if sender != owner {
        return Some(NotOwner);
      }
      owner := newOwner;
      return None;
    }
  }

  /******* Over any run of calls, by anyone *******/

  datatype Call =
    | Anchoring(sender: Address, now: nat, index: nat, blockHash: Bytes32)
    | Transferring(sender: Address, newOwner: Address)

  function Apply(s: Storage, call: Call): (t: Storage) {
    var r := match call
      case Anchoring(sender, now, index, blockHash) => AnchorCall(s, sender, now, index, blockHash)
      case Transferring(sender, newOwner) => TransferCall(s, sender, newOwner);
    if r.Ok? then r.value else s
  }

  function Run(s: Storage, calls: seq<Call>): (t: Storage)
    decreases |calls|
  {
    if calls == [] then s else Run(Apply(s, calls[0]), calls[1..])
  }

  lemma StepKeeps(s: Storage, call: Call)
    requires Valid(s)
    ensures var t := Apply(s, call);
      && Valid(t) && s.latestIndex <= t.latestIndex && t.genesisHash == s.genesisHash
      && forall i: nat | i <= s.latestIndex :: i in t.anchors && t.anchors[i] == s.anchors[i]
  {
  }

  /** Write-once: what was anchored stays, whole, whoever calls whatever afterwards. */
  lemma {:induction false} NothingIsReanchored(s: Storage, calls: seq<Call>)
    requires Valid(s)
    ensures var t := Run(s, calls);
      && Valid(t) && s.latestIndex <= t.latestIndex && t.genesisHash == s.genesisHash
      && forall i: nat | i <= s.latestIndex :: i in t.anchors && t.anchors[i] == s.anchors[i]
    decreases |calls|
  {
    if calls != [] {
      StepKeeps(s, calls[0]);
      NothingIsReanchored(Apply(s, calls[0]), calls[1..]);
    }
  }
}
