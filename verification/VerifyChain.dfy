/**
 The local half of verification (aikiri_ledger/verify.py, `verify_chain`): what a
 ledger directory must be on its own, and the loop that decides it.
 */
module VerifyChain {
  import opened Wrappers
  import opened Crypto
  import opened Approvals
  import opened Blocks
  import opened Disks

  datatype Source = Repo | ExternalUnsigned | ExternalSigned

  /** The expectations a verifier is given (aikiri_ledger/trust.py). */
  datatype Trust = Trust(
    chainId: int,
    contract: Option<string>,
    owner: Option<string>,
    codeKeccak: Option<string>,
    genesisHash: Option<string>,
    validator: Option<string>,
    approvalKeys: seq<ApprovalKey>,
    legacy: map<int, string>,
    source: Source)

  datatype State = Invalid | ValidLocally | BaseVerified | FullyVerified
  {
    function Rank(): nat {
      match this
      case Invalid => 0
      case ValidLocally => 1
      case BaseVerified => 2
      case FullyVerified => 3
    }
  }

  datatype Problem =
    | NotItself(why: SelfProblem)
    | LegacyUnpinned
    | LegacyHashDiffers
    | NoApprovalKeys
    | NotApproved(refusal: Refusal)
    | NonceReused(from: int)
    | WrongValidator
    | NotFromZero
    | IndexGap
    | PrevHashDiffers
    | NotAfter
    | WrongGenesis

  datatype Line = UnreadableBlock | NoBlocks | Fault(index: int, problem: Problem) | Sound(index: int)
                | HeadDiffers | HeadUnreadable

  /******* What one block gets wrong *******/

  /** Its own contents, and its version's rule: the pinned hash, or the approval. */
  function OwnProblems(w: World, trust: Trust, b: Block): (ps: seq<Problem>)
    requires WellFormed(w, b)
  {
    var self := VerifySelf(w, b);
    (if self.Some? then [NotItself(self.value)] else []) +
    if b.V1? then
      if b.index !in trust.legacy then [LegacyUnpinned]
      else if trust.legacy[b.index] != b.hash then [LegacyHashDiffers]
      else []
    else if trust.approvalKeys == [] then [NoApprovalKeys]
    else
      var refusal := VerifyApproval(w, b.approval, StatementOf(b), Some(trust.approvalKeys));
      if refusal.Some? then [NotApproved(refusal.value)] else []
  }

  /** The check of a block by itself, as the loop calls it. */
  type OwnCheck = Block --> seq<Problem>

  function Own(w: World, trust: Trust): (own: OwnCheck) {
    b requires WellFormed(w, b) => OwnProblems(w, trust, b)
  }

  ghost predicate Covers(own: OwnCheck, bs: seq<Block>) {
    forall i | 0 <= i < |bs| :: own.requires(bs[i])
  }

  ghost predicate EachClean(own: OwnCheck, bs: seq<Block>)
    requires Covers(own, bs)
  {
    forall i | 0 <= i < |bs| :: own(bs[i]) == []
  }

  /** The nonces of the v2 blocks before block `k`, each with the block that used it first. */
  function Seen(bs: seq<Block>, k: nat): (seen: map<string, int>)
    requires k <= |bs|
  {
    if k == 0 then map[]
    else
      var before, b := Seen(bs, k - 1), bs[k - 1];
      if b.V2? && b.nonce !in before then before[b.nonce := b.index] else before
  }

  function NonceProblems(seen: map<string, int>, b: Block): (ps: seq<Problem>) {
    if b.V2? && b.nonce in seen then [NonceReused(seen[b.nonce])] else []
  }

  /** Strictly later, by times that both read. */
  predicate Later(w: World, b: Block, prev: Block) {
    var t, s := w.when(b.timestamp), w.when(prev.timestamp);
    t.Some? && s.Some? && s.value < t.value
  }

  function LinkProblems(w: World, prev: Option<Block>, b: Block): (ps: seq<Problem>) {
    if prev.None? then if b.index != 0 then [NotFromZero] else []
    else
      (if b.index != prev.value.index + 1 then [IndexGap] else []) +
      (if b.prevHash != prev.value.hash then [PrevHashDiffers] else []) +
      (if !Later(w, b, prev.value) then [NotAfter] else [])
  }

  function PinProblems(trust: Trust, b: Block): (ps: seq<Problem>) {
    if trust.validator.Some? && b.validator != trust.validator.value then [WrongValidator] else []
  }

  function GenesisProblems(trust: Trust, b: Block): (ps: seq<Problem>) {
    if trust.genesisHash.Some? && b.index == 0 && b.hash != trust.genesisHash.value then [WrongGenesis] else []
  }

  function Problems(own: OwnCheck, w: World, trust: Trust, bs: seq<Block>, i: nat): (ps: seq<Problem>)
    requires i < |bs| && Covers(own, bs)
  {
    var b := bs[i];
    own(b) + NonceProblems(Seen(bs, i), b) + PinProblems(trust, b)
    + LinkProblems(w, if i == 0 then None else Some(bs[i - 1]), b) + GenesisProblems(trust, b)
  }

  /** Every problem of a block is a line; a block without one gets a line saying so. */
  function BlockLines(index: int, ps: seq<Problem>): (lines: seq<Line>)
    ensures ps == [] ==> lines == [Sound(index)]
    ensures ps != [] ==> |lines| == |ps| && forall k | 0 <= k < |ps| :: lines[k] == Fault(index, ps[k])
  {
    if ps == [] then [Sound(index)] else seq(|ps|, k requires 0 <= k < |ps| => Fault(index, ps[k]))
  }

  function ChainLines(own: OwnCheck, w: World, trust: Trust, bs: seq<Block>, k: nat): (lines: seq<Line>)
    requires k <= |bs| && Covers(own, bs)
  {
    if k == 0 then []
    else ChainLines(own, w, trust, bs, k - 1) + BlockLines(bs[k - 1].index, Problems(own, w, trust, bs, k - 1))
  }

  /** The sum of the first `k` values of a count. */
  ghost function Sum(count: nat --> nat, k: nat): (n: nat)
    requires forall i | 0 <= i < k :: count.requires(i)
  {
    if k == 0 then 0 else Sum(count, k - 1) + count(k - 1)
  }

  /** How many problems each block has. */
  ghost function Counts(own: OwnCheck, w: World, trust: Trust, bs: seq<Block>): (count: nat --> nat)
    requires Covers(own, bs)
    ensures forall i: nat | i < |bs| :: count.requires(i)
  {
    (i: nat) requires i < |bs| => |Problems(own, w, trust, bs, i)|
  }

  /** `head_idx, head_hash = HEAD.split()`, and `int(head_idx)`. */
  predicate HeadReads(w: World, head: HeadFile) {
    head.Head? && |head.words| == 2 && w.parseInt(head.words[0]).Some?
  }

  predicate HeadNames(w: World, head: HeadFile, last: Block) {
    HeadReads(w, head) && w.parseInt(head.words[0]).value == last.index && head.words[1] == last.hash
  }

  function HeadLines(w: World, head: HeadFile, last: Block): (lines: seq<Line>) {
    if !HeadReads(w, head) then [HeadUnreadable]
    else if !HeadNames(w, head, last) then [HeadDiffers]
    else []
  }

  /******* What a sound chain is *******/

  ghost predicate OwnSound(w: World, trust: Trust, b: Block)
    requires WellFormed(w, b)
  {
    && VerifySelf(w, b).None?
    && (b.V1? ==> b.index in trust.legacy && trust.legacy[b.index] == b.hash)
    && (b.V2? ==> Approved(w, b.approval, StatementOf(b), trust.approvalKeys))
  }

  /** Block `i` sits in its place: numbered, pinned, and joined to the one before it. */
  predicate Placed(w: World, trust: Trust, bs: seq<Block>, i: nat)
    requires i < |bs|
  {
    var b := bs[i];
    && b.index == i
    && (trust.validator.Some? ==> b.validator == trust.validator.value)
    && (i == 0 && trust.genesisHash.Some? ==> b.hash == trust.genesisHash.value)
    && (i > 0 ==> b.prevHash == bs[i - 1].hash && Later(w, b, bs[i - 1]))
  }

  ghost predicate NoncesDistinct(bs: seq<Block>) {
    forall i, j | 0 <= i < j < |bs| && bs[i].V2? && bs[j].V2? :: bs[i].nonce != bs[j].nonce
  }

  ghost predicate Joined(w: World, trust: Trust, bs: seq<Block>) {
    (forall i | 0 <= i < |bs| :: Placed(w, trust, bs, i)) && NoncesDistinct(bs)
  }

  ghost predicate EachSound(w: World, trust: Trust, bs: seq<Block>)
    requires AllWellFormed(w, bs)
  {
    forall i | 0 <= i < |bs| :: OwnSound(w, trust, bs[i])
  }

  ghost predicate ChainSound(w: World, trust: Trust, bs: seq<Block>)
    requires AllWellFormed(w, bs)
  {
    && bs != []
    && EachSound(w, trust, bs)
    && Joined(w, trust, bs)
  }

  /** VALID LOCALLY, said outright. */
  ghost predicate LocallyValid(w: World, trust: Trust, disk: Disk) {
    var bs := ReadBlocks(w, disk.files);
    && bs.Some?
    && ChainSound(w, trust, bs.value)
    && HeadNames(w, disk.head, bs.value[|bs.value| - 1])
  }

  /******* The two say the same *******/

  lemma {:induction false} SeenIffUsed(bs: seq<Block>, k: nat, nonce: string)
    requires k <= |bs|
    ensures nonce in Seen(bs, k) <==> exists j | 0 <= j < k :: bs[j].V2? && bs[j].nonce == nonce
  {
    if k > 0 {
      SeenIffUsed(bs, k - 1, nonce);
    }
  }

  /** What the loop asks of block `i`, each check in turn. */
  ghost predicate Unfaulted(own: OwnCheck, w: World, trust: Trust, bs: seq<Block>, i: nat)
    requires i < |bs| && Covers(own, bs)
  {
    var b := bs[i];
    && own(b) == []
    && !(b.V2? && b.nonce in Seen(bs, i))
    && (trust.validator.Some? ==> b.validator == trust.validator.value)
    && (if i == 0 then b.index == 0
        else b.index == bs[i - 1].index + 1 && b.prevHash == bs[i - 1].hash && Later(w, b, bs[i - 1]))
    && (trust.genesisHash.Some? && b.index == 0 ==> b.hash == trust.genesisHash.value)
  }

  lemma CountZero(own: OwnCheck, w: World, trust: Trust, bs: seq<Block>, i: nat)
    requires i < |bs| && Covers(own, bs)
    ensures Counts(own, w, trust, bs)(i) == 0 <==> Unfaulted(own, w, trust, bs, i)
  {
  }

  lemma {:induction false} IndexIsPlace(own: OwnCheck, w: World, trust: Trust, bs: seq<Block>, i: nat)
    requires Covers(own, bs) && i < |bs|
    requires forall k | 0 <= k < |bs| :: Unfaulted(own, w, trust, bs, k)
    ensures bs[i].index == i
  {
    assert Unfaulted(own, w, trust, bs, i);
    if i > 0 {
      IndexIsPlace(own, w, trust, bs, i - 1);
    }
  }

  lemma EachIffSound(w: World, trust: Trust, own: OwnCheck, bs: seq<Block>)
    requires AllWellFormed(w, bs) && own == Own(w, trust)
    ensures Covers(own, bs) && (EachClean(own, bs) <==> EachSound(w, trust, bs))
  {
    if EachClean(own, bs) {
      forall i | 0 <= i < |bs| ensures OwnSound(w, trust, bs[i]) {
        OwnIffSound(w, trust, bs[i]);
      }
    }
    if EachSound(w, trust, bs) {
      forall i | 0 <= i < |bs| ensures own(bs[i]) == [] {
        OwnIffSound(w, trust, bs[i]);
      }
    }
  }

  /** No block is faulted exactly when each is right by itself and they join up. */
  lemma UnfaultedIffJoined(own: OwnCheck, w: World, trust: Trust, bs: seq<Block>)
    requires Covers(own, bs)
    ensures (forall i | 0 <= i < |bs| :: Unfaulted(own, w, trust, bs, i))
       <==> EachClean(own, bs) && Joined(w, trust, bs)
  {
    if forall i | 0 <= i < |bs| :: Unfaulted(own, w, trust, bs, i) {
      forall i | 0 <= i < |bs| ensures own(bs[i]) == [] && Placed(w, trust, bs, i) {
        IndexIsPlace(own, w, trust, bs, i);
        assert Unfaulted(own, w, trust, bs, i);
      }
      forall i, j | 0 <= i < j < |bs| && bs[i].V2? && bs[j].V2? ensures bs[i].nonce != bs[j].nonce {
        assert Unfaulted(own, w, trust, bs, j);
        SeenIffUsed(bs, j, bs[j].nonce);
      }
    }
    if EachClean(own, bs) && Joined(w, trust, bs) {
      forall i | 0 <= i < |bs| ensures Unfaulted(own, w, trust, bs, i) {
        assert Placed(w, trust, bs, i) && (i > 0 ==> Placed(w, trust, bs, i - 1));
        if bs[i].V2? {
          SeenIffUsed(bs, i, bs[i].nonce);
        }
      }
    }
  }

  lemma {:induction false} SumZero(count: nat --> nat, k: nat)
    requires forall i | 0 <= i < k :: count.requires(i)
    ensures Sum(count, k) == 0 <==> forall i | 0 <= i < k :: count(i) == 0
  {
    if k > 0 {
      SumZero(count, k - 1);
    }
  }

  lemma OwnIffSound(w: World, trust: Trust, b: Block)
    requires WellFormed(w, b)
    ensures Own(w, trust)(b) == [] <==> OwnSound(w, trust, b)
  {
    if b.V2? {
      AcceptedIffApproved(w, b.approval, StatementOf(b), trust.approvalKeys);
    }
  }

  lemma NoFailuresIffJoined(own: OwnCheck, w: World, trust: Trust, bs: seq<Block>)
    requires Covers(own, bs)
    ensures Sum(Counts(own, w, trust, bs), |bs|) == 0
       <==> EachClean(own, bs) && Joined(w, trust, bs)
  {
    var counts := Counts(own, w, trust, bs);
    SumZero(counts, |bs|);
    UnfaultedIffJoined(own, w, trust, bs);
    forall i | 0 <= i < |bs| ensures counts(i) == 0 <==> Unfaulted(own, w, trust, bs, i) {
      CountZero(own, w, trust, bs, i);
    }
  }

  /******* What a report's lines mean *******/

  /** Block `j` is the first v2 block before `k` with this nonce. */
  predicate FirstUse(bs: seq<Block>, j: nat, k: nat, nonce: string) {
    && j < k <= |bs| && bs[j].V2? && bs[j].nonce == nonce
    && forall i | 0 <= i < j :: !(bs[i].V2? && bs[i].nonce == nonce)
  }

  /** The first v2 block before `k` with this nonce says it is block `from`. */
  ghost predicate FirstUsedBy(bs: seq<Block>, k: nat, nonce: string, from: int) {
    exists j: nat :: FirstUse(bs, j, k, nonce) && bs[j].index == from
  }

  /** The table names, for each nonce, the block that used it first. */
  lemma {:induction false} SeenIsFirstUse(bs: seq<Block>, k: nat, nonce: string, from: int)
    requires k <= |bs|
    ensures nonce in Seen(bs, k) && Seen(bs, k)[nonce] == from
       <==> FirstUsedBy(bs, k, nonce, from)
  {
    if k > 0 {
      SeenIsFirstUse(bs, k - 1, nonce, from);
      SeenIffUsed(bs, k - 1, nonce);
      forall j: nat ensures FirstUse(bs, j, k, nonce) <==>
        FirstUse(bs, j, k - 1, nonce) || (j == k - 1 && nonce !in Seen(bs, k - 1) && bs[j].V2? && bs[j].nonce == nonce)
      {
      }
      if bs[k - 1].V2? && bs[k - 1].nonce == nonce && nonce !in Seen(bs, k - 1) {
        assert FirstUse(bs, k - 1, k, nonce);
      }
    }
  }

  /** For every nonce, the first v2 block before `k` that has it. */
  ghost predicate NamesFirst(seen: map<string, int>, bs: seq<Block>, k: nat) {
    forall n, from :: FirstUsedBy(bs, k, n, from) <==> n in seen && seen[n] == from
  }

  lemma SeenNamesFirst(bs: seq<Block>, k: nat)
    requires k <= |bs|
    ensures NamesFirst(Seen(bs, k), bs, k)
  {
    hide FirstUsedBy, Seen;
    forall n, from ensures FirstUsedBy(bs, k, n, from) <==> n in Seen(bs, k) && Seen(bs, k)[n] == from {
      SeenIsFirstUse(bs, k, n, from);
    }
  }

  /** A block has this fault by itself. */
  predicate OwnFault(w: World, trust: Trust, b: Block, p: Problem)
    requires WellFormed(w, b)
  {
    match p
    case NotItself(why) => VerifySelf(w, b) == Some(why)
    case LegacyUnpinned => b.V1? && b.index !in trust.legacy
    case LegacyHashDiffers => b.V1? && b.index in trust.legacy && trust.legacy[b.index] != b.hash
    case NoApprovalKeys => b.V2? && trust.approvalKeys == []
    case NotApproved(refusal) =>
      && b.V2? && trust.approvalKeys != []
      && VerifyApproval(w, b.approval, StatementOf(b), Some(trust.approvalKeys)) == Some(refusal)
    case _ => false
  }

  /** Block `i` has this fault where it stands: against the pins, the blocks before it,
      and the one it follows. */
  ghost predicate PlaceFault(w: World, trust: Trust, bs: seq<Block>, i: nat, p: Problem)
    requires i < |bs|
  {
    var b := bs[i];
    match p
    case NonceReused(from) => b.V2? && FirstUsedBy(bs, i, b.nonce, from)
    case WrongValidator => trust.validator.Some? && b.validator != trust.validator.value
    case WrongGenesis => trust.genesisHash.Some? && b.index == 0 && b.hash != trust.genesisHash.value
    case NotFromZero => i == 0 && b.index != 0
    case IndexGap => i > 0 && b.index != bs[i - 1].index + 1
    case PrevHashDiffers => i > 0 && b.prevHash != bs[i - 1].hash
    case NotAfter => i > 0 && !Later(w, b, bs[i - 1])
    case _ => false
  }

  ghost predicate Faulty(w: World, trust: Trust, bs: seq<Block>, i: nat, p: Problem)
    requires AllWellFormed(w, bs) && i < |bs|
  {
    OwnFault(w, trust, bs[i], p) || PlaceFault(w, trust, bs, i, p)
  }

  lemma OwnProblemsMean(w: World, trust: Trust, b: Block, p: Problem)
    requires WellFormed(w, b)
    ensures p in OwnProblems(w, trust, b) <==> OwnFault(w, trust, b, p)
  {
    hide VerifySelf, VerifyApproval, StatementOf;
  }

  lemma NonceProblemsMean(bs: seq<Block>, i: nat, p: Problem)
    requires i < |bs|
    ensures p in NonceProblems(Seen(bs, i), bs[i]) <==>
      p.NonceReused? && bs[i].V2? && FirstUsedBy(bs, i, bs[i].nonce, p.from)
  {
    if bs[i].V2? && p.NonceReused? {
      SeenIsFirstUse(bs, i, bs[i].nonce, p.from);
    }
  }

  lemma ProblemsMean(own: OwnCheck, w: World, trust: Trust, bs: seq<Block>, i: nat, p: Problem)
    requires i < |bs| && Covers(own, bs)
    ensures p in Problems(own, w, trust, bs, i) <==> p in own(bs[i]) || PlaceFault(w, trust, bs, i, p)
  {
    hide FirstUsedBy, Seen;
    NonceProblemsMean(bs, i, p);
    var prev := if i == 0 then None else Some(bs[i - 1]);
    assert p in Problems(own, w, trust, bs, i) <==>
      || p in own(bs[i]) || p in NonceProblems(Seen(bs, i), bs[i]) || p in PinProblems(trust, bs[i])
      || p in LinkProblems(w, prev, bs[i]) || p in GenesisProblems(trust, bs[i]);
  }

  /** A fault's line is in the report exactly when some block of that index has the
      fault, and a block's line of praise exactly when it has none. */
  ghost predicate LinesMean(own: OwnCheck, w: World, trust: Trust, bs: seq<Block>, k: nat, lines: seq<Line>)
    requires k <= |bs| && Covers(own, bs)
  {
    && (forall n, p :: Fault(n, p) in lines <==>
          exists i: nat :: i < k && bs[i].index == n && p in Problems(own, w, trust, bs, i))
    && (forall n :: Sound(n) in lines <==>
          exists i: nat :: i < k && bs[i].index == n && Problems(own, w, trust, bs, i) == [])
    && (forall l | l in lines :: l.Fault? || l.Sound?)
  }

  lemma BlockLinesMean(index: int, ps: seq<Problem>)
    ensures forall n, p :: Fault(n, p) in BlockLines(index, ps) <==> n == index && p in ps
    ensures forall n :: Sound(n) in BlockLines(index, ps) <==> n == index && ps == []
    ensures forall l | l in BlockLines(index, ps) :: l.Fault? || l.Sound?
  {
    var lines := BlockLines(index, ps);
    forall p | p in ps ensures Fault(index, p) in lines {
      var i :| 0 <= i < |ps| && ps[i] == p;
      assert lines[i] == Fault(index, p);
    }
  }

  lemma {:induction false} ChainLinesMean(own: OwnCheck, w: World, trust: Trust, bs: seq<Block>, k: nat)
    requires k <= |bs| && Covers(own, bs)
    ensures LinesMean(own, w, trust, bs, k, ChainLines(own, w, trust, bs, k))
  {
    hide Problems, BlockLines;
    if k > 0 {
      ChainLinesMean(own, w, trust, bs, k - 1);
      var ps := Problems(own, w, trust, bs, k - 1);
      BlockLinesMean(bs[k - 1].index, ps);
      var before, last := ChainLines(own, w, trust, bs, k - 1), BlockLines(bs[k - 1].index, ps);
      forall n, p ensures Fault(n, p) in before + last <==>
        exists i: nat :: i < k && bs[i].index == n && p in Problems(own, w, trust, bs, i)
      {
        assert Fault(n, p) in before + last <==> Fault(n, p) in before || Fault(n, p) in last;
      }
      forall n ensures Sound(n) in before + last <==>
        exists i: nat :: i < k && bs[i].index == n && Problems(own, w, trust, bs, i) == []
      {
        assert Sound(n) in before + last <==> Sound(n) in before || Sound(n) in last;
      }
    }
  }

  /******* The loop *******/

  /** The nonce check of block `k`: it is reported exactly when an earlier v2 block has
      its nonce, with the index of the first that has; and the table goes on naming the
      first block of every nonce passed. */
  method NoteNonce(ghost bs: seq<Block>, ghost k: nat, seen: map<string, int>, b: Block)
      returns (problems: seq<Problem>, seenNonces: map<string, int>)
    requires k < |bs| && b == bs[k] && seen == Seen(bs, k)
    ensures |problems| <= 1
    ensures forall p :: p in problems <==>
              p.NonceReused? && b.V2? && FirstUsedBy(bs, k, b.nonce, p.from)
    ensures NamesFirst(seenNonces, bs, k + 1)
    ensures problems == NonceProblems(seen, b) && seenNonces == Seen(bs, k + 1)
  {
    hide FirstUsedBy, NamesFirst;
    problems, seenNonces := [], seen;
    if b.V2? {
      if b.nonce in seen {
        problems := [NonceReused(seen[b.nonce])];
      } else {
        seenNonces := seen[b.nonce := b.index];
      }
    }
    forall p ensures p in problems <==>
      p.NonceReused? && b.V2? && FirstUsedBy(bs, k, b.nonce, p.from)
    {
      NonceProblemsMean(bs, k, p);
    }
    SeenNamesFirst(bs, k + 1);
  }

  /** The loop of `verify_chain`, over the blocks it read: it counts every problem of
      every block, and its report has a line for each, and for each block with none. */
  method Scan(own: OwnCheck, w: World, trust: Trust, bs: seq<Block>) returns (failures: nat, report: seq<Line>)
    requires Covers(own, bs)
    ensures failures == Sum(Counts(own, w, trust, bs), |bs|)
    ensures report == ChainLines(own, w, trust, bs, |bs|)
    ensures LinesMean(own, w, trust, bs, |bs|, report)
  {
    hide LinesMean, Problems, BlockLines, FirstUsedBy, NamesFirst;
    report, failures := [], 0;
    var prev: Option<Block> := None;
    var seenNonces: map<string, int> := map[];
    for i := 0 to |bs|
      invariant prev == if i == 0 then None else Some(bs[i - 1])
      invariant seenNonces == Seen(bs, i)
      invariant report == ChainLines(own, w, trust, bs, i)
      invariant failures == Sum(Counts(own, w, trust, bs), i)
    {
      var b := bs[i];
      var reused: seq<Problem>;
      reused, seenNonces := NoteNonce(bs, i, seenNonces, b);
      var problems := own(b) + reused + PinProblems(trust, b) + LinkProblems(w, prev, b) + GenesisProblems(trust, b);
      assert problems == Problems(own, w, trust, bs, i) by { InOrder(own, w, trust, bs, i); }
      failures := failures + |problems|;
      report := report + BlockLines(b.index, problems);
      prev := Some(b);
    }
    ChainLinesMean(own, w, trust, bs, |bs|);
  }

  lemma InOrder(own: OwnCheck, w: World, trust: Trust, bs: seq<Block>, i: nat)
    requires i < |bs| && Covers(own, bs)
    ensures Problems(own, w, trust, bs, i)
         == own(bs[i]) + NonceProblems(Seen(bs, i), bs[i]) + PinProblems(trust, bs[i])
          + LinkProblems(w, if i == 0 then None else Some(bs[i - 1]), bs[i]) + GenesisProblems(trust, bs[i])
  {
  }

  /** The loop and the HEAD check, over a list of blocks that is not empty. */
  method Judge(own: OwnCheck, w: World, trust: Trust, bs: seq<Block>, head: HeadFile) returns (state: State, report: seq<Line>)
    requires bs != [] && Covers(own, bs)
    ensures state == if EachClean(own, bs) && Joined(w, trust, bs) && HeadNames(w, head, bs[|bs| - 1])
                     then ValidLocally else Invalid
    ensures report == ChainLines(own, w, trust, bs, |bs|) + HeadLines(w, head, bs[|bs| - 1])
  {
    hide LinesMean;
    var failures, lines := Scan(own, w, trust, bs);
    NoFailuresIffJoined(own, w, trust, bs);
    var headLines := HeadLines(w, head, bs[|bs| - 1]);
    failures := failures + |headLines|;
    report := lines + headLines;
    state := if failures > 0 then Invalid else ValidLocally;
  }

  function ReportOf(w: World, trust: Trust, disk: Disk): (report: seq<Line>) {
    match ReadBlocks(w, disk.files)
    case None => [UnreadableBlock]
    case Some(bs) =>
      if bs == [] then [NoBlocks]
      else ChainLines(Own(w, trust), w, trust, bs, |bs|) + HeadLines(w, disk.head, bs[|bs| - 1])
  }

  /** What a line of the report says, outright. */
  ghost predicate Stands(w: World, trust: Trust, disk: Disk, line: Line) {
    match ReadBlocks(w, disk.files)
    case None => line == UnreadableBlock
    case Some(bs) =>
      if bs == [] then line == NoBlocks
      else
        match line
        case Fault(n, p) => exists i: nat :: i < |bs| && bs[i].index == n && Faulty(w, trust, bs, i, p)
        case Sound(n) => exists i: nat :: i < |bs| && bs[i].index == n && forall p :: !Faulty(w, trust, bs, i, p)
        case HeadUnreadable => !HeadReads(w, disk.head)
        case HeadDiffers => HeadReads(w, disk.head) && !HeadNames(w, disk.head, bs[|bs| - 1])
        case _ => false
  }

  lemma FaultyIffListed(w: World, trust: Trust, bs: seq<Block>, i: nat, p: Problem)
    requires AllWellFormed(w, bs) && i < |bs|
    ensures Covers(Own(w, trust), bs)
    ensures p in Problems(Own(w, trust), w, trust, bs, i) <==> Faulty(w, trust, bs, i, p)
  {
    hide WellFormed, OwnFault, PlaceFault, OwnProblems;
    assert Covers(Own(w, trust), bs);
    ProblemsMean(Own(w, trust), w, trust, bs, i, p);
    OwnProblemsMean(w, trust, bs[i], p);
  }

  lemma FaultlessIffNone(w: World, trust: Trust, bs: seq<Block>, i: nat)
    requires AllWellFormed(w, bs) && i < |bs|
    ensures Covers(Own(w, trust), bs)
    ensures Problems(Own(w, trust), w, trust, bs, i) == [] <==> forall p :: !Faulty(w, trust, bs, i, p)
  {
    hide WellFormed, Faulty, Problems;
    assert Covers(Own(w, trust), bs);
    var ps := Problems(Own(w, trust), w, trust, bs, i);
    forall p ensures p in ps <==> Faulty(w, trust, bs, i, p) {
      FaultyIffListed(w, trust, bs, i, p);
    }
    if ps != [] {
      assert ps[0] in ps;
    }
  }

  lemma ReportMeans(w: World, trust: Trust, disk: Disk, line: Line)
    ensures line in ReportOf(w, trust, disk) <==> Stands(w, trust, disk, line)
  {
    hide WellFormed, Faulty, Problems, HeadReads, HeadNames, ChainLines;
    var r := ReadBlocks(w, disk.files);
    if r.Some? && r.value != [] {
      var bs, own := r.value, Own(w, trust);
      FaultlessIffNone(w, trust, bs, 0);
      ChainLinesMean(own, w, trust, bs, |bs|);
      var chain, head := ChainLines(own, w, trust, bs, |bs|), HeadLines(w, disk.head, bs[|bs| - 1]);
      assert line in chain + head <==> line in chain || line in head;
      forall i: nat | i < |bs|
        ensures Problems(own, w, trust, bs, i) == [] <==> forall p :: !Faulty(w, trust, bs, i, p)
        ensures line.Fault? ==> (line.problem in Problems(own, w, trust, bs, i) <==> Faulty(w, trust, bs, i, line.problem))
      {
        FaultlessIffNone(w, trust, bs, i);
        if line.Fault? {
          FaultyIffListed(w, trust, bs, i, line.problem);
        }
      }
    }
  }

  method JudgeOwn(w: World, trust: Trust, bs: seq<Block>, head: HeadFile) returns (state: State, report: seq<Line>)
    requires bs != [] && AllWellFormed(w, bs)
    ensures state == if ChainSound(w, trust, bs) && HeadNames(w, head, bs[|bs| - 1]) then ValidLocally else Invalid
    ensures Covers(Own(w, trust), bs)
    ensures report == ChainLines(Own(w, trust), w, trust, bs, |bs|) + HeadLines(w, head, bs[|bs| - 1])
  {
    hide HeadNames, HeadReads, ChainLines, EachSound, Joined, EachClean, HeadLines;
    var own := Own(w, trust);
    EachIffSound(w, trust, own, bs);
    state, report := Judge(own, w, trust, bs, head);
  }

  /** `verify_chain`: VALID LOCALLY if and only if the directory is; and a line is in the
      report if and only if what it says stands. There is no answer, only an exception,
      when the first block file that cannot be read is not text. */
  method Verify(w: World, trust: Trust, disk: Disk) returns (state: Option<State>, report: seq<Line>)
    ensures state.None? <==> RaisesOnRead(w, disk.files)
    ensures state.Some? ==> state.value == if LocallyValid(w, trust, disk) then ValidLocally else Invalid
    ensures state.Some? ==> report == ReportOf(w, trust, disk)
    ensures state.Some? ==> forall line :: line in report <==> Stands(w, trust, disk, line)
  {
    hide Stands, EachSound, Joined, HeadNames, HeadReads, ChainLines;
    forall line ensures line in ReportOf(w, trust, disk) <==> Stands(w, trust, disk, line) {
      ReportMeans(w, trust, disk, line);
    }
    var loaded, raised := LoadBlocks(w, disk.files);
    if raised {
      return None, [];
    }
    if loaded.None? {
      return Some(Invalid), [UnreadableBlock];
    }
    var bs := loaded.value;
    if bs == [] {
      return Some(Invalid), [NoBlocks];
    }
    var judged: State;
    judged, report := JudgeOwn(w, trust, bs, disk.head);
    state := Some(judged);
  }
}
