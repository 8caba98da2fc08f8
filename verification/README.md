# Aikiri ledger: a verified model

An append-only ledger of hashes. One writer appends a block for each request a
registered device approved; a verifier reports one of four states (INVALID, VALID
LOCALLY, BASE VERIFIED, FULLY VERIFIED); a contract on Base records block hashes once
and in order; Bitcoin proof files sit beside the blocks. This project models those
parts in Dafny and proves what they promise each other.

Nothing is assumed of the hash function beyond its 32-byte result. A result about
equality therefore reads "the two are equal, or these two named preimages collide". The
hash, the two signature schemes, Unicode normalisation, time parsing and Python's
`int()` are fields of one record, `Crypto.World`, and every theorem holds for every such
record. Where a theorem needs more of them (that the writer's own signatures verify and
that what it prints reads back) it says so in a `requires` (`Writer.Dependable`), and
`Example.HonestStartExists` shows that those hypotheses can be met together.

`dafny verify dfyconfig.toml` checks the whole project.

## How it is laid out

| file | what it holds |
|---|---|
| Wrappers, Bytes, Crypto | results, bytes, hex, UTF-8, the outside world as a record of functions |
| Canonical, Messages, SwiftSigner | canonical JSON and the parser that inverts it, the domain prefixes, the signer that builds the same bytes by hand |
| Approvals, Requests, Blocks, Merkle, Disks | the records, their schemas, the block hash, the v1 Merkle root, the ledger directory |
| Fields | what each record's members are called, name by name |
| VerifyChain, VerifyAll, Contract | the verifier's two loops against declarative verdicts, and the contract |
| Sound | VALID LOCALLY spelled out down to the hash and the two signature schemes |
| Uniqueness, BasePrefix, Quorum | what one HEAD hash pins, what one contract pins, what a majority of readers pins |
| Writer, System | the writer, and the writer, verifier and contract as one system |
| AnchorProtocol, AnchorRuns | anchoring with markers, as any interleaving of runs that can be killed anywhere; what one run does that nothing disturbs |
| ProofFiles | upkeep of the Bitcoin proof files, under failures and kills |
| BitcoinCheck, CompactTarget | deciding a proof from unreliable sources; proof of work |
| SealRuns, Receipts, TrustFile | sealing client documents, the Base receipt it reads, trust files |
| Example, SealTwice | a small world that meets every hypothesis, and a run in it that seals one fingerprint twice |

Code that changes files or fields step by step is a class with methods (`Contract.AikiriLedger`,
`Writer.Ledger`, `ProofFiles.ProofFiles`, `BitcoinCheck.BitcoinWitness`), or a method with a
loop proved against a specification. A kill is modelled by recording every state the files
go through: a promise about every entry of `history` is a promise about every kill. The
anchoring runs, which are concurrent, are a state machine.

## Where the code and its words differ

- aikiri_ledger/chain.py:329-334 says the exclusive marker keeps a second transaction from
  going out. It does so only while Base does not hold the block, because the receipt is
  looked for (line 358) before the marker is claimed (line 369): a second run can pass the
  first check, and claim after the first run has ended and removed its marker.
  `AnchorProtocol.OverlapCanSendTwice` is such a history. `AnchorProtocol.SendsOnceIff` says
  exactly when one transaction is all that can come of a history (every claim finds the
  block neither sent nor held by a run about to send), `AnchorProtocol.UnreceiptedClaimsSendOnce`
  that looking for the receipt again under the claim would be enough, and
  `AnchorProtocol.CurrentNodeSendsOnce` that the second send also needs a node that lags
  behind, since the gas estimate of one that does not refuses the call.
- aikiri_ledger/cli.py:637-639 says one fingerprint, one block, one request. `block` takes
  whatever request `--request` names (line 312) and nothing checks its fingerprint against
  the blocks, so a second approved request for a sealed document puts it in a second block.
  `SealTwice.NamedRequestSealsTwice` is such a run. `SealRuns.RunKeepsHomesIff` and
  `SealRuns.OneFingerprintOneBlock` say exactly when the rule holds over a run, and
  `SealRuns.WaitingRequestsSealOnce` that it always does without `--request`.
- aikiri_ledger/seal.py:94 says the Base transaction is there once the receipt is on disk.
  `reconcile` writes a receipt with no transaction for a marker that names none
  (aikiri_ledger/chain.py:412), and seal.py:110-111 refuses it:
  `Receipts.ReceiptWithoutTxIsRefused`. `Receipts.ReceiptReadsBackIff` says exactly which
  receipts are read, and `AnchorRuns.KilledAnchorIsFinished` when a killed run leads to one.
- aikiri_ledger/seal.py:41 accepts a record id with one newline at its end, since `$` matches
  before it, against its own words at line 57. `SealRuns.NewlineIsTaken` is such an input, and
  `SealRuns.RecordIdIffNoNewline` says the rule is kept exactly on what does not end in one.
- aikiri_ledger/witness.py:674-690 calls `ledger.verify`, which aikiri_ledger/chain.py does not
  define. The `verify_all` modelled here is the one in aikiri_ledger/verify.py.

## Model

| member | source | states |
|---|---|---|
| Bytes.HexRoundTrip | aikiri_ledger/canonical.py:70-81 | Bytes written as lowercase hex read back as themselves |
| Bytes.FromHexRoundTrip | aikiri_ledger/canonical.py:76-81 | Every even-length lowercase hex string is the hex of exactly the bytes it decodes to |
| Bytes.Utf8Injective | aikiri_ledger/chain.py:185-186 | Two texts with one UTF-8 encoding are one text |
| Canonical.ReadInvertsPrint | aikiri_ledger/canonical.py:30-33 | A JSON parser (sections 4 to 7 of RFC 8259) inverts the canonical printer, with and without ASCII escaping, on every value |
| Canonical.PrintInjective | aikiri_ledger/canonical.py:30-33 | Canonical bytes are uniquely decodable: one text, one value |
| Canonical.PrintPrintable | aikiri_ledger/canonical.py:31-33 | The v2 form is printable ASCII throughout, whatever characters its strings hold |
| Canonical.OneListing | aikiri_ledger/canonical.py:32 | A dict has one listing in key order: two that hold the same members are one |
| Canonical.SortKeysInOrder | aikiri_ledger/canonical.py:32 | Sorting a dict's members gives that listing, whatever order they came in |
| Canonical.LoadInvertsPrint | aikiri_ledger/canonical.py:44-54 | An object's text with a newline after it loads as the object |
| Canonical.EscapeIsShortest | aikiri_ledger/canonical.py:30-33 | How each character is written: two characters where it has a short escape, itself where it needs none, else lowercase `\u` units |
| Messages.TaggedInjective | aikiri_ledger/canonical.py:23-37 | The four domains' message sets are disjoint, and within one domain a message names one value |
| Messages.BareIsNotTagged | aikiri_ledger/chain.py:183-187 | A v1 preimage is never a v2 preimage, nor any other domain's message |
| Messages.StatementKeysSorted | aikiri_ledger/approval.py:54-56 | The members of an approval message are listed in key order, as sorted printing writes them |
| Messages.ApprovalMessageInjective | aikiri_ledger/approval.py:52-56 | Changing any of index, prev_hash, roots, nonce or validator changes the bytes a device signs |
| SwiftSigner.SafeIffUnescaped | tools/approve/AikiriApprove.swift:154-162 | The characters the signer refuses are exactly those the canonical form would escape |
| SwiftSigner.JsonString | tools/approve/AikiriApprove.swift:154-162 | It refuses a string if and only if its canonical form is not the bare quoted string, and otherwise returns that form |
| SwiftSigner.BodyIsCanonical | tools/approve/AikiriApprove.swift:176-180 | The text glued together by hand is the canonical form of the statement, for every index and root list |
| SwiftSigner.RootPart | tools/approve/AikiriApprove.swift:169-175 | A root that has not exactly kind and sha256 is refused; any other gives its canonical text or the refusal of a character |
| SwiftSigner.BuildApprovalMessage | tools/approve/AikiriApprove.swift:166-182 | It refuses, naming the first thing wrong, or yields byte for byte the message Python's approval_message yields, and refuses only what is malformed or would be escaped |
| Merkle.MerkleRoot | aikiri_ledger/chain.py:64-75 | The level loop's root is the root of a recursive perfect tree whose missing right halves repeat the left |
| Merkle.TopIsTree | aikiri_ledger/chain.py:70-75 | Climbing level by level and descending the tree meet in one root |
| Merkle.RootKernel | aikiri_ledger/chain.py:64-75 | The exact kernel: lists that fill trees of one height have one root exactly when they pad to the same leaves, or a named pair of nodes collides |
| Merkle.OneRootOneList | aikiri_ledger/chain.py:64-75 | Lists of one length with one root are equal, or a named pair of tree nodes collides |
| Merkle.RepeatedLeafKeepsRoot | aikiri_ledger/chain.py:65-67 | For every odd length above 1, repeating the last leaf keeps the root |
| Approvals.KnownIffRegistered | aikiri_ledger/approval.py:84-90 | The device dictionary answers with a key exactly when that is the last key listed for the label |
| Approvals.AcceptedIffApproved | aikiri_ledger/approval.py:72-97 | An approval is accepted if and only if a registered device's signature covers exactly this statement |
| Requests.ParseIffWritten | aikiri_ledger/request.py:77-90 | A request file is read exactly when it is what writing some well-formed request makes, and gives that request |
| Requests.RequestKeysSorted | aikiri_ledger/request.py:92-98 | The members of a request file are listed in key order |
| Requests.TextRoundTrip | aikiri_ledger/request.py:78-98 | The text written for a request, newline and all, reads back as the request |
| Blocks.ParseIffWritten | aikiri_ledger/chain.py:99-136 | Reading accepts exactly the files writing a well-formed block makes, in either version, and gives the block back |
| Fields.BlockIsReadIff | aikiri_ledger/chain.py:98-136 | A block file is read, and as this block, if and only if it has exactly its version's members, each with this block's field of that name, and each field is of its form |
| Fields.BodyIsFile | aikiri_ledger/chain.py:180-181 | The members that are hashed are the file's own, but for signature and hash |
| Fields.StatementIsOfBlock | aikiri_ledger/approval.py:52-56 | The members a device signs are index, nonce, prev_hash, roots and validator of the block's file |
| Fields.BytesSpelled | aikiri_ledger/chain.py:183-187 | The hashed bytes and the signed bytes, with their prefixes |
| Fields.RequestIsReadIff | aikiri_ledger/request.py:77-90 | A request is read, and as this request, if and only if it has exactly the seven members, each with this request's field of that name and form |
| Fields.StatementIsOfRequest | aikiri_ledger/request.py:92-104 | The members a device signs are those five of the request's file |
| Blocks.BodyKeysSorted | aikiri_ledger/chain.py:180-187 | The members of a hashed body are listed in key order, as sorted printing writes them |
| Blocks.PreimageInjective | aikiri_ledger/chain.py:180-187 | The hashed bytes determine every field but signature and hash, across both versions |
| Blocks.SameHashSameBody | aikiri_ledger/chain.py:180-190 | Blocks with one computed hash have one body, or their preimages collide |
| Disks.Height | aikiri_ledger/chain.py:249-253 | The height is the length of the unbroken run of files from 0, less one |
| Disks.LoadBlocks | aikiri_ledger/chain.py:243-247 | All blocks up to the first missing file, each read from its own file, or nothing if one cannot be read; it raises exactly when the first that cannot is not text |
| Disks.WordsOfCut | aikiri_ledger/chain.py:240-264 | The words of every beginning of "index hash" as `split` finds them |
| VerifyChain.SeenIffUsed | aikiri_ledger/verify.py:47-85 | The nonce table holds exactly the nonces of the v2 blocks passed so far |
| VerifyChain.SeenIsFirstUse | aikiri_ledger/verify.py:82-85 | The nonce table gives, for each nonce, the index of the first earlier v2 block that has it |
| VerifyChain.NoteNonce | aikiri_ledger/verify.py:82-85 | A block is reported exactly when an earlier v2 block has its nonce, with the index of the first that has; and the table goes on naming the first block of every nonce passed |
| VerifyChain.UnfaultedIffJoined | aikiri_ledger/verify.py:57-116 | The loop faults no block exactly when each is right by itself, they are numbered from 0, linked, strictly later, pinned, and v2 nonces are pairwise distinct |
| VerifyChain.NoFailuresIffJoined | aikiri_ledger/verify.py:57-116 | The failure count is zero exactly for such a chain |
| VerifyChain.Scan | aikiri_ledger/verify.py:57-114 | The loop's count is the sum of every block's problems; a fault's line is in its report exactly when a block of that index has that problem, and a block's "ok" line exactly when it has none |
| VerifyChain.ProblemsMean | aikiri_ledger/verify.py:57-107 | A block's problems are exactly the faults it has outright: by itself, against the pins, the blocks before it and the one it follows |
| VerifyChain.ReportMeans | aikiri_ledger/verify.py:43-124 | A line is in the report if and only if what it says stands: every fault of every block, every block without one, and HEAD's |
| VerifyChain.Judge | aikiri_ledger/verify.py:57-124 | With the HEAD check, the verdict is VALID LOCALLY exactly for a sound chain whose last block HEAD names |
| VerifyChain.Verify | aikiri_ledger/verify.py:43-124 | VALID LOCALLY if and only if the directory is sound, said declaratively; a line is in the report if and only if what it says stands; and no answer but an exception exactly when the first unreadable block file is not text |
| Sound.SelfVerifiesIff | aikiri_ledger/chain.py:192-204 | A block verifies by itself if and only if its v1 root is its leaves', its hash is the SHA-256 of the hashed bytes, and the validator's key signed that hash; a refusal names the first that fails |
| Sound.ApprovalStandsIff | aikiri_ledger/approval.py:72-97 | An approval is accepted if and only if it is well-formed, its key is the one its label has last, and that key signed the message; each refusal is for what it names |
| Sound.LocallyValidIff | aikiri_ledger/verify.py:43-124 | VALID LOCALLY if and only if, with no check of the verifier's named: blocks are numbered from 0, each with its root, hash and signature, pinned or signed by a device, by the pinned validator; each names the hash before it and is strictly later; block 0 is the pinned genesis; no v2 nonce is reused; HEAD is the last block's number and hash |
| Uniqueness.OneHeadOneHistory | aikiri_ledger/verify.py:58-122 | Two directories VALID LOCALLY, under any trusts, whose HEAD hashes agree have equal bodies at every index, or a named pair of blocks collides |
| Uniqueness.LinkedFromOneHash | aikiri_ledger/chain.py:180-204 | The same for any two chains that hold their own hashes and link backwards, of any mix of versions |
| Uniqueness.OneApprovalOneBlock | aikiri_ledger/approval.py:52-56 | In a sound chain no two v2 blocks rest on one signed approval message |
| Contract.AikiriLedger.constructor | contracts/AikiriLedger.sol:35-42 | Deployment records block 0 and leaves a valid contract |
| Contract.AikiriLedger.Deploy | contracts/AikiriLedger.sol:35-42 | It reverts exactly on a zero genesis hash |
| Contract.AikiriLedger.Anchor | contracts/AikiriLedger.sol:45-52 | It succeeds exactly for the owner, the next index and a non-zero hash; then only that slot and the latest index change, else nothing does; indices 0 to latest stay exactly the written ones |
| Contract.AikiriLedger.TransferOwnership | contracts/AikiriLedger.sol:64-67 | Only the owner changes the owner, and nothing else changes |
| Contract.NothingIsReanchored | contracts/AikiriLedger.sol:45-67 | Over any calls by anyone, what was anchored stays whole, the genesis hash stays, and the latest index never falls |
| VerifyAll.CheckPins | aikiri_ledger/verify.py:147-189 | No failure is counted exactly when every pin was read and what was read agrees; a pin nobody can read is a failure |
| VerifyAll.CheckAnchors | aikiri_ledger/verify.py:202-220 | No failure is counted exactly when every block Base should hold matches, was not anchored before its own time, and by the pinned owner; a witness that raises is told apart |
| VerifyAll.CheckBitcoin | aikiri_ledger/verify.py:232-250 | It fails exactly when some proof failed, and counts none pending exactly when every proof is complete |
| VerifyAll.Weigh | aikiri_ledger/verify.py:142-256 | After a valid chain, the procedure's state is the declarative verdict |
| VerifyAll.Verify | aikiri_ledger/verify.py:127-256 | The state reported is the verdict on the directory, the trust and the two witnesses; none when a block file raises |
| VerifyAll.FullyVerifiedIff | aikiri_ledger/verify.py:127-256 | FULLY VERIFIED if and only if: chain valid, trust external, both witnesses asked, every pin read and held, Base ends where the ledger ends and carries every block in time and by the owner, every Bitcoin proof complete |
| VerifyAll.BaseVerifiedIff | aikiri_ledger/verify.py:147-230 | BASE VERIFIED or better if and only if the same holds without Bitcoin and no proof failed |
| VerifyAll.SettlingNeverLowers | aikiri_ledger/verify.py:232-254 | Bitcoin proofs that go from pending or unchecked to complete never lower the state |
| VerifyAll.ExternalTrustNeverLowers | aikiri_ledger/verify.py:131-136 | The same expectations brought from outside the repository never lower the state |
| VerifyAll.SourceIsNotChecked | aikiri_ledger/verify.py:43-124 | Local validity does not depend on where the trust came from |
| VerifyAll.SameAddressIff | aikiri_ledger/verify.py:39-40 | Two addresses are the same exactly when they differ in the case of letters alone |
| VerifyAll.SecondsTruncate | aikiri_ledger/verify.py:208-212 | A block's time in whole seconds, toward 1970 |
| BasePrefix.WitnessedIsRecorded | aikiri_ledger/verify.py:190-230 | A ledger at BASE VERIFIED is exactly the contract's list of hashes, each the hash of its block |
| BasePrefix.OneHashPerSlot | contracts/AikiriLedger.sol:45-62 | Over one contract's whole history an index matches one hash, whenever it is read |
| BasePrefix.LaterLedgersExtend | aikiri_ledger/verify.py:190-230 | A ledger at BASE VERIFIED is a prefix, body by body, of any ledger at BASE VERIFIED later against the same contract, or two blocks at one height collide; each answer may be read at a height of its own |
| Quorum.QuorumOf | aikiri_ledger/witness.py:716-720 | The default quorum is a strict majority; a quorum is never zero |
| Quorum.Collect | aikiri_ledger/witness.py:722-728 | The answers kept are exactly those of the readers that answered |
| Quorum.Gather | aikiri_ledger/witness.py:722-735 | A value is returned exactly when a quorum answered and all answers agree, and it is that value |
| Quorum.CommonBlock | aikiri_ledger/witness.py:737-748 | A height is returned exactly when a quorum reported one, and it is the lowest reported |
| Quorum.LiarsCannotCarry | aikiri_ledger/witness.py:722-735 | With fewer liars than the quorum, any value returned is the true one |
| Quorum.MajoritiesAgree | aikiri_ledger/witness.py:722-735 | Two successful majority reads agree if each reader that answered both gave one answer, whoever lies |
| Quorum.QuorumIsHonest | aikiri_ledger/witness.py:737-774 | With fewer liars than the quorum during each call, every answer is true of the contract at the height that call found in common |
| Quorum.QuorumTellsPins | aikiri_ledger/witness.py:750-774 | Genesis, owner, code and records are what the readers tell, unless a quorum of them tell otherwise |
| Quorum.QuorumLedgersExtend | aikiri_ledger/witness.py:706-774 | Ledgers two such quorums call BASE VERIFIED, at two heights, are one a prefix of the other, or two blocks collide |
| Writer.Ledger.Append | aikiri_ledger/chain.py:256-265 | An existing block file refuses; else the block is written whole, then HEAD, and the states on the way are exactly the block written and then every beginning of the new HEAD |
| Writer.Ledger.WriteHead | aikiri_ledger/chain.py:264 | HEAD passes through every beginning of its new text |
| Writer.Ledger.Init | aikiri_ledger/chain.py:267-282 | Block 0 is written exactly when there is none |
| Writer.GenesisIsSound | aikiri_ledger/chain.py:271-279 | The genesis block is well-formed and verifies by itself |
| Writer.GenesisSays | aikiri_ledger/chain.py:271-279 | It states its time, no roots, and the hash of the genesis text in place of a block before it |
| Writer.WrittenIsSound | aikiri_ledger/chain.py:312-320 | A block written for a request is well-formed, verifies by itself, and carries exactly the statement the device approved |
| Writer.HeadOfIff | aikiri_ledger/chain.py:240-241 | The head is the block in the file that HEAD's first word numbers, and there is none otherwise |
| Writer.Ledger.Consume | aikiri_ledger/chain.py:287-298 | A request is consumed exactly when it is for the block after HEAD's, names HEAD's hash, and its nonce is in no block; a refusal names the first of these that fails |
| Writer.Ledger.Check | aikiri_ledger/chain.py:300-311 | It passes exactly when also the validator is this one, the approval stands, and the time has moved on; a refusal names the first check that fails |
| Writer.Ledger.AppendFromRequest | aikiri_ledger/chain.py:300-322 | A block is added exactly when every check holds; else nothing changes and the first failing check is named; and no block file that was there changes at any point on the way |
| System.AppendKeeps | aikiri_ledger/chain.py:300-322 | From any directory VALID LOCALLY, a block the writer accepts leaves one VALID LOCALLY, with that block added and every other as it was |
| System.CrashStops | aikiri_ledger/chain.py:256-265 | A crash between block and HEAD leaves HEAD one behind: no later request is accepted from anyone, and no trust makes the directory valid |
| System.EmptyHeadStops | aikiri_ledger/chain.py:240-264 | The same while HEAD is emptied and not yet written |
| System.TornHead | aikiri_ledger/chain.py:240-264 | For every beginning of the new HEAD: cut inside its index, nothing is accepted; cut after it, exactly what a whole HEAD would accept, and the next block makes it whole; and no trust makes the directory valid until all of the hash is there |
| System.TornHeadRefusesIff | aikiri_ledger/chain.py:240-264 | Every later request is refused exactly when HEAD was cut inside its index, or all would be refused after a whole write too |
| System.RunKeepsSynced | aikiri_ledger/chain.py:256-322 | Any run of requests, owner's anchors and outsiders' calls keeps the ledger valid, the contract its mirror, and every block file as written |
| System.SyncedVerdict | aikiri_ledger/verify.py:127-256 | Such a system is never INVALID under external trust with matching pins, and is BASE VERIFIED or better exactly when Base holds the head |
| System.HonestRunsVerify | aikiri_ledger/verify.py:43-256 | So is every state such runs reach |
| System.GenesisIsSynced | aikiri_ledger/chain.py:267-282 | init and a deployment with the genesis hash start such a system |
| Example.HonestStartExists | aikiri_ledger/chain.py:267-322 | All the hypotheses of these theorems hold at once, for any root and nonce, with a request that the writer accepts |
| AnchorProtocol.StepIsSafe | aikiri_ledger/chain.py:325-416 | Every step of every run, kill, mined transaction or foreign call keeps the protocol's invariant, whatever a marker, receipt or run names for a block is a transaction that succeeded for it, and no marker goes before Base holds its block |
| AnchorProtocol.AnyInterleaving | aikiri_ledger/chain.py:325-416 | In any interleaving, killed anywhere: at most one transaction for a block was sent while Base did not hold it, no other succeeds, a receipt exists only if Base holds the block, and a marker or receipt that names a transaction names one that was sent for that block and succeeded |
| AnchorProtocol.MarkersGoOnlyWhenHeld | aikiri_ledger/chain.py:380-415 | Whatever happened and happens next, a marker that goes is one whose block Base holds |
| AnchorProtocol.SendsOnceIff | aikiri_ledger/chain.py:356-416 | Exactly when one transaction is all that can come of a history for a block: every claim of it found it neither sent nor held by a run about to send; else, from some point and with no further claim, a second goes out |
| AnchorProtocol.UnreceiptedClaimsSendOnce | aikiri_ledger/chain.py:358-373 | In any interleaving in which each claim would find no receipt, were the check made again under the claim, no two transactions for the block are sent |
| AnchorProtocol.ClaimSendsAgainIff | aikiri_ledger/chain.py:358-378 | After such a history, a run about to claim goes on to a second transaction if and only if the marker is gone and one was sent |
| AnchorProtocol.AloneSendsOnce | aikiri_ledger/chain.py:356-382 | So if runs never overlap, at most one transaction for a block is ever sent, however often runs are killed and started again |
| AnchorProtocol.CurrentNodeSendsOnce | aikiri_ledger/witness.py:111-119 | So it is in any interleaving at all if each send passes a gas estimate of the contract as it stands |
| AnchorProtocol.OverlapCanSendTwice | aikiri_ledger/chain.py:358-373 | A concrete interleaving of two runs in which two transactions for one block are sent, the second past a node that lags behind |
| AnchorRuns.AnchorLeaves | aikiri_ledger/chain.py:356-382 | From any state with no receipt and no marker for a block that is next on Base, one undisturbed anchor leaves exactly one transaction more, its receipt, and everything else as it was; and what a kill after each of its steps leaves, to the letter: from the update on, a marker that names what it sent |
| AnchorRuns.AnchorStopsEarly | aikiri_ledger/chain.py:358-373 | With a receipt or a marker there, a run ends and changes nothing |
| AnchorRuns.AnchorReverts | aikiri_ledger/chain.py:369-378 | When Base refuses the transaction, the run ends with a marker that names nothing, and no receipt |
| AnchorRuns.ReconcileClears | aikiri_ledger/chain.py:384-416 | From any state, one undisturbed reconcile ends; up to the first marker claimed and not yet written, where it fails, it clears exactly the markers whose block Base holds and leaves receipts of what they named; every other marker and receipt stays as it was, and nothing is sent |
| AnchorRuns.ReconcileFinishes | aikiri_ledger/chain.py:384-416 | So where every marker is written, every block Base holds ends with a receipt of what its marker named and no marker |
| AnchorRuns.KilledAnchorIsFinished | aikiri_ledger/chain.py:356-416 | An anchor killed anywhere once its transaction was mined is finished by a reconcile; its receipt names the transaction exactly if the run had come to write it into the marker |
| ProofFiles.SettlingKeepsIffOrdered | aikiri_ledger/witness.py:363-386 | Settling keeps every attestation exactly when a backup beside a proof adds nothing to it |
| ProofFiles.StampingBesideBackupLoses | aikiri_ledger/witness.py:371-375 | Stamping beside a backup would lose the backup's attestations at the next settle |
| ProofFiles.ProofFiles.SettleBackup | aikiri_ledger/witness.py:363-386 | It deletes, restores or leaves the backup as the proofs say, in one step; an ots that does not run changes nothing |
| ProofFiles.ProofFiles.ProofOf | aikiri_ledger/witness.py:388-416 | When it answers, it says whether the file is a proof of this block; a link or no file is never one |
| ProofFiles.ProofFiles.DigestFile | aikiri_ledger/witness.py:271-289 | The .hash is this block's whole digest or what it was, at every point; proofs are untouched |
| ProofFiles.ProofFiles.Stamp | aikiri_ledger/witness.py:291-317 | `ots stamp` runs, once and on this block's hash, unless writing that hash failed or an interrupt came first, and it is a success exactly when that run was one and nothing else went wrong; only this block's files are touched; success makes a proof of this block; a failure that cleans up leaves no new .ots; a .ots or .bak that was there is untouched at every point, and a regular .hash stays one |
| ProofFiles.ProofFiles.Create | aikiri_ledger/witness.py:279 | Creating exclusively fails on anything that is there, a link too |
| ProofFiles.ProofFiles.Fill | aikiri_ledger/witness.py:275-283 | Bytes are written only into a regular file opened here: no caller can write through a link |
| ProofFiles.ProofFiles.CleanUp | aikiri_ledger/witness.py:311-316 | It removes a regular .ots or .hash only where there was none before the run, never a link, and nothing else |
| ProofFiles.ProofFiles.RunStamp | aikiri_ledger/witness.py:291-310 | What ots stamp may do to the files, wherever it stops |
| ProofFiles.ProofFiles.RunUpgrade | aikiri_ledger/witness.py:363-375 | What ots upgrade may do to the files, wherever it stops |
| ProofFiles.ProofFiles.Upgrade | aikiri_ledger/witness.py:319-361 | `ots upgrade` runs exactly where the settled .ots is a proof of this block and nothing failed before; each answer is tied to what failed, or to what `ots` left and how it exited: what is on disk decides first, then its exit and words; every attestation is kept, and after an OtsError the earlier proof or a superset |
| ProofFiles.ProofFiles.StampTurn | aikiri_ledger/cli.py:338-361 | One block's turn in stamp or witness stamps exactly where there is neither a proof file nor a backup, and fails exactly where something failed on the way or the block ends without a proof of it; it loses no attestation at any point |
| ProofFiles.ProofFiles.UpgradeTurn | aikiri_ledger/cli.py:376-390 | One block's turn in upgrade runs `ots upgrade` exactly as `Upgrade` says, and loses no attestation at any point |
| ProofFiles.StampAll | aikiri_ledger/cli.py:419-447 | The stamp command gives every block its turn, exits 0 exactly when no turn failed, and then every block has a proof of it; it loses nothing at any point |
| ProofFiles.UpgradeAll | aikiri_ledger/cli.py:374-391 | The upgrade command gives every block its turn, and loses nothing at any point |
| ProofFiles.Perform | aikiri_ledger/cli.py:329-447 | Each command does its work on the blocks it is for, and on no others; without `ots`, stamp and witness do nothing |
| ProofFiles.Session | aikiri_ledger/cli.py:329-447 | Over any commands in any order, each finished or killed anywhere, every attestation a block had is held at every later point, and the next command can go on |
| BitcoinCheck.FinalStays | aikiri_ledger/witness.py:480-499 | A decision stands whatever is looked up later in the run |
| BitcoinCheck.BitcoinWitness.Within | aikiri_ledger/witness.py:551-572 | A request starts only inside the run's budget of 60 seconds from the first; once it is spent none starts, and until then each does; what comes back is what was sent |
| BitcoinCheck.BitcoinWitness.FromPublic | aikiri_ledger/witness.py:533-549 | A header is taken from the public sources if and only if both gave it for one block and it carries its work; none comes back only out of time, or where a source gave badly, they differ, or the work is short |
| BitcoinCheck.BitcoinWitness.LookUp | aikiri_ledger/witness.py:513-531 | A header comes back if and only if the node gave it, or both public sources did with its work; the node is asked first, and never again once it failed other than by running out of time; public sources only after that, and only where allowed; without time running out, none comes back only where the node failed and the public sources are off or turned it down |
| BitcoinCheck.BitcoinWitness.HeaderAt | aikiri_ledger/witness.py:501-511 | What came of a height is kept, and over the whole run no request is made twice: the node is asked for a height at most once, and so is each public source |
| BitcoinCheck.BitcoinWitness.Decide | aikiri_ledger/witness.py:480-499 | Complete exactly when an attestation below the first block not to be had is confirmed; failed exactly when none is and one is contradicted; else unchecked |
| BitcoinCheck.BitcoinWitness.Check | aikiri_ledger/witness.py:440-499 | A file's result is that decision, or what its absence, shape, digest or attestations already settle; unchecked where the library that reads proofs is not installed |
| BitcoinCheck.BitcoinWitness.CheckAll | aikiri_ledger/verify.py:232-250 | The loop fails, or counts none pending, exactly as the run's one set of answers judges every block's file, in whatever order blocks came |
| BitcoinCheck.CompleteIffVouched | aikiri_ledger/witness.py:440-499 | A file is complete if and only if it is a proof of the block naming few enough Bitcoin blocks, one attestation is the Merkle root of a header vouched for, and headers were vouched for at every lower height |
| BitcoinCheck.FullyVerifiedMeans | aikiri_ledger/verify.py:127-256 | FULLY VERIFIED means: the chain is valid, external pins held, and every block is on Base in time and by the owner, and has a proof of it whose attestation is the Merkle root of a header that the node gave, or that both public sources gave with its work |
| CompactTarget.TargetIsScaledMantissa | aikiri_ledger/witness.py:619-624 | The target is the floor of mantissa times 256^exponent over 256^3, for every non-negative compact value |
| CompactTarget.TargetIncreases | aikiri_ledger/witness.py:619-624 | It is strictly increasing over normalised values from exponent 3 up |
| CompactTarget.SmallExponentsMeet | aikiri_ledger/witness.py:624 | Below exponent 3 two normalised values can share a target |
| CompactTarget.TakenIffWorked | aikiri_ledger/witness.py:627-638 | A header is taken if and only if it hashes to its block, that hash as a number meets its target, and the target times 5*10^13 is at most 0xffff * 2^208 |
| CompactTarget.TakenHeaderIs | aikiri_ledger/witness.py:627-638 | Which bytes of a taken header are its Merkle root, its time and its target |
| CompactTarget.TakenHashIsSmall | aikiri_ledger/witness.py:627-650 | So the hash of any header taken is at least that hard to find |
| SealRuns.NewlineIsTaken | aikiri_ledger/seal.py:41 | A record id the stated rule excludes and the code takes |
| SealRuns.RecordIdIffNoNewline | aikiri_ledger/seal.py:41-58 | Of what the code takes, exactly what does not end in a newline keeps the stated rule |
| SealRuns.RecordIdIff | aikiri_ledger/seal.py:41-58 | A record id is taken if and only if it is 1 to 64 of the allowed characters, starting with a letter or digit, with one newline after them or none |
| SealRuns.FingerprintForgives | aikiri_ledger/seal.py:61-66 | Capitals and a 0x prefix are forgiven and come to one form |
| SealRuns.FingerprintIff | aikiri_ledger/seal.py:61-66 | A text is read as a fingerprint if and only if it is that fingerprint in any case, with a 0x before it or not, in spaces |
| SealRuns.Find | aikiri_ledger/seal.py:69-75 | The first block carrying the fingerprint and the kind of its first root that does; nowhere exactly when all blocks read and none carries it |
| SealRuns.Pending | aikiri_ledger/seal.py:78-86 | The root of every waiting request, or a refusal exactly when one is not a request |
| SealRuns.LineAsksFor | aikiri_ledger/seal.py:46-66 | What a line asks for: an agreement as an acceptance, an invoice as itself, and nothing else |
| SealRuns.Seal | aikiri_ledger/cli.py:637-712 | A request is written exactly when the line is well-formed, no block carries the fingerprint and nothing waits; it is called sealed, with a Base transaction or none yet, exactly when the first block that has it has it as this kind and that block's receipt says so; and waiting exactly when the first request for it asks for it as this kind; otherwise it is refused; and only the one case changes a file |
| Receipts.ReceiptReadsBackIff | aikiri_ledger/seal.py:102-111 | The receipt anchoring writes for a block is read as its transaction if and only if that is a hash, with or without 0x, and never as not anchored yet |
| Receipts.OthersReceiptIsRefused | aikiri_ledger/seal.py:108-109 | Another block's receipt is never taken for this one's |
| Receipts.BaseTxIff | aikiri_ledger/seal.py:102-111 | For any file at all: not anchored yet exactly where there is no receipt; this transaction exactly where it is an object with the block's index and hash that names it; else a refusal |
| Receipts.ReceiptWithoutTxIsRefused | aikiri_ledger/chain.py:404-413 | The receipt reconcile writes for a marker that names no transaction is refused when a document of its block is reported |
| SealRuns.RepeatChangesNothing | aikiri_ledger/cli.py:637-639 | A line run again, whatever the first run did, changes no file |
| SealRuns.LookAtWaiting | aikiri_ledger/cli.py:681-700 | Nothing waits exactly when there are no requests; the line waits already exactly when the first request for its fingerprint asks for it as this kind |
| SealRuns.SealedStaysSealed | aikiri_ledger/cli.py:637-712 | After any run, with named requests of any kind, the line of a document that is in a block writes nothing |
| SealRuns.Block | aikiri_ledger/cli.py:310-327 | A block is written exactly for a single approved request, named or waiting, that the writer accepts |
| SealRuns.SealedRequestIsTaken | aikiri_ledger/cli.py:310-327 | What seal writes, once a device approves it, is a request block takes, for a block that carries the document as its kind |
| SealRuns.BlockKeepsHomesIff | aikiri_ledger/cli.py:312-327 | A block leaves every fingerprint asked for in at most one block exactly when it is not a named request for one that a block already has; a waiting request never is |
| SealRuns.RunIsKept | aikiri_ledger/cli.py:310-327 | Over any run at all of seal, approvals, block and removals: the ledger stays VALID LOCALLY, at most one request waits, each spent or for a fingerprint no block has, and blocks only grow |
| SealRuns.RunKeepsHomesIff | aikiri_ledger/cli.py:637-712 | Over any run, no fingerprint asked for comes into two blocks or two kinds if and only if, each time a block is written, it is not a named request for a fingerprint asked for that a block already has |
| SealRuns.OneFingerprintOneBlock | aikiri_ledger/cli.py:637-712 | So from any valid ledger where nothing waits: any run leaves it VALID LOCALLY with at most one request waiting, and one fingerprint is in one block, as one kind, exactly under that condition |
| SealRuns.WaitingRequestsSealOnce | aikiri_ledger/cli.py:637-712 | Without `--request` the rule, one fingerprint and one block, holds over every run |
| SealTwice.NamedRequestSealsTwice | aikiri_ledger/cli.py:310-327 | For every well-formed line, a run in which its fingerprint comes into two blocks: seal, approval, block, and block with a second approved request named |
| TrustFile.LegacyKeyIffWritten | aikiri_ledger/trust.py:49-54 | A legacy key is accepted if and only if it is the one decimal form its index is written in |
| TrustFile.HashRoundTrip | aikiri_ledger/trust.py:67-75 | A pin reads back from the form it is stored in |
| TrustFile.HashIsReadIff | aikiri_ledger/trust.py:67-75 | A value is read as a pin if and only if it is 64 hex digits in any case, with one 0x in any case at most; null is no pin |
| TrustFile.AddressIsReadIff | aikiri_ledger/trust.py:57-64 | And as an address if and only if it is 0x and 40 hex digits |
| TrustFile.PastedHash | aikiri_ledger/trust.py:67-75 | A hash pasted in any case, with or without 0x, is the pin it spells |
| TrustFile.ReadKeys | aikiri_ledger/trust.py:174-181 | The listed keys, or a refusal exactly when one is malformed or a label repeats |
| TrustFile.ReadLegacy | aikiri_ledger/trust.py:182-186 | The listed hashes by index, or a refusal exactly when a key or hash is malformed |
| TrustFile.FromBody | aikiri_ledger/trust.py:168-197 | It reads what the body says name by name, and refuses only a body that says nothing |
| TrustFile.SaysOneThing | aikiri_ledger/trust.py:168-197 | A body says one trust at most |
| TrustFile.RoundTrip | aikiri_ledger/trust.py:168-205 | Read, written and read again is the same trust |
| TrustFile.WrittenGives | aikiri_ledger/trust.py:199-212 | A trust file as written, signed by a declared device or unsigned, loads as the trust it was written for, with the source that says which |
| TrustFile.TrustMessageSpelled | aikiri_ledger/approval.py:59-60 | The bytes a device signs for a trust file, with their prefix |
| TrustFile.Load | aikiri_ledger/trust.py:138-166 | A trust comes back exactly when the file has a body that says it, no member but trust, sig and note, and no signature or one by a declared device over this very body; its source is the repository's exactly when the file is in it, else signed exactly when there is a signature |
| TrustFile.GivesOneThing | aikiri_ledger/trust.py:138-166 | Files that agree in body and signature give one trust, whatever their notes |

## Left out

- Canonical.ReadInvertsPrint: an object is its members listed in key order (`Canonical.OneListing`, `Canonical.SortKeysInOrder`); strings are sequences of Unicode scalar values, so lone UTF-16 surrogates are not modelled; nor are floats, nor whitespace between tokens. No record written here has a float or a lone surrogate, but a v1 root's kind and ref (aikiri_ledger/chain.py:117-119) and a v2 approval's values are any JSON when read, and a file that has one there is not covered.
- VerifyChain.Verify: a v1 root with a lone surrogate is no value of the model. There `canonical` raises UnicodeEncodeError (aikiri_ledger/chain.py:185-186), which aikiri_ledger/verify.py:50 does not catch, so the source gives no verdict.
- SwiftSigner.BuildApprovalMessage: Swift's `Int` is 64 bits; every index is covered here, including those it cannot hold.
- Disks.LoadBlocks: a block file is modelled by what its JSON parses to (`Blocks.ParseIffWritten` says which JSON that is), as nothing a reader accepts, or as bytes that are no text; a file that cannot be opened is not modelled.
- VerifyAll.Verify: the report's text is not modelled, only the state; a witness that raises where nothing catches it gives no state.
- Writer.Ledger.Append: a write that fails part-way is a crash at that point; the temporary file beside the block is not modelled.
- System.RunKeepsSynced: Base's clock is not behind the timestamp of a block it is given, and no one transfers the contract.
- AnchorProtocol.AnyInterleaving: Base does not reorganise; a marker's account and transaction nonce, and a receipt's costs, are left out; reading a nonce changes nothing and is no step; a node may pass or refuse any send (`AnchorProtocol.CurrentNodeSendsOnce` is about one that is not behind); `reconcile` takes the markers it listed in any order.
- ProofFiles.Session: one process works on a block's files at a time, and a file cut short is not a proof. An `ots stamp` that cannot be started counts as a run that failed.
- BitcoinCheck.BitcoinWitness.Check: the `.ots` format is an external library's, so a proof is a digest with its attestations; the library's check of a digest against a header is equality with the header's Merkle root; two attestations for one block are taken in any order.
- BitcoinCheck.BitcoinWitness.Within: the thread left behind at the deadline is not modelled.
- SealRuns.Seal: the report to the app, its payload and its URL check, and `--push` with its git steps, are not modelled; a receipt that is not UTF-8 is as one that is not JSON.
- TrustFile.Load: a text that is not JSON is refused before the model begins; a git worktree is a name.
- Signature schemes, SHA-256, keccak, scrypt, AES and the software approval key: opaque functions or absent.
- `deploy`, `find_deployment`, `find_creation_block`, fees, `web3` and RPC transport: calls to code outside the repository.
- `report-block`, HTTP, git plumbing, argument parsing, printing, workflows and alerts: no state of the ledger depends on them.
- Swift keychain and enclave calls: platform only.
