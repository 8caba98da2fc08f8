/**
 Anchoring with markers (aikiri_ledger/chain.py, `write_pending`, `anchor_with_marker`
 and `reconcile`), as any number of runs interleaved in any order, each of which can
 be killed at any step, against a contract that others may call too.

 A step is one change another run could see. Base does not reorganise.
 */
module AnchorProtocol {
  import opened Wrappers
  import Contract

  /** The ledger's block hashes and the wallet, fixed for the whole history. */
  datatype Setup = Setup(hashes: nat -> Contract.Bytes32, account: Contract.Address)

  datatype Status = InFlight | Succeeded | Reverted

  /** A transaction that was sent, and whether Base already held the block then. */
  datatype Tx = Tx(index: nat, held: bool, status: Status)

  /** A marker file: created but not yet written by its run, or whole. */
  datatype Marker = Claimed(claimant: nat) | Written(sent: Option<nat>)

  /** Where a run is: about to do what its constructor names. */
  datatype Run =
    // anchor_with_marker
    | Checking(i: nat)           // is there a receipt?
    | Claiming(i: nat)           // create the marker, exclusively
    | Marking(i: nat)            // write its body
    | Sending(i: nat)
    | Waiting(i: nat, tx: nat)   // for the transaction's receipt
    | Updating(i: nat, tx: nat)  // replace the marker
    | Recording(i: nat, tx: nat) // write the receipt
    | Clearing(i: nat)           // unlink the marker
    // reconcile
    | Listing(todo: seq<nat>)    // read the next marker
    | Matching(i: nat, sent: Option<nat>, todo: seq<nat>)
    | Settling(i: nat, sent: Option<nat>, todo: seq<nat>)  // write the receipt
    | Unmarking(i: nat, todo: seq<nat>)  // unlink the marker

  /** Each receipt with the transaction it names, if it names one. */
  datatype State = State(
    base: Contract.Storage,
    txs: seq<Tx>,
    markers: map<nat, Marker>,
    receipts: map<nat, Option<nat>>,
    runs: map<nat, Run>)

  datatype Action =
    | Anchor(pid: nat, index: nat)
    | Reconcile(pid: nat, found: seq<nat>)
    | Advance(pid: nat)
    | Kill(pid: nat)  // also what an exception comes to
    | Mine(tx: nat, now: nat)
    | Foreign(call: Contract.Call)

  predicate Holds(c: Setup, s: State, i: nat) {
    Contract.Matches(s.base, i, c.hashes(i))
  }

  function End(s: State, pid: nat): (t: State) {
    s.(runs := s.runs - {pid})
  }

  function Go(s: State, pid: nat, run: Run): (t: State) {
    s.(runs := s.runs[pid := run])
  }

  predicate OfAnchor(run: Run) {
    !run.Listing? && !run.Matching? && !run.Settling? && !run.Unmarking?
  }

  function AdvanceAnchor(c: Setup, s: State, pid: nat, run: Run): (t: State)
    requires OfAnchor(run)
  {
    match run
    case Checking(i) => if i in s.receipts then End(s, pid) else Go(s, pid, Claiming(i))
    case Claiming(i) =>
      if i in s.markers then End(s, pid)
      else Go(s.(markers := s.markers[i := Claimed(pid)]), pid, Marking(i))
    case Marking(i) =>
      // The write reaches the file this run created, if that is still the one there.
      var written := if i in s.markers && s.markers[i] == Claimed(pid) then s.markers[i := Written(None)] else s.markers;
      Go(s.(markers := written), pid, Sending(i))
    case Sending(i) =>
      Go(s.(txs := s.txs + [Tx(i, Holds(c, s, i), InFlight)]), pid, Waiting(i, |s.txs|))
    case Waiting(i, tx) =>
      if tx >= |s.txs| || s.txs[tx].status == InFlight then s
      else if s.txs[tx].status == Succeeded then Go(s, pid, Updating(i, tx))
      else End(s, pid)
    case Updating(i, tx) => Go(s.(markers := s.markers[i := Written(Some(tx))]), pid, Recording(i, tx))
    case Recording(i, tx) => Go(s.(receipts := s.receipts[i := Some(tx)]), pid, Clearing(i))
    case Clearing(i) => End(s.(markers := s.markers - {i}), pid)
  }

  function AdvanceReconcile(c: Setup, s: State, pid: nat, run: Run): (t: State)
    requires !OfAnchor(run)
  {
    match run
    case Listing(todo) =>
      if todo == [] then End(s, pid)
      else if todo[0] in s.markers && s.markers[todo[0]].Written? then
        Go(s, pid, Matching(todo[0], s.markers[todo[0]].sent, todo[1..]))
      else End(s, pid)  // unreadable: it raises
    case Matching(i, sent, todo) => Go(s, pid, if Holds(c, s, i) then Settling(i, sent, todo) else Listing(todo))
    case Settling(i, sent, todo) => Go(s.(receipts := s.receipts[i := sent]), pid, Unmarking(i, todo))
    case Unmarking(i, todo) =>
      if i in s.markers then Go(s.(markers := s.markers - {i}), pid, Listing(todo))
      else End(s, pid)
  }

  function MineTx(c: Setup, s: State, tx: nat, now: nat): (t: State)
    requires tx < |s.txs|
  {
    var i := s.txs[tx].index;
    match Contract.AnchorCall(s.base, c.account, now, i, c.hashes(i))
    case Ok(base) => s.(base := base, txs := s.txs[tx := s.txs[tx].(status := Succeeded)])
    case Err(_) => s.(txs := s.txs[tx := s.txs[tx].(status := Reverted)])
  }

  /** One step; an action that cannot happen changes nothing. */
  function Step(c: Setup, s: State, a: Action): (t: State) {
    match a
    case Anchor(pid, index) => if pid in s.runs then s else Go(s, pid, Checking(index))
    case Reconcile(pid, found) =>
      if pid in s.runs || (exists i | i in s.markers :: i !in found) || (exists i | i in found :: i !in s.markers) then s
      else Go(s, pid, Listing(found))
    case Advance(pid) =>
      if pid !in s.runs then s
      else
        var run := s.runs[pid];
        if OfAnchor(run) then AdvanceAnchor(c, s, pid, run) else AdvanceReconcile(c, s, pid, run)
    case Kill(pid) => End(s, pid)
    case Mine(tx, now) =>
      if tx < |s.txs| && s.txs[tx].status == InFlight then MineTx(c, s, tx, now) else s
    case Foreign(call) => s.(base := Contract.Apply(s.base, call))
  }

  function Perform(c: Setup, s: State, actions: seq<Action>): (t: State)
    decreases |actions|
  {
    if actions == [] then s else Perform(c, Step(c, s, actions[0]), actions[1..])
  }

  function Start(base: Contract.Storage): (s: State) {
    State(base, [], map[], map[], map[])
  }

  /******* What every interleaving keeps *******/

  /** Has claimed the block and not yet sent. */
  predicate Holding(run: Run, i: nat) {
    run == Marking(i) || run == Sending(i)
  }

  /** Knows that Base holds the block. */
  predicate Knows(run: Run, i: nat) {
    match run
    case Updating(j, _) => i == j
    case Recording(j, _) => i == j
    case Clearing(j) => i == j
    case Settling(j, _, _) => i == j
    case Unmarking(j, _) => i == j
    case _ => false
  }

  /** Of the transactions sent for a block, only the first can have gone out before
      Base held it. */
  ghost predicate OneUnheldSend(txs: seq<Tx>) {
    forall a, b | 0 <= a < b < |txs| && txs[a].index == txs[b].index :: txs[b].held
  }

  ghost predicate ReceiptsHeld(c: Setup, s: State) {
    forall i | i in s.receipts :: Holds(c, s, i)
  }

  ghost predicate TxsTrue(c: Setup, s: State) {
    forall a | 0 <= a < |s.txs| ::
      && (s.txs[a].held ==> Holds(c, s, s.txs[a].index) && s.txs[a].status != Succeeded)
      && (s.txs[a].status == Succeeded ==> Holds(c, s, s.txs[a].index))
  }

  ghost predicate RunsTrue(c: Setup, s: State) {
    && (forall pid, i: nat | pid in s.runs && Knows(s.runs[pid], i) :: Holds(c, s, i))
    && (forall pid | pid in s.runs && s.runs[pid].Waiting? ::
          s.runs[pid].tx < |s.txs| && s.txs[s.runs[pid].tx].index == s.runs[pid].i)
  }

  /** While Base does not hold block `i`: whoever claimed it is alone and has its marker,
      and once a transaction was sent the marker stays and nobody is about to send. */
  ghost predicate Guarded(c: Setup, s: State, i: nat) {
    && (forall p | p in s.runs && Holding(s.runs[p], i) :: i in s.markers)
    && (forall p, q | p in s.runs && q in s.runs && Holding(s.runs[p], i) && Holding(s.runs[q], i) :: p == q)
    && (forall a | 0 <= a < |s.txs| && s.txs[a].index == i ::
          i in s.markers && forall p | p in s.runs :: !Holding(s.runs[p], i))
  }

  ghost predicate AllGuarded(c: Setup, s: State) {
    forall i: nat | !Holds(c, s, i) :: Guarded(c, s, i)
  }

  ghost predicate Safe(c: Setup, s: State) {
    && Contract.Valid(s.base)
    && OneUnheldSend(s.txs)
    && ReceiptsHeld(c, s)
    && TxsTrue(c, s)
    && RunsTrue(c, s)
    && AllGuarded(c, s)
  }

  /** A transaction that is named for a block was sent for it, and succeeded. */
  predicate Names(s: State, i: nat, sent: Option<nat>) {
    sent.Some? ==> sent.value < |s.txs| && s.txs[sent.value].index == i && s.txs[sent.value].status == Succeeded
  }

  predicate RunNames(s: State, run: Run) {
    match run
    case Waiting(i, tx) => tx < |s.txs| && s.txs[tx].index == i
    case Updating(i, tx) => Names(s, i, Some(tx))
    case Recording(i, tx) => Names(s, i, Some(tx))
    case Matching(i, sent, _) => Names(s, i, sent)
    case Settling(i, sent, _) => Names(s, i, sent)
    case _ => true
  }

  /** Whatever a marker, a receipt or a run names for a block is that block's own. */
  ghost predicate AllNamed(s: State) {
    && (forall i | i in s.markers && s.markers[i].Written? :: Names(s, i, s.markers[i].sent))
    && (forall i | i in s.receipts :: Names(s, i, s.receipts[i]))
    && (forall p | p in s.runs :: RunNames(s, s.runs[p]))
  }

  ghost predicate HeldStays(c: Setup, s: State, t: State) {
    forall i: nat | Holds(c, s, i) :: Holds(c, t, i)
  }

  /** A marker goes only once Base holds its block. */
  ghost predicate MarkersKept(c: Setup, s: State, t: State) {
    forall i | i in s.markers && i !in t.markers :: Holds(c, t, i)
  }

  lemma ApplyHolds(c: Setup, s: State, call: Contract.Call)
    requires Contract.Valid(s.base)
    ensures Contract.Valid(Contract.Apply(s.base, call))
    ensures HeldStays(c, s, s.(base := Contract.Apply(s.base, call)))
  {
    Contract.StepKeeps(s.base, call);
  }

  lemma AnchorTruths(c: Setup, s: State, pid: nat)
    requires Safe(c, s) && pid in s.runs && OfAnchor(s.runs[pid])
    ensures var t := AdvanceAnchor(c, s, pid, s.runs[pid]);
      && t.base == s.base
      && ReceiptsHeld(c, t) && TxsTrue(c, t) && RunsTrue(c, t) && MarkersKept(c, s, t)
  {
    hide Contract.Matches, Contract.Valid, OneUnheldSend, Guarded;
    var t := AdvanceAnchor(c, s, pid, s.runs[pid]);
    assert forall i: nat :: Holds(c, t, i) == Holds(c, s, i);
  }

  lemma AnchorSends(c: Setup, s: State, pid: nat)
    requires Safe(c, s) && pid in s.runs && OfAnchor(s.runs[pid])
    ensures OneUnheldSend(AdvanceAnchor(c, s, pid, s.runs[pid]).txs)
  {
    hide Contract.Matches, Contract.Valid, RunsTrue;
    if s.runs[pid].Sending? {
      var i := s.runs[pid].i;
      if !Holds(c, s, i) {
        assert Guarded(c, s, i) && Holding(s.runs[pid], i);
      }
    }
  }

  /** A step of one run that neither sends for `i`, nor comes to hold it, nor takes its
      marker away. */
  lemma GuardedStays(c: Setup, s: State, t: State, pid: nat, i: nat)
    requires Guarded(c, s, i) && pid in s.runs
    requires forall p | p in t.runs && p != pid :: p in s.runs && t.runs[p] == s.runs[p]
    requires pid in t.runs && Holding(t.runs[pid], i) ==> Holding(s.runs[pid], i)
    requires i in s.markers ==> i in t.markers
    requires t.txs == s.txs || (exists x: Tx :: t.txs == s.txs + [x] && x.index != i)
    ensures Guarded(c, t, i)
  {
    forall a | 0 <= a < |t.txs| && t.txs[a].index == i ensures a < |s.txs| && t.txs[a] == s.txs[a] {
    }
    forall p | p in t.runs && Holding(t.runs[p], i) ensures p in s.runs && Holding(s.runs[p], i) {
    }
  }

  lemma ClaimGuards(c: Setup, s: State, pid: nat, i: nat)
    requires Guarded(c, s, i) && pid in s.runs && s.runs[pid] == Claiming(i)
    ensures Guarded(c, AdvanceAnchor(c, s, pid, Claiming(i)), i)
  {
    hide Holds;
    var t := AdvanceAnchor(c, s, pid, Claiming(i));
    assert t.txs == s.txs && t.runs - {pid} == s.runs - {pid};
    assert forall p | p in t.runs && p != pid :: p in s.runs - {pid} && t.runs[p] == s.runs[p];
    assert i in t.markers;
  }

  lemma SendGuards(c: Setup, s: State, pid: nat, i: nat)
    requires Guarded(c, s, i) && pid in s.runs && s.runs[pid] == Sending(i)
    ensures Guarded(c, AdvanceAnchor(c, s, pid, Sending(i)), i)
  {
    hide Holds;
    var t := AdvanceAnchor(c, s, pid, Sending(i));
    assert t.markers == s.markers && forall p | p in t.runs && p != pid :: p in s.runs && t.runs[p] == s.runs[p];
  }

  lemma AnchorGuards(c: Setup, s: State, pid: nat, i: nat)
    requires Safe(c, s) && pid in s.runs && OfAnchor(s.runs[pid])
    requires !Holds(c, s, i)
    ensures Guarded(c, AdvanceAnchor(c, s, pid, s.runs[pid]), i)
  {
    hide Contract.Matches, Contract.Valid, TxsTrue, OneUnheldSend, ReceiptsHeld;
    var t := AdvanceAnchor(c, s, pid, s.runs[pid]);
    var run := s.runs[pid];
    assert Guarded(c, s, i);
    assert !Knows(run, i);
    if run == Claiming(i) {
      ClaimGuards(c, s, pid, i);
    } else if run == Sending(i) {
      SendGuards(c, s, pid, i);
    } else {
      hide Guarded, RunsTrue;
      GuardedStays(c, s, t, pid, i);
    }
  }

  lemma AnchorStep(c: Setup, s: State, pid: nat)
    requires Safe(c, s) && pid in s.runs && OfAnchor(s.runs[pid])
    ensures var t := AdvanceAnchor(c, s, pid, s.runs[pid]);
      Safe(c, t) && HeldStays(c, s, t) && MarkersKept(c, s, t)
  {
    hide AdvanceAnchor, OneUnheldSend, TxsTrue, RunsTrue, ReceiptsHeld, Guarded, MarkersKept, Contract.Matches;
    var t := AdvanceAnchor(c, s, pid, s.runs[pid]);
    AnchorTruths(c, s, pid);
    AnchorSends(c, s, pid);
    forall i: nat | !Holds(c, t, i) ensures Guarded(c, t, i) {
      AnchorGuards(c, s, pid, i);
    }
  }

  lemma ReconcileTruths(c: Setup, s: State, pid: nat)
    requires Safe(c, s) && pid in s.runs && !OfAnchor(s.runs[pid])
    ensures var t := AdvanceReconcile(c, s, pid, s.runs[pid]);
      && t.base == s.base && t.txs == s.txs
      && ReceiptsHeld(c, t) && TxsTrue(c, t) && RunsTrue(c, t) && MarkersKept(c, s, t)
  {
    hide Contract.Matches, Contract.Valid, OneUnheldSend, Guarded;
    var t := AdvanceReconcile(c, s, pid, s.runs[pid]);
    assert forall i: nat :: Holds(c, t, i) == Holds(c, s, i);
  }

  lemma ReconcileGuards(c: Setup, s: State, pid: nat, i: nat)
    requires Safe(c, s) && pid in s.runs && !OfAnchor(s.runs[pid])
    requires !Holds(c, s, i)
    ensures Guarded(c, AdvanceReconcile(c, s, pid, s.runs[pid]), i)
  {
    hide Contract.Matches, Contract.Valid, TxsTrue, OneUnheldSend, ReceiptsHeld;
    var t := AdvanceReconcile(c, s, pid, s.runs[pid]);
    assert Guarded(c, s, i);
    assert !Knows(s.runs[pid], i);
    GuardedStays(c, s, t, pid, i);
  }

  lemma ReconcileStep(c: Setup, s: State, pid: nat)
    requires Safe(c, s) && pid in s.runs && !OfAnchor(s.runs[pid])
    ensures var t := AdvanceReconcile(c, s, pid, s.runs[pid]);
      Safe(c, t) && HeldStays(c, s, t) && MarkersKept(c, s, t)
  {
    hide AdvanceReconcile, OneUnheldSend, TxsTrue, RunsTrue, ReceiptsHeld, Guarded, MarkersKept, Contract.Matches;
    var t := AdvanceReconcile(c, s, pid, s.runs[pid]);
    ReconcileTruths(c, s, pid);
    forall i: nat | !Holds(c, t, i) ensures Guarded(c, t, i) {
      ReconcileGuards(c, s, pid, i);
    }
  }

  /** Storage may move on; nothing that Base held is lost, and a run may start or end. */
  lemma OtherStep(c: Setup, s: State, t: State)
    requires Safe(c, s)
    requires Contract.Valid(t.base) && HeldStays(c, s, t)
    requires t.markers == s.markers && t.receipts == s.receipts && t.txs == s.txs
    requires forall p | p in t.runs :: (p in s.runs && t.runs[p] == s.runs[p]) || t.runs[p].Checking? || t.runs[p].Listing?
    ensures Safe(c, t)
  {
    hide Contract.Matches, Contract.Valid;
    forall i: nat | !Holds(c, t, i) ensures Guarded(c, t, i) {
      assert Guarded(c, s, i);
    }
  }

  lemma MineBase(c: Setup, s: State, tx: nat, now: nat)
    requires Safe(c, s) && tx < |s.txs| && s.txs[tx].status == InFlight
    ensures var t := MineTx(c, s, tx, now);
      && Contract.Valid(t.base) && HeldStays(c, s, t)
      && (t.txs[tx].status == Succeeded ==> Holds(c, t, s.txs[tx].index) && !s.txs[tx].held)
  {
    var i := s.txs[tx].index;
    Contract.StepKeeps(s.base, Contract.Anchoring(c.account, now, i, c.hashes(i)));
  }

  lemma MineStep(c: Setup, s: State, tx: nat, now: nat)
    requires Safe(c, s) && tx < |s.txs| && s.txs[tx].status == InFlight
    ensures var t := MineTx(c, s, tx, now);
      Safe(c, t) && HeldStays(c, s, t) && MarkersKept(c, s, t)
  {
    hide Contract.Matches, Contract.Valid, Contract.AnchorCall;
    MineBase(c, s, tx, now);
    var t := MineTx(c, s, tx, now);
    assert forall a | 0 <= a < |s.txs| :: t.txs[a].index == s.txs[a].index && t.txs[a].held == s.txs[a].held;
    forall i: nat | !Holds(c, t, i) ensures Guarded(c, t, i) {
      assert Guarded(c, s, i);
    }
  }

  /** Sent transactions stay, each for its block, and one that succeeded has succeeded. */
  ghost predicate TxsStay(s: State, t: State) {
    && |s.txs| <= |t.txs|
    && forall a | 0 <= a < |s.txs| ::
         t.txs[a].index == s.txs[a].index && (s.txs[a].status == Succeeded ==> t.txs[a].status == Succeeded)
  }

  lemma NamesStay(s: State, t: State)
    requires TxsStay(s, t)
    ensures forall i: nat, sent | Names(s, i, sent) :: Names(t, i, sent)
    ensures forall run | RunNames(s, run) :: RunNames(t, run)
  {
  }

  lemma AdvanceNames(c: Setup, s: State, pid: nat)
    requires AllNamed(s) && pid in s.runs
    ensures AllNamed(Step(c, s, Advance(pid)))
  {
    var t, run := Step(c, s, Advance(pid)), s.runs[pid];
    AdvanceFrame(c, s, pid);
    assert TxsStay(s, t);
    NamesStay(s, t);
    assert RunNames(t, run);
    hide Holds, Contract.Apply, Contract.AnchorCall, Names;
    FilesName(c, s, pid);
    forall p | p in t.runs ensures RunNames(t, t.runs[p]) {
      if p != pid {
        assert p in t.runs - {pid} && t.runs[p] == s.runs[p];
      } else {
        NextRunNames(c, s, pid);
      }
    }
  }

  /** What a run writes into a marker or a receipt, it was naming already. */
  lemma FilesName(c: Setup, s: State, pid: nat)
    requires AllNamed(s) && pid in s.runs
    requires TxsStay(s, Step(c, s, Advance(pid))) && RunNames(Step(c, s, Advance(pid)), s.runs[pid])
    requires forall i: nat, sent | Names(s, i, sent) :: Names(Step(c, s, Advance(pid)), i, sent)
    ensures var t := Step(c, s, Advance(pid));
      && (forall i | i in t.markers && t.markers[i].Written? :: Names(t, i, t.markers[i].sent))
      && (forall i | i in t.receipts :: Names(t, i, t.receipts[i]))
  {
    hide Holds, TxsStay;
    var t, run := Step(c, s, Advance(pid)), s.runs[pid];
    forall i | i in t.markers && t.markers[i].Written? ensures Names(t, i, t.markers[i].sent) {
      hide Names;
      if i in s.markers && t.markers[i] == s.markers[i] {
        assert Names(s, i, s.markers[i].sent);
      } else {
        assert t.markers[i].sent.None? || run == Updating(i, t.markers[i].sent.value);
        if t.markers[i].sent.None? {
          NoneNames(t, i);
        }
      }
    }
    forall i | i in t.receipts ensures Names(t, i, t.receipts[i]) {
      hide Names;
      if i in s.receipts && t.receipts[i] == s.receipts[i] {
        assert Names(s, i, s.receipts[i]);
      } else {
        assert (run.Recording? && run.i == i && t.receipts[i] == Some(run.tx)) || (run.Settling? && run.i == i && t.receipts[i] == run.sent);
      }
    }
  }

  lemma NoneNames(s: State, i: nat)
    ensures Names(s, i, None)
  {
  }

  /** And what it goes on to name, it was naming, has just sent, has just seen succeed, or
      has just read in a marker. */
  lemma NextRunNames(c: Setup, s: State, pid: nat)
    requires AllNamed(s) && pid in s.runs && RunNames(Step(c, s, Advance(pid)), s.runs[pid])
    requires TxsStay(s, Step(c, s, Advance(pid)))
    requires forall i: nat, sent | Names(s, i, sent) :: Names(Step(c, s, Advance(pid)), i, sent)
    requires pid in Step(c, s, Advance(pid)).runs
    ensures var t := Step(c, s, Advance(pid)); RunNames(t, t.runs[pid])
  {
    hide Holds;
  }

  lemma StepNames(c: Setup, s: State, a: Action)
    requires AllNamed(s)
    ensures AllNamed(Step(c, s, a))
  {
    hide Holds, Contract.Apply, Contract.AnchorCall, AdvanceAnchor, AdvanceReconcile;
    if a.Advance? {
      if a.pid in s.runs {
        AdvanceNames(c, s, a.pid);
      }
    } else {
      hide Names, RunNames;
      var t := Step(c, s, a);
      NamesStay(s, t);
      forall p | p in t.runs ensures RunNames(t, t.runs[p]) {
        if p !in s.runs || t.runs[p] != s.runs[p] {
          assert t.runs[p].Checking? || t.runs[p].Listing?;
          Nameless(t, t.runs[p]);
        }
      }
    }
  }

  lemma Nameless(s: State, run: Run)
    requires run.Checking? || run.Listing?
    ensures RunNames(s, run)
  {
  }

  lemma StepIsSafe(c: Setup, s: State, a: Action)
    requires Safe(c, s) && AllNamed(s)
    ensures var t := Step(c, s, a);
      Safe(c, t) && AllNamed(t) && HeldStays(c, s, t) && MarkersKept(c, s, t)
  {
    StepNames(c, s, a);
    hide Safe, AllNamed, Contract.Matches, AdvanceAnchor, AdvanceReconcile, MineTx;
    var t := Step(c, s, a);
    match a
    case Anchor(pid, index) => OtherSafe(c, s, t);
    case Reconcile(pid, found) => OtherSafe(c, s, t);
    case Advance(pid) =>
      if pid in s.runs {
        if OfAnchor(s.runs[pid]) {
          AnchorStep(c, s, pid);
        } else {
          ReconcileStep(c, s, pid);
        }
      }
    case Kill(pid) => OtherSafe(c, s, t);
    case Mine(tx, now) =>
      if tx < |s.txs| && s.txs[tx].status == InFlight {
        MineStep(c, s, tx, now);
      }
    case Foreign(call) =>
      ForeignStep(c, s, call);
  }

  lemma ForeignStep(c: Setup, s: State, call: Contract.Call)
    requires Safe(c, s)
    ensures var t := s.(base := Contract.Apply(s.base, call));
      Safe(c, t) && HeldStays(c, s, t)
  {
    ApplyHolds(c, s, call);
    OtherStep(c, s, s.(base := Contract.Apply(s.base, call)));
  }

  lemma OtherSafe(c: Setup, s: State, t: State)
    requires Safe(c, s) && t == s.(runs := t.runs)
    requires forall p | p in t.runs :: (p in s.runs && t.runs[p] == s.runs[p]) || t.runs[p].Checking? || t.runs[p].Listing?
    ensures Safe(c, t) && HeldStays(c, s, t)
  {
    assert forall i: nat :: Holds(c, t, i) == Holds(c, s, i);
    OtherStep(c, s, t);
  }

  lemma {:induction false} RunIsSafe(c: Setup, s: State, actions: seq<Action>)
    requires Safe(c, s) && AllNamed(s)
    ensures var t := Perform(c, s, actions);
      Safe(c, t) && AllNamed(t) && HeldStays(c, s, t)
    decreases |actions|
  {
    if actions != [] {
      hide Safe, AllNamed, Step, Holds;
      StepIsSafe(c, s, actions[0]);
      RunIsSafe(c, Step(c, s, actions[0]), actions[1..]);
    }
  }

  /** The transactions for a block that went out while Base did not hold it. */
  function UnheldSends(s: State, i: nat): (sends: set<nat>) {
    set a: nat | a < |s.txs| && s.txs[a].index == i && !s.txs[a].held
  }

  /** After any interleaving of any runs, killed wherever they were: at most one
      transaction for a block was sent while Base did not hold it; every other one was
      refused by the contract or will be; a receipt exists only if Base holds the block;
      and a marker or receipt that names a transaction names one that succeeded for it. */
  lemma AnyInterleaving(c: Setup, base: Contract.Storage, actions: seq<Action>, i: nat)
    requires Contract.Valid(base)
    ensures var s := Perform(c, Start(base), actions);
      && |UnheldSends(s, i)| <= 1
      && (forall a | 0 <= a < |s.txs| && s.txs[a].status == Succeeded && s.txs[a].index == i :: UnheldSends(s, i) == {a})
      && (i in s.receipts ==> Holds(c, s, i))
      && (forall tx: nat | i in s.markers && s.markers[i] == Written(Some(tx)) ::
            tx < |s.txs| && s.txs[tx].index == i && s.txs[tx].status == Succeeded)
      && (forall tx: nat | i in s.receipts && s.receipts[i] == Some(tx) ::
            tx < |s.txs| && s.txs[tx].index == i && s.txs[tx].status == Succeeded)
  {
    hide Perform, AllGuarded, RunsTrue, RunNames, Contract.Matches, Contract.Valid;
    assert Safe(c, Start(base)) && AllNamed(Start(base)) by { StartIsSafe(c, base); }
    RunIsSafe(c, Start(base), actions);
    var s := Perform(c, Start(base), actions);
    var sends := UnheldSends(s, i);
    forall a, b | a in sends && b in sends ensures a == b {
    }
    AtMostOne(sends);
    forall a | 0 <= a < |s.txs| && s.txs[a].status == Succeeded && s.txs[a].index == i ensures sends == {a} {
      assert a in sends;
    }
  }

  lemma StartIsSafe(c: Setup, base: Contract.Storage)
    requires Contract.Valid(base)
    ensures Safe(c, Start(base)) && AllNamed(Start(base))
  {
  }

  lemma AtMostOne(s: set<nat>)
    requires forall a, b | a in s && b in s :: a == b
    ensures |s| <= 1
  {
    if s != {} {
      var a :| a in s;
      assert s == {a};
    }
  }

  /** And whatever happens next, a marker that goes is one whose block Base holds. */
  lemma MarkersGoOnlyWhenHeld(c: Setup, base: Contract.Storage, actions: seq<Action>, next: Action)
    requires Contract.Valid(base)
    ensures var s := Perform(c, Start(base), actions);
      MarkersKept(c, s, Step(c, s, next))
  {
    hide Step, Safe, AllNamed, Holds;
    StartIsSafe(c, base);
    RunIsSafe(c, Start(base), actions);
    StepIsSafe(c, Perform(c, Start(base), actions), next);
  }

  /******* When at most one transaction is ever sent *******/

  predicate Sent(s: State, i: nat) {
    exists a | 0 <= a < |s.txs| :: s.txs[a].index == i
  }

  /** At most one transaction for block `i`. */
  ghost predicate OneSendFor(txs: seq<Tx>, i: nat) {
    forall a, b | 0 <= a < |txs| && 0 <= b < |txs| && txs[a].index == i && txs[b].index == i :: a == b
  }

  /** A transaction for the block was sent, or some run has claimed it and is about to send. */
  predicate Engaged(s: State, i: nat) {
    Sent(s, i) || exists p | p in s.runs :: Holding(s.runs[p], i)
  }

  /** This step claims the block: a run that found no receipt creates the marker. */
  predicate Claims(s: State, a: Action, i: nat) {
    a.Advance? && a.pid in s.runs && s.runs[a.pid] == Claiming(i) && i !in s.markers
  }

  /** Every claim of the block finds it not yet engaged. */
  predicate ClaimsFresh(c: Setup, s: State, actions: seq<Action>, i: nat)
    decreases |actions|
  {
    actions == [] ||
    ((Claims(s, actions[0], i) ==> !Engaged(s, i)) && ClaimsFresh(c, Step(c, s, actions[0]), actions[1..], i))
  }

  /** Every claim of the block would find no receipt, if it looked again. */
  predicate ClaimsUnreceipted(c: Setup, s: State, actions: seq<Action>, i: nat)
    decreases |actions|
  {
    actions == [] ||
    ((Claims(s, actions[0], i) ==> i !in s.receipts) && ClaimsUnreceipted(c, Step(c, s, actions[0]), actions[1..], i))
  }

  /** Nobody claims the block; whoever has goes on. */
  predicate ClaimsNothing(c: Setup, s: State, actions: seq<Action>, i: nat)
    decreases |actions|
  {
    actions == [] || (!Claims(s, actions[0], i) && ClaimsNothing(c, Step(c, s, actions[0]), actions[1..], i))
  }

  /** One run at most holds the block, none once it is sent, and it is sent once. */
  ghost predicate Lone(s: State, i: nat) {
    && (forall p, q | p in s.runs && q in s.runs && Holding(s.runs[p], i) && Holding(s.runs[q], i) :: p == q)
    && (Sent(s, i) ==> forall p | p in s.runs :: !Holding(s.runs[p], i))
    && OneSendFor(s.txs, i)
  }

  /** A step of one run that sends nothing for `i` and does not come to hold it. */
  lemma LoneStays(s: State, t: State, pid: nat, i: nat)
    requires Lone(s, i) && pid in s.runs
    requires forall p | p in t.runs && p != pid :: p in s.runs && t.runs[p] == s.runs[p]
    requires pid in t.runs && Holding(t.runs[pid], i) ==> Holding(s.runs[pid], i)
    requires t.txs == s.txs || (exists x: Tx :: t.txs == s.txs + [x] && x.index != i)
    ensures Lone(t, i)
  {
    forall a | 0 <= a < |t.txs| && t.txs[a].index == i ensures a < |s.txs| && t.txs[a] == s.txs[a] {
    }
    forall p | p in t.runs && Holding(t.runs[p], i) ensures p in s.runs && Holding(s.runs[p], i) {
    }
  }

  lemma SendingLone(s: State, t: State, pid: nat, i: nat, held: bool)
    requires Lone(s, i) && pid in s.runs && Holding(s.runs[pid], i)
    requires forall p | p in t.runs && p != pid :: p in s.runs && t.runs[p] == s.runs[p]
    requires pid in t.runs && !Holding(t.runs[pid], i)
    requires t.txs == s.txs + [Tx(i, held, InFlight)]
    ensures Lone(t, i)
  {
    assert !Sent(s, i);
    assert forall a | 0 <= a < |s.txs| :: t.txs[a] == s.txs[a];
  }

  lemma AdvanceLone(c: Setup, s: State, pid: nat, i: nat)
    requires Lone(s, i) && pid in s.runs
    requires Claims(s, Advance(pid), i) ==> !Engaged(s, i)
    ensures Lone(Step(c, s, Advance(pid)), i)
  {
    hide Holds, Contract.Apply, Contract.AnchorCall;
    var t := Step(c, s, Advance(pid));
    var run := s.runs[pid];
    if run == Sending(i) {
      hide Lone;
      SendingLone(s, t, pid, i, Holds(c, s, i));
    } else if !Claims(s, Advance(pid), i) {
      hide Lone;
      LoneStays(s, t, pid, i);
    } else {
      hide AdvanceReconcile, OneSendFor;
      assert t.txs == s.txs;
    }
  }

  lemma StepLone(c: Setup, s: State, a: Action, i: nat)
    requires Lone(s, i) && (Claims(s, a, i) ==> !Engaged(s, i))
    ensures Lone(Step(c, s, a), i)
  {
    hide Holds, Contract.Apply, Contract.AnchorCall, AdvanceAnchor, AdvanceReconcile;
    if a.Advance? {
      if a.pid in s.runs {
        AdvanceLone(c, s, a.pid, i);
      }
    } else {
      var t := Step(c, s, a);
      assert |t.txs| == |s.txs| && forall k | 0 <= k < |s.txs| :: t.txs[k].index == s.txs[k].index;
    }
  }

  lemma {:induction false} RunLone(c: Setup, s: State, actions: seq<Action>, i: nat)
    requires Lone(s, i) && ClaimsFresh(c, s, actions, i)
    ensures Lone(Perform(c, s, actions), i)
    decreases |actions|
  {
    if actions != [] {
      hide Step, Lone, Engaged, Claims;
      StepLone(c, s, actions[0], i);
      RunLone(c, Step(c, s, actions[0]), actions[1..], i);
    }
  }

  lemma {:induction false} FreshPrefix(c: Setup, s: State, actions: seq<Action>, k: nat, i: nat)
    requires k <= |actions| && ClaimsFresh(c, s, actions, i)
    ensures ClaimsFresh(c, s, actions[..k], i)
    decreases |actions|
  {
    if k > 0 {
      hide Step, Engaged, Claims;
      FreshPrefix(c, Step(c, s, actions[0]), actions[1..], k - 1, i);
      assert actions[..k][1..] == actions[1..][..k - 1];
    }
  }

  lemma {:induction false} NothingIsFresh(c: Setup, s: State, actions: seq<Action>, i: nat)
    requires ClaimsNothing(c, s, actions, i)
    ensures ClaimsFresh(c, s, actions, i)
    decreases |actions|
  {
    if actions != [] {
      hide Step, Engaged, Claims;
      NothingIsFresh(c, Step(c, s, actions[0]), actions[1..], i);
    }
  }

  /******* A claim that comes too late *******/

  lemma PerformTwo(c: Setup, s: State, a1: Action, a2: Action, i: nat)
    ensures Perform(c, s, [a1, a2]) == Step(c, Step(c, s, a1), a2)
    ensures !Claims(s, a1, i) && !Claims(Step(c, s, a1), a2, i) ==> ClaimsNothing(c, s, [a1, a2], i)
  {
    hide Step, Claims;
    assert [a1, a2][1..] == [a2] && [a2][1..] == [];
    assert Perform(c, Step(c, s, a1), [a2]) == Step(c, Step(c, s, a1), a2);
    assert !Claims(Step(c, s, a1), a2, i) ==> ClaimsNothing(c, Step(c, s, a1), [a2], i);
  }

  /** A run that holds the block goes on to send for it, whatever else was sent. */
  lemma HolderSends(c: Setup, s: State, pid: nat, i: nat)
    requires pid in s.runs && Holding(s.runs[pid], i)
    ensures var on := [Advance(pid), Advance(pid)];
      var t := Perform(c, s, on);
      && ClaimsNothing(c, s, on, i)
      && |t.txs| == |s.txs| + 1 && t.txs[..|s.txs|] == s.txs && t.txs[|s.txs|].index == i
      && forall p | p != pid && p in s.runs :: p in t.runs && t.runs[p] == s.runs[p]
  {
    hide Holds, Contract.Apply, Contract.AnchorCall;
    PerformTwo(c, s, Advance(pid), Advance(pid), i);
  }

  lemma {:induction false} NothingThenNothing(c: Setup, s: State, first: seq<Action>, rest: seq<Action>, i: nat)
    requires ClaimsNothing(c, s, first, i) && ClaimsNothing(c, Perform(c, s, first), rest, i)
    ensures ClaimsNothing(c, s, first + rest, i)
    decreases |first|
  {
    if first == [] {
      assert first + rest == rest;
    } else {
      hide Step, Claims;
      NothingThenNothing(c, Step(c, s, first[0]), first[1..], rest, i);
      assert (first + rest)[1..] == first[1..] + rest;
    }
  }

  /** A claim of an engaged block lets two transactions out, with no further claim. */
  lemma LateClaimSendsTwice(c: Setup, s: State, pid: nat, i: nat) returns (rest: seq<Action>)
    requires Claims(s, Advance(pid), i) && Engaged(s, i)
    ensures var t := Step(c, s, Advance(pid));
      ClaimsNothing(c, t, rest, i) && !OneSendFor(Perform(c, t, rest).txs, i)
  {
    hide ClaimsNothing, Holds, AdvanceReconcile, MineTx;
    var t := Step(c, s, Advance(pid));
    assert t.runs[pid] == Marking(i) && t.txs == s.txs;
    var last := [Advance(pid), Advance(pid)];
    if Sent(s, i) {
      HolderSends(c, t, pid, i);
      rest := last;
      var a :| 0 <= a < |s.txs| && s.txs[a].index == i;
      assert Perform(c, t, rest).txs[a].index == i;
    } else {
      var q :| q in s.runs && Holding(s.runs[q], i);
      assert q != pid && t.runs[q] == s.runs[q];
      var first := [Advance(q), Advance(q)];
      HolderSends(c, t, q, i);
      var u := Perform(c, t, first);
      HolderSends(c, u, pid, i);
      NothingThenNothing(c, t, first, last, i);
      PerformSplits(c, t, first, last);
      rest := first + last;
      assert Perform(c, t, rest).txs[|t.txs|].index == i;
    }
  }

  lemma {:induction false} PerformSplits(c: Setup, s: State, first: seq<Action>, rest: seq<Action>)
    ensures Perform(c, s, first + rest) == Perform(c, Perform(c, s, first), rest)
    decreases |first|
  {
    if first == [] {
      assert first + rest == rest;
    } else {
      assert (first + rest)[1..] == first[1..] + rest;
      PerformSplits(c, Step(c, s, first[0]), first[1..], rest);
    }
  }

  /** From some point of the history, with nobody claiming the block any more, a second
      transaction for it goes out. */
  ghost predicate SendsAgain(c: Setup, s: State, actions: seq<Action>, i: nat) {
    exists k: nat, rest: seq<Action> :: k <= |actions| && SendsAgainFrom(c, s, actions[..k], rest, i)
  }

  ghost predicate SendsAgainFrom(c: Setup, s: State, done: seq<Action>, rest: seq<Action>, i: nat) {
    var t := Perform(c, s, done);
    ClaimsNothing(c, t, rest, i) && !OneSendFor(Perform(c, t, rest).txs, i)
  }

  lemma {:induction false} LateClaimSendsAgain(c: Setup, s: State, actions: seq<Action>, i: nat)
    requires !ClaimsFresh(c, s, actions, i)
    ensures SendsAgain(c, s, actions, i)
    decreases |actions|
  {
    hide Step, Engaged, Claims, ClaimsNothing, OneSendFor;
    var t := Step(c, s, actions[0]);
    if Claims(s, actions[0], i) && Engaged(s, i) {
      assert actions[0].Advance? by { ClaimAdvances(s, actions[0], i); }
      var rest := LateClaimSendsTwice(c, s, actions[0].pid, i);
      assert actions[..1] == [actions[0]];
      assert Perform(c, s, actions[..1]) == t by { assert [actions[0]][1..] == []; }
      assert SendsAgainFrom(c, s, actions[..1], rest, i);
    } else {
      LateClaimSendsAgain(c, t, actions[1..], i);
      var k: nat, rest: seq<Action> :| k <= |actions[1..]| && SendsAgainFrom(c, t, actions[1..][..k], rest, i);
      assert actions[..k + 1][1..] == actions[1..][..k];
      assert Perform(c, s, actions[..k + 1]) == Perform(c, t, actions[1..][..k]);
      assert SendsAgainFrom(c, s, actions[..k + 1], rest, i);
    }
  }

  lemma ClaimAdvances(s: State, a: Action, i: nat)
    requires Claims(s, a, i)
    ensures a.Advance?
  {
  }

  lemma StartIsLone(base: Contract.Storage, i: nat)
    ensures Lone(Start(base), i)
  {
  }

  /** Exactly when one transaction is all that can come of a history: every claim of the
      block found it neither sent nor held by a run about to send. Then, wherever the
      history is cut and however the runs that have claimed go on, no two transactions
      for the block are sent; and if one claim did not, from some point two are. */
  lemma SendsOnceIff(c: Setup, base: Contract.Storage, actions: seq<Action>, i: nat)
    ensures ClaimsFresh(c, Start(base), actions, i) <==> !SendsAgain(c, Start(base), actions, i)
  {
    hide Step, ClaimsFresh, ClaimsNothing, Perform, Lone, Start;
    var s := Start(base);
    StartIsLone(base, i);
    if ClaimsFresh(c, s, actions, i) {
      forall k: nat, rest: seq<Action> | k <= |actions| ensures !SendsAgainFrom(c, s, actions[..k], rest, i) {
        FreshPrefix(c, s, actions, k, i);
        RunLone(c, s, actions[..k], i);
        var t := Perform(c, s, actions[..k]);
        if ClaimsNothing(c, t, rest, i) {
          NothingIsFresh(c, t, rest, i);
          RunLone(c, t, rest, i);
          LoneSendsOnce(Perform(c, t, rest), i);
        }
      }
    } else {
      LateClaimSendsAgain(c, s, actions, i);
    }
  }

  lemma LoneSendsOnce(s: State, i: nat)
    requires Lone(s, i)
    ensures OneSendFor(s.txs, i)
  {
  }

  /******* The guard that would do it *******/

  /** Whoever engaged the block left its marker, or the receipt that came of it. */
  ghost predicate Traced(s: State, i: nat) {
    && (Engaged(s, i) ==> i in s.markers || i in s.receipts)
    && (forall p | p in s.runs && (s.runs[p] == Clearing(i) || (s.runs[p].Unmarking? && s.runs[p].i == i)) :: i in s.receipts)
  }

  /** One step of a run leaves the others as they are, and sends for its own block only. */
  lemma AdvanceFrame(c: Setup, s: State, pid: nat)
    requires pid in s.runs
    ensures var t := Step(c, s, Advance(pid));
      && t.base == s.base && t.runs - {pid} == s.runs - {pid}
      && (forall i | i in s.receipts :: i in t.receipts)
      && (t.txs == s.txs || (s.runs[pid].Sending? && exists held :: t.txs == s.txs + [Tx(s.runs[pid].i, held, InFlight)]))
  {
    hide Holds;
    if OfAnchor(s.runs[pid]) {
      hide AdvanceReconcile;
    } else {
      hide AdvanceAnchor;
    }
  }

  lemma EngagedStep(c: Setup, s: State, pid: nat, i: nat)
    requires pid in s.runs && Engaged(Step(c, s, Advance(pid)), i)
    ensures Engaged(s, i) || i in Step(c, s, Advance(pid)).markers
  {
    hide Holds;
    var t := Step(c, s, Advance(pid));
    AdvanceFrame(c, s, pid);
    if Sent(t, i) {
      var a :| 0 <= a < |t.txs| && t.txs[a].index == i;
      assert a < |s.txs| ==> s.txs[a] == t.txs[a];
      assert a >= |s.txs| ==> Holding(s.runs[pid], i);
    } else {
      hide AdvanceReconcile;
      var p :| p in t.runs && Holding(t.runs[p], i);
      if p != pid {
        assert p in t.runs - {pid} && t.runs[p] == s.runs[p];
      } else {
        assert Holding(s.runs[pid], i) || s.runs[pid] == Claiming(i) by { StartsHolding(c, s, pid, i); }
        assert s.runs[pid] == Claiming(i) ==> i in t.markers;
      }
    }
  }

  lemma StartsHolding(c: Setup, s: State, pid: nat, i: nat)
    requires pid in s.runs
    requires var t := Step(c, s, Advance(pid)); pid in t.runs && Holding(t.runs[pid], i)
    ensures Holding(s.runs[pid], i) || s.runs[pid] == Claiming(i)
  {
    hide Holds;
  }

  lemma AdvanceTraced(c: Setup, s: State, pid: nat, i: nat)
    requires Traced(s, i) && pid in s.runs
    ensures Traced(Step(c, s, Advance(pid)), i)
  {
    var t := Step(c, s, Advance(pid));
    AdvanceFrame(c, s, pid);
    if Engaged(t, i) {
      EngagedStep(c, s, pid, i);
    }
    hide Holds, Engaged, Contract.Apply, Contract.AnchorCall;
    forall p | p in t.runs && (t.runs[p] == Clearing(i) || (t.runs[p].Unmarking? && t.runs[p].i == i)) ensures i in t.receipts {
      if p != pid {
        assert p in t.runs - {pid} && t.runs[p] == s.runs[p];
      }
    }
  }

  lemma StepTraced(c: Setup, s: State, a: Action, i: nat)
    requires Traced(s, i)
    ensures Traced(Step(c, s, a), i)
  {
    hide Holds, Contract.Apply, Contract.AnchorCall, AdvanceAnchor, AdvanceReconcile;
    if a.Advance? {
      if a.pid in s.runs {
        AdvanceTraced(c, s, a.pid, i);
      }
    } else {
      var t := Step(c, s, a);
      assert |t.txs| == |s.txs| && forall k | 0 <= k < |s.txs| :: t.txs[k].index == s.txs[k].index;
      assert Engaged(t, i) ==> Engaged(s, i);
    }
  }

  lemma {:induction false} UnreceiptedIsFresh(c: Setup, s: State, actions: seq<Action>, i: nat)
    requires Traced(s, i) && ClaimsUnreceipted(c, s, actions, i)
    ensures ClaimsFresh(c, s, actions, i)
    ensures Traced(Perform(c, s, actions), i)
    decreases |actions|
  {
    if actions != [] {
      hide Step, Engaged;
      StepTraced(c, s, actions[0], i);
      UnreceiptedIsFresh(c, Step(c, s, actions[0]), actions[1..], i);
    }
  }

  /** In any interleaving in which each claim of the block would find no receipt for it,
      were the check made again under the claim, no two transactions for it are sent. */
  lemma UnreceiptedClaimsSendOnce(c: Setup, base: Contract.Storage, actions: seq<Action>, i: nat)
    requires ClaimsUnreceipted(c, Start(base), actions, i)
    ensures OneSendFor(Perform(c, Start(base), actions).txs, i)
    ensures Lone(Perform(c, Start(base), actions), i)
  {
    hide Perform, ClaimsUnreceipted, ClaimsFresh;
    StartIsLone(base, i);
    UnreceiptedIsFresh(c, Start(base), actions, i);
    RunLone(c, Start(base), actions, i);
  }

  /** After such a history, a run about to claim goes on to a second transaction if and
      only if the marker is gone and one was sent. */
  lemma ClaimSendsAgainIff(c: Setup, base: Contract.Storage, actions: seq<Action>, pid: nat, i: nat)
    requires ClaimsUnreceipted(c, Start(base), actions, i)
    requires var s := Perform(c, Start(base), actions); pid in s.runs && s.runs[pid] == Claiming(i)
    ensures var s := Perform(c, Start(base), actions);
      !OneSendFor(Perform(c, Step(c, s, Advance(pid)), [Advance(pid), Advance(pid)]).txs, i)
      <==> i !in s.markers && Sent(s, i)
  {
    var s := Perform(c, Start(base), actions);
    UnreceiptedClaimsSendOnce(c, base, actions, i);
    hide Perform, Start, ClaimsUnreceipted;
    OneClaimSendsIff(c, s, pid, i);
  }

  lemma OneClaimSendsIff(c: Setup, s: State, pid: nat, i: nat)
    requires Lone(s, i) && pid in s.runs && s.runs[pid] == Claiming(i)
    ensures !OneSendFor(Perform(c, Step(c, s, Advance(pid)), [Advance(pid), Advance(pid)]).txs, i)
       <==> i !in s.markers && Sent(s, i)
  {
    hide Holds, AdvanceReconcile, MineTx, Contract.Apply;
    var t := Step(c, s, Advance(pid));
    if i in s.markers {
      assert pid !in t.runs;
      PerformTwo(c, t, Advance(pid), Advance(pid), i);
    } else {
      HolderSends(c, t, pid, i);
      var u := Perform(c, t, [Advance(pid), Advance(pid)]);
      assert forall a | 0 <= a < |s.txs| :: u.txs[a] == u.txs[..|s.txs|][a];
      if Sent(s, i) {
        var a :| 0 <= a < |s.txs| && s.txs[a].index == i;
        assert u.txs[a].index == i;
      }
    }
  }

  /******* Runs that never overlap *******/

  /** A run starts only when no other is going. */
  predicate NeverOverlap(c: Setup, s: State, actions: seq<Action>)
    decreases |actions|
  {
    actions == [] ||
    var a := actions[0];
    && (a.Anchor? || a.Reconcile? ==> s.runs == map[])
    && NeverOverlap(c, Step(c, s, a), actions[1..])
  }

  /** One run at most, and what it found of the receipt is still so. */
  ghost predicate Alone(s: State) {
    && (forall p, q | p in s.runs && q in s.runs :: p == q)
    && (forall p | p in s.runs && s.runs[p].Claiming? :: s.runs[p].i !in s.receipts)
  }

  lemma StepAlone(c: Setup, s: State, a: Action)
    requires Alone(s) && (a.Anchor? || a.Reconcile? ==> s.runs == map[])
    ensures Alone(Step(c, s, a))
  {
    hide Holds, Contract.Apply, Contract.AnchorCall;
  }

  lemma {:induction false} AloneIsUnreceipted(c: Setup, s: State, actions: seq<Action>, i: nat)
    requires Alone(s) && NeverOverlap(c, s, actions)
    ensures ClaimsUnreceipted(c, s, actions, i)
    decreases |actions|
  {
    if actions != [] {
      hide Step;
      StepAlone(c, s, actions[0]);
      AloneIsUnreceipted(c, Step(c, s, actions[0]), actions[1..], i);
    }
  }

  ghost predicate OneSend(txs: seq<Tx>) {
    forall a, b | 0 <= a < b < |txs| :: txs[a].index != txs[b].index
  }

  /** So runs that never overlap send at most one transaction for a block, ever, however
      often they are killed and started again. */
  lemma AloneSendsOnce(c: Setup, base: Contract.Storage, actions: seq<Action>)
    requires NeverOverlap(c, Start(base), actions)
    ensures OneSend(Perform(c, Start(base), actions).txs)
  {
    hide Perform, NeverOverlap, ClaimsUnreceipted;
    var txs := Perform(c, Start(base), actions).txs;
    forall a, b | 0 <= a < b < |txs| ensures txs[a].index != txs[b].index {
      var i := txs[a].index;
      AloneIsUnreceipted(c, Start(base), actions, i);
      UnreceiptedClaimsSendOnce(c, base, actions, i);
      assert OneSendFor(txs, i);
    }
  }

  /******* A node that is not behind *******/

  /** Every transaction goes out past a gas estimate the contract passes as it stands. */
  ghost predicate EstimatesCurrent(c: Setup, s: State, actions: seq<Action>)
    decreases |actions|
  {
    actions == [] ||
    var a := actions[0];
    && (a.Advance? && a.pid in s.runs && s.runs[a.pid].Sending? ==>
          Contract.AnchorCall(s.base, c.account, 0, s.runs[a.pid].i, c.hashes(s.runs[a.pid].i)).Ok?)
    && EstimatesCurrent(c, Step(c, s, a), actions[1..])
  }

  ghost predicate NoneHeld(txs: seq<Tx>) {
    forall a | 0 <= a < |txs| :: !txs[a].held
  }

  lemma StepNoneHeld(c: Setup, s: State, a: Action)
    requires NoneHeld(s.txs) && EstimatesCurrent(c, s, [a])
    ensures NoneHeld(Step(c, s, a).txs)
  {
    hide Contract.Apply;
    assert a.Advance? && a.pid in s.runs && s.runs[a.pid].Sending? ==> !Holds(c, s, s.runs[a.pid].i);
  }

  lemma {:induction false} RunNoneHeld(c: Setup, s: State, actions: seq<Action>)
    requires NoneHeld(s.txs) && EstimatesCurrent(c, s, actions)
    ensures NoneHeld(Perform(c, s, actions).txs)
    decreases |actions|
  {
    if actions != [] {
      hide Step, Contract.AnchorCall;
      assert EstimatesCurrent(c, s, [actions[0]]) by { assert [actions[0]][1..] == []; }
      StepNoneHeld(c, s, actions[0]);
      RunNoneHeld(c, Step(c, s, actions[0]), actions[1..]);
    }
  }

  /** `transact` estimates gas first, and a call the contract would refuse has no
      estimate. Against a node that is not behind, that alone leaves at most one
      transaction for a block, however runs overlap. */
  lemma CurrentNodeSendsOnce(c: Setup, base: Contract.Storage, actions: seq<Action>)
    requires Contract.Valid(base) && EstimatesCurrent(c, Start(base), actions)
    ensures OneSend(Perform(c, Start(base), actions).txs)
  {
    hide Perform, EstimatesCurrent, AllGuarded, RunsTrue, TxsTrue, Contract.Valid;
    assert Safe(c, Start(base)) && AllNamed(Start(base)) by { StartIsSafe(c, base); }
    RunIsSafe(c, Start(base), actions);
    RunNoneHeld(c, Start(base), actions);
  }

  /******* Runs that overlap can send twice *******/

  /** Runs 1 and 2 both find no receipt. */
  const BOTH_CHECK := [Anchor(1, 1), Advance(1), Anchor(2, 1), Advance(2)]

  /** Run 1 claims the marker, writes it, sends, and its transaction is mined. */
  const FIRST_SENDS := [Advance(1), Advance(1), Advance(1), Mine(0, 7)]

  /** Run 1 goes on to the end, and removes the marker. */
  const FIRST_ENDS := [Advance(1), Advance(1), Advance(1), Advance(1)]

  /** Run 2 claims the marker anew, and sends. */
  const SECOND_SENDS := [Advance(2), Advance(2), Advance(2), Kill(2)]

  lemma PerformFour(c: Setup, s: State, a1: Action, a2: Action, a3: Action, a4: Action)
    ensures Perform(c, s, [a1, a2, a3, a4]) == Step(c, Step(c, Step(c, Step(c, s, a1), a2), a3), a4)
  {
    hide Step;
    var s1 := Step(c, s, a1);
    var s2 := Step(c, s1, a2);
    var s3 := Step(c, s2, a3);
    assert [a1, a2, a3, a4][1..] == [a2, a3, a4];
    assert [a2, a3, a4][1..] == [a3, a4];
    assert [a3, a4][1..] == [a4];
    assert [a4][1..] == [];
    assert Perform(c, s3, [a4]) == Step(c, s3, a4);
    assert Perform(c, s2, [a3, a4]) == Perform(c, s3, [a4]);
    assert Perform(c, s1, [a2, a3, a4]) == Perform(c, s2, [a3, a4]);
  }

  lemma BothCheck(c: Setup, base: Contract.Storage)
    ensures Perform(c, Start(base), BOTH_CHECK) == State(base, [], map[], map[], map[1 := Claiming(1), 2 := Claiming(1)])
  {
    hide Perform;
    PerformFour(c, Start(base), Anchor(1, 1), Advance(1), Anchor(2, 1), Advance(2));
    assert BOTH_CHECK == [Anchor(1, 1), Advance(1), Anchor(2, 1), Advance(2)];
  }

  lemma FirstSends(c: Setup, s: State)
    requires Contract.Valid(s.base) && s.base.owner == c.account && s.base.latestIndex == 0
    requires c.hashes(1) != Contract.ZERO32
    requires s == State(s.base, [], map[], map[], map[1 := Claiming(1), 2 := Claiming(1)])
    ensures var t := Perform(c, s, FIRST_SENDS);
      && t == State(t.base, [Tx(1, false, Succeeded)], map[1 := Written(None)], map[], map[1 := Waiting(1, 0), 2 := Claiming(1)])
      && Holds(c, t, 1)
  {
    hide Perform, AdvanceReconcile, Contract.Apply;
    PerformFour(c, s, Advance(1), Advance(1), Advance(1), Mine(0, 7));
    assert FIRST_SENDS == [Advance(1), Advance(1), Advance(1), Mine(0, 7)];
    var s1 := Step(c, s, Advance(1));
    assert s1 == State(s.base, [], map[1 := Claimed(1)], map[], map[1 := Marking(1), 2 := Claiming(1)]);
    var s2 := Step(c, s1, Advance(1));
    assert s2 == State(s.base, [], map[1 := Written(None)], map[], map[1 := Sending(1), 2 := Claiming(1)]);
    var s3 := Step(c, s2, Advance(1));
    assert s3 == State(s.base, [Tx(1, false, InFlight)], map[1 := Written(None)], map[], map[1 := Waiting(1, 0), 2 := Claiming(1)]);
  }

  lemma FirstUpdates(c: Setup, s: State)
    requires s == State(s.base, [Tx(1, false, Succeeded)], map[1 := Written(None)], map[], map[1 := Waiting(1, 0), 2 := Claiming(1)])
    ensures Step(c, Step(c, s, Advance(1)), Advance(1))
         == State(s.base, s.txs, map[1 := Written(Some(0))], map[], map[1 := Recording(1, 0), 2 := Claiming(1)])
  {
    hide Holds;
    var s1 := Step(c, s, Advance(1));
    assert s1 == State(s.base, s.txs, map[1 := Written(None)], map[], map[1 := Updating(1, 0), 2 := Claiming(1)]);
  }

  lemma FirstClears(c: Setup, s: State)
    requires s == State(s.base, s.txs, map[1 := Written(Some(0))], map[], map[1 := Recording(1, 0), 2 := Claiming(1)])
    ensures Step(c, Step(c, s, Advance(1)), Advance(1)) == State(s.base, s.txs, map[], map[1 := Some(0)], map[2 := Claiming(1)])
  {
    hide Holds;
    var s1 := Step(c, s, Advance(1));
    assert s1 == State(s.base, s.txs, map[1 := Written(Some(0))], map[1 := Some(0)], map[1 := Clearing(1), 2 := Claiming(1)]);
  }

  lemma FirstEnds(c: Setup, s: State)
    requires s == State(s.base, [Tx(1, false, Succeeded)], map[1 := Written(None)], map[], map[1 := Waiting(1, 0), 2 := Claiming(1)])
    ensures Perform(c, s, FIRST_ENDS) == State(s.base, s.txs, map[], map[1 := Some(0)], map[2 := Claiming(1)])
  {
    hide Perform, Step;
    PerformFour(c, s, Advance(1), Advance(1), Advance(1), Advance(1));
    assert FIRST_ENDS == [Advance(1), Advance(1), Advance(1), Advance(1)];
    FirstUpdates(c, s);
    FirstClears(c, Step(c, Step(c, s, Advance(1)), Advance(1)));
  }

  lemma SecondSends(c: Setup, s: State)
    requires s == State(s.base, [Tx(1, false, Succeeded)], map[], map[1 := Some(0)], map[2 := Claiming(1)]) && Holds(c, s, 1)
    ensures Perform(c, s, SECOND_SENDS).txs == [Tx(1, false, Succeeded), Tx(1, true, InFlight)]
  {
    hide Perform;
    PerformFour(c, s, Advance(2), Advance(2), Advance(2), Kill(2));
    assert SECOND_SENDS == [Advance(2), Advance(2), Advance(2), Kill(2)];
    var s1 := Step(c, s, Advance(2));
    assert s1 == State(s.base, s.txs, map[1 := Claimed(2)], map[1 := Some(0)], map[2 := Marking(1)]);
    var s2 := Step(c, s1, Advance(2));
    assert s2 == State(s.base, s.txs, map[1 := Written(None)], map[1 := Some(0)], map[2 := Sending(1)]);
  }

  /** The receipt is looked for before the marker is claimed, so "at most one
      transaction" fails when two runs overlap: this is such an interleaving. Its second
      send needs a node that lags behind: one that is not gives no gas estimate for a
      call the contract would refuse (`CurrentNodeSendsOnce`). */
  lemma OverlapCanSendTwice(c: Setup, base: Contract.Storage)
    requires Contract.Valid(base) && base.owner == c.account && base.latestIndex == 0
    requires c.hashes(1) != Contract.ZERO32
    ensures Perform(c, Start(base), BOTH_CHECK + (FIRST_SENDS + (FIRST_ENDS + SECOND_SENDS))).txs
         == [Tx(1, false, Succeeded), Tx(1, true, InFlight)]
  {
    hide Perform, Holds;
    BothCheck(c, base);
    var s1 := Perform(c, Start(base), BOTH_CHECK);
    FirstSends(c, s1);
    var s2 := Perform(c, s1, FIRST_SENDS);
    FirstEnds(c, s2);
    var s3 := Perform(c, s2, FIRST_ENDS);
    assert Holds(c, s3, 1) == Holds(c, s2, 1) by { SameBase(c, s2, s3); }
    SecondSends(c, s3);
    PerformSplits(c, Start(base), BOTH_CHECK, FIRST_SENDS + (FIRST_ENDS + SECOND_SENDS));
    PerformSplits(c, s1, FIRST_SENDS, FIRST_ENDS + SECOND_SENDS);
    PerformSplits(c, s2, FIRST_ENDS, SECOND_SENDS);
  }

  lemma SameBase(c: Setup, s: State, t: State)
    requires s.base == t.base
    ensures forall i: nat :: Holds(c, s, i) == Holds(c, t, i)
  {
  }
}
