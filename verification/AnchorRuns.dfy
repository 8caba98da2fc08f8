/**
 What one run does that nothing disturbs (aikiri_ledger/chain.py, `anchor_with_marker`
 and `reconcile`), from any state at all, and what a kill leaves of it.
 */
module AnchorRuns {
  import opened Wrappers
  import opened AnchorProtocol
  import Contract

  /******* One anchor *******/

  /** The run from its start to its end, its transaction mined when it is waited for. */
  function AnchorSteps(pid: nat, i: nat, n: nat, now: nat): (actions: seq<Action>) {
    var go := Advance(pid);
    [Anchor(pid, i), go, go, go, go, Mine(n, now), go, go, go, go]
  }

  /** What is on disk and on Base after the first `k` of these steps. */
  function Left(c: Setup, s: State, pid: nat, i: nat, now: nat, k: nat): (t: State) {
    var n := |s.txs|;
    var sent := s.(txs := s.txs + [Tx(i, Holds(c, s, i), InFlight)]);
    var mined := s.(base := Contract.Apply(s.base, Contract.Anchoring(c.account, now, i, c.hashes(i))),
                    txs := s.txs + [Tx(i, Holds(c, s, i), Succeeded)]);
    if k < 3 then s
    else if k == 3 then s.(markers := s.markers[i := Claimed(pid)])
    else if k == 4 then s.(markers := s.markers[i := Written(None)])
    else if k == 5 then sent.(markers := s.markers[i := Written(None)])
    else if k < 8 then mined.(markers := s.markers[i := Written(None)])
    else if k == 8 then mined.(markers := s.markers[i := Written(Some(n))])
    else if k == 9 then mined.(markers := s.markers[i := Written(Some(n))], receipts := s.receipts[i := Some(n)])
    else mined.(receipts := s.receipts[i := Some(n)])
  }

  /** Where the run is then. */
  function Place(i: nat, n: nat, k: nat): (run: Run)
    requires 1 <= k <= 9
  {
    match k
    case 1 => Checking(i)
    case 2 => Claiming(i)
    case 3 => Marking(i)
    case 4 => Sending(i)
    case 5 => Waiting(i, n)
    case 6 => Waiting(i, n)
    case 7 => Updating(i, n)
    case 8 => Recording(i, n)
    case _ => Clearing(i)
  }

  function Reached(c: Setup, s: State, pid: nat, i: nat, now: nat, k: nat): (t: State)
    requires k <= 10
  {
    var left := Left(c, s, pid, i, now, k);
    if 1 <= k <= 9 then left.(runs := s.runs[pid := Place(i, |s.txs|, k)]) else left
  }

  /** Nothing on disk stands in the way. */
  predicate Free(s: State, pid: nat, i: nat) {
    pid !in s.runs && i !in s.receipts && i !in s.markers
  }

  /** Base takes the block next. */
  predicate Taken(c: Setup, s: State, i: nat, now: nat) {
    Contract.AnchorCall(s.base, c.account, now, i, c.hashes(i)).Ok?
  }

  lemma CheckReached(c: Setup, s: State, pid: nat, i: nat, now: nat, k: nat)
    requires Free(s, pid, i) && k < 2
    ensures Step(c, Reached(c, s, pid, i, now, k), AnchorSteps(pid, i, |s.txs|, now)[k]) == Reached(c, s, pid, i, now, k + 1)
  {
    hide Holds, AdvanceReconcile, MineTx, Contract.AnchorCall, Contract.Apply;
  }

  lemma ClaimReached(c: Setup, s: State, pid: nat, i: nat, now: nat, k: nat)
    requires Free(s, pid, i) && k == 2
    ensures Step(c, Reached(c, s, pid, i, now, k), AnchorSteps(pid, i, |s.txs|, now)[k]) == Reached(c, s, pid, i, now, k + 1)
  {
    hide Holds, AdvanceReconcile, MineTx, Contract.AnchorCall, Contract.Apply;
  }

  lemma MarkReached(c: Setup, s: State, pid: nat, i: nat, now: nat, k: nat)
    requires Free(s, pid, i) && k == 3
    ensures Step(c, Reached(c, s, pid, i, now, k), AnchorSteps(pid, i, |s.txs|, now)[k]) == Reached(c, s, pid, i, now, k + 1)
  {
    hide Holds, AdvanceReconcile, MineTx, Contract.AnchorCall, Contract.Apply;
  }

  lemma SendReached(c: Setup, s: State, pid: nat, i: nat, now: nat)
    requires Free(s, pid, i)
    ensures Step(c, Reached(c, s, pid, i, now, 4), Advance(pid)) == Reached(c, s, pid, i, now, 5)
  {
    hide Holds, AdvanceReconcile, MineTx, Contract.AnchorCall, Contract.Apply;
    SameBase(c, s, Reached(c, s, pid, i, now, 4));
  }

  lemma MineReached(c: Setup, s: State, pid: nat, i: nat, now: nat)
    requires Free(s, pid, i) && Taken(c, s, i, now)
    ensures Step(c, Reached(c, s, pid, i, now, 5), Mine(|s.txs|, now)) == Reached(c, s, pid, i, now, 6)
  {
    hide Holds, AdvanceAnchor, AdvanceReconcile;
    var at := Reached(c, s, pid, i, now, 5);
    assert at.txs[|s.txs| := at.txs[|s.txs|].(status := Succeeded)] == Reached(c, s, pid, i, now, 6).txs;
  }

  lemma WaitReached(c: Setup, s: State, pid: nat, i: nat, now: nat, k: nat)
    requires Free(s, pid, i) && k == 6
    ensures Step(c, Reached(c, s, pid, i, now, k), AnchorSteps(pid, i, |s.txs|, now)[k]) == Reached(c, s, pid, i, now, k + 1)
  {
    hide Holds, AdvanceReconcile, MineTx, Contract.AnchorCall, Contract.Apply;
  }

  lemma UpdateReached(c: Setup, s: State, pid: nat, i: nat, now: nat, k: nat)
    requires Free(s, pid, i) && k == 7
    ensures Step(c, Reached(c, s, pid, i, now, k), AnchorSteps(pid, i, |s.txs|, now)[k]) == Reached(c, s, pid, i, now, k + 1)
  {
    hide Holds, AdvanceReconcile, MineTx, Contract.AnchorCall, Contract.Apply;
  }

  lemma RecordReached(c: Setup, s: State, pid: nat, i: nat, now: nat, k: nat)
    requires Free(s, pid, i) && k == 8
    ensures Step(c, Reached(c, s, pid, i, now, k), AnchorSteps(pid, i, |s.txs|, now)[k]) == Reached(c, s, pid, i, now, k + 1)
  {
    hide Holds, AdvanceReconcile, MineTx, Contract.AnchorCall, Contract.Apply;
  }

  lemma EndReached(c: Setup, s: State, pid: nat, i: nat, now: nat)
    requires Free(s, pid, i)
    ensures Step(c, Reached(c, s, pid, i, now, 9), Advance(pid)) == Reached(c, s, pid, i, now, 10)
  {
    hide Holds, AdvanceReconcile, MineTx, Contract.AnchorCall, Contract.Apply;
    assert s.markers[i := Written(Some(|s.txs|))] - {i} == s.markers;
    assert s.runs[pid := Clearing(i)] - {pid} == s.runs;
  }

  lemma NextReached(c: Setup, s: State, pid: nat, i: nat, now: nat, k: nat)
    requires Free(s, pid, i) && k < 10 && (k >= 5 ==> Taken(c, s, i, now))
    ensures Step(c, Reached(c, s, pid, i, now, k), AnchorSteps(pid, i, |s.txs|, now)[k]) == Reached(c, s, pid, i, now, k + 1)
  {
    hide Reached, Step, Free, Taken;
    if k < 2 {
      CheckReached(c, s, pid, i, now, k);
    } else if k == 2 {
      ClaimReached(c, s, pid, i, now, k);
    } else if k == 3 {
      MarkReached(c, s, pid, i, now, k);
    } else if k == 4 {
      SendReached(c, s, pid, i, now);
    } else if k == 5 {
      MineReached(c, s, pid, i, now);
    } else if k == 6 {
      WaitReached(c, s, pid, i, now, k);
    } else if k == 7 {
      UpdateReached(c, s, pid, i, now, k);
    } else if k == 8 {
      RecordReached(c, s, pid, i, now, k);
    } else {
      EndReached(c, s, pid, i, now);
    }
  }

  lemma {:induction false} StepsReach(c: Setup, s: State, pid: nat, i: nat, now: nat, k: nat)
    requires Free(s, pid, i) && k <= 10 && (k > 5 ==> Taken(c, s, i, now))
    ensures Perform(c, s, AnchorSteps(pid, i, |s.txs|, now)[..k]) == Reached(c, s, pid, i, now, k)
  {
    hide Step, Reached, Taken;
    var steps := AnchorSteps(pid, i, |s.txs|, now);
    if k == 0 {
      assert Reached(c, s, pid, i, now, 0) == s by { StartsReached(c, s, pid, i, now); }
    } else {
      StepsReach(c, s, pid, i, now, k - 1);
      NextReached(c, s, pid, i, now, k - 1);
      assert steps[..k] == steps[..k - 1] + [steps[k - 1]];
      PerformSplits(c, s, steps[..k - 1], [steps[k - 1]]);
      PerformOne(c, Reached(c, s, pid, i, now, k - 1), steps[k - 1]);
    }
  }

  lemma StartsReached(c: Setup, s: State, pid: nat, i: nat, now: nat)
    ensures Reached(c, s, pid, i, now, 0) == s
  {
  }

  lemma PerformOne(c: Setup, s: State, a: Action)
    ensures Perform(c, s, [a]) == Step(c, s, a)
  {
    hide Step;
    assert [a][1..] == [];
  }

  lemma KilledRun(s: State, pid: nat)
    requires pid !in s.runs
    ensures s.runs - {pid} == s.runs
    ensures forall run: Run {:trigger s.runs[pid := run]} :: s.runs[pid := run] - {pid} == s.runs
  {
  }

  /** From any state, an anchor that nothing disturbs, killed after any of its steps or
      run to its end. Run to its end it leaves one transaction more, its receipt, and
      every marker as it was; from the update on, its marker names what it sent. */
  lemma AnchorLeaves(c: Setup, s: State, pid: nat, i: nat, now: nat, k: nat)
    requires Free(s, pid, i) && k <= 10 && (k > 5 ==> Taken(c, s, i, now))
    ensures Perform(c, s, AnchorSteps(pid, i, |s.txs|, now)[..k] + [Kill(pid)]) == Left(c, s, pid, i, now, k)
    ensures k == 10 ==> Perform(c, s, AnchorSteps(pid, i, |s.txs|, now)) == Left(c, s, pid, i, now, k)
  {
    hide Perform, AdvanceAnchor, AdvanceReconcile, Holds;
    var steps := AnchorSteps(pid, i, |s.txs|, now);
    StepsReach(c, s, pid, i, now, k);
    PerformSplits(c, s, steps[..k], [Kill(pid)]);
    PerformOne(c, Reached(c, s, pid, i, now, k), Kill(pid));
    KilledRun(s, pid);
    assert steps[..10] == steps;
  }

  /** With a receipt there, or a marker, it ends and changes nothing. */
  lemma AnchorStopsEarly(c: Setup, s: State, pid: nat, i: nat)
    requires pid !in s.runs && (i in s.receipts || i in s.markers)
    ensures Perform(c, s, [Anchor(pid, i), Advance(pid), Advance(pid)]) == s
  {
    hide Holds, AdvanceReconcile, MineTx;
    PerformThree(c, s, Anchor(pid, i), Advance(pid), Advance(pid));
    KilledRun(s, pid);
    var at := Step(c, s, Anchor(pid, i));
    assert at == s.(runs := s.runs[pid := Checking(i)]);
    assert i !in s.receipts ==> Step(c, at, Advance(pid)) == s.(runs := s.runs[pid := Claiming(i)]);
  }

  lemma PerformThree(c: Setup, s: State, a: Action, b: Action, d: Action)
    ensures Perform(c, s, [a, b, d]) == Step(c, Step(c, Step(c, s, a), b), d)
  {
    hide Step;
    PerformTwo(c, Step(c, s, a), b, d, 0);
    StepThen(c, s, a, [b, d]);
    assert [a] + [b, d] == [a, b, d];
  }

  /** When Base refuses the transaction, the run ends with its marker, which names
      nothing, and no receipt. */
  lemma AnchorReverts(c: Setup, s: State, pid: nat, i: nat, now: nat)
    requires Free(s, pid, i) && !Taken(c, s, i, now)
    ensures Perform(c, s, AnchorSteps(pid, i, |s.txs|, now)[..7])
         == s.(txs := s.txs + [Tx(i, Holds(c, s, i), Reverted)], markers := s.markers[i := Written(None)])
  {
    var steps := AnchorSteps(pid, i, |s.txs|, now);
    StepsReach(c, s, pid, i, now, 5);
    RevertReached(c, s, pid, i, now);
    hide Step, Reached, Perform, Taken;
    assert steps[..7] == steps[..5] + [Mine(|s.txs|, now), Advance(pid)];
    PerformSplits(c, s, steps[..5], [Mine(|s.txs|, now), Advance(pid)]);
    PerformTwo(c, Reached(c, s, pid, i, now, 5), Mine(|s.txs|, now), Advance(pid), 0);
  }

  lemma RevertReached(c: Setup, s: State, pid: nat, i: nat, now: nat)
    requires Free(s, pid, i) && !Taken(c, s, i, now)
    ensures Step(c, Step(c, Reached(c, s, pid, i, now, 5), Mine(|s.txs|, now)), Advance(pid))
         == s.(txs := s.txs + [Tx(i, Holds(c, s, i), Reverted)], markers := s.markers[i := Written(None)])
  {
    hide Holds, AdvanceReconcile, Contract.AnchorCall;
    var at := Reached(c, s, pid, i, now, 5);
    var mined := at.(txs := s.txs + [Tx(i, Holds(c, s, i), Reverted)]);
    assert Step(c, at, Mine(|s.txs|, now)) == mined by {
      assert at.txs[|s.txs| := at.txs[|s.txs|].(status := Reverted)] == mined.txs;
    }
    KilledRun(s, pid);
  }

  /******* What one undisturbed reconcile does *******/

  ghost predicate NoRepeats(todo: seq<nat>) {
    forall a, b | 0 <= a < b < |todo| :: todo[a] != todo[b]
  }

  predicate Readable(s: State, i: nat) {
    i in s.markers && s.markers[i].Written?
  }

  /** The markers before the first that is not written, of blocks that Base holds. */
  function Clearable(c: Setup, s: State, todo: seq<nat>): (cleared: set<nat>) {
    if todo == [] || !Readable(s, todo[0]) then {}
    else (if Holds(c, s, todo[0]) then {todo[0]} else {}) + Clearable(c, s, todo[1..])
  }

  /** The transaction a marker names, if it names one. */
  function Named(s: State, i: nat): (sent: Option<nat>) {
    if Readable(s, i) then s.markers[i].sent else None
  }

  /** These markers gone, each for a receipt of what it named. */
  function After(s: State, pid: nat, cleared: set<nat>): (t: State) {
    s.(markers := s.markers - cleared, receipts := s.receipts + map i | i in cleared :: Named(s, i), runs := s.runs - {pid})
  }

  function Again(pid: nat, n: nat): (actions: seq<Action>)
    ensures |actions| == n && forall k | 0 <= k < n :: actions[k] == Advance(pid)
  {
    seq(n, _ => Advance(pid))
  }

  lemma AgainSplits(c: Setup, s: State, pid: nat, m: nat, n: nat)
    ensures Perform(c, s, Again(pid, m + n)) == Perform(c, Perform(c, s, Again(pid, m)), Again(pid, n))
  {
    assert Again(pid, m + n) == Again(pid, m) + Again(pid, n);
    PerformSplits(c, s, Again(pid, m), Again(pid, n));
  }

  lemma AgainTwo(c: Setup, s: State, pid: nat)
    ensures Perform(c, s, Again(pid, 2)) == Step(c, Step(c, s, Advance(pid)), Advance(pid))
  {
    hide Step;
    assert Again(pid, 2) == [Advance(pid), Advance(pid)];
    PerformTwo(c, s, Advance(pid), Advance(pid), 0);
  }

  /** A marker whose block Base does not hold is left as it is. */
  lemma PassesUnheld(c: Setup, s: State, pid: nat, todo: seq<nat>)
    requires pid in s.runs && s.runs[pid] == Listing(todo) && todo != []
    requires Readable(s, todo[0]) && !Holds(c, s, todo[0])
    ensures Perform(c, s, Again(pid, 2)) == s.(runs := s.runs[pid := Listing(todo[1..])])
  {
    AgainTwo(c, s, pid);
    hide Perform, AdvanceAnchor, MineTx, Contract.Matches;
    var t := Step(c, s, Advance(pid));
    assert t == s.(runs := s.runs[pid := Matching(todo[0], s.markers[todo[0]].sent, todo[1..])]);
    SameBase(c, s, t);
    assert t.runs[pid := Listing(todo[1..])] == s.runs[pid := Listing(todo[1..])];
  }

  /** One whose block it holds is cleared, and leaves its receipt. */
  lemma ClearsHeld(c: Setup, s: State, pid: nat, todo: seq<nat>)
    requires pid in s.runs && s.runs[pid] == Listing(todo) && todo != []
    requires Readable(s, todo[0]) && Holds(c, s, todo[0])
    ensures Perform(c, s, Again(pid, 4)) ==
      s.(markers := s.markers - {todo[0]}, receipts := s.receipts[todo[0] := s.markers[todo[0]].sent], runs := s.runs[pid := Listing(todo[1..])])
  {
    var i, rest, sent := todo[0], todo[1..], s.markers[todo[0]].sent;
    AgainSplits(c, s, pid, 2, 2);
    AgainTwo(c, s, pid);
    var u := Perform(c, s, Again(pid, 2));
    AgainTwo(c, u, pid);
    hide Perform, AdvanceAnchor, MineTx, Contract.Matches;
    var t := Step(c, s, Advance(pid));
    assert t == s.(runs := s.runs[pid := Matching(i, sent, rest)]);
    SameBase(c, s, t);
    assert u == s.(runs := s.runs[pid := Settling(i, sent, rest)]);
    var v := Step(c, u, Advance(pid));
    assert v == s.(receipts := s.receipts[i := sent], runs := s.runs[pid := Unmarking(i, rest)]);
  }

  lemma Ends(c: Setup, s: State, pid: nat, todo: seq<nat>)
    requires pid in s.runs && s.runs[pid] == Listing(todo)
    requires todo == [] || !Readable(s, todo[0])
    ensures Perform(c, s, Again(pid, 1)) == After(s, pid, {})
  {
    hide AdvanceAnchor, MineTx;
    assert Again(pid, 1) == [Advance(pid)] && [Advance(pid)][1..] == [];
    assert Perform(c, s, [Advance(pid)]) == Step(c, s, Advance(pid));
    assert s.markers - {} == s.markers && s.receipts + (map i | i in {} :: Named(s, i)) == s.receipts;
  }

  /** Clearing one marker does not bear on the others. */
  lemma {:induction false} ClearableElsewhere(c: Setup, s: State, t: State, todo: seq<nat>)
    requires s.base == t.base
    requires forall k | 0 <= k < |todo| :: Readable(t, todo[k]) == Readable(s, todo[k])
    ensures Clearable(c, t, todo) == Clearable(c, s, todo)
  {
    if todo != [] {
      SameBase(c, s, t);
      assert Readable(t, todo[0]) == Readable(s, todo[0]);
      assert forall k | 0 <= k < |todo[1..]| :: todo[1..][k] == todo[k + 1];
      ClearableElsewhere(c, s, t, todo[1..]);
    }
  }

  lemma {:induction false} ClearableListed(c: Setup, s: State, todo: seq<nat>)
    ensures forall i | i in Clearable(c, s, todo) :: i in todo
  {
    hide Holds;
    if todo != [] && Readable(s, todo[0]) {
      ClearableListed(c, s, todo[1..]);
    }
  }

  /** The state when the first marker of the listing is dealt with. */
  function Dealt(c: Setup, s: State, pid: nat, todo: seq<nat>): (t: State)
    requires todo != [] && Readable(s, todo[0])
  {
    var i, left := todo[0], s.(runs := s.runs[pid := Listing(todo[1..])]);
    if Holds(c, s, i) then left.(markers := s.markers - {i}, receipts := s.receipts[i := s.markers[i].sent]) else left
  }

  lemma DealsWithFirst(c: Setup, s: State, pid: nat, todo: seq<nat>) returns (k: nat)
    requires pid in s.runs && s.runs[pid] == Listing(todo) && todo != [] && Readable(s, todo[0])
    ensures Perform(c, s, Again(pid, k)) == Dealt(c, s, pid, todo)
  {
    hide Perform;
    if Holds(c, s, todo[0]) {
      ClearsHeld(c, s, pid, todo);
      k := 4;
    } else {
      PassesUnheld(c, s, pid, todo);
      k := 2;
    }
  }

  lemma {:induction false} ListingRuns(c: Setup, s: State, pid: nat, todo: seq<nat>) returns (n: nat)
    requires pid in s.runs && s.runs[pid] == Listing(todo) && NoRepeats(todo)
    ensures Perform(c, s, Again(pid, n)) == After(s, pid, Clearable(c, s, todo))
    decreases |todo|
  {
    if todo == [] || !Readable(s, todo[0]) {
      Ends(c, s, pid, todo);
      n := 1;
    } else {
      hide Perform, Holds, Step, After;
      var rest, t := todo[1..], Dealt(c, s, pid, todo);
      var k := DealsWithFirst(c, s, pid, todo);
      assert forall a | 0 <= a < |rest| :: rest[a] == todo[a + 1] && rest[a] != todo[0];
      var m := ListingRuns(c, t, pid, rest);
      AgainSplits(c, s, pid, k, m);
      n := k + m;
      RestAfterFirst(c, s, pid, todo);
    }
  }

  lemma RestAfterFirst(c: Setup, s: State, pid: nat, todo: seq<nat>)
    requires todo != [] && Readable(s, todo[0]) && forall a | 0 <= a < |todo[1..]| :: todo[1..][a] != todo[0]
    ensures var t := Dealt(c, s, pid, todo);
      After(t, pid, Clearable(c, t, todo[1..])) == After(s, pid, Clearable(c, s, todo))
  {
    hide Holds, After;
    var rest, t, held := todo[1..], Dealt(c, s, pid, todo), Holds(c, s, todo[0]);
    ClearableElsewhere(c, s, t, rest);
    ClearableListed(c, s, rest);
    AfterBoth(s, t, pid, todo[0], held, Clearable(c, s, rest));
  }

  lemma AfterBoth(s: State, t: State, pid: nat, i: nat, held: bool, more: set<nat>)
    requires t.base == s.base && t.txs == s.txs && t.runs - {pid} == s.runs - {pid}
    requires t.markers == if held then s.markers - {i} else s.markers
    requires t.receipts == if held then s.receipts[i := Named(s, i)] else s.receipts
    requires i !in more && forall k | k in more :: Named(t, k) == Named(s, k)
    ensures After(t, pid, more) == After(s, pid, (if held then {i} else {}) + more)
  {
    hide Named;
    var all := (if held then {i} else {}) + more;
    assert t.markers - more == s.markers - all;
    assert After(t, pid, more).receipts == After(s, pid, all).receipts;
  }

  /** How far the listing is readable. */
  function ReadableTo(s: State, todo: seq<nat>): (k: nat)
    ensures k <= |todo|
    ensures forall j | 0 <= j < k :: Readable(s, todo[j])
    ensures k < |todo| ==> !Readable(s, todo[k])
  {
    if todo == [] || !Readable(s, todo[0]) then 0 else 1 + ReadableTo(s, todo[1..])
  }

  lemma {:induction false} ClearableIs(c: Setup, s: State, todo: seq<nat>, i: nat)
    ensures i in Clearable(c, s, todo) <==> exists j :: 0 <= j < ReadableTo(s, todo) && todo[j] == i && Holds(c, s, i)
  {
    hide Holds;
    if todo != [] && Readable(s, todo[0]) {
      ClearableIs(c, s, todo[1..], i);
      if j :| 0 <= j < ReadableTo(s, todo[1..]) && todo[1..][j] == i && Holds(c, s, i) {
        assert todo[j + 1] == i;
      }
      if j :| 0 <= j < ReadableTo(s, todo) && todo[j] == i && Holds(c, s, i) {
        if j > 0 {
          assert todo[1..][j - 1] == i;
        } else {
          assert i == todo[0];
        }
      }
    }
  }

  /** From any state, one reconcile that nothing disturbs comes to its end. Up to the
      first marker that is claimed and not yet written, where it fails, it clears every
      marker whose block Base holds, and leaves a receipt of what that marker named; every
      other marker and receipt stays as it was, and it sends nothing. */
  lemma ReconcileClears(c: Setup, s: State, pid: nat, found: seq<nat>) returns (n: nat)
    requires pid !in s.runs && NoRepeats(found)
    requires forall i :: i in found <==> i in s.markers
    ensures var t := Perform(c, s, [Reconcile(pid, found)] + Again(pid, n));
      && t.txs == s.txs && t.base == s.base && t.runs == s.runs
      && (forall i | i in t.markers :: i in s.markers && t.markers[i] == s.markers[i])
      && (forall i | i in s.receipts :: i in t.receipts)
      && (forall i | i in t.receipts && i !in s.markers :: i in s.receipts && t.receipts[i] == s.receipts[i])
      && (forall j | 0 <= j < |found| ::
            var i := found[j];
            if j < ReadableTo(s, found) && Holds(c, s, i)
            then i !in t.markers && i in t.receipts && t.receipts[i] == s.markers[i].sent
            else i in t.markers && (i in t.receipts ==> i in s.receipts && t.receipts[i] == s.receipts[i]))
  {
    var u := Step(c, s, Reconcile(pid, found));
    assert u == s.(runs := s.runs[pid := Listing(found)]);
    n := ListingRuns(c, u, pid, found);
    StepThen(c, s, Reconcile(pid, found), Again(pid, n));
    hide Perform, Holds, Step;
    SameBase(c, s, u);
    ClearableElsewhere(c, s, u, found);
    ClearableListed(c, s, found);
    assert u.runs - {pid} == s.runs;
    forall j | 0 <= j < |found|
      ensures found[j] in Clearable(c, s, found) <==> j < ReadableTo(s, found) && Holds(c, s, found[j])
    {
      ClearableIs(c, s, found, found[j]);
    }
  }

  lemma StepThen(c: Setup, s: State, a: Action, rest: seq<Action>)
    ensures Perform(c, s, [a] + rest) == Perform(c, Step(c, s, a), rest)
  {
    hide Step;
    assert ([a] + rest)[0] == a && ([a] + rest)[1..] == rest;
  }

  /** So where every marker is written, it finishes them all, and sends nothing. */
  lemma ReconcileFinishes(c: Setup, s: State, pid: nat, found: seq<nat>) returns (n: nat)
    requires pid !in s.runs && NoRepeats(found)
    requires forall i :: i in found <==> i in s.markers
    requires forall i | i in s.markers :: s.markers[i].Written?
    ensures var t := Perform(c, s, [Reconcile(pid, found)] + Again(pid, n));
      t.txs == s.txs && t.base == s.base && forall i | i in s.markers ::
        if Holds(c, s, i) then i !in t.markers && i in t.receipts && t.receipts[i] == s.markers[i].sent
        else i in t.markers && t.markers[i] == s.markers[i]
  {
    n := ReconcileClears(c, s, pid, found);
    hide Perform, Holds;
    var t := Perform(c, s, [Reconcile(pid, found)] + Again(pid, n));
    forall i | i in s.markers
      ensures if Holds(c, s, i) then i !in t.markers && i in t.receipts && t.receipts[i] == s.markers[i].sent
              else i in t.markers && t.markers[i] == s.markers[i]
    {
      var j :| 0 <= j < |found| && found[j] == i;
    }
  }

  /** An anchor killed anywhere once its transaction was mined is finished by a reconcile
      that nothing disturbs: a receipt and no marker. The receipt names the transaction
      exactly if the run had come to write it into the marker. */
  lemma KilledAnchorIsFinished(c: Setup, s: State, pid: nat, i: nat, now: nat, k: nat, other: nat, found: seq<nat>)
      returns (n: nat)
    requires Free(s, pid, i) && Taken(c, s, i, now) && 6 <= k <= 9 && other !in s.runs
    requires NoRepeats(found) && forall j :: j in found <==> j == i || j in s.markers
    requires forall j | j in s.markers :: s.markers[j].Written?
    ensures var killed := Perform(c, s, AnchorSteps(pid, i, |s.txs|, now)[..k] + [Kill(pid)]);
      var t := Perform(c, killed, [Reconcile(other, found)] + Again(other, n));
      && i !in t.markers && i in t.receipts
      && t.receipts[i] == (if k < 8 then None else Some(|s.txs|))
      && t.txs == killed.txs && t.base == killed.base
  {
    AnchorLeaves(c, s, pid, i, now, k);
    var killed := Left(c, s, pid, i, now, k);
    assert Holds(c, killed, i);
    hide Perform, Holds, AnchorSteps, Contract.AnchorCall, Contract.Apply;
    n := ReconcileFinishes(c, killed, other, found);
  }
}
