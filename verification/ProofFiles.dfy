/**
 Upkeep of the Bitcoin proof files (aikiri_ledger/witness.py, `stamp`, `upgrade` and
 `settle_backup`, and the commands around them in aikiri_ledger/cli.py).

 One object is one block's files. Every file operation may fail, `ots` may do part of
 its work and stop, `ots info` may fail to run but is truthful when it answers, and
 the process may be killed after any operation: `history` holds every state the
 files went through, so a promise about all of it is a promise about every kill.
 `log` is ghost: what failed on the way, and what `ots` did when it ran, so that an
 answer can be held against what really happened.
 */
module ProofFiles {
  import opened Wrappers
  import opened Bytes
  import opened Crypto

  /** What is at a path. A proof is of a digest and carries attestations; `tag` is
      whatever else its bytes say. A proof cut short is not one. */
  datatype File =
    | Absent
    | Link
    | Plain(bytes: Bytes)
    | Proof(digest: Bytes, atts: set<nat>, tag: nat)

  datatype Slot = Slot(ots: File, bak: File, hash: File, tmp: File)

  datatype Name = Ots | Bak | Hash | Tmp

  function At(s: Slot, name: Name): (f: File) {
    match name
    case Ots => s.ots
    case Bak => s.bak
    case Hash => s.hash
    case Tmp => s.tmp
  }

  function With(s: Slot, name: Name, f: File): (t: Slot)
    ensures At(t, name) == f
    ensures forall other | other != name :: At(t, other) == At(s, other)
  {
    match name
    case Ots => s.(ots := f)
    case Bak => s.(bak := f)
    case Hash => s.(hash := f)
    case Tmp => s.(tmp := f)
  }

  predicate Regular(f: File) {
    f.Plain? || f.Proof?
  }

  /** A proof of this block. */
  predicate Proves(digest: Bytes, f: File) {
    f.Proof? && f.digest == digest
  }

  /** The attestations a block has, in either file. */
  function Held(digest: Bytes, s: Slot): (atts: set<nat>) {
    (if Proves(digest, s.ots) then s.ots.atts else {}) + (if Proves(digest, s.bak) then s.bak.atts else {})
  }

  /** A backup beside a proof is what that proof was upgraded from. */
  predicate Ordered(digest: Bytes, s: Slot) {
    Proves(digest, s.ots) && Proves(digest, s.bak) ==> s.bak.atts <= s.ots.atts
  }

  predicate Safe(digest: Bytes, start: Slot, s: Slot) {
    Ordered(digest, s) && Held(digest, start) <= Held(digest, s)
  }

  /** What `settle_backup` leaves. */
  function Settled(digest: Bytes, s: Slot): (t: Slot) {
    if s.bak == Absent then s
    else if Proves(digest, s.ots) then s.(bak := Absent)
    else if Proves(digest, s.bak) then s.(ots := s.bak, bak := Absent)
    else s
  }

  /** Settling loses nothing exactly when the backup adds nothing to the proof. */
  lemma SettlingKeepsIffOrdered(digest: Bytes, s: Slot)
    ensures Held(digest, Settled(digest, s)) == Held(digest, s) <==> Ordered(digest, s)
  {
  }

  /** Why nothing is stamped beside a backup: a new proof without the backup's
      attestations would have the next settle delete them. */
  lemma StampingBesideBackupLoses(digest: Bytes, s: Slot, made: File)
    requires s.ots == Absent && Proves(digest, s.bak) && Proves(digest, made) && !(s.bak.atts <= made.atts)
    ensures !(Held(digest, s) <= Held(digest, Settled(digest, s.(ots := made))))
  {
  }

  datatype Settling = Done(settled: bool) | OtsFailed | OsFailed

  datatype Stamping = Stamped | StampFailed(cleaned: bool)

  /** How an upgrade is reported: "complete", "still pending", or neither. */
  datatype Called = CalledComplete | CalledPending | NotCalled

  datatype Upgrading = Upgraded(called: Called) | Complete | Pending | Blocked | NoProof | Failed(byOts: bool)

  /** How `ots upgrade` ended: its exit code, and whether it printed that the timestamp
      is not complete. */
  datatype Exit = Exit(code: int, saysIncomplete: bool)

  /** What happened on the way: a file operation that failed, one that could not but fail
      since something was there, an `ots info` that gave no answer, an .ots that could not be read, an `ots upgrade` that could not be started,
      an interrupt; and each run of `ots`, on what it ran or with what it left. */
  datatype Event =
    | FileFailed | AlreadyThere | NoAnswer | NotRead | NotStarted | Interrupted
    | StampRan(ok: bool, on: File)
    | UpgradeRan(exit: Exit, left: Slot)

  /** Nothing but file operations that failed. */
  ghost predicate OnlyFailures(events: seq<Event>) {
    forall k | 0 <= k < |events| :: events[k] == FileFailed
  }

  /** What its end is called: its words count only with exit 1. */
  function CalledBy(e: Exit): (called: Called) {
    if e.code == 0 then CalledComplete else if e.code == 1 && e.saysIncomplete then CalledPending else NotCalled
  }

  class ProofFiles {
    const w: World
    const blockHash: Bytes  // the 32 bytes a stamp is of
    var files: Slot
    var history: seq<Slot>
    ghost var log: seq<Event>

    function Digest(): (digest: Bytes) {
      w.sha(blockHash)
    }

    /** Every state since the history had `from` entries keeps what `start` held. */
    ghost predicate Throughout(from: nat, start: Slot)
      reads this
    {
      from <= |history| && forall k | from <= k < |history| :: Safe(Digest(), start, history[k])
    }

    ghost predicate Ready()
      reads this
    {
      Ordered(Digest(), files)
    }

    /** What was there is kept, since the history was `since`. */
    ghost predicate Kept(since: seq<Slot>, start: Slot)
      reads this
    {
      since <= history && Ready() && Throughout(|since|, start) && Safe(Digest(), start, files)
    }

    ghost predicate Untouched(since: seq<Slot>, start: Slot, before: seq<Event>)
      reads this
    {
      history == since && files == start && log == before && Ready()
    }

    /** What has happened since the log was `before`. */
    ghost function Since(before: seq<Event>): (events: seq<Event>)
      reads this
    {
      if before <= log then log[|before|..] else log
    }

    /** A turn in `stamp` has ended. */
    ghost predicate Turned(start: Slot, before: seq<Event>)
      reads this
    {
      before <= log && TurnEnds(Digest(), blockHash, start, Since(before), files)
    }

    /** And failed. */
    ghost predicate TurnFailed(start: Slot, before: seq<Event>)
      reads this
    {
      TurnFails(Digest(), blockHash, start, Since(before))
    }

    ghost predicate StampEnded(since: seq<Slot>, start: Slot, before: seq<Event>)
      reads this
    {
      Kept(since, start) && Turned(start, before) && (TurnFailed(start, before) || Proves(Digest(), files.ots))
    }

    /** A turn in `upgrade` has ended, in some answer. */
    ghost predicate UpgradeTurned(start: Slot, before: seq<Event>)
      reads this
    {
      before <= log && exists r :: UpgradeEnds(Digest(), start, Since(before), r, files)
    }

    constructor (w: World, blockHash: Bytes, files: Slot)
      ensures this.w == w && this.blockHash == blockHash && this.files == files && history == [] && log == []
    {
      this.w, this.blockHash, this.files, history, log := w, blockHash, files, [], [];
    }

    /******* File operations *******/

    /** What may fail, does or does not; a failure is written down. */
    method Succeeds(failure: Event) returns (ok: bool)
      modifies this`log
      ensures log == if ok then old(log) else old(log) + [failure]
    {
      ok := *;
      if !ok {
        log := log + [failure];
      }
    }

    /** An operation that changes what is at one path, or fails and changes nothing. */
    method Change(name: Name, f: File) returns (ok: bool)
      modifies this`files, this`history, this`log
      ensures ok ==> files == With(old(files), name, f) && history == old(history) + [files] && log == old(log)
      ensures !ok ==> files == old(files) && history == old(history) && log == old(log) + [FileFailed]
    {
      ok := Succeeds(FileFailed);
      if ok {
        files := With(files, name, f);
        history := history + [files];
      }
    }

    /** Creating a file exclusively: whatever is there, a link too, makes it fail. */
    method Create(name: Name) returns (ok: bool)
      modifies this`files, this`history, this`log
      ensures ok ==> At(old(files), name) == Absent && log == old(log)
      ensures ok ==> files == With(old(files), name, Plain([])) && history == old(history) + [files]
      ensures !ok ==> files == old(files) && history == old(history)
      ensures !ok ==> log == old(log) + [if At(files, name) == Absent then FileFailed else AlreadyThere]
    {
      if At(files, name) != Absent {
        log := log + [AlreadyThere];
        return false;
      }
      ok := Change(name, Plain([]));
    }

    /** Writing into a file that was opened here: never through a link. */
    method Fill(name: Name, f: File) returns (ok: bool)
      requires Regular(At(files, name)) && Regular(f)
      modifies this`files, this`history, this`log
      ensures ok ==> files == With(old(files), name, f) && history == old(history) + [files] && log == old(log)
      ensures !ok ==> files == old(files) && history == old(history) && log == old(log) + [FileFailed]
    {
      ok := Change(name, f);
    }

    /** `os.replace`, which puts one file over another in one step. */
    method Move(source: Name, target: Name) returns (ok: bool)
      requires source != target
      modifies this`files, this`history, this`log
      ensures ok ==> files == With(With(old(files), target, At(old(files), source)), source, Absent)
      ensures ok ==> history == old(history) + [files] && log == old(log)
      ensures !ok ==> files == old(files) && history == old(history) && log == old(log) + [FileFailed]
    {
      ok := Succeeds(FileFailed);
      if ok {
        files := With(With(files, target, At(files, source)), source, Absent);
        history := history + [files];
      }
    }

    /******* ots *******/

    /** `proof_of`: truthful when it answers. */
    method ProofOf(name: Name) returns (r: Option<bool>)
      modifies this`log
      ensures r.Some? ==> r.value == Proves(Digest(), At(files, name))
      ensures r == Some(true) ==> At(files, name).Proof? && At(files, name).digest == w.sha(blockHash)
      ensures At(files, name) == Absent || At(files, name) == Link ==> r == Some(false)
      ensures log == if r.Some? then old(log) else old(log) + [NoAnswer]
    {
      if !Regular(At(files, name)) {
        return Some(false);
      }
      var answers := Succeeds(NoAnswer);
      r := if answers then Some(Proves(Digest(), At(files, name))) else None;
    }

    /** `ots stamp`, on the .hash: it creates the .ots, then writes the proof into it.
        It exits 0 only when it did both. */
    method RunStamp() returns (ok: bool)
      modifies this`files, this`history, this`log
      ensures log == old(log) + [StampRan(ok, old(files).hash)]
      ensures old(files).ots != Absent ==> !ok
      ensures ok ==> old(files).hash.Plain? && files.ots.Proof? && files.ots.digest == w.sha(old(files).hash.bytes)
      ensures old(history) <= history
      ensures forall k | |old(history)| <= k < |history| :: RanStampFrom(old(files), history[k])
      ensures RanStampFrom(old(files), files)
    {
      ok := Create(Ots);
      if ok && files.hash.Plain? {
        var atts: set<nat> := *;
        var tag: nat := *;
        var part: Bytes := *;
        var whole: bool := *;
        if whole {
          ok := Fill(Ots, Proof(w.sha(files.hash.bytes), atts, tag));
        } else {
          var _ := Fill(Ots, Plain(part));
        }
        var fails: bool := *;
        ok := ok && whole && !fails;
      } else {
        ok := false;
      }
      log := old(log) + [StampRan(ok, old(files).hash)];
    }

    /** `ots upgrade`: with something new, it renames the proof to .bak, creates the new
        file and writes into it a proof with every attestation the old one had. It may
        stop anywhere, and exit as it likes. */
    method RunUpgrade() returns (exit: Exit)
      requires files.ots.Proof? && files.bak == Absent
      modifies this`files, this`history, this`log
      ensures log == old(log) + [UpgradeRan(exit, files)]
      ensures old(history) <= history
      ensures forall k | |old(history)| <= k < |history| :: UpgradedFrom(old(files), history[k])
      ensures UpgradedFrom(old(files), files)
    {
      exit := *;
      var added: set<nat> := *;
      var tag: nat := *;
      var part: Bytes := *;
      var whole: bool := *;
      var before := files.ots;
      if added != {} {
        var ok := Move(Ots, Bak);
        if ok {
          ok := Create(Ots);
          if ok {
            var _ := Fill(Ots, if whole then Proof(before.digest, before.atts + added, tag) else Plain(part));
          }
        }
      }
      log := old(log) + [UpgradeRan(exit, files)];
    }

    /******* The code *******/

    /** `settle_backup`. */
    method SettleBackup() returns (r: Settling)
      modifies this`files, this`history, this`log
      ensures log == match r case Done(_) => old(log) case OtsFailed => old(log) + [NoAnswer] case OsFailed => old(log) + [FileFailed]
      ensures old(history) <= history
      ensures forall k | |old(history)| <= k < |history| :: history[k] == Settled(Digest(), old(files))
      ensures r == Done(true) ==> files == Settled(Digest(), old(files)) && files.bak == Absent
      ensures r == Done(false) ==> files == old(files) == Settled(Digest(), files) && files.bak != Absent
      ensures !r.Done? ==> files == old(files) && files.bak != Absent
    {
      if files.bak == Absent {
        return Done(true);
      }
      var holds := ProofOf(Ots);
      if holds.None? {
        return OtsFailed;
      }
      if holds.value {
        var ok := Change(Bak, Absent);
        return if ok then Done(true) else OsFailed;
      }
      var backup := ProofOf(Bak);
      if backup.None? {
        return OtsFailed;
      }
      if backup.value {
        var ok := Move(Bak, Ots);
        return if ok then Done(true) else OsFailed;
      }
      return Done(false);
    }

    /** `_digest_file` up to its `finally`. */
    method WriteDigest() returns (ok: bool)
      modifies this`files, this`history, this`log
      ensures ok ==> log == old(log)
      ensures !ok ==> old(log) < log && OnlyFailures(log[|old(log)|..])
      ensures old(history) <= history
      ensures forall k | |old(history)| <= k < |history| :: OnlyDigest(blockHash, old(files), history[k])
      ensures OnlyDigest(blockHash, old(files), files)
      ensures ok ==> files.hash == Plain(blockHash) && files.tmp == Absent
      ensures !ok ==> files.hash == old(files).hash
    {
      if files.tmp != Absent {
        ok := Change(Tmp, Absent);
        if !ok {
          return;
        }
      }
      ok := Create(Tmp);
      if !ok {
        return;
      }
      var part: Bytes := *;
      var whole := Succeeds(FileFailed);
      ok := Fill(Tmp, Plain(if whole then blockHash else part));
      if !ok || !whole {
        return false;
      }
      ok := Move(Tmp, Hash);
    }

    /** `_digest_file`: the .hash is this block's or what it was, never cut short; and
        nothing is left beside it unless removing that failed too. */
    method DigestFile() returns (ok: bool)
      modifies this`files, this`history, this`log
      ensures ok ==> log == old(log)
      ensures !ok ==> old(log) < log && OnlyFailures(log[|old(log)|..])
      ensures old(history) <= history
      ensures forall k | |old(history)| <= k < |history| :: OnlyDigest(blockHash, old(files), history[k])
      ensures OnlyDigest(blockHash, old(files), files)
      ensures ok ==> files.hash == Plain(blockHash) && files.tmp == Absent
      ensures !ok ==> files.hash == old(files).hash
      ensures files.tmp != Absent ==> |log| >= |old(log)| + 2
    {
      ok := WriteDigest();
      if files.tmp != Absent {
        var _ := Change(Tmp, Absent);
      }
    }

    /** `stamp`'s cleanup: what this run made goes, and nothing else. */
    method CleanUp(hadOts: bool, hadHash: bool) returns (cleaned: bool)
      modifies this`files, this`history, this`log
      ensures log == if cleaned then old(log) else old(log) + [FileFailed]
      ensures old(history) <= history
      ensures forall k | |old(history)| <= k < |history| :: CleanedFrom(hadOts, hadHash, old(files), history[k])
      ensures CleanedFrom(hadOts, hadHash, old(files), files)
      ensures cleaned ==> (!hadOts ==> !Regular(files.ots)) && (!hadHash ==> !Regular(files.hash))
    {
      if !hadOts && Regular(files.ots) {
        cleaned := Change(Ots, Absent);
        if !cleaned {
          return;
        }
      }
      if !hadHash && Regular(files.hash) {
        cleaned := Change(Hash, Absent);
        return;
      }
      return true;
    }

    /** `stamp` up to its cleanup. */
    method TryStamp() returns (ok: bool)
      modifies this`files, this`history, this`log
      ensures old(log) <= log && StampEnds(blockHash, log[|old(log)|..], ok)
      ensures old(history) <= history
      ensures ok ==> old(files).ots == Absent && Proves(Digest(), files.ots) && files.hash == Plain(blockHash)
      ensures forall k | |old(history)| <= k < |history| :: StampedFrom(Digest(), old(files), history[k])
      ensures StampedFrom(Digest(), old(files), files)
      ensures files.ots == old(files).ots || (old(files).ots == Absent && Regular(files.ots))
      ensures files.hash == old(files).hash || Regular(files.hash)
    {
      ok := DigestFile();
      if !ok {
        assert log[|old(log)|] == log[|old(log)|..][0];
        return;
      }
      ok := Succeeds(Interrupted);
      if !ok {
        return;
      }
      ok := RunStamp();
      if ok {
        ok := Succeeds(Interrupted);
      }
    }

    /** `stamp`. A failed or interrupted one leaves no new .ots, keeps one that was
        there byte for byte, and removes a .hash only if it made it. */
    method Stamp() returns (r: Stamping)
      modifies this`files, this`history, this`log
      ensures old(log) <= log && StampEnds(blockHash, log[|old(log)|..], r.Stamped?)
      ensures r == StampFailed(false) ==> |log| >= |old(log)| + 2 && log[|log| - 1] == FileFailed
      ensures old(history) <= history
      ensures r.Stamped? ==> old(files).ots == Absent && Proves(Digest(), files.ots) && files.hash == Plain(blockHash)
      ensures forall k | |old(history)| <= k < |history| :: StampedFrom(Digest(), old(files), history[k])
      ensures StampedFrom(Digest(), old(files), files)
      ensures r == StampFailed(true) ==> files.ots == old(files).ots
      ensures r == StampFailed(true) ==> (Regular(files.hash) <==> Regular(old(files).hash))
    {
      var hadOts, hadHash := files.ots != Absent, Regular(files.hash);
      var ok := TryStamp();
      if ok {
        return Stamped;
      }
      ghost var tried := log;
      var cleaned := CleanUp(hadOts, hadHash);
      EndsWithCleanup(blockHash, tried[|old(log)|..], log[|old(log)|..]);
      return StampFailed(cleaned);
    }

    /** `upgrade`: `ots upgrade` runs exactly where the settled .ots is a proof of this
        block and nothing failed before, and each answer means what `UpgradeEnds` says. */
    method Upgrade() returns (r: Upgrading)
      requires Ready()
      modifies this`files, this`history, this`log
      ensures old(history) <= history && Ready()
      ensures Throughout(|old(history)|, old(files)) && Safe(Digest(), old(files), files)
      ensures old(log) <= log && UpgradeEnds(Digest(), old(files), log[|old(log)|..], r, files)
      ensures r.Upgraded? ==> && files.ots.Proof? && files.ots.digest == w.sha(blockHash)
                              && Held(Digest(), old(files)) <= files.ots.atts
                              && files.ots != Settled(Digest(), old(files)).ots
      ensures r.Complete? || r.Pending? ==> files == Settled(Digest(), old(files))
      ensures r == Failed(true) && |log| > |old(log)| && log[|old(log)|].UpgradeRan? ==>
                Proves(Digest(), files.ots) && Held(Digest(), old(files)) <= files.ots.atts
    {
      SettledIsSafe(Digest(), files);
      var settling := SettleBackup();
      if !settling.Done? {
        return Failed(settling.OtsFailed?);
      }
      if !settling.settled {
        return Blocked;
      }
      var holds := ProofOf(Ots);
      if holds != Some(true) {
        return if holds.None? then Failed(true) else NoProof;
      }
      var readable := Succeeds(NotRead);
      if !readable {
        return Failed(false);
      }
      var starts := Succeeds(NotStarted);
      if !starts {
        return Failed(true);
      }
      r := RunAndSettle();
    }

    /** `upgrade` from the point where `ots upgrade` runs. */
    method RunAndSettle() returns (r: Upgrading)
      requires Proves(Digest(), files.ots) && files.bak == Absent
      modifies this`files, this`history, this`log
      ensures old(history) <= history
      ensures forall k | |old(history)| <= k < |history| :: Safe(Digest(), old(files), history[k])
      ensures Safe(Digest(), old(files), files)
      ensures |log| > |old(log)| && old(log) <= log && log[|old(log)|].UpgradeRan?
      ensures RanEnds(Digest(), old(files), log[|old(log)|].exit, log[|old(log)|].left, log[|old(log)| + 1..], r, files)
      ensures r.Upgraded? ==> files.ots != old(files).ots
      ensures r.Complete? || r.Pending? ==> files == old(files)
      ensures r != Failed(false) ==> Proves(Digest(), files.ots) && old(files).ots.atts <= files.ots.atts
    {
      var before := files.ots;
      var exit := RunUpgrade();
      var settling := SettleBackup();
      if settling.OtsFailed? {
        // Settled before, so this .bak is the proof ots just renamed: it goes back.
        var ok := Move(Bak, Ots);
        return Failed(ok);
      }
      if settling.OsFailed? {
        return Failed(false);
      }
      if files.ots != Absent {
        var readable := Succeeds(NotRead);
        if !readable {
          return Failed(false);
        }
      }
      if files.ots != Absent && files.ots != before {
        var holds := ProofOf(Ots);
        if holds.None? {
          return Failed(true);
        }
        if holds.value {
          return Upgraded(CalledBy(exit));
        }
      }
      match CalledBy(exit)
      case CalledComplete => return Complete;
      case CalledPending => return Pending;
      case NotCalled => return Failed(true);
    }

    /******* One block's part of each command *******/

    /** Stamping where no proof stands: never beside a backup. */
    method StampSettled() returns (r: Stamping)
      requires files.bak == Absent
      modifies this`files, this`history, this`log
      ensures old(log) <= log && StampEnds(blockHash, log[|old(log)|..], r.Stamped?)
      ensures old(history) <= history
      ensures forall k | |old(history)| <= k < |history| :: Safe(Digest(), old(files), history[k])
      ensures Safe(Digest(), old(files), files)
      ensures r.Stamped? ==> Proves(Digest(), files.ots)
    {
      ghost var start := files;
      r := Stamp();
      StampingIsSafe(Digest(), start, files);
      forall k | |old(history)| <= k < |history| ensures Safe(Digest(), start, history[k]) {
        StampingIsSafe(Digest(), start, history[k]);
      }
    }

    /** A block's turn in `stamp` and in `witness`: settle, look, stamp. It stamps exactly
        where there was neither a proof file nor a backup, and reports a failure exactly
        where something failed or the block ends without a proof of it. */
    method StampTurn() returns (failed: bool)
      requires Ready()
      modifies this`files, this`history, this`log
      ensures old(history) <= history && Ready()
      ensures Throughout(|old(history)|, old(files)) && Safe(Digest(), old(files), files)
      ensures Kept(old(history), old(files))
      ensures Turned(old(files), old(log)) && (failed <==> TurnFailed(old(files), old(log)))
      ensures !failed ==> files.ots.Proof? && files.ots.digest == w.sha(blockHash)
    {
      SettledIsSafe(Digest(), files);
      var settling := SettleBackup();
      if settling != Done(true) {
        return true;
      }
      if files.ots != Absent {
        var holds := ProofOf(Ots);
        return holds != Some(true);
      }
      var r := StampSettled();
      return !r.Stamped?;
    }

    /** A block's turn in `upgrade`, and what it comes to. */
    method UpgradeTurn() returns (r: Upgrading)
      requires Ready()
      modifies this`files, this`history, this`log
      ensures old(history) <= history && Ready()
      ensures Throughout(|old(history)|, old(files)) && Safe(Digest(), old(files), files)
      ensures old(log) <= log && UpgradeEnds(Digest(), old(files), log[|old(log)|..], r, files)
      ensures Kept(old(history), old(files))
    {
      SettledIsSafe(Digest(), files);
      var settling := SettleBackup();
      if !settling.Done? {
        return Failed(settling.OtsFailed?);
      }
      if !settling.settled {
        return Blocked;
      }
      if files.ots == Absent {
        return NoProof;
      }
      var holds := ProofOf(Ots);
      if holds != Some(true) {
        return if holds.None? then Failed(true) else NoProof;
      }
      r := Upgrade();
    }

    /** Block by block: a turn of a block that no turn has touched yet. */
    method NextStampTurn(ghost since: seq<Slot>, ghost start: Slot, ghost before: seq<Event>) returns (failed: bool)
      requires Untouched(since, start, before)
      modifies this`files, this`history, this`log
      ensures StampEnded(since, start, before) && (failed <==> TurnFailed(start, before))
    {
      failed := StampTurn();
    }

    method NextUpgradeTurn(ghost since: seq<Slot>, ghost start: Slot, ghost before: seq<Event>)
      requires Untouched(since, start, before)
      modifies this`files, this`history, this`log
      ensures Kept(since, start) && UpgradeTurned(start, before)
    {
      var r := UpgradeTurn();
      assert UpgradeEnds(Digest(), start, Since(before), r, files);
    }

    /** The process dies somewhere in a command: the files are as they were at some
        point since it began. */
    method Kill(start: Slot, since: nat)
      requires Throughout(since, start) && Ordered(Digest(), start)
      modifies this`files, this`history
      ensures history == old(history) + [files] && Ready()
      ensures Throughout(since, start) && Safe(Digest(), start, files)
    {
      var k: int := *;
      files := if since <= k < |history| then history[k] else start;
      history := history + [files];
    }
  }

  /******* The commands, over a ledger's blocks *******/

  ghost predicate Distinct(blocks: seq<ProofFiles>) {
    forall i, j | 0 <= i < j < |blocks| :: blocks[i] != blocks[j]
  }

  ghost predicate AllReady(blocks: seq<ProofFiles>)
    reads blocks
  {
    forall i | 0 <= i < |blocks| :: blocks[i].Ready()
  }

  /** Every block, at every point since the histories had those lengths, has every
      attestation it had then. */
  ghost predicate AllKept(blocks: seq<ProofFiles>, since: seq<nat>, starts: seq<Slot>)
    requires |since| == |starts| == |blocks|
    reads blocks
  {
    forall i | 0 <= i < |blocks| :: blocks[i].Throughout(since[i], starts[i])
                                    && Safe(blocks[i].Digest(), starts[i], blocks[i].files)
  }

  ghost function Lengths(blocks: seq<ProofFiles>): (since: seq<nat>)
    reads blocks
    ensures |since| == |blocks| && forall i | 0 <= i < |blocks| :: since[i] == |blocks[i].history|
  {
    seq(|blocks|, i requires 0 <= i < |blocks| reads blocks => |blocks[i].history|)
  }

  ghost function Files(blocks: seq<ProofFiles>): (files: seq<Slot>)
    reads blocks
    ensures |files| == |blocks| && forall i | 0 <= i < |blocks| :: files[i] == blocks[i].files
  {
    seq(|blocks|, i requires 0 <= i < |blocks| reads blocks => blocks[i].files)
  }

  /** Every block's turn in `stamp` has come to an end that its own log accounts for. */
  ghost predicate AllStamped(blocks: seq<ProofFiles>, starts: seq<Slot>, logs: seq<seq<Event>>)
    requires |starts| == |logs| == |blocks|
    reads blocks
  {
    forall i | 0 <= i < |blocks| :: blocks[i].Turned(starts[i], logs[i])
  }

  ghost predicate SomeFailed(blocks: seq<ProofFiles>, starts: seq<Slot>, logs: seq<seq<Event>>)
    requires |starts| == |logs| == |blocks|
    reads blocks
  {
    exists i | 0 <= i < |blocks| :: blocks[i].TurnFailed(starts[i], logs[i])
  }

  ghost predicate AllUpgraded(blocks: seq<ProofFiles>, starts: seq<Slot>, logs: seq<seq<Event>>)
    requires |starts| == |logs| == |blocks|
    reads blocks
  {
    forall i | 0 <= i < |blocks| :: blocks[i].UpgradeTurned(starts[i], logs[i])
  }

  ghost function Histories(blocks: seq<ProofFiles>): (histories: seq<seq<Slot>>)
    reads blocks
    ensures |histories| == |blocks| && forall i | 0 <= i < |blocks| :: histories[i] == blocks[i].history
  {
    seq(|blocks|, i requires 0 <= i < |blocks| reads blocks => blocks[i].history)
  }

  ghost function Logs(blocks: seq<ProofFiles>): (logs: seq<seq<Event>>)
    reads blocks
    ensures |logs| == |blocks| && forall i | 0 <= i < |blocks| :: logs[i] == blocks[i].log
  {
    seq(|blocks|, i requires 0 <= i < |blocks| reads blocks => blocks[i].log)
  }

  lemma KeptAll(blocks: seq<ProofFiles>, since: seq<seq<Slot>>, lengths: seq<nat>, starts: seq<Slot>)
    requires |since| == |lengths| == |starts| == |blocks| && forall i | 0 <= i < |blocks| :: lengths[i] == |since[i]|
    requires forall i | 0 <= i < |blocks| :: blocks[i].Kept(since[i], starts[i])
    ensures AllReady(blocks) && forall i | 0 <= i < |blocks| :: since[i] <= blocks[i].history
    ensures AllKept(blocks, lengths, starts)
  {
  }

  /** `aikiri-ledger stamp`: every block gets its turn, and it exits 0 exactly when none
      failed, and then every block has a proof of it. */
  method StampAll(blocks: seq<ProofFiles>) returns (exit: int)
    requires Distinct(blocks) && AllReady(blocks)
    modifies blocks
    ensures AllReady(blocks)
    ensures AllKept(blocks, old(Lengths(blocks)), old(Files(blocks)))
    ensures forall i | 0 <= i < |blocks| :: old(blocks[i].history) <= blocks[i].history
    ensures AllStamped(blocks, old(Files(blocks)), old(Logs(blocks)))
    ensures exit == if SomeFailed(blocks, old(Files(blocks)), old(Logs(blocks))) then 1 else 0
    ensures exit == 0 ==> forall i | 0 <= i < |blocks| ::
              blocks[i].files.ots.Proof? && blocks[i].files.ots.digest == blocks[i].w.sha(blocks[i].blockHash)
  {
    ghost var starts, logs, since, lengths := Files(blocks), Logs(blocks), Histories(blocks), Lengths(blocks);
    assert forall k | 0 <= k < |blocks| :: lengths[k] == |since[k]|;
    var failed := StampEach(blocks, since, starts, logs);
    StampAllEnds(blocks, since, lengths, starts, logs);
    return if failed > 0 then 1 else 0;
  }

  /** The loop of `stamp`. */
  method StampEach(blocks: seq<ProofFiles>, ghost since: seq<seq<Slot>>, ghost starts: seq<Slot>, ghost logs: seq<seq<Event>>)
      returns (failed: nat)
    requires Distinct(blocks) && |since| == |starts| == |logs| == |blocks|
    requires forall k | 0 <= k < |blocks| :: blocks[k].Untouched(since[k], starts[k], logs[k])
    modifies blocks
    ensures forall k | 0 <= k < |blocks| :: blocks[k].StampEnded(since[k], starts[k], logs[k])
    ensures failed == 0 <==> forall k | 0 <= k < |blocks| :: !blocks[k].TurnFailed(starts[k], logs[k])
  {
    hide *;
    hide ProofFiles.StampEnded, ProofFiles.TurnFailed, ProofFiles.Untouched;
    failed := 0;
    for i := 0 to |blocks|
      invariant forall k | 0 <= k < i :: blocks[k].StampEnded(since[k], starts[k], logs[k])
      invariant forall k | i <= k < |blocks| :: blocks[k].Untouched(since[k], starts[k], logs[k])
      invariant failed == 0 <==> forall k | 0 <= k < i :: !blocks[k].TurnFailed(starts[k], logs[k])
    {
      assert forall k | 0 <= k < |blocks| && k != i :: blocks[k] != blocks[i] by { Apart(blocks, i); }
      var f := blocks[i].NextStampTurn(since[i], starts[i], logs[i]);
      if f {
        failed := failed + 1;
      }
    }
  }

  lemma Apart(blocks: seq<ProofFiles>, i: nat)
    requires Distinct(blocks) && i < |blocks|
    ensures forall k | 0 <= k < |blocks| && k != i :: blocks[k] != blocks[i]
  {
  }

  lemma StampAllEnds(blocks: seq<ProofFiles>, since: seq<seq<Slot>>, lengths: seq<nat>, starts: seq<Slot>,
                     logs: seq<seq<Event>>)
    requires |since| == |lengths| == |starts| == |logs| == |blocks|
    requires forall i | 0 <= i < |blocks| :: lengths[i] == |since[i]|
    requires forall i | 0 <= i < |blocks| :: blocks[i].StampEnded(since[i], starts[i], logs[i])
    ensures AllReady(blocks) && forall i | 0 <= i < |blocks| :: since[i] <= blocks[i].history
    ensures AllKept(blocks, lengths, starts)
    ensures AllStamped(blocks, starts, logs)
    ensures SomeFailed(blocks, starts, logs) <==> exists i | 0 <= i < |blocks| :: blocks[i].TurnFailed(starts[i], logs[i])
    ensures !SomeFailed(blocks, starts, logs) ==> forall i | 0 <= i < |blocks| :: Proves(blocks[i].Digest(), blocks[i].files.ots)
  {
    hide ProofFiles.Kept, ProofFiles.Turned, ProofFiles.TurnFailed, Proves;
    KeptAll(blocks, since, lengths, starts);
  }

  /** `aikiri-ledger upgrade`: every block gets its turn. */
  method UpgradeAll(blocks: seq<ProofFiles>)
    requires Distinct(blocks) && AllReady(blocks)
    modifies blocks
    ensures AllReady(blocks)
    ensures AllKept(blocks, old(Lengths(blocks)), old(Files(blocks)))
    ensures forall i | 0 <= i < |blocks| :: old(blocks[i].history) <= blocks[i].history
    ensures AllUpgraded(blocks, old(Files(blocks)), old(Logs(blocks)))
  {
    ghost var starts, logs, since, lengths := Files(blocks), Logs(blocks), Histories(blocks), Lengths(blocks);
    assert forall k | 0 <= k < |blocks| :: lengths[k] == |since[k]|;
    UpgradeEach(blocks, since, starts, logs);
    KeptAll(blocks, since, lengths, starts);
  }

  /** The loop of `upgrade`. */
  method UpgradeEach(blocks: seq<ProofFiles>, ghost since: seq<seq<Slot>>, ghost starts: seq<Slot>, ghost logs: seq<seq<Event>>)
    requires Distinct(blocks) && |since| == |starts| == |logs| == |blocks|
    requires forall k | 0 <= k < |blocks| :: blocks[k].Untouched(since[k], starts[k], logs[k])
    modifies blocks
    ensures forall k | 0 <= k < |blocks| :: blocks[k].Kept(since[k], starts[k]) && blocks[k].UpgradeTurned(starts[k], logs[k])
  {
    hide *;
    hide ProofFiles.Kept, ProofFiles.UpgradeTurned, ProofFiles.Untouched;
    for i := 0 to |blocks|
      invariant forall k | 0 <= k < i :: blocks[k].Kept(since[k], starts[k]) && blocks[k].UpgradeTurned(starts[k], logs[k])
      invariant forall k | i <= k < |blocks| :: blocks[k].Untouched(since[k], starts[k], logs[k])
    {
      assert forall k | 0 <= k < |blocks| && k != i :: blocks[k] != blocks[i] by { Apart(blocks, i); }
      blocks[i].NextUpgradeTurn(since[i], starts[i], logs[i]);
    }
  }

  datatype Command = StampCommand | UpgradeCommand | WitnessCommand(i: nat)

  /** One command. `stamp` and `witness` do nothing to the files where `ots` is not
      installed; `witness` is one block's turn. */
  method Perform(blocks: seq<ProofFiles>, command: Command, installed: bool)
    requires Distinct(blocks) && AllReady(blocks)
    modifies blocks
    ensures AllReady(blocks)
    ensures AllKept(blocks, old(Lengths(blocks)), old(Files(blocks)))
    ensures forall i | 0 <= i < |blocks| :: old(blocks[i].history) <= blocks[i].history
    ensures command.StampCommand? && installed ==> AllStamped(blocks, old(Files(blocks)), old(Logs(blocks)))
    ensures command.UpgradeCommand? ==> AllUpgraded(blocks, old(Files(blocks)), old(Logs(blocks)))
    ensures command.WitnessCommand? && installed && command.i < |blocks| ==>
              blocks[command.i].Turned(old(blocks[command.i].files), old(blocks[command.i].log))
    ensures forall i | 0 <= i < |blocks| && !command.UpgradeCommand? && (!installed || (command.WitnessCommand? && command.i != i)) ::
              blocks[i].files == old(blocks[i].files) && blocks[i].history == old(blocks[i].history)
  {
    hide TurnEnds, UpgradeEnds;
    match command
    case StampCommand =>
      if installed {
        var _ := StampAll(blocks);
      }
    case UpgradeCommand => UpgradeAll(blocks);
    case WitnessCommand(i) =>
      if installed && i < |blocks| {
        var _ := blocks[i].StampTurn();
      }
  }

  method KillAll(blocks: seq<ProofFiles>, since: seq<nat>, starts: seq<Slot>)
    requires |since| == |starts| == |blocks| && Distinct(blocks)
    requires AllKept(blocks, since, starts)
    requires forall i | 0 <= i < |blocks| :: Ordered(blocks[i].Digest(), starts[i])
    modifies blocks
    ensures AllReady(blocks)
    ensures AllKept(blocks, since, starts)
    ensures forall i | 0 <= i < |blocks| :: old(blocks[i].history) <= blocks[i].history
  {
    for i := 0 to |blocks|
      invariant forall k | i <= k < |blocks| :: blocks[k].files == old(blocks[k].files) && blocks[k].history == old(blocks[k].history)
      invariant forall k | 0 <= k < i :: old(blocks[k].history) <= blocks[k].history && blocks[k].Ready()
      invariant AllKept(blocks, since, starts)
    {
      blocks[i].Kill(starts[i], since[i]);
    }
  }

  /** Any commands, in any order, each run to its end or killed anywhere: no block ever
      loses an attestation it had, at any point, and the next command can go on. */
  method Session(blocks: seq<ProofFiles>, commands: seq<Command>)
    requires Distinct(blocks) && AllReady(blocks)
    modifies blocks
    ensures AllReady(blocks)
    ensures AllKept(blocks, old(Lengths(blocks)), old(Files(blocks)))
  {
    ghost var since, starts := Lengths(blocks), Files(blocks);
    for n := 0 to |commands|
      invariant AllReady(blocks)
      invariant forall i | 0 <= i < |blocks| :: since[i] <= |blocks[i].history|
      invariant AllKept(blocks, since, starts)
    {
      PerformOrDie(blocks, commands[n], since, starts);
    }
  }

  method PerformOrDie(blocks: seq<ProofFiles>, command: Command, ghost since: seq<nat>, ghost starts: seq<Slot>)
    requires Distinct(blocks) && AllReady(blocks)
    requires |since| == |starts| == |blocks| && AllKept(blocks, since, starts)
    modifies blocks
    ensures AllReady(blocks)
    ensures AllKept(blocks, since, starts)
  {
    var lengths := seq(|blocks|, i requires 0 <= i < |blocks| reads blocks => |blocks[i].history|);
    var files := seq(|blocks|, i requires 0 <= i < |blocks| reads blocks => blocks[i].files);
    var installed: bool := *;
    Perform(blocks, command, installed);
    var killed: bool := *;
    if killed {
      KillAll(blocks, lengths, files);
    }
    forall i | 0 <= i < |blocks|
      ensures blocks[i].Throughout(since[i], starts[i]) && Safe(blocks[i].Digest(), starts[i], blocks[i].files)
    {
      var b := blocks[i];
      SafeThen(b.Digest(), starts[i], files[i], b.files);
      forall k | since[i] <= k < |b.history| ensures Safe(b.Digest(), starts[i], b.history[k]) {
        if k < lengths[i] {
          assert b.history[k] == old(b.history)[k];
        } else {
          SafeThen(b.Digest(), starts[i], files[i], b.history[k]);
        }
      }
    }
  }

  /** Where `ots stamp` may have got to. */
  predicate RanStampFrom(start: Slot, s: Slot) {
    s == start || (start.ots == Absent && Regular(s.ots) && s == start.(ots := s.ots))
  }

  /** Where `ots upgrade` may have got to. */
  predicate UpgradedFrom(start: Slot, s: Slot) {
    || s == start
    || (&& start.ots.Proof?
        && s == start.(ots := s.ots, bak := start.ots)
        && (s.ots == Absent || s.ots.Plain? || (s.ots.Proof? && s.ots.digest == start.ots.digest && start.ots.atts <= s.ots.atts)))
  }

  /** What writing the digest may change: the .hash, to this block's, and the .tmp. */
  predicate OnlyDigest(blockHash: Bytes, start: Slot, s: Slot) {
    s == start.(hash := s.hash, tmp := s.tmp) && (s.hash == start.hash || s.hash == Plain(blockHash))
  }

  /** What the cleanup may remove. */
  predicate CleanedFrom(hadOts: bool, hadHash: bool, start: Slot, s: Slot) {
    && s == start.(ots := s.ots, hash := s.hash)
    && (s.ots == start.ots || (!hadOts && Regular(start.ots) && s.ots == Absent))
    && (s.hash == start.hash || (!hadHash && Regular(start.hash) && s.hash == Absent))
  }

  /** Where a stamp may have got to: an .ots or a backup that was there is untouched, and
      a regular .hash that was there stays one. */
  predicate StampedFrom(digest: Bytes, start: Slot, s: Slot) {
    && s.bak == start.bak
    && (start.ots != Absent ==> s.ots == start.ots)
    && (s.ots == Link ==> start.ots == Link)
    && (Regular(start.hash) ==> Regular(s.hash))
  }

  /** How `stamp` ends: `ots stamp` ran, once and on this block's hash, unless writing
      that hash failed or an interrupt came first; and it is a success exactly when that
      run was one and nothing else went wrong. */
  ghost predicate StampEnds(blockHash: Bytes, events: seq<Event>, stamped: bool) {
    && events != []
    && (events[0] == FileFailed || events[0] == Interrupted || (events[0].StampRan? && events[0].on == Plain(blockHash)))
    && (forall k | 0 < k < |events| :: !events[k].StampRan?)
    && (stamped <==> events == [StampRan(true, Plain(blockHash))])
  }

  lemma EndsWithCleanup(blockHash: Bytes, events: seq<Event>, more: seq<Event>)
    requires StampEnds(blockHash, events, false) && (more == events || more == events + [FileFailed])
    ensures StampEnds(blockHash, more, false)
  {
    if more == events + [FileFailed] {
      assert more[0] == events[0] && more[|events|] == FileFailed;
      assert forall k | 0 < k < |events| :: more[k] == events[k];
    }
  }

  /** A turn in `stamp` or `witness` stamps exactly where there is neither a proof file
      nor a backup. */
  predicate Stamps(start: Slot) {
    start.ots == Absent && start.bak == Absent
  }

  /** Where such a turn ends, from what happened: elsewhere it settles the backup, and
      `ots info` or one file operation at most can fail. */
  ghost predicate TurnEnds(digest: Bytes, blockHash: Bytes, start: Slot, events: seq<Event>, end: Slot) {
    if Stamps(start) then
      StampEnds(blockHash, events, events == [StampRan(true, Plain(blockHash))])
    else
      || (events == [] && end == Settled(digest, start))
      || (events == [FileFailed] && end == start)
      || (events == [NoAnswer] && (end == start || end == Settled(digest, start)))
  }

  ghost predicate TurnFails(digest: Bytes, blockHash: Bytes, start: Slot, events: seq<Event>) {
    var settled := Settled(digest, start);
    if Stamps(start) then events != [StampRan(true, Plain(blockHash))]
    else events != [] || settled.bak != Absent || !Proves(digest, settled.ots)
  }

  /** What an upgrade's answer means, from what happened: nothing ran exactly where the
      backup blocks or there is no proof of this block, or something failed first. */
  ghost predicate UpgradeEnds(digest: Bytes, start: Slot, events: seq<Event>, r: Upgrading, end: Slot) {
    var settled := Settled(digest, start);
    var provable := settled.bak == Absent && Proves(digest, settled.ots);
    if events == [] then
      !provable && end == settled && r == if settled.bak != Absent then Blocked else NoProof
    else
      match events[0]
      case UpgradeRan(exit, left) => provable && RanEnds(digest, settled, exit, left, events[1..], r, end)
      case FileFailed => |events| == 1 && r == Failed(false) && start.bak != Absent && end == start
      case NoAnswer => |events| == 1 && r == Failed(true) && (end == start || end == settled)
      case NotRead => |events| == 1 && r == Failed(false) && provable && end == settled
      case NotStarted => |events| == 1 && r == Failed(true) && provable && end == settled
      case _ => false
  }

  /** And after `ots upgrade` ran: what it left is settled and then decides, before how it
      exited; where the backup cannot be checked, the proof it renamed goes back. */
  ghost predicate RanEnds(digest: Bytes, before: Slot, exit: Exit, left: Slot, events: seq<Event>, r: Upgrading, end: Slot) {
    var settled := Settled(digest, left);
    var complete, pending := exit.code == 0, exit.code == 1 && exit.saysIncomplete;
    if events == [] then
      && end == settled
      && r == if settled.ots != before.ots && Proves(digest, settled.ots) then
                Upgraded(if complete then CalledComplete else if pending then CalledPending else NotCalled)
              else if complete then Complete
              else if pending then Pending
              else Failed(true)
    else
      || (events == [FileFailed] && r == Failed(false) && end == left)
      || (events == [NotRead] && r == Failed(false) && end == settled)
      || (events == [NoAnswer] && r == Failed(true)
          && (end == settled || (left.bak != Absent && end == left.(ots := left.bak, bak := Absent))))
      || (events == [NoAnswer, FileFailed] && r == Failed(false) && end == left)
  }

  lemma SettledIsSafe(digest: Bytes, s: Slot)
    requires Ordered(digest, s)
    ensures Safe(digest, s, Settled(digest, s))
  {
  }

  /** Stamping is safe where the commands allow it: no backup, or an .ots already. */
  lemma StampingIsSafe(digest: Bytes, start: Slot, s: Slot)
    requires Ordered(digest, start) && StampedFrom(digest, start, s)
    requires start.ots != Absent || !Proves(digest, start.bak)
    ensures Safe(digest, start, s)
  {
  }

  lemma SafeThen(digest: Bytes, a: Slot, b: Slot, c: Slot)
    requires Safe(digest, a, b) && Safe(digest, b, c)
    ensures Safe(digest, a, c)
  {
  }
}
