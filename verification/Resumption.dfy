/**
 * A rotation that was started can be finished by any admin at its generation,
 * in batches, unless somebody behind has deleted their account.
 */
module Resumption {
  import opened Groups
  import opened GroupEffects
  import opened GroupInvariants
  import opened Completion

  // ----- the new key is not lost -----

  /** Somebody's entry is at the generation being rotated to. */
  ghost predicate KeyHeld(s: Group) {
    IsRotating(s) && s.marker.Some? && s.marker.value.minted ==>
      exists u :: u in s.members && s.members[u].generation == s.marker.value.generation
  }

  /** Removing and leaving both start rotations of their own, so they wait. */
  lemma NobodyGoesDuringARotation(s: Group, step: Step, u: UserId)
    requires IsRotating(s) && s.marker.Some? && Commits(s, step) && Honest(s, step) && Effect(s, step).meta.Some?
    requires u in s.members
    ensures u in Effect(s, step).members
  {
    if u !in Effect(s, step).members { MembersAfter(s, step, u); }
  }

  lemma HolderStays(s: Group, t: Group, step: Step, u: UserId)
    requires ChainMoves(s, t, step) && EntriesMove(s, t, step) && ChainOk(t) && StartOf(step).None? && !step.SweepGroup?
    requires s.marker.Some? && t.marker.Some? && t.marker.value.minted
    requires u in s.members && s.members[u].generation == s.marker.value.generation && u in t.members
    ensures t.members[u].generation == t.marker.value.generation
  {
    assert Kept(s, t, u) || Wrapped(s, t, step, u);
  }

  lemma StepKeepsKeyHeld(s: Group, step: Step)
    requires Chained(s) && KeyHeld(s) && Honest(s, step)
    ensures KeyHeld(Next(s, step))
  {
    var t := Next(s, step);
    if Commits(s, step) && IsRotating(t) && t.marker.Some? && t.marker.value.minted {
      StepKeepsChained(s, step);
      StepMovesChain(s, step);
      if StartOf(step).Some? {
        StarterHolds(s, step);
      } else {
        StepMovesEntries(s, step);
        var u :| u in s.members && s.members[u].generation == s.marker.value.generation;
        NobodyGoesDuringARotation(s, step, u);
        HolderStays(s, t, step, u);
      }
    }
  }

  lemma StarterHolds(s: Group, step: Step)
    requires Commits(s, step) && StartOf(step).Some?
    ensures var starter := StartOf(step).value.starter.user;
            starter in Effect(s, step).members && Effect(s, step).members[starter].generation == StartOf(step).value.current + 1
  {
  }

  /** As long as a minted rotation runs, whatever else commits. */
  lemma {:induction false} MintedKeyIsNeverLost(s: Group, steps: seq<Step>)
    requires Consistent(s) && KeyHeld(s) && HonestRun(s, steps)
    ensures KeyHeld(Run(s, steps))
    decreases |steps|
  {
    if steps != [] {
      StepKeepsConsistent(s, steps[0]);
      StepKeepsKeyHeld(s, steps[0]);
      MintedKeyIsNeverLost(Next(s, steps[0]), steps[1..]);
    }
  }

  // ----- batches -----

  /** Whom completion waits for. */
  function Behind(s: Group, generation: nat): set<UserId> {
    set u | u in s.members && s.members[u].generation < generation && !Dormant(s, u)
  }

  /** A batch takes exactly its own members out of those behind. */
  lemma BatchShrinksBehind(s: Group, caller: UserId, generation: nat, batch: map<UserId, Recipient>)
    requires Commits(s, RewrapMembers(caller, generation, true, batch))
    ensures var t := Effect(s, RewrapMembers(caller, generation, true, batch));
            && Behind(t, generation) == Behind(s, generation) - batch.Keys
            && t.marker == s.marker && t.users == s.users && t.meta == s.meta && t.joined == s.joined
            && Holds(t, caller, Admin, generation)
    ensures forall u :: u in batch && s.members[u].generation < generation ==> u in Behind(s, generation)
  {
    var t := Effect(s, RewrapMembers(caller, generation, true, batch));
    assert t.members.Keys == s.members.Keys;
  }

  lemma BatchLowersTheCount(s: Group, caller: UserId, generation: nat, batch: map<UserId, Recipient>)
    requires Commits(s, RewrapMembers(caller, generation, true, batch)) && batch.Keys <= Behind(s, generation)
    ensures |Behind(Effect(s, RewrapMembers(caller, generation, true, batch)), generation)| == |Behind(s, generation)| - |batch|
    ensures |batch| >= 1
  {
    BatchShrinksBehind(s, caller, generation, batch);
    assert |batch| == |batch.Keys|;
  }

  /** Sending a batch again, after a lost response say, changes nothing more. */
  lemma RetryIsHarmless(s: Group, step: Step)
    requires step.RewrapMembers?
    ensures Next(Next(s, step), step) == Next(s, step)
  {
    var t := Next(s, step);
    if Commits(s, step) && Commits(t, step) {
      assert Effect(t, step).members == t.members;
      assert Effect(t, step).wraps == t.wraps;
    }
  }

  /** With nobody behind, the scan passes and the marker can go. */
  lemma CompletionPassesAtZero(s: Group, caller: UserId, generation: nat)
    requires Behind(s, generation) == {} && MarkerAt(s, generation) && Holds(s, caller, Admin, generation)
    requires forall u :: u in s.members ==> u in s.users
    ensures Commits(s, CompleteRotation(caller, generation, |s.joined|))
    ensures forall u :: Passed(s, s, u, generation)
  {
    forall u ensures Passed(s, s, u, generation) {
      assert u !in Behind(s, generation);
    }
  }

  // ----- finishing -----

  /** A completion whose scan, begun at `since` joins, let nobody pass but later joiners. */
  ghost predicate ScanHeld(s: Group, step: Step, atLeast: nat) {
    step.CompleteRotation? ==>
      step.since >= atLeast && forall u :: u in Behind(s, step.generation) ==> s.members[u].joinedAs >= step.since
  }

  ghost predicate ScansHold(s: Group, steps: seq<Step>, atLeast: nat)
    decreases |steps|
  {
    steps != [] ==> ScanHeld(s, steps[0], atLeast) && ScansHold(Next(s, steps[0]), steps[1..], atLeast)
  }

  lemma {:induction false} Choose(from: set<UserId>, k: nat) returns (chosen: set<UserId>)
    requires k <= |from|
    ensures chosen <= from && |chosen| == k
  {
    if k == 0 {
      chosen := {};
    } else {
      var u :| u in from;
      chosen := Choose(from - {u}, k - 1);
      chosen := chosen + {u};
    }
  }

  function BatchFor(s: Group, chosen: set<UserId>): map<UserId, Recipient>
    requires chosen <= s.users.Keys
  {
    map u | u in chosen :: CurrentRecipient(s, u)
  }

  lemma BatchForCommits(s: Group, caller: UserId, generation: nat, chosen: set<UserId>)
    requires Consistent(s) && MarkerAt(s, generation) && Holds(s, caller, Admin, generation)
    requires chosen <= Behind(s, generation) && 1 <= |chosen| <= MAX_REWRAP_BATCH
    requires forall u :: u in chosen ==> Live(s, u)
    ensures chosen <= s.users.Keys
    ensures var step := RewrapMembers(caller, generation, true, BatchFor(s, chosen));
            Commits(s, step) && Honest(s, step)
  {
    assert forall u :: u in chosen ==> u in s.users;
    var batch := BatchFor(s, chosen);
    assert batch.Keys == chosen && |batch| == |batch.Keys|;
    BatchForFits(s, caller, generation, chosen);
    BatchForIsObserved(s, chosen);
  }

  lemma BatchForIsObserved(s: Group, chosen: set<UserId>)
    requires AccountsOk(s.users) && chosen <= s.users.Keys
    ensures forall r :: r in BatchFor(s, chosen).Values ==> Observed(s, r)
  {
    forall r | r in BatchFor(s, chosen).Values ensures Observed(s, r) {
      var u :| u in BatchFor(s, chosen) && BatchFor(s, chosen)[u] == r;
      CurrentRecipientIsObserved(s, u);
    }
  }

  lemma BatchForFits(s: Group, caller: UserId, generation: nat, chosen: set<UserId>)
    requires EntriesOk(s) && MarkerAt(s, generation) && Holds(s, caller, Admin, generation) && chosen <= s.users.Keys
    requires chosen <= Behind(s, generation) && 1 <= |chosen| <= MAX_REWRAP_BATCH
    requires forall u :: u in chosen ==> Live(s, u)
    ensures BatchFits(s, caller, generation, true, BatchFor(s, chosen))
  {
    var batch := BatchFor(s, chosen);
    assert batch.Keys == chosen && |batch| == |batch.Keys|;
    forall u | u in batch ensures s.members[u].wrapEpoch == batch[u].epoch {
      assert EntryOk(s, u);
    }
  }

  /** An honest run, its scans sound, that ends the rotation and leaves META alone. */
  ghost predicate Finishes(s: Group, steps: seq<Step>, atLeast: nat) {
    HonestRun(s, steps) && ScansHold(s, steps, atLeast) && Run(s, steps).marker.None? && Run(s, steps).meta == s.meta
  }

  lemma Prepend(s: Group, step: Step, rest: seq<Step>, atLeast: nat)
    requires Honest(s, step) && ScanHeld(s, step, atLeast) && Next(s, step).meta == s.meta
    requires Finishes(Next(s, step), rest, atLeast)
    ensures Finishes(s, [step] + rest, atLeast)
  {
    assert ([step] + rest)[1..] == rest;
  }

  lemma BatchesNeeded(n: nat)
    requires n >= 1
    ensures var k := if n < MAX_REWRAP_BATCH then n else MAX_REWRAP_BATCH;
            (n - k + MAX_REWRAP_BATCH - 1) / MAX_REWRAP_BATCH + 1 == (n + MAX_REWRAP_BATCH - 1) / MAX_REWRAP_BATCH
  {
  }

  lemma BatchLeavesTheRest(s: Group, caller: UserId, generation: nat, chosen: set<UserId>) returns (step: Step)
    requires Consistent(s) && s.meta.Some? && MarkerAt(s, generation) && Holds(s, caller, Admin, generation)
    requires chosen <= Behind(s, generation) && 1 <= |chosen| <= MAX_REWRAP_BATCH
    requires forall u :: u in Behind(s, generation) ==> Live(s, u)
    ensures Honest(s, step) && step.RewrapMembers?
    ensures var t := Next(s, step);
            && t.meta == s.meta && t.joined == s.joined && MarkerAt(t, generation) && Holds(t, caller, Admin, generation)
            && |Behind(t, generation)| == |Behind(s, generation)| - |chosen|
            && (forall u :: u in Behind(t, generation) ==> Live(t, u))
  {
    BatchForCommits(s, caller, generation, chosen);
    var batch := BatchFor(s, chosen);
    step := RewrapMembers(caller, generation, true, batch);
    assert batch.Keys == chosen && |batch| == |batch.Keys|;
    BatchLowersTheCount(s, caller, generation, batch);
    BatchShrinksBehind(s, caller, generation, batch);
  }

  lemma CompletionEndsIt(s: Group, caller: UserId, generation: nat) returns (steps: seq<Step>)
    requires EntriesOk(s) && Behind(s, generation) == {} && MarkerAt(s, generation) && Holds(s, caller, Admin, generation)
    ensures |steps| == 1 && Finishes(s, steps, |s.joined|)
  {
    var step := CompleteRotation(caller, generation, |s.joined|);
    forall u | u in s.members ensures u in s.users { assert EntryOk(s, u); }
    CompletionPassesAtZero(s, caller, generation);
    steps := [step] + [];
    Prepend(s, step, [], |s.joined|);
  }

  /** If everyone behind is live, one batch for every 25 of them and a completion finish the rotation. */
  lemma {:induction false} RotationCanFinish(s: Group, caller: UserId, generation: nat) returns (steps: seq<Step>)
    requires Consistent(s) && s.meta.Some? && MarkerAt(s, generation) && Holds(s, caller, Admin, generation)
    requires forall u :: u in Behind(s, generation) ==> Live(s, u)
    ensures Finishes(s, steps, |s.joined|)
    ensures |steps| == (|Behind(s, generation)| + MAX_REWRAP_BATCH - 1) / MAX_REWRAP_BATCH + 1
    decreases |Behind(s, generation)|
  {
    var n := |Behind(s, generation)|;
    if n == 0 {
      steps := CompletionEndsIt(s, caller, generation);
    } else {
      var chosen := Choose(Behind(s, generation), if n < MAX_REWRAP_BATCH then n else MAX_REWRAP_BATCH);
      var step := BatchLeavesTheRest(s, caller, generation, chosen);
      StepKeepsConsistent(s, step);
      var rest := RotationCanFinish(Next(s, step), caller, generation);
      BatchesNeeded(n);
      steps := [step] + rest;
      Prepend(s, step, rest, |s.joined|);
    }
  }

  // ----- somebody behind has deleted their account -----

  /** A tombstoned account's epoch never moves, so its entry is never wrapped again. */
  ghost predicate Stuck(s: Group, u: UserId, generation: nat) {
    u in Behind(s, generation) && u in s.users && s.users[u].profile.deleted
  }

  lemma DeletedAccountStays(s: Group, step: Step, u: UserId)
    requires Commits(s, step) && u in s.users && s.users[u].profile.deleted
    ensures u in Effect(s, step).users && Effect(s, step).users[u].profile.deleted
    ensures Effect(s, step).users[u].profile.keyEpoch == s.users[u].profile.keyEpoch
  {
    AccountsAfter(s, step);
  }

  lemma StuckStays(s: Group, step: Step, u: UserId, generation: nat)
    requires Chained(s) && Honest(s, step) && IsRotating(s) && Next(s, step).meta.Some?
    requires MarkerAt(s, generation) && Stuck(s, u, generation)
    ensures Stuck(Next(s, step), u, generation)
    ensures u in s.members && u in Next(s, step).members && Next(s, step).members[u].joinedAs == s.members[u].joinedAs
  {
    if Commits(s, step) {
      var t := Effect(s, step);
      NobodyGoesDuringARotation(s, step, u);
      DeletedAccountStays(s, step, u);
      StepMovesEntries(s, step);
      assert Kept(s, t, u) || Wrapped(s, t, step, u);
    }
  }

  lemma MarkerStaysWithStuck(s: Group, step: Step, u: UserId, generation: nat, atLeast: nat)
    requires Chained(s) && s.meta.Some? && MarkerAt(s, generation) && Stuck(s, u, generation)
    requires s.members[u].joinedAs < atLeast && ScanHeld(s, step, atLeast) && Next(s, step).meta.Some?
    ensures MarkerAt(Next(s, step), generation)
  {
    if Commits(s, step) {
      StepMovesChain(s, step);
    }
  }

  /** With a deleted account behind, the rotation never ends, while completions that start from here scan as they should. */
  lemma {:induction false} StuckRotationNeverEnds(s: Group, steps: seq<Step>, u: UserId, generation: nat, atLeast: nat)
    requires Chained(s) && HonestRun(s, steps) && ScansHold(s, steps, atLeast) && IsRotating(Run(s, steps))
    requires MarkerAt(s, generation) && Stuck(s, u, generation) && s.members[u].joinedAs < atLeast
    ensures MarkerAt(Run(s, steps), generation) && Stuck(Run(s, steps), u, generation)
    decreases |steps|
  {
    if steps != [] {
      RotatingBefore(s, steps);
      StepKeepsChained(s, steps[0]);
      RunKeepsChained(Next(s, steps[0]), steps[1..]);
      StuckStays(s, steps[0], u, generation);
      MarkerStaysWithStuck(s, steps[0], u, generation, atLeast);
      StuckRotationNeverEnds(Next(s, steps[0]), steps[1..], u, generation, atLeast);
    }
  }

  /** An honest run with sound scans that gets a Rotating group past the rotation. */
  ghost predicate Ends(s: Group, steps: seq<Step>, generation: nat) {
    && HonestRun(s, steps) && ScansHold(s, steps, |s.joined|)
    && IsRotating(Run(s, steps)) && !MarkerAt(Run(s, steps), generation)
  }

  /** So the rotation can end in a Rotating group, whoever else sends what, exactly if nobody behind has deleted their account. */
  lemma FinishesUnlessStuck(s: Group, caller: UserId, generation: nat)
    requires Consistent(s) && IsRotating(s) && MarkerAt(s, generation) && Holds(s, caller, Admin, generation)
    ensures (exists steps :: Ends(s, steps, generation)) <==> forall u :: u in Behind(s, generation) ==> Live(s, u)
  {
    forall u | u in Behind(s, generation) ensures u in s.users && s.members[u].joinedAs < |s.joined| {
      assert EntryOk(s, u);
    }
    if forall u :: u in Behind(s, generation) ==> Live(s, u) {
      var steps := RotationCanFinish(s, caller, generation);
      assert Ends(s, steps, generation);
    } else {
      var u :| u in Behind(s, generation) && !Live(s, u);
      forall steps ensures !Ends(s, steps, generation) {
        if Ends(s, steps, generation) { StuckRotationNeverEnds(s, steps, u, generation, |s.joined|); }
      }
    }
  }
}
