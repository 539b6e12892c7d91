/**
 * What CompleteRotation's scan is worth: it reads pages of members, and
 * profiles, one after another while other requests commit, and deletes the
 * marker at the end.
 */
module Completion {
  import opened Groups
  import opened GroupEffects
  import opened GroupInvariants
  import opened MarkerLife

  // ----- the scan -----

  /** What the scan requires of one member: page is the state their page was read in, later the one their profile was. */
  predicate Passed(page: Group, later: Group, u: UserId, generation: nat) {
    u in page.members && page.members[u].generation < generation ==>
      u in later.users && page.members[u].wrapEpoch < later.users[u].profile.keyEpoch
  }

  ghost predicate PassedAt(s: Group, steps: seq<Step>, generation: nat, u: UserId, pageAt: nat, profileAt: nat) {
    pageAt <= profileAt <= |steps| && Passed(Run(s, steps[..pageAt]), Run(s, steps[..profileAt]), u, generation)
  }

  /** Behind at the end: dormant, or joined after the page that covers them was read. */
  ghost predicate Excused(page: Group, t: Group, u: UserId)
    requires u in t.members
  {
    Dormant(t, u) || t.members[u].joinedAs >= |page.joined|
  }

  ghost predicate AllExcused(s: Group, steps: seq<Step>, generation: nat, pageAt: UserId -> nat) {
    var t := Run(s, steps);
    forall u :: u in t.members && t.members[u].generation < generation ==>
      pageAt(u) <= |steps| && Excused(Run(s, steps[..pageAt(u)]), t, u)
  }

  /**
   * A completion of a scan begun at s: pageAt and profileAt say after how many
   * of the others' steps each member was read, and the scan passed.
   */
  ghost predicate ScanCommits(s: Group, steps: seq<Step>, caller: UserId, generation: nat,
                              pageAt: UserId -> nat, profileAt: UserId -> nat) {
    && HonestRun(s, steps) && Run(s, steps).meta.Some?
    && Commits(Run(s, steps), CompleteRotation(caller, generation, |s.joined|))
    && forall u: UserId :: PassedAt(s, steps, generation, u, pageAt(u), profileAt(u))
  }

  /** Whatever else commits during it, short of the group's end. */
  ghost predicate EveryScanIsSound(s: Group, generation: nat) {
    forall steps, caller, pageAt: UserId -> nat, profileAt: UserId -> nat ::
      ScanCommits(s, steps, caller, generation, pageAt, profileAt) ==> AllExcused(s, steps, generation, pageAt)
  }

  /** The same short of a leave from behind that puts the very marker up again. */
  ghost predicate EveryUnreopenedScanIsSound(s: Group, generation: nat) {
    forall steps, caller, pageAt: UserId -> nat, profileAt: UserId -> nat ::
      ScanCommits(s, steps, caller, generation, pageAt, profileAt) && !ReopensIn(s, steps, generation) ==>
        AllExcused(s, steps, generation, pageAt)
  }

  /** No request converts the group, or ends it. */
  predicate KeepsMode(s: Group, t: Group) { t.meta.Some? && (IsRotating(s) ==> IsRotating(t)) }

  /** And while nobody converts the group during the scan. */
  ghost predicate EveryUnconvertedScanIsSound(s: Group, generation: nat) {
    forall steps, caller, pageAt: UserId -> nat, profileAt: UserId -> nat ::
      ScanCommits(s, steps, caller, generation, pageAt, profileAt) && !ReopensIn(s, steps, generation)
      && KeepsMode(s, Run(s, steps)) ==>
        AllExcused(s, steps, generation, pageAt)
  }

  // ----- who is not touched -----

  /** The same membership, at the WrapEpoch it was, no further back. */
  predicate Still(s: Group, t: Group, u: UserId) {
    && u in s.members && u in t.members && t.members[u].joinedAs == s.members[u].joinedAs
    && t.members[u].wrapEpoch == s.members[u].wrapEpoch && s.members[u].generation <= t.members[u].generation
  }

  lemma RotatingBefore(s: Group, steps: seq<Step>)
    requires Chained(s) && IsRotating(Run(s, steps))
    ensures IsRotating(s)
  {
    RunKeepsChained(s, steps);
  }

  /** While the marker of a generation stands in a Rotating group, an entry behind it is not touched. */
  lemma BehindIsUntouched(s: Group, t: Group, step: Step, u: UserId, generation: nat)
    requires EntriesMove(s, t, step) && ChainMoves(s, t, step)
    requires MarkerAt(s, generation) && !step.SelfWrap? && !step.SweepGroup?
    requires u in t.members && t.members[u].generation < generation && t.members[u].joinedAs < |s.joined|
    ensures Kept(s, t, u)
  {
  }

  lemma StepLeavesBehind(s: Group, step: Step, u: UserId, generation: nat)
    requires Honest(s, step) && IsRotating(s) && Next(s, step).meta.Some? && MarkerAt(s, generation)
    requires u in Next(s, step).members && Next(s, step).members[u].generation < generation
    requires Next(s, step).members[u].joinedAs < |s.joined|
    ensures Kept(s, Next(s, step), u)
  {
    if Commits(s, step) {
      StepMovesEntries(s, step);
      StepMovesChain(s, step);
      assert !step.SelfWrap?;
      BehindIsUntouched(s, Effect(s, step), step, u, generation);
    }
  }

  /** No conversion commits under a marker. */
  lemma StaysRotating(s: Group, step: Step)
    requires IsRotating(s) && s.marker.Some? && Next(s, step).meta.Some?
    ensures IsRotating(Next(s, step))
  {
    if Commits(s, step) { MetaAfter(s, step); }
  }

  lemma {:induction false} BehindStaysUntouched(s: Group, steps: seq<Step>, u: UserId, generation: nat)
    requires Chained(s) && HonestRun(s, steps) && !ReopensIn(s, steps, generation) && Run(s, steps).meta.Some?
    requires IsRotating(s) && MarkerAt(s, generation) && MarkerAt(Run(s, steps), generation)
    requires u in Run(s, steps).members && Run(s, steps).members[u].generation < generation
    requires Run(s, steps).members[u].joinedAs < |s.joined|
    ensures Kept(s, Run(s, steps), u)
    decreases |steps|
  {
    if steps != [] {
      var step, rest, v := steps[0], steps[1..], Next(s, steps[0]);
      assert steps == [step] + rest;
      MarkerStoodBetween(s, step, rest, generation);
      StaysRotating(s, step);
      JoinedGrows(s, step);
      BehindStaysUntouched(v, rest, u, generation);
      StepLeavesBehind(s, step, u, generation);
    }
  }

  // ----- nobody behind who could be touched -----

  /** Whoever is behind the generation is a plain member with a deleted account. */
  predicate Settled(s: Group, generation: nat) {
    forall u :: u in s.members && s.members[u].generation < generation ==> Gone(s, u)
  }

  predicate Gone(s: Group, u: UserId) {
    u in s.members && s.members[u].role == Member && u in s.users && s.users[u].profile.deleted
  }

  lemma GoneStays(s: Group, step: Step, u: UserId)
    requires Commits(s, step) && Gone(s, u) && Kept(s, Effect(s, step), u)
    ensures Gone(Effect(s, step), u)
  {
    AccountsAfter(s, step);
    GoneKeepsRole(s, step, u);
  }

  /** Roles are given to live accounts. */
  lemma GoneKeepsRole(s: Group, step: Step, u: UserId)
    requires Commits(s, step) && Gone(s, u) && Kept(s, Effect(s, step), u)
    ensures Effect(s, step).members[u].role == Member
  {
    if StartOf(step).Some? { StartsKeepRoles(s, step, u); }
  }

  lemma StartsKeepRoles(s: Group, step: Step, u: UserId)
    requires Commits(s, step) && StartOf(step).Some? && u in s.members && u in Effect(s, step).members
    ensures Effect(s, step).members[u].role == s.members[u].role
  {
  }

  /** A join at a generation behind needs an inviter there who is more than a plain member. */
  lemma JoinsAtTheInviters(s: Group, step: Step, generation: nat)
    requires Commits(s, step) && step.CompleteInvite? && Settled(s, generation)
    ensures step.generation >= generation
  {
    assert step.inviter in s.members && s.members[step.inviter].generation == step.generation;
  }

  /** Nobody who is gone gets a wrap, and nobody else comes in behind. */
  lemma SettledStep(s: Group, step: Step, u: UserId, generation: nat)
    requires Settled(s, generation) && u in Next(s, step).members && Next(s, step).members[u].generation < generation
    ensures Kept(s, Next(s, step), u) && Gone(Next(s, step), u)
  {
    if Commits(s, step) {
      var t := Effect(s, step);
      StepMovesEntries(s, step);
      if step.CompleteInvite? { JoinsAtTheInviters(s, step, generation); }
      assert Kept(s, t, u) || Wrapped(s, t, step, u);
      GoneStays(s, step, u);
    }
  }

  lemma SettledStays(s: Group, step: Step, generation: nat)
    requires Settled(s, generation)
    ensures Settled(Next(s, step), generation)
  {
    forall u | u in Next(s, step).members && Next(s, step).members[u].generation < generation ensures Gone(Next(s, step), u) {
      SettledStep(s, step, u, generation);
    }
  }

  lemma {:induction false} SettledIsStill(s: Group, steps: seq<Step>, u: UserId, generation: nat)
    requires Settled(s, generation) && u in Run(s, steps).members && Run(s, steps).members[u].generation < generation
    ensures Still(s, Run(s, steps), u)
    decreases |steps|
  {
    if steps != [] {
      SettledStays(s, steps[0], generation);
      SettledIsStill(Next(s, steps[0]), steps[1..], u, generation);
      SettledStep(s, steps[0], u, generation);
    }
  }

  lemma {:induction false} SettledStaysOverRuns(s: Group, steps: seq<Step>, generation: nat)
    requires Settled(s, generation)
    ensures Settled(Run(s, steps), generation)
    decreases |steps|
  {
    if steps != [] {
      SettledStays(s, steps[0], generation);
      SettledStaysOverRuns(Next(s, steps[0]), steps[1..], generation);
    }
  }

  // ----- from where every scan is sound -----

  /** Settled at the generation, or Rotating with its marker up, or Rotating and settled one short of it; or it is over. */
  predicate Sheltered(s: Group, generation: nat) {
    || Settled(s, generation) || Over(s, generation)
    || (IsRotating(s) && (MarkerAt(s, generation) || (generation == Cur(s) + 1 && Settled(s, Cur(s)))))
  }

  lemma ShelterStays(s: Group, step: Step, generation: nat)
    requires Chained(s) && KeepsMode(s, Next(s, step)) && !Reopens(s, step, generation) && Sheltered(s, generation)
    ensures Sheltered(Next(s, step), generation)
  {
    StepMovesMarker(s, step, generation);
    if Settled(s, generation) {
      SettledStays(s, step, generation);
    } else if generation == Cur(s) + 1 && Settled(s, Cur(s)) && !MarkerAt(s, generation) {
      SettledStays(s, step, Cur(s));
      CurMoves(s, step);
    }
  }

  /** A transaction mints the next generation, with its marker, or none. */
  lemma CurMoves(s: Group, step: Step)
    requires Chained(s) && Next(s, step).meta.Some?
    ensures Cur(Next(s, step)) == Cur(s) || (Cur(Next(s, step)) == Cur(s) + 1 && MarkerAt(Next(s, step), Cur(s) + 1))
    ensures Cur(Next(s, step)) == Cur(s) + 1 <==> Commits(s, step) && StartOf(step).Some?
  {
    StepKeepsChained(s, step);
    if Commits(s, step) {
      StepMovesChain(s, step);
      if StartOf(step).Some? {
        var start := StartOf(step).value;
        assert s.members[start.starter.user].generation == start.current;
      }
    }
  }

  /** Before the rotation starts in a Rotating group: a wrap at the current generation is for somebody behind it, or no new wrap. */
  lemma BeforeTheStart(s: Group, step: Step, u: UserId)
    requires Chained(s) && Honest(s, step) && IsRotating(s) && Next(s, step).meta.Some? && Settled(s, Cur(s))
    requires u in Next(s, step).members && Next(s, step).members[u].generation <= Cur(s)
    requires Next(s, step).members[u].joinedAs < |s.joined|
    ensures Still(s, Next(s, step), u)
  {
    if Commits(s, step) {
      var t := Effect(s, step);
      StepMovesEntries(s, step);
      StepMovesChain(s, step);
      assert Kept(s, t, u) || Wrapped(s, t, step, u);
      assert StartOf(step).Some? ==> s.members[StartOf(step).value.starter.user].generation == StartOf(step).value.current;
      if !Kept(s, t, u) {
        OnlyABatchRewraps(s, step, u);
        BatchKeepsEpoch(s, step, u);
      }
    }
  }

  lemma BatchKeepsEpoch(s: Group, step: Step, u: UserId)
    requires Commits(s, step) && step.RewrapMembers? && u in s.members
    ensures Still(s, Effect(s, step), u)
  {
  }

  lemma OnlyABatchRewraps(s: Group, step: Step, u: UserId)
    requires Chained(s) && s.meta.Some? && Commits(s, step) && Honest(s, step) && IsRotating(s) && Settled(s, Cur(s))
    requires StartOf(step).None? && Wrapped(s, Effect(s, step), step, u)
    requires u in Effect(s, step).members && Effect(s, step).members[u].joinedAs < |s.joined|
    ensures step.RewrapMembers? && u in s.members
  {
    if step.ApproveRewrap? { ApprovalIsForSomebodyBehind(s, step); }
  }

  lemma ApprovalIsForSomebodyBehind(s: Group, step: Step)
    requires Chained(s) && s.meta.Some? && Commits(s, step) && Honest(s, step) && IsRotating(s) && step.ApproveRewrap?
    ensures var u := step.member.user;
            u in s.members && s.members[u].generation < Cur(s) && Live(s, u)
  {
    assert s.members[step.approver].generation == step.generation;
  }

  lemma StepIsStill(s: Group, step: Step, u: UserId, generation: nat)
    requires Chained(s) && Honest(s, step) && KeepsMode(s, Next(s, step)) && Sheltered(s, generation) && !Over(s, generation)
    requires u in Next(s, step).members && Next(s, step).members[u].generation < generation
    requires Next(s, step).members[u].joinedAs < |s.joined|
    ensures Still(s, Next(s, step), u)
  {
    if Settled(s, generation) {
      SettledStep(s, step, u, generation);
    } else if MarkerAt(s, generation) {
      StepLeavesBehind(s, step, u, generation);
    } else {
      BeforeTheStart(s, step, u);
    }
  }

  lemma MetaBefore(s: Group, steps: seq<Step>)
    requires Chained(s) && steps != [] && KeepsMode(s, Run(s, steps))
    ensures KeepsMode(s, Next(s, steps[0])) && KeepsMode(Next(s, steps[0]), Run(Next(s, steps[0]), steps[1..]))
  {
    StepKeepsChained(s, steps[0]);
    RunKeepsChained(Next(s, steps[0]), steps[1..]);
  }

  /** From a sheltered state to one where the completion commits, who stays behind keeps their WrapEpoch. */
  lemma {:induction false} BehindIsStill(s: Group, steps: seq<Step>, u: UserId, generation: nat)
    requires Chained(s) && HonestRun(s, steps) && !ReopensIn(s, steps, generation) && KeepsMode(s, Run(s, steps))
    requires Sheltered(s, generation) && MarkerAt(Run(s, steps), generation)
    requires u in Run(s, steps).members && Run(s, steps).members[u].generation < generation
    requires Run(s, steps).members[u].joinedAs < |s.joined|
    ensures Still(s, Run(s, steps), u)
    decreases |steps|
  {
    if steps != [] {
      var step, rest, v := steps[0], steps[1..], Next(s, steps[0]);
      MetaBefore(s, steps);
      StepKeepsChained(s, step);
      if Over(s, generation) { MarkerNeverReturns(s, steps, generation); }
      ShelterStays(s, step, generation);
      JoinedGrows(s, step);
      BehindIsStill(v, rest, u, generation);
      StepIsStill(s, step, u, generation);
    }
  }

  lemma {:induction false} ShelterStaysOverRuns(s: Group, steps: seq<Step>, generation: nat)
    requires Chained(s) && !ReopensIn(s, steps, generation) && KeepsMode(s, Run(s, steps)) && Sheltered(s, generation)
    ensures Sheltered(Run(s, steps), generation)
    decreases |steps|
  {
    if steps != [] {
      MetaBefore(s, steps);
      StepKeepsChained(s, steps[0]);
      ShelterStays(s, steps[0], generation);
      ShelterStaysOverRuns(Next(s, steps[0]), steps[1..], generation);
    }
  }

  lemma ModeBetween(s: Group, steps: seq<Step>, i: nat)
    requires Chained(s) && i <= |steps| && KeepsMode(s, Run(s, steps))
    ensures Chained(Run(s, steps[..i]))
    ensures KeepsMode(s, Run(s, steps[..i])) && KeepsMode(Run(s, steps[..i]), Run(s, steps))
  {
    RunSplits(s, steps, i);
    RunKeepsChained(s, steps[..i]);
    RunKeepsChained(Run(s, steps[..i]), steps[i..]);
  }

  lemma ReadsStay(s: Group, steps: seq<Step>, i: nat)
    requires Consistent(s) && HonestRun(s, steps) && i <= |steps|
    ensures UsersLater(Run(s, steps[..i]).users, Run(s, steps).users)
  {
    RunSplits(s, steps, i);
    RunKeepsConsistent(s, steps[..i]);
    RunKeepsConsistent(Run(s, steps[..i]), steps[i..]);
  }

  /** Who passed and kept their WrapEpoch since their page was read is excused. */
  lemma StillIsExcused(s: Group, steps: seq<Step>, generation: nat, u: UserId, pageAt: nat, profileAt: nat)
    requires Consistent(s) && HonestRun(s, steps) && PassedAt(s, steps, generation, u, pageAt, profileAt)
    requires u in Run(s, steps).members && Run(s, steps).members[u].generation < generation
    requires Run(s, steps).members[u].joinedAs < |Run(s, steps[..pageAt]).joined| ==> Still(Run(s, steps[..pageAt]), Run(s, steps), u)
    ensures Excused(Run(s, steps[..pageAt]), Run(s, steps), u)
  {
    ReadsStay(s, steps, profileAt);
  }

  lemma ShelteredIsExcused(s: Group, steps: seq<Step>, generation: nat, u: UserId, pageAt: nat, profileAt: nat)
    requires Consistent(s) && Sheltered(s, generation) && HonestRun(s, steps) && !ReopensIn(s, steps, generation)
    requires KeepsMode(s, Run(s, steps)) && MarkerAt(Run(s, steps), generation)
    requires PassedAt(s, steps, generation, u, pageAt, profileAt)
    requires u in Run(s, steps).members && Run(s, steps).members[u].generation < generation
    ensures Excused(Run(s, steps[..pageAt]), Run(s, steps), u)
  {
    var page := Run(s, steps[..pageAt]);
    ModeBetween(s, steps, pageAt);
    RunSplits(s, steps, pageAt);
    ShelterStaysOverRuns(s, steps[..pageAt], generation);
    if Run(s, steps).members[u].joinedAs < |page.joined| { BehindIsStill(page, steps[pageAt..], u, generation); }
    StillIsExcused(s, steps, generation, u, pageAt, profileAt);
  }

  lemma SettledIsExcused(s: Group, steps: seq<Step>, generation: nat, u: UserId, pageAt: nat, profileAt: nat)
    requires Consistent(s) && Settled(s, generation) && HonestRun(s, steps)
    requires PassedAt(s, steps, generation, u, pageAt, profileAt)
    requires u in Run(s, steps).members && Run(s, steps).members[u].generation < generation
    ensures Excused(Run(s, steps[..pageAt]), Run(s, steps), u)
  {
    RunSplits(s, steps, pageAt);
    SettledStaysOverRuns(s, steps[..pageAt], generation);
    SettledIsStill(Run(s, steps[..pageAt]), steps[pageAt..], u, generation);
    StillIsExcused(s, steps, generation, u, pageAt, profileAt);
  }

  /** While nobody converts the group: any scan begun in a sheltered state, in any interleaving, leaves only the excused behind. */
  lemma UnconvertedScanIsSound(s: Group, generation: nat)
    requires Consistent(s) && Sheltered(s, generation)
    ensures EveryUnconvertedScanIsSound(s, generation)
  {
    forall steps, caller, pageAt: UserId -> nat, profileAt: UserId -> nat
      | ScanCommits(s, steps, caller, generation, pageAt, profileAt) && !ReopensIn(s, steps, generation)
        && KeepsMode(s, Run(s, steps))
      ensures AllExcused(s, steps, generation, pageAt)
    {
      var t := Run(s, steps);
      forall u | u in t.members && t.members[u].generation < generation
        ensures pageAt(u) <= |steps| && Excused(Run(s, steps[..pageAt(u)]), t, u)
      {
        assert PassedAt(s, steps, generation, u, pageAt(u), profileAt(u));
        ShelteredIsExcused(s, steps, generation, u, pageAt(u), profileAt(u));
      }
    }
  }

  /** With the marker up in a Rotating group at the first read, no conversion has to be ruled out. */
  lemma {:induction false} MarkerKeepsMode(s: Group, steps: seq<Step>, generation: nat)
    requires Chained(s) && !ReopensIn(s, steps, generation) && Run(s, steps).meta.Some?
    requires IsRotating(s) && MarkerAt(s, generation) && MarkerAt(Run(s, steps), generation)
    ensures KeepsMode(s, Run(s, steps))
    decreases |steps|
  {
    if steps != [] {
      assert steps == [steps[0]] + steps[1..];
      MarkerStoodBetween(s, steps[0], steps[1..], generation);
      StaysRotating(s, steps[0]);
      MarkerKeepsMode(Next(s, steps[0]), steps[1..], generation);
    }
  }

  /** Whoever is behind is gone, or the generation is over, or its marker is up in a Rotating group. */
  predicate Secure(s: Group, generation: nat) {
    Settled(s, generation) || Over(s, generation) || (IsRotating(s) && MarkerAt(s, generation))
  }

  lemma SecureIsExcused(s: Group, steps: seq<Step>, generation: nat, u: UserId, pageAt: nat, profileAt: nat)
    requires Consistent(s) && Secure(s, generation) && HonestRun(s, steps) && !ReopensIn(s, steps, generation)
    requires Run(s, steps).meta.Some? && MarkerAt(Run(s, steps), generation)
    requires PassedAt(s, steps, generation, u, pageAt, profileAt)
    requires u in Run(s, steps).members && Run(s, steps).members[u].generation < generation
    ensures Excused(Run(s, steps[..pageAt]), Run(s, steps), u)
  {
    if Settled(s, generation) {
      SettledIsExcused(s, steps, generation, u, pageAt, profileAt);
    } else {
      RunKeepsChained(s, steps);
      if Over(s, generation) {
        MarkerNeverReturns(s, steps, generation);
      } else {
        MarkerKeepsMode(s, steps, generation);
        ShelteredIsExcused(s, steps, generation, u, pageAt, profileAt);
      }
    }
  }

  /** With only the gone behind at the first read: no scan misses anybody, whatever commits. */
  lemma SettledScanIsSound(s: Group, generation: nat)
    requires Consistent(s) && Settled(s, generation)
    ensures EveryScanIsSound(s, generation)
  {
    forall steps, caller, pageAt: UserId -> nat, profileAt: UserId -> nat
      | ScanCommits(s, steps, caller, generation, pageAt, profileAt)
      ensures AllExcused(s, steps, generation, pageAt)
    {
      var t := Run(s, steps);
      forall u | u in t.members && t.members[u].generation < generation
        ensures pageAt(u) <= |steps| && Excused(Run(s, steps[..pageAt(u)]), t, u)
      {
        assert PassedAt(s, steps, generation, u, pageAt(u), profileAt(u));
        SettledIsExcused(s, steps, generation, u, pageAt(u), profileAt(u));
      }
    }
  }

  /** Any scan begun in a secure state, in any interleaving, conversions included: when it completes, whoever is behind is excused. */
  lemma CompletionIsSound(s: Group, generation: nat)
    requires Consistent(s) && Secure(s, generation)
    ensures EveryUnreopenedScanIsSound(s, generation)
  {
    forall steps, caller, pageAt: UserId -> nat, profileAt: UserId -> nat
      | ScanCommits(s, steps, caller, generation, pageAt, profileAt) && !ReopensIn(s, steps, generation)
      ensures AllExcused(s, steps, generation, pageAt)
    {
      var t := Run(s, steps);
      forall u | u in t.members && t.members[u].generation < generation
        ensures pageAt(u) <= |steps| && Excused(Run(s, steps[..pageAt(u)]), t, u)
      {
        assert PassedAt(s, steps, generation, u, pageAt(u), profileAt(u));
        SecureIsExcused(s, steps, generation, u, pageAt(u), profileAt(u));
      }
    }
  }
}
