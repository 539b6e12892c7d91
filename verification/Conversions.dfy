/**
 * What ConvertGroupToOpen's scan is worth: no marker stands to hold approvals
 * at older generations back while it reads.
 */
module Conversions {
  import opened Groups
  import opened GroupEffects
  import opened GroupInvariants
  import opened MarkerLife
  import opened Completion
  import opened Histories
  import opened MissedMembers

  /** A conversion of a scan begun at s, as ScanCommits is for completions. */
  ghost predicate ConversionCommits(s: Group, steps: seq<Step>, admin: UserId, generation: nat,
                                    pageAt: UserId -> nat, profileAt: UserId -> nat) {
    && HonestRun(s, steps) && Commits(Run(s, steps), Step.ConvertToOpen(admin, generation))
    && forall u: UserId :: PassedAt(s, steps, generation, u, pageAt(u), profileAt(u))
  }

  ghost predicate EveryConversionIsSound(s: Group, generation: nat) {
    forall steps, admin, pageAt: UserId -> nat, profileAt: UserId -> nat ::
      ConversionCommits(s, steps, admin, generation, pageAt, profileAt) ==> AllExcused(s, steps, generation, pageAt)
  }

  /** Whoever is behind the generation, plain members with deleted accounts apart, is equally far behind. */
  ghost predicate OneLevel(s: Group, generation: nat) {
    forall u, v :: InFlux(s, u, generation) && InFlux(s, v, generation) ==> s.members[u].generation == s.members[v].generation
  }

  predicate InFlux(s: Group, u: UserId, generation: nat) {
    u in s.members && s.members[u].generation < generation && !Gone(s, u)
  }

  // ----- all at one level: nobody is approved short of the generation -----

  /** An approval needs somebody who wraps above somebody who is wrapped for. */
  lemma ApprovalSpansLevels(s: Group, step: Step, generation: nat)
    requires Commits(s, step) && step.ApproveRewrap? && !step.open && step.generation < generation
    ensures !OneLevel(s, generation)
  {
    assert InFlux(s, step.approver, generation) && InFlux(s, step.member.user, generation);
  }

  /** Below the current generation of a Rotating group, wraps come from approvals, batches and invites only. */
  lemma WrappedBelow(s: Group, step: Step, u: UserId, generation: nat)
    requires Chained(s) && s.meta.Some? && Commits(s, step) && Honest(s, step) && IsRotating(s) && generation <= Cur(s)
    requires u in Effect(s, step).members && Effect(s, step).members[u].generation < generation
    requires Wrapped(s, Effect(s, step), step, u)
    ensures step.RewrapMembers? || step.CompleteInvite? || (step.ApproveRewrap? && !step.open)
    ensures Effect(s, step).members[u].generation == WrapGeneration(step)
  {
    if StartOf(step).Some? { StartsAreAbove(s, step); }
  }

  lemma StartsAreAbove(s: Group, step: Step)
    requires Chained(s) && s.meta.Some? && Commits(s, step) && StartOf(step).Some?
    ensures WrapGeneration(step) > Cur(s)
  {
    LinksAfterStart(s, step);
    assert s.members[StartOf(step).value.starter.user].generation == StartOf(step).value.current;
  }

  /** A batch's caller and whom it wraps for are both in flux. */
  lemma BatchIsLevel(s: Group, step: Step, u: UserId, generation: nat)
    requires Commits(s, step) && step.RewrapMembers? && step.generation < generation && u in step.batch && OneLevel(s, generation)
    ensures Effect(s, step).members[u] == s.members[u].(wrappedTo := Effect(s, step).members[u].wrappedTo)
  {
    assert InFlux(s, step.caller, generation) && InFlux(s, u, generation);
  }

  /** What is behind after a step was there before, at its level and WrapEpoch, or was invited by somebody there. */
  lemma StepKeepsLevels(s: Group, step: Step, u: UserId, generation: nat)
    requires Chained(s) && Honest(s, step) && IsRotating(s) && Next(s, step).meta.Some?
    requires generation <= Cur(s) && OneLevel(s, generation) && InFlux(Next(s, step), u, generation)
    ensures if step.CompleteInvite? && Commits(s, step) && u == step.invitee.user then
              InFlux(s, step.inviter, generation) && Next(s, step).members[u].generation == s.members[step.inviter].generation
            else
              InFlux(s, u, generation) && Next(s, step).members[u].generation == s.members[u].generation
  {
    if Commits(s, step) {
      var t := Effect(s, step);
      StepMovesEntries(s, step);
      if Kept(s, t, u) {
        if Gone(s, u) { GoneStays(s, step, u); }
      } else {
        WrappedBelow(s, step, u, generation);
        if step.ApproveRewrap? { ApprovalSpansLevels(s, step, generation); }
        if step.RewrapMembers? { BatchIsLevel(s, step, u, generation); }
      }
    }
  }

  lemma LevelStays(s: Group, step: Step, generation: nat)
    requires Chained(s) && Honest(s, step) && IsRotating(s) && Next(s, step).meta.Some?
    requires generation <= Cur(s) && OneLevel(s, generation)
    ensures OneLevel(Next(s, step), generation)
  {
    var t := Next(s, step);
    forall u, v | InFlux(t, u, generation) && InFlux(t, v, generation)
      ensures t.members[u].generation == t.members[v].generation
    {
      StepKeepsLevels(s, step, u, generation);
      StepKeepsLevels(s, step, v, generation);
    }
  }

  lemma LevelIsStill(s: Group, step: Step, u: UserId, generation: nat)
    requires Chained(s) && Honest(s, step) && IsRotating(s) && Next(s, step).meta.Some?
    requires generation <= Cur(s) && OneLevel(s, generation)
    requires u in Next(s, step).members && Next(s, step).members[u].generation < generation
    requires Next(s, step).members[u].joinedAs < |s.joined|
    ensures Still(s, Next(s, step), u)
  {
    if Commits(s, step) {
      var t := Effect(s, step);
      StepMovesEntries(s, step);
      if !Kept(s, t, u) {
        WrappedBelow(s, step, u, generation);
        if step.ApproveRewrap? { ApprovalSpansLevels(s, step, generation); }
        BatchKeepsEpoch(s, step, u);
      }
    }
  }

  lemma {:induction false} BehindIsStillWithoutAMarker(s: Group, steps: seq<Step>, u: UserId, generation: nat)
    requires Chained(s) && HonestRun(s, steps) && IsRotating(Run(s, steps)) && generation <= Cur(s) && OneLevel(s, generation)
    requires u in Run(s, steps).members && Run(s, steps).members[u].generation < generation
    requires Run(s, steps).members[u].joinedAs < |s.joined|
    ensures Still(s, Run(s, steps), u)
    decreases |steps|
  {
    if steps != [] {
      var v := Next(s, steps[0]);
      RotatingBefore(s, steps);
      StepKeepsChained(s, steps[0]);
      RotatingBefore(v, steps[1..]);
      LevelStays(s, steps[0], generation);
      JoinedGrows(s, steps[0]);
      BehindIsStillWithoutAMarker(v, steps[1..], u, generation);
      LevelIsStill(s, steps[0], u, generation);
    }
  }

  lemma {:induction false} LevelStaysOverRuns(s: Group, steps: seq<Step>, generation: nat)
    requires Chained(s) && HonestRun(s, steps) && IsRotating(Run(s, steps)) && generation <= Cur(s) && OneLevel(s, generation)
    ensures Chained(Run(s, steps)) && generation <= Cur(Run(s, steps)) && OneLevel(Run(s, steps), generation)
    decreases |steps|
  {
    if steps != [] {
      RotatingBefore(s, steps);
      StepKeepsChained(s, steps[0]);
      RotatingBefore(Next(s, steps[0]), steps[1..]);
      LevelStays(s, steps[0], generation);
      LevelStaysOverRuns(Next(s, steps[0]), steps[1..], generation);
    }
  }

  lemma ConvertedIsExcused(s: Group, steps: seq<Step>, generation: nat, u: UserId, pageAt: nat, profileAt: nat)
    requires Consistent(s) && HonestRun(s, steps) && IsRotating(Run(s, steps)) && generation <= Cur(s) && OneLevel(s, generation)
    requires PassedAt(s, steps, generation, u, pageAt, profileAt)
    requires u in Run(s, steps).members && Run(s, steps).members[u].generation < generation
    ensures Excused(Run(s, steps[..pageAt]), Run(s, steps), u)
  {
    var page, t := Run(s, steps[..pageAt]), Run(s, steps);
    ReadsStay(s, steps, profileAt);
    RotatingBefore(s, steps);
    ModeBetween(s, steps, pageAt);
    RunSplits(s, steps, pageAt);
    RotatingBefore(page, steps[pageAt..]);
    LevelStaysOverRuns(s, steps[..pageAt], generation);
    if t.members[u].joinedAs < |page.joined| {
      BehindIsStillWithoutAMarker(page, steps[pageAt..], u, generation);
    }
  }

  lemma ConversionIsSound(s: Group, generation: nat)
    requires Consistent(s) && generation <= Cur(s) && OneLevel(s, generation)
    ensures EveryConversionIsSound(s, generation)
  {
    forall steps, admin, pageAt: UserId -> nat, profileAt: UserId -> nat
      | ConversionCommits(s, steps, admin, generation, pageAt, profileAt)
      ensures AllExcused(s, steps, generation, pageAt)
    {
      var t := Run(s, steps);
      forall u | u in t.members && t.members[u].generation < generation
        ensures pageAt(u) <= |steps| && Excused(Run(s, steps[..pageAt(u)]), t, u)
      {
        assert PassedAt(s, steps, generation, u, pageAt(u), profileAt(u));
        ConvertedIsExcused(s, steps, generation, u, pageAt(u), profileAt(u));
      }
    }
  }

  // ----- two levels: somebody can be approved from the lower to the higher -----

  /** What the run needs to hold: a converts, v, above u, approves. */
  predicate Poised(s: Group, a: UserId, u: UserId, v: UserId, generation: nat) {
    && IsRotating(s) && s.marker.None? && NobodyStuck(s) && Holds(s, a, Admin, generation)
    && u in s.members && v in s.members && s.members[u].generation < s.members[v].generation < generation
    && Live(s, u)
  }

  /** Everyone's keys are rotated, so the scan passes; v approves u; the scan read u dormant. */
  ghost predicate Approved(page: Group, t: Group, a: UserId, u: UserId, generation: nat) {
    && IsRotating(t) && t.marker.None? && Holds(t, a, Admin, generation) && AllDormant(page)
    && u in t.members && t.members[u].generation < generation && !Dormant(t, u) && t.members[u].joinedAs < |page.joined|
  }

  lemma ApprovedAfterTheScan(s: Group, a: UserId, u: UserId, v: UserId, generation: nat)
      returns (first: seq<Step>, page: Group, rest: seq<Step>, t: Group)
    requires Consistent(s) && Poised(s, a, u, v, generation) && s.members[v].role != Member
    ensures Leads(s, first, page) && Leads(page, rest, t) && Approved(page, t, a, u, generation)
  {
    first, page := RenewEveryone(s);
    MemberIsThere(s, u);
    CurrentRecipientIsObserved(page, u);
    rest, t := ApproveAsleep(s, page, a, u, v, generation);
  }

  lemma ApproveAsleep(s: Group, page: Group, a: UserId, u: UserId, v: UserId, generation: nat) returns (rest: seq<Step>, t: Group)
    requires Poised(s, a, u, v, generation) && s.members[v].role != Member && s.members[u].joinedAs < |s.joined|
    requires page == s.(users := page.users) && AllDormant(page) && Live(page, u) && Observed(page, CurrentRecipient(page, u))
    ensures Leads(page, rest, t) && Approved(page, t, a, u, generation)
  {
    rest, t := ApproveFrom(page, v, u);
  }

  lemma RenewEveryone(s: Group) returns (steps: seq<Step>, t: Group)
    requires Consistent(s) && NobodyStuck(s)
    ensures Leads(s, steps, t) && t == s.(users := t.users) && AccountsOk(t.users) && AllDormant(t)
    ensures forall w :: w in s.members && Live(s, w) ==> Live(t, w)
  {
    forall w | w in s.members ensures w in s.users && s.members[w].wrapEpoch <= s.users[w].profile.keyEpoch {
      assert EntryOk(s, w);
    }
    steps := RenewAll(s, s.members.Keys);
    t := s.(users := Renewals(s.users, s.members.Keys));
    RunKeepsConsistent(s, steps);
    AllRenewedAreDormant(s, t);
  }

  lemma AllRenewedAreDormant(s: Group, page: Group)
    requires AccountsOk(s.users) && NobodyStuck(s) && page == s.(users := Renewals(s.users, s.members.Keys))
    requires forall w :: w in s.members ==> w in s.users && s.members[w].wrapEpoch <= s.users[w].profile.keyEpoch
    ensures AllDormant(page) && forall w :: w in s.members && Live(s, w) ==> Live(page, w)
  {
    forall w | w in s.members ensures Dormant(page, w) && (Live(page, w) <==> Live(s, w)) {
      RenewedIsAsleep(s, s, page, w);
    }
  }

  lemma ApproveFrom(page: Group, v: UserId, u: UserId) returns (rest: seq<Step>, t: Group)
    requires page.marker.None? && u in page.members && v in page.members && page.members[v].role != Member
    requires page.members[u].generation < page.members[v].generation && Live(page, u) && Dormant(page, u)
    requires Observed(page, CurrentRecipient(page, u))
    ensures Leads(page, rest, t) && t == Rewrapped(page, CurrentRecipient(page, u), page.members[v].generation)
  {
    var approval := ApproveRewrap(v, CurrentRecipient(page, u), page.members[v].generation, false, false);
    LeadsByOne(page, approval);
    rest, t := [approval], Next(page, approval);
  }

  lemma ApprovedConverts(s: Group, first: seq<Step>, page: Group, rest: seq<Step>, t: Group, a: UserId, u: UserId, generation: nat)
    requires Leads(s, first, page) && Leads(page, rest, t) && Approved(page, t, a, u, generation)
    ensures !EveryConversionIsSound(s, generation)
  {
    RunAppend(s, first, rest);
    EverybodyPasses(s, first, rest, generation);
    SomebodyIsNotExcused(s, first, rest, generation, u);
    assert ConversionCommits(s, first + rest, a, generation, At(|first|), At(|first|));
  }

  /** u live: if need be, an admin or ambassador with a deleted account invites somebody in their place. */
  lemma LiveBelow(s: Group, a: UserId, u: UserId, v: UserId, x: UserId, generation: nat) returns (steps: seq<Step>, t: Group, w: UserId)
    requires IsRotating(s) && s.marker.None? && NobodyStuck(s) && Holds(s, a, Admin, generation)
    requires InFlux(s, u, generation) && InFlux(s, v, generation) && s.members[u].generation < s.members[v].generation
    requires u in s.users && x !in s.users && x !in s.members
    ensures Leads(s, steps, t) && Poised(t, a, w, v, generation) && !Gone(t, v)
  {
    if Live(s, u) {
      steps, t, w := [], s, u;
      LeadsNowhere(s);
    } else {
      w := x;
      steps := InviteAs(s, u, w, s.members[u].generation);
      t := Invited(s, w, s.members[u].generation);
      InviteKeepsNobodyStuck(s, w, s.members[u].generation);
    }
  }

  /** v able to wrap: if they are a plain member, the admin makes them an ambassador. */
  lemma WrapperAbove(s: Group, a: UserId, u: UserId, v: UserId, generation: nat) returns (steps: seq<Step>, t: Group)
    requires Poised(s, a, u, v, generation) && !Gone(s, v) && v in s.users
    ensures Leads(s, steps, t) && Poised(t, a, u, v, generation) && t.members[v].role != Member
  {
    if s.members[v].role != Member {
      steps, t := [], s;
      LeadsNowhere(s);
    } else {
      steps, t := Promote(s, a, v, Ambassador);
      forall w | w in t.members && !Live(t, w) ensures Dormant(t, w) {
        assert w in s.members && !Live(s, w);
      }
    }
  }

  lemma TwoLevelsAreMissed(s: Group, a: UserId, u: UserId, v: UserId, generation: nat)
    requires Consistent(s) && IsRotating(s) && s.marker.None? && NobodyStuck(s) && Holds(s, a, Admin, generation)
    requires InFlux(s, u, generation) && InFlux(s, v, generation) && s.members[u].generation < s.members[v].generation
    ensures !EveryConversionIsSound(s, generation)
  {
    var before, p, w := Arrange(s, a, u, v, generation);
    var first, page, rest, t := ApprovedAfterTheScan(p, a, w, v, generation);
    LeadsOn(s, before, p, first, page);
    ApprovedConverts(s, before + first, page, rest, t, a, w, generation);
  }

  lemma Arrange(s: Group, a: UserId, u: UserId, v: UserId, generation: nat) returns (steps: seq<Step>, t: Group, w: UserId)
    requires Consistent(s) && IsRotating(s) && s.marker.None? && NobodyStuck(s) && Holds(s, a, Admin, generation)
    requires InFlux(s, u, generation) && InFlux(s, v, generation) && s.members[u].generation < s.members[v].generation
    ensures Leads(s, steps, t) && Consistent(t) && Poised(t, a, w, v, generation) && t.members[v].role != Member
  {
    MemberIsThere(s, u);
    var x := Newcomer(s);
    var first, p, below := LiveBelow(s, a, u, v, x, generation);
    w := below;
    RunKeepsConsistent(s, first);
    MemberIsThere(p, v);
    var second, last := WrapperAbove(p, a, w, v, generation);
    t := last;
    RunKeepsConsistent(p, second);
    LeadsOn(s, first, p, second, t);
    steps := first + second;
  }

  /**
   * In a Rotating group with no marker, an admin at the generation and nobody
   * stuck: every conversion scan at that generation is sound exactly if whoever
   * is behind it, deleted plain members apart, is equally far behind.
   */
  lemma ConversionsAreSoundExactly(s: Group, a: UserId, generation: nat)
    requires Consistent(s) && IsRotating(s) && s.marker.None? && NobodyStuck(s) && Holds(s, a, Admin, generation)
    ensures EveryConversionIsSound(s, generation) <==> OneLevel(s, generation)
  {
    if OneLevel(s, generation) {
      assert generation <= Cur(s);
      ConversionIsSound(s, generation);
    } else {
      var u, v :| InFlux(s, u, generation) && InFlux(s, v, generation) && s.members[u].generation != s.members[v].generation;
      if s.members[u].generation < s.members[v].generation {
        TwoLevelsAreMissed(s, a, u, v, generation);
      } else {
        TwoLevelsAreMissed(s, a, v, u, generation);
      }
    }
  }
}
