/**
 * Whoever goes stops reading: a removed member at once, a leaver when an admin
 * takes their marker over, and never if the leaver was behind.
 */
module Cutoff {
  import opened Wrappers
  import opened Groups
  import opened GroupEffects
  import opened GroupInvariants
  import opened GenerationKeys

  predicate NotRejoined(s: Group, t: Group, u: UserId) {
    forall i :: |s.joined| <= i < |t.joined| ==> t.joined[i] != u
  }

  lemma OutsiderStaysOut(s: Group, t: Group, step: Step, u: UserId)
    requires EntriesMove(s, t, step) && WrapsMove(s, t, step)
    requires u !in s.members && NotRejoined(s, t, u)
    ensures u !in t.members && forall w :: w in t.wraps && w.user == u ==> w in s.wraps
  {
    if step.CompleteInvite? { assert t.joined[|s.joined|] == step.invitee.user; }
    assert u in t.members ==> Kept(s, t, u) || Wrapped(s, t, step, u);
  }

  lemma {:induction false} JoinedGrowsOverRuns(s: Group, steps: seq<Step>)
    ensures s.joined <= Run(s, steps).joined
    decreases |steps|
  {
    if steps != [] {
      JoinedGrows(s, steps[0]);
      JoinedGrowsOverRuns(Next(s, steps[0]), steps[1..]);
    }
  }

  /** Nothing is ever wrapped to somebody outside the group, whatever requests are sent. */
  lemma {:induction false} OutsiderGetsNoWrap(s: Group, steps: seq<Step>, u: UserId)
    requires u !in s.members && NotRejoined(s, Run(s, steps), u)
    ensures u !in Run(s, steps).members && forall w :: w in Run(s, steps).wraps && w.user == u ==> w in s.wraps
    decreases |steps|
  {
    if steps != [] {
      var v := Next(s, steps[0]);
      JoinedGrows(s, steps[0]);
      JoinedGrowsOverRuns(v, steps[1..]);
      assert NotRejoined(s, v, u) by {
        forall i | |s.joined| <= i < |v.joined| ensures v.joined[i] != u {
          assert v.joined[i] == Run(s, steps).joined[i];
        }
      }
      if Commits(s, steps[0]) {
        StepMovesEntries(s, steps[0]);
        StepMovesWraps(s, steps[0]);
        OutsiderStaysOut(s, v, steps[0], u);
      }
      OutsiderGetsNoWrap(v, steps[1..], u);
    }
  }

  /** A deleted account in no group never joins one, and nothing is wrapped to it any more. */
  lemma {:induction false} ATombstoneNeverJoins(s: Group, steps: seq<Step>, u: UserId)
    requires u in s.users && s.users[u].profile.deleted && u !in s.members
    ensures u !in Run(s, steps).members && forall w :: w in Run(s, steps).wraps && w.user == u ==> w in s.wraps
    decreases |steps|
  {
    if steps != [] {
      var v := Next(s, steps[0]);
      if Commits(s, steps[0]) {
        AccountsAfter(s, steps[0]);
        TombstoneStaysOut(s, steps[0], u);
      }
      ATombstoneNeverJoins(v, steps[1..], u);
    }
  }

  lemma TombstoneStaysOut(s: Group, step: Step, u: UserId)
    requires Commits(s, step) && u in s.users && s.users[u].profile.deleted && u !in s.members
    ensures u !in Effect(s, step).members && forall w :: w in Effect(s, step).wraps && w.user == u ==> w in s.wraps
  {
    StepMovesEntries(s, step);
    StepMovesWraps(s, step);
  }

  /** From a removal that mints generation c + 1 on, until they join anew, the removed member derives nothing past c. */
  lemma RemovalCutsOff(s: Group, step: Step, steps: seq<Step>)
    requires Chained(s) && s.meta.Some?
    requires step.RemoveMember? && step.start.Some? && Commits(s, step)
    requires NotRejoined(Effect(s, step), Run(Effect(s, step), steps), step.subject)
    ensures Cur(Effect(s, step)) == step.current + 1
    ensures forall generation: nat :: CanDerive(Run(Effect(s, step), steps), step.subject, generation) ==> generation <= step.current
  {
    var v, t := Effect(s, step), Run(Effect(s, step), steps);
    StepMovesEntries(s, step);
    StepMovesChain(s, step);
    StepMovesWraps(s, step);
    StartKeepsChain(s, v, step);
    RemovedIsOut(s, step);
    StepKeepsChained(s, step);
    RunKeepsChained(v, steps);
    OutsiderGetsNoWrap(v, steps, step.subject);
    NothingAboveTheWraps(t, step.subject, step.current);
  }

  lemma RemovedIsOut(s: Group, step: Step)
    requires step.RemoveMember? && Commits(s, step)
    ensures step.subject !in Effect(s, step).members && Effect(s, step).meta == s.meta
    ensures forall w :: w in Effect(s, step).wraps && w.user == step.subject ==> w in s.wraps
  {
  }

  predicate Goes(step: Step, u: UserId) {
    (step.RemoveMember? && step.subject == u) || (step.LeaveGroup? && step.leaver == u)
  }

  lemma WhoGoesIsOut(s: Group, step: Step, u: UserId)
    requires Goes(step, u) && Commits(s, step)
    ensures u !in Effect(s, step).members && forall w :: w in Effect(s, step).wraps && w.user == u ==> w in s.wraps
  {
  }

  /**
   * However somebody goes, with a rotation or without, at the current
   * generation or behind it: until they join anew they derive nothing newer
   * than the wraps made for them by then.
   */
  lemma WhoGoesStopsThere(s: Group, step: Step, steps: seq<Step>, u: UserId, newest: nat)
    requires Chained(s) && Goes(step, u) && Commits(s, step)
    requires forall w :: w in s.wraps && w.user == u ==> w.generation <= newest
    requires NotRejoined(Effect(s, step), Run(Effect(s, step), steps), u)
    ensures forall generation: nat :: CanDerive(Run(Effect(s, step), steps), u, generation) ==> generation <= newest
  {
    var v, t := Effect(s, step), Run(Effect(s, step), steps);
    WhoGoesIsOut(s, step, u);
    StepKeepsChained(s, step);
    RunKeepsChained(v, steps);
    OutsiderGetsNoWrap(v, steps, u);
    NothingAboveTheWraps(t, u, newest);
  }

  // ----- leavers -----

  /** The leaver's marker still waits, or generation c + 1 was minted naming them. */
  predicate Handled(s: Group, leaver: UserId, c: nat) {
    || (s.marker == Some(LeaveMarker(leaver, c)) && Cur(s) == c)
    || (c in s.links && s.links[c].removed == Some(leaver))
  }

  lemma MarkerWaits(s: Group, t: Group, step: Step, leaver: UserId, c: nat)
    requires ChainOk(s) && ChainMoves(s, t, step) && s.meta.Some? && Handled(s, leaver, c)
    ensures Handled(t, leaver, c)
  {
    if StartOf(step).Some? {
      var start := StartOf(step).value;
      assert s.members[start.starter.user].generation == start.current;
    } else if step.CompleteRotation? {
      assert s.members[step.caller].generation == step.generation;
    }
  }

  lemma {:induction false} MarkerWaitsForTakeover(s: Group, steps: seq<Step>, leaver: UserId, c: nat)
    requires Chained(s) && s.meta.Some? && Handled(s, leaver, c) && Run(s, steps).meta.Some?
    ensures Handled(Run(s, steps), leaver, c)
    decreases |steps|
  {
    if steps != [] {
      StepKeepsChained(s, steps[0]);
      RunKeepsChained(Next(s, steps[0]), steps[1..]);
      if Commits(s, steps[0]) {
        StepMovesChain(s, steps[0]);
        MarkerWaits(s, Next(s, steps[0]), steps[0], leaver, c);
      }
      MarkerWaitsForTakeover(Next(s, steps[0]), steps[1..], leaver, c);
    }
  }

  /**
   * A leaver at the current generation c: their marker stands until somebody
   * mints c + 1 naming them, and until they join anew they derive nothing past c.
   */
  lemma LeavingCutsOff(s: Group, step: Step, steps: seq<Step>)
    requires Chained(s) && s.meta.Some?
    requires step.LeaveGroup? && step.from == Some(Cur(s)) && Commits(s, step)
    ensures Run(Effect(s, step), steps).meta.Some? ==> Handled(Run(Effect(s, step), steps), step.leaver, Cur(s))
    ensures NotRejoined(Effect(s, step), Run(Effect(s, step), steps), step.leaver) ==>
              forall generation: nat :: CanDerive(Run(Effect(s, step), steps), step.leaver, generation) ==> generation <= Cur(s)
  {
    var v, t := Effect(s, step), Run(Effect(s, step), steps);
    LeaverIsOut(s, step);
    StepMovesChain(s, step);
    StepKeepsChained(s, step);
    RunKeepsChained(v, steps);
    if t.meta.Some? { MarkerWaitsForTakeover(v, steps, step.leaver, Cur(s)); }
    if NotRejoined(v, t, step.leaver) {
      OutsiderGetsNoWrap(v, steps, step.leaver);
      NothingAboveTheWraps(t, step.leaver, Cur(s));
    }
  }

  lemma LeaverIsOut(s: Group, step: Step)
    requires step.LeaveGroup? && Commits(s, step)
    ensures step.leaver !in Effect(s, step).members && Effect(s, step).meta == s.meta && Effect(s, step).wraps == s.wraps
  {
  }

  // ----- leavers who were behind -----

  /** An admin at the current generation can take a leaver's marker over exactly if the leaver was there too. */
  lemma TakeOverNeedsACurrentLeaver(s: Group, leaver: UserId, from: nat, starter: Recipient, current: nat)
    requires Chained(s) && s.meta.Some? && s.marker == Some(LeaveMarker(leaver, from))
    ensures Commits(s, TakeOver(starter, leaver, current)) <==>
              from == current == Cur(s) && Holds(s, starter.user, Admin, Cur(s)) && EpochCurrent(s, starter)
  {
    if Holds(s, starter.user, Admin, current) { assert s.members[starter.user].generation == current; }
  }

  /** A behind leaver's marker, naming a generation nobody's entry is at. */
  ghost predicate Wedged(s: Group, leaver: UserId, from: nat) {
    && s.marker == Some(LeaveMarker(leaver, from)) && from < Cur(s)
    && forall u :: u in s.members ==> s.members[u].generation != from + 1
  }

  lemma WedgeHolds(s: Group, t: Group, step: Step, leaver: UserId, from: nat)
    requires ChainOk(s) && s.meta.Some? && t.meta.Some? && Wedged(s, leaver, from)
    requires EntriesMove(s, t, step) && ChainMoves(s, t, step)
    ensures Wedged(t, leaver, from)
  {
    assert StartOf(step).None?;
    forall u | u in t.members ensures t.members[u].generation != from + 1 {
      assert Kept(s, t, u) || Wrapped(s, t, step, u);
    }
  }

  /** Such a marker stands as long as the group does, and blocks every rotation start. */
  lemma {:induction false} BehindLeaverWedgesTheGroup(s: Group, steps: seq<Step>, leaver: UserId, from: nat)
    requires Chained(s) && s.meta.Some? && Wedged(s, leaver, from) && Run(s, steps).meta.Some?
    ensures Wedged(Run(s, steps), leaver, from)
    ensures forall step :: StartOf(step).Some? ==> !Commits(Run(s, steps), step)
    decreases |steps|
  {
    if steps == [] {
      forall step | StartOf(step).Some? ensures !Commits(s, step) {
        if Commits(s, step) {
          StepMovesEntries(s, step);
          StepMovesChain(s, step);
          StepKeepsChained(s, step);
          LinksAfterStart(s, step);
          WedgeHolds(s, Effect(s, step), step, leaver, from);
        }
      }
    } else {
      StepKeepsChained(s, steps[0]);
      RunKeepsChained(Next(s, steps[0]), steps[1..]);
      if Commits(s, steps[0]) {
        StepMovesEntries(s, steps[0]);
        StepMovesChain(s, steps[0]);
        WedgeHolds(s, Next(s, steps[0]), steps[0], leaver, from);
      }
      BehindLeaverWedgesTheGroup(Next(s, steps[0]), steps[1..], leaver, from);
    }
  }
}
