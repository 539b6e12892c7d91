/**
 * When a rotation's marker can be got rid of at all, whoever put it up; and
 * how a group gets to where it cannot.
 */
module RotationEnds {
  import opened Wrappers
  import opened Groups
  import opened GroupEffects
  import opened GroupInvariants
  import opened MarkerLife
  import opened Completion
  import opened Resumption
  import opened Cutoff
  import opened Histories

  /** The generation at which somebody has to act: the marker's own once minted, the current one before. */
  function Front(s: Group, generation: nat): nat { if generation <= Cur(s) then generation else Cur(s) }

  /** Everybody there is a plain member with a deleted account. */
  predicate Deserted(s: Group, generation: nat) {
    forall u :: u in s.members && s.members[u].generation == generation ==> Gone(s, u)
  }

  // ----- nobody there: the marker stays -----

  /** Minting under a marker, and completing it, take an admin at the front. */
  lemma ActorIsAtTheFront(s: Group, step: Step, generation: nat)
    requires Chained(s) && s.meta.Some? && MarkerAt(s, generation) && Commits(s, step)
    requires StartOf(step).Some? || (step.CompleteRotation? && step.generation == generation)
    ensures exists v :: v in s.members && s.members[v].generation == Front(s, generation) && !Gone(s, v)
  {
    if StartOf(step).Some? {
      LinksAfterStart(s, step);
      var start := StartOf(step).value;
      assert s.members[start.starter.user].generation == start.current && !Gone(s, start.starter.user);
    } else {
      assert s.members[step.caller].generation == generation && !Gone(s, step.caller);
    }
  }

  lemma NobodyActs(s: Group, step: Step, generation: nat)
    requires Chained(s) && s.meta.Some? && MarkerAt(s, generation) && Deserted(s, Front(s, generation)) && Commits(s, step)
    ensures StartOf(step).None?
    ensures step.CompleteRotation? ==> step.generation != generation
    ensures step.LeaveGroup? ==> step.from.None?
  {
    if StartOf(step).Some? || (step.CompleteRotation? && step.generation == generation) {
      ActorIsAtTheFront(s, step, generation);
    }
  }

  lemma NobodyArrives(s: Group, step: Step, u: UserId, front: nat)
    requires Commits(s, step) && Deserted(s, front) && StartOf(step).None?
    requires u in Effect(s, step).members && Effect(s, step).members[u].generation == front
    ensures Gone(Effect(s, step), u)
  {
    var t := Effect(s, step);
    StepMovesEntries(s, step);
    assert Kept(s, t, u) || Wrapped(s, t, step, u);
    if Kept(s, t, u) {
      GoneStays(s, step, u);
    } else {
      WrapperIsNotGone(s, step, u);
    }
  }

  /** Wraps come from somebody at their generation who is more than a plain member, or from a live account. */
  lemma WrapperIsNotGone(s: Group, step: Step, u: UserId)
    requires Commits(s, step) && StartOf(step).None? && u in Effect(s, step).members && Wrapped(s, Effect(s, step), step, u)
    ensures exists v :: v in s.members && s.members[v].generation == Effect(s, step).members[u].generation && !Gone(s, v)
  {
    match step
    case CompleteInvite(inviter, _, generation, _) =>
      assert s.members[inviter].generation == generation && !Gone(s, inviter);
    case ApproveRewrap(approver, _, generation, _, _) =>
      assert s.members[approver].generation == generation && !Gone(s, approver);
    case SelfWrap(self, generation) =>
      assert s.members[self.user].generation == generation && !Gone(s, self.user);
    case RewrapMembers(caller, generation, _, _) =>
      assert s.members[caller].generation == generation && !Gone(s, caller);
    case _ =>
  }

  lemma DesertedStays(s: Group, step: Step, generation: nat)
    requires Chained(s) && s.meta.Some? && MarkerAt(s, generation) && Deserted(s, Front(s, generation))
    requires Next(s, step).meta.Some?
    ensures MarkerAt(Next(s, step), generation) && Cur(Next(s, step)) == Cur(s)
    ensures Deserted(Next(s, step), Front(s, generation))
  {
    if Commits(s, step) {
      NobodyActs(s, step, generation);
      StepMovesChain(s, step);
      forall u | u in Next(s, step).members && Next(s, step).members[u].generation == Front(s, generation)
        ensures Gone(Next(s, step), u)
      {
        NobodyArrives(s, step, u, Front(s, generation));
      }
    }
  }

  /** Whatever requests are sent. */
  lemma {:induction false} DesertedRotationNeverEnds(s: Group, steps: seq<Step>, generation: nat)
    requires Chained(s) && MarkerAt(s, generation) && Deserted(s, Front(s, generation)) && Run(s, steps).meta.Some?
    ensures MarkerAt(Run(s, steps), generation) && Cur(Run(s, steps)) == Cur(s)
    ensures Deserted(Run(s, steps), Front(s, generation))
    decreases |steps|
  {
    if steps != [] {
      RunKeepsChained(s, steps);
      StepKeepsChained(s, steps[0]);
      RunKeepsChained(Next(s, steps[0]), steps[1..]);
      DesertedStays(s, steps[0], generation);
      DesertedRotationNeverEnds(Next(s, steps[0]), steps[1..], generation);
    }
  }

  /** Nobody mints past a generation that only the gone are at. */
  lemma TopStaysDeserted(s: Group, step: Step)
    requires Chained(s) && s.meta.Some? && Deserted(s, Cur(s)) && Next(s, step).meta.Some?
    ensures Cur(Next(s, step)) == Cur(s) && Deserted(Next(s, step), Cur(s))
  {
    if Commits(s, step) {
      if StartOf(step).Some? { StarterIsAtTheTop(s, step); }
      StepMovesChain(s, step);
      forall u | u in Next(s, step).members && Next(s, step).members[u].generation == Cur(s) ensures Gone(Next(s, step), u) {
        NobodyArrives(s, step, u, Cur(s));
      }
    }
  }

  lemma StarterIsAtTheTop(s: Group, step: Step)
    requires Chained(s) && s.meta.Some? && Commits(s, step) && StartOf(step).Some?
    ensures exists v :: v in s.members && s.members[v].generation == Cur(s) && !Gone(s, v)
  {
    LinksAfterStart(s, step);
    var start := StartOf(step).value;
    assert s.members[start.starter.user].generation == start.current && !Gone(s, start.starter.user);
  }

  lemma {:induction false} DesertedTopMintsNothing(s: Group, steps: seq<Step>)
    requires Chained(s) && Deserted(s, Cur(s)) && Run(s, steps).meta.Some?
    ensures Chained(Run(s, steps)) && Cur(Run(s, steps)) == Cur(s)
    decreases |steps|
  {
    if steps != [] {
      RunKeepsChained(s, steps);
      StepKeepsChained(s, steps[0]);
      RunKeepsChained(Next(s, steps[0]), steps[1..]);
      TopStaysDeserted(s, steps[0]);
      DesertedTopMintsNothing(Next(s, steps[0]), steps[1..]);
    }
  }

  // ----- somebody there: an admin at the generation can be had -----

  /** The marker is up in a Rotating group, and everyone behind it is live. */
  predicate Pending(s: Group, generation: nat) {
    && IsRotating(s) && MarkerAt(s, generation)
    && forall u :: u in Behind(s, generation) ==> Live(s, u)
  }

  lemma {:induction false} QuietThenFinish(s: Group, first: seq<Step>, t: Group, rest: seq<Step>, atLeast: nat)
    requires Leads(s, first, t) && Quiet(first) && ScansHold(t, rest, atLeast)
    ensures ScansHold(s, first + rest, atLeast)
    decreases |first|
  {
    if first == [] {
      assert first + rest == rest;
    } else {
      assert (first + rest)[1..] == first[1..] + rest;
      QuietThenFinish(Next(s, first[0]), first[1..], t, rest, atLeast);
    }
  }

  lemma {:induction false} ScansHoldSooner(s: Group, steps: seq<Step>, atLeast: nat, sooner: nat)
    requires ScansHold(s, steps, atLeast) && sooner <= atLeast
    ensures ScansHold(s, steps, sooner)
    decreases |steps|
  {
    if steps != [] { ScansHoldSooner(Next(s, steps[0]), steps[1..], atLeast, sooner); }
  }

  lemma HostsKeepPending(s: Group, t: Group, generation: nat)
    requires EntriesOk(s) && Pending(s, generation) && Hosts(s, t)
    ensures Pending(t, generation)
  {
    forall u | u in Behind(t, generation) ensures Live(t, u) {
      if u in s.members {
        assert EntryOk(s, u) && Hosted(s, t, u);
        assert u in Behind(s, generation);
      }
    }
  }

  lemma MemberHasAccount(s: Group, u: UserId)
    requires EntriesOk(s) && u in s.members
    ensures u in s.users && s.members[u].joinedAs < |s.joined|
  {
    assert EntryOk(s, u);
  }

  // ----- and finishes it -----

  function TakenOver(s: Group, w: UserId, leaver: UserId): Group
    requires w in s.members && w in s.users
  {
    HandoffConsumed(Minted(s, CurrentRecipient(s, w), Cur(s), Some(leaver)), w)
  }

  lemma TakeOverLeads(s: Group, w: UserId, leaver: UserId)
    requires s.marker == Some(LeaveMarker(leaver, Cur(s))) && Cur(s) !in s.links
    requires Holds(s, w, Admin, Cur(s)) && Live(s, w) && Observed(s, CurrentRecipient(s, w))
    ensures var step := TakeOver(CurrentRecipient(s, w), leaver, Cur(s));
            Honest(s, step) && Next(s, step) == TakenOver(s, w, leaver)
  {
  }

  lemma TakenOverIs(s: Group, w: UserId, leaver: UserId)
    requires Cur(s) !in s.links && Holds(s, w, Admin, Cur(s)) && Live(s, w)
    ensures var t := TakenOver(s, w, leaver);
            && MarkerAt(t, Cur(s) + 1) && Holds(t, w, Admin, Cur(s) + 1) && t.meta == s.meta && t.joined == s.joined
            && Behind(t, Cur(s) + 1) <= Behind(s, Cur(s) + 1)
            && forall u :: Live(s, u) ==> Live(t, u)
  {
  }

  /** A live admin at the front finishes, after taking a leaver's marker over if that is what stands. */
  lemma FinishFrom(s: Group, w: UserId, generation: nat) returns (steps: seq<Step>)
    requires Consistent(s) && Pending(s, generation) && Holds(s, w, Admin, Front(s, generation)) && Live(s, w)
    ensures Finishes(s, steps, |s.joined|)
  {
    if generation <= Cur(s) {
      steps := RotationCanFinish(s, w, generation);
    } else {
      steps := TakeOverAndFinish(s, w);
    }
  }

  lemma TakeOverAndFinish(s: Group, w: UserId) returns (steps: seq<Step>)
    requires Consistent(s) && Pending(s, Cur(s) + 1) && Holds(s, w, Admin, Cur(s)) && Live(s, w)
    ensures Finishes(s, steps, |s.joined|)
  {
    LeaversMarkerStands(s);
    var step, t := TakeItOver(s, w);
    StepKeepsConsistent(s, step);
    var rest := RotationCanFinish(t, w, Cur(s) + 1);
    steps := [step] + rest;
    Prepend(s, step, rest, |s.joined|);
  }

  /** A marker not minted yet is a leaver's. */
  lemma LeaversMarkerStands(s: Group)
    requires ChainOk(s) && MarkerAt(s, Cur(s) + 1)
    ensures s.marker == Some(LeaveMarker(s.marker.value.startedBy, Cur(s))) && Cur(s) !in s.links
  {
  }

  lemma TakeItOver(s: Group, w: UserId) returns (step: Step, t: Group)
    requires AccountsOk(s.users) && Pending(s, Cur(s) + 1) && Holds(s, w, Admin, Cur(s)) && Live(s, w)
    requires s.marker == Some(LeaveMarker(s.marker.value.startedBy, Cur(s))) && Cur(s) !in s.links
    ensures step.TakeOver? && Honest(s, step) && Next(s, step) == t
    ensures Pending(t, Cur(s) + 1) && Holds(t, w, Admin, Cur(s) + 1) && t.meta == s.meta && t.joined == s.joined
  {
    var leaver := s.marker.value.startedBy;
    step, t := TakeOver(CurrentRecipient(s, w), leaver, Cur(s)), TakenOver(s, w, leaver);
    CurrentRecipientIsObserved(s, w);
    TakeOverLeads(s, w, leaver);
    TakenOverIs(s, w, leaver);
  }

  lemma SomebodyCanEndIt(s: Group, x: UserId, v: UserId, generation: nat) returns (steps: seq<Step>)
    requires Consistent(s) && Pending(s, generation) && IsAdmin(s, x)
    requires v in s.members && s.members[v].generation == Front(s, generation) && !Gone(s, v)
    ensures Ends(s, steps, generation)
  {
    var first, t, w := FindAdmin(s, x, v);
    HostsKeepPending(s, t, generation);
    RunKeepsConsistent(s, first);
    var rest := FinishFrom(t, w, generation);
    steps := first + rest;
    RunAppend(s, first, rest);
    JoinedGrowsOverRuns(s, first);
    ScansHoldSooner(t, rest, |t.joined|, |s.joined|);
    QuietThenFinish(s, first, t, rest, |s.joined|);
  }

  /**
   * In a Rotating group that has an admin, the rotation a marker stands for can
   * be ended by honest requests with sound scans exactly if somebody at the
   * front is not a plain member with a deleted account, and nobody behind has
   * deleted theirs. The front is the marker's generation once it is minted, so
   * also for the marker of somebody who left from behind.
   */
  lemma EndsExactly(s: Group, x: UserId, generation: nat)
    requires Consistent(s) && IsRotating(s) && IsAdmin(s, x) && MarkerAt(s, generation)
    ensures (exists steps :: Ends(s, steps, generation)) <==>
              !Deserted(s, Front(s, generation)) && forall u :: u in Behind(s, generation) ==> Live(s, u)
  {
    if !Deserted(s, Front(s, generation)) && forall u :: u in Behind(s, generation) ==> Live(s, u) {
      var v :| v in s.members && s.members[v].generation == Front(s, generation) && !Gone(s, v);
      var steps := SomebodyCanEndIt(s, x, v, generation);
    } else {
      forall steps ensures !Ends(s, steps, generation) {
        if Ends(s, steps, generation) { CannotEnd(s, steps, generation); }
      }
    }
  }

  lemma CannotEnd(s: Group, steps: seq<Step>, generation: nat)
    requires Consistent(s) && IsRotating(s) && MarkerAt(s, generation)
    requires HonestRun(s, steps) && ScansHold(s, steps, |s.joined|) && IsRotating(Run(s, steps))
    requires Deserted(s, Front(s, generation)) || exists u :: u in Behind(s, generation) && !Live(s, u)
    ensures MarkerAt(Run(s, steps), generation)
  {
    if Deserted(s, Front(s, generation)) {
      DesertedRotationNeverEnds(s, steps, generation);
    } else {
      var u :| u in Behind(s, generation) && !Live(s, u);
      MemberHasAccount(s, u);
      StuckRotationNeverEnds(s, steps, u, generation, |s.joined|);
    }
  }

  // ----- how a group gets there -----

  /**
   * Somebody whose account deletion has found them in no group joins this one,
   * and is left behind by a rotation; then their tombstone is written. No
   * completion with a sound scan ends the rotation.
   */
  lemma StuckIsReached(s: Group, a: UserId)
      returns (before: seq<Step>, found: Group, after: seq<Step>, t: Group, w: UserId)
    requires Ready(s, a) && IsRotating(s)
    ensures Leads(s, before, found) && w !in found.members && Live(found, w) && Leads(found, after, t)
    ensures IsRotating(t) && Holds(t, a, Admin, Cur(t)) && MarkerAt(t, Cur(t)) && Stuck(t, w, Cur(t))
  {
    var first, p := Prepare(s, a);
    var register, v, x := RegisterNewcomer(p);
    found, w := v, x;
    LeadsOn(s, first, p, register, found);
    before := first + register;
    after, t := JoinAndTombstone(p, found, a, w);
  }

  lemma RegisterNewcomer(p: Group) returns (steps: seq<Step>, found: Group, w: UserId)
    requires Consistent(p)
    ensures Leads(p, steps, found) && Consistent(found) && w !in p.members && w !in p.users
    ensures found == p.(users := p.users[w := Accounts.NewAccount(0, 0)])
  {
    w := Newcomer(p);
    steps := [Register(w, 0, 0)];
    found := p.(users := p.users[w := Accounts.NewAccount(0, 0)]);
    LeadsByOne(p, Register(w, 0, 0));
    RunKeepsConsistent(p, steps);
  }

  lemma JoinAndTombstone(p: Group, found: Group, a: UserId, w: UserId) returns (after: seq<Step>, t: Group)
    requires CanRekey(p, a) && IsRotating(p) && w !in p.members && w !in p.users
    requires Consistent(found) && found == p.(users := p.users[w := Accounts.NewAccount(0, 0)])
    ensures Leads(found, after, t)
    ensures IsRotating(t) && Holds(t, a, Admin, Cur(t)) && MarkerAt(t, Cur(t)) && Stuck(t, w, Cur(t))
  {
    var join, q := JoinRegistered(p, found, a, w);
    RunKeepsConsistent(found, join);
    InviteKeepsAble(p, a, w, Cur(p));
    var start, v := Rekey(q, a);
    LeadsOn(found, join, q, start, v);
    var tomb, last := TombstoneBehind(q, v, a, w);
    LeadsOn(found, join + start, v, tomb, last);
    after, t := join + start + tomb, last;
  }

  lemma JoinRegistered(p: Group, found: Group, a: UserId, w: UserId) returns (steps: seq<Step>, q: Group)
    requires Able(p, a) && w !in p.members && found == p.(users := p.users[w := Accounts.NewAccount(0, 0)])
    ensures Leads(found, steps, q) && q == Invited(p, w, Cur(p))
  {
    JoinLeads(found, a, w, Cur(p));
    var join := CompleteInvite(a, Recipient(w, 0, 0), Cur(p), Some(found.meta.value.joinSeq));
    LeadsByOne(found, join);
    steps, q := [join], Invited(p, w, Cur(p));
  }

  lemma TombstoneBehind(q: Group, s: Group, a: UserId, w: UserId) returns (steps: seq<Step>, t: Group)
    requires IsRotating(q) && a in q.members && q.members[a].role == Admin && a in q.users && Cur(q) !in q.links && w != a
    requires w in q.members && q.members[w].generation == Cur(q) && Live(q, w) && !Dormant(q, w) && s == Rekeyed(q, a)
    ensures Leads(s, steps, t) && IsRotating(t) && Holds(t, a, Admin, Cur(t)) && MarkerAt(t, Cur(t)) && Stuck(t, w, Cur(t))
  {
    RekeyedIs(q, a);
    AccountLeads(s, w, Accounts.Tombstone);
    t := s.(users := s.users[w := Accounts.Apply(s.users[w], Accounts.Tombstone)]);
    steps := [OnAccount(w, Accounts.Tombstone)];
  }

  /** Two rotations pass somebody by, and they leave: their marker names a generation nobody is at. */
  lemma WedgeIsReached(s: Group, a: UserId) returns (steps: seq<Step>, t: Group, w: UserId)
    requires Ready(s, a) && IsRotating(s)
    ensures HonestRun(s, steps) && Run(s, steps) == t && IsRotating(t) && Wedged(t, w, Cur(s))
  {
    var first, s1, u := LeaveOneBehind(s, a);
    w := u;
    var second, s2 := PassThemBy(s1, a, w);
    LeadsOn(s, first, s1, second, s2);
    var leave, last := LeaveThere(s2, w, Cur(s));
    t, steps := last, first + second + [leave];
    RunOne(s2, leave);
    RunAppend(s, first + second, [leave]);
  }

  /** w is two generations behind the only member past them, and no rotation runs. */
  predicate PassedBy(s: Group, w: UserId) {
    && IsRotating(s) && s.marker.None? && w in s.members && s.members[w].generation + 2 == Cur(s) && s.members[w].role == Member
    && forall u :: u in s.members ==> s.members[u].generation != s.members[w].generation + 1
  }

  lemma PassThemBy(s: Group, a: UserId, w: UserId) returns (steps: seq<Step>, t: Group)
    requires Ready(s, a) && IsRotating(s) && LeftBehind(s, a, w)
    ensures Leads(s, steps, t) && PassedBy(t, w) && Cur(t) == Cur(s) + 1
  {
    var first, p := Prepare(s, a);
    var start, q := Rekey(p, a);
    LeadsOn(s, first, p, start, q);
    var done := Complete(q, a);
    t := q.(marker := None);
    RekeyedPassesThemBy(p, a, w);
    LeadsOn(s, first + start, q, done, t);
    steps := first + start + done;
  }

  lemma RekeyedPassesThemBy(p: Group, a: UserId, w: UserId)
    requires CanRekey(p, a) && IsRotating(p) && Cur(p) !in p.links && LeftBehindBy(p, a, w)
    ensures PassedBy(Rekeyed(p, a).(marker := None), w)
  {
    RekeyedIs(p, a);
  }

  predicate LeftBehindBy(s: Group, a: UserId, w: UserId) {
    && w in s.members && s.members[w].generation + 1 == Cur(s) && s.members[w].role == Member && w != a
    && forall u :: u in s.members && u != a ==> s.members[u].generation <= s.members[w].generation
  }

  lemma LeaveThere(s: Group, w: UserId, from: nat) returns (leave: Step, t: Group)
    requires PassedBy(s, w) && s.members[w].generation == from
    ensures Honest(s, leave) && Next(s, leave) == t && IsRotating(t) && Wedged(t, w, from)
  {
    leave := LeaveGroup(w, Member, None, GrantRef(0, false), 0, Some(from));
    t := Next(s, leave);
  }
}
