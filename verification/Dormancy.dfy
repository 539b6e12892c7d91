/** When "WrapEpoch < KeyEpoch" means what it is read as: wrapped to a key the owner replaced. */
module Dormancy {
  import Accounts
  import opened Groups
  import opened GroupInvariants

  /** The owner rotated away from the key they held at an epoch, and later back to it. */
  predicate CameBack(a: Account, epoch: nat) {
    epoch < a.profile.keyEpoch && Accounts.WrappingKeyAt(a, epoch) == a.profile.wrappingKey
  }

  /** Every entry is wrapped to the key its owner held at its WrapEpoch, whatever its writer had read. */
  lemma EntriesAreWrappedAtTheirEpoch(s: Group, steps: seq<Step>, u: UserId)
    requires Consistent(s) && HonestRun(s, steps) && u in Run(s, steps).members
    ensures var t := Run(s, steps);
            u in t.users && t.members[u].wrapEpoch <= t.users[u].profile.keyEpoch
            && t.members[u].wrappedTo == Accounts.WrappingKeyAt(t.users[u], t.members[u].wrapEpoch)
  {
    RunKeepsConsistent(s, steps);
    assert EntryOk(Run(s, steps), u);
  }

  /** Dormant exactly if wrapped to another key than the owner's current one, or they came back to that key. */
  lemma DormantExactly(s: Group, u: UserId)
    requires Consistent(s) && u in s.members
    ensures u in s.users
    ensures Dormant(s, u) <==>
              s.members[u].wrappedTo != s.users[u].profile.wrappingKey || CameBack(s.users[u], s.members[u].wrapEpoch)
  {
    assert EntryOk(s, u);
    var a := s.users[u];
    assert Accounts.HistoryInv(a);
    assert a.profile.keyEpoch + 1 !in a.keyChanges;
  }

  // ----- who brings somebody back -----

  /** Somebody else, holding the key wrapped, approves u's current one. */
  predicate Approves(s: Group, step: Step, u: UserId) {
    || (step.ApproveRewrap? && step.member.user == u && step.approver != u && MayWrap(s, step.approver, step.generation))
    || (step.ApproveRekey? && step.member.user == u && step.starter.user != u && Holds(s, step.starter.user, Admin, step.current))
  }

  /** u's own start of a rotation, or their own re-wrap in place. */
  predicate OwnWrap(step: Step, u: UserId) {
    || (step.RemoveMember? && step.start.Some? && step.remover == u)
    || ((step.TakeOver? || step.SelfRekey? || step.ApproveRekey?) && step.starter.user == u)
    || (step.SelfWrap? && step.self.user == u)
  }

  /** Only those two end it: rewrapping everybody else in a rotation never does, nor does anything the account does. */
  lemma DormancyEndsBy(s: Group, step: Step, u: UserId)
    requires Commits(s, step) && u in s.members && Dormant(s, u)
    requires u in Effect(s, step).members && !Dormant(Effect(s, step), u)
    ensures Approves(s, step, u) || OwnWrap(step, u)
  {
  }

  /** An approval is of somebody dormant, and ends it. */
  lemma ApprovalsEndDormancy(s: Group, step: Step)
    requires Commits(s, step) && (step.ApproveRewrap? || step.ApproveRekey?)
    ensures var u, t := step.member.user, Effect(s, step);
            Approves(s, step, u) && u in s.members && Dormant(s, u) && u in t.members && !Dormant(t, u)
  {
  }

  // ----- which accounts it is read rightly for -----

  /** The account's current wrapping key is none it had before. */
  ghost predicate NeverCameBack(a: Account) {
    forall e: nat :: e < a.profile.keyEpoch ==> Accounts.WrappingKeyAt(a, e) != a.profile.wrappingKey
  }

  /** Dormant exactly if wrapped to another key than the owner's current one. */
  predicate ReadRightly(s: Group, u: UserId)
    requires u in s.members && u in s.users
  {
    Dormant(s, u) <==> s.members[u].wrappedTo != s.users[u].profile.wrappingKey
  }

  ghost predicate RightWherever(a: Account, u: UserId) {
    forall s: Group :: Consistent(s) && u in s.members && u in s.users && s.users[u] == a ==> ReadRightly(s, u)
  }

  lemma NothingReplacedTheCurrentKey(a: Account)
    requires Accounts.HistoryInv(a)
    ensures Accounts.WrappingKeyAt(a, a.profile.keyEpoch) == a.profile.wrappingKey
  {
    assert a.profile.keyEpoch + 1 !in a.keyChanges;
  }

  /** In every group the owner may be in, exactly if they never rotated back to a wrapping key they had. */
  lemma DormancyIsRightExactly(a: Account, u: UserId)
    requires Accounts.HistoryInv(a)
    ensures RightWherever(a, u) <==> NeverCameBack(a)
  {
    NothingReplacedTheCurrentKey(a);
    if NeverCameBack(a) {
      forall s: Group | Consistent(s) && u in s.members && u in s.users && s.users[u] == a ensures ReadRightly(s, u) {
        DormantExactly(s, u);
      }
    } else {
      var e: nat :| e < a.profile.keyEpoch && Accounts.WrappingKeyAt(a, e) == a.profile.wrappingKey;
      GroupFromThen(a, u, e);
    }
  }

  /** A group they created at an earlier epoch with the key they hold now. */
  lemma GroupFromThen(a: Account, u: UserId, e: nat)
    requires Accounts.HistoryInv(a) && e < a.profile.keyEpoch && Accounts.WrappingKeyAt(a, e) == a.profile.wrappingKey
    ensures !RightWherever(a, u)
  {
    var creator := Recipient(u, a.profile.wrappingKey, e);
    var s := CreateGroup(0, Rotating, creator, 0, map[u := a]);
    CreationIsConsistent(0, Rotating, creator, 0, map[u := a]);
    assert !ReadRightly(s, u);
  }

  /** A rotation to a wrapping key the account has or had. */
  ghost predicate BringsBack(a: Account, step: Accounts.AccountStep) {
    step.RotateKeys? && Accounts.Commits(a, step)
    && exists e: nat :: e <= a.profile.keyEpoch && Accounts.WrappingKeyAt(a, e) == step.req.newWrapping
  }

  lemma RotationComesBackExactly(a: Account, req: Accounts.RotateKeysInput)
    requires Accounts.HistoryInv(a) && Accounts.RotateCommits(a, req)
    ensures NeverCameBack(Accounts.Rotated(a, req)) <==>
              forall e: nat :: e <= a.profile.keyEpoch ==> Accounts.WrappingKeyAt(a, e) != req.newWrapping
  {
    Accounts.RotationKeepsOldKeys(a, req);
    var b := Accounts.Rotated(a, req);
    if NeverCameBack(b) {
      forall e: nat | e <= a.profile.keyEpoch ensures Accounts.WrappingKeyAt(a, e) != req.newWrapping {
        assert Accounts.WrappingKeyAt(b, e) != b.profile.wrappingKey;
      }
    }
  }

  /** So it stays read rightly exactly if no rotation brings a wrapping key back, which the rows show before the write. */
  lemma StaysRightExactly(a: Account, step: Accounts.AccountStep)
    requires Accounts.HistoryInv(a) && Accounts.Honest(a, step) && NeverCameBack(a)
    ensures NeverCameBack(Accounts.Apply(a, step)) <==> !BringsBack(a, step)
  {
    Accounts.HonestStepKeepsHistory(a, step);
    if step.RotateKeys? && Accounts.Commits(a, step) {
      RotationComesBackExactly(a, step.req);
    } else {
      assert Accounts.Apply(a, step).profile.keyEpoch == a.profile.keyEpoch;
      assert Accounts.Apply(a, step).profile.wrappingKey == a.profile.wrappingKey;
    }
  }

  // ----- that they may come back -----

  function OnAccountSteps(u: UserId, steps: seq<Accounts.AccountStep>): seq<Step> {
    seq(|steps|, i requires 0 <= i < |steps| => OnAccount(u, steps[i]))
  }

  /** An account's own run, as a run of a group they are in. */
  lemma {:induction false} AccountRunInGroup(s: Group, u: UserId, steps: seq<Accounts.AccountStep>)
    requires u in s.users && Accounts.HonestRun(s.users[u], steps)
    requires forall i :: 0 <= i < |steps| ==> steps[i].RotateKeys?
    ensures HonestRun(s, OnAccountSteps(u, steps))
    ensures Run(s, OnAccountSteps(u, steps)) == s.(users := s.users[u := Accounts.Run(s.users[u], steps)])
    decreases |steps|
  {
    if steps == [] {
      assert s.users[u := s.users[u]] == s.users;
    } else {
      var t := Next(s, OnAccount(u, steps[0]));
      assert t.users == s.users[u := Accounts.Apply(s.users[u], steps[0])] by {
        assert s.users[u := s.users[u]] == s.users;
      }
      AccountRunInGroup(t, u, steps[1..]);
      assert OnAccountSteps(u, steps)[1..] == OnAccountSteps(u, steps[1..]);
      assert OnAccountSteps(u, steps)[0] == OnAccount(u, steps[0]);
      var last := Accounts.Run(s.users[u], steps);
      assert t.users[u := last] == s.users[u := last];
    }
  }

  /** The exception happens: two rotations later the owner may hold the old key again, and still counts as dormant. */
  lemma DormantOnTheirOwnKey() returns (s: Group, steps: seq<Step>, u: UserId)
    ensures Consistent(s) && HonestRun(s, steps)
    ensures var t := Run(s, steps);
            u in t.members && Dormant(t, u) && t.members[u].wrappedTo == t.users[u].profile.wrappingKey
  {
    var a, rotations := Accounts.WrappingKeyMayRepeat();
    u := 0;
    var creator := Recipient(0, a.profile.wrappingKey, 0);
    s := CreateGroup(0, Rotating, creator, 0, map[0 := a]);
    CreationIsConsistent(0, Rotating, creator, 0, map[0 := a]);
    steps := OnAccountSteps(0, rotations);
    StaleCreatorIsDormant(s, rotations);
  }

  lemma StaleCreatorIsDormant(s: Group, rotations: seq<Accounts.AccountStep>)
    requires 0 in s.users && 0 in s.members && Accounts.HonestRun(s.users[0], rotations)
    requires forall i :: 0 <= i < |rotations| ==> rotations[i].RotateKeys?
    requires Accounts.Run(s.users[0], rotations).profile.keyEpoch > s.members[0].wrapEpoch
    ensures HonestRun(s, OnAccountSteps(0, rotations))
    ensures var t := Run(s, OnAccountSteps(0, rotations));
            t.members == s.members && 0 in t.users && t.users[0] == Accounts.Run(s.users[0], rotations) && Dormant(t, 0)
  {
    AccountRunInGroup(s, 0, rotations);
  }
}
