/**
 * What every run of a group keeps: the rows agree with each other (Consistent),
 * and a later state extends an earlier one (Later).
 */
module GroupInvariants {
  import opened Wrappers
  import Accounts
  import opened Groups
  import opened GroupEffects

  // ----- one state -----

  ghost predicate AccountsOk(users: map<UserId, Account>) {
    forall u :: u in users ==> Accounts.HistoryInv(users[u])
  }

  /** The entry is wrapped to the key its owner held at its WrapEpoch. */
  ghost predicate EntryOk(s: Group, u: UserId)
    requires u in s.members
  {
    var e := s.members[u];
    && u in s.users && e.wrapEpoch <= s.users[u].profile.keyEpoch
    && e.wrappedTo == Accounts.WrappingKeyAt(s.users[u], e.wrapEpoch)
    && Wrap(u, e.wrappedTo, e.generation) in s.wraps
    && e.joinedAs < |s.joined| && s.joined[e.joinedAs] == u
  }

  ghost predicate EntriesOk(s: Group) { forall u :: u in s.members ==> EntryOk(s, u) }

  /** Link n is key n under key n + 1. */
  ghost predicate LinksOk(links: map<nat, Link>) {
    forall n :: n in links ==> links[n].key == n && links[n].under == n + 1
  }

  /** While META exists: the links are exactly 0..Cur-1, nothing is past Cur, and a minted marker names Cur. */
  ghost predicate ChainOk(s: Group) {
    && (forall n: nat :: n in s.links <==> n < Cur(s))
    && (forall u :: u in s.members ==> s.members[u].generation <= Cur(s))
    && (forall w :: w in s.wraps ==> w.generation <= Cur(s))
    && (s.marker.Some? ==> MarkerOk(s, s.marker.value))
  }

  predicate MarkerOk(s: Group, m: Marker) {
    1 <= m.generation <= Cur(s) + 1 && if m.minted then m.generation == Cur(s) else m.removed == Some(m.startedBy)
  }

  ghost predicate Chained(s: Group) { LinksOk(s.links) && (s.meta.Some? ==> ChainOk(s)) }

  /** A group created Open never rotates. */
  predicate BirthOk(s: Group) { BornOpen(s) ==> s.marker.None? && s.links == map[] }

  ghost predicate Consistent(s: Group) { AccountsOk(s.users) && EntriesOk(s) && Chained(s) && BirthOk(s) }

  // ----- two states -----

  ghost predicate UsersLater(users: map<UserId, Account>, later: map<UserId, Account>) {
    forall u :: u in users ==> u in later && Accounts.Later(users[u], later[u])
  }

  /** A membership's entry only moves forward; joinedAs, its place in the join history, says which membership it is. */
  ghost predicate EntryLater(s: Group, t: Group, u: UserId)
    requires u in s.members && u in t.members
  {
    && s.members[u].joinedAs <= t.members[u].joinedAs
    && (s.members[u].joinedAs == t.members[u].joinedAs ==>
          s.members[u].generation <= t.members[u].generation && s.members[u].wrapEpoch <= t.members[u].wrapEpoch)
  }

  ghost predicate EntriesLater(s: Group, t: Group) {
    && s.wraps <= t.wraps && s.joined <= t.joined
    && (forall u :: u in s.members && u in t.members ==> EntryLater(s, t, u))
    && (forall u :: u in t.members && t.members[u].joinedAs < |s.joined| ==>
          u in s.members && s.members[u].joinedAs == t.members[u].joinedAs)
  }

  /** Links are never changed or lost, and Open is never turned off. */
  ghost predicate ChainLater(s: Group, t: Group) {
    && (forall n :: n in s.links ==> n in t.links && t.links[n] == s.links[n])
    && Cur(s) <= Cur(t)
    && (IsOpen(s) ==> IsOpen(t))
  }

  ghost predicate Later(s: Group, t: Group) {
    && s.id == t.id && UsersLater(s.users, t.users) && EntriesLater(s, t)
    && (t.meta.Some? ==> s.meta.Some? && ChainLater(s, t))
  }

  lemma UsersLaterIsTransitive(users: map<UserId, Account>, later: map<UserId, Account>, last: map<UserId, Account>)
    requires UsersLater(users, later) && UsersLater(later, last)
    ensures UsersLater(users, last)
  {
    forall u | u in users ensures u in last && Accounts.Later(users[u], last[u]) {
      Accounts.LaterIsTransitive(users[u], later[u], last[u]);
    }
  }

  lemma EntriesLaterIsTransitive(s: Group, t: Group, v: Group)
    requires EntriesOk(s) && EntriesLater(s, t) && EntriesLater(t, v)
    ensures EntriesLater(s, v)
  {
    forall u | u in s.members && u in v.members ensures EntryLater(s, v, u) {
      if v.members[u].joinedAs < |t.joined| {
        assert EntryLater(s, t, u) && EntryLater(t, v, u);
      }
    }
  }

  // ----- accounts -----

  lemma OneAccountMoves(users: map<UserId, Account>, u: UserId, step: Accounts.AccountStep)
    requires AccountsOk(users) && u in users && Accounts.Honest(users[u], step)
    ensures AccountsOk(users[u := Accounts.Apply(users[u], step)])
    ensures UsersLater(users, users[u := Accounts.Apply(users[u], step)])
  {
    Accounts.HonestStepKeepsHistory(users[u], step);
  }

  lemma StepKeepsAccounts(s: Group, step: Step)
    requires AccountsOk(s.users) && Commits(s, step) && Honest(s, step)
    ensures AccountsOk(Effect(s, step).users) && UsersLater(s.users, Effect(s, step).users)
  {
    AccountsAfter(s, step);
    var part := AccountPart(s, step);
    if part.Some? {
      OneAccountMoves(s.users, part.value.0, part.value.1);
    }
  }

  // ----- entries -----

  lemma EntryOkStays(s: Group, t: Group, u: UserId)
    requires Kept(s, t, u) && EntryOk(s, u)
    requires u in t.users && Accounts.Later(s.users[u], t.users[u]) && s.wraps <= t.wraps && s.joined <= t.joined
    ensures EntryOk(t, u) && EntryLater(s, t, u)
  {
  }

  lemma WrapIsOk(s: Group, t: Group, step: Step, u: UserId)
    requires Wrapped(s, t, step, u) && (u in s.members ==> EntryOk(s, u))
    requires forall r :: r in Recipients(step) ==> Observed(s, r)
    requires u in s.users ==> u in t.users && Accounts.Later(s.users[u], t.users[u])
    requires s.joined <= t.joined
    ensures u in t.members && EntryOk(t, u) && (u in s.members ==> EntryLater(s, t, u))
    ensures u !in s.members ==> t.members[u].joinedAs == |s.joined|
    ensures u in s.members ==> t.members[u].joinedAs == s.members[u].joinedAs
  {
    var r :| r in Recipients(step) && r.user == u
             && if step.CompleteInvite? then JoinedAs(s, t, r, WrapGeneration(step)) else RewrappedTo(s, t, r, WrapGeneration(step));
    assert Observed(s, r);
  }

  lemma MoveKeepsEntries(s: Group, t: Group, step: Step)
    requires EntriesOk(s) && EntriesMove(s, t, step) && UsersLater(s.users, t.users)
    requires forall r :: r in Recipients(step) ==> Observed(s, r)
    ensures EntriesOk(t) && EntriesLater(s, t)
  {
    forall u | u in t.members
      ensures EntryOk(t, u) && (u in s.members ==> EntryLater(s, t, u) && t.members[u].joinedAs == s.members[u].joinedAs)
      ensures u !in s.members ==> t.members[u].joinedAs >= |s.joined|
    {
      if u in s.members { assert EntryOk(s, u); }
      if Kept(s, t, u) {
        EntryOkStays(s, t, u);
      } else {
        WrapIsOk(s, t, step, u);
      }
    }
  }

  // ----- the chain -----

  lemma StartKeepsChain(s: Group, t: Group, step: Step)
    requires ChainOk(s) && LinksOk(s.links) && EntriesMove(s, t, step) && ChainMoves(s, t, step) && StartOf(step).Some?
    requires WrapsMove(s, t, step) && t.meta.Some?
    ensures ChainOk(t) && ChainLater(s, t) && StartOf(step).value.current == Cur(s) && Cur(t) == Cur(s) + 1
  {
    var start := StartOf(step).value;
    assert s.members[start.starter.user].generation == start.current;
    forall u | u in t.members ensures t.members[u].generation <= Cur(t) {
      assert Kept(s, t, u) || Wrapped(s, t, step, u);
    }
  }

  /** No transaction leaves a gap in the chain, mints a generation again, or puts anyone past its end. */
  lemma MoveKeepsChain(s: Group, t: Group, step: Step)
    requires ChainOk(s) && LinksOk(s.links) && t.meta.Some?
    requires EntriesMove(s, t, step) && ChainMoves(s, t, step) && WrapsMove(s, t, step)
    ensures ChainOk(t) && ChainLater(s, t)
  {
    if StartOf(step).Some? {
      StartKeepsChain(s, t, step);
    } else {
      forall u | u in t.members ensures t.members[u].generation <= Cur(t) {
        assert Kept(s, t, u) || Wrapped(s, t, step, u);
      }
    }
  }

  lemma MoveKeepsLinks(s: Group, t: Group, step: Step)
    requires LinksOk(s.links) && ChainMoves(s, t, step)
    ensures LinksOk(t.links)
  {
  }

  // ----- every step and every run -----

  /** However its wraps were made. */
  lemma StepKeepsChained(s: Group, step: Step)
    requires Chained(s)
    ensures Chained(Next(s, step)) && s.id == Next(s, step).id
    ensures Next(s, step).meta.Some? ==> s.meta.Some? && ChainLater(s, Next(s, step))
  {
    if Commits(s, step) {
      StepMovesEntries(s, step);
      StepMovesChain(s, step);
      StepMovesWraps(s, step);
      MoveKeepsLinks(s, Effect(s, step), step);
      if Effect(s, step).meta.Some? { MoveKeepsChain(s, Effect(s, step), step); }
    }
  }

  lemma {:induction false} RunKeepsChained(s: Group, steps: seq<Step>)
    requires Chained(s)
    ensures Chained(Run(s, steps))
    ensures Run(s, steps).meta.Some? ==> s.meta.Some? && ChainLater(s, Run(s, steps))
    decreases |steps|
  {
    if steps != [] {
      StepKeepsChained(s, steps[0]);
      RunKeepsChained(Next(s, steps[0]), steps[1..]);
    }
  }

  /** The mode a group was created in shows until it is deleted. */
  lemma ModeAfter(s: Group, step: Step)
    requires Commits(s, step) && Effect(s, step).meta.Some?
    ensures s.meta.Some?
    ensures Effect(s, step).meta.value.mode == if step.ConvertToOpen? then Open(true) else s.meta.value.mode
  {
    MetaAfter(s, step);
  }

  lemma StepKeepsBirth(s: Group, step: Step)
    requires BirthOk(s) && Honest(s, step)
    ensures BirthOk(Next(s, step)) && (Next(s, step).meta.Some? && BornOpen(s) ==> BornOpen(Next(s, step)))
  {
    if Commits(s, step) && Effect(s, step).meta.Some? {
      ModeAfter(s, step);
      if BornOpen(s) && StartOf(step).None? && !step.SweepGroup? {
        LinksAfterOther(s, step);
        MarkerAfterOther(s, step);
      }
    }
  }

  /** Over every run of honest requests. */
  lemma {:induction false} BornOpenNeverRotates(s: Group, steps: seq<Step>)
    requires BornOpen(s) && BirthOk(s) && Chained(s) && HonestRun(s, steps) && Run(s, steps).meta.Some?
    ensures BornOpen(Run(s, steps)) && Run(s, steps).marker.None? && Run(s, steps).links == map[]
    decreases |steps|
  {
    if steps != [] {
      StepKeepsBirth(s, steps[0]);
      StepKeepsChained(s, steps[0]);
      RunKeepsChained(Next(s, steps[0]), steps[1..]);
      BornOpenNeverRotates(Next(s, steps[0]), steps[1..]);
    }
  }

  lemma StepKeepsConsistent(s: Group, step: Step)
    requires Consistent(s) && Honest(s, step)
    ensures Consistent(Next(s, step)) && Later(s, Next(s, step))
  {
    StepKeepsChained(s, step);
    StepKeepsBirth(s, step);
    if Commits(s, step) {
      StepKeepsAccounts(s, step);
      StepMovesEntries(s, step);
      MoveKeepsEntries(s, Effect(s, step), step);
    } else {
      LaterIsReflexive(s);
    }
  }

  lemma LaterIsReflexive(s: Group)
    ensures Later(s, s)
  {
  }

  lemma LaterIsTransitive(s: Group, t: Group, v: Group)
    requires EntriesOk(s) && Later(s, t) && Later(t, v)
    ensures Later(s, v)
  {
    UsersLaterIsTransitive(s.users, t.users, v.users);
    EntriesLaterIsTransitive(s, t, v);
  }

  lemma {:induction false} RunKeepsConsistent(s: Group, steps: seq<Step>)
    requires Consistent(s) && HonestRun(s, steps)
    ensures Consistent(Run(s, steps)) && Later(s, Run(s, steps))
    decreases |steps|
  {
    if steps == [] {
      LaterIsReflexive(s);
    } else {
      StepKeepsConsistent(s, steps[0]);
      RunKeepsConsistent(Next(s, steps[0]), steps[1..]);
      LaterIsTransitive(s, Next(s, steps[0]), Run(s, steps));
    }
  }

  /** A group as CreateGroup leaves it, its creator's keys read with their epoch in the transaction. */
  lemma CreationIsConsistent(id: GroupId, mode: Mode, creator: Recipient, root: GrantKey, users: map<UserId, Account>)
    requires AccountsOk(users) && creator.user in users && creator.epoch <= users[creator.user].profile.keyEpoch
    requires creator.key == Accounts.WrappingKeyAt(users[creator.user], creator.epoch)
    ensures Consistent(CreateGroup(id, mode, creator, root, users))
  {
  }

  /** What a handler read of somebody's keys stays true of that epoch, however late it is used. */
  lemma ObservationStays(s: Group, t: Group, r: Recipient)
    requires Observed(s, r) && UsersLater(s.users, t.users)
    ensures Observed(t, r)
  {
  }

  lemma CurrentRecipientIsObserved(s: Group, u: UserId)
    requires AccountsOk(s.users) && u in s.users
    ensures Observed(s, CurrentRecipient(s, u))
  {
    assert s.users[u].profile.keyEpoch + 1 !in s.users[u].keyChanges;
  }
}
