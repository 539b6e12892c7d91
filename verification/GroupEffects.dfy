/**
 * What a committed transaction can do to each kind of row, over all
 * transactions at once. The invariants are proved from these.
 */
module GroupEffects {
  import opened Wrappers
  import Accounts
  import opened Groups

  datatype Start = Start(starter: Recipient, current: nat, removed: Option<UserId>)

  /** The rotation a step starts with a new key, if any. */
  function StartOf(step: Step): Option<Start> {
    match step
    case RemoveMember(_, _, subject, _, _, start, current) =>
      if start.Some? then Some(Start(start.value, current, Some(subject))) else None
    case TakeOver(starter, leaver, current) => Some(Start(starter, current, Some(leaver)))
    case SelfRekey(starter, current) => Some(Start(starter, current, None))
    case ApproveRekey(starter, _, current) => Some(Start(starter, current, None))
    case _ => None
  }

  /** The generation of the key a step's wraps hold. */
  function WrapGeneration(step: Step): nat {
    match step
    case CompleteInvite(_, _, generation, _) => generation
    case RemoveMember(_, _, _, _, _, _, current) => current + 1
    case TakeOver(_, _, current) => current + 1
    case SelfRekey(_, current) => current + 1
    case ApproveRekey(_, _, current) => current + 1
    case ApproveRewrap(_, _, generation, _, _) => generation
    case SelfWrap(_, generation) => generation
    case RewrapMembers(_, generation, _, _) => generation
    case _ => 0
  }

  function LeaveMarker(leaver: UserId, from: nat): Marker { Marker(from + 1, leaver, Some(leaver), false) }

  // ----- entries -----

  /** Everything but role and grant is as it was. */
  predicate Kept(s: Group, t: Group, u: UserId) {
    u in s.members && u in t.members
    && t.members[u] == s.members[u].(role := t.members[u].role, grant := t.members[u].grant)
  }

  predicate RewrappedTo(s: Group, t: Group, r: Recipient, generation: nat) {
    && r.user in s.members && r.user in t.members && EpochCurrent(s, r)
    && s.members[r.user].generation <= generation
    && t.members[r.user].generation == generation
    && t.members[r.user].wrappedTo == r.key && t.members[r.user].wrapEpoch == r.epoch
    && t.members[r.user].joinedAs == s.members[r.user].joinedAs
    && Wrap(r.user, r.key, generation) in t.wraps
  }

  predicate JoinedAs(s: Group, t: Group, r: Recipient, generation: nat) {
    && r.user !in s.members && r.user in t.members && EpochCurrent(s, r)
    && t.members[r.user] == Entry(Member, generation, r.key, r.epoch, None, |s.joined|)
    && t.joined == s.joined + [r.user] && Wrap(r.user, r.key, generation) in t.wraps
  }

  ghost predicate Wrapped(s: Group, t: Group, step: Step, u: UserId) {
    exists r :: r in Recipients(step) && r.user == u
                && if step.CompleteInvite? then JoinedAs(s, t, r, WrapGeneration(step)) else RewrappedTo(s, t, r, WrapGeneration(step))
  }

  lemma EntryAfterStart(s: Group, step: Step, u: UserId)
    requires Commits(s, step) && StartOf(step).Some? && u in Effect(s, step).members
    ensures Kept(s, Effect(s, step), u) || Wrapped(s, Effect(s, step), step, u)
  {
    var t, g := Effect(s, step), WrapGeneration(step);
    var starter := StartOf(step).value.starter;
    if u == starter.user {
      assert starter in Recipients(step) && RewrappedTo(s, t, starter, g);
    } else if step.ApproveRekey? && u == step.member.user {
      assert step.member in Recipients(step) && RewrappedTo(s, t, step.member, g);
    }
  }

  /** Every entry is the one it was, or was wrapped by this step to its owner's current key. */
  lemma EntryAfter(s: Group, step: Step, u: UserId)
    requires Commits(s, step) && u in Effect(s, step).members
    ensures Kept(s, Effect(s, step), u) || Wrapped(s, Effect(s, step), step, u)
  {
    var t, g := Effect(s, step), WrapGeneration(step);
    if StartOf(step).Some? {
      EntryAfterStart(s, step, u);
    } else {
      match step
      case CompleteInvite(_, invitee, _, _) =>
        if u == invitee.user { assert JoinedAs(s, t, invitee, g); }
      case ApproveRewrap(_, member, _, _, _) =>
        if u == member.user { assert RewrappedTo(s, t, member, g); }
      case SelfWrap(self, _) =>
        if u == self.user { assert RewrappedTo(s, t, self, g); }
      case RewrapMembers(_, _, _, batch) =>
        if u in batch { assert batch[u] in batch.Values && RewrappedTo(s, t, batch[u], g); }
      case _ =>
    }
  }

  // ----- wraps and joins -----

  /** Only the step's own wraps are added, for members and for the invitee. */
  lemma WrapsAfter(s: Group, step: Step, w: Wrap)
    requires Commits(s, step) && w in Effect(s, step).wraps && w !in s.wraps
    ensures w.generation == WrapGeneration(step)
    ensures exists r :: r in Recipients(step) && w == Wrap(r.user, r.key, w.generation) && EpochCurrent(s, r)
                        && (r.user in s.members || (step.CompleteInvite? && r == step.invitee))
  {
    if StartOf(step).Some? {
      WrapsAfterStart(s, step, w);
    } else {
      match step
      case CompleteInvite(_, invitee, _, _) => assert invitee in Recipients(step);
      case ApproveRewrap(_, member, _, _, _) => assert member in Recipients(step);
      case SelfWrap(self, _) => assert self in Recipients(step);
      case RewrapMembers(_, _, _, batch) => assert w.user in batch && batch[w.user] in batch.Values;
    }
  }

  lemma WrapsAfterStart(s: Group, step: Step, w: Wrap)
    requires Commits(s, step) && StartOf(step).Some? && w in Effect(s, step).wraps && w !in s.wraps
    ensures w.generation == WrapGeneration(step)
    ensures exists r :: r in Recipients(step) && w == Wrap(r.user, r.key, w.generation) && EpochCurrent(s, r) && r.user in s.members
  {
    assert StartOf(step).value.starter in Recipients(step);
    if step.ApproveRekey? { assert step.member in Recipients(step); }
  }

  lemma HistoryAfter(s: Group, step: Step)
    requires Commits(s, step)
    ensures s.wraps <= Effect(s, step).wraps && Effect(s, step).id == s.id
    ensures Effect(s, step).joined == if step.CompleteInvite? then s.joined + [step.invitee.user] else s.joined
  {
  }

  lemma JoinedGrows(s: Group, step: Step)
    ensures s.joined <= Next(s, step).joined
  {
    if Commits(s, step) { HistoryAfter(s, step); }
  }

  /** Open is never turned off, and META never comes back. */
  lemma MetaAfter(s: Group, step: Step)
    requires Commits(s, step)
    ensures Effect(s, step).meta.Some? ==> s.meta.Some?
    ensures Effect(s, step).meta.Some? && !step.CompleteInvite? && !step.ConvertToOpen? ==> Effect(s, step).meta == s.meta
    ensures Effect(s, step).meta.Some? && IsOpen(s) ==> IsOpen(Effect(s, step))
  {
  }

  /** HistoryAfter and EntryAfter, with the state after as a state of its own. */
  ghost predicate EntriesMove(s: Group, t: Group, step: Step) {
    && s.id == t.id && s.wraps <= t.wraps
    && t.joined == (if step.CompleteInvite? then s.joined + [step.invitee.user] else s.joined)
    && (forall u :: u in t.members ==> Kept(s, t, u) || Wrapped(s, t, step, u))
  }

  lemma StepMovesEntries(s: Group, step: Step)
    requires Commits(s, step)
    ensures EntriesMove(s, Effect(s, step), step)
  {
    HistoryAfter(s, step);
    forall u | u in Effect(s, step).members
      ensures Kept(s, Effect(s, step), u) || Wrapped(s, Effect(s, step), step, u)
    {
      EntryAfter(s, step, u);
    }
  }

  // ----- the marker and the links -----

  /** A start needs an admin at the generation before, and leaves the link and a minted marker. */
  lemma LinksAfterStart(s: Group, step: Step)
    requires Commits(s, step) && StartOf(step).Some?
    ensures var start := StartOf(step).value; var t := Effect(s, step);
            && MayMint(s, start.starter, start.current) && WrapGeneration(step) == start.current + 1
            && t.links == s.links[start.current := Link(start.current, start.current + 1, start.starter.user, start.removed)]
            && t.marker == Some(Marker(start.current + 1, start.starter.user, start.removed, true))
            && t.meta == s.meta
    ensures step.TakeOver? || s.marker.None?
  {
  }

  lemma LinksAfterOther(s: Group, step: Step)
    requires Commits(s, step) && StartOf(step).None? && !step.SweepGroup?
    ensures Effect(s, step).links == s.links
  {
  }

  lemma MarkerAfterOther(s: Group, step: Step)
    requires Commits(s, step) && StartOf(step).None? && !step.SweepGroup?
    ensures if step.LeaveGroup? && step.from.Some? then
              && Effect(s, step).marker == Some(LeaveMarker(step.leaver, step.from.value)) && s.marker.None?
              && step.leaver in s.members && s.members[step.leaver].generation == step.from.value
            else if step.CompleteRotation? then
              && Effect(s, step).marker.None? && MarkerAt(s, step.generation) && Holds(s, step.caller, Admin, step.generation)
            else Effect(s, step).marker == s.marker
  {
  }

  /** A wrap is made at the generation of somebody who holds it, and, while a marker stands, mostly at the marker's. */
  lemma WrapGenerationHeld(s: Group, step: Step)
    requires Commits(s, step) && Recipients(step) != {} && StartOf(step).None?
    ensures exists v :: v in s.members && s.members[v].generation == WrapGeneration(step)
    ensures (step.ApproveRewrap? || step.RewrapMembers?) && s.marker.Some? ==> MarkerAt(s, WrapGeneration(step))
  {
    match step
    case CompleteInvite(inviter, _, generation, _) => assert s.members[inviter].generation == generation;
    case ApproveRewrap(approver, _, generation, _, _) => assert s.members[approver].generation == generation;
    case SelfWrap(self, generation) => assert s.members[self.user].generation == generation;
    case RewrapMembers(caller, generation, _, _) => assert s.members[caller].generation == generation;
    case _ =>
  }

  lemma BatchIsNotEmpty(s: Group, step: Step)
    requires step.RewrapMembers? && Commits(s, step)
    ensures Recipients(step) != {}
  {
    var u :| u in step.batch.Keys;
    assert step.batch[u] in Recipients(step);
  }

  /** The lemmas above, with the state after as a state of its own. */
  ghost predicate ChainMoves(s: Group, t: Group, step: Step) {
    && (t.meta.Some? ==> s.meta.Some? && (IsOpen(s) ==> IsOpen(t)))
    && (StartOf(step).Some? ==> StartMoves(s, t, StartOf(step).value) && (step.TakeOver? || s.marker.None?)
                                && WrapGeneration(step) == StartOf(step).value.current + 1)
    && (StartOf(step).None? && !step.SweepGroup? ==>
          && t.links == s.links
          && (Recipients(step) != {} ==> exists v :: v in s.members && s.members[v].generation == WrapGeneration(step))
          && ((step.ApproveRewrap? || step.RewrapMembers?) && s.marker.Some? ==> MarkerAt(s, WrapGeneration(step)))
          && if step.LeaveGroup? && step.from.Some? then
               && t.marker == Some(LeaveMarker(step.leaver, step.from.value)) && s.marker.None?
               && step.leaver in s.members && s.members[step.leaver].generation == step.from.value
             else if step.CompleteRotation? then
               t.marker.None? && MarkerAt(s, step.generation) && Holds(s, step.caller, Admin, step.generation)
             else t.marker == s.marker)
    && (step.SweepGroup? ==> s.meta.None? && forall n :: n in t.links ==> n in s.links && t.links[n] == s.links[n])
    && (step.TakeOver? ==> s.marker.Some? && s.marker.value.removed == Some(step.leaver)
                           && s.marker.value.generation == step.current + 1)
  }

  /** Wraps are made for members, and for the invitee. */
  ghost predicate WrapsMove(s: Group, t: Group, step: Step) {
    s.wraps <= t.wraps && forall w :: w in t.wraps && w !in s.wraps ==>
      && w.generation == WrapGeneration(step) && Recipients(step) != {}
      && (w.user in s.members || (step.CompleteInvite? && w.user == step.invitee.user))
  }

  ghost predicate StartMoves(s: Group, t: Group, start: Start) {
    && MayMint(s, start.starter, start.current)
    && t.links == s.links[start.current := Link(start.current, start.current + 1, start.starter.user, start.removed)]
    && t.marker == Some(Marker(start.current + 1, start.starter.user, start.removed, true))
  }

  lemma StepMovesChain(s: Group, step: Step)
    requires Commits(s, step)
    ensures ChainMoves(s, Effect(s, step), step)
  {
    MetaAfter(s, step);
    if StartOf(step).Some? {
      LinksAfterStart(s, step);
    } else if !step.SweepGroup? {
      LinksAfterOther(s, step);
      MarkerAfterOther(s, step);
      if Recipients(step) != {} { WrapGenerationHeld(s, step); }
      if step.RewrapMembers? { BatchIsNotEmpty(s, step); }
    }
  }

  lemma StepMovesWraps(s: Group, step: Step)
    requires Commits(s, step)
    ensures WrapsMove(s, Effect(s, step), step)
  {
    HistoryAfter(s, step);
    forall w | w in Effect(s, step).wraps && w !in s.wraps
      ensures w.generation == WrapGeneration(step) && Recipients(step) != {}
      ensures w.user in s.members || (step.CompleteInvite? && w.user == step.invitee.user)
    {
      WrapsAfter(s, step, w);
    }
  }

  // ----- accounts -----

  /** The account, if any, that a transaction writes, and how. */
  function AccountPart(s: Group, step: Step): Option<(UserId, Accounts.AccountStep)> {
    match step
    case RemoveMember(remover, _, _, _, _, start, _) =>
      if start.Some? then Some((remover, Accounts.ConsumeHandoff(s.id))) else None
    case TakeOver(starter, _, _) => Some((starter.user, Accounts.ConsumeHandoff(s.id)))
    case SelfRekey(starter, _) => Some((starter.user, Accounts.ConsumeHandoff(s.id)))
    case SelfWrap(self, _) => Some((self.user, Accounts.ConsumeHandoff(s.id)))
    case OnAccount(user, step) => Some((user, step))
    case _ => None
  }

  /** A transaction registers one account, or applies one account step, or leaves every account alone. */
  lemma AccountsAfter(s: Group, step: Step)
    requires Commits(s, step)
    ensures var users := Effect(s, step).users; var part := AccountPart(s, step);
            if step.Register? then
              step.user !in s.users && users == s.users[step.user := Accounts.NewAccount(step.signing, step.wrapping)]
            else if part.Some? then
              part.value.0 in s.users && users == s.users[part.value.0 := Accounts.Apply(s.users[part.value.0], part.value.1)]
            else users == s.users
  {
    if StartOf(step).Some? {
      AccountsAfterStart(s, step);
    }
  }

  lemma AccountsAfterStart(s: Group, step: Step)
    requires Commits(s, step) && StartOf(step).Some?
    ensures var users := Effect(s, step).users; var part := AccountPart(s, step);
            if part.Some? then
              part.value.0 in s.users && users == s.users[part.value.0 := Accounts.Apply(s.users[part.value.0], part.value.1)]
            else users == s.users
  {
  }

  // ----- who goes -----

  /** The members a transaction deletes. */
  lemma MembersAfter(s: Group, step: Step, u: UserId)
    requires Commits(s, step) && u in s.members && u !in Effect(s, step).members
    ensures || (step.RemoveMember? && u == step.subject) || (step.LeaveGroup? && u == step.leaver)
            || (step.DeleteGroup? && u == step.last) || (step.SweepGroup? && u in step.lostMembers)
  {
  }
}
