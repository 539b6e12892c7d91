/**
 * One group's items in the table, and the transactions over them. Each method
 * is one TransactWriteItems call and the naming of its failed condition, in
 * the order the source looks for one.
 */
module GroupTables {
  import opened Wrappers
  import Accounts
  import opened Groups

  datatype TxError =
    | RotationInProgress | RotationNotActive | StaleGeneration
    | WrapEpochStale | CallerKeyEpochStale | HandoffStale
    | GrantorChanged | SubjectRoleChanged | SubjectDeleted | GrantKeyTaken
    | CallerBehind | MemberChanged | MemberDormant | MemberNotDormant | RekeyRequired | RekeyNotRequired
    | LeaveConflict | NotAdmin | AlreadyOpen | Conflict

  class GroupTable {
    const id: GroupId
    var meta: Option<Meta>
    var marker: Option<Marker>
    var links: map<nat, Link>
    var members: map<UserId, Entry>
    var grants: map<GrantKey, Grant>
    var users: map<UserId, Account>
    var wraps: set<Wrap>        // history
    var joined: seq<UserId>     // history
    var grantLog: seq<GrantKey> // history

    function Rows(): Group
      reads this
    {
      Group(id, meta, marker, links, members, grants, users, wraps, joined, grantLog)
    }

    constructor (s: Group)
      ensures Rows() == s
    {
      id, meta, marker, links, members := s.id, s.meta, s.marker, s.links, s.members;
      grants, users, wraps, joined, grantLog := s.grants, s.users, s.wraps, s.joined, s.grantLog;
    }

    /** Other requests' transactions commit. */
    method Interleave(steps: seq<Step>)
      modifies this
      ensures Rows() == Run(old(Rows()), steps)
    {
      var s := Rows();
      for i := 0 to |steps|
        invariant Run(s, steps[i..]) == Run(old(Rows()), steps) && s.id == id
      {
        NextKeepsId(s, steps[i]);
        s := Next(s, steps[i]);
      }
      meta, marker, links, members := s.meta, s.marker, s.links, s.members;
      grants, users, wraps, joined, grantLog := s.grants, s.users, s.wraps, s.joined, s.grantLog;
    }

    // ----- rotation starts -----

    /** The writes every start makes: marker, link and the starter's own entry, and their handoff row gone. */
    method WriteStart(starter: Recipient, current: nat, removed: Option<UserId>)
      requires starter.user in members && starter.user in users
      modifies this
      ensures Rows() == HandoffConsumed(Minted(old(Rows()), starter, current, removed), starter.user)
    {
      var u := starter.user;
      marker := Some(Marker(current + 1, u, removed, true));
      links := links[current := Link(current, current + 1, u, removed)];
      members := members[u := members[u].(generation := current + 1, wrappedTo := starter.key, wrapEpoch := starter.epoch)];
      wraps := wraps + {Wrap(u, starter.key, current + 1)};
      users := users[u := users[u].(handoffs := users[u].handoffs - {id})];
    }

    method AppendGrant(key: GrantKey, grant: Grant)
      modifies this`grants, this`grantLog
      ensures Rows() == Granted(old(Rows()), key, grant)
    {
      grants := grants[key := grant];
      grantLog := grantLog + [key];
    }

    /** Which of RemoveMember's conditions it reports, None when all hold. */
    method WhyRemoveMemberFails(remover: UserId, under: GrantRef, subject: UserId, subjectRole: Role,
                                demotion: Option<GrantKey>, start: Option<Recipient>, current: nat) returns (e: Option<TxError>)
      requires remover != subject && (start.Some? ==> start.value.user == remover)
      ensures e.None? <==> Commits(Rows(), Step.RemoveMember(remover, under, subject, subjectRole, demotion, start, current))
      ensures e == Some(RotationInProgress) ==> start.Some? && marker.Some? && EpochCurrent(Rows(), start.value)
      ensures e == Some(StaleGeneration) ==> start.Some? && marker.None? && current in links
      ensures e == Some(SubjectRoleChanged) ==> !(subject in members && members[subject].role == subjectRole)
    {
      if (subjectRole != Member) != demotion.Some? { return Some(Conflict); }
      if start.Some? {
        if !EpochCurrent(Rows(), start.value) { return Some(WrapEpochStale); }
        if marker.Some? { return Some(RotationInProgress); }
        if current in links { return Some(StaleGeneration); }
      }
      if remover !in members || members[remover].role != Admin
         || members[remover].grant != (if under.stored then Some(under.key) else None)
         || (start.Some? && members[remover].generation != current) { return Some(GrantorChanged); }
      if subject !in members || members[subject].role != subjectRole { return Some(SubjectRoleChanged); }
      if demotion.Some? && demotion.value in grants { return Some(GrantKeyTaken); }
      return None;
    }

    method RemoveMember(remover: UserId, under: GrantRef, subject: UserId, subjectRole: Role, demotion: Option<GrantKey>,
                        start: Option<Recipient>, current: nat) returns (r: Result<(), TxError>)
      requires remover != subject && (start.Some? ==> start.value.user == remover)
      modifies this
      ensures var step := Step.RemoveMember(remover, under, subject, subjectRole, demotion, start, current);
              (r.Ok? <==> Commits(old(Rows()), step)) && Rows() == Next(old(Rows()), step)
      ensures r == Err(RotationInProgress) ==> start.Some? && old(marker).Some? && EpochCurrent(old(Rows()), start.value)
      ensures r == Err(StaleGeneration) ==> start.Some? && old(marker).None? && current in old(links)
    {
      var e := WhyRemoveMemberFails(remover, under, subject, subjectRole, demotion, start, current);
      if e.Some? { return Err(e.value); }
      if demotion.Some? { AppendGrant(demotion.value, Grant(subject, Member, remover, Some(under.key))); }
      if start.Some? { WriteStart(start.value, current, Some(subject)); }
      members := members - {subject};
      return Ok(());
    }

    method TakeOver(starter: Recipient, leaver: UserId, current: nat) returns (r: Result<(), TxError>)
      modifies this
      ensures var step := Step.TakeOver(starter, leaver, current);
              (r.Ok? <==> Commits(old(Rows()), step)) && Rows() == Next(old(Rows()), step)
      ensures r == Err(CallerBehind) ==> current !in old(links) && !Holds(old(Rows()), starter.user, Admin, current)
    {
      var u := starter.user;
      if marker.None? || marker.value.generation != current + 1 || marker.value.startedBy != leaver
         || marker.value.removed != Some(leaver) || current in links { return Err(RotationNotActive); }
      if !EpochCurrent(Rows(), starter) { return Err(WrapEpochStale); }
      if u !in members || members[u].role != Admin || members[u].generation != current { return Err(CallerBehind); }
      WriteStart(starter, current, Some(leaver));
      return Ok(());
    }

    method SelfRekey(starter: Recipient, current: nat) returns (r: Result<(), TxError>)
      modifies this
      ensures var step := Step.SelfRekey(starter, current);
              (r.Ok? <==> Commits(old(Rows()), step)) && Rows() == Next(old(Rows()), step)
      ensures r == Err(HandoffStale) ==>
                old(marker).None? && (current in old(links) || !HandoffFits(old(Rows()), starter, current))
    {
      var u := starter.user;
      if marker.Some? { return Err(RotationInProgress); }
      if current in links { return Err(HandoffStale); }
      if u !in members || members[u].role != Admin || members[u].generation != current { return Err(CallerBehind); }
      if !EpochCurrent(Rows(), starter) { return Err(WrapEpochStale); }
      if id !in users[u].handoffs || users[u].handoffs[id] != Accounts.Handoff(starter.key, current) { return Err(HandoffStale); }
      WriteStart(starter, current, None);
      return Ok(());
    }

    /** ApproveRekey's failed condition; for the member's entry, what a read back of it says. */
    method WhyApproveRekeyFails(starter: Recipient, member: Recipient, current: nat) returns (e: Option<TxError>)
      requires starter.user != member.user
      ensures e.None? <==> Commits(Rows(), Step.ApproveRekey(starter, member, current))
      ensures e == Some(RekeyNotRequired) ==>
                member.user in members && members[member.user].generation < current
                && members[member.user].wrapEpoch < member.epoch
      ensures e == Some(MemberNotDormant) ==> member.user in members && members[member.user].wrapEpoch >= member.epoch
      ensures e != Some(Conflict)
    {
      var u, v := starter.user, member.user;
      if marker.Some? { return Some(RotationInProgress); }
      if current in links || u !in members || members[u].role != Admin || members[u].generation != current { return Some(CallerBehind); }
      if !EpochCurrent(Rows(), starter) { return Some(CallerKeyEpochStale); }
      if !EpochCurrent(Rows(), member) {
        return Some(if v !in users || users[v].profile.deleted then MemberChanged else WrapEpochStale);
      }
      if v !in members || members[v].generation != current || members[v].wrapEpoch >= member.epoch {
        if v !in members || members[v].generation > current { return Some(MemberChanged); }
        if members[v].wrapEpoch >= member.epoch { return Some(MemberNotDormant); }
        return Some(if members[v].generation < current then RekeyNotRequired else Conflict);
      }
      return None;
    }

    method ApproveRekey(starter: Recipient, member: Recipient, current: nat) returns (r: Result<(), TxError>)
      requires starter.user != member.user
      modifies this
      ensures var step := Step.ApproveRekey(starter, member, current);
              (r.Ok? <==> Commits(old(Rows()), step)) && Rows() == Next(old(Rows()), step)
      ensures r != Err(Conflict)
    {
      var e := WhyApproveRekeyFails(starter, member, current);
      if e.Some? { return Err(e.value); }
      var u, v := starter.user, member.user;
      marker := Some(Marker(current + 1, u, None, true));
      links := links[current := Link(current, current + 1, u, None)];
      members := members[u := members[u].(generation := current + 1, wrappedTo := starter.key, wrapEpoch := starter.epoch)];
      members := members[v := members[v].(generation := current + 1, wrappedTo := member.key, wrapEpoch := member.epoch)];
      wraps := wraps + {Wrap(u, starter.key, current + 1)} + {Wrap(v, member.key, current + 1)};
      return Ok(());
    }

    // ----- leaving -----

    method WhyLeaveFails(leaver: UserId, role: Role, demotion: Option<GrantKey>, under: GrantRef, successor: UserId,
                         from: Option<nat>) returns (e: Option<TxError>)
      requires (role != Member <==> demotion.Some?) && (role == Admin ==> successor != leaver)
      ensures e.None? <==> Commits(Rows(), Step.LeaveGroup(leaver, role, demotion, under, successor, from))
      ensures e == Some(RotationInProgress) <==> from.Some? && marker.Some?
    {
      if from.Some? && marker.Some? { return Some(RotationInProgress); }
      if demotion.Some? && demotion.value in grants { return Some(GrantKeyTaken); }
      if leaver !in members || members[leaver].role != role
         || (demotion.Some? && members[leaver].grant != (if under.stored then Some(under.key) else None))
         || (from.Some? && members[leaver].generation != from.value) { return Some(LeaveConflict); }
      if role == Admin && (!IsAdmin(Rows(), successor) || !Live(Rows(), successor)) { return Some(LeaveConflict); }
      return None;
    }

    method CommitLeave(leaver: UserId, role: Role, demotion: Option<GrantKey>, under: GrantRef, successor: UserId,
                       from: Option<nat>) returns (r: Result<(), TxError>)
      requires (role != Member <==> demotion.Some?) && (role == Admin ==> successor != leaver)
      modifies this
      ensures var step := Step.LeaveGroup(leaver, role, demotion, under, successor, from);
              (r.Ok? <==> Commits(old(Rows()), step)) && Rows() == Next(old(Rows()), step)
      ensures r == Err(RotationInProgress) <==> from.Some? && old(marker).Some?
    {
      var e := WhyLeaveFails(leaver, role, demotion, under, successor, from);
      if e.Some? { return Err(e.value); }
      if demotion.Some? { AppendGrant(demotion.value, Grant(leaver, Member, leaver, Some(under.key))); }
      members := members - {leaver};
      if from.Some? { marker := Some(Marker(from.value + 1, leaver, Some(leaver), false)); }
      return Ok(());
    }

    method DeleteGroup(last: UserId) returns (ok: bool)
      modifies this
      ensures ok <==> Commits(old(Rows()), Step.DeleteGroup(last))
      ensures Rows() == Next(old(Rows()), Step.DeleteGroup(last))
    {
      ok := last in members && meta.Some?;
      if ok {
        members := members - {last};
        meta := None;
      }
    }

    // ----- wraps -----

    /** The transaction of ApproveRewrap, after its read of the marker. */
    method CommitApproveRewrap(approver: UserId, member: Recipient, generation: nat, markerSeen: bool, open: bool)
      returns (r: Result<(), TxError>)
      requires approver != member.user
      modifies this
      ensures var step := Step.ApproveRewrap(approver, member, generation, markerSeen, open);
              (r.Ok? <==> Commits(old(Rows()), step)) && Rows() == Next(old(Rows()), step)
      ensures r == Err(RekeyRequired) ==>
                !open && member.user in old(members) && old(members)[member.user].generation == generation
      ensures r == Err(MemberNotDormant) ==>
                member.user in old(members) && old(members)[member.user].wrapEpoch >= member.epoch
    {
      var v := member.user;
      if !EpochCurrent(Rows(), member) {
        return Err(if v !in users || users[v].profile.deleted then MemberChanged else WrapEpochStale);
      }
      if !MarkerAsSeen(Rows(), generation, markerSeen) { return Err(RotationNotActive); }
      if approver !in members || members[approver].role == Member || members[approver].generation != generation {
        return Err(CallerBehind);
      }
      if v !in members || members[v].generation > generation { return Err(MemberChanged); }
      if members[v].wrapEpoch >= member.epoch { return Err(MemberNotDormant); }
      if members[v].generation == generation && !open { return Err(RekeyRequired); }
      members := members[v := members[v].(generation := generation, wrappedTo := member.key, wrapEpoch := member.epoch)];
      wraps := wraps + {Wrap(v, member.key, generation)};
      return Ok(());
    }

    method SelfWrap(self: Recipient, generation: nat) returns (r: Result<(), TxError>)
      modifies this
      ensures var step := Step.SelfWrap(self, generation);
              (r.Ok? <==> Commits(old(Rows()), step)) && Rows() == Next(old(Rows()), step)
    {
      var u := self.user;
      if u !in members || members[u].generation != generation { return Err(HandoffStale); }
      if !HandoffFits(Rows(), self, generation) { return Err(HandoffStale); }
      if !EpochCurrent(Rows(), self) { return Err(WrapEpochStale); }
      members := members[u := members[u].(wrappedTo := self.key, wrapEpoch := self.epoch)];
      wraps := wraps + {Wrap(u, self.key, generation)};
      users := users[u := users[u].(handoffs := users[u].handoffs - {id})];
      return Ok(());
    }

    /** RewrapMembers' failed condition; for a member's entry, what a read back of it says. */
    method WhyRewrapsFail(caller: UserId, generation: nat, markerSeen: bool, batch: seq<Recipient>)
      returns (e: Option<TxError>)
      requires 1 <= |batch| <= MAX_REWRAP_BATCH && Distinct(batch)
      requires forall i :: 0 <= i < |batch| ==> batch[i].user != caller
      ensures e.None? <==> Commits(Rows(), Step.RewrapMembers(caller, generation, markerSeen, BatchOf(batch)))
      ensures e == Some(MemberDormant) ==>
                exists i :: 0 <= i < |batch| && batch[i].user in members && members[batch[i].user].wrapEpoch != batch[i].epoch
    {
      BatchOfHas(batch);
      if !MarkerAsSeen(Rows(), generation, markerSeen) { return Some(RotationNotActive); }
      if !Holds(Rows(), caller, Admin, generation) { return Some(CallerBehind); }
      var stale := AnyStaleEpoch(batch);
      if stale { return Some(WrapEpochStale); }
      e := FirstMisfit(generation, markerSeen, batch);
    }

    /** The PROFILE checks of a batch. */
    method AnyStaleEpoch(batch: seq<Recipient>) returns (stale: bool)
      ensures stale <==> exists k :: 0 <= k < |batch| && !EpochCurrent(Rows(), batch[k])
    {
      for i := 0 to |batch|
        invariant forall k :: 0 <= k < i ==> EpochCurrent(Rows(), batch[k])
      {
        if !EpochCurrent(Rows(), batch[i]) { return true; }
      }
      return false;
    }

    /** The MEMBER# updates of a batch, and why the first that does not fit fails. */
    method FirstMisfit(generation: nat, markerSeen: bool, batch: seq<Recipient>) returns (e: Option<TxError>)
      ensures e.None? <==> forall k :: 0 <= k < |batch| ==> RewrapFits(Rows(), generation, markerSeen, batch[k])
      ensures e.Some? ==> e.value == MemberChanged || e.value == MemberDormant
      ensures e == Some(MemberDormant) ==>
                exists k :: 0 <= k < |batch| && batch[k].user in members && members[batch[k].user].wrapEpoch != batch[k].epoch
    {
      for i := 0 to |batch|
        invariant forall k :: 0 <= k < i ==> RewrapFits(Rows(), generation, markerSeen, batch[k])
      {
        var u := batch[i].user;
        if u !in members || members[u].generation > generation || (!markerSeen && members[u].generation == generation) {
          return Some(MemberChanged);
        }
        if members[u].wrapEpoch != batch[i].epoch { return Some(MemberDormant); }
      }
      return None;
    }

    /** The wraps of a batch no two of which are for one user. */
    method CommitRewraps(caller: UserId, generation: nat, markerSeen: bool, batch: seq<Recipient>)
      returns (r: Result<(), TxError>)
      requires 1 <= |batch| <= MAX_REWRAP_BATCH && Distinct(batch)
      requires forall i :: 0 <= i < |batch| ==> batch[i].user != caller
      modifies this
      ensures var step := Step.RewrapMembers(caller, generation, markerSeen, BatchOf(batch));
              (r.Ok? <==> Commits(old(Rows()), step)) && Rows() == Next(old(Rows()), step)
    {
      var e := WhyRewrapsFail(caller, generation, markerSeen, batch);
      if e.Some? { return Err(e.value); }
      assert BatchFits(Rows(), caller, generation, markerSeen, BatchOf(batch));
      WriteRewraps(generation, batch);
      return Ok(());
    }

    method WriteRewraps(generation: nat, batch: seq<Recipient>)
      requires Distinct(batch) && BatchOf(batch).Keys <= members.Keys
      modifies this`members, this`wraps
      ensures Rows() == BatchRewrapped(old(Rows()), generation, BatchOf(batch))
    {
      BatchOfHas(batch);
      ghost var before := Rows();
      EmptyBatch(before, generation);
      for i := 0 to |batch|
        invariant BatchOf(batch[..i]).Keys <= before.members.Keys
        invariant Rows() == BatchRewrapped(before, generation, BatchOf(batch[..i]))
      {
        BatchGrows(batch, i);
        OneMoreRewrap(before, generation, BatchOf(batch[..i]), batch[i]);
        var u := batch[i].user;
        members := members[u := members[u].(generation := generation, wrappedTo := batch[i].key)];
        wraps := wraps + {Wrap(u, batch[i].key, generation)};
      }
      assert batch[..|batch|] == batch;
    }

    // ----- the rest -----

    method CommitCompletion(caller: UserId, generation: nat, since: nat) returns (r: Result<(), TxError>)
      modifies this`marker
      ensures var step := Step.CompleteRotation(caller, generation, since);
              (r.Ok? <==> Commits(old(Rows()), step)) && Rows() == Next(old(Rows()), step)
      ensures r == Err(RotationNotActive) <==> !MarkerAt(old(Rows()), generation)
    {
      if marker.None? || marker.value.generation != generation { return Err(RotationNotActive); }
      if !Holds(Rows(), caller, Admin, generation) { return Err(CallerBehind); }
      marker := None;
      return Ok(());
    }

    method CommitConversion(admin: UserId, generation: nat) returns (r: Result<(), TxError>)
      modifies this`meta
      ensures var step := Step.ConvertToOpen(admin, generation);
              (r.Ok? <==> Commits(old(Rows()), step)) && Rows() == Next(old(Rows()), step)
    {
      if !Holds(Rows(), admin, Admin, generation) { return Err(NotAdmin); }
      if marker.Some? { return Err(RotationInProgress); }
      if meta.None? || meta.value.mode != Rotating { return Err(AlreadyOpen); }
      meta := Some(meta.value.(mode := Open(true)));
      return Ok(());
    }

    method ChangeRole(grantor: UserId, under: GrantRef, subject: UserId, oldRole: Role, newRole: Role, key: GrantKey)
      returns (r: Result<(), TxError>)
      requires grantor != subject
      modifies this
      ensures var step := Step.ChangeRole(grantor, under, subject, oldRole, newRole, key);
              (r.Ok? <==> Commits(old(Rows()), step)) && Rows() == Next(old(Rows()), step)
    {
      if grantor !in members || members[grantor].role != Admin
         || members[grantor].grant != (if under.stored then Some(under.key) else None) { return Err(GrantorChanged); }
      if subject !in members || members[subject].role != oldRole { return Err(SubjectRoleChanged); }
      if key in grants { return Err(GrantKeyTaken); }
      if newRole != Member && !Live(Rows(), subject) { return Err(SubjectDeleted); }
      members := members[subject := members[subject].(role := newRole, grant := Some(key))];
      AppendGrant(key, Grant(subject, newRole, grantor, Some(under.key)));
      return Ok(());
    }

    method ClaimDesignation(admin: UserId, under: GrantRef, successor: UserId, oldRole: Role, key: GrantKey)
      returns (r: Result<(), TxError>)
      requires admin != successor
      modifies this
      ensures var step := Step.Claim(admin, under, successor, oldRole, key);
              (r.Ok? <==> Commits(old(Rows()), step)) && Rows() == Next(old(Rows()), step)
    {
      if admin !in members || members[admin].role != Admin
         || members[admin].grant != (if under.stored then Some(under.key) else None) { return Err(GrantorChanged); }
      if successor !in members || members[successor].role != oldRole { return Err(SubjectRoleChanged); }
      if key in grants { return Err(GrantKeyTaken); }
      if !Live(Rows(), successor) { return Err(SubjectDeleted); }
      members := members[successor := members[successor].(role := Admin, grant := Some(key))];
      AppendGrant(key, Grant(successor, Admin, admin, Some(under.key)));
      return Ok(());
    }

    /** completeInviteOnce; JoinRaced and GroupGone are told apart by reading META again. */
    method CompleteInviteOnce(inviter: UserId, invitee: Recipient, generation: nat, seenSeq: Option<nat>)
      returns (r: Result<(), JoinError>)
      modifies this
      ensures var step := Step.CompleteInvite(inviter, invitee, generation, seenSeq);
              (r.Ok? <==> Commits(old(Rows()), step)) && Rows() == Next(old(Rows()), step)
      ensures r == Err(JoinRaced) ==> old(meta).Some? && seenSeq.Some? && old(meta).value.joinSeq != seenSeq.value
      ensures r == Err(AlreadyMember) ==> invitee.user in old(members)
      ensures r == Err(GroupGone) ==> old(meta).None?
      ensures r == Err(InviterNotEligible) ==> !MayWrap(old(Rows()), inviter, generation)
      ensures r == Err(InviteeDeleted) || r == Err(InviteeKeysChanged) ==> !EpochCurrent(old(Rows()), invitee)
      ensures r == Err(InviteeKeysChanged) ==> Live(old(Rows()), invitee.user)
      ensures r != Err(GroupFull)
    {
      var u := invitee.user;
      if !EpochCurrent(Rows(), invitee) {
        return Err(if u !in users || users[u].profile.deleted then InviteeDeleted else InviteeKeysChanged);
      }
      if meta.None? { return Err(GroupGone); }
      if seenSeq.Some? && meta.value.joinSeq != seenSeq.value { return Err(JoinRaced); }
      if inviter !in members || members[inviter].role == Member || members[inviter].generation != generation {
        return Err(InviterNotEligible);
      }
      if u in members { return Err(AlreadyMember); }
      members := members[u := Entry(Member, generation, invitee.key, invitee.epoch, None, |joined|)];
      wraps := wraps + {Wrap(u, invitee.key, generation)};
      joined := joined + [u];
      if seenSeq.Some? { meta := Some(meta.value.(joinSeq := seenSeq.value + 1)); }
      return Ok(());
    }
  }

  datatype JoinError =
    GroupFull | JoinRaced | GroupGone | AlreadyMember | InviterNotEligible | InviteeDeleted | InviteeKeysChanged

  predicate Distinct(batch: seq<Recipient>) {
    forall i, j :: 0 <= i < j < |batch| ==> batch[i].user != batch[j].user
  }

  function BatchOf(batch: seq<Recipient>): map<UserId, Recipient> {
    if batch == [] then map[] else BatchOf(batch[..|batch| - 1])[batch[|batch| - 1].user := batch[|batch| - 1]]
  }

  lemma {:induction false} BatchOfHas(batch: seq<Recipient>)
    requires Distinct(batch)
    ensures |BatchOf(batch)| == |batch|
    ensures forall u :: u in BatchOf(batch) ==> exists i :: 0 <= i < |batch| && batch[i].user == u
    ensures forall i :: 0 <= i < |batch| ==> batch[i].user in BatchOf(batch) && BatchOf(batch)[batch[i].user] == batch[i]
  {
    if batch != [] {
      var rest := batch[..|batch| - 1];
      BatchOfHas(rest);
      forall i | 0 <= i < |batch| ensures batch[i].user in BatchOf(batch) && BatchOf(batch)[batch[i].user] == batch[i] {
        if i < |rest| { assert rest[i] == batch[i]; }
      }
    }
  }

  /** One member's condition in a batch, their PROFILE aside. */
  predicate RewrapFits(s: Group, generation: nat, markerSeen: bool, r: Recipient) {
    && r.user in s.members && s.members[r.user].wrapEpoch == r.epoch
    && if markerSeen then s.members[r.user].generation <= generation else s.members[r.user].generation < generation
  }

  lemma EmptyBatch(s: Group, generation: nat)
    ensures BatchRewrapped(s, generation, map[]) == s
  {
    assert BatchRewrapped(s, generation, map[]).wraps == s.wraps;
    assert BatchRewrapped(s, generation, map[]).members == s.members;
  }

  lemma OneMoreRewrap(s: Group, generation: nat, batch: map<UserId, Recipient>, r: Recipient)
    requires batch.Keys <= s.members.Keys && r.user in s.members && r.user !in batch
    ensures var t := BatchRewrapped(s, generation, batch);
            BatchRewrapped(s, generation, batch[r.user := r]) ==
              t.(members := t.members[r.user := t.members[r.user].(generation := generation, wrappedTo := r.key)],
                 wraps := t.wraps + {Wrap(r.user, r.key, generation)})
  {
    var t, v := BatchRewrapped(s, generation, batch), BatchRewrapped(s, generation, batch[r.user := r]);
    assert v.members == t.members[r.user := t.members[r.user].(generation := generation, wrappedTo := r.key)];
    assert v.wraps == t.wraps + {Wrap(r.user, r.key, generation)};
  }

  lemma BatchGrows(batch: seq<Recipient>, i: nat)
    requires Distinct(batch) && i < |batch|
    ensures batch[i].user !in BatchOf(batch[..i])
    ensures BatchOf(batch[..i + 1]) == BatchOf(batch[..i])[batch[i].user := batch[i]]
  {
    BatchOfHas(batch[..i]);
    assert batch[..i + 1][..i] == batch[..i];
  }

  lemma NextKeepsId(s: Group, step: Step)
    ensures Next(s, step).id == s.id
  {
  }
}
