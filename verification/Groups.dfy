/**
 * One group's partition (META, ROTATION, GENKEY#, MEMBER#, GRANT#) with the
 * accounts of everyone it names, and every transaction that writes it.
 *
 * Keys are symbolic. The group key of generation n is the number n; link n is
 * key n sealed under key n + 1; a wrap is a group key sealed to somebody's
 * wrapping key. History, not rows: every wrap ever stored, who joined in
 * what order, the order grants were written in, and Marker.minted.
 */
module Groups {
  import opened Wrappers
  import opened Accounts

  datatype Role = Admin | Ambassador | Member
  /** converted is history: whether an Open group was Rotating once. */
  datatype Mode = Rotating | Open(converted: bool)

  type UserId = Accounts.UserId
  type GroupId = Accounts.GroupId
  type Account = Accounts.Account
  type WrappingKey = Accounts.WrappingKey
  type GrantKey = nat

  datatype Meta = Meta(mode: Mode, joinSeq: nat)

  /**
   * generation is the one being rotated to. A leaver's own marker has
   * startedBy == removed. minted is history: whether generation has its link.
   */
  datatype Marker = Marker(generation: nat, startedBy: UserId, removed: Option<UserId>, minted: bool)

  /** GENKEY#n: the key it holds, and the key it is sealed under. */
  datatype Link = Link(key: nat, under: nat, startedBy: UserId, removed: Option<UserId>)

  /** joinedAs is the membership's place in the join history. */
  datatype Entry = Entry(role: Role, generation: nat, wrappedTo: WrappingKey, wrapEpoch: nat,
                         grant: Option<GrantKey>, joinedAs: nat)

  datatype Grant = Grant(subject: UserId, role: Role, grantor: UserId, ref: Option<GrantKey>)

  datatype Wrap = Wrap(user: UserId, to: WrappingKey, generation: nat)

  datatype Group = Group(id: GroupId, meta: Option<Meta>, marker: Option<Marker>, links: map<nat, Link>,
                         members: map<UserId, Entry>, grants: map<GrantKey, Grant>, users: map<UserId, Account>,
                         wraps: set<Wrap>, joined: seq<UserId>, grantLog: seq<GrantKey>)

  /** Whom a wrap is for: the wrapping key the client used and the epoch it read with it. */
  datatype Recipient = Recipient(user: UserId, key: WrappingKey, epoch: nat)

  /** The grant a signer acted under; stored says whether their MEMBER# row records it. */
  datatype GrantRef = GrantRef(key: GrantKey, stored: bool)

  datatype Step =
    | CompleteInvite(inviter: UserId, invitee: Recipient, generation: nat, seenSeq: Option<nat>)
    | RemoveMember(remover: UserId, under: GrantRef, subject: UserId, subjectRole: Role, demotion: Option<GrantKey>,
                   start: Option<Recipient>, current: nat)
    | LeaveGroup(leaver: UserId, role: Role, demotion: Option<GrantKey>, under: GrantRef, successor: UserId,
                 from: Option<nat>)
    | DeleteGroup(last: UserId)
    | SweepGroup(lostMembers: set<UserId>, lostLinks: set<nat>, lostGrants: set<GrantKey>, lostMarker: bool)
    | TakeOver(starter: Recipient, leaver: UserId, current: nat)
    | SelfRekey(starter: Recipient, current: nat)
    | ApproveRekey(starter: Recipient, member: Recipient, current: nat)
    | ApproveRewrap(approver: UserId, member: Recipient, generation: nat, markerSeen: bool, open: bool)
    | SelfWrap(self: Recipient, generation: nat)
    | RewrapMembers(caller: UserId, generation: nat, markerSeen: bool, batch: map<UserId, Recipient>)
    | CompleteRotation(caller: UserId, generation: nat, since: nat)
    | ConvertToOpen(admin: UserId, generation: nat)
    | ChangeRole(grantor: UserId, under: GrantRef, subject: UserId, oldRole: Role, newRole: Role, key: GrantKey)
    | Claim(admin: UserId, under: GrantRef, successor: UserId, oldRole: Role, key: GrantKey)
    | Register(user: UserId, signing: SigningKey, wrapping: WrappingKey)
    | OnAccount(user: UserId, step: AccountStep)

  const MAX_REWRAP_BATCH := 25

  // ----- reading the rows -----

  /** One past the newest link. */
  function Cur(s: Group): nat { |s.links| }

  predicate IsOpen(s: Group) { s.meta.Some? && s.meta.value.mode.Open? }

  predicate IsRotating(s: Group) { s.meta.Some? && s.meta.value.mode == Rotating }

  /** Created Open: no handler ever read it Rotating. */
  predicate BornOpen(s: Group) { s.meta.Some? && s.meta.value.mode == Open(false) }

  predicate OnceRotating(s: Group) { s.meta.Some? && s.meta.value.mode != Open(false) }

  predicate MarkerAt(s: Group, generation: nat) { s.marker.Some? && s.marker.value.generation == generation }

  predicate Holds(s: Group, u: UserId, role: Role, generation: nat) {
    u in s.members && s.members[u].role == role && s.members[u].generation == generation
  }

  predicate IsAdmin(s: Group, u: UserId) { u in s.members && s.members[u].role == Admin }

  /** The entry is wrapped to a key its owner's account has since replaced, going by the epochs. */
  predicate Dormant(s: Group, u: UserId)
    requires u in s.members
  {
    u in s.users && s.members[u].wrapEpoch < s.users[u].profile.keyEpoch
  }

  predicate Live(s: Group, u: UserId) { u in s.users && !s.users[u].profile.deleted }

  // ----- the conditions transactions share -----

  /** keyEpochCheck */
  predicate EpochCurrent(s: Group, r: Recipient) {
    Live(s, r.user) && s.users[r.user].profile.keyEpoch == r.epoch
  }

  /** markerCheck: the marker is as it was read. */
  predicate MarkerAsSeen(s: Group, generation: nat, seen: bool) {
    if seen then MarkerAt(s, generation) else s.marker.None?
  }

  /** The signer is still on the grant they signed under. */
  predicate OnGrant(s: Group, u: UserId, under: GrantRef) {
    u in s.members && s.members[u].grant == if under.stored then Some(under.key) else None
  }

  predicate AdminUnder(s: Group, u: UserId, under: GrantRef) { IsAdmin(s, u) && OnGrant(s, u, under) }

  predicate HasRole(s: Group, u: UserId, role: Role) { u in s.members && s.members[u].role == role }

  /** Admins and ambassadors wrap the key they hold for others. */
  predicate MayWrap(s: Group, u: UserId, generation: nat) {
    Holds(s, u, Admin, generation) || Holds(s, u, Ambassador, generation)
  }

  /** The member's entry is wrapped at an earlier epoch than r's, their current one. */
  predicate WasReplaced(s: Group, r: Recipient) {
    r.user in s.members && s.members[r.user].wrapEpoch < r.epoch && EpochCurrent(s, r)
  }

  /** A handoff row for this group needs an entry that fits it; rows are consumed only by this group's own steps. */
  predicate AccountCommits(s: Group, user: UserId, step: AccountStep) {
    && user in s.users && Accounts.Commits(s.users[user], step) && step != ConsumeHandoff(s.id)
    && (step.PutHandoff? && step.group == s.id ==>
          user in s.members && s.members[user].generation == step.row.generation && (IsOpen(s) || IsAdmin(s, user)))
  }

  /** The conditions of a rotation start by an admin: no second mint of a generation, own keys current. */
  predicate MayMint(s: Group, caller: Recipient, current: nat) {
    current !in s.links && Holds(s, caller.user, Admin, current) && EpochCurrent(s, caller)
  }

  /** The caller's handoff row for this group names the key wrapped to, at the generation of their entry. */
  predicate HandoffFits(s: Group, caller: Recipient, generation: nat) {
    caller.user in s.users && s.id in s.users[caller.user].handoffs
    && s.users[caller.user].handoffs[s.id] == Handoff(caller.key, generation)
  }

  predicate BatchFits(s: Group, caller: UserId, generation: nat, markerSeen: bool, batch: map<UserId, Recipient>) {
    && 1 <= |batch| <= MAX_REWRAP_BATCH
    && forall u :: u in batch ==>
         && u != caller && u in s.members && batch[u].user == u
         && (if markerSeen then s.members[u].generation <= generation else s.members[u].generation < generation)
         && s.members[u].wrapEpoch == batch[u].epoch && EpochCurrent(s, batch[u])
  }

  /** The transaction's conditions. A transaction may not touch one item twice, hence two different users. */
  predicate Commits(s: Group, step: Step) {
    match step
    case CompleteInvite(inviter, invitee, generation, seenSeq) =>
      && invitee.user !in s.members && s.meta.Some? && (seenSeq.Some? ==> s.meta.value.joinSeq == seenSeq.value)
      && MayWrap(s, inviter, generation) && EpochCurrent(s, invitee)
    case RemoveMember(remover, under, subject, subjectRole, demotion, start, current) =>
      && (subjectRole != Member <==> demotion.Some?) && remover != subject
      && AdminUnder(s, remover, under) && HasRole(s, subject, subjectRole)
      && (demotion.Some? ==> demotion.value !in s.grants)
      && (start.Some? ==> start.value.user == remover && s.marker.None? && MayMint(s, start.value, current))
    case LeaveGroup(leaver, role, demotion, under, successor, from) =>
      && HasRole(s, leaver, role) && (role != Member <==> demotion.Some?)
      && (demotion.Some? ==> demotion.value !in s.grants && OnGrant(s, leaver, under))
      && (role == Admin ==> successor != leaver && IsAdmin(s, successor) && Live(s, successor))
      && (from.Some? ==> s.members[leaver].generation == from.value && s.marker.None?)
    case DeleteGroup(last) => last in s.members && s.meta.Some?
    case SweepGroup(_, _, _, _) => s.meta.None?
    case TakeOver(starter, leaver, current) =>
      s.marker.Some? && s.marker.value.generation == current + 1
      && s.marker.value.startedBy == leaver && s.marker.value.removed == Some(leaver) && MayMint(s, starter, current)
    case SelfRekey(starter, current) =>
      s.marker.None? && MayMint(s, starter, current) && HandoffFits(s, starter, current)
    case ApproveRekey(starter, member, current) =>
      && starter.user != member.user && s.marker.None? && MayMint(s, starter, current)
      && WasReplaced(s, member) && s.members[member.user].generation == current
    case ApproveRewrap(approver, member, generation, markerSeen, open) =>
      && approver != member.user && MarkerAsSeen(s, generation, markerSeen)
      && MayWrap(s, approver, generation) && WasReplaced(s, member)
      && (s.members[member.user].generation < generation || (open && s.members[member.user].generation == generation))
    case SelfWrap(self, generation) =>
      && self.user in s.members && s.members[self.user].generation == generation
      && EpochCurrent(s, self) && HandoffFits(s, self, generation)
    case RewrapMembers(caller, generation, markerSeen, batch) =>
      MarkerAsSeen(s, generation, markerSeen) && Holds(s, caller, Admin, generation)
      && BatchFits(s, caller, generation, markerSeen, batch)
    case CompleteRotation(caller, generation, _) => Holds(s, caller, Admin, generation) && MarkerAt(s, generation)
    case ConvertToOpen(admin, generation) => Holds(s, admin, Admin, generation) && s.marker.None? && IsRotating(s)
    case ChangeRole(grantor, under, subject, oldRole, newRole, key) =>
      && grantor != subject && AdminUnder(s, grantor, under) && HasRole(s, subject, oldRole) && key !in s.grants
      && (newRole != Member ==> Live(s, subject))
    case Claim(admin, under, successor, oldRole, key) =>
      && admin != successor && AdminUnder(s, admin, under) && HasRole(s, successor, oldRole)
      && key !in s.grants && Live(s, successor)
    case Register(user, _, _) => user !in s.users
    case OnAccount(user, step) =>
      AccountCommits(s, user, step)
  }

  // ----- the effects they share -----

  /** An entry point rewritten: this generation's key, wrapped to r. */
  function Rewrapped(s: Group, r: Recipient, generation: nat): Group
    requires r.user in s.members
  {
    s.(members := s.members[r.user :=
         s.members[r.user].(generation := generation, wrappedTo := r.key, wrapEpoch := r.epoch)],
       wraps := s.wraps + {Wrap(r.user, r.key, generation)})
  }

  /** A rotation start: marker, link and the starter's own entry, in one transaction. */
  function Minted(s: Group, starter: Recipient, current: nat, removed: Option<UserId>): Group
    requires starter.user in s.members
  {
    Rewrapped(s, starter, current + 1).(
      marker := Some(Marker(current + 1, starter.user, removed, true)),
      links := s.links[current := Link(current, current + 1, starter.user, removed)])
  }

  function HandoffConsumed(s: Group, u: UserId): Group
    requires u in s.users
  {
    s.(users := s.users[u := Accounts.Apply(s.users[u], ConsumeHandoff(s.id))])
  }

  function Granted(s: Group, key: GrantKey, grant: Grant): Group {
    s.(grants := s.grants[key := grant], grantLog := s.grantLog + [key])
  }

  function WithRole(s: Group, u: UserId, role: Role, key: GrantKey): Group
    requires u in s.members
  {
    s.(members := s.members[u := s.members[u].(role := role, grant := Some(key))])
  }

  function Without(s: Group, u: UserId): Group { s.(members := s.members - {u}) }

  /** A batch moves entries to the generation; WrapEpoch already equals the epoch wrapped to. */
  function BatchRewrapped(s: Group, generation: nat, batch: map<UserId, Recipient>): Group
    requires batch.Keys <= s.members.Keys
  {
    s.(members := map u | u in s.members ::
         if u in batch then s.members[u].(generation := generation, wrappedTo := batch[u].key) else s.members[u],
       wraps := s.wraps + set u | u in batch :: Wrap(u, batch[u].key, generation))
  }

  function Joined(s: Group, invitee: Recipient, generation: nat, seenSeq: Option<nat>): Group
    requires s.meta.Some?
  {
    s.(members := s.members[invitee.user := Entry(Member, generation, invitee.key, invitee.epoch, None, |s.joined|)],
       wraps := s.wraps + {Wrap(invitee.user, invitee.key, generation)},
       joined := s.joined + [invitee.user],
       meta := if seenSeq.Some? then Some(s.meta.value.(joinSeq := seenSeq.value + 1)) else s.meta)
  }

  function Demoted(s: Group, subject: UserId, demotion: Option<GrantKey>, signer: UserId, under: GrantRef): Group {
    if demotion.Some? then Granted(s, demotion.value, Grant(subject, Member, signer, Some(under.key))) else s
  }

  function Removed(s: Group, remover: UserId, under: GrantRef, subject: UserId, demotion: Option<GrantKey>,
                   start: Option<Recipient>, current: nat): Group
    requires start.Some? ==> start.value.user == remover && remover in s.members && remover in s.users
  {
    var granted := Demoted(s, subject, demotion, remover, under);
    Without(if start.Some? then HandoffConsumed(Minted(granted, start.value, current, Some(subject)), remover) else granted, subject)
  }

  function Left(s: Group, leaver: UserId, demotion: Option<GrantKey>, under: GrantRef, from: Option<nat>): Group {
    Without(Demoted(s, leaver, demotion, leaver, under), leaver).(
      marker := if from.Some? then Some(Marker(from.value + 1, leaver, Some(leaver), false)) else s.marker)
  }

  /** The rows after a transaction whose conditions hold. */
  function Effect(s: Group, step: Step): Group
    requires Commits(s, step)
  {
    match step
    case CompleteInvite(_, invitee, generation, seenSeq) =>
      Joined(s, invitee, generation, seenSeq)
    case RemoveMember(remover, under, subject, _, demotion, start, current) =>
      Removed(s, remover, under, subject, demotion, start, current)
    case LeaveGroup(leaver, _, demotion, under, _, from) =>
      Left(s, leaver, demotion, under, from)
    case DeleteGroup(last) => Without(s, last).(meta := None)
    case SweepGroup(lostMembers, lostLinks, lostGrants, lostMarker) =>
      s.(members := s.members - lostMembers, links := s.links - lostLinks, grants := s.grants - lostGrants,
         marker := if lostMarker then None else s.marker)
    case TakeOver(starter, leaver, current) => HandoffConsumed(Minted(s, starter, current, Some(leaver)), starter.user)
    case SelfRekey(starter, current) => HandoffConsumed(Minted(s, starter, current, None), starter.user)
    case ApproveRekey(starter, member, current) => Rewrapped(Minted(s, starter, current, None), member, current + 1)
    case ApproveRewrap(_, member, generation, _, _) => Rewrapped(s, member, generation)
    case SelfWrap(self, generation) => HandoffConsumed(Rewrapped(s, self, generation), self.user)
    case RewrapMembers(_, generation, _, batch) => BatchRewrapped(s, generation, batch)
    case CompleteRotation(_, _, _) => s.(marker := None)
    case ConvertToOpen(_, _) => s.(meta := Some(s.meta.value.(mode := Open(true))))
    case ChangeRole(grantor, under, subject, _, newRole, key) =>
      Granted(WithRole(s, subject, newRole, key), key, Grant(subject, newRole, grantor, Some(under.key)))
    case Claim(admin, under, successor, _, key) =>
      Granted(WithRole(s, successor, Admin, key), key, Grant(successor, Admin, admin, Some(under.key)))
    case Register(user, signing, wrapping) => s.(users := s.users[user := NewAccount(signing, wrapping)])
    case OnAccount(user, step) => s.(users := s.users[user := Accounts.Apply(s.users[user], step)])
  }

  /** A transaction: all of its effect, or nothing. */
  function Next(s: Group, step: Step): Group {
    if Commits(s, step) then Effect(s, step) else s
  }

  function Run(s: Group, steps: seq<Step>): Group
    decreases |steps|
  {
    if steps == [] then s else Run(Next(s, steps[0]), steps[1..])
  }

  // ----- what requests are taken to be -----

  /** The wraps a step's client made. */
  function Recipients(step: Step): set<Recipient> {
    match step
    case CompleteInvite(_, invitee, _, _) => {invitee}
    case RemoveMember(_, _, _, _, _, start, _) => if start.Some? then {start.value} else {}
    case TakeOver(starter, _, _) => {starter}
    case SelfRekey(starter, _) => {starter}
    case ApproveRekey(starter, member, _) => {starter, member}
    case ApproveRewrap(_, member, _, _, _) => {member}
    case SelfWrap(self, _) => {self}
    case RewrapMembers(_, _, _, batch) => batch.Values
    case _ => {}
  }

  function CurrentRecipient(s: Group, u: UserId): Recipient
    requires u in s.users
  {
    Recipient(u, s.users[u].profile.wrappingKey, s.users[u].profile.keyEpoch)
  }

  /** r pairs a key and an epoch that were served together, now or at any earlier time. */
  ghost predicate Observed(s: Group, r: Recipient) {
    && r.user in s.users && r.epoch <= s.users[r.user].profile.keyEpoch
    && r.key == WrappingKeyAt(s.users[r.user], r.epoch)
  }

  /**
   * Requests as the handlers pass them on. Keys were read together with their
   * epochs; Open turned on is never turned off, so a handler that read Open
   * still finds it, and one that read Rotating sends what Rotating needs. A
   * rotation start or a leave's marker is sent only by a handler that did.
   */
  ghost predicate Honest(s: Group, step: Step) {
    && (forall r :: r in Recipients(step) ==> Observed(s, r))
    && match step
       case CompleteInvite(_, _, _, seenSeq) => IsRotating(s) ==> seenSeq.Some?
       case RemoveMember(_, _, _, _, _, start, _) => (IsRotating(s) ==> start.Some?) && (start.Some? ==> OnceRotating(s))
       case LeaveGroup(_, _, _, _, _, from) => (IsRotating(s) ==> from.Some?) && (from.Some? ==> OnceRotating(s))
       case SelfRekey(_, _) => OnceRotating(s)
       case ApproveRekey(_, _, _) => OnceRotating(s)
       case ApproveRewrap(_, _, _, _, open) => open ==> !IsRotating(s)
       case SelfWrap(_, _) => !IsRotating(s)
       case OnAccount(user, step) => user in s.users ==> Accounts.Honest(s.users[user], step)
       case _ => true
  }

  ghost predicate HonestRun(s: Group, steps: seq<Step>)
    decreases |steps|
  {
    steps != [] ==> Honest(s, steps[0]) && HonestRun(Next(s, steps[0]), steps[1..])
  }

  /** CreateGroup's three rows. */
  function CreateGroup(id: GroupId, mode: Mode, creator: Recipient, root: GrantKey, users: map<UserId, Account>): Group {
    Group(id, Some(Meta(mode, 0)), None, map[],
          map[creator.user := Entry(Admin, 0, creator.key, creator.epoch, Some(root), 0)],
          map[root := Grant(creator.user, Admin, creator.user, None)],
          users, {Wrap(creator.user, creator.key, 0)}, [creator.user], [root])
  }
}
