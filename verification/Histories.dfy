/**
 * Runs that honest clients can bring about from any group with a live admin at
 * its current generation: a join, everyone's keys rotated, a rotation start.
 */
module Histories {
  import opened Wrappers
  import opened KeyRenewals
  import opened Groups
  import opened GroupInvariants
  import opened MarkerLife
  import opened Completion

  // ----- fresh names -----

  lemma {:induction false} Bound(xs: set<nat>) returns (b: nat)
    ensures forall x :: x in xs ==> x < b
    decreases |xs|
  {
    if xs == {} {
      b := 0;
    } else {
      var x :| x in xs;
      var rest := Bound(xs - {x});
      b := if rest <= x then x + 1 else rest;
      forall y | y in xs ensures y < b {
        assert y == x || y in xs - {x};
      }
    }
  }

  // ----- one account rotates its keys -----

  /** A rotation of the account's keys that reads the account as it is, after its cooldown. */
  function Renewal(a: Account): Accounts.AccountStep {
    RenewalAt(a, 0, Accounts.DAY, if a.cooldown.Some? then a.cooldown.value else 0)
  }

  function Renewed(a: Account): Account { Accounts.Apply(a, Renewal(a)) }

  lemma RenewalIsHonest(a: Account)
    requires Accounts.HistoryInv(a)
    ensures Accounts.Honest(a, Renewal(a))
    ensures Accounts.Commits(a, Renewal(a)) <==> !a.profile.deleted
    ensures a.profile.deleted ==> Renewed(a) == a
    ensures !a.profile.deleted ==>
              && !Renewed(a).profile.deleted && Renewed(a).profile.keyEpoch == a.profile.keyEpoch + 1
              && Renewed(a).profile.wrappingKey == a.profile.wrappingKey + 1
    ensures Renewed(a).handoffs == a.handoffs
  {
    RenewalIsHonestAt(a, 0, Accounts.DAY, if a.cooldown.Some? then a.cooldown.value else 0);
  }

  // ----- everyone's keys rotated -----

  predicate NoLeaves(steps: seq<Step>) { forall i :: 0 <= i < |steps| ==> !steps[i].LeaveGroup? }

  lemma {:induction false} NoLeavesReopensNothing(s: Group, steps: seq<Step>, generation: nat)
    requires NoLeaves(steps)
    ensures !ReopensIn(s, steps, generation)
    decreases |steps|
  {
    if steps != [] { NoLeavesReopensNothing(Next(s, steps[0]), steps[1..], generation); }
  }

  /** steps are honest requests, none of them a leave, that take s to t. */
  ghost predicate Leads(s: Group, steps: seq<Step>, t: Group) { HonestRun(s, steps) && NoLeaves(steps) && Run(s, steps) == t }

  lemma LeadsNowhere(s: Group)
    ensures Leads(s, [], s)
  {
  }

  lemma LeadsByOne(s: Group, step: Step)
    requires Honest(s, step) && !step.LeaveGroup?
    ensures Leads(s, [step], Next(s, step))
  {
    RunOne(s, step);
  }

  lemma LeadsOn(s: Group, first: seq<Step>, t: Group, second: seq<Step>, v: Group)
    requires Leads(s, first, t) && Leads(t, second, v)
    ensures Leads(s, first + second, v)
  {
    RunAppend(s, first, second);
  }

  function Renewals(users: map<UserId, Account>, who: set<UserId>): map<UserId, Account> {
    map u | u in users :: if u in who then Renewed(users[u]) else users[u]
  }

  lemma RenewOne(s: Group, u: UserId)
    requires u in s.users && Accounts.HistoryInv(s.users[u])
    ensures Leads(s, [OnAccount(u, Renewal(s.users[u]))], s.(users := s.users[u := Renewed(s.users[u])]))
  {
    var step := OnAccount(u, Renewal(s.users[u]));
    RenewalIsHonest(s.users[u]);
    LeadsByOne(s, step);
    if s.users[u].profile.deleted { assert s.users[u := s.users[u]] == s.users; }
  }

  lemma RenewalsGrow(users: map<UserId, Account>, who: set<UserId>, u: UserId)
    requires u in who && u in users
    ensures Renewals(users, who - {u})[u := Renewed(users[u])] == Renewals(users, who)
    ensures Renewals(users, who - {u})[u] == users[u]
  {
  }

  /** The users' keys rotated, one after another. */
  lemma {:induction false} RenewAll(s: Group, who: set<UserId>) returns (steps: seq<Step>)
    requires AccountsOk(s.users) && who <= s.users.Keys
    ensures Leads(s, steps, s.(users := Renewals(s.users, who)))
    decreases |who|
  {
    if who == {} {
      steps := [];
      assert Renewals(s.users, who) == s.users;
      LeadsNowhere(s);
    } else {
      var u :| u in who;
      var t := s.(users := Renewals(s.users, who - {u}));
      var first := RenewAll(s, who - {u});
      RenewalsGrow(s.users, who, u);
      var step := RenewLast(t, u, s.users[u]);
      LeadsOn(s, first, t, [step], s.(users := Renewals(s.users, who)));
      steps := first + [step];
    }
  }

  lemma RenewLast(t: Group, u: UserId, a: Account) returns (step: Step)
    requires u in t.users && t.users[u] == a && Accounts.HistoryInv(a)
    ensures Leads(t, [step], t.(users := t.users[u := Renewed(a)]))
  {
    RenewOne(t, u);
    step := OnAccount(u, Renewal(a));
  }

  // ----- a group whose admin can rotate -----

  /** A deleted account whose entry is not dormant: nobody can wrap to it, and every completion waits for it. */
  predicate NobodyStuck(s: Group) { forall u :: u in s.members && !Live(s, u) ==> Dormant(s, u) }

  predicate Able(s: Group, a: UserId) {
    && OnceRotating(s) && NobodyStuck(s) && Holds(s, a, Admin, Cur(s)) && Live(s, a)
    && (s.marker.Some? ==> MarkerAt(s, Cur(s)))
  }

  /** Only a deleted account could stand in an admin's way, and none does. */
  ghost predicate Ready(s: Group, a: UserId) { Consistent(s) && Able(s, a) }

  // ----- a handoff, and then everyone's keys rotated -----

  function HandedOff(a: Account, g: GroupId, generation: nat): Account {
    Accounts.Bumped(Accounts.Bumped(a)).(handoffs := a.handoffs[g := Accounts.Handoff(a.profile.wrappingKey + 1, generation)])
  }

  lemma HandOffOnAccount(a: Account, g: GroupId, generation: nat, put: Accounts.AccountStep)
    requires !a.profile.deleted
    requires put == Accounts.PutHandoff(g, Accounts.Handoff(a.profile.wrappingKey + 1, generation), a.profile.wrappingKey, true)
    ensures Accounts.Commits(a, Accounts.DeleteHandoff(g)) && Accounts.Commits(Accounts.Apply(a, Accounts.DeleteHandoff(g)), put)
    ensures Accounts.Apply(Accounts.Apply(a, Accounts.DeleteHandoff(g)), put) == HandedOff(a, g, generation)
  {
    assert (a.handoffs - {g})[g := put.row] == a.handoffs[g := put.row];
  }

  lemma AccountLeads(s: Group, u: UserId, step: Accounts.AccountStep)
    requires u in s.users && Accounts.Honest(s.users[u], step) && AccountCommits(s, u, step)
    ensures Leads(s, [OnAccount(u, step)], s.(users := s.users[u := Accounts.Apply(s.users[u], step)]))
  {
    LeadsByOne(s, OnAccount(u, step));
  }

  /** What the client does before it rotates: drop a row there may be, and put one for the next key. */
  lemma HandOff(s: Group, u: UserId) returns (steps: seq<Step>)
    requires u in s.members && Live(s, u) && (IsOpen(s) || IsAdmin(s, u))
    ensures Leads(s, steps, s.(users := s.users[u := HandedOff(s.users[u], s.id, s.members[u].generation)]))
  {
    var a, generation := s.users[u], s.members[u].generation;
    var drop := Accounts.DeleteHandoff(s.id);
    var put := Accounts.PutHandoff(s.id, Accounts.Handoff(a.profile.wrappingKey + 1, generation), a.profile.wrappingKey, true);
    HandOffOnAccount(a, s.id, generation, put);
    var b := Accounts.Apply(a, drop);
    var t := s.(users := s.users[u := b]);
    AccountLeads(s, u, drop);
    AccountLeads(t, u, put);
    steps := [OnAccount(u, drop)] + [OnAccount(u, put)];
    LeadsOn(s, [OnAccount(u, drop)], t, [OnAccount(u, put)], t.(users := t.users[u := Accounts.Apply(b, put)]));
    assert t.users[u := Accounts.Apply(b, put)] == s.users[u := Accounts.Apply(b, put)];
  }

  /** All members dormant, and u holding a handoff row for their key: where rotating everyone's keys leads. */
  ghost predicate Asleep(s: Group, t: Group, u: UserId) {
    && t == s.(users := t.users)
    && (forall v :: v in s.members ==> v in s.users && v in t.users && Dormant(t, v) && (Live(t, v) <==> Live(s, v)))
    && u in t.users && u in s.members && HandoffFits(t, CurrentRecipient(t, u), s.members[u].generation)
  }

  lemma FallAsleep(s: Group, u: UserId) returns (steps: seq<Step>, t: Group)
    requires Consistent(s) && NobodyStuck(s) && u in s.members && Live(s, u) && (IsOpen(s) || IsAdmin(s, u))
    ensures Leads(s, steps, t) && Consistent(t) && Asleep(s, t, u)
  {
    forall v | v in s.members ensures v in s.users && s.members[v].wrapEpoch <= s.users[v].profile.keyEpoch {
      assert EntryOk(s, v);
    }
    var first := HandOff(s, u);
    var v := s.(users := s.users[u := HandedOff(s.users[u], s.id, s.members[u].generation)]);
    RunKeepsConsistent(s, first);
    var second := RenewAll(v, s.members.Keys);
    t := v.(users := Renewals(v.users, s.members.Keys));
    LeadsOn(s, first, v, second, t);
    steps := first + second;
    RunKeepsConsistent(s, steps);
    RenewedAreAsleep(s, v, t, u);
  }

  lemma RenewedIsAsleep(s: Group, v: Group, t: Group, w: UserId)
    requires w in s.members && w in v.users && Accounts.HistoryInv(v.users[w])
    requires t.members == s.members && w in t.users && t.users[w] == Renewed(v.users[w])
    requires w in s.users && s.members[w].wrapEpoch <= s.users[w].profile.keyEpoch && (!Live(s, w) ==> Dormant(s, w))
    requires v.users[w].profile == s.users[w].profile
    ensures Dormant(t, w) && (Live(t, w) <==> Live(s, w))
  {
    RenewalIsHonest(v.users[w]);
  }

  lemma RenewedAreAsleep(s: Group, v: Group, t: Group, u: UserId)
    requires AccountsOk(v.users) && NobodyStuck(s) && u in s.members && Live(s, u)
    requires forall w :: w in s.members ==> w in s.users && s.members[w].wrapEpoch <= s.users[w].profile.keyEpoch
    requires v == s.(users := s.users[u := HandedOff(s.users[u], s.id, s.members[u].generation)])
    requires t == v.(users := Renewals(v.users, s.members.Keys))
    ensures Asleep(s, t, u)
  {
    EveryoneIsAsleep(s, v, t);
    RenewedFits(v, t, u, s.members[u].generation);
  }

  lemma EveryoneIsAsleep(s: Group, v: Group, t: Group)
    requires AccountsOk(v.users) && NobodyStuck(s) && v.members == s.members && s.members.Keys <= v.users.Keys
    requires forall w :: w in s.members ==>
               w in s.users && s.members[w].wrapEpoch <= s.users[w].profile.keyEpoch && v.users[w].profile == s.users[w].profile
    requires t == v.(users := Renewals(v.users, s.members.Keys))
    ensures forall w :: w in s.members ==> w in s.users && w in t.users && Dormant(t, w) && (Live(t, w) <==> Live(s, w))
  {
    forall w | w in s.members
      ensures w in s.users && w in t.users && Dormant(t, w) && (Live(t, w) <==> Live(s, w))
    {
      RenewedIsAsleep(s, v, t, w);
    }
  }

  lemma RenewedFits(v: Group, t: Group, u: UserId, generation: nat)
    requires u in v.users && u in t.users && t.users[u] == Renewed(v.users[u]) && t.id == v.id
    requires Accounts.HistoryInv(v.users[u]) && !v.users[u].profile.deleted && v.id in v.users[u].handoffs
    requires v.users[u].handoffs[v.id] == Accounts.Handoff(v.users[u].profile.wrappingKey + 1, generation)
    ensures HandoffFits(t, CurrentRecipient(t, u), generation)
  {
    RenewalIsHonest(v.users[u]);
  }

  // ----- everyone dormant, no marker, and the admin able to re-key -----

  predicate CanRekey(s: Group, a: UserId) {
    Able(s, a) && s.marker.None? && HandoffFits(s, CurrentRecipient(s, a), Cur(s))
  }

  ghost predicate Primed(s: Group, a: UserId) { Consistent(s) && CanRekey(s, a) }

  ghost predicate AllDormant(s: Group) { forall u :: u in s.members ==> Dormant(s, u) }

  lemma AsleepIsPrimed(s: Group, v: Group, a: UserId)
    requires Able(s, a) && Asleep(s, v, a)
    ensures CanRekey(v.(marker := None), a) && AllDormant(v) && Holds(v, a, Admin, Cur(v)) && Cur(v) == Cur(s)
  {
    assert v.links == s.links && v.members == s.members;
  }

  lemma Complete(s: Group, a: UserId) returns (steps: seq<Step>)
    requires Holds(s, a, Admin, Cur(s)) && (s.marker.Some? ==> MarkerAt(s, Cur(s)))
    ensures Leads(s, steps, s.(marker := None))
  {
    if s.marker.Some? {
      var done := CompleteRotation(a, Cur(s), |s.joined|);
      LeadsByOne(s, done);
      steps := [done];
    } else {
      LeadsNowhere(s);
      steps := [];
      assert s.(marker := None) == s;
    }
  }

  /** The rotation that may be running is completed last: with everyone dormant its scan passes too. */
  lemma Prepare(s: Group, a: UserId) returns (steps: seq<Step>, t: Group)
    requires Ready(s, a)
    ensures Leads(s, steps, t) && Primed(t, a) && AllDormant(t)
    ensures t == s.(users := t.users, marker := None)
    ensures forall u :: u in s.members ==> (Live(t, u) <==> Live(s, u))
  {
    var first, v := FallAsleep(s, a);
    AsleepIsPrimed(s, v, a);
    var second := Complete(v, a);
    t := v.(marker := None);
    LeadsOn(s, first, v, second, t);
    steps := first + second;
    RunKeepsConsistent(v, second);
  }

  function Invited(s: Group, w: UserId, generation: nat): Group
    requires s.meta.Some?
  {
    s.(users := s.users[w := Accounts.NewAccount(0, 0)],
       members := s.members[w := Entry(Member, generation, 0, 0, None, |s.joined|)],
       wraps := s.wraps + {Wrap(w, 0, generation)}, joined := s.joined + [w],
       meta := Some(s.meta.value.(joinSeq := s.meta.value.joinSeq + 1)))
  }

  lemma JoinLeads(r: Group, v: UserId, w: UserId, generation: nat)
    requires r.meta.Some? && MayWrap(r, v, generation) && w !in r.members
    requires w in r.users && r.users[w] == Accounts.NewAccount(0, 0)
    ensures var join := CompleteInvite(v, Recipient(w, 0, 0), generation, Some(r.meta.value.joinSeq));
            Honest(r, join) && Next(r, join) == Invited(r, w, generation).(users := r.users)
  {
  }

  lemma Newcomer(s: Group) returns (w: UserId)
    requires EntriesOk(s)
    ensures w !in s.users && w !in s.members
  {
    forall u | u in s.members ensures u in s.users { assert EntryOk(s, u); }
    w := Bound(s.users.Keys);
  }

  /** Whoever may wrap invites somebody new, at their own generation. */
  lemma Invite(s: Group, v: UserId) returns (w: UserId, steps: seq<Step>, t: Group)
    requires Consistent(s) && s.meta.Some? && v in s.members && s.members[v].role != Member
    ensures w !in s.users && w !in s.members && t == Invited(s, w, s.members[v].generation)
    ensures Leads(s, steps, t) && Consistent(t)
    ensures |steps| == 2 && steps[0].Register? && steps[1].CompleteInvite?
  {
    w := Newcomer(s);
    var generation := s.members[v].generation;
    steps := InviteAs(s, v, w, generation);
    t := Invited(s, w, generation);
    RunKeepsConsistent(s, steps);
  }

  lemma InviteAs(s: Group, v: UserId, w: UserId, generation: nat) returns (steps: seq<Step>)
    requires s.meta.Some? && MayWrap(s, v, generation) && w !in s.users && w !in s.members
    ensures Leads(s, steps, Invited(s, w, generation))
    ensures |steps| == 2 && steps[0].Register? && steps[1].CompleteInvite?
  {
    var register := Register(w, 0, 0);
    var r := s.(users := s.users[w := Accounts.NewAccount(0, 0)]);
    LeadsByOne(s, register);
    JoinLeads(r, v, w, generation);
    var join := CompleteInvite(v, Recipient(w, 0, 0), generation, Some(s.meta.value.joinSeq));
    LeadsByOne(r, join);
    steps := [register] + [join];
    LeadsOn(s, [register], r, [join], Invited(s, w, generation));
  }

  lemma InviteKeepsNobodyStuck(s: Group, w: UserId, generation: nat)
    requires s.meta.Some? && NobodyStuck(s) && w !in s.users && w !in s.members
    ensures NobodyStuck(Invited(s, w, generation))
  {
    var t := Invited(s, w, generation);
    forall u | u in t.members && !Live(t, u) ensures Dormant(t, u) {
      assert u in s.members && !Live(s, u);
    }
  }

  lemma InviteKeepsAble(s: Group, a: UserId, w: UserId, generation: nat)
    requires Able(s, a) && w !in s.users && w !in s.members
    ensures Able(Invited(s, w, generation), a) && (CanRekey(s, a) ==> CanRekey(Invited(s, w, generation), a))
  {
    InviteKeepsNobodyStuck(s, w, generation);
  }

  function Rekeyed(s: Group, a: UserId): Group
    requires a in s.members && a in s.users
  {
    HandoffConsumed(Minted(s, CurrentRecipient(s, a), Cur(s), None), a)
  }

  lemma RekeyedIs(s: Group, a: UserId)
    requires a in s.members && a in s.users && Cur(s) !in s.links
    ensures var t := Rekeyed(s, a); var r := CurrentRecipient(s, a);
            && t.members == s.members[a := s.members[a].(generation := Cur(s) + 1, wrappedTo := r.key, wrapEpoch := r.epoch)]
            && Cur(t) == Cur(s) + 1 && t.marker == Some(Marker(Cur(s) + 1, a, None, true))
            && t.meta == s.meta && t.joined == s.joined && t.grants == s.grants && t.id == s.id
            && t.users.Keys == s.users.Keys
            && (forall u :: u in s.users && u != a ==> t.users[u] == s.users[u])
            && t.users[a].profile == s.users[a].profile
  {
  }

  lemma RekeyKeepsAble(s: Group, a: UserId)
    requires Able(s, a) && Cur(s) !in s.links
    ensures Able(Rekeyed(s, a), a)
  {
    var t := Rekeyed(s, a);
    RekeyedIs(s, a);
    forall u | u in t.members && !Live(t, u) ensures Dormant(t, u) {
      assert u in s.members && !Live(s, u);
    }
  }

  /** The admin starts a rotation from their handoff row. */
  lemma Rekey(s: Group, a: UserId) returns (steps: seq<Step>, t: Group)
    requires Primed(s, a)
    ensures t == Rekeyed(s, a) && Leads(s, steps, t) && Ready(t, a) && Cur(t) == Cur(s) + 1 && MarkerAt(t, Cur(t))
    ensures Cur(s) !in s.links
  {
    CurrentRecipientIsObserved(s, a);
    assert Cur(s) !in s.links;
    RekeyLeads(s, a);
    steps, t := [SelfRekey(CurrentRecipient(s, a), Cur(s))], Rekeyed(s, a);
    RunKeepsConsistent(s, steps);
    RekeyedIs(s, a);
    RekeyKeepsAble(s, a);
  }

  lemma RekeyLeads(s: Group, a: UserId)
    requires CanRekey(s, a) && Cur(s) !in s.links && Observed(s, CurrentRecipient(s, a))
    ensures Leads(s, [SelfRekey(CurrentRecipient(s, a), Cur(s))], Rekeyed(s, a))
  {
    RekeyCommits(s, a);
    LeadsByOne(s, SelfRekey(CurrentRecipient(s, a), Cur(s)));
  }

  lemma RekeyCommits(s: Group, a: UserId)
    requires CanRekey(s, a) && Cur(s) !in s.links
    ensures Commits(s, SelfRekey(CurrentRecipient(s, a), Cur(s)))
    ensures Next(s, SelfRekey(CurrentRecipient(s, a), Cur(s))) == Rekeyed(s, a)
  {
  }

  /** One rotation later, with somebody new a generation behind. */
  lemma LeaveOneBehind(s: Group, a: UserId) returns (steps: seq<Step>, t: Group, w: UserId)
    requires Ready(s, a)
    ensures Leads(s, steps, t) && Ready(t, a) && Cur(t) == Cur(s) + 1 && MarkerAt(t, Cur(t)) && LeftBehind(t, a, w)
    ensures IsRotating(s) ==> IsRotating(t)
  {
    var first, p := Prepare(s, a);
    var second, last, x := InviteAndRekey(p, a);
    LeadsOn(s, first, p, second, last);
    steps, t, w := first + second, last, x;
  }

  /** w is a live plain member one generation behind, and nobody but a is past them. */
  predicate LeftBehind(s: Group, a: UserId, w: UserId) {
    && w in s.members && s.members[w].generation + 1 == Cur(s) && Live(s, w) && !Dormant(s, w) && s.members[w].role == Member
    && w != a && forall u :: u in s.members && u != a ==> s.members[u].generation <= s.members[w].generation
  }

  lemma InviteAndRekey(s: Group, a: UserId) returns (steps: seq<Step>, t: Group, w: UserId)
    requires Primed(s, a)
    ensures Leads(s, steps, t) && Ready(t, a) && Cur(t) == Cur(s) + 1 && MarkerAt(t, Cur(t)) && LeftBehind(t, a, w)
    ensures IsRotating(s) ==> IsRotating(t)
  {
    var x, invite, q := Invite(s, a);
    w := x;
    InviteKeepsAble(s, a, w, Cur(s));
    assert forall u :: u in q.members ==> q.members[u].generation <= Cur(q);
    var start, last := Rekey(q, a);
    LeadsOn(s, invite, q, start, last);
    steps, t := invite + start, last;
    InvitedIsLeftBehind(q, a, w);
  }

  lemma InvitedIsLeftBehind(q: Group, a: UserId, w: UserId)
    requires a in q.members && a in q.users && Cur(q) !in q.links && w != a && Live(q, w)
    requires w in q.members && q.members[w].generation == Cur(q) && q.members[w].role == Member && !Dormant(q, w)
    requires forall u :: u in q.members ==> q.members[u].generation <= Cur(q)
    ensures LeftBehind(Rekeyed(q, a), a, w)
  {
    RekeyedIs(q, a);
  }

  // ----- the oldest case, and a grant -----

  /** What CreateGroup leaves of a Rotating group, by a creator with an account. */
  lemma CreationIsReady(id: GroupId, creator: Recipient, root: GrantKey, users: map<UserId, Account>)
    requires AccountsOk(users) && creator.user in users && !users[creator.user].profile.deleted
    requires creator.epoch <= users[creator.user].profile.keyEpoch
    requires creator.key == Accounts.WrappingKeyAt(users[creator.user], creator.epoch)
    ensures Ready(CreateGroup(id, Rotating, creator, root, users), creator.user)
  {
    CreationIsConsistent(id, Rotating, creator, root, users);
  }

  /** The grant somebody signs under, as their row records it. */
  function OwnGrant(s: Group, u: UserId): GrantRef
    requires u in s.members
  {
    if s.members[u].grant.Some? then GrantRef(s.members[u].grant.value, true) else GrantRef(0, false)
  }

  /** An admin gives a live plain member or ambassador another role. */
  lemma Promote(s: Group, a: UserId, x: UserId, role: Role) returns (steps: seq<Step>, t: Group)
    requires IsAdmin(s, a) && a != x && x in s.members && Live(s, x)
    ensures Leads(s, steps, t) && |steps| == 1 && steps[0].ChangeRole?
    ensures t == s.(members := t.members, grants := t.grants, grantLog := t.grantLog)
    ensures t.members.Keys == s.members.Keys
    ensures forall u :: u in s.members && u != x ==> t.members[u] == s.members[u]
    ensures t.members[x] == s.members[x].(role := role, grant := t.members[x].grant)
  {
    var key := Bound(s.grants.Keys);
    var step := ChangeRole(a, OwnGrant(s, a), x, s.members[x].role, role, key);
    LeadsByOne(s, step);
    steps, t := [step], Next(s, step);
  }

  // ----- an admin where somebody is -----

  /** t is s with more members, live ones, or higher roles. */
  predicate Hosts(s: Group, t: Group) {
    && s.meta.Some? && t.meta.Some? && t.meta.value.mode == s.meta.value.mode && t.marker == s.marker && t.links == s.links
    && (forall u :: u in s.members ==> Hosted(s, t, u))
    && (forall u :: u in t.members && u !in s.members ==> Live(t, u))
  }

  predicate Hosted(s: Group, t: Group, u: UserId)
    requires u in s.members
  {
    && u in t.members && t.members[u].generation == s.members[u].generation && t.members[u].wrapEpoch == s.members[u].wrapEpoch
    && (s.members[u].role != Member ==> t.members[u].role != Member) && (IsAdmin(s, u) ==> IsAdmin(t, u))
    && (u in s.users ==> u in t.users && t.users[u] == s.users[u])
  }

  predicate Quiet(steps: seq<Step>) { forall i :: 0 <= i < |steps| ==> !steps[i].CompleteRotation? }

  /** A live member is made an admin, unless they are one. */
  lemma MakeAdmin(s: Group, x: UserId, v: UserId) returns (steps: seq<Step>, t: Group)
    requires s.meta.Some? && IsAdmin(s, x) && v in s.members && Live(s, v)
    ensures Leads(s, steps, t) && Quiet(steps) && Hosts(s, t) && IsAdmin(t, v) && Live(t, v)
  {
    if IsAdmin(s, v) {
      steps, t := [], s;
      LeadsNowhere(s);
    } else {
      steps, t := Promote(s, x, v, Admin);
    }
  }

  /** Somebody who is not gone: a live one is made an admin; an ambassador or admin invites a live one first. */
  lemma FindAdmin(s: Group, x: UserId, v: UserId) returns (steps: seq<Step>, t: Group, w: UserId)
    requires EntriesOk(s) && s.meta.Some? && IsAdmin(s, x) && v in s.members && !Gone(s, v)
    ensures Leads(s, steps, t) && Quiet(steps) && Hosts(s, t)
    ensures Holds(t, w, Admin, s.members[v].generation) && Live(t, w) && (w == v || w !in s.members)
  {
    assert EntryOk(s, v);
    if Live(s, v) {
      steps, t := MakeAdmin(s, x, v);
      w := v;
    } else {
      w := Newcomer(s);
      steps, t := InviteAnAdmin(s, x, v, w);
    }
  }

  lemma InviteAnAdmin(s: Group, x: UserId, v: UserId, w: UserId) returns (steps: seq<Step>, t: Group)
    requires s.meta.Some? && w !in s.users && w !in s.members && IsAdmin(s, x) && v in s.members && s.members[v].role != Member
    ensures Leads(s, steps, t) && Quiet(steps) && Hosts(s, t) && Holds(t, w, Admin, s.members[v].generation) && Live(t, w)
  {
    var at := s.members[v].generation;
    var invite := InviteAs(s, v, w, at);
    var q := Invited(s, w, at);
    InvitedHosts(s, w, at);
    var rest, last := MakeAdmin(q, x, w);
    LeadsOn(s, invite, q, rest, last);
    steps, t := invite + rest, last;
    HostsIsTransitive(s, q, t);
  }

  lemma InvitedHosts(s: Group, w: UserId, at: nat)
    requires s.meta.Some? && w !in s.users && w !in s.members
    ensures Hosts(s, Invited(s, w, at))
  {
  }

  lemma HostsIsTransitive(s: Group, t: Group, v: Group)
    requires Hosts(s, t) && Hosts(t, v)
    ensures Hosts(s, v)
  {
    forall u | u in s.members ensures Hosted(s, v, u) {
      assert Hosted(s, t, u) && Hosted(t, v, u);
    }
    forall u | u in v.members && u !in s.members ensures Live(v, u) {
      if u in t.members { assert Hosted(t, v, u) && Live(t, u); }
    }
  }

  // ----- nobody stuck -----

  function StuckOnes(s: Group): set<UserId> { set u | u in s.members && !Live(s, u) && !Dormant(s, u) }

  /** In an Open group an admin removes somebody without a rotation. */
  lemma RemoveOne(s: Group, a: UserId, u: UserId) returns (steps: seq<Step>, t: Group)
    requires IsOpen(s) && IsAdmin(s, a) && u in s.members && u != a
    ensures Leads(s, steps, t)
    ensures t == s.(members := s.members - {u}, grants := t.grants, grantLog := t.grantLog)
  {
    var demotion := None;
    if s.members[u].role != Member {
      var key := Bound(s.grants.Keys);
      demotion := Some(key);
    }
    var step := RemoveMember(a, OwnGrant(s, a), u, s.members[u].role, demotion, None, 0);
    LeadsByOne(s, step);
    steps, t := [step], Next(s, step);
  }

  /** So one by one everybody who would block a completion. */
  lemma {:induction false} Unstick(s: Group, a: UserId) returns (steps: seq<Step>, t: Group)
    requires IsOpen(s) && IsAdmin(s, a) && Live(s, a)
    ensures Leads(s, steps, t) && NobodyStuck(t)
    ensures t == s.(members := s.members - StuckOnes(s), grants := t.grants, grantLog := t.grantLog)
    decreases |StuckOnes(s)|
  {
    if StuckOnes(s) == {} {
      steps, t := [], s;
      LeadsNowhere(s);
      assert s.members - {} == s.members;
      forall u | u in s.members && !Live(s, u) ensures Dormant(s, u) { assert u !in StuckOnes(s); }
    } else {
      var u :| u in StuckOnes(s);
      var first, v := RemoveOne(s, a, u);
      assert StuckOnes(v) == StuckOnes(s) - {u};
      var rest, last := Unstick(v, a);
      LeadsOn(s, first, v, rest, last);
      steps, t := first + rest, last;
      assert s.members - {u} - (StuckOnes(s) - {u}) == s.members - StuckOnes(s);
    }
  }
}
