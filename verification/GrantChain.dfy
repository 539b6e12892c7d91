/**
 * Roles rest on signed grants: each elevated member's row names a stored grant
 * of their role, every grant leads back to the root, and a group has an admin.
 */
module GrantChain {
  import opened Wrappers
  import opened Groups

  /** The grant a step appends: its key, and the key of the grant it was signed under. */
  function GrantOf(step: Step): Option<(GrantKey, Grant)> {
    match step
    case RemoveMember(remover, under, subject, _, demotion, _, _) =>
      if demotion.Some? then Some((demotion.value, Grant(subject, Member, remover, Some(under.key)))) else None
    case LeaveGroup(leaver, _, demotion, under, _, _) =>
      if demotion.Some? then Some((demotion.value, Grant(leaver, Member, leaver, Some(under.key)))) else None
    case ChangeRole(grantor, under, subject, _, newRole, key) => Some((key, Grant(subject, newRole, grantor, Some(under.key))))
    case Claim(admin, under, successor, _, key) => Some((key, Grant(successor, Admin, admin, Some(under.key))))
    case _ => None
  }

  /** The grant is new, and its signer was an admin on the grant it refers to, or demotes themselves. */
  lemma SignerHoldsTheirGrant(s: Group, step: Step)
    requires Commits(s, step) && GrantOf(step).Some?
    ensures var g := GrantOf(step).value.1;
            && GrantOf(step).value.0 !in s.grants && g.grantor in s.members
            && s.members[g.grantor].grant == (if step.under.stored then g.ref else None)
            && if step.LeaveGroup? then s.members[g.grantor].role != Member && SelfDemotion(g) else IsAdmin(s, g.grantor)
  {
  }

  lemma GrantAppended(s: Group, step: Step)
    requires Commits(s, step) && GrantOf(step).Some?
    ensures var t := Effect(s, step); var g := GrantOf(step).value;
            t.grants == s.grants[g.0 := g.1] && t.grantLog == s.grantLog + [g.0]
  {
  }

  lemma NoGrantAppended(s: Group, step: Step)
    requires Commits(s, step) && GrantOf(step).None? && !step.SweepGroup?
    ensures Effect(s, step).grants == s.grants && Effect(s, step).grantLog == s.grantLog
  {
  }

  predicate SameRole(s: Group, t: Group, u: UserId) {
    u in s.members && u in t.members && t.members[u].role == s.members[u].role && t.members[u].grant == s.members[u].grant
  }

  predicate HoldsGrant(t: Group, u: UserId, key: GrantKey, g: Grant) {
    u in t.members && g.subject == u && t.members[u].role == g.role && t.members[u].grant == Some(key)
  }

  predicate Baseline(t: Group, u: UserId) { u in t.members && t.members[u].role == Member && t.members[u].grant.None? }

  lemma RolesAfterGrant(s: Group, step: Step, u: UserId)
    requires Commits(s, step) && GrantOf(step).Some? && u in Effect(s, step).members
    ensures SameRole(s, Effect(s, step), u) || HoldsGrant(Effect(s, step), u, GrantOf(step).value.0, GrantOf(step).value.1)
  {
  }

  lemma RolesAfterOther(s: Group, step: Step, u: UserId)
    requires Commits(s, step) && GrantOf(step).None? && u in Effect(s, step).members
    ensures SameRole(s, Effect(s, step), u) || Baseline(Effect(s, step), u)
  {
  }

  /** A role changes only with the grant that gives it; a newcomer is a member without one. */
  ghost predicate RolesMove(s: Group, t: Group, step: Step) {
    var g := GrantOf(step);
    && (if g.Some? then t.grants == s.grants[g.value.0 := g.value.1] && t.grantLog == s.grantLog + [g.value.0]
        else t.grants == s.grants && t.grantLog == s.grantLog)
    && (forall u :: u in t.members ==>
          SameRole(s, t, u) || Baseline(t, u) || (g.Some? && HoldsGrant(t, u, g.value.0, g.value.1)))
  }

  lemma StepMovesRoles(s: Group, step: Step)
    requires Commits(s, step) && !step.SweepGroup?
    ensures RolesMove(s, Effect(s, step), step)
  {
    var t := Effect(s, step);
    if GrantOf(step).Some? { GrantAppended(s, step); } else { NoGrantAppended(s, step); }
    forall u | u in t.members
      ensures SameRole(s, t, u) || Baseline(t, u)
              || (GrantOf(step).Some? && HoldsGrant(t, u, GrantOf(step).value.0, GrantOf(step).value.1))
    {
      if GrantOf(step).Some? { RolesAfterGrant(s, step, u); } else { RolesAfterOther(s, step, u); }
    }
  }

  /** Whoever signs for somebody else, or lets an admin leave, stays an admin. */
  lemma SomeAdminStays(s: Group, step: Step, u: UserId)
    requires Commits(s, step) && Effect(s, step).meta.Some? && IsAdmin(s, u)
    ensures exists v :: IsAdmin(Effect(s, step), v)
  {
    var t := Effect(s, step);
    match step
    case RemoveMember(remover, _, _, _, _, _, _) => assert IsAdmin(t, remover);
    case LeaveGroup(_, role, _, _, successor, _) => assert IsAdmin(t, if role == Admin then successor else u);
    case ChangeRole(grantor, _, _, _, _, _) => assert IsAdmin(t, grantor);
    case Claim(admin, _, _, _, _) => assert IsAdmin(t, admin);
    case _ => assert IsAdmin(t, u);
  }

  /** An admin who leaves an admin behind leaves one whose account is live. */
  lemma ALiveAdminStays(s: Group, step: Step)
    requires Commits(s, step) && step.LeaveGroup? && IsAdmin(s, step.leaver)
    ensures exists v :: IsAdmin(Effect(s, step), v) && Live(Effect(s, step), v)
  {
    assert IsAdmin(Effect(s, step), step.successor) && Live(Effect(s, step), step.successor);
  }

  /** A demotion of u on a new key, by themselves or by an admin. */
  predicate DemotedBy(s: Group, t: Group, key: GrantKey, u: UserId) {
    && key !in s.grants && key in t.grants && t.grants[key].subject == u && t.grants[key].role == Member
    && (t.grants[key].grantor == u || IsAdmin(s, t.grants[key].grantor))
  }

  /**
   * Whoever goes while the group stays leaves by themselves or is removed by
   * an admin; an elevated role does not outlive it: its end is the newest
   * grant, and nobody else's going writes one.
   */
  lemma ElevatedRolesEndOnRecord(s: Group, step: Step, u: UserId)
    requires Commits(s, step) && u in s.members && u !in Effect(s, step).members && Effect(s, step).meta.Some?
    ensures (step.LeaveGroup? && step.leaver == u) || (step.RemoveMember? && step.remover != u && IsAdmin(s, step.remover))
    ensures var t := Effect(s, step);
            if s.members[u].role == Member then t.grantLog == s.grantLog
            else exists key :: t.grantLog == s.grantLog + [key] && DemotedBy(s, t, key, u)
  {
    if s.members[u].role != Member {
      var key := step.demotion.value;
      assert Effect(s, step).grantLog == s.grantLog + [key] && DemotedBy(s, Effect(s, step), key, u);
    }
  }

  /** A role changes only by another admin, from the role they saw, with a grant of the new one; an elevated one goes to a live account. */
  lemma RolesAreGranted(s: Group, step: Step, u: UserId)
    requires Commits(s, step) && u in s.members && u in Effect(s, step).members
    requires Effect(s, step).members[u].role != s.members[u].role
    ensures var t := Effect(s, step); var g := GrantOf(step);
            && (step.ChangeRole? || step.Claim?) && step.oldRole == s.members[u].role
            && g.Some? && g.value.1.subject == u && g.value.1.role == t.members[u].role && t.members[u].grant == Some(g.value.0)
            && g.value.1.grantor != u && IsAdmin(s, g.value.1.grantor) && (t.members[u].role != Member ==> Live(s, u))
  {
  }

  // ----- the invariant -----

  predicate MemberOnGrant(s: Group, u: UserId)
    requires u in s.members
  {
    var e := s.members[u];
    && (e.role != Member ==> e.grant.Some?)
    && (e.grant.Some? ==> e.grant.value in s.grants && s.grants[e.grant.value].subject == u && s.grants[e.grant.value].role == e.role)
  }

  predicate SelfDemotion(g: Grant) { g.grantor == g.subject && g.role == Member }

  /** r is a grant the grantor of g could sign g under. */
  predicate Authorizes(r: Grant, g: Grant) { r.subject == g.grantor && (r.role == Admin || SelfDemotion(g)) }

  /** The j-th grant ever written refers back to an earlier one, except the root. */
  predicate RefersBack(s: Group, j: nat)
    requires j < |s.grantLog|
  {
    && s.grantLog[j] in s.grants
    && var g := s.grants[s.grantLog[j]];
       if j == 0 then g.ref.None?
       else g.ref.Some? && g.ref.value in s.grantLog[..j] && g.ref.value in s.grants && Authorizes(s.grants[g.ref.value], g)
  }

  ghost predicate GrantsOk(s: Group) {
    && s.grantLog != []
    && (forall k :: k in s.grants ==> k in s.grantLog)
    && (forall j: nat :: j < |s.grantLog| ==> RefersBack(s, j))
    && (forall u :: u in s.members ==> MemberOnGrant(s, u))
    && (exists u :: IsAdmin(s, u))
  }

  ghost predicate Governed(s: Group) { s.meta.Some? ==> GrantsOk(s) }

  lemma NewGrantRefersBack(s: Group, t: Group, key: GrantKey, g: Grant)
    requires GrantsOk(s) && key !in s.grants && t.grants == s.grants[key := g] && t.grantLog == s.grantLog + [key]
    requires g.ref.Some? && g.ref.value in s.grants && Authorizes(s.grants[g.ref.value], g)
    ensures forall k :: k in t.grants ==> k in t.grantLog
    ensures forall j: nat :: j < |t.grantLog| ==> RefersBack(t, j)
  {
    forall j: nat | j < |t.grantLog| ensures RefersBack(t, j) {
      if j < |s.grantLog| {
        assert RefersBack(s, j);
        assert t.grantLog[..j] == s.grantLog[..j];
      } else {
        assert t.grantLog[..j] == s.grantLog;
      }
    }
  }

  lemma SignerIsAuthorized(s: Group, step: Step)
    requires GrantsOk(s) && Commits(s, step) && GrantOf(step).Some?
    ensures var g := GrantOf(step).value.1;
            GrantOf(step).value.0 !in s.grants
            && g.ref.Some? && g.ref.value in s.grants && Authorizes(s.grants[g.ref.value], g)
  {
    SignerHoldsTheirGrant(s, step);
    assert MemberOnGrant(s, GrantOf(step).value.1.grantor);
  }

  lemma MoveKeepsGrants(s: Group, t: Group, step: Step)
    requires GrantsOk(s) && RolesMove(s, t, step) && exists u :: IsAdmin(t, u)
    requires GrantOf(step).Some? ==>
               var g := GrantOf(step).value.1;
               GrantOf(step).value.0 !in s.grants
               && g.ref.Some? && g.ref.value in s.grants && Authorizes(s.grants[g.ref.value], g)
    ensures GrantsOk(t)
  {
    var g := GrantOf(step);
    if g.Some? {
      NewGrantRefersBack(s, t, g.value.0, g.value.1);
    } else {
      forall j: nat | j < |t.grantLog| ensures RefersBack(t, j) { assert RefersBack(s, j); }
    }
    forall u | u in t.members ensures MemberOnGrant(t, u) {
      if u in s.members { assert MemberOnGrant(s, u); }
      assert SameRole(s, t, u) || Baseline(t, u) || (g.Some? && HoldsGrant(t, u, g.value.0, g.value.1));
    }
  }

  lemma StepKeepsGoverned(s: Group, step: Step)
    requires Governed(s)
    ensures Governed(Next(s, step))
  {
    var t := Next(s, step);
    if Commits(s, step) && t.meta.Some? {
      MetaStood(s, step);
      StepMovesRoles(s, step);
      if GrantOf(step).Some? { SignerIsAuthorized(s, step); }
      var u :| IsAdmin(s, u);
      SomeAdminStays(s, step, u);
      MoveKeepsGrants(s, t, step);
    }
  }

  lemma MetaStood(s: Group, step: Step)
    requires Commits(s, step) && Effect(s, step).meta.Some?
    ensures s.meta.Some? && !step.SweepGroup?
  {
  }

  /** Every group since CreateGroup, whoever sent what. */
  lemma {:induction false} RunKeepsGoverned(s: Group, steps: seq<Step>)
    requires Governed(s)
    ensures Governed(Run(s, steps))
    decreases |steps|
  {
    if steps != [] {
      StepKeepsGoverned(s, steps[0]);
      RunKeepsGoverned(Next(s, steps[0]), steps[1..]);
    }
  }

  lemma CreationIsGoverned(id: GroupId, mode: Mode, creator: Recipient, root: GrantKey, users: map<UserId, Account>)
    ensures GrantsOk(CreateGroup(id, mode, creator, root, users))
  {
    var s := CreateGroup(id, mode, creator, root, users);
    assert IsAdmin(s, creator.user);
    assert s.grantLog[0] == root;
  }

  // ----- following the references -----

  /** One reference after another, each landing on a grant its signer could sign under. */
  ghost predicate Walk(s: Group, path: seq<GrantKey>) {
    && path != [] && (forall i :: 0 <= i < |path| ==> path[i] in s.grants)
    && (forall i :: 0 <= i < |path| - 1 ==>
          s.grants[path[i]].ref == Some(path[i + 1]) && Authorizes(s.grants[path[i + 1]], s.grants[path[i]]))
  }

  lemma {:induction false} WalkFrom(s: Group, j: nat) returns (path: seq<GrantKey>)
    requires GrantsOk(s) && j < |s.grantLog|
    ensures Walk(s, path) && path[0] == s.grantLog[j] && path[|path| - 1] == s.grantLog[0] && |path| <= j + 1
    decreases j
  {
    assert RefersBack(s, j);
    if j == 0 {
      path := [s.grantLog[0]];
    } else {
      var k := s.grants[s.grantLog[j]].ref.value;
      var i :| 0 <= i < j && s.grantLog[..j][i] == k;
      var rest := WalkFrom(s, i);
      path := [s.grantLog[j]] + rest;
      forall n | 0 <= n < |path| - 1
        ensures s.grants[path[n]].ref == Some(path[n + 1]) && Authorizes(s.grants[path[n + 1]], s.grants[path[n]])
      {
        if n > 0 { assert path[n] == rest[n - 1] && path[n + 1] == rest[n]; }
      }
    }
  }

  /** From any grant the references reach the root within as many hops as there are grants. */
  lemma EveryGrantReachesTheRoot(s: Group, steps: seq<Step>, k: GrantKey)
    requires Governed(s) && Run(s, steps).meta.Some? && k in Run(s, steps).grants
    ensures exists path :: var t := Run(s, steps);
              Walk(t, path) && path[0] == k && t.grants[path[|path| - 1]].ref.None? && |path| <= |t.grantLog|
  {
    RunKeepsGoverned(s, steps);
    var t := Run(s, steps);
    var j :| 0 <= j < |t.grantLog| && t.grantLog[j] == k;
    var path := WalkFrom(t, j);
    assert RefersBack(t, 0);
  }

  /** Elevated members in particular start such a walk at a grant of exactly their role. */
  lemma ElevatedMembersHoldTheirGrant(s: Group, steps: seq<Step>, u: UserId)
    requires Governed(s) && Run(s, steps).meta.Some? && u in Run(s, steps).members && Run(s, steps).members[u].role != Member
    ensures var t := Run(s, steps);
            && t.members[u].grant.Some? && t.members[u].grant.value in t.grants
            && t.grants[t.members[u].grant.value].subject == u && t.grants[t.members[u].grant.value].role == t.members[u].role
    ensures exists v :: IsAdmin(Run(s, steps), v)
  {
    RunKeepsGoverned(s, steps);
    assert MemberOnGrant(Run(s, steps), u);
  }
}
