/**
 * The purge as it runs: plan an account, then delete in order. `budget` is
 * how many writes commit before the process dies.
 */
module PurgeTables {
  import opened Wrappers
  import opened Purge

  class PurgeTable {
    var keys: set<Key>
    var profiles: map<UserId, Profile>
    var claims: map<Name, UserId>

    function Rows(): Store
      reads this
    {
      Store(keys, profiles, claims)
    }

    constructor (s: Store)
      ensures Rows() == s
    {
      keys, profiles, claims := s.keys, s.profiles, s.claims;
    }
  }

  // ----- accounts already dealt with -----

  /** Nothing more to do for u: no candidate, or a tombstone that waits on a group with a real member. */
  predicate Settled(s: Store, u: UserId) {
    Candidate(s, u) ==> NothingLeft(s, u) && s.profiles[u] == Buried(s, u)
  }

  lemma DropKeepsSettled(s: Store, k: Key, u: UserId)
    requires k in s.keys && Harmless(s, k) && Settled(s, u)
    ensures Settled(Drop(s, k), u)
  {
    if Candidate(s, u) {
      WaitingStays(s, k, u);
      var t := Drop(s, k);
      forall o | o in t.keys && o.Member? && o.user == u ensures Mixed(t, o.group) {
        assert Mixed(s, o.group);
        if k.Member? && k.group == o.group { MemberGoes(s, k); } else { MembersDecide(s, k, o.group); }
      }
    }
  }

  lemma DropClaimKeepsSettled(s: Store, n: Name, u: UserId)
    requires Settled(s, u)
    ensures Settled(DropClaim(s, n), u)
  {
    var t := DropClaim(s, n);
    forall g ensures Mixed(t, g) == Mixed(s, g) { FateByRows(s, t, g); }
    WaitingByFates(s, t, u);
  }

  lemma BuryKeepsSettled(s: Store, v: UserId, u: UserId)
    requires Candidate(s, v) && NothingLeft(s, v) && (u == v || Settled(s, u))
    ensures Settled(Bury(s, v), u)
  {
    var t := Bury(s, v);
    forall g ensures Mixed(t, g) == Mixed(s, g) { BuryKeepsFates(s, v, g); }
    WaitingByFates(s, t, u);
    forall o | o in t.keys && o.Member? && o.user == u && (u == v || Candidate(t, u)) ensures Mixed(t, o.group) {
      assert Mixed(s, o.group);
    }
  }

  /** With every candidate settled the store is what the goal says. */
  lemma AllSettledIsTheGoal(s: Store)
    requires forall u :: Candidate(s, u) ==> Settled(s, u)
    ensures Goal(s) == s
  {
    forall u ensures Settled(s, u) {}
    forall k | k in s.keys && k.Member? && Candidate(s, k.user) ensures Mixed(s, k.group) { assert NothingLeft(s, k.user); }
    forall k | k in s.keys && (k.UserRow? || k.AboutUser?) ensures !Candidate(s, k.user) { assert Settled(s, k.user); }
    assert Goal(s).keys == s.keys;
    assert Goal(s).profiles == s.profiles;
    forall n | n in s.claims ensures ClaimStays(s, n) { assert Settled(s, s.claims[n]); }
    assert Goal(s).claims == s.claims;
  }

  /** What every write of a run keeps: the goal, and the settled accounts. */
  ghost predicate OnCourse(s: Store, t: Store, settled: set<UserId>) {
    && Goal(t) == Goal(s) && t.keys <= s.keys
    && (forall u :: u in settled ==> Settled(t, u))
    && (forall u :: Candidate(t, u) ==> Candidate(s, u))
  }

  lemma DropStaysOnCourse(s: Store, t: Store, settled: set<UserId>, k: Key)
    requires OnCourse(s, t, settled) && k in t.keys && Harmless(t, k)
    ensures OnCourse(s, Drop(t, k), settled)
  {
    DropKeepsGoal(t, k);
    forall u | u in settled ensures Settled(Drop(t, k), u) { DropKeepsSettled(t, k, u); }
  }

  // ----- what an account's plan holds -----

  /** threadRows: comments and reactions of the group's posts. */
  function CommentsOf(s: Store, g: GroupId): set<Key> {
    set k | k in s.keys && k.Comment? && k.group == g && Post(g, k.post) in s.keys
  }

  /** rows: the group's partition but the account's own membership. */
  function RowsOf(s: Store, g: GroupId, u: UserId): set<Key> { set k | k in s.keys && InGroup(k, g) && k != Member(g, u) }

  function KeysOf(s: Store, u: UserId): set<Key> { set k | k in s.keys && (k.UserRow? || k.AboutUser?) && k.user == u }

  /** The groups an account's memberships name, test-only ones and those with a real member. */
  function GroupsOf(s: Store, u: UserId): set<GroupId> { set k | k in s.keys && k.Member? && k.user == u :: k.group }

  datatype GroupPlan = GroupPlan(comments: set<Key>, rows: set<Key>)

  function PlanOf(s: Store, g: GroupId, u: UserId): GroupPlan { GroupPlan(CommentsOf(s, g), RowsOf(s, g, u)) }

  // ----- executing -----

  /** batchDelete of comments; done unless the process died. */
  method DropComments(table: PurgeTable, g: GroupId, todo: set<Key>, budget: nat, ghost s: Store, ghost settled: set<UserId>)
    returns (left: nat, done: bool)
    requires OnCourse(s, table.Rows(), settled) && Doomed(table.Rows(), g) && todo <= CommentsOf(table.Rows(), g)
    modifies table`keys
    ensures OnCourse(s, table.Rows(), settled) && table.keys <= old(table.keys)
    ensures done ==> table.keys == old(table.keys) - todo
  {
    left, done := budget, true;
    var rest := todo;
    while rest != {}
      invariant rest <= todo && table.keys == old(table.keys) - (todo - rest) && OnCourse(s, table.Rows(), settled)
      invariant Doomed(table.Rows(), g) && rest <= CommentsOf(table.Rows(), g)
      decreases rest
    {
      if left == 0 { return 0, false; }
      var k :| k in rest;
      MembersDecide(table.Rows(), k, g);
      DropStaysOnCourse(s, table.Rows(), settled, k);
      table.keys := table.keys - {k};
      rest, left := rest - {k}, left - 1;
    }
  }

  /** Nothing hangs off the group's posts any more, and the account's membership still names the group. */
  ghost predicate ReadyForRows(s: Store, g: GroupId, u: UserId) {
    Member(g, u) in s.keys && Candidate(s, u) && !Mixed(s, g) && CommentsOf(s, g) == {}
  }

  lemma RowGoes(s: Store, g: GroupId, u: UserId, k: Key)
    requires ReadyForRows(s, g, u) && k in RowsOf(s, g, u)
    ensures Harmless(s, k) && ReadyForRows(Drop(s, k), g, u)
  {
    var own := Member(g, u);
    assert Doomed(s, g);
    if k.Post? {
      forall c | c in s.keys && c.Comment? && c.group == g ensures c.post != k.post {
        assert c !in CommentsOf(s, g);
      }
    }
    assert CommentsOf(Drop(s, k), g) <= CommentsOf(s, g);
    if k.Member? { assert own in s.keys; MemberGoes(s, k); } else { MembersDecide(s, k, g); }
  }

  method DropGroupRows(table: PurgeTable, g: GroupId, u: UserId, todo: set<Key>, budget: nat, ghost s: Store,
                       ghost settled: set<UserId>) returns (left: nat, done: bool)
    requires OnCourse(s, table.Rows(), settled) && ReadyForRows(table.Rows(), g, u) && todo == RowsOf(table.Rows(), g, u)
    modifies table`keys
    ensures OnCourse(s, table.Rows(), settled) && table.keys <= old(table.keys)
    ensures done ==> table.keys == old(table.keys) - todo && ReadyForRows(table.Rows(), g, u)
  {
    left, done := budget, true;
    var rest := todo;
    while rest != {}
      invariant rest <= todo && table.keys == old(table.keys) - (todo - rest) && OnCourse(s, table.Rows(), settled)
      invariant ReadyForRows(table.Rows(), g, u) && rest <= RowsOf(table.Rows(), g, u)
      decreases rest
    {
      if left == 0 { return 0, false; }
      var k :| k in rest;
      RowGoes(table.Rows(), g, u, k);
      DropStaysOnCourse(s, table.Rows(), settled, k);
      table.keys := table.keys - {k};
      rest, left := rest - {k}, left - 1;
    }
  }

  /** One group: its threads, its other rows, and last the membership that leads to it. */
  method PurgeGroup(table: PurgeTable, g: GroupId, u: UserId, plan: GroupPlan, budget: nat, ghost s: Store, ghost settled: set<UserId>)
    returns (left: nat, done: bool)
    requires OnCourse(s, table.Rows(), settled) && Candidate(table.Rows(), u) && Member(g, u) in table.keys
    requires !Mixed(table.Rows(), g) && plan == PlanOf(table.Rows(), g, u)
    modifies table`keys
    ensures OnCourse(s, table.Rows(), settled) && table.keys <= old(table.keys)
    ensures done ==> table.keys == old(table.keys) - plan.comments - plan.rows - {Member(g, u)}
  {
    assert Doomed(table.Rows(), g);
    left, done := DropComments(table, g, plan.comments, budget, s, settled);
    if !done { return; }
    CommentsAreGone(old(table.Rows()), table.Rows(), g, u);
    left, done := DropGroupRows(table, g, u, plan.rows, left, s, settled);
    if !done { return; }
    if left == 0 { return 0, false; }
    var own := Member(g, u);
    assert Doomed(table.Rows(), g);
    DropStaysOnCourse(s, table.Rows(), settled, own);
    table.keys := table.keys - {own};
    left := left - 1;
  }

  lemma CommentsAreGone(s: Store, t: Store, g: GroupId, u: UserId)
    requires t.keys == s.keys - CommentsOf(s, g) && t.profiles == s.profiles
    requires Member(g, u) in s.keys && Candidate(s, u) && !Mixed(s, g)
    ensures ReadyForRows(t, g, u) && RowsOf(t, g, u) == RowsOf(s, g, u)
  {
    FateByMembers(s, t, g);
    forall c | c in t.keys && c.Comment? && c.group == g ensures c !in CommentsOf(t, g) {
      assert c !in CommentsOf(s, g);
    }
  }

  /** A group's fate depends on its own members only. */
  lemma FateByMembers(s: Store, t: Store, g: GroupId)
    requires t.profiles == s.profiles && forall u :: Member(g, u) in t.keys <==> Member(g, u) in s.keys
    ensures Mixed(t, g) == Mixed(s, g) && Doomed(t, g) == Doomed(s, g)
  {
    forall u ensures Purgeable(t, u) == Purgeable(s, u) && Candidate(t, u) == Candidate(s, u) {}
    if Mixed(s, g) {
      var k :| k in s.keys && k.Member? && k.group == g && !Purgeable(s, k.user);
      assert k == Member(g, k.user) && k in t.keys;
    }
    if Mixed(t, g) {
      var k :| k in t.keys && k.Member? && k.group == g && !Purgeable(t, k.user);
      assert k == Member(g, k.user) && k in s.keys;
    }
    if k :| k in s.keys && k.Member? && k.group == g && Candidate(s, k.user) {
      assert k == Member(g, k.user) && k in t.keys && Candidate(t, k.user);
    }
    if k :| k in t.keys && k.Member? && k.group == g && Candidate(t, k.user) {
      assert k == Member(g, k.user) && k in s.keys && Candidate(s, k.user);
    }
  }

  /** Another group's purge leaves this one's plan as it was. */
  lemma OtherGroupsKeepTheirPlans(s: Store, t: Store, g: GroupId, h: GroupId, u: UserId)
    requires g != h && t.profiles == s.profiles && t.claims == s.claims
    requires t.keys == s.keys - CommentsOf(s, g) - RowsOf(s, g, u) - {Member(g, u)}
    ensures PlanOf(t, h, u) == PlanOf(s, h, u) && Mixed(t, h) == Mixed(s, h)
    ensures KeysOf(t, u) == KeysOf(s, u) && (Member(h, u) in t.keys <==> Member(h, u) in s.keys)
  {
    FateByMembers(s, t, h);
    assert CommentsOf(t, h) == CommentsOf(s, h) && RowsOf(t, h, u) == RowsOf(s, h, u);
  }

  /** planPurge's look at one group: is anybody in it not a test account old enough? */
  method IsMixed(table: PurgeTable, g: GroupId) returns (mixed: bool)
    ensures mixed == Mixed(table.Rows(), g)
  {
    var rest := set k | k in table.keys && k.Member? && k.group == g;
    ghost var all := rest;
    while rest != {}
      invariant rest <= all && forall k :: k in all - rest ==> Purgeable(table.Rows(), k.user)
      decreases rest
    {
      var k :| k in rest;
      if !Purgeable(table.Rows(), k.user) { return true; }
      rest := rest - {k};
    }
    return false;
  }

  /** planPurge: which of the account's groups go, and what with them. */
  method PlanGroups(table: PurgeTable, u: UserId) returns (plans: map<GroupId, GroupPlan>, kept: set<GroupId>)
    ensures plans.Keys !! kept && plans.Keys + kept == GroupsOf(table.Rows(), u)
    ensures forall g :: g in kept ==> Mixed(table.Rows(), g)
    ensures forall g :: g in plans ==> !Mixed(table.Rows(), g) && plans[g] == PlanOf(table.Rows(), g, u)
  {
    plans, kept := map[], {};
    var rest := GroupsOf(table.Rows(), u);
    while rest != {}
      invariant rest <= GroupsOf(table.Rows(), u) && plans.Keys !! kept && plans.Keys + kept == GroupsOf(table.Rows(), u) - rest
      invariant forall g :: g in kept ==> Mixed(table.Rows(), g)
      invariant forall g :: g in plans ==> !Mixed(table.Rows(), g) && plans[g] == PlanOf(table.Rows(), g, u)
      decreases rest
    {
      var g :| g in rest;
      rest := rest - {g};
      var mixed := IsMixed(table, g);
      if mixed { kept := kept + {g}; } else { plans := plans[g := PlanOf(table.Rows(), g, u)]; }
    }
  }

  /** The planned groups still to go are as they were planned. */
  ghost predicate PlansHold(t: Store, u: UserId, plans: map<GroupId, GroupPlan>, rest: set<GroupId>, kept: set<GroupId>) {
    && rest <= plans.Keys && Candidate(t, u) && GroupsOf(t, u) == rest + kept
    && (forall g :: g in rest ==> Member(g, u) in t.keys && !Mixed(t, g) && plans[g] == PlanOf(t, g, u))
    && (forall g :: g in kept ==> Mixed(t, g))
  }

  lemma PlansStillHold(s: Store, t: Store, u: UserId, plans: map<GroupId, GroupPlan>, rest: set<GroupId>, kept: set<GroupId>, g: GroupId)
    requires PlansHold(s, u, plans, rest, kept) && g in rest && g !in kept && t.profiles == s.profiles && t.claims == s.claims
    requires t.keys == s.keys - plans[g].comments - plans[g].rows - {Member(g, u)}
    ensures PlansHold(t, u, plans, rest - {g}, kept) && KeysOf(t, u) == KeysOf(s, u)
  {
    forall h | h != g
      ensures PlanOf(t, h, u) == PlanOf(s, h, u) && Mixed(t, h) == Mixed(s, h)
      ensures Member(h, u) in t.keys <==> Member(h, u) in s.keys
    {
      OtherGroupsKeepTheirPlans(s, t, g, h, u);
    }
    assert KeysOf(t, u) == KeysOf(s, u);
    forall h ensures h in GroupsOf(t, u) <==> h in rest - {g} + kept {
      assert h in GroupsOf(t, u) <==> Member(h, u) in t.keys;
      assert h in GroupsOf(s, u) <==> Member(h, u) in s.keys;
    }
  }

  /** executePurge's first loop. */
  method PurgeGroups(table: PurgeTable, u: UserId, plans: map<GroupId, GroupPlan>, budget: nat,
                     ghost kept: set<GroupId>, ghost s: Store, ghost settled: set<UserId>) returns (left: nat, done: bool)
    requires OnCourse(s, table.Rows(), settled) && plans.Keys !! kept && PlansHold(table.Rows(), u, plans, plans.Keys, kept)
    modifies table`keys
    ensures OnCourse(s, table.Rows(), settled)
    ensures done ==> PlansHold(table.Rows(), u, plans, {}, kept) && KeysOf(table.Rows(), u) == old(KeysOf(table.Rows(), u))
  {
    left, done := budget, true;
    var rest := plans.Keys;
    while rest != {}
      invariant rest <= plans.Keys && OnCourse(s, table.Rows(), settled) && PlansHold(table.Rows(), u, plans, rest, kept)
      invariant KeysOf(table.Rows(), u) == old(KeysOf(table.Rows(), u))
      decreases rest
    {
      var g :| g in rest;
      ghost var before := table.Rows();
      left, done := PurgeGroup(table, g, u, plans[g], left, s, settled);
      if !done { return; }
      PlansStillHold(before, table.Rows(), u, plans, rest, kept, g);
      rest := rest - {g};
    }
  }

  /** The rest of executePurge's deletes: the user's own rows and the rows about them. */
  method DropUserKeys(table: PurgeTable, u: UserId, todo: set<Key>, budget: nat, ghost kept: set<GroupId>,
                      ghost s: Store, ghost settled: set<UserId>) returns (left: nat, done: bool)
    requires OnCourse(s, table.Rows(), settled) && PlansHold(table.Rows(), u, map[], {}, kept)
    requires todo == KeysOf(table.Rows(), u)
    modifies table`keys
    ensures OnCourse(s, table.Rows(), settled)
    ensures done ==> PlansHold(table.Rows(), u, map[], {}, kept) && KeysOf(table.Rows(), u) == {}
  {
    left, done := budget, true;
    var rest := todo;
    while rest != {}
      invariant OnCourse(s, table.Rows(), settled) && PlansHold(table.Rows(), u, map[], {}, kept)
      invariant rest == KeysOf(table.Rows(), u)
      decreases rest
    {
      if left == 0 { return 0, false; }
      var k :| k in rest;
      ghost var t := table.Rows();
      DropStaysOnCourse(s, t, settled, k);
      forall g ensures Mixed(Drop(t, k), g) == Mixed(t, g) { MembersDecide(t, k, g); }
      table.keys := table.keys - {k};
      assert GroupsOf(table.Rows(), u) == GroupsOf(t, u);
      rest, left := rest - {k}, left - 1;
    }
  }

  /** The username claim, if it is still theirs. */
  method DropOwnClaim(table: PurgeTable, u: UserId, name: Option<Name>, budget: nat, ghost kept: set<GroupId>,
                      ghost s: Store, ghost settled: set<UserId>) returns (left: nat, done: bool)
    requires OnCourse(s, table.Rows(), settled) && PlansHold(table.Rows(), u, map[], {}, kept)
    requires KeysOf(table.Rows(), u) == {} && name == table.profiles[u].name
    modifies table`claims
    ensures OnCourse(s, table.Rows(), settled)
    ensures done ==> PlansHold(table.Rows(), u, map[], {}, kept) && NothingLeft(table.Rows(), u)
  {
    ghost var t := table.Rows();
    NoKeysLeft(t, u, kept);
    if name.None? || name.value !in table.claims || table.claims[name.value] != u { return budget, true; }
    if budget == 0 { return 0, false; }
    DropClaimKeepsGoal(t, name.value);
    forall v | v in settled ensures Settled(DropClaim(t, name.value), v) { DropClaimKeepsSettled(t, name.value, v); }
    table.claims := table.claims - {name.value};
    forall g ensures Mixed(table.Rows(), g) == Mixed(t, g) { FateByRows(t, table.Rows(), g); }
    assert GroupsOf(table.Rows(), u) == GroupsOf(t, u);
    NoKeysLeft(table.Rows(), u, kept);
    return budget - 1, true;
  }

  lemma NoKeysLeft(t: Store, u: UserId, kept: set<GroupId>)
    requires PlansHold(t, u, map[], {}, kept) && KeysOf(t, u) == {}
    ensures forall k :: k in t.keys && k.Member? && k.user == u ==> Mixed(t, k.group)
    ensures forall k :: k in t.keys && (k.UserRow? || k.AboutUser?) ==> k.user != u
  {
    forall k | k in t.keys && k.Member? && k.user == u ensures Mixed(t, k.group) { assert k.group in GroupsOf(t, u); }
    forall k | k in t.keys && (k.UserRow? || k.AboutUser?) ensures k.user != u { assert k !in KeysOf(t, u); }
  }

  /** The tombstone; its index keys stay while it waits on a group with a real member. */
  method BuryProfile(table: PurgeTable, u: UserId, waiting: bool, budget: nat, ghost kept: set<GroupId>,
                     ghost s: Store, ghost settled: set<UserId>) returns (left: nat, done: bool)
    requires OnCourse(s, table.Rows(), settled) && PlansHold(table.Rows(), u, map[], {}, kept)
    requires NothingLeft(table.Rows(), u) && (waiting <==> kept != {})
    modifies table`profiles
    ensures OnCourse(s, table.Rows(), settled)
    ensures done ==> OnCourse(s, table.Rows(), settled + {u})
  {
    if budget == 0 { return 0, false; }
    ghost var t := table.Rows();
    WaitingOnKept(t, u, kept);
    BuryKeepsGoal(t, u);
    forall v | v in settled + {u} ensures Settled(Bury(t, u), v) { BuryKeepsSettled(t, u, v); }
    var p := table.profiles[u];
    table.profiles := table.profiles[u := p.(name := None, indexed := p.indexed && waiting)];
    assert table.Rows() == Bury(t, u);
    return budget - 1, true;
  }

  lemma WaitingOnKept(t: Store, u: UserId, kept: set<GroupId>)
    requires PlansHold(t, u, map[], {}, kept)
    ensures Waiting(t, u) <==> kept != {}
  {
    if g :| g in kept {
      assert g in GroupsOf(t, u);
      assert Member(g, u) in t.keys && Mixed(t, g);
    }
    if Waiting(t, u) {
      var k :| k in t.keys && k.Member? && k.user == u && Mixed(t, k.group);
      assert k.group in GroupsOf(t, u);
    }
  }

  /** planPurge and executePurge for one account; an account that is no candidate is skipped. */
  method PurgeAccount(table: PurgeTable, u: UserId, budget: nat, ghost s: Store, ghost settled: set<UserId>)
    returns (left: nat, done: bool)
    requires OnCourse(s, table.Rows(), settled)
    modifies table
    ensures OnCourse(s, table.Rows(), settled)
    ensures done ==> OnCourse(s, table.Rows(), settled + {u})
  {
    if !Candidate(table.Rows(), u) { return budget, true; }
    var name := table.profiles[u].name;
    var plans, kept := PlanGroups(table, u);
    var userKeys := KeysOf(table.Rows(), u);
    assert PlansHold(table.Rows(), u, plans, plans.Keys, kept) by {
      forall g | g in plans ensures Member(g, u) in table.keys { assert g in GroupsOf(table.Rows(), u); }
    }
    left, done := PurgeGroups(table, u, plans, budget, kept, s, settled);
    if !done { return; }
    left, done := DropUserKeys(table, u, userKeys, left, kept, s, settled);
    if !done { return; }
    left, done := DropOwnClaim(table, u, name, left, kept, s, settled);
    if !done { return; }
    left, done := BuryProfile(table, u, kept != {}, left, kept, s, settled);
  }

  /**
   * PurgeTestAccounts over every candidate. Wherever it dies, what is left
   * leads to the same end; done, it is that end, and a group with a real
   * member has kept every row.
   */
  method PurgeTestAccounts(table: PurgeTable, candidates: seq<UserId>, budget: nat) returns (done: bool)
    requires forall u :: Candidate(table.Rows(), u) ==> u in candidates
    modifies table
    ensures Goal(table.Rows()) == Goal(old(table.Rows()))
    ensures done ==> table.Rows() == Goal(old(table.Rows()))
    ensures table.keys <= old(table.keys) && OthersKept(old(table.Rows()), table.Rows())
    ensures done ==> DueGone(old(table.Rows()), table.Rows())
    ensures forall u :: Candidate(table.Rows(), u) ==> Candidate(old(table.Rows()), u)
  {
    ghost var s := table.Rows();
    ghost var settled := {};
    var left := budget;
    done := true;
    for i := 0 to |candidates|
      invariant OnCourse(s, table.Rows(), settled) && settled == set k | 0 <= k < i :: candidates[k]
    {
      left, done := PurgeAccount(table, candidates[i], left, s, settled);
      OthersAreKept(s, table.Rows());
      if !done { return; }
      settled := settled + {candidates[i]};
    }
    OthersAreKept(s, table.Rows());
    DueAreGone(s);
    done := true;
    forall u | Candidate(table.Rows(), u) ensures Settled(table.Rows(), u) {
      assert Candidate(s, u);
      assert u in candidates;
    }
    AllSettledIsTheGoal(table.Rows());
  }

  /** A run that dies anywhere, and another: the same end as one uninterrupted run. */
  method RunAfterACrash(table: PurgeTable, candidates: seq<UserId>, crashAfter: nat, again: seq<UserId>, budget: nat)
    returns (done: bool)
    requires forall u :: Candidate(table.Rows(), u) ==> u in candidates && u in again
    modifies table
    ensures done ==> table.Rows() == Goal(old(table.Rows())) && DueGone(old(table.Rows()), table.Rows())
    ensures done ==> OthersKept(old(table.Rows()), table.Rows())
  {
    ghost var s := table.Rows();
    var died := PurgeTestAccounts(table, candidates, crashAfter);
    done := PurgeTestAccounts(table, again, budget);
    OthersAreKept(s, table.Rows());
    DueAreGone(s);
  }
}
