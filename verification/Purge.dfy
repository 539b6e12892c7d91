/**
 * The purge of test accounts, one delete at a time. A run may stop after any
 * delete; the order of deletes keeps everything that is left findable.
 */
module Purge {
  import opened Wrappers

  type UserId = nat
  type GroupId = nat
  type Name = nat

  /** An item by where it lives. AboutUser is a row in somebody else's partition that GSI1 lists under the user. */
  datatype Key =
    | Member(group: GroupId, user: UserId)
    | GroupRow(group: GroupId, row: nat)
    | Post(group: GroupId, post: nat)
    | Comment(group: GroupId, post: nat, row: nat)
    | UserRow(user: UserId, row: nat)
    | AboutUser(user: UserId, row: nat)

  /** name is None once deleted; indexed: under TESTACCOUNT in GSI1; aged: created before the cutoff. */
  datatype Profile = Profile(test: bool, name: Option<Name>, prefixed: bool, aged: bool, indexed: bool)

  datatype Store = Store(keys: set<Key>, profiles: map<UserId, Profile>, claims: map<Name, UserId>)

  // ----- who and what -----

  /** isTestProfile: the flag, and the reserved prefix while there is a username. */
  predicate IsTest(p: Profile) { p.test && (p.name.None? || p.prefixed) }

  predicate Purgeable(s: Store, u: UserId) { u in s.profiles && IsTest(s.profiles[u]) && s.profiles[u].aged }

  predicate Candidate(s: Store, u: UserId) { Purgeable(s, u) && s.profiles[u].indexed }

  predicate Mixed(s: Store, g: GroupId) { exists k :: k in s.keys && k.Member? && k.group == g && !Purgeable(s, k.user) }

  predicate Doomed(s: Store, g: GroupId) {
    !Mixed(s, g) && exists k :: k in s.keys && k.Member? && k.group == g && Candidate(s, k.user)
  }

  predicate Waiting(s: Store, u: UserId) { exists k :: k in s.keys && k.Member? && k.user == u && Mixed(s, k.group) }

  // ----- where an uninterrupted run ends -----

  predicate Stays(s: Store, k: Key) {
    match k
    case Member(g, _) => !Doomed(s, g)
    case GroupRow(g, _) => !Doomed(s, g)
    case Post(g, _) => !Doomed(s, g)
    case Comment(g, p, _) => !(Doomed(s, g) && Post(g, p) in s.keys)
    case UserRow(u, _) => !Candidate(s, u)
    case AboutUser(u, _) => !Candidate(s, u)
  }

  predicate ClaimStays(s: Store, n: Name)
    requires n in s.claims
  {
    var u := s.claims[n];
    !(Candidate(s, u) && s.profiles[u].name == Some(n))
  }

  function Buried(s: Store, u: UserId): Profile
    requires u in s.profiles
  {
    s.profiles[u].(name := None, indexed := Waiting(s, u))
  }

  /** Test-only groups gone whole, with their posts' comments; each candidate's rows and username claim gone and PROFILE a tombstone. */
  function Goal(s: Store): Store {
    Store(set k | k in s.keys && Stays(s, k),
          map u | u in s.profiles :: if Candidate(s, u) then Buried(s, u) else s.profiles[u],
          map n | n in s.claims && ClaimStays(s, n) :: s.claims[n])
  }

  // ----- one delete keeps the goal -----

  function Drop(s: Store, k: Key): Store { s.(keys := s.keys - {k}) }

  /** Deleting k changes no group's fate and hides nothing. */
  predicate Harmless(s: Store, k: Key) {
    match k
    case Comment(g, p, _) => Doomed(s, g) && Post(g, p) in s.keys
    case Post(g, p) => Doomed(s, g) && forall c :: c in s.keys && c.Comment? && c.group == g ==> c.post != p
    case GroupRow(g, _) => Doomed(s, g)
    case Member(g, u) =>
      && Doomed(s, g)
      && ((exists o :: o in s.keys && o.Member? && o.group == g && o.user != u && Candidate(s, o.user))
          || (forall o :: o in s.keys - {k} ==> !InGroup(o, g)))
    case UserRow(u, _) => Candidate(s, u)
    case AboutUser(u, _) => Candidate(s, u)
  }

  /** Rows of the group's own partition. */
  predicate InGroup(k: Key, g: GroupId) { (k.Member? || k.GroupRow? || k.Post?) && k.group == g }

  lemma MembersDecide(s: Store, k: Key, g: GroupId)
    requires !(k.Member? && k.group == g)
    ensures Mixed(Drop(s, k), g) == Mixed(s, g) && Doomed(Drop(s, k), g) == Doomed(s, g)
  {
    var t := Drop(s, k);
    forall o | o in s.keys && o.Member? && o.group == g ensures o in t.keys && Purgeable(t, o.user) == Purgeable(s, o.user) {}
    if Mixed(s, g) {
      var o :| o in s.keys && o.Member? && o.group == g && !Purgeable(s, o.user);
      assert o in t.keys;
    }
    if exists o :: o in s.keys && o.Member? && o.group == g && Candidate(s, o.user) {
      var o :| o in s.keys && o.Member? && o.group == g && Candidate(s, o.user);
      assert o in t.keys && Candidate(t, o.user);
    }
  }

  /** While another candidate's membership is left, or nothing else is, a doomed group's member row can go. */
  lemma MemberGoes(s: Store, k: Key)
    requires k.Member? && Harmless(s, k)
    ensures !Mixed(Drop(s, k), k.group)
    ensures (exists o :: o in s.keys - {k} && InGroup(o, k.group)) ==> Doomed(Drop(s, k), k.group)
  {
    var t := Drop(s, k);
    if o :| o in s.keys && o.Member? && o.group == k.group && o.user != k.user && Candidate(s, o.user) {
      assert o in t.keys && Candidate(t, o.user);
    }
  }

  lemma WaitingStays(s: Store, k: Key, u: UserId)
    requires k in s.keys && Harmless(s, k)
    ensures Waiting(Drop(s, k), u) == Waiting(s, u)
  {
    var t := Drop(s, k);
    forall o | o in s.keys && o.Member? && o != k ensures Mixed(t, o.group) == Mixed(s, o.group) {
      if k.Member? && k.group == o.group { MemberGoes(s, k); } else { MembersDecide(s, k, o.group); }
    }
    if Waiting(s, u) {
      var o :| o in s.keys && o.Member? && o.user == u && Mixed(s, o.group);
      assert o != k;
      assert o in t.keys;
    }
  }

  lemma OthersStay(s: Store, k: Key, o: Key)
    requires k in s.keys && o in s.keys && o != k && Harmless(s, k)
    ensures Stays(Drop(s, k), o) == Stays(s, o)
  {
    var t := Drop(s, k);
    if o.UserRow? || o.AboutUser? {
      assert Candidate(t, o.user) == Candidate(s, o.user);
    } else if k.Member? && k.group == o.group {
      MemberGoes(s, k);
      if InGroup(o, k.group) {
        assert o in s.keys - {k};
      } else if Post(o.group, o.post) in s.keys {
        assert InGroup(Post(o.group, o.post), k.group) && Post(o.group, o.post) in s.keys - {k};
      }
    } else {
      MembersDecide(s, k, o.group);
    }
  }

  lemma DropKeepsGoal(s: Store, k: Key)
    requires k in s.keys && Harmless(s, k)
    ensures Goal(Drop(s, k)) == Goal(s)
  {
    var t := Drop(s, k);
    forall o | o in s.keys && o != k ensures Stays(t, o) == Stays(s, o) { OthersStay(s, k, o); }
    assert Goal(t).keys == Goal(s).keys;
    forall u | u in s.profiles ensures Waiting(t, u) == Waiting(s, u) { WaitingStays(s, k, u); }
    assert Goal(t).profiles == Goal(s).profiles;
    assert Goal(t).claims == Goal(s).claims;
  }

  /** The order cannot be relaxed: any other delete leaves something behind, or takes what should stay. */
  lemma DropKeepsGoalOnlyIfHarmless(s: Store, k: Key)
    requires k in s.keys
    ensures Goal(Drop(s, k)) == Goal(s) <==> Harmless(s, k)
  {
    var t := Drop(s, k);
    if Harmless(s, k) {
      DropKeepsGoal(s, k);
    } else if Stays(s, k) {
      assert k in Goal(s).keys && k !in Goal(t).keys;
    } else if k.Post? {
      var c :| c in s.keys && c.Comment? && c.group == k.group && c.post == k.post;
      assert c !in Goal(s).keys && c in Goal(t).keys;
    } else {
      var o :| o in s.keys - {k} && InGroup(o, k.group);
      assert forall x :: x in t.keys && x.Member? && x.group == k.group ==> Candidate(t, x.user) == Candidate(s, x.user);
      assert !Doomed(t, k.group);
      assert o !in Goal(s).keys && o in Goal(t).keys;
    }
  }

  /** No row of a group with a real member is ever deleted as part of that group. */
  lemma RealGroupsStay(s: Store, k: Key, g: GroupId)
    requires (InGroup(k, g) || (k.Comment? && k.group == g)) && Mixed(s, g)
    ensures Stays(s, k)
  {
  }

  function DropClaim(s: Store, n: Name): Store { s.(claims := s.claims - {n}) }

  lemma DropClaimKeepsGoal(s: Store, n: Name)
    requires n in s.claims && !ClaimStays(s, n)
    ensures Goal(DropClaim(s, n)) == Goal(s)
  {
    var t := DropClaim(s, n);
    SameRowsSameFate(s, t);
    forall m | m in t.claims ensures ClaimStays(t, m) == ClaimStays(s, m) {}
    assert Goal(t).claims == Goal(s).claims;
  }

  /** Fates are decided by rows and profiles alone. */
  lemma SameRowsSameFate(s: Store, t: Store)
    requires t.keys == s.keys && t.profiles == s.profiles
    ensures Goal(t).keys == Goal(s).keys && Goal(t).profiles == Goal(s).profiles
  {
    forall g ensures Mixed(t, g) == Mixed(s, g) && Doomed(t, g) == Doomed(s, g) { FateByRows(s, t, g); }
    forall u ensures Waiting(t, u) == Waiting(s, u) {
      if Waiting(s, u) {
        var o :| o in s.keys && o.Member? && o.user == u && Mixed(s, o.group);
        assert o in t.keys && Mixed(t, o.group);
      }
    }
  }

  lemma FateByRows(s: Store, t: Store, g: GroupId)
    requires t.keys == s.keys && t.profiles == s.profiles
    ensures Mixed(t, g) == Mixed(s, g) && Doomed(t, g) == Doomed(s, g)
  {
    forall u ensures Purgeable(t, u) == Purgeable(s, u) && Candidate(t, u) == Candidate(s, u) {}
  }

  function Bury(s: Store, u: UserId): Store
    requires u in s.profiles
  {
    s.(profiles := s.profiles[u := Buried(s, u)])
  }

  /** Everything that could be found through u is gone. */
  predicate NothingLeft(s: Store, u: UserId) {
    && (forall k :: k in s.keys && k.Member? && k.user == u ==> Mixed(s, k.group))
    && (forall k :: k in s.keys && (k.UserRow? || k.AboutUser?) ==> k.user != u)
    && (forall n :: n in s.claims ==> s.claims[n] == u ==> u in s.profiles && s.profiles[u].name != Some(n))
  }

  lemma BuryKeepsFates(s: Store, u: UserId, g: GroupId)
    requires Candidate(s, u) && NothingLeft(s, u)
    ensures Mixed(Bury(s, u), g) == Mixed(s, g) && Doomed(Bury(s, u), g) == Doomed(s, g)
  {
    var t := Bury(s, u);
    forall v ensures Purgeable(t, v) == Purgeable(s, v) && (v != u ==> Candidate(t, v) == Candidate(s, v)) {}
    if Mixed(s, g) {
      var o :| o in s.keys && o.Member? && o.group == g && !Purgeable(s, o.user);
      assert o in t.keys && !Purgeable(t, o.user);
    }
    if Doomed(s, g) {
      var o :| o in s.keys && o.Member? && o.group == g && Candidate(s, o.user);
      assert o.user != u;
      assert o in t.keys && Candidate(t, o.user);
    }
  }

  lemma BuryKeepsGoal(s: Store, u: UserId)
    requires Candidate(s, u) && NothingLeft(s, u)
    ensures Goal(Bury(s, u)) == Goal(s)
  {
    var t := Bury(s, u);
    forall g ensures Mixed(t, g) == Mixed(s, g) && Doomed(t, g) == Doomed(s, g) { BuryKeepsFates(s, u, g); }
    forall k | k in s.keys ensures Stays(t, k) == Stays(s, k) {}
    assert Goal(t).keys == Goal(s).keys;
    forall v ensures Waiting(t, v) == Waiting(s, v) { WaitingByFates(s, t, v); }
    forall v | v in s.profiles ensures Goal(t).profiles[v] == Goal(s).profiles[v] {}
    assert Goal(t).profiles == Goal(s).profiles;
    forall n | n in s.claims ensures ClaimStays(t, n) == ClaimStays(s, n) {}
    assert Goal(t).claims == Goal(s).claims;
  }

  lemma WaitingByFates(s: Store, t: Store, u: UserId)
    requires t.keys == s.keys && forall g :: Mixed(t, g) == Mixed(s, g)
    ensures Waiting(t, u) == Waiting(s, u)
  {
    if Waiting(s, u) {
      var o :| o in s.keys && o.Member? && o.user == u && Mixed(s, o.group);
      assert o in t.keys && Mixed(t, o.group);
    }
  }

  // ----- the same by the fields of the profiles -----

  /** No test account old enough: no flag, too new, or a name of its own without the reserved prefix; or no PROFILE at all. */
  predicate Real(s: Store, u: UserId) {
    u !in s.profiles
    || !s.profiles[u].test || !s.profiles[u].aged || (s.profiles[u].name.Some? && !s.profiles[u].prefixed)
  }

  /** Flagged, listed, old enough, and unnamed or under the reserved prefix. */
  predicate Due(s: Store, u: UserId) {
    && u in s.profiles && s.profiles[u].test && s.profiles[u].indexed && s.profiles[u].aged
    && (s.profiles[u].name.Some? ==> s.profiles[u].prefixed)
  }

  predicate HasReal(s: Store, g: GroupId) { exists k :: k in s.keys && k.Member? && k.group == g && Real(s, k.user) }

  predicate HasDue(s: Store, g: GroupId) { exists k :: k in s.keys && k.Member? && k.group == g && Due(s, k.user) }

  /** Rows of the group's partition, and of its posts'. */
  predicate OfGroup(k: Key, g: GroupId) { (k.Member? || k.GroupRow? || k.Post? || k.Comment?) && k.group == g }

  predicate OfAccount(k: Key, u: UserId) { (k.UserRow? || k.AboutUser?) && k.user == u }

  /** PROFILE, username claims and own rows as they were. */
  ghost predicate AccountKept(s: Store, t: Store, u: UserId) {
    && (u in s.profiles <==> u in t.profiles) && (u in s.profiles ==> t.profiles[u] == s.profiles[u])
    && (forall n :: n in s.claims && s.claims[n] == u ==> n in t.claims && t.claims[n] == u)
    && (forall k :: k in s.keys && OfAccount(k, u) ==> k in t.keys)
  }

  /** A tombstone without a name, still listed while a group with a real member names it; nothing else of the account left. */
  ghost predicate AccountGone(s: Store, t: Store, u: UserId)
    requires u in s.profiles
  {
    var waits := exists k :: k in s.keys && k.Member? && k.user == u && HasReal(s, k.group);
    && u in t.profiles && t.profiles[u] == s.profiles[u].(name := None, indexed := waits)
    && (forall n :: n in t.claims && t.claims[n] == u ==> s.profiles[u].name != Some(n))
    && (forall k :: k in t.keys ==> !OfAccount(k, u))
  }

  ghost predicate GroupKept(s: Store, t: Store, g: GroupId) { forall k :: k in s.keys && OfGroup(k, g) ==> k in t.keys }

  /** Nothing of the group is left but comments whose post was gone before. */
  ghost predicate GroupLost(s: Store, t: Store, g: GroupId) {
    forall k :: k in t.keys && OfGroup(k, g) ==> k.Comment? && Post(g, k.post) !in s.keys
  }

  /** Whoever is not due keeps everything, and so does every group with a real member or nobody due. */
  ghost predicate OthersKept(s: Store, t: Store) {
    && (forall u: UserId :: !Due(s, u) ==> AccountKept(s, t, u))
    && (forall g: GroupId :: HasReal(s, g) || !HasDue(s, g) ==> GroupKept(s, t, g))
  }

  ghost predicate DueGone(s: Store, t: Store) {
    && (forall u: UserId :: Due(s, u) ==> AccountGone(s, t, u))
    && (forall g: GroupId :: HasDue(s, g) && !HasReal(s, g) ==> GroupLost(s, t, g))
  }

  lemma FatesByFields(s: Store)
    ensures forall u :: Candidate(s, u) == Due(s, u) && Purgeable(s, u) == !Real(s, u)
    ensures forall g :: Mixed(s, g) == HasReal(s, g) && Doomed(s, g) == (HasDue(s, g) && !HasReal(s, g))
    ensures forall u :: Waiting(s, u) == exists k :: k in s.keys && k.Member? && k.user == u && HasReal(s, k.group)
  {
  }

  /** Wherever a run stops. */
  lemma OthersAreKept(s: Store, t: Store)
    requires Goal(t) == Goal(s) && forall u :: Candidate(t, u) ==> Candidate(s, u)
    ensures OthersKept(s, t)
  {
    FatesByFields(s);
    forall u: UserId | !Due(s, u) ensures AccountKept(s, t, u) {
      assert u in Goal(s).profiles <==> u in Goal(t).profiles;
      forall n | n in s.claims && s.claims[n] == u ensures n in t.claims && t.claims[n] == u {
        assert n in Goal(s).claims && n in Goal(t).claims;
      }
      forall k | k in s.keys && OfAccount(k, u) ensures k in t.keys { assert k in Goal(s).keys && k in Goal(t).keys; }
    }
    forall g: GroupId | HasReal(s, g) || !HasDue(s, g) ensures GroupKept(s, t, g) {
      forall k | k in s.keys && OfGroup(k, g) ensures k in t.keys { assert k in Goal(s).keys && k in Goal(t).keys; }
    }
  }

  /** Where it ends. */
  lemma DueAreGone(s: Store)
    ensures DueGone(s, Goal(s))
  {
    FatesByFields(s);
    forall u: UserId | Due(s, u) ensures AccountGone(s, Goal(s), u) {}
    forall g: GroupId | HasDue(s, g) && !HasReal(s, g) ensures GroupLost(s, Goal(s), g) {}
  }
}
