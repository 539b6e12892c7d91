/** The routines that bring members in and let them go: counting under JoinSeq, and finding who governs when an admin leaves. */
module JoinsAndLeaves {
  import opened Wrappers
  import opened Groups
  import opened GroupInvariants
  import opened GroupTables
  import opened GroupRequests
  import opened MarkerLife
  import opened MemberCap
  import Resumption

  const MAX_JOIN_ATTEMPTS := 5

  // ----- counting -----

  function IdsBelow(s: Group, bound: UserId): set<UserId> { set u | u in s.members && u < bound }

  /** Nobody came in unnoticed since the run began: honest requests, still Rotating, JoinSeq unmoved. */
  ghost predicate NobodyCameIn(s: Group, steps: seq<Step>) {
    Chained(s) && HonestRun(s, steps) && IsRotating(Run(s, steps)) && JoinSeq(Run(s, steps)) == JoinSeq(s)
  }

  lemma NobodyCameInBefore(s: Group, steps: seq<Step>, others: seq<Step>)
    requires NobodyCameIn(s, steps + others)
    ensures NobodyCameIn(s, steps)
    ensures Run(s, steps + others).members.Keys <= Run(s, steps).members.Keys
  {
    RunSplits(s, steps + others, |steps|);
    assert (steps + others)[..|steps|] == steps && (steps + others)[|steps|..] == others;
    RunKeepsChained(s, steps);
    Completion.RotatingBefore(Run(s, steps), others);
    NobodyJoinsUnnoticed(s, steps);
    NobodyJoinsUnnoticed(Run(s, steps), others);
  }

  /** Somebody was a member in some state since the call. */
  predicate SeenThere(s: Group, steps: seq<Step>, u: UserId) {
    exists i :: 0 <= i <= |steps| && u in Run(s, steps[..i]).members
  }

  ghost predicate AllSeenThere(s: Group, steps: seq<Step>, us: set<UserId>) { forall u :: u in us ==> SeenThere(s, steps, u) }

  lemma SeenThereStays(s: Group, steps: seq<Step>, more: seq<Step>, us: set<UserId>)
    requires AllSeenThere(s, steps, us)
    ensures AllSeenThere(s, steps + more, us)
  {
    forall u | u in us ensures SeenThere(s, steps + more, u) {
      var i :| 0 <= i <= |steps| && u in Run(s, steps[..i]).members;
      assert (steps + more)[..i] == steps[..i];
    }
  }

  lemma PageIsThere(s: Group, steps: seq<Step>, others: seq<Step>, counted: set<UserId>, page: set<UserId>)
    requires AllSeenThere(s, steps, counted) && page <= Run(s, steps + others).members.Keys
    ensures AllSeenThere(s, steps + others, counted + page)
  {
    SeenThereStays(s, steps, others, counted);
    var all := steps + others;
    assert all[..|all|] == all;
    forall u | u in page ensures SeenThere(s, all, u) {}
  }

  /** The ids of a page: up to one, or the rest. */
  function PageOf(s: Group, from: UserId, to: Option<UserId>): set<UserId> {
    if to.Some? then IdsBetween(s, from, to.value) else IdsFrom(s, from)
  }

  function Covering(s: Group, to: Option<UserId>): set<UserId> { if to.Some? then IdsBelow(s, to.value) else s.members.Keys }

  /** What has been counted, of those below the end of the last page. */
  ghost predicate Counting(s: Group, steps: seq<Step>, total: nat, counted: set<UserId>, upTo: Option<UserId>) {
    && total == |counted| && AllSeenThere(s, steps, counted) && (upTo.Some? ==> forall u :: u in counted ==> u < upTo.value)
    && (NobodyCameIn(s, steps) ==> |Covering(Run(s, steps), upTo)| <= total)
    && (steps == [] ==> counted == Covering(s, upTo))
  }

  lemma CountingBegins(s: Group)
    ensures Counting(s, [], 0, {}, Some(0))
  {
    assert IdsBelow(s, 0) == {};
  }

  /** While nobody comes in, those below the page's end were all counted. */
  lemma CoverGoesOn(s: Group, steps: seq<Step>, others: seq<Step>, from: UserId, to: Option<UserId>, total: nat)
    requires NobodyCameIn(s, steps + others) && (NobodyCameIn(s, steps) ==> |IdsBelow(Run(s, steps), from)| <= total)
    requires to.Some? ==> from <= to.value
    ensures |Covering(Run(s, steps + others), to)| <= total + |PageOf(Run(s, steps + others), from, to)|
  {
    var now := Run(s, steps + others);
    NobodyCameInBefore(s, steps, others);
    SmallerSetsCountLess(IdsBelow(now, from), IdsBelow(Run(s, steps), from));
    SmallerSetsCountLess(Covering(now, to), IdsBelow(now, from) + PageOf(now, from, to));
  }

  lemma PageIsNew(now: Group, counted: set<UserId>, from: UserId, to: Option<UserId>)
    requires (forall u :: u in counted ==> u < from) && (to.Some? ==> from <= to.value)
    ensures var page := PageOf(now, from, to);
            counted !! page && |counted + page| == |counted| + |page| && (to.Some? ==> forall u :: u in counted + page ==> u < to.value)
    ensures IdsBelow(now, from) + PageOf(now, from, to) == Covering(now, to)
  {
  }

  lemma CountGoesOn(s: Group, steps: seq<Step>, others: seq<Step>, total: nat, counted: set<UserId>, from: UserId, to: Option<UserId>)
    requires Counting(s, steps, total, counted, Some(from)) && (to.Some? ==> from <= to.value)
    ensures var page := PageOf(Run(s, steps + others), from, to);
            Counting(s, steps + others, total + |page|, counted + page, to)
  {
    var now := Run(s, steps + others);
    var page := PageOf(now, from, to);
    PageIsThere(s, steps, others, counted, page);
    PageIsNew(now, counted, from, to);
    if NobodyCameIn(s, steps + others) { CoverGoesOn(s, steps, others, from, to, total); }
  }

  /**
   * CountMembers: pages counted one after another. It counts nobody twice and
   * nobody who was not there, and with nobody coming in misses nobody.
   */
  method CountMembers(table: GroupTable, cuts: seq<UserId>, env: Others, start: nat)
    returns (total: nat, next: nat, ghost steps: seq<Step>, ghost counted: set<UserId>)
    modifies table
    ensures table.Rows() == Run(old(table.Rows()), steps)
    ensures NobodyCameIn(old(table.Rows()), steps) ==> |table.members| <= total
    ensures total == |counted| && AllSeenThere(old(table.Rows()), steps, counted)
    ensures OnlyFrom(env, steps) && (Undisturbed(env) ==> steps == [] && counted == table.members.Keys)
  {
    total, next, steps, counted := 0, start, [], {};
    var after := 0;
    ghost var s := table.Rows();
    CountingBegins(s);
    for i := 0 to |cuts| + 1
      invariant table.Rows() == Run(s, steps) && OnlyFrom(env, steps)
      invariant Counting(s, steps, total, counted, if i <= |cuts| then Some(after) else None)
    {
      var others := env(next);
      table.Interleave(others);
      RunAppend(s, steps, others);
      var to := if i < |cuts| then Some(if cuts[i] < after then after else cuts[i]) else None;
      var page := PageOf(table.Rows(), after, to);
      CountGoesOn(s, steps, others, total, counted, after, to);
      OnlyFromGoesOn(env, steps, next);
      steps, next := steps + others, next + 1;
      total, counted := total + |page|, counted + page;
      if to.Some? { after := to.value; }
    }
    NothingFromNobody(env, steps);
  }

  /** What came of joining: a refusal, and the state is the one it was decided in, or the transaction. */
  ghost predicate JoinEnds(t: Group, after: Group, step: Step, r: Result<(), JoinError>) {
    if r.Ok? then Commits(t, step) && after == Effect(t, step) else after == t && (r != Err(GroupFull) ==> !Commits(t, step))
  }

  ghost predicate FoundRoom(s: Group, steps: seq<Step>, maxMembers: nat) {
    Chained(s) && HonestRun(s, steps) && IsRotating(Run(s, steps)) ==> |Run(s, steps).members| < maxMembers
  }

  predicate SequenceReadAt(s: Group, steps: seq<Step>, from: nat, sequence: nat) {
    from <= |steps| && JoinSeq(Run(s, steps[..from])) == sequence
  }

  ghost predicate FoundFull(s: Group, steps: seq<Step>, invitee: UserId, maxMembers: nat, counted: set<UserId>) {
    invitee !in Run(s, steps).members && |counted| >= maxMembers && AllSeenThere(s, steps, counted)
  }

  /** Whoever joined found fewer than the cap since JoinSeq was read, and whoever is refused for it found that many. */
  ghost predicate CapKept(s: Group, steps: seq<Step>, invitee: UserId, maxMembers: nat, seen: Option<nat>, from: nat,
                          counted: set<UserId>, r: Result<(), JoinError>)
  {
    && (r.Ok? ==> seen.Some? && SequenceReadAt(s, steps, from, seen.value) && FoundRoom(s, steps, maxMembers))
    && (r == Err(GroupFull) ==> FoundFull(s, steps, invitee, maxMembers, counted))
  }

  /** With nothing else committing the count is exact. */
  ghost predicate CountedExactly(s: Group, invitee: UserId, maxMembers: nat, r: Result<(), JoinError>) {
    && r != Err(JoinRaced)
    && (s.meta.Some? ==> (r == Err(GroupFull) <==> |s.members| >= maxMembers && invitee !in s.members))
  }

  /** One attempt under a cap, with `before` behind it: read JoinSeq, count, and join if the sequence still stands. */
  method JoinUnderCap(table: GroupTable, inviter: UserId, invitee: Recipient, generation: nat, maxMembers: nat,
                      cuts: seq<UserId>, env: Others, start: nat, ghost s: Group, ghost before: seq<Step>)
    returns (r: Result<(), JoinError>, next: nat, ghost steps: seq<Step>, ghost seen: Option<nat>, ghost from: nat,
             ghost counted: set<UserId>)
    requires table.Rows() == Run(s, before) && OnlyFrom(env, before)
    modifies table
    ensures OnlyFrom(env, steps)
    ensures JoinEnds(Run(s, steps), table.Rows(), Step.CompleteInvite(inviter, invitee, generation, seen), r)
    ensures CapKept(s, steps, invitee.user, maxMembers, seen, from, counted, r)
    ensures r == Err(JoinRaced) ==> table.Rows() == Run(s, steps) && OutrunSince(old(table.Rows()), table.Rows(), 1)
    ensures Undisturbed(env) ==> CountedExactly(old(table.Rows()), invitee.user, maxMembers, r)
  {
    var first := env(start);
    table.Interleave(first);
    RunAppend(s, before, first);
    ghost var read := before + first;
    OnlyFromGoesOn(env, before, start);
    steps, from, seen, counted, next := read, |read|, None, {}, start + 1;
    if table.meta.None? { r := Err(GroupGone); return; }
    var sequence := table.meta.value.joinSeq;
    seen := Some(sequence);
    ghost var atRead := table.Rows();
    var n, upTo, counting, ids := CountMembers(table, cuts, env, start + 1);
    counted := ids;
    RunAppend(s, read, counting);
    CountedAfter(s, read, counting, ids);
    OnlyFromBoth(env, read, counting);
    steps := read + counting;
    if n >= maxMembers {
      r := Err(if invitee.user in table.members then AlreadyMember else GroupFull);
      return;
    }
    var others := env(upTo);
    table.Interleave(others);
    RunAppend(atRead, counting, others);
    RunAppend(s, read, counting + others);
    OnlyFromGoesOn(env, counting, upTo);
    OnlyFromBoth(env, read, counting + others);
    steps, next := read + (counting + others), upTo + 1;
    r := table.CompleteInviteOnce(inviter, invitee, generation, Some(sequence));
    assert steps[..from] == read;
    if r == Err(JoinRaced) { Outrun(old(table.Rows()), first, atRead, counting + others, table.Rows()); }
    if r.Ok? { RoomUnderItsSequence(s, read, atRead, counting, others, maxMembers, n); }
  }

  /** At least n capped joins have committed in between. */
  predicate OutrunSince(s: Group, t: Group, n: nat) { t.meta.Some? && JoinSeq(s) + n <= JoinSeq(t) }

  lemma Outrun(s: Group, first: seq<Step>, atRead: Group, more: seq<Step>, t: Group)
    requires atRead == Run(s, first) && t == Run(atRead, more) && t.meta.Some? && JoinSeq(t) != JoinSeq(atRead)
    ensures OutrunSince(s, t, 1)
  {
    JoinSeqGrows(atRead, more);
    JoinSeqGrows(s, first);
  }

  method JoinUncapped(table: GroupTable, inviter: UserId, invitee: Recipient, generation: nat, others: seq<Step>)
    returns (r: Result<(), JoinError>)
    modifies table
    ensures JoinEnds(Run(old(table.Rows()), others), table.Rows(), Step.CompleteInvite(inviter, invitee, generation, None), r)
    ensures r != Err(GroupFull) && r != Err(JoinRaced)
  {
    table.Interleave(others);
    r := table.CompleteInviteOnce(inviter, invitee, generation, None);
  }

  /**
   * CompleteInvite: with a cap, count under JoinSeq and retry when another
   * join got in between. A join that commits found the group below the cap.
   */
  method CompleteInvite(table: GroupTable, inviter: UserId, invitee: Recipient, generation: nat, maxMembers: nat,
                        cuts: seq<UserId>, env: Others)
    returns (r: Result<(), JoinError>, ghost steps: seq<Step>, ghost seen: Option<nat>, ghost from: nat, ghost counted: set<UserId>)
    modifies table
    ensures OnlyFrom(env, steps)
    ensures JoinEnds(Run(old(table.Rows()), steps), table.Rows(), Step.CompleteInvite(inviter, invitee, generation, seen), r)
    ensures maxMembers == 0 ==> seen.None? && r != Err(GroupFull)
    ensures maxMembers > 0 ==> CapKept(old(table.Rows()), steps, invitee.user, maxMembers, seen, from, counted, r)
    ensures maxMembers > 0 && Undisturbed(env) ==> CountedExactly(old(table.Rows()), invitee.user, maxMembers, r)
    ensures r == Err(JoinRaced) ==> maxMembers > 0 && OutrunSince(old(table.Rows()), table.Rows(), 5)
  {
    ghost var s := table.Rows();
    seen, from, counted := None, 0, {};
    if maxMembers == 0 {
      var others := env(0);
      steps := others;
      r := JoinUncapped(table, inviter, invitee, generation, others);
      return;
    }
    var next := 0;
    steps, r := [], Err(JoinRaced);
    for attempt := 0 to MAX_JOIN_ATTEMPTS
      invariant r == Err(JoinRaced) && table.Rows() == Run(s, steps) && OnlyFrom(env, steps)
      invariant (Undisturbed(env) ==> attempt == 0) && (attempt == 0 ==> steps == [])
      invariant attempt > 0 ==>
                  JoinEnds(Run(s, steps), table.Rows(), Step.CompleteInvite(inviter, invitee, generation, seen), r)
                  && OutrunSince(s, table.Rows(), attempt)
    {
      r, next, steps, seen, from, counted :=
        JoinUnderCap(table, inviter, invitee, generation, maxMembers, cuts, env, next, s, steps);
      if r != Err(JoinRaced) { return; }
    }
  }

  lemma CountedAfter(s: Group, read: seq<Step>, counting: seq<Step>, counted: set<UserId>)
    requires AllSeenThere(Run(s, read), counting, counted)
    ensures AllSeenThere(s, read + counting, counted)
  {
    forall u | u in counted ensures SeenThere(s, read + counting, u) {
      var i :| 0 <= i <= |counting| && u in Run(Run(s, read), counting[..i]).members;
      ReadPoints(s, read, counting, i);
    }
  }

  lemma CountedUnderItsSequence(s: Group, read: seq<Step>, atRead: Group, counting: seq<Step>, others: seq<Step>, t: Group)
    requires Chained(s) && HonestRun(s, read + (counting + others)) && atRead == Run(s, read)
    requires t == Run(atRead, counting + others) && IsRotating(t) && JoinSeq(t) == JoinSeq(atRead)
    ensures NobodyCameIn(atRead, counting) && |t.members| <= |Run(atRead, counting).members|
  {
    var rest := counting + others;
    RunSplits(s, read + rest, |read|);
    assert (read + rest)[..|read|] == read && (read + rest)[|read|..] == rest;
    RunKeepsChained(s, read);
    NobodyCameInBefore(atRead, counting, others);
    SmallerSetsCountLess(t.members.Keys, Run(atRead, counting).members.Keys);
  }

  /** A count below the cap still holds for a join at the same sequence. */
  lemma RoomUnderItsSequence(s: Group, read: seq<Step>, atRead: Group, counting: seq<Step>, others: seq<Step>, maxMembers: nat, n: nat)
    requires atRead == Run(s, read) && JoinSeq(Run(atRead, counting + others)) == JoinSeq(atRead) && n < maxMembers
    requires NobodyCameIn(atRead, counting) ==> |Run(atRead, counting).members| <= n
    ensures FoundRoom(s, read + (counting + others), maxMembers)
  {
    var t := Run(atRead, counting + others);
    RunAppend(s, read, counting + others);
    if Chained(s) && HonestRun(s, read + (counting + others)) && IsRotating(t) {
      CountedUnderItsSequence(s, read, atRead, counting, others, t);
    }
  }

  // ----- leaving -----

  /** A tombstone is for good. */
  lemma {:induction false} DeletedStaysDeleted(s: Group, steps: seq<Step>, u: UserId)
    requires u in s.users && s.users[u].profile.deleted
    ensures u in Run(s, steps).users && Run(s, steps).users[u].profile.deleted
    decreases |steps|
  {
    if steps != [] {
      if Commits(s, steps[0]) { Resumption.DeletedAccountStays(s, steps[0], u); }
      DeletedStaysDeleted(Next(s, steps[0]), steps[1..], u);
    }
  }

  predicate Tombstoned(s: Group, u: UserId) { u in s.users && s.users[u].profile.deleted }

  /** Somebody's role in some state since the call. */
  predicate SeenWith(s: Group, steps: seq<Step>, u: UserId, role: Role) {
    exists i :: 0 <= i <= |steps| && HasRole(Run(s, steps[..i]), u, role)
  }

  ghost predicate MemberThroughout(s: Group, steps: seq<Step>, u: UserId) {
    forall i :: 0 <= i <= |steps| ==> u in Run(s, steps[..i]).members
  }

  /** Every entry was somebody's role, and whoever was a member all along has one. */
  ghost predicate RosterOf(s: Group, steps: seq<Step>, roles: map<UserId, Role>) {
    && (forall u :: u in roles ==> SeenWith(s, steps, u, roles[u]))
    && (forall u: UserId :: MemberThroughout(s, steps, u) ==> u in roles)
  }

  lemma SeenStays(s: Group, steps: seq<Step>, more: seq<Step>, u: UserId, role: Role)
    requires SeenWith(s, steps, u, role)
    ensures SeenWith(s, steps + more, u, role)
  {
    var i :| 0 <= i <= |steps| && HasRole(Run(s, steps[..i]), u, role);
    assert (steps + more)[..i] == steps[..i];
  }

  lemma ThroughoutIsShorter(s: Group, steps: seq<Step>, more: seq<Step>, u: UserId)
    requires MemberThroughout(s, steps + more, u)
    ensures MemberThroughout(s, steps, u) && u in Run(s, steps + more).members
  {
    assert (steps + more)[..|steps + more|] == steps + more;
    forall i | 0 <= i <= |steps| ensures u in Run(s, steps[..i]).members { assert (steps + more)[..i] == steps[..i]; }
  }

  lemma RosterStays(s: Group, steps: seq<Step>, more: seq<Step>, roles: map<UserId, Role>)
    requires RosterOf(s, steps, roles)
    ensures RosterOf(s, steps + more, roles)
  {
    forall u | u in roles ensures SeenWith(s, steps + more, u, roles[u]) { SeenStays(s, steps, more, u, roles[u]); }
    forall u: UserId | MemberThroughout(s, steps + more, u) ensures u in roles { ThroughoutIsShorter(s, steps, more, u); }
  }

  /** The page read now. */
  lemma PageIsSeen(s: Group, steps: seq<Step>, u: UserId)
    requires u in Run(s, steps).members
    ensures SeenWith(s, steps, u, Run(s, steps).members[u].role)
  {
    assert steps[..|steps|] == steps;
  }

  /** memberRoles: the roster, page by page. */
  method ReadRoster(table: GroupTable, cuts: seq<UserId>, env: Others)
    returns (roles: map<UserId, Role>, next: nat, ghost steps: seq<Step>)
    modifies table
    ensures table.Rows() == Run(old(table.Rows()), steps)
    ensures OnlyFrom(env, steps) && (steps == [] ==> roles == map u | u in table.members :: table.members[u].role)
    ensures RosterOf(old(table.Rows()), steps, roles)
  {
    roles, next, steps := map[], 0, [];
    var after := 0;
    ghost var s := table.Rows();
    for i := 0 to |cuts| + 1
      invariant table.Rows() == Run(s, steps) && OnlyFrom(env, steps)
      invariant forall u :: u in roles ==> SeenWith(s, steps, u, roles[u])
      invariant forall u: UserId :: MemberThroughout(s, steps, u) && (i > |cuts| || u < after) ==> u in roles
    {
      var others := env(next);
      table.Interleave(others);
      RunAppend(s, steps, others);
      forall u | u in roles ensures SeenWith(s, steps + others, u, roles[u]) { SeenStays(s, steps, others, u, roles[u]); }
      forall u: UserId | MemberThroughout(s, steps + others, u)
        ensures MemberThroughout(s, steps, u) && u in table.members
      {
        ThroughoutIsShorter(s, steps, others, u);
      }
      OnlyFromGoesOn(env, steps, next);
      steps, next := steps + others, next + 1;
      var to := if i < |cuts| then Some(cuts[i]) else None;
      forall u | u in table.members ensures SeenWith(s, steps, u, table.members[u].role) { PageIsSeen(s, steps, u); }
      roles := roles + map u | u in table.members && InPage(u, after, to) :: table.members[u].role;
      if i < |cuts| { after := cuts[i]; }
    }
    if steps == [] { QuietRoster(s, roles); }
  }

  /** With nothing else committing, the roster is the members as they are. */
  lemma QuietRoster(s: Group, roles: map<UserId, Role>)
    requires RosterOf(s, [], roles)
    ensures roles == map u | u in s.members :: s.members[u].role
  {
    var none: seq<Step> := [];
    assert none[..0] == none && Run(s, none) == s;
    forall u | u in roles ensures HasRole(s, u, roles[u]) { assert SeenWith(s, none, u, roles[u]); }
    forall u | u in s.members ensures u in roles { assert MemberThroughout(s, none, u); }
  }

  /** Every other admin on the roster has a deleted account. */
  predicate OtherAdminsGone(s: Group, roles: map<UserId, Role>, leaver: UserId) {
    forall u :: u in roles && u != leaver && roles[u] == Admin ==> Tombstoned(s, u)
  }

  /** liveOtherAdmin: the first other admin on the roster whose profile, read now, is no tombstone. */
  method LiveOtherAdmin(table: GroupTable, roles: map<UserId, Role>, leaver: UserId, env: Others, start: nat)
    returns (successor: Option<UserId>, next: nat, ghost steps: seq<Step>)
    modifies table
    ensures table.Rows() == Run(old(table.Rows()), steps)
    ensures successor.Some? ==>
              successor.value != leaver && successor.value in roles && roles[successor.value] == Admin
              && !Tombstoned(table.Rows(), successor.value)
    ensures successor.None? ==> OtherAdminsGone(table.Rows(), roles, leaver)
    ensures OtherAdminsGone(old(table.Rows()), roles, leaver) ==> successor.None?
    ensures OnlyFrom(env, steps)
  {
    next, steps := start, [];
    var left := set u | u in roles && u != leaver && roles[u] == Admin;
    ghost var all := left;
    while left != {}
      invariant left <= all && table.Rows() == Run(old(table.Rows()), steps) && OnlyFrom(env, steps)
      invariant forall u :: u in all - left ==> Tombstoned(table.Rows(), u)
      decreases left
    {
      var u :| u in left;
      var others := env(next);
      ghost var before := table.Rows();
      table.Interleave(others);
      RunAppend(old(table.Rows()), steps, others);
      forall v | v in all - left ensures Tombstoned(table.Rows(), v) { DeletedStaysDeleted(before, others, v); }
      OnlyFromGoesOn(env, steps, next);
      steps, next := steps + others, next + 1;
      if u !in table.users || !table.users[u].profile.deleted {
        if Tombstoned(old(table.Rows()), u) { DeletedStaysDeleted(old(table.Rows()), steps, u); }
        return Some(u), next, steps;
      }
      left := left - {u};
    }
    return None, next, steps;
  }

  lemma GoneStayGone(s: Group, steps: seq<Step>, roles: map<UserId, Role>, leaver: UserId)
    requires OtherAdminsGone(s, roles, leaver)
    ensures OtherAdminsGone(Run(s, steps), roles, leaver)
  {
    forall u | u in roles && u != leaver && roles[u] == Admin ensures Tombstoned(Run(s, steps), u) {
      DeletedStaysDeleted(s, steps, u);
    }
  }

  /** The only member's leaving: the group goes with them, and a membership lost meanwhile is told from a lost race. */
  ghost predicate Alone(t: Group, after: Group, leaver: UserId, r: Result<bool, RequestError>) {
    && r in {Ok(true), Err(NotAMember), Err(Refused(LeaveConflict))}
    && (r.Ok? <==> Commits(t, Step.DeleteGroup(leaver))) && after == Next(t, Step.DeleteGroup(leaver))
    && (r == Err(NotAMember) <==> leaver !in t.members)
  }

  /** deleteGroup for the only member. */
  method LeaveAlone(table: GroupTable, leaver: UserId, others: seq<Step>) returns (r: Result<bool, RequestError>)
    modifies table
    ensures Alone(Run(old(table.Rows()), others), table.Rows(), leaver, r)
  {
    table.Interleave(others);
    var there := leaver in table.members;
    var deleted := table.DeleteGroup(leaver);
    return if deleted then Ok(true) else if there then Err(Refused(LeaveConflict)) else Err(NotAMember);
  }

  /** Which refusal a leave from among others gets before anything is written, in the order they are checked. */
  predicate AsAsked(roles: map<UserId, Role>, leaver: UserId, demotion: Option<(GrantKey, GrantRef)>, from: Option<nat>,
                    rotating: bool, r: Result<bool, RequestError>)
    requires leaver in roles
  {
    && r != Ok(true) && r != Err(NotAMember)
    && (r == Err(RotationRequired) <==> rotating && from.None?)
    && (r == Err(RotationNotApplicable) <==> !rotating && from.Some?)
    && (r == Err(LastAdmin) ==> (rotating <==> from.Some?) && roles[leaver] == Admin)
    && (r == Err(DemotionRequired) <==>
          (rotating <==> from.Some?) && r != Err(LastAdmin) && roles[leaver] != Member && demotion.None?)
    && (r.Err? ==> r.error in {RotationRequired, RotationNotApplicable, LastAdmin, DemotionRequired} || r.error.Refused?)
  }

  /**
   * A leave from among others, called at `before`, its last read or write at t.
   * An admin is the last one if every other on the roster is a tombstone, at
   * the latest when looked at; if all are already, that is the answer. What is
   * refused then is a demotion that does not belong, or a transaction that
   * does not commit.
   */
  ghost predicate AmongOthers(before: Group, t: Group, after: Group, roles: map<UserId, Role>, leaver: UserId,
                              demotion: Option<(GrantKey, GrantRef)>, from: Option<nat>, rotating: bool, successor: UserId,
                              r: Result<bool, RequestError>)
    requires leaver in roles
  {
    var step := LeaveStep(leaver, roles[leaver], demotion, successor, from);
    && AsAsked(roles, leaver, demotion, from, rotating, r)
    && (r.Err? ==> after == t)
    && (r == Ok(false) ==> (roles[leaver] != Member <==> demotion.Some?) && Commits(t, step) && after == Effect(t, step))
    && (r == Err(LastAdmin) ==> OtherAdminsGone(t, roles, leaver))
    && ((rotating <==> from.Some?) && roles[leaver] == Admin && OtherAdminsGone(before, roles, leaver) ==> r == Err(LastAdmin))
    && (r.Err? && r.error.Refused? ==> (roles[leaver] == Member && demotion.Some?) || !Commits(t, step))
    && (roles[leaver] == Admin && (r.Ok? || r.error.Refused?) ==>
          successor != leaver && successor in roles && roles[successor] == Admin)
  }

  lemma CalledEarlier(s: Group, reading: seq<Step>, t: Group, after: Group, roles: map<UserId, Role>, leaver: UserId,
                      demotion: Option<(GrantKey, GrantRef)>, from: Option<nat>, rotating: bool, successor: UserId,
                      r: Result<bool, RequestError>)
    requires leaver in roles && AmongOthers(Run(s, reading), t, after, roles, leaver, demotion, from, rotating, successor, r)
    ensures AmongOthers(s, t, after, roles, leaver, demotion, from, rotating, successor, r)
  {
    if OtherAdminsGone(s, roles, leaver) { GoneStayGone(s, reading, roles, leaver); }
  }

  /**
   * LeaveGroup: the only member's leaving deletes the group; an admin's waits
   * for another admin whose account is live; a Rotating group's carries a rotation.
   */
  method LeaveGroup(table: GroupTable, leaver: UserId, demotion: Option<(GrantKey, GrantRef)>, from: Option<nat>,
                    rotating: bool, cuts: seq<UserId>, env: Others)
    returns (r: Result<bool, RequestError>, ghost steps: seq<Step>, ghost roles: map<UserId, Role>, ghost successor: UserId)
    modifies table
    ensures OnlyFrom(env, steps) && RosterOf(old(table.Rows()), steps, roles)
    ensures leaver !in roles ==> r == Err(NotAMember) && table.Rows() == Run(old(table.Rows()), steps)
    ensures roles.Keys == {leaver} ==> Alone(Run(old(table.Rows()), steps), table.Rows(), leaver, r)
    ensures leaver in roles && roles.Keys != {leaver} ==>
              AmongOthers(old(table.Rows()), Run(old(table.Rows()), steps), table.Rows(), roles, leaver, demotion, from, rotating,
                          successor, r)
  {
    ghost var s := table.Rows();
    var roster, next, reading := ReadRoster(table, cuts, env);
    steps, roles, successor := reading, roster, leaver;
    if leaver !in roster { r := Err(NotAMember); return; }
    if |roster| == 1 {
      OnlyKey(roster, leaver);
      var others := env(next);
      r := LeaveAlone(table, leaver, others);
      RunAppend(s, steps, others);
      RosterStays(s, steps, others, roles);
      OnlyFromGoesOn(env, steps, next);
      steps := steps + others;
      return;
    }
    assert |roster| == |roster.Keys|;
    var left, leaving, other := LeaveOthers(table, roster, leaver, demotion, from, rotating, env, next);
    RunAppend(s, steps, leaving);
    RosterStays(s, steps, leaving, roles);
    OnlyFromBoth(env, steps, leaving);
    CalledEarlier(s, steps, Run(s, steps + leaving), table.Rows(), roles, leaver, demotion, from, rotating, other, left);
    r, steps, successor := left, steps + leaving, other;
  }

  /** The same once the roster shows somebody else. */
  method LeaveOthers(table: GroupTable, roster: map<UserId, Role>, leaver: UserId, demotion: Option<(GrantKey, GrantRef)>,
                     from: Option<nat>, rotating: bool, env: Others, start: nat)
    returns (r: Result<bool, RequestError>, ghost steps: seq<Step>, ghost successor: UserId)
    requires leaver in roster
    modifies table
    ensures OnlyFrom(env, steps)
    ensures AmongOthers(old(table.Rows()), Run(old(table.Rows()), steps), table.Rows(), roster, leaver, demotion, from, rotating,
                        successor, r)
  {
    ghost var s := table.Rows();
    steps, successor := [], leaver;
    if rotating && from.None? { r := Err(RotationRequired); return; }
    if !rotating && from.Some? { r := Err(RotationNotApplicable); return; }
    var role := roster[leaver];
    var other, next := leaver, start;
    if role == Admin {
      var found, n, looking := LiveOtherAdmin(table, roster, leaver, env, next);
      steps, next := looking, n;
      if found.None? {
        r := Err(LastAdmin);
        return;
      }
      other := found.value;
    }
    successor := other;
    if role != Member && demotion.None? { r := Err(DemotionRequired); return; }
    if role == Member && demotion.Some? { r := Err(Refused(LeaveConflict)); return; }
    var others := env(next);
    table.Interleave(others);
    RunAppend(s, steps, others);
    OnlyFromGoesOn(env, steps, next);
    steps := steps + others;
    var key, under := if demotion.Some? then Some(demotion.value.0) else None,
                      if demotion.Some? then demotion.value.1 else GrantRef(0, false);
    var committed := table.CommitLeave(leaver, role, key, under, other, from);
    r := if committed.Ok? then Ok(false) else Err(Refused(committed.error));
  }

  function LeaveStep(leaver: UserId, role: Role, demotion: Option<(GrantKey, GrantRef)>, successor: UserId,
                     from: Option<nat>): Step
  {
    Step.LeaveGroup(leaver, role, if demotion.Some? then Some(demotion.value.0) else None,
                    if demotion.Some? then demotion.value.1 else GrantRef(0, false), successor, from)
  }

  lemma OnlyKey(roles: map<UserId, Role>, u: UserId)
    requires u in roles && |roles| == 1
    ensures roles.Keys == {u}
  {
    assert |roles.Keys| == 1;
    if v :| v in roles.Keys && v != u {
      SmallerSetsCountLess({u, v}, roles.Keys);
    }
  }
}
