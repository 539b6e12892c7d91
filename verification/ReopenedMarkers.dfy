/**
 * What a leave from behind does: the marker of a rotation that is over stands
 * again, and with it what was built and scanned while it stood the first time.
 */
module ReopenedMarkers {
  import opened Wrappers
  import opened Groups
  import opened GroupInvariants
  import opened MarkerLife
  import opened Completion
  import opened Histories
  import opened MissedMembers
  import opened ContentPins

  /**
   * The rotation to Cur is running; a is at it and not dormant; u is two
   * generations behind, x, an ambassador, one; both dormant.
   */
  predicate Spread(s: Group, a: UserId, u: UserId, x: UserId) {
    && Able(s, a) && IsRotating(s) && MarkerAt(s, Cur(s)) && !Dormant(s, a) && u != a && x != a && u != x
    && (forall v :: v in s.members && v != a ==> Dormant(s, v))
    && u in s.members && s.members[u].generation + 2 == Cur(s) && Live(s, u)
    && Holds(s, x, Ambassador, Cur(s) - 1)
  }

  lemma SpreadIsReached(s: Group, a: UserId) returns (steps: seq<Step>, t: Group, u: UserId, x: UserId)
    requires Ready(s, a) && IsRotating(s)
    ensures Leads(s, steps, t) && Consistent(t) && Spread(t, a, u, x)
  {
    var first, s1, u1 := LeaveOneBehind(s, a);
    var second, s2, x2 := InviteAnAmbassador(s1, a, u1);
    u, x := u1, x2;
    LeadsOn(s, first, s1, second, s2);
    RunKeepsConsistent(s1, second);
    var third, s3 := RotateAll(s2, a, u, x);
    LeadsOn(s, first + second, s2, third, s3);
    steps, t := first + second + third, s3;
  }

  lemma InviteAnAmbassador(s: Group, a: UserId, u: UserId) returns (steps: seq<Step>, t: Group, x: UserId)
    requires EntriesOk(s) && Able(s, a) && LeftBehind(s, a, u)
    ensures Leads(s, steps, t) && Able(t, a) && (IsRotating(s) ==> IsRotating(t)) && Holds(t, x, Ambassador, Cur(t)) && u != a && u != x && x != a
    ensures u in t.members && t.members[u].generation + 1 == Cur(t) && Live(t, u)
  {
    x := Newcomer(s);
    var invite := InviteAs(s, a, x, Cur(s));
    var q := Invited(s, x, Cur(s));
    InviteKeepsAble(s, a, x, Cur(s));
    var promote, last := MakeAmbassador(q, a, x);
    t := last;
    LeadsOn(s, invite, q, promote, t);
    steps := invite + promote;
  }

  lemma MakeAmbassador(s: Group, a: UserId, x: UserId) returns (steps: seq<Step>, t: Group)
    requires Able(s, a) && x != a && x in s.members && s.members[x].generation == Cur(s) && Live(s, x)
    ensures Leads(s, steps, t) && Able(t, a) && Holds(t, x, Ambassador, Cur(t)) && Cur(t) == Cur(s) && t.users == s.users && t.meta == s.meta
    ensures forall u :: u in s.members && u != x ==> u in t.members && t.members[u] == s.members[u]
  {
    steps, t := Promote(s, a, x, Ambassador);
    PromotedIsAble(s, t, a, x);
  }

  lemma PromotedIsAble(s: Group, t: Group, a: UserId, x: UserId)
    requires Able(s, a) && x != a && x in s.members
    requires t == s.(members := t.members, grants := t.grants, grantLog := t.grantLog) && t.members.Keys == s.members.Keys
    requires forall u :: u in s.members && u != x ==> t.members[u] == s.members[u]
    requires t.members[x] == s.members[x].(role := t.members[x].role, grant := t.members[x].grant)
    ensures Able(t, a)
  {
    forall v | v in t.members && !Live(t, v) ensures Dormant(t, v) {
      assert v in s.members && !Live(s, v);
    }
  }

  lemma RotateAll(s: Group, a: UserId, u: UserId, x: UserId) returns (steps: seq<Step>, t: Group)
    requires Ready(s, a) && IsRotating(s) && Holds(s, x, Ambassador, Cur(s)) && u != a && u != x && x != a
    requires u in s.members && s.members[u].generation + 1 == Cur(s) && Live(s, u)
    ensures Leads(s, steps, t) && Consistent(t) && Spread(t, a, u, x)
  {
    var first, p := Prepare(s, a);
    var start, last := Rekey(p, a);
    t := last;
    LeadsOn(s, first, p, start, t);
    steps := first + start;
    RekeyedIsSpread(p, a, u, x);
  }

  lemma RekeyedIsSpread(p: Group, a: UserId, u: UserId, x: UserId)
    requires CanRekey(p, a) && IsRotating(p) && Cur(p) !in p.links && AllDormant(p)
    requires Holds(p, x, Ambassador, Cur(p)) && u != a && u != x && x != a
    requires u in p.members && p.members[u].generation + 1 == Cur(p) && Live(p, u)
    ensures Spread(Rekeyed(p, a), a, u, x)
  {
    RekeyKeepsAble(p, a);
    RekeyedIs(p, a);
  }

  // ----- the rotation is over, and its marker stands again -----

  /** The completion; the ambassador approves u at the generation before; and leaves from it. */
  lemma Reopen(s: Group, a: UserId, u: UserId, x: UserId) returns (rest: seq<Step>, t: Group)
    requires Consistent(s) && Spread(s, a, u, x)
    ensures HonestRun(s, rest) && Run(s, rest) == t && ReopensIn(s, rest, Cur(s))
    ensures |rest| == 3 && rest[0].CompleteRotation? && Commits(s, rest[0]) && rest[0].generation == Cur(s)
    ensures IsRotating(t) && MarkerAt(t, Cur(s)) && t.users == s.users && t.joined == s.joined
    ensures a in t.members && t.members[a] == s.members[a]
    ensures u in t.members && t.members[u].generation + 1 == Cur(s) && !Dormant(t, u)
    ensures t.members[u].joinedAs == s.members[u].joinedAs
  {
    CurrentRecipientIsObserved(s, u);
    var done, v := CompleteStep(s, a, u, x);
    var approval, w, leave, last := ReopenSteps(v, a, u, x);
    t, rest := last, [done, approval, leave];
    RunOfThree(s, done, v, approval, w, leave, t, Cur(s));
  }

  lemma CompleteStep(s: Group, a: UserId, u: UserId, x: UserId) returns (done: Step, v: Group)
    requires Spread(s, a, u, x)
    ensures done == CompleteRotation(a, Cur(s), |s.joined|) && v == s.(marker := None)
    ensures Honest(s, done) && Commits(s, done) && Next(s, done) == v && Waiting(v, a, u, x)
  {
    done, v := CompleteRotation(a, Cur(s), |s.joined|), s.(marker := None);
  }

  predicate Waiting(s: Group, a: UserId, u: UserId, x: UserId) {
    && IsRotating(s) && s.marker.None? && a in s.members && u != a && x != a && u != x
    && u in s.members && Live(s, u) && Dormant(s, u) && s.members[u].generation + 2 == Cur(s)
    && Holds(s, x, Ambassador, Cur(s) - 1)
  }

  lemma ReopenSteps(s: Group, a: UserId, u: UserId, x: UserId) returns (approval: Step, w: Group, leave: Step, t: Group)
    requires Waiting(s, a, u, x) && Observed(s, CurrentRecipient(s, u))
    ensures Honest(s, approval) && Next(s, approval) == w
    ensures Honest(w, leave) && Next(w, leave) == t && Reopens(w, leave, Cur(s))
    ensures IsRotating(t) && MarkerAt(t, Cur(s)) && t.users == s.users && t.joined == s.joined
    ensures a in t.members && t.members[a] == s.members[a]
    ensures u in t.members && t.members[u].generation + 1 == Cur(s) && !Dormant(t, u)
    ensures t.members[u].joinedAs == s.members[u].joinedAs
  {
    approval, w := ApproveFromBehind(s, u, x);
    leave, t := LeaveFromBehind(w, a, x);
  }

  lemma RunOfThree(s: Group, done: Step, v: Group, approval: Step, w: Group, leave: Step, t: Group, generation: nat)
    requires Honest(s, done) && Next(s, done) == v && Honest(v, approval) && Next(v, approval) == w
    requires Honest(w, leave) && Next(w, leave) == t && Reopens(w, leave, generation)
    ensures HonestRun(s, [done, approval, leave]) && Run(s, [done, approval, leave]) == t
    ensures ReopensIn(s, [done, approval, leave], generation)
  {
    UnrollTwo(s, done, approval);
    RunOne(w, leave);
    RunAppend(s, [done, approval], [leave]);
    assert [done, approval] + [leave] == [done, approval, leave];
  }

  lemma ApproveFromBehind(v: Group, u: UserId, x: UserId) returns (approval: Step, w: Group)
    requires v.marker.None? && x in v.members && v.members[x].role == Ambassador && x != u
    requires u in v.members && v.members[u].generation < v.members[x].generation && Live(v, u) && Dormant(v, u)
    requires Observed(v, CurrentRecipient(v, u))
    ensures Honest(v, approval) && Next(v, approval) == w
    ensures w == Rewrapped(v, CurrentRecipient(v, u), v.members[x].generation)
  {
    approval := ApproveRewrap(x, CurrentRecipient(v, u), v.members[x].generation, false, false);
    ApprovedByAmbassador(v, x, u, approval);
    w := Next(v, approval);
  }

  lemma ApprovedByAmbassador(v: Group, x: UserId, u: UserId, approval: Step)
    requires v.marker.None? && x in v.members && v.members[x].role == Ambassador && x != u
    requires u in v.members && v.members[u].generation < v.members[x].generation && Live(v, u) && Dormant(v, u)
    requires approval == ApproveRewrap(x, CurrentRecipient(v, u), v.members[x].generation, false, false)
    requires Observed(v, CurrentRecipient(v, u))
    ensures Honest(v, approval) && Next(v, approval) == Rewrapped(v, CurrentRecipient(v, u), v.members[x].generation)
  {
  }

  lemma LeaveFromBehind(s: Group, a: UserId, x: UserId) returns (leave: Step, t: Group)
    requires IsRotating(s) && s.marker.None? && x != a && a in s.members
    requires x in s.members && s.members[x].role == Ambassador && s.members[x].generation < Cur(s)
    ensures Honest(s, leave) && Next(s, leave) == t && Reopens(s, leave, s.members[x].generation + 1)
    ensures t.meta == s.meta && t.users == s.users && t.joined == s.joined && MarkerAt(t, s.members[x].generation + 1)
    ensures t.members == s.members - {x}
  {
    var key := Bound(s.grants.Keys);
    leave := LeaveGroup(x, Ambassador, Some(key), OwnGrant(s, x), a, Some(s.members[x].generation));
    t := Next(s, leave);
  }

  /**
   * From any such group: a scan of it passes, the rotation is completed and so
   * over; its marker stands again; and the same scan's completion commits past u.
   */
  lemma ReopenedMarkerMissesAMember(s: Group, a: UserId) returns (first: seq<Step>, page: Group, rest: seq<Step>, u: UserId)
    requires Ready(s, a) && IsRotating(s)
    ensures Leads(s, first, page) && IsRotating(page) && MarkerAt(page, Cur(page)) && ReopensIn(page, rest, Cur(page))
    ensures |rest| > 0 && Over(Next(page, rest[0]), Cur(page))
    ensures ScanCommits(page, rest, a, Cur(page), At(0), At(0)) && !AllExcused(page, rest, Cur(page), At(0))
  {
    var steps, s1, u1, x := SpreadIsReached(s, a);
    first, page, u := steps, s1, u1;
    rest := OldScanMisses(page, a, u, x);
  }

  lemma CompletedIsOver(s: Group, done: Step)
    requires Chained(s) && s.meta.Some? && done.CompleteRotation? && Commits(s, done)
    ensures Over(Next(s, done), done.generation)
  {
    StepMovesMarker(s, done, done.generation);
  }

  lemma OldScanMisses(page: Group, a: UserId, u: UserId, x: UserId) returns (rest: seq<Step>)
    requires Consistent(page) && Spread(page, a, u, x)
    ensures ReopensIn(page, rest, Cur(page)) && |rest| > 0 && Over(Next(page, rest[0]), Cur(page))
    ensures ScanCommits(page, rest, a, Cur(page), At(0), At(0)) && !AllExcused(page, rest, Cur(page), At(0))
  {
    var more, t := Reopen(page, a, u, x);
    rest := more;
    CompletedIsOver(page, rest[0]);
    MemberIsThere(page, u);
    assert [] + rest == rest;
    MissedScan(page, [], page, rest, t, a, Cur(page), u);
  }

  /** And a write built while it stood the first time is admitted again. */
  lemma ReopenedMarkerAdmitsAnOldPin(s: Group, a: UserId) returns (first: seq<Step>, page: Group, rest: seq<Step>, pin: Pin)
    requires Ready(s, a) && IsRotating(s)
    ensures Leads(s, first, page) && HonestRun(page, rest) && ReopensIn(page, rest, Cur(page)) && MarkerAt(page, Cur(page))
    ensures |rest| > 0 && Over(Next(page, rest[0]), Cur(page)) && !Admits(Next(page, rest[0]), pin)
    ensures pin.marker == Some(Cur(page)) && Admits(page, pin) && Admits(Run(page, rest), pin)
    ensures pin == PinFor(page, page, a, pin.epoch)
  {
    var steps, s1, u, x := SpreadIsReached(s, a);
    first, page := steps, s1;
    var more, t := Reopen(page, a, u, x);
    rest := more;
    CompletedIsOver(page, rest[0]);
    pin := PinFor(page, page, a, page.members[a].wrapEpoch);
    AdminIsCurrent(page, a);
  }

  lemma AdminIsCurrent(s: Group, a: UserId)
    requires EntriesOk(s) && a in s.members && !Dormant(s, a)
    ensures a in s.users && s.users[a].profile.keyEpoch == s.members[a].wrapEpoch
  {
    assert EntryOk(s, a);
  }
}
