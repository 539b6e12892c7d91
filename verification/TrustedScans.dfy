/**
 * From where a completion's scan can be trusted, exactly: for every group that
 * has an admin, in either mode, whatever marker stands, and every generation.
 */
module TrustedScans {
  import opened Wrappers
  import opened Groups
  import opened GroupInvariants
  import opened Completion
  import opened Histories
  import opened MissedMembers
  import opened RotationEnds

  // ----- where no completion commits -----

  /** Only the gone are at the newest generation, or where the marker that stands needs somebody. */
  predicate Stalled(s: Group) {
    Deserted(s, Cur(s)) || (s.marker.Some? && Deserted(s, Front(s, s.marker.value.generation)))
  }

  /** No rotation can be started any more, or ever could. */
  predicate NoMoreKeys(s: Group) { BornOpen(s) || Stalled(s) }

  /** Under its marker: Rotating, or nobody to miss, or nobody to complete it. Without: not to be minted, over or never. */
  predicate Trusted(s: Group, generation: nat) {
    if MarkerAt(s, generation) then IsRotating(s) || Settled(s, generation) || Deserted(s, Front(s, generation))
    else generation <= Cur(s) || NoMoreKeys(s)
  }

  lemma DesertedNeverCompletes(s: Group, steps: seq<Step>, caller: UserId, generation: nat, since: nat)
    requires Chained(s) && MarkerAt(s, generation) && Deserted(s, Front(s, generation)) && Run(s, steps).meta.Some?
    ensures !Commits(Run(s, steps), CompleteRotation(caller, generation, since))
  {
    var t := Run(s, steps);
    DesertedRotationNeverEnds(s, steps, generation);
    RunKeepsChained(s, steps);
    if Commits(t, CompleteRotation(caller, generation, since)) {
      NobodyActs(t, CompleteRotation(caller, generation, since), generation);
    }
  }

  lemma NothingAheadCompletes(s: Group, caller: UserId, generation: nat, since: nat)
    requires Chained(s) && s.meta.Some? && Commits(s, CompleteRotation(caller, generation, since))
    ensures generation <= Cur(s)
  {
    assert s.members[caller].generation == generation;
  }

  lemma BornOpenNeverCompletes(s: Group, steps: seq<Step>, caller: UserId, generation: nat, since: nat)
    requires BornOpen(s) && BirthOk(s) && Chained(s) && HonestRun(s, steps) && Run(s, steps).meta.Some?
    ensures !Commits(Run(s, steps), CompleteRotation(caller, generation, since))
  {
    BornOpenNeverRotates(s, steps);
  }

  lemma NeverMintedNeverCompletes(s: Group, steps: seq<Step>, caller: UserId, generation: nat, since: nat)
    requires Chained(s) && s.meta.Some? && Run(s, steps).meta.Some?
    requires Stalled(s) && generation > Cur(s) && !MarkerAt(s, generation)
    ensures !Commits(Run(s, steps), CompleteRotation(caller, generation, since))
  {
    var t := Run(s, steps);
    if Deserted(s, Cur(s)) {
      DesertedTopMintsNothing(s, steps);
      RunKeepsChained(s, steps);
      if Commits(t, CompleteRotation(caller, generation, since)) { NothingAheadCompletes(t, caller, generation, since); }
    } else {
      DesertedRotationNeverEnds(s, steps, s.marker.value.generation);
    }
  }

  lemma TrustedIsSound(s: Group, generation: nat)
    requires Consistent(s) && s.meta.Some? && Trusted(s, generation)
    ensures EveryUnreopenedScanIsSound(s, generation)
  {
    if Secure(s, generation) {
      CompletionIsSound(s, generation);
    } else {
      forall steps, caller, pageAt: UserId -> nat, profileAt: UserId -> nat
        ensures !ScanCommits(s, steps, caller, generation, pageAt, profileAt)
      {
        if ScanCommits(s, steps, caller, generation, pageAt, profileAt) { TrustedNeverCompletes(s, steps, caller, generation); }
      }
    }
  }

  lemma TrustedNeverCompletes(s: Group, steps: seq<Step>, caller: UserId, generation: nat)
    requires Consistent(s) && HonestRun(s, steps) && Run(s, steps).meta.Some?
    requires s.meta.Some? && Trusted(s, generation) && !Secure(s, generation)
    ensures !Commits(Run(s, steps), CompleteRotation(caller, generation, |s.joined|))
  {
    if BornOpen(s) {
      BornOpenNeverCompletes(s, steps, caller, generation, |s.joined|);
    } else if MarkerAt(s, generation) {
      DesertedNeverCompletes(s, steps, caller, generation, |s.joined|);
    } else {
      NeverMintedNeverCompletes(s, steps, caller, generation, |s.joined|);
    }
  }

  // ----- a newcomer is missed by the next rotation's scan -----

  function Opened(s: Group): Group
    requires s.meta.Some?
  {
    s.(meta := Some(s.meta.value.(mode := Open(true))))
  }

  /** An admin at a generation with no marker up converts the group, unless it is Open. */
  lemma MakeOpen(s: Group, a: UserId, generation: nat) returns (steps: seq<Step>)
    requires OnceRotating(s) && s.marker.None? && Holds(s, a, Admin, generation)
    ensures Leads(s, steps, Opened(s))
  {
    if IsOpen(s) {
      steps := [];
      LeadsNowhere(s);
      assert Opened(s) == s;
    } else {
      steps := [Step.ConvertToOpen(a, generation)];
      LeadsByOne(s, Step.ConvertToOpen(a, generation));
    }
  }

  /** In an Open group an approval may replace an entry at its own generation. */
  lemma OpenApprovalLeads(s: Group, a: UserId, u: UserId)
    requires IsOpen(s) && s.marker.None? && Holds(s, a, Admin, Cur(s)) && u != a
    requires u in s.members && s.members[u].generation == Cur(s) && Live(s, u) && Dormant(s, u)
    requires Observed(s, CurrentRecipient(s, u))
    ensures Leads(s, [ApproveRewrap(a, CurrentRecipient(s, u), Cur(s), false, true)], Rewrapped(s, CurrentRecipient(s, u), Cur(s)))
  {
    LeadsByOne(s, ApproveRewrap(a, CurrentRecipient(s, u), Cur(s), false, true));
  }

  /** The rest of the run once everybody was read: the group is converted, the newcomer approved, the next rotation started. */
  lemma ConvertApproveRekey(page: Group, a: UserId, w: UserId) returns (rest: seq<Step>, t: Group)
    requires Primed(page, a) && AllDormant(page) && w != a && w in page.members && page.members[w].generation == Cur(page) && Live(page, w)
    ensures Leads(page, rest, t) && IsOpen(t) && Missed(page, t, a, Cur(page) + 1, w)
  {
    var convert, approval, v := ConvertAndApprove(page, a, w);
    RunKeepsConsistent(page, convert + approval);
    LeadsOn(page, convert, Opened(page), approval, v);
    var start, last := Rekey(v, a);
    LeadsOn(page, convert + approval, v, start, last);
    rest, t := convert + approval + start, last;
    MemberIsThere(page, w);
    NewcomerIsPassed(page, a, w, v);
  }

  lemma ConvertAndApprove(page: Group, a: UserId, w: UserId) returns (convert: seq<Step>, approval: seq<Step>, v: Group)
    requires AccountsOk(page.users) && CanRekey(page, a) && AllDormant(page)
    requires w != a && w in page.members && page.members[w].generation == Cur(page) && Live(page, w)
    ensures Leads(page, convert, Opened(page)) && Leads(Opened(page), approval, v)
    ensures v == Rewrapped(Opened(page), CurrentRecipient(page, w), Cur(page)) && CanRekey(v, a)
    ensures HonestRun(page, convert + approval) && Run(page, convert + approval) == v
  {
    convert := MakeOpen(page, a, Cur(page));
    var o := Opened(page);
    CurrentRecipientIsObserved(o, w);
    OpenApprovalLeads(o, a, w);
    approval, v := [ApproveRewrap(a, CurrentRecipient(o, w), Cur(o), false, true)], Rewrapped(o, CurrentRecipient(o, w), Cur(o));
    ApprovedIsPrimed(o, a, w);
    LeadsOn(page, convert, o, approval, v);
  }

  lemma NewcomerIsPassed(page: Group, a: UserId, w: UserId, v: Group)
    requires w in page.members && w in page.users && page.members[w].joinedAs < |page.joined| && AllDormant(page) && page.meta.Some?
    requires v == Rewrapped(Opened(page), CurrentRecipient(page, w), Cur(page)) && CanRekey(v, a) && Cur(v) !in v.links && w != a
    ensures IsOpen(Rekeyed(v, a)) && Missed(page, Rekeyed(v, a), a, Cur(page) + 1, w)
  {
    RekeyedIs(v, a);
  }

  /**
   * Somebody new is invited at the current generation and everyone's keys are
   * rotated; the scan reads them all, dormant, nobody newly behind; the group
   * is converted, the newcomer approved where they are, and the rotation
   * started and completed past them.
   */
  lemma ConversionDuringTheScan(s: Group, a: UserId, generation: nat) returns (scan: Scan)
    requires Ready(s, a) && generation == Cur(s) + 1
    ensures Misses(s, scan, generation) && Unreopened(s, scan, generation) && IsOpen(Run(s, scan.steps))
  {
    var invite, q, w := InviteAtTheTop(s, a);
    var later := NewcomerIsMissed(q, a, w, generation);
    scan := MissedEarlier(s, invite, q, later, generation);
  }

  lemma NewcomerIsMissed(s: Group, a: UserId, w: UserId, generation: nat) returns (scan: Scan)
    requires Ready(s, a) && w != a && w in s.members && s.members[w].generation == Cur(s) && Live(s, w)
    requires generation == Cur(s) + 1
    ensures Misses(s, scan, generation) && Unreopened(s, scan, generation) && IsOpen(Run(s, scan.steps))
  {
    var first, page, rest, t := NewcomerAsleep(s, a, w);
    scan := MissedBy(s, first, page, rest, t, a, generation, w);
  }

  lemma NewcomerAsleep(s: Group, a: UserId, w: UserId) returns (first: seq<Step>, page: Group, rest: seq<Step>, t: Group)
    requires Ready(s, a) && w != a && w in s.members && s.members[w].generation == Cur(s) && Live(s, w)
    ensures Leads(s, first, page) && Leads(page, rest, t) && IsOpen(t) && Missed(page, t, a, Cur(s) + 1, w)
  {
    first, page := Prepare(s, a);
    rest, t := ConvertApproveRekey(page, a, w);
  }

  lemma InviteAtTheTop(s: Group, a: UserId) returns (steps: seq<Step>, t: Group, w: UserId)
    requires Ready(s, a)
    ensures Leads(s, steps, t) && Ready(t, a) && Cur(t) == Cur(s)
    ensures w != a && w in t.members && t.members[w].generation == Cur(t) && Live(t, w)
  {
    var x, invite, q := Invite(s, a);
    w, steps, t := x, invite, q;
    InviteKeepsAble(s, a, w, Cur(s));
  }

  /** Any later generation: rotations bring it near. */
  lemma {:induction false} AheadIsMissed(s: Group, a: UserId, generation: nat) returns (scan: Scan)
    requires Ready(s, a) && generation > Cur(s)
    ensures Misses(s, scan, generation) && Unreopened(s, scan, generation)
    decreases generation - Cur(s)
  {
    if generation == Cur(s) + 1 {
      scan := ConversionDuringTheScan(s, a, generation);
    } else {
      var steps, t := RotateOnce(s, a);
      var later := AheadIsMissed(t, a, generation);
      scan := MissedEarlier(s, steps, t, later, generation);
    }
  }

  lemma RotateOnce(s: Group, a: UserId) returns (steps: seq<Step>, t: Group)
    requires Ready(s, a)
    ensures Leads(s, steps, t) && Ready(t, a) && Cur(t) == Cur(s) + 1
  {
    var first, p := Prepare(s, a);
    var start, last := Rekey(p, a);
    LeadsOn(s, first, p, start, last);
    steps, t := first + start, last;
  }

  // ----- from any group to one where an admin can rotate -----

  /** An admin at the newest generation, live, with no marker up; a leaver's marker for the next one is taken over first. */
  ghost predicate AtTheTop(s: Group, t: Group, a: UserId) {
    && Consistent(t) && OnceRotating(t) && t.marker.None? && Holds(t, a, Admin, Cur(t)) && Live(t, a)
    && Cur(t) == if MarkerAt(s, Cur(s) + 1) then Cur(s) + 1 else Cur(s)
  }

  lemma CompleteAt(s: Group, w: UserId, generation: nat) returns (steps: seq<Step>)
    requires Holds(s, w, Admin, generation) && MarkerAt(s, generation)
    ensures Leads(s, steps, s.(marker := None))
  {
    steps := [CompleteRotation(w, generation, |s.joined|)];
    LeadsByOne(s, CompleteRotation(w, generation, |s.joined|));
  }

  lemma FindAdminConsistently(s: Group, x: UserId, v: UserId) returns (steps: seq<Step>, t: Group, w: UserId)
    requires Consistent(s) && s.meta.Some? && IsAdmin(s, x) && v in s.members && !Gone(s, v)
    ensures Leads(s, steps, t) && Consistent(t) && Hosts(s, t)
    ensures Holds(t, w, Admin, s.members[v].generation) && Live(t, w) && (w == v || w !in s.members)
  {
    var steps1, t1, w1 := FindAdmin(s, x, v);
    steps, t, w := steps1, t1, w1;
    RunKeepsConsistent(s, steps);
  }

  lemma HostedIsNotGone(s: Group, t: Group, u: UserId)
    requires Hosts(s, t) && u in s.members && u in s.users && !Gone(s, u)
    ensures u in t.members && !Gone(t, u) && t.members[u].generation == s.members[u].generation && Cur(t) == Cur(s)
  {
    assert Hosted(s, t, u);
  }

  lemma HostedAdmin(s: Group, t: Group, x: UserId)
    requires Hosts(s, t) && IsAdmin(s, x)
    ensures IsAdmin(t, x)
  {
    assert Hosted(s, t, x);
  }

  /** No marker: whoever is at the top. */
  lemma ReachTheTop(s: Group, x: UserId, v: UserId) returns (steps: seq<Step>, t: Group, a: UserId)
    requires Consistent(s) && OnceRotating(s) && s.marker.None? && IsAdmin(s, x)
    requires v in s.members && s.members[v].generation == Cur(s) && !Gone(s, v)
    ensures Leads(s, steps, t) && AtTheTop(s, t, a)
  {
    steps, t, a := FindAdminConsistently(s, x, v);
  }

  /** A marker naming a minted generation: completed by somebody made an admin there. */
  lemma ClearMarker(s: Group, x: UserId, f: UserId) returns (steps: seq<Step>, t: Group)
    requires Consistent(s) && s.meta.Some? && s.marker.Some? && MarkerAt(s, s.marker.value.generation) && IsAdmin(s, x)
    requires f in s.members && s.members[f].generation == s.marker.value.generation && !Gone(s, f)
    ensures Leads(s, steps, t) && Consistent(t) && t.marker.None? && Hosts(s.(marker := None), t) && OnceRotating(t)
  {
    var first, q, w := FindAdminConsistently(s, x, f);
    var done := CompleteAt(q, w, s.marker.value.generation);
    t := q.(marker := None);
    steps := first + done;
    LeadsOn(s, first, q, done, t);
    RunKeepsConsistent(q, done);
    HostsWithoutMarker(s, q);
  }

  lemma HostsWithoutMarker(s: Group, t: Group)
    requires Hosts(s, t)
    ensures Hosts(s.(marker := None), t.(marker := None))
  {
    var s0, t0 := s.(marker := None), t.(marker := None);
    forall u | u in s0.members ensures Hosted(s0, t0, u) { assert Hosted(s, t, u); }
    forall u | u in t0.members && u !in s0.members ensures Live(t0, u) { assert Live(t, u); }
  }

  lemma ClearAndReachTheTop(s: Group, x: UserId, f: UserId, v: UserId) returns (steps: seq<Step>, t: Group, a: UserId)
    requires Consistent(s) && s.meta.Some? && s.marker.Some? && s.marker.value.generation <= Cur(s) && IsAdmin(s, x)
    requires f in s.members && s.members[f].generation == s.marker.value.generation && !Gone(s, f)
    requires v in s.members && s.members[v].generation == Cur(s) && !Gone(s, v)
    ensures Leads(s, steps, t) && AtTheTop(s, t, a)
  {
    var first, q := ClearMarker(s, x, f);
    MemberIsThere(s, v);
    HostedIsNotGone(s.(marker := None), q, v);
    HostedAdmin(s.(marker := None), q, x);
    var second, last, b := ReachTheTop(q, x, v);
    steps, t, a := first + second, last, b;
    LeadsOn(s, first, q, second, t);
  }

  /** A leaver's marker for the next generation: taken over, and completed, by somebody made an admin at the top. */
  lemma TakeOverAtTheTop(s: Group, x: UserId, v: UserId) returns (steps: seq<Step>, t: Group, w: UserId)
    requires Consistent(s) && s.meta.Some? && MarkerAt(s, Cur(s) + 1) && IsAdmin(s, x)
    requires v in s.members && s.members[v].generation == Cur(s) && !Gone(s, v)
    ensures Leads(s, steps, t) && Consistent(t) && OnceRotating(t) && MarkerAt(t, Cur(t)) && Cur(t) == Cur(s) + 1
    ensures Holds(t, w, Admin, Cur(t)) && Live(t, w) && (IsOpen(s) ==> IsOpen(t)) && (w == v || w !in s.members)
    ensures forall u :: u in s.members && u != w ==> Stays(s, t, u)
  {
    var first, q, b := FindAdminConsistently(s, x, v);
    w := b;
    var leaver := q.marker.value.startedBy;
    LeaversMarkerStands(q);
    CurrentRecipientIsObserved(q, w);
    TakeOverLeads(q, w, leaver);
    LeadsByOne(q, TakeOver(CurrentRecipient(q, w), leaver, Cur(q)));
    t := TakenOver(q, w, leaver);
    steps := first + [TakeOver(CurrentRecipient(q, w), leaver, Cur(q))];
    LeadsOn(s, first, q, [TakeOver(CurrentRecipient(q, w), leaver, Cur(q))], t);
    RunKeepsConsistent(q, [TakeOver(CurrentRecipient(q, w), leaver, Cur(q))]);
    TakenOverKeeps(s, q, w, leaver);
  }

  lemma TakenOverKeeps(s: Group, q: Group, w: UserId, leaver: UserId)
    requires Hosts(s, q) && Cur(q) !in q.links && Holds(q, w, Admin, Cur(q)) && Live(q, w)
    ensures var t := TakenOver(q, w, leaver);
            && t.meta == q.meta && MarkerAt(t, Cur(t)) && Cur(t) == Cur(s) + 1 && Holds(t, w, Admin, Cur(t)) && Live(t, w)
            && forall u :: u in s.members && u != w ==> Stays(s, t, u)
  {
    TakenOverIs(q, w, leaver);
    forall u | u in s.members && u != w ensures Stays(s, TakenOver(q, w, leaver), u) {
      assert Hosted(s, q, u);
      OthersStay(q, w, leaver, u);
    }
  }

  lemma OthersStay(q: Group, w: UserId, leaver: UserId, u: UserId)
    requires w in q.members && w in q.users && u in q.members && u != w
    ensures Stays(q, TakenOver(q, w, leaver), u)
  {
  }

  /** Still a member, at the same generation, and live if they were. */
  predicate Stays(s: Group, t: Group, u: UserId)
    requires u in s.members
  {
    u in t.members && t.members[u].generation == s.members[u].generation && (Live(s, u) ==> Live(t, u))
  }

  /** Unless no more keys can be minted. */
  lemma FromAnywhereToTheTop(s: Group, x: UserId) returns (steps: seq<Step>, t: Group, a: UserId)
    requires Consistent(s) && s.meta.Some? && IsAdmin(s, x) && !NoMoreKeys(s)
    ensures Leads(s, steps, t) && AtTheTop(s, t, a)
  {
    var v :| v in s.members && s.members[v].generation == Cur(s) && !Gone(s, v);
    if s.marker.None? {
      steps, t, a := ReachTheTop(s, x, v);
    } else if s.marker.value.generation <= Cur(s) {
      var f :| f in s.members && s.members[f].generation == s.marker.value.generation && !Gone(s, f);
      steps, t, a := ClearAndReachTheTop(s, x, f, v);
    } else {
      assert MarkerOk(s, s.marker.value);
      var first, q, w := TakeOverAtTheTop(s, x, v);
      var done := CompleteAt(q, w, Cur(q));
      t, a := q.(marker := None), w;
      steps := first + done;
      LeadsOn(s, first, q, done, t);
      RunKeepsConsistent(q, done);
    }
  }

  /** Converted, and without the members who would block completions, the group is ready. */
  lemma MakeReady(s: Group, a: UserId) returns (steps: seq<Step>, t: Group)
    requires Consistent(s) && OnceRotating(s) && s.marker.None? && Holds(s, a, Admin, Cur(s)) && Live(s, a)
    ensures Leads(s, steps, t) && Ready(t, a) && Cur(t) == Cur(s)
  {
    var open := MakeOpen(s, a, Cur(s));
    var removals, last := Unstick(Opened(s), a);
    t, steps := last, open + removals;
    LeadsOn(s, open, Opened(s), removals, t);
    RunKeepsConsistent(s, steps);
  }

  /** Whatever generation is still to be minted, if keys can be. */
  lemma UnmintedIsMissed(s: Group, x: UserId, generation: nat) returns (scan: Scan)
    requires Consistent(s) && s.meta.Some? && IsAdmin(s, x) && !NoMoreKeys(s)
    requires generation > Cur(s) && !MarkerAt(s, generation)
    ensures Misses(s, scan, generation) && Unreopened(s, scan, generation)
  {
    var first, p, a := FromAnywhereToTheTop(s, x);
    var second, q := MakeReady(p, a);
    LeadsOn(s, first, p, second, q);
    var later := AheadIsMissed(q, a, generation);
    scan := MissedEarlier(s, first + second, q, later, generation);
  }

  // ----- an Open group under a marker -----

  /** Somebody new is invited where v is, and w made an admin where f is. */
  lemma InviteWhereTheyAre(s: Group, x: UserId, v: UserId) returns (steps: seq<Step>, t: Group, u: UserId)
    requires Consistent(s) && s.meta.Some? && IsAdmin(s, x) && v in s.members && !Gone(s, v)
    ensures Leads(s, steps, t) && Consistent(t) && Hosts(s, t)
    ensures u !in s.members && u in t.members && t.members[u].generation == s.members[v].generation && Live(t, u)
  {
    var first, q, w := FindAdminConsistently(s, x, v);
    var u1, invite, last := Invite(q, w);
    u, t, steps := u1, last, first + invite;
    LeadsOn(s, first, q, invite, t);
    InvitedHosts(q, u, q.members[w].generation);
    HostsIsTransitive(s, q, t);
    forall o | o in s.members ensures o in q.members { assert Hosted(s, q, o); }
  }

  /** An admin at the marker's generation, which is minted if it was not. */
  lemma AdminAtTheMarker(s: Group, x: UserId, f: UserId, u: UserId, generation: nat)
      returns (steps: seq<Step>, t: Group, w: UserId)
    requires Consistent(s) && IsOpen(s) && IsAdmin(s, x) && MarkerAt(s, generation) && u in s.members && Live(s, u)
    requires f in s.members && f != u && s.members[f].generation == Front(s, generation) && !Gone(s, f)
    ensures Leads(s, steps, t) && Consistent(t) && IsOpen(t) && MarkerAt(t, generation)
    ensures Holds(t, w, Admin, generation) && Live(t, w)
    ensures u in t.members && t.members[u].generation == s.members[u].generation && Live(t, u)
  {
    if generation <= Cur(s) {
      steps, t, w := AdminUnderTheMarker(s, x, f, u);
    } else {
      assert MarkerOk(s, s.marker.value);
      steps, t, w := TakeOverAtTheTop(s, x, f);
      assert Stays(s, t, u);
    }
  }

  lemma AdminUnderTheMarker(s: Group, x: UserId, f: UserId, u: UserId) returns (steps: seq<Step>, t: Group, w: UserId)
    requires Consistent(s) && s.meta.Some? && IsAdmin(s, x) && u in s.members && f in s.members && !Gone(s, f)
    ensures Leads(s, steps, t) && Consistent(t) && t.meta.Some? && t.meta.value.mode == s.meta.value.mode && t.marker == s.marker
    ensures Holds(t, w, Admin, s.members[f].generation) && Live(t, w) && Stays(s, t, u)
  {
    steps, t, w := FindAdminConsistently(s, x, f);
    assert Hosted(s, t, u);
  }

  lemma UnsettledOpenIsMissed(s: Group, x: UserId, v: UserId, f: UserId, generation: nat) returns (scan: Scan)
    requires Consistent(s) && IsOpen(s) && IsAdmin(s, x) && MarkerAt(s, generation)
    requires v in s.members && s.members[v].generation < generation && !Gone(s, v)
    requires f in s.members && s.members[f].generation == Front(s, generation) && !Gone(s, f)
    ensures Misses(s, scan, generation) && Unreopened(s, scan, generation)
  {
    var first, p, u := InviteWhereTheyAre(s, x, v);
    MemberIsThere(s, f);
    HostedIsNotGone(s, p, f);
    HostedAdmin(s, p, x);
    var second, q, w := AdminAtTheMarker(p, x, f, u, generation);
    LeadsOn(s, first, p, second, q);
    var third, t := Unstick(q, w);
    LeadsOn(s, first + second, q, third, t);
    RunKeepsConsistent(q, third);
    var later := SelfWrapIsMissed(t, w, u, generation);
    scan := MissedEarlier(s, first + second + third, t, later, generation);
  }

  lemma UntrustedIsMissed(s: Group, x: UserId, generation: nat) returns (scan: Scan)
    requires Consistent(s) && s.meta.Some? && IsAdmin(s, x) && !Trusted(s, generation)
    ensures Misses(s, scan, generation) && Unreopened(s, scan, generation)
  {
    if MarkerAt(s, generation) {
      var v :| v in s.members && s.members[v].generation < generation && !Gone(s, v);
      var f :| f in s.members && s.members[f].generation == Front(s, generation) && !Gone(s, f);
      scan := UnsettledOpenIsMissed(s, x, v, f, generation);
    } else {
      scan := UnmintedIsMissed(s, x, generation);
    }
  }

  /**
   * The group has META and an admin, as every group does until it is deleted.
   * Over all honest runs that keep META, conversions included, short of a leave
   * from behind that puts the very marker up again: every scan for a generation
   * begun now is sound exactly if it is trusted.
   */
  lemma UnreopenedScansAreSoundExactly(s: Group, x: UserId, generation: nat)
    requires Consistent(s) && s.meta.Some? && IsAdmin(s, x)
    ensures EveryUnreopenedScanIsSound(s, generation) <==> Trusted(s, generation)
  {
    if Trusted(s, generation) {
      TrustedIsSound(s, generation);
    } else {
      var scan := UntrustedIsMissed(s, x, generation);
      MissesIsUnsound(s, scan, generation);
    }
  }

  /** The common case: a Rotating group with a live admin at the newest generation and no older marker. */
  lemma RotatingScansAreSoundExactly(s: Group, a: UserId, generation: nat)
    requires Consistent(s) && IsRotating(s) && Holds(s, a, Admin, Cur(s)) && (s.marker.Some? ==> MarkerAt(s, Cur(s)))
    ensures EveryUnreopenedScanIsSound(s, generation) <==> MarkerAt(s, generation) || generation <= Cur(s)
  {
    UnreopenedScansAreSoundExactly(s, a, generation);
    assert !Gone(s, a);
  }

  /** And an Open one under a marker, with an admin at its generation. */
  lemma OpenScansAreSoundExactly(s: Group, a: UserId, generation: nat)
    requires Consistent(s) && IsOpen(s) && MarkerAt(s, generation) && Holds(s, a, Admin, generation)
    ensures EveryUnreopenedScanIsSound(s, generation) <==> Settled(s, generation)
  {
    UnreopenedScansAreSoundExactly(s, a, generation);
    assert s.members[a].generation == generation && !Gone(s, a);
  }
}
