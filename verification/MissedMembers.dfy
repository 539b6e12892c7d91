/**
 * From where a completion's scan can be trusted, exactly: whenever a scan
 * begins in any other state, honest requests can lead it past a member.
 */
module MissedMembers {
  import opened Wrappers
  import opened Groups
  import opened GroupInvariants
  import opened MarkerLife
  import opened Completion
  import opened Histories

  // ----- what it takes to miss somebody -----

  /** Everybody passes a scan of page; at t the completion commits past u, who was there, and is behind and not dormant. */
  ghost predicate Missed(page: Group, t: Group, caller: UserId, generation: nat, u: UserId) {
    && (forall v: UserId :: Passed(page, page, v, generation))
    && Holds(t, caller, Admin, generation) && MarkerAt(t, generation)
    && u in t.members && t.members[u].generation < generation && !Dormant(t, u) && t.members[u].joinedAs < |page.joined|
  }

  /** A scan with everything that commits during it. */
  datatype Scan = Scan(steps: seq<Step>, caller: UserId, pageAt: UserId -> nat, profileAt: UserId -> nat)

  /** It completes past somebody who is not excused. */
  ghost predicate Misses(s: Group, scan: Scan, generation: nat) {
    && ScanCommits(s, scan.steps, scan.caller, generation, scan.pageAt, scan.profileAt)
    && !AllExcused(s, scan.steps, generation, scan.pageAt)
  }

  predicate Unreopened(s: Group, scan: Scan, generation: nat) { !ReopensIn(s, scan.steps, generation) }

  lemma MissesIsUnsound(s: Group, scan: Scan, generation: nat)
    requires Misses(s, scan, generation)
    ensures !EveryScanIsSound(s, generation)
    ensures Unreopened(s, scan, generation) ==> !EveryUnreopenedScanIsSound(s, generation)
  {
  }

  /** A scan that reads everything at one moment, after so many of the others' steps. */
  ghost function At(n: nat): UserId -> nat { (u: UserId) => n }

  lemma EverybodyPasses(s: Group, first: seq<Step>, rest: seq<Step>, generation: nat)
    requires forall v: UserId :: Passed(Run(s, first), Run(s, first), v, generation)
    ensures forall v: UserId :: PassedAt(s, first + rest, generation, v, At(|first|)(v), At(|first|)(v))
  {
    assert (first + rest)[..|first|] == first;
    forall v: UserId ensures PassedAt(s, first + rest, generation, v, At(|first|)(v), At(|first|)(v)) {
      assert Passed(Run(s, first), Run(s, first), v, generation);
    }
  }

  lemma SomebodyIsNotExcused(s: Group, first: seq<Step>, rest: seq<Step>, generation: nat, u: UserId)
    requires var page, t := Run(s, first), Run(s, first + rest);
             u in t.members && t.members[u].generation < generation && !Excused(page, t, u)
    ensures !AllExcused(s, first + rest, generation, At(|first|))
  {
    assert (first + rest)[..At(|first|)(u)] == first;
  }

  lemma ScanOfOneMoment(s: Group, first: seq<Step>, rest: seq<Step>, caller: UserId, generation: nat, u: UserId)
    requires HonestRun(s, first) && HonestRun(Run(s, first), rest)
    requires Run(s, first + rest).meta.Some? && Missed(Run(s, first), Run(s, first + rest), caller, generation, u)
    ensures ScanCommits(s, first + rest, caller, generation, At(|first|), At(|first|))
  {
    RunAppend(s, first, rest);
    CompletionCommits(Run(s, first + rest), caller, generation, |s.joined|);
    EverybodyPasses(s, first, rest, generation);
  }

  /** Whatever the scan was. */
  lemma CompletionCommits(t: Group, caller: UserId, generation: nat, since: nat)
    ensures Commits(t, CompleteRotation(caller, generation, since)) <==> Holds(t, caller, Admin, generation) && MarkerAt(t, generation)
  {
  }

  lemma MissedScan(s: Group, first: seq<Step>, page: Group, rest: seq<Step>, t: Group, caller: UserId, generation: nat, u: UserId)
    requires HonestRun(s, first) && Run(s, first) == page && HonestRun(page, rest) && Run(page, rest) == t
    requires t.meta.Some? && Missed(page, t, caller, generation, u)
    ensures ScanCommits(s, first + rest, caller, generation, At(|first|), At(|first|))
    ensures !AllExcused(s, first + rest, generation, At(|first|))
  {
    RunAppend(s, first, rest);
    ScanOfOneMoment(s, first, rest, caller, generation, u);
    SomebodyIsNotExcused(s, first, rest, generation, u);
  }

  lemma MissedBy(s: Group, first: seq<Step>, page: Group, rest: seq<Step>, t: Group, caller: UserId, generation: nat, u: UserId)
      returns (scan: Scan)
    requires Leads(s, first, page) && Leads(page, rest, t) && t.meta.Some? && Missed(page, t, caller, generation, u)
    ensures Misses(s, scan, generation) && Unreopened(s, scan, generation) && Run(s, scan.steps) == t
  {
    RunAppend(s, first, rest);
    MissedScan(s, first, page, rest, t, caller, generation, u);
    NoLeavesReopensNothing(s, first + rest, generation);
    scan := Scan(first + rest, caller, At(|first|), At(|first|));
  }

  /** What is missed from where an honest run leads is missed. */
  lemma MissedEarlier(s: Group, first: seq<Step>, v: Group, scan: Scan, generation: nat) returns (longer: Scan)
    requires HonestRun(s, first) && Run(s, first) == v && Misses(v, scan, generation)
    ensures Misses(s, longer, generation) && Run(s, longer.steps) == Run(v, scan.steps)
    ensures NoLeaves(first) && Unreopened(v, scan, generation) ==> Unreopened(s, longer, generation)
  {
    longer := Later(first, scan);
    RunAppend(s, first, scan.steps);
    if NoLeaves(first) { NoLeavesReopensNothing(s, first, generation); }
    LaterCommits(s, first, v, scan, generation);
    ShiftedMiss(s, first, scan, generation);
  }

  lemma LaterCommits(s: Group, first: seq<Step>, v: Group, scan: Scan, generation: nat)
    requires HonestRun(s, first) && Run(s, first) == v
    requires ScanCommits(v, scan.steps, scan.caller, generation, scan.pageAt, scan.profileAt)
    ensures var longer := Later(first, scan);
            ScanCommits(s, longer.steps, longer.caller, generation, longer.pageAt, longer.profileAt)
  {
    LaterRun(s, first, v, scan, generation);
    ShiftedScan(s, first, scan.steps, generation, scan.pageAt, scan.profileAt);
  }

  lemma LaterRun(s: Group, first: seq<Step>, v: Group, scan: Scan, generation: nat)
    requires HonestRun(s, first) && Run(s, first) == v && HonestRun(v, scan.steps) && Run(v, scan.steps).meta.Some?
    requires Commits(Run(v, scan.steps), CompleteRotation(scan.caller, generation, |v.joined|))
    ensures HonestRun(s, Later(first, scan).steps) && Run(s, Later(first, scan).steps).meta.Some?
    ensures Commits(Run(s, Later(first, scan).steps), CompleteRotation(scan.caller, generation, |s.joined|))
  {
    RunAppend(s, first, scan.steps);
    CompletionCommits(Run(v, scan.steps), scan.caller, generation, |v.joined|);
    CompletionCommits(Run(v, scan.steps), scan.caller, generation, |s.joined|);
  }

  ghost function Later(first: seq<Step>, scan: Scan): Scan {
    Scan(first + scan.steps, scan.caller, Shifted(|first|, scan.pageAt), Shifted(|first|, scan.profileAt))
  }

  ghost function Shifted(n: nat, at: UserId -> nat): UserId -> nat { (u: UserId) => n + at(u) }

  lemma ShiftedScan(s: Group, first: seq<Step>, steps: seq<Step>, generation: nat, pageAt: UserId -> nat, profileAt: UserId -> nat)
    requires forall u: UserId :: PassedAt(Run(s, first), steps, generation, u, pageAt(u), profileAt(u))
    ensures forall u: UserId :: PassedAt(s, first + steps, generation, u, Shifted(|first|, pageAt)(u), Shifted(|first|, profileAt)(u))
  {
    forall u: UserId
      ensures PassedAt(s, first + steps, generation, u, Shifted(|first|, pageAt)(u), Shifted(|first|, profileAt)(u))
    {
      assert PassedAt(Run(s, first), steps, generation, u, pageAt(u), profileAt(u));
      ShiftedRead(s, first, steps, generation, u, pageAt(u), profileAt(u),
                  Shifted(|first|, pageAt)(u), Shifted(|first|, profileAt)(u));
    }
  }

  lemma ShiftedRead(s: Group, first: seq<Step>, steps: seq<Step>, generation: nat, u: UserId,
                    pageAt: nat, profileAt: nat, page: nat, profile: nat)
    requires PassedAt(Run(s, first), steps, generation, u, pageAt, profileAt)
    requires page == |first| + pageAt && profile == |first| + profileAt
    ensures PassedAt(s, first + steps, generation, u, page, profile)
  {
    ReadAgain(s, first, steps, pageAt, page);
    ReadAgain(s, first, steps, profileAt, profile);
  }

  lemma ReadAgain(s: Group, first: seq<Step>, steps: seq<Step>, at: nat, later: nat)
    requires at <= |steps| && later == |first| + at
    ensures Run(s, (first + steps)[..later]) == Run(Run(s, first), steps[..at])
  {
    ReadPoints(s, first, steps, at);
  }

  ghost predicate NotExcused(s: Group, steps: seq<Step>, generation: nat, at: nat, u: UserId) {
    var t := Run(s, steps);
    u in t.members && t.members[u].generation < generation && !(at <= |steps| && Excused(Run(s, steps[..at]), t, u))
  }

  lemma ShiftedNotExcused(s: Group, first: seq<Step>, steps: seq<Step>, generation: nat, at: nat, later: nat, u: UserId)
    requires NotExcused(Run(s, first), steps, generation, at, u) && later == |first| + at
    ensures NotExcused(s, first + steps, generation, later, u)
  {
    RunAppend(s, first, steps);
    if at <= |steps| { ReadAgain(s, first, steps, at, later); }
  }

  lemma ShiftedMiss(s: Group, first: seq<Step>, scan: Scan, generation: nat)
    requires !AllExcused(Run(s, first), scan.steps, generation, scan.pageAt)
    ensures !AllExcused(s, Later(first, scan).steps, generation, Later(first, scan).pageAt)
  {
    var u :| NotExcused(Run(s, first), scan.steps, generation, scan.pageAt(u), u);
    ShiftedNotExcused(s, first, scan.steps, generation, scan.pageAt(u), Shifted(|first|, scan.pageAt)(u), u);
  }

  // ----- while nobody converts the group -----

  /** The group is Rotating to the end of it. */
  predicate Unconverted(s: Group, scan: Scan) { IsRotating(Run(s, scan.steps)) }

  /** And nobody puts the marker up again. */
  predicate Undisturbed(s: Group, scan: Scan, generation: nat) { Unconverted(s, scan) && Unreopened(s, scan, generation) }

  lemma UnconvertedMissIsUnsound(s: Group, scan: Scan, generation: nat)
    requires Misses(s, scan, generation) && Undisturbed(s, scan, generation)
    ensures !EveryUnconvertedScanIsSound(s, generation)
  {
  }

  lemma ApprovalLeads(s: Group, a: UserId, u: UserId)
    requires AccountsOk(s.users) && s.marker.None? && Holds(s, a, Admin, Cur(s))
    requires u in s.members && s.members[u].generation < Cur(s) && Live(s, u) && Dormant(s, u)
    ensures var step := ApproveRewrap(a, CurrentRecipient(s, u), Cur(s), false, false);
            Leads(s, [step], Rewrapped(s, CurrentRecipient(s, u), Cur(s)))
  {
    var step := ApproveRewrap(a, CurrentRecipient(s, u), Cur(s), false, false);
    CurrentRecipientIsObserved(s, u);
    LeadsByOne(s, step);
  }

  lemma ApprovedIsPrimed(s: Group, a: UserId, u: UserId)
    requires CanRekey(s, a) && u in s.members && u != a && Live(s, u)
    ensures CanRekey(Rewrapped(s, CurrentRecipient(s, u), Cur(s)), a)
  {
    var t := Rewrapped(s, CurrentRecipient(s, u), Cur(s));
    forall v | v in t.members && !Live(t, v) ensures Dormant(t, v) {
      assert v in s.members && !Live(s, v);
    }
  }

  /**
   * Everyone's keys are rotated; the scan reads them all, dormant; the member
   * behind is approved at the old generation; the admin starts the rotation.
   */
  lemma BehindIsMissed(s: Group, a: UserId, u: UserId, generation: nat) returns (scan: Scan)
    requires Ready(s, a) && IsRotating(s)
    requires u in s.members && s.members[u].generation < Cur(s) && Live(s, u) && generation == Cur(s) + 1
    ensures Misses(s, scan, generation) && Undisturbed(s, scan, generation)
  {
    var first, page, rest, t := ApproveAfterTheScan(s, a, u);
    scan := MissedBy(s, first, page, rest, t, a, generation, u);
  }

  lemma ApproveAfterTheScan(s: Group, a: UserId, u: UserId) returns (first: seq<Step>, page: Group, rest: seq<Step>, t: Group)
    requires Ready(s, a) && IsRotating(s) && u in s.members && s.members[u].generation < Cur(s) && Live(s, u)
    ensures Leads(s, first, page) && Leads(page, rest, t) && IsRotating(t) && Missed(page, t, a, Cur(s) + 1, u)
  {
    first, page := Prepare(s, a);
    rest, t := ApproveAndRekey(page, a, u);
  }

  lemma ApproveAndRekey(page: Group, a: UserId, u: UserId) returns (rest: seq<Step>, t: Group)
    requires Primed(page, a) && IsRotating(page) && AllDormant(page)
    requires u in page.members && page.members[u].generation < Cur(page) && Live(page, u)
    ensures Leads(page, rest, t) && IsRotating(t) && Missed(page, t, a, Cur(page) + 1, u)
  {
    var approval, v := Approve(page, a, u);
    var start, last := Rekey(v, a);
    t, rest := last, approval + start;
    LeadsOn(page, approval, v, start, t);
    MemberIsThere(page, u);
    ApprovedIsMissed(page, a, u, v);
  }

  lemma Approve(page: Group, a: UserId, u: UserId) returns (steps: seq<Step>, v: Group)
    requires Primed(page, a) && u in page.members && page.members[u].generation < Cur(page) && Live(page, u) && Dormant(page, u)
    ensures Leads(page, steps, v) && v == Rewrapped(page, CurrentRecipient(page, u), Cur(page)) && Primed(v, a)
  {
    v := Rewrapped(page, CurrentRecipient(page, u), Cur(page));
    ApprovalLeads(page, a, u);
    ApprovedIsPrimed(page, a, u);
    steps := [ApproveRewrap(a, CurrentRecipient(page, u), Cur(page), false, false)];
    RunKeepsConsistent(page, steps);
  }

  lemma ApprovedIsMissed(page: Group, a: UserId, u: UserId, v: Group)
    requires u in page.members && u in page.users && page.members[u].joinedAs < |page.joined| && AllDormant(page)
    requires v == Rewrapped(page, CurrentRecipient(page, u), Cur(page)) && CanRekey(v, a) && Cur(v) !in v.links && u != a
    ensures Rekeyed(v, a).meta == page.meta && Missed(page, Rekeyed(v, a), a, Cur(page) + 1, u)
  {
    RekeyedIs(v, a);
  }

  lemma MemberIsThere(s: Group, u: UserId)
    requires EntriesOk(s) && u in s.members
    ensures s.members[u].joinedAs < |s.joined| && u in s.users
  {
    assert EntryOk(s, u);
  }

  /** Somebody behind who could still invite: whom they invite is live and behind. */
  lemma UnsettledIsMissed(s: Group, a: UserId, v: UserId, generation: nat) returns (scan: Scan)
    requires Ready(s, a) && IsRotating(s)
    requires v in s.members && s.members[v].generation < Cur(s) && !Gone(s, v) && generation == Cur(s) + 1
    ensures Misses(s, scan, generation) && Undisturbed(s, scan, generation)
  {
    MemberIsThere(s, v);
    if Live(s, v) {
      scan := BehindIsMissed(s, a, v, generation);
    } else {
      var w, steps, t := Invite(s, v);
      InviteKeepsAble(s, a, w, s.members[v].generation);
      var later := BehindIsMissed(t, a, w, generation);
      scan := MissedEarlier(s, steps, t, later, generation);
    }
  }

  /** Two or more generations ahead: an invited member is left behind by the rotations in between. */
  lemma {:induction false} FarAheadIsMissed(s: Group, a: UserId, generation: nat) returns (scan: Scan)
    requires Ready(s, a) && IsRotating(s) && generation >= Cur(s) + 2
    ensures Misses(s, scan, generation) && Undisturbed(s, scan, generation)
    decreases generation - Cur(s), 1
  {
    var steps, t, w := LeaveOneBehind(s, a);
    var later := LeftBehindIsMissed(t, a, w, generation);
    scan := MissedEarlier(s, steps, t, later, generation);
  }

  lemma {:induction false} LeftBehindIsMissed(s: Group, a: UserId, w: UserId, generation: nat) returns (scan: Scan)
    requires Ready(s, a) && IsRotating(s) && generation >= Cur(s) + 1
    requires w in s.members && s.members[w].generation < Cur(s) && Live(s, w)
    ensures Misses(s, scan, generation) && Undisturbed(s, scan, generation)
    decreases generation - Cur(s), 2
  {
    if generation == Cur(s) + 1 {
      scan := BehindIsMissed(s, a, w, generation);
    } else {
      scan := FarAheadIsMissed(s, a, generation);
    }
  }

  /**
   * In a Rotating group with a live admin at the current generation and nobody
   * stuck, while nobody converts it: every scan begun now is sound exactly if
   * its marker is up, or the generation is no newer than the current one, or it
   * is the next one and whoever is behind already is gone.
   */
  lemma UnconvertedScansAreSoundExactly(s: Group, a: UserId, generation: nat)
    requires Ready(s, a) && IsRotating(s)
    ensures EveryUnconvertedScanIsSound(s, generation) <==>
              MarkerAt(s, generation) || generation <= Cur(s) || (generation == Cur(s) + 1 && Settled(s, Cur(s)))
  {
    if MarkerAt(s, generation) || generation <= Cur(s) || (generation == Cur(s) + 1 && Settled(s, Cur(s))) {
      UnconvertedScanIsSound(s, generation);
    } else if generation == Cur(s) + 1 {
      var v :| v in s.members && s.members[v].generation < Cur(s) && !Gone(s, v);
      var scan := UnsettledIsMissed(s, a, v, generation);
      UnconvertedMissIsUnsound(s, scan, generation);
    } else {
      var scan := FarAheadIsMissed(s, a, generation);
      UnconvertedMissIsUnsound(s, scan, generation);
    }
  }

  // ----- an Open group, even with the marker -----

  lemma SelfWrapLeads(s: Group, u: UserId)
    requires AccountsOk(s.users) && IsOpen(s) && u in s.members && Live(s, u)
    requires HandoffFits(s, CurrentRecipient(s, u), s.members[u].generation)
    ensures var t := HandoffConsumed(Rewrapped(s, CurrentRecipient(s, u), s.members[u].generation), u);
            && Leads(s, [SelfWrap(CurrentRecipient(s, u), s.members[u].generation)], t)
            && t.meta == s.meta && t.marker == s.marker && t.members.Keys == s.members.Keys
            && (forall v :: v in s.members && v != u ==> t.members[v] == s.members[v])
            && !Dormant(t, u) && t.members[u].generation == s.members[u].generation
            && t.members[u].joinedAs == s.members[u].joinedAs
  {
    CurrentRecipientIsObserved(s, u);
    LeadsByOne(s, SelfWrap(CurrentRecipient(s, u), s.members[u].generation));
  }

  /** Everyone's keys are rotated, and read as dormant; a member behind wraps their own entry to their new key. */
  lemma SelfWrapIsMissed(s: Group, a: UserId, u: UserId, generation: nat) returns (scan: Scan)
    requires Consistent(s) && IsOpen(s) && NobodyStuck(s) && MarkerAt(s, generation) && Holds(s, a, Admin, generation)
    requires u in s.members && s.members[u].generation < generation && Live(s, u)
    ensures Misses(s, scan, generation) && Unreopened(s, scan, generation)
  {
    var first, page := FallAsleep(s, u);
    SelfWrapLeads(page, u);
    var wrap := [SelfWrap(CurrentRecipient(page, u), page.members[u].generation)];
    var t := HandoffConsumed(Rewrapped(page, CurrentRecipient(page, u), page.members[u].generation), u);
    MemberIsThere(page, u);
    scan := MissedBy(s, first, page, wrap, t, a, generation, u);
  }

  // ----- that such states are reached -----

  /**
   * A conversion and a rotation start can both commit, one after the other; the
   * group is then Open with a marker up, and a scan begun there misses a member.
   */
  lemma OpenedWhileRotating(s: Group, a: UserId) returns (steps: seq<Step>, t: Group, scan: Scan)
    requires Ready(s, a) && IsRotating(s)
    ensures Leads(s, steps, t) && IsOpen(t) && MarkerAt(t, Cur(s) + 1) && Misses(t, scan, Cur(s) + 1)
  {
    var first, p := Prepare(s, a);
    var w, invite, q := Invite(p, a);
    InviteKeepsAble(p, a, w, Cur(p));
    LeadsOn(s, first, p, invite, q);
    assert Cur(q) !in q.links;
    var rest, last := ConvertAndRekey(q, a, w);
    LeadsOn(s, first + invite, q, rest, last);
    steps, t := first + invite + rest, last;
    RunKeepsConsistent(q, rest);
    scan := SelfWrapIsMissed(t, a, w, Cur(s) + 1);
  }

  lemma ConvertAndRekey(s: Group, a: UserId, w: UserId) returns (steps: seq<Step>, t: Group)
    requires AccountsOk(s.users) && CanRekey(s, a) && IsRotating(s) && Cur(s) !in s.links
    requires w in s.members && w != a && Live(s, w)
    ensures Leads(s, steps, t) && IsOpen(t) && NobodyStuck(t) && MarkerAt(t, Cur(s) + 1) && Holds(t, a, Admin, Cur(s) + 1)
    ensures w in t.members && t.members[w] == s.members[w] && Live(t, w)
  {
    var v := s.(meta := Some(s.meta.value.(mode := Open(true))));
    ConvertLeads(s, a);
    StartAfterConversion(s, v, a);
    t := Rekeyed(v, a);
    RekeyedInOpen(v, a, w);
    steps := [Step.ConvertToOpen(a, Cur(s))] + [SelfRekey(CurrentRecipient(v, a), Cur(v))];
    LeadsOn(s, [Step.ConvertToOpen(a, Cur(s))], v, [SelfRekey(CurrentRecipient(v, a), Cur(v))], t);
  }

  lemma ConvertLeads(s: Group, a: UserId)
    requires IsRotating(s) && s.marker.None? && Holds(s, a, Admin, Cur(s))
    ensures Leads(s, [Step.ConvertToOpen(a, Cur(s))], s.(meta := Some(s.meta.value.(mode := Open(true)))))
  {
    LeadsByOne(s, Step.ConvertToOpen(a, Cur(s)));
  }

  lemma RekeyedInOpen(s: Group, a: UserId, w: UserId)
    requires IsOpen(s) && NobodyStuck(s) && Holds(s, a, Admin, Cur(s)) && Live(s, a) && Cur(s) !in s.links
    requires w in s.members && w != a && Live(s, w)
    ensures var t := Rekeyed(s, a);
            && IsOpen(t) && NobodyStuck(t) && MarkerAt(t, Cur(s) + 1) && Holds(t, a, Admin, Cur(s) + 1)
            && w in t.members && t.members[w] == s.members[w] && Live(t, w)
  {
    RekeyedIs(s, a);
    RekeyedHasNobodyStuck(s, a);
  }

  lemma StartAfterConversion(s: Group, v: Group, a: UserId)
    requires AccountsOk(s.users) && CanRekey(s, a) && Cur(s) !in s.links
    requires v == s.(meta := Some(s.meta.value.(mode := Open(true))))
    ensures Leads(v, [SelfRekey(CurrentRecipient(v, a), Cur(v))], Rekeyed(v, a))
  {
    var start := SelfRekey(CurrentRecipient(s, a), Cur(s));
    CurrentRecipientIsObserved(v, a);
    RekeyCommits(s, a);
    StartsIgnoreTheMode(s, v, start);
    LeadsByOne(v, start);
  }

  lemma RekeyedHasNobodyStuck(s: Group, a: UserId)
    requires NobodyStuck(s) && a in s.members && Live(s, a) && Cur(s) !in s.links
    ensures NobodyStuck(Rekeyed(s, a))
  {
    RekeyedIs(s, a);
    forall u | u in Rekeyed(s, a).members && !Live(Rekeyed(s, a), u) ensures Dormant(Rekeyed(s, a), u) {
      assert u in s.members && !Live(s, u);
    }
  }
}
