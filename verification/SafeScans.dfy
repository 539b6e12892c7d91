/**
 * The same with leaves from behind, which put the marker of a rotation that is
 * over up again: which scans no honest run at all leads past a member.
 */
module SafeScans {
  import opened Wrappers
  import opened Groups
  import opened GroupEffects
  import opened GroupInvariants
  import opened MarkerLife
  import opened Completion
  import opened Histories
  import opened MissedMembers
  import opened RotationEnds
  import opened TrustedScans

  // ----- leaves from behind included -----

  /** Nobody can leave from the generation before this one. */
  predicate Vacant(s: Group, generation: nat) { forall u :: u in s.members ==> s.members[u].generation + 1 != generation }

  /** The group was created Open, or nobody can complete it, or the marker that stands can never go. */
  predicate NeverCompletable(s: Group, generation: nat) {
    BornOpen(s) || Deserted(s, Front(s, generation)) || (s.marker.Some? && Deserted(s, Front(s, s.marker.value.generation)))
  }

  /** Or it is minted, and only the gone are behind it or nobody is right behind it. */
  predicate Safe(s: Group, generation: nat) {
    || NeverCompletable(s, generation)
    || (generation <= Cur(s)
        && (Settled(s, generation) || (Vacant(s, generation) && !(IsOpen(s) && MarkerAt(s, generation)))))
  }

  /** Below the newest generation, only somebody there brings anybody there. */
  lemma StaysVacant(s: Group, step: Step, generation: nat)
    requires Chained(s) && s.meta.Some? && Next(s, step).meta.Some? && generation <= Cur(s) && Vacant(s, generation)
    ensures Vacant(Next(s, step), generation)
  {
    if Commits(s, step) {
      var t := Effect(s, step);
      StepMovesEntries(s, step);
      forall u | u in t.members ensures t.members[u].generation + 1 != generation {
        if !Kept(s, t, u) { WrappedWhereSomebodyIs(s, step, u); }
      }
    }
  }

  lemma WrappedWhereSomebodyIs(s: Group, step: Step, u: UserId)
    requires Chained(s) && s.meta.Some? && Commits(s, step) && u in Effect(s, step).members && Wrapped(s, Effect(s, step), step, u)
    ensures || Effect(s, step).members[u].generation == Cur(s) + 1
            || exists v :: v in s.members && s.members[v].generation == Effect(s, step).members[u].generation
  {
    StepMovesChain(s, step);
    if StartOf(step).Some? {
      assert s.members[StartOf(step).value.starter.user].generation == StartOf(step).value.current;
    }
  }

  lemma VacantReopensNot(s: Group, step: Step, generation: nat)
    requires Vacant(s, generation)
    ensures !Reopens(s, step, generation)
  {
    if Reopens(s, step, generation) { MarkerAfterOther(s, step); }
  }

  lemma {:induction false} VacantNeverReopens(s: Group, steps: seq<Step>, generation: nat)
    requires Chained(s) && Run(s, steps).meta.Some? && generation <= Cur(s) && Vacant(s, generation)
    ensures !ReopensIn(s, steps, generation)
    decreases |steps|
  {
    if steps != [] {
      RunKeepsChained(s, steps);
      StepKeepsChained(s, steps[0]);
      RunKeepsChained(Next(s, steps[0]), steps[1..]);
      VacantReopensNot(s, steps[0], generation);
      StaysVacant(s, steps[0], generation);
      VacantNeverReopens(Next(s, steps[0]), steps[1..], generation);
    }
  }

  lemma DesertedStaysBelow(s: Group, step: Step, generation: nat)
    requires Chained(s) && s.meta.Some? && Next(s, step).meta.Some? && generation <= Cur(s) && Deserted(s, generation)
    ensures Deserted(Next(s, step), generation)
  {
    if Commits(s, step) {
      forall u | u in Next(s, step).members && Next(s, step).members[u].generation == generation ensures Gone(Next(s, step), u) {
        if StartOf(step).Some? {
          StartsBringNobodyBelow(s, step, u);
          GoneStays(s, step, u);
        } else {
          NobodyArrives(s, step, u, generation);
        }
      }
    }
  }

  lemma StartsBringNobodyBelow(s: Group, step: Step, u: UserId)
    requires Chained(s) && s.meta.Some? && Commits(s, step) && StartOf(step).Some?
    requires u in Effect(s, step).members && Effect(s, step).members[u].generation <= Cur(s)
    ensures Kept(s, Effect(s, step), u)
  {
    StepMovesEntries(s, step);
    StepMovesChain(s, step);
    assert s.members[StartOf(step).value.starter.user].generation == StartOf(step).value.current;
  }

  lemma {:induction false} DesertedBelowNeverCompletes(s: Group, steps: seq<Step>, caller: UserId, generation: nat, since: nat)
    requires Chained(s) && s.meta.Some? && Run(s, steps).meta.Some? && generation <= Cur(s) && Deserted(s, generation)
    ensures !Commits(Run(s, steps), CompleteRotation(caller, generation, since))
    decreases |steps|
  {
    if steps == [] {
      if Commits(s, CompleteRotation(caller, generation, since)) { CallerIsNotGone(s, caller, generation, since); }
    } else {
      StepKeepsChained(s, steps[0]);
      RunKeepsChained(Next(s, steps[0]), steps[1..]);
      DesertedStaysBelow(s, steps[0], generation);
      DesertedBelowNeverCompletes(Next(s, steps[0]), steps[1..], caller, generation, since);
    }
  }

  lemma CallerIsNotGone(s: Group, caller: UserId, generation: nat, since: nat)
    requires Commits(s, CompleteRotation(caller, generation, since))
    ensures caller in s.members && s.members[caller].generation == generation && !Gone(s, caller)
  {
  }

  lemma NeverCompletes(s: Group, steps: seq<Step>, caller: UserId, generation: nat, since: nat)
    requires Consistent(s) && HonestRun(s, steps) && Run(s, steps).meta.Some?
    requires s.meta.Some? && NeverCompletable(s, generation)
    ensures !Commits(Run(s, steps), CompleteRotation(caller, generation, since))
  {
    if BornOpen(s) {
      BornOpenNeverCompletes(s, steps, caller, generation, since);
    } else {
      NobodyEverCompletes(s, steps, caller, generation, since);
    }
  }

  lemma NobodyEverCompletes(s: Group, steps: seq<Step>, caller: UserId, generation: nat, since: nat)
    requires Chained(s) && s.meta.Some? && Run(s, steps).meta.Some? && NeverCompletable(s, generation) && !BornOpen(s)
    ensures !Commits(Run(s, steps), CompleteRotation(caller, generation, since))
  {
    if generation <= Cur(s) && Deserted(s, generation) {
      DesertedBelowNeverCompletes(s, steps, caller, generation, since);
    } else if MarkerAt(s, generation) {
      DesertedNeverCompletes(s, steps, caller, generation, since);
    } else if generation > Cur(s) {
      NeverMintedNeverCompletes(s, steps, caller, generation, since);
    } else {
      DesertedRotationNeverEnds(s, steps, s.marker.value.generation);
    }
  }

  lemma SafeIsSound(s: Group, generation: nat)
    requires Consistent(s) && s.meta.Some? && Safe(s, generation)
    ensures EveryScanIsSound(s, generation)
  {
    if NeverCompletable(s, generation) {
      forall steps, caller, pageAt: UserId -> nat, profileAt: UserId -> nat
        ensures !ScanCommits(s, steps, caller, generation, pageAt, profileAt)
      {
        if ScanCommits(s, steps, caller, generation, pageAt, profileAt) {
          NeverCompletes(s, steps, caller, generation, |s.joined|);
        }
      }
    } else if Settled(s, generation) {
      SettledScanIsSound(s, generation);
    } else {
      VacantScanIsSound(s, generation);
    }
  }

  lemma VacantScanIsSound(s: Group, generation: nat)
    requires Consistent(s) && s.meta.Some? && generation <= Cur(s) && Vacant(s, generation)
    requires !(IsOpen(s) && MarkerAt(s, generation))
    ensures EveryScanIsSound(s, generation)
  {
    CompletionIsSound(s, generation);
    forall steps, caller, pageAt: UserId -> nat, profileAt: UserId -> nat
      | ScanCommits(s, steps, caller, generation, pageAt, profileAt)
      ensures AllExcused(s, steps, generation, pageAt)
    {
      VacantNeverReopens(s, steps, generation);
    }
  }

  // ----- somebody right behind leaves while it is over -----

  /** From the generation before, in an Open group with no marker. */
  lemma LeaveBehind(s: Group, w: UserId, o: UserId, generation: nat) returns (steps: seq<Step>, t: Group)
    requires IsOpen(s) && OnceRotating(s) && s.marker.None? && IsAdmin(s, w) && Live(s, w) && w != o
    requires o in s.members && s.members[o].generation + 1 == generation
    ensures HonestRun(s, steps) && Run(s, steps) == t
    ensures t == s.(members := s.members - {o}, marker := t.marker, grants := t.grants, grantLog := t.grantLog)
    ensures MarkerAt(t, generation)
  {
    var demotion := None;
    if s.members[o].role != Member {
      var key := Bound(s.grants.Keys);
      demotion := Some(key);
    }
    var leave := LeaveGroup(o, s.members[o].role, demotion, OwnGrant(s, o), w, Some(s.members[o].generation));
    RunOne(s, leave);
    steps, t := [leave], Next(s, leave);
  }

  lemma HostedStays(s: Group, t: Group)
    requires Hosts(s, t)
    ensures forall u :: u in s.members ==> Stays(s, t, u)
  {
    forall u | u in s.members ensures Stays(s, t, u) { assert Hosted(s, t, u); }
  }

  predicate AllStay(s: Group, t: Group, but: UserId) { forall u :: u in s.members && u != but ==> Stays(s, t, u) }

  /** Whichever marker stands, if it can go; whoever was at the top may move to take a leaver's over. */
  lemma ClearAnyMarker(s: Group, x: UserId, top: UserId) returns (steps: seq<Step>, t: Group, y: UserId)
    requires Consistent(s) && OnceRotating(s) && IsAdmin(s, x)
    requires s.marker.Some? ==> !Deserted(s, Front(s, s.marker.value.generation))
    requires MarkerAt(s, Cur(s) + 1) ==> top in s.members && s.members[top].generation == Cur(s) && !Gone(s, top)
    ensures Leads(s, steps, t) && Consistent(t) && OnceRotating(t) && t.marker.None? && IsAdmin(t, y)
    ensures Cur(s) <= Cur(t) && AllStay(s, t, top)
  {
    if s.marker.None? {
      steps, t, y := [], s, x;
      LeadsNowhere(s);
    } else if s.marker.value.generation <= Cur(s) {
      var f :| f in s.members && s.members[f].generation == s.marker.value.generation && !Gone(s, f);
      steps, t := ClearMarker(s, x, f);
      HostedAdmin(s.(marker := None), t, x);
      HostedStays(s.(marker := None), t);
      y := x;
    } else {
      assert MarkerOk(s, s.marker.value);
      steps, t, y := TakeOverAndComplete(s, x, top);
    }
  }

  lemma TakeOverAndComplete(s: Group, x: UserId, top: UserId) returns (steps: seq<Step>, t: Group, w: UserId)
    requires Consistent(s) && s.meta.Some? && MarkerAt(s, Cur(s) + 1) && IsAdmin(s, x)
    requires top in s.members && s.members[top].generation == Cur(s) && !Gone(s, top)
    ensures Leads(s, steps, t) && Consistent(t) && OnceRotating(t) && t.marker.None? && IsAdmin(t, w)
    ensures Cur(s) <= Cur(t) && AllStay(s, t, top)
  {
    var first, q, b := TakeOverAtTheTop(s, x, top);
    w := b;
    var done := CompleteAt(q, w, Cur(q));
    t := q.(marker := None);
    steps := first + done;
    LeadsOn(s, first, q, done, t);
    RunKeepsConsistent(q, done);
    forall u | u in s.members && u != top ensures Stays(s, t, u) { assert Stays(s, q, u); }
  }

  /** With no marker: an admin at the generation converts the group, o leaves, and u is missed. */
  lemma LeftFromBehindIsMissed(s: Group, x: UserId, o: UserId, u: UserId, f: UserId, generation: nat) returns (scan: Scan)
    requires Consistent(s) && OnceRotating(s) && s.marker.None? && IsAdmin(s, x) && generation <= Cur(s)
    requires o in s.members && s.members[o].generation + 1 == generation
    requires u in s.members && u != o && s.members[u].generation < generation && Live(s, u)
    requires f in s.members && s.members[f].generation == generation && !Gone(s, f)
    ensures Misses(s, scan, generation)
  {
    var first, t, w := ReopenUnder(s, x, o, u, f, generation);
    var later := UnsettledOpenIsMissed(t, w, u, w, generation);
    scan := MissedEarlier(s, first, t, later, generation);
  }

  lemma ReopenUnder(s: Group, x: UserId, o: UserId, u: UserId, f: UserId, generation: nat)
      returns (steps: seq<Step>, t: Group, w: UserId)
    requires Consistent(s) && OnceRotating(s) && s.marker.None? && IsAdmin(s, x) && generation <= Cur(s)
    requires o in s.members && s.members[o].generation + 1 == generation
    requires u in s.members && u != o && s.members[u].generation < generation && Live(s, u)
    requires f in s.members && s.members[f].generation == generation && !Gone(s, f)
    ensures HonestRun(s, steps) && Run(s, steps) == t && Consistent(t) && IsOpen(t) && MarkerAt(t, generation)
    ensures Holds(t, w, Admin, Front(t, generation)) && Live(t, w)
    ensures u in t.members && t.members[u].generation < generation && Live(t, u)
  {
    var first, q, b := FindAdmin(s, x, f);
    w := b;
    HostedStays(s, q);
    assert Stays(s, q, o) && Stays(s, q, u);
    var second, last := LeaveUnder(q, w, o, u, generation);
    steps, t := first + second, last;
    RunAppend(s, first, second);
    RunKeepsConsistent(s, steps);
  }

  lemma LeaveUnder(s: Group, w: UserId, o: UserId, u: UserId, generation: nat) returns (steps: seq<Step>, t: Group)
    requires OnceRotating(s) && s.marker.None? && Holds(s, w, Admin, generation) && Live(s, w) && generation <= Cur(s)
    requires o in s.members && s.members[o].generation + 1 == generation
    requires u in s.members && u != o && s.members[u].generation < generation && Live(s, u)
    ensures HonestRun(s, steps) && Run(s, steps) == t && IsOpen(t) && MarkerAt(t, generation)
    ensures Holds(t, w, Admin, Front(t, generation)) && Live(t, w)
    ensures u in t.members && t.members[u].generation < generation && Live(t, u)
  {
    steps, t := OpenAndLeave(s, w, o, generation);
  }

  lemma OpenAndLeave(s: Group, w: UserId, o: UserId, generation: nat) returns (steps: seq<Step>, t: Group)
    requires OnceRotating(s) && s.marker.None? && Holds(s, w, Admin, generation) && Live(s, w)
    requires o in s.members && s.members[o].generation + 1 == generation
    ensures HonestRun(s, steps) && Run(s, steps) == t
    ensures IsOpen(t) && MarkerAt(t, generation) && t.members == s.members - {o} && t.users == s.users && t.links == s.links
  {
    var open := MakeOpen(s, w, generation);
    var leave, last := LeaveBehind(Opened(s), w, o, generation);
    steps, t := open + leave, last;
    RunAppend(s, open, leave);
  }

  /** A minted generation with somebody right behind it, somebody not gone at it, and somebody not gone behind it. */
  lemma MintedIsMissed(s: Group, x: UserId, o: UserId, v: UserId, f: UserId, generation: nat) returns (scan: Scan)
    requires Consistent(s) && OnceRotating(s) && IsAdmin(s, x) && generation <= Cur(s)
    requires s.marker.Some? ==> !Deserted(s, Front(s, s.marker.value.generation))
    requires o in s.members && s.members[o].generation + 1 == generation
    requires v in s.members && s.members[v].generation < generation && !Gone(s, v)
    requires f in s.members && s.members[f].generation == generation && !Gone(s, f)
    ensures Misses(s, scan, generation)
  {
    var first, p, u, g := InviteBoth(s, x, v, f);
    HostedStays(s, p);
    HostedAdmin(s, p, x);
    assert Stays(s, p, o);
    var top := SomebodyAtTheTop(s, p);
    var second, q, y := ClearAnyMarker(p, x, top);
    LeadsOn(s, first, p, second, q);
    assert Stays(p, q, o) && Stays(p, q, u) && Stays(p, q, g);
    var later := LeftFromBehindIsMissed(q, y, o, u, g, generation);
    scan := MissedEarlier(s, first + second, q, later, generation);
  }

  /** Newcomers where v is and where f is. */
  lemma InviteBoth(s: Group, x: UserId, v: UserId, f: UserId) returns (steps: seq<Step>, t: Group, u: UserId, g: UserId)
    requires Consistent(s) && s.meta.Some? && IsAdmin(s, x)
    requires v in s.members && !Gone(s, v) && f in s.members && !Gone(s, f)
    ensures Leads(s, steps, t) && Consistent(t) && Hosts(s, t) && u !in s.members && g !in s.members
    ensures u in t.members && t.members[u].generation == s.members[v].generation && Live(t, u)
    ensures g in t.members && t.members[g].generation == s.members[f].generation && Live(t, g)
  {
    var first, p, u1 := InviteWhereTheyAre(s, x, v);
    MemberIsThere(s, f);
    HostedIsNotGone(s, p, f);
    HostedAdmin(s, p, x);
    var second, q, g1 := InviteWhereTheyAre(p, x, f);
    steps, t, u, g := first + second, q, u1, g1;
    LeadsOn(s, first, p, second, q);
    HostsIsTransitive(s, p, q);
    assert Hosted(p, q, u);
    forall o | o in s.members ensures o in p.members { assert Hosted(s, p, o); }
  }

  /** Who is to take a leaver's marker over, if that is what stands. */
  lemma SomebodyAtTheTop(s: Group, t: Group) returns (top: UserId)
    requires EntriesOk(s) && Chained(s) && s.meta.Some? && Hosts(s, t)
    requires s.marker.Some? ==> !Deserted(s, Front(s, s.marker.value.generation))
    ensures t.marker.Some? ==> !Deserted(t, Front(t, t.marker.value.generation))
    ensures MarkerAt(t, Cur(t) + 1) ==> top in s.members && top in t.members && t.members[top].generation == Cur(t) && !Gone(t, top)
    ensures !MarkerAt(t, Cur(t) + 1) ==> top !in t.members
  {
    top := Bound(t.members.Keys);
    if s.marker.Some? {
      var f :| f in s.members && s.members[f].generation == Front(s, s.marker.value.generation) && !Gone(s, f);
      MemberIsThere(s, f);
      HostedIsNotGone(s, t, f);
      if MarkerAt(t, Cur(t) + 1) { top := f; }
    }
  }

  lemma UnsafeIsMissed(s: Group, x: UserId, generation: nat) returns (scan: Scan)
    requires Consistent(s) && s.meta.Some? && IsAdmin(s, x) && !Safe(s, generation)
    ensures Misses(s, scan, generation)
  {
    if generation > Cur(s) {
      scan := UnsafeUnmintedIsMissed(s, x, generation);
    } else {
      scan := UnsafeMintedIsMissed(s, x, generation);
    }
  }

  lemma WhoMakesItUnsafe(s: Group, generation: nat) returns (v: UserId, f: UserId)
    requires !Safe(s, generation)
    ensures f in s.members && s.members[f].generation == Front(s, generation) && !Gone(s, f)
    ensures v in s.members && s.members[v].generation < generation && !Gone(s, v)
    ensures s.marker.Some? ==> !Deserted(s, Front(s, s.marker.value.generation))
    ensures generation <= Cur(s) ==> !Vacant(s, generation) || (IsOpen(s) && MarkerAt(s, generation))
  {
    f :| f in s.members && s.members[f].generation == Front(s, generation) && !Gone(s, f);
    v := f;
    if generation <= Cur(s) {
      v :| v in s.members && s.members[v].generation < generation && !Gone(s, v);
    }
  }

  lemma UnsafeMintedIsMissed(s: Group, x: UserId, generation: nat) returns (scan: Scan)
    requires Consistent(s) && s.meta.Some? && IsAdmin(s, x) && !Safe(s, generation) && generation <= Cur(s)
    ensures Misses(s, scan, generation)
  {
    var v, f := WhoMakesItUnsafe(s, generation);
    if IsOpen(s) && MarkerAt(s, generation) {
      scan := UnsettledOpenIsMissed(s, x, v, f, generation);
    } else {
      var o :| o in s.members && s.members[o].generation + 1 == generation;
      scan := MintedIsMissed(s, x, o, v, f, generation);
    }
  }

  lemma UnsafeUnmintedIsMissed(s: Group, x: UserId, generation: nat) returns (scan: Scan)
    requires Consistent(s) && s.meta.Some? && IsAdmin(s, x) && !Safe(s, generation) && generation > Cur(s)
    ensures Misses(s, scan, generation)
  {
    var v, f := WhoMakesItUnsafe(s, generation);
    if MarkerAt(s, generation) {
      assert MarkerOk(s, s.marker.value);
      scan := LeaversMarkerIsMissed(s, x, f, generation);
    } else {
      scan := UnmintedIsMissed(s, x, generation);
    }
  }

  /** A leaver's marker for the next generation: whoever takes it over leaves somebody right behind. */
  lemma LeaversMarkerIsMissed(s: Group, x: UserId, v: UserId, generation: nat) returns (scan: Scan)
    requires Consistent(s) && s.meta.Some? && IsAdmin(s, x) && MarkerAt(s, generation) && generation == Cur(s) + 1
    requires v in s.members && s.members[v].generation == Cur(s) && !Gone(s, v)
    ensures Misses(s, scan, generation)
  {
    var steps, t, w, o := MintWithSomebodyBehind(s, x, v);
    var later := MintedByIsMissed(t, w, o, generation);
    scan := MissedEarlier(s, steps, t, later, generation);
  }

  lemma MintedByIsMissed(s: Group, w: UserId, o: UserId, generation: nat) returns (scan: Scan)
    requires Consistent(s) && s.meta.Some? && MarkerAt(s, generation) && generation == Cur(s) && Holds(s, w, Admin, generation)
    requires o in s.members && s.members[o].generation + 1 == generation && Live(s, o)
    ensures Misses(s, scan, generation)
  {
    assert !Gone(s, w) && !Gone(s, o);
    scan := MintedIsMissed(s, w, o, o, w, generation);
  }

  lemma MintWithSomebodyBehind(s: Group, x: UserId, v: UserId) returns (steps: seq<Step>, t: Group, w: UserId, o: UserId)
    requires Consistent(s) && s.meta.Some? && IsAdmin(s, x) && MarkerAt(s, Cur(s) + 1)
    requires v in s.members && s.members[v].generation == Cur(s) && !Gone(s, v)
    ensures Leads(s, steps, t) && Consistent(t) && t.meta.Some? && MarkerAt(t, Cur(t)) && Cur(t) == Cur(s) + 1
    ensures Holds(t, w, Admin, Cur(t)) && Live(t, w)
    ensures o in t.members && t.members[o].generation + 1 == Cur(t) && Live(t, o)
  {
    var first, p, newcomer := InviteWhereTheyAre(s, x, v);
    o := newcomer;
    MemberIsThere(s, v);
    HostedIsNotGone(s, p, v);
    HostedAdmin(s, p, x);
    var second, last, taker := TakeOverAtTheTop(p, x, v);
    steps, t, w := first + second, last, taker;
    LeadsOn(s, first, p, second, t);
    assert Stays(p, t, o);
  }

  /**
   * Over all honest runs that keep META, whatever else they hold: every scan
   * for a generation begun now is sound exactly if it is safe.
   */
  lemma ScansAreSoundExactly(s: Group, x: UserId, generation: nat)
    requires Consistent(s) && s.meta.Some? && IsAdmin(s, x)
    ensures EveryScanIsSound(s, generation) <==> Safe(s, generation)
  {
    if Safe(s, generation) {
      SafeIsSound(s, generation);
    } else {
      var scan := UnsafeIsMissed(s, x, generation);
      MissesIsUnsound(s, scan, generation);
    }
  }
}
