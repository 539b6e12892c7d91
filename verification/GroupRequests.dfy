/**
 * The routines that read before they write. env(n) is what other requests
 * commit before the n-th read or write; `steps` is all of it, in order.
 */
module GroupRequests {
  import opened Wrappers
  import opened Groups
  import opened GroupInvariants
  import opened GroupTables
  import opened MarkerLife
  import opened Completion
  import Conversions
  import TrustedScans
  import SafeScans

  type Others = nat -> seq<Step>

  datatype RequestError =
    | MembersBehind | BadBatch | NotAMember | LastAdmin | DemotionRequired | RotationRequired | RotationNotApplicable
    | Refused(tx: TxError)

  // ----- the scan for members behind -----

  /** Everybody below `bound` passed, read at the points of the run that pageAt and profileAt give. */
  ghost predicate PassedBelow(s: Group, steps: seq<Step>, generation: nat, bound: Option<UserId>,
                              pageAt: UserId -> nat, profileAt: UserId -> nat)
  {
    forall u: UserId :: bound.None? || u < bound.value ==> PassedAt(s, steps, generation, u, pageAt(u), profileAt(u))
  }

  lemma PassedStays(s: Group, steps: seq<Step>, more: seq<Step>, generation: nat, bound: Option<UserId>,
                    pageAt: UserId -> nat, profileAt: UserId -> nat)
    requires PassedBelow(s, steps, generation, bound, pageAt, profileAt)
    ensures PassedBelow(s, steps + more, generation, bound, pageAt, profileAt)
  {
    forall u: UserId | bound.None? || u < bound.value
      ensures PassedAt(s, steps + more, generation, u, pageAt(u), profileAt(u))
    {
      assert PassedAt(s, steps, generation, u, pageAt(u), profileAt(u));
      assert (steps + more)[..pageAt(u)] == steps[..pageAt(u)];
      assert (steps + more)[..profileAt(u)] == steps[..profileAt(u)];
    }
  }

  /** memberIsDormant: the profile is read after the member; without one the member is not dormant. */
  method MemberIsDormant(table: GroupTable, u: UserId, entry: Entry, others: seq<Step>) returns (dormant: bool)
    modifies table
    ensures table.Rows() == Run(old(table.Rows()), others)
    ensures dormant <==> u in table.users && entry.wrapEpoch < table.users[u].profile.keyEpoch
  {
    table.Interleave(others);
    dormant := u in table.users && entry.wrapEpoch < table.users[u].profile.keyEpoch;
  }

  predicate IsDormantIn(s: Group, u: UserId, entry: Entry) {
    u in s.users && entry.wrapEpoch < s.users[u].profile.keyEpoch
  }

  ghost predicate FromEnv(env: Others, step: Step) { exists n: nat :: step in env(n) }

  /** Others' steps only: a routine writes nothing of its own before its transaction. */
  ghost predicate OnlyFrom(env: Others, steps: seq<Step>) { forall step :: step in steps ==> FromEnv(env, step) }

  lemma OnlyFromGoesOn(env: Others, steps: seq<Step>, n: nat)
    requires OnlyFrom(env, steps)
    ensures OnlyFrom(env, steps + env(n))
  {
    var more := steps + env(n);
    forall step | step in more ensures FromEnv(env, step) {
      if step !in steps { assert step in env(n); }
    }
  }

  lemma OnlyFromBoth(env: Others, steps: seq<Step>, more: seq<Step>)
    requires OnlyFrom(env, steps) && OnlyFrom(env, more)
    ensures OnlyFrom(env, steps + more)
  {
  }

  /** Nothing else commits. */
  ghost predicate Undisturbed(env: Others) { forall n: nat :: env(n) == [] }

  lemma NothingFromNobody(env: Others, steps: seq<Step>)
    requires OnlyFrom(env, steps)
    ensures Undisturbed(env) ==> steps == []
  {
    if steps != [] {
      assert FromEnv(env, steps[0]);
      var n: nat :| steps[0] in env(n);
      assert env(n) != [];
    }
  }

  /** Somebody behind on a page, and not dormant when their profile was read. */
  ghost predicate HoldsUp(s: Group, steps: seq<Step>, generation: nat, u: UserId, pageAt: nat, profileAt: nat) {
    && pageAt <= profileAt <= |steps| && u in Run(s, steps[..pageAt]).members
    && Run(s, steps[..pageAt]).members[u].generation < generation
    && !IsDormantIn(Run(s, steps[..profileAt]), u, Run(s, steps[..pageAt]).members[u])
  }

  /** Everybody behind is dormant, now. */
  predicate NobodyHoldsUp(s: Group, generation: nat) {
    forall u :: u in s.members && s.members[u].generation < generation ==> Dormant(s, u)
  }

  /** With nothing else committing, a scan passes exactly if nobody holds it up. */
  lemma UndisturbedScan(s: Group, generation: nat, pageAt: UserId -> nat, profileAt: UserId -> nat)
    ensures HeldUp(s, [], generation) ==> !NobodyHoldsUp(s, generation)
    ensures PassedBelow(s, [], generation, None, pageAt, profileAt) ==> NobodyHoldsUp(s, generation)
  {
    var none: seq<Step> := [];
    assert none[..0] == none && Run(s, none) == s;
    if PassedBelow(s, none, generation, None, pageAt, profileAt) {
      forall u | u in s.members && s.members[u].generation < generation ensures Dormant(s, u) {
        assert PassedAt(s, none, generation, u, pageAt(u), profileAt(u));
      }
    }
  }

  ghost predicate HeldUp(s: Group, steps: seq<Step>, generation: nat) {
    exists u, pageAt, profileAt :: HoldsUp(s, steps, generation, u, pageAt, profileAt)
  }

  /** One page: everybody on it who is behind must be dormant. readAt says after how many of `steps` each profile was read. */
  method CheckPage(table: GroupTable, generation: nat, page: map<UserId, Entry>, env: Others, start: nat)
    returns (passed: bool, next: nat, ghost steps: seq<Step>, ghost readAt: map<UserId, nat>)
    modifies table
    ensures table.Rows() == Run(old(table.Rows()), steps) && readAt.Keys <= page.Keys
    ensures forall u :: u in readAt ==> readAt[u] <= |steps|
    ensures passed ==> forall u :: u in page && page[u].generation < generation ==>
              u in readAt && readAt[u] <= |steps| && IsDormantIn(Run(old(table.Rows()), steps[..readAt[u]]), u, page[u])
    ensures !passed ==> exists u :: u in page && page[u].generation < generation && !IsDormantIn(table.Rows(), u, page[u])
    ensures OnlyFrom(env, steps)
  {
    next, steps, readAt := start, [], map[];
    var left := page.Keys;
    while left != {}
      invariant left <= page.Keys && readAt.Keys <= page.Keys - left
      invariant table.Rows() == Run(old(table.Rows()), steps) && OnlyFrom(env, steps)
      invariant forall u :: u in readAt ==> readAt[u] <= |steps|
      invariant forall u :: u in page.Keys - left && page[u].generation < generation ==>
                  u in readAt && readAt[u] <= |steps| && IsDormantIn(Run(old(table.Rows()), steps[..readAt[u]]), u, page[u])
      decreases left
    {
      var u :| u in left;
      left := left - {u};
      if page[u].generation < generation {
        var others := env(next);
        var dormant := MemberIsDormant(table, u, page[u], others);
        RunAppend(old(table.Rows()), steps, others);
        ghost var earlier := steps;
        OnlyFromGoesOn(env, steps, next);
        steps := steps + others;
        forall v | v in readAt && readAt[v] <= |earlier| ensures steps[..readAt[v]] == earlier[..readAt[v]] {}
        assert steps[..|steps|] == steps;
        next, readAt := next + 1, readAt[u := |steps|];
        if !dormant { return false, next, steps, readAt; }
      }
    }
    return true, next, steps, readAt;
  }

  lemma PagePassed(s: Group, steps: seq<Step>, more: seq<Step>, generation: nat, u: UserId, page: map<UserId, Entry>,
                   readAt: map<UserId, nat>, at: nat, later: nat)
    requires u in page <==> u in Run(s, steps).members
    requires u in page ==> page[u] == Run(s, steps).members[u]
    requires u in page && page[u].generation < generation ==>
               u in readAt && readAt[u] <= |more| && IsDormantIn(Run(Run(s, steps), more[..readAt[u]]), u, page[u])
    requires u in readAt ==> readAt[u] <= |more|
    requires at == (if u in readAt then readAt[u] else 0) && later == |steps| + at
    ensures PassedAt(s, steps + more, generation, u, |steps|, later)
  {
    EntryPassed(s, steps, more, generation, u, at, later);
  }

  lemma EntryPassed(s: Group, steps: seq<Step>, more: seq<Step>, generation: nat, u: UserId, at: nat, later: nat)
    requires at <= |more| && later == |steps| + at
    requires Passed(Run(s, steps), Run(Run(s, steps), more[..at]), u, generation)
    ensures PassedAt(s, steps + more, generation, u, |steps|, later)
  {
    ReadPoints(s, steps, more, at);
  }

  predicate InPage(u: UserId, from: UserId, to: Option<UserId>) { from <= u && (to.None? || u < to.value) }

  ghost function PagesRead(from: UserId, to: Option<UserId>, at: nat, pageAt: UserId -> nat): UserId -> nat {
    (u: UserId) => if InPage(u, from, to) then at else pageAt(u)
  }

  ghost function ProfilesRead(from: UserId, to: Option<UserId>, at: nat, readAt: map<UserId, nat>,
                              profileAt: UserId -> nat): UserId -> nat
  {
    (u: UserId) => if InPage(u, from, to) then at + (if u in readAt then readAt[u] else 0) else profileAt(u)
  }

  lemma PagePassedAll(s: Group, steps: seq<Step>, more: seq<Step>, generation: nat, from: UserId, to: Option<UserId>,
                      page: map<UserId, Entry>, readAt: map<UserId, nat>, pageAt: UserId -> nat, profileAt: UserId -> nat)
    requires forall u: UserId :: u in page <==> u in Run(s, steps).members && InPage(u, from, to)
    requires forall u :: u in page ==> page[u] == Run(s, steps).members[u]
    requires forall u :: u in readAt ==> readAt[u] <= |more|
    requires forall u :: u in page && page[u].generation < generation ==>
               u in readAt && IsDormantIn(Run(Run(s, steps), more[..readAt[u]]), u, page[u])
    requires PassedBelow(s, steps, generation, Some(from), pageAt, profileAt)
    ensures PassedBelow(s, steps + more, generation, to,
                        PagesRead(from, to, |steps|, pageAt), ProfilesRead(from, to, |steps|, readAt, profileAt))
  {
    PassedStays(s, steps, more, generation, Some(from), pageAt, profileAt);
    forall u: UserId | to.None? || u < to.value
      ensures PassedAt(s, steps + more, generation, u,
                       PagesRead(from, to, |steps|, pageAt)(u), ProfilesRead(from, to, |steps|, readAt, profileAt)(u))
    {
      if InPage(u, from, to) {
        PagePassed(s, steps, more, generation, u, page, readAt, if u in readAt then readAt[u] else 0,
                   ProfilesRead(from, to, |steps|, readAt, profileAt)(u));
      } else {
        assert PassedAt(s, steps + more, generation, u, pageAt(u), profileAt(u));
      }
    }
  }

  /** One page of listMembers, and its members checked. */
  method ScanPage(table: GroupTable, generation: nat, from: UserId, to: Option<UserId>, env: Others, start: nat,
                  ghost s: Group, ghost before: seq<Step>, ghost pageAt: UserId -> nat, ghost profileAt: UserId -> nat)
    returns (passed: bool, next: nat, ghost steps: seq<Step>, ghost pages: UserId -> nat, ghost profiles: UserId -> nat)
    requires table.Rows() == Run(s, before) && PassedBelow(s, before, generation, Some(from), pageAt, profileAt)
    requires OnlyFrom(env, before)
    modifies table
    ensures table.Rows() == Run(s, steps)
    ensures passed ==> PassedBelow(s, steps, generation, to, pages, profiles)
    ensures !passed ==> HeldUp(s, steps, generation)
    ensures OnlyFrom(env, steps)
  {
    var others := env(start);
    table.Interleave(others);
    RunAppend(s, before, others);
    PassedStays(s, before, others, generation, Some(from), pageAt, profileAt);
    OnlyFromGoesOn(env, before, start);
    steps := before + others;
    var page := map u | u in table.members && InPage(u, from, to) :: table.members[u];
    ghost var read := steps;
    var ok, n, more, readAt := CheckPage(table, generation, page, env, start + 1);
    RunAppend(s, read, more);
    OnlyFromBoth(env, read, more);
    passed, next, steps := ok, n, read + more;
    pages, profiles := PagesRead(from, to, |read|, pageAt), ProfilesRead(from, to, |read|, readAt, profileAt);
    if ok {
      PagePassedAll(s, read, more, generation, from, to, page, readAt, pageAt, profileAt);
    } else {
      var u :| u in page && page[u].generation < generation && !IsDormantIn(table.Rows(), u, page[u]);
      PageHoldsUp(s, read, more, generation, u);
    }
  }

  lemma PageHoldsUp(s: Group, read: seq<Step>, more: seq<Step>, generation: nat, u: UserId)
    requires u in Run(s, read).members && Run(s, read).members[u].generation < generation
    requires !IsDormantIn(Run(s, read + more), u, Run(s, read).members[u])
    ensures HeldUp(s, read + more, generation)
  {
    var steps := read + more;
    assert steps[..|read|] == read && steps[..|steps|] == steps;
    assert HoldsUp(s, steps, generation, u, |read|, |steps|);
  }

  /** The loop over pages, which end where `cuts` says. */
  method ScanMembers(table: GroupTable, generation: nat, cuts: seq<UserId>, env: Others, start: nat)
    returns (passed: bool, next: nat, ghost steps: seq<Step>, ghost pageAt: UserId -> nat, ghost profileAt: UserId -> nat)
    modifies table
    ensures table.Rows() == Run(old(table.Rows()), steps)
    ensures passed ==> PassedBelow(old(table.Rows()), steps, generation, None, pageAt, profileAt)
    ensures !passed ==> HeldUp(old(table.Rows()), steps, generation)
    ensures OnlyFrom(env, steps)
  {
    next, steps, pageAt, profileAt := start, [], (u: UserId) => 0, (u: UserId) => 0;
    var after := 0;
    ghost var s := table.Rows();
    for i := 0 to |cuts| + 1
      invariant table.Rows() == Run(s, steps) && OnlyFrom(env, steps)
      invariant PassedBelow(s, steps, generation, if i <= |cuts| then Some(after) else None, pageAt, profileAt)
    {
      var to := if i < |cuts| then Some(cuts[i]) else None;
      passed, next, steps, pageAt, profileAt := ScanPage(table, generation, after, to, env, next, s, steps, pageAt, profileAt);
      if !passed { return; }
      if i < |cuts| { after := cuts[i]; }
    }
    passed := true;
  }

  /**
   * CompleteRotation: the scan, then the transaction. If the scan began where
   * it can be trusted, as with the marker up in a Rotating group, whoever is
   * behind at the commit is dormant, or joined after the page that covers them
   * was read.
   */
  method CompleteRotation(table: GroupTable, caller: UserId, generation: nat, cuts: seq<UserId>, env: Others)
    returns (r: Result<(), RequestError>, ghost steps: seq<Step>, ghost pageAt: UserId -> nat)
    modifies table
    ensures OnlyFrom(env, steps)
    ensures r.Err? ==> table.Rows() == Run(old(table.Rows()), steps)
    ensures r.Ok? ==>
              var t := Run(old(table.Rows()), steps); var step := Step.CompleteRotation(caller, generation, |old(table.joined)|);
              Commits(t, step) && table.Rows() == Effect(t, step)
    ensures r == Err(MembersBehind) ==> HeldUp(old(table.Rows()), steps, generation)
    ensures r.Err? ==> r.error == MembersBehind || r.error.Refused?
    ensures r.Err? && r.error.Refused? ==>
              var t := Run(old(table.Rows()), steps);
              && !Commits(t, Step.CompleteRotation(caller, generation, |old(table.joined)|))
              && (r.error.tx == RotationNotActive <==> !MarkerAt(t, generation))
    ensures Undisturbed(env) ==>
              (r.Ok? <==> MarkerAt(old(table.Rows()), generation) && Holds(old(table.Rows()), caller, Admin, generation)
                          && NobodyHoldsUp(old(table.Rows()), generation))
    ensures r.Ok? && SoundSetting(old(table.Rows()), steps, generation) ==>
              var t := Run(old(table.Rows()), steps);
              forall u :: u in t.members && t.members[u].generation < generation ==>
                pageAt(u) <= |steps| && Excused(Run(old(table.Rows()), steps[..pageAt(u)]), t, u)
  {
    ghost var s := table.Rows();
    var since := |table.joined|;
    var passed, next, scanned, pages, profileAt := ScanMembers(table, generation, cuts, env, 0);
    steps, pageAt := scanned, pages;
    UndisturbedScan(s, generation, pages, profileAt);
    NothingFromNobody(env, steps);
    if !passed { return Err(MembersBehind), steps, pageAt; }
    var others := env(next);
    table.Interleave(others);
    RunAppend(s, steps, others);
    PassedStays(s, steps, others, generation, None, pageAt, profileAt);
    OnlyFromGoesOn(env, steps, next);
    steps := steps + others;
    ghost var t := table.Rows();
    var committed := table.CommitCompletion(caller, generation, since);
    if committed.Err? { return Err(Refused(committed.error)), steps, pageAt; }
    if SoundSetting(s, steps, generation) {
      SettingIsSound(s, steps, caller, generation, pageAt, profileAt);
    }
    return Ok(()), steps, pageAt;
  }

  /** ConvertGroupToOpen: refused while a marker stands or anybody is behind and not dormant. */
  method ConvertToOpen(table: GroupTable, admin: UserId, generation: nat, cuts: seq<UserId>, env: Others)
    returns (r: Result<(), RequestError>, ghost steps: seq<Step>, ghost pageAt: UserId -> nat, ghost profileAt: UserId -> nat)
    modifies table
    ensures OnlyFrom(env, steps)
    ensures r.Err? ==> table.Rows() == Run(old(table.Rows()), steps)
    ensures r.Ok? ==>
              var t := Run(old(table.Rows()), steps); var step := Step.ConvertToOpen(admin, generation);
              && old(table.marker).None? && Commits(t, step) && table.Rows() == Effect(t, step)
              && PassedBelow(old(table.Rows()), steps, generation, None, pageAt, profileAt)
    ensures r == Err(MembersBehind) ==> old(table.marker).None? && HeldUp(old(table.Rows()), steps, generation)
    ensures r.Err? ==> r.error == MembersBehind || r.error.Refused?
    ensures r.Err? && r.error.Refused? ==>
              || (old(table.marker).Some? && r.error.tx == RotationInProgress && steps == [])
              || !Commits(Run(old(table.Rows()), steps), Step.ConvertToOpen(admin, generation))
    ensures old(table.marker).Some? ==> r == Err(Refused(RotationInProgress))
    ensures Undisturbed(env) ==>
              (r.Ok? <==> old(table.marker).None? && IsRotating(old(table.Rows())) && Holds(old(table.Rows()), admin, Admin, generation)
                          && NobodyHoldsUp(old(table.Rows()), generation))
    ensures r.Ok? && LevelSetting(old(table.Rows()), steps, generation) ==> AllExcused(old(table.Rows()), steps, generation, pageAt)
  {
    ghost var s := table.Rows();
    if table.marker.Some? {
      return Err(Refused(RotationInProgress)), [], (u: UserId) => 0, (u: UserId) => 0;
    }
    r, steps, pageAt, profileAt := ScanAndConvert(table, admin, generation, cuts, env);
    if r.Ok? && LevelSetting(s, steps, generation) {
      LevelIsSound(s, steps, admin, generation, pageAt, profileAt);
    }
  }

  lemma LevelIsSound(s: Group, steps: seq<Step>, admin: UserId, generation: nat, pageAt: UserId -> nat, profileAt: UserId -> nat)
    requires LevelSetting(s, steps, generation) && PassedBelow(s, steps, generation, None, pageAt, profileAt)
    requires Commits(Run(s, steps), Step.ConvertToOpen(admin, generation))
    ensures AllExcused(s, steps, generation, pageAt)
  {
    assert forall u: UserId :: PassedAt(s, steps, generation, u, pageAt(u), profileAt(u));
    Conversions.ConversionIsSound(s, generation);
    assert Conversions.ConversionCommits(s, steps, admin, generation, pageAt, profileAt);
  }

  /** What follows the first look at the marker. */
  method ScanAndConvert(table: GroupTable, admin: UserId, generation: nat, cuts: seq<UserId>, env: Others)
    returns (r: Result<(), RequestError>, ghost steps: seq<Step>, ghost pageAt: UserId -> nat, ghost profileAt: UserId -> nat)
    modifies table
    ensures OnlyFrom(env, steps)
    ensures r.Err? ==> table.Rows() == Run(old(table.Rows()), steps)
    ensures r.Ok? ==>
              var t := Run(old(table.Rows()), steps); var step := Step.ConvertToOpen(admin, generation);
              && Commits(t, step) && table.Rows() == Effect(t, step)
              && PassedBelow(old(table.Rows()), steps, generation, None, pageAt, profileAt)
    ensures r == Err(MembersBehind) ==> HeldUp(old(table.Rows()), steps, generation)
    ensures r.Err? ==> r.error == MembersBehind || r.error.Refused?
    ensures r.Err? && r.error.Refused? ==>
              && !Commits(Run(old(table.Rows()), steps), Step.ConvertToOpen(admin, generation))
              && PassedBelow(old(table.Rows()), steps, generation, None, pageAt, profileAt)
    ensures Undisturbed(env) ==> steps == [] && (r == Err(MembersBehind) <==> !NobodyHoldsUp(old(table.Rows()), generation))
  {
    ghost var s := table.Rows();
    var passed, next, scanned, pages, profiles := ScanMembers(table, generation, cuts, env, 0);
    steps, pageAt, profileAt := scanned, pages, profiles;
    UndisturbedScan(s, generation, pages, profiles);
    NothingFromNobody(env, steps);
    if !passed { return Err(MembersBehind), steps, pageAt, profileAt; }
    var others := env(next);
    table.Interleave(others);
    RunAppend(s, steps, others);
    PassedStays(s, steps, others, generation, None, pageAt, profileAt);
    OnlyFromGoesOn(env, steps, next);
    steps := steps + others;
    var committed := table.CommitConversion(admin, generation);
    return if committed.Ok? then Ok(()) else Err(Refused(committed.error)), steps, pageAt, profileAt;
  }

  /** Honest requests only, and a scan begun where it can be trusted, given what the requests are. */
  ghost predicate SoundSetting(s: Group, steps: seq<Step>, generation: nat) {
    && Consistent(s) && HonestRun(s, steps) && Run(s, steps).meta.Some?
    && (|| SafeScans.Safe(s, generation)
        || (!ReopensIn(s, steps, generation) && TrustedScans.Trusted(s, generation))
        || (!ReopensIn(s, steps, generation) && KeepsMode(s, Run(s, steps)) && Sheltered(s, generation)))
  }

  lemma SettingIsSound(s: Group, steps: seq<Step>, caller: UserId, generation: nat, pageAt: UserId -> nat, profileAt: UserId -> nat)
    requires SoundSetting(s, steps, generation) && ScanCommits(s, steps, caller, generation, pageAt, profileAt)
    ensures AllExcused(s, steps, generation, pageAt)
  {
    RunKeepsChained(s, steps);
    if SafeScans.Safe(s, generation) {
      SafeScans.SafeIsSound(s, generation);
    } else if TrustedScans.Trusted(s, generation) {
      TrustedScans.TrustedIsSound(s, generation);
    } else {
      UnconvertedScanIsSound(s, generation);
    }
  }

  /** Honest requests only, and whoever is behind when the scan begins equally far behind. */
  ghost predicate LevelSetting(s: Group, steps: seq<Step>, generation: nat) {
    Consistent(s) && HonestRun(s, steps) && generation <= Cur(s) && Conversions.OneLevel(s, generation)
  }

  // ----- marker first, then the transaction -----

  /** A rotation to another generation is running. */
  predicate OtherMarker(s: Group, generation: nat) { s.marker.Some? && s.marker.value.generation != generation }

  /** RewrapMembers: which of its two modes a batch runs in is decided by a read of the marker, and pinned. */
  method RewrapMembers(table: GroupTable, caller: UserId, generation: nat, batch: seq<Recipient>, others: seq<Step>)
    returns (r: Result<(), RequestError>)
    modifies table
    ensures 1 <= |batch| <= MAX_REWRAP_BATCH && OtherMarker(old(table.Rows()), generation) ==>
              r == Err(Refused(RotationNotActive)) && table.Rows() == old(table.Rows())
    ensures !OtherMarker(old(table.Rows()), generation) ==> (r == Err(BadBatch) <==> !Sendable(batch, caller))
    ensures r == Err(BadBatch) ==> !Sendable(batch, caller) && table.Rows() == old(table.Rows())
    ensures Sendable(batch, caller) && !OtherMarker(old(table.Rows()), generation) ==>
            var seen := old(table.marker).Some?; var t := Run(old(table.Rows()), others);
            var step := Step.RewrapMembers(caller, generation, seen, BatchOf(batch));
            (r.Ok? <==> Commits(t, step)) && table.Rows() == Next(t, step)
  {
    if |batch| == 0 || |batch| > MAX_REWRAP_BATCH { return Err(BadBatch); }
    var marker := table.marker;
    if marker.Some? && marker.value.generation != generation { return Err(Refused(RotationNotActive)); }
    var seen := {caller};
    for i := 0 to |batch|
      invariant seen == {caller} + set k | 0 <= k < i :: batch[k].user
      invariant Distinct(batch[..i]) && forall k :: 0 <= k < i ==> batch[k].user != caller
    {
      if batch[i].user in seen {
        RepeatIsNotDistinct(batch, caller, i);
        return Err(BadBatch);
      }
      seen := seen + {batch[i].user};
    }
    assert batch[..|batch|] == batch;
    table.Interleave(others);
    var committed := table.CommitRewraps(caller, generation, marker.Some?, batch);
    return if committed.Ok? then Ok(()) else Err(Refused(committed.error));
  }

  predicate Sendable(batch: seq<Recipient>, caller: UserId) {
    1 <= |batch| <= MAX_REWRAP_BATCH && Distinct(batch) && forall i :: 0 <= i < |batch| ==> batch[i].user != caller
  }

  lemma RepeatIsNotDistinct(batch: seq<Recipient>, caller: UserId, i: nat)
    requires i < |batch| && (batch[i].user == caller || exists k :: 0 <= k < i && batch[k].user == batch[i].user)
    ensures !Sendable(batch, caller)
  {
  }

  /** ApproveRewrap: the marker read and pinned the same way. */
  method ApproveRewrap(table: GroupTable, approver: UserId, member: Recipient, generation: nat, open: bool, others: seq<Step>)
    returns (r: Result<(), TxError>)
    requires approver != member.user
    modifies table
    ensures OtherMarker(old(table.Rows()), generation) ==> r == Err(RotationNotActive) && table.Rows() == old(table.Rows())
    ensures !OtherMarker(old(table.Rows()), generation) ==>
            var seen := old(table.marker).Some?; var t := Run(old(table.Rows()), others);
            var step := Step.ApproveRewrap(approver, member, generation, seen, open);
            (r.Ok? <==> Commits(t, step)) && table.Rows() == Next(t, step)
  {
    var marker := table.marker;
    if marker.Some? && marker.value.generation != generation { return Err(RotationNotActive); }
    table.Interleave(others);
    r := table.CommitApproveRewrap(approver, member, generation, marker.Some?, open);
  }
}
