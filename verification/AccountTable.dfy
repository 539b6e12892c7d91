/**
 * The account's rows as a table that requests update in place, one
 * transaction at a time, with other requests' transactions in between.
 */
module AccountTables {
  import opened Wrappers
  import opened Accounts

  datatype RotateError = RotationCooldown | HandoffChanged | KeyEpochStale | UserNotFound | CredentialVersionStale

  datatype HandoffError = HandoffNotAdmin | HandoffAccountChanged | HandoffPending

  /** A group the account owes a handoff row for, and the generation of its own entry there. */
  datatype HandoffGroup = HandoffGroup(group: GroupId, generation: nat)

  datatype HandoffProblem =
    | Pending(groups: seq<GroupId>)      // a row for the current key is still to be used
    | Behind(groups: seq<GroupId>)       // the group's key has not reached the account
    | Missing(groups: seq<GroupId>)      // no row for the new key at the current generation

  datatype RequestError =
    | AccountGone | DayNotToday | EpochStale | SameWrappingKey | SigningKeyReused
    | NotChecked(problem: HandoffProblem)
    | NotCommitted(error: RotateError)

  datatype RotateRequest = RotateRequest(expectedEpoch: nat, expectedVersion: nat, signedDay: Instant,
                                         newSigning: SigningKey, newWrapping: WrappingKey)

  ghost predicate IsPending(rows: map<GroupId, Handoff>, owed: seq<HandoffGroup>, currentKey: WrappingKey, g: GroupId) {
    g in rows && rows[g].names == currentKey && exists i :: 0 <= i < |owed| && owed[i].group == g
  }

  predicate IsReady(rows: map<GroupId, Handoff>, g: HandoffGroup, current: nat, newKey: WrappingKey) {
    g.generation == current && g.group in rows && rows[g.group] == Handoff(newKey, current)
  }

  /** What a rotation may start from: nothing pending, and every owed group's key handed to the new key. */
  ghost predicate HandoffsReady(rows: map<GroupId, Handoff>, owed: seq<HandoffGroup>, current: GroupId -> nat,
                                currentKey: WrappingKey, newKey: WrappingKey) {
    && (forall g :: !IsPending(rows, owed, currentKey, g))
    && (forall i :: 0 <= i < |owed| ==> IsReady(rows, owed[i], current(owed[i].group), newKey))
  }

  /** Row by row: an owed group's names the new key at the group's newest generation, which is where the account's entry is. */
  lemma ReadyByRows(rows: map<GroupId, Handoff>, owed: seq<HandoffGroup>, current: GroupId -> nat,
                    currentKey: WrappingKey, newKey: WrappingKey)
    requires newKey != currentKey
    ensures HandoffsReady(rows, owed, current, currentKey, newKey) <==>
              forall i :: 0 <= i < |owed| ==>
                && owed[i].generation == current(owed[i].group) && owed[i].group in rows
                && rows[owed[i].group].names == newKey && rows[owed[i].group].generation == owed[i].generation
  {
    if forall i :: 0 <= i < |owed| ==>
         && owed[i].generation == current(owed[i].group) && owed[i].group in rows
         && rows[owed[i].group].names == newKey && rows[owed[i].group].generation == owed[i].generation
    {
      forall i | 0 <= i < |owed| ensures IsReady(rows, owed[i], current(owed[i].group), newKey) {}
    }
    if HandoffsReady(rows, owed, current, currentKey, newKey) {
      forall i | 0 <= i < |owed|
        ensures owed[i].generation == current(owed[i].group) && owed[i].group in rows
                && rows[owed[i].group].names == newKey && rows[owed[i].group].generation == owed[i].generation
      {
        assert IsReady(rows, owed[i], current(owed[i].group), newKey);
      }
    }
  }

  class AccountTable {
    var profile: Profile
    var recovery: Option<nat>
    var keyChanges: map<nat, KeyChange>
    var cooldown: Option<Instant>
    var handoffSeq: Option<nat>
    var handoffs: map<GroupId, Handoff>

    function Rows(): Account
      reads this
    {
      Account(profile, recovery, keyChanges, cooldown, handoffSeq, handoffs)
    }

    constructor (a: Account)
      ensures Rows() == a
    {
      profile, recovery, keyChanges := a.profile, a.recovery, a.keyChanges;
      cooldown, handoffSeq, handoffs := a.cooldown, a.handoffSeq, a.handoffs;
    }

    /** Other requests' transactions commit. */
    method Interleave(steps: seq<AccountStep>)
      modifies this
      ensures Rows() == Run(old(Rows()), steps)
    {
      var a := Rows();
      for i := 0 to |steps|
        invariant Run(a, steps[i..]) == Run(old(Rows()), steps)
      {
        a := Apply(a, steps[i]);
      }
      profile, recovery, keyChanges := a.profile, a.recovery, a.keyChanges;
      cooldown, handoffSeq, handoffs := a.cooldown, a.handoffSeq, a.handoffs;
    }

    /** RotateKeys: one transaction over five items, and a read back to say why it failed. */
    method RotateKeys(req: RotateKeysInput) returns (r: Result<(), RotateError>)
      modifies this
      ensures r.Ok? <==> RotateCommits(old(Rows()), req)
      ensures Rows() == if r.Ok? then Rotated(old(Rows()), req) else old(Rows())
      ensures r == Err(RotationCooldown) <==> req.cooldown > 0 && !CooldownOver(old(Rows()), req.now)
      ensures r == Err(UserNotFound) ==> old(Rows()).profile.deleted
      ensures r == Err(CredentialVersionStale) ==>
                && old(profile.keyEpoch == req.expectedEpoch && profile.signingKey == req.oldSigning)
                && old(profile.wrappingKey) == req.oldWrapping
                && !old(profile.deleted && recovery == Some(req.expectedVersion))
      ensures r == Err(HandoffChanged) ==> SeqOf(old(Rows())) != req.expectedHandoffSeq
      ensures HistoryInv(old(Rows())) && r == Err(KeyEpochStale) ==>
                !old(profile.keyEpoch == req.expectedEpoch && profile.signingKey == req.oldSigning
                     && profile.wrappingKey == req.oldWrapping)
    {
      if req.cooldown > 0 && cooldown.Some? && cooldown.value > req.now { return Err(RotationCooldown); }
      if handoffSeq.Some? && handoffSeq.value != req.expectedHandoffSeq { return Err(HandoffChanged); }
      var newEpoch := req.expectedEpoch + 1;
      if newEpoch in keyChanges { return Err(KeyEpochStale); }
      var keysMatch := profile.signingKey == req.oldSigning && profile.wrappingKey == req.oldWrapping
                       && profile.keyEpoch == req.expectedEpoch;
      if profile.credentialVersion != req.expectedVersion || profile.deleted || !keysMatch
         || recovery != Some(req.expectedVersion) {
        if profile.deleted { return Err(UserNotFound); }
        if !keysMatch { return Err(KeyEpochStale); }
        return Err(CredentialVersionStale);
      }
      var superseded := SupersededKey(req.oldSigning, req.supersededFrom, req.supersededUntil);
      profile := profile.(signingKey := req.newSigning, wrappingKey := req.newWrapping, keyEpoch := newEpoch,
        superseded := profile.superseded + [superseded], credentialVersion := req.newVersion);
      recovery := Some(req.newVersion);
      keyChanges := keyChanges[newEpoch :=
        KeyChange(req.oldSigning, req.oldWrapping, req.newSigning, req.newWrapping, req.supersededUntil)];
      if req.cooldown > 0 {
        cooldown := Some(RoundUpToEndOfUTCDay(req.now + req.cooldown));
      }
      return Ok(());
    }

    /** entryFits: the caller's MEMBER# row is an admin's (any member's, with no rotation) at row.generation. */
    method PutHandoff(group: GroupId, row: Handoff, currentKey: WrappingKey, entryFits: bool)
      returns (r: Result<(), HandoffError>)
      modifies this`handoffs, this`handoffSeq
      ensures r.Ok? <==> Commits(old(Rows()), AccountStep.PutHandoff(group, row, currentKey, entryFits))
      ensures Rows() == Apply(old(Rows()), AccountStep.PutHandoff(group, row, currentKey, entryFits))
      ensures r == Err(HandoffPending) ==> group in handoffs && handoffs[group].names == profile.wrappingKey
    {
      if !entryFits { return Err(HandoffNotAdmin); }
      if profile.wrappingKey != currentKey || profile.deleted { return Err(HandoffAccountChanged); }
      if group in handoffs && handoffs[group].names == currentKey { return Err(HandoffPending); }
      handoffs := handoffs[group := row];
      handoffSeq := Some((if handoffSeq.Some? then handoffSeq.value else 0) + 1);
      return Ok(());
    }

    /** Succeeds, writing nothing, for a deleted account. */
    method DeleteHandoff(group: GroupId)
      modifies this`handoffs, this`handoffSeq
      ensures Rows() == Apply(old(Rows()), AccountStep.DeleteHandoff(group))
      ensures !profile.deleted ==> group !in handoffs
    {
      if !profile.deleted {
        handoffs := handoffs - {group};
        handoffSeq := Some((if handoffSeq.Some? then handoffSeq.value else 0) + 1);
      }
    }

    method RewrapCredentials(expectedVersion: nat, newVersion: nat) returns (ok: bool)
      modifies this`profile, this`recovery
      ensures ok <==> Commits(old(Rows()), AccountStep.RewrapCredentials(expectedVersion, newVersion))
      ensures Rows() == Apply(old(Rows()), AccountStep.RewrapCredentials(expectedVersion, newVersion))
      ensures CredentialsAgree(old(Rows())) ==> CredentialsAgree(Rows())
    {
      ok := profile.credentialVersion == expectedVersion && recovery == Some(expectedVersion);
      if ok {
        profile := profile.(credentialVersion := newVersion);
        recovery := Some(newVersion);
      }
    }

    /**
     * ListHandoffs: a paged query, pages ending where `cuts` says, with the
     * i-th batch of other requests before page i. If HANDOFFSEQ did not move,
     * what it returns was there at the start, and covers every row at the end.
     */
    method ListHandoffs(cuts: seq<GroupId>, env: seq<seq<AccountStep>>)
      returns (rows: map<GroupId, Handoff>, ghost steps: seq<AccountStep>)
      requires forall i, j :: 0 <= i <= j < |cuts| ==> cuts[i] <= cuts[j]
      modifies this
      ensures Rows() == Run(old(Rows()), steps)
      ensures !profile.deleted && SeqOf(Rows()) == SeqOf(old(Rows())) ==>
                NarrowsTo(rows, handoffs) && NarrowsTo(old(handoffs), rows)
      ensures forall s :: s in steps ==> exists i :: 0 <= i < |env| && s in env[i]
    {
      rows, steps := map[], [];
      var after := 0;
      for i := 0 to |cuts| + 1
        invariant 0 < i <= |cuts| ==> after <= cuts[i - 1]
        invariant i < |cuts| ==> after <= cuts[i]
        invariant Rows() == Run(old(Rows()), steps)
        invariant forall s :: s in steps ==> exists i :: 0 <= i < |env| && s in env[i]
        invariant !profile.deleted && SeqOf(Rows()) == SeqOf(old(Rows())) ==>
                    && NarrowsTo(old(handoffs), rows)
                    && forall g :: g in handoffs && (g < after || i == |cuts| + 1) ==> g in rows && rows[g] == handoffs[g]
      {
        var before := if i < |env| then env[i] else [];
        ghost var mid := Rows();
        Interleave(before);
        RunAppend(old(Rows()), steps, before);
        if !profile.deleted && SeqOf(Rows()) == SeqOf(old(Rows())) {
          HandoffSeqLinearizes(mid, before);
          if !Run(old(Rows()), steps).profile.deleted { HandoffSeqLinearizes(old(Rows()), steps); }
        }
        steps := steps + before;
        if !profile.deleted && SeqOf(Rows()) == SeqOf(old(Rows())) { HandoffSeqLinearizes(old(Rows()), steps); }
        var from := after;
        if i < |cuts| {
          rows := rows + map g | g in handoffs && from <= g < cuts[i] :: handoffs[g];
          after := cuts[i];
        } else {
          rows := rows + map g | g in handoffs && from <= g :: handoffs[g];
        }
      }
    }

    /**
     * The rotate-keys handler: the profile read (`seen`, possibly an old one)
     * and the checks on it at `checkedAt`, the sequence read, the paged
     * listing with `listEnv` in between, the handoff checks, `env`, and the
     * commit.
     */
    method HandleRotateKeys(q: RotateRequest, seen: Account, checkedAt: Instant, now: Instant, cooldownSetting: int,
                            owed: seq<HandoffGroup>, current: GroupId -> nat,
                            cuts: seq<GroupId>, listEnv: seq<seq<AccountStep>>, env: seq<AccountStep>)
      returns (r: Result<RotateKeysInput, RequestError>, ghost rows: map<GroupId, Handoff>, ghost steps: seq<AccountStep>)
      requires forall i, j :: 0 <= i <= j < |cuts| ==> cuts[i] <= cuts[j]
      modifies this
      ensures forall s :: s in steps ==> s in env || exists i :: 0 <= i < |listEnv| && s in listEnv[i]
      ensures r.Err? ==> Rows() == Run(old(Rows()), steps)
      ensures r.Ok? ==>
                var atCommit := Run(old(Rows()), steps);
                && RotateCommits(atCommit, r.value) && Rows() == Rotated(atCommit, r.value)
                && RotationRequestOk(seen, r.value) && r.value.expectedEpoch == q.expectedEpoch
                && ValidSignedDay(q.signedDay, checkedAt) && r.value.supersededUntil == q.signedDay
                && r.value.expectedVersion == q.expectedVersion && profile.credentialVersion == q.expectedVersion + 1
                && r.value.newSigning == q.newSigning && r.value.newWrapping == q.newWrapping
                && r.value.cooldown == cooldownSetting && r.value.now == now
                && !HandoffWritten(old(Rows()), steps)
                && HandoffsReady(rows, owed, current, seen.profile.wrappingKey, q.newWrapping)
                && NarrowsTo(old(handoffs), rows) && NarrowsTo(rows, atCommit.handoffs)
      ensures r == Err(AccountGone) <==> seen.profile.deleted
      ensures r == Err(DayNotToday) <==> !seen.profile.deleted && !ValidSignedDay(q.signedDay, checkedAt)
      ensures r.Err? && r.error in {EpochStale, SameWrappingKey, SigningKeyReused} <==>
                !seen.profile.deleted && ValidSignedDay(q.signedDay, checkedAt) && !KeysAreNew(seen, q)
      ensures r == Err(EpochStale) ==> q.expectedEpoch != seen.profile.keyEpoch
      ensures r == Err(SameWrappingKey) ==> q.newWrapping == seen.profile.wrappingKey
      ensures r == Err(SigningKeyReused) ==> !SigningKeyIsNew(seen, q.newSigning)
      ensures r.Err? && r.error.NotChecked? ==> !HandoffsReady(rows, owed, current, seen.profile.wrappingKey, q.newWrapping)
      ensures r.Err? && r.error.NotCommitted? ==>
                && HandoffsReady(rows, owed, current, seen.profile.wrappingKey, q.newWrapping)
                && exists req :: Requested(req, q, seen, now, cooldownSetting) && req.expectedHandoffSeq == SeqOf(old(Rows()))
                                 && !RotateCommits(Rows(), req)
    {
      rows, steps := map[], [];
      var user := seen.profile;
      var refused := CheckRotateRequest(q, seen, checkedAt);
      if refused.Some? { return Err(refused.value), rows, steps; }
      var sequence := if handoffSeq.Some? then handoffSeq.value else 0;
      var listed, listSteps := ListHandoffs(cuts, listEnv);
      rows, steps := listed, listSteps;
      var checked := CheckHandoffs(listed, owed, current, user.wrappingKey, q.newWrapping);
      if checked.Err? { return Err(NotChecked(checked.error)), rows, steps; }
      var from := 0;
      if |user.superseded| > 0 { from := user.superseded[|user.superseded| - 1].until; }
      var req := RotateKeysInput(q.expectedVersion, q.expectedVersion + 1, user.keyEpoch, sequence,
        user.signingKey, user.wrappingKey, q.newSigning, q.newWrapping, from, q.signedDay, cooldownSetting, now);
      ghost var mid := Rows();
      Interleave(env);
      RunAppend(old(Rows()), steps, env);
      steps := steps + env;
      var committed := RotateKeys(req);
      if committed.Err? { return Err(NotCommitted(committed.error)), rows, steps; }
      RotationSawEveryHandoff(old(Rows()), steps, req);
      HandoffSeqLinearizes(mid, env);
      HandoffSeqLinearizes(old(Rows()), listSteps);
      return Ok(req), rows, steps;
    }

    /**
     * SweepHandoffs after a rotation: rows naming another key go, and rows for
     * groups where nothing can use them (`usable` is what the membership read
     * returns). The listing is paged, with `listEnv` in between; env(n) is what
     * other requests commit before the n-th read or delete. The deletes go by
     * key: they take whatever row is there by then.
     */
    method SweepHandoffs(currentKey: WrappingKey, usable: GroupId -> bool,
                         cuts: seq<GroupId>, listEnv: seq<seq<AccountStep>>, env: nat -> seq<AccountStep>)
      returns (ghost listed: map<GroupId, Handoff>, ghost listing: seq<AccountStep>, ghost steps: seq<AccountStep>)
      requires forall i, j :: 0 <= i <= j < |cuts| ==> cuts[i] <= cuts[j]
      modifies this
      ensures Rows() == Run(Run(old(Rows()), listing), steps)
      ensures !Run(old(Rows()), listing).profile.deleted && SeqOf(Run(old(Rows()), listing)) == SeqOf(old(Rows())) ==>
                NarrowsTo(listed, Run(old(Rows()), listing).handoffs)
      ensures forall g :: Useless(listed, g, currentKey, usable) ==> SweepHandoff(g) in steps
      ensures forall s :: s in steps ==>
                (exists n: nat :: s in env(n)) || (s.SweepHandoff? && Useless(listed, s.group, currentKey, usable))
      ensures forall s :: s in listing ==> exists i :: 0 <= i < |listEnv| && s in listEnv[i]
    {
      var rows, before := ListHandoffs(cuts, listEnv);
      listed, listing, steps := rows, before, [];
      ghost var a := Rows();
      var doomed, n, readSteps := FindUseless(rows, currentKey, usable, env);
      steps := readSteps;
      while doomed != {}
        invariant Rows() == Run(a, steps)
        invariant forall g :: g in doomed ==> Useless(rows, g, currentKey, usable)
        invariant forall g :: Useless(rows, g, currentKey, usable) ==> g in doomed || SweepHandoff(g) in steps
        invariant forall s :: s in steps ==>
                    (exists k: nat :: s in env(k)) || (s.SweepHandoff? && Useless(rows, s.group, currentKey, usable))
        decreases doomed
      {
        var g :| g in doomed;
        doomed := doomed - {g};
        var others := env(n);
        Interleave(others);
        RunAppend(a, steps, others);
        n := n + 1;
        handoffs := handoffs - {g};
        RunAppend(a, steps + others, [SweepHandoff(g)]);
        RunOfOne(Run(a, steps + others), SweepHandoff(g));
        steps := steps + others + [SweepHandoff(g)];
      }
    }

    /** The reads, row by row. */
    method FindUseless(rows: map<GroupId, Handoff>, currentKey: WrappingKey, usable: GroupId -> bool, env: nat -> seq<AccountStep>)
      returns (doomed: set<GroupId>, n: nat, ghost steps: seq<AccountStep>)
      modifies this
      ensures Rows() == Run(old(Rows()), steps)
      ensures forall g :: g in doomed <==> Useless(rows, g, currentKey, usable)
      ensures forall s :: s in steps ==> exists k: nat :: s in env(k)
    {
      var left := rows.Keys;
      doomed, n, steps := {}, 0, [];
      while left != {}
        invariant left <= rows.Keys
        invariant Rows() == Run(old(Rows()), steps)
        invariant forall g :: g in doomed <==> g !in left && Useless(rows, g, currentKey, usable)
        invariant forall s :: s in steps ==> exists k: nat :: s in env(k)
        decreases left
      {
        var g :| g in left;
        left := left - {g};
        if rows[g].names != currentKey {
          doomed := doomed + {g};
        } else {
          var others := env(n);
          Interleave(others);
          RunAppend(old(Rows()), steps, others);
          n, steps := n + 1, steps + others;
          if !usable(g) { doomed := doomed + {g}; }
        }
      }
    }
  }

  predicate Useless(rows: map<GroupId, Handoff>, g: GroupId, currentKey: WrappingKey, usable: GroupId -> bool) {
    g in rows && (rows[g].names != currentKey || !usable(g))
  }

  lemma RunOfOne(a: Account, step: AccountStep)
    ensures Run(a, [step]) == Apply(a, step)
  {
    assert [step][1..] == [];
    assert Run(Apply(a, step), []) == Apply(a, step);
  }

  /** With nothing else committing, exactly the rows for the current key that a membership can use are left. */
  lemma UndisturbedSweep(a: Account, rows: map<GroupId, Handoff>, steps: seq<AccountStep>, currentKey: WrappingKey, usable: GroupId -> bool)
    requires a.handoffs == rows
    requires forall g :: Useless(rows, g, currentKey, usable) ==> SweepHandoff(g) in steps
    requires forall s :: s in steps ==> s.SweepHandoff? && Useless(rows, s.group, currentKey, usable)
    ensures Run(a, steps).handoffs == map g | g in rows && rows[g].names == currentKey && usable(g) :: rows[g]
  {
    SweepsOnly(a, steps);
    assert forall g :: g in rows ==> (SweepHandoff(g) in steps <==> Useless(rows, g, currentKey, usable));
  }

  lemma {:induction false} SweepsOnly(a: Account, steps: seq<AccountStep>)
    requires forall s :: s in steps ==> s.SweepHandoff?
    ensures Run(a, steps) == a.(handoffs := map g | g in a.handoffs && SweepHandoff(g) !in steps :: a.handoffs[g])
    decreases |steps|
  {
    if steps == [] {
      assert (map g | g in a.handoffs && SweepHandoff(g) !in steps :: a.handoffs[g]) == a.handoffs;
    } else {
      var g, b := steps[0].group, Apply(a, steps[0]);
      SweepsOnly(b, steps[1..]);
      assert steps[0] == SweepHandoff(g) && b == a.(handoffs := a.handoffs - {g});
      forall h ensures SweepHandoff(h) in steps <==> h == g || SweepHandoff(h) in steps[1..] {
        assert steps == [steps[0]] + steps[1..];
      }
      assert (map h | h in b.handoffs && SweepHandoff(h) !in steps[1..] :: b.handoffs[h])
          == (map h | h in a.handoffs && SweepHandoff(h) !in steps :: a.handoffs[h]);
    }
  }

  /** The checks on the profile read and the signed day. */
  method CheckRotateRequest(q: RotateRequest, seen: Account, checkedAt: Instant) returns (e: Option<RequestError>)
    ensures e == Some(AccountGone) <==> seen.profile.deleted
    ensures e == Some(DayNotToday) <==> !seen.profile.deleted && !ValidSignedDay(q.signedDay, checkedAt)
    ensures e.None? <==> !seen.profile.deleted && ValidSignedDay(q.signedDay, checkedAt) && KeysAreNew(seen, q)
    ensures e.Some? ==> e.value in {AccountGone, DayNotToday, EpochStale, SameWrappingKey, SigningKeyReused}
    ensures e == Some(EpochStale) ==> q.expectedEpoch != seen.profile.keyEpoch
    ensures e == Some(SameWrappingKey) ==> q.newWrapping == seen.profile.wrappingKey
    ensures e == Some(SigningKeyReused) ==> !SigningKeyIsNew(seen, q.newSigning)
  {
    var user := seen.profile;
    if user.deleted { return Some(AccountGone); }
    if !ValidSignedDay(q.signedDay, checkedAt) { return Some(DayNotToday); }
    if q.expectedEpoch != user.keyEpoch { return Some(EpochStale); }
    if q.newWrapping == user.wrappingKey { return Some(SameWrappingKey); }
    if q.newSigning == user.signingKey { return Some(SigningKeyReused); }
    for i := 0 to |user.superseded|
      invariant forall k :: 0 <= k < i ==> q.newSigning != user.superseded[k].key
    {
      if q.newSigning == user.superseded[i].key { return Some(SigningKeyReused); }
    }
    return None;
  }

  /** Not the current signing key, nor one used before. */
  predicate SigningKeyIsNew(seen: Account, newSigning: SigningKey) {
    newSigning != seen.profile.signingKey
    && forall i :: 0 <= i < |seen.profile.superseded| ==> newSigning != seen.profile.superseded[i].key
  }

  predicate KeysAreNew(seen: Account, q: RotateRequest) {
    q.expectedEpoch == seen.profile.keyEpoch && q.newWrapping != seen.profile.wrappingKey && SigningKeyIsNew(seen, q.newSigning)
  }

  /** The write the handler asks for. */
  predicate Requested(req: RotateKeysInput, q: RotateRequest, seen: Account, now: Instant, cooldownSetting: int) {
    && RotationRequestOk(seen, req) && req.expectedVersion == q.expectedVersion && req.supersededUntil == q.signedDay
    && req.newSigning == q.newSigning && req.newWrapping == q.newWrapping && req.cooldown == cooldownSetting && req.now == now
  }

  /** checkHandoffs' three rules over the rows it listed; the answer names the groups at fault. */
  method CheckHandoffs(rows: map<GroupId, Handoff>, owed: seq<HandoffGroup>, current: GroupId -> nat,
                       currentKey: WrappingKey, newKey: WrappingKey)
    returns (r: Result<(), HandoffProblem>)
    ensures r.Ok? <==> HandoffsReady(rows, owed, current, currentKey, newKey)
    ensures r.Err? && r.error.Pending? ==> forall g :: g in r.error.groups <==> IsPending(rows, owed, currentKey, g)
    ensures r.Err? && r.error.Behind? ==>
              && (forall g :: !IsPending(rows, owed, currentKey, g))
              && (forall g :: g in r.error.groups <==> exists i :: 0 <= i < |owed| && owed[i].group == g && owed[i].generation != current(g))
    ensures r.Err? && r.error.Missing? ==>
              && (forall g :: !IsPending(rows, owed, currentKey, g))
              && (forall i :: 0 <= i < |owed| ==> owed[i].generation == current(owed[i].group))
              && (forall g :: g in r.error.groups <==>
                    exists i :: 0 <= i < |owed| && owed[i].group == g && !IsReady(rows, owed[i], current(g), newKey))
  {
    var pending, behind, missing: seq<GroupId> := [], [], [];
    for i := 0 to |owed|
      invariant forall g :: g in pending <==>
                  g in rows && rows[g].names == currentKey && exists k :: 0 <= k < i && owed[k].group == g
    {
      var g := owed[i].group;
      if g in rows && rows[g].names == currentKey {
        pending := pending + [g];
      }
    }
    if pending != [] {
      assert pending[0] in pending;
      assert IsPending(rows, owed, currentKey, pending[0]);
      return Err(Pending(pending));
    }
    for i := 0 to |owed|
      invariant forall g :: g in behind <==> exists k :: 0 <= k < i && owed[k].group == g && owed[k].generation != current(g)
      invariant forall g :: g in missing <==>
                  exists k :: 0 <= k < i && owed[k].group == g && owed[k].generation == current(g) && !IsReady(rows, owed[k], current(g), newKey)
    {
      var g := owed[i].group;
      if owed[i].generation != current(g) {
        behind := behind + [g];
      } else if g !in rows || rows[g].names != newKey || rows[g].generation != current(g) {
        missing := missing + [g];
      }
    }
    if behind != [] {
      assert behind[0] in behind;
      return Err(Behind(behind));
    }
    forall k | 0 <= k < |owed| ensures owed[k].generation == current(owed[k].group) {
      assert owed[k].group !in behind;
    }
    if missing != [] {
      assert missing[0] in missing;
      return Err(Missing(missing));
    }
    forall k | 0 <= k < |owed| ensures IsReady(rows, owed[k], current(owed[k].group), newKey) {
      assert owed[k].group !in missing;
    }
    return Ok(());
  }
}
