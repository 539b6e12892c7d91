/**
 * One account's rows: PROFILE, RECOVERY, the KEYCHANGE# chain, ROTCOOLDOWN,
 * HANDOFFSEQ and HANDOFF#, and every transaction that writes them.
 *
 * Apply gives a transaction's effect, and leaves the rows alone when one of
 * its conditions fails. A request that reads before it writes carries the
 * account it read (`seen`), which other requests may have overtaken.
 */
module Accounts {
  import opened Wrappers

  /** Ids and public keys are opaque: only equality (and, for ids, listing order) matters. */
  type UserId = nat
  type GroupId = nat
  type SigningKey = nat
  type WrappingKey = nat

  /** Whole seconds since the epoch. */
  type Instant = int

  datatype SupersededKey = SupersededKey(key: SigningKey, from: Instant, until: Instant)

  datatype KeyChange = KeyChange(oldSigning: SigningKey, oldWrapping: WrappingKey,
                                 newSigning: SigningKey, newWrapping: WrappingKey, day: Instant)

  /** A group key handed from the old wrapping key to a new one, which the row names. */
  datatype Handoff = Handoff(names: WrappingKey, generation: nat)

  datatype Profile = Profile(signingKey: SigningKey, wrappingKey: WrappingKey, keyEpoch: nat,
                             superseded: seq<SupersededKey>, credentialVersion: nat, deleted: bool)

  datatype Account = Account(profile: Profile, recovery: Option<nat>, keyChanges: map<nat, KeyChange>,
                             cooldown: Option<Instant>, handoffSeq: Option<nat>, handoffs: map<GroupId, Handoff>)

  // ----- key history -----

  /** The signing key current at an epoch, from the superseded list. */
  function SigningKeyAt(a: Account, epoch: nat): SigningKey {
    if epoch < |a.profile.superseded| then a.profile.superseded[epoch].key else a.profile.signingKey
  }

  /** The wrapping key current at an epoch, from the KEYCHANGE# row that replaced it. */
  function WrappingKeyAt(a: Account, epoch: nat): WrappingKey {
    if epoch + 1 in a.keyChanges then a.keyChanges[epoch + 1].oldWrapping else a.profile.wrappingKey
  }

  /** The KEYCHANGE# row of epoch e takes the keys of epoch e - 1 to those of epoch e, the wrapping key another one, on the day the old ones' interval ends. */
  predicate Links(a: Account, e: nat) {
    && e >= 1 && e in a.keyChanges
    && a.keyChanges[e].oldSigning == SigningKeyAt(a, e - 1) && a.keyChanges[e].newSigning == SigningKeyAt(a, e)
    && a.keyChanges[e].oldWrapping == WrappingKeyAt(a, e - 1) && a.keyChanges[e].newWrapping == WrappingKeyAt(a, e)
    && a.keyChanges[e].newWrapping != a.keyChanges[e].oldWrapping
    && (e <= |a.profile.superseded| ==> a.keyChanges[e].day == a.profile.superseded[e - 1].until)
  }

  /** The KEYCHANGE# rows are exactly epochs 1..KeyEpoch, and link up. */
  ghost predicate ChainComplete(a: Account) {
    && (forall e :: e in a.keyChanges <==> 1 <= e <= a.profile.keyEpoch)
    && (forall e: nat :: 1 <= e <= a.profile.keyEpoch ==> Links(a, e))
  }

  predicate StartsAtLastEnd(superseded: seq<SupersededKey>, i: nat)
    requires i < |superseded|
  {
    superseded[i].from == if i == 0 then 0 else superseded[i - 1].until
  }

  /** One superseded entry an epoch, each starting where the one before it ended. */
  ghost predicate IntervalsTouch(a: Account) {
    && |a.profile.superseded| == a.profile.keyEpoch
    && (forall i: nat :: i < |a.profile.superseded| ==> StartsAtLastEnd(a.profile.superseded, i))
  }

  function NextFrom(superseded: seq<SupersededKey>): Instant {
    if superseded == [] then 0 else superseded[|superseded| - 1].until
  }

  ghost predicate SigningKeysDiffer(a: Account) {
    forall i, j :: 0 <= i < j <= a.profile.keyEpoch ==> SigningKeyAt(a, i) != SigningKeyAt(a, j)
  }

  ghost predicate CredentialsAgree(a: Account) {
    a.recovery == if a.profile.deleted then None else Some(a.profile.credentialVersion)
  }

  ghost predicate HistoryInv(a: Account) {
    ChainComplete(a) && IntervalsTouch(a) && SigningKeysDiffer(a) && CredentialsAgree(a)
  }

  /** What Register leaves. */
  function NewAccount(signing: SigningKey, wrapping: WrappingKey): (a: Account)
    ensures HistoryInv(a)
  {
    Account(Profile(signing, wrapping, 0, [], 1, false), Some(1), map[], None, None, map[])
  }

  // ----- transactions -----

  datatype RotateKeysInput = RotateKeysInput(
    expectedVersion: nat, newVersion: nat, expectedEpoch: nat, expectedHandoffSeq: nat,
    oldSigning: SigningKey, oldWrapping: WrappingKey, newSigning: SigningKey, newWrapping: WrappingKey,
    supersededFrom: Instant, supersededUntil: Instant, cooldown: int, now: Instant)

  datatype AccountStep =
    | RotateKeys(req: RotateKeysInput, seen: Account)
    | RewrapCredentials(expectedVersion: nat, newVersion: nat)
    | PutHandoff(group: GroupId, row: Handoff, currentKey: WrappingKey, entryFits: bool)
    | DeleteHandoff(group: GroupId)
    | ConsumeHandoff(group: GroupId)            // a rotation start or self-wrap took the row
    | SweepHandoff(group: GroupId)              // one delete of SweepHandoffs
    | ExpireCooldown(at: Instant)               // DynamoDB's TTL deletion
    | Tombstone
    | ClearRows                                 // the sweep after an account deletion

  const DAY: int := 86_400

  function DayOf(t: Instant): Instant { t / DAY * DAY }

  function RoundUpToEndOfUTCDay(t: Instant): Instant { DayOf(t) + DAY - 1 }

  function SeqOf(a: Account): nat { if a.handoffSeq.Some? then a.handoffSeq.value else 0 }

  predicate CooldownOver(a: Account, now: Instant) { a.cooldown.None? || a.cooldown.value <= now }

  predicate RotateCommits(a: Account, req: RotateKeysInput) {
    && a.profile.credentialVersion == req.expectedVersion && !a.profile.deleted
    && a.profile.signingKey == req.oldSigning && a.profile.wrappingKey == req.oldWrapping
    && a.profile.keyEpoch == req.expectedEpoch
    && a.recovery == Some(req.expectedVersion)
    && req.expectedEpoch + 1 !in a.keyChanges
    && (req.cooldown > 0 ==> CooldownOver(a, req.now))
    && (a.handoffSeq.None? || a.handoffSeq.value == req.expectedHandoffSeq)
  }

  function Rotated(a: Account, req: RotateKeysInput): Account {
    a.(profile := a.profile.(
         signingKey := req.newSigning, wrappingKey := req.newWrapping, keyEpoch := req.expectedEpoch + 1,
         superseded := a.profile.superseded + [SupersededKey(req.oldSigning, req.supersededFrom, req.supersededUntil)],
         credentialVersion := req.newVersion),
       recovery := Some(req.newVersion),
       keyChanges := a.keyChanges[req.expectedEpoch + 1 :=
         KeyChange(req.oldSigning, req.oldWrapping, req.newSigning, req.newWrapping, req.supersededUntil)],
       cooldown := if req.cooldown > 0 then Some(RoundUpToEndOfUTCDay(req.now + req.cooldown)) else a.cooldown)
  }

  function Bumped(a: Account): Account { a.(handoffSeq := Some(SeqOf(a) + 1)) }

  /** The transaction's conditions. */
  predicate Commits(a: Account, step: AccountStep) {
    match step
    case RotateKeys(req, _) => RotateCommits(a, req)
    case RewrapCredentials(expected, _) =>
      a.profile.credentialVersion == expected && a.recovery == Some(expected)
    case PutHandoff(group, row, currentKey, entryFits) =>
      && entryFits && a.profile.wrappingKey == currentKey && !a.profile.deleted
      && (group in a.handoffs ==> a.handoffs[group].names != currentKey)
    case DeleteHandoff(_) => !a.profile.deleted
    case ConsumeHandoff(_) => true
    case SweepHandoff(_) => true
    case ExpireCooldown(at) => a.cooldown.Some? && a.cooldown.value <= at
    case Tombstone => !a.profile.deleted
    case ClearRows => a.profile.deleted
  }

  function Apply(a: Account, step: AccountStep): Account {
    if !Commits(a, step) then a
    else
      match step
      case RotateKeys(req, _) => Rotated(a, req)
      case RewrapCredentials(_, new_) =>
        a.(profile := a.profile.(credentialVersion := new_), recovery := Some(new_))
      case PutHandoff(group, row, _, _) => Bumped(a).(handoffs := a.handoffs[group := row])
      case DeleteHandoff(group) => Bumped(a).(handoffs := a.handoffs - {group})
      case ConsumeHandoff(group) => a.(handoffs := a.handoffs - {group})
      case SweepHandoff(group) => a.(handoffs := a.handoffs - {group})
      case ExpireCooldown(_) => a.(cooldown := None)
      case Tombstone => a.(profile := a.profile.(deleted := true), recovery := None)
      case ClearRows => a.(cooldown := None, handoffSeq := None, handoffs := map[])
  }

  function Run(a: Account, steps: seq<AccountStep>): Account
    decreases |steps|
  {
    if steps == [] then a else Run(Apply(a, steps[0]), steps[1..])
  }

  lemma {:induction false} RunAppend(a: Account, first: seq<AccountStep>, second: seq<AccountStep>)
    ensures Run(a, first + second) == Run(Run(a, first), second)
    decreases |first|
  {
    if first == [] {
      assert first + second == second;
    } else {
      assert (first + second)[1..] == first[1..] + second;
      RunAppend(Apply(a, first[0]), first[1..], second);
    }
  }

  // ----- what the handler checked, possibly against an old read -----

  const DAY_SKEW: int := 2 * 3600

  /** validSignedDay: the day is a midnight no more than 2h ahead of the clock and no more than 26h behind it. */
  predicate ValidSignedDay(day: Instant, at: Instant) {
    day % DAY == 0 && -DAY_SKEW <= at - day <= DAY + DAY_SKEW
  }

  predicate RotationRequestOk(seen: Account, req: RotateKeysInput) {
    && req.expectedEpoch == seen.profile.keyEpoch
    && req.oldSigning == seen.profile.signingKey && req.oldWrapping == seen.profile.wrappingKey
    && req.newWrapping != seen.profile.wrappingKey
    && req.newSigning != seen.profile.signingKey
    && (forall i :: 0 <= i < |seen.profile.superseded| ==> req.newSigning != seen.profile.superseded[i].key)
    && req.supersededFrom == NextFrom(seen.profile.superseded)
    && req.newVersion == req.expectedVersion + 1
  }

  /** b is an account a may become: histories grow at the end and an epoch's keys never change. */
  ghost predicate Later(a: Account, b: Account) {
    && a.profile.keyEpoch <= b.profile.keyEpoch
    && (a.profile.deleted ==> b.profile.deleted)
    && a.profile.superseded <= b.profile.superseded
    && (forall e :: e in a.keyChanges ==> e in b.keyChanges && b.keyChanges[e] == a.keyChanges[e])
    && (forall e: nat :: e <= a.profile.keyEpoch ==>
          SigningKeyAt(b, e) == SigningKeyAt(a, e) && WrappingKeyAt(b, e) == WrappingKeyAt(a, e))
    && (a.profile.keyEpoch == b.profile.keyEpoch ==> a.profile.superseded == b.profile.superseded)
  }

  /** Requests the handlers let through: a rotation was checked against some earlier state of the account; versions go up by one. */
  ghost predicate Honest(a: Account, step: AccountStep) {
    && (step.RotateKeys? ==> HistoryInv(step.seen) && Later(step.seen, a) && RotationRequestOk(step.seen, step.req))
    && (step.RewrapCredentials? ==> step.newVersion == step.expectedVersion + 1)
  }

  ghost predicate HonestRun(a: Account, steps: seq<AccountStep>)
    decreases |steps|
  {
    steps != [] ==> Honest(a, steps[0]) && HonestRun(Apply(a, steps[0]), steps[1..])
  }

  lemma LaterIsTransitive(a: Account, b: Account, c: Account)
    requires Later(a, b) && Later(b, c)
    ensures Later(a, c)
  {
  }

  lemma RotationKeepsOldKeys(a: Account, req: RotateKeysInput)
    requires HistoryInv(a) && RotateCommits(a, req)
    ensures forall e: nat :: e <= a.profile.keyEpoch ==>
              SigningKeyAt(Rotated(a, req), e) == SigningKeyAt(a, e) && WrappingKeyAt(Rotated(a, req), e) == WrappingKeyAt(a, e)
    ensures SigningKeyAt(Rotated(a, req), a.profile.keyEpoch + 1) == req.newSigning
    ensures WrappingKeyAt(Rotated(a, req), a.profile.keyEpoch + 1) == req.newWrapping
  {
  }

  lemma RotationKeepsIntervals(a: Account, seen: Account, req: RotateKeysInput)
    requires HistoryInv(a) && Later(seen, a) && IntervalsTouch(seen)
    requires RotationRequestOk(seen, req) && RotateCommits(a, req)
    ensures IntervalsTouch(Rotated(a, req))
  {
    var old_, new_ := a.profile.superseded, Rotated(a, req).profile.superseded;
    forall i: nat | i < |new_| ensures StartsAtLastEnd(new_, i) {
      if i < |old_| { assert StartsAtLastEnd(old_, i); }
    }
  }

  lemma RotationKeepsLinks(a: Account, req: RotateKeysInput)
    requires HistoryInv(a) && RotateCommits(a, req) && req.newWrapping != req.oldWrapping
    ensures ChainComplete(Rotated(a, req))
  {
    var b := Rotated(a, req);
    RotationKeepsOldKeys(a, req);
    forall e: nat | 1 <= e <= b.profile.keyEpoch ensures Links(b, e) {
      if e <= a.profile.keyEpoch { assert Links(a, e); }
    }
  }

  lemma RotationKeepsKeysDifferent(a: Account, seen: Account, req: RotateKeysInput)
    requires HistoryInv(a) && IntervalsTouch(seen) && Later(seen, a)
    requires RotationRequestOk(seen, req) && RotateCommits(a, req)
    ensures SigningKeysDiffer(Rotated(a, req))
  {
    RotationKeepsOldKeys(a, req);
    forall i: nat | i <= a.profile.keyEpoch ensures SigningKeyAt(a, i) != req.newSigning {
      if i < a.profile.keyEpoch {
        assert a.profile.superseded[i] == seen.profile.superseded[i];
      }
    }
  }

  lemma RotationKeepsHistory(a: Account, seen: Account, req: RotateKeysInput)
    requires HistoryInv(a) && IntervalsTouch(seen) && Later(seen, a)
    requires RotationRequestOk(seen, req) && RotateCommits(a, req)
    ensures HistoryInv(Rotated(a, req)) && Later(a, Rotated(a, req))
  {
    RotationKeepsOldKeys(a, req);
    RotationKeepsLinks(a, req);
    RotationKeepsIntervals(a, seen, req);
    RotationKeepsKeysDifferent(a, seen, req);
    assert a.profile.superseded <= Rotated(a, req).profile.superseded;
  }

  /** No request, however stale what it read, breaks the key history. */
  lemma HonestStepKeepsHistory(a: Account, step: AccountStep)
    requires HistoryInv(a) && Honest(a, step)
    ensures HistoryInv(Apply(a, step)) && Later(a, Apply(a, step))
  {
    if Commits(a, step) && step.RotateKeys? {
      RotationKeepsHistory(a, step.seen, step.req);
    } else {
      var b := Apply(a, step);
      assert b.keyChanges == a.keyChanges && b.profile.superseded == a.profile.superseded;
      assert forall e: nat :: SigningKeyAt(b, e) == SigningKeyAt(a, e) && WrappingKeyAt(b, e) == WrappingKeyAt(a, e);
      forall e: nat | 1 <= e <= b.profile.keyEpoch ensures Links(b, e) {
        assert Links(a, e);
      }
    }
  }

  lemma {:induction false} RunKeepsHistory(a: Account, steps: seq<AccountStep>)
    requires HistoryInv(a) && HonestRun(a, steps)
    ensures HistoryInv(Run(a, steps)) && Later(a, Run(a, steps))
    decreases |steps|
  {
    if steps != [] {
      var b := Apply(a, steps[0]);
      HonestStepKeepsHistory(a, steps[0]);
      RunKeepsHistory(b, steps[1..]);
      LaterIsTransitive(a, b, Run(b, steps[1..]));
    }
  }

  /** Every account since registration: a complete chain, touching intervals, no repeated signing key, one credential version. */
  lemma HistoryHoldsSinceRegistration(signing: SigningKey, wrapping: WrappingKey, steps: seq<AccountStep>)
    requires HonestRun(NewAccount(signing, wrapping), steps)
    ensures HistoryInv(Run(NewAccount(signing, wrapping), steps))
  {
    RunKeepsHistory(NewAccount(signing, wrapping), steps);
  }

  /** A deleted account is closed, whatever is sent: no key, credential or handoff row is ever written to it again. */
  lemma {:induction false} ADeletedAccountIsClosed(a: Account, steps: seq<AccountStep>)
    requires a.profile.deleted && CredentialsAgree(a)
    ensures var b := Run(a, steps);
            && b.profile == a.profile && b.recovery.None? && b.keyChanges == a.keyChanges
            && (forall g :: g in b.handoffs ==> g in a.handoffs && b.handoffs[g] == a.handoffs[g])
    decreases |steps|
  {
    if steps != [] {
      var b := Apply(a, steps[0]);
      assert b.profile == a.profile && b.recovery.None? && b.keyChanges == a.keyChanges;
      ADeletedAccountIsClosed(b, steps[1..]);
    }
  }

  // ----- one write a credential version -----

  /** A password change, a recovery or a key rotation prepared from credential version v. */
  predicate BuiltOn(step: AccountStep, v: nat) {
    match step
    case RotateKeys(req, _) => req.expectedVersion == v
    case RewrapCredentials(expected, _) => expected == v
    case _ => false
  }

  /** Each that commits takes the account to the next version; nothing else moves it. */
  lemma VersionMoves(a: Account, step: AccountStep)
    requires Honest(a, step)
    ensures Apply(a, step).profile.credentialVersion ==
              a.profile.credentialVersion + if (step.RotateKeys? || step.RewrapCredentials?) && Commits(a, step) then 1 else 0
    ensures forall v: nat :: BuiltOn(step, v) && Commits(a, step) ==> a.profile.credentialVersion == v
  {
  }

  lemma {:induction false} VersionsGrow(a: Account, steps: seq<AccountStep>)
    requires HonestRun(a, steps)
    ensures a.profile.credentialVersion <= Run(a, steps).profile.credentialVersion
    decreases |steps|
  {
    if steps != [] {
      VersionMoves(a, steps[0]);
      VersionsGrow(Apply(a, steps[0]), steps[1..]);
    }
  }

  /** So once one has committed, whatever else commits, no other built on the same version does: it cannot undo what the first wrapped. */
  lemma OneWriteAVersion(a: Account, first: AccountStep, between: seq<AccountStep>, second: AccountStep, v: nat)
    requires Honest(a, first) && Commits(a, first) && BuiltOn(first, v) && HonestRun(Apply(a, first), between)
    requires BuiltOn(second, v)
    ensures !Commits(Run(Apply(a, first), between), second)
  {
    VersionMoves(a, first);
    VersionsGrow(Apply(a, first), between);
  }

  /** Wrapping keys may come back: the handler compares a new one with the current one only. */
  lemma WrappingKeyMayRepeat() returns (a: Account, steps: seq<AccountStep>)
    ensures HistoryInv(a) && a.profile.keyEpoch == 0 && HonestRun(a, steps)
    ensures forall i :: 0 <= i < |steps| ==> steps[i].RotateKeys?
    ensures Run(a, steps).profile.keyEpoch == 2 && Run(a, steps).profile.wrappingKey == a.profile.wrappingKey
  {
    a := NewAccount(1, 10);
    var first := RotateKeysInput(1, 2, 0, 0, 1, 10, 2, 20, 0, 0, 0, 0);
    var b := Rotated(a, first);
    var second := RotateKeysInput(2, 3, 1, 0, 2, 20, 3, 10, 0, DAY, 0, 0);
    FirstRotationIsHonest(a, first);
    SecondRotationIsHonest(b, second);
    steps := [RotateKeys(first, a), RotateKeys(second, b)];
    RunOfTwo(a, steps[0], steps[1]);
    assert Apply(a, steps[0]) == b && Apply(b, steps[1]) == Rotated(b, second);
  }

  lemma FirstRotationIsHonest(a: Account, first: RotateKeysInput)
    requires a == NewAccount(1, 10) && first == RotateKeysInput(1, 2, 0, 0, 1, 10, 2, 20, 0, 0, 0, 0)
    ensures HistoryInv(a) && Honest(a, RotateKeys(first, a)) && Commits(a, RotateKeys(first, a)) && HistoryInv(Rotated(a, first))
  {
    RotationKeepsHistory(a, a, first);
  }

  lemma RunOfTwo(a: Account, first: AccountStep, second: AccountStep)
    ensures Run(a, [first, second]) == Apply(Apply(a, first), second)
    ensures HonestRun(a, [first, second]) <==> Honest(a, first) && Honest(Apply(a, first), second)
  {
    var b, last := Apply(a, first), [second];
    assert [first, second][1..] == last && last[1..] == [];
    assert Run(b, last) == Run(Apply(b, second), []) && (HonestRun(b, last) <==> Honest(b, second));
  }

  lemma SecondRotationIsHonest(b: Account, second: RotateKeysInput)
    requires b == Rotated(NewAccount(1, 10), RotateKeysInput(1, 2, 0, 0, 1, 10, 2, 20, 0, 0, 0, 0)) && HistoryInv(b)
    requires second == RotateKeysInput(2, 3, 1, 0, 2, 20, 3, 10, 0, DAY, 0, 0)
    ensures RotateCommits(b, second) && RotationRequestOk(b, second) && Later(b, b)
  {
  }

  // ----- handoff linearization -----

  predicate MovesSeq(step: AccountStep) { step.PutHandoff? || step.DeleteHandoff? }

  /** Some PutHandoff or DeleteHandoff committed during the run. */
  predicate HandoffWritten(a: Account, steps: seq<AccountStep>)
    decreases |steps|
  {
    steps != [] && ((MovesSeq(steps[0]) && Commits(a, steps[0])) || HandoffWritten(Apply(a, steps[0]), steps[1..]))
  }

  predicate NarrowsTo(before: map<GroupId, Handoff>, after: map<GroupId, Handoff>) {
    forall g :: g in after ==> g in before && before[g] == after[g]
  }

  /**
   * On an account still live at the end, HANDOFFSEQ stands still exactly when
   * no handoff row was written or deleted, and then rows can only have been
   * consumed.
   */
  lemma {:induction false} HandoffSeqLinearizes(a: Account, steps: seq<AccountStep>)
    requires !Run(a, steps).profile.deleted
    ensures SeqOf(a) <= SeqOf(Run(a, steps))
    ensures SeqOf(a) == SeqOf(Run(a, steps)) <==> !HandoffWritten(a, steps)
    ensures !HandoffWritten(a, steps) ==> NarrowsTo(a.handoffs, Run(a, steps).handoffs)
    ensures !a.profile.deleted
    decreases |steps|
  {
    if steps != [] {
      HandoffSeqLinearizes(Apply(a, steps[0]), steps[1..]);
    }
  }

  /** A rotation that commits with the sequence read before the rows were listed saw every row there is. */
  lemma RotationSawEveryHandoff(a: Account, steps: seq<AccountStep>, req: RotateKeysInput)
    requires req.expectedHandoffSeq == SeqOf(a) && RotateCommits(Run(a, steps), req)
    ensures !HandoffWritten(a, steps)
    ensures NarrowsTo(a.handoffs, Run(a, steps).handoffs)
  {
    HandoffSeqLinearizes(a, steps);
  }

  predicate Spares(step: AccountStep, g: GroupId) {
    match step
    case DeleteHandoff(h) => h != g
    case ConsumeHandoff(h) => h != g
    case SweepHandoff(h) => h != g
    case RotateKeys(_, _) => false
    case ClearRows => false
    case _ => true
  }

  /** A row naming the account's current key outlives everything but its own delete, its use, a sweep or the account. */
  lemma {:induction false} PendingRowIsKept(a: Account, steps: seq<AccountStep>, g: GroupId)
    requires g in a.handoffs && a.handoffs[g].names == a.profile.wrappingKey
    requires forall i :: 0 <= i < |steps| ==> Spares(steps[i], g)
    ensures g in Run(a, steps).handoffs && Run(a, steps).handoffs[g] == a.handoffs[g]
    decreases |steps|
  {
    if steps != [] {
      PendingRowIsKept(Apply(a, steps[0]), steps[1..], g);
    }
  }
}
