/**
 * A sweep deletes by key what it listed some time before. When can it take a
 * row that a later key rotation counted on?
 */
module HandoffSweeps {
  import opened Wrappers
  import opened Accounts
  import opened Cooldowns
  import opened KeyRenewals

  // ----- which rows a rotation finds at its commit -----

  /** A start, a self-wrap or a sweep deletes the group's row. */
  predicate TakenIn(steps: seq<AccountStep>, g: GroupId) { ConsumeHandoff(g) in steps || SweepHandoff(g) in steps }

  lemma {:induction false} DeletedStays(a: Account, steps: seq<AccountStep>)
    requires !Run(a, steps).profile.deleted
    ensures !a.profile.deleted
    decreases |steps|
  {
    if steps != [] { DeletedStays(Apply(a, steps[0]), steps[1..]); }
  }

  /** While HANDOFFSEQ stands still, a row is there exactly if it was and nobody took it. */
  lemma {:induction false} RowStaysExactly(a: Account, steps: seq<AccountStep>, g: GroupId)
    requires !Run(a, steps).profile.deleted && !HandoffWritten(a, steps)
    ensures g in Run(a, steps).handoffs <==> g in a.handoffs && !TakenIn(steps, g)
    decreases |steps|
  {
    if steps != [] {
      var b := Apply(a, steps[0]);
      DeletedStays(a, steps);
      DeletedStays(b, steps[1..]);
      RowStaysExactly(b, steps[1..], g);
      assert forall s :: s in steps <==> s == steps[0] || s in steps[1..];
      assert g in b.handoffs <==> g in a.handoffs && steps[0] != ConsumeHandoff(g) && steps[0] != SweepHandoff(g);
    }
  }

  /** So a rotation that commits with the sequence it read before listing the rows lacks a listed row exactly if it was taken since. */
  lemma RotationLacksExactlyTheTaken(a: Account, steps: seq<AccountStep>, req: RotateKeysInput, g: GroupId)
    requires req.expectedHandoffSeq == SeqOf(a) && RotateCommits(Run(a, steps), req) && g in a.handoffs
    ensures g in Run(a, steps).handoffs <==> !TakenIn(steps, g)
  {
    RotationSawEveryHandoff(a, steps, req);
    RowStaysExactly(a, steps, g);
  }

  // ----- the cooldown between two rotations -----

  /** The cooldown ends at `end`, or did. */
  predicate CoolsUntil(a: Account, clock: Instant, end: Instant) {
    a.profile.deleted || end <= clock || (a.cooldown.Some? && end <= a.cooldown.value)
  }

  lemma StepCools(a: Account, cooldown: int, clock: Instant, t: TimedStep, end: Instant)
    requires cooldown > 0 && Timely(a, cooldown, clock, t) && CoolsUntil(a, clock, end)
    ensures t.step.RotateKeys? && Commits(a, t.step) ==> end <= t.at
    ensures CoolsUntil(Apply(a, t.step), t.at, end)
  {
    if t.step.RotateKeys? {
      var until := t.step.req.now + cooldown;
      assert until <= RoundUpToEndOfUTCDay(until);
    }
  }

  /** The rows' steps without their clock. */
  function StepsOf(ts: seq<TimedStep>): seq<AccountStep> { seq(|ts|, i requires 0 <= i < |ts| => ts[i].step) }

  lemma {:induction false} TimedIsRun(a: Account, ts: seq<TimedStep>)
    ensures RunTimed(a, ts) == Run(a, StepsOf(ts))
    decreases |ts|
  {
    if ts != [] {
      TimedIsRun(Apply(a, ts[0].step), ts[1..]);
      assert StepsOf(ts)[1..] == StepsOf(ts[1..]);
    }
  }

  lemma {:induction false} StaysCool(a: Account, cooldown: int, clock: Instant, ts: seq<TimedStep>, end: Instant)
    requires cooldown > 0 && TimelyRun(a, cooldown, clock, ts) && CoolsUntil(a, clock, end)
    ensures CoolsUntil(RunTimed(a, ts), if ts == [] then clock else ts[|ts| - 1].at, end)
    decreases |ts|
  {
    if ts != [] {
      StepCools(a, cooldown, clock, ts[0], end);
      StaysCool(Apply(a, ts[0].step), cooldown, ts[0].at, ts[1..], end);
      assert ts[1..] != [] ==> ts[1..][|ts| - 2] == ts[|ts| - 1];
    }
  }

  /** Whatever commits in between, the next rotation commits no earlier than the cooldown's end. */
  lemma RotationsKeepApart(a: Account, cooldown: int, clock: Instant, ts: seq<TimedStep>, last: TimedStep, end: Instant)
    requires cooldown > 0 && CoolsUntil(a, clock, end) && TimelyRun(a, cooldown, clock, ts)
    requires Timely(RunTimed(a, ts), cooldown, if ts == [] then clock else ts[|ts| - 1].at, last)
    requires last.step.RotateKeys? && Commits(RunTimed(a, ts), last.step)
    ensures end <= last.at
  {
    StaysCool(a, cooldown, clock, ts, end);
    StepCools(RunTimed(a, ts), cooldown, if ts == [] then clock else ts[|ts| - 1].at, last, end);
  }

  // ----- a sweep that lasts -----

  /**
   * After a rotation, whose sweep listed g's row at a and whose deletes are all
   * committed by `done`: the handler of the next rotation reads the sequence
   * and lists the rows after `before`, at `listAt`, and finds g handed to the
   * new key; then `during`, and the rotation commits within `lag` of the
   * listing, with g's row gone to the sweep.
   */
  ghost predicate SweptAway(a: Account, cooldown: int, clock: Instant, done: Instant, lag: int, g: GroupId,
                            before: seq<TimedStep>, listAt: Instant, during: seq<TimedStep>, last: TimedStep) {
    var found := RunTimed(a, before);
    var atCommit := RunTimed(found, during);
    && TimelyRun(a, cooldown, clock, before) && EndOf(clock, before) <= listAt
    && TimelyRun(found, cooldown, listAt, during) && Timely(atCommit, cooldown, EndOf(listAt, during), last)
    && last.step.RotateKeys? && Commits(atCommit, last.step) && last.step.req.expectedHandoffSeq == SeqOf(found)
    && last.at - lag <= listAt
    && g in found.handoffs && found.handoffs[g].names == last.step.req.newWrapping && g !in atCommit.handoffs
    && ConsumeHandoff(g) !in StepsOf(during)
    && forall i :: 0 <= i < |during| && during[i].step == SweepHandoff(g) ==> during[i].at <= done
  }

  function EndOf(clock: Instant, ts: seq<TimedStep>): Instant { if ts == [] then clock else ts[|ts| - 1].at }

  lemma {:induction false} NoEarlierThan(a: Account, cooldown: int, clock: Instant, ts: seq<TimedStep>, i: nat)
    requires TimelyRun(a, cooldown, clock, ts) && i < |ts|
    ensures clock <= ts[i].at <= EndOf(clock, ts)
    decreases |ts|
  {
    if i > 0 {
      NoEarlierThan(Apply(a, ts[0].step), cooldown, ts[0].at, ts[1..], i - 1);
    } else if |ts| > 1 {
      NoEarlierThan(Apply(a, ts[0].step), cooldown, ts[0].at, ts[1..], |ts| - 2);
    }
  }

  lemma {:induction false} TimedRunAppend(a: Account, cooldown: int, clock: Instant, first: seq<TimedStep>, at: Instant, second: seq<TimedStep>, end: Instant)
    requires cooldown > 0 && CoolsUntil(a, clock, end) && TimelyRun(a, cooldown, clock, first)
    requires EndOf(clock, first) <= at && TimelyRun(RunTimed(a, first), cooldown, at, second)
    ensures CoolsUntil(RunTimed(RunTimed(a, first), second), EndOf(at, second), end)
  {
    StaysCool(a, cooldown, clock, first, end);
    StaysCool(RunTimed(a, first), cooldown, at, second, end);
  }

  /** Only a sweep that lasts to within the request's lag of the cooldown's end takes it. */
  lemma SweptAwayLate(a: Account, cooldown: int, clock: Instant, end: Instant, done: Instant, lag: int, g: GroupId,
                      before: seq<TimedStep>, listAt: Instant, during: seq<TimedStep>, last: TimedStep)
    requires cooldown > 0 && CoolsUntil(a, clock, end)
    requires SweptAway(a, cooldown, clock, done, lag, g, before, listAt, during, last)
    ensures end - lag <= done
  {
    var found := RunTimed(a, before);
    var atCommit := RunTimed(found, during);
    TimedRunAppend(a, cooldown, clock, before, listAt, during, end);
    StepCools(atCommit, cooldown, EndOf(listAt, during), last, end);
    TimedIsRun(found, during);
    RotationLacksExactlyTheTaken(found, StepsOf(during), last.step.req, g);
    var i :| 0 <= i < |StepsOf(during)| && StepsOf(during)[i] == SweepHandoff(g);
    NoEarlierThan(found, cooldown, listAt, during, i);
  }

  lemma TimelyOne(a: Account, cooldown: int, clock: Instant, t: TimedStep)
    ensures TimelyRun(a, cooldown, clock, [t]) <==> Timely(a, cooldown, clock, t)
    ensures RunTimed(a, [t]) == Apply(a, t.step)
  {
    assert [t][1..] == [];
    assert TimelyRun(Apply(a, t.step), cooldown, t.at, []);
    assert RunTimed(Apply(a, t.step), []) == Apply(a, t.step);
  }

  /** The row put for the next key, the listing, the late delete by key, and the rotation, as soon as it may. */
  lemma LateSweepTakes(a: Account, cooldown: int, clock: Instant, end: Instant, done: Instant, lag: int, g: GroupId)
      returns (before: seq<TimedStep>, during: seq<TimedStep>, last: TimedStep)
    requires HistoryInv(a) && !a.profile.deleted && cooldown > 0 && a.cooldown == Some(end) && clock <= done && lag >= 0
    requires g in a.handoffs && a.handoffs[g].names != a.profile.wrappingKey && end - lag <= done
    ensures SweptAway(a, cooldown, clock, done, lag, g, before, done, during, last)
  {
    var at := if end <= done then done else end;
    var put := PutHandoff(g, Handoff(a.profile.wrappingKey + 1, 0), a.profile.wrappingKey, true);
    before := [TimedStep(done, done, put)];
    TimelyOne(a, cooldown, clock, before[0]);
    var found := Apply(a, put);
    during := [TimedStep(done, done, SweepHandoff(g))];
    TimelyOne(found, cooldown, done, during[0]);
    var atCommit := Apply(found, SweepHandoff(g));
    HonestStepKeepsHistory(a, put);
    HonestStepKeepsHistory(found, SweepHandoff(g));
    RenewalIsHonestAt(atCommit, DayOf(at), cooldown, at);
    last := TimedStep(at, at, RenewalAt(atCommit, DayOf(at), cooldown, at));
  }

  /**
   * After a rotation that put a cooldown up until `end`, with a row left for a
   * key the account does not hold, so that its sweep dooms g: the next rotation
   * can commit without a row it had found in place exactly if the sweep's last
   * delete comes within a request's lag of the cooldown's end, or later.
   */
  lemma SweepTakesAHandoffExactly(a: Account, cooldown: int, clock: Instant, end: Instant, done: Instant, lag: int, g: GroupId)
    requires HistoryInv(a) && !a.profile.deleted && cooldown > 0 && a.cooldown == Some(end) && clock <= done && lag >= 0
    requires g in a.handoffs && a.handoffs[g].names != a.profile.wrappingKey
    ensures (exists before, listAt, during, last :: SweptAway(a, cooldown, clock, done, lag, g, before, listAt, during, last))
            <==> end - lag <= done
  {
    if end - lag <= done {
      var before, during, last := LateSweepTakes(a, cooldown, clock, end, done, lag, g);
    } else {
      forall before, listAt, during, last
        ensures !SweptAway(a, cooldown, clock, done, lag, g, before, listAt, during, last)
      {
        if SweptAway(a, cooldown, clock, done, lag, g, before, listAt, during, last) {
          SweptAwayLate(a, cooldown, clock, end, done, lag, g, before, listAt, during, last);
        }
      }
    }
  }
}
