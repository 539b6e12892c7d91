/**
 * Key rotations on the clock: with which cooldowns do the superseded keys'
 * intervals end in order?
 */
module Cooldowns {
  import opened Wrappers
  import opened Accounts

  /** A request that commits at `at`; a rotation's day was checked at `checkedAt`, a little earlier. */
  datatype TimedStep = TimedStep(at: Instant, checkedAt: Instant, step: AccountStep)

  /** A request takes less than 21 hours from its first clock reading to its commit. */
  const MAX_LAG: int := 21 * 3600

  ghost predicate Timely(a: Account, cooldown: int, clock: Instant, t: TimedStep) {
    && clock <= t.at
    && Honest(a, t.step)
    && match t.step
       case RotateKeys(req, _) =>
         && t.at - MAX_LAG <= t.checkedAt <= req.now <= t.at
         && ValidSignedDay(req.supersededUntil, t.checkedAt)
         && req.cooldown == cooldown
       case ExpireCooldown(at) => at == t.at
       case _ => true
  }

  ghost predicate TimelyRun(a: Account, cooldown: int, clock: Instant, ts: seq<TimedStep>)
    decreases |ts|
  {
    ts != [] ==> Timely(a, cooldown, clock, ts[0]) && TimelyRun(Apply(a, ts[0].step), cooldown, ts[0].at, ts[1..])
  }

  function RunTimed(a: Account, ts: seq<TimedStep>): Account
    decreases |ts|
  {
    if ts == [] then a else RunTimed(Apply(a, ts[0].step), ts[1..])
  }

  ghost predicate EndsOrdered(a: Account) {
    forall i, j :: 0 <= i <= j < |a.profile.superseded| ==> a.profile.superseded[i].until <= a.profile.superseded[j].until
  }

  /** The last interval's end lies a day before the moment the cooldown ends, or ended. */
  ghost predicate CooldownCovers(a: Account, clock: Instant) {
    !a.profile.deleted && a.profile.superseded != [] ==>
      var last := NextFrom(a.profile.superseded);
      last % DAY == 0 && last + DAY - 1 <= if a.cooldown.Some? then a.cooldown.value else clock
  }

  lemma NextDayIsNoEarlier(last: Instant, day: Instant, a: Account, t: TimedStep)
    requires t.step.RotateKeys? && Commits(a, t.step) && t.step.req.supersededUntil == day && t.step.req.cooldown > 0
    requires t.at - MAX_LAG <= t.checkedAt <= t.step.req.now <= t.at && ValidSignedDay(day, t.checkedAt)
    requires last % DAY == 0 && last + DAY - 1 <= if a.cooldown.Some? then a.cooldown.value else t.at
    ensures last <= day
  {
    assert last + DAY - 1 <= t.at;
    assert day > last - DAY;
    assert day / DAY * DAY == day && last / DAY * DAY == last;
  }

  lemma RotationIsCovered(a: Account, req: RotateKeysInput, checkedAt: Instant, clock: Instant)
    requires RotateCommits(a, req) && req.cooldown >= DAY_SKEW && checkedAt <= req.now
    requires ValidSignedDay(req.supersededUntil, checkedAt)
    ensures CooldownCovers(Rotated(a, req), clock)
  {
    var end := req.now + req.cooldown;
    assert req.supersededUntil <= end;
    assert req.supersededUntil / DAY <= end / DAY;
  }

  lemma {:induction false} LongCooldownOrdersEnds(a: Account, cooldown: int, clock: Instant, ts: seq<TimedStep>)
    requires cooldown >= DAY_SKEW
    requires TimelyRun(a, cooldown, clock, ts) && EndsOrdered(a) && CooldownCovers(a, clock)
    ensures EndsOrdered(RunTimed(a, ts))
    decreases |ts|
  {
    if ts != [] {
      var t := ts[0];
      var b := Apply(a, t.step);
      if Commits(a, t.step) && t.step.RotateKeys? {
        RotationIsCovered(a, t.step.req, t.checkedAt, t.at);
        if a.profile.superseded != [] {
          NextDayIsNoEarlier(NextFrom(a.profile.superseded), t.step.req.supersededUntil, a, t);
        }
      } else {
        assert b.profile.superseded == a.profile.superseded;
      }
      LongCooldownOrdersEnds(b, cooldown, t.at, ts[1..]);
    }
  }

  /** A rotation signed for tomorrow late in the evening, then one signed for today a second before midnight. */
  lemma ShortCooldownMisordersEnds(cooldown: int) returns (ts: seq<TimedStep>)
    requires 0 < cooldown < DAY_SKEW
    ensures TimelyRun(NewAccount(1, 10), cooldown, 0, ts) && !EndsOrdered(RunTimed(NewAccount(1, 10), ts))
  {
    var a := NewAccount(1, 10);
    var evening, midnight := DAY - DAY_SKEW, DAY - 1;
    var first := RotateKeysInput(1, 2, 0, 0, 1, 10, 2, 20, 0, DAY, cooldown, evening);
    RotationKeepsHistory(a, a, first);
    var b := Rotated(a, first);
    assert b.cooldown == Some(midnight);
    var second := RotateKeysInput(2, 3, 1, 0, 2, 20, 3, 30, DAY, 0, cooldown, midnight);
    var t1 := TimedStep(evening, evening, RotateKeys(first, a));
    var t2 := TimedStep(midnight, midnight, RotateKeys(second, b));
    ts := [t1, t2];
    assert ts[1..] == [t2] && [t2][1..] == [];
    assert Apply(a, t1.step) == b;
    assert Timely(a, cooldown, 0, t1);
    assert Timely(b, cooldown, evening, t2);
    var c := Apply(b, t2.step);
    assert c == Rotated(b, second);
    assert RunTimed(a, ts) == RunTimed(b, [t2]) == RunTimed(c, []) == c;
    assert c.profile.superseded[0].until == DAY && c.profile.superseded[1].until == 0;
    assert TimelyRun(c, cooldown, midnight, []);
    assert TimelyRun(b, cooldown, evening, [t2]);
  }

  ghost predicate AlwaysOrdered(cooldown: int) {
    forall signing, wrapping, ts ::
      TimelyRun(NewAccount(signing, wrapping), cooldown, 0, ts) ==> EndsOrdered(RunTimed(NewAccount(signing, wrapping), ts))
  }

  /** The configured floor is one hour; the history stays in order from two hours on. */
  lemma EndsAreOrderedFromTwoHoursOn(cooldown: int)
    requires cooldown > 0
    ensures AlwaysOrdered(cooldown) <==> cooldown >= 2 * 3600
  {
    if cooldown >= DAY_SKEW {
      forall signing, wrapping, ts | TimelyRun(NewAccount(signing, wrapping), cooldown, 0, ts)
        ensures EndsOrdered(RunTimed(NewAccount(signing, wrapping), ts))
      {
        LongCooldownOrdersEnds(NewAccount(signing, wrapping), cooldown, 0, ts);
      }
    } else {
      var ts := ShortCooldownMisordersEnds(cooldown);
    }
  }
}
