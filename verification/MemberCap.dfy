/**
 * The member cap of a Rotating group is exact, though members are counted page
 * by page while others join, leave and are removed.
 */
module MemberCap {
  import opened Wrappers
  import opened Groups
  import opened GroupEffects
  import opened GroupInvariants
  import opened MarkerLife
  import opened Completion

  function JoinSeq(s: Group): nat { if s.meta.Some? then s.meta.value.joinSeq else 0 }

  lemma JoinSeqAfter(s: Group, step: Step)
    requires Commits(s, step) && Effect(s, step).meta.Some?
    ensures JoinSeq(Effect(s, step)) ==
              if step.CompleteInvite? && step.seenSeq.Some? then JoinSeq(s) + 1 else JoinSeq(s)
    ensures step.CompleteInvite? && step.seenSeq.Some? ==> step.seenSeq.value == JoinSeq(s)
  {
  }

  /** Whatever is sent, while META exists JoinSeq never goes back. */
  lemma {:induction false} JoinSeqGrows(s: Group, steps: seq<Step>)
    requires Run(s, steps).meta.Some?
    ensures s.meta.Some? && JoinSeq(s) <= JoinSeq(Run(s, steps))
    decreases |steps|
  {
    if steps != [] {
      JoinSeqGrows(Next(s, steps[0]), steps[1..]);
      if Commits(s, steps[0]) { JoinSeqAfter(s, steps[0]); MetaWasThere(s, steps[0]); }
    }
  }

  lemma MetaWasThere(s: Group, step: Step)
    requires Commits(s, step) && Effect(s, step).meta.Some?
    ensures s.meta.Some?
  {
  }

  /** A step brings nobody in, or is a capped join, which moves JoinSeq. */
  lemma StepGrowsOnlyByJoin(s: Group, step: Step)
    requires Honest(s, step) && IsRotating(s) && Next(s, step).meta.Some?
    ensures JoinSeq(s) <= JoinSeq(Next(s, step)) <= JoinSeq(s) + 1
    ensures if step.CompleteInvite? && Commits(s, step) then
              JoinSeq(Next(s, step)) == JoinSeq(s) + 1 && step.seenSeq == Some(JoinSeq(s))
              && Next(s, step).members.Keys == s.members.Keys + {step.invitee.user}
            else Next(s, step).members.Keys <= s.members.Keys
  {
    if Commits(s, step) {
      JoinSeqAfter(s, step);
      StepMovesEntries(s, step);
      forall u | u in Effect(s, step).members && !step.CompleteInvite? ensures u in s.members {
        assert Kept(s, Effect(s, step), u) || Wrapped(s, Effect(s, step), step, u);
      }
    }
  }

  /** While JoinSeq stands still, nobody comes in. */
  lemma {:induction false} NobodyJoinsUnnoticed(s: Group, steps: seq<Step>)
    requires Chained(s) && HonestRun(s, steps) && IsRotating(Run(s, steps))
    ensures JoinSeq(s) <= JoinSeq(Run(s, steps))
    ensures JoinSeq(s) == JoinSeq(Run(s, steps)) ==> Run(s, steps).members.Keys <= s.members.Keys
    decreases |steps|
  {
    if steps != [] {
      RotatingBefore(s, steps);
      StepKeepsChained(s, steps[0]);
      RunKeepsChained(Next(s, steps[0]), steps[1..]);
      StepGrowsOnlyByJoin(s, steps[0]);
      NobodyJoinsUnnoticed(Next(s, steps[0]), steps[1..]);
    }
  }

  // ----- counting by pages -----

  function IdsBetween(s: Group, from: UserId, to: UserId): set<UserId> { set u | u in s.members && from <= u < to }

  function IdsFrom(s: Group, from: UserId): set<UserId> { set u | u in s.members && from <= u }

  /** A page that ended before `upTo`, read after `at` steps. */
  datatype Page = Page(at: nat, upTo: UserId)

  /** What CountMembers adds up: each page as it was when read, the last one open-ended. */
  function Counted(s: Group, steps: seq<Step>, pages: seq<Page>, from: UserId, lastAt: nat): nat
    requires lastAt <= |steps| && forall k :: 0 <= k < |pages| ==> pages[k].at <= |steps|
  {
    if pages == [] then |IdsFrom(Run(s, steps[..lastAt]), from)|
    else |IdsBetween(Run(s, steps[..pages[0].at]), from, pages[0].upTo)| + Counted(s, steps, pages[1..], pages[0].upTo, lastAt)
  }

  lemma SmallerSetsCountLess(a: set<UserId>, b: set<UserId>)
    requires a <= b
    ensures |a| <= |b|
  {
    if a != b {
      assert b == a + (b - a);
    }
  }

  /** If every page was read when no member of t was missing, the total is at least t's. */
  lemma {:induction false} PagesOverCount(s: Group, steps: seq<Step>, pages: seq<Page>, from: UserId, lastAt: nat, t: Group)
    requires lastAt <= |steps| && forall k :: 0 <= k < |pages| ==> pages[k].at <= |steps|
    requires t.members.Keys <= Run(s, steps[..lastAt]).members.Keys
    requires forall k :: 0 <= k < |pages| ==> t.members.Keys <= Run(s, steps[..pages[k].at]).members.Keys
    ensures |IdsFrom(t, from)| <= Counted(s, steps, pages, from, lastAt)
    decreases |pages|
  {
    if pages == [] {
      SmallerSetsCountLess(IdsFrom(t, from), IdsFrom(Run(s, steps[..lastAt]), from));
    } else {
      var page, read := pages[0], Run(s, steps[..pages[0].at]);
      PagesOverCount(s, steps, pages[1..], page.upTo, lastAt, t);
      SmallerSetsCountLess(IdsBetween(t, from, page.upTo), IdsBetween(read, from, page.upTo));
      SmallerSetsCountLess(IdsFrom(t, from), IdsBetween(t, from, page.upTo) + IdsFrom(t, page.upTo));
    }
  }

  // ----- every run -----

  /** One capped join: it read JoinSeq, counted pages from then on, and found the count below the cap. */
  ghost predicate CountedFirst(s: Group, steps: seq<Step>, i: nat, cap: nat, seqAt: nat, pages: seq<Page>, lastAt: nat)
    requires i < |steps|
  {
    && seqAt <= lastAt <= i && (forall k :: 0 <= k < |pages| ==> seqAt <= pages[k].at <= i)
    && steps[i].CompleteInvite? && steps[i].seenSeq == Some(JoinSeq(Run(s, steps[..seqAt])))
    && Counted(s, steps, pages, 0, lastAt) < cap
  }

  ghost predicate CountsFirst(s: Group, steps: seq<Step>, cap: nat) {
    forall i :: 0 <= i < |steps| && steps[i].CompleteInvite? ==>
      exists seqAt, pages, lastAt :: CountedFirst(s, steps, i, cap, seqAt, pages, lastAt)
  }

  lemma Earlier(s: Group, steps: seq<Step>, i: nat, k: nat)
    requires Chained(s) && HonestRun(s, steps) && k <= i <= |steps| && IsRotating(Run(s, steps[..i]))
    ensures JoinSeq(Run(s, steps[..k])) <= JoinSeq(Run(s, steps[..i]))
    ensures JoinSeq(Run(s, steps[..k])) == JoinSeq(Run(s, steps[..i])) ==>
              Run(s, steps[..i]).members.Keys <= Run(s, steps[..k]).members.Keys
  {
    RunSplits(s, steps, i);
    RunSplits(s, steps[..i], k);
    assert steps[..i][..k] == steps[..k];
    RunKeepsChained(s, steps[..k]);
    NobodyJoinsUnnoticed(Run(s, steps[..k]), steps[..i][k..]);
  }

  /** A join that commits counted everybody then in the group, at least. */
  lemma CommittedJoinFits(s: Group, steps: seq<Step>, i: nat, cap: nat, seqAt: nat, pages: seq<Page>, lastAt: nat)
    requires Chained(s) && HonestRun(s, steps) && i < |steps| && IsRotating(Run(s, steps[..i]))
    requires CountedFirst(s, steps, i, cap, seqAt, pages, lastAt) && Commits(Run(s, steps[..i]), steps[i])
    ensures |Run(s, steps[..i]).members| < cap
  {
    var t := Run(s, steps[..i]);
    Earlier(s, steps, i, seqAt);
    forall k | seqAt <= k <= i ensures t.members.Keys <= Run(s, steps[..k]).members.Keys {
      Earlier(s, steps, i, k);
      NotBeforeTheRead(s, steps, i, seqAt, k);
    }
    PagesOverCount(s, steps, pages, 0, lastAt, t);
    assert IdsFrom(t, 0) == t.members.Keys;
  }

  lemma NotBeforeTheRead(s: Group, steps: seq<Step>, i: nat, seqAt: nat, k: nat)
    requires Chained(s) && HonestRun(s, steps) && seqAt <= k <= i <= |steps| && IsRotating(Run(s, steps[..i]))
    ensures JoinSeq(Run(s, steps[..seqAt])) <= JoinSeq(Run(s, steps[..k]))
  {
    RunSplits(s, steps, i);
    RunSplits(s, steps[..i], k);
    assert steps[..i][..k] == steps[..k];
    RunKeepsChained(s, steps[..k]);
    RotatingBefore(Run(s, steps[..k]), steps[..i][k..]);
    Earlier(s, steps, k, seqAt);
  }

  lemma LastStep(s: Group, steps: seq<Step>, i: nat)
    requires Chained(s) && HonestRun(s, steps) && i < |steps| && IsRotating(Run(s, steps[..i + 1]))
    ensures var v := Run(s, steps[..i]);
            Run(s, steps[..i + 1]) == Next(v, steps[i]) && Honest(v, steps[i]) && IsRotating(v)
  {
    var v, step := Run(s, steps[..i]), steps[i];
    RunSplits(s, steps, i + 1);
    RunSplits(s, steps[..i + 1], i);
    assert steps[..i + 1][..i] == steps[..i] && steps[..i + 1][i..] == [step];
    RunKeepsChained(s, steps[..i]);
    RotatingBefore(v, [step]);
    assert [step][1..] == [] && Run(Next(v, step), []) == Next(v, step);
  }

  lemma StepCounts(s: Group, step: Step)
    requires Honest(s, step) && IsRotating(s) && Next(s, step).meta.Some?
    ensures |Next(s, step).members| <= |s.members| + if step.CompleteInvite? && Commits(s, step) then 1 else 0
  {
    StepGrowsOnlyByJoin(s, step);
    var before, after := s.members.Keys, Next(s, step).members.Keys;
    if step.CompleteInvite? && Commits(s, step) {
      assert |before + {step.invitee.user}| <= |before| + 1;
    } else {
      SmallerSetsCountLess(after, before);
    }
  }

  /** However joins, leaves and removals interleave: at most the cap, or as many as there were. */
  lemma {:induction false} CapIsExact(s: Group, steps: seq<Step>, cap: nat, i: nat)
    requires Chained(s) && HonestRun(s, steps) && CountsFirst(s, steps, cap)
    requires i <= |steps| && IsRotating(Run(s, steps[..i]))
    ensures |Run(s, steps[..i]).members| <= if |s.members| < cap then cap else |s.members|
    decreases i
  {
    if i == 0 {
      assert steps[..0] == [];
    } else {
      LastStep(s, steps, i - 1);
      CapIsExact(s, steps, cap, i - 1);
      StepCounts(Run(s, steps[..i - 1]), steps[i - 1]);
      JoinsFit(s, steps, cap, i - 1);
    }
  }

  lemma JoinsFit(s: Group, steps: seq<Step>, cap: nat, i: nat)
    requires Chained(s) && HonestRun(s, steps) && CountsFirst(s, steps, cap) && i < |steps| && IsRotating(Run(s, steps[..i]))
    ensures steps[i].CompleteInvite? && Commits(Run(s, steps[..i]), steps[i]) ==> |Run(s, steps[..i]).members| < cap
  {
    if steps[i].CompleteInvite? && Commits(Run(s, steps[..i]), steps[i]) {
      var seqAt, pages, lastAt :| CountedFirst(s, steps, i, cap, seqAt, pages, lastAt);
      CommittedJoinFits(s, steps, i, cap, seqAt, pages, lastAt);
    }
  }
}
