/**
 * The life of one rotation's marker: it names one generation, and once that
 * generation is minted and the marker gone it never stands again, except by
 * the leave of somebody who was behind.
 */
module MarkerLife {
  import opened Wrappers
  import opened Groups
  import opened GroupEffects
  import opened GroupInvariants

  /** The rotation to a generation is over. */
  predicate Over(s: Group, generation: nat) { generation <= Cur(s) && !MarkerAt(s, generation) }

  /** A leave from behind, which puts up the marker of a generation minted before. */
  predicate Reopens(s: Group, step: Step, generation: nat) {
    Commits(s, step) && step.LeaveGroup? && step.from.Some? && step.from.value + 1 == generation && generation <= Cur(s)
  }

  predicate ReopensIn(s: Group, steps: seq<Step>, generation: nat)
    decreases |steps|
  {
    steps != [] && (Reopens(s, steps[0], generation) || ReopensIn(Next(s, steps[0]), steps[1..], generation))
  }

  predicate StandsIn(s: Group, steps: seq<Step>, generation: nat)
    decreases |steps|
  {
    MarkerAt(s, generation) || (steps != [] && StandsIn(Next(s, steps[0]), steps[1..], generation))
  }

  lemma MarkerMoves(s: Group, t: Group, step: Step, generation: nat)
    requires ChainOk(s) && ChainMoves(s, t, step) && t.meta.Some?
    ensures Cur(s) <= Cur(t)
    ensures Over(s, generation) ==>
              (MarkerAt(t, generation) <==> step.LeaveGroup? && step.from.Some? && step.from.value + 1 == generation)
    ensures MarkerAt(s, generation) ==> MarkerAt(t, generation) || Over(t, generation)
    ensures MarkerAt(s, generation) && step.CompleteRotation? ==> Over(t, generation)
  {
    if StartOf(step).Some? {
      var start := StartOf(step).value;
      assert s.members[start.starter.user].generation == start.current;
    } else if step.CompleteRotation? {
      assert s.members[step.caller].generation == step.generation;
    }
  }

  /** Only a completion ends a marker without minting, and exactly a leave from behind puts a past one up again. */
  lemma StepMovesMarker(s: Group, step: Step, generation: nat)
    requires Chained(s) && Next(s, step).meta.Some?
    ensures Chained(Next(s, step)) && s.meta.Some?
    ensures Over(s, generation) ==> (MarkerAt(Next(s, step), generation) <==> Reopens(s, step, generation))
    ensures Over(s, generation) ==> generation <= Cur(Next(s, step))
    ensures MarkerAt(s, generation) ==> MarkerAt(Next(s, step), generation) || Over(Next(s, step), generation)
    ensures MarkerAt(s, generation) && step.CompleteRotation? && Commits(s, step) ==> Over(Next(s, step), generation)
  {
    StepKeepsChained(s, step);
    if Commits(s, step) {
      StepMovesChain(s, step);
      MarkerMoves(s, Effect(s, step), step, generation);
    }
  }

  /** A rotation that is over stays over, unless somebody behind leaves from the generation before it. */
  lemma {:induction false} MarkerNeverReturns(s: Group, steps: seq<Step>, generation: nat)
    requires Chained(s) && Run(s, steps).meta.Some? && Over(s, generation) && !ReopensIn(s, steps, generation)
    ensures Over(Run(s, steps), generation)
    decreases |steps|
  {
    if steps != [] {
      StepKeepsChained(s, steps[0]);
      RunKeepsChained(Next(s, steps[0]), steps[1..]);
      StepMovesMarker(s, steps[0], generation);
      MarkerNeverReturns(Next(s, steps[0]), steps[1..], generation);
    }
  }

  lemma ReopenedStands(s: Group, step: Step, rest: seq<Step>, generation: nat)
    requires Reopens(s, step, generation)
    ensures StandsIn(Next(s, step), rest, generation)
  {
    MarkerAfterOther(s, step);
  }

  /** And then exactly, whatever requests are sent: past rotations' markers stand again in a run exactly if it holds such a leave. */
  lemma {:induction false} MarkerReturnsExactly(s: Group, steps: seq<Step>, generation: nat)
    requires Chained(s) && Run(s, steps).meta.Some? && Over(s, generation)
    ensures StandsIn(s, steps, generation) <==> ReopensIn(s, steps, generation)
    decreases |steps|
  {
    if steps != [] {
      StepKeepsChained(s, steps[0]);
      RunKeepsChained(Next(s, steps[0]), steps[1..]);
      StepMovesMarker(s, steps[0], generation);
      if Reopens(s, steps[0], generation) {
        ReopenedStands(s, steps[0], steps[1..], generation);
      } else {
        MarkerReturnsExactly(Next(s, steps[0]), steps[1..], generation);
      }
    }
  }

  /** So a marker seen at both ends of a run stood all along. */
  lemma MarkerStoodBetween(s: Group, step: Step, rest: seq<Step>, generation: nat)
    requires Chained(s) && !ReopensIn(s, [step] + rest, generation) && Run(s, [step] + rest).meta.Some?
    requires MarkerAt(s, generation) && MarkerAt(Run(s, [step] + rest), generation)
    ensures MarkerAt(Next(s, step), generation) && Chained(Next(s, step)) && Next(s, step).meta.Some?
    ensures !ReopensIn(Next(s, step), rest, generation) && Run(s, [step] + rest) == Run(Next(s, step), rest)
  {
    var steps := [step] + rest;
    assert steps[1..] == rest;
    StepKeepsChained(s, step);
    RunKeepsChained(Next(s, step), rest);
    StepMovesMarker(s, step, generation);
    if Over(Next(s, step), generation) {
      MarkerNeverReturns(Next(s, step), rest, generation);
    }
  }

  /** The three readings of a run split where the run does. */
  lemma {:induction false} RunSplits(s: Group, steps: seq<Step>, i: nat)
    requires i <= |steps|
    ensures Run(s, steps) == Run(Run(s, steps[..i]), steps[i..])
    ensures HonestRun(s, steps) <==> HonestRun(s, steps[..i]) && HonestRun(Run(s, steps[..i]), steps[i..])
    ensures forall generation: nat :: ReopensIn(s, steps, generation) <==>
              ReopensIn(s, steps[..i], generation) || ReopensIn(Run(s, steps[..i]), steps[i..], generation)
    decreases |steps|
  {
    if i == 0 {
      assert steps[..0] == [] && steps[0..] == steps;
    } else {
      RunSplits(Next(s, steps[0]), steps[1..], i - 1);
      assert steps[..i][0] == steps[0] && steps[..i][1..] == steps[1..][..i - 1];
      assert steps[1..][i - 1..] == steps[i..];
    }
  }

  /** RunSplits, for two runs one after the other. */
  lemma RunAppend(s: Group, first: seq<Step>, second: seq<Step>)
    ensures Run(s, first + second) == Run(Run(s, first), second)
    ensures HonestRun(s, first + second) <==> HonestRun(s, first) && HonestRun(Run(s, first), second)
    ensures forall generation: nat :: ReopensIn(s, first + second, generation) <==>
              ReopensIn(s, first, generation) || ReopensIn(Run(s, first), second, generation)
  {
    RunSplits(s, first + second, |first|);
    assert (first + second)[..|first|] == first && (first + second)[|first|..] == second;
  }

  lemma ReadPoints(s: Group, steps: seq<Step>, more: seq<Step>, at: nat)
    requires at <= |more|
    ensures Run(s, (steps + more)[..|steps|]) == Run(s, steps)
    ensures Run(s, (steps + more)[..|steps| + at]) == Run(Run(s, steps), more[..at])
  {
    RunAppend(s, steps, more[..at]);
    assert (steps + more)[..|steps|] == steps && (steps + more)[..|steps| + at] == steps + more[..at];
  }

  lemma RunOne(s: Group, step: Step)
    ensures Run(s, [step]) == Next(s, step)
    ensures HonestRun(s, [step]) <==> Honest(s, step)
    ensures forall generation: nat :: ReopensIn(s, [step], generation) <==> Reopens(s, step, generation)
  {
    assert [step][1..] == [];
    assert Run(Next(s, step), []) == Next(s, step);
    assert HonestRun(Next(s, step), []);
  }

  lemma UnrollTwo(s: Group, first: Step, second: Step)
    ensures Run(s, [first, second]) == Next(Next(s, first), second)
    ensures HonestRun(s, [first, second]) <==> Honest(s, first) && Honest(Next(s, first), second)
    ensures forall generation: nat :: ReopensIn(s, [first, second], generation) <==>
              Reopens(s, first, generation) || Reopens(Next(s, first), second, generation)
  {
    RunAppend(s, [first], [second]);
    RunOne(s, first);
    RunOne(Next(s, first), second);
    assert [first] + [second] == [first, second];
  }

  /** A marker seen at both ends of a run stands at every point of it. */
  lemma {:induction false} MarkerStandsAt(s: Group, steps: seq<Step>, generation: nat, i: nat)
    requires Chained(s) && !ReopensIn(s, steps, generation) && Run(s, steps).meta.Some? && i <= |steps|
    requires MarkerAt(s, generation) && MarkerAt(Run(s, steps), generation)
    ensures var v := Run(s, steps[..i]);
            MarkerAt(v, generation) && Chained(v) && v.meta.Some?
    decreases i
  {
    if i > 0 {
      assert steps == [steps[0]] + steps[1..];
      MarkerStoodBetween(s, steps[0], steps[1..], generation);
      MarkerStandsAt(Next(s, steps[0]), steps[1..], generation, i - 1);
      assert steps[..i][0] == steps[0] && steps[..i][1..] == steps[1..][..i - 1];
    } else {
      RunKeepsChained(s, steps);
      assert steps[..0] == [];
    }
  }

  /** No start looks at META's mode. */
  lemma StartsIgnoreTheMode(s: Group, t: Group, start: Step)
    requires s.meta.Some? && t == s.(meta := Some(s.meta.value.(mode := Open(true)))) && StartOf(start).Some?
    ensures Commits(t, start) <==> Commits(s, start)
  {
    match start
    case RemoveMember(_, _, _, _, _, _, _) =>
    case TakeOver(_, _, _) =>
    case SelfRekey(_, _) =>
    case ApproveRekey(_, _, _) =>
  }

  /** So one built before a conversion commits after it all the same, and an Open group is then rotating. */
  lemma OpenGroupsStillRotate(s: Group, admin: UserId, generation: nat, start: Step)
    requires Chained(s) && Commits(s, Step.ConvertToOpen(admin, generation)) && StartOf(start).Some?
    ensures var after := Next(s, Step.ConvertToOpen(admin, generation));
            && (Commits(after, start) <==> Commits(s, start))
            && (Commits(s, start) ==> IsOpen(Next(after, start)) && MarkerAt(Next(after, start), Cur(s) + 1))
  {
    var convert := Step.ConvertToOpen(admin, generation);
    var after := Next(s, convert);
    StartsIgnoreTheMode(s, after, start);
    if Commits(s, start) {
      StepKeepsChained(s, convert);
      StepMovesChain(after, start);
      LinksAfterStart(after, start);
    }
  }
}
