/**
 * What posts, comments, reactions and edits check of the group: the marker is
 * as the handler read it, and the author holds the generation and is not dormant.
 */
module ContentPins {
  import opened Wrappers
  import Accounts
  import opened Groups
  import opened GroupEffects
  import opened GroupInvariants
  import opened GenerationKeys
  import opened MarkerLife
  import opened Completion

  /** marker is the generation of the marker read, if there was one; epoch the author's KeyEpoch read. */
  datatype Pin = Pin(author: UserId, epoch: nat, generation: int, marker: Option<nat>)

  /** The handler reads the current generation, then the marker; content is sealed at the generation being left. */
  function PinFor(atGeneration: Group, atMarker: Group, author: UserId, epoch: nat): Pin {
    Pin(author, epoch,
        if atMarker.marker.None? then Cur(atGeneration) else atMarker.marker.value.generation - 1,
        if atMarker.marker.None? then None else Some(atMarker.marker.value.generation))
  }

  /** The group's part of the write's transaction. */
  predicate Admits(s: Group, pin: Pin) {
    && pin.author in s.members && s.members[pin.author].generation >= pin.generation
    && s.members[pin.author].wrapEpoch == pin.epoch
    && Live(s, pin.author) && s.users[pin.author].profile.keyEpoch == pin.epoch
    && (if pin.marker.Some? then MarkerAt(s, pin.marker.value) else s.marker.None?)
  }

  /** Whatever was read when: the author is not dormant, and can derive the key the content is sealed with. */
  lemma AuthorHoldsTheKey(s: Group, pin: Pin)
    requires Consistent(s) && s.meta.Some? && Admits(s, pin) && pin.generation >= 0
    ensures !Dormant(s, pin.author) && CanDerive(s, pin.author, pin.generation)
  {
    MembersReadBack(s, pin.author, pin.generation);
  }

  /** Sealed for a rotation to m: at m - 1, and written only while the marker names m. */
  lemma WrittenWhileTheMarkerStands(atGeneration: Group, atMarker: Group, author: UserId, epoch: nat, t: Group)
    requires Chained(atMarker) && atMarker.meta.Some? && atMarker.marker.Some?
    requires Admits(t, PinFor(atGeneration, atMarker, author, epoch))
    ensures MarkerAt(t, atMarker.marker.value.generation)
    ensures 0 <= PinFor(atGeneration, atMarker, author, epoch).generation == atMarker.marker.value.generation - 1
    ensures Chained(t) && t.meta.Some? ==>
              var generation := PinFor(atGeneration, atMarker, author, epoch).generation;
              if t.marker.value.minted then generation == Cur(t) - 1 else generation <= Cur(t)
  {
  }

  /** So nothing sealed at the generation a rotation leaves is written once it is over, unless a leave from behind reopens it. */
  lemma NothingLateIsWritten(s: Group, steps: seq<Step>, pin: Pin)
    requires Chained(s) && Run(s, steps).meta.Some? && pin.marker.Some? && !ReopensIn(s, steps, pin.marker.value)
    requires Over(s, pin.marker.value)
    ensures !Admits(Run(s, steps), pin)
  {
    MarkerNeverReturns(s, steps, pin.marker.value);
  }

  /** The completion itself ends it. */
  lemma CompletionEndsThePin(s: Group, step: Step, steps: seq<Step>, pin: Pin)
    requires Chained(s) && s.meta.Some? && step.CompleteRotation? && Commits(s, step)
    requires pin.marker == Some(step.generation) && !ReopensIn(Effect(s, step), steps, step.generation)
    requires Run(Effect(s, step), steps).meta.Some?
    ensures !Admits(Run(Effect(s, step), steps), pin)
  {
    MetaAfter(s, step);
    StepMovesMarker(s, step, step.generation);
    NothingLateIsWritten(Effect(s, step), steps, pin);
  }

  /** A rotation start committed during the run. */
  predicate StartsIn(s: Group, steps: seq<Step>)
    decreases |steps|
  {
    steps != [] && ((Commits(s, steps[0]) && StartOf(steps[0]).Some?) || StartsIn(Next(s, steps[0]), steps[1..]))
  }

  lemma {:induction false} NewKeysComeFromStarts(s: Group, steps: seq<Step>)
    requires Chained(s) && Run(s, steps).meta.Some?
    ensures Cur(s) <= Cur(Run(s, steps))
    ensures Cur(s) < Cur(Run(s, steps)) <==> StartsIn(s, steps)
    decreases |steps|
  {
    if steps != [] {
      StepKeepsChained(s, steps[0]);
      RunKeepsChained(Next(s, steps[0]), steps[1..]);
      CurMoves(s, steps[0]);
      NewKeysComeFromStarts(Next(s, steps[0]), steps[1..]);
    }
  }

  /**
   * The generation is read first, the marker later, the write comes later
   * still. With no marker read, content is written only while there is none;
   * it is sealed at the current key exactly if no rotation start committed
   * since the generation was read.
   */
  lemma WrittenWithoutAMarker(read: Group, between: seq<Step>, after: seq<Step>, author: UserId, epoch: nat)
    requires Chained(read) && Run(read, between).marker.None? && Run(read, between + after).meta.Some?
    requires Admits(Run(read, between + after), PinFor(read, Run(read, between), author, epoch))
    ensures var t := Run(read, between + after); var pin := PinFor(read, Run(read, between), author, epoch);
            && t.marker.None? && pin.generation <= Cur(t)
            && (pin.generation == Cur(t) <==> !StartsIn(read, between + after))
  {
    NewKeysComeFromStarts(read, between + after);
  }

  // ----- the window: a whole rotation between the read and the write -----

  function TwoMembers(): Group {
    Group(0, Some(Meta(Rotating, 1)), None, map[],
          map[0 := Entry(Admin, 0, 10, 0, Some(0), 0), 1 := Entry(Member, 0, 11, 0, None, 1)],
          map[0 := Grant(0, Admin, 0, None)], map[0 := Accounts.NewAccount(1, 10), 1 := Accounts.NewAccount(2, 11)],
          {Wrap(0, 10, 0), Wrap(1, 11, 0)}, [0, 1], [0])
  }

  const REMOVAL := RemoveMember(0, GrantRef(0, true), 1, Member, None, Some(Recipient(0, 10, 0)), 0)
  const COMPLETION := CompleteRotation(0, 1, 2)

  lemma RemovalCommits()
    ensures Commits(TwoMembers(), REMOVAL) && Honest(TwoMembers(), REMOVAL)
  {
  }

  lemma Removed(s: Group, v: Group)
    requires s == TwoMembers() && Commits(s, REMOVAL) && v == Effect(s, REMOVAL)
    ensures v.meta == s.meta && v.marker == Some(Marker(1, 0, Some(1), true)) && Cur(v) == 1
    ensures v.members == map[0 := Entry(Admin, 1, 10, 0, Some(0), 0)] && Wrap(1, 11, 0) in v.wraps
  {
    assert v.members.Keys == {0};
  }

  lemma RemoverIsUnchanged(s: Group, v: Group)
    requires s == TwoMembers() && Commits(s, REMOVAL) && v == Effect(s, REMOVAL)
    ensures 0 in v.users && v.users[0] == Accounts.NewAccount(1, 10)
  {
    AccountsAfterStart(s, REMOVAL);
    var a := Accounts.NewAccount(1, 10);
    assert a.handoffs - {0} == a.handoffs;
    assert Accounts.Apply(a, Accounts.ConsumeHandoff(0)) == a;
  }

  lemma StillAdmitted(s: Group, t: Group)
    requires s.marker.None? && Cur(s) == 0 && t.marker.None? && Cur(t) == 1
    requires t.members == map[0 := Entry(Admin, 1, 10, 0, Some(0), 0)] && Wrap(1, 11, 0) in t.wraps
    requires 0 in t.users && t.users[0] == Accounts.NewAccount(1, 10)
    ensures Admits(t, PinFor(s, s, 0, 0)) && PinFor(s, s, 0, 0).generation < Cur(t)
    ensures 1 !in t.members && CanDerive(t, 1, PinFor(s, s, 0, 0).generation)
  {
    assert Derivation(t, 1, [0]);
  }

  /**
   * The admin seals a post at generation 0 with no marker in sight; a member
   * is removed and the rotation completes; the post is still accepted, and the
   * removed member derives its key.
   */
  lemma ARotationFitsBeforeTheWrite()
    ensures var s, t := TwoMembers(), Run(TwoMembers(), [REMOVAL, COMPLETION]);
            && HonestRun(s, [REMOVAL, COMPLETION])
            && Admits(t, PinFor(s, s, 0, 0)) && PinFor(s, s, 0, 0).generation < Cur(t)
            && 1 !in t.members && CanDerive(t, 1, PinFor(s, s, 0, 0).generation)
  {
    var s := TwoMembers();
    RemovalCommits();
    var v := Next(s, REMOVAL);
    Removed(s, v);
    RemoverIsUnchanged(s, v);
    UnrollTwo(s, REMOVAL, COMPLETION);
    assert Commits(v, COMPLETION);
    StillAdmitted(s, v.(marker := None));
  }
}
