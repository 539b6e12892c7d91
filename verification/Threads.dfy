/**
 * One post's partition: the comment tree, reactions, the notifications they
 * send, and every transaction that writes them. The post's own row stands at
 * the post-level reaction target, 0000, since posts are edited, deleted and
 * reacted to by the rules comments follow. What a write asks of the group is
 * ContentPins; here a write that it refuses is one that was not sent.
 */
module Threads {
  import opened Wrappers
  import opened CommentPaths

  type UserId = nat

  const POST: Path := [0]

  datatype Edition = Edition(nonce: nat, ciphertext: nat)

  /** A tombstone keeps its place and its author. */
  datatype Row = Live(author: UserId, edition: Edition, used: set<nat>) | Tombstone(author: UserId)

  datatype Reaction = Reaction(target: Path, reactor: UserId)

  /** A reaction's notification; its key is computed from these. */
  datatype Note = Note(recipient: UserId, target: Path, reactor: UserId)

  /** editions is history: every edition a place ever held, oldest first. */
  datatype Thread = Thread(rows: map<Path, Row>, reactions: set<Reaction>, notes: set<Note>, editions: map<Path, seq<Edition>>)

  datatype Step =
    | CreateComment(path: Path, author: UserId, edition: Edition, seen: set<Path>)
    | Edit(path: Path, author: UserId, prior: nat, edition: Edition)
    | Bury(path: Path)                                      // the tombstone DeleteComment and DeletePost write first
    | PutReaction(reaction: Reaction, notify: Option<UserId>)
    | DeleteReaction(reaction: Reaction, recipient: Option<UserId>)
    | SweepNote(note: Note)
    | SweepReaction(reaction: Reaction)

  function Parent(p: Path): Path
    requires p != []
  {
    p[..|p| - 1]
  }

  function Last(p: Path): nat
    requires p != []
  {
    p[|p| - 1]
  }

  predicate IsLive(s: Thread, p: Path) { p in s.rows && s.rows[p].Live? }

  predicate Commits(s: Thread, step: Step) {
    match step
    case CreateComment(path, _, _, _) =>
      path != [] && path !in s.rows && IsLive(s, POST) && (|path| > 1 ==> Parent(path) in s.rows)
    case Edit(path, author, prior, edition) =>
      && IsLive(s, path) && IsLive(s, POST)
      && s.rows[path].author == author && s.rows[path].edition.nonce == prior && edition.nonce !in s.rows[path].used
      && (edition.nonce == prior ==> edition.ciphertext == s.rows[path].edition.ciphertext)
    case Bury(path) => path in s.rows
    case PutReaction(reaction, _) => IsLive(s, POST) && IsLive(s, reaction.target)
    case DeleteReaction(_, _) => true
    case SweepNote(_) => true
    case SweepReaction(_) => true
  }

  function Edited(row: Row, edition: Edition): Row
    requires row.Live?
  {
    row.(edition := edition, used := if edition.nonce == row.edition.nonce then row.used else row.used + {row.edition.nonce})
  }

  function NotesTo(recipient: Option<UserId>, reaction: Reaction): set<Note> {
    if recipient.Some? then {Note(recipient.value, reaction.target, reaction.reactor)} else {}
  }

  function Next(s: Thread, step: Step): Thread {
    if !Commits(s, step) then s
    else
      match step
      case CreateComment(path, author, edition, _) =>
        s.(rows := s.rows[path := Live(author, edition, {})], editions := s.editions[path := [edition]])
      case Edit(path, _, _, edition) =>
        s.(rows := s.rows[path := Edited(s.rows[path], edition)],
           editions := s.editions[path := History(s, path) + [edition]])
      case Bury(path) => s.(rows := s.rows[path := Tombstone(s.rows[path].author)])
      case PutReaction(reaction, notify) =>
        s.(reactions := s.reactions + {reaction}, notes := s.notes + NotesTo(notify, reaction))
      case DeleteReaction(reaction, recipient) =>
        s.(reactions := s.reactions - {reaction}, notes := s.notes - NotesTo(recipient, reaction))
      case SweepNote(note) => s.(notes := s.notes - {note})
      case SweepReaction(reaction) => s.(reactions := s.reactions - {reaction})
  }

  function History(s: Thread, p: Path): seq<Edition> { if p in s.editions then s.editions[p] else [] }

  function Run(s: Thread, steps: seq<Step>): Thread
    decreases |steps|
  {
    if steps == [] then s else Run(Next(s, steps[0]), steps[1..])
  }

  /** CreatePost's row. */
  function NewThread(author: UserId, edition: Edition): Thread {
    Thread(map[POST := Live(author, edition, {})], {}, {}, map[POST := [edition]])
  }

  // ----- the tree -----

  /** A comment's parent is there, and so is its elder sibling. */
  predicate PlaceOk(places: set<Path>, p: Path) {
    && ValidCommentPath(p) && (|p| > 1 ==> Parent(p) in places)
    && (Last(p) > 1 ==> Parent(p) + [Last(p) - 1] in places)
  }

  ghost predicate TreeOk(places: set<Path>) { forall p :: p in places && p != POST ==> PlaceOk(places, p) }

  /** n is one past the last child of parent, the children being 1..n-1. */
  ghost predicate IsNext(places: set<Path>, parent: Path, n: nat) {
    n >= 1 && forall k: nat :: k >= 1 ==> (parent + [k] in places <==> k < n)
  }

  // ----- the rows -----

  function Nonces(editions: seq<Edition>): set<nat> { set e | e in editions :: e.nonce }

  /** One nonce, one ciphertext, over every edition; and UsedNonces is what was superseded. */
  ghost predicate NoncesOk(s: Thread, p: Path) {
    && p in s.rows && p in s.editions && s.editions[p] != []
    && (forall i, j :: 0 <= i < |s.editions[p]| && 0 <= j < |s.editions[p]| && s.editions[p][i].nonce == s.editions[p][j].nonce
                       ==> s.editions[p][i].ciphertext == s.editions[p][j].ciphertext)
    && (s.rows[p].Live? ==>
          && s.rows[p].edition == s.editions[p][|s.editions[p]| - 1]
          && s.rows[p].used == Nonces(s.editions[p]) - {s.rows[p].edition.nonce})
  }

  /** A reaction's notification is to the author of what it is on, and its reaction is there. */
  predicate NotePaired(s: Thread, n: Note) {
    n.target in s.rows && n.recipient == s.rows[n.target].author && Reaction(n.target, n.reactor) in s.reactions
  }

  ghost predicate Consistent(s: Thread) {
    && POST in s.rows && TreeOk(s.rows.Keys)
    && (forall p :: p in s.rows ==> NoncesOk(s, p))
    && (forall n :: n in s.notes ==> NotePaired(s, n))
    && (forall r :: r in s.reactions ==> r.target in s.rows)
  }

  // ----- what requests are taken to be -----

  /**
   * As the handlers pass them on: a new path is valid and at most one past the
   * last sibling on an earlier look; a reaction's audience was read with its
   * target in place; a sweep deletes a reaction after its notification.
   */
  ghost predicate Honest(s: Thread, step: Step) {
    match step
    case CreateComment(path, _, _, seen) =>
      && ValidCommentPath(path) && seen <= s.rows.Keys && TreeOk(seen)
      && exists n :: IsNext(seen, Parent(path), n) && Last(path) <= n
    case PutReaction(reaction, notify) =>
      notify.Some? && reaction.target in s.rows ==> notify.value == s.rows[reaction.target].author
    case DeleteReaction(reaction, recipient) => SentTo(s, reaction, recipient)
    case SweepReaction(reaction) => forall n :: n in s.notes ==> Reaction(n.target, n.reactor) != reaction
    case _ => true
  }

  predicate SentTo(s: Thread, reaction: Reaction, recipient: Option<UserId>) {
    reaction.target in s.rows ==> recipient == Some(s.rows[reaction.target].author)
  }

  ghost predicate HonestRun(s: Thread, steps: seq<Step>)
    decreases |steps|
  {
    steps != [] ==> Honest(s, steps[0]) && HonestRun(Next(s, steps[0]), steps[1..])
  }

  // ----- every step -----

  /** Rows are never lost, authors never change, a tombstone never comes back to life, histories only grow. */
  ghost predicate Later(s: Thread, t: Thread) {
    && (forall p :: p in s.rows ==> p in t.rows && t.rows[p].author == s.rows[p].author && (s.rows[p].Tombstone? ==> t.rows[p].Tombstone?))
    && (forall p :: p in s.rows ==> History(s, p) <= History(t, p))
  }

  lemma StepIsLater(s: Thread, step: Step)
    ensures Later(s, Next(s, step))
  {
  }

  lemma {:induction false} RunIsLater(s: Thread, steps: seq<Step>)
    ensures Later(s, Run(s, steps))
    decreases |steps|
  {
    if steps != [] {
      StepIsLater(s, steps[0]);
      RunIsLater(Next(s, steps[0]), steps[1..]);
      LaterIsTransitive(s, Next(s, steps[0]), Run(s, steps));
    }
  }

  lemma LaterIsTransitive(s: Thread, t: Thread, v: Thread)
    requires Later(s, t) && Later(t, v)
    ensures Later(s, v)
  {
  }

  lemma NewPlaceFits(places: set<Path>, path: Path, seen: set<Path>)
    requires TreeOk(places) && ValidCommentPath(path) && seen <= places && (|path| > 1 ==> Parent(path) in places)
    requires exists n :: IsNext(seen, Parent(path), n) && Last(path) <= n
    ensures TreeOk(places + {path})
  {
    var n :| IsNext(seen, Parent(path), n) && Last(path) <= n;
    forall p | p in places + {path} && p != POST ensures PlaceOk(places + {path}, p) {
      if p == path {
        if Last(p) > 1 { assert Parent(p) + [Last(p) - 1] in seen; }
      } else {
        assert PlaceOk(places, p);
      }
    }
  }

  lemma StepKeepsTree(s: Thread, step: Step)
    requires TreeOk(s.rows.Keys) && Honest(s, step)
    ensures TreeOk(Next(s, step).rows.Keys)
  {
    if step.CreateComment? && Commits(s, step) {
      NewPlaceFits(s.rows.Keys, step.path, step.seen);
      assert Next(s, step).rows.Keys == s.rows.Keys + {step.path};
    } else {
      assert Next(s, step).rows.Keys == s.rows.Keys;
    }
  }

  lemma NoncesGrow(editions: seq<Edition>, e: Edition)
    ensures Nonces(editions + [e]) == Nonces(editions) + {e.nonce}
  {
    forall n | n in Nonces(editions) + {e.nonce} ensures n in Nonces(editions + [e]) {
      if n in Nonces(editions) {
        var f :| f in editions && f.nonce == n;
        assert f in editions + [e];
      } else {
        assert e in editions + [e];
      }
    }
  }

  /** A new nonce is one no edition has used; the current one comes back only with its own ciphertext. */
  lemma EditKeepsNonces(s: Thread, step: Step)
    requires step.Edit? && Commits(s, step) && NoncesOk(s, step.path)
    ensures NoncesOk(Next(s, step), step.path)
  {
    var old_, e := s.editions[step.path], step.edition;
    var row := s.rows[step.path];
    NoncesGrow(old_, e);
    assert e.nonce in Nonces(old_) ==> e.nonce == row.edition.nonce;
    forall i | 0 <= i < |old_| && old_[i].nonce == e.nonce ensures old_[i].ciphertext == e.ciphertext {
      assert old_[i] in old_;
      assert old_[i].nonce in Nonces(old_);
    }
  }

  lemma StepKeepsNonces(s: Thread, step: Step, p: Path)
    requires p in s.rows ==> NoncesOk(s, p)
    ensures p in Next(s, step).rows ==> NoncesOk(Next(s, step), p)
  {
    if Commits(s, step) && step.Edit? && p == step.path {
      EditKeepsNonces(s, step);
    }
  }

  lemma StepKeepsPairs(s: Thread, step: Step)
    requires Consistent(s) && Honest(s, step)
    ensures forall n :: n in Next(s, step).notes ==> NotePaired(Next(s, step), n)
    ensures forall r :: r in Next(s, step).reactions ==> r.target in Next(s, step).rows
  {
    var t := Next(s, step);
    StepIsLater(s, step);
    forall n | n in t.notes ensures NotePaired(t, n) {
      if n in s.notes { assert NotePaired(s, n); }
    }
  }

  lemma StepKeepsConsistent(s: Thread, step: Step)
    requires Consistent(s) && Honest(s, step)
    ensures Consistent(Next(s, step))
  {
    StepKeepsTree(s, step);
    StepKeepsPairs(s, step);
    StepIsLater(s, step);
    forall p | p in Next(s, step).rows ensures NoncesOk(Next(s, step), p) {
      StepKeepsNonces(s, step, p);
    }
  }

  /** Every state since the post was made: a gap-free tree, one ciphertext a nonce, and every notification with its reaction. */
  lemma {:induction false} RunKeepsConsistent(s: Thread, steps: seq<Step>)
    requires Consistent(s) && HonestRun(s, steps)
    ensures Consistent(Run(s, steps))
    decreases |steps|
  {
    if steps != [] {
      StepKeepsConsistent(s, steps[0]);
      RunKeepsConsistent(Next(s, steps[0]), steps[1..]);
    }
  }

  lemma NewThreadIsConsistent(author: UserId, edition: Edition)
    ensures Consistent(NewThread(author, edition))
  {
    var s := NewThread(author, edition);
    assert s.rows.Keys == {POST};
    assert edition in [edition];
    assert Nonces([edition]) == {edition.nonce};
  }

  // ----- deleted targets -----

  function ReactionsOn(s: Thread, target: Path): set<Reaction> { set r | r in s.reactions && r.target == target }

  predicate Buried(s: Thread, target: Path) { target in s.rows && s.rows[target].Tombstone? }

  /** Whatever is sent, nothing new is put on a tombstone, so once its reactions are swept it has none in any later state. */
  lemma {:induction false} NothingLandsOnATombstone(s: Thread, steps: seq<Step>, target: Path)
    requires Buried(s, target)
    ensures Buried(Run(s, steps), target) && ReactionsOn(Run(s, steps), target) <= ReactionsOn(s, target)
    ensures forall n :: n in Run(s, steps).notes && n.target == target ==> n in s.notes
    decreases |steps|
  {
    if steps != [] {
      var t := Next(s, steps[0]);
      assert Buried(t, target) && ReactionsOn(t, target) <= ReactionsOn(s, target);
      NothingLandsOnATombstone(t, steps[1..], target);
    }
  }

  /** Once the post is deleted its thread is closed, whatever is sent: rows stay or become tombstones, and the rest only goes. */
  lemma {:induction false} ADeletedPostIsClosed(s: Thread, steps: seq<Step>)
    requires Buried(s, POST)
    ensures var t := Run(s, steps);
            && t.rows.Keys == s.rows.Keys && t.editions == s.editions && t.reactions <= s.reactions && t.notes <= s.notes
            && (forall p :: p in s.rows ==> t.rows[p] == s.rows[p] || t.rows[p] == Tombstone(s.rows[p].author))
    decreases |steps|
  {
    if steps != [] {
      var t := Next(s, steps[0]);
      assert Buried(t, POST) && t.rows.Keys == s.rows.Keys && t.editions == s.editions && t.reactions <= s.reactions;
      ADeletedPostIsClosed(t, steps[1..]);
    }
  }

  // ----- who writes, and who hears of it -----

  /** A live row is new, or other than it was, only by its author's own hand, under a live post, and over the edition they saw. */
  lemma OnlyTheAuthorWrites(s: Thread, step: Step, p: Path)
    requires IsLive(Next(s, step), p) && (p in s.rows ==> Next(s, step).rows[p] != s.rows[p])
    ensures IsLive(s, POST) && (step.CreateComment? || step.Edit?) && step.path == p
    ensures var row := Next(s, step).rows[p]; row.author == step.author && row.edition == step.edition
    ensures if p in s.rows then step.Edit? && IsLive(s, p) && s.rows[p].author == step.author && s.rows[p].edition.nonce == step.prior
            else step.CreateComment?
  {
  }

  /** The reaction is taken back, or one of its two rows swept. */
  predicate TakesBack(step: Step, reaction: Reaction, note: Note) {
    || (step.DeleteReaction? && step.reaction == reaction) || step == SweepReaction(reaction) || step == SweepNote(note)
  }

  lemma {:induction false} BothStay(s: Thread, steps: seq<Step>, reaction: Reaction, note: Note)
    requires note.target == reaction.target && note.reactor == reaction.reactor
    requires reaction in s.reactions && note in s.notes && forall step :: step in steps ==> !TakesBack(step, reaction, note)
    ensures reaction in Run(s, steps).reactions && note in Run(s, steps).notes
    decreases |steps|
  {
    if steps != [] {
      assert !TakesBack(steps[0], reaction, note);
      assert reaction in Next(s, steps[0]).reactions && note in Next(s, steps[0]).notes;
      BothStay(Next(s, steps[0]), steps[1..], reaction, note);
    }
  }

  /** Whoever is to hear of a reaction has its notification from its commit on, until it is taken back or swept. */
  lemma HeardUntilTakenBack(s: Thread, step: Step, steps: seq<Step>)
    requires step.PutReaction? && Commits(s, step) && step.notify.Some?
    requires var note := Note(step.notify.value, step.reaction.target, step.reaction.reactor);
             forall later :: later in steps ==> !TakesBack(later, step.reaction, note)
    ensures var t := Run(Next(s, step), steps);
            && step.reaction in t.reactions
            && Note(step.notify.value, step.reaction.target, step.reaction.reactor) in t.notes
  {
    var note := Note(step.notify.value, step.reaction.target, step.reaction.reactor);
    BothStay(Next(s, step), steps, step.reaction, note);
  }

  lemma {:induction false} RunAppend(s: Thread, first: seq<Step>, second: seq<Step>)
    ensures Run(s, first + second) == Run(Run(s, first), second)
    ensures HonestRun(s, first + second) <==> HonestRun(s, first) && HonestRun(Run(s, first), second)
    decreases |first|
  {
    if first == [] {
      assert first + second == second;
    } else {
      assert (first + second)[1..] == first[1..] + second;
      RunAppend(Next(s, first[0]), first[1..], second);
    }
  }

  // ----- sweeps in order -----

  /** The reaction's target was buried, then the notification it may have sent its author was deleted, then the reaction. */
  ghost predicate SweptInOrder(s: Thread, steps: seq<Step>, i: nat)
    requires i < |steps| && steps[i].SweepReaction?
  {
    var r := steps[i].reaction;
    exists k, j :: 0 <= k < j < i && BuriedAt(s, steps, k, r.target)
                   && steps[j] == SweepNote(Note(Run(s, steps[..k]).rows[r.target].author, r.target, r.reactor))
  }

  predicate BuriedAt(s: Thread, steps: seq<Step>, k: nat, target: Path)
    requires k < |steps|
  {
    steps[k] == Bury(target) && target in Run(s, steps[..k]).rows
  }

  /** Honest where it ran; of a sweep's delete of a reaction it is enough that the sweep keeps its order. */
  ghost predicate FairAt(s: Thread, steps: seq<Step>, i: nat)
    requires i < |steps|
  {
    Honest(Run(s, steps[..i]), steps[i]) || (steps[i].SweepReaction? && SweptInOrder(s, steps, i))
  }

  ghost predicate FairRun(s: Thread, steps: seq<Step>) { forall i: nat :: i < |steps| ==> FairAt(s, steps, i) }

  lemma RunThrough(s: Thread, steps: seq<Step>, i: nat, n: nat)
    requires i <= n <= |steps|
    ensures Run(s, steps[..n]) == Run(Run(s, steps[..i]), steps[i..n])
  {
    assert steps[..n] == steps[..i] + steps[i..n];
    RunAppend(s, steps[..i], steps[i..n]);
  }

  lemma RunOneMore(s: Thread, steps: seq<Step>, i: nat)
    requires i < |steps|
    ensures Run(s, steps[..i + 1]) == Next(Run(s, steps[..i]), steps[i])
    ensures HonestRun(s, steps[..i + 1]) <==> HonestRun(s, steps[..i]) && Honest(Run(s, steps[..i]), steps[i])
  {
    assert steps[..i + 1] == steps[..i] + [steps[i]] && [steps[i]][1..] == [];
    RunAppend(s, steps[..i], [steps[i]]);
  }

  /** Once buried, a target keeps its author, and a notification deleted from it stays deleted. */
  lemma NoteStaysSwept(s: Thread, steps: seq<Step>, k: nat, j: nat, i: nat, target: Path, reactor: UserId)
    requires k < j < i <= |steps| && BuriedAt(s, steps, k, target)
    requires steps[j] == SweepNote(Note(Run(s, steps[..k]).rows[target].author, target, reactor))
    ensures var t := Run(s, steps[..i]); var author := Run(s, steps[..k]).rows[target].author;
            Buried(t, target) && t.rows[target].author == author && Note(author, target, reactor) !in t.notes
  {
    var author := Run(s, steps[..k]).rows[target].author;
    RunOneMore(s, steps, k);
    RunThrough(s, steps, k + 1, j);
    NothingLandsOnATombstone(Run(s, steps[..k + 1]), steps[k + 1..j], target);
    RunIsLater(Run(s, steps[..k + 1]), steps[k + 1..j]);
    RunOneMore(s, steps, j);
    RunThrough(s, steps, j + 1, i);
    NothingLandsOnATombstone(Run(s, steps[..j + 1]), steps[j + 1..i], target);
    RunIsLater(Run(s, steps[..j + 1]), steps[j + 1..i]);
  }

  /** So its reaction has no notification left when it goes. */
  lemma OrderedSweepIsHonest(s: Thread, steps: seq<Step>, i: nat)
    requires i < |steps| && steps[i].SweepReaction? && SweptInOrder(s, steps, i) && Consistent(Run(s, steps[..i]))
    ensures Honest(Run(s, steps[..i]), steps[i])
  {
    var r, t := steps[i].reaction, Run(s, steps[..i]);
    var k, j :| 0 <= k < j < i && BuriedAt(s, steps, k, r.target)
                && steps[j] == SweepNote(Note(Run(s, steps[..k]).rows[r.target].author, r.target, r.reactor));
    NoteStaysSwept(s, steps, k, j, i, r.target, r.reactor);
    forall n | n in t.notes ensures Reaction(n.target, n.reactor) != r {
      assert NotePaired(t, n);
    }
  }

  lemma {:induction false} FairPrefixIsHonest(s: Thread, steps: seq<Step>, n: nat)
    requires Consistent(s) && FairRun(s, steps) && n <= |steps|
    ensures HonestRun(s, steps[..n]) && Consistent(Run(s, steps[..n]))
    decreases n
  {
    if n > 0 {
      FairPrefixIsHonest(s, steps, n - 1);
      RunOneMore(s, steps, n - 1);
      assert FairAt(s, steps, n - 1);
      if !Honest(Run(s, steps[..n - 1]), steps[n - 1]) { OrderedSweepIsHonest(s, steps, n - 1); }
      StepKeepsConsistent(Run(s, steps[..n - 1]), steps[n - 1]);
    }
  }

  /**
   * Any number of deletes, each with its sweep, in any interleaving with other
   * honest requests: at every point, so wherever a sweep stops, the tree is
   * whole, nonces are unique, and each reaction's notification has its reaction.
   */
  lemma FairRunKeepsConsistent(s: Thread, steps: seq<Step>)
    requires Consistent(s) && FairRun(s, steps)
    ensures HonestRun(s, steps) && forall n :: 0 <= n <= |steps| ==> Consistent(Run(s, steps[..n]))
  {
    forall n | 0 <= n <= |steps| ensures Consistent(Run(s, steps[..n])) { FairPrefixIsHonest(s, steps, n); }
    FairPrefixIsHonest(s, steps, |steps|);
    assert steps[..|steps|] == steps;
  }

  // ----- an audience read too early -----

  /** Taking a reaction back leaves no notification behind exactly if the audience read is right, or there was none to remove. */
  lemma UndoKeepsPairs(s: Thread, reaction: Reaction, recipient: Option<UserId>)
    requires Consistent(s)
    ensures (forall n :: n in Next(s, DeleteReaction(reaction, recipient)).notes ==>
                           NotePaired(Next(s, DeleteReaction(reaction, recipient)), n))
            <==> (SentTo(s, reaction, recipient) || NotesTo(AuthorOf(s, reaction.target), reaction) !! s.notes)
  {
    var t := Next(s, DeleteReaction(reaction, recipient));
    forall n | n in t.notes && (n.target != reaction.target || n.reactor != reaction.reactor) ensures NotePaired(t, n) {
      assert NotePaired(s, n);
    }
    forall n | n in s.notes && n.target == reaction.target && n.reactor == reaction.reactor
      ensures n in NotesTo(AuthorOf(s, reaction.target), reaction)
    {
      assert NotePaired(s, n);
    }
    if reaction.target in s.rows && !SentTo(s, reaction, recipient) {
      var n := Note(s.rows[reaction.target].author, reaction.target, reaction.reactor);
      assert n in s.notes ==> n in t.notes;
    }
  }

  function AuthorOf(s: Thread, target: Path): Option<UserId> {
    if target in s.rows then Some(s.rows[target].author) else None
  }

  /**
   * Reader 2 takes back a reaction on a comment that is not there yet, so no
   * audience is found; the comment is written, reader 2 reacts, and the late
   * delete removes the reaction alone.
   */
  lemma AnAudienceReadTooEarlyStrandsANotification()
    ensures var s := NewThread(0, Edition(0, 0)); var reaction := Reaction([1], 2);
            var steps := [CreateComment([1], 1, Edition(0, 0), {POST}), PutReaction(reaction, Some(1)), DeleteReaction(reaction, None)];
            && Consistent(s) && HonestRun(s, steps[..2]) && AuthorOf(s, reaction.target).None?
            && Note(1, [1], 2) in Run(s, steps).notes && reaction !in Run(s, steps).reactions
  {
    var s := NewThread(0, Edition(0, 0));
    NewThreadIsConsistent(0, Edition(0, 0));
    var first, second := CreateComment([1], 1, Edition(0, 0), {POST}), PutReaction(Reaction([1], 2), Some(1));
    var third := DeleteReaction(Reaction([1], 2), None);
    FirstCommentIsHonest(first);
    RunOfTwo(s, first, second);
    RunAppend(s, [first, second], [third]);
    assert [first, second] + [third] == [first, second, third] && [third][1..] == [];
    assert [first, second, third][..2] == [first, second];
    assert POST != [1];
  }

  lemma FirstCommentIsHonest(step: Step)
    requires step == CreateComment([1], 1, Edition(0, 0), {POST})
    ensures Honest(NewThread(0, Edition(0, 0)), step)
  {
    forall k: nat | k >= 1 ensures [] + [k] !in {POST} { assert ([] + [k])[0] == k; }
    assert IsNext({POST}, [], 1);
    assert Parent([1]) == [] && NewThread(0, Edition(0, 0)).rows.Keys == {POST};
  }

  lemma RunOfTwo(s: Thread, first: Step, second: Step)
    ensures Run(s, [first, second]) == Next(Next(s, first), second)
    ensures HonestRun(s, [first, second]) <==> Honest(s, first) && Honest(Next(s, first), second)
  {
    var last := [second];
    assert [first, second][1..] == last && last[1..] == [];
    assert Run(Next(s, first), last) == Run(Next(Next(s, first), second), []);
    assert HonestRun(Next(s, first), last) <==> Honest(Next(s, first), second);
  }
}
