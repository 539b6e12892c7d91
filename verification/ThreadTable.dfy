/**
 * One post's items in the table, the transactions over them, and the handlers
 * that read before they write. `others` and env(n) are what other requests
 * commit in between.
 */
module ThreadTables {
  import opened Wrappers
  import opened CommentPaths
  import opened Threads
  import opened ThreadTree

  datatype ThreadError = BadPath | ParentGone | PathSkips | RepliesFull | PathTaken | PostGone | CommentGone | NotAuthor
                       | NonceReused | Conflict | TargetGone | Internal

  /** The place holds this author's comment as sent. */
  predicate Holds(s: Thread, path: Path, author: UserId, edition: Edition) {
    IsLive(s, path) && s.rows[path].author == author && s.rows[path].edition == edition
  }

  /** CreateComment at t: the row as sent is there, new or from a try that landed, or the condition that failed is told. */
  ghost predicate Written(t: Thread, after: Thread, path: Path, author: UserId, edition: Edition, seen: set<Path>,
                          r: Result<(), ThreadError>)
    requires path != []
  {
    var step := CreateComment(path, author, edition, seen);
    && after == Next(t, step) && (r.Ok? <==> Commits(t, step) || Holds(t, path, author, edition))
    && (r.Ok? ==> Holds(after, path, author, edition))
    && (r.Err? ==>
          r.error == if path in t.rows then PathTaken else if !IsLive(t, POST) then PostGone else ParentGone)
  }

  class ThreadTable {
    var rows: map<Path, Row>
    var reactions: set<Reaction>
    var notes: set<Note>
    var editions: map<Path, seq<Edition>> // history

    function Rows(): Thread
      reads this
    {
      Thread(rows, reactions, notes, editions)
    }

    constructor (s: Thread)
      ensures Rows() == s
    {
      rows, reactions, notes, editions := s.rows, s.reactions, s.notes, s.editions;
    }

    method Interleave(others: seq<Step>)
      modifies this
      ensures Rows() == Run(old(Rows()), others)
    {
      var s := Rows();
      for i := 0 to |others|
        invariant Run(s, others[i..]) == Run(old(Rows()), others)
      {
        s := Next(s, others[i]);
      }
      rows, reactions, notes, editions := s.rows, s.reactions, s.notes, s.editions;
    }

    /** CreateComment: a path already holding these bytes is a retry that landed. */
    method CommitComment(path: Path, author: UserId, edition: Edition, ghost seen: set<Path>) returns (r: Result<(), ThreadError>)
      requires path != []
      modifies this
      ensures Written(old(Rows()), Rows(), path, author, edition, seen, r)
    {
      if path in rows {
        var same := rows[path].Live? && rows[path].author == author && rows[path].edition == edition;
        return if same then Ok(()) else Err(PathTaken);
      }
      if POST !in rows || rows[POST].Tombstone? { return Err(PostGone); }
      if |path| > 1 && Parent(path) !in rows { return Err(ParentGone); }
      rows := rows[path := Live(author, edition, {})];
      editions := editions[path := [edition]];
      return Ok(());
    }

    /** EditComment and EditPost. */
    method CommitEdit(path: Path, author: UserId, prior: nat, edition: Edition) returns (r: Result<(), ThreadError>)
      modifies this
      ensures var step := Edit(path, author, prior, edition);
              (r.Ok? <==> Commits(old(Rows()), step)) && Rows() == Next(old(Rows()), step)
      ensures r == Err(CommentGone) <==> !IsLive(old(Rows()), path)
      ensures r.Err? ==> r.error in {CommentGone, Conflict, PostGone}
      ensures r == Err(PostGone) ==> !IsLive(old(Rows()), POST)
      ensures r == Err(Conflict) ==>
                IsLive(old(Rows()), path)
                && var row := old(rows)[path];
                   row.author != author || row.edition.nonce != prior || edition.nonce in row.used || ReusesNonce(row, edition)
    {
      if path !in rows || rows[path].Tombstone? { return Err(CommentGone); }
      var row := rows[path];
      if row.author != author || row.edition.nonce != prior || edition.nonce in row.used
         || (edition.nonce == prior && edition.ciphertext != row.edition.ciphertext) { return Err(Conflict); }
      if POST !in rows || rows[POST].Tombstone? { return Err(PostGone); }
      var used := row.used;
      if edition.nonce != prior { used := used + {prior}; }
      rows := rows[path := Live(row.author, edition, used)];
      editions := editions[path := (if path in editions then editions[path] else []) + [edition]];
      return Ok(());
    }

    method CommitTombstone(path: Path) returns (ok: bool)
      modifies this
      ensures ok <==> Commits(old(Rows()), Bury(path))
      ensures Rows() == Next(old(Rows()), Bury(path))
    {
      ok := path in rows;
      if ok { rows := rows[path := Tombstone(rows[path].author)]; }
    }

    /** One delete of a batch: by key, and no error if nothing is there. */
    method CommitDelete(step: Step)
      requires step.SweepNote? || step.SweepReaction?
      modifies this
      ensures Rows() == Next(old(Rows()), step)
    {
      match step
      case SweepNote(note) => notes := notes - {note};
      case SweepReaction(reaction) => reactions := reactions - {reaction};
    }

    method CommitReaction(reaction: Reaction, notify: Option<UserId>) returns (r: Result<(), ThreadError>)
      modifies this
      ensures var step := Step.PutReaction(reaction, notify);
              (r.Ok? <==> Commits(old(Rows()), step)) && Rows() == Next(old(Rows()), step)
    {
      if POST !in rows || rows[POST].Tombstone? { return Err(PostGone); }
      if reaction.target !in rows || rows[reaction.target].Tombstone? { return Err(TargetGone); }
      reactions := reactions + {reaction};
      if notify.Some? { notes := notes + {Note(notify.value, reaction.target, reaction.reactor)}; }
      return Ok(());
    }

    method CommitUndo(reaction: Reaction, recipient: Option<UserId>)
      modifies this
      ensures Rows() == Next(old(Rows()), Step.DeleteReaction(reaction, recipient))
    {
      reactions := reactions - {reaction};
      if recipient.Some? { notes := notes - {Note(recipient.value, reaction.target, reaction.reactor)}; }
    }
  }

  // ----- handlers -----

  /** What a create is answered about the number it asks for, if it is refused for it. */
  ghost predicate NumberAnswered(places: set<Path>, path: Path, r: Result<(), ThreadError>)
    requires path != []
  {
    && (r == Err(RepliesFull) <==> IsNext(places, Parent(path), SEGMENT_LIMIT))
    && r != Err(Internal)
    && (r == Err(PathSkips) <==> exists n: nat :: IsNext(places, Parent(path), n) && n < SEGMENT_LIMIT && n < Last(path))
  }

  /**
   * createComment called at s, its next free path read at v, its write at t:
   * each refusal exactly when its check fails, in their order, and otherwise
   * the write.
   */
  ghost predicate Created(s: Thread, v: Thread, t: Thread, after: Thread, path: Path, author: UserId, edition: Edition,
                          r: Result<(), ThreadError>)
  {
    if !ValidCommentPath(path) then r == Err(BadPath) && after == s
    else if Holds(s, path, author, edition) then r == Ok(()) && after == s
    else if |path| > 1 && Parent(path) !in s.rows then r == Err(ParentGone) && after == s
    else
      && (TreeOk(v.rows.Keys) ==> NumberAnswered(v.rows.Keys, path, r))
      && if r in {Err(RepliesFull), Err(PathSkips), Err(Internal)} then after == v
         else Written(t, after, path, author, edition, v.rows.Keys, r)
  }

  /**
   * createComment: the parent and the next free path are read first, and the
   * path may not skip. Whatever happens before the write, the step that
   * commits is one the tree's invariant allows.
   */
  method HandleCreate(table: ThreadTable, path: Path, author: UserId, edition: Edition, others: seq<Step>, later: seq<Step>)
    returns (r: Result<(), ThreadError>)
    modifies table
    ensures var s := old(table.Rows()); var v := Run(s, others);
            Created(s, v, Run(v, later), table.Rows(), path, author, edition, r)
    ensures var v := Run(old(table.Rows()), others); var t := Run(v, later);
            TreeOk(old(table.Rows()).rows.Keys) && HonestRun(old(table.Rows()), others) ==>
              TreeOk(v.rows.Keys)
              && (r.Ok? && path !in t.rows ==>
                    Holds(old(table.Rows()), path, author, edition)
                    || Honest(t, CreateComment(path, author, edition, v.rows.Keys)))
    ensures r == Err(BadPath) <==> !(1 <= |path| <= 8 && forall i :: 0 <= i < |path| ==> 1 <= path[i] <= 9999)
    ensures r.Ok? ==> path in table.rows && table.rows[path].Live? && table.rows[path].author == author
                      && table.rows[path].edition == edition
    ensures r != Err(BadPath) && Holds(old(table.Rows()), path, author, edition) ==> r == Ok(())
  {
    ghost var s := table.Rows();
    ghost var v := Run(s, others);
    ghost var t := Run(v, later);
    if TreeOk(s.rows.Keys) && HonestRun(s, others) { RunKeepsTree(s, others); }
    if !ValidCommentPath(path) { return Err(BadPath); }
    if Holds(table.Rows(), path, author, edition) { return Ok(()); }
    if |path| > 1 && Parent(path) !in table.rows { return Err(ParentGone); }
    table.Interleave(others);
    var next := NextCommentPath(CommentKeys(table.rows.Keys), Parent(path));
    if TreeOk(v.rows.Keys) { NextIsAnswered(v.rows.Keys, path, next); }
    if next.Err? { return Err(if next.error == SiblingsFull then RepliesFull else Internal); }
    if Last(path) > (if next.value == [] then 0 else Last(next.value)) { return Err(PathSkips); }
    RunIsLater(v, later);
    if TreeOk(v.rows.Keys) { SeenAllows(v, t, path, author, edition, next.value); }
    table.Interleave(later);
    r := table.CommitComment(path, author, edition, v.rows.Keys);
  }

  lemma NextIsAnswered(places: set<Path>, path: Path, next: Result<Path, NextError>)
    requires TreeOk(places) && ValidCommentPath(path) && NextFound(places, Parent(path), next)
    ensures ParentPath(Parent(path))
    ensures NumberAnswered(places, path,
                           if next.Err? then Err(RepliesFull) else if Last(path) > Last(next.value) then Err(PathSkips) else Ok(()))
  {
    var parent := Parent(path);
    var n := if next.Err? then SEGMENT_LIMIT else Last(next.value);
    forall m: nat | IsNext(places, parent, m) ensures m == n { NextIsUnique(places, parent, m, n); }
  }

  lemma NextIsUnique(places: set<Path>, parent: Path, m: nat, n: nat)
    requires IsNext(places, parent, m) && IsNext(places, parent, n)
    ensures m == n
  {
    assert parent + [m] in places <==> m < n;
    assert parent + [n] in places <==> n < m;
  }

  lemma {:induction false} RunKeepsTree(s: Thread, steps: seq<Step>)
    requires TreeOk(s.rows.Keys) && HonestRun(s, steps)
    ensures TreeOk(Run(s, steps).rows.Keys)
    decreases |steps|
  {
    if steps != [] {
      StepKeepsTree(s, steps[0]);
      RunKeepsTree(Next(s, steps[0]), steps[1..]);
    }
  }

  lemma SeenAllows(v: Thread, t: Thread, path: Path, author: UserId, edition: Edition, next: Path)
    requires TreeOk(v.rows.Keys) && Later(v, t) && ValidCommentPath(path)
    requires TreeOk(v.rows.Keys) && ParentPath(Parent(path)) ==> NextFound(v.rows.Keys, Parent(path), Ok(next))
    requires Last(path) <= if next == [] then 0 else Last(next)
    ensures Honest(t, CreateComment(path, author, edition, v.rows.Keys))
  {
    assert ParentPath(Parent(path));
    assert IsNext(v.rows.Keys, Parent(path), Last(next));
  }

  /** reusesNonce */
  predicate ReusesNonce(row: Row, edition: Edition)
    requires row.Live?
  {
    if edition.nonce == row.edition.nonce then edition.ciphertext != row.edition.ciphertext else edition.nonce in row.used
  }

  /** A nonce is refused exactly if some edition of the comment ever had it, unless this is the edition there. */
  lemma ReuseByHistory(s: Thread, path: Path, edition: Edition)
    requires NoncesOk(s, path) && s.rows[path].Live?
    ensures ReusesNonce(s.rows[path], edition) <==>
              edition != s.rows[path].edition && exists e :: e in s.editions[path] && e.nonce == edition.nonce
  {
    var history, row := s.editions[path], s.rows[path];
    assert row.edition in history;
    if edition.nonce in row.used { assert edition.nonce in Nonces(history); }
    if edition.nonce in Nonces(history) && edition.nonce != row.edition.nonce { assert edition.nonce in row.used; }
  }

  /** editComment called at s, its write at t: each refusal exactly when its check fails, in their order, and otherwise the write. */
  ghost predicate EditAnswered(s: Thread, t: Thread, after: Thread, path: Path, author: UserId, edition: Edition,
                               r: Result<(), ThreadError>)
  {
    if !IsLive(s, path) then r == Err(CommentGone) && after == s
    else if s.rows[path].author != author then r == Err(NotAuthor) && after == s
    else if s.rows[path].edition == edition then r == Ok(()) && after == s
    else if r == Err(NonceReused) then after == s
    else
      var step := Edit(path, author, s.rows[path].edition.nonce, edition);
      && (r.Ok? <==> Commits(t, step)) && after == Next(t, step)
      && (r.Err? ==> r.error in {CommentGone, Conflict, PostGone})
      && (r == Err(CommentGone) <==> !IsLive(t, path)) && (r == Err(PostGone) ==> !IsLive(t, POST))
  }

  /** editComment and editPost: checked against the row as read, then against the row as it is. */
  method HandleEdit(table: ThreadTable, path: Path, author: UserId, edition: Edition, others: seq<Step>)
    returns (r: Result<(), ThreadError>)
    modifies table
    ensures EditAnswered(old(table.Rows()), Run(old(table.Rows()), others), table.Rows(), path, author, edition, r)
    ensures IsLive(old(table.Rows()), path) && NoncesOk(old(table.Rows()), path) && old(table.rows)[path].author == author ==>
              (r == Err(NonceReused) <==>
                 edition != old(table.rows)[path].edition
                 && exists e :: e in old(table.editions)[path] && e.nonce == edition.nonce)
    ensures r.Ok? ==> path in table.rows && table.rows[path].Live? && table.rows[path].author == author
                      && table.rows[path].edition == edition
  {
    if IsLive(table.Rows(), path) && NoncesOk(table.Rows(), path) { ReuseByHistory(table.Rows(), path, edition); }
    if path !in table.rows || table.rows[path].Tombstone? { return Err(CommentGone); }
    var have := table.rows[path];
    if have.author != author { return Err(NotAuthor); }
    if have.edition == edition { return Ok(()); }
    if ReusesNonce(have, edition) { return Err(NonceReused); }
    table.Interleave(others);
    r := table.CommitEdit(path, author, have.edition.nonce, edition);
  }

  /** putReaction: the audience is the target's author as read, if they hear of it: another user, and still a member. */
  method HandleReaction(table: ThreadTable, reaction: Reaction, hears: bool, others: seq<Step>)
    returns (r: Result<(), ThreadError>, ghost notify: Option<UserId>)
    modifies table
    ensures notify == if hears then AuthorOf(old(table.Rows()), reaction.target) else None
    ensures var t := Run(old(table.Rows()), others); var step := Step.PutReaction(reaction, notify);
            table.Rows() == Next(t, step) && (r.Ok? <==> Commits(t, step)) && Honest(t, step)
  {
    var audience := None;
    if hears && reaction.target in table.rows { audience := Some(table.rows[reaction.target].author); }
    notify := audience;
    RunIsLater(table.Rows(), others);
    table.Interleave(others);
    r := table.CommitReaction(reaction, audience);
  }

  /** deleteReaction: right exactly when the audience read is. */
  method HandleUndo(table: ThreadTable, reaction: Reaction, others: seq<Step>)
    modifies table
    ensures var t := Run(old(table.Rows()), others);
            var step := Step.DeleteReaction(reaction, AuthorOf(old(table.Rows()), reaction.target));
            table.Rows() == Next(t, step) && (reaction.target in old(table.rows) ==> Honest(t, step))
  {
    var audience := None;
    if reaction.target in table.rows { audience := Some(table.rows[reaction.target].author); }
    RunIsLater(table.Rows(), others);
    table.Interleave(others);
    table.CommitUndo(reaction, audience);
  }

  // ----- deleting -----

  type Others = nat -> seq<Step>

  predicate InPage(u: UserId, from: UserId, to: Option<UserId>) { from <= u && (to.None? || u < to.value) }

  /** One of the delete's own steps: the tombstone, a notification to the author, or a reaction whose notification went before. */
  predicate OwnStep(steps: seq<Step>, i: nat, target: Path, author: UserId)
    requires i < |steps|
  {
    match steps[i]
    case Bury(p) => p == target
    case SweepNote(n) => n.target == target && n.recipient == author
    case SweepReaction(r) => r.target == target && NoteSwept(steps[..i], target, author, r.reactor)
    case _ => false
  }

  predicate NoteSwept(steps: seq<Step>, target: Path, author: UserId, u: UserId) {
    exists j :: 1 <= j < |steps| && steps[j] == SweepNote(Note(author, target, u))
  }

  /** What has committed since s: the tombstone first, and then the delete's own steps, at `own`, among env's. */
  ghost predicate Deleting(s: Thread, steps: seq<Step>, own: set<nat>, target: Path, author: UserId, env: Others) {
    && |steps| > 0 && 0 in own && steps[0] == Bury(target) && target in s.rows && s.rows[target].author == author
    && (forall i :: i in own ==> i < |steps| && OwnStep(steps, i, target, author))
    && (forall i: nat :: i < |steps| && i !in own ==> FromEnv(env, steps[i]))
  }

  ghost predicate FromEnv(env: Others, step: Step) { exists n: nat :: step in env(n) }

  ghost predicate Sweeping(s: Thread, t: Thread, steps: seq<Step>, own: set<nat>, target: Path, author: UserId, env: Others) {
    Deleting(s, steps, own, target, author, env) && t == Run(s, steps) && Buried(t, target)
  }

  lemma OthersCommit(s: Thread, t: Thread, steps: seq<Step>, own: set<nat>, target: Path, author: UserId, env: Others, n: nat)
    requires Sweeping(s, t, steps, own, target, author, env)
    ensures Sweeping(s, Run(t, env(n)), steps + env(n), own, target, author, env)
    ensures ReactionsOn(Run(t, env(n)), target) <= ReactionsOn(t, target)
  {
    RunAppend(s, steps, env(n));
    NothingLandsOnATombstone(t, env(n), target);
    var more := steps + env(n);
    forall i | i in own ensures i < |more| && OwnStep(more, i, target, author) {
      assert OwnStep(steps, i, target, author) && more[..i] == steps[..i];
    }
    forall i: nat | i < |more| && i !in own ensures FromEnv(env, more[i]) {
      if i >= |steps| { assert more[i] in env(n); }
    }
  }

  lemma OwnCommits(s: Thread, t: Thread, steps: seq<Step>, own: set<nat>, target: Path, author: UserId, env: Others, step: Step)
    requires Sweeping(s, t, steps, own, target, author, env) && OwnStep(steps + [step], |steps|, target, author)
    ensures Sweeping(s, Next(t, step), steps + [step], own + {|steps|}, target, author, env)
    ensures ReactionsOn(Next(t, step), target) <= ReactionsOn(t, target)
  {
    RunAppend(s, steps, [step]);
    SingleStep(t, step);
    NothingLandsOnATombstone(t, [step], target);
    var more := steps + [step];
    forall i | i in own + {|steps|} ensures i < |more| && OwnStep(more, i, target, author) {
      if i in own { assert OwnStep(steps, i, target, author) && more[..i] == steps[..i]; }
    }
  }

  lemma NoteStaysListed(steps: seq<Step>, more: seq<Step>, target: Path, author: UserId, u: UserId)
    requires NoteSwept(steps, target, author, u) && steps <= more
    ensures NoteSwept(more, target, author, u)
  {
    var j :| 1 <= j < |steps| && steps[j] == SweepNote(Note(author, target, u));
    assert more[j] == steps[j];
  }

  /** The notifications of one page of reactions, one delete at a time. */
  method SweepNotes(table: ThreadTable, target: Path, author: UserId, page: set<UserId>, env: Others, start: nat,
                    ghost s: Thread, ghost before: seq<Step>, ghost wasOwn: set<nat>)
    returns (next: nat, ghost steps: seq<Step>, ghost own: set<nat>)
    requires Sweeping(s, table.Rows(), before, wasOwn, target, author, env)
    modifies table
    ensures Sweeping(s, table.Rows(), steps, own, target, author, env) && before <= steps
    ensures ReactionsOn(table.Rows(), target) <= ReactionsOn(old(table.Rows()), target)
    ensures forall u :: u in page ==> NoteSwept(steps, target, author, u)
  {
    next, steps, own := start, before, wasOwn;
    var left := page;
    while left != {}
      invariant left <= page && before <= steps && Sweeping(s, table.Rows(), steps, own, target, author, env)
      invariant ReactionsOn(table.Rows(), target) <= ReactionsOn(old(table.Rows()), target)
      invariant forall u :: u in page - left ==> NoteSwept(steps, target, author, u)
      decreases left
    {
      var u :| u in left;
      left := left - {u};
      var others := env(next);
      ghost var t, earlier := table.Rows(), steps;
      table.Interleave(others);
      OthersCommit(s, t, steps, own, target, author, env, next);
      next, steps := next + 1, steps + others;
      var delete := SweepNote(Note(author, target, u));
      ghost var v := table.Rows();
      table.CommitDelete(delete);
      OwnCommits(s, v, steps, own, target, author, env, delete);
      own, steps := own + {|steps|}, steps + [delete];
      assert steps[|steps| - 1] == delete;
      forall w | w in page - left ensures NoteSwept(steps, target, author, w) {
        if w != u { NoteStaysListed(earlier, steps, target, author, w); }
      }
    }
  }

  /** Then the reactions themselves. */
  method SweepPage(table: ThreadTable, target: Path, author: UserId, page: set<UserId>, env: Others, start: nat,
                   ghost s: Thread, ghost before: seq<Step>, ghost wasOwn: set<nat>)
    returns (next: nat, ghost steps: seq<Step>, ghost own: set<nat>)
    requires Sweeping(s, table.Rows(), before, wasOwn, target, author, env)
    requires forall u :: u in page ==> NoteSwept(before, target, author, u)
    modifies table
    ensures Sweeping(s, table.Rows(), steps, own, target, author, env) && before <= steps
    ensures ReactionsOn(table.Rows(), target) <= ReactionsOn(old(table.Rows()), target)
    ensures forall u :: u in page ==> Reaction(target, u) !in table.reactions
  {
    next, steps, own := start, before, wasOwn;
    var left := page;
    while left != {}
      invariant left <= page && before <= steps && Sweeping(s, table.Rows(), steps, own, target, author, env)
      invariant ReactionsOn(table.Rows(), target) <= ReactionsOn(old(table.Rows()), target)
      invariant forall u :: u in page - left ==> Reaction(target, u) !in ReactionsOn(table.Rows(), target)
      decreases left
    {
      var u :| u in left;
      left := left - {u};
      var others := env(next);
      ghost var t := table.Rows();
      table.Interleave(others);
      OthersCommit(s, t, steps, own, target, author, env, next);
      next, steps := next + 1, steps + others;
      var delete := SweepReaction(Reaction(target, u));
      ghost var v := table.Rows();
      table.CommitDelete(delete);
      NoteStaysListed(before, steps, target, author, u);
      assert (steps + [delete])[..|steps|] == steps;
      OwnCommits(s, v, steps, own, target, author, env, delete);
      own, steps := own + {|steps|}, steps + [delete];
    }
    forall u | u in page ensures Reaction(target, u) !in table.reactions {
      assert Reaction(target, u) !in ReactionsOn(table.Rows(), target);
    }
  }

  /**
   * DeleteComment and DeletePost: the tombstone, then the sweep, page by page
   * (ending where `cuts` says), each page's notifications before its reactions.
   * Done, nothing is left on the target, and nothing ever will be. Whatever the
   * others send, its own steps come in that order; so if the others' are fair
   * where they run, stopped anywhere, every notification still has its reaction.
   */
  method DeleteRow(table: ThreadTable, target: Path, cuts: seq<UserId>, env: Others)
    returns (r: Result<(), ThreadError>, ghost steps: seq<Step>, ghost own: set<nat>)
    requires Consistent(table.Rows())
    modifies table
    ensures table.Rows() == Run(old(table.Rows()), steps)
    ensures r.Err? <==> target !in old(table.rows)
    ensures r.Err? ==> steps == [] && own == {}
    ensures r.Ok? ==> Deleting(old(table.Rows()), steps, own, target, old(table.rows)[target].author, env)
    ensures r.Ok? ==> Buried(table.Rows(), target) && ReactionsOn(table.Rows(), target) == {}
    ensures (forall i: nat :: i < |steps| && i !in own ==> FairAt(old(table.Rows()), steps, i)) ==>
              && FairRun(old(table.Rows()), steps)
              && (forall i :: 0 <= i <= |steps| ==> Consistent(Run(old(table.Rows()), steps[..i])))
              && (r.Ok? ==> forall n :: n in table.notes ==> n.target != target)
  {
    ghost var s := table.Rows();
    steps, own := [], {};
    if target !in table.rows {
      return Err(CommentGone), steps, own;
    }
    var author := table.rows[target].author;
    var done := table.CommitTombstone(target);
    steps, own := [Bury(target)], {0};
    SingleStep(s, Bury(target));
    var next, after := 0, 0;
    for i := 0 to |cuts| + 1
      invariant Sweeping(s, table.Rows(), steps, own, target, author, env)
      invariant forall u :: Reaction(target, u) in table.reactions ==> i <= |cuts| && after <= u
    {
      var others := env(next);
      ghost var t := table.Rows();
      table.Interleave(others);
      OthersCommit(s, t, steps, own, target, author, env, next);
      StillThere(t, table.Rows(), target);
      steps := steps + others;
      var to := if i < |cuts| then Some(cuts[i]) else None;
      var page := set x | x in table.reactions && x.target == target && InPage(x.reactor, after, to) :: x.reactor;
      ghost var v := table.Rows();
      var n;
      n, steps, own := SweepNotes(table, target, author, page, env, next + 1, s, steps, own);
      StillThere(v, table.Rows(), target);
      ghost var w := table.Rows();
      next, steps, own := SweepPage(table, target, author, page, env, n, s, steps, own);
      StillThere(w, table.Rows(), target);
      if i < |cuts| { after := if cuts[i] > after then cuts[i] else after; }
    }
    assert ReactionsOn(table.Rows(), target) == {} by {
      assert forall x :: x in ReactionsOn(table.Rows(), target) ==> x == Reaction(target, x.reactor);
    }
    if forall i: nat :: i < |steps| && i !in own ==> FairAt(s, steps, i) {
      DeleteIsFair(s, table.Rows(), steps, own, target, author, env);
    }
    return Ok(()), steps, own;
  }

  /** Its own steps are fair whatever the others do. */
  lemma OwnStepIsFair(s: Thread, steps: seq<Step>, own: set<nat>, target: Path, author: UserId, env: Others, i: nat)
    requires Deleting(s, steps, own, target, author, env) && i in own
    ensures i < |steps| && FairAt(s, steps, i)
  {
    assert OwnStep(steps, i, target, author);
    if steps[i].SweepReaction? {
      var u := steps[i].reaction.reactor;
      var j :| 1 <= j < |steps[..i]| && steps[..i][j] == SweepNote(Note(author, target, u));
      assert steps[j] == SweepNote(Note(author, target, u)) && steps[..0] == [];
      assert Run(s, steps[..0]) == s && BuriedAt(s, steps, 0, target);
    }
  }

  lemma DeleteIsFair(s: Thread, t: Thread, steps: seq<Step>, own: set<nat>, target: Path, author: UserId, env: Others)
    requires Consistent(s) && Sweeping(s, t, steps, own, target, author, env) && ReactionsOn(t, target) == {}
    requires forall i: nat :: i < |steps| && i !in own ==> FairAt(s, steps, i)
    ensures FairRun(s, steps) && forall i :: 0 <= i <= |steps| ==> Consistent(Run(s, steps[..i]))
    ensures forall n :: n in t.notes ==> n.target != target
  {
    forall i: nat | i < |steps| ensures FairAt(s, steps, i) {
      if i in own { OwnStepIsFair(s, steps, own, target, author, env, i); }
    }
    FairRunKeepsConsistent(s, steps);
    assert steps[..|steps|] == steps;
    forall n | n in t.notes ensures n.target != target {
      assert NotePaired(t, n);
      assert Reaction(n.target, n.reactor) !in ReactionsOn(t, target);
    }
  }

  lemma StillThere(t: Thread, v: Thread, target: Path)
    requires ReactionsOn(v, target) <= ReactionsOn(t, target)
    ensures forall u :: Reaction(target, u) in v.reactions ==> Reaction(target, u) in t.reactions
  {
    forall u | Reaction(target, u) in v.reactions ensures Reaction(target, u) in t.reactions {
      assert Reaction(target, u) in ReactionsOn(v, target);
    }
  }

  lemma SingleStep(s: Thread, step: Step)
    ensures Run(s, [step]) == Next(s, step) && (HonestRun(s, [step]) <==> Honest(s, step))
  {
    assert [step][1..] == [];
  }
}
