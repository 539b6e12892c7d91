/**
 * The comment tree read through its keys: the one-item descending query that
 * finds the next free path under a parent.
 */
module ThreadTree {
  import opened Wrappers
  import opened SortKeys
  import opened CommentPaths
  import opened Threads

  const COMMENT_PREFIX := "CMT#"

  function CommentKey(p: Path): string { COMMENT_PREFIX + PathString(p) }

  function CommentKeys(places: set<Path>): set<string> { set p | p in places && p != POST :: CommentKey(p) }

  // ----- the tree has no holes -----

  lemma {:induction false} AncestorsArePlaced(places: set<Path>, p: Path, n: nat)
    requires TreeOk(places) && p in places && p != POST && 1 <= n <= |p|
    ensures p[..n] in places && p[..n] != POST
    decreases |p|
  {
    assert PlaceOk(places, p);
    if n == |p| {
      assert p[..n] == p;
    } else {
      assert Parent(p)[..n] == p[..n];
      assert Parent(p)[0] == p[0];
      AncestorsArePlaced(places, Parent(p), n);
    }
  }

  lemma {:induction false} EldersArePlaced(places: set<Path>, parent: Path, m: nat, k: nat)
    requires TreeOk(places) && parent + [m] in places && parent + [m] != POST && 1 <= k <= m
    ensures parent + [k] in places
    decreases m
  {
    if k < m {
      var p := parent + [m];
      assert PlaceOk(places, p);
      assert Parent(p) == parent && Last(p) == m;
      assert (parent + [m - 1])[|parent|] == m - 1;
      assert parent + [m - 1] != POST;
      EldersArePlaced(places, parent, m - 1, k);
    }
  }

  // ----- the last key under a parent -----

  predicate IsLastUnder(keys: set<string>, prefix: string, k: string) {
    k in keys && prefix <= k && forall j :: j in keys && prefix <= j ==> AtOrBefore(j, k)
  }

  lemma {:induction false} SomeKeyIsLastUnder(keys: set<string>, prefix: string)
    requires exists k :: k in keys && prefix <= k
    ensures exists k :: IsLastUnder(keys, prefix, k)
  {
    var j :| j in keys && prefix <= j;
    var rest := keys - {j};
    if exists k :: k in rest && prefix <= k {
      SomeKeyIsLastUnder(rest, prefix);
      var k :| IsLastUnder(rest, prefix, k);
      BeforeIsTotal(j, k);
      if Before(j, k) {
        assert IsLastUnder(keys, prefix, k);
      } else {
        forall i | i in keys && prefix <= i ensures AtOrBefore(i, j) {
          if i != j {
            assert i in rest;
            if i != k { BeforeIsTransitive(i, k, j); }
          }
        }
        assert IsLastUnder(keys, prefix, j);
      }
    } else {
      forall i | i in keys && prefix <= i ensures AtOrBefore(i, j) { assert i == j || i in rest; }
      assert IsLastUnder(keys, prefix, j);
    }
  }

  predicate ParentPath(parent: Path) { parent == [] || ValidCommentPath(parent) }

  lemma UnderMeansBelow(parent: Path, p: Path)
    requires ParentPath(parent) && ValidCommentPath(p)
    ensures COMMENT_PREFIX + ChildPrefix(parent) <= CommentKey(p) <==> Below(parent, p)
  {
    PrefixSelectsDescendants(parent, p);
    PrefixAfterHead(COMMENT_PREFIX, COMMENT_PREFIX, ChildPrefix(parent), PathString(p));
  }

  /** The four digits after the prefix are the child's number. */
  lemma DigitsAfterPrefix(parent: Path, p: Path, head: string, key: string)
    requires Below(parent, p) && ValidCommentPath(p)
    requires head == COMMENT_PREFIX + ChildPrefix(parent) && key == CommentKey(p)
    ensures |head| + 4 <= |key| && ParseNat(key[|head|..|head| + 4]) == Some(p[|parent|])
  {
    var rest := p[|parent|..];
    PathStringSplits(parent, p);
    Regroup(COMMENT_PREFIX, ChildPrefix(parent), PathString(rest));
    DigitsAt(head, rest);
  }

  lemma Regroup(a: string, b: string, c: string)
    ensures a + (b + c) == (a + b) + c
  {
  }

  lemma DigitsAt(head: string, rest: Path)
    requires rest != [] && rest[0] < SEGMENT_LIMIT
    ensures var key := head + PathString(rest);
            |head| + 4 <= |key| && ParseNat(key[|head|..|head| + 4]) == Some(rest[0])
  {
    StartsWithSegment(rest);
    SegmentParses(rest[0]);
    assert (head + PathString(rest))[|head|..|head| + 4] == PathString(rest)[..4];
  }

  lemma SegmentParses(n: nat)
    requires n < SEGMENT_LIMIT
    ensures |Segment(n)| == 4 && ParseNat(Segment(n)) == Some(n)
  {
    FourDigits();
    ParseDigits(n, 4);
  }

  lemma StartsWithSegment(p: Path)
    requires p != []
    ensures |PathString(p)| >= 4 && PathString(p)[..4] == Segment(p[0])
  {
    if |p| > 1 { PathStringUnfolds(p); }
  }

  /** The greatest key under a parent is the last child's or a descendant's of it. */
  lemma LastKeyNamesTheLastChild(places: set<Path>, parent: Path, p: Path)
    requires TreeOk(places) && ParentPath(parent) && p in places && p != POST
    requires IsLastUnder(CommentKeys(places), COMMENT_PREFIX + ChildPrefix(parent), CommentKey(p))
    ensures Below(parent, p) && IsNext(places, parent, p[|parent|] + 1)
  {
    BranchIsPlaced(places, parent, p);
    EveryChildUpToIt(places, parent, p);
  }

  /** The child of parent that p is, or is under. */
  lemma BranchIsPlaced(places: set<Path>, parent: Path, p: Path)
    requires TreeOk(places) && ParentPath(parent) && p in places && p != POST
    requires COMMENT_PREFIX + ChildPrefix(parent) <= CommentKey(p)
    ensures ValidCommentPath(p) && Below(parent, p)
    ensures parent + [p[|parent|]] in places && parent + [p[|parent|]] != POST
  {
    assert PlaceOk(places, p);
    UnderMeansBelow(parent, p);
    AncestorsArePlaced(places, p, |parent| + 1);
    assert p[..|parent| + 1] == parent + [p[|parent|]];
  }

  lemma EveryChildUpToIt(places: set<Path>, parent: Path, p: Path)
    requires TreeOk(places) && ParentPath(parent) && ValidCommentPath(p) && Below(parent, p)
    requires parent + [p[|parent|]] in places && parent + [p[|parent|]] != POST
    requires IsLastUnder(CommentKeys(places), COMMENT_PREFIX + ChildPrefix(parent), CommentKey(p))
    ensures IsNext(places, parent, p[|parent|] + 1)
  {
    forall k: nat | k >= 1 ensures parent + [k] in places <==> k < p[|parent|] + 1 {
      SiblingIsPlaced(places, parent, p, k);
    }
  }

  lemma SiblingIsPlaced(places: set<Path>, parent: Path, p: Path, k: nat)
    requires TreeOk(places) && ParentPath(parent) && ValidCommentPath(p) && Below(parent, p) && k >= 1
    requires parent + [p[|parent|]] in places && parent + [p[|parent|]] != POST
    requires IsLastUnder(CommentKeys(places), COMMENT_PREFIX + ChildPrefix(parent), CommentKey(p))
    ensures parent + [k] in places <==> k <= p[|parent|]
  {
    if k <= p[|parent|] {
      EldersArePlaced(places, parent, p[|parent|], k);
    } else if parent + [k] in places {
      LaterSiblingSortsAfter(places, parent, p, k);
    }
  }

  lemma LaterSiblingSortsAfter(places: set<Path>, parent: Path, p: Path, k: nat)
    requires TreeOk(places) && ParentPath(parent) && ValidCommentPath(p) && Below(parent, p)
    requires p[|parent|] < k && parent + [k] in places
    ensures !IsLastUnder(CommentKeys(places), COMMENT_PREFIX + ChildPrefix(parent), CommentKey(p))
  {
    var q := parent + [k];
    assert q[|parent|] == k && q != POST;
    assert PlaceOk(places, q);
    assert q[..|parent|] == parent;
    UnderMeansBelow(parent, q);
    assert CommentKey(q) in CommentKeys(places);
    assert DivergesAt(p, q, |parent|);
    KeyOrderIsReadingOrder(p, q, "", "");
    assert PathString(p) + "" == PathString(p) && PathString(q) + "" == PathString(q);
    BeforeAfterHead(COMMENT_PREFIX, PathString(p), PathString(q));
    BeforeIsTotal(CommentKey(p), CommentKey(q));
  }

  datatype NextError = SiblingsFull | UnexpectedKey

  /** What the query's answer must be on a well-formed tree. */
  ghost predicate NextFound(places: set<Path>, parent: Path, r: Result<Path, NextError>) {
    match r
    case Ok(path) => path != [] && Parent(path) == parent && Last(path) < SEGMENT_LIMIT && IsNext(places, parent, Last(path))
    case Err(e) => e == SiblingsFull && IsNext(places, parent, SEGMENT_LIMIT)
  }

  lemma NothingUnder(places: set<Path>, parent: Path)
    requires TreeOk(places) && ParentPath(parent)
    requires forall k :: k in CommentKeys(places) ==> !(COMMENT_PREFIX + ChildPrefix(parent) <= k)
    ensures IsNext(places, parent, 1)
  {
    forall k: nat | k >= 1 ensures parent + [k] !in places {
      var q := parent + [k];
      assert q[|parent|] == k && q != POST && q[..|parent|] == parent;
      assert q in places ==> PlaceOk(places, q) && CommentKey(q) in CommentKeys(places);
      if ValidCommentPath(q) { UnderMeansBelow(parent, q); }
    }
  }

  lemma FoundByLastKey(places: set<Path>, parent: Path, prefix: string, last: string, n: Option<nat>)
    requires TreeOk(places) && ParentPath(parent) && prefix == COMMENT_PREFIX + ChildPrefix(parent)
    requires IsLastUnder(CommentKeys(places), prefix, last)
    requires n == if |prefix| + 4 <= |last| then ParseNat(last[|prefix|..|prefix| + 4]) else None
    ensures n.Some? && n.value < SEGMENT_LIMIT && IsNext(places, parent, n.value + 1)
  {
    var p :| p in places && p != POST && CommentKey(p) == last;
    assert PlaceOk(places, p);
    LastKeyNamesTheLastChild(places, parent, p);
    DigitsAfterPrefix(parent, p, prefix, last);
  }

  /** Whatever tree the keys stand for, its next number under parent is n. */
  ghost predicate NextNumber(keys: set<string>, parent: Path, n: nat) {
    forall places: set<Path> :: TreeOk(places) && ParentPath(parent) && keys == CommentKeys(places) ==> IsNext(places, parent, n)
  }

  ghost predicate StandForATree(keys: set<string>, parent: Path) {
    exists places: set<Path> :: TreeOk(places) && ParentPath(parent) && keys == CommentKeys(places)
  }

  lemma LastKeyAnswers(keys: set<string>, parent: Path, last: string, n: Option<nat>)
    requires IsLastUnder(keys, COMMENT_PREFIX + ChildPrefix(parent), last) && n == NumberAfter(COMMENT_PREFIX + ChildPrefix(parent), last)
    ensures StandForATree(keys, parent) ==> n.Some? && n.value < SEGMENT_LIMIT
    ensures n.Some? ==> NextNumber(keys, parent, n.value + 1)
  {
    forall places: set<Path> | TreeOk(places) && ParentPath(parent) && keys == CommentKeys(places)
      ensures n.Some? && n.value < SEGMENT_LIMIT && IsNext(places, parent, n.value + 1)
    {
      FoundByLastKey(places, parent, COMMENT_PREFIX + ChildPrefix(parent), last, n);
    }
  }

  lemma NoKeyAnswers(keys: set<string>, parent: Path)
    requires forall k :: k in keys ==> !(COMMENT_PREFIX + ChildPrefix(parent) <= k)
    ensures NextNumber(keys, parent, 1)
  {
    forall places: set<Path> | TreeOk(places) && ParentPath(parent) && keys == CommentKeys(places)
      ensures IsNext(places, parent, 1)
    {
      NothingUnder(places, parent);
    }
  }

  /** The four digits after the prefix. */
  function NumberAfter(prefix: string, key: string): Option<nat> {
    if |prefix| + 4 <= |key| then ParseNat(key[|prefix|..|prefix| + 4]) else None
  }

  /** The one-item descending query. */
  method QueryLast(keys: set<string>, prefix: string) returns (last: Option<string>)
    ensures last.Some? ==> IsLastUnder(keys, prefix, last.value)
    ensures last.None? ==> forall k :: k in keys ==> !(prefix <= k)
  {
    if exists k :: k in keys && prefix <= k {
      SomeKeyIsLastUnder(keys, prefix);
      var k :| k in keys && IsLastUnder(keys, prefix, k);
      last := Some(k);
    } else {
      last := None;
    }
  }

  lemma NumberIsFound(keys: set<string>, parent: Path, n: nat)
    requires n >= 1 && NextNumber(keys, parent, n)
    requires StandForATree(keys, parent) ==> n <= SEGMENT_LIMIT
    ensures forall places: set<Path> :: TreeOk(places) && ParentPath(parent) && keys == CommentKeys(places) ==>
              NextFound(places, parent, if n >= SEGMENT_LIMIT then Err(SiblingsFull) else Ok(parent + [n]))
  {
    assert Parent(parent + [n]) == parent && Last(parent + [n]) == n;
  }

  /** NextCommentPath. */
  method NextCommentPath(keys: set<string>, parent: Path) returns (r: Result<Path, NextError>)
    ensures forall places: set<Path> :: TreeOk(places) && ParentPath(parent) && keys == CommentKeys(places) ==>
              NextFound(places, parent, r)
  {
    var prefix := COMMENT_PREFIX + ChildPrefix(parent);
    var last := QueryLast(keys, prefix);
    var next := 1;
    if last.Some? {
      var n := NumberAfter(prefix, last.value);
      LastKeyAnswers(keys, parent, last.value, n);
      if n.None? { return Err(UnexpectedKey); }
      next := n.value + 1;
    } else {
      NoKeyAnswers(keys, parent);
    }
    NumberIsFound(keys, parent, next);
    return if next >= SEGMENT_LIMIT then Err(SiblingsFull) else Ok(parent + [next]);
  }
}
