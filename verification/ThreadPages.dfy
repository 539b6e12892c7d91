/**
 * Reading a thread page by page: following the cursors over a fixed thread
 * returns every comment once in order, and every reaction once, with its comment.
 */
module ThreadPages {
  import opened Wrappers
  import opened SortKeys
  import opened CommentPaths
  import opened Threads

  /** A reaction as stored, its reactor's id as the key spells it. */
  datatype StoredReaction = StoredReaction(target: Path, reactor: string)

  const REACTION_PREFIX := "RXN#"

  function ReactionKey(r: StoredReaction): string { REACTION_PREFIX + (PathString(r.target) + ("#" + r.reactor)) }

  function LowKey(first: Path): string { REACTION_PREFIX + PathString(first) }

  function HighKey(last: Path): string { REACTION_PREFIX + (PathString(last) + "$") }

  // The quantifiers below range over named pairs and places, so that facts
  // about one are only ever used where they are asked for by name.

  predicate ValidAt(order: seq<Path>, i: nat)
    requires i < |order|
  {
    ValidCommentPath(order[i])
  }

  ghost predicate InOrder(order: seq<Path>, i: nat, j: nat)
    requires i < |order| && j < |order|
  {
    ReadsBefore(order[i], order[j])
  }

  predicate KeysInOrder(rxns: seq<StoredReaction>, i: nat, j: nat)
    requires i < |rxns| && j < |rxns|
  {
    Before(ReactionKey(rxns[i]), ReactionKey(rxns[j]))
  }

  predicate TargetThere(order: seq<Path>, rxns: seq<StoredReaction>, i: nat)
    requires i < |rxns|
  {
    rxns[i].target == POST || rxns[i].target in order
  }

  /** Valid places in reading order. */
  ghost predicate Ordered(order: seq<Path>) {
    && (forall i: nat :: i < |order| ==> ValidAt(order, i))
    && (forall i: nat, j: nat :: i < j < |order| ==> InOrder(order, i, j))
  }

  ghost predicate KeysSorted(rxns: seq<StoredReaction>) {
    forall i: nat, j: nat :: i < j < |rxns| ==> KeysInOrder(rxns, i, j)
  }

  /** Comments and reactions in key order, each reaction on a comment that is there or on the post. */
  ghost predicate Stored(order: seq<Path>, rxns: seq<StoredReaction>) {
    Ordered(order) && KeysSorted(rxns) && forall i: nat :: i < |rxns| ==> TargetThere(order, rxns, i)
  }

  lemma TargetPlace(order: seq<Path>, rxns: seq<StoredReaction>, k: nat) returns (m: nat)
    requires Stored(order, rxns) && k < |rxns| && rxns[k].target != POST
    ensures m < |order| && order[m] == rxns[k].target && ValidCommentPath(order[m])
  {
    assert TargetThere(order, rxns, k);
    m :| 0 <= m < |order| && order[m] == rxns[k].target;
    assert ValidAt(order, m);
  }

  predicate AtLeast(rxns: seq<StoredReaction>, k: nat, low: string)
    requires k < |rxns|
  {
    AtOrBefore(low, ReactionKey(rxns[k]))
  }

  predicate AtMost(rxns: seq<StoredReaction>, k: nat, high: string)
    requires k < |rxns|
  {
    AtOrBefore(ReactionKey(rxns[k]), high)
  }

  // ----- key ranges -----

  lemma HashBeforeDollar(p: Path, reactor: string)
    ensures Before(PathString(p), PathString(p) + ("#" + reactor))
    ensures Before(PathString(p) + ("#" + reactor), PathString(p) + "$")
  {
    var s, x, y := PathString(p), "#" + reactor, "$";
    assert x[0] < y[0];
    BeforeAfterHead(s, x, y);
    assert s + "" == s;
    BeforeAfterHead(s, "", x);
  }

  /** RXN#first is at or ahead of a reaction's key exactly if its target is first or reads after it. */
  lemma KeyAgainstLow(first: Path, r: StoredReaction)
    requires Printable(first) && Printable(r.target)
    ensures AtOrBefore(LowKey(first), ReactionKey(r)) <==> first == r.target || ReadsBefore(first, r.target)
  {
    var low, key := PathString(first), PathString(r.target) + ("#" + r.reactor);
    BeforeAfterHead(REACTION_PREFIX, low, key);
    assert LowKey(first) == ReactionKey(r) ==> low == key by { SameTail(REACTION_PREFIX, low, key); }
    HashBeforeDollar(r.target, r.reactor);
    if first != r.target {
      KeyOrderIsReadingOrder(first, r.target, "", "#" + r.reactor);
      assert low + "" == low;
      KeyOrderIsReadingOrder(r.target, first, "#" + r.reactor, "");
      ReadsBeforeIsTotal(first, r.target);
      BeforeIsTotal(low, key);
    }
  }

  lemma SameTail(head: string, x: string, y: string)
    ensures head + x == head + y <==> x == y
  {
    assert (head + x)[|head|..] == x && (head + y)[|head|..] == y;
  }

  /** RXN#last$ is at or past a reaction's key exactly if its target is last or reads before it; replies to last are past it. */
  lemma KeyAgainstHigh(r: StoredReaction, last: Path)
    requires Printable(last) && Printable(r.target)
    ensures AtOrBefore(ReactionKey(r), HighKey(last)) <==> r.target == last || ReadsBefore(r.target, last)
  {
    var key, high := PathString(r.target) + ("#" + r.reactor), PathString(last) + "$";
    BeforeAfterHead(REACTION_PREFIX, key, high);
    SameTail(REACTION_PREFIX, key, high);
    HashBeforeDollar(r.target, r.reactor);
    if last != r.target {
      KeyOrderIsReadingOrder(r.target, last, "#" + r.reactor, "$");
      KeyOrderIsReadingOrder(last, r.target, "$", "#" + r.reactor);
      ReadsBeforeIsTotal(last, r.target);
      BeforeIsTotal(key, high);
    }
  }

  lemma PostReadsFirst(p: Path)
    requires ValidCommentPath(p)
    ensures ReadsBefore(POST, p) && !ReadsBefore(p, POST) && p != POST
  {
    assert DivergesAt(POST, p, 0);
    ReadsBeforeIsTotal(POST, p);
  }

  lemma PlaceInOrder(order: seq<Path>, i: nat, m: nat)
    requires Ordered(order)
    requires i < |order| && m < |order|
    ensures order[i] == order[m] || ReadsBefore(order[i], order[m]) <==> i <= m
    ensures order[i] == order[m] <==> i == m
  {
    if i < m { assert InOrder(order, i, m); }
    if m < i { assert InOrder(order, m, i); }
    ReadsBeforeIsTotal(order[i], order[m]);
  }

  // ----- one page -----

  /** A reaction on one of the first j comments, or on the post. */
  predicate CoveredBy(order: seq<Path>, j: nat, r: StoredReaction)
    requires j <= |order|
  {
    r.target == POST || r.target in order[..j]
  }

  lemma CoveredByTarget(order: seq<Path>, r: StoredReaction, j: nat, m: nat)
    requires Ordered(order)
    requires j <= |order| && m < |order| && order[m] == r.target && r.target != POST
    ensures CoveredBy(order, j, r) <==> m < j
  {
    InPrefix(order, m, j);
  }

  /** Covered by the comments up to the n-th: exactly if the key is within RXN#<the n-th>$. */
  lemma CoveredByHighKey(order: seq<Path>, rxns: seq<StoredReaction>, n: nat, k: nat)
    requires Stored(order, rxns) && n < |order| && k < |rxns|
    ensures CoveredBy(order, n + 1, rxns[k]) <==> AtMost(rxns, k, HighKey(order[n]))
  {
    var r, last := rxns[k], order[n];
    assert ValidAt(order, n);
    if r.target == POST {
      KeyAgainstHigh(r, last);
      PostReadsFirst(last);
    } else {
      var m := TargetPlace(order, rxns, k);
      KeyAgainstHigh(r, last);
      PlaceInOrder(order, m, n);
      CoveredByTarget(order, r, n + 1, m);
    }
  }

  /** Not covered by the first j: exactly if the key is at RXN#<the next> or past it. */
  lemma CoveredByLowKey(order: seq<Path>, rxns: seq<StoredReaction>, j: nat, k: nat)
    requires Stored(order, rxns) && j < |order| && k < |rxns|
    ensures CoveredBy(order, j, rxns[k]) <==> !AtLeast(rxns, k, LowKey(order[j]))
  {
    var r, first := rxns[k], order[j];
    assert ValidAt(order, j);
    if r.target == POST {
      KeyAgainstLow(first, r);
      PostReadsFirst(first);
    } else {
      var m := TargetPlace(order, rxns, k);
      KeyAgainstLow(first, r);
      PlaceInOrder(order, j, m);
      CoveredByTarget(order, r, j, m);
    }
  }

  lemma PostKeys(order: seq<Path>, rxns: seq<StoredReaction>, k: nat)
    requires Stored(order, rxns) && k < |rxns|
    ensures AtLeast(rxns, k, LowKey(POST))
    ensures CoveredBy(order, 0, rxns[k]) <==> AtMost(rxns, k, HighKey(POST))
  {
    var r := rxns[k];
    if r.target != POST {
      var m := TargetPlace(order, rxns, k);
      PostReadsFirst(order[m]);
    }
    KeyAgainstLow(POST, r);
    KeyAgainstHigh(r, POST);
    ReadsBeforeIsTotal(POST, POST);
  }

  lemma InPrefix(order: seq<Path>, m: nat, j: nat)
    requires Ordered(order)
    requires m < |order| && j <= |order|
    ensures order[m] in order[..j] <==> m < j
  {
    if order[m] in order[..j] {
      var n :| 0 <= n < j && order[..j][n] == order[m];
      PlaceInOrder(order, n, m);
    }
    if m < j { assert order[..j][m] == order[m]; }
  }

  // ----- queries -----

  predicate Past(order: seq<Path>, cursor: Path, k: nat)
    requires k < |order|
  {
    Before(PathString(cursor), PathString(order[k]))
  }

  /** Comments are returned from the first key past the cursor's. */
  ghost predicate StartsAt(order: seq<Path>, after: Option<Path>, i: nat) {
    i <= |order| && if after.None? then i == 0 else forall k: nat :: k < |order| ==> (k < i <==> !Past(order, after.value, k))
  }

  lemma PastAnother(order: seq<Path>, c: nat, k: nat)
    requires Ordered(order) && c < |order| && k < |order|
    ensures Past(order, order[c], k) <==> c < k
  {
    PlaceInOrder(order, c, k);
    if k == c {
      BeforeIsTotal(PathString(order[k]), PathString(order[k]));
    } else {
      assert ValidAt(order, c) && ValidAt(order, k);
      KeyOrderIsReadingOrder(order[c], order[k], "", "");
      assert PathString(order[c]) + "" == PathString(order[c]) && PathString(order[k]) + "" == PathString(order[k]);
    }
  }

  /** A cursor naming the j-th comment resumes right after it. */
  lemma CursorResumes(order: seq<Path>, j: nat, i: nat)
    requires Ordered(order) && 1 <= j <= |order| && StartsAt(order, Some(order[j - 1]), i)
    ensures i == j
  {
    PastAnother(order, j - 1, j - 1);
    if j < |order| { PastAnother(order, j - 1, j); }
  }

  /** The query's exclusive start key. */
  method FirstPast(order: seq<Path>, after: Option<Path>) returns (i: nat)
    requires Ordered(order)
    ensures StartsAt(order, after, i)
  {
    i := 0;
    if after.Some? {
      while i < |order| && !Past(order, after.value, i)
        invariant i <= |order| && forall k: nat :: k < i ==> !Past(order, after.value, k)
      {
        i := i + 1;
      }
      forall k: nat | i <= k < |order| ensures Past(order, after.value, k) { PastAscends(order, after.value, i, k); }
    }
  }

  lemma PastAscends(order: seq<Path>, cursor: Path, i: nat, k: nat)
    requires Ordered(order) && i <= k < |order| && Past(order, cursor, i)
    ensures Past(order, cursor, k)
  {
    if i < k {
      PastAnother(order, i, k);
      BeforeIsTransitive(PathString(cursor), PathString(order[i]), PathString(order[k]));
    }
  }

  /**
   * ListComments: a query of limit + 1 items that may stop early, after
   * `stop`, and may name a last key even when nothing follows (`eager`).
   */
  method ListComments(order: seq<Path>, start: nat, limit: nat, stop: nat, eager: bool)
    returns (page: seq<Path>, next: Option<Path>)
    requires limit >= 1 && stop >= 1 && start <= |order|
    ensures |page| <= limit && start + |page| <= |order| && page == order[start..start + |page|]
    ensures start < |order| ==> page != []
    ensures if next.Some? then page != [] && next.value == order[start + |page| - 1] else start + |page| == |order|
  {
    var n := if limit + 1 < stop then limit + 1 else stop;
    var end := if start + n < |order| then start + n else |order|;
    var lastKey := end < |order| || eager;
    if end - start > limit { return order[start..start + limit], Some(order[start + limit - 1]); }
    page := order[start..end];
    next := if lastKey && page != [] then Some(order[end - 1]) else None;
  }

  /** What `BETWEEN low AND high` selects from sorted keys is a stretch of them. */
  ghost predicate Between(rxns: seq<StoredReaction>, low: string, high: string, a: nat, b: nat) {
    && a <= b <= |rxns|
    && (forall k: nat :: k < |rxns| ==> (a <= k <==> AtLeast(rxns, k, low)))
    && (forall k: nat :: a <= k < |rxns| ==> (k < b <==> AtMost(rxns, k, high)))
  }

  /** ListReactions' range query, in pages of whatever length. */
  method QueryReactions(rxns: seq<StoredReaction>, low: string, high: string, pageLength: nat -> nat)
    returns (found: seq<StoredReaction>, ghost a: nat, ghost b: nat)
    requires KeysSorted(rxns)
    ensures Between(rxns, low, high, a, b) && found == rxns[a..b]
  {
    var start := 0;
    while start < |rxns| && !AtLeast(rxns, start, low)
      invariant start <= |rxns| && forall k: nat :: k < start ==> !AtLeast(rxns, k, low)
    {
      start := start + 1;
    }
    a := start;
    var at, n := start, 0;
    found := [];
    while at < |rxns| && AtMost(rxns, at, high)
      invariant start <= at <= |rxns| && found == rxns[start..at]
      invariant forall k: nat :: start <= k < at ==> AtMost(rxns, k, high)
      decreases |rxns| - at
    {
      var end := at + 1;
      while end < at + 1 + pageLength(n) && end < |rxns| && AtMost(rxns, end, high)
        invariant at < end <= |rxns| && forall k: nat :: start <= k < end ==> AtMost(rxns, k, high)
      {
        end := end + 1;
      }
      found := found + rxns[at..end];
      at, n := end, n + 1;
    }
    b := at;
    SortedRange(rxns, low, high, a, b);
  }

  lemma SortedRange(rxns: seq<StoredReaction>, low: string, high: string, a: nat, b: nat)
    requires KeysSorted(rxns) && a <= b <= |rxns|
    requires (forall k: nat :: k < a ==> !AtLeast(rxns, k, low)) && (a < |rxns| ==> AtLeast(rxns, a, low))
    requires (forall k: nat :: a <= k < b ==> AtMost(rxns, k, high)) && (b < |rxns| ==> !AtMost(rxns, b, high))
    ensures Between(rxns, low, high, a, b)
  {
    forall k: nat | a < k < |rxns| ensures AtLeast(rxns, k, low) {
      assert KeysInOrder(rxns, a, k);
      AtOrBeforeThenBefore(low, ReactionKey(rxns[a]), ReactionKey(rxns[k]));
    }
    forall k: nat | b < k < |rxns| ensures !AtMost(rxns, k, high) {
      if AtMost(rxns, k, high) { PastTheEnd(rxns, high, b, k); }
    }
  }

  lemma PastTheEnd(rxns: seq<StoredReaction>, high: string, b: nat, k: nat)
    requires KeysSorted(rxns) && b <= k < |rxns| && AtMost(rxns, k, high)
    ensures AtMost(rxns, b, high)
  {
    if b < k {
      assert KeysInOrder(rxns, b, k);
      BeforeThenAtOrBefore(ReactionKey(rxns[b]), ReactionKey(rxns[k]), high);
    }
  }

  lemma AtOrBeforeThenBefore(a: string, b: string, c: string)
    requires AtOrBefore(a, b) && Before(b, c)
    ensures AtOrBefore(a, c)
  {
    if a != b { BeforeIsTransitive(a, b, c); }
  }

  lemma BeforeThenAtOrBefore(a: string, b: string, c: string)
    requires Before(a, b) && AtOrBefore(b, c)
    ensures AtOrBefore(a, c)
  {
    if b != c { BeforeIsTransitive(a, b, c); }
  }

  /** Whether the k-th reaction goes with the first j comments or the post. */
  predicate Covered(order: seq<Path>, rxns: seq<StoredReaction>, j: nat, k: nat)
    requires j <= |order| && k < |rxns|
  {
    CoveredBy(order, j, rxns[k])
  }

  /** The reactions up to n are those covered by the first j comments. */
  ghost predicate Boundary(order: seq<Path>, rxns: seq<StoredReaction>, j: nat, n: nat) {
    j <= |order| && n <= |rxns| && forall k: nat :: k < |rxns| ==> (k < n <==> Covered(order, rxns, j, k))
  }

  /**
   * ListReactions: the bounds a page of comments gives select the reactions
   * on exactly those comments, and the post's own with the first page.
   */
  method ListReactions(order: seq<Path>, rxns: seq<StoredReaction>, i: nat, j: nat, includePost: bool, pageLength: nat -> nat)
    returns (found: seq<StoredReaction>, ghost a: nat, ghost b: nat)
    requires Stored(order, rxns) && i <= j <= |order| && (includePost ==> i == 0) && (i == j ==> j == |order|)
    ensures a <= b <= |rxns| && found == rxns[a..b] && Boundary(order, rxns, j, b)
    ensures if includePost then a == 0 else Boundary(order, rxns, i, a)
  {
    var low, high := "", "";
    if includePost {
      low := LowKey(POST);
    } else if i < j {
      low := LowKey(order[i]);
    } else {
      EverythingIsCovered(order, rxns);
      return [], |rxns|, |rxns|;
    }
    high := if i < j then HighKey(order[j - 1]) else HighKey(POST);
    found, a, b := QueryReactions(rxns, low, high, pageLength);
    RangeIsThePage(order, rxns, i, j, includePost, low, high, a, b);
  }

  lemma EverythingIsCovered(order: seq<Path>, rxns: seq<StoredReaction>)
    requires Stored(order, rxns)
    ensures Boundary(order, rxns, |order|, |rxns|)
  {
    assert order[..|order|] == order;
    forall k: nat | k < |rxns| ensures Covered(order, rxns, |order|, k) { assert TargetThere(order, rxns, k); }
  }

  lemma RangeIsThePage(order: seq<Path>, rxns: seq<StoredReaction>, i: nat, j: nat, includePost: bool,
                       low: string, high: string, a: nat, b: nat)
    requires Stored(order, rxns) && i <= j <= |order| && (includePost ==> i == 0) && (includePost || i < j)
    requires if includePost then low == LowKey(POST) else low == LowKey(order[i])
    requires if i < j then high == HighKey(order[j - 1]) else high == HighKey(POST)
    requires Between(rxns, low, high, a, b)
    ensures if includePost then a == 0 else Boundary(order, rxns, i, a)
    ensures Boundary(order, rxns, j, b)
  {
    if includePost {
      if |rxns| > 0 { PostKeys(order, rxns, 0); }
    } else {
      forall k: nat | k < |rxns| ensures k < a <==> Covered(order, rxns, i, k) { CoveredByLowKey(order, rxns, i, k); }
    }
    forall k: nat | k < |rxns| ensures k < b <==> Covered(order, rxns, j, k) {
      if i < j { CoveredByHighKey(order, rxns, j - 1, k); } else { PostKeys(order, rxns, k); }
      if k < a {
        assert Covered(order, rxns, i, k);
        CoveredByMore(order, rxns, i, j, k);
      }
    }
  }

  lemma CoveredByMore(order: seq<Path>, rxns: seq<StoredReaction>, i: nat, j: nat, k: nat)
    requires i <= j <= |order| && k < |rxns| && Covered(order, rxns, i, k)
    ensures Covered(order, rxns, j, k)
  {
    assert order[..j][..i] == order[..i];
  }

  // ----- tombstones and the budget -----

  /** The reactions served: those whose target is no tombstone. */
  function Served(rxns: seq<StoredReaction>, gone: set<Path>): (served: seq<StoredReaction>)
    ensures forall k :: 0 <= k < |served| ==> served[k] in rxns && served[k].target !in gone
  {
    if rxns == [] then []
    else if rxns[0].target in gone then Served(rxns[1..], gone) else [rxns[0]] + Served(rxns[1..], gone)
  }

  lemma {:induction false} ServedSplits(a: seq<StoredReaction>, b: seq<StoredReaction>, gone: set<Path>)
    ensures Served(a + b, gone) == Served(a, gone) + Served(b, gone)
  {
    if a == [] {
      assert a + b == b;
    } else {
      assert (a + b)[0] == a[0] && (a + b)[1..] == a[1..] + b;
      ServedSplits(a[1..], b, gone);
    }
  }

  /** Only tombstones among the targets matter. */
  lemma {:induction false} ServedByTargets(rxns: seq<StoredReaction>, gone: set<Path>, others: set<Path>)
    requires forall k :: 0 <= k < |rxns| ==> (rxns[k].target in gone <==> rxns[k].target in others)
    ensures Served(rxns, gone) == Served(rxns, others)
  {
    if rxns != [] {
      assert rxns[0].target in gone <==> rxns[0].target in others;
      ServedByTargets(rxns[1..], gone, others);
    }
  }

  /** What is listed is what may be served, as often as it is stored; whatever hangs off a tombstone is not. */
  ghost predicate KeptExactly(rxns: seq<StoredReaction>, gone: set<Path>, kept: seq<StoredReaction>) {
    && (forall r: StoredReaction :: multiset(kept)[r] == if r.target in gone then 0 else multiset(rxns)[r])
    && (KeysSorted(rxns) ==> KeysSorted(kept))
  }

  lemma {:induction false} ServedCounts(rxns: seq<StoredReaction>, gone: set<Path>, r: StoredReaction)
    ensures multiset(Served(rxns, gone))[r] == if r.target in gone then 0 else multiset(rxns)[r]
  {
    if rxns != [] {
      assert rxns == [rxns[0]] + rxns[1..];
      ServedCounts(rxns[1..], gone, r);
    }
  }

  lemma ServedIsExact(rxns: seq<StoredReaction>, gone: set<Path>)
    ensures KeptExactly(rxns, gone, Served(rxns, gone))
  {
    forall r: StoredReaction ensures multiset(Served(rxns, gone))[r] == if r.target in gone then 0 else multiset(rxns)[r] {
      ServedCounts(rxns, gone, r);
    }
    if KeysSorted(rxns) { ServedIsSorted(rxns, gone); }
  }

  /** withoutDeletedTargets: the tombstones among the page's rows, and the post. */
  method WithoutDeletedTargets(page: seq<Path>, tombstones: set<Path>, rxns: seq<StoredReaction>)
    returns (kept: seq<StoredReaction>)
    requires forall k :: 0 <= k < |rxns| ==> rxns[k].target == POST || rxns[k].target in page
    ensures kept == Served(rxns, tombstones) && KeptExactly(rxns, tombstones, kept)
  {
    var gone: set<Path> := if POST in tombstones then {POST} else {};
    for i := 0 to |page|
      invariant forall p :: p in gone <==> p in tombstones && (p == POST || p in page[..i])
    {
      if page[i] in tombstones { gone := gone + {page[i]}; }
    }
    assert page[..|page|] == page;
    ServedByTargets(rxns, gone, tombstones);
    kept := [];
    for i := 0 to |rxns|
      invariant kept == Served(rxns[..i], gone)
    {
      assert rxns[..i + 1] == rxns[..i] + [rxns[i]];
      ServedSplits(rxns[..i], [rxns[i]], gone);
      if rxns[i].target !in gone { kept := kept + [rxns[i]]; }
    }
    assert rxns[..|rxns|] == rxns;
    ServedIsExact(rxns, tombstones);
  }

  ghost predicate SplitAt(rxns: seq<StoredReaction>, high: string, n: nat) {
    n <= |rxns| && forall k: nat :: k < |rxns| ==> (k < n <==> AtMost(rxns, k, high))
  }

  lemma SplitFrom(rxns: seq<StoredReaction>, high: string, n: nat)
    requires KeysSorted(rxns) && n <= |rxns|
    requires n < |rxns| ==> !AtMost(rxns, n, high)
    requires n > 0 ==> AtMost(rxns, n - 1, high)
    ensures SplitAt(rxns, high, n)
  {
    forall k: nat | k < |rxns| ensures k < n <==> AtMost(rxns, k, high) {
      if k < n { PastTheEnd(rxns, high, k, n - 1); }
      if k > n && AtMost(rxns, k, high) { PastTheEnd(rxns, high, n, k); }
    }
  }

  predicate HighsInOrder(comments: seq<Path>, i: nat, j: nat)
    requires i < |comments| && j < |comments|
  {
    Before(HighKey(comments[i]), HighKey(comments[j]))
  }

  /** What fitThreadPage is given: sorted reactions within the last comment's bound. */
  ghost predicate Fits(comments: seq<Path>, rxns: seq<StoredReaction>) {
    && KeysSorted(rxns) && (forall i: nat, j: nat :: i < j < |comments| ==> HighsInOrder(comments, i, j))
    && (comments != [] ==> SplitAt(rxns, HighKey(comments[|comments| - 1]), |rxns|))
  }

  function Total<T>(items: seq<T>, cost: T -> nat): nat {
    if items == [] then 0 else Total(items[..|items| - 1], cost) + cost(items[|items| - 1])
  }

  lemma TotalGrows<T>(items: seq<T>, n: nat, cost: T -> nat)
    requires n < |items|
    ensures Total(items[..n + 1], cost) == Total(items[..n], cost) + cost(items[n])
  {
    assert items[..n + 1][..n] == items[..n];
  }

  /** What the first `comments` rows and the first `reactions` of the reactions cost together. */
  function Cost(rows: seq<Path>, rxns: seq<StoredReaction>, comments: nat, reactions: nat, commentCost: Path -> nat,
                reactionCost: StoredReaction -> nat): nat
    requires comments <= |rows| && reactions <= |rxns|
  {
    Total(rows[..comments], commentCost) + Total(rxns[..reactions], reactionCost)
  }

  /** One more comment, with its reactions, is more than the budget. */
  ghost predicate OneMoreIsTooMuch(rows: seq<Path>, rxns: seq<StoredReaction>, keep: nat, commentCost: Path -> nat,
                                   reactionCost: StoredReaction -> nat, budget: nat)
    requires keep < |rows|
  {
    forall n: nat :: SplitAt(rxns, HighKey(rows[keep]), n) ==> Cost(rows, rxns, keep + 1, n, commentCost, reactionCost) > budget
  }

  lemma AtTheCut(rxns: seq<StoredReaction>, high: string, n: nat, k: nat)
    requires SplitAt(rxns, high, n) && k < |rxns|
    ensures k < n <==> AtMost(rxns, k, high)
  {
  }

  lemma SplitIsUnique(rxns: seq<StoredReaction>, high: string, m: nat, n: nat)
    requires SplitAt(rxns, high, m) && SplitAt(rxns, high, n)
    ensures m == n
  {
    if m < |rxns| { AtTheCut(rxns, high, m, m); AtTheCut(rxns, high, n, m); }
    if n < |rxns| { AtTheCut(rxns, high, m, n); AtTheCut(rxns, high, n, n); }
  }

  /**
   * fitThreadPage: how many comments and reactions fit the budget. At least
   * one comment is kept, and with the comments kept go exactly their reactions.
   */
  method FitThreadPage(comments: seq<Path>, rxns: seq<StoredReaction>, commentCost: Path -> nat,
                       reactionCost: StoredReaction -> nat, budget: nat) returns (keep: nat, keepRxns: nat)
    requires Fits(comments, rxns)
    ensures keep <= |comments| && keepRxns <= |rxns| && (comments != [] ==> keep >= 1)
    ensures keep == |comments| ==> keepRxns == |rxns|
    ensures keep >= 1 ==> SplitAt(rxns, HighKey(comments[keep - 1]), keepRxns)
    ensures keep > 1 ==> Cost(comments, rxns, keep, keepRxns, commentCost, reactionCost) <= budget
    ensures keep < |comments| ==> OneMoreIsTooMuch(comments, rxns, keep, commentCost, reactionCost, budget)
  {
    if comments == [] { return 0, |rxns|; }
    var total, j := 0, 0;
    for i := 0 to |comments|
      invariant j <= |rxns| && (i == 0 ==> j == 0)
      invariant i >= 1 ==> SplitAt(rxns, HighKey(comments[i - 1]), j)
      invariant total == Cost(comments, rxns, i, j, commentCost, reactionCost) && (i > 1 ==> total <= budget)
    {
      var high := HighKey(comments[i]);
      var cost, k := commentCost(comments[i]), j;
      TotalGrows(comments, i, commentCost);
      while k < |rxns| && AtMost(rxns, k, high)
        invariant j <= k <= |rxns| && (k > j ==> AtMost(rxns, k - 1, high))
        invariant total + cost == Cost(comments, rxns, i + 1, k, commentCost, reactionCost)
      {
        TotalGrows(rxns, k, reactionCost);
        cost, k := cost + reactionCost(rxns[k]), k + 1;
      }
      if k == j && k > 0 { WithinTheNext(comments, rxns, i, k - 1); }
      SplitFrom(rxns, high, k);
      if i > 0 && total + cost > budget {
        TooMuch(comments, rxns, i, k, commentCost, reactionCost, budget);
        return i, j;
      }
      total, j := total + cost, k;
    }
    SplitIsUnique(rxns, HighKey(comments[|comments| - 1]), j, |rxns|);
    return |comments|, |rxns|;
  }

  lemma TooMuch(rows: seq<Path>, rxns: seq<StoredReaction>, keep: nat, n: nat, commentCost: Path -> nat,
                reactionCost: StoredReaction -> nat, budget: nat)
    requires keep < |rows| && SplitAt(rxns, HighKey(rows[keep]), n)
    requires Cost(rows, rxns, keep + 1, n, commentCost, reactionCost) > budget
    ensures OneMoreIsTooMuch(rows, rxns, keep, commentCost, reactionCost, budget)
  {
    forall m: nat | SplitAt(rxns, HighKey(rows[keep]), m)
      ensures Cost(rows, rxns, keep + 1, m, commentCost, reactionCost) > budget
    {
      SplitIsUnique(rxns, HighKey(rows[keep]), m, n);
    }
  }

  lemma WithinTheNext(comments: seq<Path>, rxns: seq<StoredReaction>, i: nat, k: nat)
    requires 0 < i < |comments| && k < |rxns| && HighsInOrder(comments, i - 1, i) && AtMost(rxns, k, HighKey(comments[i - 1]))
    ensures AtMost(rxns, k, HighKey(comments[i]))
  {
    AtOrBeforeThenBefore(ReactionKey(rxns[k]), HighKey(comments[i - 1]), HighKey(comments[i]));
  }

  // ----- the whole thread -----

  datatype ThreadPage = ThreadPage(comments: seq<Path>, reactions: seq<StoredReaction>, next: Option<Path>)

  /** The page holds the comments from the i-th to the j-th and exactly their reactions, and with the first page the post's. */
  ghost predicate IsPage(order: seq<Path>, rxns: seq<StoredReaction>, gone: set<Path>, i: nat, j: nat, first: bool,
                         a: nat, b: nat, page: ThreadPage)
  {
    && i <= j <= |order| && a <= b <= |rxns| && page.comments == order[i..j]
    && (if first then a == 0 else Boundary(order, rxns, i, a)) && Boundary(order, rxns, j, b)
    && page.reactions == Served(rxns[a..b], gone)
  }

  lemma HighsAscend(order: seq<Path>, i: nat, j: nat, m: nat, n: nat)
    requires Ordered(order) && i <= j <= |order| && m < n < j - i
    ensures HighsInOrder(order[i..j], m, n)
  {
    var p, q := order[i + m], order[i + n];
    assert ValidAt(order, i + m) && ValidAt(order, i + n) && InOrder(order, i + m, i + n);
    PlaceInOrder(order, i + m, i + n);
    KeyOrderIsReadingOrder(p, q, "$", "$");
    BeforeAfterHead(REACTION_PREFIX, PathString(p) + "$", PathString(q) + "$");
  }

  lemma {:induction false} ServedIsSorted(rxns: seq<StoredReaction>, gone: set<Path>)
    requires KeysSorted(rxns)
    ensures KeysSorted(Served(rxns, gone))
  {
    if rxns != [] {
      var rest, served := rxns[1..], Served(rxns, gone);
      forall i: nat, j: nat | i < j < |rest| ensures KeysInOrder(rest, i, j) { assert KeysInOrder(rxns, i + 1, j + 1); }
      ServedIsSorted(rest, gone);
      if rxns[0].target !in gone {
        forall i: nat, j: nat | i < j < |served| ensures KeysInOrder(served, i, j) {
          if i > 0 {
            assert KeysInOrder(Served(rest, gone), i - 1, j - 1);
          } else {
            assert Served(rest, gone)[j - 1] in rest;
            var m: nat :| m < |rest| && rest[m] == served[j];
            assert KeysInOrder(rxns, 0, m + 1);
          }
        }
      }
    }
  }

  lemma SliceIsSorted(rxns: seq<StoredReaction>, a: nat, b: nat)
    requires KeysSorted(rxns) && a <= b <= |rxns|
    ensures KeysSorted(rxns[a..b])
  {
    forall i: nat, j: nat | i < j < b - a ensures KeysInOrder(rxns[a..b], i, j) { assert KeysInOrder(rxns, a + i, a + j); }
  }

  /** Everything served is within a bound, if everything stored is. */
  lemma ServedAtMost(rxns: seq<StoredReaction>, gone: set<Path>, high: string)
    requires forall k: nat :: k < |rxns| ==> AtMost(rxns, k, high)
    ensures forall k: nat :: k < |Served(rxns, gone)| ==> AtMost(Served(rxns, gone), k, high)
  {
    forall k: nat | k < |Served(rxns, gone)| ensures AtMost(Served(rxns, gone), k, high) {
      var m: nat :| m < |rxns| && rxns[m] == Served(rxns, gone)[k];
      assert AtMost(rxns, m, high);
    }
  }

  lemma ServedPastIt(rxns: seq<StoredReaction>, gone: set<Path>, high: string)
    requires forall k: nat :: k < |rxns| ==> !AtMost(rxns, k, high)
    ensures forall k: nat :: k < |Served(rxns, gone)| ==> !AtMost(Served(rxns, gone), k, high)
  {
    forall k: nat | k < |Served(rxns, gone)| ensures !AtMost(Served(rxns, gone), k, high) {
      var m: nat :| m < |rxns| && rxns[m] == Served(rxns, gone)[k];
      assert !AtMost(rxns, m, high);
    }
  }

  /** A cut of two served stretches, the first within the bound and the second past it, is where they meet. */
  lemma CutWhereTheyMeet(kept: seq<StoredReaction>, rest: seq<StoredReaction>, high: string, n: nat)
    requires SplitAt(kept + rest, high, n)
    requires forall k: nat :: k < |kept| ==> AtMost(kept, k, high)
    requires forall k: nat :: k < |rest| ==> !AtMost(rest, k, high)
    ensures (kept + rest)[..n] == kept
  {
    var all := kept + rest;
    if kept != [] { assert AtMost(kept, |kept| - 1, high) && AtMost(all, |kept| - 1, high); }
    if rest != [] { assert !AtMost(rest, 0, high) && !AtMost(all, |kept|, high); }
  }

  /** Cutting the served reactions where the budget says leaves those covered by the comments kept. */
  lemma CutIsServed(order: seq<Path>, rxns: seq<StoredReaction>, gone: set<Path>, e: nat, a: nat, c: nat, b: nat, n: nat)
    requires Stored(order, rxns) && e < |order| && a <= c <= b <= |rxns| && Boundary(order, rxns, e + 1, c)
    requires SplitAt(Served(rxns[a..b], gone), HighKey(order[e]), n)
    ensures Served(rxns[a..b], gone)[..n] == Served(rxns[a..c], gone)
  {
    var high, kept, rest := HighKey(order[e]), rxns[a..c], rxns[c..b];
    assert rxns[a..b] == kept + rest;
    ServedSplits(kept, rest, gone);
    forall k: nat | k < |kept| ensures AtMost(kept, k, high) {
      CoveredByHighKey(order, rxns, e, a + k);
      assert Covered(order, rxns, e + 1, a + k);
    }
    forall k: nat | k < |rest| ensures !AtMost(rest, k, high) {
      CoveredByHighKey(order, rxns, e, c + k);
      assert !Covered(order, rxns, e + 1, c + k);
    }
    ServedAtMost(kept, gone, high);
    ServedPastIt(rest, gone, high);
    CutWhereTheyMeet(Served(kept, gone), Served(rest, gone), high, n);
  }

  lemma BoundaryExists(order: seq<Path>, rxns: seq<StoredReaction>, e: nat) returns (c: nat)
    requires Stored(order, rxns) && e < |order|
    ensures Boundary(order, rxns, e + 1, c)
  {
    c := 0;
    while c < |rxns| && AtMost(rxns, c, HighKey(order[e]))
      invariant c <= |rxns| && (c > 0 ==> AtMost(rxns, c - 1, HighKey(order[e])))
    {
      c := c + 1;
    }
    SplitFrom(rxns, HighKey(order[e]), c);
    var j := e + 1;
    forall k: nat | k < |rxns| ensures k < c <==> Covered(order, rxns, j, k) {
      CoveredByHighKey(order, rxns, e, k);
      assert AtMost(rxns, k, HighKey(order[e])) <==> k < c;
    }
  }

  lemma BoundariesAscend(order: seq<Path>, rxns: seq<StoredReaction>, i: nat, j: nat, m: nat, n: nat)
    requires i <= j && Boundary(order, rxns, i, m) && Boundary(order, rxns, j, n)
    ensures m <= n
  {
    if 0 < m {
      assert Covered(order, rxns, i, m - 1);
      CoveredByMore(order, rxns, i, j, m - 1);
    }
  }

  lemma FoundTargets(order: seq<Path>, rxns: seq<StoredReaction>, i: nat, j: nat, first: bool, a: nat, b: nat)
    requires i <= j <= |order| && a <= b <= |rxns| && (first ==> i == 0)
    requires (if first then a == 0 else Boundary(order, rxns, i, a)) && Boundary(order, rxns, j, b)
    ensures forall k :: 0 <= k < b - a ==> rxns[a..b][k].target == POST || rxns[a..b][k].target in order[i..j]
  {
    forall k | 0 <= k < b - a ensures rxns[a..b][k].target == POST || rxns[a..b][k].target in order[i..j] {
      assert Covered(order, rxns, j, a + k) && (!first ==> !Covered(order, rxns, i, a + k));
      OnThisPage(order, rxns, i, j, a + k);
    }
  }

  lemma OnThisPage(order: seq<Path>, rxns: seq<StoredReaction>, i: nat, j: nat, k: nat)
    requires i <= j <= |order| && k < |rxns| && Covered(order, rxns, j, k) && (i == 0 || !Covered(order, rxns, i, k))
    ensures rxns[k].target == POST || rxns[k].target in order[i..j]
  {
    var r := rxns[k];
    if r.target != POST {
      forall x | 0 <= x < i ensures order[x] != r.target { assert order[..i][x] == order[x]; }
      var m :| 0 <= m < j && order[..j][m] == r.target;
      assert order[i..j][m - i] == r.target;
    }
  }

  predicate OnPage(page: ThreadPage, first: bool, r: StoredReaction) {
    r.target in page.comments || (first && r.target == POST)
  }

  /** The page's reactions are those stored on its comments, and with the first page on the post, less what is on tombstones; in key order. */
  ghost predicate HoldsExactly(rxns: seq<StoredReaction>, gone: set<Path>, first: bool, page: ThreadPage) {
    && KeysSorted(page.reactions)
    && (forall r: StoredReaction ::
          multiset(page.reactions)[r] == if OnPage(page, first, r) && r.target !in gone then multiset(rxns)[r] else 0)
  }

  lemma OnPageByCover(order: seq<Path>, i: nat, j: nat, first: bool, page: ThreadPage, r: StoredReaction)
    requires Ordered(order) && i <= j <= |order| && page.comments == order[i..j] && (first ==> i == 0)
    requires forall k: nat :: k < |order| ==> order[k] != POST
    ensures OnPage(page, first, r) <==> CoveredBetween(order, i, j, first, r)
  {
    if r.target in order[..j] {
      var m: nat :| m < j && order[..j][m] == r.target;
      InPrefix(order, m, i);
      if m >= i { assert order[i..j][m - i] == r.target; }
    }
    if r.target in order[i..j] {
      var m: nat :| m < j - i && order[i..j][m] == r.target;
      InPrefix(order, i + m, i);
      InPrefix(order, i + m, j);
    }
  }

  lemma NotThePost(order: seq<Path>, k: nat)
    requires Ordered(order) && k < |order|
    ensures order[k] != POST
  {
    assert ValidAt(order, k);
    PostReadsFirst(order[k]);
  }

  predicate CoveredBetween(order: seq<Path>, i: nat, j: nat, first: bool, r: StoredReaction)
    requires i <= j <= |order|
  {
    CoveredBy(order, j, r) && (first || !CoveredBy(order, i, r))
  }

  /** The stretch from a to b is the reactions covered between the i-th comment and the j-th. */
  lemma StretchIsCovered(order: seq<Path>, rxns: seq<StoredReaction>, i: nat, j: nat, first: bool, a: nat, b: nat, k: nat)
    requires i <= j <= |order| && a <= b <= |rxns| && Boundary(order, rxns, j, b) && k < |rxns|
    requires if first then a == 0 else Boundary(order, rxns, i, a)
    ensures CoveredBetween(order, i, j, first, rxns[k]) <==> a <= k < b
  {
    assert Covered(order, rxns, j, k) <==> k < b;
    if !first { assert Covered(order, rxns, i, k) <==> k < a; }
  }

  lemma CountsInStretch<T>(items: seq<T>, a: nat, b: nat, x: T)
    requires a <= b <= |items|
    ensures multiset(items)[x] == multiset(items[..a])[x] + multiset(items[a..b])[x] + multiset(items[b..])[x]
  {
    assert items == items[..a] + items[a..b] + items[b..];
  }

  /** A stretch holds every copy of a reaction, or none. */
  lemma StretchCounts(order: seq<Path>, rxns: seq<StoredReaction>, i: nat, j: nat, first: bool, a: nat, b: nat, r: StoredReaction)
    requires i <= j <= |order| && a <= b <= |rxns| && Boundary(order, rxns, j, b)
    requires if first then a == 0 else Boundary(order, rxns, i, a)
    ensures multiset(rxns[a..b])[r] == if CoveredBetween(order, i, j, first, r) then multiset(rxns)[r] else 0
  {
    forall k: nat | k < |rxns| ensures CoveredBetween(order, i, j, first, rxns[k]) <==> a <= k < b {
      StretchIsCovered(order, rxns, i, j, first, a, b, k);
    }
    CountsInStretch(rxns, a, b, r);
    if CoveredBetween(order, i, j, first, r) {
      assert r !in rxns[..a] && r !in rxns[b..];
    } else {
      assert r !in rxns[a..b];
    }
  }

  lemma PageHoldsExactly(order: seq<Path>, rxns: seq<StoredReaction>, gone: set<Path>, i: nat, j: nat, first: bool,
                         a: nat, b: nat, page: ThreadPage)
    requires Stored(order, rxns) && IsPage(order, rxns, gone, i, j, first, a, b, page) && (first ==> i == 0)
    ensures HoldsExactly(rxns, gone, first, page)
  {
    SliceIsSorted(rxns, a, b);
    ServedIsExact(rxns[a..b], gone);
    forall k: nat | k < |order| ensures order[k] != POST { NotThePost(order, k); }
    forall r: StoredReaction
      ensures multiset(page.reactions)[r] == if OnPage(page, first, r) && r.target !in gone then multiset(rxns)[r] else 0
    {
      StretchCounts(order, rxns, i, j, first, a, b, r);
      OnPageByCover(order, i, j, first, page, r);
    }
  }

  /** What getThread promises of a page that starts at the i-th comment. */
  ghost predicate PageFrom(order: seq<Path>, rxns: seq<StoredReaction>, gone: set<Path>, first: bool, page: ThreadPage,
                           i: nat, j: nat, a: nat, b: nat)
  {
    && IsPage(order, rxns, gone, i, j, first, a, b, page)
    && (if page.next.Some? then i < j && page.next.value == order[j - 1] else j == |order|)
  }

  /** The budget's cut: the cursor moves back to the last comment kept. */
  lemma CutPage(order: seq<Path>, rxns: seq<StoredReaction>, gone: set<Path>, first: bool, i: nat, j: nat, a: nat, b: nat,
                whole: ThreadPage, keep: nat, keepRxns: nat) returns (c: nat)
    requires Stored(order, rxns) && 1 <= keep && i + keep <= j && IsPage(order, rxns, gone, i, j, first, a, b, whole)
    requires SplitAt(whole.reactions, HighKey(order[i + keep - 1]), keepRxns)
    ensures PageFrom(order, rxns, gone, first,
                     ThreadPage(order[i..i + keep], whole.reactions[..keepRxns], Some(order[i + keep - 1])), i, i + keep, a, c)
  {
    c := BoundaryExists(order, rxns, i + keep - 1);
    if !first { BoundariesAscend(order, rxns, i, i + keep, a, c); }
    BoundariesAscend(order, rxns, i + keep, j, c, b);
    CutIsServed(order, rxns, gone, i + keep - 1, a, c, b, keepRxns);
  }

  /** A page's comments and what of its reactions is served, before the budget. */
  method GatherPage(order: seq<Path>, rxns: seq<StoredReaction>, gone: set<Path>, first: bool, start: nat, limit: nat, stop: nat,
                    eager: bool, pageLength: nat -> nat)
    returns (page: ThreadPage, ghost j: nat, ghost a: nat, ghost b: nat)
    requires Stored(order, rxns) && limit >= 1 && stop >= 1 && start <= |order| && (first ==> start == 0)
    ensures PageFrom(order, rxns, gone, first, page, start, j, a, b) && |page.comments| <= limit
  {
    var rows, next := ListComments(order, start, limit, stop, eager);
    var found;
    found, a, b := ListReactions(order, rxns, start, start + |rows|, first, pageLength);
    j := start + |rows|;
    FoundTargets(order, rxns, start, j, first, a, b);
    var served := WithoutDeletedTargets(rows, gone, found);
    page := ThreadPage(rows, served, next);
  }

  lemma ReadyToFit(order: seq<Path>, rxns: seq<StoredReaction>, gone: set<Path>, first: bool, page: ThreadPage,
                   i: nat, j: nat, a: nat, b: nat)
    requires Stored(order, rxns) && PageFrom(order, rxns, gone, first, page, i, j, a, b)
    ensures Fits(page.comments, page.reactions)
  {
    SliceIsSorted(rxns, a, b);
    ServedIsSorted(rxns[a..b], gone);
    forall m: nat, n: nat | m < n < |page.comments| ensures HighsInOrder(page.comments, m, n) { HighsAscend(order, i, j, m, n); }
    if page.comments != [] {
      var high := HighKey(order[j - 1]);
      forall k: nat | k < b - a ensures AtMost(rxns[a..b], k, high) {
        CoveredByHighKey(order, rxns, j - 1, a + k);
        assert Covered(order, rxns, j, a + k);
      }
      ServedAtMost(rxns[a..b], gone, high);
    }
  }

  /** A page of more than one comment is within the budget. */
  predicate WithinBudget(page: ThreadPage, commentCost: Path -> nat, reactionCost: StoredReaction -> nat, budget: nat) {
    |page.comments| > 1 ==> Total(page.comments, commentCost) + Total(page.reactions, reactionCost) <= budget
  }

  /** The budget's cut of a page, if it has one. */
  method CutToBudget(order: seq<Path>, rxns: seq<StoredReaction>, gone: set<Path>, first: bool, whole: ThreadPage,
                     commentCost: Path -> nat, reactionCost: StoredReaction -> nat, budget: nat,
                     ghost i: nat, ghost end: nat, ghost a: nat, ghost c: nat)
    returns (page: ThreadPage, ghost j: nat, ghost b: nat)
    requires Stored(order, rxns) && PageFrom(order, rxns, gone, first, whole, i, end, a, c)
    ensures PageFrom(order, rxns, gone, first, page, i, j, a, b) && |page.comments| <= |whole.comments|
    ensures WithinBudget(page, commentCost, reactionCost, budget)
    ensures page == whole
            || (|page.comments| < |whole.comments|
                && OneMoreIsTooMuch(whole.comments, whole.reactions, |page.comments|, commentCost, reactionCost, budget))
  {
    ReadyToFit(order, rxns, gone, first, whole, i, end, a, c);
    var keep, keepRxns := FitThreadPage(whole.comments, whole.reactions, commentCost, reactionCost, budget);
    page, j, b := whole, end, c;
    if keep < |whole.comments| {
      assert whole.comments[keep - 1] == order[i + keep - 1] && whole.comments[..keep] == order[i..i + keep];
      b := CutPage(order, rxns, gone, first, i, end, a, c, whole, keep, keepRxns);
      j := i + keep;
      page := ThreadPage(whole.comments[..keep], whole.reactions[..keepRxns], Some(whole.comments[keep - 1]));
    } else {
      assert whole.comments[..keep] == whole.comments && whole.reactions[..keepRxns] == whole.reactions;
    }
  }

  /** getThread: a page of comments, their reactions, what is on tombstones dropped, and the budget. */
  method GetThread(order: seq<Path>, rxns: seq<StoredReaction>, gone: set<Path>, cursor: Option<Path>, limit: nat, stop: nat,
                   eager: bool, pageLength: nat -> nat, commentCost: Path -> nat, reactionCost: StoredReaction -> nat, budget: nat)
    returns (page: ThreadPage, ghost i: nat, ghost j: nat, ghost a: nat, ghost b: nat)
    requires Stored(order, rxns) && limit >= 1 && stop >= 1
    ensures StartsAt(order, cursor, i) && PageFrom(order, rxns, gone, cursor.None?, page, i, j, a, b) && |page.comments| <= limit
    ensures HoldsExactly(rxns, gone, cursor.None?, page) && WithinBudget(page, commentCost, reactionCost, budget)
  {
    var start := FirstPast(order, cursor);
    i := start;
    var whole;
    ghost var end, c;
    whole, end, a, c := GatherPage(order, rxns, gone, cursor.None?, start, limit, stop, eager, pageLength);
    page, j, b := CutToBudget(order, rxns, gone, cursor.None?, whole, commentCost, reactionCost, budget, i, end, a, c);
    PageHoldsExactly(order, rxns, gone, i, j, cursor.None?, a, b, page);
  }

  function Comments(pages: seq<ThreadPage>): seq<Path> {
    if pages == [] then [] else pages[0].comments + Comments(pages[1..])
  }

  function Reactions(pages: seq<ThreadPage>): seq<StoredReaction> {
    if pages == [] then [] else pages[0].reactions + Reactions(pages[1..])
  }

  /** Pages got by following cursors, from the given one until there is none. */
  ghost predicate Followed(order: seq<Path>, rxns: seq<StoredReaction>, gone: set<Path>, pages: seq<ThreadPage>, cursor: Option<Path>)
    decreases |pages|
  {
    && pages != []
    && (exists i, j, a, b :: StartsAt(order, cursor, i) && PageFrom(order, rxns, gone, cursor.None?, pages[0], i, j, a, b))
    && if pages[0].next.None? then |pages| == 1 else Followed(order, rxns, gone, pages[1..], pages[0].next)
  }

  lemma BoundaryIsUnique(order: seq<Path>, rxns: seq<StoredReaction>, j: nat, m: nat, n: nat)
    requires Boundary(order, rxns, j, m) && Boundary(order, rxns, j, n)
    ensures m == n
  {
    BoundariesAscend(order, rxns, j, j, m, n);
    BoundariesAscend(order, rxns, j, j, n, m);
  }

  lemma Rejoin<T>(s: seq<T>, i: nat, j: nat)
    requires i <= j <= |s|
    ensures s[i..j] + s[j..] == s[i..]
  {
  }

  lemma {:induction false} RestOfTheReading(order: seq<Path>, rxns: seq<StoredReaction>, gone: set<Path>,
                                            pages: seq<ThreadPage>, cursor: Option<Path>, i: nat, a: nat)
    requires Stored(order, rxns) && Followed(order, rxns, gone, pages, cursor)
    requires if cursor.None? then i == 0 && a == 0
             else 1 <= i <= |order| && cursor.value == order[i - 1] && Boundary(order, rxns, i, a)
    ensures Comments(pages) == order[i..] && a <= |rxns| && Reactions(pages) == Served(rxns[a..], gone)
    decreases |pages|
  {
    var at: nat, j: nat, x: nat, b: nat :|
      StartsAt(order, cursor, at) && PageFrom(order, rxns, gone, cursor.None?, pages[0], at, j, x, b);
    if cursor.Some? {
      CursorResumes(order, i, at);
      BoundaryIsUnique(order, rxns, i, a, x);
    }
    Rejoin(order, i, j);
    Rejoin(rxns, a, b);
    ServedSplits(rxns[a..b], rxns[b..], gone);
    if pages[0].next.Some? {
      RestOfTheReading(order, rxns, gone, pages[1..], pages[0].next, j, b);
    } else {
      EverythingIsCovered(order, rxns);
      BoundaryIsUnique(order, rxns, j, b, |rxns|);
      assert pages[1..] == [];
    }
  }

  /** Following the cursors, with whatever page lengths and cuts, reads every comment once, in order, and every served reaction once. */
  lemma FollowingCursorsReadsTheThreadOnce(order: seq<Path>, rxns: seq<StoredReaction>, gone: set<Path>, pages: seq<ThreadPage>)
    requires Stored(order, rxns) && Followed(order, rxns, gone, pages, None)
    ensures Comments(pages) == order && Reactions(pages) == Served(rxns, gone) && KeptExactly(rxns, gone, Reactions(pages))
  {
    RestOfTheReading(order, rxns, gone, pages, None, 0, 0);
    assert order[0..] == order && rxns[0..] == rxns;
    ServedIsExact(rxns, gone);
  }
}
