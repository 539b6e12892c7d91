/**
 * Materialized comment paths: a comment's place in the tree written as a
 * string, so that one partition's key order is the thread's reading order.
 */
module CommentPaths {
  import opened SortKeys

  /** A place in the tree: the reply number at each level. */
  type Path = seq<nat>

  const SEGMENT_LIMIT: nat := 10_000
  const MAX_DEPTH := 8

  /** Segments four digits can print; 0 appears only in the post-level reaction target. */
  predicate Printable(p: Path) {
    |p| >= 1 && forall i :: 0 <= i < |p| ==> p[i] < SEGMENT_LIMIT
  }

  predicate ValidCommentPath(p: Path) {
    Printable(p) && |p| <= MAX_DEPTH && forall i :: 0 <= i < |p| ==> p[i] >= 1
  }

  lemma FourDigits()
    ensures Pow10(4) == SEGMENT_LIMIT
  {
    assert Pow10(2) == 100;
  }

  function Segment(n: nat): string { Digits(n, 4) }

  /** "0003.0001.0002" */
  function PathString(p: Path): string {
    if p == [] then "" else if |p| == 1 then Segment(p[0]) else Segment(p[0]) + "." + PathString(p[1..])
  }

  // ----- reading order -----

  /** Depth-first order, by position in the tree: an ancestor first, then by the first differing reply number. */
  ghost predicate ReadsBefore(p: Path, q: Path) {
    (|p| < |q| && q[..|p|] == p) || exists k :: DivergesAt(p, q, k)
  }

  predicate DivergesAt(p: Path, q: Path, k: int) {
    0 <= k < |p| && k < |q| && p[..k] == q[..k] && p[k] < q[k]
  }

  lemma ReadsBeforeUnfolds(p: Path, q: Path)
    requires p != [] && q != []
    ensures ReadsBefore(p, q) <==> p[0] < q[0] || (p[0] == q[0] && q[1..] != [] && (p[1..] == [] || ReadsBefore(p[1..], q[1..])))
  {
    if k :| DivergesAt(p, q, k) {
      if k > 0 {
        assert p[0] == p[..k][0] == q[..k][0] == q[0];
        assert p[1..][..k - 1] == p[..k][1..] && q[1..][..k - 1] == q[..k][1..];
        assert DivergesAt(p[1..], q[1..], k - 1);
      }
    }
    if |p| < |q| && q[..|p|] == p {
      assert q[1..][..|p| - 1] == q[..|p|][1..];
      assert p[0] == q[..|p|][0];
    }
    if p[0] < q[0] { assert DivergesAt(p, q, 0); }
    if p[0] == q[0] && p[1..] != [] && q[1..] != [] && ReadsBefore(p[1..], q[1..]) {
      if k :| DivergesAt(p[1..], q[1..], k) {
        assert p[..k + 1] == [p[0]] + p[1..][..k] && q[..k + 1] == [q[0]] + q[1..][..k];
        assert DivergesAt(p, q, k + 1);
      } else {
        assert q[..|p|] == [q[0]] + q[1..][..|p| - 1];
        assert p == [p[0]] + p[1..];
      }
    }
    if p[0] == q[0] && p[1..] == [] && q[1..] != [] {
      assert q[..1] == [q[0]] == p;
    }
  }

  lemma ReadsBeforeIsTotal(p: Path, q: Path)
    ensures p == q || ReadsBefore(p, q) || ReadsBefore(q, p)
    ensures !(ReadsBefore(p, q) && ReadsBefore(q, p)) && !ReadsBefore(p, p)
  {
    if p != [] && q != [] {
      ReadsBeforeUnfolds(p, q);
      ReadsBeforeUnfolds(q, p);
      ReadsBeforeUnfolds(p, p);
      assert p == [p[0]] + p[1..] && q == [q[0]] + q[1..];
      ReadsBeforeIsTotal(p[1..], q[1..]);
    } else {
      if k :| DivergesAt(p, p, k) { assert false; }
    }
  }

  // ----- string order is reading order -----

  /** A suffix that sorts ahead of any descendant: nothing, "#..." or "$". */
  predicate Closing(x: string) { x == "" || x[0] < '.' }

  function Tail(p: Path, x: string): string
    requires p != []
  {
    if |p| == 1 then x else "." + (PathString(p[1..]) + x)
  }

  lemma SplitsAtSegment(p: Path, x: string)
    requires p != []
    ensures PathString(p) + x == Segment(p[0]) + Tail(p, x)
  {
  }

  lemma SegmentOrder(a: nat, b: nat, x: string, y: string)
    requires a < SEGMENT_LIMIT && b < SEGMENT_LIMIT && a != b
    ensures Before(Segment(a) + x, Segment(b) + y) <==> a < b
  {
    FourDigits();
    if a < b {
      DigitsKeepOrder(a, b, 4);
      BeforeByHead(Segment(a), Segment(b), x, y);
    } else {
      DigitsKeepOrder(b, a, 4);
      BeforeByHead(Segment(b), Segment(a), y, x);
      BeforeIsTotal(Segment(a) + x, Segment(b) + y);
    }
  }

  lemma ClosingSortsAheadOfDot(x: string, u: string)
    requires Closing(x)
    ensures Before(x, "." + u) && !Before("." + u, x)
  {
    assert ("." + u)[0] == '.';
  }

  /** Equal first segments: the order is decided by what follows them. */
  lemma TailOrder(p: Path, q: Path, x: string, y: string)
    requires p != [] && q != [] && Closing(x) && Closing(y)
    ensures |p| == 1 && |q| > 1 ==> Before(Tail(p, x), Tail(q, y))
    ensures |p| > 1 && |q| == 1 ==> !Before(Tail(p, x), Tail(q, y))
    ensures |p| > 1 && |q| > 1 ==>
              (Before(Tail(p, x), Tail(q, y)) <==> Before(PathString(p[1..]) + x, PathString(q[1..]) + y))
  {
    var u, v := PathString(p[1..]) + x, PathString(q[1..]) + y;
    ClosingSortsAheadOfDot(x, v);
    ClosingSortsAheadOfDot(y, u);
    BeforeAfterHead(".", u, v);
  }

  /** Key order of two places is their reading order, whatever closing suffixes the keys carry. */
  lemma {:induction false} KeyOrderIsReadingOrder(p: Path, q: Path, x: string, y: string)
    requires Printable(p) && Printable(q) && p != q
    requires Closing(x) && Closing(y)
    ensures Before(PathString(p) + x, PathString(q) + y) <==> ReadsBefore(p, q)
  {
    SplitsAtSegment(p, x);
    SplitsAtSegment(q, y);
    ReadsBeforeUnfolds(p, q);
    if p[0] != q[0] {
      SegmentOrder(p[0], q[0], Tail(p, x), Tail(q, y));
    } else {
      BeforeAfterHead(Segment(p[0]), Tail(p, x), Tail(q, y));
      TailOrder(p, q, x, y);
      if |p| > 1 && |q| > 1 {
        assert p == [p[0]] + p[1..] && q == [q[0]] + q[1..];
        KeyOrderIsReadingOrder(p[1..], q[1..], x, y);
      }
    }
  }

  lemma SegmentsAreInjective(a: nat, b: nat)
    requires a < SEGMENT_LIMIT && b < SEGMENT_LIMIT && Segment(a) == Segment(b)
    ensures a == b
  {
    FourDigits();
    ParseDigits(a, 4);
    ParseDigits(b, 4);
  }

  lemma PathStringsAreInjective(p: Path, q: Path)
    requires Printable(p) && Printable(q) && PathString(p) == PathString(q)
    ensures p == q
  {
    if p != q {
      KeyOrderIsReadingOrder(p, q, "", "");
      KeyOrderIsReadingOrder(q, p, "", "");
      assert PathString(p) + "" == PathString(q) + "";
      ReadsBeforeIsTotal(p, q);
      BeforeIsTotal(PathString(p) + "", PathString(q) + "");
    }
  }

  // ----- begins_with -----

  predicate Below(parent: Path, p: Path) { |parent| < |p| && p[..|parent|] == parent }

  /** What every key beneath a parent begins with, "" being the top of the thread. */
  function ChildPrefix(parent: Path): string {
    if parent == [] then "" else PathString(parent) + "."
  }

  lemma ChildPrefixUnfolds(parent: Path)
    requires parent != []
    ensures ChildPrefix(parent) == Segment(parent[0]) + ("." + ChildPrefix(parent[1..]))
  {
    if |parent| > 1 {
      assert PathString(parent) == Segment(parent[0]) + "." + PathString(parent[1..]);
    }
  }

  lemma PathStringUnfolds(p: Path)
    requires |p| > 1
    ensures PathString(p) == Segment(p[0]) + ("." + PathString(p[1..]))
  {
  }

  lemma PrefixAfterHead(a: string, b: string, u: string, v: string)
    requires |a| == |b|
    ensures a + u <= b + v <==> a == b && u <= v
  {
    var s, t := a + u, b + v;
    assert s[..|a|] == a && t[..|a|] == b && s[|a|..] == u && t[|a|..] == v;
    if s <= t {
      assert s == t[..|s|];
      assert a == t[..|s|][..|a|] == b;
      assert u == t[..|s|][|a|..] == t[|a|..][..|u|];
    }
  }

  lemma BelowUnfolds(parent: Path, p: Path)
    requires parent != [] && p != []
    ensures Below(parent, p) <==> parent[0] == p[0] && Below(parent[1..], p[1..])
    ensures |parent| < |p| ==> p[1..][|parent| - 1..] == p[|parent|..]
  {
    if |parent| < |p| {
      assert p[..|parent|] == [p[0]] + p[1..][..|parent| - 1];
      assert parent == [parent[0]] + parent[1..];
      assert p[1..][|parent| - 1..] == p[|parent|..];
      if Below(parent, p) {
        assert p[1..][..|parent| - 1] == parent[1..];
      }
    }
  }

  /** begins_with(key, prefix) selects exactly the descendants. */
  lemma {:induction false} PrefixSelectsDescendants(parent: Path, p: Path)
    requires (parent == [] || Printable(parent)) && Printable(p)
    ensures ChildPrefix(parent) <= PathString(p) <==> Below(parent, p)
  {
    if parent == [] {
      assert p[..0] == [];
    } else if |p| == 1 {
      ChildPrefixUnfolds(parent);
      assert |ChildPrefix(parent)| > 4 && |PathString(p)| == 4;
    } else {
      var u, v := ChildPrefix(parent[1..]), PathString(p[1..]);
      PrefixSelectsDescendants(parent[1..], p[1..]);
      HeadsDecide(parent, p, u, v);
    }
  }

  lemma HeadsDecide(parent: Path, p: Path, u: string, v: string)
    requires parent != [] && Printable(parent) && |p| > 1 && Printable(p)
    requires u == ChildPrefix(parent[1..]) && v == PathString(p[1..])
    requires u <= v <==> Below(parent[1..], p[1..])
    ensures ChildPrefix(parent) <= PathString(p) <==> Below(parent, p)
  {
    ChildPrefixUnfolds(parent);
    PathStringUnfolds(p);
    BelowUnfolds(parent, p);
    PrefixAfterHead(Segment(parent[0]), Segment(p[0]), "." + u, "." + v);
    PrefixAfterHead(".", ".", u, v);
    if Segment(parent[0]) == Segment(p[0]) {
      SegmentsAreInjective(parent[0], p[0]);
    }
  }

  /** What follows the prefix is the rest of the path. */
  lemma {:induction false} PathStringSplits(parent: Path, p: Path)
    requires Below(parent, p)
    ensures PathString(p) == ChildPrefix(parent) + PathString(p[|parent|..])
  {
    if parent == [] {
      assert p[0..] == p;
    } else {
      BelowUnfolds(parent, p);
      PathStringSplits(parent[1..], p[1..]);
      ChildPrefixUnfolds(parent);
      PathStringUnfolds(p);
      var u, r := ChildPrefix(parent[1..]), PathString(p[|parent|..]);
      assert Segment(p[0]) + ("." + (u + r)) == Segment(p[0]) + ("." + u) + r;
    }
  }
}
