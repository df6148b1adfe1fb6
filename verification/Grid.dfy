/** The rectangular map, its 4-neighbourhood, and walks over its FREE cells. */
module Grid {

  const FREE := 0
  const LOW_COVER := 1

  datatype Point = Point(x: int, y: int)

  /** `cells[x][y]` is a cell type; the strategy indexes it for every x < sizeX and y < sizeY. */
  datatype Board = Board(sizeX: nat, sizeY: nat, cells: seq<seq<int>>) {
    predicate Valid() {
      && |cells| == sizeX
      && forall x :: 0 <= x < sizeX ==> |cells[x]| == sizeY
    }

    predicate IsCorrect(p: Point) {
      0 <= p.x < sizeX && 0 <= p.y < sizeY
    }

    predicate Free(p: Point)
      requires Valid()
    {
      IsCorrect(p) && cells[p.x][p.y] == FREE
    }

    ghost function FreeSet(): set<Point>
      requires Valid()
    {
      set x, y | 0 <= x < sizeX && 0 <= y < sizeY && cells[x][y] == FREE :: Point(x, y)
    }
  }

  function Abs(n: int): nat {
    if n < 0 then -n else n
  }

  function Manhattan(p: Point, q: Point): nat {
    Abs(p.x - q.x) + Abs(p.y - q.y)
  }

  predicate HasNeigh(b: Board, p: Point, q: Point) {
    b.IsCorrect(q) && Abs(p.x - q.x) + Abs(p.y - q.y) == 1
  }

  /** Neighbours in the order the search tries them: left, up, right, down. */
  function Neighs(b: Board, p: Point): (result: seq<Point>)
    ensures b.IsCorrect(p) ==> forall q :: q in result <==> HasNeigh(b, p, q)
    ensures forall i, j :: 0 <= i < j < |result| ==> result[i] != result[j]
  {
    (if p.x - 1 >= 0 then [Point(p.x - 1, p.y)] else [])
    + (if p.y - 1 >= 0 then [Point(p.x, p.y - 1)] else [])
    + (if p.x + 1 < b.sizeX then [Point(p.x + 1, p.y)] else [])
    + (if p.y + 1 < b.sizeY then [Point(p.x, p.y + 1)] else [])
  }

  /** The order in which neighbours are tried: the two nearer to the origin come first, and of such
      a pair the horizontal one. Together with the members this determines the whole list. */
  predicate TriedBefore(p: Point, q: Point, r: Point) {
    q.x + q.y < r.x + r.y || (q.x + q.y == r.x + r.y && q.y == p.y && r.y != p.y)
  }

  lemma NeighsInOrder(b: Board, p: Point)
    requires b.IsCorrect(p)
    ensures var r := Neighs(b, p);
            && (forall i, j :: 0 <= i < |r| && 0 <= j < |r| ==> (i < j <==> TriedBefore(p, r[i], r[j])))
            && (forall q :: q in r <==> 0 <= q.x < b.sizeX && 0 <= q.y < b.sizeY &&
                                        q in {Point(p.x - 1, p.y), Point(p.x, p.y - 1),
                                              Point(p.x + 1, p.y), Point(p.x, p.y + 1)})
  {
  }

  // ---- Walks ----

  ghost predicate Linked(w: seq<Point>, t: nat)
    requires t + 1 < |w|
  {
    Manhattan(w[t], w[t + 1]) == 1
  }

  /** A walk takes at least one step; its length is |w| - 1. */
  ghost predicate IsWalk(b: Board, w: seq<Point>, i: Point, j: Point)
    requires b.Valid()
  {
    && |w| >= 2
    && w[0] == i
    && w[|w| - 1] == j
    && (forall t :: 0 <= t < |w| ==> b.Free(w[t]))
    && (forall t :: 0 <= t < |w| - 1 ==> Linked(w, t))
  }

  ghost predicate HasWalk(b: Board, i: Point, j: Point, n: nat)
    requires b.Valid()
  {
    exists w :: IsWalk(b, w, i, j) && |w| == n + 1
  }

  /** The walk that continues `u` by `w`, which starts where `u` ends. */
  ghost function Join(u: seq<Point>, w: seq<Point>): seq<Point>
    requires |u| >= 1 && |w| >= 1
  {
    u + w[1..]
  }

  lemma JoinWalks(b: Board, u: seq<Point>, w: seq<Point>, i: Point, k: Point, j: Point)
    requires b.Valid() && IsWalk(b, u, i, k) && IsWalk(b, w, k, j)
    ensures IsWalk(b, Join(u, w), i, j)
    ensures |Join(u, w)| - 1 == (|u| - 1) + (|w| - 1)
  {
    var v := Join(u, w);
    forall t | 0 <= t < |v| - 1 ensures Linked(v, t) {
      if t < |u| - 1 {
        assert Linked(u, t);
      } else {
        assert Linked(w, t - (|u| - 1));
      }
    }
  }

  ghost function Backwards(w: seq<Point>): seq<Point> {
    seq(|w|, t requires 0 <= t < |w| => w[|w| - 1 - t])
  }

  lemma ReverseWalk(b: Board, w: seq<Point>, i: Point, j: Point)
    requires b.Valid() && IsWalk(b, w, i, j)
    ensures IsWalk(b, Backwards(w), j, i)
  {
    var v := Backwards(w);
    forall t | 0 <= t < |v| - 1 ensures Linked(v, t) {
      assert Linked(w, |w| - 2 - t);
    }
  }

  lemma SubWalk(b: Board, w: seq<Point>, i: Point, j: Point, lo: nat, hi: nat)
    requires b.Valid() && IsWalk(b, w, i, j) && lo < hi < |w|
    ensures IsWalk(b, w[lo..hi + 1], w[lo], w[hi])
  {
    var v := w[lo..hi + 1];
    forall t | 0 <= t < |v| - 1 ensures Linked(v, t) {
      assert Linked(w, lo + t);
    }
  }

  /** A walk is never shorter than the Manhattan distance and has its parity. */
  lemma {:induction false} WalkParity(b: Board, w: seq<Point>, i: Point, j: Point)
    requires b.Valid() && IsWalk(b, w, i, j)
    ensures Manhattan(i, j) <= |w| - 1
    ensures (|w| - 1 - Manhattan(i, j)) % 2 == 0
    decreases |w|
  {
    var n := |w| - 2;
    assert Linked(w, n);
    if n > 0 {
      SubWalk(b, w, i, j, 0, n);
      WalkParity(b, w[0..n + 1], i, w[n]);
      assert Manhattan(i, j) == Manhattan(i, w[n]) + 1 || Manhattan(i, j) == Manhattan(i, w[n]) - 1;
    }
  }

  /** No point repeats, except that a closed walk ends where it starts. */
  ghost predicate Simple(w: seq<Point>) {
    forall s, t :: 0 <= s < t < |w| && (s, t) != (0, |w| - 1) ==> w[s] != w[t]
  }

  ghost predicate Inner(w: seq<Point>, allowed: set<Point>) {
    forall t :: 0 < t < |w| - 1 ==> w[t] in allowed
  }

  /** Cuts the detour between two visits `s` and `t` of the same point. */
  lemma Cut(b: Board, w: seq<Point>, i: Point, j: Point, allowed: set<Point>, s: nat, t: nat)
    returns (v: seq<Point>)
    requires b.Valid() && IsWalk(b, w, i, j) && Inner(w, allowed)
    requires s < t < |w| && (s, t) != (0, |w| - 1) && w[s] == w[t]
    ensures IsWalk(b, v, i, j) && Inner(v, allowed) && |v| < |w|
  {
    if s == 0 {
      SubWalk(b, w, i, j, t, |w| - 1);
      v := w[t..|w|];
    } else if t == |w| - 1 {
      SubWalk(b, w, i, j, 0, s);
      v := w[0..s + 1];
    } else {
      SubWalk(b, w, i, j, 0, s);
      SubWalk(b, w, i, j, t, |w| - 1);
      JoinWalks(b, w[0..s + 1], w[t..|w|], i, w[s], j);
      v := Join(w[0..s + 1], w[t..|w|]);
    }
  }

  /** Cutting out closed detours leaves a simple walk between the same endpoints. */
  lemma {:induction false} Shorten(b: Board, w: seq<Point>, i: Point, j: Point, allowed: set<Point>)
    returns (v: seq<Point>)
    requires b.Valid() && IsWalk(b, w, i, j) && Inner(w, allowed)
    ensures IsWalk(b, v, i, j) && Inner(v, allowed) && Simple(v) && |v| <= |w|
    decreases |w|
  {
    if Simple(w) {
      v := w;
    } else {
      var s, t :| 0 <= s < t < |w| && (s, t) != (0, |w| - 1) && w[s] == w[t];
      v := Cut(b, w, i, j, allowed, s, t);
      v := Shorten(b, v, i, j, allowed);
    }
  }

  lemma {:induction false} DistinctFit(s: seq<Point>, all: set<Point>)
    requires forall i, j :: 0 <= i < j < |s| ==> s[i] != s[j]
    requires forall p <- s :: p in all
    ensures |s| <= |all|
    decreases |s|
  {
    if s != [] {
      var last := s[|s| - 1];
      DistinctFit(s[..|s| - 1], all - {last});
    }
  }

  /** A simple walk visits each FREE cell at most once after its start. */
  lemma SimpleLength(b: Board, w: seq<Point>, i: Point, j: Point)
    requires b.Valid() && IsWalk(b, w, i, j) && Simple(w)
    ensures |w| - 1 <= |b.FreeSet()|
  {
    var s := w[1..];
    forall p <- s ensures p in b.FreeSet() {
      assert b.Free(p);
      assert p == Point(p.x, p.y);
    }
    DistinctFit(s, b.FreeSet());
  }
}
