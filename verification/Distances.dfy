/** The all-pairs table: what it should hold, and the in-place loops that fill it. */
module Distances {
  import opened Grid

  const INF := 1_000_000_000
  const INT_MAX := 0x7fff_ffff

  /** The map has so few FREE cells that no distance is mistaken for INF. */
  ghost predicate Countable(b: Board)
    requires b.Valid()
  {
    |b.FreeSet()| < INF
  }

  // ---- Specification: shortest nonempty walks ----

  ghost predicate Connected(b: Board, i: Point, j: Point)
    requires b.Valid()
  {
    exists n: nat :: HasWalk(b, i, j, n)
  }

  ghost predicate IsLeast(b: Board, i: Point, j: Point, n: nat)
    requires b.Valid()
  {
    HasWalk(b, i, j, n) && forall m: nat :: HasWalk(b, i, j, m) ==> n <= m
  }

  lemma {:induction false} LeastExists(b: Board, i: Point, j: Point, n: nat)
    requires b.Valid() && HasWalk(b, i, j, n)
    ensures exists m: nat :: IsLeast(b, i, j, m)
  {
    if m: nat :| m < n && HasWalk(b, i, j, m) {
      LeastExists(b, i, j, m);
    } else {
      assert IsLeast(b, i, j, n);
    }
  }

  /** Length of a shortest walk of at least one step, INF when there is none.
      In particular the distance from a cell to itself is not 0. */
  ghost function Dist(b: Board, i: Point, j: Point): (d: int)
    requires b.Valid()
    ensures Connected(b, i, j) ==> d >= 0 && IsLeast(b, i, j, d)
    ensures !Connected(b, i, j) ==> d == INF
  {
    if Connected(b, i, j) then
      var n: nat :| HasWalk(b, i, j, n);
      LeastExists(b, i, j, n);
      var m: nat :| IsLeast(b, i, j, m);
      m
    else
      INF
  }

  lemma DistAtMost(b: Board, w: seq<Point>, i: Point, j: Point)
    requires b.Valid() && IsWalk(b, w, i, j)
    ensures Connected(b, i, j) && Dist(b, i, j) <= |w| - 1
  {
    assert HasWalk(b, i, j, |w| - 1);
  }

  lemma DistWalk(b: Board, i: Point, j: Point) returns (w: seq<Point>)
    requires b.Valid() && Connected(b, i, j)
    ensures IsWalk(b, w, i, j) && |w| - 1 == Dist(b, i, j)
  {
    w :| IsWalk(b, w, i, j) && |w| == Dist(b, i, j) + 1;
  }

  // ---- Properties of the distance ----

  lemma DistSymmetric(b: Board, i: Point, j: Point)
    requires b.Valid()
    ensures Dist(b, i, j) == Dist(b, j, i)
  {
    if Connected(b, i, j) {
      DistSymmetricLe(b, i, j);
    }
    if Connected(b, j, i) {
      DistSymmetricLe(b, j, i);
    }
  }

  lemma DistSymmetricLe(b: Board, i: Point, j: Point)
    requires b.Valid() && Connected(b, i, j)
    ensures Connected(b, j, i) && Dist(b, j, i) <= Dist(b, i, j)
  {
    var w := DistWalk(b, i, j);
    ReverseWalk(b, w, i, j);
    DistAtMost(b, Backwards(w), j, i);
  }

  lemma DistTriangle(b: Board, i: Point, k: Point, j: Point)
    requires b.Valid() && Connected(b, i, k) && Connected(b, k, j)
    ensures Connected(b, i, j)
    ensures Dist(b, i, j) <= Dist(b, i, k) + Dist(b, k, j)
  {
    var u := DistWalk(b, i, k);
    var w := DistWalk(b, k, j);
    JoinWalks(b, u, w, i, k, j);
    DistAtMost(b, Join(u, w), i, j);
  }

  lemma DistBounds(b: Board, i: Point, j: Point)
    requires b.Valid() && Connected(b, i, j)
    ensures 1 <= Dist(b, i, j) <= |b.FreeSet()|
    ensures Manhattan(i, j) <= Dist(b, i, j)
    ensures (Dist(b, i, j) - Manhattan(i, j)) % 2 == 0
  {
    var w := DistWalk(b, i, j);
    WalkParity(b, w, i, j);
    var v := Shorten(b, w, i, j, set p <- w);
    SimpleLength(b, v, i, j);
    DistAtMost(b, v, i, j);
  }

  /** Any walk is at least as long as the distance, by an even number of steps. */
  lemma WalkAgrees(b: Board, w: seq<Point>, i: Point, j: Point)
    requires b.Valid() && IsWalk(b, w, i, j)
    ensures 1 <= Dist(b, i, j) <= |w| - 1 && (|w| - 1 - Dist(b, i, j)) % 2 == 0
  {
    DistAtMost(b, w, i, j);
    DistBounds(b, i, j);
    WalkParity(b, w, i, j);
    SameParity(|w| - 1, Dist(b, i, j), Manhattan(i, j));
  }

  lemma SameParity(m: int, d: int, n: int)
    requires (m - n) % 2 == 0 && (d - n) % 2 == 0
    ensures (m - d) % 2 == 0
  {
  }

  /** A FREE cell is at distance 2 from itself, unless it has no FREE neighbour at all. */
  lemma DistDiagonal(b: Board, i: Point)
    requires b.Valid() && b.Free(i)
    ensures if exists q :: HasNeigh(b, i, q) && b.Free(q) then Dist(b, i, i) == 2
            else Dist(b, i, i) == INF
  {
    if Connected(b, i, i) {
      var w := DistWalk(b, i, i);
      assert Linked(w, 0);
      assert HasNeigh(b, i, w[1]) && b.Free(w[1]);
    }
    if q :| HasNeigh(b, i, q) && b.Free(q) {
      var w := [i, q, i];
      assert Linked(w, 0) && Linked(w, 1);
      assert IsWalk(b, w, i, i);
      DistAtMost(b, w, i, i);
      DistBounds(b, i, i);
    }
  }

  // ---- The recurrence of the loops, phase by phase ----

  function Min(m: int, n: int): int {
    if m <= n then m else n
  }

  /** The two-table form: entry (i, j) after the first `k` points have served as midpoints. */
  ghost function Phase(b: Board, points: seq<Point>, k: nat, i: Point, j: Point): (d: int)
    requires b.Valid() && k <= |points|
    ensures 1 <= d <= INF
    decreases k
  {
    if k == 0 then
      if b.Free(i) && b.Free(j) && Manhattan(i, j) == 1 then 1 else INF
    else
      var p := points[k - 1];
      var direct := Phase(b, points, k - 1, i, j);
      var left := Phase(b, points, k - 1, i, p);
      var right := Phase(b, points, k - 1, p, j);
      if left == INF || right == INF then direct else Min(direct, left + right)
  }

  ghost function Firsts(points: seq<Point>, k: nat): set<Point>
    requires k <= |points|
  {
    set p <- points[..k]
  }

  lemma {:induction false} PhaseSound(b: Board, points: seq<Point>, k: nat, i: Point, j: Point)
    returns (w: seq<Point>)
    requires b.Valid() && k <= |points| && Phase(b, points, k, i, j) < INF
    ensures IsWalk(b, w, i, j) && Inner(w, Firsts(points, k)) && |w| - 1 == Phase(b, points, k, i, j)
    decreases k
  {
    if k == 0 {
      w := [i, j];
      assert Linked(w, 0);
    } else if Phase(b, points, k, i, j) == Phase(b, points, k - 1, i, j) {
      w := PhaseSound(b, points, k - 1, i, j);
    } else {
      var p := points[k - 1];
      var u := PhaseSound(b, points, k - 1, i, p);
      var v := PhaseSound(b, points, k - 1, p, j);
      JoinWalks(b, u, v, i, p, j);
      w := Join(u, v);
      assert p in Firsts(points, k);
    }
  }

  /** A simple walk through the newest point splits there into two walks that avoid it. */
  lemma SplitAtPivot(b: Board, points: seq<Point>, k: nat, v: seq<Point>, i: Point, j: Point, t: nat)
    requires b.Valid() && 0 < k <= |points|
    requires IsWalk(b, v, i, j) && Inner(v, Firsts(points, k)) && Simple(v)
    requires 0 < t < |v| - 1 && v[t] == points[k - 1]
    ensures IsWalk(b, v[0..t + 1], i, points[k - 1]) && Inner(v[0..t + 1], Firsts(points, k - 1))
    ensures IsWalk(b, v[t..|v|], points[k - 1], j) && Inner(v[t..|v|], Firsts(points, k - 1))
  {
    SubWalk(b, v, i, j, 0, t);
    SubWalk(b, v, i, j, t, |v| - 1);
    assert forall p :: p in Firsts(points, k) && p != points[k - 1] ==> p in Firsts(points, k - 1);
    assert forall s :: 0 < s < |v| - 1 && s != t ==> v[s] != v[t];
  }

  lemma {:induction false} PhaseComplete(b: Board, points: seq<Point>, k: nat,
                                         w: seq<Point>, i: Point, j: Point)
    requires b.Valid() && k <= |points| && Countable(b)
    requires IsWalk(b, w, i, j) && Inner(w, Firsts(points, k))
    ensures Phase(b, points, k, i, j) < INF
    ensures Phase(b, points, k, i, j) <= |w| - 1
    ensures Phase(b, points, k, i, j) <= |b.FreeSet()|
    decreases k
  {
    var v := Shorten(b, w, i, j, Firsts(points, k));
    SimpleLength(b, v, i, j);
    if k == 0 {
      var last := v[|v| - 2];
      assert last !in Firsts(points, 0);
      assert Linked(v, 0);
    } else {
      var p := points[k - 1];
      if t :| 0 < t < |v| - 1 && v[t] == p {
        SplitAtPivot(b, points, k, v, i, j, t);
        PhaseComplete(b, points, k - 1, v[0..t + 1], i, p);
        PhaseComplete(b, points, k - 1, v[t..|v|], p, j);
      } else {
        PhaseComplete(b, points, k - 1, v, i, j);
      }
    }
  }

  /** Invariant of the outer loop: the entry is the length of a shortest walk whose inner
      points are among the first `k` points, INF iff there is no such walk. */
  lemma PhaseIsShortest(b: Board, points: seq<Point>, k: nat, i: Point, j: Point)
    requires b.Valid() && k <= |points| && Countable(b)
    ensures Phase(b, points, k, i, j) < INF <==>
            exists w :: IsWalk(b, w, i, j) && Inner(w, Firsts(points, k))
    ensures Phase(b, points, k, i, j) < INF ==>
            exists w :: IsWalk(b, w, i, j) && Inner(w, Firsts(points, k))
                        && |w| - 1 == Phase(b, points, k, i, j)
    ensures forall w :: IsWalk(b, w, i, j) && Inner(w, Firsts(points, k)) ==>
                          Phase(b, points, k, i, j) <= |w| - 1
  {
    if Phase(b, points, k, i, j) < INF {
      var w := PhaseSound(b, points, k, i, j);
    }
    forall w | IsWalk(b, w, i, j) && Inner(w, Firsts(points, k))
      ensures Phase(b, points, k, i, j) <= |w| - 1 && Phase(b, points, k, i, j) < INF
    {
      PhaseComplete(b, points, k, w, i, j);
    }
  }

  lemma LastPhaseIsDist(b: Board, points: seq<Point>, i: Point, j: Point)
    requires b.Valid() && Countable(b)
    requires forall p :: b.Free(p) ==> p in points
    ensures Phase(b, points, |points|, i, j) == Dist(b, i, j)
  {
    var n := |points|;
    if Phase(b, points, n, i, j) < INF {
      var w := PhaseSound(b, points, n, i, j);
      DistAtMost(b, w, i, j);
    }
    if Connected(b, i, j) {
      var w := DistWalk(b, i, j);
      assert Inner(w, Firsts(points, n));
      PhaseComplete(b, points, n, w, i, j);
    }
  }

  /** Phase `k` leaves its own row and column alone: why one table is enough. */
  lemma PivotUnchanged(b: Board, points: seq<Point>, k: nat, i: Point, j: Point)
    requires b.Valid() && k < |points|
    ensures Phase(b, points, k + 1, i, points[k]) == Phase(b, points, k, i, points[k])
    ensures Phase(b, points, k + 1, points[k], j) == Phase(b, points, k, points[k], j)
  {
  }

  /** The sums the loops form stay within a 32-bit int. */
  lemma SumsFitInt(b: Board, points: seq<Point>, k: nat, i: Point, j: Point)
    requires b.Valid() && k < |points| && Countable(b)
    requires Phase(b, points, k, i, points[k]) < INF && Phase(b, points, k, points[k], j) < INF
    ensures Phase(b, points, k, i, points[k]) + Phase(b, points, k, points[k], j) <= 2 * |b.FreeSet()| <= INT_MAX
  {
    var u := PhaseSound(b, points, k, i, points[k]);
    PhaseComplete(b, points, k, u, i, points[k]);
    var v := PhaseSound(b, points, k, points[k], j);
    PhaseComplete(b, points, k, v, points[k], j);
  }

  lemma {:induction false} CoveredStaysInf(b: Board, points: seq<Point>, k: nat, i: Point, j: Point)
    requires b.Valid() && k <= |points| && !(b.Free(i) && b.Free(j))
    ensures Phase(b, points, k, i, j) == INF
    decreases k
  {
    if k > 0 {
      CoveredStaysInf(b, points, k - 1, i, j);
      if b.Free(i) {
        CoveredStaysInf(b, points, k - 1, points[k - 1], j);
      } else {
        CoveredStaysInf(b, points, k - 1, i, points[k - 1]);
      }
    }
  }

  // ---- The loops ----

  predicate Fits(t: array4<int>, b: Board) {
    t.Length0 == b.sizeX && t.Length1 == b.sizeY && t.Length2 == b.sizeX && t.Length3 == b.sizeY
  }

  function At2(t: array4<int>, b: Board, p: Point, q: Point): int
    requires Fits(t, b) && b.IsCorrect(p) && b.IsCorrect(q)
    reads t
  {
    t[p.x, p.y, q.x, q.y]
  }

  ghost predicate Holds(t: array4<int>, b: Board)
    requires b.Valid()
    reads t
  {
    && Fits(t, b)
    && forall i, j :: b.IsCorrect(i) && b.IsCorrect(j) ==> At2(t, b, i, j) == Dist(b, i, j)
  }

  method SetAt2(t: array4<int>, b: Board, p: Point, q: Point, v: int)
    requires Fits(t, b) && b.IsCorrect(p) && b.IsCorrect(q)
    modifies t
    ensures At2(t, b, p, q) == v
    ensures forall i, j :: b.IsCorrect(i) && b.IsCorrect(j) && (i, j) != (p, q) ==>
                             At2(t, b, i, j) == old(At2(t, b, i, j))
  {
    t[p.x, p.y, q.x, q.y] := v;
  }

  /** The FREE cells, column by column. */
  method FreePoints(b: Board) returns (points: seq<Point>)
    requires b.Valid()
    ensures forall p :: p in points <==> b.Free(p)
    ensures forall i, j :: 0 <= i < j < |points| ==>
      points[i].x < points[j].x || (points[i].x == points[j].x && points[i].y < points[j].y)
  {
    points := [];
    for x := 0 to b.sizeX
      invariant forall p :: p in points <==> b.Free(p) && p.x < x
      invariant forall i, j :: 0 <= i < j < |points| ==>
        points[i].x < points[j].x || (points[i].x == points[j].x && points[i].y < points[j].y)
    {
      for y := 0 to b.sizeY
        invariant forall p :: p in points <==> b.Free(p) && (p.x < x || (p.x == x && p.y < y))
        invariant forall i, j :: 0 <= i < j < |points| ==>
          points[i].x < points[j].x || (points[i].x == points[j].x && points[i].y < points[j].y)
      {
        if b.cells[x][y] == FREE {
          points := points + [Point(x, y)];
        }
      }
    }
  }

  /** Entries the seeding loops have reached: all of the first `m` points' neighbours,
      and the first `n` neighbours of the next point. */
  ghost predicate Seeded(b: Board, points: seq<Point>, m: nat, n: nat, i: Point, j: Point)
    requires b.Valid() && m <= |points|
    requires m < |points| ==> n <= |Neighs(b, points[m])|
  {
    && b.Free(j)
    && (|| (i in points[..m] && j in Neighs(b, i))
        || (m < |points| && i == points[m] && j in Neighs(b, points[m])[..n]))
  }

  ghost predicate SeedTable(t: array4<int>, b: Board, points: seq<Point>, m: nat, n: nat)
    requires b.Valid() && m <= |points|
    requires m < |points| ==> n <= |Neighs(b, points[m])|
    reads t
  {
    && Fits(t, b)
    && forall i, j :: b.IsCorrect(i) && b.IsCorrect(j) ==>
         At2(t, b, i, j) == if Seeded(b, points, m, n, i, j) then 1 else INF
  }

  /** Entries phase `k` has reached: rows of the first `m` points, and the first `n`
      columns of the next point's row. */
  ghost predicate Done(points: seq<Point>, m: nat, n: nat, i: Point, j: Point)
    requires m <= |points| && n <= |points|
  {
    i in points[..m] || (m < |points| && i == points[m] && j in points[..n])
  }

  ghost function Level(points: seq<Point>, k: nat, m: nat, n: nat, i: Point, j: Point): (level: nat)
    requires k < |points| && m <= |points| && n <= |points|
    ensures level <= |points|
  {
    if Done(points, m, n, i, j) then k + 1 else k
  }

  ghost predicate PhaseTable(t: array4<int>, b: Board, points: seq<Point>, k: nat, m: nat, n: nat)
    requires b.Valid() && k < |points| && m <= |points| && n <= |points|
    reads t
  {
    && Fits(t, b)
    && forall i, j :: b.IsCorrect(i) && b.IsCorrect(j) ==>
         At2(t, b, i, j) == Phase(b, points, Level(points, k, m, n, i, j), i, j)
  }

  ghost predicate WholePhase(t: array4<int>, b: Board, points: seq<Point>, k: nat)
    requires b.Valid() && k <= |points|
    reads t
  {
    && Fits(t, b)
    && forall i, j :: b.IsCorrect(i) && b.IsCorrect(j) ==> At2(t, b, i, j) == Phase(b, points, k, i, j)
  }

  lemma SeededNext(b: Board, points: seq<Point>, m: nat, n: nat, i: Point, j: Point)
    requires b.Valid() && m < |points| && n < |Neighs(b, points[m])|
    ensures Seeded(b, points, m, n + 1, i, j) <==>
            || Seeded(b, points, m, n, i, j)
            || (i == points[m] && j == Neighs(b, points[m])[n] && b.Free(j))
  {
    hide Neighs, Board.Free;
    var neighs := Neighs(b, points[m]);
    assert neighs[..n + 1] == neighs[..n] + [neighs[n]];
    assert j in neighs[..n + 1] <==> j in neighs[..n] || j == neighs[n];
  }

  lemma SeededNextPoint(b: Board, points: seq<Point>, m: nat)
    requires b.Valid() && m < |points|
    ensures forall i, j :: Seeded(b, points, m + 1, 0, i, j) <==>
                             Seeded(b, points, m, |Neighs(b, points[m])|, i, j)
  {
    var neighs := Neighs(b, points[m]);
    assert neighs[..|neighs|] == neighs;
    assert points[..m + 1] == points[..m] + [points[m]];
    if m + 1 < |points| {
      assert Neighs(b, points[m + 1])[..0] == [];
    }
  }

  lemma SeededAll(b: Board, points: seq<Point>)
    requires b.Valid() && forall p :: p in points <==> b.Free(p)
    ensures forall i, j :: Seeded(b, points, |points|, 0, i, j) <==>
                             b.Free(i) && b.Free(j) && Manhattan(i, j) == 1
  {
    forall i, j
      ensures Seeded(b, points, |points|, 0, i, j) <==> b.Free(i) && b.Free(j) && Manhattan(i, j) == 1
    {
      assert points[..|points|] == points;
      if b.Free(i) {
        assert j in Neighs(b, i) <==> HasNeigh(b, i, j);
      }
    }
  }

  /** The neighbours of one point. */
  method SeedPoint(b: Board, points: seq<Point>, t: array4<int>, m: nat)
    requires b.Valid() && forall p :: p in points <==> b.Free(p)
    requires m < |points| && SeedTable(t, b, points, m, 0)
    modifies t
    ensures SeedTable(t, b, points, m + 1, 0)
  {
    var p := points[m];
    assert b.Free(p);
    var neighs := Neighs(b, p);
    for n := 0 to |neighs|
      invariant SeedTable(t, b, points, m, n)
    {
      var q := neighs[n];
      assert HasNeigh(b, p, q);
      forall i, j
        ensures Seeded(b, points, m, n + 1, i, j) <==>
                Seeded(b, points, m, n, i, j) || (i == p && j == q && b.Free(j))
      {
        SeededNext(b, points, m, n, i, j);
      }
      if b.cells[q.x][q.y] == FREE {
        SetAt2(t, b, p, q, 1);
      }
    }
    SeededNextPoint(b, points, m);
  }

  /** Fills a fresh table with INF and then with 1 for every pair of adjacent FREE cells. */
  method Seed(b: Board, points: seq<Point>) returns (t: array4<int>)
    requires b.Valid() && forall p :: p in points <==> b.Free(p)
    ensures fresh(t) && WholePhase(t, b, points, 0)
  {
    t := new int[b.sizeX, b.sizeY, b.sizeX, b.sizeY]((x, y, u, v) => INF);
    for m := 0 to |points|
      invariant SeedTable(t, b, points, m, 0)
    {
      SeedPoint(b, points, t, m);
    }
    SeededAll(b, points);
  }

  lemma LevelNext(points: seq<Point>, k: nat, m: nat, n: nat, i: Point, j: Point)
    requires k < |points| && m < |points| && n < |points|
    ensures (i, j) != (points[m], points[n]) ==>
              Level(points, k, m, n + 1, i, j) == Level(points, k, m, n, i, j)
    ensures (i, j) == (points[m], points[n]) ==> Level(points, k, m, n + 1, i, j) == k + 1
  {
    assert points[..n + 1] == points[..n] + [points[n]];
  }

  /** What the innermost statement computes from the table as it stands, whether or not
      the entries it reads have already been updated in this phase. */
  lemma EntryValue(b: Board, points: seq<Point>, k: nat, m: nat, n: nat, i: Point, j: Point)
    requires b.Valid() && k < |points| && m < |points| && n < |points|
    requires i == points[m] && j == points[n]
    ensures var direct := Phase(b, points, Level(points, k, m, n, i, j), i, j);
            var left := Phase(b, points, Level(points, k, m, n, i, points[k]), i, points[k]);
            var right := Phase(b, points, Level(points, k, m, n, points[k], j), points[k], j);
            left == Phase(b, points, k, i, points[k]) && right == Phase(b, points, k, points[k], j) &&
            Phase(b, points, k + 1, i, j)
              == if left == INF || right == INF then direct else Min(direct, left + right)
  {
    PivotUnchanged(b, points, k, i, j);
  }

  /** What a finished row holds: skipped and covered entries do not change in phase `k`. */
  lemma RowDone(b: Board, points: seq<Point>, k: nat, m: nat, reached: bool, i: Point, j: Point)
    requires b.Valid() && Countable(b) && forall p :: p in points <==> b.Free(p)
    requires k < |points| && m < |points|
    requires !reached ==> Phase(b, points, k, points[m], points[k]) == INF
    ensures Phase(b, points, Level(points, k, m, if reached then |points| else 0, i, j), i, j)
            == Phase(b, points, Level(points, k, m + 1, 0, i, j), i, j)
  {
    assert points[..m + 1] == points[..m] + [points[m]];
    assert points[..|points|] == points;
    if i == points[m] && i !in points[..m] {
      if !b.Free(j) {
        CoveredStaysInf(b, points, k, i, j);
        CoveredStaysInf(b, points, k + 1, i, j);
      }
    }
  }

  /** Entry (m, n) of phase `k`. */
  method RelaxEntry(b: Board, points: seq<Point>, t: array4<int>, k: nat, m: nat, n: nat)
    requires b.Valid() && Countable(b) && forall p :: p in points <==> b.Free(p)
    requires k < |points| && m < |points| && n < |points|
    requires PhaseTable(t, b, points, k, m, n)
    requires Phase(b, points, k, points[m], points[k]) != INF
    modifies t
    ensures PhaseTable(t, b, points, k, m, n + 1)
  {
    var i, j, pivot := points[m], points[n], points[k];
    assert b.Free(i) && b.Free(j) && b.Free(pivot);
    EntryValue(b, points, k, m, n, i, j);
    if At2(t, b, pivot, j) != INF {
      var sum := At2(t, b, i, pivot) + At2(t, b, pivot, j);
      assert sum <= INT_MAX by {
        SumsFitInt(b, points, k, i, j);
      }
      SetAt2(t, b, i, j, Min(At2(t, b, i, j), sum));
    }
    forall a, c | b.IsCorrect(a) && b.IsCorrect(c)
      ensures At2(t, b, a, c) == Phase(b, points, Level(points, k, m, n + 1, a, c), a, c)
    {
      LevelNext(points, k, m, n, a, c);
    }
  }

  /** Row `m` of phase `k`, updating the table in place. */
  method RelaxRow(b: Board, points: seq<Point>, t: array4<int>, k: nat, m: nat)
    requires b.Valid() && Countable(b) && forall p :: p in points <==> b.Free(p)
    requires k < |points| && m < |points| && PhaseTable(t, b, points, k, m, 0)
    modifies t
    ensures PhaseTable(t, b, points, k, m + 1, 0)
  {
    var i, pivot := points[m], points[k];
    assert b.Free(i) && b.Free(pivot);
    PivotUnchanged(b, points, k, i, pivot);
    var reached := At2(t, b, i, pivot) != INF;
    if reached {
      for n := 0 to |points|
        invariant PhaseTable(t, b, points, k, m, n)
      {
        RelaxEntry(b, points, t, k, m, n);
      }
    }
    forall a, c | b.IsCorrect(a) && b.IsCorrect(c)
      ensures At2(t, b, a, c) == Phase(b, points, Level(points, k, m + 1, 0, a, c), a, c)
    {
      RowDone(b, points, k, m, reached, a, c);
    }
  }

  method Relax(b: Board, points: seq<Point>, t: array4<int>, k: nat)
    requires b.Valid() && Countable(b) && forall p :: p in points <==> b.Free(p)
    requires k < |points| && WholePhase(t, b, points, k)
    modifies t
    ensures WholePhase(t, b, points, k + 1)
  {
    for m := 0 to |points|
      invariant PhaseTable(t, b, points, k, m, 0)
    {
      RelaxRow(b, points, t, k, m);
    }
    forall i, j | b.IsCorrect(i) && b.IsCorrect(j)
      ensures At2(t, b, i, j) == Phase(b, points, k + 1, i, j)
    {
      if !b.Free(i) {
        CoveredStaysInf(b, points, k, i, j);
        CoveredStaysInf(b, points, k + 1, i, j);
      }
    }
  }

  /** The finished table holds, for every pair of cells, the length of a shortest
      nonempty walk between them, and INF exactly where there is none. */
  method Floyd(b: Board) returns (t: array4<int>)
    requires b.Valid() && Countable(b)
    ensures fresh(t) && Holds(t, b)
  {
    var points := FreePoints(b);
    t := Seed(b, points);
    for k := 0 to |points|
      invariant WholePhase(t, b, points, k)
    {
      Relax(b, points, t, k);
    }
    forall i, j | b.IsCorrect(i) && b.IsCorrect(j) ensures At2(t, b, i, j) == Dist(b, i, j) {
      LastPhaseIsDist(b, points, i, j);
    }
  }

  // ---- Laws of the finished table ----

  /** Read off the table: it is symmetric, obeys the triangle inequality on finite entries, and
      its finite entries lie between the Manhattan distance and the number of FREE cells, with
      the parity of the former. */
  lemma TableLaws(t: array4<int>, b: Board, i: Point, k: Point, j: Point)
    requires b.Valid() && Countable(b) && Holds(t, b)
    requires b.IsCorrect(i) && b.IsCorrect(k) && b.IsCorrect(j)
    ensures At2(t, b, i, j) == At2(t, b, j, i)
    ensures At2(t, b, i, k) != INF && At2(t, b, k, j) != INF ==>
              At2(t, b, i, j) != INF && At2(t, b, i, j) <= At2(t, b, i, k) + At2(t, b, k, j)
    ensures At2(t, b, i, j) != INF ==>
              && Manhattan(i, j) <= At2(t, b, i, j) <= |b.FreeSet()|
              && (At2(t, b, i, j) - Manhattan(i, j)) % 2 == 0
  {
    DistSymmetric(b, i, j);
    if Connected(b, i, j) {
      DistBounds(b, i, j);
    }
    if Connected(b, i, k) && Connected(b, k, j) {
      DistTriangle(b, i, k, j);
      DistBounds(b, i, j);
    }
  }
}
