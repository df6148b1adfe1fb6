/** Inputs on which the program does not do what it is meant to do. */
module Examples {
  import opened Grid
  import opened Distances
  import opened Visibility
  import opened Model
  import opened PlanTree
  import opened BestPlan
  import opened Strategy
  import opened PlanTheorems
  import opened Wire

  const GAME := Game(2, 2, 4, 6, 5.0, 1, 5, 3, 8, 5.0, 80, 60, 2, 50, 30, 2, 5)

  function TrooperAt(id: int, x: int, hitpoints: int): Soldier {
    Trooper(id, x, 0, 1, 0, true, COMMANDER, STANDING, hitpoints, 100, 10, 10,
            8.0, 7.0, 3, 25, 30, 35, 25, true, true, true)
  }

  /** A map one cell high. */
  function Corridor(cells: seq<int>, troopers: seq<Soldier>, bonuses: seq<Bonus>): Arena {
    World(0, |cells|, 1, [], troopers, bonuses, seq(|cells|, x requires 0 <= x < |cells| => [cells[x]]),
          seq(TableSize(|cells|, 1), _ => false))
  }

  /** Troopers on a corridor make a world that the strategy accepts. */
  lemma CorridorOk(cells: seq<int>, troopers: seq<Soldier>, bonuses: seq<Bonus>)
    requires 0 < |cells| < INF
    requires forall i :: 0 <= i < |troopers| ==>
      0 <= troopers[i].x < |cells| && troopers[i].y == 0 && PRONE <= troopers[i].stance <= STANDING
    ensures WorldOk(Corridor(cells, troopers, bonuses)) && Countable(BoardOf(Corridor(cells, troopers, bonuses)))
  {
    hide TableSize;
    var world := Corridor(cells, troopers, bonuses);
    var row := Row(|cells|);
    assert BoardOf(world).FreeSet() <= row;
    SubsetSize(BoardOf(world).FreeSet(), row);
  }

  function Row(n: nat): (row: set<Point>)
    ensures |row| == n && forall p :: p in row <==> 0 <= p.x < n && p.y == 0
  {
    if n == 0 then {} else Row(n - 1) + {Point(n - 1, 0)}
  }

  lemma SubsetSize(small: set<Point>, large: set<Point>)
    requires small <= large
    ensures |small| <= |large|
  {
    if small != {} {
      var p :| p in small;
      SubsetSize(small - {p}, large - {p});
    }
  }

  // ---- Byte order ----

  /** The number 1 leaves a big-endian machine as 0, 0, 0, 1: not the little-endian format, and
      a little-endian peer takes it for 2 to the 24th. */
  lemma BigEndianOne()
    ensures Signed(1, 4) && Digits(1, 4) == [1, 0, 0, 0]
    ensures Encode(false, 1, 4) == [0, 0, 0, 1]
    ensures Decode(true, Encode(false, 1, 4)) == 0x100_0000
  {
    IntSizes();
    assert Digits(0, 3) == [0, 0, 0];
    assert Digits(1, 4) == [1, 0, 0, 0];
    WireFormat(false, 1, 4);
    var bytes: seq<byte> := [0, 0, 0, 1];
    assert bytes[1..] == [0, 0, 1] && bytes[1..][1..] == [0, 1] && bytes[1..][1..][1..] == [1];
    assert Number(bytes[1..][1..][1..]) == 1;
  }

  // ---- The target loop ----

  const LONER := TrooperAt(1, 0, 100)
  const CELL := Corridor([FREE], [LONER], [])

  /** On a map of one cell the loop finds no target on any move, however long it draws. */
  lemma SingleCellHasNoTarget(index: int, before: Point, draws: seq<Point>, after: Point, r: Option<Move>)
    requires BoardOf(CELL).IsCorrect(before)
    requires forall i :: 0 <= i < |draws| ==> BoardOf(CELL).IsCorrect(draws[i])
    ensures WorldOk(CELL) && Countable(BoardOf(CELL)) && LONER in CELL.troopers
    ensures Plays(LONER, CELL, GAME, index, before, draws, after, r) ==> r.None?
  {
    hide TableSize, Answers;
    CorridorOk([FREE], [LONER], []);
    var origin := Point(0, 0);
    DistDiagonal(BoardOf(CELL), origin);
    assert !Far(BoardOf(CELL), origin, origin);
  }

  // ---- 60 * mates_dist ----

  const MATE := TrooperAt(2, 4, 100)
  const WALLED := Corridor([FREE, FREE, 3, FREE, FREE], [LONER, MATE], [])

  /** A walk that starts left of the wall stays there. */
  lemma {:induction false} WallStops(w: seq<Point>, i: Point, j: Point, t: nat)
    requires BoardOf(WALLED).Valid() && IsWalk(BoardOf(WALLED), w, i, j) && t < |w| && i.x < 2
    ensures w[t].x < 2
  {
    if t > 0 {
      WallStops(w, i, j, t - 1);
      assert Linked(w, t - 1) && BoardOf(WALLED).Free(w[t]);
    }
  }

  lemma WalledDistances()
    ensures BoardOf(WALLED).Valid()
    ensures Dist(BoardOf(WALLED), At(LONER), At(LONER)) == 2
    ensures Dist(BoardOf(WALLED), At(LONER), At(MATE)) == INF
  {
    var b := BoardOf(WALLED);
    assert HasNeigh(b, At(LONER), Point(1, 0)) && b.Free(Point(1, 0));
    DistDiagonal(b, At(LONER));
    if Connected(b, At(LONER), At(MATE)) {
      var w := DistWalk(b, At(LONER), At(MATE));
      WallStops(w, At(LONER), At(MATE), |w| - 1);
    }
  }

  /** A teammate behind a wall: the term is sixty times INF and more, too big for an int. */
  lemma WalledOffTeammate(target: Point)
    ensures WorldOk(WALLED) && Countable(BoardOf(WALLED)) && LONER in WALLED.troopers
    ensures var v := ViewOf(LONER, WALLED, GAME, true, target);
            60 * MatesDist(v, At(LONER), |v.teammates|) == 60 * (INF + 2) > INT_MAX
  {
    hide TableSize, Stamp;
    CorridorOk([FREE, FREE, 3, FREE, FREE], [LONER, MATE], []);
    WalledDistances();
    var v := ViewOf(LONER, WALLED, GAME, true, target);
    assert v.teammates == [LONER, MATE] by {
      assert WALLED.troopers[..1] == [LONER] && [LONER][..0] == [];
      assert Side([LONER], true) == Side([LONER][..0], true) + [LONER];
    }
    assert MatesDist(v, At(LONER), 1) == MatesDist(v, At(LONER), 0) + 2;
  }

  // ---- Medikits ----

  const HURT := TrooperAt(1, 0, 40)
  const SUPPLIED := Corridor([FREE], [HURT], [Bonus(7, 0, 0, MEDIKIT)])

  /** A hurt trooper standing on its second medikit counts on it five times, as long as its
      points last, although two medikits are all there is. */
  lemma MedikitUsedFiveTimes(target: Point)
    ensures WorldOk(SUPPLIED) && HURT in SUPPLIED.troopers
    ensures var v := ViewOf(HURT, SUPPLIED, GAME, true, target);
            v.Sound() && OnBoard(v, Root(HURT).state) && IsPlan(v, Root(HURT), Medikits(5))
  {
    hide TableSize, Stamp, View.Sound;
    CorridorOk([FREE], [HURT], SUPPLIED.bonuses);
    ViewOfSound(HURT, SUPPLIED, GAME, true, target);
    var v := ViewOf(HURT, SUPPLIED, GAME, true, target);
    assert v.bonuses[0] == Bonus(7, 0, 0, MEDIKIT);
    assert BonusAt(v.bonuses, Point(0, 0), MEDIKIT);
    MedikitsInARow(v, Root(HURT), 5);
  }
}
