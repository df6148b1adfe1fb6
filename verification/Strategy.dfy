/** The strategy object of one move: it marks troopers as cover, redraws the target, and
    searches the plan tree recursively through three shared fields. */
module Strategy {
  import opened Grid
  import opened Distances
  import opened Visibility
  import opened Model
  import opened PlanTree
  import opened BestPlan

  type Arena = World<real>

  function BoardOf(world: Arena): Board
    requires world.width >= 0 && world.height >= 0
  {
    Board(world.width, world.height, world.cells)
  }

  /** What the strategy indexes without checking: a rectangular map, a full visibility
      table, and troopers standing on the map in one of the three stances. */
  ghost predicate WorldOk(world: Arena) {
    && world.width >= 0 && world.height >= 0
    && BoardOf(world).Valid()
    && |world.cellVisibilities| == TableSize(world.width, world.height)
    && forall i :: 0 <= i < |world.troopers| ==> TrooperOk(world, world.troopers[i])
  }

  predicate TrooperOk(world: Arena, t: Soldier)
    requires world.width >= 0 && world.height >= 0
  {
    BoardOf(world).IsCorrect(At(t)) && PRONE <= t.stance <= STANDING
  }

  /** The variables that outlive a move. */
  class Globals {
    var sizeX: nat
    var sizeY: nat
    var target: Point
    var moveIndex: int
    var floydDist: array4<int>

    constructor ()
      ensures moveIndex == -1
    {
      sizeX, sizeY, target, moveIndex := 0, 0, Point(0, 0), -1;
      floydDist := new int[0, 0, 0, 0];
    }

    ghost predicate Knows(b: Board)
      reads this`sizeX, this`sizeY, this`floydDist, floydDist
    {
      && b.Valid() && Countable(b)
      && sizeX == b.sizeX && sizeY == b.sizeY
      && Holds(floydDist, b)
    }

    /** First move only: the map's size and the distance table. */
    method Init(world: Arena)
      requires WorldOk(world) && Countable(BoardOf(world))
      modifies this`sizeX, this`sizeY, this`floydDist
      ensures Knows(BoardOf(world)) && fresh(floydDist)
    {
      sizeX, sizeY := world.width, world.height;
      floydDist := Floyd(BoardOf(world));
    }

    /** Counts the move; the first one initialises, and alone fills the list of stances. */
    method BeginMove(world: Arena) returns (stances: seq<int>)
      requires WorldOk(world) && moveIndex >= -1
      requires if moveIndex == -1 then Countable(BoardOf(world)) else Knows(BoardOf(world))
      modifies this
      ensures moveIndex == old(moveIndex) + 1 && target == old(target)
      ensures if moveIndex == 0 then fresh(floydDist) else floydDist == old(floydDist)
      ensures Knows(BoardOf(world))
      ensures stances == if moveIndex == 0 then [PRONE, KNEELING, STANDING] else []
    {
      stances := [];
      moveIndex := moveIndex + 1;
      if moveIndex == 0 {
        stances := stances + [PRONE];
        stances := stances + [KNEELING];
        stances := stances + [STANDING];
        Init(world);
      }
    }
  }

  // ---- What the constructor leaves in its fields ----

  ghost predicate Occupied(troopers: seq<Soldier>, count: nat, p: Point)
    requires count <= |troopers|
  {
    exists i :: 0 <= i < count && At(troopers[i]) == p
  }

  /** The map with the cells of the first `count` troopers covered. */
  ghost function Stamp(b: Board, troopers: seq<Soldier>, count: nat): (cells: seq<seq<int>>)
    requires b.Valid() && count <= |troopers|
    ensures Board(b.sizeX, b.sizeY, cells).Valid()
  {
    seq(b.sizeX, x requires 0 <= x < b.sizeX =>
      seq(b.sizeY, y requires 0 <= y < b.sizeY =>
        if Occupied(troopers, count, Point(x, y)) then LOW_COVER else b.cells[x][y]))
  }

  ghost function Side(troopers: seq<Soldier>, mates: bool): (r: seq<Soldier>)
    ensures forall t :: t in r <==> t in troopers && t.teammate == mates
  {
    if troopers == [] then []
    else
      var last := troopers[|troopers| - 1];
      Side(troopers[..|troopers| - 1], mates) + if last.teammate == mates then [last] else []
  }

  lemma TrooperOnBoard(self: Soldier, world: Arena)
    requires WorldOk(world) && self in world.troopers
    ensures TrooperOk(world, self)
  {
    var k :| 0 <= k < |world.troopers| && world.troopers[k] == self;
    assert TrooperOk(world, world.troopers[k]);
  }

  lemma SideOnBoard(world: Arena, mates: bool)
    requires WorldOk(world)
    ensures var side := Side(world.troopers, mates);
            forall i :: 0 <= i < |side| ==> TrooperOk(world, side[i])
  {
    hide TableSize, TrooperOk;
    var side := Side(world.troopers, mates);
    forall i | 0 <= i < |side| ensures TrooperOk(world, side[i]) {
      assert side[i] in side;
      TrooperOnBoard(side[i], world);
    }
  }

  lemma ViewOfSound(self: Soldier, world: Arena, game: Game, first: bool, target: Point)
    requires WorldOk(world) && self in world.troopers && self.teammate
    ensures var v := ViewOf(self, world, game, first, target);
            v.Sound() && OnBoard(v, Root(self).state)
  {
    hide TableSize;
    SideOnBoard(world, true);
    SideOnBoard(world, false);
    TrooperOnBoard(self, world);
    assert self in Side(world.troopers, true);
  }

  /** The node the search starts from. */
  function Root(self: Soldier): Node {
    Node(self.actionPoints,
         State(0, 0, 0, At(self), self.stance, self.holdingMedikit, self.holdingFieldRation, false,
               self.holdingGrenade, false))
  }

  lemma SideNone(troopers: seq<Soldier>)
    ensures Side(troopers[..0], true) == Side(troopers[..0], false) == []
  {
  }

  lemma SideNext(troopers: seq<Soldier>, i: nat, mates: bool)
    requires i < |troopers|
    ensures Side(troopers[..i + 1], mates) ==
            Side(troopers[..i], mates) + if troopers[i].teammate == mates then [troopers[i]] else []
  {
    assert troopers[..i + 1][..i] == troopers[..i];
  }

  /** What the strategy sees in one move, apart from its own search state. */
  ghost function ViewOf(self: Soldier, world: Arena, game: Game, first: bool, target: Point): View
    requires WorldOk(world)
  {
    View(BoardOf(world), Stamp(BoardOf(world), world.troopers, |world.troopers|),
         Sight(world.width, world.height, world.cellVisibilities), self,
         Side(world.troopers, true), Side(world.troopers, false), world.bonuses, game,
         if first then [PRONE, KNEELING, STANDING] else [], target)
  }

  ghost predicate Far(b: Board, p: Point, q: Point)
    requires b.Valid()
  {
    5 < Dist(b, p, q) < INF
  }

  lemma StampNone(b: Board, troopers: seq<Soldier>)
    requires b.Valid()
    ensures Stamp(b, troopers, 0) == b.cells
  {
    var cells := Stamp(b, troopers, 0);
    forall x | 0 <= x < b.sizeX ensures cells[x] == b.cells[x] {
      assert |b.cells[x]| == b.sizeY;
    }
  }

  lemma StampNext(b: Board, troopers: seq<Soldier>, i: nat)
    requires b.Valid() && i < |troopers| && b.IsCorrect(At(troopers[i]))
    ensures var t := troopers[i];
            var cells := Stamp(b, troopers, i);
            Stamp(b, troopers, i + 1) == cells[t.x := cells[t.x][t.y := LOW_COVER]]
  {
    var t := troopers[i];
    var cells, after := Stamp(b, troopers, i), Stamp(b, troopers, i + 1);
    var next := cells[t.x := cells[t.x][t.y := LOW_COVER]];
    forall x | 0 <= x < b.sizeX ensures after[x] == next[x] {
      forall y | 0 <= y < b.sizeY ensures after[x][y] == next[x][y] {
        OccupiedNext(troopers, i, Point(x, y));
      }
    }
  }

  lemma OccupiedNext(troopers: seq<Soldier>, i: nat, p: Point)
    requires i < |troopers|
    ensures Occupied(troopers, i + 1, p) <==> Occupied(troopers, i, p) || p == At(troopers[i])
  {
  }

  /** What the search finds in its copy of the map. */
  lemma StampFree(b: Board, troopers: seq<Soldier>, p: Point)
    requires b.Valid()
    ensures Board(b.sizeX, b.sizeY, Stamp(b, troopers, |troopers|)).Free(p) <==>
            b.Free(p) && forall i :: 0 <= i < |troopers| ==> At(troopers[i]) != p
  {
  }

  lemma PickUpNext(bonuses: seq<Bonus>, i: nat, start: State)
    requires i < |bonuses|
    ensures var state := PickUp(bonuses[..i], start);
            var bonus := bonuses[i];
            PickUp(bonuses[..i + 1], start) ==
            if start.pos != Point(bonus.x, bonus.y) then state
            else if bonus.kind == MEDIKIT then state.(hasMedkit := true)
            else if bonus.kind == FIELD_RATION && !start.usedFieldRation then state.(hasFieldRation := true)
            else if bonus.kind == GRENADE && !start.usedGrenade then state.(hasGrenade := true)
            else state
  {
    var bonus := bonuses[i];
    assert bonuses[..i + 1] == bonuses[..i] + [bonus];
    forall kind
      ensures BonusAt(bonuses[..i + 1], start.pos, kind) <==>
              BonusAt(bonuses[..i], start.pos, kind) ||
              (Point(bonus.x, bonus.y) == start.pos && bonus.kind == kind)
    {
      if Point(bonus.x, bonus.y) == start.pos && bonus.kind == kind {
        assert bonus in bonuses[..i + 1];
      }
    }
  }

  /** Covers every visible trooper's cell, the own one included, and tells mates from enemies. */
  method SortTroopers(world: Arena)
    returns (cells: seq<seq<int>>, teammates: seq<Soldier>, enemies: seq<Soldier>)
    requires WorldOk(world)
    ensures cells == Stamp(BoardOf(world), world.troopers, |world.troopers|)
    ensures teammates == Side(world.troopers, true) && enemies == Side(world.troopers, false)
  {
    hide TableSize, Stamp, Side;
    cells, teammates, enemies := world.cells, [], [];
    StampNone(BoardOf(world), world.troopers);
    SideNone(world.troopers);
    for i := 0 to |world.troopers|
      invariant cells == Stamp(BoardOf(world), world.troopers, i)
      invariant teammates == Side(world.troopers[..i], true)
      invariant enemies == Side(world.troopers[..i], false)
    {
      var trooper := world.troopers[i];
      assert TrooperOk(world, trooper);
      StampNext(BoardOf(world), world.troopers, i);
      SideNext(world.troopers, i, true);
      SideNext(world.troopers, i, false);
      cells := cells[trooper.x := cells[trooper.x][trooper.y := LOW_COVER]];
      if trooper.teammate {
        teammates := teammates + [trooper];
      } else {
        enemies := enemies + [trooper];
      }
    }
    assert world.troopers[..|world.troopers|] == world.troopers;
  }

  /** The loop's exit test, read off the table, is `Far`. */
  lemma FarIs(b: Board, p: Point, q: Point)
    requires b.Valid() && Countable(b)
    ensures Far(b, p, q) <==> !(Dist(b, p, q) <= 5 || Dist(b, p, q) == INF)
  {
    if Connected(b, p, q) {
      DistBounds(b, p, q);
    }
  }

  /** The first cell among `aims` that is far enough and can be reached, if any. */
  ghost predicate FirstFar(b: Board, p: Point, aims: seq<Point>, found: bool, target: Point)
    requires b.Valid()
  {
    if found then
      exists k :: 0 <= k < |aims| && target == aims[k] && Far(b, p, aims[k]) &&
                  forall i :: 0 <= i < k ==> !Far(b, p, aims[i])
    else
      forall i :: 0 <= i < |aims| ==> !Far(b, p, aims[i])
  }

  /** What move number `index` does: it keeps or draws a target, running out of `draws` only
      if no cell it looked at qualified, and then answers the first action of the first best
      plan towards that target, or END_TURN when no plan scores above -INF. */
  ghost predicate Plays(self: Soldier, world: Arena, game: Game, index: int,
                        before: Point, draws: seq<Point>, after: Point, r: Option<Move>)
    requires WorldOk(world) && self in world.troopers && self.teammate
  {
    exists score :: PlaysFor(self, world, game, index, before, draws, after, r, score)
  }

  /** ... and `score` is the score of that plan. */
  ghost predicate PlaysFor(self: Soldier, world: Arena, game: Game, index: int,
                           before: Point, draws: seq<Point>, after: Point, r: Option<Move>, score: int)
    requires WorldOk(world) && self in world.troopers && self.teammate
  {
    ViewOfSound(self, world, game, index == 0, after);
    var aims := [if index % 128 == 0 then At(self) else before] + draws;
    && FirstFar(BoardOf(world), At(self), aims, r.Some?, after)
    && (r.Some? ==> Answers(ViewOf(self, world, game, index == 0, after), Root(self), r.value, score))
  }

  class SlavaStrategy {
    const g: Globals
    const self: Soldier
    const world: Arena
    const game: Game
    const cells: seq<seq<int>>
    const teammates: seq<Soldier>
    const enemies: seq<Soldier>
    const stances: seq<int>
    var bestAction: Move
    var bestScore: int
    var curAction: Move

    constructor (g: Globals, self: Soldier, world: Arena, game: Game)
      requires WorldOk(world) && self in world.troopers && self.teammate && g.moveIndex >= -1
      requires if g.moveIndex == -1 then Countable(BoardOf(world)) else g.Knows(BoardOf(world))
      modifies g
      ensures this.g == g && this.self == self && this.world == world && this.game == game
      ensures g.moveIndex == old(g.moveIndex) + 1 && g.target == old(g.target)
      ensures if g.moveIndex == 0 then fresh(g.floydDist) else g.floydDist == old(g.floydDist)
      ensures g.Knows(BoardOf(world))
      ensures cells == Stamp(BoardOf(world), world.troopers, |world.troopers|)
      ensures teammates == Side(world.troopers, true) && enemies == Side(world.troopers, false)
      ensures stances == if g.moveIndex == 0 then [PRONE, KNEELING, STANDING] else []
      ensures bestAction == DEFAULT_MOVE
    {
      this.g, this.self, this.world, this.game := g, self, world, game;
      var stances := g.BeginMove(world);
      var cells, teammates, enemies := SortTroopers(world);
      this.stances, this.cells, this.teammates, this.enemies := stances, cells, teammates, enemies;
      bestAction, curAction, bestScore := DEFAULT_MOVE, DEFAULT_MOVE, 0;
    }

    /** Keeps the target or draws a new one, until one is far enough and can be reached. */
    method Aim(draws: seq<Point>) returns (found: bool)
      requires WorldOk(world) && TrooperOk(world, self) && g.Knows(BoardOf(world))
      requires g.moveIndex % 128 != 0 ==> BoardOf(world).IsCorrect(g.target)
      requires forall i :: 0 <= i < |draws| ==> BoardOf(world).IsCorrect(draws[i])
      modifies g`target
      ensures BoardOf(world).IsCorrect(g.target)
      ensures FirstFar(BoardOf(world), At(self),
                       [if g.moveIndex % 128 == 0 then At(self) else old(g.target)] + draws, found, g.target)
    {
      hide TableSize, Holds;
      if g.moveIndex % 128 == 0 {
        g.target := At(self);
      }
      ghost var aims := [g.target] + draws;
      var used := 0;
      while MinDistance(At(self), g.target) <= 5 || MinDistance(At(self), g.target) == INF
        invariant used <= |draws| && g.target == aims[used] && BoardOf(world).IsCorrect(g.target)
        invariant forall i :: 0 <= i < used ==> !Far(BoardOf(world), At(self), aims[i])
        decreases |draws| - used
      {
        FarIs(BoardOf(world), At(self), g.target);
        if used == |draws| {
          return false;
        }
        g.target := draws[used];
        used := used + 1;
      }
      FarIs(BoardOf(world), At(self), g.target);
      return true;
    }

    method Run(draws: seq<Point>) returns (r: Option<Move>)
      requires WorldOk(world) && self in world.troopers && self.teammate
      requires g.Knows(BoardOf(world))
      requires Sees() == ViewOf(self, world, game, g.moveIndex == 0, g.target)
      requires g.moveIndex % 128 != 0 ==> BoardOf(world).IsCorrect(g.target)
      requires forall i :: 0 <= i < |draws| ==> BoardOf(world).IsCorrect(draws[i])
      requires bestAction == DEFAULT_MOVE
      modifies g`target, this`bestAction, this`bestScore, this`curAction
      ensures BoardOf(world).IsCorrect(g.target)
      ensures PlaysFor(self, world, game, g.moveIndex, old(g.target), draws, g.target, r, bestScore)
    {
      hide TableSize, Visit, Answers, FirstFar, View.Sound, OnBoard, Stamp, Side;
      TrooperOnBoard(self, world);
      var found := Aim(draws);
      ghost var v := ViewOf(self, world, game, g.moveIndex == 0, g.target);
      ViewOfSound(self, world, game, g.moveIndex == 0, g.target);
      if !found {
        return None;
      }
      bestScore := -INF;
      curAction := ActionMove(END_TURN);
      MaximizeScore(0, self.actionPoints, Root(self).state, v);
      SearchAnswers(v, Root(self));
      assert Answers(v, Root(self), bestAction, bestScore);
      return Some(bestAction);
    }

    /** The map as `isCorrect` and `neighs` know it: its size comes from the lasting variables. */
    function Here(): Board
      reads g`sizeX, g`sizeY
    {
      Board(g.sizeX, g.sizeY, world.cells)
    }

    function Sees(): View
      requires world.width >= 0 && world.height >= 0
      reads g`target
    {
      View(BoardOf(world), cells, Sight(world.width, world.height, world.cellVisibilities),
           self, teammates, enemies, world.bonuses, game, stances, g.target)
    }

    ghost predicate Ready()
      reads g`sizeX, g`sizeY, g`target, g`floydDist, g.floydDist
    {
      && world.width >= 0 && world.height >= 0
      && Sees().Sound()
      && g.Knows(BoardOf(world)) && Here() == BoardOf(world)
      && BoardOf(world).IsCorrect(g.target)
    }

    function Found(): Best
      reads this`bestAction, this`bestScore
    {
      Best(bestAction, bestScore)
    }

    function MinDistance(p: Point, q: Point): (d: int)
      requires world.width >= 0 && world.height >= 0 && g.Knows(BoardOf(world))
      requires BoardOf(world).IsCorrect(p) && BoardOf(world).IsCorrect(q)
      reads g`sizeX, g`sizeY, g`floydDist, g.floydDist
      ensures d == Dist(BoardOf(world), p, q)
    {
      At2(g.floydDist, Here(), p, q)
    }

    /** Bonuses on the cell, taken one by one. */
    method PickUpBonuses(start: State) returns (state: State)
      ensures state == PickUp(world.bonuses, start)
    {
      state := start;
      for i := 0 to |world.bonuses|
        invariant state == PickUp(world.bonuses[..i], start)
      {
        var bonus := world.bonuses[i];
        PickUpNext(world.bonuses, i, start);
        if state.pos == Point(bonus.x, bonus.y) {
          if bonus.kind == MEDIKIT {
            state := state.(hasMedkit := true);
          } else if bonus.kind == FIELD_RATION {
            if !state.usedFieldRation {
              state := state.(hasFieldRation := true);
            }
          } else if bonus.kind == GRENADE {
            if !state.usedGrenade {
              state := state.(hasGrenade := true);
            }
          }
        }
      }
      assert world.bonuses[..|world.bonuses|] == world.bonuses;
    }

    /** Can the enemy hurt a trooper in this state: with a grenade, or by a shot from some stance? */
    method IsShooting(state: State, enemy: Soldier) returns (isShooting: bool)
      requires Ready() && OnBoard(Sees(), state) && Sees().Placed(enemy)
      ensures isShooting == Threatens(Sees(), state, enemy)
    {
      isShooting := false;
      if IsNear(state.pos, At(enemy), game.grenadeThrowRange) {
        isShooting := true;
      } else {
        hide IsNear, InRange, Globals.Knows;
        ghost var v := Sees();
        for m := 0 to |stances|
          invariant isShooting <==> exists i :: 0 <= i < m && SeenAt(v, state, enemy, stances[i])
        {
          if IsVisible(Sees().sight, enemy.shootingRange, enemy.x, enemy.y, stances[m],
                       state.pos.x, state.pos.y, state.stance) {
            isShooting := true;
            assert SeenAt(v, state, enemy, stances[m]);
          }
        }
      }
    }

    method CountShooting(state: State) returns (shooting: nat)
      requires Ready() && OnBoard(Sees(), state)
      ensures shooting == ShootingEnemies(Sees(), state, |enemies|)
    {
      hide TableSize, Globals.Knows, Threatens;
      ghost var v := Sees();
      shooting := 0;
      for i := 0 to |enemies|
        invariant shooting == ShootingEnemies(v, state, i)
      {
        assert v.Placed(v.enemies[i]);
        var isShooting := IsShooting(state, enemies[i]);
        if isShooting {
          shooting := shooting + 1;
        }
      }
    }

    method SurveyMate(pos: Point, mate: Soldier) returns (dist: int, inspired: bool)
      requires Ready() && Sees().board.IsCorrect(pos) && Sees().Placed(mate)
      ensures dist == Dist(Sees().board, pos, At(mate)) && inspired == InspiredBy(Sees(), pos, mate)
    {
      dist := MinDistance(pos, At(mate));
      inspired := mate.kind == COMMANDER && IsNear(pos, At(mate), game.commanderAuraRange);
    }

    method SurveyMates(pos: Point) returns (matesDist: int, closeToCommander: bool)
      requires Ready() && Sees().board.IsCorrect(pos)
      ensures matesDist == MatesDist(Sees(), pos, |teammates|)
      ensures closeToCommander == CloseToCommander(Sees(), pos, |teammates|)
    {
      ghost var v := Sees();
      matesDist := 0;
      closeToCommander := false;
      for i := 0 to |teammates|
        invariant matesDist == MatesDist(v, pos, i)
        invariant closeToCommander == CloseToCommander(v, pos, i)
      {
        assert v.Placed(v.teammates[i]);
        var dist, inspired := SurveyMate(pos, teammates[i]);
        matesDist := matesDist + dist;
        if inspired {
          closeToCommander := true;
        }
      }
    }

    method Evaluate(state: State) returns (score: int)
      requires Ready() && OnBoard(Sees(), state)
      ensures score == Score(Sees(), state)
    {
      hide TableSize, Globals.Knows, Holds;
      var matesDist, closeToCommander := SurveyMates(state.pos);
      var shootingEnemies := CountShooting(state);
      var targetDist := MinDistance(state.pos, g.target);
      score := 0;
      score := score - 2000 * state.mateDamage;
      score := score + 300 * state.damage;
      score := score + 20000 * state.kills;
      score := score - 10000 * shootingEnemies;
      score := score + 400 * Bit(state.hasMedkit);
      score := score + 400 * Bit(state.hasFieldRation);
      score := score + 400 * Bit(state.hasGrenade);
      score := score - 60 * matesDist / |teammates|;
      if state.mateDamage >= 0 && state.damage == 0 {
        score := score - 55 * targetDist;
      }
      if self.kind != SCOUT {
        score := score + 500 * Bit(closeToCommander);
      }
    }

    // ---- The recursive search ----

    ghost predicate Searching(v: View, number: nat, node: Node, tag: Move)
      reads g`sizeX, g`sizeY, g`target, g`floydDist, g.floydDist, this`curAction
    {
      && Ready() && v == Sees() && v.Sound() && OnBoard(v, node.state)
      && Here() == v.board
      && 1 <= number <= MAX_ACTIONS
      && (number > 1 ==> curAction == tag)
    }

    /** Searches below one legal action; at the first level it becomes the action to report. */
    method Attempt(number: nat, points: int, newState: State, action: Move,
                   ghost v: View, ghost node: Node, ghost tag: Move, ghost a: Act)
      requires Searching(v, number, node, tag)
      requires Legal(v, node.points, node.state, a)
      requires Node(points, newState) == Apply(v, node.points, node.state, a)
      requires action == MoveOf(v, node.state, a)
      modifies this`bestAction, this`bestScore, this`curAction
      ensures number > 1 ==> curAction == tag
      ensures Found() == VisitAct(v, number - 1, node, tag, old(Found()), a)
      decreases MAX_ACTIONS + 1 - number, 0
    {
      if number == 1 {
        curAction := action;
      }
      MaximizeScore(number, points, newState, v);
    }

    method MedikitMateAttempt(number: nat, points: int, state: State, i: nat,
                ghost v: View, ghost node: Node, ghost tag: Move)
      requires Searching(v, number, node, tag) && state == node.state && i < |teammates|
      requires state.hasMedkit && points == node.points - game.medikitUseCost >= 0
      modifies this`bestAction, this`bestScore, this`curAction
      ensures number > 1 ==> curAction == tag
      ensures Found() == VisitAct(v, number - 1, node, tag, old(Found()), Act(MedikitMate, i))
      decreases MAX_ACTIONS + 1 - number, 1
    {
      hide Visit;
      var mate := teammates[i];
      if HasNeigh(Here(), state.pos, At(mate)) {
        var heal := Min(game.medikitBonusHitpoints, mate.maximalHitpoints - mate.hitpoints);
        if heal > 0 {
          var newState := state.(mateDamage := state.mateDamage - heal, hasMedkit := false);
          Attempt(number, points, newState, ActionMoveAt(USE_MEDIKIT, At(mate)), v, node, tag, Act(MedikitMate, i));
        }
      }
    }

    method TryMedikitOnMates(number: nat, actionPoints: int, state: State,
                ghost v: View, ghost node: Node, ghost tag: Move)
      requires Searching(v, number, node, tag) && node == Node(actionPoints, state)
      modifies this`bestAction, this`bestScore, this`curAction
      ensures Searching(v, number, node, tag)
      ensures Found() == VisitKind(v, number - 1, node, tag, old(Found()), MedikitMate, Choices(v, state, MedikitMate))
      decreases MAX_ACTIONS + 1 - number, 2
    {
      hide VisitAct, Ready, View.Sound, OnBoard;
      var points := actionPoints - game.medikitUseCost;
      if state.hasMedkit && points >= 0 {
        for i := 0 to |teammates|
          invariant number > 1 ==> curAction == tag
          invariant Found() == VisitKind(v, number - 1, node, tag, old(Found()), MedikitMate, i)
        {
          MedikitMateAttempt(number, points, state, i, v, node, tag);
        }
      } else {
        SkipKind(v, number - 1, node, tag, Found(), MedikitMate, |teammates|);
      }
    }

    method TryMedikitOnSelf(number: nat, actionPoints: int, state: State,
                ghost v: View, ghost node: Node, ghost tag: Move)
      requires Searching(v, number, node, tag) && node == Node(actionPoints, state)
      modifies this`bestAction, this`bestScore, this`curAction
      ensures Searching(v, number, node, tag)
      ensures Found() == VisitKind(v, number - 1, node, tag, old(Found()), MedikitSelf, Choices(v, state, MedikitSelf))
      decreases MAX_ACTIONS + 1 - number, 2
    {
      hide Visit;
      var points := actionPoints - game.medikitUseCost;
      if state.hasMedkit && points >= 0 {
        var heal := Min(game.medikitHealSelfBonusHitpoints, self.maximalHitpoints - self.hitpoints);
        if heal > 0 {
          var newState := state.(mateDamage := state.mateDamage - heal, hasMedkit := false);
          Attempt(number, points, newState, ActionMoveAt(USE_MEDIKIT, At(self)), v, node, tag, Act(MedikitSelf, 0));
        }
      } else {
        SkipKind(v, number - 1, node, tag, Found(), MedikitSelf, 1);
      }
    }

    /** Collateral damage to the enemies next to `e`. */
    method BlastEnemies(state: State, e: Point, damage: int, ghost v: View) returns (newState: State)
      requires Here() == v.board && enemies == v.enemies
      ensures newState.damage == state.damage + AdjacentHarm(v, e, enemies, damage, |enemies|)
      ensures newState.kills == state.kills + AdjacentKilled(v, e, enemies, damage, |enemies|)
      ensures newState == state.(damage := newState.damage, kills := newState.kills)
    {
      hide HasNeigh, AdjacentHarm, AdjacentKilled;
      NoneAdjacent(v, e, enemies, damage);
      newState := state;
      for i := 0 to |enemies|
        invariant newState.damage == state.damage + AdjacentHarm(v, e, enemies, damage, i)
        invariant newState.kills == state.kills + AdjacentKilled(v, e, enemies, damage, i)
        invariant newState == state.(damage := newState.damage, kills := newState.kills)
      {
        var n := enemies[i];
        NextAdjacent(v, e, enemies, damage, i);
        if HasNeigh(Here(), e, At(n)) {
          newState := newState.(damage := newState.damage + damage);
          if damage >= n.hitpoints {
            newState := newState.(kills := newState.kills + 1);
          }
        }
      }
    }

    /** ... and to the teammates next to it, whose loss counts twice. */
    method BlastMates(state: State, e: Point, damage: int, ghost v: View) returns (newState: State)
      requires Here() == v.board && teammates == v.teammates
      ensures newState.mateDamage == state.mateDamage + AdjacentHarm(v, e, teammates, damage, |teammates|)
      ensures newState.kills == state.kills - 2 * AdjacentKilled(v, e, teammates, damage, |teammates|)
      ensures newState == state.(mateDamage := newState.mateDamage, kills := newState.kills)
    {
      hide HasNeigh, AdjacentHarm, AdjacentKilled;
      NoneAdjacent(v, e, teammates, damage);
      newState := state;
      for i := 0 to |teammates|
        invariant newState.mateDamage == state.mateDamage + AdjacentHarm(v, e, teammates, damage, i)
        invariant newState.kills == state.kills - 2 * AdjacentKilled(v, e, teammates, damage, i)
        invariant newState == state.(mateDamage := newState.mateDamage, kills := newState.kills)
      {
        var n := teammates[i];
        NextAdjacent(v, e, teammates, damage, i);
        if HasNeigh(Here(), e, At(n)) {
          newState := newState.(mateDamage := newState.mateDamage + damage);
          if damage >= n.hitpoints {
            newState := newState.(kills := newState.kills - 2);
          }
        }
      }
    }

    /** The state after a grenade on the enemy: its own hit, then everyone next to it. */
    method Explode(state: State, enemy: Soldier, ghost v: View) returns (newState: State)
      requires Here() == v.board && enemies == v.enemies && teammates == v.teammates && game == v.game
      ensures newState == Exploded(v, state, enemy)
    {
      hide AdjacentHarm, AdjacentKilled;
      newState := state;
      var direct := game.grenadeDirectDamage;
      newState := newState.(damage := newState.damage + direct);
      if direct >= enemy.hitpoints {
        newState := newState.(kills := newState.kills + 1);
      }
      newState := BlastEnemies(newState, At(enemy), game.grenadeCollateralDamage, v);
      newState := BlastMates(newState, At(enemy), game.grenadeCollateralDamage, v);
      newState := newState.(hasGrenade := false, usedGrenade := true);
      ghost var r := Exploded(v, state, enemy);
      assert newState.damage == r.damage;
      assert newState.mateDamage == r.mateDamage;
      assert newState.kills == r.kills;
    }

    method ThrowAttempt(number: nat, points: int, state: State, i: nat,
                ghost v: View, ghost node: Node, ghost tag: Move)
      requires Searching(v, number, node, tag) && state == node.state && i < |enemies|
      requires state.hasGrenade && points == node.points - game.grenadeThrowCost >= 0
      modifies this`bestAction, this`bestScore, this`curAction
      ensures number > 1 ==> curAction == tag
      ensures Found() == VisitAct(v, number - 1, node, tag, old(Found()), Act(Throw, i))
      decreases MAX_ACTIONS + 1 - number, 1
    {
      hide Visit;
      var enemy := enemies[i];
      if IsNear(state.pos, At(enemy), game.grenadeThrowRange) {
        var newState := Explode(state, enemy, v);
        Attempt(number, points, newState, ActionMoveAt(THROW_GRENADE, At(enemy)), v, node, tag, Act(Throw, i));
      }
    }

    method TryGrenade(number: nat, actionPoints: int, state: State,
                ghost v: View, ghost node: Node, ghost tag: Move)
      requires Searching(v, number, node, tag) && node == Node(actionPoints, state)
      modifies this`bestAction, this`bestScore, this`curAction
      ensures Searching(v, number, node, tag)
      ensures Found() == VisitKind(v, number - 1, node, tag, old(Found()), Throw, Choices(v, state, Throw))
      decreases MAX_ACTIONS + 1 - number, 2
    {
      hide VisitAct, Ready, View.Sound, OnBoard;
      var points := actionPoints - game.grenadeThrowCost;
      if state.hasGrenade && points >= 0 {
        for i := 0 to |enemies|
          invariant number > 1 ==> curAction == tag
          invariant Found() == VisitKind(v, number - 1, node, tag, old(Found()), Throw, i)
        {
          ThrowAttempt(number, points, state, i, v, node, tag);
        }
      } else {
        SkipKind(v, number - 1, node, tag, Found(), Throw, |enemies|);
      }
    }

    method HealMateAttempt(number: nat, points: int, state: State, i: nat,
                ghost v: View, ghost node: Node, ghost tag: Move)
      requires Searching(v, number, node, tag) && state == node.state && i < |teammates|
      requires self.kind == FIELD_MEDIC && points == node.points - game.fieldMedicHealCost >= 0
      modifies this`bestAction, this`bestScore, this`curAction
      ensures number > 1 ==> curAction == tag
      ensures Found() == VisitAct(v, number - 1, node, tag, old(Found()), Act(HealMate, i))
      decreases MAX_ACTIONS + 1 - number, 1
    {
      hide Visit;
      var mate := teammates[i];
      if HasNeigh(Here(), state.pos, At(mate)) {
        var heal := Min(game.fieldMedicHealBonusHitpoints, mate.maximalHitpoints - mate.hitpoints);
        if heal > 0 {
          var newState := state.(mateDamage := state.mateDamage - heal);
          Attempt(number, points, newState, ActionMoveAt(HEAL, At(mate)), v, node, tag, Act(HealMate, i));
        }
      }
    }

    method TryHealingMates(number: nat, actionPoints: int, state: State,
                ghost v: View, ghost node: Node, ghost tag: Move)
      requires Searching(v, number, node, tag) && node == Node(actionPoints, state)
      modifies this`bestAction, this`bestScore, this`curAction
      ensures Searching(v, number, node, tag)
      ensures Found() == VisitKind(v, number - 1, node, tag, old(Found()), HealMate, Choices(v, state, HealMate))
      decreases MAX_ACTIONS + 1 - number, 2
    {
      hide VisitAct, Ready, View.Sound, OnBoard;
      var points := actionPoints - game.fieldMedicHealCost;
      if self.kind == FIELD_MEDIC && points >= 0 {
        for i := 0 to |teammates|
          invariant number > 1 ==> curAction == tag
          invariant Found() == VisitKind(v, number - 1, node, tag, old(Found()), HealMate, i)
        {
          HealMateAttempt(number, points, state, i, v, node, tag);
        }
      } else {
        SkipKind(v, number - 1, node, tag, Found(), HealMate, |teammates|);
      }
    }

    method TryHealingSelf(number: nat, actionPoints: int, state: State,
                ghost v: View, ghost node: Node, ghost tag: Move)
      requires Searching(v, number, node, tag) && node == Node(actionPoints, state)
      modifies this`bestAction, this`bestScore, this`curAction
      ensures Searching(v, number, node, tag)
      ensures Found() == VisitKind(v, number - 1, node, tag, old(Found()), HealSelf, Choices(v, state, HealSelf))
      decreases MAX_ACTIONS + 1 - number, 2
    {
      hide Visit;
      var points := actionPoints - game.fieldMedicHealCost;
      if self.kind == FIELD_MEDIC && points >= 0 {
        var heal := Min(game.fieldMedicHealSelfBonusHitpoints, self.maximalHitpoints - self.hitpoints);
        if heal > 0 {
          var newState := state.(mateDamage := state.mateDamage - heal);
          Attempt(number, points, newState, ActionMoveAt(HEAL, At(self)), v, node, tag, Act(HealSelf, 0));
        }
      } else {
        SkipKind(v, number - 1, node, tag, Found(), HealSelf, 1);
      }
    }

    method ShotAttempt(number: nat, points: int, state: State, i: nat,
                ghost v: View, ghost node: Node, ghost tag: Move)
      requires Searching(v, number, node, tag) && state == node.state && i < |enemies|
      requires points == node.points - self.shootCost >= 0
      modifies this`bestAction, this`bestScore, this`curAction
      ensures number > 1 ==> curAction == tag
      ensures Found() == VisitAct(v, number - 1, node, tag, old(Found()), Act(Fire, i))
      decreases MAX_ACTIONS + 1 - number, 1
    {
      hide TableSize, Globals.Knows, InRange, Visit, Index, Volume, DamageAt;
      var enemy := enemies[i];
      assert v.Placed(v.enemies[i]);
      if IsVisible(Sees().sight, self.shootingRange, state.pos.x, state.pos.y, state.stance,
                   enemy.x, enemy.y, enemy.stance) {
        var damage := DamageAt(self, state.stance);
        var newState := state.(damage := state.damage + damage);
        if damage >= enemy.hitpoints {
          newState := newState.(kills := newState.kills + 1);
        }
        Attempt(number, points, newState, ActionMoveAt(SHOOT, At(enemy)), v, node, tag, Act(Fire, i));
      }
    }

    method TryShooting(number: nat, actionPoints: int, state: State,
                ghost v: View, ghost node: Node, ghost tag: Move)
      requires Searching(v, number, node, tag) && node == Node(actionPoints, state)
      modifies this`bestAction, this`bestScore, this`curAction
      ensures Searching(v, number, node, tag)
      ensures Found() == VisitKind(v, number - 1, node, tag, old(Found()), Fire, Choices(v, state, Fire))
      decreases MAX_ACTIONS + 1 - number, 2
    {
      hide VisitAct, Ready, View.Sound, OnBoard;
      var points := actionPoints - self.shootCost;
      if points >= 0 {
        for i := 0 to |enemies|
          invariant number > 1 ==> curAction == tag
          invariant Found() == VisitKind(v, number - 1, node, tag, old(Found()), Fire, i)
        {
          ShotAttempt(number, points, state, i, v, node, tag);
        }
      } else {
        SkipKind(v, number - 1, node, tag, Found(), Fire, |enemies|);
      }
    }

    method StepAttempt(number: nat, points: int, state: State, i: nat,
                ghost v: View, ghost node: Node, ghost tag: Move)
      requires Searching(v, number, node, tag) && state == node.state && i < |Neighs(Here(), state.pos)|
      requires points == node.points - MoveCost(game, state.stance) >= 0
      modifies this`bestAction, this`bestScore, this`curAction
      ensures number > 1 ==> curAction == tag
      ensures Found() == VisitAct(v, number - 1, node, tag, old(Found()), Act(Walk, i))
      decreases MAX_ACTIONS + 1 - number, 1
    {
      hide Visit;
      var n := Neighs(Here(), state.pos)[i];
      assert HasNeigh(v.board, state.pos, n);
      if cells[n.x][n.y] == FREE {
        var newState := state.(pos := n);
        Attempt(number, points, newState, ActionMoveAt(MOVE, n), v, node, tag, Act(Walk, i));
      }
    }

    method StepCost(state: State, ghost v: View) returns (cost: int)
      requires OnBoard(v, state)
      ensures cost == MoveCost(game, state.stance)
    {
      cost :=
        if state.stance == STANDING then game.standingMoveCost
        else if state.stance == KNEELING then game.kneelingMoveCost
        else game.proneMoveCost;
    }

    method TryWalking(number: nat, actionPoints: int, state: State,
                ghost v: View, ghost node: Node, ghost tag: Move)
      requires Searching(v, number, node, tag) && node == Node(actionPoints, state)
      modifies this`bestAction, this`bestScore, this`curAction
      ensures Searching(v, number, node, tag)
      ensures Found() == VisitKind(v, number - 1, node, tag, old(Found()), Walk, Choices(v, state, Walk))
      decreases MAX_ACTIONS + 1 - number, 2
    {
      hide VisitAct, Ready, View.Sound, OnBoard, MoveCost;
      var cost := StepCost(state, v);
      var points := actionPoints - cost;
      if points >= 0 {
        var neighs := Neighs(Here(), state.pos);
        for i := 0 to |neighs|
          invariant number > 1 ==> curAction == tag
          invariant Found() == VisitKind(v, number - 1, node, tag, old(Found()), Walk, i)
        {
          StepAttempt(number, points, state, i, v, node, tag);
        }
      } else {
        SkipKind(v, number - 1, node, tag, Found(), Walk, |Neighs(Here(), state.pos)|);
      }
    }

    method TryRaising(number: nat, actionPoints: int, state: State,
                ghost v: View, ghost node: Node, ghost tag: Move)
      requires Searching(v, number, node, tag) && node == Node(actionPoints, state)
      modifies this`bestAction, this`bestScore, this`curAction
      ensures Searching(v, number, node, tag)
      ensures Found() == VisitKind(v, number - 1, node, tag, old(Found()), Raise, Choices(v, state, Raise))
      decreases MAX_ACTIONS + 1 - number, 2
    {
      hide Visit;
      var points := actionPoints - game.stanceChangeCost;
      if state.stance != STANDING && points >= 0 {
        var newState := state.(stance := if state.stance == PRONE then KNEELING else STANDING);
        Attempt(number, points, newState, ActionMove(RAISE_STANCE), v, node, tag, Act(Raise, 0));
      } else {
        SkipKind(v, number - 1, node, tag, Found(), Raise, 1);
      }
    }

    method TryLowering(number: nat, actionPoints: int, state: State,
                ghost v: View, ghost node: Node, ghost tag: Move)
      requires Searching(v, number, node, tag) && node == Node(actionPoints, state)
      modifies this`bestAction, this`bestScore, this`curAction
      ensures Searching(v, number, node, tag)
      ensures Found() == VisitKind(v, number - 1, node, tag, old(Found()), Lower, Choices(v, state, Lower))
      decreases MAX_ACTIONS + 1 - number, 2
    {
      hide Visit;
      var points := actionPoints - game.stanceChangeCost;
      if state.stance != PRONE && points >= 0 {
        var newState := state.(stance := if state.stance == STANDING then KNEELING else PRONE);
        Attempt(number, points, newState, ActionMove(LOWER_STANCE), v, node, tag, Act(Lower, 0));
      } else {
        SkipKind(v, number - 1, node, tag, Found(), Lower, 1);
      }
    }

    method TryEating(number: nat, actionPoints: int, state: State,
                ghost v: View, ghost node: Node, ghost tag: Move)
      requires Searching(v, number, node, tag) && node == Node(actionPoints, state)
      modifies this`bestAction, this`bestScore, this`curAction
      ensures Searching(v, number, node, tag)
      ensures Found() == VisitKind(v, number - 1, node, tag, old(Found()), Eat, Choices(v, state, Eat))
      decreases MAX_ACTIONS + 1 - number, 2
    {
      hide Visit;
      var points := actionPoints - game.fieldRationEatCost;
      if state.hasFieldRation && points >= 0 {
        var newState := state.(hasFieldRation := false, usedFieldRation := true);
        Attempt(number, points + game.fieldRationBonusActionPoints, newState, ActionMove(EAT_FIELD_RATION),
                v, node, tag, Act(Eat, 0));
      } else {
        SkipKind(v, number - 1, node, tag, Found(), Eat, 1);
      }
    }

    /** Attempts with items and heals, in program order. */
    method TryItems(number: nat, actionPoints: int, state: State,
                    ghost v: View, ghost node: Node, ghost tag: Move)
      requires Searching(v, number, node, tag) && node == Node(actionPoints, state)
      modifies this`bestAction, this`bestScore, this`curAction
      ensures Searching(v, number, node, tag)
      ensures Found() == VisitKinds(v, number - 1, node, tag, old(Found()), Fire.Order())
      decreases MAX_ACTIONS + 1 - number, 3
    {
      hide Ready, View.Sound, OnBoard;
      assert v.Sound() && OnBoard(v, node.state) && number - 1 < MAX_ACTIONS;
      KindOrders();
      ghost var start := Found();
      NoKinds(v, number - 1, node, tag, start);
      TryMedikitOnMates(number, actionPoints, state, v, node, tag);
      NextKinds(v, number - 1, node, tag, start, MedikitMate);
      TryMedikitOnSelf(number, actionPoints, state, v, node, tag);
      NextKinds(v, number - 1, node, tag, start, MedikitSelf);
      TryGrenade(number, actionPoints, state, v, node, tag);
      NextKinds(v, number - 1, node, tag, start, Throw);
      TryHealingMates(number, actionPoints, state, v, node, tag);
      NextKinds(v, number - 1, node, tag, start, HealMate);
      TryHealingSelf(number, actionPoints, state, v, node, tag);
      NextKinds(v, number - 1, node, tag, start, HealSelf);
    }

    /** ... then shots, steps, changes of stance and the ration. */
    method TryMoves(number: nat, actionPoints: int, state: State,
                    ghost v: View, ghost node: Node, ghost tag: Move, ghost start: Best)
      requires Searching(v, number, node, tag) && node == Node(actionPoints, state)
      requires Found() == VisitKinds(v, number - 1, node, tag, start, Fire.Order())
      modifies this`bestAction, this`bestScore, this`curAction
      ensures Searching(v, number, node, tag)
      ensures Found() == VisitKinds(v, number - 1, node, tag, start, |KINDS|)
      decreases MAX_ACTIONS + 1 - number, 3
    {
      hide Ready, View.Sound, OnBoard;
      assert v.Sound() && OnBoard(v, node.state) && number - 1 < MAX_ACTIONS;
      KindOrders();
      TryShooting(number, actionPoints, state, v, node, tag);
      NextKinds(v, number - 1, node, tag, start, Fire);
      TryWalking(number, actionPoints, state, v, node, tag);
      NextKinds(v, number - 1, node, tag, start, Walk);
      TryRaising(number, actionPoints, state, v, node, tag);
      NextKinds(v, number - 1, node, tag, start, Raise);
      TryLowering(number, actionPoints, state, v, node, tag);
      NextKinds(v, number - 1, node, tag, start, Lower);
      TryEating(number, actionPoints, state, v, node, tag);
      NextKinds(v, number - 1, node, tag, start, Eat);
    }

    /** Scores the node, keeps the best so far, and searches below it. `curAction` is set at
        the first level only and never restored. */
    method MaximizeScore(actionNumber: nat, actionPoints: int, state: State, ghost v: View)
      requires Ready() && v == Sees() && OnBoard(v, state) && actionNumber <= MAX_ACTIONS
      modifies this`bestAction, this`bestScore, this`curAction
      ensures actionNumber > 0 ==> curAction == old(curAction)
      ensures Found() == Visit(v, actionNumber, Node(actionPoints, state), old(curAction), old(Found()))
      decreases MAX_ACTIONS - actionNumber, 4
    {
      hide TableSize, Globals.Knows, Score;
      hide VisitKinds;
      var number := actionNumber + 1;
      var entered := PickUpBonuses(state);
      var score := Evaluate(entered);
      if score > bestScore {
        bestAction := curAction;
        bestScore := score;
      }
      if number == 11 {
        return;
      }
      ghost var node := Node(actionPoints, entered);
      ghost var tag, start := curAction, Found();
      TryItems(number, actionPoints, entered, v, node, tag);
      TryMoves(number, actionPoints, entered, v, node, tag, start);
    }
  }

  /** One call from the server: a fresh strategy object on the lasting variables. */
  method PlayMove(g: Globals, self: Soldier, world: Arena, game: Game, draws: seq<Point>) returns (r: Option<Move>)
    requires WorldOk(world) && self in world.troopers && self.teammate && g.moveIndex >= -1
    requires if g.moveIndex == -1 then Countable(BoardOf(world))
             else g.Knows(BoardOf(world)) && BoardOf(world).IsCorrect(g.target)
    requires forall i :: 0 <= i < |draws| ==> BoardOf(world).IsCorrect(draws[i])
    modifies g
    ensures g.moveIndex == old(g.moveIndex) + 1
    ensures if g.moveIndex == 0 then fresh(g.floydDist) else g.floydDist == old(g.floydDist)
    ensures g.Knows(BoardOf(world)) && BoardOf(world).IsCorrect(g.target)
    ensures Plays(self, world, game, g.moveIndex, old(g.target), draws, g.target, r)
  {
    hide TableSize, PlaysFor;
    var strategy := new SlavaStrategy(g, self, world, game);
    ghost var before := g.target;
    r := strategy.Run(draws);
    assert PlaysFor(self, world, game, g.moveIndex, before, draws, g.target, r, strategy.bestScore);
  }

  datatype Turn = Turn(self: Soldier, world: Arena, draws: seq<Point>)

  /** A message the server may send in a game on board `b`. */
  ghost predicate TurnOk(b: Board, turn: Turn) {
    && WorldOk(turn.world) && BoardOf(turn.world) == b
    && turn.self in turn.world.troopers && turn.self.teammate
    && forall i :: 0 <= i < |turn.draws| ==> b.IsCorrect(turn.draws[i])
  }

  ghost predicate TurnPlays(b: Board, turn: Turn, game: Game, index: int, before: Point, after: Point, r: Option<Move>)
    requires TurnOk(b, turn)
  {
    Plays(turn.self, turn.world, game, index, before, turn.draws, after, r)
  }

  method PlayTurn(g: Globals, ghost b: Board, game: Game, turn: Turn) returns (r: Option<Move>)
    requires b.Valid() && TurnOk(b, turn) && g.moveIndex >= -1
    requires if g.moveIndex == -1 then Countable(b) else g.Knows(b) && b.IsCorrect(g.target)
    modifies g
    ensures g.moveIndex == old(g.moveIndex) + 1
    ensures if g.moveIndex == 0 then fresh(g.floydDist) else g.floydDist == old(g.floydDist)
    ensures g.Knows(b) && b.IsCorrect(g.target)
    ensures TurnPlays(b, turn, game, g.moveIndex, old(g.target), g.target, r)
  {
    hide TableSize, Plays;
    r := PlayMove(g, turn.self, turn.world, game, turn.draws);
  }

  /** A whole game. It stops early only if the target loop of some move ran out of draws. */
  method PlayGame(ghost b: Board, game: Game, turns: seq<Turn>)
    returns (answers: seq<Option<Move>>, ghost targets: seq<Point>)
    requires b.Valid() && Countable(b)
    requires forall i :: 0 <= i < |turns| ==> TurnOk(b, turns[i])
    ensures |targets| == |answers| + 1 <= |turns| + 1
    ensures forall i :: 0 <= i < |answers| ==>
      TurnPlays(b, turns[i], game, i, targets[i], targets[i + 1], answers[i])
    ensures forall i :: 0 <= i < |answers| - 1 ==> answers[i].Some?
    ensures |answers| < |turns| ==> answers != [] && answers[|answers| - 1].None?
  {
    hide TurnPlays, TurnOk, Globals.Knows;
    var g := new Globals();
    answers, targets := [], [g.target];
    while |answers| < |turns|
      invariant |targets| == |answers| + 1 <= |turns| + 1
      invariant targets[|answers|] == g.target
      invariant g.moveIndex == |answers| - 1
      invariant answers != [] ==> g.Knows(b) && b.IsCorrect(g.target)
      invariant fresh(g) && (answers != [] ==> fresh(g.floydDist))
      invariant forall i :: 0 <= i < |answers| ==> answers[i].Some?
      invariant forall i :: 0 <= i < |answers| ==>
        TurnPlays(b, turns[i], game, i, targets[i], targets[i + 1], answers[i])
    {
      var turn := turns[|answers|];
      assert TurnOk(b, turn);
      var r := PlayTurn(g, b, game, turn);
      answers := answers + [r];
      targets := targets + [g.target];
      if r.None? {
        return;
      }
    }
  }
}
