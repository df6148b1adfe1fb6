/** The plan tree: the state a plan carries, which actions are legal in it, what each does,
    and how a state is scored. Everything here is a value; the search itself is in Strategy. */
module PlanTree {
  import opened Grid
  import opened Distances
  import opened Visibility
  import opened Model

  type Soldier = Trooper<real>

  /** What the strategy sees during one move: none of it changes while it searches. */
  datatype View = View(
    board: Board,               // the world's cells, on which the distance table is built
    cells: seq<seq<int>>,       // the copy in which trooper cells are marked as covered
    sight: Sight, self: Soldier, teammates: seq<Soldier>, enemies: seq<Soldier>,
    bonuses: seq<Bonus>, game: Game, stances: seq<int>, target: Point)
  {
    function Local(): Board {
      Board(board.sizeX, board.sizeY, cells)
    }

    ghost predicate Sound() {
      && board.Valid()
      && Local().Valid()
      && sight.Valid() && sight.width == board.sizeX && sight.height == board.sizeY
      && (forall i :: 0 <= i < |teammates| ==> Placed(teammates[i]))
      && (forall i :: 0 <= i < |enemies| ==> Placed(enemies[i]))
      && (forall i :: 0 <= i < |stances| ==> PRONE <= stances[i] <= STANDING)
      && |teammates| > 0
    }

    predicate Placed(t: Soldier) {
      board.IsCorrect(At(t)) && PRONE <= t.stance <= STANDING
    }
  }

  function At(t: Soldier): Point {
    Point(t.x, t.y)
  }

  datatype State = State(
    mateDamage: int, damage: int, kills: int, pos: Point, stance: int,
    hasMedkit: bool, hasFieldRation: bool, usedFieldRation: bool,
    hasGrenade: bool, usedGrenade: bool)

  /** The arguments of one call of the search. */
  datatype Node = Node(points: int, state: State)

  ghost predicate OnBoard(v: View, s: State) {
    v.board.IsCorrect(s.pos) && PRONE <= s.stance <= STANDING
  }

  // ---- Entering a node: bonuses lying on the cell ----

  ghost predicate BonusAt(bonuses: seq<Bonus>, pos: Point, kind: int) {
    exists bonus <- bonuses :: Point(bonus.x, bonus.y) == pos && bonus.kind == kind
  }

  ghost function PickUp(bonuses: seq<Bonus>, s: State): State {
    s.(hasMedkit := s.hasMedkit || BonusAt(bonuses, s.pos, MEDIKIT),
       hasFieldRation := s.hasFieldRation || (!s.usedFieldRation && BonusAt(bonuses, s.pos, FIELD_RATION)),
       hasGrenade := s.hasGrenade || (!s.usedGrenade && BonusAt(bonuses, s.pos, GRENADE)))
  }

  // ---- Scoring ----

  /** sqrt(dx^2 + dy^2) <= range */
  predicate IsNear(p: Point, q: Point, range: real) {
    var dx, dy := q.x - p.x, q.y - p.y;
    range >= 0.0 && (dx * dx + dy * dy) as real <= range * range
  }

  ghost function MatesDist(v: View, pos: Point, count: nat): int
    requires v.board.Valid() && count <= |v.teammates|
  {
    if count == 0 then 0 else MatesDist(v, pos, count - 1) + Dist(v.board, pos, At(v.teammates[count - 1]))
  }

  predicate InspiredBy(v: View, pos: Point, mate: Soldier) {
    mate.kind == COMMANDER && IsNear(pos, At(mate), v.game.commanderAuraRange)
  }

  ghost predicate CloseToCommander(v: View, pos: Point, count: nat)
    requires count <= |v.teammates|
  {
    count > 0 && (CloseToCommander(v, pos, count - 1) || InspiredBy(v, pos, v.teammates[count - 1]))
  }

  ghost predicate SeenAt(v: View, s: State, enemy: Soldier, stance: int)
    requires v.Sound() && OnBoard(v, s) && v.Placed(enemy) && PRONE <= stance <= STANDING
  {
    IsVisible(v.sight, enemy.shootingRange, enemy.x, enemy.y, stance, s.pos.x, s.pos.y, s.stance)
  }

  ghost predicate Threatens(v: View, s: State, enemy: Soldier)
    requires v.Sound() && OnBoard(v, s) && v.Placed(enemy)
  {
    || IsNear(s.pos, At(enemy), v.game.grenadeThrowRange)
    || exists i :: 0 <= i < |v.stances| && SeenAt(v, s, enemy, v.stances[i])
  }

  ghost function ShootingEnemies(v: View, s: State, count: nat): (n: nat)
    requires v.Sound() && OnBoard(v, s) && count <= |v.enemies|
    ensures n <= count
  {
    if count == 0 then 0
    else ShootingEnemies(v, s, count - 1) + if Threatens(v, s, v.enemies[count - 1]) then 1 else 0
  }

  function Bit(b: bool): int {
    if b then 1 else 0
  }

  ghost function Score(v: View, s: State): int
    requires v.Sound() && OnBoard(v, s)
  {
    - 2000 * s.mateDamage + 300 * s.damage + 20000 * s.kills
    - 10000 * ShootingEnemies(v, s, |v.enemies|)
    + 400 * Bit(s.hasMedkit) + 400 * Bit(s.hasFieldRation) + 400 * Bit(s.hasGrenade)
    - 60 * MatesDist(v, s.pos, |v.teammates|) / |v.teammates|
    - (if s.mateDamage >= 0 && s.damage == 0 then 55 * Dist(v.board, s.pos, v.target) else 0)
    + (if v.self.kind != SCOUT then 500 * Bit(CloseToCommander(v, s.pos, |v.teammates|)) else 0)
  }

  // ---- Actions ----

  /** The attempts the search makes at a node, in program order. */
  datatype Kind = MedikitMate | MedikitSelf | Throw | HealMate | HealSelf | Fire | Walk | Raise | Lower | Eat {
    function Order(): nat {
      match this
      case MedikitMate => 0
      case MedikitSelf => 1
      case Throw => 2
      case HealMate => 3
      case HealSelf => 4
      case Fire => 5
      case Walk => 6
      case Raise => 7
      case Lower => 8
      case Eat => 9
    }
  }

  const KINDS := [MedikitMate, MedikitSelf, Throw, HealMate, HealSelf, Fire, Walk, Raise, Lower, Eat]

  /** `index` picks the teammate, the enemy or the neighbouring cell. */
  datatype Act = Act(kind: Kind, index: nat)

  predicate Earlier(a: Act, c: Act) {
    a.kind.Order() < c.kind.Order() || (a.kind == c.kind && a.index < c.index)
  }

  function Choices(v: View, s: State, kind: Kind): nat {
    match kind
    case MedikitMate => |v.teammates|
    case Throw => |v.enemies|
    case HealMate => |v.teammates|
    case Fire => |v.enemies|
    case Walk => |Neighs(v.board, s.pos)|
    case _ => 1
  }

  function Heal(bonus: int, t: Soldier): int {
    Min(bonus, t.maximalHitpoints - t.hitpoints)
  }

  function MoveCost(game: Game, stance: int): int {
    match stance
    case 0 => game.proneMoveCost
    case 1 => game.kneelingMoveCost
    case _ => game.standingMoveCost
  }

  function Cost(v: View, s: State, kind: Kind): int {
    match kind
    case MedikitMate => v.game.medikitUseCost
    case MedikitSelf => v.game.medikitUseCost
    case Throw => v.game.grenadeThrowCost
    case HealMate => v.game.fieldMedicHealCost
    case HealSelf => v.game.fieldMedicHealCost
    case Fire => v.self.shootCost
    case Walk => MoveCost(v.game, s.stance)
    case Raise => v.game.stanceChangeCost
    case Lower => v.game.stanceChangeCost
    case Eat => v.game.fieldRationEatCost
  }

  function DamageAt(t: Soldier, stance: int): int {
    if stance == PRONE then t.proneDamage
    else if stance == KNEELING then t.kneelingDamage
    else t.standingDamage
  }

  ghost predicate Allowed(v: View, s: State, a: Act)
    requires v.Sound() && OnBoard(v, s) && a.index < Choices(v, s, a.kind)
  {
    match a.kind
    case MedikitMate =>
      && s.hasMedkit
      && HasNeigh(v.board, s.pos, At(v.teammates[a.index]))
      && Heal(v.game.medikitBonusHitpoints, v.teammates[a.index]) > 0
    case MedikitSelf => s.hasMedkit && Heal(v.game.medikitHealSelfBonusHitpoints, v.self) > 0
    case Throw => s.hasGrenade && IsNear(s.pos, At(v.enemies[a.index]), v.game.grenadeThrowRange)
    case HealMate =>
      && v.self.kind == FIELD_MEDIC
      && HasNeigh(v.board, s.pos, At(v.teammates[a.index]))
      && Heal(v.game.fieldMedicHealBonusHitpoints, v.teammates[a.index]) > 0
    case HealSelf => v.self.kind == FIELD_MEDIC && Heal(v.game.fieldMedicHealSelfBonusHitpoints, v.self) > 0
    case Fire =>
      var enemy := v.enemies[a.index];
      IsVisible(v.sight, v.self.shootingRange, s.pos.x, s.pos.y, s.stance, enemy.x, enemy.y, enemy.stance)
    case Walk => v.Local().Free(Neighs(v.board, s.pos)[a.index])
    case Raise => s.stance != STANDING
    case Lower => s.stance != PRONE
    case Eat => s.hasFieldRation
  }

  /** `s` is the state after picking up, `points` the points left before acting. */
  ghost predicate Legal(v: View, points: int, s: State, a: Act)
    requires v.Sound() && OnBoard(v, s)
  {
    points - Cost(v, s, a.kind) >= 0 && a.index < Choices(v, s, a.kind) && Allowed(v, s, a)
  }

  /** The guards the search tests once per kind, before it looks at single choices. */
  predicate Worthwhile(v: View, points: int, s: State, kind: Kind) {
    && points - Cost(v, s, kind) >= 0
    && match kind
       case MedikitMate => s.hasMedkit
       case MedikitSelf => s.hasMedkit
       case Throw => s.hasGrenade
       case HealMate => v.self.kind == FIELD_MEDIC
       case HealSelf => v.self.kind == FIELD_MEDIC
       case Raise => s.stance != STANDING
       case Lower => s.stance != PRONE
       case Eat => s.hasFieldRation
       case _ => true
  }

  lemma LegalIsWorthwhile(v: View, points: int, s: State, a: Act)
    requires v.Sound() && OnBoard(v, s) && Legal(v, points, s, a)
    ensures Worthwhile(v, points, s, a.kind)
  {
  }

  /** How many of the first `count` units stand next to `p`. */
  ghost function Adjacent(v: View, p: Point, units: seq<Soldier>, count: nat): nat
    requires count <= |units|
  {
    if count == 0 then 0
    else Adjacent(v, p, units, count - 1) + if HasNeigh(v.board, p, At(units[count - 1])) then 1 else 0
  }

  /** What they suffer together: `damage` each. */
  ghost function AdjacentHarm(v: View, p: Point, units: seq<Soldier>, damage: int, count: nat): int
    requires count <= |units|
  {
    if count == 0 then 0
    else AdjacentHarm(v, p, units, damage, count - 1) + if HasNeigh(v.board, p, At(units[count - 1])) then damage else 0
  }

  lemma {:induction false} HarmPerUnit(v: View, p: Point, units: seq<Soldier>, damage: int, count: nat)
    requires count <= |units|
    ensures AdjacentHarm(v, p, units, damage, count) == damage * Adjacent(v, p, units, count)
  {
    hide HasNeigh;
    if count > 0 {
      HarmPerUnit(v, p, units, damage, count - 1);
      var before := Adjacent(v, p, units, count - 1);
      assert damage * (before + 1) == damage * before + damage;
    }
  }

  /** How many of them die of `damage`. */
  ghost function AdjacentKilled(v: View, p: Point, units: seq<Soldier>, damage: int, count: nat): nat
    requires count <= |units|
  {
    if count == 0 then 0
    else AdjacentKilled(v, p, units, damage, count - 1)
         + if HasNeigh(v.board, p, At(units[count - 1])) && damage >= units[count - 1].hitpoints then 1 else 0
  }

  lemma NoneAdjacent(v: View, p: Point, units: seq<Soldier>, damage: int)
    ensures AdjacentHarm(v, p, units, damage, 0) == AdjacentKilled(v, p, units, damage, 0) == 0
  {
  }

  lemma NextAdjacent(v: View, p: Point, units: seq<Soldier>, damage: int, i: nat)
    requires i < |units|
    ensures var near := HasNeigh(v.board, p, At(units[i]));
            && AdjacentHarm(v, p, units, damage, i + 1)
               == AdjacentHarm(v, p, units, damage, i) + (if near then damage else 0)
            && AdjacentKilled(v, p, units, damage, i + 1)
               == AdjacentKilled(v, p, units, damage, i) + Bit(near && damage >= units[i].hitpoints)
  {
  }

  /** A grenade on `enemy`: a direct hit, and collateral damage to friend and foe next to it. */
  ghost function Exploded(v: View, s: State, enemy: Soldier): State {
    var direct, blast := v.game.grenadeDirectDamage, v.game.grenadeCollateralDamage;
    s.(damage := s.damage + direct + AdjacentHarm(v, At(enemy), v.enemies, blast, |v.enemies|),
       mateDamage := s.mateDamage + AdjacentHarm(v, At(enemy), v.teammates, blast, |v.teammates|),
       kills := s.kills + Bit(direct >= enemy.hitpoints)
                + AdjacentKilled(v, At(enemy), v.enemies, blast, |v.enemies|)
                - 2 * AdjacentKilled(v, At(enemy), v.teammates, blast, |v.teammates|),
       hasGrenade := false, usedGrenade := true)
  }

  ghost function Effect(v: View, s: State, a: Act): (r: State)
    requires v.Sound() && OnBoard(v, s) && a.index < Choices(v, s, a.kind) && Allowed(v, s, a)
    ensures OnBoard(v, r)
  {
    match a.kind
    case MedikitMate =>
      s.(mateDamage := s.mateDamage - Heal(v.game.medikitBonusHitpoints, v.teammates[a.index]),
         hasMedkit := false)
    case MedikitSelf =>
      s.(mateDamage := s.mateDamage - Heal(v.game.medikitHealSelfBonusHitpoints, v.self), hasMedkit := false)
    case Throw => Exploded(v, s, v.enemies[a.index])
    case HealMate =>
      s.(mateDamage := s.mateDamage - Heal(v.game.fieldMedicHealBonusHitpoints, v.teammates[a.index]))
    case HealSelf =>
      s.(mateDamage := s.mateDamage - Heal(v.game.fieldMedicHealSelfBonusHitpoints, v.self))
    case Fire =>
      s.(damage := s.damage + DamageAt(v.self, s.stance),
         kills := s.kills + Bit(DamageAt(v.self, s.stance) >= v.enemies[a.index].hitpoints))
    case Walk => s.(pos := Neighs(v.board, s.pos)[a.index])
    case Raise => s.(stance := s.stance + 1)
    case Lower => s.(stance := s.stance - 1)
    case Eat => s.(hasFieldRation := false, usedFieldRation := true)
  }

  ghost function Apply(v: View, points: int, s: State, a: Act): (child: Node)
    requires v.Sound() && OnBoard(v, s) && Legal(v, points, s, a)
    ensures OnBoard(v, child.state)
  {
    Node(points - Cost(v, s, a.kind) + (if a.kind == Eat then v.game.fieldRationBonusActionPoints else 0),
         Effect(v, s, a))
  }

  function ActionMove(action: int): Move {
    Move(action, UNKNOWN_DIRECTION, -1, -1)
  }

  function ActionMoveAt(action: int, p: Point): Move {
    Move(action, UNKNOWN_DIRECTION, p.x, p.y)
  }

  /** The move that would carry `a` out. */
  function MoveOf(v: View, s: State, a: Act): Move
    requires a.index < Choices(v, s, a.kind)
  {
    match a.kind
    case MedikitMate => ActionMoveAt(USE_MEDIKIT, At(v.teammates[a.index]))
    case MedikitSelf => ActionMoveAt(USE_MEDIKIT, At(v.self))
    case Throw => ActionMoveAt(THROW_GRENADE, At(v.enemies[a.index]))
    case HealMate => ActionMoveAt(HEAL, At(v.teammates[a.index]))
    case HealSelf => ActionMoveAt(HEAL, At(v.self))
    case Fire => ActionMoveAt(SHOOT, At(v.enemies[a.index]))
    case Walk => ActionMoveAt(MOVE, Neighs(v.board, s.pos)[a.index])
    case Raise => ActionMove(RAISE_STANCE)
    case Lower => ActionMove(LOWER_STANCE)
    case Eat => ActionMove(EAT_FIELD_RATION)
  }

  // ---- Plans ----

  ghost function Entered(v: View, node: Node): (s: State)
    ensures OnBoard(v, node.state) ==> OnBoard(v, s)
  {
    PickUp(v.bonuses, node.state)
  }

  ghost predicate Opens(v: View, node: Node, a: Act)
    requires v.Sound() && OnBoard(v, node.state)
  {
    Legal(v, node.points, Entered(v, node), a)
  }

  ghost function Child(v: View, node: Node, a: Act): (child: Node)
    requires v.Sound() && OnBoard(v, node.state) && Opens(v, node, a)
    ensures OnBoard(v, child.state)
  {
    Apply(v, node.points, Entered(v, node), a)
  }

  ghost predicate IsPlan(v: View, node: Node, plan: seq<Act>)
    requires v.Sound() && OnBoard(v, node.state)
    decreases |plan|
  {
    plan != [] ==> Opens(v, node, plan[0]) && IsPlan(v, Child(v, node, plan[0]), plan[1..])
  }

  ghost function End(v: View, node: Node, plan: seq<Act>): (last: Node)
    requires v.Sound() && OnBoard(v, node.state) && IsPlan(v, node, plan)
    ensures OnBoard(v, last.state)
    decreases |plan|
  {
    if plan == [] then node else End(v, Child(v, node, plan[0]), plan[1..])
  }

  /** The score the search gives to the node a plan leads to. */
  ghost function Value(v: View, node: Node, plan: seq<Act>): int
    requires v.Sound() && OnBoard(v, node.state) && IsPlan(v, node, plan)
  {
    Score(v, Entered(v, End(v, node, plan)))
  }
}
