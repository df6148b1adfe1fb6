/** What each action needs, does and sends: in coordinates, hit points and the protocol's own
    numbers. `PlanTree` composes actions from rules; here every rule is spelled out. */
module Steps {
  import opened Grid
  import opened Visibility
  import opened Model
  import opened PlanTree

  // ---- Geometry ----

  predicate Beside(x: int, y: int, t: Soldier) {
    (x == t.x && (y == t.y + 1 || y == t.y - 1)) || (y == t.y && (x == t.x + 1 || x == t.x - 1))
  }

  predicate Lost(x: int, y: int, t: Soldier, damage: int) {
    Beside(x, y, t) && t.hitpoints <= damage
  }

  /** The squares of distance and range are compared; a negative range reaches nothing. */
  predicate WithinRange(x: int, y: int, t: Soldier, range: real) {
    range >= 0.0 && ((t.x - x) * (t.x - x) + (t.y - y) * (t.y - y)) as real <= range * range
  }

  lemma IsNearMeaning(p: Point, t: Soldier, range: real)
    ensures IsNear(p, At(t), range) <==> WithinRange(p.x, p.y, t, range)
    ensures p.y == t.y ==> (IsNear(p, At(t), range) <==> (p.x - t.x) as real <= range && (t.x - p.x) as real <= range)
    ensures p.x == t.x ==> (IsNear(p, At(t), range) <==> (p.y - t.y) as real <= range && (t.y - p.y) as real <= range)
  {
    if range >= 0.0 && (p.x == t.x || p.y == t.y) {
      InRangeOnLine(range, p.x, p.y, t.x, t.y);
    }
  }

  /** Which of the first `count` units are beside the cell, and which of those die of `damage`. */
  ghost function NextTo(x: int, y: int, units: seq<Soldier>, count: nat): set<nat>
    requires count <= |units|
  {
    set i: nat | i < count && Beside(x, y, units[i])
  }

  ghost function LostNextTo(x: int, y: int, units: seq<Soldier>, damage: int, count: nat): set<nat>
    requires count <= |units|
  {
    set i: nat | i < count && Lost(x, y, units[i], damage)
  }

  lemma BesideMeaning(v: View, p: Point, t: Soldier)
    requires v.Placed(t)
    ensures HasNeigh(v.board, p, At(t)) <==> Beside(p.x, p.y, t)
  {
  }

  lemma MoreNextTo(x: int, y: int, units: seq<Soldier>, k: nat)
    requires k < |units|
    ensures |NextTo(x, y, units, k + 1)| == |NextTo(x, y, units, k)| + Bit(Beside(x, y, units[k]))
  {
    hide Beside;
    OneMore(NextTo(x, y, units, k), NextTo(x, y, units, k + 1), k, Beside(x, y, units[k]));
  }

  lemma MoreLostNextTo(x: int, y: int, units: seq<Soldier>, damage: int, k: nat)
    requires k < |units|
    ensures |LostNextTo(x, y, units, damage, k + 1)| ==
            |LostNextTo(x, y, units, damage, k)| + Bit(Lost(x, y, units[k], damage))
  {
    hide Lost;
    OneMore(LostNextTo(x, y, units, damage, k), LostNextTo(x, y, units, damage, k + 1), k,
            Lost(x, y, units[k], damage));
  }

  lemma {:induction false} BlastCounts(v: View, p: Point, units: seq<Soldier>, damage: int, count: nat)
    requires count <= |units| && forall i :: 0 <= i < count ==> v.Placed(units[i])
    ensures Adjacent(v, p, units, count) == |NextTo(p.x, p.y, units, count)|
    ensures AdjacentKilled(v, p, units, damage, count) == |LostNextTo(p.x, p.y, units, damage, count)|
  {
    if count > 0 {
      hide HasNeigh, Beside, View.Placed, NextTo, LostNextTo;
      BlastCounts(v, p, units, damage, count - 1);
      BesideMeaning(v, p, units[count - 1]);
      MoreNextTo(p.x, p.y, units, count - 1);
      MoreLostNextTo(p.x, p.y, units, damage, count - 1);
    }
  }

  lemma {:induction false} NextToAtMost(x: int, y: int, units: seq<Soldier>, damage: int, count: nat)
    requires count <= |units|
    ensures |NextTo(x, y, units, count)| <= count && |LostNextTo(x, y, units, damage, count)| <= count
  {
    if count > 0 {
      NextToAtMost(x, y, units, damage, count - 1);
      MoreNextTo(x, y, units, count - 1);
      MoreLostNextTo(x, y, units, damage, count - 1);
    }
  }

  lemma OneMore(before: set<nat>, after: set<nat>, k: nat, more: bool)
    requires k !in before && after == before + if more then {k} else {}
    ensures |after| == |before| + Bit(more)
  {
  }

  // ---- Arriving ----

  predicate Lies(v: View, x: int, y: int, kind: int) {
    exists i :: 0 <= i < |v.bonuses| && v.bonuses[i].x == x && v.bonuses[i].y == y && v.bonuses[i].kind == kind
  }

  /** What the trooper has once it has arrived; nothing else changes. */
  lemma Arriving(v: View, node: Node)
    ensures var n, s := node.state, Entered(v, node);
            && (s.hasMedkit <==> n.hasMedkit || Lies(v, n.pos.x, n.pos.y, 1))
            && (s.hasFieldRation <==> n.hasFieldRation || (!n.usedFieldRation && Lies(v, n.pos.x, n.pos.y, 2)))
            && (s.hasGrenade <==> n.hasGrenade || (!n.usedGrenade && Lies(v, n.pos.x, n.pos.y, 0)))
            && s == n.(hasMedkit := s.hasMedkit, hasFieldRation := s.hasFieldRation, hasGrenade := s.hasGrenade)
  {
    forall kind ensures BonusAt(v.bonuses, node.state.pos, kind) <==> Lies(v, node.state.pos.x, node.state.pos.y, kind)
    {
    }
  }

  // ---- Walking ----

  function StepPrice(game: Game, stance: int): int {
    if stance == 2 then game.standingMoveCost else if stance == 1 then game.kneelingMoveCost else game.proneMoveCost
  }

  /** The trooper moves to a neighbouring cell that is free in the strategy's copy of the map, at the
      price of its stance, and takes everything it has with it. */
  lemma Walking(v: View, node: Node, a: Act)
    requires v.Sound() && OnBoard(v, node.state) && Opens(v, node, a) && a.kind == Walk
    ensures var s, child := Entered(v, node), Child(v, node, a);
            var to := child.state.pos;
            && v.board.IsCorrect(to) && v.cells[to.x][to.y] == 0
            && (to in {Point(s.pos.x - 1, s.pos.y), Point(s.pos.x, s.pos.y - 1),
                       Point(s.pos.x + 1, s.pos.y), Point(s.pos.x, s.pos.y + 1)})
            && child == Node(node.points - StepPrice(v.game, s.stance), s.(pos := to)) && child.points >= 0
            && MoveOf(v, s, a) == Move(1, -1, to.x, to.y)
  {
    hide BonusAt, IsVisible, IsNear;
    NeighsInOrder(v.board, Entered(v, node).pos);
  }

  /** ... and every such cell can be stepped on. */
  lemma WalkingWherever(v: View, node: Node, to: Point) returns (a: Act)
    requires v.Sound() && OnBoard(v, node.state)
    requires v.board.IsCorrect(to) && v.cells[to.x][to.y] == 0
    requires var p := node.state.pos;
             to in {Point(p.x - 1, p.y), Point(p.x, p.y - 1), Point(p.x + 1, p.y), Point(p.x, p.y + 1)}
    requires node.points - StepPrice(v.game, node.state.stance) >= 0
    ensures Opens(v, node, a) && a.kind == Walk && Child(v, node, a).state.pos == to
  {
    hide BonusAt, Neighs, HasNeigh, Board.Valid;
    var p := node.state.pos;
    NeighsInOrder(v.board, p);
    var i: nat :| i < |Neighs(v.board, p)| && Neighs(v.board, p)[i] == to;
    a := Act(Walk, i);
  }

  // ---- Shooting ----

  function DamageOf(t: Soldier, stance: int): int {
    if stance == 0 then t.proneDamage else if stance == 1 then t.kneelingDamage else t.standingDamage
  }

  /** A shot can be paid for, its target is within shooting range, and the table's entry for the two
      cells and the lower of the two stances is set. */
  lemma Shooting(v: View, node: Node, i: nat, t: Table)
    requires v.Sound() && OnBoard(v, node.state) && i < |v.enemies|
    requires v.sight.cells == Flatten(v.board.sizeX, v.board.sizeY, t)
    ensures var s, e := Entered(v, node), v.enemies[i];
            Opens(v, node, Act(Fire, i)) <==>
            && node.points >= v.self.shootCost
            && ((e.x - s.pos.x) * (e.x - s.pos.x) + (e.y - s.pos.y) * (e.y - s.pos.y)) as real
               <= v.self.shootingRange * v.self.shootingRange
            && t(Sighting(s.pos.x, s.pos.y, e.x, e.y, if s.stance <= e.stance then s.stance else e.stance))
  {
    hide BonusAt, IsVisible, IsNear, Flatten, Board.Valid;
    var s, e := Entered(v, node), v.enemies[i];
    assert v.Placed(e);
    assert v.sight == Sight(v.board.sizeX, v.board.sizeY, v.sight.cells);
    IsVisibleMeaning(v.board.sizeX, v.board.sizeY, t, v.self.shootingRange,
                     s.pos.x, s.pos.y, s.stance, e.x, e.y, e.stance);
  }

  /** It does the damage of the shooter's stance, and kills who has no more hit points than that. */
  lemma Hitting(v: View, node: Node, a: Act)
    requires v.Sound() && OnBoard(v, node.state) && Opens(v, node, a) && a.kind == Fire
    ensures var s, e := Entered(v, node), v.enemies[a.index];
            var hit := DamageOf(v.self, s.stance);
            && Child(v, node, a) == Node(node.points - v.self.shootCost,
                                         s.(damage := s.damage + hit,
                                            kills := s.kills + if hit >= e.hitpoints then 1 else 0))
            && MoveOf(v, s, a) == Move(2, -1, e.x, e.y)
  {
    hide BonusAt, IsVisible, IsNear;
  }

  // ---- Grenades ----

  /** A grenade needs an enemy within range. It hits that enemy and everyone beside it. */
  lemma Throwing(v: View, node: Node, i: nat)
    requires v.Sound() && OnBoard(v, node.state) && i < |v.enemies|
    ensures var s, e, a := Entered(v, node), v.enemies[i], Act(Throw, i);
            && (Opens(v, node, a) <==>
                && node.points >= v.game.grenadeThrowCost && s.hasGrenade
                && WithinRange(s.pos.x, s.pos.y, e, v.game.grenadeThrowRange))
            && (Opens(v, node, a) ==>
                var direct, blast := v.game.grenadeDirectDamage, v.game.grenadeCollateralDamage;
                && Child(v, node, a) == Node(
                     node.points - v.game.grenadeThrowCost,
                     s.(damage := s.damage + direct + blast * |NextTo(e.x, e.y, v.enemies, |v.enemies|)|,
                        mateDamage := s.mateDamage + blast * |NextTo(e.x, e.y, v.teammates, |v.teammates|)|,
                        kills := s.kills + (if direct >= e.hitpoints then 1 else 0)
                                 + |LostNextTo(e.x, e.y, v.enemies, blast, |v.enemies|)|
                                 - 2 * |LostNextTo(e.x, e.y, v.teammates, blast, |v.teammates|)|,
                        hasGrenade := false, usedGrenade := true))
                && MoveOf(v, s, a) == Move(5, -1, e.x, e.y))
  {
    hide BonusAt, IsNear, Adjacent, AdjacentHarm, AdjacentKilled, NextTo, LostNextTo, HasNeigh;
    var s, e, blast := Entered(v, node), v.enemies[i], v.game.grenadeCollateralDamage;
    IsNearMeaning(s.pos, e, v.game.grenadeThrowRange);
    BlastMeaning(v, At(e), v.enemies, blast);
    BlastMeaning(v, At(e), v.teammates, blast);
  }

  lemma BlastMeaning(v: View, p: Point, units: seq<Soldier>, damage: int)
    requires forall i :: 0 <= i < |units| ==> v.Placed(units[i])
    ensures AdjacentHarm(v, p, units, damage, |units|) == damage * |NextTo(p.x, p.y, units, |units|)|
    ensures AdjacentKilled(v, p, units, damage, |units|) == |LostNextTo(p.x, p.y, units, damage, |units|)|
  {
    HarmPerUnit(v, p, units, damage, |units|);
    BlastCounts(v, p, units, damage, |units|);
  }

  // ---- Medikits and healing ----

  /** What a treatment worth `bonus` restores. */
  function Restored(bonus: int, t: Soldier): int {
    var missing := t.maximalHitpoints - t.hitpoints;
    if bonus <= missing then bonus else missing
  }

  /** A medikit is used on a wounded teammate beside the trooper, and is gone. */
  lemma MedikitForMate(v: View, node: Node, i: nat)
    requires v.Sound() && OnBoard(v, node.state) && i < |v.teammates|
    ensures var s, m, a := Entered(v, node), v.teammates[i], Act(MedikitMate, i);
            var heal := Restored(v.game.medikitBonusHitpoints, m);
            && (Opens(v, node, a) <==>
                node.points >= v.game.medikitUseCost && s.hasMedkit && Beside(s.pos.x, s.pos.y, m) && heal > 0)
            && (Opens(v, node, a) ==>
                && Child(v, node, a) == Node(node.points - v.game.medikitUseCost,
                                             s.(mateDamage := s.mateDamage - heal, hasMedkit := false))
                && MoveOf(v, s, a) == Move(6, -1, m.x, m.y))
  {
    hide BonusAt;
    assert v.Placed(v.teammates[i]);
  }

  /** ... or on the wounded trooper itself; the answer names the cell where it started. */
  lemma MedikitForSelf(v: View, node: Node)
    requires v.Sound() && OnBoard(v, node.state)
    ensures var s, a := Entered(v, node), Act(MedikitSelf, 0);
            var heal := Restored(v.game.medikitHealSelfBonusHitpoints, v.self);
            && (Opens(v, node, a) <==> node.points >= v.game.medikitUseCost && s.hasMedkit && heal > 0)
            && (Opens(v, node, a) ==>
                && Child(v, node, a) == Node(node.points - v.game.medikitUseCost,
                                             s.(mateDamage := s.mateDamage - heal, hasMedkit := false))
                && MoveOf(v, s, a) == Move(6, -1, v.self.x, v.self.y))
  {
    hide BonusAt;
  }

  /** A field medic heals a wounded teammate beside it. */
  lemma HealingMate(v: View, node: Node, i: nat)
    requires v.Sound() && OnBoard(v, node.state) && i < |v.teammates|
    ensures var s, m, a := Entered(v, node), v.teammates[i], Act(HealMate, i);
            var heal := Restored(v.game.fieldMedicHealBonusHitpoints, m);
            && (Opens(v, node, a) <==>
                && v.self.kind == 1 && node.points >= v.game.fieldMedicHealCost
                && Beside(s.pos.x, s.pos.y, m) && heal > 0)
            && (Opens(v, node, a) ==>
                && Child(v, node, a) == Node(node.points - v.game.fieldMedicHealCost,
                                             s.(mateDamage := s.mateDamage - heal))
                && MoveOf(v, s, a) == Move(8, -1, m.x, m.y))
  {
    hide BonusAt;
    assert v.Placed(v.teammates[i]);
  }

  lemma HealingSelf(v: View, node: Node)
    requires v.Sound() && OnBoard(v, node.state)
    ensures var s, a := Entered(v, node), Act(HealSelf, 0);
            var heal := Restored(v.game.fieldMedicHealSelfBonusHitpoints, v.self);
            && (Opens(v, node, a) <==> v.self.kind == 1 && node.points >= v.game.fieldMedicHealCost && heal > 0)
            && (Opens(v, node, a) ==>
                && Child(v, node, a) == Node(node.points - v.game.fieldMedicHealCost,
                                             s.(mateDamage := s.mateDamage - heal))
                && MoveOf(v, s, a) == Move(8, -1, v.self.x, v.self.y))
  {
    hide BonusAt;
  }

  // ---- Stance and ration ----

  lemma OnlyChoice(v: View, node: Node, a: Act)
    requires v.Sound() && OnBoard(v, node.state) && Opens(v, node, a)
    requires a.kind in {MedikitSelf, HealSelf, Raise, Lower, Eat}
    ensures a == Act(a.kind, 0)
  {
    hide View.Sound, OnBoard, Allowed, Cost;
  }

  lemma Raising(v: View, node: Node)
    requires v.Sound() && OnBoard(v, node.state)
    ensures var s, a := Entered(v, node), Act(Raise, 0);
            && (Opens(v, node, a) <==> node.points >= v.game.stanceChangeCost && s.stance < 2)
            && (Opens(v, node, a) ==>
                && Child(v, node, a) == Node(node.points - v.game.stanceChangeCost, s.(stance := s.stance + 1))
                && MoveOf(v, s, a) == Move(3, -1, -1, -1))
  {
    hide BonusAt;
  }

  lemma Lowering(v: View, node: Node)
    requires v.Sound() && OnBoard(v, node.state)
    ensures var s, a := Entered(v, node), Act(Lower, 0);
            && (Opens(v, node, a) <==> node.points >= v.game.stanceChangeCost && s.stance > 0)
            && (Opens(v, node, a) ==>
                && Child(v, node, a) == Node(node.points - v.game.stanceChangeCost, s.(stance := s.stance - 1))
                && MoveOf(v, s, a) == Move(4, -1, -1, -1))
  {
    hide BonusAt;
  }

  lemma Eating(v: View, node: Node)
    requires v.Sound() && OnBoard(v, node.state)
    ensures var s, a := Entered(v, node), Act(Eat, 0);
            && (Opens(v, node, a) <==> node.points >= v.game.fieldRationEatCost && s.hasFieldRation)
            && (Opens(v, node, a) ==>
                && Child(v, node, a) == Node(node.points - v.game.fieldRationEatCost
                                             + v.game.fieldRationBonusActionPoints,
                                             s.(hasFieldRation := false, usedFieldRation := true))
                && MoveOf(v, s, a) == Move(7, -1, -1, -1))
  {
    hide BonusAt;
  }

  // ---- The answer that carries an action out ----

  /** The message for an action: its code and, where it has one, its target's cell. */
  ghost predicate Names(v: View, node: Node, a: Act, m: Move)
    requires v.Sound() && OnBoard(v, node.state) && Opens(v, node, a)
  {
    match a.kind
    case MedikitMate => m == Move(6, -1, v.teammates[a.index].x, v.teammates[a.index].y)
    case MedikitSelf => m == Move(6, -1, v.self.x, v.self.y)
    case Throw => m == Move(5, -1, v.enemies[a.index].x, v.enemies[a.index].y)
    case HealMate => m == Move(8, -1, v.teammates[a.index].x, v.teammates[a.index].y)
    case HealSelf => m == Move(8, -1, v.self.x, v.self.y)
    case Fire => m == Move(2, -1, v.enemies[a.index].x, v.enemies[a.index].y)
    case Walk => m == Move(1, -1, Child(v, node, a).state.pos.x, Child(v, node, a).state.pos.y)
    case Raise => m == Move(3, -1, -1, -1)
    case Lower => m == Move(4, -1, -1, -1)
    case Eat => m == Move(7, -1, -1, -1)
  }

  lemma MoveNames(v: View, node: Node, a: Act)
    requires v.Sound() && OnBoard(v, node.state) && Opens(v, node, a)
    ensures Names(v, node, a, MoveOf(v, Entered(v, node), a))
  {
    hide View.Sound, Allowed, Cost, BonusAt, Exploded, Heal, DamageAt;
  }

  // ---- Threats ----

  /** A shot of the enemy from stance `m`: in range, and visible at the lower of the two stances. */
  predicate CanShoot(s: State, e: Soldier, t: Table, m: int) {
    && ((s.pos.x - e.x) * (s.pos.x - e.x) + (s.pos.y - e.y) * (s.pos.y - e.y)) as real
       <= e.shootingRange * e.shootingRange
    && t(Sighting(e.x, e.y, s.pos.x, s.pos.y, if m <= s.stance then m else s.stance))
  }

  /** An enemy threatens the trooper with a grenade, or by a shot from a stance the strategy lists. */
  predicate Endangers(v: View, s: State, e: Soldier, t: Table) {
    || WithinRange(s.pos.x, s.pos.y, e, v.game.grenadeThrowRange)
    || exists i :: 0 <= i < |v.stances| && CanShoot(s, e, t, v.stances[i])
  }

  lemma ShotMeaning(v: View, s: State, e: Soldier, t: Table, m: int)
    requires v.Sound() && OnBoard(v, s) && v.Placed(e) && 0 <= m <= 2
    requires v.sight.cells == Flatten(v.board.sizeX, v.board.sizeY, t)
    ensures SeenAt(v, s, e, m) <==> CanShoot(s, e, t, m)
  {
    hide IsVisible, Flatten, Board.Valid;
    assert v.sight == Sight(v.board.sizeX, v.board.sizeY, v.sight.cells);
    IsVisibleMeaning(v.board.sizeX, v.board.sizeY, t, e.shootingRange, e.x, e.y, m, s.pos.x, s.pos.y, s.stance);
  }

  lemma ThreatMeaning(v: View, s: State, e: Soldier, t: Table)
    requires v.Sound() && OnBoard(v, s) && v.Placed(e)
    requires v.sight.cells == Flatten(v.board.sizeX, v.board.sizeY, t)
    ensures Threatens(v, s, e) <==> Endangers(v, s, e, t)
  {
    hide IsNear, WithinRange, SeenAt, CanShoot, Flatten, Board.Valid, View.Placed, OnBoard;
    IsNearMeaning(s.pos, e, v.game.grenadeThrowRange);
    forall i | 0 <= i < |v.stances| ensures SeenAt(v, s, e, v.stances[i]) <==> CanShoot(s, e, t, v.stances[i]) {
      ShotMeaning(v, s, e, t, v.stances[i]);
    }
  }

  /** The count in the score is the number of enemies that do. */
  lemma {:induction false} ThreatCount(v: View, s: State, t: Table, count: nat)
    requires v.Sound() && OnBoard(v, s) && count <= |v.enemies|
    requires v.sight.cells == Flatten(v.board.sizeX, v.board.sizeY, t)
    ensures ShootingEnemies(v, s, count) == |set i: nat | i < count && Endangers(v, s, v.enemies[i], t)|
  {
    hide Threatens, Endangers, Flatten, View.Sound;
    if count > 0 {
      var k: nat := count - 1;
      ThreatCount(v, s, t, k);
      EnemyPlaced(v, k);
      ThreatMeaning(v, s, v.enemies[k], t);
      assert (set i: nat | i < count && Endangers(v, s, v.enemies[i], t)) ==
             (set i: nat | i < k && Endangers(v, s, v.enemies[i], t)) +
             if Endangers(v, s, v.enemies[k], t) then {k} else {};
    }
  }

  lemma EnemyPlaced(v: View, i: nat)
    requires v.Sound() && i < |v.enemies|
    ensures v.Placed(v.enemies[i])
  {
  }

  /** The bonus of the score goes to troopers within the aura of some commander. */
  lemma {:induction false} CommanderMeaning(v: View, pos: Point, count: nat)
    requires count <= |v.teammates|
    ensures CloseToCommander(v, pos, count) <==>
            exists i :: 0 <= i < count && v.teammates[i].kind == 0 &&
                        WithinRange(pos.x, pos.y, v.teammates[i], v.game.commanderAuraRange)
  {
    hide IsNear;
    if count > 0 {
      CommanderMeaning(v, pos, count - 1);
      IsNearMeaning(pos, v.teammates[count - 1], v.game.commanderAuraRange);
    }
  }
}
