/** What an answer means on the map the server sent, and which of several equally good ones it is. */
module Answering {
  import opened Grid
  import opened Distances
  import opened Visibility
  import opened Model
  import opened PlanTree
  import opened BestPlan
  import opened Strategy
  import opened Steps
  import opened PlanTheorems

  // ---- What the search starts from ----

  predicate LiesIn(world: Arena, x: int, y: int, kind: int) {
    exists i :: 0 <= i < |world.bonuses| &&
                world.bonuses[i].x == x && world.bonuses[i].y == y && world.bonuses[i].kind == kind
  }

  /** The first node scored: the trooper as the server describes it, with what lies under it. */
  lemma Starting(self: Soldier, world: Arena, game: Game, first: bool, target: Point)
    requires WorldOk(world)
    ensures var s := Entered(ViewOf(self, world, game, first, target), Root(self));
            && Root(self).points == self.actionPoints
            && s.pos.x == self.x && s.pos.y == self.y && s.stance == self.stance
            && s.damage == 0 && s.mateDamage == 0 && s.kills == 0
            && !s.usedFieldRation && !s.usedGrenade
            && (s.hasMedkit <==> self.holdingMedikit || LiesIn(world, self.x, self.y, 1))
            && (s.hasFieldRation <==> self.holdingFieldRation || LiesIn(world, self.x, self.y, 2))
            && (s.hasGrenade <==> self.holdingGrenade || LiesIn(world, self.x, self.y, 0))
  {
    hide TableSize, Stamp, Side;
    Arriving(ViewOf(self, world, game, first, target), Root(self));
  }

  /** Where in the message the troopers of one side are. */
  function Places(troopers: seq<Soldier>, mates: bool): (where: seq<nat>)
    ensures forall i :: 0 <= i < |where| ==> where[i] < |troopers|
    ensures forall i, j :: 0 <= i < j < |where| ==> where[i] < where[j]
  {
    if troopers == [] then [] else
      var k: nat := |troopers| - 1;
      var front := Places(troopers[..k], mates);
      if troopers[k].teammate == mates then front + [k] else front
  }

  lemma {:induction false} PlacesAll(troopers: seq<Soldier>, mates: bool, k: nat)
    ensures k in Places(troopers, mates) <==> k < |troopers| && troopers[k].teammate == mates
  {
    if troopers != [] {
      var last: nat := |troopers| - 1;
      PlacesAll(troopers[..last], mates, k);
    }
  }

  lemma {:induction false} SideSize(troopers: seq<Soldier>, mates: bool)
    ensures |Side(troopers, mates)| == |Places(troopers, mates)|
  {
    if troopers != [] {
      SideSize(troopers[..|troopers| - 1], mates);
    }
  }

  lemma {:induction false} SideAt(troopers: seq<Soldier>, mates: bool, i: nat)
    requires i < |Places(troopers, mates)|
    ensures i < |Side(troopers, mates)| && Side(troopers, mates)[i] == troopers[Places(troopers, mates)[i]]
  {
    SideSize(troopers, mates);
    var front := troopers[..|troopers| - 1];
    SideSize(front, mates);
    if i < |Places(front, mates)| {
      SideAt(front, mates, i);
    }
  }

  /** One side of the visible troopers: all of them, each once, in the order of the message. */
  lemma SideInOrder(troopers: seq<Soldier>, mates: bool)
    ensures var where := Places(troopers, mates);
            && |Side(troopers, mates)| == |where|
            && (forall i :: 0 <= i < |where| ==>
                  where[i] < |troopers| && Side(troopers, mates)[i] == troopers[where[i]])
            && (forall i, j :: 0 <= i < j < |where| ==> where[i] < where[j])
            && (forall k: nat :: k in where <==> k < |troopers| && troopers[k].teammate == mates)
  {
    hide Side, Places;
    SideSize(troopers, mates);
    forall i: nat | i < |Places(troopers, mates)|
      ensures Side(troopers, mates)[i] == troopers[Places(troopers, mates)[i]]
    {
      SideAt(troopers, mates, i);
    }
    forall k: nat ensures k in Places(troopers, mates) <==> k < |troopers| && troopers[k].teammate == mates {
      PlacesAll(troopers, mates, k);
    }
  }

  // ---- The answer on the map ----

  /** Some visible trooper of one side stands at the cell named by the answer. */
  predicate TrooperAt(world: Arena, k: nat, mates: bool, m: Move) {
    k < |world.troopers| && world.troopers[k].teammate == mates && world.troopers[k].x == m.x
    && world.troopers[k].y == m.y
  }

  ghost predicate CanStep(self: Soldier, world: Arena, game: Game, m: Move)
    requires world.width >= 0 && world.height >= 0 && BoardOf(world).Valid()
  {
    && self.actionPoints >= StepPrice(game, self.stance)
    && ((m.x == self.x && (m.y == self.y + 1 || m.y == self.y - 1)) ||
        (m.y == self.y && (m.x == self.x + 1 || m.x == self.x - 1)))
    && 0 <= m.x < world.width && 0 <= m.y < world.height && world.cells[m.x][m.y] == 0
    && forall k :: 0 <= k < |world.troopers| ==> !(world.troopers[k].x == m.x && world.troopers[k].y == m.y)
  }

  ghost predicate CanFire(self: Soldier, world: Arena, t: Table, m: Move) {
    && self.actionPoints >= self.shootCost
    && ((m.x - self.x) * (m.x - self.x) + (m.y - self.y) * (m.y - self.y)) as real
       <= self.shootingRange * self.shootingRange
    && exists k: nat :: TrooperAt(world, k, false, m) &&
         t(Sighting(self.x, self.y, m.x, m.y,
                    if self.stance <= world.troopers[k].stance then self.stance else world.troopers[k].stance))
  }

  ghost predicate CanThrow(self: Soldier, world: Arena, game: Game, m: Move) {
    && self.actionPoints >= game.grenadeThrowCost
    && (self.holdingGrenade || LiesIn(world, self.x, self.y, 0))
    && exists k: nat :: TrooperAt(world, k, false, m) &&
                        WithinRange(self.x, self.y, world.troopers[k], game.grenadeThrowRange)
  }

  /** A treatment of a wounded teammate next to the trooper, or of the trooper itself. */
  ghost predicate CanTreat(self: Soldier, world: Arena, mateBonus: int, selfBonus: int, m: Move) {
    || (m.x == self.x && m.y == self.y && Restored(selfBonus, self) > 0)
    || exists k: nat :: TrooperAt(world, k, true, m) && Beside(self.x, self.y, world.troopers[k]) &&
                        Restored(mateBonus, world.troopers[k]) > 0
  }

  /** The answer obeys the rules of the game where the trooper stands. */
  ghost predicate CanCarryOut(self: Soldier, world: Arena, game: Game, t: Table, m: Move)
    requires world.width >= 0 && world.height >= 0 && BoardOf(world).Valid()
  {
    && m.direction == -1
    && match m.action
       case 0 => m.x == -1 && m.y == -1
       case 1 => CanStep(self, world, game, m)
       case 2 => CanFire(self, world, t, m)
       case 3 => self.actionPoints >= game.stanceChangeCost && self.stance < 2
       case 4 => self.actionPoints >= game.stanceChangeCost && self.stance > 0
       case 5 => CanThrow(self, world, game, m)
       case 6 =>
         && self.actionPoints >= game.medikitUseCost
         && (self.holdingMedikit || LiesIn(world, self.x, self.y, 1))
         && CanTreat(self, world, game.medikitBonusHitpoints, game.medikitHealSelfBonusHitpoints, m)
       case 7 =>
         && self.actionPoints >= game.fieldRationEatCost
         && (self.holdingFieldRation || LiesIn(world, self.x, self.y, 2))
       case 8 =>
         && self.actionPoints >= game.fieldMedicHealCost && self.kind == 1
         && CanTreat(self, world, game.fieldMedicHealBonusHitpoints, game.fieldMedicHealSelfBonusHitpoints, m)
       case _ => false
  }

  lemma OneOfSide(world: Arena, mates: bool, i: nat) returns (k: nat)
    requires i < |Side(world.troopers, mates)|
    ensures k < |world.troopers| && world.troopers[k] == Side(world.troopers, mates)[i]
    ensures world.troopers[k].teammate == mates
  {
    var t := Side(world.troopers, mates)[i];
    assert t in Side(world.troopers, mates);
    k :| 0 <= k < |world.troopers| && world.troopers[k] == t;
  }

  lemma ActCarriesOut(self: Soldier, world: Arena, game: Game, first: bool, target: Point, t: Table, a: Act, m: Move)
    requires WorldOk(world) && self in world.troopers && self.teammate
    requires world.cellVisibilities == Flatten(world.width, world.height, t)
    requires var v := ViewOf(self, world, game, first, target);
             v.Sound() && OnBoard(v, Root(self).state) && Opens(v, Root(self), a) && Names(v, Root(self), a, m)
    ensures CanCarryOut(self, world, game, t, m)
  {
    hide TableSize, Stamp, Side, Flatten, View.Sound, OnBoard, Allowed, Cost, BonusAt, WithinRange, Restored, Beside;
    hide Entered, LiesIn, Effect;
    var v := ViewOf(self, world, game, first, target);
    Starting(self, world, game, first, target);
    match a.kind
    case MedikitMate =>
      MedikitForMate(v, Root(self), a.index);
      var k := OneOfSide(world, true, a.index);
    case MedikitSelf => MedikitForSelf(v, Root(self));
    case Throw =>
      Throwing(v, Root(self), a.index);
      var k := OneOfSide(world, false, a.index);
    case HealMate =>
      HealingMate(v, Root(self), a.index);
      var k := OneOfSide(world, true, a.index);
    case HealSelf => HealingSelf(v, Root(self));
    case Fire =>
      Shooting(v, Root(self), a.index, t);
      var k := OneOfSide(world, false, a.index);
    case Walk =>
      Walking(v, Root(self), a);
      StampFree(BoardOf(world), world.troopers, Point(m.x, m.y));
    case Raise => Raising(v, Root(self));
    case Lower => Lowering(v, Root(self));
    case Eat => Eating(v, Root(self));
  }

  /** Every answer of the bot obeys the rules of the game. */
  lemma AnswerObeysRules(self: Soldier, world: Arena, game: Game, index: int, before: Point,
                         draws: seq<Point>, after: Point, r: Option<Move>, t: Table)
    requires WorldOk(world) && self in world.troopers && self.teammate
    requires world.cellVisibilities == Flatten(world.width, world.height, t)
    requires Plays(self, world, game, index, before, draws, after, r) && r.Some?
    ensures CanCarryOut(self, world, game, t, r.value)
  {
    hide TableSize, Answers, FirstFar, Flatten, View.Sound, OnBoard, Opens, Names;
    var v := ViewOf(self, world, game, index == 0, after);
    ViewOfSound(self, world, game, index == 0, after);
    var score :| PlaysFor(self, world, game, index, before, draws, after, r, score);
    AnswerIsLegal(v, Root(self), r.value, score);
    if r.value != Move(0, -1, -1, -1) {
      var a :| Opens(v, Root(self), a) && Names(v, Root(self), a, r.value);
      ActCarriesOut(self, world, game, index == 0, after, t, a, r.value);
    }
  }

  // ---- Ties ----

  /** The order in which the search tries actions, by their codes in the protocol. */
  function Rank(action: int): int {
    match action
    case 0 => 0   // end of turn
    case 6 => 1   // medikit
    case 5 => 2   // grenade
    case 8 => 3   // heal
    case 2 => 4   // shot
    case 1 => 5   // step
    case 3 => 6   // raise
    case 4 => 7   // lower
    case _ => 8   // ration
  }

  /** No plan of at most ten actions scores more than the answer, and there is one that does not
      score less. */
  lemma BestOfTen(v: View, root: Node, action: Move, score: int, q: seq<Act>)
    requires v.Sound() && OnBoard(v, root.state) && Answers(v, root, action, score)
    requires IsPlan(v, root, q) && |q| <= 10
    ensures Value(v, root, q) <= score
    ensures score > -1_000_000_000 ==>
      exists plan :: IsTopPlan(v, root, action, score, plan) && |plan| <= 10 && Value(v, root, plan) == score
  {
    assert BestPlan.Reaches(v, root, q);
    if score > -INF {
      var plan :| IsTopPlan(v, root, action, score, plan);
      assert Value(v, root, plan) == score;
    }
  }

  /** Of the first actions of equally good plans the one tried first is answered: in the order of
      `Rank`, and among steps the one to the left, up, right and down in this order. */
  lemma FirstOfTies(v: View, root: Node, action: Move, score: int, q: seq<Act>)
    requires v.Sound() && OnBoard(v, root.state) && Answers(v, root, action, score) && score > -1_000_000_000
    requires IsPlan(v, root, q) && |q| <= 10 && Value(v, root, q) == score
    ensures q == [] ==> action == Move(0, -1, -1, -1)
    ensures q != [] ==>
      var m := MoveOf(v, Entered(v, root), q[0]);
      && Rank(action.action) <= Rank(m.action)
      && (action.action == 1 && m.action == 1 && action != m ==>
            TriedBefore(root.state.pos, Point(action.x, action.y), Point(m.x, m.y)))
  {
    hide Value, View.Sound, Opens, Entered, TriedBefore;
    assert BestPlan.Reaches(v, root, q);
    var plan :| IsTopPlan(v, root, action, score, plan);
    assert !StartsEarlier(q, plan);
    if q != [] && plan != [] {
      NotLater(v, root, plan[0], q[0]);
    }
  }

  lemma NotLater(v: View, root: Node, a: Act, c: Act)
    requires v.Sound() && OnBoard(v, root.state) && Opens(v, root, a) && Opens(v, root, c) && !Earlier(c, a)
    ensures var m, n := MoveOf(v, Entered(v, root), a), MoveOf(v, Entered(v, root), c);
            && Rank(m.action) <= Rank(n.action)
            && (m.action == 1 && n.action == 1 && m != n ==>
                  TriedBefore(root.state.pos, Point(m.x, m.y), Point(n.x, n.y)))
  {
    hide View.Sound, Allowed, Cost, TriedBefore, BonusAt, Neighs;
    NeighsInOrder(v.board, root.state.pos);
  }

  /** Likewise among shots, and among grenades, the enemy that comes first in the message. */
  lemma FirstEnemyOfTies(v: View, root: Node, action: Move, score: int, q: seq<Act>)
    requires v.Sound() && OnBoard(v, root.state) && Answers(v, root, action, score) && score > -1_000_000_000
    requires IsPlan(v, root, q) && 0 < |q| <= 10 && Value(v, root, q) == score
    requires q[0].kind == Fire || q[0].kind == Throw
    requires action.action == if q[0].kind == Fire then 2 else 5
    ensures exists i :: 0 <= i <= q[0].index && i < |v.enemies| &&
                        v.enemies[i].x == action.x && v.enemies[i].y == action.y
  {
    hide Value, View.Sound, Allowed, Cost, Entered, Neighs;
    assert BestPlan.Reaches(v, root, q);
    var plan :| IsTopPlan(v, root, action, score, plan);
    assert !StartsEarlier(q, plan);
    assert Opens(v, root, plan[0]);
  }
}
