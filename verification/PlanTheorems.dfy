/** What holds of every plan the search considers, however it is chosen. A prefix of a plan
    is a plan, so what is said of a plan's end holds of every node the search visits. */
module PlanTheorems {
  import opened Grid
  import opened Distances
  import opened Visibility
  import opened Model
  import opened PlanTree
  import opened BestPlan
  import opened Strategy
  import opened Steps

  ghost function Count(plan: seq<Act>, kind: Kind): nat {
    if plan == [] then 0 else Bit(plan[0].kind == kind) + Count(plan[1..], kind)
  }

  type Worth = (State, Act) -> int

  /** The sum of `worth` over the plan's actions, each in the state in which it is taken. */
  ghost function Total(v: View, node: Node, plan: seq<Act>, worth: Worth): int
    requires v.Sound() && OnBoard(v, node.state) && IsPlan(v, node, plan)
    decreases |plan|
  {
    if plan == [] then 0
    else worth(Entered(v, node), plan[0]) + Total(v, Child(v, node, plan[0]), plan[1..], worth)
  }

  /** A prefix of a plan is a plan. */
  lemma {:induction false} PrefixIsPlan(v: View, node: Node, plan: seq<Act>, k: nat)
    requires v.Sound() && OnBoard(v, node.state) && IsPlan(v, node, plan) && k <= |plan|
    ensures IsPlan(v, node, plan[..k])
    decreases |plan|
  {
    hide View.Sound, OnBoard, Legal, Effect;
    if k > 0 {
      PrefixIsPlan(v, Child(v, node, plan[0]), plan[1..], k - 1);
      assert plan[..k][1..] == plan[1..][..k - 1];
    }
  }

  // ---- Action points ----

  ghost function Costs(v: View): Worth {
    (s: State, a: Act) => Cost(v, s, a.kind)
  }

  /** Points left = points at the start - costs + one bonus per ration eaten. */
  lemma {:induction false} PointsBalance(v: View, node: Node, plan: seq<Act>)
    requires v.Sound() && OnBoard(v, node.state) && IsPlan(v, node, plan)
    ensures End(v, node, plan).points ==
            node.points - Total(v, node, plan, Costs(v)) + v.game.fieldRationBonusActionPoints * Count(plan, Eat)
    decreases |plan|
  {
    hide Legal, Effect, View.Sound, OnBoard;
    if plan != [] {
      PointsBalance(v, Child(v, node, plan[0]), plan[1..]);
    }
  }

  /** No action is taken that cannot be paid for. */
  lemma {:induction false} PointsStayPaid(v: View, node: Node, plan: seq<Act>)
    requires v.Sound() && OnBoard(v, node.state) && IsPlan(v, node, plan)
    requires v.game.fieldRationBonusActionPoints >= 0
    ensures plan != [] || node.points >= 0 ==> End(v, node, plan).points >= 0
    decreases |plan|
  {
    hide Effect, View.Sound, OnBoard, Allowed;
    if plan != [] {
      PointsStayPaid(v, Child(v, node, plan[0]), plan[1..]);
    }
  }

  /** Over a whole plan the trooper spends at most its points and one bonus. */
  lemma SpendingBound(self: Soldier, v: View, plan: seq<Act>)
    requires v.Sound() && OnBoard(v, Root(self).state) && IsPlan(v, Root(self), plan) && plan != []
    requires v.game.fieldRationBonusActionPoints >= 0
    ensures Count(plan, Eat) <= 1
    ensures Total(v, Root(self), plan, Costs(v)) <= self.actionPoints + v.game.fieldRationBonusActionPoints
  {
    hide IsPlan, End, Total, View.Sound, OnBoard;
    UsedOnce(v, Root(self), plan);
    PointsBalance(v, Root(self), plan);
    PointsStayPaid(v, Root(self), plan);
    var bonus := v.game.fieldRationBonusActionPoints;
    assert Count(plan, Eat) == 0 || Count(plan, Eat) == 1;
    assert Count(plan, Eat) == 1 ==> bonus * Count(plan, Eat) == bonus;
  }

  // ---- Items ----

  /** A ration, once eaten, is neither carried nor picked up again; likewise a grenade. */
  ghost predicate ItemsSane(s: State) {
    && (s.usedFieldRation ==> !s.hasFieldRation)
    && (s.usedGrenade ==> !s.hasGrenade)
  }

  lemma UsedStep(v: View, node: Node, a: Act)
    requires v.Sound() && OnBoard(v, node.state) && Opens(v, node, a) && ItemsSane(node.state)
    ensures var next := Child(v, node, a).state;
            && ItemsSane(next)
            && Bit(a.kind == Eat) == Bit(next.usedFieldRation) - Bit(node.state.usedFieldRation)
            && Bit(a.kind == Throw) == Bit(next.usedGrenade) - Bit(node.state.usedGrenade)
  {
    hide View.Sound, OnBoard, IsVisible, IsNear, BonusAt, HasNeigh, Heal, MoveCost, DamageAt;
    hide AdjacentHarm, AdjacentKilled;
  }

  lemma {:induction false} UsedOnce(v: View, node: Node, plan: seq<Act>)
    requires v.Sound() && OnBoard(v, node.state) && IsPlan(v, node, plan) && ItemsSane(node.state)
    ensures ItemsSane(End(v, node, plan).state)
    ensures Count(plan, Eat) == Bit(End(v, node, plan).state.usedFieldRation) - Bit(node.state.usedFieldRation)
    ensures Count(plan, Throw) == Bit(End(v, node, plan).state.usedGrenade) - Bit(node.state.usedGrenade)
    decreases |plan|
  {
    hide View.Sound, OnBoard, Legal, Effect;
    if plan != [] {
      UsedStep(v, node, plan[0]);
      UsedOnce(v, Child(v, node, plan[0]), plan[1..]);
    }
  }

  /** How many of the nodes at which the plan acts lie on a medikit. */
  ghost function Refills(v: View, node: Node, plan: seq<Act>): nat
    requires v.Sound() && OnBoard(v, node.state) && IsPlan(v, node, plan)
    decreases |plan|
  {
    if plan == [] then 0
    else Bit(BonusAt(v.bonuses, node.state.pos, MEDIKIT)) + Refills(v, Child(v, node, plan[0]), plan[1..])
  }

  /** A medikit lying on a cell is taken again at every node there, so uses are bounded only
      by the one carried and the nodes visited on such cells. */
  lemma {:induction false} MedikitUses(v: View, node: Node, plan: seq<Act>)
    requires v.Sound() && OnBoard(v, node.state) && IsPlan(v, node, plan)
    ensures Count(plan, MedikitMate) + Count(plan, MedikitSelf) + Bit(End(v, node, plan).state.hasMedkit)
            <= Bit(node.state.hasMedkit) + Refills(v, node, plan)
    decreases |plan|
  {
    hide View.Sound, OnBoard, IsVisible, IsNear, BonusAt, HasNeigh, Heal, MoveCost, DamageAt;
    hide AdjacentHarm, AdjacentKilled;
    if plan != [] {
      MedikitUses(v, Child(v, node, plan[0]), plan[1..]);
    }
  }

  /** After a medikit has been used there is another one iff one lies on the cell. */
  lemma MedikitAgain(v: View, node: Node, a: Act)
    requires v.Sound() && OnBoard(v, node.state) && Opens(v, node, a)
    requires a.kind == MedikitMate || a.kind == MedikitSelf
    ensures Entered(v, Child(v, node, a)).hasMedkit <==> BonusAt(v.bonuses, node.state.pos, MEDIKIT)
  {
    hide View.Sound, OnBoard, BonusAt, Heal, HasNeigh;
  }

  function Medikits(uses: nat): seq<Act> {
    if uses == 0 then [] else [Act(MedikitSelf, 0)] + Medikits(uses - 1)
  }

  /** Using it over and over: a trooper can do so any number of times exactly when it is hurt, has
      one to start with, can pay for all uses, and, from the second use on, stands on one. */
  lemma {:induction false} MedikitsInARow(v: View, node: Node, uses: nat)
    requires v.Sound() && OnBoard(v, node.state) && v.game.medikitUseCost >= 0 && uses > 0
    ensures IsPlan(v, node, Medikits(uses)) <==>
            && Heal(v.game.medikitHealSelfBonusHitpoints, v.self) > 0
            && Entered(v, node).hasMedkit
            && node.points >= uses * v.game.medikitUseCost
            && (uses > 1 ==> BonusAt(v.bonuses, node.state.pos, MEDIKIT))
    decreases uses
  {
    hide View.Sound, OnBoard, BonusAt, Heal;
    var a := Act(MedikitSelf, 0);
    var cost := v.game.medikitUseCost;
    assert Medikits(uses) == [a] + Medikits(uses - 1) && Medikits(uses)[1..] == Medikits(uses - 1);
    TimesOneMore(uses, cost);
    if uses > 1 && Opens(v, node, a) {
      MedikitAgain(v, node, a);
      MedikitsInARow(v, Child(v, node, a), uses - 1);
    }
  }

  lemma TimesOneMore(uses: nat, cost: int)
    requires uses > 0 && cost >= 0
    ensures uses * cost == (uses - 1) * cost + cost && (uses - 1) * cost >= 0
  {
  }

  // ---- Damage ----

  ghost function EnemyHarm(v: View): Worth {
    (s: State, a: Act) =>
      if a.index >= |v.enemies| then 0
      else if a.kind == Fire then DamageOf(v.self, s.stance)
      else if a.kind == Throw then
        var e := v.enemies[a.index];
        v.game.grenadeDirectDamage
        + v.game.grenadeCollateralDamage * |NextTo(e.x, e.y, v.enemies, |v.enemies|)|
      else 0
  }

  /** Healing counts as negative. */
  ghost function MateHarm(v: View): Worth {
    (s: State, a: Act) =>
      match a.kind
      case Throw =>
        if a.index >= |v.enemies| then 0 else
          var e := v.enemies[a.index];
          v.game.grenadeCollateralDamage * |NextTo(e.x, e.y, v.teammates, |v.teammates|)|
      case MedikitMate =>
        if a.index < |v.teammates| then -Restored(v.game.medikitBonusHitpoints, v.teammates[a.index]) else 0
      case HealMate =>
        if a.index < |v.teammates| then -Restored(v.game.fieldMedicHealBonusHitpoints, v.teammates[a.index]) else 0
      case MedikitSelf => -Restored(v.game.medikitHealSelfBonusHitpoints, v.self)
      case HealSelf => -Restored(v.game.fieldMedicHealSelfBonusHitpoints, v.self)
      case _ => 0
  }

  /** A teammate lost costs two kills. */
  ghost function Kills(v: View): Worth {
    (s: State, a: Act) =>
      if a.index >= |v.enemies| then 0
      else if a.kind == Fire then Bit(DamageOf(v.self, s.stance) >= v.enemies[a.index].hitpoints)
      else if a.kind == Throw then
        var e, blast := v.enemies[a.index], v.game.grenadeCollateralDamage;
        Bit(v.game.grenadeDirectDamage >= e.hitpoints)
        + |LostNextTo(e.x, e.y, v.enemies, blast, |v.enemies|)|
        - 2 * |LostNextTo(e.x, e.y, v.teammates, blast, |v.teammates|)|
      else 0
  }

  ghost predicate HarmAdds(v: View, node: Node, a: Act)
    requires v.Sound() && OnBoard(v, node.state) && Opens(v, node, a)
  {
    var s, next := Entered(v, node), Child(v, node, a).state;
    && next.damage == node.state.damage + EnemyHarm(v)(s, a)
    && next.mateDamage == node.state.mateDamage + MateHarm(v)(s, a)
    && next.kills == node.state.kills + Kills(v)(s, a)
  }

  lemma ThrowHarm(v: View, node: Node, a: Act)
    requires v.Sound() && OnBoard(v, node.state) && Opens(v, node, a) && a.kind in {Throw}
    ensures HarmAdds(v, node, a)
  {
    Arriving(v, node);
    Throwing(v, node, a.index);
  }

  lemma FireHarm(v: View, node: Node, a: Act)
    requires v.Sound() && OnBoard(v, node.state) && Opens(v, node, a) && a.kind in {Fire}
    ensures HarmAdds(v, node, a)
  {
    Arriving(v, node);
    Hitting(v, node, a);
  }

  lemma MateTreatment(v: View, node: Node, a: Act)
    requires v.Sound() && OnBoard(v, node.state) && Opens(v, node, a) && a.kind in {MedikitMate, HealMate}
    ensures HarmAdds(v, node, a)
  {
    Arriving(v, node);
    MedikitForMate(v, node, a.index);
    HealingMate(v, node, a.index);
  }

  lemma SelfTreatment(v: View, node: Node, a: Act)
    requires v.Sound() && OnBoard(v, node.state) && Opens(v, node, a) && a.kind in {MedikitSelf, HealSelf}
    ensures HarmAdds(v, node, a)
  {
    Arriving(v, node);
    OnlyChoice(v, node, a);
    MedikitForSelf(v, node);
    HealingSelf(v, node);
  }

  lemma WalkHarm(v: View, node: Node, a: Act)
    requires v.Sound() && OnBoard(v, node.state) && Opens(v, node, a) && a.kind in {Walk}
    ensures HarmAdds(v, node, a)
  {
    hide View.Sound, OnBoard, Opens, BonusAt, Effect, Apply, NextTo, LostNextTo, Restored, DamageOf;
    Arriving(v, node);
    Walking(v, node, a);
  }

  lemma StanceHarm(v: View, node: Node, a: Act)
    requires v.Sound() && OnBoard(v, node.state) && Opens(v, node, a) && a.kind in {Raise, Lower}
    ensures HarmAdds(v, node, a)
  {
    hide View.Sound, OnBoard, Opens, BonusAt, Effect, Apply, NextTo, LostNextTo, Restored, DamageOf;
    Arriving(v, node);
    OnlyChoice(v, node, a);
    Raising(v, node);
    Lowering(v, node);
  }

  lemma EatHarm(v: View, node: Node, a: Act)
    requires v.Sound() && OnBoard(v, node.state) && Opens(v, node, a) && a.kind in {Eat}
    ensures HarmAdds(v, node, a)
  {
    hide View.Sound, OnBoard, Opens, BonusAt, Effect, Apply, NextTo, LostNextTo, Restored, DamageOf;
    Arriving(v, node);
    OnlyChoice(v, node, a);
    Eating(v, node);
  }

  /** Each action adds to the three accumulators what its rule says. */
  lemma HarmStep(v: View, node: Node, a: Act)
    requires v.Sound() && OnBoard(v, node.state) && Opens(v, node, a)
    ensures HarmAdds(v, node, a)
  {
    hide HarmAdds, Opens, View.Sound, OnBoard;
    match a.kind
    case Throw => ThrowHarm(v, node, a);
    case Fire => FireHarm(v, node, a);
    case MedikitMate => MateTreatment(v, node, a);
    case HealMate => MateTreatment(v, node, a);
    case MedikitSelf => SelfTreatment(v, node, a);
    case HealSelf => SelfTreatment(v, node, a);
    case Walk => WalkHarm(v, node, a);
    case Raise => StanceHarm(v, node, a);
    case Lower => StanceHarm(v, node, a);
    case Eat => EatHarm(v, node, a);
  }

  lemma {:induction false} HarmBalance(v: View, node: Node, plan: seq<Act>)
    requires v.Sound() && OnBoard(v, node.state) && IsPlan(v, node, plan)
    ensures End(v, node, plan).state.damage == node.state.damage + Total(v, node, plan, EnemyHarm(v))
    ensures End(v, node, plan).state.mateDamage == node.state.mateDamage + Total(v, node, plan, MateHarm(v))
    ensures End(v, node, plan).state.kills == node.state.kills + Total(v, node, plan, Kills(v))
    decreases |plan|
  {
    hide View.Sound, OnBoard, Legal, Effect, EnemyHarm, MateHarm, Kills;
    if plan != [] {
      HarmStep(v, node, plan[0]);
      HarmBalance(v, Child(v, node, plan[0]), plan[1..]);
    }
  }

  // ---- Position and stance ----

  lemma StanceStep(v: View, node: Node, a: Act)
    requires v.Sound() && OnBoard(v, node.state) && Opens(v, node, a)
    ensures Child(v, node, a).state.stance == node.state.stance + Bit(a.kind == Raise) - Bit(a.kind == Lower)
  {
    hide View.Sound, BonusAt, AdjacentHarm, AdjacentKilled, Heal, MoveCost, DamageAt, IsVisible, IsNear, HasNeigh;
  }

  lemma {:induction false} StanceBalance(v: View, node: Node, plan: seq<Act>)
    requires v.Sound() && OnBoard(v, node.state) && IsPlan(v, node, plan)
    ensures End(v, node, plan).state.stance == node.state.stance + Count(plan, Raise) - Count(plan, Lower)
    ensures PRONE <= End(v, node, plan).state.stance <= STANDING
    decreases |plan|
  {
    hide View.Sound, Effect, Legal;
    if plan != [] {
      StanceStep(v, node, plan[0]);
      StanceBalance(v, Child(v, node, plan[0]), plan[1..]);
    }
  }

  lemma WalkStep(v: View, node: Node, a: Act)
    requires v.Sound() && OnBoard(v, node.state) && Opens(v, node, a)
    ensures var pos := Child(v, node, a).state.pos;
            if a.kind == Walk then v.Local().Free(pos) else pos == node.state.pos
  {
    hide View.Sound, IsVisible, IsNear, BonusAt, AdjacentHarm, AdjacentKilled, HasNeigh, Heal, MoveCost, DamageAt;
  }

  /** A plan that walks ends on a cell that is free in the strategy's copy of the map. */
  lemma {:induction false} WalksEndFree(v: View, node: Node, plan: seq<Act>)
    requires v.Sound() && OnBoard(v, node.state) && IsPlan(v, node, plan)
    ensures if Count(plan, Walk) == 0 then End(v, node, plan).state.pos == node.state.pos
            else v.Local().Free(End(v, node, plan).state.pos)
    decreases |plan|
  {
    hide Legal, Effect;
    if plan != [] {
      WalkStep(v, node, plan[0]);
      WalksEndFree(v, Child(v, node, plan[0]), plan[1..]);
    }
  }

  /** Every position is the start or a FREE cell without a visible trooper on it; since the
      start has the trooper itself on it, a plan that has left it never comes back. */
  lemma Positions(self: Soldier, world: Arena, game: Game, first: bool, target: Point, plan: seq<Act>)
    requires WorldOk(world) && self in world.troopers && self.teammate
    requires var v := ViewOf(self, world, game, first, target);
             v.Sound() && OnBoard(v, Root(self).state) && IsPlan(v, Root(self), plan)
    ensures var pos := End(ViewOf(self, world, game, first, target), Root(self), plan).state.pos;
            if Count(plan, Walk) == 0 then pos == At(self)
            else
              && BoardOf(world).Free(pos)
              && (forall i :: 0 <= i < |world.troopers| ==> At(world.troopers[i]) != pos)
              && pos != At(self)
  {
    hide TableSize;
    var v := ViewOf(self, world, game, first, target);
    var pos := End(v, Root(self), plan).state.pos;
    WalksEndFree(v, Root(self), plan);
    StampFree(BoardOf(world), world.troopers, pos);
  }

  // ---- Plans and the distance table ----

  /** The copy of the map the search walks on has no FREE cell the table does not know. */
  ghost predicate Covers(v: View)
    requires v.Sound()
  {
    forall p :: v.Local().Free(p) ==> v.board.Free(p)
  }

  lemma ViewCovers(self: Soldier, world: Arena, game: Game, first: bool, target: Point)
    requires WorldOk(world) && self in world.troopers && self.teammate
    ensures ViewOf(self, world, game, first, target).Sound() && Covers(ViewOf(self, world, game, first, target))
  {
    hide TableSize;
    ViewOfSound(self, world, game, first, target);
    forall p ensures ViewOf(self, world, game, first, target).Local().Free(p) ==> BoardOf(world).Free(p) {
      StampFree(BoardOf(world), world.troopers, p);
    }
  }

  /** The cells a plan steps on form a walk on the world's map. */
  lemma {:induction false} PlanWalk(v: View, node: Node, plan: seq<Act>) returns (w: seq<Point>)
    requires v.Sound() && OnBoard(v, node.state) && IsPlan(v, node, plan)
    requires Covers(v) && v.board.Free(node.state.pos)
    ensures |w| == Count(plan, Walk) + 1
    ensures Count(plan, Walk) == 0 ==> End(v, node, plan).state.pos == node.state.pos
    ensures Count(plan, Walk) > 0 ==> IsWalk(v.board, w, node.state.pos, End(v, node, plan).state.pos)
    decreases |plan|
  {
    if plan == [] {
      w := [node.state.pos];
    } else {
      var child := Child(v, node, plan[0]);
      var from, to := node.state.pos, child.state.pos;
      StepTaken(v, node, plan[0]);
      w := PlanWalk(v, child, plan[1..]);
      if plan[0].kind == Walk {
        assert Linked([from, to], 0);
        assert IsWalk(v.board, [from, to], from, to);
        if |w| > 1 {
          JoinWalks(v.board, [from, to], w, from, to, End(v, node, plan).state.pos);
          w := Join([from, to], w);
        } else {
          w := [from, to];
        }
      }
    }
  }

  lemma StepTaken(v: View, node: Node, a: Act)
    requires v.Sound() && OnBoard(v, node.state) && Opens(v, node, a)
    requires Covers(v) && v.board.Free(node.state.pos)
    ensures var pos := Child(v, node, a).state.pos;
            v.board.Free(pos) &&
            if a.kind == Walk then Manhattan(node.state.pos, pos) == 1 else pos == node.state.pos
  {
    hide IsVisible, IsNear, BonusAt, AdjacentHarm, AdjacentKilled;
    if a.kind == Walk {
      assert HasNeigh(v.board, node.state.pos, Neighs(v.board, node.state.pos)[a.index]);
    }
  }

  /** The search and the table agree: after m >= 1 steps the table's distance from the start
      is at most m, and has its parity. */
  lemma TableAgrees(v: View, node: Node, plan: seq<Act>)
    requires v.Sound() && OnBoard(v, node.state) && IsPlan(v, node, plan)
    requires Covers(v) && v.board.Free(node.state.pos) && Count(plan, Walk) > 0
    ensures var d := Dist(v.board, node.state.pos, End(v, node, plan).state.pos);
            1 <= d <= Count(plan, Walk) && (Count(plan, Walk) - d) % 2 == 0
  {
    hide IsPlan, End, Count, Covers, IsWalk, Manhattan;
    var w := PlanWalk(v, node, plan);
    WalkAgrees(v.board, w, node.state.pos, End(v, node, plan).state.pos);
  }

  /** Once a target has been accepted, every position of every plan can reach it, and each
      step changes the distance to it by at most one. */
  lemma TargetStaysReachable(v: View, node: Node, plan: seq<Act>)
    requires v.Sound() && OnBoard(v, node.state) && IsPlan(v, node, plan)
    requires Covers(v) && v.board.Free(node.state.pos) && Far(v.board, node.state.pos, v.target)
    requires Countable(v.board)
    ensures var d := Dist(v.board, End(v, node, plan).state.pos, v.target);
            && d < INF
            && Dist(v.board, node.state.pos, v.target) - Count(plan, Walk) <= d
               <= Dist(v.board, node.state.pos, v.target) + Count(plan, Walk)
  {
    var p, q := node.state.pos, End(v, node, plan).state.pos;
    var w := PlanWalk(v, node, plan);
    if Count(plan, Walk) > 0 {
      DistAtMost(v.board, w, p, q);
      DistSymmetric(v.board, p, q);
      DistBounds(v.board, p, q);
      if !Connected(v.board, q, p) {
        DistSymmetricLe(v.board, p, q);
      }
      DistTriangle(v.board, q, p, v.target);
      DistTriangle(v.board, p, q, v.target);
      DistBounds(v.board, q, v.target);
    }
  }

  /** Moving never changes what can be reached. */
  lemma PlanKeepsConnected(v: View, node: Node, plan: seq<Act>, q: Point)
    requires v.Sound() && OnBoard(v, node.state) && IsPlan(v, node, plan)
    requires Covers(v) && v.board.Free(node.state.pos)
    ensures Connected(v.board, End(v, node, plan).state.pos, q) <==> Connected(v.board, node.state.pos, q)
  {
    hide IsPlan, End, Count, Covers, IsWalk;
    var w := PlanWalk(v, node, plan);
    var from, to := node.state.pos, End(v, node, plan).state.pos;
    if Count(plan, Walk) > 0 {
      DistAtMost(v.board, w, from, to);
      DistSymmetricLe(v.board, from, to);
      if Connected(v.board, from, q) {
        DistTriangle(v.board, to, from, q);
      }
      if Connected(v.board, to, q) {
        DistTriangle(v.board, from, to, q);
      }
    }
  }

  // ---- The target loop ----

  /** Every 128th move forgets its target, and standing on it never counts as far enough:
      a cell is at distance 2 from itself, or INF. So a new target is always drawn. */
  lemma FreshTarget(self: Soldier, world: Arena, game: Game, index: int, before: Point,
                    draws: seq<Point>, after: Point, r: Option<Move>)
    requires WorldOk(world) && self in world.troopers && self.teammate
    requires BoardOf(world).Free(At(self)) && index % 128 == 0
    requires Plays(self, world, game, index, before, draws, after, r) && r.Some?
    ensures after in draws && after != At(self)
  {
    hide Answers, TableSize;
    var b, p := BoardOf(world), At(self);
    DistDiagonal(b, p);
    assert !Far(b, p, p);
    var aims := [p] + draws;
    var k :| 0 <= k < |aims| && after == aims[k] && Far(b, p, aims[k]);
    assert after == draws[k - 1];
  }

  lemma FirstAim(b: Board, p: Point, before: Point, draws: seq<Point>, after: Point)
    requires b.Valid() && FirstFar(b, p, [before] + draws, true, after)
    ensures if Far(b, p, before) then after == before
            else exists k :: 0 <= k < |draws| && after == draws[k] && Far(b, p, draws[k]) &&
                             forall i :: 0 <= i < k ==> !Far(b, p, draws[i])
  {
    hide Far, Board.Valid;
    var aims := [before] + draws;
    assert aims[0] == before;
    var k :| 0 <= k < |aims| && after == aims[k] && Far(b, p, aims[k]) &&
             forall i :: 0 <= i < k ==> !Far(b, p, aims[i]);
    if k > 0 {
      assert after == draws[k - 1];
      forall i | 0 <= i < k - 1 ensures !Far(b, p, draws[i]) {
        assert aims[i + 1] == draws[i];
      }
    }
  }

  /** On every other move the old target is kept as long as it is more than five steps away and can be
      reached; otherwise the first draw that is so takes its place. */
  lemma TargetKept(self: Soldier, world: Arena, game: Game, index: int, before: Point,
                   draws: seq<Point>, after: Point, r: Option<Move>)
    requires WorldOk(world) && self in world.troopers && self.teammate && index % 128 != 0
    requires Plays(self, world, game, index, before, draws, after, r) && r.Some?
    ensures var b := BoardOf(world);
            if 5 < Dist(b, At(self), before) < 1_000_000_000 then after == before
            else exists k :: 0 <= k < |draws| && after == draws[k] && Far(b, At(self), draws[k]) &&
                             forall i :: 0 <= i < k ==> !Far(b, At(self), draws[i])
  {
    hide Answers, TableSize, FirstFar;
    FirstAim(BoardOf(world), At(self), before, draws, after);
  }

  /** A move that answers has a target farther than 5 from the trooper and reachable, and from
      every position its search scores that target is at a finite distance. */
  lemma AnswerHasTarget(self: Soldier, world: Arena, game: Game, index: int, before: Point,
                        draws: seq<Point>, after: Point, r: Option<Move>, plan: seq<Act>)
    requires WorldOk(world) && self in world.troopers && self.teammate
    requires BoardOf(world).Free(At(self)) && Countable(BoardOf(world))
    requires Plays(self, world, game, index, before, draws, after, r) && r.Some?
    requires var v := ViewOf(self, world, game, index == 0, after);
             v.Sound() && OnBoard(v, Root(self).state) && IsPlan(v, Root(self), plan)
    ensures 5 < Dist(BoardOf(world), At(self), after) < INF
    ensures var pos := End(ViewOf(self, world, game, index == 0, after), Root(self), plan).state.pos;
            1 <= Dist(BoardOf(world), pos, after) < INF
  {
    hide TableSize, Answers, View.Sound, OnBoard, IsPlan, End;
    var v := ViewOf(self, world, game, index == 0, after);
    ViewCovers(self, world, game, index == 0, after);
    TargetStaysReachable(v, Root(self), plan);
    var pos := End(v, Root(self), plan).state.pos;
    assert Connected(BoardOf(world), pos, after);
    DistBounds(BoardOf(world), pos, after);
  }

  /** Some sequence of draws lets the loop end iff the map has a cell far enough away: where
      there is none, the loop runs for ever. */
  lemma LoopCanEnd(b: Board, p: Point, aim: Point)
    requires b.Valid()
    ensures (exists draws, after :: (forall i :: 0 <= i < |draws| ==> b.IsCorrect(draws[i])) &&
                                    FirstFar(b, p, [aim] + draws, true, after)) <==>
            Far(b, p, aim) || exists q :: b.IsCorrect(q) && Far(b, p, q)
  {
    if Far(b, p, aim) {
      var none: seq<Point> := [];
      var aims := [aim] + none;
      assert aims[0] == aim;
      assert FirstFar(b, p, [aim] + none, true, aim);
    } else if q :| b.IsCorrect(q) && Far(b, p, q) {
      var aims := [aim] + [q];
      assert aims[1] == q;
      assert FirstFar(b, p, [aim] + [q], true, q);
    }
  }

  // ---- Lookups in the visibility table ----

  /** Whatever node is scored or expanded, every lookup made there is inside the table. */
  lemma LookupsInTable(v: View, node: Node, plan: seq<Act>)
    requires v.Sound() && OnBoard(v, node.state) && IsPlan(v, node, plan)
    ensures var s := End(v, node, plan).state;
            forall i :: 0 <= i < |v.enemies| ==>
              LookupsFit(v.sight, v.enemies[i], s.pos, s.stance, v.stances)
  {
    var s := End(v, node, plan).state;
    forall i | 0 <= i < |v.enemies| ensures LookupsFit(v.sight, v.enemies[i], s.pos, s.stance, v.stances) {
      var e := v.enemies[i];
      assert v.Placed(e);
      IndexInTable(v.sight.width, v.sight.height, Sighting(s.pos.x, s.pos.y, e.x, e.y, MinStance(s.stance, e.stance)));
      forall m | 0 <= m < |v.stances| ensures EntryFits(v.sight, e, s.pos, MinStance(v.stances[m], s.stance)) {
        IndexInTable(v.sight.width, v.sight.height,
                     Sighting(e.x, e.y, s.pos.x, s.pos.y, MinStance(v.stances[m], s.stance)));
      }
    }
  }

  ghost predicate EntryFits(sight: Sight, e: Soldier, pos: Point, stance: int) {
    0 <= Index(sight.width, sight.height, Sighting(e.x, e.y, pos.x, pos.y, stance)) < |sight.cells|
  }

  ghost predicate LookupsFit(sight: Sight, e: Soldier, pos: Point, stance: int, stances: seq<int>) {
    && 0 <= Index(sight.width, sight.height, Sighting(pos.x, pos.y, e.x, e.y, MinStance(stance, e.stance)))
         < |sight.cells|
    && forall m :: 0 <= m < |stances| ==> EntryFits(sight, e, pos, MinStance(stances[m], stance))
  }

  // ---- Enemies that can shoot ----

  /** The table's entry for `enemy` looking at `pos`. */
  ghost predicate Entry(v: View, enemy: Soldier, pos: Point, stance: int)
    requires v.Sound() && v.Placed(enemy) && v.board.IsCorrect(pos) && PRONE <= stance <= STANDING
  {
    var s := Sighting(enemy.x, enemy.y, pos.x, pos.y, stance);
    IndexInTable(v.sight.width, v.sight.height, s);
    v.sight.cells[Index(v.sight.width, v.sight.height, s)]
  }

  /** On the first move the enemy may take any stance, and the lower of the two decides. */
  lemma AnyStance(v: View, s: State, enemy: Soldier)
    requires v.Sound() && OnBoard(v, s) && v.Placed(enemy) && v.stances == [PRONE, KNEELING, STANDING]
    ensures Threatens(v, s, enemy) <==>
            || IsNear(s.pos, At(enemy), v.game.grenadeThrowRange)
            || (&& InRange(enemy.shootingRange, enemy.x, enemy.y, s.pos.x, s.pos.y)
                && exists m :: PRONE <= m <= s.stance && Entry(v, enemy, s.pos, m))
  {
    hide IsNear, InRange, Index;
    forall m | PRONE <= m <= STANDING
      ensures SeenAt(v, s, enemy, m) <==>
              InRange(enemy.shootingRange, enemy.x, enemy.y, s.pos.x, s.pos.y) &&
              Entry(v, enemy, s.pos, MinStance(m, s.stance))
    {
    }
    if m :| PRONE <= m <= s.stance && Entry(v, enemy, s.pos, m) {
      assert v.stances[m] == m && MinStance(m, s.stance) == m;
    }
  }

  /** Lying lower on the same cell never exposes the trooper more. */
  lemma {:induction false} LowerIsSafer(v: View, high: State, low: State, count: nat)
    requires v.Sound() && OnBoard(v, high) && OnBoard(v, low) && count <= |v.enemies|
    requires v.stances == [PRONE, KNEELING, STANDING] || v.stances == []
    requires low.pos == high.pos && low.stance <= high.stance
    ensures ShootingEnemies(v, low, count) <= ShootingEnemies(v, high, count)
  {
    hide IsNear, InRange, Entry;
    if count > 0 {
      LowerIsSafer(v, high, low, count - 1);
      var enemy := v.enemies[count - 1];
      assert v.Placed(enemy);
      if v.stances != [] {
        AnyStance(v, high, enemy);
        AnyStance(v, low, enemy);
      }
    }
  }

  /** ... on every move, the first or a later one. */
  lemma LowerIsSaferAlways(self: Soldier, world: Arena, game: Game, first: bool, target: Point, high: State, low: State)
    requires WorldOk(world) && self in world.troopers && self.teammate
    requires var v := ViewOf(self, world, game, first, target);
             v.Sound() && OnBoard(v, high) && OnBoard(v, low)
    requires low.pos == high.pos && low.stance <= high.stance
    ensures var v := ViewOf(self, world, game, first, target);
            ShootingEnemies(v, low, |v.enemies|) <= ShootingEnemies(v, high, |v.enemies|)
  {
    hide TableSize;
    var v := ViewOf(self, world, game, first, target);
    LowerIsSafer(v, high, low, |v.enemies|);
  }

  ghost function NearEnemies(v: View, pos: Point, count: nat): nat
    requires count <= |v.enemies|
  {
    if count == 0 then 0
    else NearEnemies(v, pos, count - 1) + Bit(IsNear(pos, At(v.enemies[count - 1]), v.game.grenadeThrowRange))
  }

  /** On later moves the list of stances is empty: only enemies in grenade range count,
      whatever the stance and whatever the visibility table says. */
  lemma {:induction false} LaterMovesSeeGrenadesOnly(v: View, s: State, count: nat)
    requires v.Sound() && OnBoard(v, s) && v.stances == [] && count <= |v.enemies|
    ensures ShootingEnemies(v, s, count) == NearEnemies(v, s.pos, count)
  {
    hide IsNear;
    if count > 0 {
      LaterMovesSeeGrenadesOnly(v, s, count - 1);
    }
  }

  // ---- The teammates' term of the score ----

  lemma {:induction false} MatesDistBounds(v: View, pos: Point, count: nat)
    requires v.board.Valid() && Countable(v.board) && count <= |v.teammates|
    ensures 0 <= MatesDist(v, pos, count)
    ensures (forall i :: 0 <= i < count ==> Connected(v.board, pos, At(v.teammates[i]))) ==>
              MatesDist(v, pos, count) <= count * |v.board.FreeSet()|
    ensures (exists i :: 0 <= i < count && !Connected(v.board, pos, At(v.teammates[i]))) ==>
              MatesDist(v, pos, count) >= INF
  {
    if count > 0 {
      MatesDistBounds(v, pos, count - 1);
      var mate := At(v.teammates[count - 1]);
      if Connected(v.board, pos, mate) {
        DistBounds(v.board, pos, mate);
      }
      assert count * |v.board.FreeSet()| == (count - 1) * |v.board.FreeSet()| + |v.board.FreeSet()|;
    }
  }

  ghost predicate MatesReachable(v: View, pos: Point)
    requires v.board.Valid()
  {
    forall i :: 0 <= i < |v.teammates| ==> Connected(v.board, pos, At(v.teammates[i]))
  }

  /** 60 * mates_dist is computed in a 32-bit int. One teammate that cannot be reached contributes
      INF and overflows it on every map. If all can be reached the product is at most sixty times
      teammates times FREE cells; so where that bound fits an int, it overflows exactly when some
      teammate cannot be reached. */
  lemma MatesTermFits(v: View, pos: Point)
    requires v.board.Valid() && Countable(v.board)
    ensures var bound := 60 * (|v.teammates| * |v.board.FreeSet()|);
            && (!MatesReachable(v, pos) ==> 60 * MatesDist(v, pos, |v.teammates|) > INT_MAX)
            && (MatesReachable(v, pos) ==> 0 <= 60 * MatesDist(v, pos, |v.teammates|) <= bound)
            && (bound <= INT_MAX ==>
                  (60 * MatesDist(v, pos, |v.teammates|) <= INT_MAX <==> MatesReachable(v, pos)))
  {
    hide MatesDist;
    MatesDistBounds(v, pos, |v.teammates|);
  }

  /** Along a plan: teammates stay reachable, or stay out of reach; so the term overflows at every
      node of the search or, where the bound fits an int, at none. */
  lemma MatesTermAlongPlan(v: View, node: Node, plan: seq<Act>)
    requires v.Sound() && OnBoard(v, node.state) && IsPlan(v, node, plan)
    requires Covers(v) && v.board.Free(node.state.pos) && Countable(v.board)
    ensures var pos := End(v, node, plan).state.pos;
            var bound := 60 * (|v.teammates| * |v.board.FreeSet()|);
            && (MatesReachable(v, pos) <==> MatesReachable(v, node.state.pos))
            && (!MatesReachable(v, node.state.pos) ==> 60 * MatesDist(v, pos, |v.teammates|) > INT_MAX)
            && (MatesReachable(v, node.state.pos) ==> 60 * MatesDist(v, pos, |v.teammates|) <= bound)
  {
    hide IsPlan, End, MatesDist, Covers;
    var pos := End(v, node, plan).state.pos;
    MatesTermFits(v, pos);
    forall i | 0 <= i < |v.teammates|
      ensures Connected(v.board, pos, At(v.teammates[i])) <==>
              Connected(v.board, node.state.pos, At(v.teammates[i]))
    {
      PlanKeepsConnected(v, node, plan, At(v.teammates[i]));
    }
  }

  // ---- The answer ----

  /** What the bot answers can be carried out at once: it ends the turn, or it names an action that
      is legal where the trooper stands, with its code and its target's cell. */
  lemma AnswerIsLegal(v: View, root: Node, action: Move, score: int)
    requires v.Sound() && OnBoard(v, root.state) && Answers(v, root, action, score)
    ensures || action == Move(0, -1, -1, -1)
            || exists a :: Opens(v, root, a) && Names(v, root, a, action)
  {
    hide Names, MoveOf, View.Sound, OnBoard, Opens, Entered;
    if score > -INF {
      var plan :| IsTopPlan(v, root, action, score, plan);
      if plan != [] {
        assert Opens(v, root, plan[0]);
        MoveNames(v, root, plan[0]);
      }
    }
  }
}
