/** Why the score can be computed in a 32-bit int: on boards, teams and game constants of
    generous but bounded size, no step of its evaluation leaves the range, at any node. */
module ScoreBounds {
  import opened Grid
  import opened Distances
  import opened Model
  import Visibility
  import opened PlanTree
  import opened BestPlan
  import opened Strategy
  import opened Steps
  import opened PlanTheorems

  const MAX_MATES := 10
  const MAX_ENEMIES := 20
  const MAX_CELLS := 1_000_000
  const MAX_DAMAGE := 1000

  predicate InLimits(damage: int) {
    0 <= damage <= MAX_DAMAGE
  }

  ghost predicate Modest(v: View)
    requires v.board.Valid()
  {
    && |v.teammates| <= MAX_MATES && |v.enemies| <= MAX_ENEMIES && |v.board.FreeSet()| <= MAX_CELLS
    && InLimits(v.game.grenadeDirectDamage) && InLimits(v.game.grenadeCollateralDamage)
    && InLimits(v.game.medikitBonusHitpoints) && InLimits(v.game.medikitHealSelfBonusHitpoints)
    && InLimits(v.game.fieldMedicHealBonusHitpoints) && InLimits(v.game.fieldMedicHealSelfBonusHitpoints)
    && InLimits(v.self.proneDamage) && InLimits(v.self.kneelingDamage) && InLimits(v.self.standingDamage)
  }

  // ---- What one action adds ----

  lemma BlastBounds(damage: int, hit: nat, count: nat)
    requires InLimits(damage) && hit <= count
    ensures 0 <= damage * hit <= MAX_DAMAGE * count
  {
    assert damage * hit <= MAX_DAMAGE * hit;
  }

  const MAX_HARM := MAX_DAMAGE * (1 + MAX_ENEMIES)
  const MAX_MATE_HARM := MAX_DAMAGE * MAX_MATES
  const MAX_KILLS := 1 + MAX_ENEMIES

  /** The accumulators after at most `steps` actions from zero. */
  predicate Within(s: State, steps: nat) {
    && 0 <= s.damage <= MAX_HARM * steps
    && -MAX_DAMAGE * steps <= s.mateDamage <= MAX_MATE_HARM * steps
    && -MAX_KILLS * steps <= s.kills <= MAX_KILLS * steps
  }

  lemma ActBounds(v: View, node: Node, a: Act)
    requires v.Sound() && OnBoard(v, node.state) && Opens(v, node, a) && Modest(v)
    ensures var s := Entered(v, node);
            && 0 <= EnemyHarm(v)(s, a) <= MAX_HARM
            && -MAX_DAMAGE <= MateHarm(v)(s, a) <= MAX_MATE_HARM
            && -MAX_KILLS <= Kills(v)(s, a) <= MAX_KILLS
  {
    hide View.Sound, OnBoard, BonusAt, NextTo, LostNextTo, HasNeigh, Board.Valid, Board.FreeSet;
    if a.kind == Throw {
      var e, blast := v.enemies[a.index], v.game.grenadeCollateralDamage;
      NextToAtMost(e.x, e.y, v.enemies, blast, |v.enemies|);
      NextToAtMost(e.x, e.y, v.teammates, blast, |v.teammates|);
      BlastBounds(blast, |NextTo(e.x, e.y, v.enemies, |v.enemies|)|, |v.enemies|);
      BlastBounds(blast, |NextTo(e.x, e.y, v.teammates, |v.teammates|)|, |v.teammates|);
    }
  }

  lemma {:induction false} PlanBounds(v: View, node: Node, plan: seq<Act>, steps: nat)
    requires v.Sound() && OnBoard(v, node.state) && IsPlan(v, node, plan) && Modest(v)
    requires Within(node.state, steps)
    ensures Within(End(v, node, plan).state, steps + |plan|)
    decreases |plan|
  {
    hide View.Sound, OnBoard, Legal, Effect, EnemyHarm, MateHarm, Kills, Modest;
    if plan != [] {
      HarmStep(v, node, plan[0]);
      ActBounds(v, node, plan[0]);
      PlanBounds(v, Child(v, node, plan[0]), plan[1..], steps + 1);
    }
  }

  // ---- The evaluation, term by term ----

  /** What the statements of the evaluation add to the score, in order. */
  ghost function Terms(v: View, s: State): (terms: seq<int>)
    requires v.Sound() && OnBoard(v, s)
    ensures |terms| == 10
  {
    [- 2000 * s.mateDamage, 300 * s.damage, 20000 * s.kills, - 10000 * ShootingEnemies(v, s, |v.enemies|),
     400 * Bit(s.hasMedkit), 400 * Bit(s.hasFieldRation), 400 * Bit(s.hasGrenade),
     - (60 * MatesDist(v, s.pos, |v.teammates|) / |v.teammates|),
     if s.mateDamage >= 0 && s.damage == 0 then - 55 * Dist(v.board, s.pos, v.target) else 0,
     if v.self.kind != 4 then 500 * Bit(CloseToCommander(v, s.pos, |v.teammates|)) else 0]
  }

  /** The score after the first `count` statements. */
  function Running(terms: seq<int>, count: nat): int
    requires count <= |terms|
  {
    if count == 0 then 0 else Running(terms, count - 1) + terms[count - 1]
  }

  function Magnitude(terms: seq<int>, count: nat): nat
    requires count <= |terms|
  {
    if count == 0 then 0 else Magnitude(terms, count - 1) + Abs(terms[count - 1])
  }

  lemma {:induction false} RunningBounded(terms: seq<int>, count: nat)
    requires count <= |terms|
    ensures -(Magnitude(terms, |terms|) as int) <= Running(terms, count) <= Magnitude(terms, |terms|)
  {
    RunningWithin(terms, count);
    MagnitudeGrows(terms, count, |terms|);
  }

  lemma {:induction false} RunningWithin(terms: seq<int>, count: nat)
    requires count <= |terms|
    ensures -(Magnitude(terms, count) as int) <= Running(terms, count) <= Magnitude(terms, count)
  {
    if count > 0 {
      RunningWithin(terms, count - 1);
    }
  }

  lemma {:induction false} MagnitudeGrows(terms: seq<int>, low: nat, high: nat)
    requires low <= high <= |terms|
    ensures Magnitude(terms, low) <= Magnitude(terms, high)
    decreases high
  {
    if low < high {
      MagnitudeGrows(terms, low, high - 1);
    }
  }

  lemma RunningTen(t: seq<int>)
    requires |t| == 10
    ensures Running(t, 10) == t[0] + t[1] + t[2] + t[3] + t[4] + t[5] + t[6] + t[7] + t[8] + t[9]
    ensures Magnitude(t, 10) == Abs(t[0]) + Abs(t[1]) + Abs(t[2]) + Abs(t[3]) + Abs(t[4])
                                + Abs(t[5]) + Abs(t[6]) + Abs(t[7]) + Abs(t[8]) + Abs(t[9])
  {
    assert Running(t, 0) == 0 && Magnitude(t, 0) == 0;
    assert Running(t, 2) == t[0] + t[1];
    assert Running(t, 4) == Running(t, 2) + t[2] + t[3];
    assert Running(t, 6) == Running(t, 4) + t[4] + t[5];
    assert Running(t, 8) == Running(t, 6) + t[6] + t[7];
    assert Magnitude(t, 2) == Abs(t[0]) + Abs(t[1]);
    assert Magnitude(t, 4) == Magnitude(t, 2) + Abs(t[2]) + Abs(t[3]);
    assert Magnitude(t, 6) == Magnitude(t, 4) + Abs(t[4]) + Abs(t[5]);
    assert Magnitude(t, 8) == Magnitude(t, 6) + Abs(t[6]) + Abs(t[7]);
  }

  lemma ScoreIsSum(v: View, s: State)
    requires v.Sound() && OnBoard(v, s)
    ensures Running(Terms(v, s), 10) == Score(v, s)
  {
    hide View.Sound, OnBoard, ShootingEnemies, MatesDist, CloseToCommander, Running, Magnitude;
    RunningTen(Terms(v, s));
  }

  /** No intermediate product or sum of the evaluation reaches 1e9. */
  ghost predicate FitsInt(v: View, s: State)
    requires v.Sound() && OnBoard(v, s)
  {
    && 0 <= 60 * MatesDist(v, s.pos, |v.teammates|) < INF
    && (forall k :: 0 <= k < 10 ==> -INF < Terms(v, s)[k] < INF)
    && (forall k :: 0 <= k <= 10 ==> -INF < Running(Terms(v, s), k) < INF)
  }

  lemma DivisionShrinks(n: int, d: int)
    requires n >= 0 && d > 0
    ensures 0 <= n / d <= n
  {
    Visibility.TimesMonotone(1, d, n + 1);
    Visibility.QuotientRange(n, n + 1, d);
  }

  /** The facts about a node on which its score depends, with their bounds. */
  ghost predicate Ordinary(v: View, s: State)
    requires v.Sound() && OnBoard(v, s)
  {
    && Within(s, MAX_ACTIONS)
    && |v.teammates| <= MAX_MATES && |v.enemies| <= MAX_ENEMIES
    && 0 <= MatesDist(v, s.pos, |v.teammates|) <= MAX_MATES * MAX_CELLS
    && 0 <= Dist(v.board, s.pos, v.target) <= MAX_CELLS
  }

  predicate Small(t: seq<int>)
    requires |t| == 10
  {
    && Abs(t[0]) <= 200_000_000 && Abs(t[1]) <= 63_000_000 && Abs(t[2]) <= 4_200_000 && Abs(t[3]) <= 200_000
    && Abs(t[4]) <= 400 && Abs(t[5]) <= 400 && Abs(t[6]) <= 400
    && Abs(t[7]) <= 600_000_000 && Abs(t[8]) <= 55_000_000 && Abs(t[9]) <= 500
  }

  lemma TermsAreSmall(v: View, s: State)
    requires v.Sound() && OnBoard(v, s) && Ordinary(v, s)
    ensures Small(Terms(v, s))
  {
    hide OnBoard, ShootingEnemies, MatesDist, CloseToCommander;
    DivisionShrinks(60 * MatesDist(v, s.pos, |v.teammates|), |v.teammates|);
  }

  lemma SmallTermsFit(t: seq<int>)
    requires |t| == 10 && Small(t)
    ensures forall k :: 0 <= k < 10 ==> -INF < t[k] < INF
    ensures forall k :: 0 <= k <= 10 ==> -INF < Running(t, k) < INF
  {
    hide Running, Magnitude;
    RunningTen(t);
    forall k | 0 <= k <= 10 ensures -INF < Running(t, k) < INF {
      RunningBounded(t, k);
    }
  }

  lemma OrdinaryFits(v: View, s: State)
    requires v.Sound() && OnBoard(v, s) && Ordinary(v, s)
    ensures FitsInt(v, s) && -INF < Score(v, s) < INF
  {
    hide View.Sound, OnBoard, Terms, Score, MatesDist, Running, Small, Within;
    TermsAreSmall(v, s);
    SmallTermsFit(Terms(v, s));
    ScoreIsSum(v, s);
  }

  lemma MatesAreNear(v: View, node: Node, plan: seq<Act>)
    requires v.Sound() && OnBoard(v, node.state) && IsPlan(v, node, plan)
    requires |v.teammates| <= MAX_MATES && |v.board.FreeSet()| <= MAX_CELLS
    requires Covers(v) && v.board.Free(node.state.pos) && MatesReachable(v, node.state.pos)
    ensures 0 <= MatesDist(v, End(v, node, plan).state.pos, |v.teammates|) <= MAX_MATES * MAX_CELLS
  {
    hide IsPlan, End, MatesDist, MatesReachable, Covers;
    var pos := End(v, node, plan).state.pos;
    MatesTermAlongPlan(v, node, plan);
    MatesTermFits(v, pos);
    ProductBound(|v.teammates|, |v.board.FreeSet()|);
  }

  lemma NodesAreOrdinary(self: Soldier, v: View, plan: seq<Act>)
    requires v.Sound() && OnBoard(v, Root(self).state) && Reaches(v, Root(self), plan)
    requires Modest(v) && Covers(v) && v.board.Free(At(self))
    requires MatesReachable(v, At(self)) && Connected(v.board, At(self), v.target)
    ensures Ordinary(v, Entered(v, End(v, Root(self), plan)))
  {
    hide IsPlan, End, MatesDist, MatesReachable, Covers, Board.Free, Board.FreeSet;
    PlanBounds(v, Root(self), plan, 0);
    MatesAreNear(v, Root(self), plan);
    PlanKeepsConnected(v, Root(self), plan, v.target);
    DistBounds(v.board, End(v, Root(self), plan).state.pos, v.target);
  }

  // ---- The theorem ----

  /** On a modest game, with teammates and target reachable from the trooper, the score of every node
      the search visits is computed without leaving a 32-bit int, and lies above -1e9. */
  lemma ScoreFits(self: Soldier, v: View, plan: seq<Act>)
    requires v.Sound() && OnBoard(v, Root(self).state) && Reaches(v, Root(self), plan)
    requires Modest(v) && Covers(v) && v.board.Free(At(self))
    requires MatesReachable(v, At(self)) && Connected(v.board, At(self), v.target)
    ensures var s := Entered(v, End(v, Root(self), plan));
            FitsInt(v, s) && -INF < Score(v, s) < INF
  {
    NodesAreOrdinary(self, v, plan);
    OrdinaryFits(v, Entered(v, End(v, Root(self), plan)));
  }

  lemma ProductBound(mates: nat, cells: nat)
    requires mates <= MAX_MATES && cells <= MAX_CELLS
    ensures mates * cells <= MAX_MATES * MAX_CELLS
  {
    assert mates * cells <= MAX_MATES * cells;
  }

  /** So on such a game the answer is always that of a best plan: the floor of -1e9 never counts. */
  lemma AnswerIsAlwaysBest(self: Soldier, v: View, action: Move, score: int)
    requires v.Sound() && OnBoard(v, Root(self).state) && Answers(v, Root(self), action, score)
    requires Modest(v) && Covers(v) && v.board.Free(At(self))
    requires MatesReachable(v, At(self)) && Connected(v.board, At(self), v.target)
    ensures -INF < score < INF && exists plan :: IsTopPlan(v, Root(self), action, score, plan)
  {
    hide Score, Modest, Covers, MatesReachable, View.Sound, OnBoard;
    ScoreFits(self, v, []);
    assert Reaches(v, Root(self), []);
    if score > -INF {
      var plan :| IsTopPlan(v, Root(self), action, score, plan);
      ScoreFits(self, v, plan);
    }
  }
}
