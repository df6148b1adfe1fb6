/** One move worked out. In a corridor of twelve cells a commander with a medikit stands three cells
    from a wounded teammate. Two steps and the medikit are the best it can do; several plans score
    as much, and the program answers the step towards the teammate. */
module Rescue {
  import opened Grid
  import opened Distances
  import opened Visibility
  import opened Model
  import opened PlanTree
  import opened BestPlan
  import opened Strategy
  import opened Steps
  import opened Examples

  const CARRIER: Soldier := Trooper(1, 5, 0, 1, 0, true, COMMANDER, STANDING, 100, 100, 10, 10,
                                    8.0, 7.0, 3, 25, 30, 35, 25, false, true, false)
  const PATIENT: Soldier := Trooper(2, 2, 0, 1, 1, true, FIELD_MEDIC, STANDING, 50, 100, 10, 10,
                                    8.0, 7.0, 3, 25, 30, 35, 25, false, false, false)
  const FLOOR := [FREE, FREE, FREE, FREE, FREE, FREE, FREE, FREE, FREE, FREE, FREE, FREE]
  const HALL := Corridor(FLOOR, [CARRIER, PATIENT], [])

  lemma HallOk()
    ensures WorldOk(HALL) && Countable(BoardOf(HALL)) && CARRIER in HALL.troopers
    ensures BoardOf(HALL).sizeX == 12 && BoardOf(HALL).sizeY == 1
    ensures forall x :: 0 <= x < 12 ==> BoardOf(HALL).Free(Point(x, 0))
  {
    hide TableSize;
    CorridorOk(FLOOR, [CARRIER, PATIENT], []);
  }

  ghost function Seen(first: bool, target: Point): (v: View)
    ensures v.Sound() && OnBoard(v, Root(CARRIER).state) && v.board == BoardOf(HALL)
  {
    hide TableSize;
    HallOk();
    ViewOfSound(CARRIER, HALL, GAME, first, target);
    ViewOf(CARRIER, HALL, GAME, first, target)
  }

  lemma SeenSides(first: bool, target: Point)
    ensures Seen(first, target).teammates == [CARRIER, PATIENT] && Seen(first, target).enemies == []
  {
    hide TableSize, Stamp;
    var one := [CARRIER];
    assert HALL.troopers[..1] == one && one[..0] == [];
    assert Side(one[..0], true) == Side(one[..0], false) == [];
    assert Side(one, true) == Side(one[..0], true) + [CARRIER];
    assert Side(one, false) == Side(one[..0], false) + [];
    assert Side(HALL.troopers, true) == Side(one, true) + [PATIENT];
    assert Side(HALL.troopers, false) == Side(one, false) + [];
  }

  lemma SeenGame(first: bool, target: Point)
    ensures Seen(first, target).game == GAME
  {
    hide TableSize, Stamp, Side;
  }

  lemma SeenCells(first: bool, target: Point, x: int)
    requires 0 <= x < 12
    ensures Seen(first, target).cells[x][0] == 0 <==> x != 5 && x != 2
  {
    hide TableSize, Stamp, Side;
    HallOk();
    StampFree(BoardOf(HALL), HALL.troopers, Point(x, 0));
    assert At(HALL.troopers[0]) == Point(5, 0) && At(HALL.troopers[1]) == Point(2, 0);
  }

  lemma HallDistSelf(p: int)
    requires 0 <= p < 12
    ensures BoardOf(HALL).Valid() && Dist(BoardOf(HALL), Point(p, 0), Point(p, 0)) == 2
  {
    hide TableSize;
    HallOk();
    var n := Point(if p == 0 then 1 else p - 1, 0);
    assert HasNeigh(BoardOf(HALL), Point(p, 0), n) && BoardOf(HALL).Free(n);
    DistDiagonal(BoardOf(HALL), Point(p, 0));
  }

  lemma HallDistUp(p: int, q: int)
    requires 0 <= p < q < 12
    ensures BoardOf(HALL).Valid() && Dist(BoardOf(HALL), Point(p, 0), Point(q, 0)) == q - p
  {
    hide TableSize;
    HallOk();
    var w := seq(q - p + 1, i requires 0 <= i < q - p + 1 => Point(p + i, 0));
    assert IsWalk(BoardOf(HALL), w, Point(p, 0), Point(q, 0));
    DistAtMost(BoardOf(HALL), w, Point(p, 0), Point(q, 0));
    DistBounds(BoardOf(HALL), Point(p, 0), Point(q, 0));
  }

  lemma HallDist(p: int, q: int)
    requires 0 <= p < 12 && 0 <= q < 12
    ensures BoardOf(HALL).Valid()
    ensures Dist(BoardOf(HALL), Point(p, 0), Point(q, 0)) == if p == q then 2 else if p < q then q - p else p - q
  {
    hide TableSize, Corridor;
    if p == q {
      HallDistSelf(p);
    } else if p < q {
      HallDistUp(p, q);
    } else {
      HallDistUp(q, p);
      DistSymmetric(BoardOf(HALL), Point(p, 0), Point(q, 0));
    }
  }

  /** What holds wherever a plan leads: the medikit is held, or it has restored fifty hit points. */
  predicate Possible(s: State) {
    && 0 <= s.pos.x < 12 && s.pos.y == 0
    && s.damage == 0 && s.kills == 0 && !s.hasFieldRation && !s.hasGrenade
    && s.mateDamage == if s.hasMedkit then 0 else -50
  }

  lemma NothingLies(first: bool, target: Point, node: Node)
    ensures Entered(Seen(first, target), node) == node.state
  {
    hide TableSize, Stamp, Side;
    Arriving(Seen(first, target), node);
  }

  lemma PossibleStep(first: bool, target: Point, node: Node, a: Act)
    requires OnBoard(Seen(first, target), node.state) && Opens(Seen(first, target), node, a) && Possible(node.state)
    ensures Possible(Child(Seen(first, target), node, a).state)
  {
    hide TableSize, Stamp, Side, Effect, Allowed, Cost, Entered, View.Sound;
    var v := Seen(first, target);
    HallOk();
    SeenSides(first, target);
    NothingLies(first, target, node);
    match a.kind
    case MedikitMate =>
      MedikitForMate(v, node, a.index);
    case MedikitSelf => MedikitForSelf(v, node);
    case Throw =>
    case HealMate => HealingMate(v, node, a.index);
    case HealSelf => HealingSelf(v, node);
    case Fire =>
    case Walk => Walking(v, node, a);
    case Raise => Raising(v, node);
    case Lower => Lowering(v, node);
    case Eat => Eating(v, node);
  }

  lemma {:induction false} PossibleEnd(first: bool, target: Point, node: Node, plan: seq<Act>)
    requires OnBoard(Seen(first, target), node.state) && IsPlan(Seen(first, target), node, plan)
    requires Possible(node.state)
    ensures Possible(End(Seen(first, target), node, plan).state)
    decreases |plan|
  {
    hide Seen, Possible, Opens, Child, OnBoard;
    if plan != [] {
      PossibleStep(first, target, node, plan[0]);
      PossibleEnd(first, target, Child(Seen(first, target), node, plan[0]), plan[1..]);
    }
  }

  /** Sixty times the distances to both, halved: at least 90. */
  lemma MatesTerm(first: bool, target: Point, x: int)
    requires 0 <= x < 12
    ensures var d := MatesDist(Seen(first, target), Point(x, 0), |Seen(first, target).teammates|);
            d >= 3 && (x == 3 ==> d == 3)
  {
    hide TableSize, Stamp, Side;
    SeenSides(first, target);
    HallDist(x, 5);
    HallDist(x, 2);
    var v := Seen(first, target);
    assert MatesDist(v, Point(x, 0), 0) == 0;
    assert MatesDist(v, Point(x, 0), 1) == Dist(v.board, Point(x, 0), At(CARRIER));
  }

  lemma PossibleScore(first: bool, target: Point, s: State)
    requires OnBoard(Seen(first, target), s) && Possible(s)
    ensures Score(Seen(first, target), s) <= if s.hasMedkit then 810 else 100_410
    ensures s.pos.x == 3 && !s.hasMedkit ==> Score(Seen(first, target), s) == 100_410
  {
    hide TableSize, Stamp, Side, MatesDist, IsNear, View.Sound;
    var v := Seen(first, target);
    SeenSides(first, target);
    MatesTerm(first, target, s.pos.x);
    CommanderMeaning(v, s.pos, |v.teammates|);
    assert v.teammates[0] == CARRIER;
  }

  const PLAN := [Act(Walk, 0), Act(Walk, 0), Act(MedikitMate, 1)]

  lemma StepLeft(first: bool, target: Point, node: Node)
    requires OnBoard(Seen(first, target), node.state) && node.points >= 2
    requires node.state.stance == STANDING && 4 <= node.state.pos.x <= 5 && node.state.pos.y == 0
    ensures var v, a := Seen(first, target), Act(Walk, 0);
            && Opens(v, node, a)
            && Child(v, node, a) == Node(node.points - 2, node.state.(pos := Point(node.state.pos.x - 1, 0)))
  {
    hide TableSize, Stamp, Side, View.Sound, Board.Valid, Effect;
    var v, a := Seen(first, target), Act(Walk, 0);
    HallOk();
    NothingLies(first, target, node);
    SeenCells(first, target, node.state.pos.x - 1);
    assert Neighs(v.board, node.state.pos)[0] == Point(node.state.pos.x - 1, 0);
    assert v.Local().Free(Point(node.state.pos.x - 1, 0));
    assert Opens(v, node, a);
    Walking(v, node, a);
    assert Child(v, node, a).state.pos == Neighs(v.board, node.state.pos)[0];
  }

  lemma PlanWorks(first: bool, target: Point)
    ensures IsPlan(Seen(first, target), Root(CARRIER), PLAN)
    ensures Value(Seen(first, target), Root(CARRIER), PLAN) == 100_410
  {
    hide Seen, View.Sound, OnBoard, Effect, Allowed, Cost, Score, Entered;
    var v := Seen(first, target);
    var a, root := Act(Walk, 0), Root(CARRIER);
    SeenSides(first, target);
    StepLeft(first, target, root);
    var one := Child(v, root, a);
    assert one == Node(8, root.state.(pos := Point(4, 0)));
    StepLeft(first, target, one);
    var two := Child(v, one, a);
    assert two == Node(6, root.state.(pos := Point(3, 0)));
    NothingLies(first, target, two);
    assert v.teammates[1] == PATIENT;
    assert Entered(v, two) == two.state && two.state.hasMedkit;
    SeenGame(first, target);
    assert Beside(3, 0, PATIENT) && Restored(50, PATIENT) == 50;
    MedikitForMate(v, two, 1);
    var three := Child(v, two, Act(MedikitMate, 1));
    assert three == Node(4, two.state.(mateDamage := -50, hasMedkit := false));
    assert PLAN[1..] == [a, Act(MedikitMate, 1)] && PLAN[1..][1..] == [Act(MedikitMate, 1)];
    assert IsPlan(v, three, []) && End(v, three, []) == three;
    assert IsPlan(v, two, [Act(MedikitMate, 1)]) && End(v, two, [Act(MedikitMate, 1)]) == three;
    assert IsPlan(v, one, PLAN[1..]) && End(v, one, PLAN[1..]) == three;
    assert End(v, root, PLAN) == three;
    NothingLies(first, target, three);
    PossibleScore(first, target, three.state);
  }

  /** The first action of any plan as good as that. */
  lemma FirstActions(first: bool, target: Point, a: Act)
    requires Opens(Seen(first, target), Root(CARRIER), a)
    ensures a == Act(Walk, 0) || Earlier(Act(Walk, 0), a)
  {
    hide TableSize, Stamp, Side, View.Sound;
    HallOk();
    SeenSides(first, target);
    NothingLies(first, target, Root(CARRIER));
  }

  /** Whatever the target and the number of the move: the answer is a step to the left. */
  lemma AnswerIsStep(first: bool, target: Point, action: Move, score: int)
    requires Answers(Seen(first, target), Root(CARRIER), action, score)
    ensures action == Move(1, -1, 4, 0) && score == 100_410
  {
    hide Seen, View.Sound, OnBoard, Score, Entered, MoveOf, Opens, Child, Earlier;
    var v, root := Seen(first, target), Root(CARRIER);
    PlanWorks(first, target);
    assert BestPlan.Reaches(v, root, PLAN);
    var plan :| IsTopPlan(v, root, action, score, plan);
    PossibleEnd(first, target, root, plan);
    NothingLies(first, target, End(v, root, plan));
    PossibleScore(first, target, End(v, root, plan).state);
    assert !StartsEarlier(PLAN, plan);
    EmptyPlanScore(first, target);
    FirstActions(first, target, plan[0]);
    StepLeft(first, target, root);
    NothingLies(first, target, root);
    Walking(v, root, Act(Walk, 0));
  }

  lemma EmptyPlanScore(first: bool, target: Point)
    ensures Value(Seen(first, target), Root(CARRIER), []) <= 810
  {
    hide Seen, View.Sound, OnBoard, Score, Entered;
    NothingLies(first, target, Root(CARRIER));
    PossibleScore(first, target, Root(CARRIER).state);
  }

  /** So every call that answers at all answers that. */
  lemma CallAnswersStep(index: int, before: Point, draws: seq<Point>, after: Point, r: Option<Move>)
    ensures WorldOk(HALL) && CARRIER in HALL.troopers
    ensures Plays(CARRIER, HALL, GAME, index, before, draws, after, r) && r.Some? ==> r.value == Move(1, -1, 4, 0)
  {
    hide TableSize, Stamp, Side, Answers, FirstFar;
    HallOk();
    if Plays(CARRIER, HALL, GAME, index, before, draws, after, r) && r.Some? {
      var score :| PlaysFor(CARRIER, HALL, GAME, index, before, draws, after, r, score);
      AnswerIsStep(index == 0, after, r.value, score);
    }
  }
}
