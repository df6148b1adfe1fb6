/** The search as a function of what it finds so far, and why what it finds is the first
    best plan in the order in which the search meets plans. */
module BestPlan {
  import opened Distances
  import opened Model
  import opened PlanTree

  const MAX_ACTIONS := 10

  datatype Best = Best(action: Move, score: int)

  function Improve(best: Best, tag: Move, score: int): Best {
    if score > best.score then Best(tag, score) else best
  }

  /** Only the actions of the first level rename what is reported. */
  function Label(v: View, node: Node, depth: nat, tag: Move, a: Act): Move
    requires a.index < Choices(v, node.state, a.kind)
  {
    if depth == 0 then MoveOf(v, node.state, a) else tag
  }

  // ---- The search, sequentially ----

  /** The search from a node `depth` actions below the root. */
  ghost function Visit(v: View, depth: nat, node: Node, tag: Move, best: Best): Best
    requires v.Sound() && OnBoard(v, node.state) && depth <= MAX_ACTIONS
    decreases MAX_ACTIONS - depth, 3, 0
  {
    var s := Entered(v, node);
    var scored := Improve(best, tag, Score(v, s));
    if depth == MAX_ACTIONS then scored else VisitKinds(v, depth, Node(node.points, s), tag, scored, |KINDS|)
  }

  /** ... its attempts of the first `kinds` kinds; `node` has picked its bonuses up. */
  ghost function VisitKinds(v: View, depth: nat, node: Node, tag: Move, best: Best, kinds: nat): Best
    requires v.Sound() && OnBoard(v, node.state) && depth < MAX_ACTIONS && kinds <= |KINDS|
    decreases MAX_ACTIONS - depth, 2, kinds
  {
    if kinds == 0 then best else
      var kind := KINDS[kinds - 1];
      VisitKind(v, depth, node, tag, VisitKinds(v, depth, node, tag, best, kinds - 1),
                kind, Choices(v, node.state, kind))
  }

  /** ... its first `count` attempts of one kind. */
  ghost function VisitKind(v: View, depth: nat, node: Node, tag: Move, best: Best, kind: Kind, count: nat): Best
    requires v.Sound() && OnBoard(v, node.state) && depth < MAX_ACTIONS
    requires count <= Choices(v, node.state, kind)
    decreases MAX_ACTIONS - depth, 1, count
  {
    if count == 0 then best else
      VisitAct(v, depth, node, tag, VisitKind(v, depth, node, tag, best, kind, count - 1), Act(kind, count - 1))
  }

  /** ... one attempt. */
  ghost function VisitAct(v: View, depth: nat, node: Node, tag: Move, best: Best, a: Act): Best
    requires v.Sound() && OnBoard(v, node.state) && depth < MAX_ACTIONS
    requires a.index < Choices(v, node.state, a.kind)
    decreases MAX_ACTIONS - depth, 0, 0
  {
    if Legal(v, node.points, node.state, a) then
      Visit(v, depth + 1, Apply(v, node.points, node.state, a), Label(v, node, depth, tag, a), best)
    else
      best
  }

  // ---- What the result means ----

  /** Plans short enough for the search to reach. */
  ghost predicate InReach(v: View, depth: nat, node: Node, plan: seq<Act>)
    requires v.Sound() && OnBoard(v, node.state)
  {
    IsPlan(v, node, plan) && depth + |plan| <= MAX_ACTIONS
  }

  /** Plans that start with one of the first `kinds` kinds of attempt, or with one of the
      first `count` attempts of the next kind. */
  predicate InScope(kinds: nat, count: nat, plan: seq<Act>) {
    plan != [] ==>
      plan[0].kind.Order() < kinds || (plan[0].kind.Order() == kinds && plan[0].index < count)
  }

  predicate StartsEarlier(q: seq<Act>, p: seq<Act>) {
    p != [] && (q == [] || Earlier(q[0], p[0]))
  }

  ghost function Reported(v: View, depth: nat, node: Node, tag: Move, plan: seq<Act>): Best
    requires v.Sound() && OnBoard(v, node.state) && IsPlan(v, node, plan)
  {
    Best(if plan == [] then tag else Label(v, Node(node.points, Entered(v, node)), depth, tag, plan[0]),
         Value(v, node, plan))
  }

  ghost predicate Candidate(v: View, depth: nat, node: Node, kinds: nat, count: nat, plan: seq<Act>)
    requires v.Sound() && OnBoard(v, node.state)
  {
    InReach(v, depth, node, plan) && InScope(kinds, count, plan)
  }

  /** `plan` has the top value `r` reports, and no candidate with that value starts earlier. */
  ghost predicate IsFirstBest(v: View, depth: nat, node: Node, tag: Move, r: Best,
                              kinds: nat, count: nat, plan: seq<Act>)
    requires v.Sound() && OnBoard(v, node.state)
  {
    && Candidate(v, depth, node, kinds, count, plan)
    && r == Reported(v, depth, node, tag, plan)
    && forall q :: Candidate(v, depth, node, kinds, count, q) && Value(v, node, q) == r.score ==>
                     !StartsEarlier(q, plan)
  }

  ghost predicate Bounds(v: View, depth: nat, node: Node, r: Best, kinds: nat, count: nat)
    requires v.Sound() && OnBoard(v, node.state)
  {
    forall q :: Candidate(v, depth, node, kinds, count, q) ==> Value(v, node, q) <= r.score
  }

  /** `r` is `best`, unless some candidate beats it; then `r` reports the first best candidate. */
  ghost predicate IsBest(v: View, depth: nat, node: Node, tag: Move, best: Best, r: Best, kinds: nat, count: nat)
    requires v.Sound() && OnBoard(v, node.state)
  {
    && r.score >= best.score
    && Bounds(v, depth, node, r, kinds, count)
    && (r == best ||
        (r.score > best.score && exists plan :: IsFirstBest(v, depth, node, tag, r, kinds, count, plan)))
  }

  // ---- Proof ----

  lemma KindsInOrder()
    ensures forall k :: 0 <= k < |KINDS| ==> KINDS[k].Order() == k
    ensures forall kind: Kind :: kind.Order() < |KINDS| && KINDS[kind.Order()] == kind
  {
  }

  /** The root alone: no attempt tried yet. */
  lemma RootBest(v: View, depth: nat, node: Node, tag: Move, best: Best)
    requires v.Sound() && OnBoard(v, node.state) && depth <= MAX_ACTIONS
    ensures IsBest(v, depth, node, tag, best, Improve(best, tag, Score(v, Entered(v, node))), 0, 0)
  {
    var r := Improve(best, tag, Score(v, Entered(v, node)));
    assert forall q :: Candidate(v, depth, node, 0, 0, q) ==> q == [];
    assert Candidate(v, depth, node, 0, 0, []);
    if r != best {
      assert IsFirstBest(v, depth, node, tag, r, 0, 0, []);
    }
  }

  lemma TailOfPlan(v: View, depth: nat, node: Node, q: seq<Act>)
    requires v.Sound() && OnBoard(v, node.state) && q != [] && InReach(v, depth, node, q)
    ensures Opens(v, node, q[0])
    ensures Candidate(v, depth + 1, Child(v, node, q[0]), |KINDS|, 0, q[1..])
    ensures Value(v, Child(v, node, q[0]), q[1..]) == Value(v, node, q)
  {
    KindsInOrder();
  }

  lemma PlanFromTail(v: View, depth: nat, node: Node, a: Act, p: seq<Act>)
    requires v.Sound() && OnBoard(v, node.state) && Opens(v, node, a)
    requires InReach(v, depth + 1, Child(v, node, a), p)
    ensures InReach(v, depth, node, [a] + p)
    ensures Value(v, node, [a] + p) == Value(v, Child(v, node, a), p)
  {
    assert ([a] + p)[1..] == p;
  }

  lemma ScopeNext(kinds: nat, count: nat, q: seq<Act>)
    requires kinds < |KINDS|
    ensures InScope(kinds, count + 1, q) <==>
            InScope(kinds, count, q) || (q != [] && q[0] == Act(KINDS[kinds], count))
  {
    KindsInOrder();
  }

  /** The bound survives one more legal attempt. */
  lemma BoundsNext(v: View, depth: nat, node: Node, tag: Move, r0: Best, r1: Best, kinds: nat, count: nat)
    requires v.Sound() && OnBoard(v, node.state) && depth < MAX_ACTIONS && kinds < |KINDS|
    requires Bounds(v, depth, node, r0, kinds, count) && r1.score >= r0.score
    requires var a := Act(KINDS[kinds], count);
             Opens(v, node, a) ==> Bounds(v, depth + 1, Child(v, node, a), r1, |KINDS|, 0)
    ensures Bounds(v, depth, node, r1, kinds, count + 1)
  {
    forall q | Candidate(v, depth, node, kinds, count + 1, q) ensures Value(v, node, q) <= r1.score {
      ScopeNext(kinds, count, q);
      if InScope(kinds, count, q) {
        assert Candidate(v, depth, node, kinds, count, q);
      } else {
        TailOfPlan(v, depth, node, q);
      }
    }
  }

  /** A witness found earlier stays first when the new attempt's plans only tie with it. */
  lemma FirstBestKept(v: View, depth: nat, node: Node, tag: Move, r: Best, kinds: nat, count: nat, plan: seq<Act>)
    requires v.Sound() && OnBoard(v, node.state) && depth < MAX_ACTIONS && kinds < |KINDS|
    requires IsFirstBest(v, depth, node, tag, r, kinds, count, plan)
    ensures IsFirstBest(v, depth, node, tag, r, kinds, count + 1, plan)
  {
    KindsInOrder();
    ScopeNext(kinds, count, plan);
    forall q | Candidate(v, depth, node, kinds, count + 1, q) && Value(v, node, q) == r.score
      ensures !StartsEarlier(q, plan)
    {
      ScopeNext(kinds, count, q);
      if InScope(kinds, count, q) {
        assert Candidate(v, depth, node, kinds, count, q);
      }
    }
  }

  /** A child's witness, prefixed by the attempt, is first: nothing earlier scored as much. */
  lemma FirstBestNew(v: View, depth: nat, node: Node, tag: Move, r0: Best, r1: Best,
                     kinds: nat, count: nat, p: seq<Act>)
    requires v.Sound() && OnBoard(v, node.state) && depth < MAX_ACTIONS && kinds < |KINDS|
    requires var a := Act(KINDS[kinds], count);
             && Opens(v, node, a)
             && Candidate(v, depth + 1, Child(v, node, a), |KINDS|, 0, p)
             && r1 == Reported(v, depth + 1, Child(v, node, a),
                               Label(v, Node(node.points, Entered(v, node)), depth, tag, a), p)
    requires Bounds(v, depth, node, r0, kinds, count) && r1.score > r0.score
    ensures IsFirstBest(v, depth, node, tag, r1, kinds, count + 1, [Act(KINDS[kinds], count)] + p)
  {
    var a := Act(KINDS[kinds], count);
    var plan := [a] + p;
    KindsInOrder();
    PlanFromTail(v, depth, node, a, p);
    ScopeNext(kinds, count, plan);
    assert forall q :: Candidate(v, depth, node, kinds, count, q) ==> Value(v, node, q) < r1.score;
    forall q | Candidate(v, depth, node, kinds, count + 1, q) && Value(v, node, q) == r1.score
      ensures !StartsEarlier(q, plan)
    {
      ScopeNext(kinds, count, q);
    }
  }

  /** One more attempt: skipped when illegal, otherwise searched with the best so far. */
  lemma NextBest(v: View, depth: nat, node: Node, tag: Move, best: Best, r0: Best, r1: Best, kinds: nat, count: nat)
    requires v.Sound() && OnBoard(v, node.state) && depth < MAX_ACTIONS && kinds < |KINDS|
    requires count < Choices(v, node.state, KINDS[kinds])
    requires IsBest(v, depth, node, tag, best, r0, kinds, count)
    requires var a := Act(KINDS[kinds], count);
             if Opens(v, node, a) then
               IsBest(v, depth + 1, Child(v, node, a),
                      Label(v, Node(node.points, Entered(v, node)), depth, tag, a), r0, r1, |KINDS|, 0)
             else
               r1 == r0
    ensures IsBest(v, depth, node, tag, best, r1, kinds, count + 1)
  {
    var a := Act(KINDS[kinds], count);
    BoundsNext(v, depth, node, tag, r0, r1, kinds, count);
    if r1 != r0 {
      var p :| IsFirstBest(v, depth + 1, Child(v, node, a),
                           Label(v, Node(node.points, Entered(v, node)), depth, tag, a), r1, |KINDS|, 0, p);
      FirstBestNew(v, depth, node, tag, r0, r1, kinds, count, p);
    } else if r0 != best {
      var plan :| IsFirstBest(v, depth, node, tag, r0, kinds, count, plan);
      FirstBestKept(v, depth, node, tag, r0, kinds, count, plan);
    }
  }

  lemma ActBest(v: View, depth: nat, node: Node, tag: Move, best: Best, r0: Best, kinds: nat, count: nat)
    requires v.Sound() && OnBoard(v, node.state) && depth < MAX_ACTIONS && kinds < |KINDS|
    requires count < Choices(v, node.state, KINDS[kinds])
    requires IsBest(v, depth, node, tag, best, r0, kinds, count)
    ensures IsBest(v, depth, node, tag, best,
                   VisitAct(v, depth, Node(node.points, Entered(v, node)), tag, r0, Act(KINDS[kinds], count)),
                   kinds, count + 1)
    decreases MAX_ACTIONS - depth, 0, 0
  {
    var a := Act(KINDS[kinds], count);
    var entered := Node(node.points, Entered(v, node));
    var r1 := VisitAct(v, depth, entered, tag, r0, a);
    if Opens(v, node, a) {
      VisitBest(v, depth + 1, Child(v, node, a), Label(v, entered, depth, tag, a), r0);
    }
    NextBest(v, depth, node, tag, best, r0, r1, kinds, count);
  }

  lemma KindBest(v: View, depth: nat, node: Node, tag: Move, best: Best, r0: Best, kinds: nat, count: nat)
    requires v.Sound() && OnBoard(v, node.state) && depth < MAX_ACTIONS && kinds < |KINDS|
    requires count <= Choices(v, node.state, KINDS[kinds])
    requires IsBest(v, depth, node, tag, best, r0, kinds, 0)
    ensures IsBest(v, depth, node, tag, best,
                   VisitKind(v, depth, Node(node.points, Entered(v, node)), tag, r0, KINDS[kinds], count),
                   kinds, count)
    decreases MAX_ACTIONS - depth, 1, count
  {
    hide VisitAct, IsBest;
    if count > 0 {
      var entered := Node(node.points, Entered(v, node));
      KindBest(v, depth, node, tag, best, r0, kinds, count - 1);
      ActBest(v, depth, node, tag, best,
              VisitKind(v, depth, entered, tag, r0, KINDS[kinds], count - 1), kinds, count - 1);
    }
  }

  /** Having made every attempt of one kind is being about to make those of the next. */
  lemma NextKind(v: View, depth: nat, node: Node, tag: Move, best: Best, r: Best, kinds: nat)
    requires v.Sound() && OnBoard(v, node.state) && kinds < |KINDS|
    requires IsBest(v, depth, node, tag, best, r, kinds, Choices(v, node.state, KINDS[kinds]))
    ensures IsBest(v, depth, node, tag, best, r, kinds + 1, 0)
  {
    var all := Choices(v, node.state, KINDS[kinds]);
    KindsInOrder();
    forall q ensures Candidate(v, depth, node, kinds + 1, 0, q) <==> Candidate(v, depth, node, kinds, all, q) {
      if q != [] && InReach(v, depth, node, q) {
        assert Opens(v, node, q[0]);
      }
    }
    if r != best {
      var plan :| IsFirstBest(v, depth, node, tag, r, kinds, all, plan);
      assert IsFirstBest(v, depth, node, tag, r, kinds + 1, 0, plan);
    }
  }

  lemma KindsBest(v: View, depth: nat, node: Node, tag: Move, best: Best, r0: Best, kinds: nat)
    requires v.Sound() && OnBoard(v, node.state) && depth < MAX_ACTIONS && kinds <= |KINDS|
    requires IsBest(v, depth, node, tag, best, r0, 0, 0)
    ensures IsBest(v, depth, node, tag, best,
                   VisitKinds(v, depth, Node(node.points, Entered(v, node)), tag, r0, kinds), kinds, 0)
    decreases MAX_ACTIONS - depth, 2, kinds
  {
    hide VisitKind, IsBest;
    if kinds > 0 {
      var entered := Node(node.points, Entered(v, node));
      var r := VisitKinds(v, depth, entered, tag, r0, kinds - 1);
      KindsBest(v, depth, node, tag, best, r0, kinds - 1);
      KindBest(v, depth, node, tag, best, r, kinds - 1, Choices(v, node.state, KINDS[kinds - 1]));
      NextKind(v, depth, node, tag, best, VisitKinds(v, depth, entered, tag, r0, kinds), kinds - 1);
    }
  }

  /** The search from any node keeps what it had unless some reachable plan beats it, and
      then reports the first best plan. */
  lemma VisitBest(v: View, depth: nat, node: Node, tag: Move, best: Best)
    requires v.Sound() && OnBoard(v, node.state) && depth <= MAX_ACTIONS
    ensures IsBest(v, depth, node, tag, best, Visit(v, depth, node, tag, best), |KINDS|, 0)
    decreases MAX_ACTIONS - depth, 3, 0
  {
    RootBest(v, depth, node, tag, best);
    if depth < MAX_ACTIONS {
      KindsBest(v, depth, node, tag, best, Improve(best, tag, Score(v, Entered(v, node))), |KINDS|);
    } else {
      KindsInOrder();
      LeafBest(v, node, tag, best);
    }
  }

  /** At the depth limit the only plan left is the empty one. */
  lemma LeafBest(v: View, node: Node, tag: Move, best: Best)
    requires v.Sound() && OnBoard(v, node.state)
    ensures IsBest(v, MAX_ACTIONS, node, tag, best, Improve(best, tag, Score(v, Entered(v, node))), |KINDS|, 0)
  {
    var r := Improve(best, tag, Score(v, Entered(v, node)));
    assert forall q :: Candidate(v, MAX_ACTIONS, node, |KINDS|, 0, q) ==> q == [];
    if r != best {
      assert IsFirstBest(v, MAX_ACTIONS, node, tag, r, |KINDS|, 0, []);
    }
  }

  // ---- The answer, stated without the search ----

  /** The plans the search considers: legal ones of at most ten actions. */
  ghost predicate Reaches(v: View, root: Node, plan: seq<Act>)
    requires v.Sound() && OnBoard(v, root.state)
  {
    IsPlan(v, root, plan) && |plan| <= MAX_ACTIONS
  }

  /** `plan` has the top value among them, and none with that value starts earlier. */
  ghost predicate IsTopPlan(v: View, root: Node, action: Move, score: int, plan: seq<Act>)
    requires v.Sound() && OnBoard(v, root.state)
  {
    && Reaches(v, root, plan)
    && Value(v, root, plan) == score
    && action == (if plan == [] then DEFAULT_MOVE else MoveOf(v, Entered(v, root), plan[0]))
    && forall q :: Reaches(v, root, q) ==>
         && Value(v, root, q) <= score
         && (Value(v, root, q) == score ==> !StartsEarlier(q, plan))
  }

  /** The answer and its score: the first action of the first best plan, END_TURN if that plan
      is empty; END_TURN also when no plan scores above -INF. */
  ghost predicate Answers(v: View, root: Node, action: Move, score: int)
    requires v.Sound() && OnBoard(v, root.state)
  {
    if score > -INF then
      exists plan :: IsTopPlan(v, root, action, score, plan)
    else
      score == -INF && action == DEFAULT_MOVE && forall q :: Reaches(v, root, q) ==> Value(v, root, q) <= -INF
  }

  /** There is only one answer. */
  lemma AnswerUnique(v: View, root: Node, action1: Move, score1: int, action2: Move, score2: int)
    requires v.Sound() && OnBoard(v, root.state)
    requires Answers(v, root, action1, score1) && Answers(v, root, action2, score2)
    ensures action1 == action2 && score1 == score2
  {
    if score1 > -INF && score2 > -INF {
      var p1 :| IsTopPlan(v, root, action1, score1, p1);
      var p2 :| IsTopPlan(v, root, action2, score2, p2);
      assert score1 == score2;
      assert !StartsEarlier(p1, p2) && !StartsEarlier(p2, p1);
      KindsInOrder();
    }
  }

  lemma MovesAreNotDefault(v: View, s: State, a: Act)
    requires a.index < Choices(v, s, a.kind)
    ensures MoveOf(v, s, a) != DEFAULT_MOVE
  {
  }

  /** The turn is ended exactly when doing nothing is best, or when nothing scores above -INF. */
  lemma EndTurnExactly(v: View, root: Node, action: Move, score: int)
    requires v.Sound() && OnBoard(v, root.state) && Answers(v, root, action, score)
    ensures action == DEFAULT_MOVE <==> score == -INF || Value(v, root, []) == score
  {
    if score > -INF {
      var plan :| IsTopPlan(v, root, action, score, plan);
      assert Reaches(v, root, []);
      if plan != [] {
        MovesAreNotDefault(v, Entered(v, root), plan[0]);
      }
    }
  }

  lemma SearchAnswers(v: View, root: Node)
    requires v.Sound() && OnBoard(v, root.state)
    ensures var r := Visit(v, 0, root, DEFAULT_MOVE, Best(DEFAULT_MOVE, -INF));
            Answers(v, root, r.action, r.score)
  {
    hide Visit;
    var best := Best(DEFAULT_MOVE, -INF);
    var r := Visit(v, 0, root, DEFAULT_MOVE, best);
    VisitBest(v, 0, root, DEFAULT_MOVE, best);
    KindsInOrder();
    assert forall q :: Reaches(v, root, q) ==> Candidate(v, 0, root, |KINDS|, 0, q);
    if r != best {
      var plan :| IsFirstBest(v, 0, root, DEFAULT_MOVE, r, |KINDS|, 0, plan);
      assert IsTopPlan(v, root, r.action, r.score, plan);
    }
  }

  // ---- Facts the imperative search uses ----

  /** A kind whose guards fail changes nothing. */
  lemma {:induction false} SkipKind(v: View, depth: nat, node: Node, tag: Move, best: Best, kind: Kind, count: nat)
    requires v.Sound() && OnBoard(v, node.state) && depth < MAX_ACTIONS
    requires count <= Choices(v, node.state, kind) && !Worthwhile(v, node.points, node.state, kind)
    ensures VisitKind(v, depth, node, tag, best, kind, count) == best
    decreases count
  {
    hide Worthwhile, Legal;
    if count > 0 {
      SkipKind(v, depth, node, tag, best, kind, count - 1);
      var a := Act(kind, count - 1);
      if Legal(v, node.points, node.state, a) {
        LegalIsWorthwhile(v, node.points, node.state, a);
      }
    }
  }

  lemma KindOrders()
    ensures MedikitMate.Order() == 0 && MedikitSelf.Order() == 1 && Throw.Order() == 2
    ensures HealMate.Order() == 3 && HealSelf.Order() == 4 && Fire.Order() == 5 && Walk.Order() == 6
    ensures Raise.Order() == 7 && Lower.Order() == 8 && Eat.Order() == 9 && |KINDS| == 10
  {
  }

  /** The kinds are tried one after the other, each from where the previous one ended. */
  lemma NextKinds(v: View, depth: nat, node: Node, tag: Move, best: Best, kind: Kind)
    requires v.Sound() && OnBoard(v, node.state) && depth < MAX_ACTIONS
    ensures VisitKinds(v, depth, node, tag, best, kind.Order() + 1)
            == VisitKind(v, depth, node, tag, VisitKinds(v, depth, node, tag, best, kind.Order()),
                         kind, Choices(v, node.state, kind))
  {
    hide VisitKind;
    KindsInOrder();
  }

  lemma NoKinds(v: View, depth: nat, node: Node, tag: Move, best: Best)
    requires v.Sound() && OnBoard(v, node.state) && depth < MAX_ACTIONS
    ensures VisitKinds(v, depth, node, tag, best, 0) == best
  {
    hide VisitKind;
  }
}
