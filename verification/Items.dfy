/** Which items a trooper holds at the end of a plan, exactly: what it started with and what lay on
    its way, less what it used. */
module Items {
  import opened Model
  import opened PlanTree
  import opened PlanTheorems
  import opened Steps

  /** The node reached by the first `k` actions. */
  ghost function NodeAt(v: View, node: Node, plan: seq<Act>, k: nat): (r: Node)
    requires v.Sound() && OnBoard(v, node.state) && IsPlan(v, node, plan) && k <= |plan|
    ensures OnBoard(v, r.state)
    decreases k
  {
    if k == 0 then node else NodeAt(v, Child(v, node, plan[0]), plan[1..], k - 1)
  }

  lemma {:induction false} NodeAtIsEnd(v: View, node: Node, plan: seq<Act>, k: nat)
    requires v.Sound() && OnBoard(v, node.state) && IsPlan(v, node, plan) && k <= |plan|
    ensures IsPlan(v, node, plan[..k]) && NodeAt(v, node, plan, k) == End(v, node, plan[..k])
    ensures IsPlan(v, NodeAt(v, node, plan, k), plan[k..])
    ensures End(v, NodeAt(v, node, plan, k), plan[k..]) == End(v, node, plan)
    decreases k
  {
    hide View.Sound, OnBoard, Opens, Apply;
    if k > 0 {
      NodeAtIsEnd(v, Child(v, node, plan[0]), plan[1..], k - 1);
      assert plan[..k][1..] == plan[1..][..k - 1];
      assert plan[1..][k - 1..] == plan[k..];
    }
  }

  /** A bonus of this kind lies on the cell of node `k`. */
  ghost predicate Passes(v: View, node: Node, plan: seq<Act>, kind: int, k: nat)
    requires v.Sound() && OnBoard(v, node.state) && IsPlan(v, node, plan) && k <= |plan|
  {
    var pos := NodeAt(v, node, plan, k).state.pos;
    Lies(v, pos.x, pos.y, kind)
  }

  ghost predicate PassesSome(v: View, node: Node, plan: seq<Act>, kind: int)
    requires v.Sound() && OnBoard(v, node.state) && IsPlan(v, node, plan)
  {
    exists k: nat :: k <= |plan| && Passes(v, node, plan, kind, k)
  }

  lemma PassesLater(v: View, node: Node, plan: seq<Act>, kind: int)
    requires v.Sound() && OnBoard(v, node.state) && IsPlan(v, node, plan)
    ensures PassesSome(v, node, plan, kind) <==>
            || Lies(v, node.state.pos.x, node.state.pos.y, kind)
            || (plan != [] && PassesSome(v, Child(v, node, plan[0]), plan[1..], kind))
  {
    hide View.Sound, OnBoard, Opens, Apply, Lies;
    if Lies(v, node.state.pos.x, node.state.pos.y, kind) {
      assert Passes(v, node, plan, kind, 0);
    }
    if plan != [] {
      var child := Child(v, node, plan[0]);
      forall k: nat | k <= |plan| - 1
        ensures Passes(v, child, plan[1..], kind, k) == Passes(v, node, plan, kind, k + 1) {
      }
      if PassesSome(v, child, plan[1..], kind) {
        var k: nat :| k <= |plan| - 1 && Passes(v, child, plan[1..], kind, k);
        assert Passes(v, node, plan, kind, k + 1);
      }
      if k: nat :| k <= |plan| && Passes(v, node, plan, kind, k) {
        assert k > 0 ==> Passes(v, child, plan[1..], kind, k - 1);
      }
    }
  }

  predicate UsesMedikit(a: Act) {
    a.kind == MedikitMate || a.kind == MedikitSelf
  }

  /** What one action does to the items held. */
  lemma ItemStep(v: View, node: Node, a: Act)
    requires v.Sound() && OnBoard(v, node.state) && Opens(v, node, a)
    ensures var s, next := Entered(v, node), Child(v, node, a).state;
            && next.hasGrenade == (s.hasGrenade && a.kind != Throw)
            && next.usedGrenade == (s.usedGrenade || a.kind == Throw)
            && next.hasFieldRation == (s.hasFieldRation && a.kind != Eat)
            && next.usedFieldRation == (s.usedFieldRation || a.kind == Eat)
            && next.hasMedkit == (s.hasMedkit && !UsesMedikit(a))
  {
    hide View.Sound, OnBoard, Allowed, Cost, Entered, Effect, NextTo, LostNextTo, Restored, DamageOf;
    Arriving(v, node);
    match a.kind
    case MedikitMate => MedikitForMate(v, node, a.index);
    case MedikitSelf => OnlyChoice(v, node, a); MedikitForSelf(v, node);
    case Throw => Throwing(v, node, a.index);
    case HealMate => HealingMate(v, node, a.index);
    case HealSelf => OnlyChoice(v, node, a); HealingSelf(v, node);
    case Fire => Hitting(v, node, a);
    case Walk => Walking(v, node, a);
    case Raise => OnlyChoice(v, node, a); Raising(v, node);
    case Lower => OnlyChoice(v, node, a); Lowering(v, node);
    case Eat => OnlyChoice(v, node, a); Eating(v, node);
  }

  /** A grenade is held exactly when none was thrown and there was one, to start with or on the way. */
  lemma {:induction false} GrenadeHeld(v: View, node: Node, plan: seq<Act>)
    requires v.Sound() && OnBoard(v, node.state) && IsPlan(v, node, plan) && ItemsSane(node.state)
    ensures var last := Entered(v, End(v, node, plan));
            && (last.usedGrenade <==> node.state.usedGrenade || Count(plan, Throw) > 0)
            && (last.hasGrenade <==>
                !last.usedGrenade && (node.state.hasGrenade || PassesSome(v, node, plan, 0)))
    decreases |plan|
  {
    hide View.Sound, OnBoard, Opens, Apply, Entered, Lies, PassesSome;
    Arriving(v, node);
    PassesLater(v, node, plan, 0);
    if plan != [] {
      ItemStep(v, node, plan[0]);
      UsedStep(v, node, plan[0]);
      GrenadeHeld(v, Child(v, node, plan[0]), plan[1..]);
    }
  }

  /** Likewise a field ration. */
  lemma {:induction false} RationHeld(v: View, node: Node, plan: seq<Act>)
    requires v.Sound() && OnBoard(v, node.state) && IsPlan(v, node, plan) && ItemsSane(node.state)
    ensures var last := Entered(v, End(v, node, plan));
            && (last.usedFieldRation <==> node.state.usedFieldRation || Count(plan, Eat) > 0)
            && (last.hasFieldRation <==>
                !last.usedFieldRation && (node.state.hasFieldRation || PassesSome(v, node, plan, 2)))
    decreases |plan|
  {
    hide View.Sound, OnBoard, Opens, Apply, Entered, Lies, PassesSome;
    Arriving(v, node);
    PassesLater(v, node, plan, 2);
    if plan != [] {
      ItemStep(v, node, plan[0]);
      UsedStep(v, node, plan[0]);
      RationHeld(v, Child(v, node, plan[0]), plan[1..]);
    }
  }

  /** A medikit is there at node `k`, found or brought along, and none is used from then on. */
  ghost predicate Keeps(v: View, node: Node, plan: seq<Act>, k: nat)
    requires v.Sound() && OnBoard(v, node.state) && IsPlan(v, node, plan) && k <= |plan|
  {
    && (Passes(v, node, plan, 1, k) || (k == 0 && node.state.hasMedkit))
    && forall i :: k <= i < |plan| ==> !UsesMedikit(plan[i])
  }

  /** A medikit is held exactly when there was one and none has been used since. */
  lemma {:induction false} MedikitHeld(v: View, node: Node, plan: seq<Act>)
    requires v.Sound() && OnBoard(v, node.state) && IsPlan(v, node, plan)
    ensures Entered(v, End(v, node, plan)).hasMedkit <==> exists k: nat :: k <= |plan| && Keeps(v, node, plan, k)
    decreases |plan|
  {
    hide View.Sound, OnBoard, Opens, Apply, Entered, Lies;
    Arriving(v, node);
    if plan == [] {
      assert Keeps(v, node, plan, 0) <==> Entered(v, node).hasMedkit;
    } else {
      var child, rest := Child(v, node, plan[0]), plan[1..];
      ItemStep(v, node, plan[0]);
      MedikitHeld(v, child, rest);
      KeepsLater(v, node, plan);
    }
  }

  lemma KeepsLater(v: View, node: Node, plan: seq<Act>)
    requires v.Sound() && OnBoard(v, node.state) && IsPlan(v, node, plan) && plan != []
    requires Child(v, node, plan[0]).state.hasMedkit == (Entered(v, node).hasMedkit && !UsesMedikit(plan[0]))
    ensures (exists k: nat :: k <= |plan| && Keeps(v, node, plan, k)) <==>
            exists k: nat :: k <= |plan| - 1 && Keeps(v, Child(v, node, plan[0]), plan[1..], k)
  {
    hide View.Sound, OnBoard, Opens, Apply, Entered, Lies;
    Arriving(v, node);
    var child, rest := Child(v, node, plan[0]), plan[1..];
    if k: nat :| k <= |plan| && Keeps(v, node, plan, k) {
      assert Keeps(v, child, rest, if k == 0 then 0 else k - 1);
    }
    if k: nat :| k <= |rest| && Keeps(v, child, rest, k) {
      forall i | k < i < |plan| ensures !UsesMedikit(plan[i]) {
        assert plan[i] == rest[i - 1];
      }
      assert Keeps(v, node, plan, k + 1) || Keeps(v, node, plan, 0);
    }
  }

  /** So a medikit held at any node is still held at the end, unless one is used in between. */
  lemma MedikitKept(v: View, node: Node, plan: seq<Act>, k: nat)
    requires v.Sound() && OnBoard(v, node.state) && IsPlan(v, node, plan) && k <= |plan|
    requires Entered(v, NodeAt(v, node, plan, k)).hasMedkit
    requires forall i :: k <= i < |plan| ==> !UsesMedikit(plan[i])
    ensures Entered(v, End(v, node, plan)).hasMedkit
  {
    hide View.Sound, OnBoard, IsPlan, End, Entered, Lies;
    var from := NodeAt(v, node, plan, k);
    NodeAtIsEnd(v, node, plan, k);
    Arriving(v, from);
    MedikitHeld(v, from, plan[k..]);
    assert Keeps(v, from, plan[k..], 0);
  }
}
