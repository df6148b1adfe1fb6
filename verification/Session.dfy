/** The parts together: contexts arrive on the wire, the strategy answers each, and the answers
    go back. */
module Session {
  import opened Grid
  import opened Distances
  import opened Model
  import opened PlanTree
  import opened BestPlan
  import opened Strategy
  import Codec
  import Client
  import Wire
  import Visibility
  import Answering
  import Layout

  type Context = Codec.Context

  // ---- From the wire to the strategy ----

  /** What the 64 bits of a double stand for. */
  type Doubles = int -> real

  function Soldierly(t: Codec.WireTrooper, value: Doubles): Soldier {
    Trooper(t.id, t.x, t.y, t.playerId, t.teammateIndex, t.teammate, t.kind, t.stance,
            t.hitpoints, t.maximalHitpoints, t.actionPoints, t.initialActionPoints,
            value(t.visionRange), value(t.shootingRange), t.shootCost,
            t.standingDamage, t.kneelingDamage, t.proneDamage, t.damage,
            t.holdingGrenade, t.holdingMedikit, t.holdingFieldRation)
  }

  function Received(w: Codec.WireWorld, value: Doubles): Arena {
    World(w.moveIndex, w.width, w.height, w.players,
          seq(|w.troopers|, i requires 0 <= i < |w.troopers| => Soldierly(w.troopers[i], value)),
          w.bonuses, w.cells, w.cellVisibilities)
  }

  function TurnOf(c: Context, value: Doubles, draws: seq<Point>): Turn {
    Turn(Soldierly(c.trooper, value), Received(c.world, value), draws)
  }

  /** Where in the bytes the server sends for a trooper the strategy finds what it uses. */
  lemma SoldierLayout(little: bool, s: seq<Wire.byte>, value: Doubles)
    requires |s| >= 87 && s[0] != 0
    ensures Codec.ParseTrooper(little, s).Ok?
    ensures var t := Soldierly(Codec.ParseTrooper(little, s).value, value);
            && t.x == Layout.IntAt(little, s, 9) && t.y == Layout.IntAt(little, s, 13)
            && t.teammate == (s[29] != 0)
            && t.kind == Layout.SignedByteAt(s, 30) && t.stance == Layout.SignedByteAt(s, 31)
            && t.hitpoints == Layout.IntAt(little, s, 32) && t.maximalHitpoints == Layout.IntAt(little, s, 36)
            && t.actionPoints == Layout.IntAt(little, s, 40)
            && t.shootingRange == value(Layout.LongAt(little, s, 56)) && t.shootCost == Layout.IntAt(little, s, 64)
            && t.standingDamage == Layout.IntAt(little, s, 68) && t.kneelingDamage == Layout.IntAt(little, s, 72)
            && t.proneDamage == Layout.IntAt(little, s, 76)
            && t.holdingGrenade == (s[84] != 0) && t.holdingMedikit == (s[85] != 0)
            && t.holdingFieldRation == (s[86] != 0)
  {
    hide Codec.ParseTrooper, Layout.IntAt, Layout.LongAt, Layout.SignedByteAt;
    Layout.TrooperLayout(little, s);
  }

  /** What a game on board `b` guarantees of each of its contexts, beyond its encoding. */
  ghost predicate Proper(c: Context, b: Board) {
    && b.Valid() && c.world.width == b.sizeX && c.world.height == b.sizeY && c.world.cells == b.cells
    && (forall i :: 0 <= i < |c.world.troopers| ==>
          var t := c.world.troopers[i]; b.IsCorrect(Point(t.x, t.y)) && PRONE <= t.stance <= STANDING)
    && c.trooper in c.world.troopers && c.trooper.teammate
  }

  /** Whatever such a context carries, the strategy can play it. */
  lemma ReceivedTurn(c: Context, b: Board, value: Doubles, draws: seq<Point>)
    requires Codec.ContextFits(c) && Proper(c, b)
    requires forall i :: 0 <= i < |draws| ==> b.IsCorrect(draws[i])
    ensures TurnOk(b, TurnOf(c, value, draws))
    ensures b.Valid() && Codec.Int32(b.sizeX) && Codec.Int32(b.sizeY)
  {
    hide Visibility.TableSize;
    var turn := TurnOf(c, value, draws);
    var k :| 0 <= k < |c.world.troopers| && c.world.troopers[k] == c.trooper;
    assert turn.world.troopers[k] == turn.self;
    assert BoardOf(turn.world) == b;
  }

  // ---- From the strategy to the wire ----

  /** Every answer of the strategy can be written. */
  lemma AnswerFits(v: View, root: Node, action: Move, score: int)
    requires v.Sound() && OnBoard(v, root.state) && v.board.IsCorrect(At(v.self))
    requires Codec.Int32(v.board.sizeX) && Codec.Int32(v.board.sizeY)
    requires Answers(v, root, action, score)
    ensures Codec.MessageFits(Codec.MoveMade(action))
  {
    if score > -INF {
      var plan :| IsTopPlan(v, root, action, score, plan);
      if plan != [] {
        MoveFits(v, root, plan[0]);
      }
    }
  }

  lemma MoveFits(v: View, root: Node, a: Act)
    requires v.Sound() && OnBoard(v, root.state) && v.board.IsCorrect(At(v.self))
    requires Codec.Int32(v.board.sizeX) && Codec.Int32(v.board.sizeY)
    requires Opens(v, root, a)
    ensures Codec.MessageFits(Codec.MoveMade(MoveOf(v, Entered(v, root), a)))
  {
    hide Visibility.IsVisible, IsNear, BonusAt, Heal, MoveCost;
    match a.kind
    case MedikitMate => assert v.Placed(v.teammates[a.index]);
    case HealMate => assert v.Placed(v.teammates[a.index]);
    case Throw => assert v.Placed(v.enemies[a.index]);
    case Fire => assert v.Placed(v.enemies[a.index]);
    case Walk => assert HasNeigh(v.board, root.state.pos, Neighs(v.board, root.state.pos)[a.index]);
    case _ =>
  }

  lemma TurnAnswerFits(b: Board, turn: Turn, game: Game, index: int, before: Point, after: Point, r: Option<Move>)
    requires TurnOk(b, turn) && TurnPlays(b, turn, game, index, before, after, r) && r.Some?
    requires Codec.Int32(b.sizeX) && Codec.Int32(b.sizeY)
    ensures Codec.MessageFits(Codec.MoveMade(r.value))
  {
    hide Visibility.TableSize, Answers, FirstFar;
    var score :| PlaysFor(turn.self, turn.world, game, index, before, turn.draws, after, r, score);
    ViewOfSound(turn.self, turn.world, game, index == 0, after);
    TrooperOnBoard(turn.self, turn.world);
    AnswerFits(ViewOf(turn.self, turn.world, game, index == 0, after), Root(turn.self), r.value, score);
  }

  /** The messages that carry the answers of a game. */
  function Messages(moves: seq<Move>): (messages: seq<Codec.Message>)
    ensures |messages| == |moves|
    ensures forall i :: 0 <= i < |moves| ==> messages[i] == Codec.MoveMade(moves[i])
  {
    seq(|moves|, i requires 0 <= i < |moves| => Codec.MoveMade(moves[i]))
  }

  predicate AllFit(moves: seq<Move>) {
    forall i :: 0 <= i < |moves| ==> Codec.MessageFits(Codec.MoveMade(moves[i]))
  }

  /** The bytes that carry the answers of a game. */
  function Replies(little: bool, moves: seq<Move>): seq<Wire.byte>
    requires AllFit(moves)
  {
    Codec.WrittenAll(little, Messages(moves))
  }

  /** The server reads back exactly the answers. */
  lemma RepliesRead(little: bool, moves: seq<Move>)
    requires AllFit(moves)
    ensures Codec.ParseMessages(little, Replies(little, moves)) == Codec.Ok(Messages(moves), [])
  {
    hide Codec.MessageFits, Codec.WrittenAll, Codec.ParseMessages;
    Codec.SessionRoundTrip(little, Messages(moves));
  }

  lemma NoReplies(little: bool)
    ensures AllFit([]) && Replies(little, []) == []
  {
  }

  lemma OneMoreReply(little: bool, moves: seq<Move>, move: Move)
    requires AllFit(moves) && Codec.MessageFits(Codec.MoveMade(move))
    ensures AllFit(moves + [move])
    ensures Replies(little, moves + [move]) == Replies(little, moves) + Codec.Written(little, Codec.MoveMade(move), [])
  {
    hide Codec.MessageFits, Codec.Written, Codec.WrittenAll;
    assert Messages(moves + [move]) == Messages(moves) + [Codec.MoveMade(move)];
    Codec.WrittenOneMore(little, Messages(moves), Codec.MoveMade(move));
  }

  // ---- The client's loop ----

  /** A game on board `b` as the server sends it. */
  ghost predicate GameOn(contexts: seq<Context>, b: Board, visibilities: seq<bool>) {
    && Codec.AllOnMap(contexts, b.cells, visibilities)
    && forall i :: 0 <= i < |contexts| ==> Proper(contexts[i], b)
  }

  ghost predicate DrawsOn(draws: seq<seq<Point>>, b: Board) {
    forall i, k :: 0 <= i < |draws| && 0 <= k < |draws[i]| ==> b.IsCorrect(draws[i][k])
  }

  /** Answer number `i` of the game is the one the strategy's rules determine. */
  ghost predicate AnsweredWell(b: Board, game: Game, value: Doubles, c: Context, draws: seq<Point>,
                               i: nat, before: Point, after: Point, r: Option<Move>) {
    var turn := TurnOf(c, value, draws);
    TurnOk(b, turn) && TurnPlays(b, turn, game, i, before, after, r)
  }

  /** ... and it obeys the rules of the game on the map the server sent. */
  lemma AnswerObeysRules(b: Board, game: Game, value: Doubles, c: Context, draws: seq<Point>,
                         i: nat, before: Point, after: Point, move: Move, t: Visibility.Table)
    requires c.world.width >= 0 && c.world.height >= 0
    requires c.world.cellVisibilities == Visibility.Flatten(c.world.width, c.world.height, t)
    requires AnsweredWell(b, game, value, c, draws, i, before, after, Some(move))
    ensures BoardOf(Received(c.world, value)).Valid() &&
            Answering.CanCarryOut(Soldierly(c.trooper, value), Received(c.world, value), game, t, move)
  {
    hide Visibility.TableSize, Visibility.Flatten, Plays, Answering.CanCarryOut;
    var turn := TurnOf(c, value, draws);
    Answering.AnswerObeysRules(turn.self, turn.world, game, i, before, draws, after, Some(move), t);
  }

  ghost predicate AllAnswered(b: Board, game: Game, value: Doubles, contexts: seq<Context>, draws: seq<seq<Point>>,
                              targets: seq<Point>, moves: seq<Move>)
    requires |moves| <= |contexts| <= |draws| && |moves| < |targets|
  {
    forall i :: 0 <= i < |moves| ==>
      AnsweredWell(b, game, value, contexts[i], draws[i], i, targets[i], targets[i + 1], Some(moves[i]))
  }

  /** One round: the context is played and its answer, if there is one, is written. */
  method PlayRound(client: Client.RemoteProcessClient, g: Globals, game: Game, value: Doubles,
                   c: Context, draws: seq<Point>, ghost b: Board) returns (r: Option<Move>)
    requires Codec.ContextFits(c) && Proper(c, b) && g.moveIndex >= -1
    requires forall k :: 0 <= k < |draws| ==> b.IsCorrect(draws[k])
    requires if g.moveIndex == -1 then Countable(b) else g.Knows(b) && b.IsCorrect(g.target)
    requires client.socket.room >= 12
    modifies g, client.socket`sent, client.socket`room
    ensures g.moveIndex == old(g.moveIndex) + 1
    ensures if g.moveIndex == 0 then fresh(g.floydDist) else g.floydDist == old(g.floydDist)
    ensures g.Knows(b) && b.IsCorrect(g.target)
    ensures AnsweredWell(b, game, value, c, draws, g.moveIndex, old(g.target), g.target, r)
    ensures r.None? ==> client.socket.sent == old(client.socket.sent)
    ensures r.Some? ==>
      && Codec.MessageFits(Codec.MoveMade(r.value))
      && client.socket.sent == old(client.socket.sent) + Codec.Written(client.little, Codec.MoveMade(r.value), [])
      && client.socket.room == old(client.socket.room) - 12
  {
    hide TurnOk, TurnPlays, TurnOf, Proper, Codec.ContextFits, Codec.Written, Codec.MessageFits;
    hide Globals.Knows, Board.IsCorrect, Board.Valid, Countable, Client.Wrote, Codec.Int32;
    ReceivedTurn(c, b, value, draws);
    var turn := TurnOf(c, value, draws);
    ghost var before := g.target;
    r := PlayTurn(g, b, game, turn);
    if r.Some? {
      TurnAnswerFits(b, turn, game, g.moveIndex, before, g.target, r);
      Codec.MoveLength(client.little, r.value, []);
      ghost var sent, room := client.socket.sent, client.socket.room;
      var written := client.WriteMove(r.value);
      Client.WroteWhole(sent, room, Codec.Written(client.little, Codec.MoveMade(r.value), []),
                        client.socket.sent, client.socket.room, written);
    }
  }

  /** The client's loop over a whole game: it reads a context, plays it, writes the answer, and
      ends when there is no context, or unfinished when the target loop ran out of draws. */
  method RunGame(client: Client.RemoteProcessClient, game: Game, value: Doubles, draws: seq<seq<Point>>,
                 ghost contexts: seq<Context>, ghost b: Board, ghost visibilities: seq<bool>,
                 ghost tail: seq<Wire.byte>)
    returns (moves: seq<Move>, finished: bool, ghost targets: seq<Point>)
    requires b.Valid() && Countable(b) && GameOn(contexts, b, visibilities)
    requires |contexts| <= |draws| && DrawsOn(draws, b)
    requires client.Tables() == Codec.EMPTY_CACHE
    requires client.socket.incoming == Codec.PutGame(client.little, true, contexts, tail)
    requires client.socket.room >= 12 * |contexts|
    modifies client`cells, client`cellVisibilities, client.socket
    ensures |moves| <= |contexts| && |targets| == |moves| + if finished then 1 else 2
    ensures AllAnswered(b, game, value, contexts, draws, targets, moves)
    ensures AllFit(moves)
    ensures client.socket.sent == old(client.socket.sent) + Replies(client.little, moves)
    ensures finished ==> |moves| == |contexts| && client.socket.incoming == tail
    ensures !finished ==> var n := |moves|;
      n < |contexts| && AnsweredWell(b, game, value, contexts[n], draws[n], n, targets[n], targets[n + 1], None)
  {
    hide AnsweredWell, Proper, AllFit, Replies, Globals.Knows, Board.IsCorrect, Board.Valid, Countable;
    hide Codec.ContextFits, Codec.ParseContext, Codec.PutContext, Codec.PutEnum, Codec.PutGame;
    hide Codec.MessageFits, Codec.Written;
    var g := new Globals();
    moves, finished, targets := [], true, [g.target];
    NoReplies(client.little);
    while true
      invariant |moves| <= |contexts| && |targets| == |moves| + 1
      invariant targets[|moves|] == g.target && g.moveIndex == |moves| - 1
      invariant fresh(g) && (moves != [] ==> fresh(g.floydDist) && g.Knows(b) && b.IsCorrect(g.target))
      invariant client.socket.incoming == Codec.PutGame(client.little, moves == [], contexts[|moves|..], tail)
      invariant client.Tables() ==
                if moves == [] then Codec.EMPTY_CACHE else Codec.Cache(Some(b.cells), Some(visibilities))
      invariant client.socket.room >= 12 * (|contexts| - |moves|)
      invariant AllAnswered(b, game, value, contexts, draws, targets, moves)
      invariant AllFit(moves)
      invariant client.socket.sent == old(client.socket.sent) + Replies(client.little, moves)
      decreases |contexts| - |moves|
    {
      ghost var n := |moves|;
      Codec.NextContext(client.little, moves == [], contexts[n..], b.cells, visibilities, tail);
      var context := client.ReadPlayerContext();
      if context.value.None? {
        return;
      }
      var r := PlayRound(client, g, game, value, context.value.value, draws[|moves|], b);
      targets := targets + [g.target];
      if r.None? {
        finished := false;
        return;
      }
      OneMoreReply(client.little, moves, r.value);
      moves := moves + [r.value];
    }
  }
}
