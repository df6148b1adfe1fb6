# A CodeTroopers bot: distances, plan search and wire protocol

This project models the decision core of a bot for the CodeTroopers game and proves what it
computes. A trooper acts on a rectangular grid; the bot answers each message of the game server
with one action.

- `Grid.dfy` has the map, its 4-neighbourhood and the theory of walks. `Distances.dfy` proves the
  in-place all-pairs loops against it: the table holds shortest nonempty walks, so a cell is at
  distance 2 (or `inf`) from itself, never 0.
- `Visibility.dfy` is the flat visibility table: its mixed-radix index is a bijection, and lookups
  in a row-major layout give the five-dimensional entry.
- `Model.dfy` has the records sent by the server. `PlanTree.dfy` says which actions are legal in a
  state, what each does and how a state is scored; a plan is a sequence of legal actions.
- `BestPlan.dfy` describes the answer without reference to any search (`Answers`) and proves that
  searching depth first with a running best finds it. `Strategy.dfy` is the program itself:
  the variables that outlive a move, the strategy object with its shared fields, the target loop,
  the recursive search, single moves and whole games.
- `PlanTheorems.dfy` proves what holds at every node of the search: action points, items, damage,
  stance, positions, agreement with the distance table, table lookups, reachability of the target.
  `Items.dfy` says exactly which items are held at the end of a plan.
- `Steps.dfy` spells out what each action needs, does and sends, in coordinates, hit points and the
  protocol's numbers; `Answering.dfy` carries this over to the answer on the server's map and says
  which of several equally good actions is answered.
- `ScoreBounds.dfy` shows that on games of bounded size no score leaves a 32-bit int.
- `Wire.dfy`, `Codec.dfy` and `Client.dfy` are the protocol: integers as bytes on machines of both
  byte orders, parsers and a reference server's serializer with their round trips, and the client
  that reads and writes through partial receives and sends and keeps two tables after first use.
  `Layout.dfy` gives each field's offset in bytes and the exit each bad message takes.
- `Session.dfy` joins the parts: contexts received on the wire are played, and the answers written.
- `Examples.dfy` has inputs on which the program does not meet what one would expect of it,
  `Rescue.dfy` one move worked out from the map to the answer.

What the model takes over from the program although one might expect otherwise:

- The list of stances is filled on the first move only, and each move builds a new strategy object.
  `AnyStance` says what the list means on the first move, `LaterMovesSeeGrenadesOnly` what happens
  afterwards. Lying lower is never more dangerous on either (`LowerIsSaferAlways`).
- A medikit has no "used" flag, so one lying on a cell is picked up again at every node there:
  `MedikitsInARow` gives the exact condition for any number of uses, `MedikitUsedFiveTimes` a case.
- The teammates include the trooper itself, at the cell it started from.
- The byte reversal for big-endian machines leaves the last byte in place. Reading back still works;
  the wire format does not (`WireFormat` gives the exact condition, `BigEndianOne` a case).
- On a map without a cell that is far enough and reachable the target loop never ends (`LoopCanEnd`,
  `SingleCellHasNoTarget`).
- A teammate out of reach counts with a distance of 1e9, and sixty times that is not an int
  (`MatesTermFits`, `WalledOffTeammate`).
- `best_action` starts as the default move, which is END_TURN, so a game in which no plan scores
  above -1e9 ends the turn; no lower bound on scores is assumed. `AnswerIsAlwaysBest` shows when
  that case cannot arise.

Assumptions: the map is rectangular, the visibility table has the size its dimensions ask for,
visible troopers stand on the map in one of the three stances, the trooper to move is among them
and counts as a teammate, and there are fewer than 1e9 FREE cells. Lemmas that need more (a FREE
start cell, a nonnegative ration bonus) say so. `Session` assumes of a game that all its contexts
show one map, and of the peer that it takes all answers.

## Model

| member | source | states |
|---|---|---|
| Grid.Neighs | MyStrategy.cpp:81-88 | lists exactly the in-bounds cells one step away, each once (so listing neighbours and testing `has_neigh` agree); `NeighsInOrder` fixes their order |
| Grid.NeighsInOrder | MyStrategy.cpp:81-88 | the list is determined: the four cells around that are on the map, those nearer to the origin first, and of each pair the horizontal one first |
| Grid.WalkParity | MyStrategy.cpp:541-553 | every walk is at least as long as the Manhattan distance and has its parity |
| Grid.Shorten | MyStrategy.cpp:541-553 | every walk can be cut down to a simple one with the same ends and no new inner points; the reason table entries stay below the number of FREE cells |
| Distances.FreePoints | MyStrategy.cpp:521-528 | collects exactly the FREE cells, in column order |
| Distances.Seed | MyStrategy.cpp:530-540 | after the first loops an entry is 1 for adjacent FREE cells and `inf` otherwise, the diagonal included |
| Distances.RelaxEntry | MyStrategy.cpp:543-550 | one execution of the innermost statement, in place: the entry moves from phase k to phase k+1 although the entries it reads may already have moved; the sum it forms fits a 32-bit int |
| Distances.RelaxRow | MyStrategy.cpp:542-552 | one row of a phase, including rows skipped by the `inf` guard |
| Distances.Relax | MyStrategy.cpp:541-553 | a whole in-place phase equals the two-table recurrence |
| Distances.Floyd | MyStrategy.cpp:518-557 | the finished table holds, for every pair of cells, the length of a shortest nonempty walk between them, and `inf` exactly where there is none |
| Distances.PhaseIsShortest | MyStrategy.cpp:541-553 | outer invariant: after k phases an entry is the shortest nonempty walk whose inner points are among the first k FREE cells, `inf` iff there is none |
| Distances.PivotUnchanged | MyStrategy.cpp:541-553 | phase k leaves its own row and column unchanged |
| Distances.SumsFitInt | MyStrategy.cpp:550-550 | with fewer than 1e9 FREE cells no sum of two finite entries overflows an int in any iteration |
| Distances.DistDiagonal | MyStrategy.cpp:530-540 | the diagonal is never 0: it is 2, or `inf` for a FREE cell without FREE neighbours |
| Distances.TableLaws | MyStrategy.cpp:139-141 | read off the finished table: symmetry, the triangle inequality on finite entries, Manhattan lower bound with parity, FREE-cell upper bound |
| Visibility.IndexInTable | model/World.cpp:57-63 | the flat index of any two cells and stance is inside the table |
| Visibility.SightingAtIndex | model/World.cpp:57-63 | decoding an index by division gives its five coordinates back, so no two share an entry |
| Visibility.IndexOfSightingAt | model/World.cpp:57-63 | every entry of the table is the index of the coordinates it decodes to |
| Visibility.FlattenLookup | model/World.cpp:56-63 | looking up a table laid out by nested row-major loops gives the five-dimensional entry |
| Visibility.FlattenUnflatten | model/World.cpp:56-63 | every flat table of the right size is the layout of some five-dimensional table |
| Visibility.IsVisibleMeaning | model/World.cpp:49-64 | two units see each other iff the square of their distance is at most the square of the range and the entry for their cells and the lower of their stances is set |
| Visibility.InRangeOnLine | model/World.cpp:53-56 | along a row or column the test compares the range with the number of cells between |
| Strategy.Globals.BeginMove | MyStrategy.cpp:174-177 | only the first move fills the list of stances and builds the table; later moves leave the table alone |
| Strategy.SortTroopers | MyStrategy.cpp:179-188 | the local map is the world's with every visible trooper's cell covered; teammates and enemies are the two sides in order |
| Strategy.StampFree | MyStrategy.cpp:179-181 | a cell is free in the local map iff it is FREE in the world's and no visible trooper is on it |
| Strategy.SlavaStrategy.constructor | MyStrategy.cpp:171-189 | the state of a new strategy object, on the first move and on later ones |
| Strategy.SlavaStrategy.MinDistance | MyStrategy.cpp:139-141 | the table lookup returns the walk distance |
| Strategy.SlavaStrategy.PickUpBonuses | MyStrategy.cpp:244-260 | the loop over bonuses gives a medikit whenever one lies here, a ration or grenade only if none was used |
| Strategy.SlavaStrategy.IsShooting | MyStrategy.cpp:275-287 | an enemy counts iff it is in grenade range or sees the trooper from some listed stance |
| Strategy.SlavaStrategy.CountShooting | MyStrategy.cpp:273-291 | counts the enemies that do |
| Strategy.SlavaStrategy.SurveyMates | MyStrategy.cpp:263-271 | sums the distances to the teammates and finds a commander in aura range |
| Strategy.SlavaStrategy.Evaluate | MyStrategy.cpp:262-309 | the score of a node |
| Strategy.SlavaStrategy.BlastEnemies | MyStrategy.cpp:373-381 | collateral damage and kills are those of all enemies next to the target |
| Strategy.SlavaStrategy.BlastMates | MyStrategy.cpp:382-390 | collateral damage to teammates next to the target; each loss costs two kills |
| Strategy.SlavaStrategy.Explode | MyStrategy.cpp:365-392 | the whole effect of a grenade |
| PlanTree.HarmPerUnit | MyStrategy.cpp:373-390 | collateral damage is the damage times the number of units next to the target |
| Strategy.SlavaStrategy.Attempt | MyStrategy.cpp:335-338 | only first-level attempts set `cur_action`; the search below then reports under it |
| Strategy.SlavaStrategy.TryMedikitOnMates | MyStrategy.cpp:321-340 | medikit on teammates: exactly the legal attempts are searched, in order |
| Strategy.SlavaStrategy.TryMedikitOnSelf | MyStrategy.cpp:342-355 | medikit on oneself |
| Strategy.SlavaStrategy.TryGrenade | MyStrategy.cpp:359-400 | grenades on enemies in range |
| Strategy.SlavaStrategy.TryHealingMates | MyStrategy.cpp:403-421 | a medic heals teammates |
| Strategy.SlavaStrategy.TryHealingSelf | MyStrategy.cpp:423-435 | a medic heals itself |
| Strategy.SlavaStrategy.TryShooting | MyStrategy.cpp:439-459 | exactly the shots that open are searched, in order; `Steps.Shooting` and `Steps.Hitting` say which they are and what they do |
| Strategy.SlavaStrategy.TryWalking | MyStrategy.cpp:461-479 | exactly the steps that open are searched, in order; `Steps.Walking` and `Steps.WalkingWherever` say which they are and what they do |
| Strategy.SlavaStrategy.TryRaising | MyStrategy.cpp:481-491 | raising the stance |
| Strategy.SlavaStrategy.TryLowering | MyStrategy.cpp:492-499 | lowering the stance |
| Strategy.SlavaStrategy.TryEating | MyStrategy.cpp:503-515 | eating the ration |
| Strategy.SlavaStrategy.MaximizeScore | MyStrategy.cpp:241-516 | the recursive search through shared fields computes the sequential search `Visit`; below the first level it leaves `cur_action` alone; it terminates |
| Strategy.SlavaStrategy.Aim | MyStrategy.cpp:209-216 | the target becomes the first of the old target and the draws that is farther than 5 and reachable; the loop goes on exactly while there is none |
| Strategy.SlavaStrategy.Run | MyStrategy.cpp:208-239 | aims, searches and answers the first action of the first best plan, whose score it leaves in `best_score`; `Answering.AnswerObeysRules` says what the answer names on the map |
| Strategy.PlayMove | MyStrategy.cpp:562-567 | one call of `move` on the lasting variables: they stay valid for the next call |
| Strategy.PlayGame | MyStrategy.cpp:562-567 | over every run of calls on one map, each answer is the optimal one for its move number, world and remembered target |
| BestPlan.VisitBest | MyStrategy.cpp:241-516 | the search from any node keeps what it had unless a reachable plan beats it, and then reports the first best plan; `cur_action` never being restored does no harm |
| BestPlan.SearchAnswers | MyStrategy.cpp:311-319 | the result has the maximum score over all legal plans of at most ten actions and is the first action of the earliest such plan; END_TURN if that plan is empty or nothing scores above -1e9 |
| BestPlan.EndTurnExactly | MyStrategy.cpp:311-319 | the answer is END_TURN iff doing nothing scores as much as the best plan or nothing scores above -1e9 |
| BestPlan.MovesAreNotDefault | MyStrategy.cpp:321-515 | no action of the search is answered by the default move |
| BestPlan.AnswerUnique | MyStrategy.cpp:311-319 | that description determines action and score |
| BestPlan.SkipKind | MyStrategy.cpp:321-323 | an attempt whose guards fail leaves the best found so far as it was |
| PlanTheorems.PrefixIsPlan | MyStrategy.cpp:241-516 | every prefix of a plan is a plan, so statements about ends of plans cover every node |
| PlanTheorems.PointsBalance | MyStrategy.cpp:461-515 | points left = initial points - stance-dependent costs + bonus per ration eaten |
| PlanTheorems.PointsStayPaid | MyStrategy.cpp:322-323 | points never become negative |
| PlanTheorems.SpendingBound | MyStrategy.cpp:503-515 | at most one ration is eaten on a plan, so spending is at most the initial points plus one bonus |
| PlanTheorems.UsedOnce | MyStrategy.cpp:249-258 | rations and grenades are used at most once even where bonuses lie, and the `used` flags record it |
| PlanTheorems.MedikitUses | MyStrategy.cpp:246-248 | medikits are not so limited: uses are at most the one carried plus the nodes visited on medikit cells |
| PlanTheorems.MedikitAgain | MyStrategy.cpp:246-248 | after a use there is a medikit again iff one lies on the cell |
| PlanTheorems.MedikitsInARow | MyStrategy.cpp:342-355 | using it on oneself k times in a row is a plan iff the trooper is hurt, has one, has the points for k uses and, for k > 1, stands on one; so the same medikit is used any number of times |
| PlanTheorems.HarmBalance | MyStrategy.cpp:365-392 | damage, mate damage and kills are sums over the plan's actions: the damage field of the stance taken, the grenade's damage for each unit beside its target, two kills for each teammate lost, healing up to what is missing |
| PlanTheorems.StanceBalance | MyStrategy.cpp:481-501 | the stance is the initial one plus raises minus lowers and stays in 0..2 |
| PlanTheorems.WalksEndFree | MyStrategy.cpp:468-475 | after at least one step the position is free in the local map |
| PlanTheorems.Positions | MyStrategy.cpp:468-475 | every position is the start or a FREE cell without a visible trooper; the start is never re-entered |
| PlanTheorems.PlanWalk | MyStrategy.cpp:468-475 | the steps of a plan form a walk on the map the table was built from |
| PlanTheorems.TableAgrees | MyStrategy.cpp:468-475 | after m >= 1 steps the table's distance from the start is at most m and has the parity of m |
| PlanTheorems.TargetStaysReachable | MyStrategy.cpp:212-216 | once a target is accepted, every position of every plan has a finite distance to it, within m of the initial one |
| PlanTheorems.PlanKeepsConnected | MyStrategy.cpp:468-475 | moving never changes which cells can be reached |
| PlanTheorems.AnswerHasTarget | MyStrategy.cpp:209-216 | a move that answers has 5 < dist(self, target) < `inf`, and every position its search scores is at a finite distance from the target |
| PlanTheorems.FreshTarget | MyStrategy.cpp:209-216 | on every 128th move a new target is drawn, because the diagonal is 2 or `inf` |
| PlanTheorems.TargetKept | MyStrategy.cpp:209-216 | on every other move the old target stays iff it is farther than 5 and reachable; otherwise the first draw that is so replaces it |
| PlanTheorems.LoopCanEnd | MyStrategy.cpp:212-216 | the target loop can end for some draws iff the map has a cell that is far enough and reachable (`SingleCellHasNoTarget` is a map without one) |
| PlanTheorems.LookupsInTable | model/World.cpp:49-63 | every visibility lookup made at any node of the search is inside the table |
| PlanTheorems.AnyStance | MyStrategy.cpp:280-286 | with the stances filled, the loop means: in range and visible at some index not above the current stance |
| PlanTheorems.LowerIsSafer | MyStrategy.cpp:273-291 | lowering the stance on a cell never increases the enemies that can shoot, with the stances filled or empty |
| PlanTheorems.LowerIsSaferAlways | MyStrategy.cpp:273-291 | hence it never does, on the first move or a later one |
| PlanTheorems.LaterMovesSeeGrenadesOnly | MyStrategy.cpp:280-280 | with the list empty, on all later moves, exactly the enemies in grenade range count |
| PlanTheorems.MatesTermFits | MyStrategy.cpp:303-303 | one unreachable teammate makes `60 * mates_dist` overflow an int on every map; if all are reachable it is at most 60 * teammates * FREE cells, so where that bound fits an int the term fits iff every teammate is reachable |
| PlanTheorems.MatesTermAlongPlan | MyStrategy.cpp:303-303 | reachability of teammates is the same at every node of a plan: the term overflows at all of them, or keeps the bound at all of them |
| PlanTheorems.AnswerIsLegal | MyStrategy.cpp:311-319 | the answer ends the turn, or names with its code and its target's cell an action legal where the trooper stands |
| Steps.IsNearMeaning | MyStrategy.cpp:90-94 | distance is Euclidean: squares are compared, and in a row or column the numbers of cells |
| Steps.BlastMeaning | MyStrategy.cpp:373-390 | collateral damage counts the units in the four cells around, each with its hit points |
| Steps.Arriving | MyStrategy.cpp:244-260 | a medikit is held after arriving iff it was before or one lies there; a ration or grenade likewise unless one was used; nothing else changes |
| Steps.Walking | MyStrategy.cpp:461-479 | a step goes to a free cell beside, costs what the stance asks, keeps every item and counter, and is answered as 1 with the cell's x and y |
| Steps.WalkingWherever | MyStrategy.cpp:461-479 | every free cell beside can be stepped on if the points suffice |
| Steps.Shooting | MyStrategy.cpp:439-445 | a shot opens iff it can be paid, the target is in shooting range and the entry for both cells and the lower stance is set |
| Steps.Hitting | MyStrategy.cpp:446-455 | it does the prone, kneeling or standing damage by the shooter's stance, kills iff that covers the hit points, and is answered as 2 with the enemy's x and y |
| Steps.Throwing | MyStrategy.cpp:359-400 | a grenade opens iff held, paid and in range; its whole effect in counted units; answered as 5 |
| Steps.MedikitForMate | MyStrategy.cpp:321-340 | opens iff held, paid, beside and wounded; restores the bonus or what is missing; answered as 6 |
| Steps.MedikitForSelf | MyStrategy.cpp:342-355 | the same for the trooper itself, with its own bonus and its own cell |
| Steps.HealingMate | MyStrategy.cpp:403-421 | a field medic's heal, without a medikit; answered as 8 |
| Steps.HealingSelf | MyStrategy.cpp:423-435 | the same for itself |
| Steps.Raising | MyStrategy.cpp:481-491 | opens iff not standing; one stance up; answered as 3 |
| Steps.Lowering | MyStrategy.cpp:492-499 | opens iff not prone; one stance down; answered as 4 |
| Steps.Eating | MyStrategy.cpp:503-515 | opens iff a ration is held and paid; its bonus points are added; answered as 7 |
| Steps.MoveNames | MyStrategy.cpp:117-133 | the message of every action has its code, no direction, and the target's x and y where it has a target |
| Steps.ThreatMeaning | MyStrategy.cpp:273-287 | an enemy threatens iff in grenade range, or in its shooting range and visible from a listed stance, in coordinates |
| Steps.ThreatCount | MyStrategy.cpp:273-291 | the score counts the set of enemies that do |
| Steps.CommanderMeaning | MyStrategy.cpp:265-271 | the aura bonus is given iff some commander is within its range |
| Items.GrenadeHeld | MyStrategy.cpp:244-260 | at the end of a plan a grenade is held iff none was thrown and there was one at the start or on the way |
| Items.RationHeld | MyStrategy.cpp:244-260 | the same for the ration and eating |
| Items.MedikitHeld | MyStrategy.cpp:244-260 | a medikit is held iff at some node there was one, found or brought along, and none was used from then on |
| Items.MedikitKept | MyStrategy.cpp:469-475 | a medikit held at any node is held at every later one until it is used |
| Answering.Starting | MyStrategy.cpp:219-235 | the first node scored has the trooper's cell, stance, points and items, and what lies under it |
| Answering.SideInOrder | MyStrategy.cpp:181-187 | each side has all its visible troopers once, in the order of the message |
| Answering.AnswerObeysRules | MyStrategy.cpp:208-239 | every answer can be carried out on the map the server sent: steps go to a FREE unoccupied cell beside, shots and grenades name an enemy's cell in range, treatments a wounded teammate beside or the trooper itself, all within the points |
| Answering.BestOfTen | MyStrategy.cpp:311-319 | no plan of at most ten actions scores more, and one of them scores as much |
| Answering.FirstOfTies | MyStrategy.cpp:311-319 | of equally good plans the one whose first action is tried first wins: by kind, and among steps left, up, right, down |
| Answering.FirstEnemyOfTies | MyStrategy.cpp:359-364 | among shots and among grenades the enemy that comes first wins |
| ScoreBounds.PlanBounds | MyStrategy.cpp:365-392 | on modest game constants, damage, mate damage and kills grow by a bounded amount per action, along any plan |
| ScoreBounds.ScoreIsSum | MyStrategy.cpp:295-309 | the score is the sum of the ten terms the evaluation adds one by one |
| ScoreBounds.ScoreFits | MyStrategy.cpp:295-309 | with modest constants and teammates and target reachable, every term and every partial sum at every node of the search stays within 1e9 of zero, hence in an int |
| ScoreBounds.AnswerIsAlwaysBest | MyStrategy.cpp:311-319 | so on such games the answer is that of a best plan; the initial `best_score` of -1e9 never decides |
| Wire.PrefixReversalUndone | RemoteProcessClient.cpp:367-369 | reversing all bytes but the last is its own inverse |
| Wire.DecodeEncode | RemoteProcessClient.cpp:364-388 | what a machine writes it reads back, for both byte orders and any width |
| Wire.EncodeDecode | RemoteProcessClient.cpp:364-388 | every byte string of the right length is the encoding of the value it is read as |
| Wire.WireFormat | RemoteProcessClient.cpp:378-388 | a little-endian machine writes the little-endian digits of the two's complement; a big-endian one writes them rotated, hence correctly only when all bytes are equal |
| Codec.PutTrooper | RemoteProcessClient.cpp:197-231 | parsing a trooper inverts its encoding and takes exactly its bytes |
| Codec.PutPlayer | RemoteProcessClient.cpp:164-172 | the same for a player |
| Codec.PutBonus | RemoteProcessClient.cpp:243-249 | the same for a bonus |
| Codec.ListRoundTrip | RemoteProcessClient.cpp:181-195 | a counted list of items is recovered if each item is |
| Codec.CellsRoundTrip | RemoteProcessClient.cpp:263-285 | the table of cells is recovered, column by column |
| Codec.PutVisibilities | RemoteProcessClient.cpp:293-316 | the visibility table is recovered, unless its size overflows |
| Codec.WorldRoundTrip | RemoteProcessClient.cpp:137-152 | a world message is recovered, with its tables read from the message or taken from the cache |
| Codec.NextContext | RemoteProcessClient.cpp:104-120 | one read from the server's remaining stream returns its next context and leaves the rest |
| Codec.GameRoundTrip | RemoteProcessClient.cpp:104-120 | for every game on one map, with tables only in the first message, repeated reads return all contexts in order, then the end, and take exactly the bytes sent |
| Codec.MessageRoundTrip | RemoteProcessClient.cpp:122-131 | a reference decoder inverts token, version and move messages |
| Codec.WrittenFront | RemoteProcessClient.cpp:122-131 | appending a message to what follows is the same as encoding it in front of it: the link between the writers and the decoder |
| Codec.SessionRoundTrip | RemoteProcessClient.cpp:122-131 | a reference server recovers the sequence of messages from the bytes appended one after the other, with nothing left over |
| Codec.UniquelyDecodable | RemoteProcessClient.cpp:122-131 | different sequences of messages are different byte streams |
| Codec.MoveLength | RemoteProcessClient.cpp:122-131 | a move message is twelve bytes long |
| Layout.TrooperLayout | RemoteProcessClient.cpp:197-231 | a trooper is 87 bytes: each field by its offset, exit 10006 if absent, exit 10012 if cut off, on all inputs |
| Layout.BonusLayout | RemoteProcessClient.cpp:243-250 | a bonus is 18 bytes, with exits 10010 and 10012 |
| Layout.PlayerLayout | RemoteProcessClient.cpp:164-172 | a player's fields by their offsets, those behind the name moved by its length |
| Layout.PlayerAbsent | RemoteProcessClient.cpp:164-175 | an absent player ends the client with 10004 |
| Layout.ReadsBool | RemoteProcessClient.cpp:354-356 | every byte but 0 is true |
| Layout.ReadsEnum | RemoteProcessClient.cpp:325-327 | a byte is signed |
| Layout.ReadsString | RemoteProcessClient.cpp:335-343 | exit 10014 for length -1, a huge count for other negative lengths, otherwise that many bytes |
| Layout.NegativeCounts | RemoteProcessClient.cpp:154-295 | a negative count ends the client with the list's own exit code |
| Layout.NegativeDimensions | RemoteProcessClient.cpp:298-306 | exits 10019 and 10020 |
| Layout.VisibilitiesLayout | RemoteProcessClient.cpp:293-316 | three dimensions, then one byte for each entry of the product |
| Layout.ContextKinds | RemoteProcessClient.cpp:104-120 | first byte 1 ends the game, 6 is a context, anything else exits with 10011 |
| Layout.WorldHeader | RemoteProcessClient.cpp:137-144 | move index, width and height at offsets 1, 5 and 9; exit 10002 if absent |
| Layout.MessageBytes | RemoteProcessClient.cpp:35-48 | the bytes a little-endian machine sends: 4, 2, 0, 0, 0 for the version, 2 and the text for the token, 7, 1, code, 255, x, y for a move |
| Client.RemoteProcessClient.ReadBytes | RemoteProcessClient.cpp:425-440 | for every schedule of partial receives: the next n bytes, or exit 10012 iff the stream is shorter |
| Client.RemoteProcessClient.WriteBytes | RemoteProcessClient.cpp:442-454 | for every schedule of partial sends: the whole argument, or what the peer takes and exit 10013 |
| Client.WroteCut | RemoteProcessClient.cpp:442-454 | a message that does not fit is sent as far as it fits, and the exit is 10013 |
| Client.RemoteProcessClient.ReadEnum | RemoteProcessClient.cpp:325-327 | a signed byte |
| Client.RemoteProcessClient.ReadBoolean | RemoteProcessClient.cpp:354-356 | any nonzero byte is true |
| Client.RemoteProcessClient.ReadInt | RemoteProcessClient.cpp:364-376 | a 32-bit integer in the machine's reading of the wire |
| Client.RemoteProcessClient.ReadLong | RemoteProcessClient.cpp:390-402 | a 64-bit integer; doubles are read the same way |
| Client.RemoteProcessClient.ReadString | RemoteProcessClient.cpp:335-343 | length -1 exits, other negative lengths become huge byte counts |
| Client.RemoteProcessClient.ReadTrooper | RemoteProcessClient.cpp:197-231 | the 22 fields in order, read in three groups |
| Client.RemoteProcessClient.ReadPlayers | RemoteProcessClient.cpp:154-179 | the counted list of players, stopping at the first bad one |
| Client.RemoteProcessClient.ReadTroopers | RemoteProcessClient.cpp:181-195 | the counted list of troopers |
| Client.RemoteProcessClient.ReadBonuses | RemoteProcessClient.cpp:233-256 | the counted list of bonuses |
| Client.RemoteProcessClient.ReadCells | RemoteProcessClient.cpp:258-286 | read once, then returned from the cache without touching the stream |
| Client.RemoteProcessClient.ReadCellVisibilities | RemoteProcessClient.cpp:288-317 | read once, then returned from the cache without touching the stream |
| Client.RemoteProcessClient.ReadWorld | RemoteProcessClient.cpp:137-152 | agrees with the world parser and fills the cache |
| Client.RemoteProcessClient.ReadPlayerContext | RemoteProcessClient.cpp:104-120 | agrees with the context parser; end of game and absent contexts give none |
| Client.RemoteProcessClient.ReadGame | Runner.cpp:42-50 | against a server that sends tables once, the client's loop receives every context as sent and stops at the end of the game, whatever the chunking |
| Client.RemoteProcessClient.WriteInt | RemoteProcessClient.cpp:378-388 | appends the encoding of a 32-bit integer |
| Client.RemoteProcessClient.WriteLong | RemoteProcessClient.cpp:404-414 | appends the encoding of a 64-bit integer |
| Client.RemoteProcessClient.WriteString | RemoteProcessClient.cpp:345-352 | appends length and bytes |
| Client.RemoteProcessClient.WriteToken | RemoteProcessClient.cpp:35-38 | appends exactly the token message, or the part the peer takes |
| Client.RemoteProcessClient.WriteProtocolVersion | RemoteProcessClient.cpp:45-48 | appends exactly the version message, or the part the peer takes |
| Client.RemoteProcessClient.WriteMove | RemoteProcessClient.cpp:122-131 | appends exactly the move message, or the part the peer takes |
| Client.RemoteProcessClient.WriteMessage | RemoteProcessClient.cpp:122-131 | appends exactly the message, or the part the peer takes |
| Client.RemoteProcessClient.WriteSession | Runner.cpp:28-50 | the client's messages one after the other append the concatenation that `SessionRoundTrip` decodes, or the part the peer takes |
| Session.ReceivedTurn | Runner.cpp:42-46 | every context of a proper game, as received, is one the strategy can play |
| Session.SoldierLayout | RemoteProcessClient.cpp:197-231 | at which offset of the message the strategy finds each field it uses |
| Session.MoveFits | MyStrategy.cpp:321-515 | the move of every action that opens at a node fits the wire format |
| Session.AnswerFits | Runner.cpp:46-47 | so does every answer |
| Session.AnswerObeysRules | Runner.cpp:42-50 | every answer of a game can be carried out on the map received for it |
| Session.PlayRound | Runner.cpp:43-49 | one round: the strategy's answer to the context received is exactly what is appended to the stream |
| Session.RunGame | Runner.cpp:42-50 | for a whole game as the server sends it: every context arrives, each is answered as the strategy's rules determine for its number and remembered target, and the stream carries exactly these answers in order; the loop ends before the game only if a target loop does not |
| Session.RepliesRead | Runner.cpp:42-50 | the server reads back exactly these answers |
| Examples.BigEndianOne | RemoteProcessClient.cpp:378-388 | the number 1 from a big-endian machine is 0, 0, 0, 1 on the wire, which a little-endian peer reads as 2 to the 24th |
| Examples.SingleCellHasNoTarget | MyStrategy.cpp:209-216 | on a map of one cell the target loop never ends: no sequence of draws gives an answer on any move |
| Examples.WalledOffTeammate | MyStrategy.cpp:303-303 | with a teammate behind a wall `60 * mates_dist` is 60 * (1e9 + 2), beyond an int |
| Examples.MedikitUsedFiveTimes | MyStrategy.cpp:246-248 | a trooper standing on a medikit and carrying one plans five uses |
| Rescue.HallDist | MyStrategy.cpp:139-141 | in an open corridor the distance is the number of cells between, and 2 from a cell to itself |
| Rescue.PlanWorks | MyStrategy.cpp:262-309 | two steps to the left and the medikit are a plan that scores 100410 |
| Rescue.AnswerIsStep | MyStrategy.cpp:311-319 | nothing scores more, several plans score as much, and the answer is the step to the left, for every target and on every move |
| Rescue.CallAnswersStep | MyStrategy.cpp:562-567 | so every call that answers answers MOVE 4 0 |

## Left out

- Strategy.SlavaStrategy.Evaluate: computes in unbounded integers; `ScoreBounds.ScoreFits` shows that a 32-bit int gives the same result on games within the limits of `Modest` whose teammates and target are reachable; what an overflowing evaluation does elsewhere is undefined in C++ and is not modelled.
- Floating point: ranges are real numbers, `sqrt(d) <= r` is `r >= 0` and `d <= r * r`; doubles on the wire are opaque 64-bit patterns.
- Random numbers: `rand() % n` is an arbitrary cell of the map, and a run of the target loop is given finitely many draws; running out of them stands for going on. `srand` and the generator are not modelled.
- Shape of the code: `maximize_score` is one function in the source, here one method per kind of attempt, called in the source's order; `floyd` is split by loop level and its four-level `vector` is one four-dimensional array; the `vector` fields built by the constructor are sequences assigned once.
- Whether the heuristic weights play well.
- Wire.Adjust: `std::reverse` and `memcpy` on a local buffer are functions on byte sequences; the buffers of `readBytes` and of the visibility table are arrays.
- Codec.ParseVisibilities: a product of dimensions that overflows an int is undefined in C++ and is an outcome of its own here.
- Codec.ParseString: a negative length other than -1 ends in an uncaught exception, an outcome of its own here.
- `readGameContext`, `readTeamSize` and the game constants' wire format: a fixed list of fields read by the same methods.
- `Runner` outside its loop: command line, and one strategy object per team member; these objects have no fields, so which one is called makes no difference.
- Process state after a failed read or write: the program exits, so nothing is said about the cache then.
- The socket library, the scripts of the local runner, debug logging and stream operators.
