/** The messages of the game protocol as byte strings: what the client parses, what it writes,
    and a reference server's serializer. A parser returns the unread rest of its input; `Put`
    functions put an encoding in front of what follows it. */
module Codec {
  import opened Wire
  import opened Model
  import opened Visibility

  // Exit codes of the client
  const EXIT_WORLD := 10002
  const EXIT_PLAYER_COUNT := 10003
  const EXIT_PLAYER := 10004
  const EXIT_TROOPER_COUNT := 10005
  const EXIT_TROOPER := 10006
  const EXIT_WIDTH := 10007
  const EXIT_HEIGHT := 10008
  const EXIT_BONUS_COUNT := 10009
  const EXIT_BONUS := 10010
  const EXIT_MESSAGE_TYPE := 10011
  const EXIT_READ := 10012
  const EXIT_WRITE := 10013
  const EXIT_STRING := 10014
  const EXIT_WORLD_WIDTH := 10018
  const EXIT_WORLD_HEIGHT := 10019
  const EXIT_STANCE_COUNT := 10020

  /** An uncaught exception: a string of negative length. */
  const UNCAUGHT := -1
  /** A signed overflow, which C++ leaves undefined. */
  const OVERFLOW := -2

  // Message types
  const GAME_OVER := 1
  const AUTHENTICATION_TOKEN := 2
  const PROTOCOL_VERSION := 4
  const PLAYER_CONTEXT := 6
  const MOVE_MESSAGE := 7

  type bytes = seq<byte>

  datatype Parsed<+T> = Ok(value: T, rest: bytes) | Exit(code: int) {
    predicate IsFailure() {
      Exit?
    }

    function PropagateFailure<U>(): Parsed<U>
      requires Exit?
    {
      Exit(code)
    }

    function Extract(): (T, bytes)
      requires Ok?
    {
      (value, rest)
    }
  }

  // ---- Elements ----

  function Take(n: nat, s: bytes): Parsed<bytes> {
    if n <= |s| then Ok(s[..n], s[n..]) else Exit(EXIT_READ)
  }

  predicate Int8(v: int) {
    -128 <= v < 128
  }

  predicate Int32(v: int) {
    -0x8000_0000 <= v < 0x8000_0000
  }

  predicate Int64(v: int) {
    -0x8000_0000_0000_0000 <= v < 0x8000_0000_0000_0000
  }

  function ParseEnum(s: bytes): Parsed<int> {
    var (b, s) :- Take(1, s);
    var v: int := b[0];
    Ok(if v < 128 then v else v - 256, s)
  }

  function PutEnum(v: int, tail: bytes): (r: bytes)
    requires Int8(v)
    ensures ParseEnum(r) == Ok(v, tail)
  {
    [if v < 0 then v + 256 else v] + tail
  }

  function ParseBool(s: bytes): Parsed<bool> {
    var (b, s) :- Take(1, s);
    Ok(b[0] != 0, s)
  }

  function PutBool(v: bool, tail: bytes): (r: bytes)
    ensures ParseBool(r) == Ok(v, tail)
  {
    [if v then 1 else 0] + tail
  }

  function ParseNumber(little: bool, n: nat, s: bytes): Parsed<int>
    requires n > 0
  {
    var (b, s) :- Take(n, s);
    Ok(Decode(little, b), s)
  }

  function PutNumber(little: bool, v: int, n: nat, tail: bytes): (r: bytes)
    requires n > 0 && Signed(v, n)
    ensures ParseNumber(little, n, r) == Ok(v, tail)
  {
    var code := Encode(little, v, n);
    DecodeEncode(little, v, n);
    assert (code + tail)[..n] == code && (code + tail)[n..] == tail;
    code + tail
  }

  function ParseInt(little: bool, s: bytes): (p: Parsed<int>)
    ensures p.Ok? ==> Int32(p.value)
  {
    IntSizes();
    ParseNumber(little, 4, s)
  }

  function PutInt(little: bool, v: int, tail: bytes): (r: bytes)
    requires Int32(v)
    ensures ParseInt(little, r) == Ok(v, tail)
  {
    IntSizes();
    PutNumber(little, v, 4, tail)
  }

  function ParseLong(little: bool, s: bytes): Parsed<int> {
    ParseNumber(little, 8, s)
  }

  function PutLong(little: bool, v: int, tail: bytes): (r: bytes)
    requires Int64(v)
    ensures ParseLong(little, r) == Ok(v, tail)
  {
    IntSizes();
    PutNumber(little, v, 8, tail)
  }

  /** A length becomes unsigned when it is passed on as a byte count. */
  function ByteCount(length: int): (n: nat)
    requires Int32(length)
  {
    if length < 0 then length + 0x1_0000_0000 else length
  }

  function ParseString(little: bool, s: bytes): Parsed<bytes> {
    var (length, s) :- ParseInt(little, s);
    if length == -1 then Exit(EXIT_STRING) else
      var (b, s) :- Take(ByteCount(length), s);
      if length < 0 then Exit(UNCAUGHT) else Ok(b, s)
  }

  function PutString(little: bool, v: bytes, tail: bytes): (r: bytes)
    requires Int32(|v|)
    ensures ParseString(little, r) == Ok(v, tail)
  {
    assert (v + tail)[..|v|] == v && (v + tail)[|v|..] == tail;
    PutInt(little, |v|, v + tail)
  }

  // ---- Repetition ----

  /** `count` items, one after the other. */
  function ParseMany<T>(count: nat, item: bytes -> Parsed<T>, s: bytes): Parsed<seq<T>> {
    if count == 0 then Ok([], s) else
      var (items, s) :- ParseMany(count - 1, item, s);
      var (last, s) :- item(s);
      Ok(items + [last], s)
  }

  function PutMany<T>(items: seq<T>, put: (T, bytes) --> bytes, tail: bytes): bytes
    requires forall i, t :: 0 <= i < |items| ==> put.requires(items[i], t)
  {
    if items == [] then tail else put(items[0], PutMany(items[1..], put, tail))
  }

  ghost predicate Inverse<T(!new)>(items: seq<T>, put: (T, bytes) --> bytes, item: bytes -> Parsed<T>) {
    forall i, t :: 0 <= i < |items| ==>
      put.requires(items[i], t) && item(put(items[i], t)) == Ok(items[i], t)
  }

  lemma {:induction false} ManyPrefix<T(!new)>(items: seq<T>, put: (T, bytes) --> bytes, item: bytes -> Parsed<T>,
                                               tail: bytes, k: nat)
    requires k <= |items| && Inverse(items, put, item)
    ensures ParseMany(k, item, PutMany(items, put, tail)) == Ok(items[..k], PutMany(items[k..], put, tail))
  {
    if k > 0 {
      ManyPrefix(items, put, item, tail, k - 1);
      assert items[k - 1..][0] == items[k - 1] && items[k - 1..][1..] == items[k..];
      var rest := PutMany(items[k..], put, tail);
      assert item(put(items[k - 1], rest)) == Ok(items[k - 1], rest);
      assert items[..k] == items[..k - 1] + [items[k - 1]];
    }
  }

  function ParseList<T>(little: bool, badCount: int, item: bytes -> Parsed<T>, s: bytes): Parsed<seq<T>> {
    var (count, s) :- ParseInt(little, s);
    if count < 0 then Exit(badCount) else ParseMany(count, item, s)
  }

  function PutList<T>(little: bool, items: seq<T>, put: (T, bytes) --> bytes, tail: bytes): bytes
    requires Int32(|items|)
    requires forall i, t :: 0 <= i < |items| ==> put.requires(items[i], t)
  {
    PutInt(little, |items|, PutMany(items, put, tail))
  }

  lemma ListRoundTrip<T(!new)>(little: bool, badCount: int, items: seq<T>, put: (T, bytes) --> bytes,
                               item: bytes -> Parsed<T>, tail: bytes)
    requires Int32(|items|) && Inverse(items, put, item)
    ensures ParseList(little, badCount, item, PutList(little, items, put, tail)) == Ok(items, tail)
  {
    ManyPrefix(items, put, item, tail, |items|);
    assert items[..|items|] == items;
  }

  // ---- Records ----

  type WireTrooper = Trooper<int>
  type WireWorld = World<int>

  // A trooper's 22 fields, in three groups.

  datatype Identity = Identity(id: int, x: int, y: int, playerId: int, teammateIndex: int, teammate: bool,
                               kind: int, stance: int)

  datatype Condition = Condition(hitpoints: int, maximalHitpoints: int, actionPoints: int, initialActionPoints: int,
                                 visionRange: int, shootingRange: int, shootCost: int)

  datatype Arms = Arms(standingDamage: int, kneelingDamage: int, proneDamage: int, damage: int,
                       holdingGrenade: bool, holdingMedikit: bool, holdingFieldRation: bool)

  function TrooperOf(i: Identity, c: Condition, a: Arms): WireTrooper {
    Trooper(i.id, i.x, i.y, i.playerId, i.teammateIndex, i.teammate, i.kind, i.stance,
            c.hitpoints, c.maximalHitpoints, c.actionPoints, c.initialActionPoints,
            c.visionRange, c.shootingRange, c.shootCost,
            a.standingDamage, a.kneelingDamage, a.proneDamage, a.damage,
            a.holdingGrenade, a.holdingMedikit, a.holdingFieldRation)
  }

  function ParseIdentity(little: bool, s: bytes): Parsed<Identity> {
    var (id, s) :- ParseLong(little, s);
    var (x, s) :- ParseInt(little, s);
    var (y, s) :- ParseInt(little, s);
    var (playerId, s) :- ParseLong(little, s);
    var (teammateIndex, s) :- ParseInt(little, s);
    var (teammate, s) :- ParseBool(s);
    var (kind, s) :- ParseEnum(s);
    var (stance, s) :- ParseEnum(s);
    Ok(Identity(id, x, y, playerId, teammateIndex, teammate, kind, stance), s)
  }

  function ParseCondition(little: bool, s: bytes): Parsed<Condition> {
    var (hitpoints, s) :- ParseInt(little, s);
    var (maximalHitpoints, s) :- ParseInt(little, s);
    var (actionPoints, s) :- ParseInt(little, s);
    var (initialActionPoints, s) :- ParseInt(little, s);
    var (visionRange, s) :- ParseLong(little, s);
    var (shootingRange, s) :- ParseLong(little, s);
    var (shootCost, s) :- ParseInt(little, s);
    Ok(Condition(hitpoints, maximalHitpoints, actionPoints, initialActionPoints,
                 visionRange, shootingRange, shootCost), s)
  }

  function ParseArms(little: bool, s: bytes): Parsed<Arms> {
    var (standingDamage, s) :- ParseInt(little, s);
    var (kneelingDamage, s) :- ParseInt(little, s);
    var (proneDamage, s) :- ParseInt(little, s);
    var (damage, s) :- ParseInt(little, s);
    var (holdingGrenade, s) :- ParseBool(s);
    var (holdingMedikit, s) :- ParseBool(s);
    var (holdingFieldRation, s) :- ParseBool(s);
    Ok(Arms(standingDamage, kneelingDamage, proneDamage, damage,
            holdingGrenade, holdingMedikit, holdingFieldRation), s)
  }

  function ParseTrooper(little: bool, s: bytes): Parsed<WireTrooper> {
    var (present, s) :- ParseBool(s);
    if !present then Exit(EXIT_TROOPER) else
      var (identity, s) :- ParseIdentity(little, s);
      var (condition, s) :- ParseCondition(little, s);
      var (arms, s) :- ParseArms(little, s);
      Ok(TrooperOf(identity, condition, arms), s)
  }

  predicate TrooperFits(t: WireTrooper) {
    && Int64(t.id) && Int32(t.x) && Int32(t.y) && Int64(t.playerId) && Int32(t.teammateIndex)
    && Int8(t.kind) && Int8(t.stance)
    && Int32(t.hitpoints) && Int32(t.maximalHitpoints) && Int32(t.actionPoints) && Int32(t.initialActionPoints)
    && Int64(t.visionRange) && Int64(t.shootingRange) && Int32(t.shootCost)
    && Int32(t.standingDamage) && Int32(t.kneelingDamage) && Int32(t.proneDamage) && Int32(t.damage)
  }

  function PutIdentity(little: bool, t: WireTrooper, tail: bytes): (r: bytes)
    requires TrooperFits(t)
    ensures ParseIdentity(little, r) ==
            Ok(Identity(t.id, t.x, t.y, t.playerId, t.teammateIndex, t.teammate, t.kind, t.stance), tail)
  {
    hide ParseBool, ParseEnum, ParseInt, ParseLong, PutBool, PutEnum, PutInt, PutLong;
    var tail := PutBool(t.teammate, PutEnum(t.kind, PutEnum(t.stance, tail)));
    var tail := PutLong(little, t.playerId, PutInt(little, t.teammateIndex, tail));
    PutLong(little, t.id, PutInt(little, t.x, PutInt(little, t.y, tail)))
  }

  function PutCondition(little: bool, t: WireTrooper, tail: bytes): (r: bytes)
    requires TrooperFits(t)
    ensures ParseCondition(little, r) ==
            Ok(Condition(t.hitpoints, t.maximalHitpoints, t.actionPoints, t.initialActionPoints,
                         t.visionRange, t.shootingRange, t.shootCost), tail)
  {
    hide ParseInt, ParseLong, PutInt, PutLong;
    var tail := PutLong(little, t.visionRange, PutLong(little, t.shootingRange, PutInt(little, t.shootCost, tail)));
    var tail := PutInt(little, t.actionPoints, PutInt(little, t.initialActionPoints, tail));
    PutInt(little, t.hitpoints, PutInt(little, t.maximalHitpoints, tail))
  }

  function PutArms(little: bool, t: WireTrooper, tail: bytes): (r: bytes)
    requires TrooperFits(t)
    ensures ParseArms(little, r) ==
            Ok(Arms(t.standingDamage, t.kneelingDamage, t.proneDamage, t.damage,
                    t.holdingGrenade, t.holdingMedikit, t.holdingFieldRation), tail)
  {
    hide ParseBool, ParseInt, PutBool, PutInt;
    var tail := PutBool(t.holdingGrenade, PutBool(t.holdingMedikit, PutBool(t.holdingFieldRation, tail)));
    var tail := PutInt(little, t.proneDamage, PutInt(little, t.damage, tail));
    PutInt(little, t.standingDamage, PutInt(little, t.kneelingDamage, tail))
  }

  function PutTrooper(little: bool, t: WireTrooper, tail: bytes): (r: bytes)
    requires TrooperFits(t)
    ensures ParseTrooper(little, r) == Ok(t, tail)
  {
    hide ParseBool, ParseIdentity, ParseCondition, ParseArms, PutBool, PutIdentity, PutCondition, PutArms;
    PutBool(true, PutIdentity(little, t, PutCondition(little, t, PutArms(little, t, tail))))
  }

  function ParsePlayer(little: bool, s: bytes): Parsed<Player> {
    var (present, s) :- ParseBool(s);
    if !present then Exit(EXIT_PLAYER) else
      var (id, s) :- ParseLong(little, s);
      var (name, s) :- ParseString(little, s);
      var (score, s) :- ParseInt(little, s);
      var (strategyCrashed, s) :- ParseBool(s);
      var (approximateX, s) :- ParseInt(little, s);
      var (approximateY, s) :- ParseInt(little, s);
      Ok(Player(id, name, score, strategyCrashed, approximateX, approximateY), s)
  }

  predicate PlayerFits(p: Player) {
    && Int64(p.id) && Int32(|p.name|) && (forall i :: 0 <= i < |p.name| ==> 0 <= p.name[i] < 256)
    && Int32(p.score) && Int32(p.approximateX) && Int32(p.approximateY)
  }

  function PutPlayer(little: bool, p: Player, tail: bytes): (r: bytes)
    requires PlayerFits(p)
    ensures ParsePlayer(little, r) == Ok(p, tail)
  {
    hide ParseBool, ParseInt, ParseLong, ParseString, PutBool, PutInt, PutLong, PutString;
    var tail := PutInt(little, p.approximateX, PutInt(little, p.approximateY, tail));
    var tail := PutInt(little, p.score, PutBool(p.strategyCrashed, tail));
    PutBool(true, PutLong(little, p.id, PutString(little, p.name, tail)))
  }

  function ParseBonus(little: bool, s: bytes): Parsed<Bonus> {
    var (present, s) :- ParseBool(s);
    if !present then Exit(EXIT_BONUS) else
      var (id, s) :- ParseLong(little, s);
      var (x, s) :- ParseInt(little, s);
      var (y, s) :- ParseInt(little, s);
      var (kind, s) :- ParseEnum(s);
      Ok(Bonus(id, x, y, kind), s)
  }

  predicate BonusFits(b: Bonus) {
    Int64(b.id) && Int32(b.x) && Int32(b.y) && Int8(b.kind)
  }

  function PutBonus(little: bool, b: Bonus, tail: bytes): (r: bytes)
    requires BonusFits(b)
    ensures ParseBonus(little, r) == Ok(b, tail)
  {
    hide ParseBool, ParseEnum, ParseInt, ParseLong, PutBool, PutEnum, PutInt, PutLong;
    PutBool(true, PutLong(little, b.id, PutInt(little, b.x, PutInt(little, b.y, PutEnum(b.kind, tail)))))
  }

  // ---- The two tables sent once ----

  function ParseColumn(little: bool, s: bytes): Parsed<seq<int>> {
    ParseList(little, EXIT_HEIGHT, t => ParseEnum(t), s)
  }

  predicate ColumnFits(column: seq<int>) {
    Int32(|column|) && forall y :: 0 <= y < |column| ==> Int8(column[y])
  }

  function PutColumn(little: bool, column: seq<int>, tail: bytes): bytes
    requires ColumnFits(column)
  {
    PutList(little, column, (v: int, t: bytes) requires Int8(v) => PutEnum(v, t), tail)
  }

  lemma ColumnRoundTrip(little: bool, column: seq<int>, tail: bytes)
    requires ColumnFits(column)
    ensures ParseColumn(little, PutColumn(little, column, tail)) == Ok(column, tail)
  {
    hide ParseEnum, PutEnum, ParseList, PutList;
    var put := (v: int, t: bytes) requires Int8(v) => PutEnum(v, t);
    assert Inverse(column, put, t => ParseEnum(t));
    ListRoundTrip(little, EXIT_HEIGHT, column, put, t => ParseEnum(t), tail);
  }

  function ParseCells(little: bool, s: bytes): Parsed<seq<seq<int>>> {
    ParseList(little, EXIT_WIDTH, t => ParseColumn(little, t), s)
  }

  predicate CellsFit(cells: seq<seq<int>>) {
    Int32(|cells|) && forall x :: 0 <= x < |cells| ==> ColumnFits(cells[x])
  }

  function PutCells(little: bool, cells: seq<seq<int>>, tail: bytes): bytes
    requires CellsFit(cells)
  {
    PutList(little, cells,
            (column: seq<int>, t: bytes) requires ColumnFits(column) => PutColumn(little, column, t), tail)
  }

  lemma CellsRoundTrip(little: bool, cells: seq<seq<int>>, tail: bytes)
    requires CellsFit(cells)
    ensures ParseCells(little, PutCells(little, cells, tail)) == Ok(cells, tail)
  {
    hide ParseColumn, PutColumn, ColumnFits, ParseList, PutList;
    var put := (column: seq<int>, t: bytes) requires ColumnFits(column) => PutColumn(little, column, t);
    forall x, t | 0 <= x < |cells| ensures ParseColumn(little, PutColumn(little, cells[x], t)) == Ok(cells[x], t) {
      ColumnRoundTrip(little, cells[x], t);
    }
    assert Inverse(cells, put, t => ParseColumn(little, t));
    ListRoundTrip(little, EXIT_WIDTH, cells, put, t => ParseColumn(little, t), tail);
  }

  function Flags(raw: bytes): (flags: seq<bool>) {
    seq(|raw|, i requires 0 <= i < |raw| => raw[i] != 0)
  }

  function Raw(flags: seq<bool>): (raw: bytes)
    ensures |raw| == |flags| && Flags(raw) == flags
  {
    seq(|flags|, i requires 0 <= i < |flags| => if flags[i] then 1 else 0)
  }

  /** Does a product of nonnegative ints overflow on the way? */
  predicate ProductFits(width: nat, height: nat, stanceCount: nat) {
    && Int32(width * height) && Int32(width * height * width) && Int32(width * height * width * height)
    && Int32(Volume(width, height, stanceCount))
  }

  function ParseVisibilities(little: bool, s: bytes): Parsed<seq<bool>> {
    hide ParseInt, Volume, ProductFits;
    var (width, s) :- ParseInt(little, s);
    if width < 0 then Exit(EXIT_WORLD_WIDTH) else
      var (height, s) :- ParseInt(little, s);
      if height < 0 then Exit(EXIT_WORLD_HEIGHT) else
        var (stanceCount, s) :- ParseInt(little, s);
        if stanceCount < 0 then Exit(EXIT_STANCE_COUNT)
        else if !ProductFits(width, height, stanceCount) then Exit(OVERFLOW)
        else
          var (raw, s) :- Take(Volume(width, height, stanceCount), s);
          Ok(Flags(raw), s)
  }

  predicate VisibilitiesFit(width: int, height: int, table: seq<bool>) {
    && 0 <= width && 0 <= height && Int32(width) && Int32(height)
    && |table| == TableSize(width, height) && ProductFits(width, height, STANCE_COUNT)
  }

  function PutVisibilities(little: bool, width: int, height: int, table: seq<bool>, tail: bytes): (r: bytes)
    requires VisibilitiesFit(width, height, table)
    ensures ParseVisibilities(little, r) == Ok(table, tail)
  {
    hide ParseInt, PutInt, Volume, ProductFits, Flags, Raw;
    var raw := Raw(table);
    assert (raw + tail)[..|raw|] == raw && (raw + tail)[|raw|..] == tail;
    PutInt(little, width, PutInt(little, height, PutInt(little, STANCE_COUNT, raw + tail)))
  }

  // ---- World messages ----

  /** The tables the client keeps once it has read them. */
  datatype Cache = Cache(cells: Option<seq<seq<int>>>, visibilities: Option<seq<bool>>)

  const EMPTY_CACHE := Cache(None, None)

  function ParseCachedCells(little: bool, cache: Cache, s: bytes): Parsed<seq<seq<int>>> {
    if cache.cells.Some? then Ok(cache.cells.value, s) else ParseCells(little, s)
  }

  function ParseCachedVisibilities(little: bool, cache: Cache, s: bytes): Parsed<seq<bool>> {
    if cache.visibilities.Some? then Ok(cache.visibilities.value, s) else ParseVisibilities(little, s)
  }

  function ParsePlayers(little: bool, s: bytes): Parsed<seq<Player>> {
    ParseList(little, EXIT_PLAYER_COUNT, t => ParsePlayer(little, t), s)
  }

  function ParseTroopers(little: bool, s: bytes): Parsed<seq<WireTrooper>> {
    ParseList(little, EXIT_TROOPER_COUNT, t => ParseTrooper(little, t), s)
  }

  function ParseBonuses(little: bool, s: bytes): Parsed<seq<Bonus>> {
    ParseList(little, EXIT_BONUS_COUNT, t => ParseBonus(little, t), s)
  }

  function ParseWorld(little: bool, cache: Cache, s: bytes): Parsed<WireWorld> {
    hide ParseBool, ParseInt;
    var (present, s) :- ParseBool(s);
    if !present then Exit(EXIT_WORLD) else
      var (moveIndex, s) :- ParseInt(little, s);
      var (width, s) :- ParseInt(little, s);
      var (height, s) :- ParseInt(little, s);
      var (players, s) :- ParsePlayers(little, s);
      var (troopers, s) :- ParseTroopers(little, s);
      var (bonuses, s) :- ParseBonuses(little, s);
      var (cells, s) :- ParseCachedCells(little, cache, s);
      var (visibilities, s) :- ParseCachedVisibilities(little, cache, s);
      Ok(World(moveIndex, width, height, players, troopers, bonuses, cells, visibilities), s)
  }

  /** The cache after a world has been read. */
  function CacheOf(w: WireWorld): Cache {
    Cache(Some(w.cells), Some(w.cellVisibilities))
  }

  ghost predicate ListsFit(w: WireWorld) {
    && Int32(|w.players|) && (forall i :: 0 <= i < |w.players| ==> PlayerFits(w.players[i]))
    && Int32(|w.troopers|) && (forall i :: 0 <= i < |w.troopers| ==> TrooperFits(w.troopers[i]))
    && Int32(|w.bonuses|) && (forall i :: 0 <= i < |w.bonuses| ==> BonusFits(w.bonuses[i]))
  }

  predicate TablesFit(w: WireWorld) {
    CellsFit(w.cells) && VisibilitiesFit(w.width, w.height, w.cellVisibilities)
  }

  ghost predicate WorldFits(w: WireWorld) {
    Int32(w.moveIndex) && Int32(w.width) && Int32(w.height) && ListsFit(w) && TablesFit(w)
  }

  ghost function PutPlayers(little: bool, players: seq<Player>, tail: bytes): bytes
    requires Int32(|players|) && forall i :: 0 <= i < |players| ==> PlayerFits(players[i])
  {
    PutList(little, players, (x: Player, t: bytes) requires PlayerFits(x) => PutPlayer(little, x, t), tail)
  }

  lemma PlayersRoundTrip(little: bool, players: seq<Player>, tail: bytes)
    requires Int32(|players|) && forall i :: 0 <= i < |players| ==> PlayerFits(players[i])
    ensures ParsePlayers(little, PutPlayers(little, players, tail)) == Ok(players, tail)
  {
    hide ParsePlayer, PutPlayer, PlayerFits, ParseList, PutList;
    var put := (x: Player, t: bytes) requires PlayerFits(x) => PutPlayer(little, x, t);
    assert Inverse(players, put, t => ParsePlayer(little, t));
    ListRoundTrip(little, EXIT_PLAYER_COUNT, players, put, t => ParsePlayer(little, t), tail);
  }

  ghost function PutTroopers(little: bool, troopers: seq<WireTrooper>, tail: bytes): bytes
    requires Int32(|troopers|) && forall i :: 0 <= i < |troopers| ==> TrooperFits(troopers[i])
  {
    PutList(little, troopers, (x: WireTrooper, t: bytes) requires TrooperFits(x) => PutTrooper(little, x, t), tail)
  }

  lemma TroopersRoundTrip(little: bool, troopers: seq<WireTrooper>, tail: bytes)
    requires Int32(|troopers|) && forall i :: 0 <= i < |troopers| ==> TrooperFits(troopers[i])
    ensures ParseTroopers(little, PutTroopers(little, troopers, tail)) == Ok(troopers, tail)
  {
    hide ParseTrooper, PutTrooper, TrooperFits, ParseList, PutList;
    var put := (x: WireTrooper, t: bytes) requires TrooperFits(x) => PutTrooper(little, x, t);
    assert Inverse(troopers, put, t => ParseTrooper(little, t));
    ListRoundTrip(little, EXIT_TROOPER_COUNT, troopers, put, t => ParseTrooper(little, t), tail);
  }

  ghost function PutBonuses(little: bool, bonuses: seq<Bonus>, tail: bytes): bytes
    requires Int32(|bonuses|) && forall i :: 0 <= i < |bonuses| ==> BonusFits(bonuses[i])
  {
    PutList(little, bonuses, (x: Bonus, t: bytes) requires BonusFits(x) => PutBonus(little, x, t), tail)
  }

  lemma BonusesRoundTrip(little: bool, bonuses: seq<Bonus>, tail: bytes)
    requires Int32(|bonuses|) && forall i :: 0 <= i < |bonuses| ==> BonusFits(bonuses[i])
    ensures ParseBonuses(little, PutBonuses(little, bonuses, tail)) == Ok(bonuses, tail)
  {
    hide ParseBonus, PutBonus, BonusFits, ParseList, PutList;
    var put := (x: Bonus, t: bytes) requires BonusFits(x) => PutBonus(little, x, t);
    assert Inverse(bonuses, put, t => ParseBonus(little, t));
    ListRoundTrip(little, EXIT_BONUS_COUNT, bonuses, put, t => ParseBonus(little, t), tail);
  }

  ghost function PutLists(little: bool, w: WireWorld, tail: bytes): bytes
    requires ListsFit(w)
  {
    PutPlayers(little, w.players, PutTroopers(little, w.troopers, PutBonuses(little, w.bonuses, tail)))
  }

  function PutTables(little: bool, w: WireWorld, tail: bytes): bytes
    requires TablesFit(w)
  {
    PutCells(little, w.cells, PutVisibilities(little, w.width, w.height, w.cellVisibilities, tail))
  }

  /** A reference server's world message: only the first one carries the two tables. */
  ghost function PutWorld(little: bool, first: bool, w: WireWorld, tail: bytes): bytes
    requires WorldFits(w)
  {
    var lists := PutLists(little, w, if first then PutTables(little, w, tail) else tail);
    PutBool(true, PutInt(little, w.moveIndex, PutInt(little, w.width, PutInt(little, w.height, lists))))
  }

  /** Reading a world message takes exactly its bytes: with an empty cache when the tables are
      sent along, with the same tables in the cache when they are not. */
  lemma WorldRoundTrip(little: bool, first: bool, w: WireWorld, tail: bytes)
    requires WorldFits(w)
    ensures ParseWorld(little, if first then EMPTY_CACHE else CacheOf(w), PutWorld(little, first, w, tail))
            == Ok(w, tail)
  {
    hide ParseBool, ParseInt, ParsePlayers, ParseTroopers, ParseBonuses, ParseCells, ParseVisibilities;
    hide PutBool, PutInt, PutPlayers, PutTroopers, PutBonuses, PutCells, PutVisibilities;
    hide PlayerFits, TrooperFits, BonusFits;
    var tables := if first then PutTables(little, w, tail) else tail;
    CellsRoundTrip(little, w.cells, PutVisibilities(little, w.width, w.height, w.cellVisibilities, tail));
    var bonuses := PutBonuses(little, w.bonuses, tables);
    var troopers := PutTroopers(little, w.troopers, bonuses);
    BonusesRoundTrip(little, w.bonuses, tables);
    TroopersRoundTrip(little, w.troopers, bonuses);
    PlayersRoundTrip(little, w.players, troopers);
  }

  // ---- A whole game, as the client reads it ----

  datatype Context = Context(trooper: WireTrooper, world: WireWorld)

  /** None: the game is over, or the server sends no context. */
  function ParseContext(little: bool, cache: Cache, s: bytes): Parsed<Option<Context>> {
    var (messageType, s) :- ParseEnum(s);
    if messageType == GAME_OVER then Ok(None, s)
    else if messageType != PLAYER_CONTEXT then Exit(EXIT_MESSAGE_TYPE)
    else
      var (present, s) :- ParseBool(s);
      if !present then Ok(None, s) else
        var (trooper, s) :- ParseTrooper(little, s);
        var (world, s) :- ParseWorld(little, cache, s);
        Ok(Some(Context(trooper, world)), s)
  }

  /** `count` reads, each with the cache the reads before it have left. */
  function ParseContexts(little: bool, cache: Cache, count: nat, s: bytes): Parsed<(seq<Option<Context>>, Cache)>
    decreases count
  {
    hide ParseContext;
    if count == 0 then Ok(([], cache), s) else
      var (context, s) :- ParseContext(little, cache, s);
      var next := if context.Some? then CacheOf(context.value.world) else cache;
      var (others, s) :- ParseContexts(little, next, count - 1, s);
      Ok(([context] + others.0, others.1), s)
  }

  ghost predicate ContextFits(c: Context) {
    TrooperFits(c.trooper) && WorldFits(c.world)
  }

  ghost predicate OnMap(c: Context, cells: seq<seq<int>>, visibilities: seq<bool>) {
    && c.world.cells == cells && c.world.cellVisibilities == visibilities
  }

  /** A game on one map: every context can be encoded and has the same two tables. */
  ghost predicate AllOnMap(contexts: seq<Context>, cells: seq<seq<int>>, visibilities: seq<bool>) {
    forall i :: 0 <= i < |contexts| ==> ContextFits(contexts[i]) && OnMap(contexts[i], cells, visibilities)
  }

  ghost function PutContext(little: bool, first: bool, c: Context, tail: bytes): bytes
    requires ContextFits(c)
  {
    PutEnum(PLAYER_CONTEXT, PutBool(true, PutTrooper(little, c.trooper, PutWorld(little, first, c.world, tail))))
  }

  /** The server's side of a game on one map: all its contexts, then the end of the game. */
  ghost function PutGame(little: bool, first: bool, contexts: seq<Context>, tail: bytes): bytes
    requires forall i :: 0 <= i < |contexts| ==> ContextFits(contexts[i])
  {
    if contexts == [] then PutEnum(GAME_OVER, tail)
    else PutContext(little, first, contexts[0], PutGame(little, false, contexts[1..], tail))
  }

  lemma ContextRoundTrip(little: bool, first: bool, c: Context, tail: bytes)
    requires ContextFits(c)
    ensures ParseContext(little, if first then EMPTY_CACHE else CacheOf(c.world), PutContext(little, first, c, tail))
            == Ok(Some(c), tail)
  {
    hide ParseBool, ParseEnum, ParseTrooper, ParseWorld, PutBool, PutEnum, PutTrooper, PutWorld;
    WorldRoundTrip(little, first, c.world, tail);
  }

  /** What the next read gets of what the server has still to send. */
  lemma NextContext(little: bool, first: bool, left: seq<Context>,
                    cells: seq<seq<int>>, visibilities: seq<bool>, tail: bytes)
    requires AllOnMap(left, cells, visibilities)
    ensures ParseContext(little, if first then EMPTY_CACHE else Cache(Some(cells), Some(visibilities)),
                         PutGame(little, first, left, tail))
            == if left == [] then Ok(None, tail) else Ok(Some(left[0]), PutGame(little, false, left[1..], tail))
  {
    hide PutContext, TrooperFits, WorldFits, ParseTrooper, ParseWorld;
    if left != [] {
      ContextRoundTrip(little, first, left[0], PutGame(little, false, left[1..], tail));
    }
  }

  ghost function Sent(contexts: seq<Context>): (r: seq<Option<Context>>)
    ensures |r| == |contexts| + 1
    ensures forall i :: 0 <= i < |contexts| ==> r[i] == Some(contexts[i])
    ensures r[|contexts|] == None
  {
    seq(|contexts|, i requires 0 <= i < |contexts| => Some(contexts[i])) + [None]
  }

  /** For every game on one map, the client's reads return its contexts in order, then the end;
      they take exactly the bytes sent, and every world they return has the tables that only the
      first message carried. */
  lemma {:induction false} GameRoundTrip(little: bool, first: bool, contexts: seq<Context>, tail: bytes,
                                         cells: seq<seq<int>>, visibilities: seq<bool>)
    requires AllOnMap(contexts, cells, visibilities)
    ensures var cache := if first then EMPTY_CACHE else Cache(Some(cells), Some(visibilities));
            var end := if contexts == [] then cache else Cache(Some(cells), Some(visibilities));
            ParseContexts(little, cache, |contexts| + 1, PutGame(little, first, contexts, tail))
            == Ok((Sent(contexts), end), tail)
    decreases |contexts|
  {
    hide ParseContext, PutContext, TrooperFits, WorldFits, PutEnum, ParseEnum;
    if contexts == [] {
      assert Sent(contexts) == [None];
      GameOverEnds(little, if first then EMPTY_CACHE else Cache(Some(cells), Some(visibilities)), tail);
    } else {
      var rest := PutGame(little, false, contexts[1..], tail);
      ContextRoundTrip(little, first, contexts[0], rest);
      GameRoundTrip(little, false, contexts[1..], tail, cells, visibilities);
      assert [Some(contexts[0])] + Sent(contexts[1..]) == Sent(contexts);
    }
  }

  lemma GameOverEnds(little: bool, cache: Cache, tail: bytes)
    ensures ParseContexts(little, cache, 1, PutEnum(GAME_OVER, tail)) == Ok(([None], cache), tail)
  {
    assert ParseContext(little, cache, PutEnum(GAME_OVER, tail)) == Ok(None, tail);
    assert ParseContexts(little, cache, 0, tail) == Ok(([], cache), tail);
    var over: seq<Option<Context>> := [None];
    assert over + [] == over;
  }

  // ---- Messages to the server ----

  datatype Message = Token(text: bytes) | ProtocolVersion | MoveMade(move: Move)

  const VERSION := 2

  predicate MessageFits(m: Message) {
    match m
    case Token(text) => Int32(|text|)
    case ProtocolVersion => true
    case MoveMade(move) => Int8(move.action) && Int8(move.direction) && Int32(move.x) && Int32(move.y)
  }

  /** What the client appends to the stream for a message. */
  function Written(little: bool, m: Message, tail: bytes): bytes
    requires MessageFits(m)
  {
    match m
    case Token(text) => PutEnum(AUTHENTICATION_TOKEN, PutString(little, text, tail))
    case ProtocolVersion => PutEnum(PROTOCOL_VERSION, PutInt(little, VERSION, tail))
    case MoveMade(move) =>
      PutEnum(MOVE_MESSAGE, PutBool(true,
        PutEnum(move.action, PutEnum(move.direction, PutInt(little, move.x, PutInt(little, move.y, tail))))))
  }

  /** A reference server's decoder. */
  function ParseMessage(little: bool, s: bytes): Parsed<Message> {
    var (messageType, s) :- ParseEnum(s);
    if messageType == AUTHENTICATION_TOKEN then
      var (text, s) :- ParseString(little, s);
      Ok(Token(text), s)
    else if messageType == PROTOCOL_VERSION then
      var (version, s) :- ParseInt(little, s);
      if version == VERSION then Ok(ProtocolVersion, s) else Exit(EXIT_MESSAGE_TYPE)
    else if messageType == MOVE_MESSAGE then
      var (present, s) :- ParseBool(s);
      var (action, s) :- ParseEnum(s);
      var (direction, s) :- ParseEnum(s);
      var (x, s) :- ParseInt(little, s);
      var (y, s) :- ParseInt(little, s);
      Ok(MoveMade(Move(action, direction, x, y)), s)
    else Exit(EXIT_MESSAGE_TYPE)
  }

  lemma MessageRoundTrip(little: bool, m: Message, tail: bytes)
    requires MessageFits(m)
    ensures ParseMessage(little, Written(little, m, tail)) == Ok(m, tail)
  {
    hide ParseBool, ParseEnum, ParseInt, ParseString, PutBool, PutEnum, PutInt, PutString;
  }

  lemma PutEnumFront(v: int, tail: bytes)
    requires Int8(v)
    ensures PutEnum(v, tail) == PutEnum(v, []) + tail
  {
  }

  lemma PutBoolFront(v: bool, tail: bytes)
    ensures PutBool(v, tail) == PutBool(v, []) + tail
  {
  }

  lemma PutIntFront(little: bool, v: int, tail: bytes)
    requires Int32(v)
    ensures PutInt(little, v, tail) == PutInt(little, v, []) + tail
  {
    IntSizes();
  }

  lemma PutStringFront(little: bool, v: bytes, tail: bytes)
    requires Int32(|v|)
    ensures PutString(little, v, tail) == PutString(little, v, []) + tail
  {
    hide PutInt;
    var head := PutInt(little, |v|, []);
    PutIntFront(little, |v|, v + tail);
    PutIntFront(little, |v|, v + []);
    assert v + [] == v;
    assert head + (v + tail) == (head + v) + tail;
  }

  lemma PutPointFront(little: bool, x: int, y: int, tail: bytes)
    requires Int32(x) && Int32(y)
    ensures PutInt(little, x, PutInt(little, y, tail)) == PutInt(little, x, PutInt(little, y, [])) + tail
  {
    hide PutInt;
    PutIntFront(little, y, tail);
    PutIntFront(little, x, PutInt(little, y, tail));
    PutIntFront(little, x, PutInt(little, y, []));
  }

  /** Messages are self-delimiting: what follows one does not affect how it is written. */
  lemma WrittenFront(little: bool, m: Message, tail: bytes)
    requires MessageFits(m)
    ensures Written(little, m, tail) == Written(little, m, []) + tail
  {
    hide PutEnum, PutBool, PutInt, PutString;
    match m
    case Token(text) =>
      PutStringFront(little, text, tail);
      PutEnumFront(AUTHENTICATION_TOKEN, PutString(little, text, tail));
      PutEnumFront(AUTHENTICATION_TOKEN, PutString(little, text, []));
    case ProtocolVersion =>
      PutIntFront(little, VERSION, tail);
      PutEnumFront(PROTOCOL_VERSION, PutInt(little, VERSION, tail));
      PutEnumFront(PROTOCOL_VERSION, PutInt(little, VERSION, []));
    case MoveMade(move) =>
      PutPointFront(little, move.x, move.y, tail);
      var short := PutInt(little, move.x, PutInt(little, move.y, []));
      var long := PutInt(little, move.x, PutInt(little, move.y, tail));
      HeadFront(move, short, long, tail);
  }

  lemma HeadFront(move: Move, short: bytes, long: bytes, tail: bytes)
    requires Int8(move.action) && Int8(move.direction) && long == short + tail
    ensures PutEnum(MOVE_MESSAGE, PutBool(true, PutEnum(move.action, PutEnum(move.direction, long))))
            == PutEnum(MOVE_MESSAGE, PutBool(true, PutEnum(move.action, PutEnum(move.direction, short)))) + tail
  {
  }

  /** What a session of the client appends to the stream. */
  function WrittenAll(little: bool, messages: seq<Message>): bytes
    requires forall i :: 0 <= i < |messages| ==> MessageFits(messages[i])
  {
    if messages == [] then [] else Written(little, messages[0], []) + WrittenAll(little, messages[1..])
  }

  lemma {:induction false} WrittenOneMore(little: bool, messages: seq<Message>, m: Message)
    requires forall i :: 0 <= i < |messages| ==> MessageFits(messages[i])
    requires MessageFits(m)
    ensures WrittenAll(little, messages + [m]) == WrittenAll(little, messages) + Written(little, m, [])
  {
    hide Written, MessageFits;
    if messages == [] {
      assert messages + [m] == [m];
      assert [m][1..] == [];
      assert WrittenAll(little, [m][1..]) == [];
    } else {
      assert (messages + [m])[1..] == messages[1..] + [m];
      WrittenOneMore(little, messages[1..], m);
    }
  }

  lemma {:induction false} WrittenPrefix(little: bool, messages: seq<Message>, k: nat)
    requires k <= |messages| && forall i :: 0 <= i < |messages| ==> MessageFits(messages[i])
    ensures WrittenAll(little, messages) ==
            WrittenAll(little, messages[..k]) + WrittenAll(little, messages[k..])
    decreases k
  {
    hide Written, MessageFits;
    if k == 0 {
      assert messages[0..] == messages && messages[..0] == [];
    } else {
      WrittenPrefix(little, messages[1..], k - 1);
      assert messages[..k][1..] == messages[1..][..k - 1] && messages[1..][k - 1..] == messages[k..];
    }
  }

  /** The reference server reads messages until the stream is used up. */
  function ParseMessages(little: bool, s: bytes): Parsed<seq<Message>>
    decreases |s|
  {
    if s == [] then Ok([], []) else
      MessageTakesBytes(little, s);
      var (m, rest) :- ParseMessage(little, s);
      var (others, rest) :- ParseMessages(little, rest);
      Ok([m] + others, rest)
  }

  lemma MessageTakesBytes(little: bool, s: bytes)
    ensures ParseMessage(little, s).Ok? ==> |ParseMessage(little, s).rest| < |s|
  {
  }

  /** Whatever the client writes in a session, the server recovers it, message by message. */
  lemma {:induction false} SessionRoundTrip(little: bool, messages: seq<Message>)
    requires forall i :: 0 <= i < |messages| ==> MessageFits(messages[i])
    ensures ParseMessages(little, WrittenAll(little, messages)) == Ok(messages, [])
    decreases |messages|
  {
    hide Written, ParseMessage, MessageFits;
    if messages != [] {
      var s := WrittenAll(little, messages[1..]);
      WrittenFront(little, messages[0], s);
      MessageRoundTrip(little, messages[0], s);
      NothingParsed(little);
      SessionRoundTrip(little, messages[1..]);
      assert [messages[0]] + messages[1..] == messages;
    }
  }

  /** So different sessions never look the same on the wire. */
  lemma UniquelyDecodable(little: bool, ms: seq<Message>, ns: seq<Message>)
    requires forall i :: 0 <= i < |ms| ==> MessageFits(ms[i])
    requires forall i :: 0 <= i < |ns| ==> MessageFits(ns[i])
    requires WrittenAll(little, ms) == WrittenAll(little, ns)
    ensures ms == ns
  {
    hide ParseMessages, WrittenAll;
    SessionRoundTrip(little, ms);
    SessionRoundTrip(little, ns);
  }

  lemma NothingParsed(little: bool)
    ensures ParseMessage(little, []).Exit?
  {
  }

  /** Every move message is twelve bytes long. */
  lemma MoveLength(little: bool, move: Move, tail: bytes)
    requires MessageFits(MoveMade(move))
    ensures |Written(little, MoveMade(move), tail)| == 12 + |tail|
  {
  }
}
