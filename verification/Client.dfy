/** The client's side of the connection: buffers filled by partial receives, messages sent in
    partial sends, and the two tables that are read once and kept. */
module Client {
  import opened Wire
  import opened Model
  import opened Visibility
  import opened Codec

  /** `Exited` models a call of exit(code). */
  datatype Outcome<+T> = Done(value: T) | Exited(code: int) {
    predicate IsFailure() {
      Exited?
    }

    function PropagateFailure<U>(): Outcome<U>
      requires Exited?
    {
      Exited(code)
    }

    function Extract(): T
      requires Done?
    {
      value
    }
  }

  /** The operating system's socket. `incoming` is what the peer will deliver before the
      connection ends, `room` how many bytes it will still take. How much one call moves is
      arbitrary. */
  class Socket {
    var incoming: bytes
    var sent: bytes
    var room: nat

    constructor (incoming: bytes, room: nat)
      ensures this.incoming == incoming && this.sent == [] && this.room == room
    {
      this.incoming, this.sent, this.room := incoming, [], room;
    }

    /** No data means an error or the end of the connection. */
    method Receive(max: nat) returns (data: bytes)
      modifies this`incoming
      ensures |data| <= max && data + incoming == old(incoming)
      ensures data == [] <==> max == 0 || old(incoming) == []
    {
      if max == 0 || incoming == [] {
        return [];
      }
      var count: nat :| 1 <= count <= max && count <= |incoming|;
      data := incoming[..count];
      incoming := incoming[count..];
    }

    method Send(data: bytes) returns (count: nat)
      modifies this`sent, this`room
      ensures count <= |data| && sent == old(sent) + data[..count]
      ensures count <= old(room) && room == old(room) - count
      ensures count == 0 <==> data == [] || old(room) == 0
    {
      if data == [] || room == 0 {
        count := 0;
      } else {
        count :| 1 <= count <= |data| && count <= room;
        sent := sent + data[..count];
        room := room - count;
      }
    }
  }

  /** A reader does what its parser says: same value and same bytes left over, or same exit. */
  predicate Agrees<T(==)>(p: Parsed<T>, r: Outcome<T>, rest: bytes) {
    match p
    case Ok(value, tail) => r == Done(value) && rest == tail
    case Exit(code) => r == Exited(code)
  }

  /** The part of a message that gets through when the peer takes `room` more bytes. */
  function Clip(message: bytes, room: nat): bytes {
    if |message| <= room then message else message[..room]
  }

  /** `message` went out after `sent0`, as far as the peer had room for it; exit if it had not. */
  predicate Wrote(sent0: bytes, room0: nat, message: bytes, sent: bytes, room: nat, r: Outcome<()>) {
    && sent == sent0 + Clip(message, room0)
    && room == room0 - |Clip(message, room0)|
    && r == if |message| <= room0 then Done(()) else Exited(EXIT_WRITE)
  }

  lemma WroteWhole(sent0: bytes, room0: nat, message: bytes, sent: bytes, room: nat, r: Outcome<()>)
    requires Wrote(sent0, room0, message, sent, room, r) && |message| <= room0
    ensures r.Done? && sent == sent0 + message && room == room0 - |message|
  {
  }

  /** A message the peer has no room for is cut off where the room ends, and the client exits. */
  lemma WroteCut(sent0: bytes, room0: nat, message: bytes, sent: bytes, room: nat, r: Outcome<()>)
    requires Wrote(sent0, room0, message, sent, room, r) && |message| > room0
    ensures r == Exited(10013) && sent == sent0 + message[..room0] && room == 0
  {
  }

  /** Two messages in a row make one: after the first has gone out whole, whatever happens to
      the second happens to both; if the first was cut off, so are both. */
  lemma WroteFirst(sent0: bytes, room0: nat, first: bytes, rest: bytes, sent1: bytes, room1: nat, r1: Outcome<()>)
    requires Wrote(sent0, room0, first, sent1, room1, r1)
    ensures r1.Exited? ==> Wrote(sent0, room0, first + rest, sent1, room1, r1)
    ensures r1.Done? ==> forall sent2, room2, r2 :: Wrote(sent1, room1, rest, sent2, room2, r2) ==>
                                                    Wrote(sent0, room0, first + rest, sent2, room2, r2)
  {
    if r1.Exited? {
      assert (first + rest)[..room0] == first[..room0];
    } else if room0 < |first + rest| {
      assert (first + rest)[..room0] == first + rest[..room0 - |first|];
    }
    forall sent2, room2, r2 | r1.Done? && Wrote(sent1, room1, rest, sent2, room2, r2)
      ensures Wrote(sent0, room0, first + rest, sent2, room2, r2)
    {
      assert Clip(first + rest, room0) == first + Clip(rest, room1);
      assert sent0 + (first + Clip(rest, room1)) == (sent0 + first) + Clip(rest, room1);
    }
  }

  lemma WroteNothing(sent: bytes, room: nat)
    ensures Wrote(sent, room, [], sent, room, Done(()))
  {
    assert sent + [] == sent;
  }

  class RemoteProcessClient {
    const socket: Socket
    const little: bool
    var cells: Option<seq<seq<int>>>
    var cellVisibilities: Option<seq<bool>>

    constructor (socket: Socket, little: bool)
      ensures this.socket == socket && this.little == little && Tables() == EMPTY_CACHE
    {
      this.socket, this.little := socket, little;
      cells, cellVisibilities := None, None;
    }

    function Tables(): Cache
      reads this`cells, this`cellVisibilities
    {
      Cache(cells, cellVisibilities)
    }

    /** Whatever the sizes of the partial receives: the next `byteCount` bytes of the stream,
        or exit if it ends before. */
    method ReadBytes(byteCount: nat) returns (r: Outcome<bytes>)
      modifies socket`incoming
      ensures Agrees(Take(byteCount, old(socket.incoming)), r, socket.incoming)
    {
      var buffer := new byte[byteCount];
      var offset: nat := 0;
      var receiving := true;
      while offset < byteCount && receiving
        invariant offset <= byteCount
        invariant buffer[..offset] + socket.incoming == old(socket.incoming)
        invariant !receiving ==> socket.incoming == []
        decreases byteCount - offset, receiving
      {
        var data := socket.Receive(byteCount - offset);
        if data == [] {
          receiving := false;
        } else {
          ghost var before := buffer[..offset];
          forall k | 0 <= k < |data| {
            buffer[offset + k] := data[k];
          }
          assert buffer[..offset] == before;
          assert buffer[..offset + |data|] == before + data;
          offset := offset + |data|;
        }
      }
      if offset != byteCount {
        return Exited(EXIT_READ);
      }
      assert buffer[..offset] == buffer[..];
      return Done(buffer[..]);
    }

    /** Whatever the sizes of the partial sends: the whole argument, or as much of it as the
        peer takes and then exit. */
    method WriteBytes(data: bytes) returns (r: Outcome<()>)
      modifies socket`sent, socket`room
      ensures Wrote(old(socket.sent), old(socket.room), data, socket.sent, socket.room, r)
    {
      var offset: nat := 0;
      var sending := true;
      while offset < |data| && sending
        invariant offset <= |data|
        invariant socket.sent == old(socket.sent) + data[..offset]
        invariant offset <= old(socket.room) && socket.room == old(socket.room) - offset
        invariant !sending ==> socket.room == 0 && offset < |data|
        decreases |data| - offset, sending
      {
        var count := socket.Send(data[offset..]);
        if count == 0 {
          sending := false;
        } else {
          assert data[..offset + count] == data[..offset] + data[offset..][..count];
          offset := offset + count;
        }
      }
      if offset != |data| {
        return Exited(EXIT_WRITE);
      }
      return Done(());
    }

    // ---- Readers ----

    method ReadEnum() returns (r: Outcome<int>)
      modifies socket`incoming
      ensures Agrees(ParseEnum(old(socket.incoming)), r, socket.incoming)
    {
      var b :- ReadBytes(1);
      var v: int := b[0];
      return Done(if v < 128 then v else v - 256);
    }

    method ReadBoolean() returns (r: Outcome<bool>)
      modifies socket`incoming
      ensures Agrees(ParseBool(old(socket.incoming)), r, socket.incoming)
    {
      var b :- ReadBytes(1);
      return Done(b[0] != 0);
    }

    method ReadInt() returns (r: Outcome<int>)
      modifies socket`incoming
      ensures Agrees(ParseInt(little, old(socket.incoming)), r, socket.incoming)
      ensures r.Done? ==> Int32(r.value)
    {
      IntSizes();
      var b :- ReadBytes(4);
      return Done(FromMemory(little, Adjust(little, b)));
    }

    method ReadLong() returns (r: Outcome<int>)
      modifies socket`incoming
      ensures Agrees(ParseLong(little, old(socket.incoming)), r, socket.incoming)
    {
      var b :- ReadBytes(8);
      return Done(FromMemory(little, Adjust(little, b)));
    }

    method ReadString() returns (r: Outcome<bytes>)
      modifies socket`incoming
      ensures Agrees(ParseString(little, old(socket.incoming)), r, socket.incoming)
    {
      var length :- ReadInt();
      if length == -1 {
        return Exited(EXIT_STRING);
      }
      var b :- ReadBytes(ByteCount(length));
      if length < 0 {
        return Exited(UNCAUGHT);
      }
      return Done(b);
    }

    method ReadIdentity() returns (r: Outcome<Identity>)
      modifies socket`incoming
      ensures Agrees(ParseIdentity(little, old(socket.incoming)), r, socket.incoming)
    {
      hide ParseBool, ParseInt, ParseLong, ParseEnum;
      var id :- ReadLong();
      var x :- ReadInt();
      var y :- ReadInt();
      var playerId :- ReadLong();
      var teammateIndex :- ReadInt();
      var teammate :- ReadBoolean();
      var kind :- ReadEnum();
      var stance :- ReadEnum();
      return Done(Identity(id, x, y, playerId, teammateIndex, teammate, kind, stance));
    }

    method ReadCondition() returns (r: Outcome<Condition>)
      modifies socket`incoming
      ensures Agrees(ParseCondition(little, old(socket.incoming)), r, socket.incoming)
    {
      hide ParseInt, ParseLong;
      var hitpoints :- ReadInt();
      var maximalHitpoints :- ReadInt();
      var actionPoints :- ReadInt();
      var initialActionPoints :- ReadInt();
      var visionRange :- ReadLong();
      var shootingRange :- ReadLong();
      var shootCost :- ReadInt();
      return Done(Condition(hitpoints, maximalHitpoints, actionPoints, initialActionPoints,
                            visionRange, shootingRange, shootCost));
    }

    method ReadArms() returns (r: Outcome<Arms>)
      modifies socket`incoming
      ensures Agrees(ParseArms(little, old(socket.incoming)), r, socket.incoming)
    {
      hide ParseBool, ParseInt;
      var standingDamage :- ReadInt();
      var kneelingDamage :- ReadInt();
      var proneDamage :- ReadInt();
      var damage :- ReadInt();
      var holdingGrenade :- ReadBoolean();
      var holdingMedikit :- ReadBoolean();
      var holdingFieldRation :- ReadBoolean();
      return Done(Arms(standingDamage, kneelingDamage, proneDamage, damage,
                       holdingGrenade, holdingMedikit, holdingFieldRation));
    }

    method ReadTrooper() returns (r: Outcome<WireTrooper>)
      modifies socket`incoming
      ensures Agrees(ParseTrooper(little, old(socket.incoming)), r, socket.incoming)
    {
      hide ParseBool, ParseIdentity, ParseCondition, ParseArms;
      var present :- ReadBoolean();
      if !present {
        return Exited(EXIT_TROOPER);
      }
      var identity :- ReadIdentity();
      var condition :- ReadCondition();
      var arms :- ReadArms();
      return Done(TrooperOf(identity, condition, arms));
    }

    method ReadPlayer() returns (r: Outcome<Player>)
      modifies socket`incoming
      ensures Agrees(ParsePlayer(little, old(socket.incoming)), r, socket.incoming)
    {
      hide ParseBool, ParseInt, ParseLong, ParseString;
      var present :- ReadBoolean();
      if !present {
        return Exited(EXIT_PLAYER);
      }
      var id :- ReadLong();
      var name :- ReadString();
      var score :- ReadInt();
      var strategyCrashed :- ReadBoolean();
      var approximateX :- ReadInt();
      var approximateY :- ReadInt();
      return Done(Player(id, name, score, strategyCrashed, approximateX, approximateY));
    }

    method ReadBonus() returns (r: Outcome<Bonus>)
      modifies socket`incoming
      ensures Agrees(ParseBonus(little, old(socket.incoming)), r, socket.incoming)
    {
      hide ParseBool, ParseInt, ParseLong, ParseEnum;
      var present :- ReadBoolean();
      if !present {
        return Exited(EXIT_BONUS);
      }
      var id :- ReadLong();
      var x :- ReadInt();
      var y :- ReadInt();
      var kind :- ReadEnum();
      return Done(Bonus(id, x, y, kind));
    }

    method ReadPlayers() returns (r: Outcome<seq<Player>>)
      modifies socket`incoming
      ensures Agrees(ParsePlayers(little, old(socket.incoming)), r, socket.incoming)
    {
      hide ParseInt, ParsePlayer;
      var count :- ReadInt();
      if count < 0 {
        return Exited(EXIT_PLAYER_COUNT);
      }
      ghost var start := socket.incoming;
      ghost var item := t => ParsePlayer(little, t);
      var players := [];
      for i := 0 to count
        invariant ParseMany(i, item, start) == Ok(players, socket.incoming)
      {
        var player := ReadPlayer();
        StopsMany(i, count, item, start);
        if player.Exited? {
          return player.PropagateFailure();
        }
        players := players + [player.value];
      }
      return Done(players);
    }

    method ReadTroopers() returns (r: Outcome<seq<WireTrooper>>)
      modifies socket`incoming
      ensures Agrees(ParseTroopers(little, old(socket.incoming)), r, socket.incoming)
    {
      hide ParseInt, ParseTrooper;
      var count :- ReadInt();
      if count < 0 {
        return Exited(EXIT_TROOPER_COUNT);
      }
      ghost var start := socket.incoming;
      ghost var item := t => ParseTrooper(little, t);
      var troopers := [];
      for i := 0 to count
        invariant ParseMany(i, item, start) == Ok(troopers, socket.incoming)
      {
        var trooper := ReadTrooper();
        StopsMany(i, count, item, start);
        if trooper.Exited? {
          return trooper.PropagateFailure();
        }
        troopers := troopers + [trooper.value];
      }
      return Done(troopers);
    }

    method ReadBonuses() returns (r: Outcome<seq<Bonus>>)
      modifies socket`incoming
      ensures Agrees(ParseBonuses(little, old(socket.incoming)), r, socket.incoming)
    {
      hide ParseInt, ParseBonus;
      var count :- ReadInt();
      if count < 0 {
        return Exited(EXIT_BONUS_COUNT);
      }
      ghost var start := socket.incoming;
      ghost var item := t => ParseBonus(little, t);
      var bonuses := [];
      for i := 0 to count
        invariant ParseMany(i, item, start) == Ok(bonuses, socket.incoming)
      {
        var bonus := ReadBonus();
        StopsMany(i, count, item, start);
        if bonus.Exited? {
          return bonus.PropagateFailure();
        }
        bonuses := bonuses + [bonus.value];
      }
      return Done(bonuses);
    }

    // ---- The tables that are read once ----

    method ReadColumn() returns (r: Outcome<seq<int>>)
      modifies socket`incoming
      ensures Agrees(ParseColumn(little, old(socket.incoming)), r, socket.incoming)
    {
      hide ParseInt, ParseEnum;
      var height :- ReadInt();
      if height < 0 {
        return Exited(EXIT_HEIGHT);
      }
      ghost var start := socket.incoming;
      ghost var item := t => ParseEnum(t);
      var column := [];
      for y := 0 to height
        invariant ParseMany(y, item, start) == Ok(column, socket.incoming)
      {
        var cell := ReadEnum();
        StopsMany(y, height, item, start);
        if cell.Exited? {
          return cell.PropagateFailure();
        }
        column := column + [cell.value];
      }
      return Done(column);
    }

    method ReadCells() returns (r: Outcome<seq<seq<int>>>)
      modifies socket`incoming, this`cells
      ensures Agrees(ParseCachedCells(little, old(Tables()), old(socket.incoming)), r, socket.incoming)
      ensures r.Done? ==> cells == Some(r.value)
      ensures old(cells).Some? ==> r == Done(old(cells).value) && socket.incoming == old(socket.incoming)
    {
      hide ParseInt, ParseColumn;
      if cells.Some? {
        return Done(cells.value);
      }
      var width :- ReadInt();
      if width < 0 {
        return Exited(EXIT_WIDTH);
      }
      ghost var start := socket.incoming;
      ghost var item := t => ParseColumn(little, t);
      cells := Some([]);
      for x := 0 to width
        invariant cells.Some? && ParseMany(x, item, start) == Ok(cells.value, socket.incoming)
      {
        var column := ReadColumn();
        StopsMany(x, width, item, start);
        if column.Exited? {
          return column.PropagateFailure();
        }
        cells := Some(cells.value + [column.value]);
      }
      return Done(cells.value);
    }

    method ReadCellVisibilities() returns (r: Outcome<seq<bool>>)
      modifies socket`incoming, this`cellVisibilities
      ensures Agrees(ParseCachedVisibilities(little, old(Tables()), old(socket.incoming)), r, socket.incoming)
      ensures r.Done? ==> cellVisibilities == Some(r.value)
      ensures old(cellVisibilities).Some? ==>
        r == Done(old(cellVisibilities).value) && socket.incoming == old(socket.incoming)
    {
      hide ParseInt, Volume, ProductFits;
      if cellVisibilities.Some? {
        return Done(cellVisibilities.value);
      }
      var worldWidth :- ReadInt();
      if worldWidth < 0 {
        return Exited(EXIT_WORLD_WIDTH);
      }
      var worldHeight :- ReadInt();
      if worldHeight < 0 {
        return Exited(EXIT_WORLD_HEIGHT);
      }
      var stanceCount :- ReadInt();
      if stanceCount < 0 {
        return Exited(EXIT_STANCE_COUNT);
      }
      if !ProductFits(worldWidth, worldHeight, stanceCount) {
        return Exited(OVERFLOW);
      }
      var count := Volume(worldWidth, worldHeight, stanceCount);
      var raw :- ReadBytes(count);
      var flags := new bool[count];
      ghost var rest := socket.incoming;
      for i := 0 to count
        invariant socket.incoming == rest
        invariant forall k :: 0 <= k < i ==> flags[k] == (raw[k] != 0)
      {
        flags[i] := raw[i] != 0;
      }
      var table := flags[..];
      assert table == Flags(raw);
      cellVisibilities := Some(table);
      return Done(table);
    }

    method ReadWorld() returns (r: Outcome<WireWorld>)
      modifies socket`incoming, this`cells, this`cellVisibilities
      ensures Agrees(ParseWorld(little, old(Tables()), old(socket.incoming)), r, socket.incoming)
      ensures r.Done? ==> Tables() == CacheOf(r.value)
    {
      hide ParseBool, ParseInt, ParsePlayers, ParseTroopers, ParseBonuses, ParseCells, ParseVisibilities;
      var present :- ReadBoolean();
      if !present {
        return Exited(EXIT_WORLD);
      }
      var moveIndex :- ReadInt();
      var width :- ReadInt();
      var height :- ReadInt();
      var players :- ReadPlayers();
      var troopers :- ReadTroopers();
      var bonuses :- ReadBonuses();
      var theCells :- ReadCells();
      var visibilities :- ReadCellVisibilities();
      return Done(World(moveIndex, width, height, players, troopers, bonuses, theCells, visibilities));
    }

    /** None stands for the null result that ends the client's loop. */
    method ReadPlayerContext() returns (r: Outcome<Option<Context>>)
      modifies socket`incoming, this`cells, this`cellVisibilities
      ensures Agrees(ParseContext(little, old(Tables()), old(socket.incoming)), r, socket.incoming)
      ensures r.Done? ==> Tables() == if r.value.Some? then CacheOf(r.value.value.world) else old(Tables())
    {
      hide ParseBool, ParseEnum, ParseTrooper, ParseWorld;
      var messageType :- ReadEnum();
      if messageType == GAME_OVER {
        return Done(None);
      }
      if messageType != PLAYER_CONTEXT {
        return Exited(EXIT_MESSAGE_TYPE);
      }
      var present :- ReadBoolean();
      if !present {
        return Done(None);
      }
      var trooper :- ReadTrooper();
      var world :- ReadWorld();
      return Done(Some(Context(trooper, world)));
    }

    /** The client's side of a game: contexts are read until there is none. Against a server that
        sends the tables with the first world only, no read exits and every context arrives as sent. */
    method ReadGame(ghost expected: seq<Context>, ghost cells: seq<seq<int>>, ghost visibilities: seq<bool>,
                    ghost tail: bytes) returns (contexts: seq<Context>)
      requires Tables() == EMPTY_CACHE
      requires AllOnMap(expected, cells, visibilities)
      requires socket.incoming == PutGame(little, true, expected, tail)
      modifies socket`incoming, this`cells, this`cellVisibilities
      ensures contexts == expected && socket.incoming == tail
    {
      hide ParseContext, PutContext, TrooperFits, WorldFits, PutEnum, ParseEnum;
      contexts := [];
      while true
        invariant |contexts| <= |expected| && contexts == expected[..|contexts|]
        invariant socket.incoming == PutGame(little, contexts == [], expected[|contexts|..], tail)
        invariant Tables() == if contexts == [] then EMPTY_CACHE else Cache(Some(cells), Some(visibilities))
        decreases |expected| - |contexts|
      {
        ghost var left := expected[|contexts|..];
        NextContext(little, contexts == [], left, cells, visibilities, tail);
        var context := ReadPlayerContext();
        if context.value.None? {
          assert expected[..|contexts|] == expected;
          return contexts;
        }
        assert expected[..|contexts| + 1] == expected[..|contexts|] + [expected[|contexts|]];
        contexts := contexts + [context.value.value];
      }
    }

    // ---- Writers ----

    method WriteEnum(value: int) returns (r: Outcome<()>)
      requires Int8(value)
      modifies socket`sent, socket`room
      ensures Wrote(old(socket.sent), old(socket.room), PutEnum(value, []), socket.sent, socket.room, r)
    {
      r := WriteBytes([if value < 0 then value + 256 else value]);
    }

    method WriteBoolean(value: bool) returns (r: Outcome<()>)
      modifies socket`sent, socket`room
      ensures Wrote(old(socket.sent), old(socket.room), PutBool(value, []), socket.sent, socket.room, r)
    {
      r := WriteBytes([if value then 1 else 0]);
    }

    method WriteInt(value: int) returns (r: Outcome<()>)
      requires Int32(value)
      modifies socket`sent, socket`room
      ensures Wrote(old(socket.sent), old(socket.room), PutInt(little, value, []), socket.sent, socket.room, r)
    {
      IntSizes();
      r := WriteBytes(Adjust(little, Memory(little, value, 4)));
    }

    method WriteLong(value: int) returns (r: Outcome<()>)
      requires Int64(value)
      modifies socket`sent, socket`room
      ensures Wrote(old(socket.sent), old(socket.room), PutLong(little, value, []), socket.sent, socket.room, r)
    {
      IntSizes();
      r := WriteBytes(Adjust(little, Memory(little, value, 8)));
    }

    method WriteString(value: bytes) returns (r: Outcome<()>)
      requires Int32(|value|)
      modifies socket`sent, socket`room
      ensures Wrote(old(socket.sent), old(socket.room), PutString(little, value, []), socket.sent, socket.room, r)
    {
      hide PutInt, Wrote;
      assert value + [] == value;
      ghost var s, room := socket.sent, socket.room;
      PutIntFront(little, |value|, value);
      r := WriteInt(|value|);
      WroteFirst(s, room, PutInt(little, |value|, []), value, socket.sent, socket.room, r);
      if r.Exited? {
        return;
      }
      s, room := socket.sent, socket.room;
      r := WriteBytes(value);
    }

    method WriteToken(token: bytes) returns (r: Outcome<()>)
      requires Int32(|token|)
      modifies socket`sent, socket`room
      ensures Wrote(old(socket.sent), old(socket.room), Written(little, Token(token), []), socket.sent, socket.room, r)
    {
      hide PutString, PutEnum, Wrote;
      ghost var text := PutString(little, token, []);
      ghost var s, room := socket.sent, socket.room;
      PutEnumFront(AUTHENTICATION_TOKEN, text);
      r := WriteEnum(AUTHENTICATION_TOKEN);
      WroteFirst(s, room, PutEnum(AUTHENTICATION_TOKEN, []), text, socket.sent, socket.room, r);
      if r.Exited? {
        return;
      }
      s, room := socket.sent, socket.room;
      r := WriteString(token);
    }

    method WriteProtocolVersion() returns (r: Outcome<()>)
      modifies socket`sent, socket`room
      ensures Wrote(old(socket.sent), old(socket.room), Written(little, ProtocolVersion, []),
                    socket.sent, socket.room, r)
    {
      hide PutInt, PutEnum, Wrote;
      ghost var version := PutInt(little, VERSION, []);
      ghost var s, room := socket.sent, socket.room;
      PutEnumFront(PROTOCOL_VERSION, version);
      r := WriteEnum(PROTOCOL_VERSION);
      WroteFirst(s, room, PutEnum(PROTOCOL_VERSION, []), version, socket.sent, socket.room, r);
      if r.Exited? {
        return;
      }
      s, room := socket.sent, socket.room;
      r := WriteInt(VERSION);
    }

    method WriteMove(move: Move) returns (r: Outcome<()>)
      requires MessageFits(MoveMade(move))
      modifies socket`sent, socket`room
      ensures Wrote(old(socket.sent), old(socket.room), Written(little, MoveMade(move), []),
                    socket.sent, socket.room, r)
    {
      hide PutBool, PutInt, PutEnum, Wrote;
      ghost var y := PutInt(little, move.y, []);
      ghost var x := PutInt(little, move.x, y);
      ghost var direction := PutEnum(move.direction, x);
      ghost var action := PutEnum(move.action, direction);
      ghost var present := PutBool(true, action);
      ghost var s, room := socket.sent, socket.room;
      PutEnumFront(MOVE_MESSAGE, present);
      r := WriteEnum(MOVE_MESSAGE);
      WroteFirst(s, room, PutEnum(MOVE_MESSAGE, []), present, socket.sent, socket.room, r);
      if r.Exited? {
        return;
      }
      s, room := socket.sent, socket.room;
      PutBoolFront(true, action);
      r := WriteBoolean(true);
      WroteFirst(s, room, PutBool(true, []), action, socket.sent, socket.room, r);
      if r.Exited? {
        return;
      }
      s, room := socket.sent, socket.room;
      PutEnumFront(move.action, direction);
      r := WriteEnum(move.action);
      WroteFirst(s, room, PutEnum(move.action, []), direction, socket.sent, socket.room, r);
      if r.Exited? {
        return;
      }
      s, room := socket.sent, socket.room;
      PutEnumFront(move.direction, x);
      r := WriteEnum(move.direction);
      WroteFirst(s, room, PutEnum(move.direction, []), x, socket.sent, socket.room, r);
      if r.Exited? {
        return;
      }
      s, room := socket.sent, socket.room;
      PutIntFront(little, move.x, y);
      r := WriteInt(move.x);
      WroteFirst(s, room, PutInt(little, move.x, []), y, socket.sent, socket.room, r);
      if r.Exited? {
        return;
      }
      s, room := socket.sent, socket.room;
      r := WriteInt(move.y);
    }

    method WriteMessage(m: Message) returns (r: Outcome<()>)
      requires MessageFits(m)
      modifies socket`sent, socket`room
      ensures Wrote(old(socket.sent), old(socket.room), Written(little, m, []), socket.sent, socket.room, r)
    {
      hide Written, Wrote;
      match m
      case Token(text) => r := WriteToken(text);
      case ProtocolVersion => r := WriteProtocolVersion();
      case MoveMade(move) => r := WriteMove(move);
    }

    /** The client's side of a session: its messages one after the other, until one is cut off. */
    method WriteSession(messages: seq<Message>) returns (r: Outcome<()>)
      requires forall i :: 0 <= i < |messages| ==> MessageFits(messages[i])
      modifies socket`sent, socket`room
      ensures Wrote(old(socket.sent), old(socket.room), WrittenAll(little, messages), socket.sent, socket.room, r)
    {
      hide Written, Wrote, MessageFits;
      WroteNothing(socket.sent, socket.room);
      r := Done(());
      for i := 0 to |messages|
        invariant r.Done?
        invariant Wrote(old(socket.sent), old(socket.room), WrittenAll(little, messages[..i]),
                        socket.sent, socket.room, r)
      {
        ghost var s, room := socket.sent, socket.room;
        var m := messages[i];
        assert messages[..i + 1] == messages[..i] + [m];
        WrittenOneMore(little, messages[..i], m);
        WroteFirst(old(socket.sent), old(socket.room), WrittenAll(little, messages[..i]), Written(little, m, []),
                   s, room, r);
        r := WriteMessage(m);
        if r.Exited? {
          WrittenPrefix(little, messages, i + 1);
          WroteFirst(old(socket.sent), old(socket.room), WrittenAll(little, messages[..i + 1]),
                     WrittenAll(little, messages[i + 1..]), socket.sent, socket.room, r);
          return;
        }
      }
      assert messages[..|messages|] == messages;
    }
  }

  /** Once an item cannot be read, no longer list can be. */
  lemma {:induction false} StopsMany<T>(i: nat, count: nat, item: bytes -> Parsed<T>, s: bytes)
    requires i < count
    ensures ParseMany(i, item, s).Ok? && item(ParseMany(i, item, s).rest).Exit? ==>
              ParseMany(count, item, s) == Exit(item(ParseMany(i, item, s).rest).code)
    decreases count
  {
    if i + 1 < count {
      StopsMany(i, count - 1, item, s);
    }
  }
}
