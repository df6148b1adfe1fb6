/** Where in a message each field is, by its offset in bytes, and which exit a bad message takes. */
module Layout {
  import opened Wire
  import opened Model
  import opened Visibility
  import opened Codec

  function IntAt(little: bool, s: bytes, at: nat): int
    requires at + 4 <= |s|
  {
    Decode(little, s[at..at + 4])
  }

  function LongAt(little: bool, s: bytes, at: nat): int
    requires at + 8 <= |s|
  {
    Decode(little, s[at..at + 8])
  }

  function SignedByteAt(s: bytes, at: nat): int
    requires at < |s|
  {
    var b: int := s[at];
    if b < 128 then b else b - 256
  }

  // ---- One field at an offset ----

  lemma ReadsInt(little: bool, s: bytes, at: nat)
    requires at <= |s|
    ensures ParseInt(little, s[at..]) ==
            if |s| < at + 4 then Exit(10012) else Ok(IntAt(little, s, at), s[at + 4..])
  {
    hide Decode;
    if at + 4 <= |s| {
      assert s[at..][..4] == s[at..at + 4] && s[at..][4..] == s[at + 4..];
    }
  }

  lemma ReadsLong(little: bool, s: bytes, at: nat)
    requires at <= |s|
    ensures ParseLong(little, s[at..]) ==
            if |s| < at + 8 then Exit(10012) else Ok(LongAt(little, s, at), s[at + 8..])
  {
    hide Decode;
    if at + 8 <= |s| {
      assert s[at..][..8] == s[at..at + 8] && s[at..][8..] == s[at + 8..];
    }
  }

  /** Every byte but 0 stands for true. */
  lemma ReadsBool(s: bytes, at: nat)
    requires at <= |s|
    ensures ParseBool(s[at..]) == if |s| == at then Exit(10012) else Ok(s[at] != 0, s[at + 1..])
  {
    if at < |s| {
      assert s[at..][1..] == s[at + 1..];
    }
  }

  lemma ReadsEnum(s: bytes, at: nat)
    requires at <= |s|
    ensures ParseEnum(s[at..]) == if |s| == at then Exit(10012) else Ok(SignedByteAt(s, at), s[at + 1..])
  {
    if at < |s| {
      assert s[at..][1..] == s[at + 1..];
    }
  }

  /** A length of -1 and any other negative length fail, each in its own way; a length that is not
      negative is followed by as many bytes. */
  lemma ReadsString(little: bool, s: bytes, at: nat)
    requires at + 4 <= |s|
    ensures var n := IntAt(little, s, at);
            var count := if n < 0 then n + 0x1_0000_0000 else n;
            ParseString(little, s[at..]) ==
            if n == -1 then Exit(10014)
            else if count < 0 || |s| < at + 4 + count then Exit(10012)
            else if n < 0 then Exit(UNCAUGHT)
            else Ok(s[at + 4..at + 4 + n], s[at + 4 + n..])
  {
    hide ParseInt, Decode;
    ReadsInt(little, s, at);
    assert ParseInt(little, s[at..]).Ok?;
    var n := IntAt(little, s, at);
    if 0 <= n && at + 4 + n <= |s| {
      assert s[at + 4..][..n] == s[at + 4..at + 4 + n] && s[at + 4..][n..] == s[at + 4 + n..];
    }
  }

  // ---- A trooper ----

  lemma IdentityAt(little: bool, s: bytes, at: nat)
    requires at <= |s|
    ensures ParseIdentity(little, s[at..]) ==
            if |s| < at + 31 then Exit(10012)
            else Ok(Identity(LongAt(little, s, at), IntAt(little, s, at + 8), IntAt(little, s, at + 12),
                             LongAt(little, s, at + 16), IntAt(little, s, at + 24), s[at + 28] != 0,
                             SignedByteAt(s, at + 29), SignedByteAt(s, at + 30)), s[at + 31..])
  {
    hide ParseLong, ParseInt, ParseBool, ParseEnum, IntAt, LongAt, SignedByteAt;
    ReadsLong(little, s, at);
    if at + 8 <= |s| { ReadsInt(little, s, at + 8); }
    if at + 12 <= |s| { ReadsInt(little, s, at + 12); }
    if at + 16 <= |s| { ReadsLong(little, s, at + 16); }
    if at + 24 <= |s| { ReadsInt(little, s, at + 24); }
    if at + 28 <= |s| { ReadsBool(s, at + 28); }
    if at + 29 <= |s| { ReadsEnum(s, at + 29); }
    if at + 30 <= |s| { ReadsEnum(s, at + 30); }
  }

  lemma ConditionAt(little: bool, s: bytes, at: nat)
    requires at <= |s|
    ensures ParseCondition(little, s[at..]) ==
            if |s| < at + 36 then Exit(10012)
            else Ok(Condition(IntAt(little, s, at), IntAt(little, s, at + 4), IntAt(little, s, at + 8),
                              IntAt(little, s, at + 12), LongAt(little, s, at + 16), LongAt(little, s, at + 24),
                              IntAt(little, s, at + 32)), s[at + 36..])
  {
    hide ParseLong, ParseInt, IntAt, LongAt;
    ReadsInt(little, s, at);
    if at + 4 <= |s| { ReadsInt(little, s, at + 4); }
    if at + 8 <= |s| { ReadsInt(little, s, at + 8); }
    if at + 12 <= |s| { ReadsInt(little, s, at + 12); }
    if at + 16 <= |s| { ReadsLong(little, s, at + 16); }
    if at + 24 <= |s| { ReadsLong(little, s, at + 24); }
    if at + 32 <= |s| { ReadsInt(little, s, at + 32); }
  }

  lemma ArmsAt(little: bool, s: bytes, at: nat)
    requires at <= |s|
    ensures ParseArms(little, s[at..]) ==
            if |s| < at + 19 then Exit(10012)
            else Ok(Arms(IntAt(little, s, at), IntAt(little, s, at + 4), IntAt(little, s, at + 8),
                         IntAt(little, s, at + 12), s[at + 16] != 0, s[at + 17] != 0, s[at + 18] != 0), s[at + 19..])
  {
    hide ParseInt, ParseBool, IntAt;
    ReadsInt(little, s, at);
    if at + 4 <= |s| { ReadsInt(little, s, at + 4); }
    if at + 8 <= |s| { ReadsInt(little, s, at + 8); }
    if at + 12 <= |s| { ReadsInt(little, s, at + 12); }
    if at + 16 <= |s| { ReadsBool(s, at + 16); }
    if at + 17 <= |s| { ReadsBool(s, at + 17); }
    if at + 18 <= |s| { ReadsBool(s, at + 18); }
  }

  /** A trooper is 87 bytes; whatever they are, this is what the client makes of them. */
  lemma TrooperLayout(little: bool, s: bytes)
    ensures ParseTrooper(little, s) ==
            if s == [] then Exit(10012)
            else if s[0] == 0 then Exit(10006)
            else if |s| < 87 then Exit(10012)
            else Ok(Trooper(LongAt(little, s, 1), IntAt(little, s, 9), IntAt(little, s, 13), LongAt(little, s, 17),
                            IntAt(little, s, 25), s[29] != 0, SignedByteAt(s, 30), SignedByteAt(s, 31),
                            IntAt(little, s, 32), IntAt(little, s, 36), IntAt(little, s, 40), IntAt(little, s, 44),
                            LongAt(little, s, 48), LongAt(little, s, 56), IntAt(little, s, 64),
                            IntAt(little, s, 68), IntAt(little, s, 72), IntAt(little, s, 76), IntAt(little, s, 80),
                            s[84] != 0, s[85] != 0, s[86] != 0), s[87..])
  {
    hide ParseBool, ParseIdentity, ParseCondition, ParseArms, IntAt, LongAt, SignedByteAt;
    assert s[0..] == s;
    ReadsBool(s, 0);
    if 1 <= |s| { IdentityAt(little, s, 1); }
    if 32 <= |s| { ConditionAt(little, s, 32); }
    if 68 <= |s| { ArmsAt(little, s, 68); }
  }

  // ---- Bonuses and players ----

  lemma BonusLayout(little: bool, s: bytes)
    ensures ParseBonus(little, s) ==
            if s == [] then Exit(10012)
            else if s[0] == 0 then Exit(10010)
            else if |s| < 18 then Exit(10012)
            else Ok(Bonus(LongAt(little, s, 1), IntAt(little, s, 9), IntAt(little, s, 13), SignedByteAt(s, 17)),
                    s[18..])
  {
    hide ParseLong, ParseInt, ParseBool, ParseEnum, IntAt, LongAt, SignedByteAt;
    assert s[0..] == s;
    ReadsBool(s, 0);
    if 1 <= |s| { ReadsLong(little, s, 1); }
    if 9 <= |s| { ReadsInt(little, s, 9); }
    if 13 <= |s| { ReadsInt(little, s, 13); }
    if 17 <= |s| { ReadsEnum(s, 17); }
  }

  /** A player's name has its length in front; the other fields follow it. */
  lemma PlayerLayout(little: bool, s: bytes)
    requires |s| >= 13 && s[0] != 0 && 0 <= IntAt(little, s, 9) && 26 + IntAt(little, s, 9) <= |s|
    ensures var n := IntAt(little, s, 9);
            ParsePlayer(little, s) ==
            Ok(Player(LongAt(little, s, 1), s[13..13 + n], IntAt(little, s, 13 + n), s[17 + n] != 0,
                      IntAt(little, s, 18 + n), IntAt(little, s, 22 + n)), s[26 + n..])
  {
    hide ParseLong, ParseInt, ParseBool, ParseString, IntAt, LongAt;
    var n := IntAt(little, s, 9);
    assert s[0..] == s;
    ReadsBool(s, 0);
    ReadsLong(little, s, 1);
    ReadsString(little, s, 9);
    ReadsInt(little, s, 13 + n);
    ReadsBool(s, 17 + n);
    ReadsInt(little, s, 18 + n);
    ReadsInt(little, s, 22 + n);
  }

  lemma PlayerAbsent(little: bool, s: bytes)
    requires s != [] && s[0] == 0
    ensures ParsePlayer(little, s) == Exit(10004)
  {
    assert s[0..] == s;
    ReadsBool(s, 0);
  }

  // ---- Exits ----

  /** A negative count ends the client, with a code of its own for each list. */
  lemma NegativeCounts(little: bool, s: bytes)
    requires |s| >= 4 && IntAt(little, s, 0) < 0
    ensures ParsePlayers(little, s) == Exit(10003) && ParseTroopers(little, s) == Exit(10005)
    ensures ParseBonuses(little, s) == Exit(10009)
    ensures ParseCells(little, s) == Exit(10007) && ParseColumn(little, s) == Exit(10008)
    ensures ParseVisibilities(little, s) == Exit(10018)
    ensures ParseCachedCells(little, EMPTY_CACHE, s) == Exit(10007)
    ensures ParseCachedVisibilities(little, EMPTY_CACHE, s) == Exit(10018)
  {
    hide ParseInt, IntAt;
    assert s[0..] == s;
    ReadsInt(little, s, 0);
  }

  /** Dimensions after the first one likewise. */
  lemma NegativeDimensions(little: bool, s: bytes)
    requires |s| >= 12 && IntAt(little, s, 0) >= 0
    ensures IntAt(little, s, 4) < 0 ==> ParseVisibilities(little, s) == Exit(10019)
    ensures IntAt(little, s, 4) >= 0 && IntAt(little, s, 8) < 0 ==> ParseVisibilities(little, s) == Exit(10020)
  {
    hide ParseInt, IntAt;
    assert s[0..] == s;
    ReadsInt(little, s, 0);
    ReadsInt(little, s, 4);
    ReadsInt(little, s, 8);
  }

  /** The visibility table: three dimensions, then one byte for each entry, nonzero for visible. */
  lemma VisibilitiesLayout(little: bool, s: bytes)
    requires |s| >= 12
    requires var w, h, c := IntAt(little, s, 0), IntAt(little, s, 4), IntAt(little, s, 8);
             && w >= 0 && h >= 0 && c >= 0 && ProductFits(w, h, c) && 12 + w * h * w * h * c <= |s|
    ensures var w, h, c := IntAt(little, s, 0), IntAt(little, s, 4), IntAt(little, s, 8);
            var n := w * h * w * h * c;
            var table := ParseVisibilities(little, s);
            && table.Ok? && |table.value| == n && table.rest == s[12 + n..]
            && forall i :: 0 <= i < n ==> table.value[i] == (s[12 + i] != 0)
  {
    hide ParseInt, IntAt, ProductFits;
    assert s[0..] == s;
    ReadsInt(little, s, 0);
    ReadsInt(little, s, 4);
    ReadsInt(little, s, 8);
    var n := Volume(IntAt(little, s, 0), IntAt(little, s, 4), IntAt(little, s, 8));
    assert s[12..][n..] == s[12 + n..];
  }

  /** The first byte of a context: 1 ends the game; 6 announces a context, which may be absent, and
      whose trooper and world follow; everything else ends the client. */
  lemma ContextKinds(little: bool, cache: Cache, s: bytes)
    requires |s| >= 2
    ensures s[0] == 1 ==> ParseContext(little, cache, s) == Ok(None, s[1..])
    ensures s[0] == 6 && s[1] == 0 ==> ParseContext(little, cache, s) == Ok(None, s[2..])
    ensures s[0] == 6 && s[1] != 0 && ParseContext(little, cache, s).Ok? ==>
      var trooper := ParseTrooper(little, s[2..]);
      && trooper.Ok?
      && var world := ParseWorld(little, cache, trooper.rest);
         world.Ok? && ParseContext(little, cache, s) == Ok(Some(Context(trooper.value, world.value)), world.rest)
    ensures s[0] != 1 && s[0] != 6 ==> ParseContext(little, cache, s) == Exit(10011)
  {
    hide ParseBool, ParseEnum, ParseTrooper, ParseWorld;
    assert s[0..] == s;
    ReadsEnum(s, 0);
    ReadsBool(s, 1);
  }

  /** A world's fixed fields are at the front; an absent one ends the client. */
  lemma WorldHeader(little: bool, cache: Cache, s: bytes)
    ensures s != [] && s[0] == 0 ==> ParseWorld(little, cache, s) == Exit(10002)
    ensures ParseWorld(little, cache, s).Ok? ==>
      && |s| >= 13 && s[0] != 0
      && var w := ParseWorld(little, cache, s).value;
         w.moveIndex == IntAt(little, s, 1) && w.width == IntAt(little, s, 5) && w.height == IntAt(little, s, 9)
  {
    hide ParseBool, ParseInt, ParsePlayers, ParseTroopers, ParseBonuses, IntAt;
    hide ParseCachedCells, ParseCachedVisibilities;
    assert s[0..] == s;
    ReadsBool(s, 0);
    if 1 <= |s| { ReadsInt(little, s, 1); }
    if 5 <= |s| { ReadsInt(little, s, 5); }
    if 9 <= |s| { ReadsInt(little, s, 9); }
  }

  // ---- Messages to the server ----

  /** The four bytes of an int, least significant first. */
  function LittleEndian(v: int): bytes
    requires Int32(v)
  {
    var u := if v < 0 then v + 0x1_0000_0000 else v;
    [u % 256, u / 256 % 256, u / 0x1_0000 % 256, u / 0x100_0000]
  }

  lemma FourDigits(u: nat)
    requires u < 0x1_0000_0000
    ensures Digits(u, 4) == [u % 256, u / 256 % 256, u / 0x1_0000 % 256, u / 0x100_0000]
  {
    var (u1, u2, u3) := (u / 256, u / 0x1_0000, u / 0x100_0000);
    assert u2 == u1 / 256 && u3 == u2 / 256 && u3 < 256;
    assert Digits(u3, 1) == [u3];
    assert Digits(u2, 2) == [u2 % 256] + Digits(u3, 1);
    assert Digits(u1, 3) == [u1 % 256] + Digits(u2, 2);
    assert Digits(u, 4) == [u % 256] + Digits(u1, 3);
  }

  lemma IntBytes(v: int, tail: bytes)
    requires Int32(v)
    ensures PutInt(true, v, tail) == LittleEndian(v) + tail
  {
    hide Digits;
    IntSizes();
    WireFormat(true, v, 4);
    FourDigits(ToUnsigned(v, 4));
  }

  /** What a little-endian machine sends, byte by byte. */
  lemma MessageBytes(text: bytes, move: Move)
    requires Int32(|text|) && MessageFits(MoveMade(move))
    ensures Written(true, Token(text), []) == [2] + LittleEndian(|text|) + text
    ensures Written(true, ProtocolVersion, []) == [4, 2, 0, 0, 0]
    ensures 0 <= move.action && move.direction == -1 ==>
      Written(true, MoveMade(move), []) == [7, 1, move.action, 255] + LittleEndian(move.x) + LittleEndian(move.y)
  {
    hide PutInt, LittleEndian;
    IntBytes(|text|, text);
    IntBytes(2, []);
    IntBytes(move.y, []);
    IntBytes(move.x, LittleEndian(move.y));
    assert text + [] == text;
    assert LittleEndian(move.y) + [] == LittleEndian(move.y);
    VersionDigits();
  }

  lemma VersionDigits()
    ensures LittleEndian(2) == [2, 0, 0, 0]
  {
  }
}
