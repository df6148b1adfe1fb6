/** The immutable records the server sends. Enumerations keep the source's integer codes.
    A double is `D`: a real number for the strategy, an opaque 64-bit pattern on the wire. */
module Model {

  datatype Option<+T> = None | Some(value: T)

  // Trooper types
  const COMMANDER := 0
  const FIELD_MEDIC := 1
  const SCOUT := 4

  // Stances
  const PRONE := 0
  const KNEELING := 1
  const STANDING := 2

  // Bonus types
  const GRENADE := 0
  const MEDIKIT := 1
  const FIELD_RATION := 2

  // Actions
  const END_TURN := 0
  const MOVE := 1
  const SHOOT := 2
  const RAISE_STANCE := 3
  const LOWER_STANCE := 4
  const THROW_GRENADE := 5
  const USE_MEDIKIT := 6
  const EAT_FIELD_RATION := 7
  const HEAL := 8

  const UNKNOWN_DIRECTION := -1

  datatype Move = Move(action: int, direction: int, x: int, y: int)

  /** The default-constructed move. */
  const DEFAULT_MOVE := Move(END_TURN, UNKNOWN_DIRECTION, -1, -1)

  datatype Trooper<D> = Trooper(
    id: int, x: int, y: int, playerId: int, teammateIndex: int, teammate: bool, kind: int, stance: int,
    hitpoints: int, maximalHitpoints: int, actionPoints: int, initialActionPoints: int,
    visionRange: D, shootingRange: D, shootCost: int,
    standingDamage: int, kneelingDamage: int, proneDamage: int, damage: int,
    holdingGrenade: bool, holdingMedikit: bool, holdingFieldRation: bool)

  datatype Bonus = Bonus(id: int, x: int, y: int, kind: int)

  datatype Player = Player(id: int, name: seq<int>, score: int, strategyCrashed: bool,
                           approximateX: int, approximateY: int)

  datatype World<D> = World(
    moveIndex: int, width: int, height: int, players: seq<Player>, troopers: seq<Trooper<D>>,
    bonuses: seq<Bonus>, cells: seq<seq<int>>, cellVisibilities: seq<bool>)

  /** The game constants the strategy uses. */
  datatype Game = Game(
    stanceChangeCost: int, standingMoveCost: int, kneelingMoveCost: int, proneMoveCost: int,
    commanderAuraRange: real,
    fieldMedicHealCost: int, fieldMedicHealBonusHitpoints: int, fieldMedicHealSelfBonusHitpoints: int,
    grenadeThrowCost: int, grenadeThrowRange: real, grenadeDirectDamage: int, grenadeCollateralDamage: int,
    medikitUseCost: int, medikitBonusHitpoints: int, medikitHealSelfBonusHitpoints: int,
    fieldRationEatCost: int, fieldRationBonusActionPoints: int)
}
