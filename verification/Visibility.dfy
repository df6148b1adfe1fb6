/** The flat visibility table: its mixed-radix index, the index's inverse, its layout. */
module Visibility {

  const STANCE_COUNT := 3

  /** Two cells and the lower of the two stances: what one table entry is about. */
  datatype Sighting = Sighting(viewerX: int, viewerY: int, objectX: int, objectY: int, stance: int)

  predicate Within(width: nat, height: nat, s: Sighting) {
    && 0 <= s.viewerX < width && 0 <= s.viewerY < height
    && 0 <= s.objectX < width && 0 <= s.objectY < height
    && 0 <= s.stance < STANCE_COUNT
  }

  function Volume(width: nat, height: nat, stanceCount: nat): nat {
    width * height * width * height * stanceCount
  }

  function TableSize(width: nat, height: nat): nat {
    Volume(width, height, STANCE_COUNT)
  }

  function Index(width: nat, height: nat, s: Sighting): int {
    s.viewerX * height * width * height * STANCE_COUNT
    + s.viewerY * width * height * STANCE_COUNT
    + s.objectX * height * STANCE_COUNT
    + s.objectY * STANCE_COUNT
    + s.stance
  }

  function SightingAt(width: nat, height: nat, index: nat): Sighting
    requires width > 0 && height > 0
  {
    var a := index / STANCE_COUNT;
    var b := a / height;
    var c := b / width;
    Sighting(c / height, c % height, b % width, a % height, index % STANCE_COUNT)
  }

  // ---- One digit of a mixed-radix number ----

  lemma TimesMonotone(m: nat, n: nat, factor: nat)
    requires m <= n
    ensures m * factor <= n * factor
  {
  }

  lemma DigitRange(q: int, r: int, count: nat, radix: nat)
    requires 0 <= q < count && 0 <= r < radix
    ensures 0 <= q * radix + r < count * radix
  {
    TimesMonotone(0, q, radix);
    TimesMonotone(q + 1, count, radix);
  }

  lemma DigitUnique(n: int, q: int, r: int, radix: nat)
    requires 0 <= r < radix && n == q * radix + r
    ensures n / radix == q && n % radix == r
  {
    var d := n / radix - q;
    assert n == radix * (n / radix) + n % radix;
    assert radix * d == r - n % radix;
    assert d >= 1 ==> radix * d >= radix;
    assert d <= -1 ==> radix * d <= -(radix as int);
  }

  lemma QuotientRange(n: int, count: nat, radix: nat)
    requires 0 <= n < count * radix && radix > 0
    ensures 0 <= n / radix < count
  {
    var q := n / radix;
    assert q >= count ==> radix * q >= radix * count;
  }

  // ---- The index is a bijection ----

  lemma Horner(width: nat, height: nat, s: Sighting)
    ensures Index(width, height, s) ==
            (((s.viewerX * height + s.viewerY) * width + s.objectX) * height + s.objectY) * STANCE_COUNT + s.stance
  {
    var c := s.viewerX * height + s.viewerY;
    var b := c * width + s.objectX;
    calc {
      b * height;
      c * width * height + s.objectX * height;
      { assert c * width == s.viewerX * height * width + s.viewerY * width; }
      s.viewerX * height * width * height + s.viewerY * width * height + s.objectX * height;
    }
  }

  lemma IndexInTable(width: nat, height: nat, s: Sighting)
    requires Within(width, height, s)
    ensures 0 <= Index(width, height, s) < TableSize(width, height)
  {
    var c := s.viewerX * height + s.viewerY;
    var b := c * width + s.objectX;
    var a := b * height + s.objectY;
    DigitRange(s.viewerX, s.viewerY, width, height);
    DigitRange(c, s.objectX, width * height, width);
    DigitRange(b, s.objectY, width * height * width, height);
    DigitRange(a, s.stance, width * height * width * height, STANCE_COUNT);
    Horner(width, height, s);
  }

  /** Different sightings read different entries: decoding an index gives its sighting back. */
  lemma SightingAtIndex(width: nat, height: nat, s: Sighting)
    requires Within(width, height, s)
    ensures Index(width, height, s) >= 0 && SightingAt(width, height, Index(width, height, s)) == s
  {
    var c := s.viewerX * height + s.viewerY;
    var b := c * width + s.objectX;
    var a := b * height + s.objectY;
    var n := Index(width, height, s);
    IndexInTable(width, height, s);
    Horner(width, height, s);
    DigitUnique(n, a, s.stance, STANCE_COUNT);
    DigitUnique(a, b, s.objectY, height);
    DigitUnique(b, c, s.objectX, width);
    DigitUnique(c, s.viewerX, s.viewerY, height);
  }

  /** Every entry of the table is read by some sighting. */
  lemma IndexOfSightingAt(width: nat, height: nat, index: nat)
    requires index < TableSize(width, height) && width > 0 && height > 0
    ensures Within(width, height, SightingAt(width, height, index))
    ensures Index(width, height, SightingAt(width, height, index)) == index
  {
    var a := index / STANCE_COUNT;
    var b := a / height;
    var c := b / width;
    var s := SightingAt(width, height, index);
    QuotientRange(index, width * height * width * height, STANCE_COUNT);
    QuotientRange(a, width * height * width, height);
    QuotientRange(b, width * height, width);
    QuotientRange(c, width, height);
    assert c == (c / height) * height + s.viewerY;
    assert b == c * width + s.objectX;
    assert a == b * height + s.objectY;
    Horner(width, height, s);
  }

  // ---- Laying out a five-dimensional table ----

  type Table = Sighting -> bool

  /** blocks(0) + blocks(1) + ... + blocks(count - 1): what a loop over one coordinate emits. */
  function Blocks(count: nat, blocks: int -> seq<bool>): seq<bool> {
    if count == 0 then [] else Blocks(count - 1, blocks) + blocks(count - 1)
  }

  lemma {:induction false} BlocksLength(count: nat, blocks: int -> seq<bool>, size: nat)
    requires forall i :: 0 <= i < count ==> |blocks(i)| == size
    ensures |Blocks(count, blocks)| == count * size
  {
    if count > 0 {
      BlocksLength(count - 1, blocks, size);
      assert count * size == (count - 1) * size + size;
    }
  }

  lemma {:induction false} BlocksAt(count: nat, blocks: int -> seq<bool>, size: nat, i: nat, r: nat)
    requires forall i :: 0 <= i < count ==> |blocks(i)| == size
    requires i < count && r < size
    ensures i * size + r < |Blocks(count, blocks)| == count * size
    ensures Blocks(count, blocks)[i * size + r] == blocks(i)[r]
  {
    BlocksLength(count, blocks, size);
    BlocksLength(count - 1, blocks, size);
    DigitRange(i, r, count, size);
    if i < count - 1 {
      BlocksAt(count - 1, blocks, size, i, r);
    }
  }

  function Stances(t: Table, vx: int, vy: int, ox: int, oy: int): seq<bool> {
    seq(STANCE_COUNT, m => t(Sighting(vx, vy, ox, oy, m)))
  }

  function Objects(height: nat, t: Table, vx: int, vy: int, ox: int): seq<bool> {
    Blocks(height, oy => Stances(t, vx, vy, ox, oy))
  }

  function ObjectPlane(width: nat, height: nat, t: Table, vx: int, vy: int): seq<bool> {
    Blocks(width, ox => Objects(height, t, vx, vy, ox))
  }

  function Viewers(width: nat, height: nat, t: Table, vx: int): seq<bool> {
    Blocks(height, vy => ObjectPlane(width, height, t, vx, vy))
  }

  /** Row-major layout: viewer x, viewer y, object x, object y, stance, the last fastest. */
  function Flatten(width: nat, height: nat, t: Table): seq<bool> {
    Blocks(width, vx => Viewers(width, height, t, vx))
  }

  lemma ObjectsAt(height: nat, t: Table, vx: int, vy: int, ox: int, oy: nat, m: nat)
    requires oy < height && m < STANCE_COUNT
    ensures oy * STANCE_COUNT + m < |Objects(height, t, vx, vy, ox)| == height * STANCE_COUNT
    ensures Objects(height, t, vx, vy, ox)[oy * STANCE_COUNT + m] == t(Sighting(vx, vy, ox, oy, m))
  {
    BlocksAt(height, oy => Stances(t, vx, vy, ox, oy), STANCE_COUNT, oy, m);
  }

  lemma ObjectPlaneAt(width: nat, height: nat, t: Table, vx: int, vy: int, ox: nat, r: nat)
    requires ox < width && r < height * STANCE_COUNT
    ensures forall ox :: |Objects(height, t, vx, vy, ox)| == height * STANCE_COUNT
    ensures var size := height * STANCE_COUNT;
            ox * size + r < |ObjectPlane(width, height, t, vx, vy)| == width * size &&
            ObjectPlane(width, height, t, vx, vy)[ox * size + r] == Objects(height, t, vx, vy, ox)[r]
  {
    forall ox ensures |Objects(height, t, vx, vy, ox)| == height * STANCE_COUNT {
      BlocksLength(height, oy => Stances(t, vx, vy, ox, oy), STANCE_COUNT);
    }
    BlocksAt(width, ox => Objects(height, t, vx, vy, ox), height * STANCE_COUNT, ox, r);
  }

  lemma ObjectPlaneLength(width: nat, height: nat, t: Table, vx: int, vy: int)
    ensures |ObjectPlane(width, height, t, vx, vy)| == width * (height * STANCE_COUNT)
  {
    forall ox ensures |Objects(height, t, vx, vy, ox)| == height * STANCE_COUNT {
      BlocksLength(height, oy => Stances(t, vx, vy, ox, oy), STANCE_COUNT);
    }
    BlocksLength(width, ox => Objects(height, t, vx, vy, ox), height * STANCE_COUNT);
  }

  lemma ViewersLength(width: nat, height: nat, t: Table, vx: int)
    ensures |Viewers(width, height, t, vx)| == height * (width * (height * STANCE_COUNT))
  {
    forall vy ensures |ObjectPlane(width, height, t, vx, vy)| == width * (height * STANCE_COUNT) {
      ObjectPlaneLength(width, height, t, vx, vy);
    }
    BlocksLength(height, vy => ObjectPlane(width, height, t, vx, vy), width * (height * STANCE_COUNT));
  }

  lemma ViewersAt(width: nat, height: nat, t: Table, vx: int, vy: nat, r: nat)
    requires vy < height && r < width * (height * STANCE_COUNT)
    ensures |ObjectPlane(width, height, t, vx, vy)| == width * (height * STANCE_COUNT)
    ensures var size := width * (height * STANCE_COUNT);
            vy * size + r < |Viewers(width, height, t, vx)| == height * size &&
            Viewers(width, height, t, vx)[vy * size + r] == ObjectPlane(width, height, t, vx, vy)[r]
  {
    forall vy ensures |ObjectPlane(width, height, t, vx, vy)| == width * (height * STANCE_COUNT) {
      ObjectPlaneLength(width, height, t, vx, vy);
    }
    BlocksAt(height, vy => ObjectPlane(width, height, t, vx, vy), width * (height * STANCE_COUNT), vy, r);
  }

  lemma FlattenAt(width: nat, height: nat, t: Table, vx: nat, r: nat)
    requires vx < width && r < height * (width * (height * STANCE_COUNT))
    ensures |Viewers(width, height, t, vx)| == height * (width * (height * STANCE_COUNT))
    ensures var size := height * (width * (height * STANCE_COUNT));
            vx * size + r < |Flatten(width, height, t)| == width * size &&
            Flatten(width, height, t)[vx * size + r] == Viewers(width, height, t, vx)[r]
  {
    forall vx ensures |Viewers(width, height, t, vx)| == height * (width * (height * STANCE_COUNT)) {
      ViewersLength(width, height, t, vx);
    }
    BlocksAt(width, vx => Viewers(width, height, t, vx), height * (width * (height * STANCE_COUNT)), vx, r);
  }

  /** The source writes its products from the left; the layout nests them from the right. */
  lemma NestedIndex(width: nat, height: nat, s: Sighting)
    ensures TableSize(width, height) == width * (height * (width * (height * STANCE_COUNT)))
    ensures Index(width, height, s) ==
            s.viewerX * (height * (width * (height * STANCE_COUNT)))
            + (s.viewerY * (width * (height * STANCE_COUNT))
               + (s.objectX * (height * STANCE_COUNT) + (s.objectY * STANCE_COUNT + s.stance)))
  {
    var a := height * STANCE_COUNT;
    assert s.objectX * height * STANCE_COUNT == s.objectX * a;
    calc {
      s.viewerY * width * height * STANCE_COUNT;
      s.viewerY * width * a;
      s.viewerY * (width * a);
    }
    calc {
      s.viewerX * height * width * height * STANCE_COUNT;
      s.viewerX * height * width * a;
      s.viewerX * height * (width * a);
      s.viewerX * (height * (width * a));
    }
    calc {
      width * height * width * height * STANCE_COUNT;
      width * height * width * a;
      width * height * (width * a);
      width * (height * (width * a));
    }
  }

  /** Looking a sighting up in the flattened table gives that sighting's entry. */
  lemma FlattenLookup(width: nat, height: nat, t: Table, s: Sighting)
    requires Within(width, height, s)
    ensures |Flatten(width, height, t)| == TableSize(width, height)
    ensures 0 <= Index(width, height, s) < TableSize(width, height)
    ensures Flatten(width, height, t)[Index(width, height, s)] == t(s)
  {
    var size1 := height * STANCE_COUNT;
    var size2 := width * size1;
    var r1 := s.objectY * STANCE_COUNT + s.stance;
    var r2 := s.objectX * size1 + r1;
    var r3 := s.viewerY * size2 + r2;
    ObjectsAt(height, t, s.viewerX, s.viewerY, s.objectX, s.objectY, s.stance);
    ObjectPlaneAt(width, height, t, s.viewerX, s.viewerY, s.objectX, r1);
    DigitRange(s.objectX, r1, width, size1);
    ViewersAt(width, height, t, s.viewerX, s.viewerY, r2);
    DigitRange(s.viewerY, r2, height, size2);
    FlattenAt(width, height, t, s.viewerX, r3);
    NestedIndex(width, height, s);
    IndexInTable(width, height, s);
  }

  /** Every flat table of the right size is the layout of the five-dimensional table it encodes. */
  lemma FlattenUnflatten(width: nat, height: nat, cells: seq<bool>)
    requires width > 0 && height > 0 && |cells| == TableSize(width, height)
    ensures Flatten(width, height, Unflatten(width, height, cells)) == cells
  {
    var t := Unflatten(width, height, cells);
    FlattenLookup(width, height, t, Sighting(0, 0, 0, 0, 0));
    forall index | 0 <= index < |cells| ensures Flatten(width, height, t)[index] == cells[index] {
      IndexOfSightingAt(width, height, index);
      FlattenLookup(width, height, t, SightingAt(width, height, index));
    }
  }

  function Unflatten(width: nat, height: nat, cells: seq<bool>): Table
    requires |cells| == TableSize(width, height)
  {
    s =>
      if Within(width, height, s) then
        IndexInTable(width, height, s);
        cells[Index(width, height, s)]
      else
        false
  }

  // ---- The lookup ----

  /** The part of the world that `IsVisible` reads. */
  datatype Sight = Sight(width: nat, height: nat, cells: seq<bool>) {
    predicate Valid() {
      |cells| == TableSize(width, height)
    }
  }

  predicate InRange(maxRange: real, viewerX: int, viewerY: int, objectX: int, objectY: int) {
    var xRange := objectX - viewerX;
    var yRange := objectY - viewerY;
    (xRange * xRange + yRange * yRange) as real <= maxRange * maxRange
  }

  function MinStance(a: int, b: int): int {
    if b < a then b else a
  }

  predicate IsVisible(world: Sight, maxRange: real, viewerX: int, viewerY: int, viewerStance: int,
                      objectX: int, objectY: int, objectStance: int)
    requires world.Valid()
    requires InRange(maxRange, viewerX, viewerY, objectX, objectY) ==>
      Within(world.width, world.height,
             Sighting(viewerX, viewerY, objectX, objectY, MinStance(viewerStance, objectStance)))
  {
    var s := Sighting(viewerX, viewerY, objectX, objectY, MinStance(viewerStance, objectStance));
    && InRange(maxRange, viewerX, viewerY, objectX, objectY)
    && (IndexInTable(world.width, world.height, s); world.cells[Index(world.width, world.height, s)])
  }

  /** On a table laid out by the server, two units see each other exactly when the square of their
      distance is at most that of the range, and the entry for their cells and the lower of their
      stances is set. */
  lemma IsVisibleMeaning(width: nat, height: nat, t: Table, maxRange: real,
                         viewerX: int, viewerY: int, viewerStance: int,
                         objectX: int, objectY: int, objectStance: int)
    requires 0 <= viewerX < width && 0 <= viewerY < height && 0 <= viewerStance < STANCE_COUNT
    requires 0 <= objectX < width && 0 <= objectY < height && 0 <= objectStance < STANCE_COUNT
    ensures var world := Sight(width, height, Flatten(width, height, t));
            var stance := if viewerStance <= objectStance then viewerStance else objectStance;
            && world.Valid()
            && IsVisible(world, maxRange, viewerX, viewerY, viewerStance, objectX, objectY, objectStance) ==
               (&& ((objectX - viewerX) * (objectX - viewerX) + (objectY - viewerY) * (objectY - viewerY)) as real
                   <= maxRange * maxRange
                && t(Sighting(viewerX, viewerY, objectX, objectY, stance)))
  {
    FlattenLookup(width, height, t,
                  Sighting(viewerX, viewerY, objectX, objectY, MinStance(viewerStance, objectStance)));
  }

  /** Along a row or a column a nonnegative range is compared with the number of cells between. */
  lemma InRangeOnLine(maxRange: real, viewerX: int, viewerY: int, objectX: int, objectY: int)
    requires maxRange >= 0.0 && (viewerX == objectX || viewerY == objectY)
    ensures InRange(maxRange, viewerX, viewerY, objectX, objectY) <==>
            && (objectX - viewerX) as real <= maxRange && (viewerX - objectX) as real <= maxRange
            && (objectY - viewerY) as real <= maxRange && (viewerY - objectY) as real <= maxRange
  {
    var d := if viewerX == objectX then objectY - viewerY else objectX - viewerX;
    SquareWithin(if d < 0 then -d else d, maxRange);
    assert (-d) * (-d) == d * d;
  }

  lemma SquareWithin(d: nat, range: real)
    requires range >= 0.0
    ensures (d * d) as real <= range * range <==> d as real <= range
  {
    var e := d as real;
    assert (d * d) as real == e * e;
    if e <= range {
      assert e * e <= e * range <= range * range;
    } else {
      assert e * e > e * range >= range * range;
    }
  }
}
