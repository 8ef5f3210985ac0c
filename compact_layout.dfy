/**
 * The compact layout: the tiles, in index order (newest first), are packed row by row, one row
 * band per year. Within a year each day takes as many columns of `rows` tiles as it needs,
 * filled top to bottom, and a gap separates days and years. A second pass centres the whole
 * arrangement on the origin.
 */
module CompactLayout {
  import opened Geometry
  import opened IndexFormat
  import opened Preferences
  import opened Tiles
  import opened Images
  import opened Layout

  // ---------------------------------------------------------------------------------------
  // Columns a day uses

  /** The ceiling of a real number. */
  function Ceil(r: real): int
  {
    -((-r).Floor)
  }

  /** ceil(count / rows) taken in floating point: the columns `count` tiles of a day fill. */
  function ColumnsUsed(count: nat, rows: int): int
    requires rows > 0
  {
    Ceil(count as real / rows as real)
  }

  /** The column count is the integer ceiling; with at least one tile, one past its last column. */
  lemma ColumnsUsedExact(count: nat, rows: int)
    requires rows > 0
    ensures ColumnsUsed(count, rows) == (count + rows - 1) / rows
    ensures count > 0 ==> ColumnsUsed(count, rows) == (count - 1) / rows + 1
    ensures ColumnsUsed(count, rows) >= 0
  {
    var c := (count + rows - 1) / rows;
    CeilOfQuotient(count, rows, c);
    if count > 0 {
      DivModUnique(count + rows - 1, rows, (count - 1) / rows + 1, (count - 1) % rows);
    }
  }

  /** A quotient whose multiples bracket n is the ceiling of n / d. */
  lemma CeilOfQuotient(n: int, d: int, c: int)
    requires d > 0 && (c - 1) * d < n <= c * d
    ensures Ceil(n as real / d as real) == c
  {
    LessAfterDividing(((c - 1) * d) as real, n as real, d as real);
    AtMostAfterDividing(n as real, (c * d) as real, d as real);
    assert ((c - 1) * d) as real / d as real == (c - 1) as real;
    assert (c * d) as real / d as real == c as real;
  }

  lemma LessAfterDividing(a: real, b: real, d: real)
    requires a < b && d > 0.0
    ensures a / d < b / d
  {
    assert b / d - a / d == (b - a) / d;
  }

  lemma AtMostAfterDividing(a: real, b: real, d: real)
    requires a <= b && d > 0.0
    ensures a / d <= b / d
  {
    assert b / d - a / d == (b - a) / d;
  }

  /** A multiple of a positive d strictly between -d and d is 0. */
  lemma ProductInRange(m: int, d: int)
    requires d > 0 && -d < m * d < d
    ensures m == 0
  {
  }

  /** A multiple of a positive d below d is of a factor at most 0. */
  lemma ProductBelow(m: int, d: int)
    requires d > 0 && m * d < d
    ensures m <= 0
  {
  }

  /** Quotient and remainder are the only q, r with x = q * d + r and 0 <= r < d. */
  lemma DivModUnique(x: int, d: int, q: int, r: int)
    requires d > 0 && x == q * d + r && 0 <= r < d
    ensures x / d == q && x % d == r
  {
    ProductInRange(q - x / d, d);
  }

  lemma DivisionMonotone(a: nat, b: nat, d: int)
    requires a <= b && d > 0
    ensures a / d <= b / d
  {
    assert (a / d - b / d) * d == (a - a % d) - (b - b % d);
    ProductBelow(a / d - b / d, d);
  }

  /** Counting one further moves down a row, or from the last row to the top of the next column. */
  lemma NextQuotient(k: nat, d: int)
    requires d > 0
    ensures k % d < d - 1 ==> (k + 1) / d == k / d && (k + 1) % d == k % d + 1
    ensures k % d == d - 1 ==> (k + 1) / d == k / d + 1 && (k + 1) % d == 0
  {
    if k % d < d - 1 {
      DivModUnique(k + 1, d, k / d, k % d + 1);
    } else {
      DivModUnique(k + 1, d, k / d + 1, 0);
    }
  }

  // ---------------------------------------------------------------------------------------
  // The packing cursor

  /**
   * The running state of the packing loop: where the current day's columns and the current
   * year's row band start, the deepest sub-row this year, the tiles placed so far today, the
   * day and year of the previous tile, and the largest x and -y placed.
   */
  datatype Cursor = Cursor(
    dayStartX: real,
    yearStartY: real,
    maxSubrows: nat,
    dayCount: nat,
    prevDay: Unsigned,
    prevYear: Unsigned,
    maxX: real,
    maxY: real)

  /** The cursor before the first tile: at the origin, primed with the first tile's date. */
  function Primed(first: TimeStamp): Cursor
  {
    Cursor(0.0, 0.0, 0, 0, first.dayOfYear, first.year, 0.0, 0.0)
  }

  /**
   * The checks at the top of the loop: a new day moves past the columns the previous day
   * used, plus the day padding; a new year moves a row band down, plus the year padding, and
   * starts again at the left.
   */
  function Advance(cfg: Config, c: Cursor, s: TimeStamp): Cursor
    requires cfg.compactRowCount > 0
  {
    var d := if s.dayOfYear != c.prevDay then
      c.(dayStartX := c.dayStartX + cfg.compactColPitch * ColumnsUsed(c.dayCount, cfg.compactRowCount) as real
                      + cfg.compactDayPadding,
         prevDay := s.dayOfYear, dayCount := 0)
    else c;
    if s.year != d.prevYear then
      d.(yearStartY := d.yearStartY - (d.maxSubrows + 1) as real * cfg.compactRowPitch - cfg.compactYearPadding,
         prevYear := s.year, dayStartX := 0.0, dayCount := 0, maxSubrows := 0)
    else d
  }

  /** Where the next tile goes: sub-column dayCount / rows, sub-row dayCount % rows. */
  function PlaceAt(cfg: Config, c: Cursor): Vec3
    requires cfg.compactRowCount > 0
  {
    Vec3(c.dayStartX + (c.dayCount / cfg.compactRowCount) as real * cfg.compactColPitch,
         c.yearStartY - (c.dayCount % cfg.compactRowCount) as real * cfg.compactRowPitch,
         0.0)
  }

  /** The cursor after placing a tile at PlaceAt: maxima updated and one more tile today. */
  function Placed(cfg: Config, c: Cursor): Cursor
    requires cfg.compactRowCount > 0
  {
    var p := PlaceAt(cfg, c);
    var subRow := c.dayCount % cfg.compactRowCount;
    c.(maxSubrows := if c.maxSubrows < subRow then subRow else c.maxSubrows,
       maxX := Max(c.maxX, p.x), maxY := Max(c.maxY, -p.y),
       dayCount := c.dayCount + 1)
  }

  /** The cursor after the first n tiles, starting primed with `first`. */
  function CursorAt(cfg: Config, first: TimeStamp, ss: seq<TimeStamp>, n: nat): Cursor
    requires cfg.compactRowCount > 0 && n <= |ss|
  {
    if n == 0 then Primed(first)
    else Placed(cfg, Advance(cfg, CursorAt(cfg, first, ss, n - 1), ss[n - 1]))
  }

  /** Where the packing loop puts tile i, before centring. */
  function RawAt(cfg: Config, first: TimeStamp, ss: seq<TimeStamp>, i: nat): Vec3
    requires cfg.compactRowCount > 0 && i < |ss|
  {
    PlaceAt(cfg, Advance(cfg, CursorAt(cfg, first, ss, i), ss[i]))
  }

  /** The cursor once every tile is packed; tile 0 primes it. */
  function Final(cfg: Config, ss: seq<TimeStamp>): Cursor
    requires cfg.compactRowCount > 0 && |ss| > 0
  {
    CursorAt(cfg, ss[0], ss, |ss|)
  }

  /** Half the span of the packed tiles along an axis: the largest offset plus one image. */
  function HalfSpan(maxOffset: real, imageSize: real): real
  {
    (maxOffset + imageSize) * 0.5
  }

  /** A packed position shifted by the half spans of the final cursor `f`. */
  function Centre(cfg: Config, raw: Vec3, f: Cursor): Vec3
  {
    Vec3(raw.x - HalfSpan(f.maxX, cfg.imageSize) + cfg.imageSize * 0.5,
         raw.y + HalfSpan(f.maxY, cfg.imageSize) - cfg.imageSize * 0.5,
         0.0)
  }

  /** The final target of tile i: its packed position shifted so the arrangement is centred. */
  function CompactTarget(cfg: Config, ss: seq<TimeStamp>, i: nat): Vec3
    requires cfg.compactRowCount > 0 && i < |ss|
  {
    Centre(cfg, RawAt(cfg, ss[0], ss, i), Final(cfg, ss))
  }

  // ---------------------------------------------------------------------------------------
  // Properties of the packing

  /**
   * The maxima are never negative and bound every packed position: no tile's x is larger than
   * maxX and no tile's -y is larger than maxY.
   */
  lemma {:induction false} MaximaBound(cfg: Config, first: TimeStamp, ss: seq<TimeStamp>, n: nat)
    requires cfg.compactRowCount > 0 && n <= |ss|
    ensures var f := CursorAt(cfg, first, ss, n); f.maxX >= 0.0 && f.maxY >= 0.0
    ensures forall i :: 0 <= i < n ==>
      RawAt(cfg, first, ss, i).x <= CursorAt(cfg, first, ss, n).maxX
      && -RawAt(cfg, first, ss, i).y <= CursorAt(cfg, first, ss, n).maxY
  {
    if n != 0 {
      MaximaBound(cfg, first, ss, n - 1);
    }
  }

  /** Pitches and paddings that do not run against the layout's directions. */
  predicate Forward(cfg: Config)
  {
    cfg.compactRowCount > 0
    && cfg.compactColPitch >= 0.0 && cfg.compactRowPitch >= 0.0
    && cfg.compactDayPadding >= 0.0 && cfg.compactYearPadding >= 0.0
  }

  /** With forward pitches, the day and year checks keep the cursor right of and below 0. */
  lemma AdvanceInQuadrant(cfg: Config, c: Cursor, s: TimeStamp)
    requires Forward(cfg) && c.dayStartX >= 0.0 && c.yearStartY <= 0.0
    ensures Advance(cfg, c, s).dayStartX >= 0.0 && Advance(cfg, c, s).yearStartY <= 0.0
  {
    ColumnsUsedExact(c.dayCount, cfg.compactRowCount);
    ScaleMonotone(0.0, ColumnsUsed(c.dayCount, cfg.compactRowCount) as real, cfg.compactColPitch);
    ScaleMonotone(0.0, (c.maxSubrows + 1) as real, cfg.compactRowPitch);
  }

  /** With forward pitches, days run rightward and years downward from 0. */
  lemma {:induction false} CursorInQuadrant(cfg: Config, first: TimeStamp, ss: seq<TimeStamp>, n: nat)
    requires Forward(cfg) && n <= |ss|
    ensures CursorAt(cfg, first, ss, n).dayStartX >= 0.0 && CursorAt(cfg, first, ss, n).yearStartY <= 0.0
  {
    if n != 0 {
      CursorInQuadrant(cfg, first, ss, n - 1);
      AdvanceInQuadrant(cfg, CursorAt(cfg, first, ss, n - 1), ss[n - 1]);
    }
  }

  /** With forward pitches, every packed tile lies right of and below 0. */
  lemma PlacedInQuadrant(cfg: Config, first: TimeStamp, ss: seq<TimeStamp>, i: nat)
    requires Forward(cfg) && i < |ss|
    ensures RawAt(cfg, first, ss, i).x >= 0.0 && RawAt(cfg, first, ss, i).y <= 0.0
  {
    var c := CursorAt(cfg, first, ss, i);
    CursorInQuadrant(cfg, first, ss, i);
    AdvanceInQuadrant(cfg, c, ss[i]);
    PlaceInQuadrant(cfg, Advance(cfg, c, ss[i]));
  }

  /** A cursor right of and below 0 places its tile right of and below 0. */
  lemma PlaceInQuadrant(cfg: Config, a: Cursor)
    requires Forward(cfg) && a.dayStartX >= 0.0 && a.yearStartY <= 0.0
    ensures PlaceAt(cfg, a).x >= 0.0 && PlaceAt(cfg, a).y <= 0.0
  {
    ScaleMonotone(0.0, (a.dayCount / cfg.compactRowCount) as real, cfg.compactColPitch);
    ScaleMonotone(0.0, (a.dayCount % cfg.compactRowCount) as real, cfg.compactRowPitch);
  }

  /**
   * With non-negative pitches and paddings, the centring pass leaves every tile within half
   * the packed extent of the origin, along both axes.
   */
  lemma CompactCentred(cfg: Config, ss: seq<TimeStamp>, i: nat)
    requires Forward(cfg) && i < |ss|
    ensures var f := Final(cfg, ss);
      var p := CompactTarget(cfg, ss, i);
      -f.maxX * 0.5 <= p.x <= f.maxX * 0.5 && -f.maxY * 0.5 <= p.y <= f.maxY * 0.5 && p.z == 0.0
  {
    MaximaBound(cfg, ss[0], ss, |ss|);
    PlacedInQuadrant(cfg, ss[0], ss, i);
  }

  /** A single tile is placed exactly at the origin. */
  lemma SingleTileAtOrigin(cfg: Config, s: TimeStamp)
    requires cfg.compactRowCount > 0
    ensures CompactTarget(cfg, [s], 0) == Origin
  {
    assert [s][..0] == [];
    assert [s][..1 - 1] == [];
  }

  /**
   * The first tile of a new year starts a new row band at the left edge: row 0 of the band
   * that starts one band height (the deepest sub-row plus one, in row pitches) and the year
   * padding below the previous one.
   */
  lemma NewYearStartsBand(cfg: Config, c: Cursor, s: TimeStamp)
    requires cfg.compactRowCount > 0 && s.year != c.prevYear
    ensures var a := Advance(cfg, c, s);
      a.dayStartX == 0.0 && a.dayCount == 0 && a.maxSubrows == 0 && a.prevYear == s.year
      && a.yearStartY == c.yearStartY - (c.maxSubrows + 1) as real * cfg.compactRowPitch - cfg.compactYearPadding
      && PlaceAt(cfg, a) == Vec3(0.0, a.yearStartY, 0.0)
  {
  }

  /**
   * The first tile of a new day in the same year starts a new column past every column the
   * previous day filled, by at least the day padding.
   */
  lemma NewDayPastPreviousColumns(cfg: Config, c: Cursor, s: TimeStamp)
    requires cfg.compactRowCount > 0 && s.dayOfYear != c.prevDay && s.year == c.prevYear
    requires cfg.compactColPitch >= 0.0
    ensures var a := Advance(cfg, c, s);
      a.dayCount == 0 && a.yearStartY == c.yearStartY && PlaceAt(cfg, a).x == a.dayStartX
      && forall j :: 0 <= j < c.dayCount ==>
           c.dayStartX + (j / cfg.compactRowCount + 1) as real * cfg.compactColPitch + cfg.compactDayPadding
           <= a.dayStartX
  {
    var rows := cfg.compactRowCount;
    ColumnsUsedExact(c.dayCount, rows);
    forall j | 0 <= j < c.dayCount
      ensures c.dayStartX + (j / rows + 1) as real * cfg.compactColPitch + cfg.compactDayPadding
              <= Advance(cfg, c, s).dayStartX
    {
      DivisionMonotone(j, c.dayCount - 1, rows);
      ScaleMonotone((j / rows + 1) as real, ColumnsUsed(c.dayCount, rows) as real, cfg.compactColPitch);
    }
  }

  /**
   * Within one day of one year, tiles fill a column top to bottom: the next tile goes one
   * row pitch lower, or, after the last row, to the top of the next column.
   */
  lemma ColumnFillsDownward(cfg: Config, c: Cursor)
    requires cfg.compactRowCount > 0
    ensures var p, q := PlaceAt(cfg, c), PlaceAt(cfg, Placed(cfg, c));
      var rows := cfg.compactRowCount;
      (c.dayCount % rows < rows - 1 ==> q.x == p.x && q.y == p.y - cfg.compactRowPitch)
      && (c.dayCount % rows == rows - 1 ==> q.x == p.x + cfg.compactColPitch && q.y == c.yearStartY)
  {
    NextQuotient(c.dayCount, cfg.compactRowCount);
  }

  // ---------------------------------------------------------------------------------------
  // The layout pass

  /** The time stamps of the tiles, in order. */
  function Stamps(tiles: seq<ImageTile>): (ss: seq<TimeStamp>)
    ensures |ss| == |tiles| && forall i :: 0 <= i < |tiles| ==> ss[i] == tiles[i].Stamp()
  {
    seq(|tiles|, i requires 0 <= i < |tiles| => tiles[i].Stamp())
  }

  /** A tile sent from `from` toward packed position i of the given stamps. */
  ghost predicate Packed(t: ImageTile, cfg: Config, ss: seq<TimeStamp>, i: nat, from: Vec3)
    reads t
    requires cfg.compactRowCount > 0 && i < |ss|
  {
    SentTo(t, RawAt(cfg, ss[0], ss, i), cfg, from)
  }

  /** A tile sent toward packed position i shifted by the final half spans is centred. */
  lemma CentredAt(t: ImageTile, cfg: Config, ss: seq<TimeStamp>, raws: seq<Vec3>, f: Cursor, i: nat, from: Vec3)
    requires cfg.compactRowCount > 0 && i < |ss| && raws == Raws(cfg, ss) && f == Final(cfg, ss)
    requires SentTo(t, Centre(cfg, raws[i], f), cfg, from)
    ensures Centred(t, cfg, ss, i, from)
  {
  }

  /** A tile sent from `from` toward centred position i of the given stamps. */
  ghost predicate Centred(t: ImageTile, cfg: Config, ss: seq<TimeStamp>, i: nat, from: Vec3)
    reads t
    requires cfg.compactRowCount > 0 && i < |ss|
  {
    SentTo(t, CompactTarget(cfg, ss, i), cfg, from)
  }

  /**
   * One step of the packing loop, on the date of the next tile: the day and year checks, then
   * the tile's packed position and the updated cursor.
   */
  method PackNext(cfg: Config, c: Cursor, time: Unsigned, day: Unsigned, year: Unsigned)
    returns (p: Vec3, next: Cursor)
    requires cfg.compactRowCount > 0
    ensures p == PlaceAt(cfg, Advance(cfg, c, TimeStamp(time, day, year)))
    ensures next == Placed(cfg, Advance(cfg, c, TimeStamp(time, day, year)))
  {
    var rows := cfg.compactRowCount;
    next := c;
    if day != next.prevDay {
      next := next.(dayStartX := next.dayStartX + cfg.compactColPitch * Ceil(next.dayCount as real / rows as real) as real);
      next := next.(dayStartX := next.dayStartX + cfg.compactDayPadding);
      next := next.(prevDay := day, dayCount := 0);
    }
    if year != next.prevYear {
      next := next.(yearStartY := next.yearStartY - (next.maxSubrows + 1) as real * cfg.compactRowPitch);
      next := next.(yearStartY := next.yearStartY - cfg.compactYearPadding);
      next := next.(prevYear := year, dayStartX := 0.0, dayCount := 0, maxSubrows := 0);
    }
    assert next == Advance(cfg, c, TimeStamp(time, day, year));
    var subColumn := next.dayCount / rows;
    var subRow := next.dayCount % rows;
    var x := next.dayStartX + subColumn as real * cfg.compactColPitch;
    var y := next.yearStartY - subRow as real * cfg.compactRowPitch;
    p := Vec3(x, y, 0.0);
    next := next.(maxSubrows := if next.maxSubrows < subRow then subRow else next.maxSubrows);
    next := next.(maxX := Max(next.maxX, x), maxY := Max(next.maxY, -y));
    next := next.(dayCount := next.dayCount + 1);
  }

  /** The packed position of every tile, in tile order. */
  ghost function Raws(cfg: Config, ss: seq<TimeStamp>): (raws: seq<Vec3>)
    requires cfg.compactRowCount > 0
    ensures |raws| == |ss| && forall j :: 0 <= j < |ss| ==> raws[j] == RawAt(cfg, ss[0], ss, j)
  {
    seq(|ss|, j requires 0 <= j < |ss| => RawAt(cfg, ss[0], ss, j))
  }

  /** The cursor before each tile, and after the last one. */
  ghost function Cursors(cfg: Config, ss: seq<TimeStamp>): (cs: seq<Cursor>)
    requires cfg.compactRowCount > 0 && |ss| > 0
    ensures |cs| == |ss| + 1 && forall j :: 0 <= j <= |ss| ==> cs[j] == CursorAt(cfg, ss[0], ss, j)
  {
    seq(|ss| + 1, j requires 0 <= j <= |ss| => CursorAt(cfg, ss[0], ss, j))
  }

  /**
   * cs and raws follow the packing step by step: each cursor is the one before advanced past
   * the tile's date and placed, and each packed position is where the advanced cursor points.
   */
  ghost predicate Chain(cfg: Config, ss: seq<TimeStamp>, cs: seq<Cursor>, raws: seq<Vec3>)
    requires cfg.compactRowCount > 0
  {
    |cs| == |ss| + 1 && |raws| == |ss|
    && forall j {:trigger Advance(cfg, cs[j], ss[j])} :: 0 <= j < |ss| ==>
      cs[j + 1] == Placed(cfg, Advance(cfg, cs[j], ss[j])) && raws[j] == PlaceAt(cfg, Advance(cfg, cs[j], ss[j]))
  }

  /** The cursors and packed positions of the packing form a chain. */
  lemma PackingChain(cfg: Config, ss: seq<TimeStamp>)
    requires cfg.compactRowCount > 0 && |ss| > 0
    ensures Chain(cfg, ss, Cursors(cfg, ss), Raws(cfg, ss))
  {
    var cs, raws := Cursors(cfg, ss), Raws(cfg, ss);
    forall j | 0 <= j < |ss|
      ensures cs[j + 1] == Placed(cfg, Advance(cfg, cs[j], ss[j]))
      ensures raws[j] == PlaceAt(cfg, Advance(cfg, cs[j], ss[j]))
    {
    }
  }

  /**
   * The body of the packing loop for tile i: the tile's date advances the cursor, and the
   * tile is sent toward its packed position at the image size.
   */
  method PackTile(t: ImageTile, cfg: Config, c: Cursor,
                  ghost ss: seq<TimeStamp>, ghost cs: seq<Cursor>, ghost raws: seq<Vec3>, ghost i: nat)
    returns (next: Cursor)
    requires t.Valid() && cfg.compactRowCount > 0 && Chain(cfg, ss, cs, raws)
    requires i < |ss| && ss[i] == t.Stamp() && c == cs[i]
    modifies t`start, t`goal, t`moveTotalTime, t`moveTime, t`size
    ensures SentTo(t, raws[i], cfg, old(t.pos)) && next == cs[i + 1]
  {
    var time, day, year := t.GetTimeStamp();
    var p;
    p, next := PackNext(cfg, c, time, day, year);
    t.MoveTo(p, cfg.imageMoveTime);
    t.SetSize(cfg.imageSize, cfg.imageSize);
  }

  /**
   * The packing loop of DoLayout: every tile, in order, is sent toward its packed position;
   * the returned cursor holds the largest offsets reached.
   */
  method PackAll(tiles: seq<ImageTile>, cfg: Config, first: Cursor,
                 ghost ss: seq<TimeStamp>, ghost cs: seq<Cursor>, ghost raws: seq<Vec3>)
    returns (c: Cursor)
    requires cfg.compactRowCount > 0 && |ss| == |tiles| && Chain(cfg, ss, cs, raws) && first == cs[0]
    requires forall j :: 0 <= j < |tiles| ==> tiles[j].Valid() && ss[j] == tiles[j].Stamp()
    requires forall a, b :: 0 <= a < b < |tiles| ==> tiles[a] != tiles[b]
    modifies tiles`start, tiles`goal, tiles`moveTotalTime, tiles`moveTime, tiles`size
    ensures c == cs[|tiles|]
    ensures forall j :: 0 <= j < |tiles| ==> SentTo(tiles[j], raws[j], cfg, old(tiles[j].pos))
  {
    c := first;
    var i := 0;
    while i < |tiles|
      invariant 0 <= i <= |tiles| && c == cs[i]
      invariant forall j :: i <= j < |tiles| ==> tiles[j].Valid()
      invariant forall j :: 0 <= j < i ==> SentTo(tiles[j], raws[j], cfg, old(tiles[j].pos))
    {
      c := PackTile(tiles[i], cfg, c, ss, cs, raws, i);
      i := i + 1;
    }
  }

  /**
   * The centring loop of DoLayout: every tile's goal is shifted by the half spans, so the
   * packed block is centred on the origin.
   */
  method CentreAll(tiles: seq<ImageTile>, cfg: Config, ghost raws: seq<Vec3>, ghost f: Cursor,
                   halfX: real, halfY: real)
    requires |raws| == |tiles| && forall a, b :: 0 <= a < b < |tiles| ==> tiles[a] != tiles[b]
    requires halfX == HalfSpan(f.maxX, cfg.imageSize) && halfY == HalfSpan(f.maxY, cfg.imageSize)
    requires forall j :: 0 <= j < |tiles| ==> SentTo(tiles[j], raws[j], cfg, tiles[j].start)
    modifies tiles`start, tiles`goal, tiles`moveTotalTime, tiles`moveTime
    ensures forall j :: 0 <= j < |tiles| ==> SentTo(tiles[j], Centre(cfg, raws[j], f), cfg, old(tiles[j].start))
  {
    var halfImage := cfg.imageSize * 0.5;
    var i := 0;
    while i < |tiles|
      invariant 0 <= i <= |tiles|
      invariant forall j :: 0 <= j < i ==> SentTo(tiles[j], Centre(cfg, raws[j], f), cfg, old(tiles[j].start))
      invariant forall j :: i <= j < |tiles| ==> SentTo(tiles[j], raws[j], cfg, old(tiles[j].start))
    {
      var goal := tiles[i].GetMoveToGoalPosition();
      tiles[i].MoveTo(Vec3(goal.x - halfX + halfImage, goal.y + halfY - halfImage, 0.0), cfg.imageMoveTime);
      i := i + 1;
    }
  }

  /**
   * DoLayout: every tile is sent from where it stands toward its packed position, centred on
   * the origin, with the image move time and the image size; each tile's position and its
   * thumbnail choice are unchanged. Returns the spans handed to the camera boundaries. Tile 0
   * is read before the loop, so there must be at least one tile.
   */
  method DoLayout(ctx: ImageContext, cfg: Config) returns (spanX: real, spanY: real)
    requires ctx.Valid() && ctx.count > 0 && cfg.compactRowCount > 0
    modifies ctx.tiles`start, ctx.tiles`goal, ctx.tiles`moveTotalTime, ctx.tiles`moveTime, ctx.tiles`size
    ensures ctx.Valid()
    ensures forall i :: 0 <= i < |ctx.tiles| ==>
      ctx.tiles[i].active == old(ctx.tiles[i].active) && ctx.tiles[i].pos == old(ctx.tiles[i].pos)
    ensures var f := Final(cfg, Stamps(ctx.tiles));
      spanX == 2.0 * HalfSpan(f.maxX, cfg.imageSize) && spanY == 2.0 * HalfSpan(f.maxY, cfg.imageSize)
    ensures forall i :: 0 <= i < |ctx.tiles| ==> Centred(ctx.tiles[i], cfg, Stamps(ctx.tiles), i, old(ctx.tiles[i].pos))
  {
    spanX, spanY := Arrange(ctx.tiles, cfg);
    forall i | 0 <= i < |ctx.tiles|
      ensures ctx.tiles[i].Valid()
    {
      assert Centred(ctx.tiles[i], cfg, Stamps(ctx.tiles), i, old(ctx.tiles[i].pos));
    }
  }

  /** The two passes of DoLayout over the context's tiles. */
  method Arrange(tiles: seq<ImageTile>, cfg: Config) returns (spanX: real, spanY: real)
    requires |tiles| > 0 && cfg.compactRowCount > 0
    requires forall j :: 0 <= j < |tiles| ==> tiles[j].Valid()
    requires forall a, b :: 0 <= a < b < |tiles| ==> tiles[a] != tiles[b]
    modifies tiles`start, tiles`goal, tiles`moveTotalTime, tiles`moveTime, tiles`size
    ensures var f := Final(cfg, Stamps(tiles));
      spanX == 2.0 * HalfSpan(f.maxX, cfg.imageSize) && spanY == 2.0 * HalfSpan(f.maxY, cfg.imageSize)
    ensures forall i :: 0 <= i < |tiles| ==> Centred(tiles[i], cfg, Stamps(tiles), i, old(tiles[i].pos))
  {
    ghost var ss := Stamps(tiles);
    var prevTime, prevDay, prevYear := tiles[0].GetTimeStamp();
    var c := Cursor(0.0, 0.0, 0, 0, prevDay, prevYear, 0.0, 0.0);
    ghost var cs, raws := Cursors(cfg, ss), Raws(cfg, ss);
    PackingChain(cfg, ss);
    c := PackAll(tiles, cfg, c, ss, cs, raws);
    var halfX := (c.maxX + cfg.imageSize) * 0.5;
    var halfY := (c.maxY + cfg.imageSize) * 0.5;
    CentreAll(tiles, cfg, raws, c, halfX, halfY);
    forall i | 0 <= i < |tiles|
      ensures Centred(tiles[i], cfg, ss, i, old(tiles[i].pos))
    {
      CentredAt(tiles[i], cfg, ss, raws, c, i, old(tiles[i].pos));
    }
    spanX, spanY := halfX * 2.0, halfY * 2.0;
  }
}
