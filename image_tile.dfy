/**
 * An image tile: a quad in the image plane that glides from a start position to a goal
 * position over a fixed time, with up to six thumbnail textures of which one is active.
 */
module Tiles {
  import opened Geometry
  import opened IndexFormat

  // ---------------------------------------------------------------------------------------
  // Thumbnail sizes

  /** The ThumbnailSize enumeration: None = -1, 32x32 = 0, ..., 1024x1024 = 5, MAX = 6. */
  type ThumbnailSize = s: int | -1 <= s <= 6

  const ThumbnailSizeNone: ThumbnailSize := -1
  const ThumbnailSize32: ThumbnailSize := 0
  const ThumbnailSize64: ThumbnailSize := 1
  const ThumbnailSize1024: ThumbnailSize := 5
  const ThumbnailSizeMax: ThumbnailSize := 6

  /** The edge length, in pixels, that each real thumbnail size names. */
  function PixelSize(s: ThumbnailSize): nat
    requires 0 <= s < ThumbnailSizeMax
  {
    if s == 0 then 32
    else if s == 1 then 64
    else if s == 2 then 128
    else if s == 3 then 256
    else if s == 4 then 512
    else 1024
  }

  // ---------------------------------------------------------------------------------------
  // Thumbnail slots

  /** A texture handle of the renderer; 0 means no texture. */
  type TextureHandle = nat

  /** data/thumbnails<folder>/container<number>.dat, kept as its two numbers. */
  datatype ContainerFile = ContainerFile(folder: int, container: int)

  /** What a tile knows about one of its thumbnails. */
  datatype ThumbnailInfo = ThumbnailInfo(
    file: Option<ContainerFile>,
    offset: Unsigned,
    size: Unsigned,
    texHandle: TextureHandle,
    loadPending: bool)

  /** A slot no thumbnail has been added to (the zero-filled initial state). */
  const EmptySlot: ThumbnailInfo := ThumbnailInfo(None, 0, 0, 0, false)

  /** The part of a thumbnail slot that the texture loader reads. */
  type Loader = (Option<ContainerFile>, Unsigned, Unsigned) -> TextureHandle

  // ---------------------------------------------------------------------------------------
  // Interpolation toward the goal

  /** The fraction of the move done when `remaining` of `total` is left. */
  function Progress(remaining: real, total: real): real
    requires total != 0.0
  {
    1.0 - remaining / total
  }

  function LerpCoordinate(start: real, goal: real, p: real): real
  {
    start + (goal - start) * p
  }

  /** start + (goal - start) * (1 - remaining / total), coordinate by coordinate. */
  function Interpolate(start: Vec3, goal: Vec3, remaining: real, total: real): Vec3
    requires total != 0.0
  {
    var p := Progress(remaining, total);
    Vec3(LerpCoordinate(start.x, goal.x, p), LerpCoordinate(start.y, goal.y, p), LerpCoordinate(start.z, goal.z, p))
  }

  /** A coordinate part-way through a move lies between its start and its goal. */
  lemma LerpBetween(start: real, goal: real, p: real)
    requires 0.0 <= p <= 1.0
    ensures Min(start, goal) <= LerpCoordinate(start, goal, p) <= Max(start, goal)
  {
    if start <= goal {
      FractionOfNonNegative(goal - start, p);
    } else {
      FractionOfNonNegative(start - goal, p);
      assert (goal - start) * p == -((start - goal) * p);
    }
  }

  /** A fraction of a non-negative amount lies between zero and the amount. */
  lemma FractionOfNonNegative(a: real, p: real)
    requires a >= 0.0 && 0.0 <= p <= 1.0
    ensures 0.0 <= a * p <= a
  {
    assert a * (1.0 - p) >= 0.0;
  }

  /** With 0 <= remaining <= total, the move's progress is a fraction in [0, 1]. */
  lemma ProgressIsFraction(remaining: real, total: real)
    requires total > 0.0 && 0.0 <= remaining <= total
    ensures 0.0 <= Progress(remaining, total) <= 1.0
  {
    var q := remaining / total;
    assert q * total == remaining;
    assert (1.0 - q) * total == total - remaining;
  }

  /**
   * While a move is under way, every coordinate of the interpolated position lies between the
   * start and the goal.
   */
  lemma {:induction false} InterpolateBetween(start: Vec3, goal: Vec3, remaining: real, total: real)
    requires total > 0.0 && 0.0 <= remaining <= total
    ensures var p := Interpolate(start, goal, remaining, total);
      Min(start.x, goal.x) <= p.x <= Max(start.x, goal.x)
      && Min(start.y, goal.y) <= p.y <= Max(start.y, goal.y)
      && Min(start.z, goal.z) <= p.z <= Max(start.z, goal.z)
  {
    ProgressIsFraction(remaining, total);
    var f := Progress(remaining, total);
    LerpBetween(start.x, goal.x, f);
    LerpBetween(start.y, goal.y, f);
    LerpBetween(start.z, goal.z, f);
  }

  /** With no time remaining, the interpolated position is exactly the goal. */
  lemma InterpolateArrives(start: Vec3, goal: Vec3, total: real)
    requires total != 0.0
    ensures Interpolate(start, goal, 0.0, total) == goal
  {
    assert Progress(0.0, total) == 1.0;
  }

  /** With all the time remaining, the interpolated position is the start. */
  lemma InterpolateDeparts(start: Vec3, goal: Vec3, total: real)
    requires total != 0.0
    ensures Interpolate(start, goal, total, total) == start
  {
    assert Progress(total, total) == 0.0;
  }

  /** The remaining time after a frame of dt: never negative, never more than before when dt >= 0. */
  function RemainingAfter(remaining: real, dt: real): (r: real)
    ensures r >= 0.0 && (r == 0.0 || r == remaining - dt)
    ensures dt >= 0.0 && remaining >= 0.0 ==> r <= remaining
  {
    Max(remaining - dt, 0.0)
  }

  // ---------------------------------------------------------------------------------------
  // The tile

  /** The date a photo was taken, as GetTimeStamp hands it out (all three as `unsigned`). */
  datatype TimeStamp = TimeStamp(timeOfDay: Unsigned, dayOfYear: Unsigned, year: Unsigned)

  class ImageTile {
    var start: Vec3
    var goal: Vec3
    var moveTotalTime: real
    var moveTime: real
    var pos: Vec3
    var size: Vec2
    /** The slot of the active thumbnail, if any (the source keeps a reference into the slot array). */
    var active: Option<nat>

    // The static image data, written once when the image index is loaded.
    const aspectRatio: real
    const timeOfDay: Unsigned
    const dayOfYear: Short
    const year: Short
    const averageRed: real
    const averageGreen: real
    const averageBlue: real

    /** One slot per thumbnail size. */
    const thumbnails: array<ThumbnailInfo>

    ghost predicate Valid()
      reads this
    {
      thumbnails.Length == ThumbnailSizeMax
      && (active.Some? ==> active.value < ThumbnailSizeMax)
      && (moveTime > 0.0 ==> moveTotalTime > 0.0)
    }

    /**
     * A tile as the image loader creates it: the defaults of the default constructor (at the
     * origin, unit size, no move, no active thumbnail, empty slots) and the given static data.
     */
    constructor (aspectRatio: real, timeOfDay: Unsigned, dayOfYear: Short, year: Short,
                 averageRed: real, averageGreen: real, averageBlue: real)
      ensures Valid() && fresh(thumbnails)
      ensures start == Origin && goal == Origin && moveTime == 0.0 && moveTotalTime == 0.0
      ensures pos == Origin && size == Vec2(1.0, 1.0) && active == None
      ensures forall s :: 0 <= s < thumbnails.Length ==> thumbnails[s] == EmptySlot
      ensures this.aspectRatio == aspectRatio && this.timeOfDay == timeOfDay
      ensures this.dayOfYear == dayOfYear && this.year == year
      ensures this.averageRed == averageRed && this.averageGreen == averageGreen && this.averageBlue == averageBlue
    {
      start, goal := Origin, Origin;
      moveTime, moveTotalTime := 0.0, 0.0;
      pos := Origin;
      size := Vec2(1.0, 1.0);
      active := None;
      this.aspectRatio := aspectRatio;
      this.timeOfDay := timeOfDay;
      this.dayOfYear := dayOfYear;
      this.year := year;
      this.averageRed, this.averageGreen, this.averageBlue := averageRed, averageGreen, averageBlue;
      thumbnails := new ThumbnailInfo[ThumbnailSizeMax](_ => EmptySlot);
    }

    /** The stored date; day and year widen from `short` to `unsigned` on the way out. */
    function Stamp(): (t: TimeStamp)
      ensures t.timeOfDay == timeOfDay
      ensures ToInt32(t.dayOfYear) == dayOfYear && ToInt32(t.year) == year
      ensures dayOfYear >= 0 ==> t.dayOfYear == dayOfYear
      ensures year >= 0 ==> t.year == year
    {
      ShortThroughUnsigned(dayOfYear);
      ShortThroughUnsigned(year);
      TimeStamp(timeOfDay, ToUnsigned(dayOfYear), ToUnsigned(year))
    }

    /** GetTimeStamp: the three stored date fields, unchanged apart from the widening. */
    method GetTimeStamp() returns (time: Unsigned, day: Unsigned, yr: Unsigned)
      ensures TimeStamp(time, day, yr) == Stamp()
      ensures time == timeOfDay && ToInt32(day) == dayOfYear && ToInt32(yr) == year
    {
      time := timeOfDay;
      day := ToUnsigned(dayOfYear);
      yr := ToUnsigned(year);
      ShortThroughUnsigned(dayOfYear);
      ShortThroughUnsigned(year);
    }

    /** GetMoveToGoalPosition: the goal of the last MoveTo. */
    method GetMoveToGoalPosition() returns (g: Vec3)
      ensures g == goal
    {
      g := goal;
    }

    /** SetSize overwrites the size and nothing else. */
    method SetSize(sizeX: real, sizeY: real)
      modifies this`size
      ensures size == Vec2(sizeX, sizeY)
    {
      size := Vec2(sizeX, sizeY);
    }

    /** SetPosition overwrites the current position; the move's start, goal and times stay. */
    method SetPosition(p: Vec3)
      modifies this`pos
      ensures pos == p
    {
      pos := p;
    }

    /**
     * MoveTo: the move starts from the current position toward the goal, with the image move
     * time preference as both its total and its remaining time; the position does not change.
     */
    method MoveTo(target: Vec3, imageMoveTime: real)
      requires Valid()
      modifies this`start, this`goal, this`moveTotalTime, this`moveTime
      ensures Valid()
      ensures start == pos && goal == target
      ensures moveTotalTime == imageMoveTime && moveTime == imageMoveTime
    {
      start := pos;
      goal := target;
      moveTotalTime := imageMoveTime;
      moveTime := imageMoveTime;
    }

    /**
     * Tick: while time remains, the remaining time drops by dt (never below zero) and the
     * position is interpolated from start to goal; otherwise nothing changes.
     */
    method Tick(dt: real)
      requires Valid()
      modifies this`moveTime, this`pos
      ensures Valid()
      ensures old(moveTime) <= 0.0 ==> moveTime == old(moveTime) && pos == old(pos)
      ensures old(moveTime) > 0.0 ==>
        moveTime == RemainingAfter(old(moveTime), dt)
        && pos == Interpolate(start, goal, moveTime, moveTotalTime)
    {
      if moveTime > 0.0 {
        moveTime := Max(moveTime - dt, 0.0);
        var progress := 1.0 - moveTime / moveTotalTime;
        pos := Vec3(start.x + (goal.x - start.x) * progress,
                    start.y + (goal.y - start.y) * progress,
                    start.z + (goal.z - start.z) * progress);
      }
    }

    /**
     * The hit test of Outline: the image-plane point lies in the tile's rectangle, edges
     * included.
     */
    predicate Covers(p: Vec2)
      reads this
    {
      p.x >= pos.x - size.x * 0.5 && p.x <= pos.x + size.x * 0.5
      && p.y >= pos.y - size.y * 0.5 && p.y <= pos.y + size.y * 0.5
    }

    /**
     * Outline, given the renderer's unprojected near and far points of the mouse ray: whether
     * the point where the ray meets the image plane is within half the tile's size of its
     * centre along both axes.
     */
    method Outline(near: Vec3, far: Vec3) returns (hit: bool)
      requires near.z != far.z
      ensures var w := ImagePlanePoint(near, far);
        hit <==> Abs(w.x - pos.x) <= size.x * 0.5 && Abs(w.y - pos.y) <= size.y * 0.5
    {
      var r := -far.z / (near.z - far.z);
      var worldX := far.x + r * (near.x - far.x);
      var worldY := far.y + r * (near.y - far.y);
      assert ImagePlanePoint(near, far) == Vec2(worldX, worldY);
      hit := worldX >= pos.x - size.x * 0.5 && worldX <= pos.x + size.x * 0.5
        && worldY >= pos.y - size.y * 0.5 && worldY <= pos.y + size.y * 0.5;
    }

    /** OnLoadComplete: the loaded texture goes into its slot, which becomes the active one. */
    method OnLoadComplete(handle: TextureHandle, slot: nat)
      requires Valid() && slot < thumbnails.Length
      modifies this`active, thumbnails
      ensures Valid()
      ensures active == Some(slot)
      ensures thumbnails[slot] == old(thumbnails[slot]).(texHandle := handle)
      ensures forall s :: 0 <= s < thumbnails.Length && s != slot ==> thumbnails[s] == old(thumbnails[s])
    {
      thumbnails[slot] := thumbnails[slot].(texHandle := handle);
      active := Some(slot);
    }

    /**
     * ActivateThumbnail, in the build without a loader thread: asking for the active slot (or
     * for None when none is active) changes nothing; a slot with no texture and no pending
     * load is loaded on the spot and becomes active; any other request just switches the
     * active slot, and None deactivates.
     */
    method ActivateThumbnail(s: ThumbnailSize, load: Loader)
      requires Valid() && s < ThumbnailSizeMax
      modifies this`active, thumbnails
      ensures Valid()
      ensures active == (if s > ThumbnailSizeNone then Some(s as nat) else None)
      ensures s == ThumbnailSizeNone ==> unchanged(thumbnails)
      ensures s > ThumbnailSizeNone ==>
        var info := old(thumbnails[s]);
        (old(active) != Some(s as nat) && info.texHandle == 0 && !info.loadPending
         ==> thumbnails[s] == info.(texHandle := load(info.file, info.offset, info.size)))
        && (old(active) == Some(s as nat) || info.texHandle != 0 || info.loadPending
         ==> thumbnails[s] == info)
      ensures forall k :: 0 <= k < thumbnails.Length && k != s ==> thumbnails[k] == old(thumbnails[k])
    {
      var requested: Option<nat> := if s > ThumbnailSizeNone then Some(s as nat) else None;
      if active == requested {
        return;
      }
      if requested.Some? && thumbnails[s].texHandle == 0 && !thumbnails[s].loadPending {
        var info := thumbnails[s];
        thumbnails[s] := info.(texHandle := load(info.file, info.offset, info.size));
        active := requested;
      } else {
        active := requested;
      }
    }

    /** AddThumbnailInfo: records where the thumbnail of the given size is stored. */
    method AddThumbnailInfo(s: ThumbnailSize, file: ContainerFile, offset: Unsigned, byteSize: Unsigned)
      requires Valid() && 0 <= s < ThumbnailSizeMax
      modifies thumbnails
      ensures thumbnails[s] == old(thumbnails[s]).(file := Some(file), offset := offset, size := byteSize)
      ensures forall k :: 0 <= k < thumbnails.Length && k != s ==> thumbnails[k] == old(thumbnails[k])
    {
      thumbnails[s] := thumbnails[s].(file := Some(file), offset := offset, size := byteSize);
    }
  }

  function Abs(x: real): real { if x < 0.0 then -x else x }

  /** The hit test is the rectangle test written as distances from the centre. */
  lemma CoversByDistance(t: ImageTile, p: Vec2)
    ensures t.Covers(p) <==> Abs(p.x - t.pos.x) <= t.size.x * 0.5 && Abs(p.y - t.pos.y) <= t.size.y * 0.5
  {
  }

  /**
   * A move with a zero image move time never moves the tile: MoveTo leaves no time remaining,
   * and a tick with no time remaining changes nothing.
   */
  method MoveWithoutMoveTime(t: ImageTile, target: Vec3, dt: real)
    requires t.Valid()
    modifies t
    ensures t.pos == old(t.pos)
  {
    t.MoveTo(target, 0.0);
    t.Tick(dt);
  }

  /** A move that runs its whole time (in frames of non-negative length) ends on the goal. */
  method MoveArrives(t: ImageTile, target: Vec3, time: real, dt: real)
    requires t.Valid() && time > 0.0 && dt >= time
    modifies t
    ensures t.pos == target && t.moveTime == 0.0
  {
    t.MoveTo(target, time);
    t.Tick(dt);
    InterpolateArrives(t.start, t.goal, t.moveTotalTime);
  }

  /**
   * A tick of a move under way, with a frame time that is not negative, leaves every coordinate
   * between the move's start and its goal.
   */
  method TickStaysOnSegment(t: ImageTile, dt: real)
    requires t.Valid() && dt >= 0.0 && 0.0 < t.moveTime <= t.moveTotalTime
    modifies t
    ensures Min(t.start.x, t.goal.x) <= t.pos.x <= Max(t.start.x, t.goal.x)
    ensures Min(t.start.y, t.goal.y) <= t.pos.y <= Max(t.start.y, t.goal.y)
    ensures Min(t.start.z, t.goal.z) <= t.pos.z <= Max(t.start.z, t.goal.z)
  {
    t.Tick(dt);
    InterpolateBetween(t.start, t.goal, t.moveTime, t.moveTotalTime);
  }
}
