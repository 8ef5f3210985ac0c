/**
 * What the layouts share: how a layout pass leaves a tile, and the order facts about scaled
 * offsets their placement arithmetic relies on.
 */
module Layout {
  import opened Geometry
  import opened Preferences
  import opened Tiles

  /**
   * A tile after a layout pass sent it toward `target`: it moves from where it stood, over the
   * image move time, with the image size.
   */
  ghost predicate SentTo(t: ImageTile, target: Vec3, cfg: Config, from: Vec3)
    reads t
  {
    t.Valid() && t.start == from && t.pos == from && t.goal == target
    && t.moveTotalTime == cfg.imageMoveTime && t.moveTime == cfg.imageMoveTime
    && t.size == Vec2(cfg.imageSize, cfg.imageSize)
  }

  /** Scaling by a non-negative factor keeps an order. */
  lemma ScaleMonotone(a: real, b: real, c: real)
    requires a <= b && c >= 0.0
    ensures a * c <= b * c
  {
    assert (b - a) * c >= 0.0;
  }

  /** A factor between 0 and a bound, scaled by a non-negative c, lies between 0 and the bound scaled. */
  lemma ScaleBounded(a: real, bound: real, c: real)
    requires 0.0 <= a <= bound && c >= 0.0
    ensures 0.0 <= a * c <= bound * c
  {
    ScaleMonotone(0.0, a, c);
    ScaleMonotone(a, bound, c);
  }

  /** Scaling by a positive factor keeps a strict order. */
  lemma ScaleStrict(a: real, b: real, c: real)
    requires a < b && c > 0.0
    ensures a * c < b * c
  {
    assert (b - a) * c > 0.0;
  }
}
