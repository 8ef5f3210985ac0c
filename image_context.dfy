/**
 * The image context: the collection of image tiles built from the records of the photo index,
 * with the range of years they span and the fixed day and time ranges every layout uses.
 */
module Images {
  import opened Geometry
  import opened IndexFormat
  import opened Tiles

  // The ranges a layout spreads the tiles over; they do not depend on the tiles.
  const DayMinimum: int := 1
  const DayMaximum: int := 366
  const TimeMinimum: int := 0
  const TimeMaximum: int := 24 * 60 * 60 * 1000

  // ---------------------------------------------------------------------------------------
  // Decoding one thumbnail entry

  /** The thumbnail size a size level names: 0 is 1024x1024, and each level halves it. */
  function SizeOfLevel(level: nat): (s: ThumbnailSize)
    requires level <= 5
    ensures 0 <= s < ThumbnailSizeMax && s == 5 - level
  {
    if level == 0 then 5
    else if level == 1 then 4
    else if level == 2 then 3
    else if level == 3 then 2
    else if level == 4 then 1
    else 0
  }

  /** The thumbnail folder number, 32 << size. */
  function FolderNumber(s: ThumbnailSize): int
    requires 0 <= s < ThumbnailSizeMax
  {
    ((32 as bv32) << (s as nat)) as int
  }

  /** The folder number of every thumbnail size is that size's edge length in pixels. */
  lemma FolderIsPixelSize(s: ThumbnailSize)
    requires 0 <= s < ThumbnailSizeMax
    ensures FolderNumber(s) == PixelSize(s)
  {
    if s == 0 {
      assert (32 as bv32) << 0 == 32;
    } else if s == 1 {
      assert (32 as bv32) << 1 == 64;
    } else if s == 2 {
      assert (32 as bv32) << 2 == 128;
    } else if s == 3 {
      assert (32 as bv32) << 3 == 256;
    } else if s == 4 {
      assert (32 as bv32) << 4 == 512;
    } else {
      assert (32 as bv32) << 5 == 1024;
    }
  }

  /** Level 0 is 1024 pixels and every further level halves the edge length, down to 32 at level 5. */
  lemma LevelsHalve(level: nat)
    requires level < 5
    ensures PixelSize(SizeOfLevel(0)) == 1024 && PixelSize(SizeOfLevel(5)) == 32
    ensures PixelSize(SizeOfLevel(level)) == 2 * PixelSize(SizeOfLevel(level + 1))
  {
  }

  predicate EntriesDecodable(es: seq<ThumbEntry>)
  {
    forall i :: 0 <= i < |es| ==> es[i].imageSize > 0 ==> SizeLevel(es[i].containerIndex) <= 5
  }

  /**
   * A record the loader can take: six thumbnail entries, a non-zero height for the aspect
   * ratio, and a size level of at most 5 in every entry that holds a thumbnail.
   */
  predicate Loadable(r: ImageData)
  {
    |r.thumbnails| == MaxThumbnails && r.height != 0 && EntriesDecodable(r.thumbnails)
  }

  /** The slot a non-empty entry is filed under. */
  function SlotOf(e: ThumbEntry): ThumbnailSize
    requires SizeLevel(e.containerIndex) <= 5
  {
    SizeOfLevel(SizeLevel(e.containerIndex))
  }

  /** The slot contents after adding a non-empty entry. */
  function Filed(info: ThumbnailInfo, e: ThumbEntry): ThumbnailInfo
    requires SizeLevel(e.containerIndex) <= 5
  {
    info.(file := Some(ContainerFile(FolderNumber(SlotOf(e)), ContainerNumber(e.containerIndex))),
          offset := e.fileOffset, size := e.imageSize)
  }

  /**
   * The six thumbnail slots of a new tile after its entries have been added in order: an entry
   * of size 0 is skipped, any other overwrites the slot of its size.
   */
  function SlotsAfter(es: seq<ThumbEntry>): (slots: seq<ThumbnailInfo>)
    requires EntriesDecodable(es)
    ensures |slots| == ThumbnailSizeMax
  {
    if |es| == 0 then seq(ThumbnailSizeMax, _ => EmptySlot)
    else
      var prev := SlotsAfter(es[..|es| - 1]);
      var e := es[|es| - 1];
      if e.imageSize == 0 then prev
      else prev[SlotOf(e) := Filed(prev[SlotOf(e)], e)]
  }

  /** An entry of size 0 leaves every slot as it was. */
  lemma EmptyEntrySkipped(es: seq<ThumbEntry>, e: ThumbEntry)
    requires EntriesDecodable(es) && e.imageSize == 0
    ensures EntriesDecodable(es + [e])
    ensures SlotsAfter(es + [e]) == SlotsAfter(es)
  {
    assert (es + [e])[..|es|] == es;
  }

  /**
   * Every filled slot names the folder of its own size: the file of slot s lies in the folder
   * whose number is s's edge length in pixels, and no texture is loaded yet.
   */
  lemma {:induction false} SlotsInTheirFolders(es: seq<ThumbEntry>)
    requires EntriesDecodable(es)
    ensures forall s :: 0 <= s < ThumbnailSizeMax ==>
      SlotsAfter(es)[s].texHandle == 0 && !SlotsAfter(es)[s].loadPending
      && (SlotsAfter(es)[s].file.Some? ==> SlotsAfter(es)[s].file.value.folder == PixelSize(s))
  {
    if |es| != 0 {
      var init := es[..|es| - 1];
      assert EntriesDecodable(init) by {
        forall i | 0 <= i < |init| ensures init[i].imageSize > 0 ==> SizeLevel(init[i].containerIndex) <= 5 {
          assert init[i] == es[i];
        }
      }
      SlotsInTheirFolders(init);
      var e := es[|es| - 1];
      if e.imageSize != 0 {
        FolderIsPixelSize(SlotOf(e));
      }
    }
  }

  // ---------------------------------------------------------------------------------------
  // The range of years

  /** The smallest year among the records, starting from m. */
  function YearMin(m: int, rs: seq<ImageData>): int
  {
    if |rs| == 0 then m
    else
      var k := YearMin(m, rs[..|rs| - 1]);
      if rs[|rs| - 1].year < k then rs[|rs| - 1].year else k
  }

  /** The largest year among the records, starting from m. */
  function YearMax(m: int, rs: seq<ImageData>): int
  {
    if |rs| == 0 then m
    else
      var k := YearMax(m, rs[..|rs| - 1]);
      if rs[|rs| - 1].year > k then rs[|rs| - 1].year else k
  }

  /**
   * Starting from the largest and the smallest `int`, the extrema bound every record's year,
   * and they are the years of some record when there is one.
   */
  lemma {:induction false} YearRange(rs: seq<ImageData>)
    ensures forall i :: 0 <= i < |rs| ==> YearMin(IntMax, rs) <= rs[i].year <= YearMax(IntMin, rs)
    ensures |rs| > 0 ==> exists i :: 0 <= i < |rs| && rs[i].year == YearMin(IntMax, rs)
    ensures |rs| > 0 ==> exists i :: 0 <= i < |rs| && rs[i].year == YearMax(IntMin, rs)
  {
    if |rs| != 0 {
      var init := rs[..|rs| - 1];
      YearRange(init);
      var n := |rs| - 1;
      forall i | 0 <= i < |rs|
        ensures YearMin(IntMax, rs) <= rs[i].year <= YearMax(IntMin, rs)
      {
        if i < n {
          assert rs[i] == init[i];
        }
      }
      if n > 0 {
        var a :| 0 <= a < |init| && init[a].year == YearMin(IntMax, init);
        var b :| 0 <= b < |init| && init[b].year == YearMax(IntMin, init);
        assert rs[a] == init[a] && rs[b] == init[b];
      }
    }
  }

  /** With no records the extrema keep their initial values, so the minimum exceeds the maximum. */
  lemma EmptyYearRange()
    ensures YearMin(IntMax, []) == IntMax && YearMax(IntMin, []) == IntMin
    ensures YearMin(IntMax, []) > YearMax(IntMin, [])
  {
  }

  // ---------------------------------------------------------------------------------------
  // The context

  /** A tile carries its record's date verbatim and the colour and shape derived from it. */
  predicate TileOf(t: ImageTile, r: ImageData)
    requires r.height != 0
  {
    t.timeOfDay == r.timeOfDay && t.dayOfYear == r.dayOfYear && t.year == r.year
    && t.aspectRatio == r.width as real / r.height as real
    && t.averageRed == r.averageRed as real / 256.0
    && t.averageGreen == r.averageGreen as real / 256.0
    && t.averageBlue == r.averageBlue as real / 256.0
  }

  class ImageContext {
    var minYear: int
    var maxYear: int
    var tiles: seq<ImageTile>
    var count: nat

    ghost predicate Valid()
      reads this, tiles
    {
      count == |tiles|
      && (forall i :: 0 <= i < |tiles| ==> tiles[i].Valid())
      && (forall i, j :: 0 <= i < j < |tiles| ==> tiles[i] != tiles[j])
    }

    /** An empty context, with the year extrema at the largest and smallest `int`. */
    constructor ()
      ensures Valid() && tiles == [] && count == 0
      ensures minYear == IntMax && maxYear == IntMin
    {
      minYear := IntMax;
      maxYear := IntMin;
      tiles := [];
      count := 0;
    }

    /** GetImage: the tile at an index below the image count. */
    method GetImage(i: nat) returns (t: ImageTile)
      requires Valid() && i < count
      ensures t == tiles[i] && t.Valid()
    {
      t := tiles[i];
    }

    /**
     * CreateContext on the records of the index: one tile per record, in record order, each
     * built from its record as Built says; the year extrema take in every record's year.
     */
    method CreateContext(records: seq<ImageData>)
      requires forall i :: 0 <= i < |records| ==> Loadable(records[i])
      modifies this
      ensures Valid() && count == |records| && |tiles| == |records|
      ensures minYear == YearMin(old(minYear), records) && maxYear == YearMax(old(maxYear), records)
      ensures forall i :: 0 <= i < |records| ==> fresh(tiles[i]) && Built(tiles[i], records[i])
    {
      var built := NewTiles(records);
      var lo, hi := YearBounds(minYear, maxYear, records);
      tiles, count := built, |built|;
      minYear, maxYear := lo, hi;
    }
  }

  /** The tile loop of CreateContext: one new tile per record, in record order. */
  method NewTiles(records: seq<ImageData>) returns (built: seq<ImageTile>)
    requires forall i :: 0 <= i < |records| ==> Loadable(records[i])
    ensures |built| == |records|
    ensures forall j, k :: 0 <= j < k < |built| ==> built[j] != built[k]
    ensures forall j :: 0 <= j < |built| ==> fresh(built[j]) && Built(built[j], records[j])
  {
    built := [];
    var i := 0;
    while i < |records|
      invariant 0 <= i <= |records| && |built| == i
      invariant forall j, k :: 0 <= j < k < i ==> built[j] != built[k]
      invariant forall j :: 0 <= j < i ==> fresh(built[j]) && Built(built[j], records[j])
    {
      var t := NewTile(records[i]);
      built := built + [t];
      i := i + 1;
    }
  }

  /** The year updates of CreateContext: each record's year widens the range [lo, hi]. */
  method YearBounds(lo0: int, hi0: int, records: seq<ImageData>) returns (lo: int, hi: int)
    ensures lo == YearMin(lo0, records) && hi == YearMax(hi0, records)
  {
    lo, hi := lo0, hi0;
    var i := 0;
    while i < |records|
      invariant 0 <= i <= |records|
      invariant lo == YearMin(lo0, records[..i]) && hi == YearMax(hi0, records[..i])
    {
      assert records[..i + 1][..i] == records[..i];
      if records[i].year < lo {
        lo := records[i].year;
      }
      if records[i].year > hi {
        hi := records[i].year;
      }
      i := i + 1;
    }
    assert records[..i] == records;
  }

  /**
   * A tile as CreateContext builds it from a record: valid, carrying the record's data, its
   * slots filled from the record's thumbnail entries, not moving and with no active thumbnail.
   */
  ghost predicate Built(t: ImageTile, r: ImageData)
    reads t, t.thumbnails
  {
    Loadable(r) && t.Valid() && TileOf(t, r)
    && t.thumbnails[..] == SlotsAfter(r.thumbnails)
    && t.active == None && t.moveTime == 0.0
  }

  /** The tile of one record: its static data copied, then its thumbnail entries added. */
  method NewTile(r: ImageData) returns (t: ImageTile)
    requires Loadable(r)
    ensures fresh(t) && fresh(t.thumbnails) && Built(t, r)
  {
    t := new ImageTile(r.width as real / r.height as real, r.timeOfDay, r.dayOfYear, r.year,
                       r.averageRed as real / 256.0, r.averageGreen as real / 256.0,
                       r.averageBlue as real / 256.0);
    AddThumbnails(t, r.thumbnails);
  }

  /** The prefixes of decodable entries are decodable, and one more entry is one more step. */
  lemma SlotsStep(es: seq<ThumbEntry>, k: nat)
    requires EntriesDecodable(es) && k < |es|
    ensures EntriesDecodable(es[..k]) && EntriesDecodable(es[..k + 1])
    ensures var prev := SlotsAfter(es[..k]);
      SlotsAfter(es[..k + 1]) ==
        if es[k].imageSize == 0 then prev else prev[SlotOf(es[k]) := Filed(prev[SlotOf(es[k])], es[k])]
  {
    assert es[..k + 1][..k] == es[..k];
    assert forall i :: 0 <= i < k + 1 ==> es[..k + 1][i] == es[i];
  }

  /** One non-empty entry: its size level and container are decoded and its slot is filled. */
  method AddThumbnail(t: ImageTile, e: ThumbEntry)
    requires t.Valid() && SizeLevel(e.containerIndex) <= 5
    modifies t.thumbnails
    ensures t.thumbnails[..] == old(t.thumbnails[..])[SlotOf(e) := Filed(old(t.thumbnails[SlotOf(e)]), e)]
  {
    var level := SizeLevel(e.containerIndex);
    var container := ContainerNumber(e.containerIndex);
    var s := SizeOfLevel(level);
    t.AddThumbnailInfo(s, ContainerFile(FolderNumber(s), container), e.fileOffset, e.imageSize);
  }

  /** The inner loop of CreateContext: each non-empty entry is decoded and filed in its slot. */
  method AddThumbnails(t: ImageTile, es: seq<ThumbEntry>)
    requires t.Valid() && |es| == MaxThumbnails && EntriesDecodable(es)
    requires forall s :: 0 <= s < t.thumbnails.Length ==> t.thumbnails[s] == EmptySlot
    modifies t.thumbnails
    ensures t.thumbnails[..] == SlotsAfter(es)
  {
    var k := 0;
    assert t.thumbnails[..] == SlotsAfter(es[..0]);
    while k < MaxThumbnails
      invariant 0 <= k <= MaxThumbnails && t.Valid()
      invariant t.thumbnails[..] == SlotsAfter(es[..k])
    {
      SlotsStep(es, k);
      var e := es[k];
      if e.imageSize <= 0 {
        k := k + 1;
        continue;
      }
      AddThumbnail(t, e);
      k := k + 1;
    }
    assert es[..k] == es;
  }
}
