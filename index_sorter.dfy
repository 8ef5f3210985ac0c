/**
 * The index sorter tool: it reads the photo index, counts the images of every day of every
 * year, sorts the records by (year, day of year, time of day), writes them back, and writes
 * the non-zero day counts.
 *
 * The two global containers of the tool are the fields of `SorterData`: the record vector
 * and the std::map from year to a vector of day counts, here a list of entries kept in
 * ascending year order, as the map keeps them.
 */
module IndexSorter {
  import opened IndexFormat
  import CompactLayout

  // ---------------------------------------------------------------------------------------
  // The record order

  /**
   * The sort key of a record as one integer: year, then day of year, then time of day, each
   * in its own range of digits.
   */
  function Key(r: ImageData): int
  {
    ((r.year + 0x8000) * 0x1_0000 + (r.dayOfYear + 0x8000)) * 0x1_0000_0000 + r.timeOfDay
  }

  /** Two numbers written with the same base m and low digits below m compare digit by digit. */
  lemma PlaceValue(h1: int, l1: int, h2: int, l2: int, m: int)
    requires m > 0 && 0 <= l1 < m && 0 <= l2 < m
    ensures h1 * m + l1 < h2 * m + l2 <==> h1 < h2 || (h1 == h2 && l1 < l2)
    ensures h1 * m + l1 == h2 * m + l2 <==> h1 == h2 && l1 == l2
  {
    if h1 < h2 {
      MultipleAtLeast(h2 - h1, m);
      assert (h2 - h1) * m == h2 * m - h1 * m;
    } else if h2 < h1 {
      MultipleAtLeast(h1 - h2, m);
      assert (h1 - h2) * m == h1 * m - h2 * m;
    }
  }

  lemma MultipleAtLeast(k: int, m: int)
    requires k >= 1 && m > 0
    ensures k * m >= m
  {
    if k * m < m {
      CompactLayout.ProductBelow(k, m);
    }
  }

  /** The integer key orders records lexicographically by (year, day, time). */
  lemma KeyOrder(a: ImageData, b: ImageData)
    ensures Key(a) < Key(b) <==>
      a.year < b.year || (a.year == b.year && (a.dayOfYear < b.dayOfYear || (a.dayOfYear == b.dayOfYear && a.timeOfDay < b.timeOfDay)))
    ensures Key(a) == Key(b) <==> a.year == b.year && a.dayOfYear == b.dayOfYear && a.timeOfDay == b.timeOfDay
  {
    var ha, hb := (a.year + 0x8000) * 0x1_0000 + (a.dayOfYear + 0x8000), (b.year + 0x8000) * 0x1_0000 + (b.dayOfYear + 0x8000);
    PlaceValue(ha, a.timeOfDay, hb, b.timeOfDay, 0x1_0000_0000);
    PlaceValue(a.year + 0x8000, a.dayOfYear + 0x8000, b.year + 0x8000, b.dayOfYear + 0x8000, 0x1_0000);
  }

  /**
   * IndexFileImageData::operator<: year first, then day of year, then time of day; records
   * with equal keys are not less than each other.
   */
  function Less(a: ImageData, b: ImageData): (r: bool)
    ensures r <==> Key(a) < Key(b)
  {
    KeyOrder(a, b);
    if a.year < b.year then true
    else if a.year > b.year then false
    else if a.dayOfYear < b.dayOfYear then true
    else if a.dayOfYear > b.dayOfYear then false
    else if a.timeOfDay < b.timeOfDay then true
    else if a.timeOfDay > b.timeOfDay then false
    else false
  }

  /** Neither of two records is less than the other exactly when their keys are equal. */
  lemma EquivalentIffSameKey(a: ImageData, b: ImageData)
    ensures !Less(a, b) && !Less(b, a) <==>
      a.year == b.year && a.dayOfYear == b.dayOfYear && a.timeOfDay == b.timeOfDay
  {
    KeyOrder(a, b);
  }

  /** No field but the three key fields affects the order. */
  lemma OnlyKeyFieldsMatter(a: ImageData, b: ImageData, a': ImageData, b': ImageData)
    requires a'.year == a.year && a'.dayOfYear == a.dayOfYear && a'.timeOfDay == a.timeOfDay
    requires b'.year == b.year && b'.dayOfYear == b.dayOfYear && b'.timeOfDay == b.timeOfDay
    ensures Less(a', b') == Less(a, b)
  {
    assert Key(a') == Key(a) && Key(b') == Key(b);
  }

  /** The order is a strict weak order: irreflexive, transitive, and its incomparability too. */
  lemma LessIsStrictWeakOrder(a: ImageData, b: ImageData, c: ImageData)
    ensures !Less(a, a)
    ensures Less(a, b) && Less(b, c) ==> Less(a, c)
    ensures !Less(a, b) && !Less(b, a) && !Less(b, c) && !Less(c, b) ==> !Less(a, c) && !Less(c, a)
  {
  }

  /** Non-decreasing by key: no record is less than one before it. */
  ghost predicate Sorted(s: seq<ImageData>)
  {
    forall i, j :: 0 <= i < j < |s| ==> Key(s[i]) <= Key(s[j])
  }

  lemma SortedHasNoInversion(s: seq<ImageData>)
    ensures Sorted(s) <==> forall i, j :: 0 <= i < j < |s| ==> !Less(s[j], s[i])
  {
  }

  // ---------------------------------------------------------------------------------------
  // The sort

  /**
   * s[..n + 1] is in key order except next to position j, where the record being moved down
   * sits; that record is not above anything after it.
   */
  ghost predicate SortedExcept(s: seq<ImageData>, n: nat, j: nat)
    requires n < |s|
  {
    forall p, q :: 0 <= p < q <= n && q != j ==> Key(s[p]) <= Key(s[q])
  }

  lemma SinkStart(s: seq<ImageData>, n: nat)
    requires n < |s| && Sorted(s[..n])
    ensures SortedExcept(s, n, n)
  {
    forall p, q | 0 <= p < q <= n && q != n
      ensures Key(s[p]) <= Key(s[q])
    {
      assert s[p] == s[..n][p] && s[q] == s[..n][q];
    }
  }

  lemma SinkSwap(s: seq<ImageData>, n: nat, j: nat)
    requires 0 < j <= n < |s| && SortedExcept(s, n, j) && Key(s[j]) < Key(s[j - 1])
    ensures SortedExcept(s[j - 1 := s[j]][j := s[j - 1]], n, j - 1)
  {
  }

  lemma SinkDone(s: seq<ImageData>, n: nat, j: nat)
    requires j <= n < |s| && SortedExcept(s, n, j) && (j == 0 || Key(s[j - 1]) <= Key(s[j]))
    ensures Sorted(s[..n + 1])
  {
    forall p, q | 0 <= p < q <= n
      ensures Key(s[p]) <= Key(s[q])
    {
      if q == j && p < j - 1 {
        assert Key(s[p]) <= Key(s[j - 1]);
      }
    }
  }

  /** Moves a[i] down into the sorted a[..i] by swaps with larger neighbours. */
  method Sink(a: array<ImageData>, i: nat)
    requires i < a.Length && Sorted(a[..i])
    modifies a
    ensures Sorted(a[..i + 1])
    ensures multiset(a[..]) == multiset(old(a[..]))
  {
    SinkStart(a[..], i);
    var j := i;
    while j > 0 && Less(a[j], a[j - 1])
      invariant 0 <= j <= i
      invariant multiset(a[..]) == multiset(old(a[..]))
      invariant SortedExcept(a[..], i, j)
    {
      ghost var s := a[..];
      SinkSwap(s, i, j);
      a[j - 1], a[j] := a[j], a[j - 1];
      assert a[..] == s[j - 1 := s[j]][j := s[j - 1]];
      j := j - 1;
    }
    SinkDone(a[..], i, j);
  }

  /** std::sort over the records: afterwards sorted by key, and the same records. */
  method SortRecords(a: array<ImageData>)
    modifies a
    ensures Sorted(a[..])
    ensures multiset(a[..]) == multiset(old(a[..]))
  {
    var i := 0;
    while i < a.Length
      invariant 0 <= i <= a.Length
      invariant Sorted(a[..i])
      invariant multiset(a[..]) == multiset(old(a[..]))
    {
      Sink(a, i);
      i := i + 1;
    }
    assert a[..a.Length] == a[..];
  }

  // ---------------------------------------------------------------------------------------
  // Day counts

  /** One map entry: a year and its day counts, indexed by day of year. */
  datatype YearCounts = YearCounts(year: Short, days: seq<nat>)

  /** The entries in strictly ascending year order, as the map keeps them. */
  ghost predicate Ascending(dc: seq<YearCounts>)
  {
    forall i, j :: 0 <= i < j < |dc| ==> dc[i].year < dc[j].year
  }

  /** The count a vector holds for a day, 0 past its end. */
  function At(days: seq<nat>, d: nat): nat
  {
    if d < |days| then days[d] else 0
  }

  /** The vector after one more image of day d: zero-padded to length above d, then counted. */
  function Bumped(days: seq<nat>, d: nat): (r: seq<nat>)
    ensures |r| == if d < |days| then |days| else d + 1
    ensures forall e :: 0 <= e < |r| ==> r[e] == At(days, e) + (if e == d then 1 else 0)
  {
    seq(if d < |days| then |days| else d + 1, e requires 0 <= e => At(days, e) + (if e == d then 1 else 0))
  }

  /** The std::map lookup position of a year: the first entry whose year is not below it. */
  function YearSlot(dc: seq<YearCounts>, y: Short): (k: nat)
    ensures k <= |dc|
  {
    if dc == [] || y <= dc[0].year then 0 else 1 + YearSlot(dc[1..], y)
  }

  /** The entries after gDayCounts[y]: an empty entry for y is inserted in order if missing. */
  function WithYear(dc: seq<YearCounts>, y: Short): (r: seq<YearCounts>)
    ensures YearSlot(dc, y) < |r|
  {
    var k := YearSlot(dc, y);
    if k < |dc| && dc[k].year == y then dc else dc[..k] + [YearCounts(y, [])] + dc[k..]
  }

  /** The entries after one image of year y and day d is counted. */
  function Increment(dc: seq<YearCounts>, y: Short, d: nat): seq<YearCounts>
  {
    var e := WithYear(dc, y);
    var k := YearSlot(dc, y);
    e[k := YearCounts(y, Bumped(e[k].days, d))]
  }

  /** The count the entries hold for (y, d): the sum of what every entry of year y holds. */
  function Count(dc: seq<YearCounts>, y: Short, d: nat): nat
  {
    if dc == [] then 0 else Count(dc[..|dc| - 1], y, d) + Held(dc[|dc| - 1], y, d)
  }

  function Held(e: YearCounts, y: Short, d: nat): nat
  {
    if e.year == y then At(e.days, d) else 0
  }

  function Sum(days: seq<nat>): nat
  {
    if days == [] then 0 else Sum(days[..|days| - 1]) + days[|days| - 1]
  }

  /** The sum of all day counts of all years. */
  function Total(dc: seq<YearCounts>): nat
  {
    if dc == [] then 0 else Total(dc[..|dc| - 1]) + Sum(dc[|dc| - 1].days)
  }

  /** The number of records of year y and day d. */
  function Tally(rs: seq<ImageData>, y: Short, d: nat): nat
  {
    if rs == [] then 0
    else Tally(rs[..|rs| - 1], y, d) + (if rs[|rs| - 1].year == y && rs[|rs| - 1].dayOfYear == d then 1 else 0)
  }

  lemma {:induction false} CountAppend(a: seq<YearCounts>, b: seq<YearCounts>, y: Short, d: nat)
    ensures Count(a + b, y, d) == Count(a, y, d) + Count(b, y, d)
    decreases |b|
  {
    if b == [] {
      assert a + b == a;
    } else {
      assert (a + b)[..|a + b| - 1] == a + b[..|b| - 1];
      CountAppend(a, b[..|b| - 1], y, d);
    }
  }

  lemma {:induction false} TotalAppend(a: seq<YearCounts>, b: seq<YearCounts>)
    ensures Total(a + b) == Total(a) + Total(b)
    decreases |b|
  {
    if b == [] {
      assert a + b == a;
    } else {
      assert (a + b)[..|a + b| - 1] == a + b[..|b| - 1];
      TotalAppend(a, b[..|b| - 1]);
    }
  }

  lemma {:induction false} SumAppend(a: seq<nat>, b: seq<nat>)
    ensures Sum(a + b) == Sum(a) + Sum(b)
    decreases |b|
  {
    if b == [] {
      assert a + b == a;
    } else {
      assert (a + b)[..|a + b| - 1] == a + b[..|b| - 1];
      SumAppend(a, b[..|b| - 1]);
    }
  }

  /** Splitting the entries around position k. */
  lemma Around<T>(s: seq<T>, k: nat)
    requires k < |s|
    ensures s == s[..k] + [s[k]] + s[k + 1..]
  {
  }

  /** A vector of zeros sums to zero. */
  lemma {:induction false} SumZeros(s: seq<nat>)
    requires forall e :: 0 <= e < |s| ==> s[e] == 0
    ensures Sum(s) == 0
  {
    if s != [] {
      SumZeros(s[..|s| - 1]);
    }
  }

  /** Counting one image adds exactly one to the sum of a vector. */
  lemma SumBumped(days: seq<nat>, d: nat)
    ensures Sum(Bumped(days, d)) == Sum(days) + 1
  {
    var b := Bumped(days, d);
    var padded := days + seq(|b| - |days|, _ => 0);
    SumAppend(days, seq(|b| - |days|, _ => 0));
    SumZeros(seq(|b| - |days|, _ => 0));
    assert b == padded[..d] + [padded[d] + 1] + padded[d + 1..];
    Around(padded, d);
    SumAppend(padded[..d] + [padded[d] + 1], padded[d + 1..]);
    SumAppend(padded[..d], [padded[d] + 1]);
    SumAppend(padded[..d] + [padded[d]], padded[d + 1..]);
    SumAppend(padded[..d], [padded[d]]);
    assert Sum([padded[d] + 1]) == padded[d] + 1 by { assert [padded[d] + 1][..0] == []; }
    assert Sum([padded[d]]) == padded[d] by { assert [padded[d]][..0] == []; }
  }

  lemma HeldSingle(e: YearCounts, y: Short, d: nat)
    ensures Count([e], y, d) == Held(e, y, d)
  {
    assert [e][..0] == [];
  }

  lemma TotalSingle(e: YearCounts)
    ensures Total([e]) == Sum(e.days)
  {
    assert [e][..0] == [];
  }

  /** Replacing one entry changes the count by the difference of what the two entries hold. */
  lemma {:induction false} CountReplace(s: seq<YearCounts>, k: nat, n: YearCounts, y: Short, d: nat)
    requires k < |s|
    ensures Count(s[k := n], y, d) + Held(s[k], y, d) == Count(s, y, d) + Held(n, y, d)
  {
    var m := |s| - 1;
    if k == m {
      assert s[k := n][..m] == s[..m];
    } else {
      assert s[k := n][..m] == s[..m][k := n];
      CountReplace(s[..m], k, n, y, d);
    }
  }

  /** Inserting an entry adds what it holds to the count. */
  lemma {:induction false} CountInsert(s: seq<YearCounts>, k: nat, n: YearCounts, y: Short, d: nat)
    requires k <= |s|
    ensures Count(s[..k] + [n] + s[k..], y, d) == Count(s, y, d) + Held(n, y, d)
  {
    var t := s[..k] + [n] + s[k..];
    if k == |s| {
      assert t[..|t| - 1] == s;
    } else {
      var m := |s| - 1;
      assert t[..|t| - 1] == s[..m][..k] + [n] + s[..m][k..];
      CountInsert(s[..m], k, n, y, d);
    }
  }

  lemma {:induction false} TotalReplace(s: seq<YearCounts>, k: nat, n: YearCounts)
    requires k < |s|
    ensures Total(s[k := n]) + Sum(s[k].days) == Total(s) + Sum(n.days)
  {
    var m := |s| - 1;
    if k == m {
      assert s[k := n][..m] == s[..m];
    } else {
      assert s[k := n][..m] == s[..m][k := n];
      TotalReplace(s[..m], k, n);
    }
  }

  lemma {:induction false} TotalInsert(s: seq<YearCounts>, k: nat, n: YearCounts)
    requires k <= |s|
    ensures Total(s[..k] + [n] + s[k..]) == Total(s) + Sum(n.days)
  {
    var t := s[..k] + [n] + s[k..];
    if k == |s| {
      assert t[..|t| - 1] == s;
    } else {
      var m := |s| - 1;
      assert t[..|t| - 1] == s[..m][..k] + [n] + s[..m][k..];
      TotalInsert(s[..m], k, n);
    }
  }

  /** Counting one image of (y0, d0) adds one to the count of (y0, d0) and nothing elsewhere. */
  lemma IncrementCounts(dc: seq<YearCounts>, y0: Short, d0: nat, y: Short, d: nat)
    ensures Count(Increment(dc, y0, d0), y, d) == Count(dc, y, d) + (if y == y0 && d == d0 then 1 else 0)
  {
    var k := YearSlot(dc, y0);
    var e := WithYear(dc, y0);
    if !(k < |dc| && dc[k].year == y0) {
      CountInsert(dc, k, YearCounts(y0, []), y, d);
    }
    CountReplace(e, k, YearCounts(y0, Bumped(e[k].days, d0)), y, d);
  }

  /** Counting one image adds one to the total. */
  lemma IncrementTotal(dc: seq<YearCounts>, y0: Short, d0: nat)
    ensures Total(Increment(dc, y0, d0)) == Total(dc) + 1
  {
    var k := YearSlot(dc, y0);
    var e := WithYear(dc, y0);
    if !(k < |dc| && dc[k].year == y0) {
      TotalInsert(dc, k, YearCounts(y0, []));
      assert Sum([]) == 0;
    }
    TotalReplace(e, k, YearCounts(y0, Bumped(e[k].days, d0)));
    SumBumped(e[k].days, d0);
  }

  /** The lookup position splits the ascending entries into years below y and years from y on. */
  lemma {:induction false} YearSlotSplits(dc: seq<YearCounts>, y: Short)
    requires Ascending(dc)
    ensures forall i :: 0 <= i < YearSlot(dc, y) ==> dc[i].year < y
    ensures forall i :: YearSlot(dc, y) <= i < |dc| ==> y <= dc[i].year
  {
    if dc != [] && y > dc[0].year {
      YearSlotSplits(dc[1..], y);
      forall i | 1 <= i < |dc|
        ensures dc[i].year == dc[1..][i - 1].year
      {
      }
    }
  }

  /** The per-year vectors are non-empty, end in a non-zero count, and have at most 2^15 days. */
  ghost predicate Trimmed(dc: seq<YearCounts>)
  {
    forall i :: 0 <= i < |dc| ==> TrimmedDays(dc[i].days)
  }

  /** One year's vector is non-empty, at most 0x8000 long and ends in a count. */
  ghost predicate TrimmedDays(days: seq<nat>)
  {
    0 < |days| <= 0x8000 && days[|days| - 1] > 0
  }

  /** Counting a day below 0x8000 leaves an empty or trimmed vector trimmed. */
  lemma BumpedTrimmed(days: seq<nat>, d: nat)
    requires days == [] || TrimmedDays(days)
    requires d < 0x8000
    ensures TrimmedDays(Bumped(days, d))
  {
    var r := Bumped(days, d);
    if d < |days| {
      assert r[|r| - 1] == days[|days| - 1] + (if |days| - 1 == d then 1 else 0);
    } else {
      assert r[|r| - 1] == At(days, d) + 1;
    }
  }

  /** Every entry after the lookup is an old entry, except a fresh empty one at the lookup position. */
  lemma WithYearMembers(dc: seq<YearCounts>, y: Short)
    ensures forall i :: 0 <= i < |WithYear(dc, y)| && i != YearSlot(dc, y) ==> WithYear(dc, y)[i] in dc
    ensures WithYear(dc, y)[YearSlot(dc, y)] in dc || WithYear(dc, y)[YearSlot(dc, y)].days == []
  {
    var k := YearSlot(dc, y);
    if !(k < |dc| && dc[k].year == y) {
      var e := WithYear(dc, y);
      assert forall i :: 0 <= i < k ==> e[i] == dc[i];
      assert forall i :: k < i < |e| ==> e[i] == dc[i - 1];
    }
  }

  /** Looking up a year keeps the entries ascending, and the year is at the lookup position. */
  lemma WithYearAscending(dc: seq<YearCounts>, y: Short)
    requires Ascending(dc)
    ensures Ascending(WithYear(dc, y)) && WithYear(dc, y)[YearSlot(dc, y)].year == y
    ensures forall i :: 0 <= i < |WithYear(dc, y)| && i != YearSlot(dc, y) ==> WithYear(dc, y)[i] in dc
  {
    YearSlotSplits(dc, y);
  }

  /** Counting one image keeps the entries ascending. */
  lemma IncrementAscending(dc: seq<YearCounts>, y0: Short, d0: nat)
    requires Ascending(dc)
    ensures Ascending(Increment(dc, y0, d0))
  {
    WithYearAscending(dc, y0);
    var e := WithYear(dc, y0);
    var r := Increment(dc, y0, d0);
    assert forall i :: 0 <= i < |r| ==> r[i].year == e[i].year;
  }

  /** Counting one image keeps every vector non-empty, short enough, and ending in a count. */
  lemma IncrementTrimmed(dc: seq<YearCounts>, y0: Short, d0: nat)
    requires Trimmed(dc) && d0 < 0x8000
    ensures Trimmed(Increment(dc, y0, d0))
  {
    var k := YearSlot(dc, y0);
    WithYearMembers(dc, y0);
    var e := WithYear(dc, y0);
    BumpedTrimmed(e[k].days, d0);
    var r := Increment(dc, y0, d0);
    forall i | 0 <= i < |r|
      ensures TrimmedDays(r[i].days)
    {
      if i != k {
        assert r[i] == e[i] && e[i] in dc;
      }
    }
  }

  /** The counts `after` are those of `before` plus one per record of rs. */
  ghost predicate CountsAdd(after: seq<YearCounts>, before: seq<YearCounts>, rs: seq<ImageData>)
  {
    forall y: Short, d: nat :: Count(after, y, d) == Count(before, y, d) + Tally(rs, y, d)
  }

  /** The entries before and after counting record i of rs, as the parse loop keeps them. */
  ghost predicate Parsed(after: seq<YearCounts>, before: seq<YearCounts>, rs: seq<ImageData>, i: nat)
    requires i <= |rs|
  {
    Ascending(after) && Trimmed(after) && CountsAdd(after, before, rs[..i]) && Total(after) == Total(before) + i
  }

  /** Counting record i of rs adds it to the counts of the records before it. */
  lemma CountsStep(before: seq<YearCounts>, counts: seq<YearCounts>, rs: seq<ImageData>, i: nat)
    requires i < |rs| && 0 <= rs[i].dayOfYear
    requires CountsAdd(counts, before, rs[..i])
    ensures CountsAdd(Increment(counts, rs[i].year, rs[i].dayOfYear), before, rs[..i + 1])
  {
    var r := rs[i];
    var after := Increment(counts, r.year, r.dayOfYear);
    var p := rs[..i + 1];
    assert p[..|p| - 1] == rs[..i] && p[|p| - 1] == r;
    forall y: Short, d: nat
      ensures Count(after, y, d) == Count(before, y, d) + Tally(p, y, d)
    {
      IncrementCounts(counts, r.year, r.dayOfYear, y, d);
    }
  }

  /** Counting record i of rs takes the parse state from i records to i + 1. */
  lemma ParseStep(before: seq<YearCounts>, counts: seq<YearCounts>, next: seq<YearCounts>, rs: seq<ImageData>, i: nat)
    requires i < |rs| && 0 <= rs[i].dayOfYear
    requires Parsed(counts, before, rs, i) && next == Increment(counts, rs[i].year, rs[i].dayOfYear)
    ensures Parsed(next, before, rs, i + 1)
  {
    var r := rs[i];
    IncrementAscending(counts, r.year, r.dayOfYear);
    IncrementTrimmed(counts, r.year, r.dayOfYear);
    IncrementTotal(counts, r.year, r.dayOfYear);
    CountsStep(before, counts, rs, i);
  }

  /** The day counts after each record of rs, in order, is counted into dc. */
  function CountAll(dc: seq<YearCounts>, rs: seq<ImageData>): seq<YearCounts>
    requires forall i :: 0 <= i < |rs| ==> rs[i].dayOfYear >= 0
  {
    if rs == [] then dc
    else Increment(CountAll(dc, rs[..|rs| - 1]), rs[|rs| - 1].year, rs[|rs| - 1].dayOfYear)
  }

  /**
   * Counting all records keeps the entries ascending and trimmed, adds one to the count of
   * each record's year and day, and adds the number of records to the total.
   */
  lemma {:induction false} CountAllParsed(dc: seq<YearCounts>, rs: seq<ImageData>)
    requires Ascending(dc) && Trimmed(dc)
    requires forall i :: 0 <= i < |rs| ==> rs[i].dayOfYear >= 0
    ensures Parsed(CountAll(dc, rs), dc, rs, |rs|)
  {
    if rs == [] {
      assert rs[..0] == [];
    } else {
      var init := rs[..|rs| - 1];
      CountAllParsed(dc, init);
      assert init[..|init|] == init;
      ParseStep(dc, CountAll(dc, init), CountAll(dc, rs), rs, |rs| - 1);
    }
  }

  /** In ascending entries the entry of year y holds the whole count of (y, d). */
  lemma {:induction false} EntryHoldsCount(dc: seq<YearCounts>, i: nat, d: nat)
    requires Ascending(dc) && i < |dc|
    ensures Count(dc, dc[i].year, d) == At(dc[i].days, d)
  {
    var y := dc[i].year;
    var init := dc[..|dc| - 1];
    if i == |dc| - 1 {
      NoEntryNoCount(init, y, d);
    } else {
      EntryHoldsCount(init, i, d);
    }
  }

  /** Entries of other years hold nothing of year y. */
  lemma {:induction false} NoEntryNoCount(dc: seq<YearCounts>, y: Short, d: nat)
    requires forall i :: 0 <= i < |dc| ==> dc[i].year != y
    ensures Count(dc, y, d) == 0
  {
    if dc != [] {
      NoEntryNoCount(dc[..|dc| - 1], y, d);
    }
  }

  // ---------------------------------------------------------------------------------------
  // The count listing

  /** One record of the count file. */
  datatype CountEntry = CountEntry(year: Short, day: Short, count: nat)

  /** The entries one year contributes: its days with a non-zero count, in day order. */
  function YearListing(y: Short, days: seq<nat>): (r: seq<CountEntry>)
    requires |days| <= 0x8000
  {
    if days == [] then []
    else
      var d := |days| - 1;
      YearListing(y, days[..d]) + if days[d] > 0 then [CountEntry(y, d, days[d])] else []
  }

  /** The whole count file: every year in map order, each with its non-zero days. */
  function Listing(dc: seq<YearCounts>): seq<CountEntry>
    requires Trimmed(dc)
  {
    if dc == [] then []
    else
      var last := dc[|dc| - 1];
      Listing(dc[..|dc| - 1]) + YearListing(last.year, last.days)
  }

  /** Strictly before in the count file: an earlier year, or the same year and an earlier day. */
  predicate Before(a: CountEntry, b: CountEntry)
  {
    a.year < b.year || (a.year == b.year && a.day < b.day)
  }

  function SumCounts(es: seq<CountEntry>): nat
  {
    if es == [] then 0 else SumCounts(es[..|es| - 1]) + es[|es| - 1].count
  }

  lemma {:induction false} SumCountsAppend(a: seq<CountEntry>, b: seq<CountEntry>)
    ensures SumCounts(a + b) == SumCounts(a) + SumCounts(b)
    decreases |b|
  {
    if b == [] {
      assert a + b == a;
    } else {
      assert (a + b)[..|a + b| - 1] == a + b[..|b| - 1];
      SumCountsAppend(a, b[..|b| - 1]);
    }
  }

  /** A year's entries add up to the year's total. */
  lemma {:induction false} YearListingSum(y: Short, days: seq<nat>)
    requires |days| <= 0x8000
    ensures SumCounts(YearListing(y, days)) == Sum(days)
  {
    if days != [] {
      var d := |days| - 1;
      var tail := if days[d] > 0 then [CountEntry(y, d, days[d])] else [];
      YearListingSum(y, days[..d]);
      SumCountsAppend(YearListing(y, days[..d]), tail);
      assert SumCounts(tail) == days[d] by {
        if days[d] > 0 { assert tail[..0] == []; }
      }
    }
  }

  /** A year's entries are exactly its days with a non-zero count. */
  lemma {:induction false} YearListingMembers(y: Short, days: seq<nat>)
    requires |days| <= 0x8000
    ensures forall e :: e in YearListing(y, days) <==> e.year == y && 0 <= e.day < |days| && days[e.day] == e.count > 0
  {
    if days != [] {
      YearListingMembers(y, days[..|days| - 1]);
    }
  }

  /** A year's entries are in increasing day order. */
  lemma {:induction false} YearListingOrdered(y: Short, days: seq<nat>)
    requires |days| <= 0x8000
    ensures forall i, j :: 0 <= i < j < |YearListing(y, days)| ==> YearListing(y, days)[i].day < YearListing(y, days)[j].day
  {
    if days != [] {
      var d := |days| - 1;
      YearListingOrdered(y, days[..d]);
      YearListingMembers(y, days[..d]);
      var l, a := YearListing(y, days), YearListing(y, days[..d]);
      forall i, j | 0 <= i < j < |l|
        ensures l[i].day < l[j].day
      {
        if j >= |a| {
          assert l[i] == a[i] && a[i] in a;
        }
      }
    }
  }

  /** The count file adds up to the total of all day counts. */
  lemma {:induction false} ListingSum(dc: seq<YearCounts>)
    requires Trimmed(dc)
    ensures SumCounts(Listing(dc)) == Total(dc)
  {
    if dc != [] {
      var last := dc[|dc| - 1];
      ListingSum(dc[..|dc| - 1]);
      YearListingSum(last.year, last.days);
      SumCountsAppend(Listing(dc[..|dc| - 1]), YearListing(last.year, last.days));
    }
  }

  /** An entry of year y and day d with count c is in some vector of year y at d, and c > 0. */
  ghost predicate Stored(dc: seq<YearCounts>, e: CountEntry)
  {
    exists i :: 0 <= i < |dc| && dc[i].year == e.year && 0 <= e.day < |dc[i].days| && dc[i].days[e.day] == e.count > 0
  }

  /** A count is stored in non-empty entries iff it is stored before the last entry or in it. */
  lemma StoredSplit(dc: seq<YearCounts>, e: CountEntry)
    requires dc != []
    ensures Stored(dc, e) <==>
      (Stored(dc[..|dc| - 1], e) ||
       (dc[|dc| - 1].year == e.year && 0 <= e.day < |dc[|dc| - 1].days| && dc[|dc| - 1].days[e.day] == e.count > 0))
  {
    var init := dc[..|dc| - 1];
    if Stored(init, e) {
      var i :| 0 <= i < |init| && init[i].year == e.year && 0 <= e.day < |init[i].days| && init[i].days[e.day] == e.count > 0;
      assert dc[i] == init[i];
    }
    if Stored(dc, e) {
      var i :| 0 <= i < |dc| && dc[i].year == e.year && 0 <= e.day < |dc[i].days| && dc[i].days[e.day] == e.count > 0;
      if i < |init| {
        assert init[i] == dc[i];
      }
    }
  }

  /** The count file lists exactly the stored non-zero counts. */
  lemma {:induction false} ListingMembers(dc: seq<YearCounts>)
    requires Trimmed(dc)
    ensures forall e :: e in Listing(dc) <==> Stored(dc, e)
  {
    if dc != [] {
      var init := dc[..|dc| - 1];
      var last := dc[|dc| - 1];
      assert Trimmed(init) by {
        forall i | 0 <= i < |init|
          ensures TrimmedDays(init[i].days)
        {
          assert init[i] == dc[i];
        }
      }
      ListingMembers(init);
      YearListingMembers(last.year, last.days);
      assert Listing(dc) == Listing(init) + YearListing(last.year, last.days);
      forall e
        ensures e in Listing(dc) <==> Stored(dc, e)
      {
        StoredSplit(dc, e);
      }
    }
  }

  /** In ascending entries, the count file's years are at most the last entry's year. */
  lemma ListingYearsBounded(dc: seq<YearCounts>)
    requires Trimmed(dc) && Ascending(dc) && |dc| > 0
    ensures forall e :: e in Listing(dc) ==> e.year <= dc[|dc| - 1].year
  {
    ListingMembers(dc);
    forall e | e in Listing(dc)
      ensures e.year <= dc[|dc| - 1].year
    {
      var i :| 0 <= i < |dc| && dc[i].year == e.year && 0 <= e.day < |dc[i].days| && dc[i].days[e.day] == e.count > 0;
    }
  }

  /** For ascending entries the count file is in (year, day) order. */
  lemma {:induction false} ListingOrdered(dc: seq<YearCounts>)
    requires Trimmed(dc) && Ascending(dc)
    ensures forall i, j :: 0 <= i < j < |Listing(dc)| ==> Before(Listing(dc)[i], Listing(dc)[j])
  {
    if dc != [] {
      var init := dc[..|dc| - 1];
      var last := dc[|dc| - 1];
      ListingOrdered(init);
      YearListingOrdered(last.year, last.days);
      YearListingMembers(last.year, last.days);
      var l, a, b := Listing(dc), Listing(init), YearListing(last.year, last.days);
      if init != [] {
        ListingYearsBounded(init);
        assert init[|init| - 1].year < last.year;
      }
      forall i, j | 0 <= i < j < |l|
        ensures Before(l[i], l[j])
      {
        if j < |a| {
          assert l[i] == a[i] && l[j] == a[j];
        } else if i < |a| {
          assert l[i] == a[i] && a[i] in a && l[j] == b[j - |a|] && b[j - |a|] in b;
        } else {
          assert l[i] == b[i - |a|] && l[j] == b[j - |a|];
        }
      }
    }
  }

  /**
   * The count file lists, for ascending entries, exactly the (year, day) pairs with a non-zero
   * count, each with that count.
   */
  lemma ListingIsCounts(dc: seq<YearCounts>, e: CountEntry)
    requires Trimmed(dc) && Ascending(dc)
    ensures e in Listing(dc) <==> e.day >= 0 && e.count > 0 && Count(dc, e.year, e.day) == e.count
  {
    ListingMembers(dc);
    if e.day >= 0 && e.count > 0 && Count(dc, e.year, e.day) == e.count {
      if exists i :: 0 <= i < |dc| && dc[i].year == e.year {
        var i :| 0 <= i < |dc| && dc[i].year == e.year;
        EntryHoldsCount(dc, i, e.day);
      } else {
        NoEntryNoCount(dc, e.year, e.day);
      }
    }
    if e in Listing(dc) {
      var i :| 0 <= i < |dc| && dc[i].year == e.year && 0 <= e.day < |dc[i].days| && dc[i].days[e.day] == e.count > 0;
      EntryHoldsCount(dc, i, e.day);
    }
  }

  // ---------------------------------------------------------------------------------------
  // The tool's state and its three passes

  /** One image counted: gDayCounts[year] looked up, padded past the day, and incremented. */
  method CountRecord(dc: seq<YearCounts>, y: Short, d: nat) returns (r: seq<YearCounts>)
    ensures r == Increment(dc, y, d)
  {
    var k := YearSlot(dc, y);
    r := dc;
    if !(k < |r| && r[k].year == y) {
      r := r[..k] + [YearCounts(y, [])] + r[k..];
    }
    var days := r[k].days;
    while |days| <= d
      invariant |r[k].days| <= |days| <= if d < |r[k].days| then |r[k].days| else d + 1
      invariant forall e :: 0 <= e < |days| ==> days[e] == At(r[k].days, e)
    {
      days := days + [0];
    }
    days := days[d := days[d] + 1];
    assert days == Bumped(r[k].days, d);
    r := r[k := YearCounts(y, days)];
  }

  /** The prefix one longer is the prefix followed by the next element. */
  lemma PrefixExtends<T>(s: seq<T>, i: nat)
    requires i < |s|
    ensures s[..i + 1] == s[..i] + [s[i]] && s[..i + 1][..i] == s[..i]
  {
  }

  /**
   * The loop of ParseIndexFile on the image list and day counts it starts from: each record is
   * appended and counted under its year and day.
   */
  method ParseRecords(images0: seq<ImageData>, counts0: seq<YearCounts>, records: seq<ImageData>)
    returns (images: seq<ImageData>, counts: seq<YearCounts>)
    requires Ascending(counts0) && Trimmed(counts0)
    requires forall i :: 0 <= i < |records| ==> records[i].dayOfYear >= 0
    ensures images == images0 + records
    ensures counts == CountAll(counts0, records)
    ensures Ascending(counts) && Trimmed(counts)
    ensures CountsAdd(counts, counts0, records)
    ensures Total(counts) == Total(counts0) + |records|
  {
    images, counts := images0, counts0;
    assert records[..0] == [];
    var i := 0;
    while i < |records|
      invariant 0 <= i <= |records|
      invariant images == images0 + records[..i]
      invariant counts == CountAll(counts0, records[..i])
    {
      var r := records[i];
      PrefixExtends(records, i);
      images := images + [r];
      counts := CountRecord(counts, r.year, r.dayOfYear);
      i := i + 1;
    }
    assert records[..i] == records;
    CountAllParsed(counts0, records);
  }

  /** The tool's two global containers. */
  class SorterData {
    var imageData: seq<ImageData>
    var dayCounts: seq<YearCounts>

    ghost predicate Valid()
      reads this
    {
      Ascending(dayCounts) && Trimmed(dayCounts) && |imageData| < UnsignedModulus
    }

    constructor ()
      ensures Valid() && imageData == [] && dayCounts == []
    {
      imageData := [];
      dayCounts := [];
    }

    /**
     * ParseIndexFile, on the records the file holds: each record is appended and counted
     * under its year and day. A negative day would index before the vector's start, so every
     * day must be non-negative.
     */
    method ParseIndexFile(records: seq<ImageData>)
      requires Valid() && |imageData| + |records| < UnsignedModulus
      requires forall i :: 0 <= i < |records| ==> records[i].dayOfYear >= 0
      modifies this`imageData, this`dayCounts
      ensures Valid()
      ensures imageData == old(imageData) + records
      ensures CountsAdd(dayCounts, old(dayCounts), records)
      ensures Total(dayCounts) == Total(old(dayCounts)) + |records|
    {
      imageData, dayCounts := ParseRecords(imageData, dayCounts, records);
    }

    /**
     * WriteSortedIndexFile: the records are sorted in place, then the image count and the
     * records are written, in that order.
     */
    method WriteSortedIndexFile() returns (count: Unsigned, written: seq<ImageData>)
      requires Valid()
      modifies this`imageData
      ensures Valid()
      ensures Sorted(imageData) && multiset(imageData) == multiset(old(imageData))
      ensures |imageData| == |old(imageData)|
      ensures count == |imageData| && written == imageData
    {
      var s := imageData;
      var a := new ImageData[|s|](i requires 0 <= i < |s| => s[i]);
      assert a[..] == s;
      SortRecords(a);
      imageData := a[..];
      count := |imageData|;
      written := [];
      var i := 0;
      while i < count
        invariant 0 <= i <= count && written == imageData[..i]
      {
        written := written + [imageData[i]];
        i := i + 1;
      }
    }

    /** WriteIndexCountFile: every year in order, and within it every day whose count is not zero. */
    method WriteIndexCountFile() returns (out: seq<CountEntry>)
      requires Valid()
      ensures out == Listing(dayCounts)
    {
      out := [];
      var k := 0;
      while k < |dayCounts|
        invariant 0 <= k <= |dayCounts|
        invariant out == Listing(dayCounts[..k])
      {
        var entry := dayCounts[k];
        var i := 0;
        while i < |entry.days|
          invariant 0 <= i <= |entry.days|
          invariant out == Listing(dayCounts[..k]) + YearListing(entry.year, entry.days[..i])
        {
          assert entry.days[..i + 1][..i] == entry.days[..i];
          if entry.days[i] > 0 {
            out := out + [CountEntry(entry.year, i, entry.days[i])];
          }
          i := i + 1;
        }
        assert entry.days[..i] == entry.days;
        assert dayCounts[..k + 1][..k] == dayCounts[..k];
        k := k + 1;
      }
      assert dayCounts[..k] == dayCounts;
    }
  }

  /**
   * The tool's run on the records of one index file: the sorted file holds the same records in
   * key order behind their number, and the count file's counts add up to that number.
   */
  method SortIndex(records: seq<ImageData>) returns (count: Unsigned, written: seq<ImageData>, counts: seq<CountEntry>)
    requires |records| < UnsignedModulus
    requires forall i :: 0 <= i < |records| ==> records[i].dayOfYear >= 0
    ensures count == |records| && Sorted(written) && multiset(written) == multiset(records)
    ensures SumCounts(counts) == |records|
    ensures forall i, j :: 0 <= i < j < |counts| ==> Before(counts[i], counts[j])
    ensures forall e :: e in counts ==> e.day >= 0 && e.count > 0 && e.count == Tally(records, e.year, e.day)
  {
    var data := new SorterData();
    data.ParseIndexFile(records);
    count, written := data.WriteSortedIndexFile();
    counts := data.WriteIndexCountFile();
    ListingSum(data.dayCounts);
    ListingOrdered(data.dayCounts);
    forall e | e in counts
      ensures e.day >= 0 && e.count > 0 && e.count == Tally(records, e.year, e.day)
    {
      ListingIsCounts(data.dayCounts, e);
    }
  }
}
