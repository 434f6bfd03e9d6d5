/**
 * The cloud organizer: reorders a cloud collected in firing order (all lasers
 * of firing 0, then of firing 1, ...) into ring-major order, top ring first,
 * keeping firing order within a ring. Points past the last whole firing are
 * dropped.
 */
module CloudOrganizer {
  import opened M8Packet

  /** a * b by repeated addition: the proofs below reason about this
      recursive form, which keeps the solver's arithmetic linear. */
  function Times(a: nat, b: nat): nat
  {
    if a == 0 then 0 else Times(a - 1, b) + b
  }

  lemma {:induction false} TimesIsProduct(a: nat, b: nat)
    ensures Times(a, b) == a * b
  {
    if a > 0 {
      TimesIsProduct(a - 1, b);
      assert (a - 1) * b + b == a * b;
    }
  }

  lemma {:induction false} TimesMonotone(a: nat, c: nat, b: nat)
    requires a <= c
    ensures Times(a, b) <= Times(c, b)
    decreases c - a
  {
    if a < c {
      TimesMonotone(a, c - 1, b);
    }
  }

  /** Row r, column j of a grid `width` wide lies inside the first n rows when r < n. */
  lemma RowFits(r: nat, n: nat, width: nat, j: nat)
    requires r < n && j < width
    ensures Times(r, width) + j < Times(n, width)
  {
    TimesMonotone(r + 1, n, width);
  }

  /** Whole firings fit: width * lasers never exceeds the point count. */
  lemma WidthFits(size: nat, lasers: nat)
    requires lasers > 0
    ensures Times(size / lasers, lasers) <= size
  {
    TimesIsProduct(size / lasers, lasers);
  }

  /** The first `n` points of ring `i`: laser `i` of firings 0 .. n-1. */
  function RingPoints<T>(pts: seq<T>, lasers: nat, i: nat, n: nat): seq<T>
    requires i < lasers && Times(n, lasers) <= |pts|
  {
    if n == 0 then []
    else RingPoints(pts, lasers, i, n - 1) + [pts[Times(n - 1, lasers) + i]]
  }

  /** Rings lasers-1 down to lasers-m, each `width` points long, concatenated. */
  function RingMajor<T>(pts: seq<T>, lasers: nat, width: nat, m: nat): seq<T>
    requires m <= lasers && Times(width, lasers) <= |pts|
  {
    if m == 0 then []
    else RingMajor(pts, lasers, width, m - 1) + RingPoints(pts, lasers, lasers - m, width)
  }

  /** The organized order of a whole cloud: ring lasers-1 first, ring 0 last,
      each ring's points in firing order. It only drops points, never adds. */
  function Organized<T>(pts: seq<T>, lasers: nat): (r: seq<T>)
    requires lasers > 0
    ensures |r| <= |pts|
  {
    var w := |pts| / lasers;
    WidthFits(|pts|, lasers);
    RingMajorLength(pts, lasers, w, lasers);
    TimesIsProduct(lasers, w);
    TimesIsProduct(w, lasers);
    RingMajor(pts, lasers, w, lasers)
  }

  lemma {:induction false} RingPointsAt<T>(pts: seq<T>, lasers: nat, i: nat, n: nat, j: nat)
    requires i < lasers && Times(n, lasers) <= |pts| && j < n
    ensures |RingPoints(pts, lasers, i, n)| == n
    ensures Times(j, lasers) + i < |pts| && RingPoints(pts, lasers, i, n)[j] == pts[Times(j, lasers) + i]
  {
    RingPointsLength(pts, lasers, i, n);
    RowFits(j, n, lasers, i);
    if j < n - 1 {
      RingPointsAt(pts, lasers, i, n - 1, j);
    }
  }

  lemma {:induction false} RingPointsLength<T>(pts: seq<T>, lasers: nat, i: nat, n: nat)
    requires i < lasers && Times(n, lasers) <= |pts|
    ensures |RingPoints(pts, lasers, i, n)| == n
  {
    if n > 0 {
      RingPointsLength(pts, lasers, i, n - 1);
    }
  }

  lemma {:induction false} RingMajorLength<T>(pts: seq<T>, lasers: nat, width: nat, m: nat)
    requires m <= lasers && Times(width, lasers) <= |pts|
    ensures |RingMajor(pts, lasers, width, m)| == Times(m, width)
  {
    if m > 0 {
      RingMajorLength(pts, lasers, width, m - 1);
      RingPointsLength(pts, lasers, lasers - m, width);
    }
  }

  /** Where ring i, firing j lands among rings lasers-1 .. lasers-m. */
  lemma {:induction false} RingMajorAt<T>(pts: seq<T>, lasers: nat, width: nat, m: nat, i: nat, j: nat)
    requires m <= lasers && Times(width, lasers) <= |pts|
    requires lasers - m <= i < lasers && j < width
    ensures Times(lasers - 1 - i, width) + j < |RingMajor(pts, lasers, width, m)|
    ensures Times(j, lasers) + i < |pts|
    ensures RingMajor(pts, lasers, width, m)[Times(lasers - 1 - i, width) + j] == pts[Times(j, lasers) + i]
  {
    var r := lasers - 1 - i;
    RingMajorLength(pts, lasers, width, m - 1);
    RingPointsLength(pts, lasers, lasers - m, width);
    if r < m - 1 {
      RowFits(r, m - 1, width, j);
      RingMajorAt(pts, lasers, width, m - 1, i, j);
    } else {
      RingPointsAt(pts, lasers, i, width, j);
    }
  }

  /** The organized cloud holds lasers * width points: the remainder of an
      incomplete last firing is dropped. */
  lemma OrganizedLength<T>(pts: seq<T>, lasers: nat)
    requires lasers > 0
    ensures |Organized(pts, lasers)| == lasers * (|pts| / lasers)
  {
    WidthFits(|pts|, lasers);
    RingMajorLength(pts, lasers, |pts| / lasers, lasers);
    TimesIsProduct(lasers, |pts| / lasers);
  }

  /** Laser i of firing j lands at row lasers-1-i (top ring first), column j. */
  lemma OrganizedAt<T>(pts: seq<T>, lasers: nat, i: nat, j: nat)
    requires lasers > 0 && i < lasers && j < |pts| / lasers
    ensures 0 <= j * lasers + i < |pts|
    ensures 0 <= (lasers - 1 - i) * (|pts| / lasers) + j < |Organized(pts, lasers)|
    ensures Organized(pts, lasers)[(lasers - 1 - i) * (|pts| / lasers) + j] == pts[j * lasers + i]
  {
    var w := |pts| / lasers;
    OrganizedAtTimes(pts, lasers, i, j);
    TimesIsProduct(lasers - 1 - i, w);
    TimesIsProduct(j, lasers);
  }

  /** OrganizedAt, with the products as Times. */
  lemma OrganizedAtTimes<T>(pts: seq<T>, lasers: nat, i: nat, j: nat)
    requires lasers > 0 && i < lasers && j < |pts| / lasers
    ensures var w := |pts| / lasers;
            && Times(j, lasers) + i < |pts|
            && Times(lasers - 1 - i, w) + j < |Organized(pts, lasers)|
            && Organized(pts, lasers)[Times(lasers - 1 - i, w) + j] == pts[Times(j, lasers) + i]
  {
    var w := |pts| / lasers;
    WidthFits(|pts|, lasers);
    RingMajorLength(pts, lasers, w, lasers);
    RingMajorAt(pts, lasers, w, lasers, i, j);
  }

  /** Conversely every point of a whole firing reappears: point k of the
      input sits at row lasers-1-(k mod lasers), column k div lasers. */
  lemma OrganizedKeepsWholeFirings<T>(pts: seq<T>, lasers: nat, k: nat)
    requires lasers > 0 && k < |Organized(pts, lasers)|
    ensures var pos := (lasers - 1 - k % lasers) * (|pts| / lasers) + k / lasers;
            k < |pts| && 0 <= pos < |Organized(pts, lasers)| && Organized(pts, lasers)[pos] == pts[k]
  {
    var w := |pts| / lasers;
    var i, j := k % lasers, k / lasers;
    WholeFiringIndex(pts, lasers, k);
    OrganizedAtTimes(pts, lasers, i, j);
    TimesIsProduct(lasers - 1 - i, w);
  }

  /** An index below the organized length is laser k mod lasers of a whole firing k div lasers. */
  lemma WholeFiringIndex<T>(pts: seq<T>, lasers: nat, k: nat)
    requires lasers > 0 && k < |Organized(pts, lasers)|
    ensures k < |pts| && k / lasers < |pts| / lasers && k % lasers < lasers
    ensures Times(k / lasers, lasers) + k % lasers == k
  {
    WidthFits(|pts|, lasers);
    RingMajorLength(pts, lasers, |pts| / lasers, lasers);
    FiringOfIndex(k, lasers, |pts| / lasers);
  }

  /** Index k below lasers * w is laser k mod lasers of firing k div lasers < w. */
  lemma FiringOfIndex(k: nat, lasers: nat, w: nat)
    requires lasers > 0 && k < Times(lasers, w)
    ensures k / lasers < w && k % lasers < lasers && k < Times(w, lasers)
    ensures Times(k / lasers, lasers) + k % lasers == k
  {
    TimesIsProduct(lasers, w);
    TimesIsProduct(w, lasers);
    TimesIsProduct(k / lasers, lasers);
    DivisionBelow(k, lasers, w);
  }

  lemma DivisionBelow(k: nat, lasers: nat, w: nat)
    requires lasers > 0 && k < lasers * w
    ensures k / lasers < w && (k / lasers) * lasers + k % lasers == k
  {
  }

  /** The worked example: 2 lasers, 3 firings (and one stray point, dropped). */
  lemma OrganizedExample()
    ensures Organized([0, 1, 2, 3, 4, 5], 2) == [1, 3, 5, 0, 2, 4]
    ensures Organized([0, 1, 2, 3, 4, 5, 6], 2) == [1, 3, 5, 0, 2, 4]
  {
    assert RingPoints([0, 1, 2, 3, 4, 5], 2, 1, 3) == [1, 3, 5];
    assert RingPoints([0, 1, 2, 3, 4, 5], 2, 0, 3) == [0, 2, 4];
    assert RingPoints([0, 1, 2, 3, 4, 5, 6], 2, 1, 3) == [1, 3, 5];
    assert RingPoints([0, 1, 2, 3, 4, 5, 6], 2, 0, 3) == [0, 2, 4];
  }

  /** One step of the inner loop: firing j of ring i is the next point of the ring. */
  lemma RingStep<T>(pts: seq<T>, lasers: nat, width: nat, i: nat, j: nat)
    requires i < lasers && j < width && Times(width, lasers) <= |pts|
    ensures Times(j + 1, lasers) <= |pts|
    ensures 0 <= j * lasers + i < |pts|
    ensures RingPoints(pts, lasers, i, j + 1) == RingPoints(pts, lasers, i, j) + [pts[j * lasers + i]]
  {
    RowFits(j, width, lasers, i);
    TimesMonotone(j + 1, width, lasers);
    TimesIsProduct(j, lasers);
  }

  /** The transposing double loop: rings from the top down, firings in
      collection order. */
  method OrganizePoints<T>(pts: seq<T>, lasers: nat) returns (out: seq<T>)
    requires lasers > 0
    ensures out == Organized(pts, lasers)
  {
    var width := |pts| / lasers;
    WidthFits(|pts|, lasers);
    out := [];
    var i: int := lasers - 1;
    while i >= 0
      invariant -1 <= i < lasers
      invariant out == RingMajor(pts, lasers, width, lasers - 1 - i)
    {
      var j := 0;
      while j < width
        invariant 0 <= j <= width
        invariant Times(j, lasers) <= |pts|
        invariant out == RingMajor(pts, lasers, width, lasers - 1 - i) + RingPoints(pts, lasers, i, j)
      {
        RingStep(pts, lasers, width, i, j);
        out := out + [pts[j * lasers + i]];
        j := j + 1;
      }
      i := i - 1;
    }
  }

  /** organizeCloud on the two buffers: the scratch buffer is cleared, given
      the active cloud's header and its points in organized order, the two
      buffers are exchanged, and the new active cloud gets the grid shape.
      The dense flag is not copied: the organized cloud keeps the scratch
      buffer's. Returns (new active, new scratch). */
  function OrganizeBuffers(current: Cloud, worker: Cloud, lasers: nat): (r: (Cloud, Cloud))
    requires lasers > 0
    ensures r.1 == current
    ensures r.0.header == current.header && r.0.isDense == worker.isDense
    ensures r.0.height == lasers && r.0.width == |current.points| / lasers
    ensures r.0.points == Organized(current.points, lasers)
  {
    var organized := worker.(points := Organized(current.points, lasers), header := current.header);
    (organized.(height := lasers, width := |current.points| / lasers), current)
  }
}
