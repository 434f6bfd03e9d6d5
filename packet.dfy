/**
 * The values the M8 decoder consumes and produces: an already deserialised
 * data packet with its firings, the return-selection mode, the points and the
 * point clouds with their headers.
 */
module M8Packet {
  import opened Wrappers

  /** Which echo slots become points: one fixed slot, or all distinct echoes.
      Slot 0 holds the maximum (strongest) return, slot 1 the first, slot 2 the last. */
  datatype ReturnSelection = Max | First | Last | All

  /** The echo slot a single-slot mode reads (the enum's integer value). */
  function SlotIndex(sel: ReturnSelection): (k: nat)
    requires sel != All
    ensures k < 3
  {
    match sel
    case Max => 0
    case First => 1
    case Last => 2
  }

  /** One firing: a raw encoder position and, per echo slot (3) and laser,
      a raw distance (0 means "no return") and a raw intensity. */
  datatype Firing = Firing(position: nat, distances: seq<seq<nat>>, intensities: seq<seq<nat>>)

  /** The fixed shape of a firing: 3 echo slots of `lasers` entries each. */
  predicate WellFormedFiring(f: Firing, lasers: nat)
  {
    && |f.distances| == 3 && |f.intensities| == 3
    && |f.distances[0]| == lasers && |f.distances[1]| == lasers && |f.distances[2]| == lasers
    && |f.intensities[0]| == lasers && |f.intensities[1]| == lasers && |f.intensities[2]| == lasers
  }

  predicate FiringsWellFormed(fs: seq<Firing>, lasers: nat)
  {
    forall n :: 0 <= n < |fs| ==> WellFormedFiring(fs[n], lasers)
  }

  /** A deserialised packet: sensor status, protocol version, time stamp parts and firings. */
  datatype Packet = Packet(status: nat, version: nat, seconds: nat, nanoseconds: nat, firings: seq<Firing>)

  /** A decoded point. `h` is the horizontal angle as its shifted encoder tick
      (the angle in radians is h / R * 2 pi - pi), `v` the vertical angle of the
      laser, `ring` the laser index, `d` the raw distance (None for "not a number")
      and `intensity` the raw intensity. */
  datatype Point = Point(h: nat, v: real, ring: nat, d: Option<nat>, intensity: nat)

  /** Cloud header: stamp in microseconds, sequence number, frame identifier. */
  datatype Header = Header(stamp: nat, sequence: nat, frameId: string)

  /** A point cloud: points in collection order, header, dense flag, and the
      grid shape that organizing writes. */
  datatype Cloud = Cloud(points: seq<Point>, header: Header, isDense: bool, height: nat, width: nat)

  /** A freshly allocated cloud: no points, default header, dense. */
  const EmptyCloud := Cloud([], Header(0, 0, ""), true, 0, 0)

  /** No point has a "not a number" distance. */
  predicate NoNaN(pts: seq<Point>)
  {
    forall n :: 0 <= n < |pts| ==> pts[n].d.Some?
  }

  lemma ConcatNoNaN(a: seq<Point>, b: seq<Point>)
    ensures NoNaN(a + b) <==> NoNaN(a) && NoNaN(b)
  {
    if NoNaN(a + b) {
      forall n | 0 <= n < |a| ensures a[n].d.Some? {
        assert (a + b)[n] == a[n];
      }
      forall n | 0 <= n < |b| ensures b[n].d.Some? {
        assert (a + b)[|a| + n] == b[n];
      }
    }
  }

  /** The dense flag tells the truth: it is set exactly when no point has a "not a number" distance. */
  predicate DenseFlagAccurate(c: Cloud)
  {
    c.isDense <==> NoNaN(c.points)
  }

  /** Packet time in whole microseconds: protocol versions up to 3 count the
      sub-second field in 10 ns units, later versions in nanoseconds. A
      sub-second field below one second keeps the stamp inside its second. */
  function PacketStamp(version: nat, seconds: nat, nanoseconds: nat): (stamp: nat)
    ensures seconds * 1000000 <= stamp
    ensures nanoseconds < (if version <= 3 then 100000000 else 1000000000) ==> stamp < seconds * 1000000 + 1000000
  {
    if version <= 3 then seconds * 1000000 + nanoseconds / 100
    else seconds * 1000000 + nanoseconds / 1000
  }

  /** The sub-second scale factor of a protocol version, as an exact rational. */
  function SubSecondScale(version: nat): real
  {
    if version <= 3 then 0.01 else 0.001
  }

  /** The stamp is the exact time `seconds * 10^6 + nanoseconds * scale`
      truncated to a whole microsecond. */
  lemma StampTruncatesExactTime(version: nat, seconds: nat, nanoseconds: nat)
    ensures var exact := seconds as real * 1000000.0 + nanoseconds as real * SubSecondScale(version);
            && PacketStamp(version, seconds, nanoseconds) as real <= exact
            && exact < PacketStamp(version, seconds, nanoseconds) as real + 1.0
  {
    var unit := if version <= 3 then 100 else 1000;
    var q, r := nanoseconds / unit, nanoseconds % unit;
    assert nanoseconds == q * unit + r;
    assert nanoseconds as real * SubSecondScale(version) == q as real + r as real / unit as real;
    assert r as real / unit as real < 1.0;
  }

  /** The exact fixtures for the two sub-second encodings. */
  lemma StampExamples()
    ensures PacketStamp(3, 1, 100) == 1000001
    ensures PacketStamp(4, 1, 100) == 1000000
  {
  }
}
