/**
 * Scan assembly, as pure functions: how one data packet advances the decoder's
 * running state. Each firing may close the current rotation (the azimuth
 * wrapped around against the spin direction), which emits the collected cloud
 * if it is big enough and starts a fresh one; then, unless the cloud was
 * already full at the start of the packet, the firing's points are appended.
 */
module ScanAssembler {
  import opened Wrappers
  import opened M8Packet
  import opened AngleTables
  import opened ReturnSelector
  import opened CloudOrganizer

  /** The decoder's configuration: the sensor constants (encoder ticks per
      rotation, lasers, firings per packet, vertical angle per laser), the
      return selection, the cloud size limits and the frame identifier. */
  datatype Settings = Settings(
    rotAngles: nat, lasers: nat, firingsPerPacket: nat, vertical: seq<real>,
    selection: ReturnSelection, minimumCloudSize: int, maximumCloudSize: int, frameId: string)

  predicate ValidSettings(cfg: Settings)
  {
    cfg.rotAngles > 0 && cfg.lasers > 0 && cfg.firingsPerPacket > 0 && |cfg.vertical| == cfg.lasers
  }

  /** The state the decoder keeps between packets. `lastAzimuth` is the
      shifted tick of the last appended firing; the value `rotAngles` stands
      for the initial sentinel, which lies above every real azimuth. */
  datatype ParserState = ParserState(
    packetCounter: nat, cloudCounter: nat, lastAzimuth: nat, current: Cloud, worker: Cloud)

  /** What parsing one packet reports: the fatal firmware-mismatch error, no
      finished cloud, or the (last) cloud finished during this packet. */
  datatype ParseResult = FirmwareVersionMismatch | NoCloud | NewCloud(cloud: Cloud)

  /** The state while the firings of one packet are processed. */
  datatype Scan = Scan(
    lastAzimuth: nat, current: Cloud, worker: Cloud, cloudCounter: nat, cloudFull: bool, emitted: Option<Cloud>)

  lemma PrefixWellFormed(fs: seq<Firing>, lasers: nat, n: nat)
    requires FiringsWellFormed(fs, lasers) && n <= |fs|
    ensures FiringsWellFormed(fs[..n], lasers)
  {
    forall m | 0 <= m < n ensures WellFormedFiring(fs[..n][m], lasers) {
      assert fs[..n][m] == fs[m];
    }
  }

  /** The fixed packet layout: one firing per slot, each with 3 echo slots per laser. */
  predicate PacketShape(cfg: Settings, pkt: Packet)
  {
    |pkt.firings| == cfg.firingsPerPacket && FiringsWellFormed(pkt.firings, cfg.lasers)
  }

  /** Every encoder position indexes the horizontal table, which has rotAngles + 1 entries. */
  predicate PositionsInTable(cfg: Settings, fs: seq<Firing>)
  {
    forall n :: 0 <= n < |fs| ==> fs[n].position <= cfg.rotAngles
  }

  /** The spin direction from the encoder positions of the first and last
      firing of a packet: +1 when the positions grow (or are equal), -1 when
      they shrink, reversed when they are more than 4000 ticks apart (the
      rotation wrapped around inside the packet). */
  function SpinDirection(first: nat, last: nat): (d: int)
    ensures d == 1 || d == -1
    ensures -4000 <= first - last <= 4000 ==> (d == 1 <==> first <= last)
    ensures (first - last > 4000 || last - first > 4000) ==> (d == 1 <==> first > last)
  {
    if first - last > 0 then
      (if first - last > 4000 then 1 else -1)
    else
      (if last - first > 4000 then -1 else 1)
  }

  /** A firing closes the rotation when its azimuth lies behind the last one
      in the direction of spin: spinning forward, when the azimuth fell below
      the last one; spinning backward, when it rose above it. */
  function IsBoundary(direction: int, azimuth: nat, lastAzimuth: nat): (b: bool)
    ensures direction == 1 ==> (b <==> azimuth < lastAzimuth)
    ensures direction == -1 ==> (b <==> lastAzimuth < azimuth)
  {
    direction * azimuth < direction * lastAzimuth
  }

  /** Against the initial sentinel every firing closes a rotation when spinning
      forward, and none does when spinning backward. */
  lemma SentinelBoundary(cfg: Settings, position: nat)
    requires ValidSettings(cfg)
    ensures IsBoundary(1, ShiftedTick(position, cfg.rotAngles), cfg.rotAngles)
    ensures !IsBoundary(-1, ShiftedTick(position, cfg.rotAngles), cfg.rotAngles)
  {
  }

  /** The current cloud with one firing's points appended; single-slot modes
      clear the dense flag on a "not a number" point. */
  function AppendFiring(cfg: Settings, c: Cloud, f: Firing): (r: Cloud)
    requires ValidSettings(cfg) && WellFormedFiring(f, cfg.lasers)
    ensures r.header == c.header && r.height == c.height && r.width == c.width
    ensures |c.points| <= |r.points| <= |c.points| + 3 * cfg.lasers
    ensures r.points[..|c.points|] == c.points
    ensures !c.isDense ==> !r.isDense
  {
    var h := ShiftedTick(f.position, cfg.rotAngles);
    c.(points := c.points + FiringPoints(cfg.selection, f, cfg.lasers, h, cfg.vertical, cfg.lasers),
       isDense := c.isDense && FiringKeepsDense(cfg.selection, f, cfg.lasers, cfg.lasers))
  }

  /** In a single-slot mode a firing adds exactly one point per laser, in laser order. */
  lemma SingleModeAppend(cfg: Settings, c: Cloud, f: Firing)
    requires ValidSettings(cfg) && WellFormedFiring(f, cfg.lasers) && cfg.selection != All
    ensures var r := AppendFiring(cfg, c, f);
            var k := SlotIndex(cfg.selection);
            && |r.points| == |c.points| + cfg.lasers
            && forall j :: 0 <= j < cfg.lasers ==>
                 r.points[|c.points| + j]
                 == Point(ShiftedTick(f.position, cfg.rotAngles), cfg.vertical[j], j,
                          SelectedDistance(f.distances[k][j]), f.intensities[k][j])
  {
    SingleModeFiring(cfg.selection, f, cfg.lasers, ShiftedTick(f.position, cfg.rotAngles), cfg.vertical, cfg.lasers);
  }

  /** Appending a firing keeps the dense flag truthful. */
  lemma AppendKeepsDenseFlag(cfg: Settings, c: Cloud, f: Firing)
    requires ValidSettings(cfg) && WellFormedFiring(f, cfg.lasers) && DenseFlagAccurate(c)
    ensures DenseFlagAccurate(AppendFiring(cfg, c, f))
  {
    var h := ShiftedTick(f.position, cfg.rotAngles);
    var added := FiringPoints(cfg.selection, f, cfg.lasers, h, cfg.vertical, cfg.lasers);
    KeepsDenseExactly(cfg.selection, f, cfg.lasers, h, cfg.vertical, cfg.lasers);
    ConcatNoNaN(c.points, added);
  }

  /** The width of `size_t`: the comparisons of a cloud's size with an
      `int32` size limit convert the limit to this unsigned type. */
  const SizeModulus: int := 0x1_0000_0000_0000_0000

  /** A size limit as the unsigned value it is compared as: a nonnegative
      limit is itself, a negative one wraps to 2^64 plus the limit. */
  function AsSize(limit: int): (n: nat)
    ensures n < SizeModulus
    ensures 0 <= limit < SizeModulus ==> n == limit
    ensures -SizeModulus <= limit < 0 ==> n == SizeModulus + limit
  {
    limit % SizeModulus
  }

  /** Closing a rotation. A cloud larger than the minimum size is stamped with
      the packet time, the cloud counter and the frame, organized unless every
      return is kept, and emitted; the counter advances. The size is compared
      with the minimum as an unsigned value, so a negative minimum is never
      exceeded. In every case a fresh,
      empty, dense cloud takes its place and the cloud is no longer full. */
  function Boundary(cfg: Settings, stamp: nat, s: Scan): (r: Scan)
    requires ValidSettings(cfg)
    ensures r.current == EmptyCloud && !r.cloudFull && r.lastAzimuth == s.lastAzimuth
    ensures |s.current.points| <= AsSize(cfg.minimumCloudSize) ==> r == s.(current := EmptyCloud, cloudFull := false)
    ensures |s.current.points| > AsSize(cfg.minimumCloudSize) ==>
              && r.cloudCounter == s.cloudCounter + 1
              && r.emitted.Some?
              && r.emitted.value.header == Header(stamp, s.cloudCounter, cfg.frameId)
    ensures |s.current.points| > AsSize(cfg.minimumCloudSize) && cfg.selection == All ==>
              r.emitted.value == s.current.(header := Header(stamp, s.cloudCounter, cfg.frameId))
              && r.worker == s.worker
    ensures |s.current.points| > AsSize(cfg.minimumCloudSize) && cfg.selection != All ==>
              var e := r.emitted.value;
              && e.points == Organized(s.current.points, cfg.lasers)
              && e.height == cfg.lasers && e.width == |s.current.points| / cfg.lasers
              && e.isDense == s.worker.isDense
              && r.worker == s.current.(header := Header(stamp, s.cloudCounter, cfg.frameId))
  {
    if |s.current.points| > AsSize(cfg.minimumCloudSize) then
      var stamped := s.current.(header := Header(stamp, s.cloudCounter, cfg.frameId));
      var buffers := if cfg.selection != All then OrganizeBuffers(stamped, s.worker, cfg.lasers) else (stamped, s.worker);
      Scan(s.lastAzimuth, EmptyCloud, buffers.1, s.cloudCounter + 1, false, Some(buffers.0))
    else
      s.(current := EmptyCloud, cloudFull := false)
  }

  /** An organized cloud takes its dense flag from the scratch buffer, not from
      the cloud it reorders: a cloud with a "not a number" point, organized
      into the initial (dense) scratch buffer, is reported dense. */
  lemma OrganizedDenseFlagIsStale()
    ensures var cfg := Settings(8, 1, 1, [0.0], Max, 0, 100, "m8");
            var nan := Point(4, 0.0, 0, None, 0);
            var s := Scan(4, Cloud([nan], Header(0, 0, ""), false, 0, 0), EmptyCloud, 0, false, None);
            var e := Boundary(cfg, 0, s).emitted.value;
            && DenseFlagAccurate(s.current)
            && e.isDense && e.points == [nan] && !DenseFlagAccurate(e)
  {
    var nan := Point(4, 0.0, 0, None, 0);
    assert Organized([nan], 1) == [nan] by {
      OrganizedLength([nan], 1);
      OrganizedAt([nan], 1, 0, 0);
    }
  }

  /** One firing: close the rotation if the azimuth wrapped, then append the
      firing and remember its azimuth unless the cloud is full. */
  function FiringStep(cfg: Settings, stamp: nat, direction: int, s: Scan, f: Firing): (r: Scan)
    requires ValidSettings(cfg) && WellFormedFiring(f, cfg.lasers)
    ensures var az := ShiftedTick(f.position, cfg.rotAngles);
            && (IsBoundary(direction, az, s.lastAzimuth) ==>
                  r.current == AppendFiring(cfg, EmptyCloud, f) && r.lastAzimuth == az && !r.cloudFull)
            && (!IsBoundary(direction, az, s.lastAzimuth) && s.cloudFull ==> r == s)
            && (!IsBoundary(direction, az, s.lastAzimuth) && !s.cloudFull ==>
                  r == s.(current := AppendFiring(cfg, s.current, f), lastAzimuth := az))
  {
    var az := ShiftedTick(f.position, cfg.rotAngles);
    var b := if IsBoundary(direction, az, s.lastAzimuth) then Boundary(cfg, stamp, s) else s;
    if b.cloudFull then b
    else b.(current := AppendFiring(cfg, b.current, f), lastAzimuth := az)
  }

  /** The firings of a packet, in order. Each firing closes at most one rotation. */
  function Fold(cfg: Settings, stamp: nat, direction: int, s: Scan, fs: seq<Firing>): (r: Scan)
    requires ValidSettings(cfg) && FiringsWellFormed(fs, cfg.lasers)
    ensures s.cloudCounter <= r.cloudCounter <= s.cloudCounter + |fs|
    decreases |fs|
  {
    if |fs| == 0 then s
    else
      var prefix := fs[..|fs| - 1];
      PrefixWellFormed(fs, cfg.lasers, |fs| - 1);
      FiringStep(cfg, stamp, direction, Fold(cfg, stamp, direction, s, prefix), fs[|fs| - 1])
  }

  /** A fold that ends full changed nothing: the flag is only ever cleared
      (at a boundary), and while it is set a firing without a boundary is skipped. */
  lemma {:induction false} FullFoldChangesNothing(cfg: Settings, stamp: nat, direction: int, s: Scan, fs: seq<Firing>)
    requires ValidSettings(cfg) && FiringsWellFormed(fs, cfg.lasers)
    ensures Fold(cfg, stamp, direction, s, fs).cloudFull ==> Fold(cfg, stamp, direction, s, fs) == s
    decreases |fs|
  {
    if |fs| > 0 {
      PrefixWellFormed(fs, cfg.lasers, |fs| - 1);
      FullFoldChangesNothing(cfg, stamp, direction, s, fs[..|fs| - 1]);
    }
  }

  /** A cloud that is full at the start of a packet stays untouched as long as no firing closes the rotation. */
  lemma {:induction false} FullWithoutBoundary(cfg: Settings, stamp: nat, direction: int, s: Scan, fs: seq<Firing>)
    requires ValidSettings(cfg) && FiringsWellFormed(fs, cfg.lasers) && s.cloudFull
    requires forall n :: 0 <= n < |fs| ==> !IsBoundary(direction, ShiftedTick(fs[n].position, cfg.rotAngles), s.lastAzimuth)
    ensures Fold(cfg, stamp, direction, s, fs) == s
    decreases |fs|
  {
    if |fs| > 0 {
      PrefixWellFormed(fs, cfg.lasers, |fs| - 1);
      var prefix := fs[..|fs| - 1];
      forall n | 0 <= n < |prefix|
        ensures !IsBoundary(direction, ShiftedTick(prefix[n].position, cfg.rotAngles), s.lastAzimuth)
      {
        assert prefix[n] == fs[n];
      }
      FullWithoutBoundary(cfg, stamp, direction, s, prefix);
      assert !IsBoundary(direction, ShiftedTick(fs[|fs| - 1].position, cfg.rotAngles), s.lastAzimuth);
    }
  }

  /** Growth of the current cloud: unless the fold ends full, the cloud holds
      at most the points it started with (none if it started full) plus
      3 * lasers per firing. */
  lemma {:induction false} FoldGrowth(cfg: Settings, stamp: nat, direction: int, s: Scan, fs: seq<Firing>)
    requires ValidSettings(cfg) && FiringsWellFormed(fs, cfg.lasers)
    ensures var r := Fold(cfg, stamp, direction, s, fs);
            !r.cloudFull ==>
              |r.current.points| <= (if s.cloudFull then 0 else |s.current.points|) + Times(|fs|, 3 * cfg.lasers)
    decreases |fs|
  {
    if |fs| > 0 {
      PrefixWellFormed(fs, cfg.lasers, |fs| - 1);
      FoldGrowth(cfg, stamp, direction, s, fs[..|fs| - 1]);
      var p := Fold(cfg, stamp, direction, s, fs[..|fs| - 1]);
      var f := fs[|fs| - 1];
      if IsBoundary(direction, ShiftedTick(f.position, cfg.rotAngles), p.lastAzimuth) {
        assert |AppendFiring(cfg, EmptyCloud, f).points| <= 3 * cfg.lasers;
      } else if !p.cloudFull {
        assert |AppendFiring(cfg, p.current, f).points| <= |p.current.points| + 3 * cfg.lasers;
      }
    }
  }

  /** What the fold has emitted: nothing new unless the cloud counter moved,
      and otherwise the last cloud closed, whose sequence number is one below
      the final counter (an earlier cloud of the same packet is overwritten). */
  predicate EmittedLast(cfg: Settings, stamp: nat, s: Scan, r: Scan)
  {
    && r.cloudCounter >= s.cloudCounter
    && (r.cloudCounter == s.cloudCounter ==> r.emitted == s.emitted)
    && (r.cloudCounter > s.cloudCounter ==>
          r.emitted.Some? && r.emitted.value.header == Header(stamp, r.cloudCounter - 1, cfg.frameId))
  }

  lemma {:induction false} FoldEmitsLast(cfg: Settings, stamp: nat, direction: int, s: Scan, fs: seq<Firing>)
    requires ValidSettings(cfg) && FiringsWellFormed(fs, cfg.lasers)
    ensures EmittedLast(cfg, stamp, s, Fold(cfg, stamp, direction, s, fs))
    decreases |fs|
  {
    if |fs| > 0 {
      PrefixWellFormed(fs, cfg.lasers, |fs| - 1);
      FoldEmitsLast(cfg, stamp, direction, s, fs[..|fs| - 1]);
      StepEmitsLast(cfg, stamp, direction, Fold(cfg, stamp, direction, s, fs[..|fs| - 1]), fs[|fs| - 1]);
    }
  }

  lemma StepEmitsLast(cfg: Settings, stamp: nat, direction: int, s: Scan, f: Firing)
    requires ValidSettings(cfg) && WellFormedFiring(f, cfg.lasers)
    ensures EmittedLast(cfg, stamp, s, FiringStep(cfg, stamp, direction, s, f))
  {
  }

  /** The last azimuth stays a valid tick or the sentinel. */
  lemma {:induction false} FoldAzimuthInRange(cfg: Settings, stamp: nat, direction: int, s: Scan, fs: seq<Firing>)
    requires ValidSettings(cfg) && FiringsWellFormed(fs, cfg.lasers) && s.lastAzimuth <= cfg.rotAngles
    ensures Fold(cfg, stamp, direction, s, fs).lastAzimuth <= cfg.rotAngles
    decreases |fs|
  {
    if |fs| > 0 {
      PrefixWellFormed(fs, cfg.lasers, |fs| - 1);
      FoldAzimuthInRange(cfg, stamp, direction, s, fs[..|fs| - 1]);
    }
  }

  /** The current cloud's dense flag stays truthful; when every return is kept,
      so does the flag of every emitted cloud (organized clouds take theirs from
      the scratch buffer instead, see Boundary). */
  lemma {:induction false} FoldKeepsDenseFlag(cfg: Settings, stamp: nat, direction: int, s: Scan, fs: seq<Firing>)
    requires ValidSettings(cfg) && FiringsWellFormed(fs, cfg.lasers) && DenseFlagAccurate(s.current)
    requires cfg.selection == All && s.emitted.Some? ==> DenseFlagAccurate(s.emitted.value)
    ensures var r := Fold(cfg, stamp, direction, s, fs);
            && DenseFlagAccurate(r.current)
            && (cfg.selection == All && r.emitted.Some? ==> DenseFlagAccurate(r.emitted.value))
    decreases |fs|
  {
    if |fs| > 0 {
      PrefixWellFormed(fs, cfg.lasers, |fs| - 1);
      FoldKeepsDenseFlag(cfg, stamp, direction, s, fs[..|fs| - 1]);
      StepKeepsDenseFlag(cfg, stamp, direction, Fold(cfg, stamp, direction, s, fs[..|fs| - 1]), fs[|fs| - 1]);
    }
  }

  lemma StepKeepsDenseFlag(cfg: Settings, stamp: nat, direction: int, s: Scan, f: Firing)
    requires ValidSettings(cfg) && WellFormedFiring(f, cfg.lasers) && DenseFlagAccurate(s.current)
    requires cfg.selection == All && s.emitted.Some? ==> DenseFlagAccurate(s.emitted.value)
    ensures var r := FiringStep(cfg, stamp, direction, s, f);
            && DenseFlagAccurate(r.current)
            && (cfg.selection == All && r.emitted.Some? ==> DenseFlagAccurate(r.emitted.value))
  {
    var az := ShiftedTick(f.position, cfg.rotAngles);
    if IsBoundary(direction, az, s.lastAzimuth) {
      assert DenseFlagAccurate(EmptyCloud);
      AppendKeepsDenseFlag(cfg, EmptyCloud, f);
    } else if !s.cloudFull {
      AppendKeepsDenseFlag(cfg, s.current, f);
    }
  }

  /** The firings of fs appended one after another, no rotation closing in between. */
  function AppendAll(cfg: Settings, c: Cloud, fs: seq<Firing>): Cloud
    requires ValidSettings(cfg) && FiringsWellFormed(fs, cfg.lasers)
    decreases |fs|
  {
    if |fs| == 0 then c
    else
      PrefixWellFormed(fs, cfg.lasers, |fs| - 1);
      AppendFiring(cfg, AppendAll(cfg, c, fs[..|fs| - 1]), fs[|fs| - 1])
  }

  /** The azimuth remembered after appending fs, starting from `last`. */
  function LastTick(cfg: Settings, last: nat, fs: seq<Firing>): nat
    requires ValidSettings(cfg)
  {
    if |fs| == 0 then last else ShiftedTick(fs[|fs| - 1].position, cfg.rotAngles)
  }

  /** No firing of fs lies behind its predecessor (the first one: behind
      `last`) in the direction of spin, so none of them closes a rotation. */
  predicate NoWrap(cfg: Settings, direction: int, last: nat, fs: seq<Firing>)
    requires ValidSettings(cfg)
  {
    forall n :: 0 <= n < |fs| ==>
      !IsBoundary(direction, ShiftedTick(fs[n].position, cfg.rotAngles), LastTick(cfg, last, fs[..n]))
  }

  lemma ConcatWellFormed(a: seq<Firing>, b: seq<Firing>, lasers: nat)
    requires FiringsWellFormed(a, lasers) && FiringsWellFormed(b, lasers)
    ensures FiringsWellFormed(a + b, lasers)
  {
    forall n | 0 <= n < |a + b| ensures WellFormedFiring((a + b)[n], lasers) {
      if n < |a| {
        assert (a + b)[n] == a[n];
      } else {
        assert (a + b)[n] == b[n - |a|];
      }
    }
  }

  /** Folding a + b is folding a, then b. */
  lemma {:induction false} FoldConcat(cfg: Settings, stamp: nat, direction: int, s: Scan, a: seq<Firing>, b: seq<Firing>)
    requires ValidSettings(cfg) && FiringsWellFormed(a, cfg.lasers) && FiringsWellFormed(b, cfg.lasers)
    ensures FiringsWellFormed(a + b, cfg.lasers)
    ensures Fold(cfg, stamp, direction, s, a + b) == Fold(cfg, stamp, direction, Fold(cfg, stamp, direction, s, a), b)
    decreases |b|
  {
    ConcatWellFormed(a, b, cfg.lasers);
    if |b| == 0 {
      assert a + b == a;
    } else {
      var prefix := b[..|b| - 1];
      PrefixWellFormed(b, cfg.lasers, |b| - 1);
      FoldConcat(cfg, stamp, direction, s, a, prefix);
      assert (a + b)[..|a + b| - 1] == a + prefix;
      assert (a + b)[|a + b| - 1] == b[|b| - 1];
      var m := Fold(cfg, stamp, direction, s, a);
      assert Fold(cfg, stamp, direction, m, b)
             == FiringStep(cfg, stamp, direction, Fold(cfg, stamp, direction, m, prefix), b[|b| - 1]);
      assert Fold(cfg, stamp, direction, s, a + b)
             == FiringStep(cfg, stamp, direction, Fold(cfg, stamp, direction, s, a + prefix), b[|b| - 1]);
    }
  }

  /** Appending a + b is appending a, then b. */
  lemma {:induction false} AppendAllConcat(cfg: Settings, c: Cloud, a: seq<Firing>, b: seq<Firing>)
    requires ValidSettings(cfg) && FiringsWellFormed(a, cfg.lasers) && FiringsWellFormed(b, cfg.lasers)
    ensures FiringsWellFormed(a + b, cfg.lasers)
    ensures AppendAll(cfg, c, a + b) == AppendAll(cfg, AppendAll(cfg, c, a), b)
    decreases |b|
  {
    ConcatWellFormed(a, b, cfg.lasers);
    if |b| == 0 {
      assert a + b == a;
    } else {
      var prefix := b[..|b| - 1];
      PrefixWellFormed(b, cfg.lasers, |b| - 1);
      AppendAllConcat(cfg, c, a, prefix);
      assert (a + b)[..|a + b| - 1] == a + prefix;
      assert (a + b)[|a + b| - 1] == b[|b| - 1];
      assert AppendAll(cfg, AppendAll(cfg, c, a), b)
             == AppendFiring(cfg, AppendAll(cfg, AppendAll(cfg, c, a), prefix), b[|b| - 1]);
      assert AppendAll(cfg, c, a + b) == AppendFiring(cfg, AppendAll(cfg, c, a + prefix), b[|b| - 1]);
    }
  }

  /** Firings that do not wrap are all appended, in order, and no cloud is
      closed: the counter and the emitted cloud stay as they were. */
  lemma {:induction false} NoWrapAppendsAll(cfg: Settings, stamp: nat, direction: int, s: Scan, fs: seq<Firing>)
    requires ValidSettings(cfg) && FiringsWellFormed(fs, cfg.lasers) && !s.cloudFull
    requires NoWrap(cfg, direction, s.lastAzimuth, fs)
    ensures Fold(cfg, stamp, direction, s, fs)
            == s.(current := AppendAll(cfg, s.current, fs), lastAzimuth := LastTick(cfg, s.lastAzimuth, fs))
    decreases |fs|
  {
    if |fs| > 0 {
      var prefix := fs[..|fs| - 1];
      PrefixWellFormed(fs, cfg.lasers, |fs| - 1);
      forall n | 0 <= n < |prefix|
        ensures !IsBoundary(direction, ShiftedTick(prefix[n].position, cfg.rotAngles), LastTick(cfg, s.lastAzimuth, prefix[..n]))
      {
        assert prefix[n] == fs[n] && prefix[..n] == fs[..n];
      }
      NoWrapAppendsAll(cfg, stamp, direction, s, prefix);
      assert !IsBoundary(direction, ShiftedTick(fs[|fs| - 1].position, cfg.rotAngles), LastTick(cfg, s.lastAzimuth, prefix));
    }
  }

  /** A single wrap between two runs that do not wrap closes exactly one
      rotation: the cloud collected from `before` is closed (and emitted if
      it is big enough), and the new current cloud holds exactly the firings
      from the wrapping one `f` on. */
  lemma OneWrapClosesOnce(cfg: Settings, stamp: nat, direction: int, s: Scan, before: seq<Firing>, f: Firing, after: seq<Firing>)
    requires ValidSettings(cfg) && !s.cloudFull
    requires FiringsWellFormed(before, cfg.lasers) && WellFormedFiring(f, cfg.lasers) && FiringsWellFormed(after, cfg.lasers)
    requires NoWrap(cfg, direction, s.lastAzimuth, before)
    requires IsBoundary(direction, ShiftedTick(f.position, cfg.rotAngles), LastTick(cfg, s.lastAzimuth, before))
    requires NoWrap(cfg, direction, ShiftedTick(f.position, cfg.rotAngles), after)
    ensures FiringsWellFormed(before + [f] + after, cfg.lasers)
    ensures var m := s.(current := AppendAll(cfg, s.current, before), lastAzimuth := LastTick(cfg, s.lastAzimuth, before));
            var r := Fold(cfg, stamp, direction, s, before + [f] + after);
            && r == Boundary(cfg, stamp, m).(current := AppendAll(cfg, EmptyCloud, [f] + after),
                                             lastAzimuth := LastTick(cfg, s.lastAzimuth, before + [f] + after))
            && r.cloudCounter == s.cloudCounter + (if |m.current.points| > AsSize(cfg.minimumCloudSize) then 1 else 0)
  {
    var az := ShiftedTick(f.position, cfg.rotAngles);
    assert FiringsWellFormed([f], cfg.lasers);
    FoldConcat(cfg, stamp, direction, s, before, [f]);
    FoldConcat(cfg, stamp, direction, s, before + [f], after);
    NoWrapAppendsAll(cfg, stamp, direction, s, before);
    var m := Fold(cfg, stamp, direction, s, before);
    assert [f][..0] == [];
    var m1 := Fold(cfg, stamp, direction, m, [f]);
    assert m1 == FiringStep(cfg, stamp, direction, m, f);
    assert m1 == Boundary(cfg, stamp, m).(current := AppendAll(cfg, EmptyCloud, [f]), lastAzimuth := az);
    NoWrapAppendsAll(cfg, stamp, direction, m1, after);
    AppendAllConcat(cfg, EmptyCloud, [f], after);
    var all := before + [f] + after;
    assert all[|all| - 1] == if |after| == 0 then f else after[|after| - 1];
  }

  /** Spinning forward: the azimuths of fs never decrease, and start at or above `last`. */
  predicate SweepsForward(cfg: Settings, last: nat, fs: seq<Firing>)
    requires ValidSettings(cfg)
  {
    && (|fs| > 0 ==> last <= ShiftedTick(fs[0].position, cfg.rotAngles))
    && forall i, j :: 0 <= i < j < |fs| ==>
         ShiftedTick(fs[i].position, cfg.rotAngles) <= ShiftedTick(fs[j].position, cfg.rotAngles)
  }

  /** Spinning backward: the azimuths of fs never increase, and start at or below `last`. */
  predicate SweepsBackward(cfg: Settings, last: nat, fs: seq<Firing>)
    requires ValidSettings(cfg)
  {
    && (|fs| > 0 ==> ShiftedTick(fs[0].position, cfg.rotAngles) <= last)
    && forall i, j :: 0 <= i < j < |fs| ==>
         ShiftedTick(fs[j].position, cfg.rotAngles) <= ShiftedTick(fs[i].position, cfg.rotAngles)
  }

  lemma ForwardSweepDoesNotWrap(cfg: Settings, last: nat, fs: seq<Firing>)
    requires ValidSettings(cfg) && SweepsForward(cfg, last, fs)
    ensures NoWrap(cfg, 1, last, fs)
  {
    forall n | 0 < n < |fs|
      ensures LastTick(cfg, last, fs[..n]) == ShiftedTick(fs[n - 1].position, cfg.rotAngles)
    {
      assert fs[..n][n - 1] == fs[n - 1];
    }
  }

  lemma BackwardSweepDoesNotWrap(cfg: Settings, last: nat, fs: seq<Firing>)
    requires ValidSettings(cfg) && SweepsBackward(cfg, last, fs)
    ensures NoWrap(cfg, -1, last, fs)
  {
    forall n | 0 < n < |fs|
      ensures LastTick(cfg, last, fs[..n]) == ShiftedTick(fs[n - 1].position, cfg.rotAngles)
    {
      assert fs[..n][n - 1] == fs[n - 1];
    }
  }

  /** Spinning forward without a drop in azimuth: no rotation is closed and
      every firing is appended. */
  lemma ForwardSweepWithoutWrap(cfg: Settings, stamp: nat, s: Scan, fs: seq<Firing>)
    requires ValidSettings(cfg) && FiringsWellFormed(fs, cfg.lasers) && !s.cloudFull
    requires SweepsForward(cfg, s.lastAzimuth, fs)
    ensures Fold(cfg, stamp, 1, s, fs)
            == s.(current := AppendAll(cfg, s.current, fs), lastAzimuth := LastTick(cfg, s.lastAzimuth, fs))
  {
    ForwardSweepDoesNotWrap(cfg, s.lastAzimuth, fs);
    NoWrapAppendsAll(cfg, stamp, 1, s, fs);
  }

  /** Spinning forward with a single drop in azimuth, at firing f: exactly one
      rotation is closed, and the current cloud holds the firings from f on. */
  lemma ForwardSweepWrapsOnce(cfg: Settings, stamp: nat, s: Scan, before: seq<Firing>, f: Firing, after: seq<Firing>)
    requires ValidSettings(cfg) && !s.cloudFull
    requires FiringsWellFormed(before, cfg.lasers) && WellFormedFiring(f, cfg.lasers) && FiringsWellFormed(after, cfg.lasers)
    requires SweepsForward(cfg, s.lastAzimuth, before)
    requires ShiftedTick(f.position, cfg.rotAngles) < LastTick(cfg, s.lastAzimuth, before)
    requires SweepsForward(cfg, ShiftedTick(f.position, cfg.rotAngles), after)
    ensures FiringsWellFormed(before + [f] + after, cfg.lasers)
    ensures var m := s.(current := AppendAll(cfg, s.current, before), lastAzimuth := LastTick(cfg, s.lastAzimuth, before));
            var r := Fold(cfg, stamp, 1, s, before + [f] + after);
            && r == Boundary(cfg, stamp, m).(current := AppendAll(cfg, EmptyCloud, [f] + after),
                                             lastAzimuth := LastTick(cfg, s.lastAzimuth, before + [f] + after))
            && r.cloudCounter == s.cloudCounter + (if |m.current.points| > AsSize(cfg.minimumCloudSize) then 1 else 0)
  {
    ForwardSweepDoesNotWrap(cfg, s.lastAzimuth, before);
    ForwardSweepDoesNotWrap(cfg, ShiftedTick(f.position, cfg.rotAngles), after);
    OneWrapClosesOnce(cfg, stamp, 1, s, before, f, after);
  }

  /** Spinning backward without a rise in azimuth: no rotation is closed and
      every firing is appended. */
  lemma BackwardSweepWithoutWrap(cfg: Settings, stamp: nat, s: Scan, fs: seq<Firing>)
    requires ValidSettings(cfg) && FiringsWellFormed(fs, cfg.lasers) && !s.cloudFull
    requires SweepsBackward(cfg, s.lastAzimuth, fs)
    ensures Fold(cfg, stamp, -1, s, fs)
            == s.(current := AppendAll(cfg, s.current, fs), lastAzimuth := LastTick(cfg, s.lastAzimuth, fs))
  {
    BackwardSweepDoesNotWrap(cfg, s.lastAzimuth, fs);
    NoWrapAppendsAll(cfg, stamp, -1, s, fs);
  }

  /** Spinning backward with a single rise in azimuth, at firing f: exactly
      one rotation is closed, and the current cloud holds the firings from f on. */
  lemma BackwardSweepWrapsOnce(cfg: Settings, stamp: nat, s: Scan, before: seq<Firing>, f: Firing, after: seq<Firing>)
    requires ValidSettings(cfg) && !s.cloudFull
    requires FiringsWellFormed(before, cfg.lasers) && WellFormedFiring(f, cfg.lasers) && FiringsWellFormed(after, cfg.lasers)
    requires SweepsBackward(cfg, s.lastAzimuth, before)
    requires LastTick(cfg, s.lastAzimuth, before) < ShiftedTick(f.position, cfg.rotAngles)
    requires SweepsBackward(cfg, ShiftedTick(f.position, cfg.rotAngles), after)
    ensures FiringsWellFormed(before + [f] + after, cfg.lasers)
    ensures var m := s.(current := AppendAll(cfg, s.current, before), lastAzimuth := LastTick(cfg, s.lastAzimuth, before));
            var r := Fold(cfg, stamp, -1, s, before + [f] + after);
            && r == Boundary(cfg, stamp, m).(current := AppendAll(cfg, EmptyCloud, [f] + after),
                                             lastAzimuth := LastTick(cfg, s.lastAzimuth, before + [f] + after))
            && r.cloudCounter == s.cloudCounter + (if |m.current.points| > AsSize(cfg.minimumCloudSize) then 1 else 0)
  {
    BackwardSweepDoesNotWrap(cfg, s.lastAzimuth, before);
    BackwardSweepDoesNotWrap(cfg, ShiftedTick(f.position, cfg.rotAngles), after);
    OneWrapClosesOnce(cfg, stamp, -1, s, before, f, after);
  }

  /** The scan a status-0 packet starts with: `cloudFull` is decided once, here,
      comparing the size with the maximum as an unsigned value (a negative
      maximum is never reached). */
  function StartScan(cfg: Settings, st: ParserState): (s: Scan)
    ensures s.cloudFull <==> |st.current.points| >= AsSize(cfg.maximumCloudSize)
    ensures s.emitted.None? && s.current == st.current && s.worker == st.worker
    ensures s.lastAzimuth == st.lastAzimuth && s.cloudCounter == st.cloudCounter
  {
    Scan(st.lastAzimuth, st.current, st.worker, st.cloudCounter, |st.current.points| >= AsSize(cfg.maximumCloudSize), None)
  }

  /** The spin direction of a packet, from its first and last firing. */
  function PacketDirection(cfg: Settings, pkt: Packet): (d: int)
    requires ValidSettings(cfg) && PacketShape(cfg, pkt)
    ensures d == 1 || d == -1
  {
    SpinDirection(pkt.firings[0].position, pkt.firings[cfg.firingsPerPacket - 1].position)
  }

  /** What a packet reports for the cloud it emitted last, if any. */
  function Report(emitted: Option<Cloud>): (r: ParseResult)
    ensures r != FirmwareVersionMismatch
    ensures r.NewCloud? <==> emitted.Some?
    ensures r.NewCloud? ==> r.cloud == emitted.value
  {
    if emitted.Some? then NewCloud(emitted.value) else NoCloud
  }

  /** Parsing one packet. A nonzero status changes nothing (status 1 is the
      fatal firmware-mismatch error); otherwise the packet counter advances
      and the firings are folded into the state. */
  function ParsePacket(cfg: Settings, st: ParserState, pkt: Packet): (r: (ParserState, ParseResult))
    requires ValidSettings(cfg) && PacketShape(cfg, pkt)
    ensures pkt.status != 0 ==> r.0 == st && !r.1.NewCloud?
    ensures pkt.status != 0 ==> (r.1 == FirmwareVersionMismatch <==> pkt.status == 1)
    ensures pkt.status == 0 ==> r.0.packetCounter == st.packetCounter + 1 && r.1 != FirmwareVersionMismatch
  {
    if pkt.status != 0 then
      (st, if pkt.status == 1 then FirmwareVersionMismatch else NoCloud)
    else
      var stamp := PacketStamp(pkt.version, pkt.seconds, pkt.nanoseconds);
      var s := Fold(cfg, stamp, PacketDirection(cfg, pkt), StartScan(cfg, st), pkt.firings);
      (ParserState(st.packetCounter + 1, s.cloudCounter, s.lastAzimuth, s.current, s.worker), Report(s.emitted))
  }

  /** A status-0 packet is the fold of its firings over the starting scan. */
  lemma ParseAccepted(cfg: Settings, st: ParserState, pkt: Packet)
    requires ValidSettings(cfg) && PacketShape(cfg, pkt) && pkt.status == 0
    ensures var s := Fold(cfg, PacketStamp(pkt.version, pkt.seconds, pkt.nanoseconds), PacketDirection(cfg, pkt),
                          StartScan(cfg, st), pkt.firings);
            ParsePacket(cfg, st, pkt)
            == (ParserState(st.packetCounter + 1, s.cloudCounter, s.lastAzimuth, s.current, s.worker), Report(s.emitted))
  {
  }

  /** A status-0 packet reports a new cloud exactly when the cloud counter
      advanced, and that cloud is the last one closed in the packet: stamped
      with the packet time, numbered one below the new counter, in the
      decoder's frame. */
  lemma ParseReportsLastCloud(cfg: Settings, st: ParserState, pkt: Packet)
    requires ValidSettings(cfg) && PacketShape(cfg, pkt) && pkt.status == 0
    ensures var r := ParsePacket(cfg, st, pkt);
            && r.0.cloudCounter >= st.cloudCounter
            && (r.1.NewCloud? <==> r.0.cloudCounter > st.cloudCounter)
            && (r.1.NewCloud? ==>
                  r.1.cloud.header == Header(PacketStamp(pkt.version, pkt.seconds, pkt.nanoseconds), r.0.cloudCounter - 1, cfg.frameId))
  {
    var stamp := PacketStamp(pkt.version, pkt.seconds, pkt.nanoseconds);
    FoldEmitsLast(cfg, stamp, PacketDirection(cfg, pkt), StartScan(cfg, st), pkt.firings);
  }

  /** A cloud full at the start of a packet in which no firing closes the
      rotation stays as it is: only the packet counter moves, and the last
      azimuth is not updated. */
  lemma FullPacketIsSkipped(cfg: Settings, st: ParserState, pkt: Packet)
    requires ValidSettings(cfg) && PacketShape(cfg, pkt) && pkt.status == 0
    requires |st.current.points| >= AsSize(cfg.maximumCloudSize)
    requires forall n :: 0 <= n < |pkt.firings| ==>
               !IsBoundary(PacketDirection(cfg, pkt), ShiftedTick(pkt.firings[n].position, cfg.rotAngles), st.lastAzimuth)
    ensures ParsePacket(cfg, st, pkt) == (st.(packetCounter := st.packetCounter + 1), NoCloud)
  {
    var stamp := PacketStamp(pkt.version, pkt.seconds, pkt.nanoseconds);
    FullWithoutBoundary(cfg, stamp, PacketDirection(cfg, pkt), StartScan(cfg, st), pkt.firings);
  }

  /** The smallest `int32`: the size limits are 32-bit signed in the decoder. */
  const Int32Min: int := -0x8000_0000

  /** A negative maximum is never reached by a cloud of fewer than 2^64 - 2^31
      points: the cloud is never full. */
  lemma NegativeMaximumNeverFull(cfg: Settings, st: ParserState)
    requires Int32Min <= cfg.maximumCloudSize < 0 && |st.current.points| < SizeModulus + Int32Min
    ensures !StartScan(cfg, st).cloudFull
  {
  }

  /** A negative minimum is never exceeded by such a cloud: closing a
      rotation emits nothing and leaves the counter alone. */
  lemma NegativeMinimumNeverEmits(cfg: Settings, stamp: nat, s: Scan)
    requires ValidSettings(cfg)
    requires Int32Min <= cfg.minimumCloudSize < 0 && |s.current.points| < SizeModulus + Int32Min
    ensures Boundary(cfg, stamp, s) == s.(current := EmptyCloud, cloudFull := false)
  {
  }

  /** The current cloud either is left as it was or stays below the maximum
      size plus one packet's worth of points (3 echoes per laser and firing). */
  lemma ParseBoundsCloudSize(cfg: Settings, st: ParserState, pkt: Packet)
    requires ValidSettings(cfg) && PacketShape(cfg, pkt)
    ensures var r := ParsePacket(cfg, st, pkt).0;
            || r.current == st.current
            || |r.current.points| < (if AsSize(cfg.maximumCloudSize) > 0 then AsSize(cfg.maximumCloudSize) else 1)
                                    + 3 * cfg.lasers * cfg.firingsPerPacket
  {
    if pkt.status == 0 {
      var stamp := PacketStamp(pkt.version, pkt.seconds, pkt.nanoseconds);
      var s0 := StartScan(cfg, st);
      FullFoldChangesNothing(cfg, stamp, PacketDirection(cfg, pkt), s0, pkt.firings);
      FoldGrowth(cfg, stamp, PacketDirection(cfg, pkt), s0, pkt.firings);
      TimesIsProduct(cfg.firingsPerPacket, 3 * cfg.lasers);
    }
  }

  /** What holds of the decoder between packets: the last azimuth is a tick or
      the sentinel, and the current cloud's dense flag is truthful. */
  predicate StateInvariant(cfg: Settings, st: ParserState)
  {
    st.lastAzimuth <= cfg.rotAngles && DenseFlagAccurate(st.current)
  }

  /** Every packet keeps the invariant; when every return is kept, a reported
      cloud's dense flag is truthful too. */
  lemma ParseKeepsInvariant(cfg: Settings, st: ParserState, pkt: Packet)
    requires ValidSettings(cfg) && PacketShape(cfg, pkt) && StateInvariant(cfg, st)
    ensures var r := ParsePacket(cfg, st, pkt);
            && StateInvariant(cfg, r.0)
            && (cfg.selection == All && r.1.NewCloud? ==> DenseFlagAccurate(r.1.cloud))
  {
    if pkt.status == 0 {
      var stamp := PacketStamp(pkt.version, pkt.seconds, pkt.nanoseconds);
      var s0 := StartScan(cfg, st);
      FoldAzimuthInRange(cfg, stamp, PacketDirection(cfg, pkt), s0, pkt.firings);
      FoldKeepsDenseFlag(cfg, stamp, PacketDirection(cfg, pkt), s0, pkt.firings);
    }
  }

  /** Two wraps in a row, each closing a cloud big enough to emit, when every
      return is kept: both clouds are counted, only the second is left as the
      emitted one (it holds the single firing between the wraps), and the
      current cloud holds the firings from the second wrap on. */
  lemma TwoWrapsEmitBoth(cfg: Settings, stamp: nat, direction: int, s: Scan, f0: Firing, f1: Firing, f2: Firing)
    requires ValidSettings(cfg) && cfg.selection == All && !s.cloudFull
    requires WellFormedFiring(f0, cfg.lasers) && WellFormedFiring(f1, cfg.lasers) && WellFormedFiring(f2, cfg.lasers)
    requires IsBoundary(direction, ShiftedTick(f0.position, cfg.rotAngles), s.lastAzimuth)
    requires IsBoundary(direction, ShiftedTick(f1.position, cfg.rotAngles), ShiftedTick(f0.position, cfg.rotAngles))
    requires !IsBoundary(direction, ShiftedTick(f2.position, cfg.rotAngles), ShiftedTick(f1.position, cfg.rotAngles))
    requires |s.current.points| > AsSize(cfg.minimumCloudSize)
    requires |AppendFiring(cfg, EmptyCloud, f0).points| > AsSize(cfg.minimumCloudSize)
    ensures FiringsWellFormed([f0, f1, f2], cfg.lasers)
    ensures var r := Fold(cfg, stamp, direction, s, [f0, f1, f2]);
            && r.cloudCounter == s.cloudCounter + 2
            && r.emitted == Some(AppendFiring(cfg, EmptyCloud, f0).(header := Header(stamp, s.cloudCounter + 1, cfg.frameId)))
            && r.current == AppendFiring(cfg, AppendFiring(cfg, EmptyCloud, f1), f2)
            && r.lastAzimuth == ShiftedTick(f2.position, cfg.rotAngles)
  {
    var fs := [f0, f1, f2];
    var c0 := AppendFiring(cfg, EmptyCloud, f0);
    var s1 := FiringStep(cfg, stamp, direction, s, f0);
    assert s1.cloudCounter == s.cloudCounter + 1 && !s1.cloudFull
           && s1.current == c0 && s1.lastAzimuth == ShiftedTick(f0.position, cfg.rotAngles) by {
      assert Boundary(cfg, stamp, s).cloudCounter == s.cloudCounter + 1;
    }
    var s2 := FiringStep(cfg, stamp, direction, s1, f1);
    assert s2.cloudCounter == s.cloudCounter + 2 && !s2.cloudFull
           && s2.emitted == Some(c0.(header := Header(stamp, s.cloudCounter + 1, cfg.frameId)))
           && s2.current == AppendFiring(cfg, EmptyCloud, f1) && s2.lastAzimuth == ShiftedTick(f1.position, cfg.rotAngles) by {
      var b := Boundary(cfg, stamp, s1);
      assert b.cloudCounter == s1.cloudCounter + 1;
      assert b.emitted == Some(c0.(header := Header(stamp, s1.cloudCounter, cfg.frameId)));
    }
    assert Fold(cfg, stamp, direction, s, fs) == FiringStep(cfg, stamp, direction, s2, f2) by {
      assert fs[..2] == [f0, f1] && fs[..2][..1] == [f0] && [f0][..0] == [];
      assert Fold(cfg, stamp, direction, s, []) == s;
      assert Fold(cfg, stamp, direction, s, [f0]) == s1;
      assert Fold(cfg, stamp, direction, s, [f0, f1]) == s2;
    }
  }

  /** Two rotations closing inside one packet: both clouds are counted, only
      the second is reported. (8 ticks per rotation, one laser, three firings
      at ticks 5, 4 and 6 after a last azimuth of 7.) */
  lemma TwoRotationsInOnePacket()
    ensures var cfg := Settings(8, 1, 3, [0.0], All, 0, 100, "m8");
            var st := ParserState(0, 0, 7, Cloud([Point(7, 0.0, 0, Some(9), 1)], Header(0, 0, ""), true, 0, 0), EmptyCloud);
            var pkt := Packet(0, 4, 1, 0, [Firing(1, [[5], [0], [0]], [[1], [0], [0]]),
                                           Firing(0, [[6], [0], [0]], [[1], [0], [0]]),
                                           Firing(2, [[7], [0], [0]], [[1], [0], [0]])]);
            var r := ParsePacket(cfg, st, pkt);
            && r.0.cloudCounter == 2
            && r.0.lastAzimuth == 6
            && r.1 == NewCloud(Cloud([Point(5, 0.0, 0, Some(5), 1)], Header(1000000, 1, "m8"), true, 0, 0))
  {
    var cfg := Settings(8, 1, 3, [0.0], All, 0, 100, "m8");
    var st := ParserState(0, 0, 7, Cloud([Point(7, 0.0, 0, Some(9), 1)], Header(0, 0, ""), true, 0, 0), EmptyCloud);
    var f0 := Firing(1, [[5], [0], [0]], [[1], [0], [0]]);
    var f1 := Firing(0, [[6], [0], [0]], [[1], [0], [0]]);
    var f2 := Firing(2, [[7], [0], [0]], [[1], [0], [0]]);
    assert ShiftedTick(1, 8) == 5 && ShiftedTick(0, 8) == 4 && ShiftedTick(2, 8) == 6;
    var pkt := Packet(0, 4, 1, 0, [f0, f1, f2]);
    var s0 := StartScan(cfg, st);
    assert AsSize(0) == 0 && AsSize(100) == 100 && !s0.cloudFull;
    assert AppendFiring(cfg, EmptyCloud, f0) == Cloud([Point(5, 0.0, 0, Some(5), 1)], Header(0, 0, ""), true, 0, 0) by {
      assert FiringPoints(All, f0, 1, 5, [0.0], 1) == [Point(5, 0.0, 0, Some(5), 1)];
    }
    TwoWrapsEmitBoth(cfg, 1000000, 1, s0, f0, f1, f2);
    assert PacketDirection(cfg, pkt) == 1 && PacketStamp(4, 1, 0) == 1000000;
    ParseAccepted(cfg, st, pkt);
  }

  /** The state of a freshly constructed decoder. */
  function InitialState(cfg: Settings): (st: ParserState)
    requires ValidSettings(cfg)
    ensures st.packetCounter == 0 && st.cloudCounter == 0
    ensures st.current == EmptyCloud && st.worker == EmptyCloud
    ensures LastAzimuthDegrees(st.lastAzimuth, cfg.rotAngles) == SentinelDegrees
    ensures StateInvariant(cfg, st)
  {
    ParserState(0, 0, cfg.rotAngles, EmptyCloud, EmptyCloud)
  }

  /** The new size limits: a positive minimum replaces the old one (at least
      1), a positive maximum replaces the old one but never drops below the
      minimum; a non-positive argument keeps its limit. */
  function CloudSizeLimits(minimum: int, maximum: int, szmin: int, szmax: int): (r: (int, int))
    ensures szmin <= 0 ==> r.0 == minimum
    ensures szmin > 0 ==> r.0 == szmin && r.0 >= 1
    ensures szmax <= 0 ==> r.1 == maximum
    ensures szmax > 0 ==> r.1 >= szmax && r.1 >= r.0 && (r.1 == szmax || r.1 == r.0)
  {
    var lo := if szmin > 0 then (if 1 > szmin then 1 else szmin) else minimum;
    var hi := if szmax > 0 then (if lo > szmax then lo else szmax) else maximum;
    (lo, hi)
  }

  /** Raising only the minimum can leave it above the maximum. */
  lemma SizeLimitsOrderNotKept()
    ensures CloudSizeLimits(1, 5, 10, 0) == (10, 5)
  {
  }
}
