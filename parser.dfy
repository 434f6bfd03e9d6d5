/**
 * The M8 data packet parser: a streaming decoder that keeps the cloud being
 * collected, a scratch cloud for organizing, the last azimuth and the packet
 * and cloud counters, and turns one deserialised packet per call into points.
 * Every operation is proved against the functions of ScanAssembler.
 */
module Parser {
  import opened Wrappers
  import opened M8Packet
  import opened AngleTables
  import opened ReturnSelector
  import opened CloudOrganizer
  import opened ScanAssembler

  class DataPacketParserM8 {
    /** Encoder ticks per rotation, lasers, firings per packet. */
    const rotAngles: nat
    const lasers: nat
    const firingsPerPacket: nat
    /** Horizontal angle per raw encoder position 0 .. rotAngles, as its shifted tick. */
    const horizontalTable: array<nat>
    /** Vertical angle per laser. */
    const verticalTable: array<real>

    var selection: ReturnSelection
    var minimumCloudSize: int
    var maximumCloudSize: int
    var frameId: string

    var packetCounter: nat
    var cloudCounter: nat
    /** Shifted tick of the last appended firing; rotAngles is the initial sentinel. */
    var lastAzimuth: nat
    var current: Cloud
    var worker: Cloud

    ghost predicate Valid()
      reads this, horizontalTable, verticalTable
    {
      && rotAngles > 0 && lasers > 0 && firingsPerPacket > 0
      && horizontalTable.Length == rotAngles + 1
      && verticalTable.Length == lasers
      && forall i :: 0 <= i < horizontalTable.Length ==> horizontalTable[i] == ShiftedTick(i, rotAngles)
    }

    /** The configuration the functions of ScanAssembler are parameterised by. */
    ghost function Config(): Settings
      reads this, verticalTable
    {
      Settings(rotAngles, lasers, firingsPerPacket, verticalTable[..], selection,
               minimumCloudSize, maximumCloudSize, frameId)
    }

    /** The running state kept between packets. */
    ghost function State(): ParserState
      reads this
    {
      ParserState(packetCounter, cloudCounter, lastAzimuth, current, worker)
    }

    /** Builds both lookup tables and starts with no packets, no clouds, empty
        buffers and the sentinel azimuth. */
    constructor (rotAngles: nat, lasers: nat, firingsPerPacket: nat, verticalAngles: seq<real>,
                 selection: ReturnSelection, minimumCloudSize: int, maximumCloudSize: int, frameId: string)
      requires rotAngles > 0 && lasers > 0 && firingsPerPacket > 0 && |verticalAngles| == lasers
      ensures Valid() && fresh(horizontalTable) && fresh(verticalTable)
      ensures Config() == Settings(rotAngles, lasers, firingsPerPacket, verticalAngles, selection,
                                   minimumCloudSize, maximumCloudSize, frameId)
      ensures State() == InitialState(Config()) && StateInvariant(Config(), State())
    {
      var h := HorizontalTable(rotAngles);
      var v := VerticalTable(verticalAngles);
      this.rotAngles, this.lasers, this.firingsPerPacket := rotAngles, lasers, firingsPerPacket;
      horizontalTable, verticalTable := h, v;
      this.selection, this.minimumCloudSize, this.maximumCloudSize := selection, minimumCloudSize, maximumCloudSize;
      this.frameId := frameId;
      packetCounter, cloudCounter, lastAzimuth := 0, 0, rotAngles;
      current, worker := EmptyCloud, EmptyCloud;
    }

    method SetReturnSelection(returnSelection: ReturnSelection)
      requires Valid()
      modifies this
      ensures Valid()
      ensures Config() == old(Config()).(selection := returnSelection)
      ensures State() == old(State())
    {
      selection := returnSelection;
    }

    method SetCloudSizeLimits(szmin: int, szmax: int)
      requires Valid()
      modifies this
      ensures Valid()
      ensures (minimumCloudSize, maximumCloudSize)
              == CloudSizeLimits(old(minimumCloudSize), old(maximumCloudSize), szmin, szmax)
      ensures Config() == old(Config()).(minimumCloudSize := minimumCloudSize, maximumCloudSize := maximumCloudSize)
      ensures State() == old(State())
    {
      if szmin > 0 {
        minimumCloudSize := if 1 > szmin then 1 else szmin;
      }
      if szmax > 0 {
        maximumCloudSize := if minimumCloudSize > szmax then minimumCloudSize else szmax;
      }
    }

    /** Reorders the current cloud into the scratch buffer (ring-major, top
        ring first), copies the header, exchanges the two buffers and sets the
        grid shape. */
    method OrganizeCloud()
      requires Valid()
      modifies this
      ensures Valid()
      ensures (current, worker) == OrganizeBuffers(old(current), old(worker), lasers)
      ensures Config() == old(Config())
      ensures State() == old(State()).(current := current, worker := worker)
    {
      var width := |current.points| / lasers;
      var organized := OrganizePoints(current.points, lasers);
      var scratch := worker.(points := organized, header := current.header);
      current, worker := scratch, current;
      current := current.(height := lasers, width := width);
    }

    /** The points of laser j of firing f, with horizontal angle h. */
    method AppendLaser(f: Firing, j: nat, h: nat)
      requires Valid() && WellFormedFiring(f, lasers) && j < lasers
      modifies this
      ensures Valid()
      ensures current == old(current).(
                points := old(current.points) + LaserPoints(selection, f, lasers, j, h, verticalTable[j]),
                isDense := old(current.isDense) && !(selection != All && f.distances[SlotIndex(selection)][j] == 0))
      ensures Config() == old(Config())
      ensures State() == old(State()).(current := current)
    {
      var v := verticalTable[j];
      if selection == All {
        ghost var before := current.points;
        var intensity := f.intensities[0][j];
        var d := f.distances[0][j];
        if d != 0 {
          current := current.(points := current.points + [Point(h, v, j, Some(d), intensity)]);
        }
        ghost var afterFirst := current.points;
        if f.distances[1][j] != 0 && f.distances[1][j] != d {
          current := current.(points := current.points + [Point(h, v, j, Some(f.distances[1][j]), intensity)]);
        }
        ghost var afterSecond := current.points;
        if f.distances[2][j] != 0 && f.distances[2][j] != d {
          current := current.(points := current.points + [Point(h, v, j, Some(f.distances[2][j]), intensity)]);
        }
        assert current.points == before + (afterFirst[|before|..] + afterSecond[|afterFirst|..] + current.points[|afterSecond|..]);
      } else {
        var slot := SlotIndex(selection);
        for k := 0 to 3
          invariant Valid() && selection == old(selection)
          invariant State() == old(State()).(current := current) && Config() == old(Config())
          invariant k <= slot ==> current == old(current)
          invariant k > slot ==>
                      current == old(current).(
                        points := old(current.points) + LaserPoints(selection, f, lasers, j, h, v),
                        isDense := old(current.isDense) && f.distances[slot][j] != 0)
        {
          if slot == k {
            var intensity := f.intensities[k][j];
            var d: Option<nat>;
            if f.distances[k][j] == 0 {
              d := None;
              current := current.(isDense := false);
            } else {
              d := Some(f.distances[k][j]);
            }
            current := current.(points := current.points + [Point(h, v, j, d, intensity)]);
          }
        }
      }
    }

    /** Appends every laser of firing f, in laser order. */
    method AppendFiringPoints(f: Firing)
      requires Valid() && WellFormedFiring(f, lasers) && f.position <= rotAngles
      modifies this
      ensures Valid()
      ensures current == AppendFiring(old(Config()), old(current), f)
      ensures Config() == old(Config())
      ensures State() == old(State()).(current := current)
    {
      var h := horizontalTable[f.position];
      ghost var cfg := Config();
      for j := 0 to lasers
        invariant Valid() && Config() == cfg
        invariant State() == old(State()).(current := current)
        invariant current == old(current).(
                    points := old(current.points) + FiringPoints(selection, f, lasers, h, cfg.vertical, j),
                    isDense := old(current.isDense) && FiringKeepsDense(selection, f, lasers, j))
      {
        AppendLaser(f, j, h);
        assert verticalTable[j] == cfg.vertical[j];
        assert FiringKeepsDense(selection, f, lasers, j + 1)
               == (FiringKeepsDense(selection, f, lasers, j) && !(selection != All && f.distances[SlotIndex(selection)][j] == 0));
        assert FiringPoints(selection, f, lasers, h, cfg.vertical, j + 1)
               == FiringPoints(selection, f, lasers, h, cfg.vertical, j) + LaserPoints(selection, f, lasers, j, h, cfg.vertical[j]);
        ConcatAssociative(old(current.points), FiringPoints(selection, f, lasers, h, cfg.vertical, j),
                          LaserPoints(selection, f, lasers, j, h, cfg.vertical[j]));
      }
    }

    /** One firing (source loop body): close the rotation if the azimuth
        wrapped, then append the firing unless the cloud is full. */
    method ProcessFiring(f: Firing, stamp: nat, direction: int, cloudFull: bool, r: ParseResult, ghost emitted: Option<Cloud>)
      returns (full: bool, res: ParseResult)
      requires Valid() && WellFormedFiring(f, lasers) && f.position <= rotAngles && r == Report(emitted)
      modifies this
      ensures Valid() && Config() == old(Config()) && packetCounter == old(packetCounter)
      ensures var s := FiringStep(old(Config()), stamp, direction,
                                  Scan(old(lastAzimuth), old(current), old(worker), old(cloudCounter), cloudFull, emitted), f);
              && s == Scan(lastAzimuth, current, worker, cloudCounter, full, s.emitted)
              && res == Report(s.emitted)
    {
      full, res := cloudFull, r;
      var azimuth := (f.position + rotAngles / 2) % rotAngles;
      if direction * azimuth < direction * lastAzimuth {
        if |current.points| > AsSize(minimumCloudSize) {
          current := current.(header := Header(stamp, cloudCounter, frameId));
          if selection != All {
            OrganizeCloud();
          }
          cloudCounter := cloudCounter + 1;
          res := NewCloud(current);
        }
        current := EmptyCloud;
        full := false;
      }
      if !full {
        AppendFiringPoints(f);
        lastAzimuth := azimuth;
      }
    }

    /** The loop over the firings of an accepted packet. */
    method ProcessFirings(fs: seq<Firing>, stamp: nat, direction: int, cloudFull: bool) returns (r: ParseResult)
      requires Valid() && FiringsWellFormed(fs, lasers) && PositionsInTable(Config(), fs)
      modifies this
      ensures Valid() && Config() == old(Config()) && packetCounter == old(packetCounter)
      ensures var s := Fold(old(Config()), stamp, direction,
                            Scan(old(lastAzimuth), old(current), old(worker), old(cloudCounter), cloudFull, None), fs);
              && s == Scan(lastAzimuth, current, worker, cloudCounter, s.cloudFull, s.emitted)
              && r == Report(s.emitted)
    {
      ghost var cfg := Config();
      ghost var s0 := Scan(lastAzimuth, current, worker, cloudCounter, cloudFull, None);
      ghost var scan := s0;
      var full := cloudFull;
      r := NoCloud;
      for i := 0 to |fs|
        invariant Valid() && Config() == cfg && packetCounter == old(packetCounter)
        invariant FiringsWellFormed(fs[..i], lasers)
        invariant scan == Fold(cfg, stamp, direction, s0, fs[..i])
        invariant scan == Scan(lastAzimuth, current, worker, cloudCounter, full, scan.emitted)
        invariant r == Report(scan.emitted)
      {
        PrefixWellFormed(fs, lasers, i + 1);
        assert fs[..i + 1][..i] == fs[..i];
        full, r := ProcessFiring(fs[i], stamp, direction, full, r, scan.emitted);
        scan := FiringStep(cfg, stamp, direction, scan, fs[i]);
      }
      assert fs[..|fs|] == fs;
    }

    /** Parses one packet. A nonzero status is rejected without any change
        (status 1 is the fatal firmware-mismatch error). Otherwise the packet
        counter advances, the spin direction and the full flag are decided
        once, and the firings are processed in order. */
    method Parse(pkt: Packet) returns (r: ParseResult)
      requires Valid() && PacketShape(Config(), pkt)
      requires pkt.status == 0 ==> PositionsInTable(Config(), pkt.firings)
      modifies this
      ensures Valid()
      ensures Config() == old(Config())
      ensures (State(), r) == ParsePacket(old(Config()), old(State()), pkt)
      ensures StateInvariant(old(Config()), old(State())) ==> StateInvariant(Config(), State())
    {
      if pkt.status != 0 {
        if pkt.status == 1 {
          return FirmwareVersionMismatch;
        }
        return NoCloud;
      }
      var stamp := PacketStamp(pkt.version, pkt.seconds, pkt.nanoseconds);
      packetCounter := packetCounter + 1;
      var direction := SpinDirection(pkt.firings[0].position, pkt.firings[firingsPerPacket - 1].position);
      var cloudFull := |current.points| >= AsSize(maximumCloudSize);
      r := ProcessFirings(pkt.firings, stamp, direction, cloudFull);
      ParseAccepted(old(Config()), old(State()), pkt);
      InvariantAfterParse(old(Config()), old(State()), pkt, State());
    }
  }

  /** ParseKeepsInvariant, for the state a parse ends in. */
  lemma InvariantAfterParse(cfg: Settings, st: ParserState, pkt: Packet, after: ParserState)
    requires ValidSettings(cfg) && PacketShape(cfg, pkt) && after == ParsePacket(cfg, st, pkt).0
    ensures StateInvariant(cfg, st) ==> StateInvariant(cfg, after)
  {
    if StateInvariant(cfg, st) {
      ParseKeepsInvariant(cfg, st, pkt);
    }
  }

  lemma ConcatAssociative<T>(a: seq<T>, b: seq<T>, c: seq<T>)
    ensures (a + b) + c == a + (b + c)
  {
  }

  /** The horizontal table: entry i is the shifted tick (i + rotAngles/2) mod rotAngles, for i = 0 .. rotAngles. */
  method HorizontalTable(rotAngles: nat) returns (h: array<nat>)
    requires rotAngles > 0
    ensures fresh(h) && h.Length == rotAngles + 1
    ensures forall i :: 0 <= i < h.Length ==> h[i] == ShiftedTick(i, rotAngles)
  {
    h := new nat[rotAngles + 1];
    for i := 0 to rotAngles + 1
      invariant forall k :: 0 <= k < i ==> h[k] == ShiftedTick(k, rotAngles)
    {
      h[i] := (i + rotAngles / 2) % rotAngles;
    }
  }

  /** The vertical table: a copy of the per-laser vertical angles. */
  method VerticalTable(angles: seq<real>) returns (v: array<real>)
    ensures fresh(v) && v[..] == angles
  {
    v := new real[|angles|];
    for i := 0 to |angles|
      invariant v[..i] == angles[..i]
    {
      v[i] := angles[i];
    }
  }
}
