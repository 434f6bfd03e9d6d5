/**
 * The angle tables of the M8 decoder. Both the horizontal table and the
 * per-firing azimuth shift the raw encoder position by half a rotation before
 * reducing it modulo the number of ticks per rotation; the model keeps that
 * integer "shifted tick" instead of the floating-point angle derived from it.
 */
module AngleTables {

  /** The raw position shifted by half a rotation, reduced modulo `rotAngles`. */
  function ShiftedTick(position: nat, rotAngles: nat): (t: nat)
    requires rotAngles > 0
    ensures t < rotAngles
  {
    (position + rotAngles / 2) % rotAngles
  }

  /** The shifted tick of a table index, without the modulo. */
  lemma ShiftedTickValue(i: nat, rotAngles: nat)
    requires 0 < rotAngles && i <= rotAngles
    ensures i + rotAngles / 2 < rotAngles ==> ShiftedTick(i, rotAngles) == i + rotAngles / 2
    ensures i + rotAngles / 2 >= rotAngles ==> ShiftedTick(i, rotAngles) == i + rotAngles / 2 - rotAngles
  {
    var x := i + rotAngles / 2;
    if x >= rotAngles {
      assert 0 <= x - rotAngles < rotAngles;
      assert x == 1 * rotAngles + (x - rotAngles);
    }
  }

  /** The table wraps continuously: its first and last entries coincide, and
      the only drop in the table is to 0 at index R - R/2. */
  lemma HorizontalTableWraps(rotAngles: nat)
    requires rotAngles > 0
    ensures ShiftedTick(0, rotAngles) == ShiftedTick(rotAngles, rotAngles) == rotAngles / 2
    ensures ShiftedTick(rotAngles - rotAngles / 2, rotAngles) == 0
  {
    ShiftedTickValue(0, rotAngles);
    ShiftedTickValue(rotAngles, rotAngles);
    ShiftedTickValue(rotAngles - rotAngles / 2, rotAngles);
  }

  /** Inside each of its two halves the horizontal table strictly increases. */
  lemma HorizontalTableIncreasing(i: nat, j: nat, rotAngles: nat)
    requires 0 < rotAngles && i < j <= rotAngles
    requires j < rotAngles - rotAngles / 2 || rotAngles - rotAngles / 2 <= i
    ensures ShiftedTick(i, rotAngles) < ShiftedTick(j, rotAngles)
  {
    ShiftedTickValue(i, rotAngles);
    ShiftedTickValue(j, rotAngles);
  }

  /** The azimuth in degrees that a shifted tick stands for. */
  function AzimuthDegrees(tick: nat, rotAngles: nat): real
    requires rotAngles > 0
  {
    tick as real / rotAngles as real * 360.0 - 180.0
  }

  /** The initial value of the previous azimuth, well outside every valid azimuth. */
  const SentinelDegrees: real := 65000.0

  /** The degrees a stored previous-azimuth tick stands for: a valid shifted
      tick, or the sentinel, which the model stores as `rotAngles`. */
  function LastAzimuthDegrees(last: nat, rotAngles: nat): real
    requires rotAngles > 0
  {
    if last >= rotAngles then SentinelDegrees else AzimuthDegrees(last, rotAngles)
  }

  /** Valid azimuths lie in [-180, 180) and grow strictly with the shifted tick. */
  lemma AzimuthIncreasing(a: nat, b: nat, rotAngles: nat)
    requires 0 < rotAngles && a < rotAngles && b < rotAngles
    ensures -180.0 <= AzimuthDegrees(a, rotAngles) < 180.0
    ensures a < b <==> AzimuthDegrees(a, rotAngles) < AzimuthDegrees(b, rotAngles)
  {
    var r := rotAngles as real;
    assert a as real / r < 1.0 by {
      assert a as real < r;
    }
    if a < b {
      assert a as real / r < b as real / r by {
        assert (b as real - a as real) / r > 0.0;
      }
    } else if b < a {
      assert b as real / r < a as real / r by {
        assert (a as real - b as real) / r > 0.0;
      }
    }
  }

  /** Comparing shifted ticks, with the sentinel stored as `rotAngles`,
      decides the source's boundary test on degrees the same way. */
  lemma BoundaryTestOnTicks(direction: int, tick: nat, last: nat, rotAngles: nat)
    requires 0 < rotAngles && tick < rotAngles && last <= rotAngles
    requires direction == 1 || direction == -1
    ensures (direction as real * AzimuthDegrees(tick, rotAngles) < direction as real * LastAzimuthDegrees(last, rotAngles))
            <==> direction * tick < direction * last
  {
    AzimuthIncreasing(tick, tick, rotAngles);
    if last < rotAngles {
      AzimuthIncreasing(tick, last, rotAngles);
      AzimuthIncreasing(last, tick, rotAngles);
    }
  }
}
