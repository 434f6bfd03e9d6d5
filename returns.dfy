/**
 * The return selector: which echoes of one firing become points, depending on
 * the configured return-selection mode.
 */
module ReturnSelector {
  import opened Wrappers
  import opened M8Packet

  /** The distance of a single-slot point: a raw 0 ("no return") becomes "not a number". */
  function SelectedDistance(raw: nat): (d: Option<nat>)
    ensures d.None? <==> raw == 0
    ensures d.Some? ==> d.value == raw
  {
    if raw == 0 then None else Some(raw)
  }

  /** Whether the `ALL` mode keeps echo slot `k` of laser `j`: a nonzero
      distance that, for slots 1 and 2, differs from slot 0's distance. */
  predicate KeptInAll(f: Firing, lasers: nat, j: nat, k: nat)
    requires WellFormedFiring(f, lasers) && j < lasers && k < 3
  {
    f.distances[k][j] != 0 && (k == 0 || f.distances[k][j] != f.distances[0][j])
  }

  /** The points one laser `j` of a firing contributes: one in a single-slot
      mode, up to three in `ALL` mode. */
  function LaserPoints(sel: ReturnSelection, f: Firing, lasers: nat, j: nat, h: nat, v: real): (r: seq<Point>)
    requires WellFormedFiring(f, lasers) && j < lasers
    ensures |r| <= 3 && (sel != All ==> |r| == 1)
  {
    if sel == All then
      var d := f.distances[0][j];
      var i0 := f.intensities[0][j];
      (if d != 0 then [Point(h, v, j, Some(d), i0)] else [])
      + (if f.distances[1][j] != 0 && f.distances[1][j] != d then [Point(h, v, j, Some(f.distances[1][j]), i0)] else [])
      + (if f.distances[2][j] != 0 && f.distances[2][j] != d then [Point(h, v, j, Some(f.distances[2][j]), i0)] else [])
    else
      var k := SlotIndex(sel);
      [Point(h, v, j, SelectedDistance(f.distances[k][j]), f.intensities[k][j])]
  }

  /** The points of lasers 0 .. n-1 of a firing, in laser order: exactly one
      per laser in a single-slot mode, at most three per laser in any mode. */
  function FiringPoints(sel: ReturnSelection, f: Firing, lasers: nat, h: nat, vertical: seq<real>, n: nat): (r: seq<Point>)
    requires WellFormedFiring(f, lasers) && |vertical| == lasers && n <= lasers
    ensures |r| <= 3 * n
    ensures sel != All ==> |r| == n
  {
    if n == 0 then []
    else FiringPoints(sel, f, lasers, h, vertical, n - 1) + LaserPoints(sel, f, lasers, n - 1, h, vertical[n - 1])
  }

  /** Whether lasers 0 .. n-1 leave the cloud's dense flag alone: `ALL` mode
      never clears it, a single-slot mode clears it exactly when some laser's
      selected raw distance is 0. */
  function FiringKeepsDense(sel: ReturnSelection, f: Firing, lasers: nat, n: nat): (keeps: bool)
    requires WellFormedFiring(f, lasers) && n <= lasers
    ensures keeps <==> sel == All || forall j :: 0 <= j < n ==> f.distances[SlotIndex(sel)][j] != 0
  {
    if n == 0 then true
    else FiringKeepsDense(sel, f, lasers, n - 1) && !(sel != All && f.distances[SlotIndex(sel)][n - 1] == 0)
  }

  /** The slots, in slot order starting at `from`, that the `ALL` mode keeps for laser `j`. */
  function KeptSlots(f: Firing, lasers: nat, j: nat, from: nat): seq<nat>
    requires WellFormedFiring(f, lasers) && j < lasers && from <= 3
    decreases 3 - from
  {
    if from == 3 then []
    else (if KeptInAll(f, lasers, j, from) then [from] else []) + KeptSlots(f, lasers, j, from + 1)
  }

  /** A slot is listed in KeptSlots exactly when the `ALL` mode keeps it. */
  lemma {:induction false} KeptSlotsExact(f: Firing, lasers: nat, j: nat, from: nat)
    requires WellFormedFiring(f, lasers) && j < lasers && from <= 3
    ensures |KeptSlots(f, lasers, j, from)| <= 3 - from
    ensures forall k :: k in KeptSlots(f, lasers, j, from) <==> from <= k < 3 && KeptInAll(f, lasers, j, k)
    decreases 3 - from
  {
    if from < 3 {
      KeptSlotsExact(f, lasers, j, from + 1);
    }
  }

  /** The point the `ALL` mode makes of slot `k` of laser `j`. */
  function AllModePoint(f: Firing, lasers: nat, j: nat, k: nat, h: nat, v: real): Point
    requires WellFormedFiring(f, lasers) && j < lasers && k < 3
  {
    Point(h, v, j, Some(f.distances[k][j]), f.intensities[0][j])
  }

  /** In `ALL` mode a laser yields one point per kept slot, in slot order,
      each with that slot's distance and slot 0's intensity. */
  lemma AllModeLaser(f: Firing, lasers: nat, j: nat, h: nat, v: real)
    requires WellFormedFiring(f, lasers) && j < lasers
    ensures var r := LaserPoints(All, f, lasers, j, h, v);
            var ks := KeptSlots(f, lasers, j, 0);
            && |r| == |ks| <= 3
            && (forall k :: k in ks <==> k < 3 && KeptInAll(f, lasers, j, k))
            && (forall n :: 0 <= n < |r| ==> ks[n] < 3 && r[n] == AllModePoint(f, lasers, j, ks[n], h, v))
  {
    KeptSlotsExact(f, lasers, j, 0);
    var b0, b1, b2 := KeptInAll(f, lasers, j, 0), KeptInAll(f, lasers, j, 1), KeptInAll(f, lasers, j, 2);
    var p0, p1, p2 := AllModePoint(f, lasers, j, 0, h, v), AllModePoint(f, lasers, j, 1, h, v), AllModePoint(f, lasers, j, 2, h, v);
    var s0: seq<nat> := if b0 then [0] else [];
    var s1: seq<nat> := if b1 then [1] else [];
    var s2: seq<nat> := if b2 then [2] else [];
    assert KeptSlots(f, lasers, j, 0) == s0 + (s1 + (s2 + []));
    var q0: seq<Point> := if b0 then [p0] else [];
    var q1: seq<Point> := if b1 then [p1] else [];
    var q2: seq<Point> := if b2 then [p2] else [];
    assert LaserPoints(All, f, lasers, j, h, v) == q0 + q1 + q2;
  }

  /** In `ALL` mode no point of a laser is "not a number", all carry the
      laser's ring and angles, and at most 3 result. */
  lemma AllModeLaserShape(f: Firing, lasers: nat, j: nat, h: nat, v: real)
    requires WellFormedFiring(f, lasers) && j < lasers
    ensures var r := LaserPoints(All, f, lasers, j, h, v);
            && |r| <= 3
            && forall n :: 0 <= n < |r| ==> r[n].d.Some? && r[n].d.value != 0 && r[n].h == h && r[n].ring == j && r[n].v == v
  {
    AllModeLaser(f, lasers, j, h, v);
  }

  /** In a single-slot mode a firing yields exactly one point per laser, in
      laser order, each read from the selected slot. */
  lemma {:induction false} SingleModeFiring(sel: ReturnSelection, f: Firing, lasers: nat, h: nat, vertical: seq<real>, n: nat)
    requires sel != All && WellFormedFiring(f, lasers) && |vertical| == lasers && n <= lasers
    ensures var r := FiringPoints(sel, f, lasers, h, vertical, n);
            && |r| == n
            && forall j :: 0 <= j < n ==>
                 r[j] == Point(h, vertical[j], j, SelectedDistance(f.distances[SlotIndex(sel)][j]), f.intensities[SlotIndex(sel)][j])
  {
    if n > 0 {
      SingleModeFiring(sel, f, lasers, h, vertical, n - 1);
    }
  }

  /** In `ALL` mode a firing yields at most 3 points per laser, none of them
      "not a number", each carrying its laser's ring and vertical angle. */
  lemma {:induction false} AllModeFiring(f: Firing, lasers: nat, h: nat, vertical: seq<real>, n: nat)
    requires WellFormedFiring(f, lasers) && |vertical| == lasers && n <= lasers
    ensures var r := FiringPoints(All, f, lasers, h, vertical, n);
            && |r| <= 3 * n
            && forall m :: 0 <= m < |r| ==>
                 r[m].d.Some? && r[m].h == h && r[m].ring < n && r[m].v == vertical[r[m].ring]
  {
    if n > 0 {
      AllModeFiring(f, lasers, h, vertical, n - 1);
      AllModeLaserShape(f, lasers, n - 1, h, vertical[n - 1]);
      var prev := FiringPoints(All, f, lasers, h, vertical, n - 1);
      var last := LaserPoints(All, f, lasers, n - 1, h, vertical[n - 1]);
      var r: seq<Point> := prev + last;
      assert FiringPoints(All, f, lasers, h, vertical, n) == r;
      forall m | 0 <= m < |r|
        ensures r[m].d.Some? && r[m].h == h && r[m].ring < n && r[m].v == vertical[r[m].ring]
      {
        if m >= |prev| {
          assert r[m] == last[m - |prev|];
        } else {
          assert r[m] == prev[m];
        }
      }
    }
  }

  /** The dense flag is cleared exactly when the firing produces a "not a
      number" point, so appending a firing keeps an accurate flag accurate. */
  lemma {:induction false} KeepsDenseExactly(sel: ReturnSelection, f: Firing, lasers: nat, h: nat, vertical: seq<real>, n: nat)
    requires WellFormedFiring(f, lasers) && |vertical| == lasers && n <= lasers
    ensures var r := FiringPoints(sel, f, lasers, h, vertical, n);
            FiringKeepsDense(sel, f, lasers, n) <==> NoNaN(r)
  {
    if sel == All {
      AllModeFiring(f, lasers, h, vertical, n);
    } else {
      SingleModeFiring(sel, f, lasers, h, vertical, n);
      var r := FiringPoints(sel, f, lasers, h, vertical, n);
      if FiringKeepsDense(sel, f, lasers, n) {
        forall m | 0 <= m < |r| ensures r[m].d.Some? {
          assert f.distances[SlotIndex(sel)][m] != 0;
        }
      } else {
        var j :| 0 <= j < n && f.distances[SlotIndex(sel)][j] == 0;
        assert r[j].d.None?;
      }
    }
  }
}
