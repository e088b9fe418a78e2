/** The coordinate picker of a session (main.js:200, 342-369): one point of a
    region under the random, sequential or weighted policy, with the
    per-region sequential cursor held by the picker object. */
module CoordinatePicking {
  import opened Wrappers
  import opened Oracle
  import opened Geo

  datatype CoordMode = Random | Sequential | Weighted

  /** The random inputs of one `pickCoord` call: the main draw, the draw of
      the random fallback after the weighted loop, and the offset the jitter
      sampler produces. */
  datatype Draw = Draw(u: real, fallback: real, dLat: real, dLng: real)

  predicate ValidDraw(d: Draw) {
    IsUnit(d.u) && IsUnit(d.fallback)
  }

  // ---------------------------------------------------------------------
  // Weighted policy
  // ---------------------------------------------------------------------

  /** `c.weight || 1`: a missing or zero weight counts as 1. */
  function EffectiveWeight(c: Coordinate): (w: real)
    ensures TruthyNumber(c.weight) ==> w == c.weight.value
    ensures !TruthyNumber(c.weight) ==> w == 1.0
  {
    if c.weight.None? || c.weight.value == 0.0 then 1.0 else c.weight.value
  }

  function TotalWeight(cs: seq<Coordinate>): real
    decreases |cs|
  {
    if cs == [] then 0.0 else EffectiveWeight(cs[0]) + TotalWeight(cs[1..])
  }

  /** Cumulative weight of the first `k` coordinates. */
  function Prefix(cs: seq<Coordinate>, k: nat): real
    requires k <= |cs|
  {
    TotalWeight(cs[..k])
  }

  predicate AllPositive(cs: seq<Coordinate>) {
    forall i :: 0 <= i < |cs| ==> EffectiveWeight(cs[i]) > 0.0
  }

  /** `Math.random() * total`: the point of [0, total) the weighted loop looks for. */
  function WeightedTarget(cs: seq<Coordinate>, u: real): real {
    u * TotalWeight(cs)
  }

  /** Coordinate `k` is reached by the draw `r`: its cumulative weight is at least `r`. */
  predicate Covers(cs: seq<Coordinate>, r: real, k: nat) {
    k < |cs| && Prefix(cs, k + 1) >= r
  }

  lemma {:induction false} TotalWeightAppend(s: seq<Coordinate>, c: Coordinate)
    ensures TotalWeight(s + [c]) == TotalWeight(s) + EffectiveWeight(c)
    decreases |s|
  {
    if s != [] {
      assert (s + [c])[1..] == s[1..] + [c];
      TotalWeightAppend(s[1..], c);
    } else {
      assert [c][1..] == [];
    }
  }

  lemma PrefixStep(cs: seq<Coordinate>, k: nat)
    requires k < |cs|
    ensures Prefix(cs, k + 1) == Prefix(cs, k) + EffectiveWeight(cs[k])
  {
    assert cs[..k + 1] == cs[..k] + [cs[k]];
    TotalWeightAppend(cs[..k], cs[k]);
  }

  lemma PrefixShift(cs: seq<Coordinate>)
    requires cs != []
    ensures forall k :: 0 <= k < |cs| ==> Prefix(cs, k + 1) == EffectiveWeight(cs[0]) + Prefix(cs[1..], k)
  {
    forall k | 0 <= k < |cs|
      ensures Prefix(cs, k + 1) == EffectiveWeight(cs[0]) + Prefix(cs[1..], k)
    {
      assert cs[..k + 1][1..] == cs[1..][..k];
    }
  }

  /** Dropping the first coordinate shifts the covering relation by one
      position and lowers the draw by that coordinate's weight. */
  lemma CoversShift(cs: seq<Coordinate>, r: real)
    requires cs != []
    ensures Covers(cs, r, 0) <==> EffectiveWeight(cs[0]) >= r
    ensures forall j :: 1 <= j < |cs| ==> (Covers(cs, r, j) <==> Covers(cs[1..], r - EffectiveWeight(cs[0]), j - 1))
  {
    PrefixShift(cs);
    assert Prefix(cs[1..], 0) == 0.0 by { assert cs[1..][..0] == []; }
  }

  /** The weighted draw as a specification: the first coordinate whose
      cumulative weight reaches `r`, if any. */
  function FirstCovering(cs: seq<Coordinate>, r: real): (k: Option<nat>)
    ensures k.Some? ==> Covers(cs, r, k.value) && forall j :: 0 <= j < k.value ==> !Covers(cs, r, j)
    ensures k.None? ==> forall j :: 0 <= j < |cs| ==> !Covers(cs, r, j)
    decreases |cs|
  {
    if cs == [] then None
    else
      var w := EffectiveWeight(cs[0]);
      CoversShift(cs, r);
      if w >= r then Some(0)
      else
        match FirstCovering(cs[1..], r - w)
        case None => None
        case Some(j) => Some(j + 1)
  }

  /** The first covering coordinate is unique: `FirstCovering` is the only
      answer meeting its contract. */
  lemma FirstCoveringExactly(cs: seq<Coordinate>, r: real, k: nat)
    ensures FirstCovering(cs, r) == Some(k) <==> Covers(cs, r, k) && forall j :: 0 <= j < k ==> !Covers(cs, r, j)
  {
  }

  lemma {:induction false} PrefixMonotone(cs: seq<Coordinate>, i: nat, j: nat)
    requires AllPositive(cs) && i <= j <= |cs|
    ensures Prefix(cs, i) <= Prefix(cs, j)
    decreases j - i
  {
    if i < j {
      PrefixStep(cs, j - 1);
      PrefixMonotone(cs, i, j - 1);
    }
  }

  /** With positive weights, coordinate `k` is drawn exactly for the `r` in
      (Prefix(k), Prefix(k+1)] (from 0 for the first one): an interval as
      wide as its weight, so a uniform `r` in [0, total) picks it with
      probability weight/total. */
  lemma WeightedInterval(cs: seq<Coordinate>, r: real, k: nat)
    requires AllPositive(cs) && k < |cs|
    ensures FirstCovering(cs, r) == Some(k) <==> (k == 0 || Prefix(cs, k) < r) && r <= Prefix(cs, k + 1)
    ensures Prefix(cs, k + 1) - Prefix(cs, k) == EffectiveWeight(cs[k])
  {
    PrefixStep(cs, k);
    FirstCoveringExactly(cs, r, k);
    if k > 0 {
      assert Covers(cs, r, k - 1) <==> Prefix(cs, k) >= r;
    }
    if (k == 0 || Prefix(cs, k) < r) && r <= Prefix(cs, k + 1) {
      forall j | 0 <= j < k ensures !Covers(cs, r, j) {
        PrefixMonotone(cs, j + 1, k);
      }
    }
  }

  lemma TotalWeightNonnegative(cs: seq<Coordinate>)
    requires AllPositive(cs)
    ensures TotalWeight(cs) == Prefix(cs, |cs|) >= 0.0
  {
    assert cs[..|cs|] == cs;
    assert cs[..0] == [];
    PrefixMonotone(cs, 0, |cs|);
  }

  lemma TargetWithinTotal(cs: seq<Coordinate>, u: real)
    requires IsUnit(u) && AllPositive(cs)
    ensures WeightedTarget(cs, u) <= Prefix(cs, |cs|)
  {
    TotalWeightNonnegative(cs);
    var t := TotalWeight(cs);
    TargetIsScaledTotal(cs, u, t);
    ScaledAtMost(u, t);
  }

  lemma TargetIsScaledTotal(cs: seq<Coordinate>, u: real, t: real)
    requires t == TotalWeight(cs)
    ensures WeightedTarget(cs, u) == u * t
  {
  }

  /** A draw no larger than the total weight is covered by the last coordinate. */
  lemma CoveredBelowTotal(cs: seq<Coordinate>, r: real)
    requires cs != [] && r <= Prefix(cs, |cs|)
    ensures FirstCovering(cs, r).Some?
  {
    assert Covers(cs, r, |cs| - 1);
  }

  /** When every weight is positive the weighted loop always returns: the
      random fallback after it is never reached. */
  lemma WeightedAlwaysPicks(cs: seq<Coordinate>, u: real)
    requires IsUnit(u) && cs != [] && AllPositive(cs)
    ensures FirstCovering(cs, WeightedTarget(cs, u)).Some?
  {
    TargetWithinTotal(cs, u);
    CoveredBelowTotal(cs, WeightedTarget(cs, u));
  }

  /** The weighted loop of `pickCoord`: `r = u * total`, then the weight of
      each coordinate in turn is subtracted until `r <= 0`. */
  method PickWeighted(coords: seq<Coordinate>, u: real) returns (k: Option<nat>)
    requires IsUnit(u)
    ensures k == FirstCovering(coords, WeightedTarget(coords, u))
    ensures k.Some? ==> k.value < |coords|
  {
    var r := WeightedTarget(coords, u);
    ghost var r0 := r;
    var i := 0;
    while i < |coords|
      invariant 0 <= i <= |coords|
      invariant r == r0 - Prefix(coords, i)
      invariant forall j :: 0 <= j < i ==> !Covers(coords, r0, j)
    {
      PrefixStep(coords, i);
      r := r - EffectiveWeight(coords[i]);
      if r <= 0.0 {
        FirstCoveringExactly(coords, r0, i);
        return Some(i);
      }
      i := i + 1;
    }
    return None;
  }

  // ---------------------------------------------------------------------
  // Sequential policy
  // ---------------------------------------------------------------------

  /** `seqIndexByProvince.get(key) || 0`. */
  function CursorOf(cursors: map<string, nat>, key: string): nat {
    if key in cursors then cursors[key] else 0
  }

  /** The cursor after one sequential draw over `n` coordinates. */
  function NextCursor(c: nat, n: nat): nat
    requires n > 0
  {
    c % n + 1
  }

  /** The cursor of a region after `j` sequential draws that started from
      cursor `start` (0 for a region the picker has not seen). */
  function CursorAfter(n: nat, start: nat, j: nat): nat
    requires n > 0
  {
    if j == 0 then start else NextCursor(CursorAfter(n, start, j - 1), n)
  }

  lemma MulMonotone(a: int, b: int, n: int)
    ensures a <= b && 0 <= n ==> a * n <= b * n
  {
  }

  lemma ModUnique(y: int, n: int, q: int, r: int)
    requires n > 0 && 0 <= r < n && y == q * n + r
    ensures y % n == r
  {
    var q' := y / n;
    MulMonotone(q + 1, q', n);
    MulMonotone(q' + 1, q, n);
  }

  lemma ModStep(x: nat, n: nat)
    requires n > 0
    ensures (x % n + 1) % n == (x + 1) % n
  {
    var q, a := x / n, x % n;
    if a + 1 < n {
      ModUnique(x + 1, n, q, a + 1);
      ModUnique(a + 1, n, 0, a + 1);
    } else {
      ModUnique(x + 1, n, q + 1, 0);
      ModUnique(a + 1, n, 1, 0);
    }
  }

  /** Draw number `j` (from 0) after starting at cursor `start` takes
      coordinate `(start + j) mod n`: every coordinate once per round, in
      list order. */
  lemma {:induction false} SequentialVisitsInOrder(n: nat, start: nat, j: nat)
    requires n > 0
    ensures CursorAfter(n, start, j) % n == (start + j) % n
    ensures j > 0 ==> CursorAfter(n, start, j) == (start + j - 1) % n + 1
  {
    if j > 0 {
      SequentialVisitsInOrder(n, start, j - 1);
      var c := CursorAfter(n, start, j - 1);
      assert CursorAfter(n, start, j) == c % n + 1;
      ModStep(start + j - 1, n);
      ModStep(c, n);
    }
  }

  // ---------------------------------------------------------------------
  // The picker
  // ---------------------------------------------------------------------

  /** The point the jitter fallback starts from: the region centre, each
      falsy coordinate replaced by the built-in region's. */
  function JitterCentre(province: Region): (real, real) {
    (if TruthyNumber(province.lat) then province.lat.value else DefaultRegion.lat.value,
     if TruthyNumber(province.lng) then province.lng.value else DefaultRegion.lng.value)
  }

  /** `jitterAround`, with the sampled offset taken from the draw. */
  function Jittered(province: Region, d: Draw): Coordinate {
    var centre := JitterCentre(province);
    Coordinate(centre.0 + d.dLat, centre.1 + d.dLng, Some("aleatorio"), None)
  }

  /** The choice `pickCoord` makes for a region with coordinates, given the
      cursor stored for its name. */
  function ChoiceIndex(coords: seq<Coordinate>, mode: CoordMode, cursor: nat, d: Draw): (k: nat)
    requires coords != [] && ValidDraw(d)
    ensures k < |coords|
  {
    match mode
    case Random => RandomIndex(d.u, |coords|)
    case Sequential => cursor % |coords|
    case Weighted =>
      match FirstCovering(coords, WeightedTarget(coords, d.u))
      case Some(k) => k
      case None => RandomIndex(d.fallback, |coords|)
  }

  /** The module-level map `seqIndexByProvince`, owned by one session. */
  class CoordinatePicker {
    var seqIndexByProvince: map<string, nat>

    constructor ()
      ensures seqIndexByProvince == map[]
    {
      seqIndexByProvince := map[];
    }

    /** `pickCoord`. Without coordinates: a jittered point around the centre.
        Random: a uniform index. Sequential: the region's cursor modulo the
        list length, and the cursor becomes that index plus one. Weighted:
        the first coordinate whose cumulative weight reaches `u * total`,
        else a uniform index. Only a sequential draw touches the map, and
        only under the region's own name. */
    method PickCoord(province: Region, mode: CoordMode, d: Draw) returns (c: Coordinate)
      requires ValidDraw(d)
      modifies this
      ensures province.coords == [] ==> c == Jittered(province, d)
      ensures province.coords != [] ==>
                c == province.coords[ChoiceIndex(province.coords, mode, CursorOf(old(seqIndexByProvince), province.name), d)]
      ensures province.coords != [] ==> c in province.coords
      ensures province.coords != [] && mode == Sequential ==>
                seqIndexByProvince == old(seqIndexByProvince)[province.name :=
                  NextCursor(CursorOf(old(seqIndexByProvince), province.name), |province.coords|)]
      ensures province.coords == [] || mode != Sequential ==> seqIndexByProvince == old(seqIndexByProvince)
    {
      var coords := province.coords;
      if coords == [] {
        return Jittered(province, d);
      }
      match mode {
        case Random =>
          c := coords[RandomIndex(d.u, |coords|)];
        case Sequential =>
          var key := province.name;
          var i := CursorOf(seqIndexByProvince, key) % |coords|;
          seqIndexByProvince := seqIndexByProvince[key := i + 1];
          c := coords[i];
        case Weighted =>
          var k := PickWeighted(coords, d.u);
          if k.Some? {
            c := coords[k.value];
          } else {
            c := coords[RandomIndex(d.fallback, |coords|)];
          }
      }
    }
  }

  /** `count` successive sequential draws of a fresh picker over one region
      give its coordinates in list order, cyclically: over [A, B, C] the
      draws are A, B, C, A, ... */
  method SequentialDraws(province: Region, count: nat) returns (draws: seq<Coordinate>)
    requires province.coords != []
    ensures |draws| == count
    ensures forall j :: 0 <= j < count ==> draws[j] == province.coords[j % |province.coords|]
  {
    var picker := new CoordinatePicker();
    var n := |province.coords|;
    draws := [];
    for j := 0 to count
      invariant |draws| == j
      invariant forall i :: 0 <= i < j ==> draws[i] == province.coords[i % n]
      invariant CursorOf(picker.seqIndexByProvince, province.name) == CursorAfter(n, 0, j)
    {
      SequentialVisitsInOrder(n, 0, j);
      var c := picker.PickCoord(province, Sequential, Draw(0.0, 0.0, 0.0, 0.0));
      draws := draws + [c];
    }
  }
}
