/**
 * Pairwise joint detection (src/utils/jointDetection.ts).
 *
 * The detector looks at every unordered pair of tubes `(i, j)` with `i < j`,
 * in ascending lexicographic order, and reports a preview for each pair whose
 * centroids are at most `ProximityThreshold` apart.
 *
 * The floating-point geometry of three.js (`distanceTo`, `applyEuler`,
 * `angleTo`) is not computed here: it is passed in as a `Geometry` value and
 * `Lawful` states what the model assumes of it.
 */
module JointDetection {
  import opened Wrappers
  import opened TubeTypes

  /** `PROXIMITY_THRESHOLD`: the largest centroid distance that still yields a preview. */
  const ProximityThreshold: real := 2.0

  /** One preview record; `angle` is in whole degrees, `distance` rounded to hundredths. */
  datatype JointPreview = JointPreview(
    tube1Id: string,
    tube2Id: string,
    intersectionPoint: Vec3,
    angle: int,
    distance: real)

  /**
   * The three.js operations the detector relies on:
   * `distance(p, q)` is `Vector3.distanceTo`, `axisOf(r)` is the unit
   * vector (0, 0, 1) rotated by the Euler angles `r`, and `angleDeg(u, v)`
   * is `u.angleTo(v) * 180 / Math.PI`.
   */
  datatype Geometry = Geometry(
    distance: (Vec3, Vec3) -> real,
    axisOf: Vec3 -> Vec3,
    angleDeg: (Vec3, Vec3) -> real)

  /**
   * What a real implementation of the geometry satisfies: the distance is
   * symmetric and the non-negative square root of the squared distance, and the angle between
   * two axes lies in [0, 180] degrees and does not depend on their order.
   */
  ghost predicate Lawful(g: Geometry)
  {
    && (forall p, q :: 0.0 <= g.distance(p, q))
    && (forall p, q :: g.distance(p, q) == g.distance(q, p))
    && (forall p, q :: g.distance(p, q) * g.distance(p, q) == SquaredDistance(p, q))
    && (forall u, v :: 0.0 <= g.angleDeg(u, v) <= 180.0)
    && (forall u, v :: g.angleDeg(u, v) == g.angleDeg(v, u))
  }

  /** `Math.round`: the nearest integer, halves rounded towards +infinity. */
  function Round(x: real): int
  {
    (x + 0.5).Floor
  }

  /** `Round` is off by at most one half, and a half is rounded up. */
  lemma RoundBounds(x: real)
    ensures x - 0.5 < Round(x) as real <= x + 0.5
    ensures x == x.Floor as real + 0.5 ==> Round(x) == x.Floor + 1
  {
  }

  /** `Math.round(d * 100) / 100`: the distance rounded to two decimals. */
  function RoundedDistance(d: real): real
  {
    Round(d * 100.0) as real / 100.0
  }

  /** The rounded distance is within half a hundredth of the true one and keeps its sign. */
  lemma RoundedDistanceBounds(d: real)
    ensures d - 0.005 < RoundedDistance(d) <= d + 0.005
    ensures 0.0 <= d ==> 0.0 <= RoundedDistance(d)
  {
    RoundBounds(d * 100.0);
  }

  /** `addVectors(c1, c2).multiplyScalar(0.5)`: the midpoint of two centroids. */
  function Midpoint(a: Vec3, b: Vec3): Vec3
  {
    Vec3((a.x + b.x) * 0.5, (a.y + b.y) * 0.5, (a.z + b.z) * 0.5)
  }

  /** The midpoint is equally far from both centroids, half-way between them, and symmetric. */
  lemma MidpointProperties(a: Vec3, b: Vec3)
    ensures Midpoint(a, b) == Midpoint(b, a)
    ensures SquaredDistance(a, Midpoint(a, b)) == SquaredDistance(b, Midpoint(a, b))
    ensures 4.0 * SquaredDistance(a, Midpoint(a, b)) == SquaredDistance(a, b)
  {
  }

  /** `checkTubeProximity`: a preview for the pair, or `None` when the tubes are too far apart. */
  function CheckTubeProximity(g: Geometry, t1: Tube, t2: Tube): Option<JointPreview>
  {
    var d := g.distance(t1.position, t2.position);
    if d > ProximityThreshold then None
    else
      var angle := g.angleDeg(g.axisOf(t1.rotation), g.axisOf(t2.rotation));
      Some(JointPreview(t1.id, t2.id, Midpoint(t1.position, t2.position), Round(angle), RoundedDistance(d)))
  }

  /** Whether the pair of tubes passes the proximity test. */
  predicate Within(g: Geometry, t1: Tube, t2: Tube)
  {
    g.distance(t1.position, t2.position) <= ProximityThreshold
  }

  lemma ProximityIffWithin(g: Geometry, t1: Tube, t2: Tube)
    ensures CheckTubeProximity(g, t1, t2).Some? <==> Within(g, t1, t2)
    ensures CheckTubeProximity(g, t1, t2).Some? ==>
      var r := CheckTubeProximity(g, t1, t2).value;
      r.tube1Id == t1.id && r.tube2Id == t2.id && r.intersectionPoint == Midpoint(t1.position, t2.position)
  {
  }

  /** The threshold test is the same as comparing the squared distance with 4. */
  lemma WithinIffSquared(g: Geometry, t1: Tube, t2: Tube)
    requires Lawful(g)
    ensures Within(g, t1, t2) <==> SquaredDistance(t1.position, t2.position) <= 4.0
  {
    var d := g.distance(t1.position, t2.position);
    assert 0.0 <= d && d * d == SquaredDistance(t1.position, t2.position);
    if d <= 2.0 {
      assert d * d <= 2.0 * d <= 4.0;
    } else {
      assert d * d > 2.0 * d > 4.0;
    }
  }

  /** The numbers a preview reports are within the ranges the renderer expects. */
  lemma PreviewRanges(g: Geometry, t1: Tube, t2: Tube)
    requires Lawful(g)
    requires CheckTubeProximity(g, t1, t2).Some?
    ensures var r := CheckTubeProximity(g, t1, t2).value;
      && 0 <= r.angle <= 180
      && 0.0 <= r.distance <= ProximityThreshold
      && r.distance - 0.005 <= g.distance(t1.position, t2.position) < r.distance + 0.005
  {
    var d := g.distance(t1.position, t2.position);
    var a := g.angleDeg(g.axisOf(t1.rotation), g.axisOf(t2.rotation));
    assert 0.0 <= a <= 180.0;
    RoundBounds(a);
    RoundedDistanceBounds(d);
    assert 0.0 <= d <= 2.0;
    RoundBounds(d * 100.0);
    assert Round(d * 100.0) <= 200;
  }

  /** Swapping the two tubes changes only which id is reported first. */
  lemma ProximitySymmetric(g: Geometry, t1: Tube, t2: Tube)
    requires Lawful(g)
    ensures CheckTubeProximity(g, t1, t2).Some? <==> CheckTubeProximity(g, t2, t1).Some?
    ensures CheckTubeProximity(g, t1, t2).Some? ==>
      var r, s := CheckTubeProximity(g, t1, t2).value, CheckTubeProximity(g, t2, t1).value;
      && s == r.(tube1Id := t2.id, tube2Id := t1.id)
  {
    assert g.distance(t1.position, t2.position) == g.distance(t2.position, t1.position);
    var u, v := g.axisOf(t1.rotation), g.axisOf(t2.rotation);
    assert g.angleDeg(u, v) == g.angleDeg(v, u);
  }

  // ---------------------------------------------------------------------
  // Pair enumeration

  /** A pair of indices into the tube sequence. */
  type Pair = (nat, nat)

  /** Lexicographic order on index pairs. */
  predicate LexLess(p: Pair, q: Pair)
  {
    p.0 < q.0 || (p.0 == q.0 && p.1 < q.1)
  }

  predicate StrictlySorted(ps: seq<Pair>)
  {
    forall a, b :: 0 <= a < b < |ps| ==> LexLess(ps[a], ps[b])
  }

  /** Every pair is an ordered pair of distinct indices below `n`. */
  predicate InRange(ps: seq<Pair>, n: nat)
  {
    forall k :: 0 <= k < |ps| ==> ps[k].0 < ps[k].1 < n
  }

  /** The pairs `(i, lo), (i, lo + 1), ..., (i, hi - 1)`: one pass of the inner loop. */
  function RowPairs(i: nat, lo: nat, hi: nat): (ps: seq<Pair>)
    ensures |ps| == if lo <= hi then hi - lo else 0
    decreases hi - lo
  {
    if hi <= lo then [] else RowPairs(i, lo, hi - 1) + [(i, hi - 1)]
  }

  /** The `k`-th pair of a row is `(i, lo + k)`. */
  lemma {:induction false} RowPairsElements(i: nat, lo: nat, hi: nat)
    ensures forall k :: 0 <= k < |RowPairs(i, lo, hi)| ==> RowPairs(i, lo, hi)[k] == (i, lo + k)
    decreases hi - lo
  {
    if lo < hi {
      RowPairsElements(i, lo, hi - 1);
    }
  }

  /** Every pair the nested loops visit while the outer index is below `i`. */
  function PairsBefore(i: nat, n: nat): (ps: seq<Pair>)
    ensures InRange(ps, n)
  {
    if i == 0 then []
    else
      var front, row := PairsBefore(i - 1, n), RowPairs(i - 1, i, n);
      RowPairsElements(i - 1, i, n);
      assert forall k :: |front| <= k < |front| + |row| ==> (front + row)[k] == row[k - |front|];
      front + row
  }

  /** The pairs `detectPotentialJoints` examines, in the order it examines them. */
  function AllPairs(n: nat): (ps: seq<Pair>)
    ensures InRange(ps, n)
  {
    PairsBefore(n, n)
  }

  lemma PairsBeforeUnfold(i: nat, n: nat)
    requires i > 0
    ensures PairsBefore(i, n) == PairsBefore(i - 1, n) + RowPairs(i - 1, i, n)
  {
  }

  /** The outer loop visits the rows in order, and each row in order of `j`. */
  lemma {:induction false} PairsBeforeSorted(i: nat, n: nat)
    ensures forall k :: 0 <= k < |PairsBefore(i, n)| ==> PairsBefore(i, n)[k].0 < i
    ensures StrictlySorted(PairsBefore(i, n))
  {
    if i > 0 {
      PairsBeforeSorted(i - 1, n);
      var front, row := PairsBefore(i - 1, n), RowPairs(i - 1, i, n);
      RowPairsElements(i - 1, i, n);
      assert PairsBefore(i, n) == front + row;
      assert forall a, b :: 0 <= a < |front| <= b < |front| + |row| ==> LexLess((front + row)[a], (front + row)[b]);
    }
  }

  lemma {:induction false} PairsBeforeComplete(i: nat, n: nat, a: nat, b: nat)
    requires a < i && a < b < n
    ensures (a, b) in PairsBefore(i, n)
  {
    var front, row := PairsBefore(i - 1, n), RowPairs(i - 1, i, n);
    assert PairsBefore(i, n) == front + row;
    if a == i - 1 {
      RowPairsElements(i - 1, i, n);
      assert row[b - i] == (a, b);
    } else {
      PairsBeforeComplete(i - 1, n, a, b);
    }
  }

  /** Exactly the pairs `i < j < n` are examined: no self-pairs, both orders never. */
  lemma AllPairsMembers(n: nat, p: Pair)
    ensures p in AllPairs(n) <==> p.0 < p.1 < n
  {
    if p.0 < p.1 < n {
      PairsBeforeComplete(n, n, p.0, p.1);
    }
  }

  /** Pairs are examined in ascending `(i, j)` order, so none is examined twice. */
  lemma AllPairsOrdered(n: nat)
    ensures StrictlySorted(AllPairs(n))
    ensures forall a, b :: 0 <= a < b < |AllPairs(n)| ==> AllPairs(n)[a] != AllPairs(n)[b]
  {
    PairsBeforeSorted(n, n);
  }

  lemma {:induction false} PairsBeforeLength(i: nat, n: nat)
    requires i <= n
    ensures 2 * |PairsBefore(i, n)| == i * (2 * n - i - 1)
  {
    if i > 0 {
      PairsBeforeLength(i - 1, n);
      assert |PairsBefore(i, n)| == |PairsBefore(i - 1, n)| + (n - i);
      calc {
        (i - 1) * (2 * n - (i - 1) - 1) + 2 * (n - i);
        (i - 1) * (2 * n - i) + 2 * n - 2 * i;
        i * (2 * n - i - 1);
      }
    }
  }

  /** `n` tubes give `n(n-1)/2` candidate pairs. */
  lemma AllPairsLength(n: nat)
    ensures |AllPairs(n)| == n * (n - 1) / 2
  {
    PairsBeforeLength(n, n);
  }

  // ---------------------------------------------------------------------
  // The detector over a list of visited pairs

  /** The test applied to each visited pair. */
  type PairTest = (Tube, Tube) -> Option<JointPreview>

  /** `checkTubeProximity` for a given geometry, as a test on pairs. */
  function ProximityTest(g: Geometry): PairTest
  {
    (t1: Tube, t2: Tube) => CheckTubeProximity(g, t1, t2)
  }

  /** What one visited pair adds to the output: its preview, if any. */
  function Emitted(test: PairTest, t1: Tube, t2: Tube): seq<JointPreview>
  {
    match test(t1, t2)
    case Some(r) => [r]
    case None => []
  }

  /** What visiting pair `p` adds; a pair outside the list adds nothing. */
  function Visit(test: PairTest, tubes: seq<Tube>, p: Pair): seq<JointPreview>
  {
    if p.0 < |tubes| && p.1 < |tubes| then Emitted(test, tubes[p.0], tubes[p.1]) else []
  }

  /** The previews produced while visiting `ps` in order. */
  function Scan(test: PairTest, tubes: seq<Tube>, ps: seq<Pair>): seq<JointPreview>
  {
    if ps == [] then [] else Scan(test, tubes, ps[..|ps| - 1]) + Visit(test, tubes, ps[|ps| - 1])
  }

  lemma ScanSnoc(test: PairTest, tubes: seq<Tube>, ps: seq<Pair>, p: Pair)
    ensures Scan(test, tubes, ps + [p]) == Scan(test, tubes, ps) + Visit(test, tubes, p)
  {
    assert (ps + [p])[..|ps|] == ps;
  }

  /** The pairs of `ps` that pass the threshold, in their order in `ps`. */
  function Kept(g: Geometry, tubes: seq<Tube>, ps: seq<Pair>): (ks: seq<Pair>)
    requires InRange(ps, |tubes|)
    ensures |ks| <= |ps|
    ensures InRange(ks, |tubes|)
  {
    if ps == [] then []
    else
      var p := ps[|ps| - 1];
      Kept(g, tubes, ps[..|ps| - 1]) + if Within(g, tubes[p.0], tubes[p.1]) then [p] else []
  }

  /** A pair is kept iff it is in the list and passes the threshold. */
  lemma {:induction false} KeptMembers(g: Geometry, tubes: seq<Tube>, ps: seq<Pair>)
    requires InRange(ps, |tubes|)
    ensures forall p :: p in Kept(g, tubes, ps) <==> p in ps && Within(g, tubes[p.0], tubes[p.1])
  {
    if ps != [] {
      var front, last := ps[..|ps| - 1], ps[|ps| - 1];
      assert InRange(front, |tubes|);
      KeptMembers(g, tubes, front);
      assert ps == front + [last];
    }
  }

  /** The `k`-th preview belongs to the `k`-th kept pair, earlier tube first. */
  lemma {:induction false} ScanFollowsKept(g: Geometry, tubes: seq<Tube>, ps: seq<Pair>)
    requires InRange(ps, |tubes|)
    ensures |Scan(ProximityTest(g), tubes, ps)| == |Kept(g, tubes, ps)|
    ensures forall k :: 0 <= k < |Kept(g, tubes, ps)| ==>
      CheckTubeProximity(g, tubes[Kept(g, tubes, ps)[k].0], tubes[Kept(g, tubes, ps)[k].1])
        == Some(Scan(ProximityTest(g), tubes, ps)[k])
  {
    if ps != [] {
      var test := ProximityTest(g);
      var front, p := ps[..|ps| - 1], ps[|ps| - 1];
      assert InRange(front, |tubes|);
      ScanFollowsKept(g, tubes, front);
      ProximityIffWithin(g, tubes[p.0], tubes[p.1]);
      var s0, k0 := Scan(test, tubes, front), Kept(g, tubes, front);
      var s, ks := Scan(test, tubes, ps), Kept(g, tubes, ps);
      assert s == s0 + Visit(test, tubes, p);
      assert ks == k0 + if Within(g, tubes[p.0], tubes[p.1]) then [p] else [];
      forall k | 0 <= k < |ks|
        ensures CheckTubeProximity(g, tubes[ks[k].0], tubes[ks[k].1]) == Some(s[k])
      {
        if k < |k0| {
          assert ks[k] == k0[k] && s[k] == s0[k];
        }
      }
    }
  }

  /** Keeping a sub-list of a strictly sorted list leaves it strictly sorted. */
  lemma {:induction false} KeptSorted(g: Geometry, tubes: seq<Tube>, ps: seq<Pair>)
    requires InRange(ps, |tubes|) && StrictlySorted(ps)
    ensures StrictlySorted(Kept(g, tubes, ps))
  {
    if ps != [] {
      var front := ps[..|ps| - 1];
      var p := ps[|ps| - 1];
      KeptSorted(g, tubes, front);
      KeptMembers(g, tubes, front);
      var kf := Kept(g, tubes, front);
      forall q | q in kf
        ensures LexLess(q, p)
      {
        var a :| 0 <= a < |front| && front[a] == q;
      }
    }
  }

  /** If every pair passes the threshold, every pair is kept. */
  lemma {:induction false} KeptAll(g: Geometry, tubes: seq<Tube>, ps: seq<Pair>)
    requires InRange(ps, |tubes|)
    requires forall k :: 0 <= k < |ps| ==> Within(g, tubes[ps[k].0], tubes[ps[k].1])
    ensures Kept(g, tubes, ps) == ps
  {
    if ps != [] {
      var front := ps[..|ps| - 1];
      assert ps == front + [ps[|ps| - 1]];
      assert forall k :: 0 <= k < |front| ==> front[k] == ps[k];
      KeptAll(g, tubes, front);
    }
  }

  // ---------------------------------------------------------------------
  // The detector as a function, and one step of its loops

  /** `detectPotentialJoints` as a function: the previews of the examined pairs, in order. */
  function Detect(g: Geometry, tubes: seq<Tube>): seq<JointPreview>
  {
    Scan(ProximityTest(g), tubes, AllPairs(|tubes|))
  }

  lemma RowPairsSnoc(i: nat, lo: nat, hi: nat)
    requires lo < hi
    ensures RowPairs(i, lo, hi) == RowPairs(i, lo, hi - 1) + [(i, hi - 1)]
  {
  }

  /** A row with no partner left adds no pair. */
  lemma InnerStart(test: PairTest, tubes: seq<Tube>, ps: seq<Pair>, i: nat)
    ensures Scan(test, tubes, ps + RowPairs(i, i + 1, i + 1)) == Scan(test, tubes, ps)
  {
    assert ps + RowPairs(i, i + 1, i + 1) == ps;
  }

  /** One inner iteration visits the pair `(i, j)` after the pairs visited before it. */
  lemma InnerStep(test: PairTest, tubes: seq<Tube>, ps: seq<Pair>, i: nat, j: nat)
    requires i < j
    ensures Scan(test, tubes, ps + RowPairs(i, i + 1, j + 1))
      == Scan(test, tubes, ps + RowPairs(i, i + 1, j)) + Visit(test, tubes, (i, j))
  {
    RowPairsSnoc(i, i + 1, j + 1);
    assert ps + RowPairs(i, i + 1, j + 1) == (ps + RowPairs(i, i + 1, j)) + [(i, j)];
    ScanSnoc(test, tubes, ps + RowPairs(i, i + 1, j), (i, j));
  }

  /** What visiting `(i, j)` adds in the detector is what `checkTubeProximity` returns. */
  lemma VisitProximity(g: Geometry, tubes: seq<Tube>, i: nat, j: nat)
    requires i < |tubes| && j < |tubes|
    ensures Visit(ProximityTest(g), tubes, (i, j))
      == match CheckTubeProximity(g, tubes[i], tubes[j]) case Some(r) => [r] case None => []
  {
  }

  // ---------------------------------------------------------------------
  // What the detector promises

  /**
   * What `detectPotentialJoints` returns: one record per pair `i < j` whose
   * tubes pass the threshold, in ascending `(i, j)` order, with `tube1Id`
   * from tube `i`, `tube2Id` from tube `j` and the midpoint of their centroids.
   */
  lemma DetectCharacterized(g: Geometry, tubes: seq<Tube>)
    ensures var ks := Kept(g, tubes, AllPairs(|tubes|));
      && |Detect(g, tubes)| == |ks|
      && StrictlySorted(ks)
      && (forall p: Pair :: p in ks <==> p.0 < p.1 < |tubes| && Within(g, tubes[p.0], tubes[p.1]))
      && (forall k :: 0 <= k < |ks| ==>
            var r := Detect(g, tubes)[k];
            && r.tube1Id == tubes[ks[k].0].id
            && r.tube2Id == tubes[ks[k].1].id
            && r.intersectionPoint == Midpoint(tubes[ks[k].0].position, tubes[ks[k].1].position)
            && CheckTubeProximity(g, tubes[ks[k].0], tubes[ks[k].1]) == Some(r))
  {
    var ps := AllPairs(|tubes|);
    var ks := Kept(g, tubes, ps);
    var out := Detect(g, tubes);
    ScanFollowsKept(g, tubes, ps);
    AllPairsOrdered(|tubes|);
    KeptSorted(g, tubes, ps);
    KeptMembers(g, tubes, ps);
    forall p: Pair
      ensures p in ks <==> p.0 < p.1 < |tubes| && Within(g, tubes[p.0], tubes[p.1])
    {
      AllPairsMembers(|tubes|, p);
    }
    forall k | 0 <= k < |ks|
      ensures out[k].tube1Id == tubes[ks[k].0].id && out[k].tube2Id == tubes[ks[k].1].id
      ensures out[k].intersectionPoint == Midpoint(tubes[ks[k].0].position, tubes[ks[k].1].position)
    {
      ProximityIffWithin(g, tubes[ks[k].0], tubes[ks[k].1]);
    }
  }

  /** At most `n(n-1)/2` previews. */
  lemma DetectAtMost(g: Geometry, tubes: seq<Tube>)
    ensures |Detect(g, tubes)| <= |tubes| * (|tubes| - 1) / 2
  {
    var ps := AllPairs(|tubes|);
    ScanFollowsKept(g, tubes, ps);
    AllPairsLength(|tubes|);
  }

  /** Exactly `n(n-1)/2` previews when every pair of tubes is close enough. */
  lemma DetectAllClose(g: Geometry, tubes: seq<Tube>)
    requires forall i, j :: 0 <= i < j < |tubes| ==> Within(g, tubes[i], tubes[j])
    ensures |Detect(g, tubes)| == |tubes| * (|tubes| - 1) / 2
  {
    var ps := AllPairs(|tubes|);
    ScanFollowsKept(g, tubes, ps);
    AllPairsLength(|tubes|);
    forall k | 0 <= k < |ps|
      ensures Within(g, tubes[ps[k].0], tubes[ps[k].1])
    {
      var i, j := ps[k].0, ps[k].1;
      assert 0 <= i < j < |tubes|;
    }
    KeptAll(g, tubes, ps);
  }

  /** Fewer than two tubes never give a preview. */
  lemma DetectFewTubes(g: Geometry, tubes: seq<Tube>)
    requires |tubes| <= 1
    ensures Detect(g, tubes) == []
  {
    DetectAtMost(g, tubes);
  }

  /** Three tubes are examined as the pairs (0,1), (0,2), (1,2), in that order. */
  lemma ThreePairs()
    ensures AllPairs(3) == [(0, 1), (0, 2), (1, 2)]
  {
    assert PairsBefore(1, 3) == [(0, 1), (0, 2)];
    assert PairsBefore(2, 3) == [(0, 1), (0, 2), (1, 2)];
  }

  // ---------------------------------------------------------------------
  // The detector as `jointDetection.ts` runs it

  /** `detectPotentialJoints`: two nested loops over `i < j`, pushing each non-null preview. */
  method DetectPotentialJoints(g: Geometry, tubes: seq<Tube>) returns (previews: seq<JointPreview>)
    ensures previews == Detect(g, tubes)
  {
    ghost var test := ProximityTest(g);
    var n := |tubes|;
    previews := [];
    for i := 0 to n
      invariant previews == Scan(test, tubes, PairsBefore(i, n))
    {
      InnerStart(test, tubes, PairsBefore(i, n), i);
      for j := i + 1 to n
        invariant previews == Scan(test, tubes, PairsBefore(i, n) + RowPairs(i, i + 1, j))
      {
        InnerStep(test, tubes, PairsBefore(i, n), i, j);
        VisitProximity(g, tubes, i, j);
        var preview := CheckTubeProximity(g, tubes[i], tubes[j]);
        if preview.Some? {
          previews := previews + [preview.value];
        }
      }
      PairsBeforeUnfold(i + 1, n);
    }
  }
}
