/**
 * The particle data both heart scripts share, the constants in which they
 * differ, and the per-frame layers `Heart.calc` builds. Coordinates are
 * reals. The float geometry (`heart_function`, `scatter_inside`, `shrink`,
 * `calc_position`, `curve`) is opaque: it enters as the function values of
 * a Geometry.
 */
module Particles {
  import opened Wrappers
  import opened PyNum
  import opened Randomness

  const CanvasWidth: int := 980
  const CanvasHeight: int := 640
  /** HEART_ENLARGE_RATIO, the scale of the outline points. */
  const EnlargeRatio: real := 11.0
  /** The float value of `2 * pi`, the upper end of the sampled angle. */
  const TwoPi: real := 6.283185307179586
  /** Tensile strength of the edge and centre diffusion scatter. */
  const EdgeBeta: real := 0.05
  const CenterBeta: real := 0.17

  datatype Point = Point(x: real, y: real)

  /** The four layers of a frame; Code is the kind number of the second script. */
  datatype Layer = Halo | Outline | EdgeDiffusion | CenterDiffusion {
    function Code(): (k: nat)
      ensures k < 4
    {
      match this
      case Halo => 0
      case Outline => 1
      case EdgeDiffusion => 2
      case CenterDiffusion => 3
    }
  }

  /** The four layers have four different kind numbers. */
  lemma CodesDistinct(a: Layer, b: Layer)
    ensures a.Code() == b.Code() <==> a == b
  {
  }

  /** One cached particle: `(x, y, size)`, or `(x, y, size, kind)` when the variant tags its particles. */
  datatype Particle = Particle(x: real, y: real, size: int, kind: Option<Layer>)

  /** A background particle of the second script: `(x, y, size)`. */
  datatype Spark = Spark(x: int, y: int, size: int)

  /** The constants in which the two scripts differ. */
  datatype Variant = Variant(
    outlineSamples: nat,   // argument of build()
    centerSamples: nat,    // centre diffusion draws
    haloScale: real,       // shrink_ratio of the halo curve
    haloBase: int,         // halo_number = int(haloBase + haloSpread * curve^2)
    haloSpread: int,
    haloJitter: nat,       // halo offset randint(-haloJitter, haloJitter)
    haloSizes: seq<int>,   // the tuple random.choice picks a halo size from
    tagged: bool,          // particles carry their layer's kind number
    sparks: nat)           // background particles

  /** Heart_for_girlfriend.py. */
  const First: Variant := Variant(2000, 4000, 11.6, 3000, 4000, 14, [1, 2, 2], false, 0)

  /** Heart_2_for_girlfriend.py. */
  const Second: Variant := Variant(2200, 4500, 11.7, 2800, 4200, 10, [1, 1, 2], true, 120)

  predicate ValidVariant(v: Variant) {
    |v.haloSizes| > 0 && 0 <= v.haloBase && 0 <= v.haloSpread
  }

  /**
   * The opaque float maths, taking the random draws it makes as arguments:
   * heart(t, s) is `heart_function(t, s)`; scatter(p, beta, u1, u2) is
   * `scatter_inside` with its two `random.random()` draws; shrink(p, r) is
   * `shrink`; pull(p, ratio) is `calc_position` without its jitter;
   * beat(f) is `curve(f / 10 * pi)`.
   */
  datatype Geometry = Geometry(
    heart: (real, real) -> (int, int),
    scatter: (Point, real, real, real) -> Point,
    shrink: (Point, int) -> Point,
    pull: (Point, real) -> Point,
    beat: int -> real)

  function ToPoint(xy: (int, int)): Point {
    Point(xy.0 as real, xy.1 as real)
  }

  function Tag(v: Variant, layer: Layer): Option<Layer> {
    if v.tagged then Some(layer) else None
  }

  // ------------------------------------------------- per-frame parameters

  /** `ratio = 10 * curve(...)`, the pulse applied to the three static sets. */
  function Ratio(c: real): real {
    10.0 * c
  }

  /** `halo_radius = int(4 + 6 * (1 + curve(...)))`. */
  function HaloRadius(c: real): int {
    Trunc(4.0 + 6.0 * (1.0 + c))
  }

  /** `halo_number = int(base + spread * abs(curve(...) ** 2))`: never below the base. */
  function HaloNumber(v: Variant, c: real): (n: int)
    ensures ValidVariant(v) ==> v.haloBase <= n
  {
    var sq := c * c;
    var mag := if sq < 0.0 then -sq else sq;
    assert 0 <= v.haloSpread ==> 0.0 <= v.haloSpread as real * mag by {
      if 0 <= v.haloSpread {
        NonNegProduct(v.haloSpread as real, mag);
      }
    }
    Trunc(v.haloBase as real + v.haloSpread as real * mag)
  }

  lemma NonNegProduct(a: real, b: real)
    requires 0.0 <= a && 0.0 <= b
    ensures 0.0 <= a * b
  {
  }

  // ------------------------------------------------------ point provenance

  /** A point `heart_function` yields for an angle in [0, 2 pi]. */
  ghost predicate IsOutlinePoint(geo: Geometry, p: Point) {
    exists t :: 0.0 <= t <= TwoPi && p == ToPoint(geo.heart(t, EnlargeRatio))
  }

  /** A point `scatter_inside(q, beta)` yields for some q in src and two draws in [0, 1). */
  ghost predicate IsScattered(geo: Geometry, src: set<Point>, beta: real, p: Point) {
    exists q, u1, u2 :: q in src && 0.0 <= u1 < 1.0 && 0.0 <= u2 < 1.0 && p == geo.scatter(q, beta, u1, u2)
  }

  /** Some `scatter_inside(q, beta)` with two draws in [0, 1) landed in s. */
  ghost predicate HasScatter(geo: Geometry, q: Point, beta: real, s: set<Point>) {
    exists u1, u2 :: 0.0 <= u1 < 1.0 && 0.0 <= u2 < 1.0 && geo.scatter(q, beta, u1, u2) in s
  }

  /** A scatter that landed in a set is still there once the set has grown. */
  lemma ScatterKept(geo: Geometry, q: Point, beta: real, s: set<Point>, s': set<Point>)
    requires HasScatter(geo, q, beta, s) && s <= s'
    ensures HasScatter(geo, q, beta, s')
  {
    var u1, u2 :| 0.0 <= u1 < 1.0 && 0.0 <= u2 < 1.0 && geo.scatter(q, beta, u1, u2) in s;
    assert geo.scatter(q, beta, u1, u2) in s';
  }

  /** A pre-jitter halo point: `shrink(heart_function(t, haloScale), radius)`. */
  ghost predicate IsHaloBase(v: Variant, geo: Geometry, radius: int, p: Point) {
    exists t :: 0.0 <= t <= TwoPi && p == geo.shrink(ToPoint(geo.heart(t, v.haloScale)), radius)
  }

  ghost predicate Distinct(xs: seq<Point>) {
    forall i, j :: 0 <= i < j < |xs| ==> xs[i] != xs[j]
  }

  /** xs lists every element of s once: one iteration over the set. */
  ghost predicate Enumerates(xs: seq<Point>, s: set<Point>) {
    |xs| == |s| && Distinct(xs) && forall p :: p in s <==> p in xs
  }

  /** e lies within `bound` of p on each axis. */
  predicate Near(p: Point, e: Particle, bound: real) {
    p.x - bound <= e.x <= p.x + bound && p.y - bound <= e.y <= p.y + bound
  }

  // ------------------------------------------------------------ layers

  /**
   * The halo part of a frame: at most `number` entries, each the jittered
   * copy of a distinct pre-jitter point, with a size from the variant's tuple.
   */
  ghost predicate HaloLayerOk(v: Variant, geo: Geometry, radius: int, number: int,
                              bases: seq<Point>, halo: seq<Particle>)
  {
    && |halo| == |bases|
    && |bases| <= (if number < 0 then 0 else number)
    && Distinct(bases)
    && (forall k :: 0 <= k < |bases| ==> IsHaloBase(v, geo, radius, bases[k]))
    && (forall k :: 0 <= k < |halo| ==>
          Near(bases[k], halo[k], v.haloJitter as real)
          && halo[k].size in v.haloSizes && halo[k].kind == Tag(v, Halo))
  }

  /**
   * One static set's part of a frame: one entry per listed point, in order,
   * within one unit of `calc_position`'s pull on it, with a size in 1..maxSize.
   */
  ghost predicate BodyLayerOk(geo: Geometry, ratio: real, maxSize: int, kind: Option<Layer>,
                              src: seq<Point>, layer: seq<Particle>)
  {
    && |layer| == |src|
    && forall k :: 0 <= k < |src| ==>
         Near(geo.pull(src[k], ratio), layer[k], 1.0)
         && 1 <= layer[k].size <= maxSize && layer[k].kind == kind
  }

  /** The pieces one call of `calc` puts together. */
  datatype FrameParts = FrameParts(
    bases: seq<Point>, halo: seq<Particle>,
    outline: seq<Point>, outlineLayer: seq<Particle>,
    edge: seq<Point>, edgeLayer: seq<Particle>,
    center: seq<Point>, centerLayer: seq<Particle>)

  /** frame is what `calc(f)` builds from the three static sets, out of the pieces w. */
  ghost predicate BuiltFrom(v: Variant, geo: Geometry, f: int, points: set<Point>, edge: set<Point>,
                            center: set<Point>, frame: seq<Particle>, w: FrameParts)
  {
    var c := geo.beat(f);
    && frame == w.halo + w.outlineLayer + w.edgeLayer + w.centerLayer
    && HaloLayerOk(v, geo, HaloRadius(c), HaloNumber(v, c), w.bases, w.halo)
    && Enumerates(w.outline, points)
    && BodyLayerOk(geo, Ratio(c), 3, Tag(v, Outline), w.outline, w.outlineLayer)
    && Enumerates(w.edge, edge)
    && BodyLayerOk(geo, Ratio(c), 2, Tag(v, EdgeDiffusion), w.edge, w.edgeLayer)
    && Enumerates(w.center, center)
    && BodyLayerOk(geo, Ratio(c), 2, Tag(v, CenterDiffusion), w.center, w.centerLayer)
  }

  ghost predicate IsFrame(v: Variant, geo: Geometry, f: int, points: set<Point>, edge: set<Point>,
                          center: set<Point>, frame: seq<Particle>)
  {
    exists w :: BuiltFrom(v, geo, f, points, edge, center, frame, w)
  }

  /**
   * The layout a cached frame has, read off the list alone: h halo entries,
   * then one entry per outline, edge and centre point, each section with its
   * kind and its size range.
   */
  ghost predicate Sections(v: Variant, haloNumber: int, nPoints: nat, nEdge: nat, nCenter: nat,
                           frame: seq<Particle>, h: nat)
  {
    && h <= haloNumber
    && |frame| == h + nPoints + nEdge + nCenter
    && (forall k :: 0 <= k < h ==> frame[k].kind == Tag(v, Halo) && frame[k].size in v.haloSizes)
    && (forall k :: h <= k < h + nPoints ==>
          frame[k].kind == Tag(v, Outline) && 1 <= frame[k].size <= 3)
    && (forall k :: h + nPoints <= k < h + nPoints + nEdge ==>
          frame[k].kind == Tag(v, EdgeDiffusion) && 1 <= frame[k].size <= 2)
    && (forall k :: h + nPoints + nEdge <= k < |frame| ==>
          frame[k].kind == Tag(v, CenterDiffusion) && 1 <= frame[k].size <= 2)
  }

  /**
   * Every cached frame is the kept halo entries (at most halo_number of them)
   * followed by exactly one entry per point of each static set, in order.
   */
  lemma {:induction false} FrameLayout(v: Variant, geo: Geometry, f: int, points: set<Point>,
                                       edge: set<Point>, center: set<Point>, frame: seq<Particle>)
    requires ValidVariant(v)
    requires IsFrame(v, geo, f, points, edge, center, frame)
    ensures exists h: nat :: Sections(v, HaloNumber(v, geo.beat(f)), |points|, |edge|, |center|, frame, h)
  {
    var w :| BuiltFrom(v, geo, f, points, edge, center, frame, w);
    var h, n1, n2 := |w.halo|, |points|, |edge|;
    var a := w.halo + w.outlineLayer;
    var b := a + w.edgeLayer;
    assert frame == b + w.centerLayer;
    assert |a| == h + n1 && |b| == h + n1 + n2;
    forall k | 0 <= k < h
      ensures frame[k].kind == Tag(v, Halo) && frame[k].size in v.haloSizes
    {
      assert frame[k] == b[k] == a[k] == w.halo[k];
    }
    forall k | h <= k < h + n1
      ensures frame[k].kind == Tag(v, Outline) && 1 <= frame[k].size <= 3
    {
      assert frame[k] == b[k] == a[k] == w.outlineLayer[k - h];
    }
    forall k | h + n1 <= k < h + n1 + n2
      ensures frame[k].kind == Tag(v, EdgeDiffusion) && 1 <= frame[k].size <= 2
    {
      assert frame[k] == b[k] == w.edgeLayer[k - h - n1];
    }
    forall k | h + n1 + n2 <= k < |frame|
      ensures frame[k].kind == Tag(v, CenterDiffusion) && 1 <= frame[k].size <= 2
    {
      assert frame[k] == w.centerLayer[k - h - n1 - n2];
    }
    assert Sections(v, HaloNumber(v, geo.beat(f)), |points|, |edge|, |center|, frame, h);
  }

  /** Both scripts' halo sizes are 1 or 2, and both variants are well formed. */
  lemma ScriptVariants()
    ensures ValidVariant(First) && ValidVariant(Second)
    ensures forall s :: s in First.haloSizes || s in Second.haloSizes ==> s == 1 || s == 2
  {
  }

  // ------------------------------------------------------------ loops

  /** `for p in s` / `list(s)`: one pass over a set, each element once. */
  method Enumerate(s: set<Point>) returns (xs: seq<Point>)
    ensures Enumerates(xs, s)
  {
    xs := [];
    var rest := s;
    while rest != {}
      invariant forall p :: p in s <==> p in rest || p in xs
      invariant forall p :: p in rest ==> p !in xs
      invariant |xs| + |rest| == |s|
      invariant Distinct(xs)
      decreases |rest|
    {
      var p :| p in rest;
      xs := xs + [p];
      rest := rest - {p};
    }
  }

  /**
   * The halo loop of `calc`: `number` angle draws; a shrunk curve point not
   * seen before in this frame is kept, offset by a random jitter on each axis
   * and given a size drawn from the variant's tuple.
   */
  method HaloLayer(v: Variant, geo: Geometry, radius: int, number: int, g0: Rng)
    returns (halo: seq<Particle>, ghost bases: seq<Point>, ghost draws: seq<Point>, g: Rng)
    requires ValidVariant(v)
    ensures |draws| == (if number < 0 then 0 else number)
    ensures forall k :: 0 <= k < |draws| ==> IsHaloBase(v, geo, radius, draws[k])
    ensures forall p :: p in draws <==> p in bases
    ensures |halo| <= (if number < 0 then 0 else number)
    ensures forall k :: 0 <= k < |halo| ==> halo[k].size in v.haloSizes && halo[k].kind == Tag(v, Halo)
    ensures HaloLayerOk(v, geo, radius, number, bases, halo)
  {
    halo, bases, draws, g := [], [], [], g0;
    var seen: set<Point> := {};
    var i := 0;
    while i < number
      invariant 0 <= i && (i <= number || i == 0)
      invariant HaloLayerOk(v, geo, radius, i, bases, halo)
      invariant forall p :: p in seen <==> p in bases
      invariant |draws| == i && forall k :: 0 <= k < i ==> IsHaloBase(v, geo, radius, draws[k])
      invariant forall p :: p in draws <==> p in bases
    {
      var t := g.Uniform(0.0, TwoPi);
      g := t.1;
      var p := geo.shrink(ToPoint(geo.heart(t.0, v.haloScale)), radius);
      if p !in seen {
        seen := seen + {p};
        var jitter: int := v.haloJitter;
        var dx := g.RandInt(-jitter, jitter);
        var dy := dx.1.RandInt(-jitter, jitter);
        var size := dy.1.Choice(v.haloSizes);
        g := size.1;
        halo := halo + [Particle(p.x + dx.0 as real, p.y + dy.0 as real, size.0, Tag(v, Halo))];
        bases := bases + [p];
      }
      draws := draws + [p];
      i := i + 1;
    }
  }

  /**
   * One of the three body loops of `calc`: each listed point moved by
   * `calc_position` (the pull, minus a randint(-1, 1) jitter per axis) and
   * given a size in 1..maxSize.
   */
  method BodyLayer(geo: Geometry, src: seq<Point>, ratio: real, maxSize: int, kind: Option<Layer>, g0: Rng)
    returns (layer: seq<Particle>, g: Rng)
    requires 1 <= maxSize
    ensures BodyLayerOk(geo, ratio, maxSize, kind, src, layer)
  {
    layer, g := [], g0;
    var k := 0;
    while k < |src|
      invariant 0 <= k <= |src|
      invariant BodyLayerOk(geo, ratio, maxSize, kind, src[..k], layer)
    {
      var q := geo.pull(src[k], ratio);
      var jx := g.RandInt(-1, 1);
      var jy := jx.1.RandInt(-1, 1);
      var size := jy.1.RandInt(1, maxSize);
      g := size.1;
      layer := layer + [Particle(q.x - jx.0 as real, q.y - jy.0 as real, size.0, kind)];
      k := k + 1;
    }
    assert src[..k] == src;
  }
}
