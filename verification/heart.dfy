/**
 * The `Heart` class of both scripts, parameterised by a Variant: it builds
 * three deduplicated point sets once, caches one particle list per frame
 * index, and answers the renderer's frame lookups modulo the frame count.
 */
module HeartModel {
  import opened Wrappers
  import opened PyNum
  import opened Randomness
  import opened Particles

  /** Storing frame f over the frames `range(f)` gives the frames `range(f + 1)`. */
  lemma KeysStep(before: map<int, seq<Particle>>, after: map<int, seq<Particle>>, f: int)
    requires 0 <= f && forall g :: g in before <==> 0 <= g < f
    requires f in after && after == before[f := after[f]]
    ensures forall g :: g in after <==> 0 <= g < f + 1
  {
    forall g
      ensures g in after <==> 0 <= g < f + 1
    {
      assert g in after <==> g in before || g == f;
    }
  }

  predicate IsSpark(s: Spark) {
    0 <= s.x <= CanvasWidth && 0 <= s.y <= CanvasHeight && 1 <= s.size <= 2
  }

  /**
   * The background particles of the second script: `count` sparks, each at a
   * random canvas position with size 1 or 2.
   */
  method DrawSparks(count: nat, g0: Rng) returns (drawn: seq<Spark>, g: Rng)
    ensures |drawn| == count
    ensures forall i :: 0 <= i < |drawn| ==> IsSpark(drawn[i])
  {
    drawn, g := [], g0;
    var k := 0;
    while k < count
      invariant 0 <= k <= count
      invariant |drawn| == k && forall i :: 0 <= i < k ==> IsSpark(drawn[i])
    {
      var x := g.RandInt(0, CanvasWidth);
      var y := x.1.RandInt(0, CanvasHeight);
      var size := y.1.RandInt(1, 2);
      g := size.1;
      drawn := drawn + [Spark(x.0, y.0, size.0)];
      k := k + 1;
    }
  }

  class Heart {
    const variant: Variant
    const geo: Geometry
    /** `_points`, `_edge_diffusion_points`, `_center_diffusion_points`. */
    var points: set<Point>
    var edgeDiffusion: set<Point>
    var centerDiffusion: set<Point>
    /** `_bg_particles` (second script only). */
    var sparks: seq<Spark>
    /** `all_points`: frame index to cached particle list. */
    var allPoints: map<int, seq<Particle>>
    var generateFrame: int
    /** The random source, advanced by every draw. */
    var rng: Rng

    /** Every cached frame is what `calc` builds from the current static sets. */
    ghost predicate Valid()
      reads this`allPoints, this`points, this`edgeDiffusion, this`centerDiffusion
    {
      && ValidVariant(variant)
      && forall f :: f in allPoints ==>
           IsFrame(variant, geo, f, points, edgeDiffusion, centerDiffusion, allPoints[f])
    }

    /** `all_points` holds exactly the frames `range(generate_frame)`. */
    ghost predicate Cached()
      reads this`allPoints, this`generateFrame
    {
      forall f :: f in allPoints <==> 0 <= f < generateFrame
    }

    /** The static sets `build` produces, as far as their sizes and origins go. */
    ghost predicate Built()
      reads this`points, this`edgeDiffusion, this`centerDiffusion
    {
      && 0 < |points| <= variant.outlineSamples
      && |edgeDiffusion| <= 3 * |points|
      && |centerDiffusion| <= variant.centerSamples
      && (forall p :: p in points ==> IsOutlinePoint(geo, p))
      && (forall p :: p in edgeDiffusion ==> IsScattered(geo, points, EdgeBeta, p))
      && (forall p :: p in centerDiffusion ==> IsScattered(geo, points, CenterBeta, p))
      && (forall q {:trigger HasScatter(geo, q, EdgeBeta, edgeDiffusion)} :: q in points ==> HasScatter(geo, q, EdgeBeta, edgeDiffusion))
      && edgeDiffusion != {}
      && (0 < variant.centerSamples ==> centerDiffusion != {})
    }

    /**
     * `Heart(generate_frame)`: build the static sets, compute frames
     * 0 .. generate_frame - 1, then draw the background particles.
     */
    constructor (variant: Variant, geo: Geometry, generateFrame: int, source: Rng)
      requires ValidVariant(variant) && 0 < variant.outlineSamples
      ensures this.variant == variant && this.geo == geo && this.generateFrame == generateFrame
      ensures Valid() && Built()
      ensures Cached()
      ensures |sparks| == variant.sparks && forall i :: 0 <= i < |sparks| ==> IsSpark(sparks[i])
    {
      this.variant := variant;
      this.geo := geo;
      points, edgeDiffusion, centerDiffusion := {}, {}, {};
      sparks := [];
      allPoints := map[];
      this.generateFrame := generateFrame;
      rng := source;
      new;
      Build(variant.outlineSamples);
      NoFramesValid();
      CalcFrames();
      var drawn, g := DrawSparks(variant.sparks, rng);
      sparks, rng := drawn, g;
    }

    /** With no frame cached yet, only the variant has to be well formed. */
    lemma NoFramesValid()
      requires ValidVariant(variant) && allPoints == map[]
      ensures Valid()
    {
    }

    /** The `for frame in range(generate_frame)` loop of `__init__`. */
    method CalcFrames()
      requires Valid() && allPoints == map[]
      modifies this`allPoints, this`rng
      ensures Valid() && Cached()
    {
      var frame := 0;
      while frame < generateFrame
        modifies this`allPoints, this`rng
        invariant 0 <= frame && (frame <= generateFrame || frame == 0)
        invariant Valid()
        invariant forall g :: g in allPoints <==> 0 <= g < frame
      {
        ghost var before := allPoints;
        Calc(frame);
        KeysStep(before, allPoints, frame);
        frame := frame + 1;
      }
    }

    /**
     * `build(number)`: `number` curve samples into the outline set, three
     * light scatters of every outline point into the edge set, and
     * `centerSamples` strong scatters of randomly chosen outline points into
     * the centre set. Sets only grow; duplicates are absorbed.
     */
    method Build(number: int)
      requires ValidVariant(variant)
      requires points != {} || 0 < number || variant.centerSamples == 0
      modifies this`points, this`edgeDiffusion, this`centerDiffusion, this`rng
      ensures old(points) <= points && |points| <= |old(points)| + (if number < 0 then 0 else number)
      ensures 0 < number ==> points != {}
      ensures forall p :: p in points - old(points) ==> IsOutlinePoint(geo, p)
      ensures old(edgeDiffusion) <= edgeDiffusion && |edgeDiffusion| <= |old(edgeDiffusion)| + 3 * |points|
      ensures forall p :: p in edgeDiffusion - old(edgeDiffusion) ==> IsScattered(geo, points, EdgeBeta, p)
      ensures forall q {:trigger HasScatter(geo, q, EdgeBeta, edgeDiffusion)} :: q in points ==> HasScatter(geo, q, EdgeBeta, edgeDiffusion)
      ensures points != {} ==> edgeDiffusion != {}
      ensures old(centerDiffusion) <= centerDiffusion
      ensures |centerDiffusion| <= |old(centerDiffusion)| + variant.centerSamples
      ensures forall p :: p in centerDiffusion - old(centerDiffusion) ==> IsScattered(geo, points, CenterBeta, p)
      ensures 0 < variant.centerSamples ==> centerDiffusion != {}
      ensures (old(points) == {} && old(edgeDiffusion) == {} && old(centerDiffusion) == {}
               && 0 < number <= variant.outlineSamples) ==> Built()
    {
      SampleOutline(number);
      DiffuseEdge();
      DiffuseCenter();
    }

    /** The first loop of `build`: `number` curve samples into the outline set. */
    method SampleOutline(number: int)
      modifies this`points, this`rng
      ensures old(points) <= points && |points| <= |old(points)| + (if number < 0 then 0 else number)
      ensures 0 < number ==> points != {}
      ensures forall p :: p in points - old(points) ==> IsOutlinePoint(geo, p)
    {
      var i := 0;
      while i < number
        invariant 0 <= i && (i <= number || i == 0)
        invariant old(points) <= points && |points| <= |old(points)| + i
        invariant 0 < i ==> points != {}
        invariant forall p :: p in points - old(points) ==> IsOutlinePoint(geo, p)
      {
        var t := rng.Uniform(0.0, TwoPi);
        rng := t.1;
        var p := ToPoint(geo.heart(t.0, EnlargeRatio));
        points := points + {p};
        i := i + 1;
      }
    }

    /** The second loop of `build`: three light scatters of every outline point. */
    method DiffuseEdge()
      modifies this`edgeDiffusion, this`rng
      ensures old(edgeDiffusion) <= edgeDiffusion && |edgeDiffusion| <= |old(edgeDiffusion)| + 3 * |points|
      ensures forall p :: p in edgeDiffusion - old(edgeDiffusion) ==> IsScattered(geo, points, EdgeBeta, p)
      ensures forall q {:trigger HasScatter(geo, q, EdgeBeta, edgeDiffusion)} :: q in points ==> HasScatter(geo, q, EdgeBeta, edgeDiffusion)
      ensures points != {} ==> edgeDiffusion != {}
    {
      var outline := Enumerate(points);
      var k := 0;
      while k < |outline|
        invariant 0 <= k <= |outline|
        invariant old(edgeDiffusion) <= edgeDiffusion && |edgeDiffusion| <= |old(edgeDiffusion)| + 3 * k
        invariant forall p :: p in edgeDiffusion - old(edgeDiffusion) ==> IsScattered(geo, points, EdgeBeta, p)
        invariant forall m :: 0 <= m < k ==> HasScatter(geo, outline[m], EdgeBeta, edgeDiffusion)
        invariant 0 < k ==> edgeDiffusion != {}
      {
        var source := outline[k];
        var j := 0;
        while j < 3
          invariant 0 <= j <= 3
          invariant old(edgeDiffusion) <= edgeDiffusion && |edgeDiffusion| <= |old(edgeDiffusion)| + 3 * k + j
          invariant forall p :: p in edgeDiffusion - old(edgeDiffusion) ==> IsScattered(geo, points, EdgeBeta, p)
          invariant forall m :: 0 <= m < k ==> HasScatter(geo, outline[m], EdgeBeta, edgeDiffusion)
          invariant 0 < j ==> HasScatter(geo, source, EdgeBeta, edgeDiffusion)
          invariant 0 < k ==> edgeDiffusion != {}
        {
          var u1 := rng.Random();
          var u2 := u1.1.Random();
          rng := u2.1;
          var p := geo.scatter(source, EdgeBeta, u1.0, u2.0);
          ghost var before := edgeDiffusion;
          edgeDiffusion := edgeDiffusion + {p};
          forall m | 0 <= m < k
            ensures HasScatter(geo, outline[m], EdgeBeta, edgeDiffusion)
          {
            ScatterKept(geo, outline[m], EdgeBeta, before, edgeDiffusion);
          }
          if 0 < j {
            ScatterKept(geo, source, EdgeBeta, before, edgeDiffusion);
          }
          j := j + 1;
        }
        k := k + 1;
      }
    }

    /** The third loop of `build`: strong scatters of randomly chosen outline points. */
    method DiffuseCenter()
      requires points != {} || variant.centerSamples == 0
      modifies this`centerDiffusion, this`rng
      ensures old(centerDiffusion) <= centerDiffusion
      ensures |centerDiffusion| <= |old(centerDiffusion)| + variant.centerSamples
      ensures forall p :: p in centerDiffusion - old(centerDiffusion) ==> IsScattered(geo, points, CenterBeta, p)
      ensures 0 < variant.centerSamples ==> centerDiffusion != {}
    {
      var pointList := Enumerate(points);
      var n := 0;
      while n < variant.centerSamples
        invariant 0 <= n <= variant.centerSamples
        invariant old(centerDiffusion) <= centerDiffusion && |centerDiffusion| <= |old(centerDiffusion)| + n
        invariant forall p :: p in centerDiffusion - old(centerDiffusion) ==> IsScattered(geo, points, CenterBeta, p)
        invariant 0 < n ==> centerDiffusion != {}
      {
        var source := rng.Choice(pointList);
        var u1 := source.1.Random();
        var u2 := u1.1.Random();
        rng := u2.1;
        var p := geo.scatter(source.0, CenterBeta, u1.0, u2.0);
        centerDiffusion := centerDiffusion + {p};
        n := n + 1;
      }
    }

    /**
     * `calc(f)`: halo entries, then one entry per outline, edge and centre
     * point, stored under key f; no other key changes.
     */
    method Calc(f: int)
      requires Valid()
      modifies this`allPoints, this`rng
      ensures Valid()
      ensures f in allPoints && allPoints == old(allPoints)[f := allPoints[f]]
      ensures IsFrame(variant, geo, f, points, edgeDiffusion, centerDiffusion, allPoints[f])
    {
      var c := geo.beat(f);
      var ratio := Ratio(c);
      var halo, bases, draws, g := HaloLayer(variant, geo, HaloRadius(c), HaloNumber(variant, c), rng);
      var outline := Enumerate(points);
      var outlineLayer, g1 := BodyLayer(geo, outline, ratio, 3, Tag(variant, Outline), g);
      var edge := Enumerate(edgeDiffusion);
      var edgeLayer, g2 := BodyLayer(geo, edge, ratio, 2, Tag(variant, EdgeDiffusion), g1);
      var center := Enumerate(centerDiffusion);
      var centerLayer, g3 := BodyLayer(geo, center, ratio, 2, Tag(variant, CenterDiffusion), g2);
      rng := g3;
      var frame := halo + outlineLayer + edgeLayer + centerLayer;
      ghost var w := FrameParts(bases, halo, outline, outlineLayer, edge, edgeLayer, center, centerLayer);
      assert BuiltFrom(variant, geo, f, points, edgeDiffusion, centerDiffusion, frame, w);
      allPoints := allPoints[f := frame];
    }

    /**
     * The frame lookup of `render`: `all_points[render_frame % generate_frame]`.
     * A frame count of zero divides by zero; a key that is missing raises KeyError.
     */
    function Lookup(renderFrame: int): (r: Result<seq<Particle>>)
      reads this
      ensures generateFrame == 0 ==> r == Err(ZeroDivisionError)
      ensures Cached() ==> (r.Ok? <==> 0 < generateFrame)
      ensures Cached() && 0 <= renderFrame < generateFrame ==> r == Ok(allPoints[renderFrame])
      ensures r.Ok? ==> r.value in allPoints.Values
      ensures r.Ok? && Valid() ==>
        IsFrame(variant, geo, Mod(renderFrame, generateFrame), points, edgeDiffusion, centerDiffusion, r.value)
    {
      if generateFrame == 0 then Err(ZeroDivisionError)
      else
        var f := Mod(renderFrame, generateFrame);
        if f in allPoints then Ok(allPoints[f]) else Err(KeyError)
    }

    /** Frames k and k + generate_frame show the same cached list. */
    lemma LookupPeriodic(k: int)
      ensures Lookup(k + generateFrame) == Lookup(k)
    {
      if generateFrame != 0 {
        ModPeriodic(k, generateFrame);
      }
    }
  }
}
