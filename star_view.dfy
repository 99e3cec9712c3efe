/**
 * The `Star` and `View` objects of starview_plotter/generate_starview.py:
 * a star caches its Cartesian coordinate on first access, a view caches its
 * normal and its pair of bases, and `save` gathers the plotted coordinates,
 * marker sizes and labels star by star.
 */
module StarView {
  import opened Wrappers
  import opened StarMath

  /** One entry of the input document's `stars` array. */
  datatype StarRecord = StarRecord(name: string, azimuth: string, altitude: string, magnitude: real)

  /** What `save` hands to the plotting library. */
  datatype PlotData = PlotData(xs: seq<real>, ys: seq<real>, sizes: seq<real>, names: seq<string>)

  /** `Star.__init__`'s two `parse_angle` calls, azimuth first, as (azimuth, altitude). */
  function ParseStarAngles(rec: StarRecord): Result<(real, real), MathError>
  {
    match ParseAngle(rec.azimuth)
    case Err(e) => Err(e)
    case Ok(az) =>
      match ParseAngle(rec.altitude)
      case Err(e) => Err(e)
      case Ok(alt) => Ok((az, alt))
  }

  /** `inplane_coordinate` of a star at `c`: its in-plane vector read in the given bases. */
  function ProjectStar(c: Vec3, n: Vec3, bases: seq<Vec3>, mode: string): Result<seq<real>, MathError>
  {
    match InplaneVector(c, n, mode)
    case Err(e) => Err(e)
    case Ok(iv) => Ok(StarMath.PlaneCoordinates(bases, iv))
  }

  /**
   * `x, y = ...`: unpacking a list into two names fails unless it has exactly
   * two elements. The ensures only unfold the body for the proofs; what the
   * unpacking means in `save` is stated by `PlotPointOfBases`.
   */
  function Unpack(p: seq<real>): (r: Result<(real, real), MathError>)
    ensures r.Ok? <==> |p| == 2
    ensures r.Ok? ==> r.value == (p[0], p[1])
    ensures r.Err? ==> r.error == ValueError
  {
    if |p| == 2 then Ok((p[0], p[1])) else Err(ValueError)
  }

  /** One step of the `save` loop: `x, y = star.inplane_coordinate(normal, bases, mode)`. */
  function PlotPoint(c: Vec3, n: Vec3, bases: seq<Vec3>, mode: string): Result<(real, real), MathError>
  {
    match ProjectStar(c, n, bases, mode)
    case Err(e) => Err(e)
    case Ok(p) => Unpack(p)
  }

  /**
   * Once `bases` has succeeded it holds two vectors, so the unpacking
   * `x, y = ...` of `save` never raises: a point fails only when its
   * in-plane vector does, and is otherwise its two plane coordinates.
   */
  lemma PlotPointOfBases(c: Vec3, n: Vec3, first: Vec3, mode: string, m: Maths)
    requires BasesOf(first, n, mode, m).Ok?
    ensures var bs := BasesOf(first, n, mode, m).value;
      PlotPoint(c, n, bs, mode) == (match InplaneVector(c, n, mode)
        case Err(e) => Err(e)
        case Ok(iv) => Ok((Dot(bs[0], iv), Dot(bs[1], iv))))
  {
  }

  /** `PlotPoint` for fixed `normal`, `bases` and mode, as the function the `save` loop applies to each star. */
  function PointAt(n: Vec3, bases: seq<Vec3>, mode: string): Vec3 -> Result<(real, real), MathError>
  {
    c => PlotPoint(c, n, bases, mode)
  }

  /** The points of the `save` loop, in star order; the first failing star aborts it. */
  function ProjectAll(cs: seq<Vec3>, n: Vec3, bases: seq<Vec3>, mode: string): Result<seq<(real, real)>, MathError>
  {
    Collect(cs, PointAt(n, bases, mode))
  }

  /**
   * With two bases, the loop succeeds exactly when every star projects, and
   * then holds each star's two plane coordinates at its own index; otherwise
   * it stops at the first star that fails, with that star's error.
   */
  lemma ProjectAllMeaning(cs: seq<Vec3>, n: Vec3, bases: seq<Vec3>, mode: string)
    requires |bases| == 2
    ensures var r := ProjectAll(cs, n, bases, mode);
      && (r.Ok? <==> forall i :: 0 <= i < |cs| ==> InplaneVector(cs[i], n, mode).Ok?)
      && (r.Ok? ==> |r.value| == |cs|)
      && (r.Ok? ==> forall i :: 0 <= i < |cs| ==>
            var iv := InplaneVector(cs[i], n, mode).value;
            r.value[i] == (Dot(bases[0], iv), Dot(bases[1], iv)))
      && (r.Err? ==> exists i :: (0 <= i < |cs|
            && (forall j :: 0 <= j < i ==> InplaneVector(cs[j], n, mode).Ok?)
            && InplaneVector(cs[i], n, mode) == Err(r.error)))
  {
    var f := PointAt(n, bases, mode);
    assert forall c :: f(c) == PlotPoint(c, n, bases, mode);
    CollectOk(cs, f);
    if Collect(cs, f).Err? {
      CollectErr(cs, f);
    }
  }

  lemma Whole<T>(s: seq<T>)
    ensures s[..|s|] == s
  {
  }

  /** The first coordinates of the points, in order. */
  function Xs(ps: seq<(real, real)>): seq<real>
  {
    if |ps| == 0 then [] else Xs(ps[..|ps| - 1]) + [ps[|ps| - 1].0]
  }

  /** The second coordinates of the points, in order. */
  function Ys(ps: seq<(real, real)>): seq<real>
  {
    if |ps| == 0 then [] else Ys(ps[..|ps| - 1]) + [ps[|ps| - 1].1]
  }

  /** The marker sizes of the stars, in order. */
  function Sizes(ss: seq<Star>): seq<real>
  {
    if |ss| == 0 then [] else Sizes(ss[..|ss| - 1]) + [MarkerSize(ss[|ss| - 1].magnitude)]
  }

  /** The labels of the stars, in order. */
  function Names(ss: seq<Star>): seq<string>
  {
    if |ss| == 0 then [] else Names(ss[..|ss| - 1]) + [ss[|ss| - 1].name]
  }

  lemma {:induction false} LabelsAt(ss: seq<Star>)
    ensures |Sizes(ss)| == |ss| && |Names(ss)| == |ss|
    ensures forall i :: 0 <= i < |ss| ==> Sizes(ss)[i] == MarkerSize(ss[i].magnitude) && Names(ss)[i] == ss[i].name
    decreases |ss|
  {
    if |ss| > 0 {
      LabelsAt(ss[..|ss| - 1]);
    }
  }

  lemma ColumnsStep(ps: seq<(real, real)>, p: (real, real))
    ensures Xs(ps + [p]) == Xs(ps) + [p.0] && Ys(ps + [p]) == Ys(ps) + [p.1]
  {
    assert (ps + [p])[..|ps|] == ps;
  }

  lemma LabelsStep(ss: seq<Star>, i: nat)
    requires i < |ss|
    ensures Sizes(ss[..i + 1]) == Sizes(ss[..i]) + [MarkerSize(ss[i].magnitude)]
    ensures Names(ss[..i + 1]) == Names(ss[..i]) + [ss[i].name]
  {
    assert ss[..i + 1][..i] == ss[..i];
  }

  lemma {:induction false} ColumnsAt(ps: seq<(real, real)>)
    ensures |Xs(ps)| == |ps| && |Ys(ps)| == |ps|
    ensures forall i :: 0 <= i < |ps| ==> Xs(ps)[i] == ps[i].0 && Ys(ps)[i] == ps[i].1
    decreases |ps|
  {
    if |ps| > 0 {
      ColumnsAt(ps[..|ps| - 1]);
    }
  }

  class Star {
    const name: string
    const azimuth: real
    const altitude: real
    const magnitude: real
    const maths: Maths
    /** `_cart_coord`, set on the first access to `coordinate`. */
    var cartCoord: Option<Vec3>

    /** The coordinate the cache holds once it is filled. */
    function Cartesian(): Vec3
    {
      SphereCoord(altitude, azimuth, maths)
    }

    ghost predicate Valid()
      reads this
    {
      cartCoord.Some? ==> cartCoord.value == Cartesian()
    }

    constructor (name: string, azimuth: real, altitude: real, magnitude: real, maths: Maths)
      ensures this.name == name && this.azimuth == azimuth && this.altitude == altitude
      ensures this.magnitude == magnitude && this.maths == maths
      ensures cartCoord == None && Valid()
    {
      this.name := name;
      this.azimuth := azimuth;
      this.altitude := altitude;
      this.magnitude := magnitude;
      this.maths := maths;
      cartCoord := None;
    }

    /** `Star.coordinate`: computed on the first access, then returned from the cache. */
    method Coordinate() returns (c: Vec3)
      requires Valid()
      modifies this
      ensures Valid() && c == Cartesian() && cartCoord == Some(c)
      ensures old(cartCoord).Some? ==> c == old(cartCoord).value
    {
      if cartCoord.Some? {
        return cartCoord.value;
      }
      c := Vec3(SPHERE_RADIUS * maths.cos(altitude) * maths.cos(azimuth),
                SPHERE_RADIUS * maths.cos(altitude) * maths.sin(azimuth),
                SPHERE_RADIUS * maths.sin(altitude));
      cartCoord := Some(c);
    }

    /** `Star.inplane_vector(normal, mode)`. */
    method InplaneVector(normal: Vec3, mode: string) returns (r: Result<Vec3, MathError>)
      requires Valid()
      modifies this
      ensures Valid() && cartCoord == Some(Cartesian())
      ensures r == StarMath.InplaneVector(Cartesian(), normal, mode)
    {
      var c := Coordinate();
      if Dispatch(mode) == Stereo {
        r := InplaneStereo(c, normal);
      } else {
        r := Ok(InplaneOrtho(c, normal));
      }
    }

    /** `Star.inplane_coordinate(normal, bases, mode)`. */
    method InplaneCoordinate(normal: Vec3, bases: seq<Vec3>, mode: string) returns (r: Result<seq<real>, MathError>)
      requires Valid()
      modifies this
      ensures Valid() && cartCoord == Some(Cartesian())
      ensures r == ProjectStar(Cartesian(), normal, bases, mode)
    {
      var iv := InplaneVector(normal, mode);
      if iv.Err? {
        return Err(iv.error);
      }
      r := Ok(StarMath.PlaneCoordinates(bases, iv.value));
    }
  }

  class View {
    const mode: string
    /** `_stars`; a view built from no stars has none, and every later access fails. */
    const stars: seq<Star>
    const maths: Maths
    ghost const Repr: set<object>
    /** `_normal`, set on the first successful access to `normal`. */
    var normalCache: Option<Vec3>
    /** `_bases`, set on the first successful access to `bases`. */
    var basesCache: Option<seq<Vec3>>

    /** The stars' coordinates, in star order. The ensures only unfold the body for the proofs. */
    function Coords(): (cs: seq<Vec3>)
      ensures |cs| == |stars|
      ensures forall i :: 0 <= i < |stars| ==> cs[i] == stars[i].Cartesian()
    {
      seq(|stars|, i requires 0 <= i < |stars| => stars[i].Cartesian())
    }

    /** What `normal` evaluates to. */
    function NormalSpec(): Result<Vec3, MathError>
    {
      if |stars| == 0 then Err(AttributeError) else NormalOf(Coords(), maths)
    }

    /** What `bases` evaluates to. */
    function BasesSpec(): Result<seq<Vec3>, MathError>
    {
      match NormalSpec()
      case Err(e) => Err(e)
      case Ok(n) => BasesOf(stars[0].Cartesian(), n, mode, maths)
    }

    /** What the data-gathering loop of `save` produces. */
    function SaveSpec(): Result<PlotData, MathError>
    {
      if |stars| == 0 then Err(AttributeError)
      else
        match NormalSpec()
        case Err(e) => Err(e)
        case Ok(n) =>
          match BasesSpec()
          case Err(e) => Err(e)
          case Ok(bs) =>
            match ProjectAll(Coords(), n, bs, mode)
            case Err(e) => Err(e)
            case Ok(ps) => Ok(Gathered(ps))
    }

    /** The four lists `save` appends to, given every star's point. */
    function Gathered(ps: seq<(real, real)>): PlotData
    {
      PlotData(Xs(ps), Ys(ps), Sizes(stars), Names(stars))
    }

    ghost predicate Valid()
      reads this, Repr
    {
      && this in Repr
      && (forall i :: 0 <= i < |stars| ==> stars[i] in Repr && stars[i].Valid())
      && (normalCache.Some? ==> NormalSpec() == Ok(normalCache.value))
      && (basesCache.Some? ==> BasesSpec() == Ok(basesCache.value) && normalCache.Some?)
    }

    constructor (stars: seq<Star>, mode: string, maths: Maths)
      requires forall i :: 0 <= i < |stars| ==> stars[i].Valid()
      ensures this.stars == stars && this.mode == mode && this.maths == maths
      ensures normalCache == None && basesCache == None
      ensures Repr == {this} + set i | 0 <= i < |stars| :: stars[i]
      ensures Valid()
    {
      this.stars := stars;
      this.mode := mode;
      this.maths := maths;
      Repr := {this} + set i | 0 <= i < |stars| :: stars[i];
      normalCache := None;
      basesCache := None;
    }

    /** `View.normal`: the normalized mean of the star coordinates, cached once it succeeds. */
    method Normal() returns (r: Result<Vec3, MathError>)
      requires Valid()
      modifies Repr
      ensures Valid() && r == NormalSpec()
      ensures r.Ok? ==> normalCache == Some(r.value)
      ensures old(normalCache).Some? ==> normalCache == old(normalCache)
      ensures basesCache == old(basesCache)
    {
      if normalCache.Some? {
        return Ok(normalCache.value);
      }
      if |stars| == 0 {
        return Err(AttributeError);
      }
      var sum := Zero;
      var i := 0;
      while i < |stars|
        invariant 0 <= i <= |stars|
        invariant sum == SumVec(Coords()[..i])
        invariant Valid()
        invariant normalCache == old(normalCache) && basesCache == old(basesCache)
      {
        var c := stars[i].Coordinate();
        assert Coords()[..i + 1] == Coords()[..i] + [c];
        sum := Add(sum, c);
        i := i + 1;
      }
      assert Coords()[..i] == Coords();
      var n := |stars| as real;
      r := Normalize(Vec3(sum.x / n, sum.y / n, sum.z / n), maths);
      if r.Ok? {
        normalCache := Some(r.value);
      }
    }

    /** `View.bases`: `[b1, cross(normal, b1)]`, cached once it succeeds. */
    method Bases() returns (r: Result<seq<Vec3>, MathError>)
      requires Valid()
      modifies Repr
      ensures Valid() && r == BasesSpec()
      ensures r.Ok? ==> basesCache == Some(r.value) && normalCache.Some?
      ensures old(basesCache).Some? ==> basesCache == old(basesCache)
      ensures old(normalCache).Some? ==> normalCache == old(normalCache)
    {
      if basesCache.Some? {
        return Ok(basesCache.value);
      }
      var n := Normal();
      if n.Err? {
        return Err(n.error);
      }
      var iv := stars[0].InplaneVector(n.value, mode);
      if iv.Err? {
        return Err(iv.error);
      }
      var b1 := Normalize(iv.value, maths);
      if b1.Err? {
        return Err(b1.error);
      }
      var n2 := Normal();
      r := Ok([b1.value, Cross(n2.value, b1.value)]);
      basesCache := Some(r.value);
    }

    /** What `x, y = star.inplane_coordinate(self.normal, self.bases, self._mode)` yields for star `i`. */
    function PointSpec(i: nat): Result<(real, real), MathError>
      requires i < |stars|
    {
      match NormalSpec()
      case Err(e) => Err(e)
      case Ok(n) =>
        match BasesSpec()
        case Err(e) => Err(e)
        case Ok(bs) => PlotPoint(stars[i].Cartesian(), n, bs, mode)
    }

    /** The first line of the `save` loop body for star `i`: read `normal` and `bases`, project, unpack. */
    method Point(i: nat) returns (r: Result<(real, real), MathError>)
      requires Valid() && i < |stars|
      modifies Repr
      ensures Valid() && r == PointSpec(i)
      ensures r.Ok? ==> normalCache.Some? && basesCache.Some?
      ensures old(normalCache).Some? ==> normalCache == old(normalCache)
      ensures old(basesCache).Some? ==> basesCache == old(basesCache)
    {
      var n := Normal();
      if n.Err? {
        return Err(n.error);
      }
      var bs := Bases();
      if bs.Err? {
        return Err(bs.error);
      }
      var p := stars[i].InplaneCoordinate(n.value, bs.value, mode);
      if p.Err? {
        return Err(p.error);
      }
      if |p.value| != 2 {
        return Err(ValueError);
      }
      r := Ok((p.value[0], p.value[1]));
    }

    /** The loop of `save` collecting `xs`, `ys`, the sizes and the names, in star order. */
    method Save() returns (r: Result<PlotData, MathError>)
      requires Valid()
      modifies Repr
      ensures Valid() && r == SaveSpec()
    {
      if |stars| == 0 {
        return Err(AttributeError);
      }
      var xs, ys, sizes, names := [], [], [], [];
      ghost var ps: seq<(real, real)> := [];
      var i := 0;
      while i < |stars|
        invariant 0 <= i <= |stars| && |ps| == i
        invariant Valid()
        invariant i > 0 ==> normalCache.Some? && basesCache.Some?
        invariant i > 0 ==> ProjectAll(Coords()[..i], normalCache.value, basesCache.value, mode) == Ok(ps)
        invariant xs == Xs(ps) && ys == Ys(ps)
        invariant sizes == Sizes(stars[..i]) && names == Names(stars[..i])
      {
        var p := Point(i);
        if p.Err? {
          SaveStops(i, ps);
          return Err(p.error);
        }
        CollectStep(Coords(), PointAt(normalCache.value, basesCache.value, mode), i);
        ColumnsStep(ps, p.value);
        LabelsStep(stars, i);
        xs := xs + [p.value.0];
        ys := ys + [p.value.1];
        sizes := sizes + [MarkerSize(stars[i].magnitude)];
        names := names + [stars[i].name];
        ps := ps + [p.value];
        i := i + 1;
      }
      Whole(Coords());
      Whole(stars);
      r := Ok(PlotData(xs, ys, sizes, names));
    }

    /** A star whose point fails after the stars before it succeeded ends `save` with its error. */
    lemma SaveStops(i: nat, ps: seq<(real, real)>)
      requires i < |stars| && PointSpec(i).Err?
      requires NormalSpec().Ok? && BasesSpec().Ok? ==>
        i == 0 || ProjectAll(Coords()[..i], NormalSpec().value, BasesSpec().value, mode) == Ok(ps)
      ensures SaveSpec() == Err(PointSpec(i).error)
    {
      if NormalSpec().Ok? && BasesSpec().Ok? {
        var n, bs := NormalSpec().value, BasesSpec().value;
        CollectStep(Coords(), PointAt(n, bs, mode), i);
        CollectPrefixErr(Coords(), PointAt(n, bs, mode), i + 1);
      }
    }
  }

  /** `Star.__init__`'s parse of every record, in order; the first record that does not parse aborts. */
  function ParseAll(records: seq<StarRecord>): Result<seq<(real, real)>, MathError>
  {
    Collect(records, ParseStarAngles)
  }

  /** `Star(**record)`'s fields: the record's name and magnitude, and the given parsed angles. */
  ghost predicate Built(s: Star, rec: StarRecord, angles: (real, real), maths: Maths)
  {
    && s.name == rec.name && s.magnitude == rec.magnitude
    && s.azimuth == angles.0 && s.altitude == angles.1 && s.maths == maths
  }

  /**
   * `View.__init__(stars, mode)`: one `Star` per record, in order; a record
   * whose azimuth or altitude does not parse aborts the construction.
   */
  method NewView(records: seq<StarRecord>, mode: string, maths: Maths) returns (r: Result<View, MathError>)
    ensures r.Ok? <==> ParseAll(records).Ok?
    ensures r.Err? ==> r.error == ParseAll(records).error
    ensures r.Ok? ==> var v := r.value;
      && fresh(v.Repr) && v.Valid() && v.mode == mode && v.maths == maths
      && v.normalCache == None && v.basesCache == None
      && |v.stars| == |records| == |ParseAll(records).value|
      && forall i :: 0 <= i < |records| ==>
           Built(v.stars[i], records[i], ParseAll(records).value[i], maths) && v.stars[i].cartCoord == None
  {
    var stars := BuildStars(records, maths);
    if stars.Err? {
      return Err(stars.error);
    }
    var v := new View(stars.value, mode, maths);
    r := Ok(v);
  }

  /** The loop of `View.__init__`: `Star(**star)` for each record, in order, until one fails. */
  method BuildStars(records: seq<StarRecord>, maths: Maths) returns (r: Result<seq<Star>, MathError>)
    ensures r.Ok? <==> ParseAll(records).Ok?
    ensures r.Err? ==> r.error == ParseAll(records).error
    ensures r.Ok? ==> |r.value| == |records| == |ParseAll(records).value|
    ensures r.Ok? ==> forall i :: 0 <= i < |records| ==>
      && fresh(r.value[i]) && r.value[i].cartCoord == None
      && Built(r.value[i], records[i], ParseAll(records).value[i], maths)
  {
    var stars: seq<Star> := [];
    ghost var angles: seq<(real, real)> := [];
    var i := 0;
    while i < |records|
      invariant 0 <= i <= |records| && |stars| == i && |angles| == i
      invariant ParseAll(records[..i]) == Ok(angles)
      invariant forall j :: 0 <= j < i ==> fresh(stars[j])
      invariant forall j :: 0 <= j < i ==>
        Built(stars[j], records[j], angles[j], maths) && stars[j].cartCoord == None
    {
      var a := ParseStarAngles(records[i]);
      CollectStep(records, ParseStarAngles, i);
      if a.Err? {
        CollectPrefixErr(records, ParseStarAngles, i + 1);
        return Err(a.error);
      }
      var s := new Star(records[i].name, a.value.0, a.value.1, records[i].magnitude, maths);
      stars := stars + [s];
      angles := angles + [a.value];
      i := i + 1;
    }
    Whole(records);
    r := Ok(stars);
  }

  /** Every successful `save` lists one entry per star, in star order, with the documented values. */
  lemma SaveContents(v: View)
    requires v.SaveSpec().Ok?
    ensures var d := v.SaveSpec().value;
      && v.NormalSpec().Ok? && v.BasesSpec().Ok?
      && |d.xs| == |v.stars| && |d.ys| == |v.stars| && |d.sizes| == |v.stars| && |d.names| == |v.stars|
      && forall i :: 0 <= i < |v.stars| ==>
           && InplaneVector(v.stars[i].Cartesian(), v.NormalSpec().value, v.mode).Ok?
           && var iv := InplaneVector(v.stars[i].Cartesian(), v.NormalSpec().value, v.mode).value;
           && d.xs[i] == Dot(v.BasesSpec().value[0], iv)
           && d.ys[i] == Dot(v.BasesSpec().value[1], iv)
           && d.sizes[i] == BRIGHT_SCALE * (MAX_BRIGHT - v.stars[i].magnitude)
           && d.names[i] == v.stars[i].name
  {
    var n := v.NormalSpec().value;
    BasesOrthogonal(v.stars[0].Cartesian(), n, v.mode, v.maths);
    ProjectAllMeaning(v.Coords(), n, v.BasesSpec().value, v.mode);
    ColumnsAt(ProjectAll(v.Coords(), n, v.BasesSpec().value, v.mode).value);
    LabelsAt(v.stars);
  }
}
