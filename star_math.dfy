/**
 * The vector algebra and angle parsing of the star-chart plotter
 * (starview_plotter/generate_starview.py): 3-vectors over the reals,
 * `dot`, `cross`, the `normalize` whose length leaves the first component
 * unsquared, `parse_angle` that reads the minutes field twice, and the
 * orthographic and stereographic in-plane projections.
 */
module StarMath {
  import opened Wrappers
  import opened Text

  const SPHERE_RADIUS: real := 1.0
  const MAX_BRIGHT: real := 5.0
  const BRIGHT_SCALE: real := 50.0

  /** `math.pi`, to the digits Python prints for it. */
  const PI: real := 3.141592653589793

  /**
   * What the script takes from Python's `math` module besides pi: the square
   * root, sine and cosine, which Dafny cannot compute over the reals.
   */
  datatype Maths = Maths(sqrt: real -> real, sin: real -> real, cos: real -> real)

  /** The Python exceptions the computations can raise. */
  datatype MathError =
    | ValueError       // `float` of a non-numeric field, `math.sqrt` of a negative number
    | IndexError       // `l[1]` of an angle without ':'
    | ZeroDivision     // division by a zero length or a zero stereographic denominator
    | AttributeError   // `self._stars` of a view built from no stars

  datatype Vec3 = Vec3(x: real, y: real, z: real)

  function Add(a: Vec3, b: Vec3): Vec3 { Vec3(a.x + b.x, a.y + b.y, a.z + b.z) }
  function Sub(a: Vec3, b: Vec3): Vec3 { Vec3(a.x - b.x, a.y - b.y, a.z - b.z) }
  function Scale(a: Vec3, k: real): Vec3 { Vec3(a.x * k, a.y * k, a.z * k) }
  function Neg(a: Vec3): Vec3 { Vec3(-a.x, -a.y, -a.z) }
  const Zero: Vec3 := Vec3(0.0, 0.0, 0.0)

  /** `dot(vec1, vec2)`. */
  function Dot(a: Vec3, b: Vec3): real
  {
    a.x * b.x + a.y * b.y + a.z * b.z
  }

  /** `cross(vec1, vec2)`: perpendicular to both operands. */
  function Cross(a: Vec3, b: Vec3): (r: Vec3)
    ensures Dot(r, a) == 0.0 && Dot(r, b) == 0.0
  {
    Vec3(a.y * b.z - a.z * b.y,
         b.x * a.z - b.z * a.x,
         a.x * b.y - a.y * b.x)
  }

  lemma CrossAntiSymmetric(a: Vec3, b: Vec3)
    ensures Cross(a, b) == Neg(Cross(b, a))
  {
  }

  lemma DotScale(a: Vec3, b: Vec3, k: real)
    ensures Dot(a, Scale(b, k)) == Dot(a, b) * k
  {
  }

  /** The components of a vector, as the Python list holds them. */
  function Components(v: Vec3): seq<real> { [v.x, v.y, v.z] }

  /**
   * `functools.reduce(lambda a, b: a + b*b, xs)` without an initial value:
   * the first element is the starting accumulator and is never squared.
   */
  function ReduceSquares(xs: seq<real>): real
    requires |xs| >= 1
  {
    if |xs| == 1 then xs[0] else ReduceSquares(xs[..|xs| - 1]) + xs[|xs| - 1] * xs[|xs| - 1]
  }

  /** The radicand of `normalize` is `v0 + v1*v1 + v2*v2`. */
  lemma ReduceSquaresComponents(v: Vec3)
    ensures ReduceSquares(Components(v)) == v.x + v.y * v.y + v.z * v.z
  {
    assert Components(v)[..2] == [v.x, v.y];
    assert [v.x, v.y][..1] == [v.x];
    assert ReduceSquares([v.x, v.y]) == v.x + v.y * v.y;
  }

  /**
   * `normalize(vec)`: every component divided by `sqrt(reduce(...))`.
   * `math.sqrt` of a negative radicand raises ValueError; a zero length
   * raises ZeroDivisionError.
   */
  function Normalize(v: Vec3, m: Maths): Result<Vec3, MathError>
  {
    var s := ReduceSquares(Components(v));
    if s < 0.0 then Err(ValueError)
    else
      var len := m.sqrt(s);
      if len == 0.0 then Err(ZeroDivision) else Ok(Scale(v, 1.0 / len))
  }

  /** `m.sqrt` behaves as the square root at `s`. */
  predicate SqrtAt(m: Maths, s: real)
  {
    s >= 0.0 ==> m.sqrt(s) >= 0.0 && m.sqrt(s) * m.sqrt(s) == s
  }

  /**
   * With a true square root, `normalize` fails exactly when
   * `v0 + v1^2 + v2^2 <= 0`: ValueError below zero, ZeroDivisionError at zero.
   */
  lemma NormalizeFails(v: Vec3, m: Maths)
    requires SqrtAt(m, v.x + v.y * v.y + v.z * v.z)
    ensures v.x + v.y * v.y + v.z * v.z < 0.0 ==> Normalize(v, m) == Err(ValueError)
    ensures v.x + v.y * v.y + v.z * v.z == 0.0 ==> Normalize(v, m) == Err(ZeroDivision)
    ensures v.x + v.y * v.y + v.z * v.z > 0.0 ==> Normalize(v, m).Ok?
  {
    ReduceSquaresComponents(v);
  }

  /**
   * Because the first component is not squared, the result of `normalize`
   * has unit length exactly when that component is 0 or 1.
   */
  lemma NormalizeUnitLength(v: Vec3, m: Maths)
    requires SqrtAt(m, v.x + v.y * v.y + v.z * v.z)
    requires Normalize(v, m).Ok?
    ensures var u := Normalize(v, m).value; Dot(u, u) == 1.0 <==> v.x * v.x == v.x
  {
    ReduceSquaresComponents(v);
    var s := v.x + v.y * v.y + v.z * v.z;
    var len := m.sqrt(s);
    var u := Scale(v, 1.0 / len);
    assert len * len == s;
    calc {
      Dot(u, u);
      (v.x * v.x + v.y * v.y + v.z * v.z) * ((1.0 / len) * (1.0 / len));
      (v.x * v.x + v.y * v.y + v.z * v.z) / s;
    }
    assert s > 0.0;
  }

  /** `float(l[k] or 0)`: an empty field reads as 0. */
  function AngleField(f: string): Option<real>
  {
    if f == "" then Some(0.0) else ParseFloat(f)
  }

  /**
   * `parse_angle(text)`: `(d + m/60 + m/3600) * π / 180` with `d` the first
   * ':'-separated field and `m` the second, used for both the minutes and the
   * seconds term. Fields are read left to right, so a bad degree field raises
   * ValueError before a missing second field raises IndexError.
   */
  function ParseAngle(text: string): Result<real, MathError>
  {
    AngleOfFields(Split(text, ':'))
  }

  /** The arithmetic of `parse_angle` on the list `l` of ':'-separated fields. */
  function AngleOfFields(l: seq<string>): Result<real, MathError>
    requires |l| >= 1
  {
    match AngleField(l[0])
    case None => Err(ValueError)
    case Some(d) =>
      if |l| < 2 then Err(IndexError)
      else
        match AngleField(l[1])
        case None => Err(ValueError)
        case Some(mins) => Ok((d + mins / 60.0 + mins / 3600.0) * PI / 180.0)
  }

  /**
   * An angle `a:b`, or `a:b:c...`, parses to `(a + b/60 + b/3600)·π/180`:
   * whatever follows the second field, seconds included, is never read.
   */
  lemma ParseAngleFields(a: string, b: string, tail: string, d: real, mins: real)
    requires ':' !in a && ':' !in b
    requires tail == [] || tail[0] == ':'
    requires AngleField(a) == Some(d) && AngleField(b) == Some(mins)
    ensures ParseAngle(a + ":" + b + tail).Ok?
    ensures ParseAngle(a + ":" + b + tail).value == (d + mins / 60.0 + mins / 3600.0) * PI / 180.0
  {
    var text := a + ":" + b + tail;
    assert text == a + [':'] + (b + tail);
    SplitFirst(a, ':', b + tail);
    if tail == [] {
      assert b + tail == b;
      SplitPlain(b, ':');
    } else {
      assert b + tail == b + [':'] + tail[1..];
      SplitFirst(b, ':', tail[1..]);
    }
    var l := Split(text, ':');
    assert |l| >= 2 && l[0] == a && l[1] == b;
    AngleOfTwoFields(l, d, mins);
  }

  lemma AngleOfTwoFields(l: seq<string>, d: real, mins: real)
    requires |l| >= 2 && AngleField(l[0]) == Some(d) && AngleField(l[1]) == Some(mins)
    ensures AngleOfFields(l).Ok?
    ensures AngleOfFields(l).value == (d + mins / 60.0 + mins / 3600.0) * PI / 180.0
  {
  }

  /** Without ':' the second field `l[1]` does not exist. */
  lemma ParseAngleNoColon(text: string)
    requires ':' !in text
    requires AngleField(text).Some?
    ensures ParseAngle(text) == Err(IndexError)
  {
    SplitPlain(text, ':');
  }

  /** `Star.coordinate`: the point at altitude `alt`, azimuth `az` on the sphere. */
  function SphereCoord(altitude: real, azimuth: real, m: Maths): Vec3
  {
    Vec3(SPHERE_RADIUS * m.cos(altitude) * m.cos(azimuth),
         SPHERE_RADIUS * m.cos(altitude) * m.sin(azimuth),
         SPHERE_RADIUS * m.sin(altitude))
  }

  /** `inplane_ortho_vector`: the coordinate minus its component along the normal. */
  function InplaneOrtho(c: Vec3, n: Vec3): Vec3
  {
    Sub(c, Scale(n, Dot(n, c)))
  }

  /** The orthographic in-plane vector is perpendicular to a unit normal. */
  lemma OrthoPerpendicular(c: Vec3, n: Vec3)
    requires Dot(n, n) == 1.0
    ensures Dot(n, InplaneOrtho(c, n)) == 0.0
  {
    var k := Dot(n, c);
    calc {
      Dot(n, InplaneOrtho(c, n));
      Dot(n, c) - Dot(n, n) * k;
    }
  }

  /** A star on the normal's axis projects orthographically to the zero vector. */
  lemma OrthoAtPole(n: Vec3, k: real)
    requires Dot(n, n) == 1.0
    ensures InplaneOrtho(Scale(n, k), n) == Zero
  {
    assert Dot(n, Scale(n, k)) == Dot(n, n) * k;
  }

  /**
   * `inplane_stereo_vector`: with `p = c + R·n` and `d = dot(n, p)`, the vector
   * `(p - n·d) · (2R/d)`; a zero `d` raises ZeroDivisionError.
   */
  function InplaneStereo(c: Vec3, n: Vec3): (r: Result<Vec3, MathError>)
    ensures r.Err? <==> Dot(n, Add(c, Scale(n, SPHERE_RADIUS))) == 0.0
    ensures r.Err? ==> r.error == ZeroDivision
  {
    var p := Add(c, Scale(n, SPHERE_RADIUS));
    var d := Dot(n, p);
    if d == 0.0 then Err(ZeroDivision)
    else Ok(Scale(Sub(p, Scale(n, d)), SPHERE_RADIUS * 2.0 / d))
  }

  /** The stereographic in-plane vector is perpendicular to a unit normal. */
  lemma StereoPerpendicular(c: Vec3, n: Vec3)
    requires Dot(n, n) == 1.0
    requires InplaneStereo(c, n).Ok?
    ensures Dot(n, InplaneStereo(c, n).value) == 0.0
  {
    var p := Add(c, Scale(n, SPHERE_RADIUS));
    var d := Dot(n, p);
    var q := Sub(p, Scale(n, d));
    assert Dot(n, q) == Dot(n, p) - Dot(n, n) * d;
    DotScale(n, q, SPHERE_RADIUS * 2.0 / d);
  }

  /** The star diametrically opposite the normal cannot be projected stereographically. */
  lemma StereoAtAntipode(n: Vec3)
    ensures InplaneStereo(Scale(n, -SPHERE_RADIUS), n) == Err(ZeroDivision)
  {
    assert Add(Scale(n, -SPHERE_RADIUS), Scale(n, SPHERE_RADIUS)) == Zero;
  }

  datatype Projection = Ortho | Stereo

  /**
   * The `{'ortho': ..., 'stereo': ...}.get(mode, ortho)` dispatch: only the
   * exact string "stereo" selects the stereographic projection.
   */
  function Dispatch(mode: string): (p: Projection)
    ensures p == Stereo <==> mode == "stereo"
    ensures p == Ortho <==> mode != "stereo"
  {
    match mode
    case "ortho" => Ortho
    case "stereo" => Stereo
    case _ => Ortho
  }

  /** `inplane_vector(normal, mode)` of a star whose coordinate is `c`. */
  function InplaneVector(c: Vec3, n: Vec3, mode: string): (r: Result<Vec3, MathError>)
    ensures mode != "stereo" ==> r == Ok(InplaneOrtho(c, n))
    ensures mode == "stereo" ==> r == InplaneStereo(c, n)
  {
    match Dispatch(mode)
    case Ortho => Ok(InplaneOrtho(c, n))
    case Stereo => InplaneStereo(c, n)
  }

  /** Whatever the mode, a successful in-plane vector is perpendicular to a unit normal. */
  lemma InplanePerpendicular(c: Vec3, n: Vec3, mode: string)
    requires Dot(n, n) == 1.0
    requires InplaneVector(c, n, mode).Ok?
    ensures Dot(n, InplaneVector(c, n, mode).value) == 0.0
  {
    if mode == "stereo" {
      StereoPerpendicular(c, n);
    } else {
      OrthoPerpendicular(c, n);
    }
  }

  /** `[dot(b, ip_vec) for b in bases]`. */
  function PlaneCoordinates(bases: seq<Vec3>, iv: Vec3): (r: seq<real>)
    ensures |r| == |bases|
    ensures forall i :: 0 <= i < |bases| ==> r[i] == Dot(bases[i], iv)
  {
    if |bases| == 0 then [] else [Dot(bases[0], iv)] + PlaneCoordinates(bases[1..], iv)
  }

  /** Component sums of a list of coordinates. */
  function SumVec(cs: seq<Vec3>): Vec3
  {
    if |cs| == 0 then Zero else Add(SumVec(cs[..|cs| - 1]), cs[|cs| - 1])
  }

  /** The component-wise mean the `View.normal` comprehension divides out. */
  function Mean(cs: seq<Vec3>): Vec3
    requires |cs| >= 1
  {
    var s := SumVec(cs);
    Vec3(s.x / |cs| as real, s.y / |cs| as real, s.z / |cs| as real)
  }

  /** The normal of a view: the normalized mean of its stars' coordinates. */
  function NormalOf(cs: seq<Vec3>, m: Maths): Result<Vec3, MathError>
    requires |cs| >= 1
  {
    Normalize(Mean(cs), m)
  }

  /**
   * `View.bases` given the normal: `b1 = normalize(inplane_vector of the first
   * star)` and `cross(normal, b1)`, in that order for both modes.
   */
  function BasesOf(first: Vec3, n: Vec3, mode: string, m: Maths): (r: Result<seq<Vec3>, MathError>)
    ensures r.Ok? ==> |r.value| == 2
  {
    match InplaneVector(first, n, mode)
    case Err(e) => Err(e)
    case Ok(iv) =>
      match Normalize(iv, m)
      case Err(e) => Err(e)
      case Ok(b1) => Ok([b1, Cross(n, b1)])
  }

  /**
   * The two bases: the second is perpendicular to the normal and to the first
   * in every case; the first is perpendicular to the normal when the normal
   * has unit length.
   */
  lemma BasesOrthogonal(first: Vec3, n: Vec3, mode: string, m: Maths)
    requires BasesOf(first, n, mode, m).Ok?
    ensures var bs := BasesOf(first, n, mode, m).value;
      |bs| == 2 && Dot(bs[1], n) == 0.0 && Dot(bs[1], bs[0]) == 0.0
      && (Dot(n, n) == 1.0 ==> Dot(n, bs[0]) == 0.0)
  {
    var iv := InplaneVector(first, n, mode).value;
    var b1 := Normalize(iv, m).value;
    if Dot(n, n) == 1.0 {
      InplanePerpendicular(first, n, mode);
      var len := m.sqrt(ReduceSquares(Components(iv)));
      assert b1 == Scale(iv, 1.0 / len);
      DotScale(n, iv, 1.0 / len);
    }
  }

  /** The marker size `BRIGHT_SCALE * (MAX_BRIGHT - magnitude)`. */
  function MarkerSize(magnitude: real): real
  {
    BRIGHT_SCALE * (MAX_BRIGHT - magnitude)
  }
}
