/** The material parameters of each kind of constitutive model and the tensor each kind builds
    from them (the `_build_c_tensor` methods), with the derived viscosity of the viscoplastic
    model. Symbolic parameters are modelled by their value at a point; a bare sympy symbol, such
    as the "not yet defined" placeholder, is the explicit `Undefined`. */
module Rheology {
  import opened Results
  import opened Tensors
  import opened Mandel

  /** A parameter that may be a bare symbol rather than a value. */
  datatype Param = Value(x: real) | Undefined

  /** What a viscous model accepts as its viscosity: a scalar, a Mandel matrix, a full rank-4
      array, or anything else. */
  datatype Viscosity = Scalar(eta: real) | MandelMatrix(m: Array2) | FullArray(a: Array4) | OtherKind

  /** The parameters of the viscoplastic model. */
  datatype Plastic = Plastic(
    bgViscosity: real,
    yieldStress: Param,
    yieldStressMin: real,
    minViscosity: real,
    maxViscosity: real,
    edotII: Param,
    epsilonEdotII: real)

  /** The parameter object of each kind of model. */
  datatype Params =
    | BaseParams(k: real)
    | ViscousParams(viscosity: Viscosity)
    | PlasticParams(plastic: Plastic)
    | DiffusionParams(diffusivity: real)
    | TransverseParams(eta0: real, eta1: real, director: seq<real>)

  /** Why a rebuild fails: a viscosity of no known form (RuntimeError), a comparison of sympy's
      complex infinity or nan inside Max (ValueError), or a director with fewer than d
      components (IndexError). */
  datatype BuildError = UnknownViscosityForm | NotComparable | DirectorTooShort

  // Parameter defaults.

  const DefaultBase: Params := BaseParams(1.0)
  const DefaultViscous: Params := ViscousParams(Scalar(1.0))
  const DefaultPlastic: Params := PlasticParams(Plastic(1.0, Undefined, 0.001, 0.01, 100.0, Undefined, 0.0))
  const DefaultDiffusion: Params := DiffusionParams(1.0)
  const DefaultTransverse: Params := TransverseParams(1.0, 1.0, [0.0, 0.0, 1.0])

  // The viscous model.

  /** The tensor a viscous model builds from its viscosity: 2·η·I4 for a scalar, twice the
      expansion of a Mandel matrix of size idxmap[d], twice a (d, d, d, d) array. */
  function BuildViscous(v: Viscosity, d: Dim, w: real): (r: Result<Constitutive, BuildError>)
    requires w > 0.0
    ensures r.Ok? <==> || v.Scalar?
                       || (v.MandelMatrix? && IsArray2(v.m, MandelSize(d), MandelSize(d)))
                       || (v.FullArray? && IsArray4(v.a, d))
    ensures r.Ok? ==> r.value.Rank4?
  {
    match v
    case Scalar(eta) => Ok(Rank4(Scale4(2.0 * eta, Identity4())))
    case MandelMatrix(m) =>
      if IsArray2(m, MandelSize(d), MandelSize(d)) then Ok(Rank4(Scale4(2.0, FromMandel(OfArray2(m), d, w))))
      else Err(UnknownViscosityForm)
    case FullArray(a) =>
      if IsArray4(a, d) then Ok(Rank4(Scale4(2.0, OfArray4(a)))) else Err(UnknownViscosityForm)
    case OtherKind => Err(UnknownViscosityForm)
  }

  /** A scalar viscosity gives the isotropic tensor with η times the identity's entries, doubled. */
  lemma ScalarViscosityIsotropic(eta: real, d: Dim, w: real)
    requires w > 0.0
    ensures BuildViscous(Scalar(eta), d, w).Ok?
    ensures forall i, j, k, l :: BuildViscous(Scalar(eta), d, w).value.t(i, j, k, l) == 2.0 * eta * IdentityEntry(i, j, k, l)
  {
  }

  /** A Mandel matrix of the right size is read back, doubled, through the Mandel view. */
  lemma MandelViscosityReadBack(m: Array2, d: Dim, w: real)
    requires w > 0.0 && IsArray2(m, MandelSize(d), MandelSize(d))
    ensures BuildViscous(MandelMatrix(m), d, w).Ok?
    ensures Same2(ToMandel(BuildViscous(MandelMatrix(m), d, w).value.t, d, w), Scale2(2.0, OfArray2(m)), MandelSize(d), MandelSize(d))
  {
    var e := FromMandel(OfArray2(m), d, w);
    ToMandelScale(2.0, e, d, w);
    MandelInverse(OfArray2(m), d, w);
  }

  /** A full array of shape (d, d, d, d) is used as it is, doubled. */
  lemma FullViscosityDoubled(a: Array4, d: Dim, w: real)
    requires w > 0.0 && IsArray4(a, d)
    ensures BuildViscous(FullArray(a), d, w).Ok?
    ensures forall i, j, k, l :: 0 <= i < d && 0 <= j < d && 0 <= k < d && 0 <= l < d ==>
              BuildViscous(FullArray(a), d, w).value.t(i, j, k, l) == 2.0 * a[i][j][k][l]
  {
  }

  // The viscoplastic model.

  /** A value of sympy's extended arithmetic, as far as the effective viscosity can produce one:
      a finite number, complex infinity (`zoo`) or `nan`. */
  datatype Extended = Finite(x: real) | ComplexInfinity | NotANumber

  /** a / b: finite for b != 0, zoo for a nonzero number over zero, nan for 0 / 0. */
  function Quotient(a: real, b: real): (r: Extended)
    ensures r.Finite? <==> b != 0.0
    ensures r.Finite? ==> r.x * b == a
  {
    if b != 0.0 then Finite(a / b) else if a != 0.0 then ComplexInfinity else NotANumber
  }

  /** 1 / e, with 1 / zoo = 0 and 1 / 0 = zoo. */
  function Reciprocal(e: Extended): (r: Extended)
    ensures e.Finite? && e.x != 0.0 ==> r.Finite? && r.x * e.x == 1.0
  {
    match e
    case Finite(x) => Quotient(1.0, x)
    case ComplexInfinity => Finite(0.0)
    case NotANumber => NotANumber
  }

  /** a + b, with zoo + zoo = nan. */
  function Plus(a: Extended, b: Extended): (r: Extended)
    ensures r.Finite? <==> a.Finite? && b.Finite?
    ensures r.Finite? ==> r.x == a.x + b.x
  {
    match (a, b)
    case (Finite(x), Finite(y)) => Finite(x + y)
    case (NotANumber, _) => NotANumber
    case (_, NotANumber) => NotANumber
    case (ComplexInfinity, ComplexInfinity) => NotANumber
    case _ => ComplexInfinity
  }

  /** 1 / (1 / bg + 1 / vy), the viscosity of the background and yield branches in series. */
  function Harmonic(bg: real, vy: Extended): Extended {
    Reciprocal(Plus(Reciprocal(Finite(bg)), Reciprocal(vy)))
  }

  function Max(a: real, b: real): (r: real)
    ensures r >= a && r >= b && (r == a || r == b)
  {
    if a >= b then a else b
  }

  function Min(a: real, b: real): (r: real)
    ensures r <= a && r <= b && (r == a || r == b)
  {
    if a <= b then a else b
  }

  /** The viscoplastic model's derived viscosity. With a bare symbol for the yield stress or the
      strain-rate invariant it is the background viscosity; otherwise the yield viscosity
      τ_y / (2·ε̇ + ε) is put in series with the background viscosity, floored at the minimum
      yield-stress viscosity, and the result is clipped to [min, max] (max applied first). Max
      refuses to compare zoo or nan. */
  function EffectiveViscosity(p: Plastic): (r: Result<real, BuildError>)
    ensures p.yieldStress.Undefined? || p.edotII.Undefined? ==> r == Ok(p.bgViscosity)
    ensures p.yieldStress.Value? && p.edotII.Value? && r.Ok? ==> r.value >= p.minViscosity
    ensures p.yieldStress.Value? && p.edotII.Value? && r.Ok? && p.minViscosity <= p.maxViscosity ==>
              r.value <= p.maxViscosity
  {
    if p.yieldStress.Undefined? || p.edotII.Undefined? then Ok(p.bgViscosity)
    else
      match Harmonic(p.bgViscosity, Quotient(p.yieldStress.x, 2.0 * p.edotII.x + p.epsilonEdotII))
      case Finite(h) => Ok(Max(Min(Max(p.yieldStressMin, h), p.maxViscosity), p.minViscosity))
      case _ => Err(NotComparable)
  }

  /** The clipping applied to a finite series viscosity h. */
  function Clipped(p: Plastic, h: real): real {
    Max(Min(Max(p.yieldStressMin, h), p.maxViscosity), p.minViscosity)
  }

  /** bg·vy / (bg + vy), the textbook form of two viscosities in series. */
  function Series(bg: real, vy: real): real
    requires bg + vy != 0.0
  {
    bg * vy / (bg + vy)
  }

  /** Away from every singular point the series viscosity is the textbook harmonic combination
      bg·vy / (bg + vy). */
  lemma SeriesViscosity(p: Plastic, ys: real, edot: real)
    requires p.yieldStress == Value(ys) && p.edotII == Value(edot)
    requires 2.0 * edot + p.epsilonEdotII != 0.0 && ys != 0.0
    requires p.bgViscosity != 0.0 && p.bgViscosity + ys / (2.0 * edot + p.epsilonEdotII) != 0.0
    ensures var vy := ys / (2.0 * edot + p.epsilonEdotII);
      EffectiveViscosity(p) == Ok(Clipped(p, Series(p.bgViscosity, vy)))
  {
    var bg, vy := p.bgViscosity, ys / (2.0 * edot + p.epsilonEdotII);
    assert vy != 0.0;
    assert Reciprocal(Finite(bg)) == Finite(1.0 / bg);
    assert Reciprocal(Finite(vy)) == Finite(1.0 / vy);
    SeriesSum(bg, vy);
  }

  lemma SeriesSum(bg: real, vy: real)
    requires bg != 0.0 && vy != 0.0 && bg + vy != 0.0
    ensures 1.0 / bg + 1.0 / vy != 0.0
    ensures 1.0 / (1.0 / bg + 1.0 / vy) == Series(bg, vy)
  {
    assert 1.0 / bg + 1.0 / vy == (bg + vy) / (bg * vy);
  }

  /** With no strain rate and no regularisation the yield branch is infinitely stiff and drops
      out: the background viscosity remains (floored and clipped). */
  lemma NoStrainRate(p: Plastic, ys: real)
    requires p.yieldStress == Value(ys) && ys != 0.0
    requires p.edotII == Value(0.0) && p.epsilonEdotII == 0.0
    requires p.bgViscosity != 0.0
    ensures EffectiveViscosity(p) == Ok(Clipped(p, p.bgViscosity))
  {
    var bg := p.bgViscosity;
    assert Quotient(ys, 2.0 * 0.0 + 0.0) == ComplexInfinity;
    assert Plus(Reciprocal(Finite(bg)), Reciprocal(ComplexInfinity)) == Finite(1.0 / bg);
    assert 1.0 / bg != 0.0 && 1.0 / (1.0 / bg) == bg;
    assert Harmonic(bg, ComplexInfinity) == Finite(bg);
  }

  /** A zero yield stress gives a zero series viscosity: the floor τ_y,min takes over. */
  lemma ZeroYieldStress(p: Plastic, edot: real)
    requires p.yieldStress == Value(0.0) && p.edotII == Value(edot)
    requires 2.0 * edot + p.epsilonEdotII != 0.0 && p.bgViscosity != 0.0
    ensures EffectiveViscosity(p) == Ok(Clipped(p, 0.0))
  {
    assert Reciprocal(Finite(p.bgViscosity)) == Finite(1.0 / p.bgViscosity);
  }

  /** The evaluation fails, because Max meets zoo or nan, exactly at the singular points: a zero
      yield stress over a zero strain-rate term (0 / 0) or against a zero background viscosity
      (zoo + zoo), or two finite branches that cancel. */
  lemma SingularPoints(p: Plastic, ys: real, edot: real)
    requires p.yieldStress == Value(ys) && p.edotII == Value(edot)
    ensures var den, bg := 2.0 * edot + p.epsilonEdotII, p.bgViscosity;
      EffectiveViscosity(p).Err? <==>
        || (ys == 0.0 && (den == 0.0 || bg == 0.0))
        || (bg != 0.0 && den != 0.0 && ys != 0.0 && bg + ys / den == 0.0)
  {
    HarmonicSingular(p.bgViscosity, ys, 2.0 * edot + p.epsilonEdotII);
  }

  lemma HarmonicSingular(bg: real, ys: real, den: real)
    ensures !Harmonic(bg, Quotient(ys, den)).Finite? <==>
        || (ys == 0.0 && (den == 0.0 || bg == 0.0))
        || (bg != 0.0 && den != 0.0 && ys != 0.0 && bg + ys / den == 0.0)
  {
    var inverseBg := Reciprocal(Finite(bg));
    assert inverseBg == if bg == 0.0 then ComplexInfinity else Finite(1.0 / bg);
    if den == 0.0 {
      assert Quotient(ys, den) == if ys == 0.0 then NotANumber else ComplexInfinity;
      if bg != 0.0 && ys != 0.0 {
        assert 1.0 / bg != 0.0;
      }
    } else if ys == 0.0 {
      assert Quotient(ys, den) == Finite(0.0);
    } else {
      var vy := ys / den;
      assert vy != 0.0;
      assert Reciprocal(Finite(vy)) == Finite(1.0 / vy);
      if bg != 0.0 {
        ReciprocalSumZero(bg, vy);
      }
    }
  }

  /** Two nonzero branches cancel in series exactly when they cancel in parallel. */
  lemma ReciprocalSumZero(a: real, b: real)
    requires a != 0.0 && b != 0.0
    ensures 1.0 / a + 1.0 / b == 0.0 <==> a + b == 0.0
  {
    assert (1.0 / a + 1.0 / b) * (a * b) == b + a;
  }

  /** For positive parameters the series viscosity lies below both branches, so the stress
      2·η·ε̇ it produces never exceeds the yield stress before clipping. */
  lemma YieldCap(bg: real, ys: real, edot: real)
    requires bg > 0.0 && ys > 0.0 && edot > 0.0
    ensures var vy := ys / (2.0 * edot);
      0.0 < Series(bg, vy) < bg && 2.0 * Series(bg, vy) * edot < ys
  {
    var vy := ys / (2.0 * edot);
    assert vy > 0.0;
    var h := Series(bg, vy);
    assert h * (bg + vy) == bg * vy;
    assert bg * vy > 0.0;
    assert h > 0.0;
    assert bg * (bg + vy) == bg * bg + bg * vy && bg * bg > 0.0;
    assert vy * (bg + vy) == vy * bg + vy * vy && vy * vy > 0.0;
    BelowFactor(h, bg, bg + vy);
    BelowFactor(h, vy, bg + vy);
    assert 2.0 * edot * vy == ys;
    assert 2.0 * h * edot < 2.0 * vy * edot;
  }

  /** h < a follows from h·c < a·c for positive c. */
  lemma BelowFactor(h: real, a: real, c: real)
    requires c > 0.0 && h * c < a * c
    ensures h < a
  {
  }

  /** Raising the yield stress never lowers the effective viscosity (positive parameters). */
  lemma MonotoneInYieldStress(p: Plastic, ys1: real, ys2: real, edot: real)
    requires p.yieldStress == Value(ys1) && p.edotII == Value(edot)
    requires p.bgViscosity > 0.0 && 2.0 * edot + p.epsilonEdotII > 0.0
    requires 0.0 < ys1 <= ys2
    ensures EffectiveViscosity(p).Ok? && EffectiveViscosity(p.(yieldStress := Value(ys2))).Ok?
    ensures EffectiveViscosity(p).value <= EffectiveViscosity(p.(yieldStress := Value(ys2))).value
  {
    var den, bg := 2.0 * edot + p.epsilonEdotII, p.bgViscosity;
    var v1, v2 := ys1 / den, ys2 / den;
    QuotientMonotone(ys1, ys2, den);
    SeriesViscosity(p, ys1, edot);
    SeriesViscosity(p.(yieldStress := Value(ys2)), ys2, edot);
    SeriesMonotone(bg, v1, v2);
    ClippedMonotone(p, Series(bg, v1), Series(bg, v2));
  }

  lemma QuotientMonotone(a: real, b: real, den: real)
    requires den > 0.0 && 0.0 < a <= b
    ensures 0.0 < a / den <= b / den
  {
    assert (b / den - a / den) * den == b - a;
  }

  lemma ClippedMonotone(p: Plastic, h1: real, h2: real)
    requires h1 <= h2
    ensures Clipped(p, h1) <= Clipped(p, h2)
  {
  }

  lemma SeriesMonotone(bg: real, v1: real, v2: real)
    requires bg > 0.0 && 0.0 < v1 <= v2
    ensures Series(bg, v1) <= Series(bg, v2)
  {
    assert bg * v1 * (bg + v2) <= bg * v2 * (bg + v1) by {
      assert bg * v1 * (bg + v2) == bg * bg * v1 + bg * v1 * v2;
      assert bg * v2 * (bg + v1) == bg * bg * v2 + bg * v1 * v2;
      assert bg * bg > 0.0;
      assert bg * bg * v1 <= bg * bg * v2;
    }
    QuotientLe(bg * v1, bg + v1, bg * v2, bg + v2);
  }

  /** a / b <= c / e for positive denominators with a·e <= c·b. */
  lemma QuotientLe(a: real, b: real, c: real, e: real)
    requires b > 0.0 && e > 0.0 && a * e <= c * b
    ensures a / b <= c / e
  {
    var x, y := a / b, c / e;
    assert x * b == a && y * e == c;
    assert (y - x) * (b * e) == c * b - a * e;
    assert b * e > 0.0;
  }

  /** The defaults with a yield stress of 10 and a strain rate of 1: 1 / (1 + 1/5) = 5/6. */
  lemma WorkedExample()
    ensures EffectiveViscosity(DefaultPlastic.plastic.(yieldStress := Value(10.0), edotII := Value(1.0))) == Ok(5.0 / 6.0)
  {
    var p := DefaultPlastic.plastic.(yieldStress := Value(10.0), edotII := Value(1.0));
    SeriesViscosity(p, 10.0, 1.0);
  }

  /** The fallback is not clipped: a background viscosity below the minimum is returned as it is. */
  lemma FallbackIgnoresBounds()
    ensures var p := DefaultPlastic.plastic.(bgViscosity := 0.001);
      EffectiveViscosity(p) == Ok(0.001) && 0.001 < p.minViscosity
  {
  }

  /** The viscoplastic tensor: the viscous build of the derived scalar viscosity. With a bare
      symbol for the yield stress or the strain rate it is 2·bg·I4; otherwise its diagonal entry
      2η lies between twice the minimum and twice the maximum viscosity. */
  function BuildPlastic(p: Plastic, d: Dim, w: real): (r: Result<Constitutive, BuildError>)
    requires w > 0.0
    ensures r.Ok? <==> EffectiveViscosity(p).Ok?
    ensures r.Ok? ==> r == BuildViscous(Scalar(EffectiveViscosity(p).value), d, w)
    ensures p.yieldStress.Undefined? || p.edotII.Undefined? ==>
              r == Ok(Rank4(Scale4(2.0 * p.bgViscosity, Identity4())))
    ensures p.yieldStress.Value? && p.edotII.Value? && r.Ok? ==>
              r.value.Rank4? && 2.0 * p.minViscosity <= r.value.t(0, 0, 0, 0)
    ensures p.yieldStress.Value? && p.edotII.Value? && r.Ok? && p.minViscosity <= p.maxViscosity ==>
              r.value.t(0, 0, 0, 0) <= 2.0 * p.maxViscosity
  {
    match EffectiveViscosity(p)
    case Ok(eta) => BuildViscous(Scalar(eta), d, w)
    case Err(e) => Err(e)
  }

  // The diffusion model.

  /** κ·eye(d). */
  function BuildDiffusion(kappa: real): (r: Constitutive) {
    Rank2(Scale2(kappa, Identity2()))
  }

  // The transverse-isotropic model.

  /** Component i of the director, zero past its end. */
  function Component(n: seq<real>, i: int): real {
    if 0 <= i < |n| then n[i] else 0.0
  }

  /** The director as a function of the index. */
  function Director(n: seq<real>): int -> real {
    i => Component(n, i)
  }

  /** The director-dependent correction of the transverse-isotropic tensor for director u:
      (u_i u_k δ_jl + u_j u_k δ_li + u_i u_l δ_jk + u_j u_l δ_ki) / 2 − 2 u_i u_j u_k u_l. */
  function Correction(u: int -> real, i: int, j: int, k: int, l: int): real {
    var ni, nj, nk, nl := u(i), u(j), u(k), u(l);
    (ni * nk * Delta(j, l) + nj * nk * Delta(l, i) + ni * nl * Delta(j, k) + nj * nl * Delta(k, i)) / 2.0
      - 2.0 * ni * nj * nk * nl
  }

  /** λ = η0·I4 + (η1 − η0)·correction. */
  function Lambda(eta0: real, eta1: real, u: int -> real): Tensor4 {
    (i, j, k, l) => eta0 * IdentityEntry(i, j, k, l) + (eta1 - eta0) * Correction(u, i, j, k, l)
  }

  /** The transverse-isotropic tensor: λ passed through its Mandel form and back; a director with
      fewer than d components cannot be indexed. */
  function BuildTransverse(eta0: real, eta1: real, n: seq<real>, d: Dim, w: real): (r: Result<Constitutive, BuildError>)
    requires w > 0.0
    ensures r.Ok? <==> |n| >= d
    ensures r.Ok? ==> r.value.Rank4?
  {
    if |n| < d then Err(DirectorTooShort)
    else Ok(Rank4(FromMandel(ToMandel(Lambda(eta0, eta1, Director(n)), d, w), d, w)))
  }

  lemma CorrectionSymmetric(u: int -> real, i: int, j: int, k: int, l: int)
    ensures Correction(u, i, j, k, l) == Correction(u, j, i, k, l)
    ensures Correction(u, i, j, k, l) == Correction(u, i, j, l, k)
    ensures Correction(u, i, j, k, l) == Correction(u, k, l, i, j)
  {
    var ni, nj, nk, nl := u(i), u(j), u(k), u(l);
    assert ni * nj * nk * nl == nj * ni * nk * nl == ni * nj * nl * nk == nk * nl * ni * nj;
  }

  lemma LambdaEntrySymmetric(eta0: real, eta1: real, u: int -> real, i: int, j: int, k: int, l: int)
    ensures Lambda(eta0, eta1, u)(i, j, k, l) == Lambda(eta0, eta1, u)(j, i, k, l)
    ensures Lambda(eta0, eta1, u)(i, j, k, l) == Lambda(eta0, eta1, u)(i, j, l, k)
    ensures Lambda(eta0, eta1, u)(i, j, k, l) == Lambda(eta0, eta1, u)(k, l, i, j)
  {
    CorrectionSymmetric(u, i, j, k, l);
  }

  /** λ has both minor symmetries and the major one. */
  lemma LambdaSymmetric(eta0: real, eta1: real, u: int -> real, d: nat)
    ensures MinorSymmetric(Lambda(eta0, eta1, u), d)
    ensures MajorSymmetric(Lambda(eta0, eta1, u), d)
  {
    var t := Lambda(eta0, eta1, u);
    forall i, j, k, l | 0 <= i < d && 0 <= j < d && 0 <= k < d && 0 <= l < d
      ensures t(i, j, k, l) == t(j, i, k, l) && t(i, j, k, l) == t(i, j, l, k)
    {
      LambdaEntrySymmetric(eta0, eta1, u, i, j, k, l);
    }
    forall i, j, k, l | 0 <= i < d && 0 <= j < d && 0 <= k < d && 0 <= l < d
      ensures t(i, j, k, l) == t(k, l, i, j)
    {
      LambdaEntrySymmetric(eta0, eta1, u, i, j, k, l);
    }
  }

  /** The rebuilt tensor is λ itself on every index tuple: the Mandel round trip loses nothing. */
  lemma TransverseTensor(eta0: real, eta1: real, n: seq<real>, d: Dim, w: real)
    requires w > 0.0 && |n| >= d
    ensures BuildTransverse(eta0, eta1, n, d, w).Ok?
    ensures Same4(BuildTransverse(eta0, eta1, n, d, w).value.t, Lambda(eta0, eta1, Director(n)), d)
  {
    LambdaSymmetric(eta0, eta1, Director(n), d);
    MandelRoundTrip(Lambda(eta0, eta1, Director(n)), d, w);
  }

  /** Equal viscosities make the model isotropic, whatever the director. */
  lemma EqualViscositiesIsotropic(eta: real, u: int -> real, d: nat)
    ensures Same4(Lambda(eta, eta, u), Scale4(eta, Identity4()), d)
  {
  }

  /** In 2-D the default director (0, 0, 1) has no in-plane component: the model is isotropic. */
  lemma DefaultDirectorIn2D(eta0: real, eta1: real)
    ensures Same4(Lambda(eta0, eta1, Director([0.0, 0.0, 1.0])), Scale4(eta0, Identity4()), 2)
  {
    var u := Director([0.0, 0.0, 1.0]);
    forall i, j, k, l | 0 <= i < 2 && 0 <= j < 2 && 0 <= k < 2 && 0 <= l < 2
      ensures Lambda(eta0, eta1, u)(i, j, k, l) == Scale4(eta0, Identity4())(i, j, k, l)
    {
      assert u(i) == 0.0 && u(j) == 0.0 && u(k) == 0.0 && u(l) == 0.0;
      assert Correction(u, i, j, k, l) == 0.0;
    }
  }

  /** With the director along x in 2-D, normal entries keep η0 while the shear entry across the
      weak plane carries η1. */
  lemma WeakPlaneShear(eta0: real, eta1: real)
    ensures var t := Lambda(eta0, eta1, Director([1.0, 0.0]));
      t(0, 0, 0, 0) == eta0 && t(1, 1, 1, 1) == eta0 && t(0, 1, 0, 1) == eta1 / 2.0
  {
  }
}
