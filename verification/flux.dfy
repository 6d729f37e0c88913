/** The flux a constitutive tensor produces from the gradient of the unknowns
    (Constitutive_Model.flux), and, for comparison, the textbook contraction
    t_ij = c_ijkl ∂u_k/∂x_l that the base class documents. */
module Fluxes {
  import opened Results
  import opened Sums
  import opened Tensors

  datatype FluxError = ShapeMismatch

  /** A gradient: one row per unknown component, one column per spatial direction. */
  predicate IsGradient(g: Array2, d: nat) {
    IsArray2(g, |g|, d)
  }

  /** Σ_j c[i][j] · g[m][j], entry (i, m) of the matrix product c · gᵀ. */
  function ProductEntry(c: Tensor2, g: Array2, d: nat, i: int, m: int): real {
    Sum(d, j => c(i, j) * At2(g, m, j))
  }

  /** Σ_l c[i][i][k][l] · g[m][l]: what one diagonal pair (i, i) of the tensor contributes. */
  function TraceTerm(c: Tensor4, g: Array2, d: nat, i: int, k: int, m: int): real {
    Sum(d, l => c(i, i, k, l) * At2(g, m, l))
  }

  /** Σ_i Σ_l c[i][i][k][l] · g[m][l]: the tensor product of c and g contracted over the
      tensor's last index and the gradient's column (axes 3 and 5), then over the tensor's first
      two indices (axes 0 and 1). */
  function ContractionEntry(c: Tensor4, g: Array2, d: nat, k: int, m: int): real {
    Sum(d, i => TraceTerm(c, g, d, i, k, m))
  }

  /** c · gᵀ for a rank-2 tensor: a d x |g| matrix. */
  function Product(c: Tensor2, g: Array2, d: nat): Tensor2 {
    (i, m) => ProductEntry(c, g, d, i, m)
  }

  /** The double contraction of a rank-4 tensor with a gradient, in the source's axis order:
      a d x |g| matrix. */
  function Contraction(c: Tensor4, g: Array2, d: nat): Tensor2 {
    (k, m) => ContractionEntry(c, g, d, k, m)
  }

  /** The flux of gradient g, a d x |g| matrix, or a shape error when the gradient does not have
      one column per spatial direction (the matrix product and the contraction both need it). */
  function Flux(c: Constitutive, g: Array2, d: Dim): (r: Result<Tensor2, FluxError>)
    ensures r.Ok? <==> IsGradient(g, d)
  {
    if !IsGradient(g, d) then Err(ShapeMismatch)
    else
      match c
      case Rank2(m) => Ok(Product(m, g, d))
      case Rank4(t) => Ok(Contraction(t, g, d))
  }

  /** h is the gradient a · g1 + b · g2. */
  ghost predicate IsCombination(h: Array2, a: real, g1: Array2, b: real, g2: Array2, d: nat) {
    && IsGradient(h, d) && IsGradient(g1, d) && IsGradient(g2, d)
    && |g1| == |h| && |g2| == |h|
    && forall m, j :: 0 <= m < |h| && 0 <= j < d ==> h[m][j] == a * g1[m][j] + b * g2[m][j]
  }

  /** One entry of a combination of gradients. */
  lemma CombinationEntry(h: Array2, a: real, g1: Array2, b: real, g2: Array2, d: nat, m: int, j: int)
    requires IsCombination(h, a, g1, b, g2, d) && 0 <= m < |h| && 0 <= j < d
    ensures At2(h, m, j) == a * At2(g1, m, j) + b * At2(g2, m, j)
  {
  }

  lemma Distribute(c: real, a: real, x: real, b: real, y: real)
    ensures c * (a * x + b * y) == a * (c * x) + b * (c * y)
  {
  }

  lemma ProductEntryLinear(c: Tensor2, h: Array2, a: real, g1: Array2, b: real, g2: Array2, d: nat, i: int, m: int)
    requires IsCombination(h, a, g1, b, g2, d) && 0 <= m < |h|
    ensures ProductEntry(c, h, d, i, m) == a * ProductEntry(c, g1, d, i, m) + b * ProductEntry(c, g2, d, i, m)
  {
    forall j | 0 <= j < d
      ensures c(i, j) * At2(h, m, j) == a * (c(i, j) * At2(g1, m, j)) + b * (c(i, j) * At2(g2, m, j))
    {
      CombinationEntry(h, a, g1, b, g2, d, m, j);
      Distribute(c(i, j), a, At2(g1, m, j), b, At2(g2, m, j));
    }
    SumLinear(d, a, j => c(i, j) * At2(g1, m, j), b, j => c(i, j) * At2(g2, m, j), j => c(i, j) * At2(h, m, j));
  }

  lemma TraceTermLinear(c: Tensor4, h: Array2, a: real, g1: Array2, b: real, g2: Array2, d: nat, i: int, k: int, m: int)
    requires IsCombination(h, a, g1, b, g2, d) && 0 <= m < |h|
    ensures TraceTerm(c, h, d, i, k, m) == a * TraceTerm(c, g1, d, i, k, m) + b * TraceTerm(c, g2, d, i, k, m)
  {
    forall l | 0 <= l < d
      ensures c(i, i, k, l) * At2(h, m, l) == a * (c(i, i, k, l) * At2(g1, m, l)) + b * (c(i, i, k, l) * At2(g2, m, l))
    {
      CombinationEntry(h, a, g1, b, g2, d, m, l);
      Distribute(c(i, i, k, l), a, At2(g1, m, l), b, At2(g2, m, l));
    }
    SumLinear(d, a, l => c(i, i, k, l) * At2(g1, m, l), b, l => c(i, i, k, l) * At2(g2, m, l),
              l => c(i, i, k, l) * At2(h, m, l));
  }

  lemma ContractionEntryLinear(c: Tensor4, h: Array2, a: real, g1: Array2, b: real, g2: Array2, d: nat, k: int, m: int)
    requires IsCombination(h, a, g1, b, g2, d) && 0 <= m < |h|
    ensures ContractionEntry(c, h, d, k, m) == a * ContractionEntry(c, g1, d, k, m) + b * ContractionEntry(c, g2, d, k, m)
  {
    forall i | 0 <= i < d
      ensures TraceTerm(c, h, d, i, k, m) == a * TraceTerm(c, g1, d, i, k, m) + b * TraceTerm(c, g2, d, i, k, m)
    {
      TraceTermLinear(c, h, a, g1, b, g2, d, i, k, m);
    }
    SumLinear(d, a, i => TraceTerm(c, g1, d, i, k, m), b, i => TraceTerm(c, g2, d, i, k, m),
              i => TraceTerm(c, h, d, i, k, m));
  }

  lemma ProductLinear(c: Tensor2, h: Array2, a: real, g1: Array2, b: real, g2: Array2, d: nat)
    requires IsCombination(h, a, g1, b, g2, d)
    ensures Same2(Product(c, h, d), Combine2(a, Product(c, g1, d), b, Product(c, g2, d)), d, |h|)
  {
    forall i, m | 0 <= i < d && 0 <= m < |h|
      ensures ProductEntry(c, h, d, i, m) == a * ProductEntry(c, g1, d, i, m) + b * ProductEntry(c, g2, d, i, m)
    {
      ProductEntryLinear(c, h, a, g1, b, g2, d, i, m);
    }
  }

  lemma ContractionLinear(c: Tensor4, h: Array2, a: real, g1: Array2, b: real, g2: Array2, d: nat)
    requires IsCombination(h, a, g1, b, g2, d)
    ensures Same2(Contraction(c, h, d), Combine2(a, Contraction(c, g1, d), b, Contraction(c, g2, d)), d, |h|)
  {
    forall k, m | 0 <= k < d && 0 <= m < |h|
      ensures ContractionEntry(c, h, d, k, m) == a * ContractionEntry(c, g1, d, k, m) + b * ContractionEntry(c, g2, d, k, m)
    {
      ContractionEntryLinear(c, h, a, g1, b, g2, d, k, m);
    }
  }

  /** The flux is linear in the gradient, for either rank of tensor. */
  lemma FluxLinear(c: Constitutive, h: Array2, a: real, g1: Array2, b: real, g2: Array2, d: Dim)
    requires IsCombination(h, a, g1, b, g2, d)
    ensures Flux(c, h, d).Ok? && Flux(c, g1, d).Ok? && Flux(c, g2, d).Ok?
    ensures Same2(Flux(c, h, d).value, Combine2(a, Flux(c, g1, d).value, b, Flux(c, g2, d).value), d, |h|)
  {
    match c
    case Rank2(cm) => ProductLinear(cm, h, a, g1, b, g2, d);
    case Rank4(ct) => ContractionLinear(ct, h, a, g1, b, g2, d);
  }

  lemma IdentityTraceTerm(s: real, g: Array2, d: nat, i: int, k: int, m: int)
    requires 0 <= i < d && 0 <= k < d
    ensures TraceTerm(Scale4(s, Identity4()), g, d, i, k, m) == (if i == k then s * At2(g, m, k) else 0.0)
  {
    var c := Scale4(s, Identity4());
    var v := if i == k then s * At2(g, m, k) else 0.0;
    forall l | 0 <= l < d
      ensures c(i, i, k, l) * At2(g, m, l) == (if l == i then v else 0.0)
    {
    }
    SumSingle(d, i, v, l => c(i, i, k, l) * At2(g, m, l));
  }

  lemma IdentityContractionEntry(s: real, g: Array2, d: nat, k: int, m: int)
    requires 0 <= k < d
    ensures ContractionEntry(Scale4(s, Identity4()), g, d, k, m) == s * At2(g, m, k)
  {
    var c := Scale4(s, Identity4());
    forall i | 0 <= i < d
      ensures TraceTerm(c, g, d, i, k, m) == (if i == k then s * At2(g, m, k) else 0.0)
    {
      IdentityTraceTerm(s, g, d, i, k, m);
    }
    SumSingle(d, k, s * At2(g, m, k), i => TraceTerm(c, g, d, i, k, m));
  }

  /** For c = s·I4 the source's contraction yields s times the transposed gradient. */
  lemma ContractionOfScaledIdentity(s: real, g: Array2, d: nat)
    ensures Same2(Contraction(Scale4(s, Identity4()), g, d), Scale2(s, Transpose(OfArray2(g))), d, |g|)
  {
    forall k, m | 0 <= k < d && 0 <= m < |g|
      ensures Contraction(Scale4(s, Identity4()), g, d)(k, m) == Scale2(s, Transpose(OfArray2(g)))(k, m)
    {
      IdentityContractionEntry(s, g, d, k, m);
    }
  }

  /** For c = s·eye(d) the matrix product yields s times the transposed gradient. */
  lemma ProductOfScaledIdentity(s: real, g: Array2, d: nat)
    ensures Same2(Product(Scale2(s, Identity2()), g, d), Scale2(s, Transpose(OfArray2(g))), d, |g|)
  {
    var c := Scale2(s, Identity2());
    forall i, m | 0 <= i < d && 0 <= m < |g|
      ensures Product(c, g, d)(i, m) == Scale2(s, Transpose(OfArray2(g)))(i, m)
    {
      SumSingle(d, i, s * At2(g, m, i), j => c(i, j) * At2(g, m, j));
    }
  }

  /** The flux of an isotropic tensor s·I4 is s·gᵀ, as is the flux of the rank-2 s·eye(d): a
      scalar model whose tensor was rebuilt as the rank-4 k·I4 produces the same flux as the
      rank-2 tensor of the same k. */
  lemma IsotropicFlux(s: real, g: Array2, d: Dim)
    requires IsGradient(g, d)
    ensures Flux(Rank4(Scale4(s, Identity4())), g, d).Ok? && Flux(Rank2(Scale2(s, Identity2())), g, d).Ok?
    ensures Same2(Flux(Rank4(Scale4(s, Identity4())), g, d).value, Scale2(s, Transpose(OfArray2(g))), d, |g|)
    ensures Same2(Flux(Rank2(Scale2(s, Identity2())), g, d).value, Scale2(s, Transpose(OfArray2(g))), d, |g|)
  {
    ContractionOfScaledIdentity(s, g, d);
    ProductOfScaledIdentity(s, g, d);
  }

  /** The contraction reads only the entries c[i][i][k][l]: two tensors that agree there have the
      same flux for every gradient. */
  lemma ContractionReadsTraceOnly(c1: Tensor4, c2: Tensor4, g: Array2, d: nat)
    requires forall i, k, l :: 0 <= i < d && 0 <= k < d && 0 <= l < d ==> c1(i, i, k, l) == c2(i, i, k, l)
    ensures forall k, m :: 0 <= k < d ==> Contraction(c1, g, d)(k, m) == Contraction(c2, g, d)(k, m)
  {
    forall k, m | 0 <= k < d
      ensures ContractionEntry(c1, g, d, k, m) == ContractionEntry(c2, g, d, k, m)
    {
      forall i | 0 <= i < d
        ensures TraceTerm(c1, g, d, i, k, m) == TraceTerm(c2, g, d, i, k, m)
      {
        SumCongruence(d, l => c1(i, i, k, l) * At2(g, m, l), l => c2(i, i, k, l) * At2(g, m, l));
      }
      SumCongruence(d, i => TraceTerm(c1, g, d, i, k, m), i => TraceTerm(c2, g, d, i, k, m));
    }
  }

  // The textbook flux t_ij = c_ijkl ∂u_k/∂x_l.

  /** Σ_l c[i][j][k][l] · g[k][l]. */
  function PairTerm(c: Tensor4, g: Array2, d: nat, i: int, j: int, k: int): real {
    Sum(d, l => c(i, j, k, l) * At2(g, k, l))
  }

  /** Σ_k Σ_l c[i][j][k][l] · g[k][l]. */
  function StandardEntry(c: Tensor4, g: Array2, d: nat, i: int, j: int): real {
    Sum(d, k => PairTerm(c, g, d, i, j, k))
  }

  /** The contraction of the tensor's last index pair with the gradient's two indices. */
  function StandardContraction(c: Tensor4, g: Array2, d: nat): Tensor2 {
    (i, j) => StandardEntry(c, g, d, i, j)
  }

  /** The flux as the base class documents it: c · gᵀ for a rank-2 tensor and the textbook
      contraction for a rank-4 one, whose gradient must then be square. */
  function StandardFlux(c: Constitutive, g: Array2, d: Dim): (r: Result<Tensor2, FluxError>)
    ensures r.Ok? <==> IsGradient(g, d) && (c.Rank4? ==> |g| == d)
  {
    if !IsGradient(g, d) then Err(ShapeMismatch)
    else
      match c
      case Rank2(m) => Ok(Product(m, g, d))
      case Rank4(t) => if |g| == d then Ok(StandardContraction(t, g, d)) else Err(ShapeMismatch)
  }

  /** One summand of the textbook contraction against I4. */
  lemma IdentitySummand(x: real, i: int, j: int, k: int, l: int)
    ensures Identity4()(i, j, k, l) * x
         == 0.5 * (if l == j && k == i then x else 0.0) + 0.5 * (if l == i && k == j then x else 0.0)
  {
  }

  lemma IdentityPairTerm(g: Array2, d: nat, i: int, j: int, k: int)
    requires 0 <= i < d && 0 <= j < d && 0 <= k < d
    ensures PairTerm(Identity4(), g, d, i, j, k)
         == 0.5 * (if k == i then At2(g, k, j) else 0.0) + 0.5 * (if k == j then At2(g, k, i) else 0.0)
  {
    var f := l => Identity4()(i, j, k, l) * At2(g, k, l);
    var at, v := if k == i then j else if k == j then i else -1,
                 if k == i && k == j then At2(g, k, i) else if k == i then 0.5 * At2(g, k, j)
                 else if k == j then 0.5 * At2(g, k, i) else 0.0;
    forall l | 0 <= l < d
      ensures f(l) == (if l == at then v else 0.0)
    {
      IdentitySummand(At2(g, k, l), i, j, k, l);
    }
    SumSingle(d, at, v, f);
  }

  lemma IdentityStandardEntry(g: Array2, d: nat, i: int, j: int)
    requires 0 <= i < d && 0 <= j < d
    ensures StandardEntry(Identity4(), g, d, i, j) == (At2(g, i, j) + At2(g, j, i)) / 2.0
  {
    var fi := k => if k == i then At2(g, k, j) else 0.0;
    var fj := k => if k == j then At2(g, k, i) else 0.0;
    forall k | 0 <= k < d
      ensures PairTerm(Identity4(), g, d, i, j, k) == 0.5 * fi(k) + 0.5 * fj(k)
    {
      IdentityPairTerm(g, d, i, j, k);
    }
    SumLinear(d, 0.5, fi, 0.5, fj, k => PairTerm(Identity4(), g, d, i, j, k));
    SumSingle(d, i, At2(g, i, j), fi);
    SumSingle(d, j, At2(g, j, i), fj);
  }

  lemma PairTermScale(s: real, c: Tensor4, g: Array2, d: nat, i: int, j: int, k: int)
    ensures PairTerm(Scale4(s, c), g, d, i, j, k) == s * PairTerm(c, g, d, i, j, k)
  {
    forall l | 0 <= l < d
      ensures Scale4(s, c)(i, j, k, l) * At2(g, k, l) == s * (c(i, j, k, l) * At2(g, k, l)) + 0.0 * 0.0
    {
    }
    SumLinear(d, s, l => c(i, j, k, l) * At2(g, k, l), 0.0, l => 0.0, l => Scale4(s, c)(i, j, k, l) * At2(g, k, l));
  }

  lemma StandardEntryScale(s: real, c: Tensor4, g: Array2, d: nat, i: int, j: int)
    ensures StandardEntry(Scale4(s, c), g, d, i, j) == s * StandardEntry(c, g, d, i, j)
  {
    forall k | 0 <= k < d
      ensures PairTerm(Scale4(s, c), g, d, i, j, k) == s * PairTerm(c, g, d, i, j, k) + 0.0 * 0.0
    {
      PairTermScale(s, c, g, d, i, j, k);
    }
    SumLinear(d, s, k => PairTerm(c, g, d, i, j, k), 0.0, k => 0.0, k => PairTerm(Scale4(s, c), g, d, i, j, k));
  }

  lemma ScaledIdentityStandardEntry(s: real, g: Array2, d: nat, i: int, j: int)
    requires 0 <= i < d && 0 <= j < d
    ensures StandardContraction(Scale4(s, Identity4()), g, d)(i, j) == Scale2(s, SymmetricPart(OfArray2(g)))(i, j)
  {
    IdentityStandardEntry(g, d, i, j);
    StandardEntryScale(s, Identity4(), g, d, i, j);
  }

  /** For c = s·I4 the textbook flux is s times the symmetric part of the gradient. */
  lemma StandardContractionOfScaledIdentity(s: real, g: Array2, d: nat)
    ensures Same2(StandardContraction(Scale4(s, Identity4()), g, d), Scale2(s, SymmetricPart(OfArray2(g))), d, d)
  {
    forall i, j | 0 <= i < d && 0 <= j < d
      ensures StandardContraction(Scale4(s, Identity4()), g, d)(i, j) == Scale2(s, SymmetricPart(OfArray2(g)))(i, j)
    {
      ScaledIdentityStandardEntry(s, g, d, i, j);
    }
  }

  /** On a square gradient both contractions accept s·I4: the source's gives s·gᵀ, the textbook
      one s times the symmetric part of g. */
  lemma ScaledIdentityFluxes(s: real, g: Array2, d: Dim)
    requires IsArray2(g, d, d)
    ensures Flux(Rank4(Scale4(s, Identity4())), g, d).Ok? && StandardFlux(Rank4(Scale4(s, Identity4())), g, d).Ok?
    ensures Same2(Flux(Rank4(Scale4(s, Identity4())), g, d).value, Scale2(s, Transpose(OfArray2(g))), d, d)
    ensures Same2(StandardFlux(Rank4(Scale4(s, Identity4())), g, d).value, Scale2(s, SymmetricPart(OfArray2(g))), d, d)
  {
    IsotropicFlux(s, g, d);
    StandardContractionOfScaledIdentity(s, g, d);
  }

  /** On an isotropic tensor and a symmetric gradient the source's contraction and the textbook
      one agree, which is why the two are easily taken for one another. */
  lemma IsotropicFluxesAgree(s: real, g: Array2, d: Dim)
    requires IsArray2(g, d, d)
    requires forall i, j :: 0 <= i < d && 0 <= j < d ==> g[i][j] == g[j][i]
    ensures Flux(Rank4(Scale4(s, Identity4())), g, d).Ok? && StandardFlux(Rank4(Scale4(s, Identity4())), g, d).Ok?
    ensures Same2(Flux(Rank4(Scale4(s, Identity4())), g, d).value,
                  StandardFlux(Rank4(Scale4(s, Identity4())), g, d).value, d, d)
  {
    var c := Scale4(s, Identity4());
    forall i, j | 0 <= i < d && 0 <= j < d
      ensures Contraction(c, g, d)(i, j) == StandardContraction(c, g, d)(i, j)
    {
      IsotropicEntriesAgree(s, g, d, i, j);
    }
  }

  lemma IsotropicEntriesAgree(s: real, g: Array2, d: nat, i: int, j: int)
    requires 0 <= i < d && 0 <= j < d
    requires At2(g, i, j) == At2(g, j, i)
    ensures Contraction(Scale4(s, Identity4()), g, d)(i, j) == StandardContraction(Scale4(s, Identity4()), g, d)(i, j)
  {
    IdentityContractionEntry(s, g, d, i, j);
    IdentityStandardEntry(g, d, i, j);
    StandardEntryScale(s, Identity4(), g, d, i, j);
  }
}
