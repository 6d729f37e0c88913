/** What the two flux contractions make of a transverse-isotropic tensor. The contraction the
    source performs sums the tensor over its first index pair, c[i][i][k][l], and for a unit
    director that trace does not depend on the weak-plane viscosity η1 at all; the textbook
    contraction does. */
module Anisotropy {
  import opened Results
  import opened Sums
  import opened Tensors
  import opened Fluxes
  import opened Rheology

  /** Simple shear at rate γ in the x-y plane: a symmetric 2 x 2 gradient. */
  function Shear(gamma: real): (g: Array2)
    ensures IsArray2(g, 2, 2) && g[0][1] == g[1][0] == gamma
  {
    [[0.0, gamma], [gamma, 0.0]]
  }

  /** The director along x: the weak plane is the y-z plane. */
  const AlongX: seq<real> := [1.0, 0.0]

  lemma AlongXEntries(eta0: real, eta1: real)
    ensures var t := Lambda(eta0, eta1, Director(AlongX));
      && t(0, 0, 0, 0) == eta0 && t(1, 1, 0, 0) == 0.0
      && t(0, 0, 0, 1) == 0.0 && t(1, 1, 0, 1) == 0.0
      && t(0, 1, 0, 1) == eta1 / 2.0 && t(0, 1, 1, 0) == eta1 / 2.0
      && t(0, 1, 0, 0) == 0.0 && t(0, 1, 1, 1) == 0.0
  {
  }

  /** The shear flux the source computes for the director along x: η0·γ, whatever η1 is. */
  lemma AsWrittenShearFlux(eta0: real, eta1: real, gamma: real)
    ensures Flux(Rank4(Lambda(eta0, eta1, Director(AlongX))), Shear(gamma), 2).Ok?
    ensures Flux(Rank4(Lambda(eta0, eta1, Director(AlongX))), Shear(gamma), 2).value(0, 1) == eta0 * gamma
  {
    var c, g := Lambda(eta0, eta1, Director(AlongX)), Shear(gamma);
    AlongXEntries(eta0, eta1);
    SumTwo(l => c(0, 0, 0, l) * At2(g, 1, l));
    SumTwo(l => c(1, 1, 0, l) * At2(g, 1, l));
    SumTwo(i => TraceTerm(c, g, 2, i, 0, 1));
  }

  /** The shear flux the textbook contraction gives for the same tensor: η1·γ, the weak-plane
      viscosity the model is built to express. */
  lemma TransverseShearFlux(eta0: real, eta1: real, gamma: real)
    ensures StandardFlux(Rank4(Lambda(eta0, eta1, Director(AlongX))), Shear(gamma), 2).Ok?
    ensures StandardFlux(Rank4(Lambda(eta0, eta1, Director(AlongX))), Shear(gamma), 2).value(0, 1) == eta1 * gamma
  {
    var c, g := Lambda(eta0, eta1, Director(AlongX)), Shear(gamma);
    AlongXEntries(eta0, eta1);
    SumTwo(l => c(0, 1, 0, l) * At2(g, 0, l));
    SumTwo(l => c(0, 1, 1, l) * At2(g, 1, l));
    SumTwo(k => PairTerm(c, g, 2, 0, 1, k));
  }

  /** The discrepancy on one input: η0 = 1, η1 = 0, unit shear. The source reports a shear flux of
      1 where the documented contraction gives 0. */
  lemma WeakPlaneLost()
    ensures Flux(Rank4(Lambda(1.0, 0.0, Director(AlongX))), Shear(1.0), 2).value(0, 1) == 1.0
    ensures StandardFlux(Rank4(Lambda(1.0, 0.0, Director(AlongX))), Shear(1.0), 2).value(0, 1) == 0.0
  {
    AsWrittenShearFlux(1.0, 0.0, 1.0);
    TransverseShearFlux(1.0, 0.0, 1.0);
  }

  // For every unit director the source's flux is η0·gᵀ.

  /** Σ_i n_i², the squared length of the first d components of the director. */
  function SquaredLength(u: int -> real, d: nat): real {
    Sum(d, i => Outer(u, i, i))
  }

  /** What the director contributes to the diagonal entry λ[i][i][k][l], per unit of η1 − η0:
      n_k n_l δ_il + n_k n_l δ_ik − 2 n_k n_l n_i². */
  function TracePiece(u: int -> real, k: int, l: int, i: int): real {
    var p := Outer(u, k, l);
    Spike(p, l, i) + Spike(p, k, i) + (-2.0 * p) * Outer(u, i, i)
  }

  /** v at index j, zero elsewhere. */
  function Spike(v: real, j: int, i: int): real {
    if i == j then v else 0.0
  }

  /** n_k n_l. */
  function Outer(u: int -> real, k: int, l: int): real {
    u(k) * u(l)
  }

  /** A diagonal entry λ[i][i][k][l] split into its isotropic part and its director part. */
  lemma LambdaDiagonalEntry(eta0: real, eta1: real, u: int -> real, i: int, k: int, l: int)
    ensures Lambda(eta0, eta1, u)(i, i, k, l)
         == eta0 * Spike(Delta(k, l), k, i) + (eta1 - eta0) * TracePiece(u, k, l, i)
  {
    var ni, nk, nl := u(i), u(k), u(l);
    assert Correction(u, i, i, k, l)
        == (ni * nk * Delta(i, l) + ni * nk * Delta(l, i) + ni * nl * Delta(i, k) + ni * nl * Delta(k, i)) / 2.0
           - 2.0 * ni * ni * nk * nl;
    assert 2.0 * ni * ni * nk * nl == 2.0 * (nk * nl) * (ni * ni);
  }

  /** LambdaDiagonalEntry for every i at once, with the director part named piece. */
  lemma LambdaDiagonal(eta0: real, eta1: real, u: int -> real, k: int, l: int, piece: int -> real)
    requires forall i :: piece(i) == TracePiece(u, k, l, i)
    ensures forall i :: Lambda(eta0, eta1, u)(i, i, k, l) == eta0 * Spike(Delta(k, l), k, i) + (eta1 - eta0) * piece(i)
  {
    forall i
      ensures Lambda(eta0, eta1, u)(i, i, k, l) == eta0 * Spike(Delta(k, l), k, i) + (eta1 - eta0) * piece(i)
    {
      LambdaDiagonalEntry(eta0, eta1, u, i, k, l);
    }
  }

  /** A summand made of two spikes of height p inside the range plus q·f sums to 2p + q·Σf. */
  lemma SpikedSum(d: nat, p: real, q: real, k: int, l: int, f: int -> real, h: int -> real)
    requires 0 <= k < d && 0 <= l < d
    requires forall i :: 0 <= i < d ==> h(i) == Spike(p, l, i) + Spike(p, k, i) + q * f(i)
    ensures Sum(d, h) == 2.0 * p + q * Sum(d, f)
  {
    var f2 := i => Spike(p, l, i);
    var f3 := i => Spike(p, k, i);
    var f23 := i => Spike(p, l, i) + Spike(p, k, i);
    forall i | 0 <= i < d
      ensures h(i) == 1.0 * f23(i) + q * f(i)
    {
    }
    SumLinear(d, 1.0, f23, q, f, h);
    SumLinear(d, 1.0, f2, 1.0, f3, f23);
    SumSingle(d, l, p, f2);
    SumSingle(d, k, p, f3);
  }

  /** A summand a·(v at k) + b·piece(i) sums to a·v + b·Σ piece. */
  lemma SpikePlusSum(d: nat, k: int, v: real, a: real, b: real, piece: int -> real, h: int -> real)
    requires 0 <= k < d
    requires forall i :: h(i) == a * Spike(v, k, i) + b * piece(i)
    ensures Sum(d, h) == a * v + b * Sum(d, piece)
  {
    var f1 := i => Spike(v, k, i);
    SumSingle(d, k, v, f1);
    SumLinear(d, a, f1, b, piece, h);
  }

  /** The shape of the trace of λ, with the director abstracted away: when each diagonal entry
      c[i][i][k][l] is a·(v at k) plus b·piece(i), where piece(i) = p·δil + p·δik − 2p·f(i) and
      Σf = 1, the director part sums to zero and only a·v survives. */
  lemma UnitTrace(c: Tensor4, d: nat, k: int, l: int, a: real, v: real, b: real, p: real,
                  f: int -> real, piece: int -> real)
    requires 0 <= k < d && 0 <= l < d
    requires Sum(d, f) == 1.0
    requires forall i :: piece(i) == Spike(p, l, i) + Spike(p, k, i) + (-2.0 * p) * f(i)
    requires forall i :: c(i, i, k, l) == a * Spike(v, k, i) + b * piece(i)
    ensures Sum(d, i => c(i, i, k, l)) == a * v
  {
    SpikedSum(d, p, -2.0 * p, k, l, f, piece);
    assert Sum(d, piece) == 0.0 by {
      assert (-2.0 * p) * Sum(d, f) == -2.0 * p;
    }
    SpikePlusSum(d, k, v, a, b, piece, i => c(i, i, k, l));
  }

  /** For a unit director the trace Σ_i λ[i][i][k][l] is η0·δkl. */
  lemma UnitDirectorTrace(eta0: real, eta1: real, u: int -> real, d: nat, k: int, l: int)
    requires SquaredLength(u, d) == 1.0 && 0 <= k < d && 0 <= l < d
    ensures Sum(d, i => Lambda(eta0, eta1, u)(i, i, k, l)) == eta0 * Delta(k, l)
  {
    var piece := i => TracePiece(u, k, l, i);
    LambdaDiagonal(eta0, eta1, u, k, l, piece);
    UnitTrace(Lambda(eta0, eta1, u), d, k, l, eta0, Delta(k, l), eta1 - eta0, Outer(u, k, l),
              i => Outer(u, i, i), piece);
  }

  /** Σ_i c[i][i][k][l] = a·δkl for every l below d. */
  ghost predicate TraceIsotropic(c: Tensor4, d: nat, k: int, a: real) {
    forall l :: 0 <= l < d ==> Sum(d, i => c(i, i, k, l)) == a * Delta(k, l)
  }

  /** UnitDirectorTrace for every l at once. */
  lemma UnitDirectorTraces(eta0: real, eta1: real, u: int -> real, d: nat, k: int)
    requires SquaredLength(u, d) == 1.0 && 0 <= k < d
    ensures TraceIsotropic(Lambda(eta0, eta1, u), d, k, eta0)
  {
    forall l | 0 <= l < d
      ensures Sum(d, i => Lambda(eta0, eta1, u)(i, i, k, l)) == eta0 * Delta(k, l)
    {
      UnitDirectorTrace(eta0, eta1, u, d, k, l);
    }
  }

  /** One entry of the source's contraction of λ, for a unit director. */
  lemma UnitDirectorEntry(eta0: real, eta1: real, u: int -> real, g: Array2, d: nat, k: int, m: int)
    requires SquaredLength(u, d) == 1.0 && 0 <= k < d
    ensures ContractionEntry(Lambda(eta0, eta1, u), g, d, k, m) == eta0 * At2(g, m, k)
  {
    UnitDirectorTraces(eta0, eta1, u, d, k);
    IsotropicTraceContraction(Lambda(eta0, eta1, u), g, d, k, m, eta0);
  }

  /** A tensor whose trace over the first index pair is a·δkl contracts, in the source's way, to
      a·gᵀ. */
  lemma IsotropicTraceContraction(c: Tensor4, g: Array2, d: nat, k: int, m: int, a: real)
    requires 0 <= k < d
    requires TraceIsotropic(c, d, k, a)
    ensures ContractionEntry(c, g, d, k, m) == a * At2(g, m, k)
  {
    var F := (i, l) => c(i, i, k, l) * At2(g, m, l);
    var v := a * At2(g, m, k);
    TraceRows(c, F, g, d, k, m);
    SumSwap(d, d, F);
    forall l | 0 <= l < d
      ensures ColumnSum(F, d, l) == Spike(v, k, l)
    {
      TraceColumn(c, F, g, d, k, m, l, a * Delta(k, l));
    }
    SumSingle(d, k, v, l => ColumnSum(F, d, l));
  }

  /** The source's contraction entry as a double sum of F(i, l) = c[i][i][k][l]·g[m][l], row by row. */
  lemma TraceRows(c: Tensor4, F: (int, int) -> real, g: Array2, d: nat, k: int, m: int)
    requires forall i, l :: F(i, l) == c(i, i, k, l) * At2(g, m, l)
    ensures ContractionEntry(c, g, d, k, m) == Sum(d, i => RowSum(F, d, i))
  {
    forall i | 0 <= i < d
      ensures TraceTerm(c, g, d, i, k, m) == RowSum(F, d, i)
    {
      SumCongruence(d, l => c(i, i, k, l) * At2(g, m, l), l => F(i, l));
    }
    SumCongruence(d, i => TraceTerm(c, g, d, i, k, m), i => RowSum(F, d, i));
  }

  /** Column l of that double sum is g[m][l] times the trace Σ_i c[i][i][k][l]. */
  lemma TraceColumn(c: Tensor4, F: (int, int) -> real, g: Array2, d: nat, k: int, m: int, l: int, t: real)
    requires forall i, l' :: F(i, l') == c(i, i, k, l') * At2(g, m, l')
    requires Sum(d, i => c(i, i, k, l)) == t
    ensures ColumnSum(F, d, l) == At2(g, m, l) * t
  {
    SumLinear(d, At2(g, m, l), i => c(i, i, k, l), 0.0, i => 0.0, i => F(i, l));
  }

  /** The source's contraction of λ for a unit director, entry by entry. */
  lemma UnitDirectorContraction(eta0: real, eta1: real, u: int -> real, g: Array2, d: nat)
    requires SquaredLength(u, d) == 1.0
    ensures Same2(Contraction(Lambda(eta0, eta1, u), g, d), Scale2(eta0, Transpose(OfArray2(g))), d, |g|)
  {
    forall k, m | 0 <= k < d && 0 <= m < |g|
      ensures Contraction(Lambda(eta0, eta1, u), g, d)(k, m) == Scale2(eta0, Transpose(OfArray2(g)))(k, m)
    {
      UnitDirectorEntry(eta0, eta1, u, g, d, k, m);
    }
  }

  /** For every director of unit length the source's flux of λ is η0·gᵀ: the weak-plane viscosity
      η1 and the director itself have no effect on it. */
  lemma UnitDirectorFlux(eta0: real, eta1: real, n: seq<real>, g: Array2, d: Dim)
    requires SquaredLength(Director(n), d) == 1.0 && IsGradient(g, d)
    ensures Flux(Rank4(Lambda(eta0, eta1, Director(n))), g, d).Ok?
    ensures Same2(Flux(Rank4(Lambda(eta0, eta1, Director(n))), g, d).value, Scale2(eta0, Transpose(OfArray2(g))), d, |g|)
  {
    UnitDirectorContraction(eta0, eta1, Director(n), g, d);
  }
}
