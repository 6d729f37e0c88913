/** Small tensors over the spatial index set {0, .., d-1}, d being 2 or 3. A tensor is held as
    the function from index tuples to its entries; only the entries with every index below d
    mean anything. Arrays a caller supplies (a Mandel matrix, a full rank-4 array, a gradient)
    are nested sequences instead, because their shape is part of what the model checks. */
module Tensors {

  /** The spatial dimension of a model. */
  type Dim = d: nat | d == 2 || d == 3 witness 2

  /** Entries of a rank-2 tensor (a matrix). */
  type Tensor2 = (int, int) -> real

  /** Entries of a rank-4 tensor. */
  type Tensor4 = (int, int, int, int) -> real

  /** A matrix as a caller supplies it: a sequence of rows. */
  type Array2 = seq<seq<real>>

  /** A rank-4 array as a caller supplies it. */
  type Array4 = seq<seq<seq<seq<real>>>>

  /** A constitutive tensor: a matrix for scalar unknowns, a rank-4 tensor for vector unknowns. */
  datatype Constitutive = Rank2(m: Tensor2) | Rank4(t: Tensor4)

  /** `m` has `rows` rows of `cols` entries each. */
  predicate IsArray2(m: Array2, rows: nat, cols: nat) {
    |m| == rows && forall i :: 0 <= i < rows ==> |m[i]| == cols
  }

  /** `t` has shape (d, d, d, d). */
  predicate IsArray4(t: Array4, d: nat) {
    && |t| == d
    && (forall i :: 0 <= i < d ==> |t[i]| == d)
    && (forall i, j :: 0 <= i < d && 0 <= j < d ==> |t[i][j]| == d)
    && (forall i, j, k :: 0 <= i < d && 0 <= j < d && 0 <= k < d ==> |t[i][j][k]| == d)
  }

  /** Entry (i, j) of an array, zero outside its shape. */
  function At2(m: Array2, i: int, j: int): real {
    if 0 <= i < |m| && 0 <= j < |m[i]| then m[i][j] else 0.0
  }

  /** Entry (i, j, k, l) of an array, zero outside its shape. */
  function At4(t: Array4, i: int, j: int, k: int, l: int): real {
    if 0 <= i < |t| && 0 <= j < |t[i]| && 0 <= k < |t[i][j]| && 0 <= l < |t[i][j][k]| then t[i][j][k][l] else 0.0
  }

  /** The tensor whose entries an array lists. */
  function OfArray2(m: Array2): Tensor2 {
    (i, j) => At2(m, i, j)
  }

  /** The tensor whose entries a rank-4 array lists. */
  function OfArray4(t: Array4): Tensor4 {
    (i, j, k, l) => At4(t, i, j, k, l)
  }

  /** Two matrices agree on rows 0..rows-1 and columns 0..cols-1. */
  ghost predicate Same2(a: Tensor2, b: Tensor2, rows: nat, cols: nat) {
    forall i, j :: 0 <= i < rows && 0 <= j < cols ==> a(i, j) == b(i, j)
  }

  /** Two rank-4 tensors agree on every index tuple below d. */
  ghost predicate Same4(a: Tensor4, b: Tensor4, d: nat) {
    forall i, j, k, l :: 0 <= i < d && 0 <= j < d && 0 <= k < d && 0 <= l < d ==> a(i, j, k, l) == b(i, j, k, l)
  }

  /** Kronecker delta. */
  function Delta(i: int, j: int): real {
    if i == j then 1.0 else 0.0
  }

  /** The identity matrix, eye(d). */
  function Identity2(): Tensor2 {
    (i, j) => Delta(i, j)
  }

  /** (δik δjl + δil δjk) / 2, case by case: 1 when all four indices agree, 1/2 when exactly
      one of the two products is 1, 0 otherwise. */
  function IdentityEntry(i: int, j: int, k: int, l: int): real {
    if i == k && j == l && i == l then 1.0
    else if (i == k && j == l) || (i == l && j == k) then 0.5
    else 0.0
  }

  /** The symmetrised rank-4 identity, 1/2 (δik δjl + δil δjk): the identity on symmetric
      gradients, accounting for the symmetry of flux and gradient. */
  function Identity4(): Tensor4 {
    (i, j, k, l) => IdentityEntry(i, j, k, l)
  }

  /** The case-by-case entry is the product formula. */
  lemma IdentityEntryProducts(i: int, j: int, k: int, l: int)
    ensures IdentityEntry(i, j, k, l) == (Delta(i, k) * Delta(j, l) + Delta(i, l) * Delta(j, k)) / 2.0
  {
  }

  /** Entrywise scaling of a matrix. */
  function Scale2(s: real, m: Tensor2): Tensor2 {
    (i, j) => s * m(i, j)
  }

  /** Entrywise scaling of a rank-4 tensor. */
  function Scale4(s: real, t: Tensor4): Tensor4 {
    (i, j, k, l) => s * t(i, j, k, l)
  }

  /** The entrywise linear combination a · f1 + b · f2. */
  function Combine2(a: real, f1: Tensor2, b: real, f2: Tensor2): Tensor2 {
    (i, j) => a * f1(i, j) + b * f2(i, j)
  }

  /** The symmetric part of a matrix. */
  function SymmetricPart(m: Tensor2): Tensor2 {
    (i, j) => (m(i, j) + m(j, i)) / 2.0
  }

  /** The transposed matrix. */
  function Transpose(m: Tensor2): Tensor2 {
    (i, j) => m(j, i)
  }

  /** Symmetric under the swap of the first index pair and under the swap of the second. */
  ghost predicate MinorSymmetric(t: Tensor4, d: nat) {
    forall i, j, k, l :: 0 <= i < d && 0 <= j < d && 0 <= k < d && 0 <= l < d ==>
      t(i, j, k, l) == t(j, i, k, l) && t(i, j, k, l) == t(i, j, l, k)
  }

  /** Symmetric under the exchange of the two index pairs. */
  ghost predicate MajorSymmetric(t: Tensor4, d: nat) {
    forall i, j, k, l :: 0 <= i < d && 0 <= j < d && 0 <= k < d && 0 <= l < d ==>
      t(i, j, k, l) == t(k, l, i, j)
  }

  /** A square matrix equal to its transpose on 0..n-1. */
  ghost predicate SymmetricMatrix(m: Tensor2, n: nat) {
    forall i, j :: 0 <= i < n && 0 <= j < n ==> m(i, j) == m(j, i)
  }

  /** The symmetrised identity has both minor symmetries and the major one, in any dimension. */
  lemma Identity4Symmetric(d: nat)
    ensures MinorSymmetric(Identity4(), d)
    ensures MajorSymmetric(Identity4(), d)
  {
  }
}
