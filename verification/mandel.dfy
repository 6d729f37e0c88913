/** Mandel notation: a rank-4 tensor with both minor symmetries is packed into a square matrix
    indexed by unordered index pairs. Normal pairs (i, i) occupy the first d slots; every shear
    pair (i, j), i != j, occupies one further slot and is multiplied by the shear weight `w`
    once per shear slot of the entry. Mandel's convention takes w = √2, which has no exact real
    literal, so every law here is stated for an arbitrary positive weight and, where the value
    matters, for any w with w * w == 2. */
module Mandel {
  import opened Tensors

  /** The number of Mandel slots, idxmap[d]: three in 2-D and six in 3-D. */
  function MandelSize(d: Dim): (n: nat)
    ensures n == d * (d + 1) / 2
  {
    if d == 2 then 3 else 6
  }

  /** The first tensor index of Mandel slot I. */
  function PairFirst(d: Dim, I: int): (i: int)
    requires 0 <= I < MandelSize(d)
    ensures 0 <= i < d
  {
    if I < d then I
    else if d == 2 then 0
    else if I == 3 then 1
    else 0
  }

  /** The second tensor index of Mandel slot I. */
  function PairSecond(d: Dim, I: int): (j: int)
    requires 0 <= I < MandelSize(d)
    ensures 0 <= j < d
  {
    if I < d then I
    else if d == 2 then 1
    else if I == 5 then 1
    else 2
  }

  /** The Mandel slot of the unordered index pair {i, j}. */
  function Slot(d: Dim, i: int, j: int): (I: int)
    requires 0 <= i < d && 0 <= j < d
    ensures 0 <= I < MandelSize(d)
  {
    if i == j then i
    else if d == 2 then 2
    else 6 - i - j
  }

  /** How many of the slots I and J are shear slots: 0, 1 or 2. */
  function Shears(d: Dim, I: int, J: int): nat {
    (if I < d then 0 else 1) + (if J < d then 0 else 1)
  }

  /** The scaling carried by an entry of the Mandel matrix: the shear weight once per shear slot. */
  function Scaling(w: real, n: nat): (p: real)
    ensures w > 0.0 ==> p > 0.0
  {
    if n == 0 then 1.0 else w * Scaling(w, n - 1)
  }

  /** Slot and pair table are mutually inverse, up to the order within a pair. */
  lemma SlotOfPair(d: Dim, I: int)
    requires 0 <= I < MandelSize(d)
    ensures Slot(d, PairFirst(d, I), PairSecond(d, I)) == I
    ensures PairFirst(d, I) == PairSecond(d, I) <==> I < d
  {
  }

  /** The pair stored in the slot of {i, j} is (i, j) or (j, i). */
  lemma PairOfSlot(d: Dim, i: int, j: int)
    requires 0 <= i < d && 0 <= j < d
    ensures var I := Slot(d, i, j);
      (PairFirst(d, I) == i && PairSecond(d, I) == j) || (PairFirst(d, I) == j && PairSecond(d, I) == i)
    ensures Slot(d, i, j) == Slot(d, j, i)
    ensures Slot(d, i, j) < d <==> i == j
  {
  }

  /** Entry (I, J) of the compressed form of `t`; zero outside the Mandel matrix. */
  function CompressEntry(t: Tensor4, d: Dim, w: real, I: int, J: int): real {
    if 0 <= I < MandelSize(d) && 0 <= J < MandelSize(d) then
      t(PairFirst(d, I), PairSecond(d, I), PairFirst(d, J), PairSecond(d, J)) * Scaling(w, Shears(d, I, J))
    else 0.0
  }

  /** Entry (i, j, k, l) of the expanded form of `m`; zero outside the index set. */
  function ExpandEntry(m: Tensor2, d: Dim, w: real, i: int, j: int, k: int, l: int): real
    requires w > 0.0
  {
    if 0 <= i < d && 0 <= j < d && 0 <= k < d && 0 <= l < d then
      m(Slot(d, i, j), Slot(d, k, l)) / Scaling(w, Shears(d, Slot(d, i, j), Slot(d, k, l)))
    else 0.0
  }

  /** Compression of a rank-4 tensor into its Mandel matrix (rank4_to_mandel). */
  function ToMandel(t: Tensor4, d: Dim, w: real): Tensor2 {
    (I, J) => CompressEntry(t, d, w, I, J)
  }

  /** Expansion of a Mandel matrix into a rank-4 tensor (mandel_to_rank4). */
  function FromMandel(m: Tensor2, d: Dim, w: real): Tensor4
    requires w > 0.0
  {
    (i, j, k, l) => ExpandEntry(m, d, w, i, j, k, l)
  }

  /** Scaling an entry and unscaling it again cancel, in either order. */
  lemma Cancel(x: real, p: real)
    requires p > 0.0
    ensures x * p / p == x
    ensures x / p * p == x
  {
  }

  lemma RoundTripEntry(t: Tensor4, d: Dim, w: real, i: int, j: int, k: int, l: int)
    requires MinorSymmetric(t, d) && w > 0.0
    requires 0 <= i < d && 0 <= j < d && 0 <= k < d && 0 <= l < d
    ensures FromMandel(ToMandel(t, d, w), d, w)(i, j, k, l) == t(i, j, k, l)
  {
    var I, J := Slot(d, i, j), Slot(d, k, l);
    PairOfSlot(d, i, j);
    PairOfSlot(d, k, l);
    var x := t(PairFirst(d, I), PairSecond(d, I), PairFirst(d, J), PairSecond(d, J));
    var p := Scaling(w, Shears(d, I, J));
    assert x == t(i, j, k, l);
    assert CompressEntry(t, d, w, I, J) == x * p;
    Cancel(x, p);
  }

  /** Expanding the compressed form of a minor-symmetric tensor gives the tensor back. */
  lemma MandelRoundTrip(t: Tensor4, d: Dim, w: real)
    requires MinorSymmetric(t, d)
    requires w > 0.0
    ensures Same4(FromMandel(ToMandel(t, d, w), d, w), t, d)
  {
    forall i, j, k, l | 0 <= i < d && 0 <= j < d && 0 <= k < d && 0 <= l < d
      ensures FromMandel(ToMandel(t, d, w), d, w)(i, j, k, l) == t(i, j, k, l)
    {
      RoundTripEntry(t, d, w, i, j, k, l);
    }
  }

  /** Compressing an expanded matrix gives the matrix back: every Mandel matrix of the right
      size is the image of some tensor. */
  lemma MandelInverse(m: Tensor2, d: Dim, w: real)
    requires w > 0.0
    ensures Same2(ToMandel(FromMandel(m, d, w), d, w), m, MandelSize(d), MandelSize(d))
  {
    var n := MandelSize(d);
    var t := FromMandel(m, d, w);
    forall I, J | 0 <= I < n && 0 <= J < n
      ensures ToMandel(t, d, w)(I, J) == m(I, J)
    {
      SlotOfPair(d, I);
      SlotOfPair(d, J);
      var p := Scaling(w, Shears(d, I, J));
      assert t(PairFirst(d, I), PairSecond(d, I), PairFirst(d, J), PairSecond(d, J)) == m(I, J) / p;
      Cancel(m(I, J), p);
    }
  }

  /** Every expanded matrix has the minor symmetries Mandel notation presumes. */
  lemma FromMandelMinorSymmetric(m: Tensor2, d: Dim, w: real)
    requires w > 0.0
    ensures MinorSymmetric(FromMandel(m, d, w), d)
  {
    forall i, j, k, l | 0 <= i < d && 0 <= j < d && 0 <= k < d && 0 <= l < d
      ensures Slot(d, i, j) == Slot(d, j, i) && Slot(d, k, l) == Slot(d, l, k)
    {
      PairOfSlot(d, i, j);
      PairOfSlot(d, k, l);
    }
  }

  lemma ExpandTransposed(m: Tensor2, d: Dim, w: real, i: int, j: int, k: int, l: int)
    requires w > 0.0 && SymmetricMatrix(m, MandelSize(d))
    requires 0 <= i < d && 0 <= j < d && 0 <= k < d && 0 <= l < d
    ensures FromMandel(m, d, w)(i, j, k, l) == FromMandel(m, d, w)(k, l, i, j)
  {
    var I, J := Slot(d, i, j), Slot(d, k, l);
    assert m(I, J) == m(J, I);
    assert Shears(d, I, J) == Shears(d, J, I);
  }

  lemma CompressTransposed(t: Tensor4, d: Dim, w: real, I: int, J: int)
    requires MajorSymmetric(t, d)
    requires 0 <= I < MandelSize(d) && 0 <= J < MandelSize(d)
    ensures ToMandel(t, d, w)(I, J) == ToMandel(t, d, w)(J, I)
  {
    var x := t(PairFirst(d, I), PairSecond(d, I), PairFirst(d, J), PairSecond(d, J));
    assert x == t(PairFirst(d, J), PairSecond(d, J), PairFirst(d, I), PairSecond(d, I));
    assert Shears(d, I, J) == Shears(d, J, I);
  }

  /** The expanded tensor has the major symmetry exactly when the Mandel matrix is symmetric. */
  lemma FromMandelMajorSymmetric(m: Tensor2, d: Dim, w: real)
    requires w > 0.0
    ensures MajorSymmetric(FromMandel(m, d, w), d) <==> SymmetricMatrix(m, MandelSize(d))
  {
    var n := MandelSize(d);
    var t := FromMandel(m, d, w);
    if SymmetricMatrix(m, n) {
      forall i, j, k, l | 0 <= i < d && 0 <= j < d && 0 <= k < d && 0 <= l < d
        ensures t(i, j, k, l) == t(k, l, i, j)
      {
        ExpandTransposed(m, d, w, i, j, k, l);
      }
    }
    if MajorSymmetric(t, d) {
      MandelInverse(m, d, w);
      forall I, J | 0 <= I < n && 0 <= J < n
        ensures m(I, J) == m(J, I)
      {
        CompressTransposed(t, d, w, I, J);
      }
    }
  }

  /** Compression commutes with scaling. */
  lemma ToMandelScale(s: real, t: Tensor4, d: Dim, w: real)
    ensures Same2(ToMandel(Scale4(s, t), d, w), Scale2(s, ToMandel(t, d, w)), MandelSize(d), MandelSize(d))
  {
    forall I, J | 0 <= I < MandelSize(d) && 0 <= J < MandelSize(d)
      ensures ToMandel(Scale4(s, t), d, w)(I, J) == Scale2(s, ToMandel(t, d, w))(I, J)
    {
      var x := t(PairFirst(d, I), PairSecond(d, I), PairFirst(d, J), PairSecond(d, J));
      var p := Scaling(w, Shears(d, I, J));
      assert CompressEntry(Scale4(s, t), d, w, I, J) == (s * x) * p;
      assert CompressEntry(t, d, w, I, J) == x * p;
      assert (s * x) * p == s * (x * p);
    }
  }

  lemma IdentityCompressEntry(d: Dim, w: real, I: int, J: int)
    requires w > 0.0 && w * w == 2.0
    requires 0 <= I < MandelSize(d) && 0 <= J < MandelSize(d)
    ensures ToMandel(Identity4(), d, w)(I, J) == Delta(I, J)
  {
    SlotOfPair(d, I);
    SlotOfPair(d, J);
    if I == J && I >= d {
      assert Shears(d, I, J) == 2;
      assert Scaling(w, 1) == w;
    } else if I == J {
      assert Shears(d, I, J) == 0;
    }
  }

  /** With Mandel's weight (w * w == 2) the symmetrised rank-4 identity compresses to the
      identity matrix of size idxmap[d]. */
  lemma MandelOfIdentity(d: Dim, w: real)
    requires w > 0.0 && w * w == 2.0
    ensures Same2(ToMandel(Identity4(), d, w), Identity2(), MandelSize(d), MandelSize(d))
  {
    forall I, J | 0 <= I < MandelSize(d) && 0 <= J < MandelSize(d)
      ensures ToMandel(Identity4(), d, w)(I, J) == Delta(I, J)
    {
      IdentityCompressEntry(d, w, I, J);
    }
  }
}
