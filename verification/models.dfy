/** The change-propagation layer of the constitutive models: a model object holds its
    parameters, its tensor `c` and at most one bound solver; every parameter setter stores its
    value and calls `_reset`, which rebuilds `c` and clears the bound solver's `is_setup` flag.
    The mutable Python objects are modelled as a value, `System`, that each operation maps to
    its successor. */
module Models {
  import opened Results
  import opened Tensors
  import opened Mandel
  import opened Fluxes
  import opened Rheology

  /** The shear weight of the Mandel form (√2 in the usual convention). */
  type Weight = w: real | w > 0.0 witness 1.0

  /** The model classes. A plain base model is built with any number of unknowns per point. */
  datatype Kind =
    | BaseModel(uDim: int)
    | ViscousModel
    | ViscoPlasticModel
    | DiffusionModel
    | TransverseIsotropicModel

  /** Solvers are told apart by identity. */
  type SolverId = nat

  /** One constitutive model object. */
  datatype Model = Model(kind: Kind, dim: Dim, params: Params, c: Constitutive, solver: Option<SolverId>)

  /** A model together with the `is_setup` flag of every solver object in existence and the
      record of every write `is_setup := False`, oldest first. */
  datatype System = System(model: Model, isSetup: map<SolverId, bool>, invalidations: seq<SolverId>)

  /** The number of unknowns per point: as given for a base model, one for diffusion, one per
      spatial direction for the flow models. */
  function UnknownsPerPoint(kind: Kind, dim: Dim): int {
    match kind
    case BaseModel(u) => u
    case DiffusionModel => 1
    case _ => dim
  }

  /** The parameter object each class starts with. */
  function DefaultParams(kind: Kind): Params {
    match kind
    case BaseModel(_) => DefaultBase
    case ViscousModel => DefaultViscous
    case ViscoPlasticModel => DefaultPlastic
    case DiffusionModel => DefaultDiffusion
    case TransverseIsotropicModel => DefaultTransverse
  }

  /** The class's parameter object is of the kind's own form. */
  predicate ParamsFit(kind: Kind, p: Params) {
    match kind
    case BaseModel(_) => p.BaseParams?
    case ViscousModel => p.ViscousParams?
    case ViscoPlasticModel => p.PlasticParams?
    case DiffusionModel => p.DiffusionParams?
    case TransverseIsotropicModel => p.TransverseParams?
  }

  /** The rank `c` can have: a flow model's tensor is rank 4 and a diffusion model's rank 2;
      a base model starts as eye(d) only with one unknown per point. */
  predicate RankFits(kind: Kind, c: Constitutive) {
    match kind
    case BaseModel(u) => u != 1 ==> c.Rank4?
    case DiffusionModel => c.Rank2?
    case _ => c.Rank4?
  }

  /** What every reachable system satisfies. */
  predicate WellFormed(s: System) {
    && ParamsFit(s.model.kind, s.model.params)
    && RankFits(s.model.kind, s.model.c)
    && (s.model.solver.Some? ==> s.model.solver.value in s.isSetup)
  }

  /** A freshly constructed model: default parameters and the template tensor, eye(d) for one
      unknown per point and I4 otherwise. Construction does not rebuild. */
  function New(kind: Kind, dim: Dim, isSetup: map<SolverId, bool>): (s: System)
    ensures WellFormed(s)
    ensures s.model.solver.None? && s.isSetup == isSetup && s.invalidations == []
    ensures s.model.c.Rank2? <==> UnknownsPerPoint(kind, dim) == 1
    ensures forall i, j, k, l :: s.model.c.Rank4? ==> s.model.c.t(i, j, k, l) == IdentityEntry(i, j, k, l)
    ensures forall i, j :: s.model.c.Rank2? ==> s.model.c.m(i, j) == Delta(i, j)
  {
    var c := if UnknownsPerPoint(kind, dim) == 1 then Rank2(Identity2()) else Rank4(Identity4());
    System(Model(kind, dim, DefaultParams(kind), c, None), isSetup, [])
  }

  /** `_build_c_tensor` of the class whose parameters these are. The base class uses k·I4 even
      for a scalar problem. */
  function Rebuild(p: Params, dim: Dim, w: Weight): (r: Result<Constitutive, BuildError>)
    ensures p.BaseParams? ==> r == Ok(Rank4(Scale4(p.k, Identity4())))
    ensures p.DiffusionParams? ==> r.Ok? && r.value.Rank2?
    ensures r.Ok? && !p.DiffusionParams? ==> r.value.Rank4?
    ensures r.Err? ==> r.error == UnknownViscosityForm || p.PlasticParams? || p.TransverseParams?
  {
    match p
    case BaseParams(k) => Ok(Rank4(Scale4(k, Identity4())))
    case ViscousParams(v) => BuildViscous(v, dim, w)
    case PlasticParams(q) => BuildPlastic(q, dim, w)
    case DiffusionParams(kappa) => Ok(BuildDiffusion(kappa))
    case TransverseParams(eta0, eta1, n) => BuildTransverse(eta0, eta1, n, dim, w)
  }

  // Parameter access.

  /** The named properties of the parameter objects. */
  datatype Field =
    | KField
    | ViscosityField
    | BgViscosityField
    | MinViscosityField
    | MaxViscosityField
    | YieldStressField
    | YieldStressMinField
    | EdotIIField
    | EpsilonEdotIIField
    | DiffusivityField
    | Eta0Field
    | Eta1Field
    | DirectorField

  /** What a property holds. */
  datatype Value = Number(x: real) | Symbolic(p: Param) | ViscosityValue(v: Viscosity) | Vector(n: seq<real>)

  /** The stored value of a property, or None when the parameter object has no such stored
      property (the viscoplastic `viscosity` is derived, not stored). */
  function Get(p: Params, f: Field): Option<Value> {
    match p
    case BaseParams(k) => if f == KField then Some(Number(k)) else None
    case ViscousParams(v) => if f == ViscosityField then Some(ViscosityValue(v)) else None
    case PlasticParams(q) => (
      match f
      case BgViscosityField => Some(Number(q.bgViscosity))
      case MinViscosityField => Some(Number(q.minViscosity))
      case MaxViscosityField => Some(Number(q.maxViscosity))
      case YieldStressField => Some(Symbolic(q.yieldStress))
      case YieldStressMinField => Some(Number(q.yieldStressMin))
      case EdotIIField => Some(Symbolic(q.edotII))
      case EpsilonEdotIIField => Some(Number(q.epsilonEdotII))
      case _ => None)
    case DiffusionParams(kappa) => if f == DiffusivityField then Some(Number(kappa)) else None
    case TransverseParams(eta0, eta1, n) => (
      match f
      case Eta0Field => Some(Number(eta0))
      case Eta1Field => Some(Number(eta1))
      case DirectorField => Some(Vector(n))
      case _ => None)
  }

  /** An assignment `model.Parameters.<property> = value`. */
  datatype Assignment =
    | SetK(k: real)
    | SetViscosity(viscosity: Viscosity)
    | SetBgViscosity(x: real)
    | SetMinViscosity(x: real)
    | SetMaxViscosity(x: real)
    | SetYieldStress(yieldStress: Param)
    | SetYieldStressMin(x: real)
    | SetEdotII(edot: Param)
    | SetEpsilonEdotII(x: real)
    | SetDiffusivity(x: real)
    | SetEta0(x: real)
    | SetEta1(x: real)
    | SetDirector(n: seq<real>)

  /** The property an assignment names. */
  function FieldOf(a: Assignment): Field {
    match a
    case SetK(_) => KField
    case SetViscosity(_) => ViscosityField
    case SetBgViscosity(_) => BgViscosityField
    case SetMinViscosity(_) => MinViscosityField
    case SetMaxViscosity(_) => MaxViscosityField
    case SetYieldStress(_) => YieldStressField
    case SetYieldStressMin(_) => YieldStressMinField
    case SetEdotII(_) => EdotIIField
    case SetEpsilonEdotII(_) => EpsilonEdotIIField
    case SetDiffusivity(_) => DiffusivityField
    case SetEta0(_) => Eta0Field
    case SetEta1(_) => Eta1Field
    case SetDirector(_) => DirectorField
  }

  /** The value an assignment stores. */
  function ValueOf(a: Assignment): Value {
    match a
    case SetK(k) => Number(k)
    case SetViscosity(v) => ViscosityValue(v)
    case SetYieldStress(p) => Symbolic(p)
    case SetEdotII(p) => Symbolic(p)
    case SetDirector(n) => Vector(n)
    case SetBgViscosity(x) => Number(x)
    case SetMinViscosity(x) => Number(x)
    case SetMaxViscosity(x) => Number(x)
    case SetYieldStressMin(x) => Number(x)
    case SetEpsilonEdotII(x) => Number(x)
    case SetDiffusivity(x) => Number(x)
    case SetEta0(x) => Number(x)
    case SetEta1(x) => Number(x)
  }

  /** What a property assignment does to the parameter object: stores the value through the
      property's setter, raises AttributeError on a property without setter, or, for a name the
      class does not define, creates a plain attribute nothing reads. */
  datatype Stored = Stored(params: Params) | ReadOnly | NotAProperty

  /** The setter half of a property assignment, before `_reset`. */
  function Store(p: Params, a: Assignment): (r: Stored)
    ensures r.Stored? <==> Get(p, FieldOf(a)).Some?
    ensures r.ReadOnly? <==> p.PlasticParams? && a.SetViscosity?
    ensures r.Stored? ==> Get(r.params, FieldOf(a)) == Some(ValueOf(a))
    ensures r.Stored? ==> forall f :: f != FieldOf(a) ==> Get(r.params, f) == Get(p, f)
  {
    match (p, a)
    case (BaseParams(_), SetK(k)) => Stored(BaseParams(k))
    case (ViscousParams(_), SetViscosity(v)) => Stored(ViscousParams(v))
    case (PlasticParams(_), SetViscosity(_)) => ReadOnly
    case (PlasticParams(q), SetBgViscosity(x)) => Stored(PlasticParams(q.(bgViscosity := x)))
    case (PlasticParams(q), SetMinViscosity(x)) => Stored(PlasticParams(q.(minViscosity := x)))
    case (PlasticParams(q), SetMaxViscosity(x)) => Stored(PlasticParams(q.(maxViscosity := x)))
    case (PlasticParams(q), SetYieldStress(y)) => Stored(PlasticParams(q.(yieldStress := y)))
    case (PlasticParams(q), SetYieldStressMin(x)) => Stored(PlasticParams(q.(yieldStressMin := x)))
    case (PlasticParams(q), SetEdotII(e)) => Stored(PlasticParams(q.(edotII := e)))
    case (PlasticParams(q), SetEpsilonEdotII(x)) => Stored(PlasticParams(q.(epsilonEdotII := x)))
    case (DiffusionParams(_), SetDiffusivity(x)) => Stored(DiffusionParams(x))
    case (TransverseParams(_, eta1, n), SetEta0(x)) => Stored(TransverseParams(x, eta1, n))
    case (TransverseParams(eta0, _, n), SetEta1(x)) => Stored(TransverseParams(eta0, x, n))
    case (TransverseParams(eta0, eta1, _), SetDirector(n)) => Stored(TransverseParams(eta0, eta1, n))
    case _ => NotAProperty
  }

  /** Storing keeps the parameter object's class. */
  lemma StoreKeepsClass(kind: Kind, p: Params, a: Assignment)
    requires ParamsFit(kind, p) && Store(p, a).Stored?
    ensures ParamsFit(kind, Store(p, a).params)
  {
  }

  /** Storing the same value twice is storing it once. */
  lemma StoreIdempotent(p: Params, a: Assignment)
    requires Store(p, a).Stored?
    ensures Store(Store(p, a).params, a) == Store(p, a)
  {
  }

  // The state machine.

  /** How an assignment ended: `c` rebuilt, the rebuild raised, the property is read-only, or
      the name is no property of the class. */
  datatype Outcome = Rebuilt | RebuildFailed(error: BuildError) | AttributeError | Unused

  datatype Step = Step(system: System, outcome: Outcome)

  /** `_reset`: rebuild `c` and clear the bound solver's flag. A rebuild that raises leaves the
      old `c` in place and the flag untouched. */
  function Reset(s: System, w: Weight): (r: Step)
    ensures r.system.model.params == s.model.params
    ensures r.system.model.kind == s.model.kind && r.system.model.dim == s.model.dim
    ensures r.system.model.solver == s.model.solver
    ensures r.outcome.Rebuilt? || r.outcome.RebuildFailed?
    ensures r.outcome.Rebuilt? ==> Rebuild(s.model.params, s.model.dim, w) == Ok(r.system.model.c)
    ensures r.outcome.RebuildFailed? ==> r.system == s
    ensures r.outcome.Rebuilt? && s.model.solver.Some? ==>
              && r.system.isSetup == s.isSetup[s.model.solver.value := false]
              && r.system.invalidations == s.invalidations + [s.model.solver.value]
    ensures s.model.solver.None? ==> r.system.isSetup == s.isSetup && r.system.invalidations == s.invalidations
  {
    match Rebuild(s.model.params, s.model.dim, w)
    case Err(e) => Step(s, RebuildFailed(e))
    case Ok(c) =>
      var m := s.model.(c := c);
      match s.model.solver
      case None => Step(s.(model := m), Rebuilt)
      case Some(id) => Step(System(m, s.isSetup[id := false], s.invalidations + [id]), Rebuilt)
  }

  /** A property assignment: the setter stores the value and calls `_reset`. On a rebuild that
      raises the new value stays stored. */
  function Set(s: System, a: Assignment, w: Weight): (r: Step)
    ensures r.system.model.kind == s.model.kind && r.system.model.dim == s.model.dim
    ensures r.system.model.solver == s.model.solver
    ensures forall f :: f != FieldOf(a) ==> Get(r.system.model.params, f) == Get(s.model.params, f)
    ensures (r.outcome.Rebuilt? || r.outcome.RebuildFailed?) <==> Get(s.model.params, FieldOf(a)).Some?
    ensures r.outcome.Rebuilt? || r.outcome.RebuildFailed? ==> Get(r.system.model.params, FieldOf(a)) == Some(ValueOf(a))
    ensures r.outcome.AttributeError? <==> s.model.params.PlasticParams? && a.SetViscosity?
    ensures r.outcome.Rebuilt? ==> Rebuild(r.system.model.params, s.model.dim, w) == Ok(r.system.model.c)
    ensures !r.outcome.Rebuilt? ==>
              r.system.model.c == s.model.c && r.system.isSetup == s.isSetup && r.system.invalidations == s.invalidations
    ensures (r.outcome.AttributeError? || r.outcome.Unused?) ==> r.system == s
    ensures r.outcome.Rebuilt? && s.model.solver.Some? ==>
              && r.system.isSetup == s.isSetup[s.model.solver.value := false]
              && r.system.invalidations == s.invalidations + [s.model.solver.value]
    ensures s.model.solver.None? ==> r.system.isSetup == s.isSetup && r.system.invalidations == s.invalidations
  {
    match Store(s.model.params, a)
    case ReadOnly => Step(s, AttributeError)
    case NotAProperty => Step(s, Unused)
    case Stored(p) =>
      var r := Reset(s.(model := s.model.(params := p)), w);
      r
  }

  /** An object assigned to `model.solver`: a solver, or anything else. */
  datatype Assignee = SolverObject(id: SolverId) | PlainObject

  /** The `solver` setter: a solver object is recorded and its flag cleared; anything else is
      ignored. `c` is not rebuilt. */
  function Bind(s: System, o: Assignee): (r: System)
    ensures r.model.kind == s.model.kind && r.model.params == s.model.params && r.model.c == s.model.c
    ensures o.SolverObject? ==> r.model.solver == Some(o.id)
    ensures o.SolverObject? ==> r.isSetup == s.isSetup[o.id := false] && r.invalidations == s.invalidations + [o.id]
    ensures o.PlainObject? ==> r == s
  {
    match o
    case PlainObject => s
    case SolverObject(id) => System(s.model.(solver := Some(id)), s.isSetup[id := false], s.invalidations + [id])
  }

  /** What the solver does when it sets itself up: its flag becomes true. */
  function SetUp(s: System, id: SolverId): (r: System)
    ensures r.model == s.model && r.invalidations == s.invalidations
    ensures id in r.isSetup && r.isSetup[id]
    ensures forall other :: other != id ==> (other in r.isSetup <==> other in s.isSetup)
    ensures forall other :: other != id && other in s.isSetup ==> r.isSetup[other] == s.isSetup[other]
  {
    s.(isSetup := s.isSetup[id := true])
  }

  /** Every operation keeps a system well formed. */
  lemma SetKeepsWellFormed(s: System, a: Assignment, w: Weight)
    requires WellFormed(s)
    ensures WellFormed(Set(s, a, w).system)
  {
    var r := Set(s, a, w);
    if Store(s.model.params, a).Stored? {
      StoreKeepsClass(s.model.kind, s.model.params, a);
    }
  }

  lemma BindKeepsWellFormed(s: System, o: Assignee)
    requires WellFormed(s)
    ensures WellFormed(Bind(s, o))
  {
  }

  lemma SetUpKeepsWellFormed(s: System, id: SolverId)
    requires WellFormed(s)
    ensures WellFormed(SetUp(s, id))
  {
  }

  /** The matrix view `C`: `c` itself for a rank-2 model, its Mandel form for a rank-4 one. */
  function MatrixView(m: Model, w: Weight): Tensor2 {
    match m.c
    case Rank2(c) => c
    case Rank4(t) => ToMandel(t, m.dim, w)
  }

  /** The view loses nothing on a minor-symmetric tensor: `c` is recovered from `C`. */
  lemma MatrixViewRecoversTensor(m: Model, w: Weight)
    requires m.c.Rank4? && MinorSymmetric(m.c.t, m.dim)
    ensures Same4(FromMandel(MatrixView(m, w), m.dim, w), m.c.t, m.dim)
  {
    MandelRoundTrip(m.c.t, m.dim, w);
  }

  /** A diffusion model after a diffusivity assignment: `C` and `c` are κ·eye(d), and the flux
      is κ times the transposed gradient. */
  lemma DiffusivityAssigned(s: System, kappa: real, w: Weight, g: Array2)
    requires s.model.kind == DiffusionModel && WellFormed(s) && IsGradient(g, s.model.dim)
    ensures var r := Set(s, SetDiffusivity(kappa), w);
      && r.outcome.Rebuilt?
      && r.system.model.c.Rank2?
      && (forall i, j :: MatrixView(r.system.model, w)(i, j) == r.system.model.c.m(i, j) == kappa * Delta(i, j))
      && Flux(r.system.model.c, g, s.model.dim).Ok?
      && Same2(Flux(r.system.model.c, g, s.model.dim).value, Scale2(kappa, Transpose(OfArray2(g))), s.model.dim, |g|)
  {
    ProductOfScaledIdentity(kappa, g, s.model.dim);
  }

  // Properties of assignment sequences.

  /** A fresh viscous model has c = I4, not the 2·η·I4 its default viscosity of 1 would build. */
  lemma FreshViscousNotRebuilt(dim: Dim, isSetup: map<SolverId, bool>, w: Weight)
    ensures var s := New(ViscousModel, dim, isSetup);
      && s.model.c == Rank4(Identity4())
      && s.model.params == ViscousParams(Scalar(1.0))
      && Rebuild(s.model.params, dim, w).Ok?
      && s.model.c.t(0, 0, 0, 0) == 1.0
      && Rebuild(s.model.params, dim, w).value.t(0, 0, 0, 0) == 2.0
  {
  }

  /** The first `viscosity = 1` turns c into 2·I4; the same assignment again leaves c as it is. */
  lemma ViscosityOneTwice(dim: Dim, isSetup: map<SolverId, bool>, w: Weight)
    ensures var s0 := New(ViscousModel, dim, isSetup);
      var s1 := Set(s0, SetViscosity(Scalar(1.0)), w).system;
      var s2 := Set(s1, SetViscosity(Scalar(1.0)), w).system;
      && s1.model.c == Rank4(Scale4(2.0, Identity4()))
      && s1.model.c != s0.model.c
      && s2.model == s1.model
  {
    var s0 := New(ViscousModel, dim, isSetup);
    var s1 := Set(s0, SetViscosity(Scalar(1.0)), w).system;
    assert s1.model.c.t(0, 0, 0, 0) == 2.0 != s0.model.c.t(0, 0, 0, 0);
  }

  /** A base model with one unknown per point starts as eye(d) but its first rebuild is k·I4:
      the rank changes from 2 to 4. */
  lemma ScalarBaseBecomesRank4(dim: Dim, isSetup: map<SolverId, bool>, k: real, w: Weight)
    ensures New(BaseModel(1), dim, isSetup).model.c.Rank2?
    ensures var r := Set(New(BaseModel(1), dim, isSetup), SetK(k), w);
      r.outcome.Rebuilt? && r.system.model.c == Rank4(Scale4(k, Identity4()))
  {
  }

  /** Two identical assignments give the same model and two invalidations of the bound solver. */
  lemma RepeatedAssignment(s: System, a: Assignment, w: Weight)
    requires s.model.solver.Some?
    requires Set(s, a, w).outcome.Rebuilt?
    ensures var r1 := Set(s, a, w);
      var r2 := Set(r1.system, a, w);
      && r2.outcome.Rebuilt?
      && r2.system.model == r1.system.model
      && r2.system.invalidations == s.invalidations + [s.model.solver.value, s.model.solver.value]
      && !r2.system.isSetup[s.model.solver.value]
  {
    StoreIdempotent(s.model.params, a);
  }

  /** Without a bound solver an assignment changes nothing but the parameters and `c`. */
  lemma UnboundAssignment(s: System, a: Assignment, w: Weight)
    requires s.model.solver.None?
    ensures var r := Set(s, a, w).system;
      r == s.(model := s.model.(params := r.model.params, c := r.model.c))
  {
  }

  /** A solver that set itself up is invalidated again by the next assignment that rebuilds. */
  lemma SetUpThenAssign(s: System, a: Assignment, w: Weight)
    requires s.model.solver.Some?
    requires Set(SetUp(s, s.model.solver.value), a, w).outcome.Rebuilt?
    ensures var id := s.model.solver.value;
      SetUp(s, id).isSetup[id] && !Set(SetUp(s, id), a, w).system.isSetup[id]
  {
  }

  /** Rebinding clears only the new solver's flag: the previously bound solver keeps its own. */
  lemma RebindLeavesOldSolver(s: System, id: SolverId)
    requires s.model.solver.Some? && s.model.solver.value != id && s.model.solver.value in s.isSetup
    ensures var prev := s.model.solver.value;
      prev in Bind(s, SolverObject(id)).isSetup && Bind(s, SolverObject(id)).isSetup[prev] == s.isSetup[prev]
  {
  }

  /** After rebinding, assignments invalidate the new solver and no longer the old one. */
  lemma AssignAfterRebind(s: System, id: SolverId, a: Assignment, w: Weight)
    requires s.model.solver.Some? && s.model.solver.value != id && s.model.solver.value in s.isSetup
    requires Set(Bind(s, SolverObject(id)), a, w).outcome.Rebuilt?
    ensures var prev := s.model.solver.value;
      var r := Set(Bind(s, SolverObject(id)), a, w).system;
      && r.isSetup[prev] == s.isSetup[prev]
      && !r.isSetup[id]
      && r.invalidations == s.invalidations + [id, id]
  {
  }

  /** A failing rebuild keeps the new value stored: fixing it with a valid value rebuilds from
      the corrected parameters. A viscosity of unknown form is the example. */
  lemma FailedViscosityStaysStored(s: System, w: Weight)
    requires s.model.kind == ViscousModel && WellFormed(s)
    ensures var r := Set(s, SetViscosity(OtherKind), w);
      && r.outcome == RebuildFailed(UnknownViscosityForm)
      && r.system.model.params == ViscousParams(OtherKind)
      && r.system.model.c == s.model.c
  {
  }

  /** Assigning the derived viscosity of a viscoplastic model raises and changes nothing. */
  lemma PlasticViscosityReadOnly(s: System, v: Viscosity, w: Weight)
    requires s.model.kind == ViscoPlasticModel && WellFormed(s)
    ensures Set(s, SetViscosity(v), w) == Step(s, AttributeError)
  {
  }

  /** A fresh viscoplastic model falls back to its background viscosity until both the yield
      stress and the strain rate are given: the first assignment builds 2·1·I4. */
  lemma PlasticFallbackOnFirstAssignment(dim: Dim, isSetup: map<SolverId, bool>, ys: real, w: Weight)
    ensures var r := Set(New(ViscoPlasticModel, dim, isSetup), SetYieldStress(Value(ys)), w);
      r.outcome.Rebuilt? && r.system.model.c == Rank4(Scale4(2.0 * 1.0, Identity4()))
  {
  }

  // The flux of a model.

  /** A model with scalar viscosity η, c = 2η·I4, side by side under the two contractions: the
      program's `flux` gives 2η·gᵀ, the documented contraction gives 2η·ε, ε the symmetric part
      of the gradient (the strain rate). They differ whenever η ≠ 0 and the gradient is not symmetric. */
  lemma ScalarViscosityFlux(m: Model, eta: real, g: Array2)
    requires m.c == Rank4(Scale4(2.0 * eta, Identity4()))
    requires IsArray2(g, m.dim, m.dim)
    ensures Flux(m.c, g, m.dim).Ok? && StandardFlux(m.c, g, m.dim).Ok?
    ensures Same2(Flux(m.c, g, m.dim).value, Scale2(2.0 * eta, Transpose(OfArray2(g))), m.dim, m.dim)
    ensures Same2(StandardFlux(m.c, g, m.dim).value, Scale2(2.0 * eta, SymmetricPart(OfArray2(g))), m.dim, m.dim)
  {
    ScaledIdentityFluxes(2.0 * eta, g, m.dim);
  }

  /** A scalar viscosity assignment builds 2η·I4, whatever the model held before. */
  lemma ScalarViscosityTensor(s: System, eta: real, w: Weight)
    requires s.model.kind == ViscousModel && WellFormed(s)
    ensures Set(s, SetViscosity(Scalar(eta)), w).outcome.Rebuilt?
    ensures Set(s, SetViscosity(Scalar(eta)), w).system.model.c == Rank4(Scale4(2.0 * eta, Identity4()))
  {
  }
}
