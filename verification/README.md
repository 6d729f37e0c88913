# Constitutive models of underworld3, in Dafny

This project models the material-law layer of underworld3
(`underworld3/systems/constitutive_models.py`). That layer turns the gradient of the unknowns of
a finite-element problem into a flux: a stress for Stokes flow, a heat flux for diffusion. Each
model kind holds a parameter object and builds a constitutive tensor `c` from it (`_build_c_tensor`).
`flux` contracts `c` with a gradient. Every parameter setter stores its value and calls `_reset`.
`_reset` rebuilds `c` and marks the bound solver as needing a new setup (`is_setup = False`).

The model consists of:

- `Results`: `Option` and `Result`, for the error paths.
- `Sums`: finite sums and the few summation facts the proofs need.
- `Tensors`: the spatial dimension `Dim` (2 or 3).
  - Rank-2 and rank-4 tensors are functions of their indices.
  - Arrays that callers supply are nested sequences with shape predicates, so a wrong shape is
    representable.
  - `Identity4` is the symmetrised rank-4 identity of the class docstring.
- `Mandel`: compression of a minor-symmetric rank-4 tensor into its Mandel matrix
  (`rank4_to_mandel`), and expansion back (`mandel_to_rank4`).
  - The matrix size is `idxmap[d]`: 3 in 2-D and 6 in 3-D.
  - The shear weight `w` is a parameter. Mandel's √2 is the case `w * w == 2`.
- `Fluxes`: `Flux` is the flux as the code computes it.
  - A rank-2 `c` gives `c · gᵀ`.
  - A rank-4 `c` is contracted as at lines 186-188: `flux[k][m] = Σ_i Σ_l c[i][i][k][l] · g[m][l]`.
  - `StandardFlux` is the documented textbook contraction `t_ij = Σ_k Σ_l c_ijkl g_kl`.
- `Rheology`: the parameters of each model kind, their defaults, and the tensor each kind builds.
  - Viscous: scalar, Mandel matrix, full array, or the RuntimeError.
  - Viscoplastic: the derived viscosity, evaluated in sympy's extended arithmetic (`zoo`, `nan`).
  - Diffusion.
  - Transverse-isotropic.
- `Anisotropy`: what the two contractions make of the transverse-isotropic tensor (see Findings).
- `Models`: the change-propagation state machine.
  - A `System` is a model, the `is_setup` flag of every solver, and a log of every write
    `is_setup := False`.
  - It covers construction, the property setters, `_reset`, the `solver` setter and the matrix
    view `C`.

Parameters are reals: a symbolic expression evaluated at one point. A bare sympy symbol, such as
the "not yet defined" placeholder of the viscoplastic model, is the explicit `Param.Undefined`.

## Model

| member | source | states |
|---|---|---|
| Tensors.IdentityEntryProducts | underworld3/systems/constitutive_models.py:39-41 | The case-by-case entries of the rank-4 identity equal ½(δik δjl + δil δjk). |
| Tensors.Identity4Symmetric | underworld3/systems/constitutive_models.py:39-41 | The rank-4 identity has both minor symmetries and the major symmetry. |
| Mandel.MandelSize | underworld3/systems/constitutive_models.py:297 | The Mandel matrix of dimension d has d(d+1)/2 rows: idxmap[2] = 3, idxmap[3] = 6. |
| Mandel.SlotOfPair | underworld3/systems/constitutive_models.py:906-908 | The index pair stored in a Mandel slot maps back to that slot. The pair is diagonal exactly for the first d slots. |
| Mandel.MandelRoundTrip | underworld3/systems/constitutive_models.py:906-908 | Expanding the Mandel form of a minor-symmetric tensor gives the tensor back, for every positive shear weight. |
| Mandel.MandelInverse | underworld3/systems/constitutive_models.py:297-299 | Compressing the expansion of any Mandel-size matrix gives the matrix back. |
| Mandel.FromMandelMinorSymmetric | underworld3/systems/constitutive_models.py:299 | Every expanded matrix is minor-symmetric. |
| Mandel.FromMandelMajorSymmetric | underworld3/systems/constitutive_models.py:299 | The expansion has the major symmetry if and only if the Mandel matrix is symmetric. |
| Mandel.MandelOfIdentity | underworld3/systems/constitutive_models.py:140-155 | With Mandel's weight (w² = 2) the rank-4 identity compresses to the identity matrix. |
| Fluxes.Flux | underworld3/systems/constitutive_models.py:165-190 | The flux is defined exactly when the gradient has d columns, for either rank of `c`. |
| Fluxes.FluxLinear | underworld3/systems/constitutive_models.py:183-188 | The flux of a·g1 + b·g2 is a·flux(g1) + b·flux(g2), for rank-2 and rank-4 tensors alike. |
| Fluxes.IsotropicFlux | underworld3/systems/constitutive_models.py:183-188 | For c = s·I4 and for c = s·eye(d) the flux is s·gᵀ. |
| Fluxes.ContractionReadsTraceOnly | underworld3/systems/constitutive_models.py:186-188 | The rank-4 flux depends only on the entries c[i][i][k][l]. |
| Fluxes.StandardFlux | underworld3/systems/constitutive_models.py:33 | The documented contraction is defined exactly when the gradient has d columns and, for a rank-4 tensor, d rows. |
| Fluxes.StandardContractionOfScaledIdentity | underworld3/systems/constitutive_models.py:37-41 | For c = s·I4 the documented contraction is s times the symmetric part of the gradient. |
| Fluxes.IsotropicFluxesAgree | underworld3/systems/constitutive_models.py:186-188 | On an isotropic tensor and a symmetric square gradient, the code's contraction and the documented one agree. |
| Rheology.BuildViscous | underworld3/systems/constitutive_models.py:287-306 | The viscous build succeeds exactly for a scalar, a Mandel matrix of size idxmap[d], or a (d,d,d,d) array. Otherwise it is an error. A success is rank 4. |
| Rheology.ScalarViscosityIsotropic | underworld3/systems/constitutive_models.py:293-294 | A scalar viscosity η gives 2η times the identity's entries. |
| Rheology.MandelViscosityReadBack | underworld3/systems/constitutive_models.py:297-299 | A Mandel matrix of the right size is recovered, doubled, from the built tensor. |
| Rheology.FullViscosityDoubled | underworld3/systems/constitutive_models.py:300-301 | A (d,d,d,d) array is used as it is, doubled. |
| Rheology.Quotient | underworld3/systems/constitutive_models.py:496-498 | A quotient is finite exactly for a nonzero divisor, and then multiplies back to the dividend. |
| Rheology.Plus | underworld3/systems/constitutive_models.py:504 | A sum is finite exactly when both terms are. It is then their sum. |
| Rheology.EffectiveViscosity | underworld3/systems/constitutive_models.py:487-511 | With a bare symbol for the yield stress or the strain rate, the result is the background viscosity. Otherwise a defined result is ≥ min_viscosity, and ≤ max_viscosity whenever min ≤ max. |
| Rheology.SeriesViscosity | underworld3/systems/constitutive_models.py:496-509 | Away from singular points the result is the clipped textbook series viscosity bg·vy/(bg + vy). |
| Rheology.NoStrainRate | underworld3/systems/constitutive_models.py:496-509 | With zero strain rate and zero regularisation, the yield branch drops out and the clipped background viscosity remains. |
| Rheology.ZeroYieldStress | underworld3/systems/constitutive_models.py:496-509 | A zero yield stress gives the clipped value of 0, i.e. the floor yield_stress_min. |
| Rheology.SingularPoints | underworld3/systems/constitutive_models.py:496-511 | Evaluation fails (Max meets zoo or nan) exactly in these cases: 0/0, a zero yield stress against a zero background viscosity, or two branches that cancel. |
| Rheology.YieldCap | underworld3/systems/constitutive_models.py:496-504 | For positive parameters the series viscosity lies strictly between 0 and bg, and its stress 2η·ε̇ stays below the yield stress. |
| Rheology.MonotoneInYieldStress | underworld3/systems/constitutive_models.py:496-511 | Raising the yield stress never lowers the effective viscosity. |
| Rheology.WorkedExample | underworld3/systems/constitutive_models.py:388-416 | The defaults, with yield stress 10 and strain rate 1, give 5/6. |
| Rheology.FallbackIgnoresBounds | underworld3/systems/constitutive_models.py:490-494 | The fallback is not clipped: a background viscosity below min_viscosity is returned as it is. |
| Rheology.BuildPlastic | underworld3/systems/constitutive_models.py:487-511 | The viscoplastic tensor is the viscous build of the derived viscosity. With a bare symbol for the yield stress or the strain rate it is 2·bg·I4. Otherwise a built tensor is rank 4 with diagonal entry c[0][0][0][0] ≥ 2·min_viscosity, and ≤ 2·max_viscosity whenever min ≤ max. |
| Rheology.BuildTransverse | underworld3/systems/constitutive_models.py:876-908 | The transverse-isotropic build succeeds exactly when the director has at least d components. It is rank 4. |
| Rheology.LambdaSymmetric | underworld3/systems/constitutive_models.py:887-904 | λ is symmetric under i↔j, under k↔l and under (ij)↔(kl), for every director. |
| Rheology.TransverseTensor | underworld3/systems/constitutive_models.py:906-908 | The built tensor equals λ: the Mandel round trip loses nothing. |
| Rheology.EqualViscositiesIsotropic | underworld3/systems/constitutive_models.py:887-904 | η0 = η1 gives η0·I4, whatever the director. |
| Rheology.DefaultDirectorIn2D | underworld3/systems/constitutive_models.py:821-823 | In 2-D the default director (0, 0, 1) gives η0·I4. |
| Rheology.WeakPlaneShear | underworld3/systems/constitutive_models.py:887-904 | With the director along x in 2-D, the normal entries are η0 and the shear entry c[0][1][0][1] is η1/2. |
| Anisotropy.AsWrittenShearFlux | underworld3/systems/constitutive_models.py:186-188 | The code's flux of simple shear γ for the director along x is η0·γ, whatever η1 is. |
| Anisotropy.TransverseShearFlux | underworld3/systems/constitutive_models.py:33 | The documented contraction gives η1·γ for the same tensor. |
| Anisotropy.WeakPlaneLost | underworld3/systems/constitutive_models.py:186-188 | On η0 = 1, η1 = 0 and unit shear, the code gives 1 where the documented flux gives 0. |
| Anisotropy.UnitDirectorTrace | underworld3/systems/constitutive_models.py:887-904 | For a unit director, Σ_i λ[i][i][k][l] = η0·δkl. |
| Anisotropy.IsotropicTraceContraction | underworld3/systems/constitutive_models.py:186-188 | A tensor whose trace over its first index pair is a·δkl is contracted by the code to a·gᵀ. |
| Anisotropy.UnitDirectorFlux | underworld3/systems/constitutive_models.py:186-188 | For every unit director, the code's flux of λ is η0·gᵀ: η1 and the director have no effect. |
| Models.New | underworld3/systems/constitutive_models.py:59-76 | Construction does not rebuild. `c` is eye(d) exactly when there is one unknown per point and I4 otherwise. No solver is bound, and nothing is invalidated. |
| Models.Rebuild | underworld3/systems/constitutive_models.py:203-209 | The base rebuild is k·I4, even for a scalar problem. Diffusion is rank 2 and every other success is rank 4. Only viscosity form, viscoplastic or director errors occur. |
| Models.Store | underworld3/systems/constitutive_models.py:420-488 | A property setter stores exactly its own field, readable afterwards, and leaves every other field unchanged. The viscoplastic `viscosity` has no setter and raises. |
| Models.StoreIdempotent | underworld3/systems/constitutive_models.py:420-484 | Storing the same value twice is storing it once. |
| Models.Reset | underworld3/systems/constitutive_models.py:192-201 | `_reset` rebuilds `c` from the current parameters. With a solver bound it clears that solver's flag and logs one invalidation. With none, only `c` changes. |
| Models.Set | underworld3/systems/constitutive_models.py:94-97 | An assignment rebuilds or fails exactly when the property exists, and stores its value. It keeps every other field, kind, dimension and binding. A read-only property raises and changes nothing. |
| Models.Bind | underworld3/systems/constitutive_models.py:129-136 | A solver object is recorded, its flag cleared and its invalidation logged. Any other object changes nothing. `c` is not rebuilt. |
| Models.SetKeepsWellFormed | underworld3/systems/constitutive_models.py:192-209 | Assignments keep the parameter class and the rank of `c` that the model kind fixes. |
| Models.MatrixViewRecoversTensor | underworld3/systems/constitutive_models.py:140-155 | The view `C` of a minor-symmetric rank-4 `c` loses nothing: `c` is its expansion. |
| Models.DiffusivityAssigned | underworld3/systems/constitutive_models.py:756-763 | After `diffusivity = κ`, `c` and `C` are both κ·eye(d), and the flux is κ·gᵀ. |
| Models.FreshViscousNotRebuilt | underworld3/systems/constitutive_models.py:69-74 | A fresh viscous model has c = I4, although its default viscosity 1 builds 2·I4. |
| Models.ViscosityOneTwice | underworld3/systems/constitutive_models.py:275-278 | The first `viscosity = 1` changes c to 2·I4. The second leaves the model as it is. |
| Models.ScalarBaseBecomesRank4 | underworld3/systems/constitutive_models.py:203-209 | A base model with one unknown starts as eye(d). Its first rebuild is the rank-4 k·I4. |
| Models.RepeatedAssignment | underworld3/systems/constitutive_models.py:192-201 | Two identical assignments give the same model and two invalidations of the bound solver. |
| Models.UnboundAssignment | underworld3/systems/constitutive_models.py:192-201 | With no solver bound, an assignment changes only the parameters and `c`. |
| Models.SetUpThenAssign | underworld3/systems/constitutive_models.py:196-199 | A solver that set itself up is invalidated again by the next assignment that rebuilds. |
| Models.RebindLeavesOldSolver | underworld3/systems/constitutive_models.py:129-136 | Binding a new solver leaves the previous solver's flag alone. |
| Models.AssignAfterRebind | underworld3/systems/constitutive_models.py:129-136 | After a rebind, assignments invalidate only the new solver. |
| Models.FailedViscosityStaysStored | underworld3/systems/constitutive_models.py:275-278 | A viscosity of unknown form raises at rebuild, but stays stored. `c` is unchanged. |
| Models.PlasticViscosityReadOnly | underworld3/systems/constitutive_models.py:486-488 | Assigning the viscoplastic `viscosity` raises and changes nothing. |
| Models.PlasticFallbackOnFirstAssignment | underworld3/systems/constitutive_models.py:490-494 | A fresh viscoplastic model given only a yield stress falls back to the background viscosity: c = 2·1·I4. |
| Models.ScalarViscosityFlux | underworld3/systems/constitutive_models.py:186-188 | For a model with c = 2η·I4 and a square gradient g, the program's `flux` is 2η·gᵀ. The documented contraction of line 33 is instead 2η times the symmetric part of g (the strain rate), as lines 37-41 describe. |
| Models.ScalarViscosityTensor | underworld3/systems/constitutive_models.py:293-294 | A scalar viscosity assignment always rebuilds, to 2η·I4. |

## Left out

- `ViscoElasticFlowModel` (lines 537-700) cannot be constructed.
  - Its `__init__` calls `ViscousFlowModel.__init__` with one argument too many.
  - Its `viscosity` getter reads parameters the class never defines.
- The Jupyter timing script `Jupyterbook/Notebooks/Developers/Timing/Timing_Mesh_Build_Save.py` is mesh generation, file I/O and timing only.
- `_ipython_display_`, the `print` calls in the viscoplastic setters, and the timing decorator are left out. They produce output only.
- The `material_properties` block at lines 99-121 is a string literal, never executed code.
- `Parameters._solver` mirrors the bound solver but is never read.
- Solver internals beyond the one `is_setup` flag are left out.
  - The solver types are an opaque `SolverObject` identity.
  - `Models.SetUp` stands for the solver setting itself up, which happens outside this file.
- The invalidation log in `System` is a modelling device. It records every write `is_setup := False`, so that two invalidations can be told from one.
- sympy is not modelled.
  - Expressions are reals evaluated at a point.
  - `sympy.simplify` at line 906 is the identity on values.
  - The `isinstance(..., Symbol)` test is the `Undefined` tag. The code falls back for any bare symbol, not only the placeholder, and `Undefined` stands for all of them.
- The helpers `rank4_identity`, `rank4_to_mandel`, `mandel_to_rank4` and `idxmap` of `uw.maths.tensor` are not part of this model.
  - `Identity4` follows the docstring at lines 39-41.
  - The Mandel pair uses one fixed order of the index pairs (diagonal slots first).
  - It takes any positive shear weight. The round trips are proved for every weight, and the identity's compression for w² = 2.
- Rheology.EffectiveViscosity: division follows sympy's extended arithmetic (`x/0 = zoo`, `0/0 = nan`), and `Max` on zoo or nan is a `NotComparable` error. Python numbers (a float or an int such as `bg_viscosity = 0`), which raise ZeroDivisionError at the assignment instead, are not modelled.
- The `flux` arguments `ddu_dt`, `u` and `u_dt` are unused by the code and left out. So is the default `ddu=None`, on which the code fails.
- Assignments of names that a parameter class does not define only create a plain attribute. They are modelled as `Unused` and change nothing.
- The docstring formula at lines 798-799 differs from the code: it has the factor η0 − η1 and a duplicated term. The model follows the code: η1 − η0 (line 887) and the four distinct terms of lines 897-900.
- The documented flux contracts the tensor's last two indices against the gradient, while the code (lines 186-188) contracts `c[i][i][k][l]` with `g[m][l]`. `Fluxes.Flux` follows the code, and `Fluxes.StandardFlux` is the documented form (see Findings).
- Models.Set: a value's type is not checked. The code stores whatever it is given, and only the rebuild can fail.

## Findings

| source | as written | input that shows it | evidently intended | confidence | as-written member | corrected member |
|---|---|---|---|---|---|---|
| underworld3/systems/constitutive_models.py:186-188 | The rank-4 flux is `tensorcontraction(tensorcontraction(tensorproduct(c, ddu), (3, 5)), (0, 1))`, i.e. `flux[k][m] = Σ_i Σ_l c[i][i][k][l]·ddu[m][l]`. This is a trace over the tensor's first index pair, not the documented `t_ij = c_ijkl ∂u_k/∂x_l` (line 33). | Transverse-isotropic model in 2-D, director (1, 0), η0 = 1, η1 = 0, gradient [[0, 1], [1, 0]]. The code gives a shear flux of 1; the documented contraction gives 0. For every unit director the code's flux is η0·gᵀ, so η1 has no effect at all. | The documented contraction over the tensor's last two indices, which gives η1·γ across the weak plane. | not executed | Anisotropy.WeakPlaneLost | Fluxes.StandardFlux |
