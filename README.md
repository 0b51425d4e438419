# Boussinesq stress engine — a Dafny model

This project models the computational core of `bouss.py`, the stress engine of a
small geotechnical tool. The engine computes the stresses that a uniformly
loaded footing induces in an elastic half-space. Depth z is positive
downwards, and the free surface is z = 0. The core has four parts:

- **Strip solver** (`sigma_z_infinite_strip`): the closed-form plane-strain
  solution under an infinitely long strip of width B. Points are first moved
  into the footing's frame by translating by -center and rotating by
  -rotation_deg. A point within a depth epsilon of the surface then has its
  stresses overwritten with the exact boundary values.
- **Circular solvers** (`integrate_circular_sigma_z` and
  `integrate_circular_stress_full`): both integrate Boussinesq's point-load
  kernel over a loaded disk. The integration uses polar Simpson quadrature
  with a point-count-dependent node policy. It runs in memory-bounded batches
  written into preallocated arrays, and it uses the same depth clamp and
  surface overwrite as the strip solver. The full routine also projects the
  Cartesian shears onto the radial direction, which gives tau_rz.
- **Point samplers** (`generate_line_points`, `generate_plane_grid`).
- **Shared helpers**: rotation about the vertical axis, and the constants
  pi and 2 pi.

The model is written in the source's own form:

- Expression code becomes functions and lemmas.
- The preallocate-then-fill batch loop, the Simpson weight slicing and the
  masked array writes become methods over `array`s. The node-count
  adjustment, which reassigns two integers step by step, becomes a method on
  integers. Each method is proved against a reference function.

Modules:

| module | file | models |
|---|---|---|
| `Common` | common.dfy | points, domain errors, `Result`/`Option`, pi, uninterpreted transcendentals |
| `Rotation` | rotation.dfy | `_deg_to_rad`, `_rotate_points_xy` |
| `Surface` | surface.dfy | depth epsilons, edge tolerances, the depth clamp, the three-band surface overwrite |
| `Strip` | strip.dfy | `sigma_z_infinite_strip` |
| `Sampling` | sampling.dfy | `np.linspace`, `generate_line_points`, `generate_plane_grid` |
| `Policy` | policy.dfy | the odd / capped node-count policy and the batch size |
| `Simpson` | simpson.dfy | the composite Simpson weight vector and its sums |
| `DiskQuadrature` | disk.dfy | polar nodes, area weights, the `tensordot` contraction |
| `Batching` | batching.dfy | `for start in range(0, n, batch_size)` over a preallocated array |
| `Circle` | circle.dfy | both circular solvers |

Inputs the model does not compute are parameters:

- The transcendental functions (sin, cos, arctan, arctan2, hypot) are
  fields of a `Transcendentals` value, and every property holds for any choice.
- The Boussinesq point kernels K(dx, dy, z) are values of type
  `Kernel = (real, real, Depth) -> real`. `Depth` is the type of strictly
  positive reals, so the type checker enforces the clamp's purpose: a zero
  depth never reaches a kernel.

Where the docstrings and the code disagree, the model follows the code:

- The strip docstring gives sigma_z as a sum of two arctangents, and sigma_x
  as nu·sigma_z minus a term. The code computes sigma_z from
  `sin(alpha) cos(2 beta) + alpha` and sigma_x from
  `-sin(alpha) cos(2 beta) + alpha`. `Strip.SmoothStrip` is the code's formula.

## Model

| member | source | states |
|---|---|---|
| `Common.AnyNegativeDepth` | bouss.py:81 | true exactly when some point has z < 0 |
| `Rotation.DegToRad` | bouss.py:26-27 | computes deg·pi/180 |
| `Rotation.RotatePointsXY` | bouss.py:30-42 | angle exactly 0 returns the points unchanged; otherwise every point is multiplied by rot.T with c, s = cos, sin of deg·pi/180; length kept |
| `Rotation.ZeroRotationAgreesWithMatrix` | bouss.py:36-42 | the zero-angle short cut gives what the matrix path gives when cos 0 = 1, sin 0 = 0 |
| `Rotation.InverseRotationPoint` | bouss.py:38-42 | with c² + s² = 1, rotating by (c, s) then (c, -s) gives the point back |
| `Rotation.RotateThenUnrotate` | bouss.py:30-42 | rotating by an angle and then by its negative is the identity, for an even cosine and odd sine with c² + s² = 1 |
| `Surface.StripDepthEps` | bouss.py:92 | the strip's depth epsilon is max(1e-8·B, 1e-9), positive, at least 1e-9 and at least 1e-8·B |
| `Surface.StripEdgeTol` | bouss.py:120 | the strip's edge tolerance is max(1e-6·B, 1e-8), positive and at least 1e-6·B |
| `Surface.DiskDepthEps` | bouss.py:188 | the disk's depth epsilon is max(1e-6·a, 1e-6), positive, at least 1e-6 and at least 1e-6·a |
| `Surface.DiskEdgeTol` | bouss.py:246 | the disk's edge tolerance is max(1e-4·a, 1e-5), positive and at least 1e-4·a |
| `Surface.ClampDepth` | bouss.py:93 | the clamped depth is at least eps, equals z when z >= eps, and differs from z only when z < eps |
| `Surface.ClampedPointsAreSurfacePoints` | bouss.py:93-116 | every clamped point is in the surface mask z <= eps, and clamping is idempotent |
| `Surface.BandsPartition` | bouss.py:121-123 | with a positive tolerance the inside, edge and outside masks are pairwise disjoint and cover every distance |
| `Surface.SurfaceValue` | bouss.py:121-126 | a surface point gets exactly q inside, q/2 on the edge and 0 outside; any other point keeps its value |
| `Surface.BandOverwrite` | bouss.py:121-126 | computes one entry after the three masked writes q, q/2, 0 in that order, the last write winning; off the surface the entry is kept |
| `Surface.OverwriteBands` | bouss.py:121-126 | the three masked writes, in source order, leave each entry at its banded value and untouched off the surface |
| `Surface.ZeroOnSurface` | bouss.py:128-130 | the masked write of 0 zeroes exactly the surface entries |
| `Strip.SmoothStrip` | bouss.py:94-107 | computes the smooth solution at depth zpos: beta' = atan((x - b)/zpos), alpha = atan((x + b)/zpos) - beta', beta = alpha/2 + beta', sigma_z = (q/pi)(sin alpha cos 2beta + alpha), sigma_x = (q/pi)(-sin alpha cos 2beta + alpha), sigma_y = nu·sigma_z, tau_xz = (q/pi) sin alpha sin 2beta |
| `Strip.LocalOffset` | bouss.py:77-79 | computes the point's offset in the footing frame: translated by -center, then rotated by -rotation_deg |
| `Strip.StripLocal` | bouss.py:84-131 | computes one output entry: the smooth solution at the clamped depth, sigma_z banded on abs(x) and the other three zeroed where z <= eps |
| `Strip.StripAt` | bouss.py:77-131 | computes the reference entry of a point: StripLocal of its local offset and its depth |
| `Strip.SigmaZInfiniteStrip` | bouss.py:73-132 | fails with NonPositiveWidth when B <= 0, then with NegativeDepth when any z < 0; otherwise four aligned arrays whose entry k is the reference value of point k |
| `Strip.StripFields` | bouss.py:84-131 | the array phase: smooth values at the clamped depth, then the surface overwrite, entry by entry |
| `Strip.BandedColumn` | bouss.py:110-126 | sigma_z filled with the smooth values and then banded at the surface |
| `Strip.ZeroedColumn` | bouss.py:111-130 | sigma_x, sigma_y, tau_xz filled with the smooth values and then zeroed at the surface |
| `Strip.StripSurfaceTraction` | bouss.py:115-130 | at 0 <= z <= eps: sigma_x = sigma_y = tau_xz = 0, and sigma_z is q for abs(x) < b - tol, q/2 for abs(abs(x) - b) <= tol, 0 for abs(x) > b + tol; always one of the three |
| `Strip.StripBelowSurface` | bouss.py:92-113 | below eps the smooth solution at the point's own depth is reported untouched, and sigma_y = nu·sigma_z |
| `Strip.StripRotationEquivalence` | bouss.py:77-79 | a point against a rotated strip gives what its inverse-rotated position gives against the unrotated strip |
| `Strip.StripRotationInverse` | bouss.py:77-79 | a point placed at center + R(deg)(p0 - center) against the strip rotated by deg gives what p0 gives against the unrotated strip, for an even cosine and odd sine with c² + s² = 1 |
| `Sampling.LinspaceAt` | bouss.py:267 | computes entry i of np.linspace(lo, hi, n) as lo + i(hi - lo)/(n - 1) |
| `Sampling.Linspace` | bouss.py:192-193 | the n entries LinspaceAt(lo, hi, n, i); its length is n |
| `Sampling.LinspaceShape` | bouss.py:267 | linspace starts at lo, ends at hi, and steps by (hi - lo)/(n - 1) |
| `Sampling.LinspaceAtLast` | bouss.py:267 | the last linspace entry is exactly hi |
| `Sampling.LinspaceAtStep` | bouss.py:267 | consecutive linspace entries differ by (hi - lo)/(n - 1) |
| `Sampling.LinePoints` | bouss.py:257-269 | fails exactly when num_points < 2 (TooFewLinePoints); otherwise num_points points from start to end inclusive |
| `Sampling.LinePointsSpacing` | bouss.py:267-268 | point i is at parameter i/(n - 1), consecutive points are the equal step (end - start)/(n - 1) apart, and the parameter strictly increases |
| `Sampling.LowerIdempotent` | bouss.py:292 | lower-casing twice is lower-casing once |
| `Sampling.ParsePlane` | bouss.py:292-294 | a selector is accepted exactly when its lower-cased form is xy, xz or yz |
| `Sampling.PlaneGrid` | bouss.py:272-312 | computes generate_plane_grid: the nx/ny error, the plane error, then per plane two meshgrid arrays over the in-plane linspaces and a constant array for the orthogonal axis (MissingZBounds when xz/yz lack z bounds) |
| `Sampling.PlaneGridErrors` | bouss.py:290-305 | TooFewGridPoints when nx < 2 or ny < 2, then UnknownPlane, then MissingZBounds for xz/yz without z bounds; succeeds exactly in the remaining cases |
| `Sampling.PlaneGridContents` | bouss.py:296-312 | a successful grid has three (ny, nx) arrays; entry [j][i] takes the i-th value of the first in-plane range and the j-th of the second, and the orthogonal axis is const_value |
| `Sampling.PlaneGridSelector` | bouss.py:292-310 | the result depends on the selector only through its lower-cased form, and yz ignores x_bounds |
| `Sampling.PlaneGridExample` | bouss.py:296-300 | the concrete 3 x 3 xy grid over [-1, 1] x [-2, 2] at z = 5 |
| `Policy.OrOne` | bouss.py:172-179 | computes Python's x \| 1 on an int: x + 1 for even x, x for odd x |
| `Policy.NodeCap` | bouss.py:171-179 | computes the cap (31, 25) from 10000 points, (41, 31) from 4000, (51, 41) from 1000, and none below |
| `Policy.OddCeiling` | bouss.py:164-167 | the bumped count is odd and either n or n + 1 |
| `Policy.EffectiveNodes` | bouss.py:163-179 | computes the node counts used: the odd-adjusted request, lowered to the cap of the point count when there is one |
| `Policy.AdjustNodeCounts` | bouss.py:163-179 | the step-by-step adjustment equals the reference policy `EffectiveNodes` |
| `Policy.EffectiveNodesPolicy` | bouss.py:163-179 | both counts are odd and >= 3, never above the odd-adjusted request, under the cap of the point count, and equal to the odd-adjusted request below 1000 points |
| `Policy.OrOneIsIdentityInPolicy` | bouss.py:172-179 | the final or-with-1 never changes a count |
| `Policy.EffectiveNodesIdempotent` | bouss.py:163-179 | the policy applied to its own output changes nothing |
| `Policy.BytesPerPoint` | bouss.py:217-219 | computes 5 arrays · n_r·n_theta elements · 8 bytes |
| `Policy.BatchSize` | bouss.py:216-224 | 1 <= batch size <= max(1, N); a batch above 1 fits the 64 MiB budget, and one point more would not fit unless the batch is all N points |
| `Policy.DefaultBatchSize` | bouss.py:216-224 | with 61 x 41 nodes and 999 points the batch size is 670 |
| `Simpson.SimpsonPattern` | bouss.py:194-196 | the Simpson weight vector 1, 4, 2, …, 4, 1 of length n, as a function; length n |
| `Simpson.SimpsonWeights` | bouss.py:194-199 | ones, with 4 at odd interior indices and 2 at even interior indices; equal to the reference `SimpsonPattern` |
| `Simpson.SimpsonPrefixSum` | bouss.py:194-196 | for even k, the first k weights sum to 3k - 1 |
| `Simpson.SimpsonWeightSum` | bouss.py:194-196 | for odd n >= 3 the weights sum to 3(n - 1) |
| `Simpson.SimpsonIntegratesConstant` | bouss.py:200-203 | (delta/3)·sum of the weights is the interval length: Simpson integrates a constant exactly |
| `Simpson.MomentPrefixClosed` | bouss.py:194-196 | the pairwise running total 2(k - 2) + 4(k - 1) + … of the terms i·w_i has the closed form 1.5k² - k for even k |
| `Simpson.SimpsonPrefixMomentSteps` | bouss.py:194-196 | for even k <= n - 1 the first k terms i·w_i of the weight vector sum to that pairwise running total |
| `Simpson.SimpsonPrefixMoment` | bouss.py:192-196 | for even k, the first k terms i·w_i sum to 1.5k² - k |
| `Simpson.SimpsonMomentSum` | bouss.py:192-196 | for odd n the first moment i·w_i sums to 1.5(n - 1)² |
| `DiskQuadrature.AreaWeights` | bouss.py:200-204 | computes area_weights_2d: entry [i][j] is r_i·((w_r[i] dr)/3 · (w_t[j] dtheta)/3); the array is n_r x n_theta |
| `DiskQuadrature.KernelValues` | bouss.py:232-236 | computes K for one point: the kernel at dx = x - r_i cos theta_j, dy = y - r_i sin theta_j and the clamped depth; its shape is that of the weights |
| `DiskQuadrature.Contract` | bouss.py:239-241 | computes np.tensordot over axes ([1, 2], [0, 1]) for one point: the sum over i and j of a[i][j]·b[i][j] |
| `DiskQuadrature.Quadrature` | bouss.py:239-241 | computes the kernel values contracted with the area weights |
| `DiskQuadrature.PolarNodes` | bouss.py:192-210 | the grid has n_r radii, and n_theta cosines and sines, with an n_r x n_theta weight array |
| `DiskQuadrature.QuadratureOfConstant` | bouss.py:232-241 | a kernel that is c everywhere integrates to c times the total weight, on any grid |
| `DiskQuadrature.ContractOfConstant` | bouss.py:239-241 | contracting a constant array c with the weights gives c times their total |
| `DiskQuadrature.ContractOfScaledRows` | bouss.py:239-241 | row dots that are c times the row totals of the weights contract to c times the weight total |
| `DiskQuadrature.SimpsonFactorsSum` | bouss.py:200-203 | the factors (w·delta)/3 with delta = len/(n - 1) add up to len |
| `DiskQuadrature.SimpsonFirstMoment` | bouss.py:200-204 | sum of r_i·(w_i dr/3) is a²/2: the radial rule integrates rho exactly |
| `DiskQuadrature.AreaRowTotal` | bouss.py:203-204 | row i of the area weights adds up to 2 pi r_i (w_i dr/3) |
| `DiskQuadrature.AreaWeightsTotal` | bouss.py:200-204 | for odd counts the area weights add up to pi a² |
| `DiskQuadrature.PolarNodesArea` | bouss.py:192-204 | the weights of the grid built from odd counts add up to the disk's area pi a² |
| `DiskQuadrature.QuadratureOfConstantTotal` | bouss.py:239-241 | a constant kernel c on a grid of total weight T integrates to c·T |
| `Circle.Localize` | bouss.py:182-189 | the local point is shifted by -center, its depth is at least eps, and it is the point's own depth when z >= eps |
| `Circle.SolverGrid` | bouss.py:163-204 | the grid is well shaped, with node counts given by the policy |
| `Circle.Integrated` | bouss.py:239-241 | computes q times the quadrature of one kernel at a local point |
| `Circle.IntegrateAll` | bouss.py:414-416 | computes the three integrals sig_zz, sig_xz, sig_yz of one local point |
| `Circle.SurfaceSigma` | bouss.py:243-252 | computes sigma_z from the integrated value: the bands on r = hypot(x - cx, y - cy) where z <= eps, the value elsewhere |
| `Circle.SigmaZAt` | bouss.py:182-252 | computes the reference sigma_z of a point: the integrated K_zz at the localized point, then the surface bands |
| `Circle.Projected` | bouss.py:419-428 | computes sig_xz cos(phi) + sig_yz sin(phi) with phi = atan2(y, x), or 0 on the surface |
| `Circle.TauRZAt` | bouss.py:418-428 | computes the reference tau_rz of a point: the projection of its integrated shears |
| `Circle.Validate` | bouss.py:157-162 | no error exactly when a > 0, every z >= 0 and both counts >= 3; otherwise NonPositiveRadius, NegativeDepth, TooFewNodes in that order |
| `Circle.BuildGrid` | bouss.py:163-210 | the weights and nodes built step by step are the solver grid, on the policy's counts |
| `Circle.LocalPoints` | bouss.py:182-189 | one local point per input point, in order |
| `Circle.IntegrateCircularSigmaZ` | bouss.py:155-254 | the validation error when there is one; otherwise N values whose entry k is `SigmaZAt` of point k on the solver grid, whatever the batch size |
| `Circle.SurfaceBands` | bouss.py:243-252 | the banded writes on r = hypot(x_all, y_all) leave each entry at its surface value |
| `Circle.IntegrateCircularStressFull` | bouss.py:329-442 | the same validation; otherwise sigma_z[k] is `SigmaZAt` on K_zz and tau_rz[k] is `TauRZAt`, both on the solver grid |
| `Circle.SurfaceOutputs` | bouss.py:418-440 | sigma_z is sig_zz banded at the surface, and tau_rz is the projection zeroed at the surface |
| `Circle.ShearProjection` | bouss.py:418-428 | tau_rz = sig_xz cos(phi) + sig_yz sin(phi) with phi = atan2(y, x), and 0 on the surface |
| `Circle.DiskSurfaceTraction` | bouss.py:424-438 | at 0 <= z <= eps, tau_rz = 0 and sigma_z is q inside, q/2 on the rim and 0 outside r = a, whatever the quadrature gave |
| `Circle.DiskSurfaceOutputs` | bouss.py:424-438 | on the reference outputs, at 0 <= z <= eps: TauRZAt is 0 and SigmaZAt is q inside, q/2 on the rim and 0 outside r = a |
| `Circle.DiskBelowSurface` | bouss.py:418-422 | below eps the point is integrated at its own depth, sigma_z is the integral untouched, and tau_rz projects the shears on the point's azimuth |
| `Circle.DiskTranslation` | bouss.py:182-184 | moving the point and the center together leaves sigma_z and tau_rz unchanged |
| `Circle.DiskConstantKernel` | bouss.py:232-241 | with a constant kernel c, a point below the surface gets q·c·pi a² on any grid of total weight pi a² |
| `Circle.SolverGridArea` | bouss.py:163-204 | the solver grid's weights add up to pi a² for any point count and request |
| `Batching.Range` | bouss.py:226 | computes the values of range(start, stop, step) for step >= 1 |
| `Batching.RangeAt` | bouss.py:226 | entry k of range(start, stop, step) is start + k·step and lies below stop |
| `Batching.RangeLast` | bouss.py:226 | the last start of a non-empty range is within one step of stop |
| `Batching.BatchSlicesPartition` | bouss.py:226-227 | the slices [start, min(start + bs, N)) start at 0, are consecutive and end at N, and index i lies in slice i / bs |
| `Batching.SplitEvaluationInvariant` | bouss.py:226-241 | cutting the points into any sub-batches and concatenating gives the point-by-point evaluation |
| `Batching.FillInBatches` | bouss.py:226-241 | after the loop the array holds the point-by-point evaluation, and the visited starts are range(0, N, bs) |

## Left out

- Floating point: every quantity is an exact real. Rounding, overflow, NaN and
  infinities are not modelled, and `math.pi` is taken as the exact real
  3.141592653589793.
- The transcendental functions and `R2 ** 2.5` are not computed. Sine,
  cosine, arctangent, atan2 and hypot are parameters. The Boussinesq kernels
  are parameters, so the model proves nothing that depends on their formula.
- The two spellings of K_zz, `3 z³ / (2 pi R5)` in the sigma_z routine and
  `C3 z³ / R5` in the full routine, are one real function. Both solvers
  therefore take the same kernel parameter. Their floating-point results may
  differ in the last bit.
- The accuracy of the quadrature against the exact Boussinesq integral is
  left out; it is a property of the analysis, not of the code. What is proved
  is that the rule integrates a constant kernel exactly (area pi a²).
- The order of the element-wise products of the area weights,
  `(fr·ft)·r_i`, is modelled as `r_i·(fr·ft)`. The two are equal in the reals.
- `assert pts.ndim == 2 and pts.shape[1] == 3`: points are `Point3` values,
  so this shape is a type.
- The `if np.any(surface_mask)` guards only skip work that would change
  nothing, so the overwrites are modelled unconditionally.
- The full routine's three output arrays sig_zz, sig_xz and sig_yz are
  modelled as one array of triples. Each batch writes all three for the same
  slice.
- `generate_plane_grid` in xz or yz without z bounds fails in Python with a
  TypeError from indexing None. The model reports it as `MissingZBounds`.
- `Sampling.Lower`: `str.lower()` is modelled as ASCII lower-casing. This
  decides membership in {xy, xz, yz} exactly as Python does.
- `Rotation.RotatePointsXY`: a nonzero rotation is stated as the matrix
  formula over the uninterpreted cosine and sine. Its inverse property needs
  the trigonometric identities as hypotheses.
- Every argument is explicit: the defaults poisson_ratio = 0.3,
  rotation_deg = 0.0, center_xy = (0, 0), n_r = 61, n_theta = 41 and
  z_bounds = None are not built in. A caller passes them.
- The web front end (app.py) and the command-line driver (run.py) are not
  part of this model.
