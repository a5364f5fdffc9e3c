# Bayesian mean estimation with a Metropolis sampler, in Dafny

This project models the core of a small Go program. The program estimates the
posterior distribution of the mean of a normal population from observed data,
using the Metropolis algorithm. The model has two parts.

- `Dist` (`dist.dfy`) models `dist.go`. A `Distribution` has a type code, a
  list of literal prior parameters and, for each parameter slot, an optional
  dependency on another distribution. Resolving the parameters (`getPriors`)
  walks the slots in order. A slot with a dependency takes a prior sample of
  that dependency; any other slot takes its literal. `SamplePrior`, `Prob` and
  `LogProb` resolve the parameters first, then dispatch on the type code. Only
  `Normal` is implemented. Every other code fails, and so does a normal
  distribution with fewer than two parameters (the source indexes
  `priors[0]` and `priors[1]`). Both failures are panics in the source and an
  `Error` result here.
- `Sampler` (`sampler.dfy`) models `main.go`. `sampleNormalMu` runs `n`
  Metropolis iterations over the mean, with the deviation fixed at its prior
  value. `mean` averages a list.

The environment is made explicit (`oracle.dfy`):

- A random source is an infinite stream (`nat -> real`) read from a given
  position. Every operation that draws returns the position it reached, so a
  later draw from the same source starts there. `SampleNormalMu` returns the
  positions both of its streams reached.
- Each normal variate reads exactly one element of the stream.
- The proposals come from the stream behind the package variable `src`. The
  uniform number `p` comes from a separate stream, because `rand.Float64()` is
  the random package's own top-level source, not `src`.
- The normal density, its logarithm, the variate transform and `math.Log` are
  passed in as function values (`Numerics`). Nothing is assumed about them.

Each loop of the source is a `method` that is proved equal to a specification
function. The specification functions are `Resolve`, `Sample`, `Density`,
`LogDensity`, `Trace`, `Accepted`, `LogLikelihood` and `Sum`. The lemmas state
the properties of those functions.

The model follows the code where it is more permissive than a careful caller
would be:

- `sampleNormalMu` checks nothing about its inputs (positive scales, non-empty
  data, `n >= 1`), so the model has no preconditions either. A non-positive `n` gives an empty trace.
  Empty data gives log-likelihoods of zero.
- The dependencies of a distribution are resolved before its type code is
  examined. For an unknown type, dependency sampling happens, and can fail,
  before the unknown-type error.

## Model

| member | source | states |
|---|---|---|
| `Dist.NewNormal` | dist.go:42-44 | the result has type `Normal`, priors exactly `[mu, sd]` and no dependency |
| `Dist.DepAt` | dist.go:87 | a slot consults a dependency iff its index is within `Deps` and the entry there is non-nil; it is then that entry, a strict part of the distribution |
| `Dist.NormalParams` | dist.go:49-55 | the type dispatch succeeds iff the type is `Normal` and at least two parameters were resolved, giving the first two; any other type is `UnknownDistributionType`; a `Normal` with fewer than two parameters fails with `IndexOutOfRange` at the first missing index, as `priors[0]`/`priors[1]` does |
| `Dist.ResolvePrefix` | dist.go:85-92 | resolving the first k slots yields exactly k values and never moves the stream backwards |
| `Dist.Resolve` | dist.go:84-94 | `getPriors` yields exactly one value per literal prior |
| `Dist.Sample` | dist.go:47-56 | a prior sample succeeds only for a `Normal` with at least two priors, and it reads at least one variate |
| `Dist.Density` | dist.go:59-68 | the density succeeds only for a `Normal` with at least two priors |
| `Dist.LogDensity` | dist.go:71-80 | the log-density succeeds only for a `Normal` with at least two priors |
| `Dist.GetPriors` | dist.go:84-94 | the slot-filling loop over a fresh array returns exactly `Resolve`; it has no `modifies` clause, so resolution changes no existing state |
| `Dist.SamplePrior` | dist.go:47-56 | resolve-then-draw returns exactly `Sample` |
| `Dist.Prob` | dist.go:59-68 | resolve-then-evaluate returns exactly `Density` |
| `Dist.LogProb` | dist.go:71-80 | resolve-then-evaluate returns exactly `LogDensity` |
| `Dist.ResolveErrorSticks` | dist.go:86-92 | once a slot's dependency fails, resolving every longer prefix fails with that same error |
| `Dist.ResolvePrefixExtends` | dist.go:86-92 | a successful resolution extends the resolution of each shorter prefix, at a stream position no later |
| `Dist.LiteralSlot` | dist.go:87-91 | a slot past the end of `Deps`, or with a nil dependency, resolves to its literal prior exactly |
| `Dist.DependentSlot` | dist.go:87-88 | a slot with a dependency resolves to a prior sample of that dependency, drawn where the earlier slots left the stream |
| `Dist.ResolveReadsOnlyConsulted` | dist.go:86-91 | two distributions that agree on the dependencies of existing slots, and on the literals of slots without one, resolve identically |
| `Dist.LiteralIgnoredUnderDependency` | dist.go:87-88 | changing the literal prior of a slot that has a dependency changes neither resolution nor sampling |
| `Dist.TrailingDepsIgnored` | dist.go:86-87 | dependencies appended past the last literal prior are never consulted: resolution and sampling are unchanged |
| `Dist.FlatResolvesToPriors` | dist.go:84-93 | without dependencies, resolution returns the literal priors and reads nothing from the stream |
| `Dist.FlatDensitiesDrawNothing` | dist.go:59-80 | without dependencies, `Prob` and `LogProb` are the normal density and log-density of the first two priors (or the dispatch error), and read no variate |
| `Dist.OnlyNormalSupported` | dist.go:12-17 | every type code other than `Normal` fails in all three operations, the declared `Beta`, `Poisson` and `Uniform` included; if resolution succeeded, the error is `UnknownDistributionType` |
| `Dist.NewNormalBehaviour` | dist.go:42-80 | a fresh normal distribution draws exactly one variate per sample, and its densities use `mu` and `sd` without drawing |
| `Dist.SampleSucceedsIff` | dist.go:47-56 | a prior sample succeeds iff every node reached is a `Normal` with two or more priors, whatever the stream holds; it then reads exactly one variate per node reached |
| `Dist.DensitySucceedsIff` | dist.go:59-80 | `Prob` and `LogProb` succeed iff every node reached is a `Normal` with two or more priors, whatever the stream holds; they then read exactly the variates their dependencies draw and none of their own |
| `Dist.ResolveSucceedsIff` | dist.go:84-93 | resolving k slots succeeds iff every dependency they consult is samplable; it then reads exactly the variates those dependencies draw |
| `Dist.HierarchicalSample` | dist.go:26-29 | a normal whose mean depends on another normal draws that mean first, then its own variate around it, from two consecutive stream positions |
| `Sampler.Sum` | main.go:123-126 | the accumulation of `mean`: the elements added from left to right starting at zero (a definition; `SumBounds` and `MeanWithinBounds` state its properties) |
| `Sampler.LogLikelihood` | main.go:78-82 | the accumulation of the inner loop over the first n points (a definition; `LogLikelihoodIsSum`, `LogLikelihoodOfPrefix` and `LogLikelihoodAppend` state its properties) |
| `Sampler.LogLikelihoodIsSum` | main.go:78-82 | the log-likelihood of the first n points is the `Sum` of their individual log-densities |
| `Sampler.Proposal` | main.go:69-70 | iteration i's proposal: a normal variate around the current mean with the proposal deviation, from position `srcPos + i` (a definition; `ProposalIsPriorSample` relates it to `SamplePrior`) |
| `Sampler.ProposalIsPriorSample` | main.go:69-70 | the proposal equals a prior sample of `NewNormal(cur, propSd)` drawn at the iteration's stream position, which advances the stream by one |
| `Sampler.LogRatio` | main.go:87-92 | proposing the current mean itself gives a log-ratio of zero |
| `Sampler.Accepts` | main.go:95-97 | when the proposal equals the current mean, it is accepted iff the log of the uniform number is negative |
| `Sampler.Step` | main.go:97-100 | the mean iteration i ends with (a definition; `IterationOutcome`, `TraceEntry` and `MovesAtMostAccepted` state its properties) |
| `Sampler.Trace` | main.go:63-103 | the trace after k iterations has exactly k entries |
| `Sampler.Accepted` | main.go:64-100 | the acceptance count after k iterations is between 0 and k |
| `Sampler.SampleNormalMu` | main.go:56-108 | the loop returns exactly `n` entries (none when `n <= 0`); they are the chain `Trace`; the counter is `Accepted` and at most the trace length; each stream ends exactly one draw per iteration further on; that `curSd` stays `priorSd` throughout is a loop invariant, not part of the contract |
| `Sampler.Likelihoods` | main.go:78-82 | the inner loop leaves each accumulator equal to the sum over the data of the log-density under its mean with the fixed deviation |
| `Sampler.IterationOutcome` | main.go:69-100 | iteration i appends its proposal iff the log of its uniform number is below (proposal log-likelihood + log-prior) − (current log-likelihood + log-prior); otherwise it repeats the current mean; the counter grows by one exactly on acceptance |
| `Sampler.Mean` | main.go:122-128 | the loop returns the sum of the elements divided by their count, and NaN for an empty list |
| `Sampler.TracePrefix` | main.go:65-104 | running more iterations never changes the entries already produced |
| `Sampler.TraceEntry` | main.go:97-103 | entry i is the outcome of iteration i started from entry i−1 (`priorMu` for i = 0): the proposal of that iteration, or the previous value repeated exactly |
| `Sampler.SingleIteration` | main.go:59-103 | one iteration yields `[priorMu]` or `[first proposal]` |
| `Sampler.MovesAtMostAccepted` | main.go:97-100 | the number of entries that differ from the value before them is at most the acceptance count |
| `Sampler.NoAcceptanceKeepsPrior` | main.go:59-103 | if no proposal is accepted, every trace entry equals `priorMu` |
| `Sampler.TraceReadsOnlyPastDraws` | main.go:69-97 | the first k entries and acceptances depend only on the first k draws of each stream, so equal streams give identical traces |
| `Sampler.LogLikelihoodOfPrefix` | main.go:79-82 | the log-likelihood of the first n points ignores the points after them |
| `Sampler.LogLikelihoodAppend` | main.go:79-82 | the log-likelihood of concatenated data is the sum of the parts' log-likelihoods |
| `Sampler.PriorTermIsNormalLogDensity` | main.go:87-89 | the prior terms of the log-ratio equal `LogProb` of `NewNormal(priorMu, priorSd)`, which draws nothing |
| `Sampler.SumBounds` | main.go:123-126 | if every element lies in [lo, hi], the accumulated sum lies between n·lo and n·hi |
| `Sampler.MeanWithinBounds` | main.go:122-128 | the mean of a non-empty list lies between any lower and any upper bound of its elements |

## Left out

- Floating point: `float64` is modelled as `real`, so there is no rounding, no overflow, no infinities and no NaN propagation. `math.Log(0)` is whatever the `log` parameter returns. The only NaN in the model is the 0/0 of `mean` on an empty list.
- The bodies of `distuv.Normal`'s `Rand`, `Prob` and `LogProb`, and of `math.Log`: they are uninterpreted parameters. Nothing ties `LogProb` to the logarithm of `Prob`.
- Each normal variate reads exactly one stream element. The library's generator may read a variable number of raw values per variate. Only the order of reading is modelled.
- Cyclic dependency graphs: Go pointers allow them, but a `Distribution` value is a finite tree, so resolution always terminates.
- The unused `Current` field of `Distribution`.
- The printing in `testDistributions` (dist.go:20-30): console output only. The two-level scenario it builds (dist.go:26-29) is modelled by `HierarchicalSample`.
- The acceptance-rate `fmt.Println` (main.go:106-107): console output only. The count it prints is returned by `SampleNormalMu`.
- `main` (main.go:22-40): seeding the source from the clock and orchestration.
- `generateData` (main.go:112-119): only random draws from the library.
- The plotting code (graphs.go) is not part of this model.
- Statistical convergence of the trace towards the data mean: a claim about distributions of runs, not about one run.
- Sharing and aliasing of `*Distribution` pointers: dependencies are values here. Because resolution writes nothing but its fresh result, sharing cannot change what it computes.
