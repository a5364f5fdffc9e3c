/**
 * The Metropolis sampler for the mean of a normal model, and the mean of a
 * list of numbers (main.go).
 *
 * The chain starts at the prior mean and keeps the standard deviation fixed
 * at the prior one. Iteration i draws a proposal around the current mean from
 * the distribution library's stream, compares the log-posterior of the
 * proposal with that of the current mean, draws a uniform number from the
 * random package's own stream, and moves to the proposal when the logarithm
 * of that number is below the log-ratio. Every iteration appends the mean it
 * ends with to the trace.
 */
module Sampler {
  import opened Wrappers
  import opened Oracle
  import Dist

  /** The sampler's inputs other than the iteration count. */
  datatype Model = Model(priorMu: real, priorSd: real, propSd: real, data: seq<real>)

  /**
   * The random streams and library routines a run reads: src is the stream of
   * the distribution library (one variate per proposal), uniform is the
   * stream behind the random package's top-level Float64.
   */
  datatype Env = Env(num: Numerics, src: Source, srcPos: nat, uniform: Source, uniformPos: nat)

  /** A floating-point quotient: a number, or NaN for 0/0. */
  datatype Float = Finite(value: real) | NaN

  /** The sum of xs, added from left to right starting at zero. */
  function Sum(xs: seq<real>): real
  {
    if xs == [] then 0.0 else Sum(xs[..|xs| - 1]) + xs[|xs| - 1]
  }

  /** The log-density of each point of xs under a normal with mean mu and deviation sd. */
  function PointLogDensities(num: Numerics, mu: real, sd: real, xs: seq<real>): seq<real>
  {
    seq(|xs|, j requires 0 <= j < |xs| => num.logProb(mu, sd, xs[j]))
  }

  /**
   * The log-likelihood of the first n data points under a normal with mean mu
   * and deviation sd: their log-densities added from left to right.
   */
  function LogLikelihood(num: Numerics, mu: real, sd: real, data: seq<real>, n: nat): real
    requires n <= |data|
  {
    if n == 0 then 0.0
    else LogLikelihood(num, mu, sd, data, n - 1) + num.logProb(mu, sd, data[n - 1])
  }

  /** The raw variate behind iteration i's proposal. */
  function ProposalDraw(g: Env, i: nat): real
  {
    g.src(g.srcPos + i)
  }

  /** The uniform number iteration i compares against. */
  function UniformDraw(g: Env, i: nat): real
  {
    g.uniform(g.uniformPos + i)
  }

  /** Iteration i's proposal: a normal variate around the current mean with the proposal deviation. */
  function Proposal(m: Model, g: Env, i: nat, cur: real): real
  {
    g.num.rand(cur, m.propSd, ProposalDraw(g, i))
  }

  /**
   * The acceptance log-ratio: log-likelihood plus log-prior of the proposal,
   * minus the same for the current mean, all with the prior deviation.
   */
  function LogRatio(m: Model, num: Numerics, cur: real, prop: real): (r: real)
    ensures cur == prop ==> r == 0.0
  {
    (LogLikelihood(num, prop, m.priorSd, m.data, |m.data|) + num.logProb(m.priorMu, m.priorSd, prop))
    - (LogLikelihood(num, cur, m.priorSd, m.data, |m.data|) + num.logProb(m.priorMu, m.priorSd, cur))
  }

  /** Whether iteration i, starting from mean cur, accepts its proposal. */
  predicate Accepts(m: Model, g: Env, i: nat, cur: real)
    ensures Proposal(m, g, i, cur) == cur ==> (Accepts(m, g, i, cur) <==> g.num.log(UniformDraw(g, i)) < 0.0)
  {
    g.num.log(UniformDraw(g, i)) < LogRatio(m, g.num, cur, Proposal(m, g, i, cur))
  }

  /** The mean iteration i ends with, starting from mean cur. */
  function Step(m: Model, g: Env, i: nat, cur: real): real
  {
    if Accepts(m, g, i, cur) then Proposal(m, g, i, cur) else cur
  }

  /** The current mean after the iterations recorded in trace: its last entry, or the prior mean. */
  function Current(m: Model, trace: seq<real>): real
  {
    if trace == [] then m.priorMu else trace[|trace| - 1]
  }

  /** The trace after k iterations. */
  function Trace(m: Model, g: Env, k: nat): (t: seq<real>)
    ensures |t| == k
  {
    if k == 0 then []
    else
      var t := Trace(m, g, k - 1);
      var cur := Current(m, t);
      t + [Step(m, g, k - 1, cur)]
  }

  /** The number of accepted proposals among the first k iterations. */
  function Accepted(m: Model, g: Env, k: nat): (a: nat)
    ensures a <= k
  {
    if k == 0 then 0
    else Accepted(m, g, k - 1) + (if Accepts(m, g, k - 1, Current(m, Trace(m, g, k - 1))) then 1 else 0)
  }

  /** The number of entries of trace that differ from the mean before them. */
  function Moves(m: Model, trace: seq<real>): nat
  {
    if trace == [] then 0
    else
      var t := trace[..|trace| - 1];
      Moves(m, t) + (if trace[|trace| - 1] != Current(m, t) then 1 else 0)
  }

  /**
   * Runs n iterations of the Metropolis algorithm (sampleNormalMu) and returns
   * the trace together with the acceptance count that the source reports.
   */
  method SampleNormalMu(priorMu: real, priorSd: real, propSd: real, data: seq<real>, n: int, g: Env)
    returns (trace: seq<real>, accepted: nat, srcNext: nat, uniformNext: nat)
    ensures |trace| == (if n <= 0 then 0 else n)
    ensures srcNext == g.srcPos + |trace| && uniformNext == g.uniformPos + |trace|
    ensures trace == Trace(Model(priorMu, priorSd, propSd, data), g, |trace|)
    ensures accepted == Accepted(Model(priorMu, priorSd, propSd, data), g, |trace|)
    ensures accepted <= |trace|
  {
    ghost var m := Model(priorMu, priorSd, propSd, data);
    var curMu := priorMu;
    var curSd := priorSd;
    trace := [];
    accepted := 0;
    var i := 0;
    while i < n
      invariant 0 <= i
      invariant i <= n || i == 0
      invariant trace == Trace(m, g, i)
      invariant accepted == Accepted(m, g, i)
      invariant curMu == Current(m, trace)
      invariant curSd == priorSd
    {
      var propMu := g.num.rand(curMu, propSd, g.src(g.srcPos + i));

      var likelihoodCurrent, likelihoodProposal := Likelihoods(g.num, curMu, propMu, curSd, data);

      var priorCurrent := g.num.logProb(priorMu, priorSd, curMu);
      var priorProposal := g.num.logProb(priorMu, priorSd, propMu);
      var pCurrent := likelihoodCurrent + priorCurrent;
      var pProposal := likelihoodProposal + priorProposal;
      var pAccept := pProposal - pCurrent;

      var p := g.uniform(g.uniformPos + i);
      p := g.num.log(p);
      IterationOutcome(m, g, i, curMu, propMu, pAccept, p);
      if p < pAccept {
        curMu := propMu;
        accepted := accepted + 1;
      }

      trace := trace + [curMu];
      assert trace == Trace(m, g, i + 1);
      i := i + 1;
    }
    srcNext, uniformNext := g.srcPos + i, g.uniformPos + i;
  }

  /**
   * The inner loop of an iteration: accumulates, over the data, the
   * log-densities under the current mean and under the proposed mean.
   */
  method Likelihoods(num: Numerics, curMu: real, propMu: real, sd: real, data: seq<real>)
    returns (likelihoodCurrent: real, likelihoodProposal: real)
    ensures likelihoodCurrent == LogLikelihood(num, curMu, sd, data, |data|)
    ensures likelihoodProposal == LogLikelihood(num, propMu, sd, data, |data|)
  {
    likelihoodCurrent, likelihoodProposal := 0.0, 0.0;
    var j := 0;
    while j < |data|
      invariant 0 <= j <= |data|
      invariant likelihoodCurrent == LogLikelihood(num, curMu, sd, data, j)
      invariant likelihoodProposal == LogLikelihood(num, propMu, sd, data, j)
    {
      likelihoodCurrent := likelihoodCurrent + num.logProb(curMu, sd, data[j]);
      likelihoodProposal := likelihoodProposal + num.logProb(propMu, sd, data[j]);
      j := j + 1;
    }
  }

  /**
   * Iteration i, given the values the loop body computes from the current
   * mean, appends the proposal or the current mean and counts an acceptance.
   */
  lemma IterationOutcome(m: Model, g: Env, i: nat, cur: real, prop: real, pAccept: real, logU: real)
    requires cur == Current(m, Trace(m, g, i))
    requires prop == g.num.rand(cur, m.propSd, g.src(g.srcPos + i))
    requires pAccept == LogRatio(m, g.num, cur, prop)
    requires logU == g.num.log(g.uniform(g.uniformPos + i))
    ensures Trace(m, g, i + 1) == Trace(m, g, i) + [if logU < pAccept then prop else cur]
    ensures Current(m, Trace(m, g, i + 1)) == if logU < pAccept then prop else cur
    ensures Accepted(m, g, i + 1) == Accepted(m, g, i) + (if logU < pAccept then 1 else 0)
  {
    assert Accepts(m, g, i, cur) == (logU < pAccept);
  }

  /** The mean of nums: the sum divided by the count, NaN (0/0) for an empty list. */
  method Mean(nums: seq<real>) returns (r: Float)
    ensures |nums| == 0 ==> r == NaN
    ensures |nums| > 0 ==> r == Finite(Sum(nums) / |nums| as real)
  {
    var res := 0.0;
    var i := 0;
    while i < |nums|
      invariant 0 <= i <= |nums|
      invariant res == Sum(nums[..i])
    {
      assert nums[..i + 1][..i] == nums[..i];
      res := res + nums[i];
      i := i + 1;
    }
    assert nums[..i] == nums;
    if |nums| == 0 {
      r := NaN;
    } else {
      r := Finite(res / |nums| as real);
    }
  }

  // ---------------------------------------------------------------------------
  // Properties of the chain.

  /**
   * Iteration i's proposal is a prior sample of a fresh normal distribution
   * around the current mean, drawn at the iteration's position of the stream.
   */
  lemma ProposalIsPriorSample(m: Model, g: Env, i: nat, cur: real)
    ensures Dist.Sample(Dist.NewNormal(cur, m.propSd), g.num, g.src, g.srcPos + i)
      == Ok(Drawn(Proposal(m, g, i, cur), g.srcPos + i + 1))
  {
    Dist.NewNormalBehaviour(cur, m.propSd, cur, g.num, g.src, g.srcPos + i);
  }

  /** Running longer only extends the trace: the first k entries never change. */
  lemma {:induction false} TracePrefix(m: Model, g: Env, k: nat, k': nat)
    requires k <= k'
    ensures Trace(m, g, k) == Trace(m, g, k')[..k]
    decreases k' - k
  {
    if k < k' {
      TracePrefix(m, g, k, k' - 1);
      assert Trace(m, g, k')[..k' - 1] == Trace(m, g, k' - 1);
    }
  }

  /**
   * Entry i of any trace of at least i + 1 iterations is the outcome of
   * iteration i started from the entry before it (the prior mean for i = 0):
   * either that iteration's proposal or, on rejection, the previous value
   * repeated exactly.
   */
  lemma TraceEntry(m: Model, g: Env, k: nat, i: nat)
    requires i < k
    ensures
      var t := Trace(m, g, k);
      var prev := if i == 0 then m.priorMu else t[i - 1];
      t[i] == Step(m, g, i, prev) &&
      (t[i] == Proposal(m, g, i, prev) || t[i] == prev)
  {
    var t := Trace(m, g, k);
    var u := Trace(m, g, i + 1);
    TracePrefix(m, g, i + 1, k);
    var prev := Current(m, Trace(m, g, i));
    assert u == Trace(m, g, i) + [Step(m, g, i, prev)];
    assert t[i] == u[i];
    assert prev == if i == 0 then m.priorMu else t[i - 1];
  }

  /** A single iteration yields either the prior mean or the first proposal. */
  lemma SingleIteration(m: Model, g: Env)
    ensures Trace(m, g, 1) == [m.priorMu] || Trace(m, g, 1) == [Proposal(m, g, 0, m.priorMu)]
  {
  }

  /** Every change of the mean is counted: the trace moves at most Accepted times. */
  lemma {:induction false} MovesAtMostAccepted(m: Model, g: Env, k: nat)
    ensures Moves(m, Trace(m, g, k)) <= Accepted(m, g, k)
  {
    if k > 0 {
      MovesAtMostAccepted(m, g, k - 1);
      var t := Trace(m, g, k);
      assert t[..k - 1] == Trace(m, g, k - 1);
    }
  }

  /** When no proposal is accepted, the trace repeats the prior mean throughout. */
  lemma {:induction false} NoAcceptanceKeepsPrior(m: Model, g: Env, k: nat)
    requires Accepted(m, g, k) == 0
    ensures forall i :: 0 <= i < k ==> Trace(m, g, k)[i] == m.priorMu
  {
    if k > 0 {
      NoAcceptanceKeepsPrior(m, g, k - 1);
      assert Trace(m, g, k)[..k - 1] == Trace(m, g, k - 1);
    }
  }

  /**
   * The first k entries depend only on the first k draws of each stream: two
   * runs that agree on them agree on the trace and on the acceptance count.
   */
  lemma {:induction false} TraceReadsOnlyPastDraws(m: Model, g: Env, h: Env, k: nat)
    requires g.num == h.num
    requires forall i :: 0 <= i < k ==> ProposalDraw(g, i) == ProposalDraw(h, i)
    requires forall i :: 0 <= i < k ==> UniformDraw(g, i) == UniformDraw(h, i)
    ensures Trace(m, g, k) == Trace(m, h, k)
    ensures Accepted(m, g, k) == Accepted(m, h, k)
  {
    if k > 0 {
      TraceReadsOnlyPastDraws(m, g, h, k - 1);
      var cur := Current(m, Trace(m, g, k - 1));
      assert ProposalDraw(g, k - 1) == ProposalDraw(h, k - 1);
      assert UniformDraw(g, k - 1) == UniformDraw(h, k - 1);
      assert Proposal(m, g, k - 1, cur) == Proposal(m, h, k - 1, cur);
    }
  }

  /** The log-likelihood of the first n points does not depend on the points after them. */
  lemma {:induction false} LogLikelihoodOfPrefix(num: Numerics, mu: real, sd: real, a: seq<real>, b: seq<real>, n: nat)
    requires n <= |a|
    ensures LogLikelihood(num, mu, sd, a + b, n) == LogLikelihood(num, mu, sd, a, n)
  {
    if n > 0 {
      LogLikelihoodOfPrefix(num, mu, sd, a, b, n - 1);
    }
  }

  /** The log-likelihood of the first n points is the sum of their log-densities. */
  lemma {:induction false} LogLikelihoodIsSum(num: Numerics, mu: real, sd: real, data: seq<real>, n: nat)
    requires n <= |data|
    ensures LogLikelihood(num, mu, sd, data, n) == Sum(PointLogDensities(num, mu, sd, data[..n]))
  {
    if n > 0 {
      LogLikelihoodIsSum(num, mu, sd, data, n - 1);
      assert PointLogDensities(num, mu, sd, data[..n])[..n - 1] == PointLogDensities(num, mu, sd, data[..n - 1]);
    }
  }

  /** The log-likelihood of a concatenation is the sum of the parts' log-likelihoods. */
  lemma {:induction false} LogLikelihoodAppend(num: Numerics, mu: real, sd: real, a: seq<real>, b: seq<real>, n: nat)
    requires n <= |b|
    ensures LogLikelihood(num, mu, sd, a + b, |a| + n) == LogLikelihood(num, mu, sd, a, |a|) + LogLikelihood(num, mu, sd, b, n)
  {
    if n == 0 {
      LogLikelihoodOfPrefix(num, mu, sd, a, b, |a|);
    } else {
      LogLikelihoodAppend(num, mu, sd, a, b, n - 1);
      assert (a + b)[|a| + n - 1] == b[n - 1];
    }
  }

  /**
   * The prior terms of the log-ratio are the log-density of a fresh normal
   * distribution with the prior parameters, which reads no random variate.
   */
  lemma PriorTermIsNormalLogDensity(m: Model, g: Env, mu: real, pos: nat)
    ensures
      var r := Dist.LogDensity(Dist.NewNormal(m.priorMu, m.priorSd), mu, g.num, g.src, pos);
      r.Ok? && r.value.next == pos && r.value.value == g.num.logProb(m.priorMu, m.priorSd, mu)
  {
    Dist.NewNormalBehaviour(m.priorMu, m.priorSd, mu, g.num, g.src, pos);
  }

  /** Bounds lo and hi on every element bound the sum by count times lo and count times hi. */
  lemma {:induction false} SumBounds(xs: seq<real>, lo: real, hi: real)
    requires forall i :: 0 <= i < |xs| ==> lo <= xs[i] <= hi
    ensures lo * |xs| as real <= Sum(xs) <= hi * |xs| as real
  {
    if xs != [] {
      var n := |xs|;
      SumBounds(xs[..n - 1], lo, hi);
      assert lo * n as real == lo * (n - 1) as real + lo;
      assert hi * n as real == hi * (n - 1) as real + hi;
    }
  }

  /** The mean of a non-empty list lies between any lower and upper bound of its elements. */
  lemma MeanWithinBounds(nums: seq<real>, lo: real, hi: real)
    requires |nums| > 0
    requires forall i :: 0 <= i < |nums| ==> lo <= nums[i] <= hi
    ensures lo <= Sum(nums) / |nums| as real <= hi
  {
    SumBounds(nums, lo, hi);
  }
}
