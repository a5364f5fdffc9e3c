/**
 * Distributions whose parameters are either literal values or are drawn from
 * other distributions (dist.go).
 *
 * A distribution is an immutable tree: each parameter slot may name a
 * dependency whose prior sample supplies that parameter. Resolving the
 * parameters walks the slots in order and samples every dependency it meets,
 * reading the random stream from left to right. Only the normal family is
 * implemented; every other type code is an error, as is a normal distribution
 * with fewer than two parameters.
 */
module Dist {
  import opened Wrappers
  import opened Oracle

  // Type codes of the distribution families, in declaration order.
  const Normal: int := 0
  const Beta: int := 1
  const Poisson: int := 2
  const Uniform: int := 3

  /** A family (type code), its literal prior parameters and, per slot, an optional dependency. */
  datatype Distribution = Distribution(kind: int, priors: seq<real>, deps: seq<Option<Distribution>>)

  /** The two ways an operation on a distribution fails (both are panics in the source). */
  datatype Error =
    | UnknownDistributionType(kind: int)
    | IndexOutOfRange(index: nat, length: nat)

  /** A normal distribution with literal mean and standard deviation and no dependency. */
  function NewNormal(mu: real, sd: real): (d: Distribution)
    ensures d.kind == Normal && d.priors == [mu, sd] && d.deps == []
  {
    Distribution(Normal, [mu, sd], [])
  }

  /** The dependency consulted for slot i: none when the slot is past the end of deps or nil. */
  function DepAt(d: Distribution, i: nat): (r: Option<Distribution>)
    ensures r.Some? <==> i < |d.deps| && d.deps[i].Some?
    ensures r.Some? ==> r.value < d && r == d.deps[i]
  {
    if i < |d.deps| then (assert d.deps[i] in d.deps; d.deps[i]) else None
  }

  /** The two parameters of a normal distribution, or why they cannot be had. */
  function NormalParams(kind: int, ps: seq<real>): (r: Result<(real, real), Error>)
    ensures r.Ok? <==> kind == Normal && |ps| >= 2
    ensures r.Ok? ==> r.value == (ps[0], ps[1])
    ensures kind != Normal ==> r == Err(UnknownDistributionType(kind))
    ensures kind == Normal && |ps| < 2 ==> r == Err(IndexOutOfRange(|ps|, |ps|))
  {
    if kind != Normal then Err(UnknownDistributionType(kind))
    else if |ps| < 2 then Err(IndexOutOfRange(|ps|, |ps|))
    else Ok((ps[0], ps[1]))
  }

  /** The values of the first k parameter slots, reading the stream from pos. */
  function ResolvePrefix(d: Distribution, k: nat, num: Numerics, src: Source, pos: nat)
    : (r: Result<Drawn<seq<real>>, Error>)
    requires k <= |d.priors|
    ensures r.Ok? ==> |r.value.value| == k && r.value.next >= pos
    decreases d, 0, k
  {
    if k == 0 then Ok(Drawn([], pos))
    else
      match ResolvePrefix(d, k - 1, num, src, pos)
      case Err(e) => Err(e)
      case Ok(Drawn(vs, p)) =>
        match DepAt(d, k - 1)
        case None => Ok(Drawn(vs + [d.priors[k - 1]], p))
        case Some(dep) =>
          match Sample(dep, num, src, p)
          case Err(e) => Err(e)
          case Ok(Drawn(v, q)) => Ok(Drawn(vs + [v], q))
  }

  /** The resolved parameters of d: one value per literal prior (getPriors). */
  function Resolve(d: Distribution, num: Numerics, src: Source, pos: nat)
    : (r: Result<Drawn<seq<real>>, Error>)
    ensures r.Ok? ==> |r.value.value| == |d.priors| && r.value.next >= pos
    decreases d, 0, |d.priors| + 1
  {
    ResolvePrefix(d, |d.priors|, num, src, pos)
  }

  /** One draw from the prior of d (SamplePrior). */
  function Sample(d: Distribution, num: Numerics, src: Source, pos: nat): (r: Result<Drawn<real>, Error>)
    ensures r.Ok? ==> d.kind == Normal && |d.priors| >= 2 && r.value.next > pos
    decreases d, 1, 0
  {
    match Resolve(d, num, src, pos)
    case Err(e) => Err(e)
    case Ok(Drawn(ps, p)) =>
      match NormalParams(d.kind, ps)
      case Err(e) => Err(e)
      case Ok((mu, sd)) => Ok(Drawn(num.rand(mu, sd, src(p)), p + 1))
  }

  /** The density of x under d with its parameters resolved (Prob). */
  function Density(d: Distribution, x: real, num: Numerics, src: Source, pos: nat): (r: Result<Drawn<real>, Error>)
    ensures r.Ok? ==> d.kind == Normal && |d.priors| >= 2 && r.value.next >= pos
  {
    match Resolve(d, num, src, pos)
    case Err(e) => Err(e)
    case Ok(Drawn(ps, p)) =>
      match NormalParams(d.kind, ps)
      case Err(e) => Err(e)
      case Ok((mu, sd)) => Ok(Drawn(num.prob(mu, sd, x), p))
  }

  /** The log-density of x under d with its parameters resolved (LogProb). */
  function LogDensity(d: Distribution, x: real, num: Numerics, src: Source, pos: nat): (r: Result<Drawn<real>, Error>)
    ensures r.Ok? ==> d.kind == Normal && |d.priors| >= 2 && r.value.next >= pos
  {
    match Resolve(d, num, src, pos)
    case Err(e) => Err(e)
    case Ok(Drawn(ps, p)) =>
      match NormalParams(d.kind, ps)
      case Err(e) => Err(e)
      case Ok((mu, sd)) => Ok(Drawn(num.logProb(mu, sd, x), p))
  }

  // ---------------------------------------------------------------------------
  // The operations as the source runs them: a loop that fills a fresh slice,
  // and the three type dispatches that call it.

  /** Fills a fresh array slot by slot: a dependency's prior sample, or else the literal. */
  method GetPriors(d: Distribution, num: Numerics, src: Source, pos: nat)
    returns (r: Result<Drawn<seq<real>>, Error>)
    ensures r == Resolve(d, num, src, pos)
    decreases d, 0, |d.priors| + 1
  {
    var res := new real[|d.priors|];
    var i, p := 0, pos;
    while i < |d.priors|
      invariant 0 <= i <= |d.priors|
      invariant ResolvePrefix(d, i, num, src, pos) == Ok(Drawn(res[..i], p))
    {
      ghost var done := res[..i];
      var dep := DepAt(d, i);
      if dep.Some? {
        var s := SamplePrior(dep.value, num, src, p);
        if s.Err? {
          ResolveErrorSticks(d, i + 1, |d.priors|, num, src, pos);
          return Err(s.error);
        }
        res[i] := s.value.value;
        p := s.value.next;
      } else {
        res[i] := d.priors[i];
      }
      assert res[..i + 1] == done + [res[i]];
      i := i + 1;
    }
    assert res[..] == res[..i];
    r := Ok(Drawn(res[..], p));
  }

  /** Resolves the parameters, then draws one normal variate. */
  method SamplePrior(d: Distribution, num: Numerics, src: Source, pos: nat)
    returns (r: Result<Drawn<real>, Error>)
    ensures r == Sample(d, num, src, pos)
    decreases d, 1, 0
  {
    var priors := GetPriors(d, num, src, pos);
    if priors.Err? {
      return Err(priors.error);
    }
    if d.kind == Normal {
      var ps, p := priors.value.value, priors.value.next;
      if |ps| < 2 {
        return Err(IndexOutOfRange(|ps|, |ps|));
      }
      r := Ok(Drawn(num.rand(ps[0], ps[1], src(p)), p + 1));
    } else {
      r := Err(UnknownDistributionType(d.kind));
    }
  }

  /** Resolves the parameters, then evaluates the density at x. */
  method Prob(d: Distribution, x: real, num: Numerics, src: Source, pos: nat)
    returns (r: Result<Drawn<real>, Error>)
    ensures r == Density(d, x, num, src, pos)
  {
    var priors := GetPriors(d, num, src, pos);
    if priors.Err? {
      return Err(priors.error);
    }
    if d.kind == Normal {
      var ps, p := priors.value.value, priors.value.next;
      if |ps| < 2 {
        return Err(IndexOutOfRange(|ps|, |ps|));
      }
      r := Ok(Drawn(num.prob(ps[0], ps[1], x), p));
    } else {
      r := Err(UnknownDistributionType(d.kind));
    }
  }

  /** Resolves the parameters, then evaluates the log-density at x. */
  method LogProb(d: Distribution, x: real, num: Numerics, src: Source, pos: nat)
    returns (r: Result<Drawn<real>, Error>)
    ensures r == LogDensity(d, x, num, src, pos)
  {
    var priors := GetPriors(d, num, src, pos);
    if priors.Err? {
      return Err(priors.error);
    }
    if d.kind == Normal {
      var ps, p := priors.value.value, priors.value.next;
      if |ps| < 2 {
        return Err(IndexOutOfRange(|ps|, |ps|));
      }
      r := Ok(Drawn(num.logProb(ps[0], ps[1], x), p));
    } else {
      r := Err(UnknownDistributionType(d.kind));
    }
  }

  // ---------------------------------------------------------------------------
  // Properties of resolution.

  /** Once a slot fails, resolving any longer prefix fails with the same error. */
  lemma {:induction false} ResolveErrorSticks(d: Distribution, k: nat, m: nat, num: Numerics, src: Source, pos: nat)
    requires k <= m <= |d.priors|
    requires ResolvePrefix(d, k, num, src, pos).Err?
    ensures ResolvePrefix(d, m, num, src, pos) == ResolvePrefix(d, k, num, src, pos)
    decreases m - k
  {
    if k < m {
      ResolveErrorSticks(d, k, m - 1, num, src, pos);
    }
  }

  /** A successful resolution of m slots extends the resolution of every shorter prefix. */
  lemma {:induction false} ResolvePrefixExtends(d: Distribution, k: nat, m: nat, num: Numerics, src: Source, pos: nat)
    requires k <= m <= |d.priors|
    requires ResolvePrefix(d, m, num, src, pos).Ok?
    ensures ResolvePrefix(d, k, num, src, pos).Ok?
    ensures ResolvePrefix(d, k, num, src, pos).value.value == ResolvePrefix(d, m, num, src, pos).value.value[..k]
    ensures ResolvePrefix(d, k, num, src, pos).value.next <= ResolvePrefix(d, m, num, src, pos).value.next
    decreases m - k
  {
    if k < m {
      var vs := ResolvePrefix(d, m - 1, num, src, pos).value.value;
      ResolvePrefixExtends(d, k, m - 1, num, src, pos);
      assert ResolvePrefix(d, m, num, src, pos).value.value[..m - 1] == vs;
      assert vs[..k] == ResolvePrefix(d, m, num, src, pos).value.value[..k];
    }
  }

  /** A slot without a dependency resolves to its literal prior, exactly. */
  lemma LiteralSlot(d: Distribution, i: nat, num: Numerics, src: Source, pos: nat)
    requires i < |d.priors|
    requires i >= |d.deps| || d.deps[i].None?
    requires Resolve(d, num, src, pos).Ok?
    ensures Resolve(d, num, src, pos).value.value[i] == d.priors[i]
  {
    ResolvePrefixExtends(d, i + 1, |d.priors|, num, src, pos);
  }

  /**
   * A slot with a dependency resolves to a prior sample of that dependency,
   * drawn at the stream position the earlier slots left off at; the literal
   * prior of the slot plays no part.
   */
  lemma DependentSlot(d: Distribution, i: nat, num: Numerics, src: Source, pos: nat)
    requires i < |d.deps| && d.deps[i].Some?
    requires i < |d.priors|
    requires Resolve(d, num, src, pos).Ok?
    ensures ResolvePrefix(d, i, num, src, pos).Ok?
    ensures
      var q := ResolvePrefix(d, i, num, src, pos).value.next;
      var s := Sample(d.deps[i].value, num, src, q);
      s.Ok? && s.value.value == Resolve(d, num, src, pos).value.value[i]
  {
    ResolvePrefixExtends(d, i + 1, |d.priors|, num, src, pos);
    ResolvePrefixExtends(d, i, i + 1, num, src, pos);
  }

  /**
   * Two distributions with the same literal priors wherever no dependency is
   * consulted and the same dependencies in the slots that exist.
   */
  ghost predicate SameConsulted(d: Distribution, e: Distribution)
  {
    |d.priors| == |e.priors| &&
    (forall i :: 0 <= i < |d.priors| ==> DepAt(d, i) == DepAt(e, i)) &&
    (forall i :: 0 <= i < |d.priors| && DepAt(d, i).None? ==> d.priors[i] == e.priors[i])
  }

  /** Resolution reads only the literals of slots without a dependency and the dependencies of existing slots. */
  lemma {:induction false} ResolveReadsOnlyConsulted(d: Distribution, e: Distribution, k: nat, num: Numerics, src: Source, pos: nat)
    requires SameConsulted(d, e)
    requires k <= |d.priors|
    ensures ResolvePrefix(d, k, num, src, pos) == ResolvePrefix(e, k, num, src, pos)
  {
    if k > 0 {
      ResolveReadsOnlyConsulted(d, e, k - 1, num, src, pos);
      assert DepAt(d, k - 1) == DepAt(e, k - 1);
    }
  }

  /** The literal prior of a slot that has a dependency is ignored. */
  lemma LiteralIgnoredUnderDependency(d: Distribution, i: nat, v: real, num: Numerics, src: Source, pos: nat)
    requires i < |d.priors| && i < |d.deps| && d.deps[i].Some?
    ensures Resolve(d.(priors := d.priors[i := v]), num, src, pos) == Resolve(d, num, src, pos)
    ensures Sample(d.(priors := d.priors[i := v]), num, src, pos) == Sample(d, num, src, pos)
  {
    var e := d.(priors := d.priors[i := v]);
    assert SameConsulted(d, e);
    ResolveReadsOnlyConsulted(d, e, |d.priors|, num, src, pos);
  }

  /** Dependencies attached at slots past the last literal prior are never consulted. */
  lemma TrailingDepsIgnored(d: Distribution, extra: seq<Option<Distribution>>, num: Numerics, src: Source, pos: nat)
    requires |d.deps| >= |d.priors|
    ensures Resolve(d.(deps := d.deps + extra), num, src, pos) == Resolve(d, num, src, pos)
    ensures Sample(d.(deps := d.deps + extra), num, src, pos) == Sample(d, num, src, pos)
  {
    var e := d.(deps := d.deps + extra);
    assert forall i :: 0 <= i < |d.priors| ==> DepAt(d, i) == DepAt(e, i);
    assert SameConsulted(d, e);
    ResolveReadsOnlyConsulted(d, e, |d.priors|, num, src, pos);
  }

  /** True when no slot of d consults a dependency. */
  ghost predicate Flat(d: Distribution)
  {
    forall i :: 0 <= i < |d.priors| ==> DepAt(d, i).None?
  }

  /** Without dependencies, resolution returns the literal priors and reads nothing from the stream. */
  lemma {:induction false} FlatResolvesToPriors(d: Distribution, k: nat, num: Numerics, src: Source, pos: nat)
    requires Flat(d)
    requires k <= |d.priors|
    ensures ResolvePrefix(d, k, num, src, pos) == Ok(Drawn(d.priors[..k], pos))
  {
    if k > 0 {
      FlatResolvesToPriors(d, k - 1, num, src, pos);
      assert d.priors[..k] == d.priors[..k - 1] + [d.priors[k - 1]];
    }
  }

  /**
   * On a distribution without dependencies, the density and the log-density
   * are the family's functions of the literal priors and draw nothing.
   */
  lemma FlatDensitiesDrawNothing(d: Distribution, x: real, num: Numerics, src: Source, pos: nat)
    requires Flat(d)
    ensures Density(d, x, num, src, pos) ==
      (if d.kind != Normal then Err(UnknownDistributionType(d.kind))
       else if |d.priors| < 2 then Err(IndexOutOfRange(|d.priors|, |d.priors|))
       else Ok(Drawn(num.prob(d.priors[0], d.priors[1], x), pos)))
    ensures LogDensity(d, x, num, src, pos) ==
      (if d.kind != Normal then Err(UnknownDistributionType(d.kind))
       else if |d.priors| < 2 then Err(IndexOutOfRange(|d.priors|, |d.priors|))
       else Ok(Drawn(num.logProb(d.priors[0], d.priors[1], x), pos)))
  {
    FlatResolvesToPriors(d, |d.priors|, num, src, pos);
    assert d.priors[..|d.priors|] == d.priors;
  }

  /** Every type code other than Normal, the declared Beta, Poisson and Uniform included, fails. */
  lemma OnlyNormalSupported(d: Distribution, x: real, num: Numerics, src: Source, pos: nat)
    requires d.kind != Normal
    ensures Sample(d, num, src, pos).Err?
    ensures Density(d, x, num, src, pos).Err?
    ensures LogDensity(d, x, num, src, pos).Err?
    ensures Resolve(d, num, src, pos).Ok? ==>
      Sample(d, num, src, pos) == Err(UnknownDistributionType(d.kind)) &&
      Density(d, x, num, src, pos) == Err(UnknownDistributionType(d.kind)) &&
      LogDensity(d, x, num, src, pos) == Err(UnknownDistributionType(d.kind))
  {
  }

  /** A fresh normal distribution: one draw per sample, none for its densities. */
  lemma NewNormalBehaviour(mu: real, sd: real, x: real, num: Numerics, src: Source, pos: nat)
    ensures Sample(NewNormal(mu, sd), num, src, pos) == Ok(Drawn(num.rand(mu, sd, src(pos)), pos + 1))
    ensures Density(NewNormal(mu, sd), x, num, src, pos) == Ok(Drawn(num.prob(mu, sd, x), pos))
    ensures LogDensity(NewNormal(mu, sd), x, num, src, pos) == Ok(Drawn(num.logProb(mu, sd, x), pos))
  {
    var d := NewNormal(mu, sd);
    FlatResolvesToPriors(d, 2, num, src, pos);
    assert d.priors[..2] == [mu, sd];
  }

  // ---------------------------------------------------------------------------
  // When sampling succeeds, and how much of the stream it reads.

  /** Every node reached is a normal distribution with at least two parameters. */
  predicate Samplable(d: Distribution)
    decreases d, 1, 0
  {
    d.kind == Normal && |d.priors| >= 2 && DepsSamplable(d, |d.priors|)
  }

  /** Every dependency consulted by the first k slots is samplable. */
  predicate DepsSamplable(d: Distribution, k: nat)
    requires k <= |d.priors|
    decreases d, 0, k
  {
    k == 0 ||
    (DepsSamplable(d, k - 1) && (DepAt(d, k - 1).Some? ==> Samplable(DepAt(d, k - 1).value)))
  }

  /** The number of normal variates one prior sample of d draws: one per node reached. */
  function Draws(d: Distribution): nat
    decreases d, 1, 0
  {
    DrawsPrefix(d, |d.priors|) + 1
  }

  /** The number of variates the dependencies of the first k slots draw. */
  function DrawsPrefix(d: Distribution, k: nat): nat
    requires k <= |d.priors|
    decreases d, 0, k
  {
    if k == 0 then 0
    else DrawsPrefix(d, k - 1) + (if DepAt(d, k - 1).Some? then Draws(DepAt(d, k - 1).value) else 0)
  }

  /**
   * Sampling succeeds exactly when the tree is samplable, whatever the stream
   * holds, and then reads exactly Draws(d) variates.
   */
  lemma {:induction false} SampleSucceedsIff(d: Distribution, num: Numerics, src: Source, pos: nat)
    ensures Sample(d, num, src, pos).Ok? <==> Samplable(d)
    ensures Sample(d, num, src, pos).Ok? ==> Sample(d, num, src, pos).value.next == pos + Draws(d)
    decreases d, 1, 0
  {
    ResolveSucceedsIff(d, |d.priors|, num, src, pos);
  }

  /**
   * The density and the log-density succeed exactly when the tree is
   * samplable, whatever the stream holds, and then read exactly the variates
   * that resolving the parameters draws, none of their own.
   */
  lemma DensitySucceedsIff(d: Distribution, x: real, num: Numerics, src: Source, pos: nat)
    ensures Density(d, x, num, src, pos).Ok? <==> Samplable(d)
    ensures LogDensity(d, x, num, src, pos).Ok? <==> Samplable(d)
    ensures Density(d, x, num, src, pos).Ok? ==>
      Density(d, x, num, src, pos).value.next == pos + DrawsPrefix(d, |d.priors|)
    ensures LogDensity(d, x, num, src, pos).Ok? ==>
      LogDensity(d, x, num, src, pos).value.next == pos + DrawsPrefix(d, |d.priors|)
  {
    ResolveSucceedsIff(d, |d.priors|, num, src, pos);
  }

  /** Resolving k slots succeeds exactly when their dependencies are samplable, reading DrawsPrefix(d, k) variates. */
  lemma {:induction false} ResolveSucceedsIff(d: Distribution, k: nat, num: Numerics, src: Source, pos: nat)
    requires k <= |d.priors|
    ensures ResolvePrefix(d, k, num, src, pos).Ok? <==> DepsSamplable(d, k)
    ensures ResolvePrefix(d, k, num, src, pos).Ok? ==>
      ResolvePrefix(d, k, num, src, pos).value.next == pos + DrawsPrefix(d, k)
    decreases d, 0, k
  {
    if k > 0 {
      ResolveSucceedsIff(d, k - 1, num, src, pos);
      var prev := ResolvePrefix(d, k - 1, num, src, pos);
      if prev.Ok? && DepAt(d, k - 1).Some? {
        SampleSucceedsIff(DepAt(d, k - 1).value, num, src, prev.value.next);
      }
    }
  }

  /**
   * A two-level hierarchy: B's mean is drawn from A, then B's variate is drawn
   * around it, reading two consecutive variates.
   */
  lemma HierarchicalSample(mu: real, sd: real, scale: real, num: Numerics, src: Source, pos: nat)
    ensures
      var a := NewNormal(mu, sd);
      var b := NewNormal(0.0, scale).(deps := [Some(a)]);
      Sample(b, num, src, pos) == Ok(Drawn(num.rand(num.rand(mu, sd, src(pos)), scale, src(pos + 1)), pos + 2))
  {
    var a := NewNormal(mu, sd);
    var b := NewNormal(0.0, scale).(deps := [Some(a)]);
    NewNormalBehaviour(mu, sd, 0.0, num, src, pos);
    assert DepAt(b, 0) == Some(a);
    assert DepAt(b, 1) == None;
    var m := num.rand(mu, sd, src(pos));
    assert ResolvePrefix(b, 0, num, src, pos) == Ok(Drawn([], pos));
    assert Sample(a, num, src, pos) == Ok(Drawn(m, pos + 1));
    assert ResolvePrefix(b, 1, num, src, pos) == Ok(Drawn([] + [m], pos + 1));
    assert b.priors[1] == scale;
    assert [] + [m] == [m];
    assert DepAt(b, 2 - 1) == None;
    assert ResolvePrefix(b, 2, num, src, pos) == Ok(Drawn([m] + [scale], pos + 1));
    assert [m] + [scale] == [m, scale];
  }
}
