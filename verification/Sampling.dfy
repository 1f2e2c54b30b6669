/** Finite distributions over ids, in exact arithmetic, and draws from them. */
module Sampling {
  import opened Target

  datatype Weighted = Weighted(token: Token, prob: real)

  /** A distribution as the insertion-ordered table the sampler iterates. */
  type Dist = seq<Weighted>

  /** The table's value for an id; 0 when it is absent. */
  function Prob(d: Dist, t: Token): real {
    if d == [] then 0.0 else if d[0].token == t then d[0].prob else Prob(d[1..], t)
  }

  function Mass(d: Dist): real {
    if d == [] then 0.0 else d[0].prob + Mass(d[1..])
  }

  /** A product under a name. */
  function Times(a: real, b: real): real { a * b }

  function Expect(d: Dist, g: Token -> real): real {
    if d == [] then 0.0 else Times(d[0].prob, g(d[0].token)) + Expect(d[1..], g)
  }

  predicate Has(d: Dist, t: Token) {
    exists i :: 0 <= i < |d| && d[i].token == t
  }

  /** Nonnegative weights on distinct ids. */
  predicate Weights(d: Dist) {
    && (forall i, j :: 0 <= i < j < |d| ==> d[i].token != d[j].token)
    && (forall i :: 0 <= i < |d| ==> d[i].prob >= 0.0)
  }

  predicate Law(d: Dist) {
    Weights(d) && Mass(d) == 1.0
  }

  const ONE: Token -> real := t => 1.0

  function Min(a: real, b: real): real { if a < b then a else b }

  lemma {:induction false} ProbAbsent(d: Dist, t: Token)
    requires !Has(d, t)
    ensures Prob(d, t) == 0.0
    decreases |d|
  {
    if d != [] {
      assert d[0].token != t;
      forall i | 0 <= i < |d[1..]|
        ensures d[1..][i].token != t
      {
        assert d[1..][i] == d[i + 1];
      }
      ProbAbsent(d[1..], t);
    }
  }

  lemma {:induction false} ProbAt(d: Dist, i: nat)
    requires Weights(d) && i < |d|
    ensures Prob(d, d[i].token) == d[i].prob
    decreases |d|
  {
    if i > 0 {
      assert d[0].token != d[i].token && d[1..][i - 1] == d[i];
      ProbAt(d[1..], i - 1);
    }
  }

  /** An affine change of the value is an affine change of the expectation. */
  lemma {:induction false} ExpectAffine(d: Dist, g: Token -> real, h: Token -> real, a: real, b: real)
    requires forall i :: 0 <= i < |d| ==> g(d[i].token) == Times(a, h(d[i].token)) + b
    ensures Expect(d, g) == Times(a, Expect(d, h)) + Times(b, Mass(d))
    decreases |d|
  {
    if d != [] {
      var rest := d[1..];
      forall i | 0 <= i < |rest|
        ensures g(rest[i].token) == Times(a, h(rest[i].token)) + b
      {
        assert rest[i] == d[i + 1];
      }
      ExpectAffine(rest, g, h, a, b);
      AffineStep(d[0].prob, g(d[0].token), h(d[0].token), a, b, Expect(rest, h), Mass(rest));
    }
  }

  lemma AffineStep(w: real, gx: real, hx: real, a: real, b: real, sum: real, mass: real)
    requires gx == Times(a, hx) + b
    ensures Times(w, gx) + Times(a, sum) + Times(b, mass) == Times(a, Times(w, hx) + sum) + Times(b, w + mass)
  {
  }

  /** The mass that two tables share, weighted by `g`. */
  function Overlap(a: Dist, b: Dist, g: Token -> real): real {
    if a == [] then 0.0
    else Times(Min(a[0].prob, Prob(b, a[0].token)), g(a[0].token)) + Overlap(a[1..], b, g)
  }

  /** One more id on the right adds its own shared mass. */
  lemma {:induction false} OverlapCons(a: Dist, b: Dist, g: Token -> real)
    requires Weights(a) && Weights(b) && b != []
    ensures Overlap(a, b, g) == Overlap(a, b[1..], g) + Times(Min(b[0].prob, Prob(a, b[0].token)), g(b[0].token))
    decreases |a|
  {
    var h, t := b[0], b[0].token;
    if a == [] {
      assert Min(h.prob, 0.0) == 0.0;
    } else {
      OverlapCons(a[1..], b, g);
      if a[0].token == t {
        TailAbsent(a);
        TailAbsent(b);
        assert Prob(b[1..], t) == 0.0 && Prob(a[1..], t) == 0.0;
        assert Min(h.prob, 0.0) == 0.0 && Min(a[0].prob, 0.0) == 0.0;
        assert Min(a[0].prob, h.prob) == Min(h.prob, a[0].prob);
      }
    }
  }

  lemma TailAbsent(d: Dist)
    requires Weights(d) && d != []
    ensures Weights(d[1..]) && Prob(d[1..], d[0].token) == 0.0
  {
    ProbAbsent(d[1..], d[0].token);
  }

  /** Shared mass is symmetric, id by id. */
  lemma {:induction false} OverlapSymmetric(a: Dist, b: Dist, g: Token -> real)
    requires Weights(a) && Weights(b)
    ensures Overlap(a, b, g) == Overlap(b, a, g)
    decreases |b|
  {
    if b == [] {
      OverlapEmpty(a, g);
    } else {
      OverlapCons(a, b, g);
      OverlapSymmetric(a, b[1..], g);
    }
  }

  lemma {:induction false} OverlapEmpty(a: Dist, g: Token -> real)
    requires Weights(a)
    ensures Overlap(a, [], g) == 0.0
    decreases |a|
  {
    if a != [] {
      OverlapEmpty(a[1..], g);
    }
  }

  /** The normalized positive part of p - q, before its normalization. */
  function Residual(p: Dist, q: Dist): (r: Dist)
    ensures |r| <= |p|
  {
    if p == [] then []
    else
      var rest := Residual(p[1..], q);
      var excess := p[0].prob - Prob(q, p[0].token);
      if excess > 0.0 then [Weighted(p[0].token, excess)] + rest else rest
  }

  /** What the residual holds is what the overlap leaves of p. */
  lemma {:induction false} ResidualExpect(p: Dist, q: Dist, g: Token -> real)
    ensures Expect(Residual(p, q), g) == Expect(p, g) - Overlap(p, q, g)
    decreases |p|
  {
    if p != [] {
      ResidualExpect(p[1..], q, g);
      var w, s, v := p[0].prob, Prob(q, p[0].token), g(p[0].token);
      assert Times(w - s, v) == Times(w, v) - Times(s, v);
    }
  }

  lemma {:induction false} MassIsExpect(d: Dist)
    ensures Mass(d) == Expect(d, ONE)
    decreases |d|
  {
    if d != [] {
      MassIsExpect(d[1..]);
    }
  }

  /** Weights that sum to nothing weigh nothing. */
  lemma {:induction false} NoMass(d: Dist, g: Token -> real)
    requires Positive(d)
    ensures Mass(d) >= 0.0 && (Mass(d) == 0.0 ==> Expect(d, g) == 0.0 && d == [])
    decreases |d|
  {
    if d != [] {
      NoMass(d[1..], g);
    }
  }

  predicate Positive(d: Dist) {
    forall i :: 0 <= i < |d| ==> d[i].prob > 0.0
  }

  /** Only ids that p favours are in the residual, each once, with positive weight. */
  lemma {:induction false} ResidualIs(p: Dist, q: Dist)
    requires Weights(p)
    ensures Weights(Residual(p, q)) && Positive(Residual(p, q))
    ensures forall i :: 0 <= i < |Residual(p, q)| ==>
              var t := Residual(p, q)[i].token; Has(p, t) && Prob(p, t) > Prob(q, t)
    decreases |p|
  {
    if p != [] {
      var rest, r := Residual(p[1..], q), Residual(p, q);
      ResidualIs(p[1..], q);
      forall i | 0 <= i < |rest|
        ensures Has(p, rest[i].token) && rest[i].token != p[0].token && Prob(p, rest[i].token) > Prob(q, rest[i].token)
      {
        var j :| 0 <= j < |p[1..]| && p[1..][j].token == rest[i].token;
        assert p[j + 1].token == rest[i].token;
      }
    }
  }
}
