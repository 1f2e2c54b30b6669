/** Where the floor of the ratio test bites, the window does not keep the target's law. */
module FloorLaw {
  import opened Target
  import opened Sampling
  import opened Speculate
  import opened Sampler
  import opened Redrawn
  import Mtp

  /** One draft and its redraw have the target's law. */
  ghost predicate KeepsLaw(p: Dist, q: Dist) {
    forall g: Token -> real :: LawFor(p, q, g)
  }

  ghost predicate LawFor(p: Dist, q: Dist, g: Token -> real) {
    Expect(q, Settled(p, q, g, Expect(Redraw(p, q), g))) == Expect(p, g)
  }

  function Indicator(r: Token): Token -> real {
    t => if t == r then 1.0 else 0.0
  }

  /** A value that lives on one id is that id's mass. */
  lemma {:induction false} ExpectOne(d: Dist, r: Token, k: Token -> real)
    requires Weights(d) && forall x :: x != r ==> k(x) == 0.0
    ensures Expect(d, k) == Times(Prob(d, r), k(r))
    decreases |d|
  {
    if d != [] {
      ExpectOne(d[1..], r, k);
      TailAbsent(d);
      if d[0].token == r {
        assert Times(Prob(d[1..], r), k(r)) == 0.0;
      } else {
        assert Times(d[0].prob, 0.0) == 0.0;
      }
    } else {
      assert Times(0.0, k(r)) == 0.0;
    }
  }

  /** The mass that two tables share on one id. */
  lemma {:induction false} OverlapOne(p: Dist, q: Dist, r: Token)
    requires Weights(p) && Weights(q)
    ensures Overlap(p, q, Indicator(r)) == Min(Prob(p, r), Prob(q, r))
    decreases |p|
  {
    ProbNonneg(q, r);
    if p != [] {
      OverlapOne(p[1..], q, r);
      TailAbsent(p);
      var m := Min(p[0].prob, Prob(q, p[0].token));
      assert Times(m, 1.0) == m && Times(m, 0.0) == 0.0;
    }
  }

  /** A draft kept with weight `a` of `w`: what is kept, and what is redrawn. */
  lemma SplitStep(w: real, hx: real, a: real, v: real, av: real, c: real, rest: real, left: real)
    requires hx == Settle(a, v, c) && av == Times(a, v) && left == (w - Times(w, a)) + rest
    ensures Times(w, hx) + Times(c, rest) == Times(w, av) + Times(c, left)
  {
    assert w * hx == w * (a * v) + w * ((1.0 - a) * c);
    assert w * ((1.0 - a) * c) == c * (w - w * a);
    assert c * (w - w * a) + c * rest == c * left;
  }

  /** The kept value and the redrawn value, for any acceptance. */
  lemma {:induction false} SettleSplit(
    d: Dist, keep: Token -> real, g: Token -> real, kept: Token -> real, h: Token -> real, c: real, left: real)
    requires forall x :: kept(x) == Times(keep(x), g(x)) && h(x) == Settle(keep(x), g(x), c)
    requires left == Mass(d) - Expect(d, keep)
    ensures Expect(d, h) == Expect(d, kept) + Times(c, left)
    decreases |d|
  {
    if d == [] {
      assert Times(c, 0.0) == 0.0;
    } else {
      var rest := Mass(d[1..]) - Expect(d[1..], keep);
      SettleSplit(d[1..], keep, g, kept, h, c, rest);
      var x := d[0].token;
      SplitStep(d[0].prob, h(x), keep(x), g(x), kept(x), c, rest, left);
    }
  }

  /** A draft is never kept with more than the shared mass. */
  lemma KeptAtMost(pr: real, qr: real)
    requires pr >= 0.0 && qr >= 0.0
    ensures Times(qr, Keep(pr, qr)) <= Min(pr, qr)
    ensures !Clear(pr, qr) ==> Times(qr, Keep(pr, qr)) < Min(pr, qr)
  {
    KeptMass(pr, qr);
    assert Times(qr, Keep(pr, qr)) == Times(Keep(pr, qr), qr);
    if !Clear(pr, qr) {
      Loses(pr, qr, FLOOR);
      Ratio(pr, FLOOR);
    }
  }

  /** All that is kept, against all that is shared. */
  lemma {:induction false} KeptBelow(d: Dist, p: Dist, keep: Token -> real, i: nat)
    requires Weights(d) && Weights(p) && i < |d|
    requires forall j :: 0 <= j < |d| ==> keep(d[j].token) == Keep(Prob(p, d[j].token), d[j].prob)
    ensures Expect(d, keep) <= Overlap(d, p, ONE)
    ensures !Clear(Prob(p, d[i].token), d[i].prob) ==> Expect(d, keep) < Overlap(d, p, ONE)
    decreases |d|
  {
    var t, w := d[0].token, d[0].prob;
    ProbNonneg(p, t);
    KeptAtMost(Prob(p, t), w);
    assert Times(Min(w, Prob(p, t)), 1.0) == Min(w, Prob(p, t));
    if |d| > 1 {
      forall j | 0 <= j < |d[1..]|
        ensures keep(d[1..][j].token) == Keep(Prob(p, d[1..][j].token), d[1..][j].prob)
      {
        assert d[1..][j] == d[j + 1];
      }
      KeptBelow(d[1..], p, keep, if i > 0 then i - 1 else 0);
    }
  }

  lemma Outweighs(c: real, mass: real, left: real, over: real)
    requires mass > 0.0 && left > mass && over > 0.0 && Times(c, mass) == over
    ensures Times(c, left) > over
  {
    if c <= 0.0 {
      Grows(c, 0.0, mass);
    }
    Widens(c, mass, left);
  }

  /** Where the floor bites, more is rejected than the residual holds. */
  lemma RejectsMore(p: Dist, q: Dist, t: Token, keep: Token -> real)
    requires Law(p) && Law(q) && !Clear(Prob(p, t), Prob(q, t))
    requires forall x :: keep(x) == Accept(p, q, x)
    ensures 1.0 - Expect(q, keep) > Mass(Residual(p, q))
  {
    ProbNonneg(p, t);
    ProbNonneg(q, t);
    var i := ProbIsAt(q, t);
    forall j | 0 <= j < |q|
      ensures keep(q[j].token) == Keep(Prob(p, q[j].token), q[j].prob)
    {
      ProbAt(q, j);
    }
    KeptBelow(q, p, keep, i);
    OverlapSymmetric(p, q, ONE);
    RejectedMass(p, q);
  }

  /** The residual's weight of an id that the target favours. */
  lemma RedrawOn(p: Dist, q: Dist, r: Token, mass: real)
    requires Weights(p) && Weights(q) && Prob(p, r) > Prob(q, r) && mass == Mass(Residual(p, q))
    ensures mass > 0.0
    ensures Times(Expect(Redraw(p, q), Indicator(r)), mass) == Prob(p, r) - Prob(q, r)
  {
    RedrawExpect(p, q, Indicator(r), mass);
    ResidualExpect(p, q, Indicator(r));
    ExpectOne(p, r, Indicator(r));
    OverlapOne(p, q, r);
    ResidualHolds(p, q, r);
    assert Times(Prob(p, r), 1.0) == Prob(p, r);
  }

  /** A clear id that the target favours is redrawn too often as soon as the floor bites
      anywhere: the rejections outweigh the residual. */
  lemma BiteBreaks(p: Dist, q: Dist, t: Token, r: Token)
    requires Law(p) && Law(q) && !Clear(Prob(p, t), Prob(q, t))
    requires Prob(p, r) > Prob(q, r) && Clear(Prob(p, r), Prob(q, r))
    ensures !LawFor(p, q, Indicator(r))
  {
    var g, keep := Indicator(r), (x: Token) => Accept(p, q, x);
    var c, left, mass := Expect(Redraw(p, q), g), 1.0 - Expect(q, keep), Mass(Residual(p, q));
    var kept := (x: Token) => Times(keep(x), g(x));
    SettleSplit(q, keep, g, kept, Settled(p, q, g, c), c, left);
    assert forall x :: kept(x) == if x == r then Times(keep(r), 1.0) else Times(keep(x), 0.0);
    ExpectOne(q, r, kept);
    KeptOnClear(p, q, r);
    RejectsMore(p, q, t, keep);
    RedrawOn(p, q, r, mass);
    Outweighs(c, mass, left, Prob(p, r) - Prob(q, r));
    ExpectOne(p, r, g);
    assert Times(Prob(p, r), 1.0) == Prob(p, r);
  }

  lemma KeptOnClear(p: Dist, q: Dist, r: Token)
    requires Weights(p) && Weights(q) && Prob(p, r) > Prob(q, r) && Clear(Prob(p, r), Prob(q, r))
    ensures Times(Prob(q, r), Times(Accept(p, q, r), 1.0)) == Prob(q, r)
  {
    ProbNonneg(p, r);
    ProbNonneg(q, r);
    KeptMass(Prob(p, r), Prob(q, r));
    assert Times(Accept(p, q, r), 1.0) == Accept(p, q, r);
    assert Times(Prob(q, r), Accept(p, q, r)) == Times(Accept(p, q, r), Prob(q, r));
  }

  lemma ResidualHolds(p: Dist, q: Dist, r: Token)
    requires Weights(p) && Weights(q) && Prob(p, r) > Prob(q, r)
    ensures Mass(Residual(p, q)) > 0.0
  {
    InResidual(p, q, r);
    ResidualIs(p, q);
    NoMass(Residual(p, q), ONE);
  }

  /** With one clear id that the target favours, the law is kept if and only if the floor
      bites nowhere. */
  lemma ClearLawIsClean(p: Dist, q: Dist, r: Token)
    requires Law(p) && Law(q) && Prob(p, r) > Prob(q, r) && Clear(Prob(p, r), Prob(q, r))
    ensures KeepsLaw(p, q) <==> Clean(p, q)
  {
    if Clean(p, q) {
      CleanKeeps(p, q);
    } else {
      var t :| !Clear(Prob(p, t), Prob(q, t));
      BiteBreaks(p, q, t, r);
    }
  }

  lemma CleanKeeps(p: Dist, q: Dist)
    requires Law(p) && Law(q) && Clean(p, q)
    ensures KeepsLaw(p, q)
  {
    forall g: Token -> real
      ensures LawFor(p, q, g)
    {
      AcceptOrRedraw(p, q, g);
    }
  }

  /** An id on which the floor bites, and which the target does not favour, is emitted too
      seldom whenever the residual has mass: it is kept too seldom and never redrawn. */
  lemma NotFavouredBreaks(p: Dist, q: Dist, t: Token)
    requires Law(p) && Law(q) && !Clear(Prob(p, t), Prob(q, t)) && Prob(p, t) <= Prob(q, t)
    requires Mass(Residual(p, q)) > 0.0
    ensures !LawFor(p, q, Indicator(t))
  {
    var g, keep := Indicator(t), (x: Token) => Accept(p, q, x);
    var c, left := Expect(Redraw(p, q), g), 1.0 - Expect(q, keep);
    var kept := (x: Token) => Times(keep(x), g(x));
    SettleSplit(q, keep, g, kept, Settled(p, q, g, c), c, left);
    assert forall x :: kept(x) == if x == t then Times(keep(t), 1.0) else Times(keep(x), 0.0);
    ExpectOne(q, t, kept);
    NotRedrawn(p, q, t);
    KeptTooSeldom(p, q, t);
    ExpectOne(p, t, g);
    assert Times(Prob(p, t), 1.0) == Prob(p, t) && Times(0.0, left) == 0.0;
  }

  lemma NotRedrawn(p: Dist, q: Dist, t: Token)
    requires Law(p) && Law(q) && Prob(p, t) <= Prob(q, t) && Mass(Residual(p, q)) > 0.0
    ensures Expect(Redraw(p, q), Indicator(t)) == 0.0
  {
    var g, mass := Indicator(t), Mass(Residual(p, q));
    RedrawExpect(p, q, g, mass);
    ResidualExpect(p, q, g);
    ExpectOne(p, t, g);
    OverlapOne(p, q, t);
    assert Times(Prob(p, t), 1.0) == Prob(p, t);
    NoFactor(Expect(Redraw(p, q), g), mass);
  }

  lemma NoFactor(c: real, mass: real)
    requires mass > 0.0 && Times(c, mass) == 0.0
    ensures c == 0.0
  {
  }

  lemma KeptTooSeldom(p: Dist, q: Dist, t: Token)
    requires Weights(p) && Weights(q) && !Clear(Prob(p, t), Prob(q, t)) && Prob(p, t) <= Prob(q, t)
    ensures Times(Prob(q, t), Times(Accept(p, q, t), 1.0)) < Prob(p, t)
  {
    ProbNonneg(p, t);
    ProbNonneg(q, t);
    KeptAtMost(Prob(p, t), Prob(q, t));
    assert Times(Accept(p, q, t), 1.0) == Accept(p, q, t);
  }

  /** No rejected draft can be drawn again. */
  ghost predicate NeverAgain(p: Dist, q: Dist) {
    forall x :: Prob(q, x) > 0.0 && Accept(p, q, x) < 1.0 ==> !Has(Redraw(p, q), x)
  }

  /** The exact condition, for all tables: the target's law is kept and no rejected draft is
      drawn again, if and only if the floor bites nowhere. */
  lemma KeepsLawIsClean(p: Dist, q: Dist)
    requires Law(p) && Law(q)
    ensures KeepsLaw(p, q) && NeverAgain(p, q) <==> Clean(p, q)
  {
    if Clean(p, q) {
      CleanKeeps(p, q);
      forall x | Prob(q, x) > 0.0 && Accept(p, q, x) < 1.0
        ensures !Has(Redraw(p, q), x)
      {
        RedrawnAgain(p, q, x);
      }
    } else {
      var t :| !Clear(Prob(p, t), Prob(q, t));
      BiteShows(p, q, t);
    }
  }

  /** Where the floor bites, the id is drawn again or comes out too seldom. */
  lemma BiteShows(p: Dist, q: Dist, t: Token)
    requires Law(p) && Law(q) && !Clear(Prob(p, t), Prob(q, t))
    ensures !(KeepsLaw(p, q) && NeverAgain(p, q))
  {
    ProbNonneg(p, t);
    ProbNonneg(q, t);
    Ratio(Prob(p, t), FLOOR);
    RedrawHas(p, q, t);
    if Prob(p, t) > Prob(q, t) || Mass(Residual(p, q)) == 0.0 {
      RedrawnAgain(p, q, t);
    } else {
      NotFavouredBreaks(p, q, t);
    }
  }

  // --- The law alone does not show it ---

  /** The draws alone can have the target's law although the floor bites: here the only id
      that the target favours is the one below the floor, and every rejection is its. */
  const LONE_Q: Dist := Two(FLOOR * 0.25, 1.0 - FLOOR * 0.25)

  lemma LoneFavoured(g: Token -> real)
    ensures !Clean(LOW_P, LONE_Q) && LawFor(LOW_P, LONE_Q, g)
  {
    var a, c := FLOOR / 2.0, FLOOR * 0.25;
    TwoIs(a, 1.0 - a, g);
    TwoIs(c, 1.0 - c, g);
    assert !Clear(Prob(LOW_P, 1), Prob(LONE_Q, 1));
    LoneRedraw(a, c, g);
    LoneSettled(g);
  }

  /** The redraw is id 1. */
  lemma LoneRedraw(a: real, c: real, g: Token -> real)
    requires c < a
    ensures Redraw(Two(a, 1.0 - a), Two(c, 1.0 - c)) == [Weighted(1, 1.0)]
    ensures Expect(Redraw(Two(a, 1.0 - a), Two(c, 1.0 - c)), g) == g(1)
  {
    var p, q := Two(a, 1.0 - a), Two(c, 1.0 - c);
    TwoIs(a, 1.0 - a, g);
    TwoIs(c, 1.0 - c, g);
    assert p[1..] == [Weighted(2, 1.0 - a)] && p[1..][1..] == [];
    assert Residual(p[1..], q) == Residual([], q);
    var r := Residual(p, q);
    assert r == [Weighted(1, a - c)] && r[1..] == [];
    assert Mass(r) == a - c + Mass([]);
    var s := Scale(r, Mass(r));
    assert s == [Weighted(1, r[0].prob / Mass(r))] + Scale([], Mass(r));
    assert Mass([]) == 0.0;
    One(a - c);
    assert s[1..] == [] && s[0].prob == 1.0;
    assert Expect(s, g) == Times(1.0, g(1)) + Expect([], g);
  }

  /** What those tables emit: the rejected draft is drawn again, and padding after it. */
  lemma LoneEmitsPadding(u: real)
    requires 0.5 <= u < 1.0
    ensures Law(LOW_P) && Law(LONE_Q) && Accept(LOW_P, LONE_Q, 1) <= u && Prob(LONE_Q, 1) > 0.0
    ensures forall at :: 0 <= at < |Redraw(LOW_P, LONE_Q)| ==> Redraw(LOW_P, LONE_Q)[at].token == 1
    ensures var samples := [1] + Pad(1); samples[..Mtp.Matched([1], samples) + 1] == [1, PAD]
  {
    LoneRows();
    LoneRedraw(FLOOR / 2.0, FLOOR * 0.25, ONE);
    EmitsDrawn([1], 0, 1);
    assert [][..0] + [1] + Pad(1) == [1] + Pad(1);
  }

  lemma LoneRows()
    ensures Law(LOW_P) && Law(LONE_Q) && !Clean(LOW_P, LONE_Q)
    ensures Accept(LOW_P, LONE_Q, 1) == 0.5 && Prob(LONE_Q, 1) > 0.0
  {
    TwoLaw(FLOOR / 2.0);
    TwoLaw(FLOOR * 0.25);
    TwoIs(FLOOR / 2.0, 1.0 - FLOOR / 2.0, ONE);
    TwoIs(FLOOR * 0.25, 1.0 - FLOOR * 0.25, ONE);
    assert !Clear(Prob(LOW_P, 1), Prob(LONE_Q, 1));
  }

  /** The two calls of one window on those tables, for every bonus row. */
  method EmitsPadding(bonus: Dist, u: real, v: real, w: real) returns (e: Mtp.Emission)
    requires Law(bonus) && 0.5 <= u < 1.0 && 0.0 <= v < 1.0 && 0.0 <= w < 1.0
    ensures e == Mtp.Emission([1, PAD], 1)
  {
    LoneEmitsPadding(u);
    var samples, m, at := SpeculativeWindow([LOW_P, bonus], [1], [LONE_Q], [u, v, w]);
    assert m == 0;
    assert samples == [1] + Pad(1);
    EmitsDrawn([1], 0, 1);
    e := Mtp.EmittedTokens([1], samples, Mtp.MOST_DRAFTS);
  }

  lemma One(x: real)
    requires x != 0.0
    ensures x / x == 1.0
  {
  }

  lemma LoneSettled(g: Token -> real)
    ensures Expect(LONE_Q, Settled(LOW_P, LONE_Q, g, g(1))) == Times(FLOOR / 2.0, g(1)) + Times(1.0 - FLOOR / 2.0, g(2))
  {
    var settled := Settled(LOW_P, LONE_Q, g, g(1));
    TwoIs(FLOOR * 0.25, 1.0 - FLOOR * 0.25, settled);
    TwoIs(FLOOR / 2.0, 1.0 - FLOOR / 2.0, g);
    TwoIs(FLOOR * 0.25, 1.0 - FLOOR * 0.25, g);
    assert Accept(LOW_P, LONE_Q, 1) == 0.5;
    LoneKeeps(Accept(LOW_P, LONE_Q, 2), g(1), g(2));
  }

  lemma LoneKeeps(a: real, x: real, y: real)
    requires a == Keep(1.0 - FLOOR / 2.0, 1.0 - FLOOR * 0.25)
    ensures Times(FLOOR * 0.25, Settle(0.5, x, x)) + Times(1.0 - FLOOR * 0.25, Settle(a, y, x))
         == Times(FLOOR / 2.0, x) + Times(1.0 - FLOOR / 2.0, y)
  {
    var w, f := 1.0 - FLOOR * 0.25, FLOOR;
    Ratio(1.0 - FLOOR / 2.0, w);
    assert a * w == 1.0 - FLOOR / 2.0;
    assert Settle(0.5, x, x) == x;
    Spread(w, a, x, y);
  }

  lemma Spread(w: real, a: real, x: real, y: real)
    ensures w * (a * y + (1.0 - a) * x) == (a * w) * y + (w - a * w) * x
  {
    Distribute(w, a * y, (1.0 - a) * x);
    Regroup(w, a, y);
    Regroup(w, 1.0 - a, x);
    Distribute(w, 1.0, -a);
    assert w * (1.0 - a) == w - a * w;
  }

  lemma Distribute(a: real, b: real, c: real)
    ensures a * (b + c) == a * b + a * c
  {
  }

  lemma Regroup(a: real, b: real, c: real)
    ensures a * (b * c) == (b * a) * c && a * (b * c) == (a * b) * c
  {
  }
}
