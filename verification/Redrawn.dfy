/** What a rejection redraws, what the window emits, and where the floor bites. */
module Redrawn {
  import opened Target
  import opened Sampling
  import opened Speculate
  import opened Sampler
  import Mtp

  lemma HasCons(w: Weighted, rest: Dist, t: Token)
    ensures Has([w] + rest, t) <==> w.token == t || Has(rest, t)
  {
    var all := [w] + rest;
    if w.token == t {
      assert all[0].token == t;
    }
    if Has(rest, t) {
      var i :| 0 <= i < |rest| && rest[i].token == t;
      assert all[i + 1].token == t;
    }
    if Has(all, t) {
      var i :| 0 <= i < |all| && all[i].token == t;
      assert i == 0 || rest[i - 1].token == t;
    }
  }

  /** An id is in the residual exactly when the target favours it. */
  lemma {:induction false} InResidual(p: Dist, q: Dist, t: Token)
    requires Weights(p) && Weights(q)
    ensures Has(Residual(p, q), t) <==> Prob(p, t) > Prob(q, t)
    decreases |p|
  {
    ProbNonneg(q, t);
    if p != [] {
      InResidual(p[1..], q, t);
      TailAbsent(p);
      HasCons(Weighted(p[0].token, p[0].prob - Prob(q, p[0].token)), Residual(p[1..], q), t);
    }
  }

  /** One id that q favours leaves mass for the residual. */
  lemma {:induction false} OverlapBelow(q: Dist, p: Dist, i: nat)
    requires Weights(q) && i < |q|
    ensures Overlap(q, p, ONE) <= Mass(q)
    ensures Prob(p, q[i].token) < q[i].prob ==> Overlap(q, p, ONE) < Mass(q)
    decreases |q|
  {
    if |q| > 1 {
      OverlapBelow(q[1..], p, if i > 0 then i - 1 else 0);
    }
  }

  lemma {:induction false} ProbIsAt(d: Dist, t: Token) returns (i: nat)
    requires Prob(d, t) > 0.0
    ensures i < |d| && d[i] == Weighted(t, Prob(d, t))
    decreases |d|
  {
    if d[0].token == t {
      i := 0;
    } else {
      var j := ProbIsAt(d[1..], t);
      i := j + 1;
    }
  }

  /** A draft that can be rejected.  Where the floor does not bite it is one that q favours:
      the residual has mass and does not hold it. */
  lemma RejectedIsGone(p: Dist, q: Dist, x: Token, u: real)
    requires Law(p) && Law(q) && Prob(q, x) > 0.0
    requires Accept(p, q, x) <= u < 1.0
    ensures Clear(Prob(p, x), Prob(q, x)) ==> Mass(Residual(p, q)) > 0.0 && !Has(Redraw(p, q), x)
    ensures Has(Residual(p, q), x) <==> Prob(p, x) > Prob(q, x)
  {
    var pr, qr := Prob(p, x), Prob(q, x);
    ProbNonneg(p, x);
    InResidual(p, q, x);
    if Clear(pr, qr) {
      Ratio(pr, if qr > FLOOR then qr else FLOOR);
      assert pr < qr;
      Favours(p, q, x);
      RedrawHas(p, q, x);
    }
  }

  /** An id that q favours leaves mass for the residual. */
  lemma Favours(p: Dist, q: Dist, x: Token)
    requires Law(p) && Law(q) && Prob(p, x) < Prob(q, x)
    ensures Mass(Residual(p, q)) > 0.0
  {
    ProbNonneg(p, x);
    var i := ProbIsAt(q, x);
    OverlapBelow(q, p, i);
    OverlapSymmetric(p, q, ONE);
    RejectedMass(p, q);
  }

  /** The redraw is over the residual when that has mass, and over p when it has none. */
  lemma RedrawHas(p: Dist, q: Dist, x: Token)
    requires Weights(p)
    ensures var r := Residual(p, q);
            Mass(r) >= 0.0 && (Has(Redraw(p, q), x) <==> Has(if Mass(r) > 0.0 then r else p, x))
  {
    var r, d := Residual(p, q), Redraw(p, q);
    ResidualIs(p, q);
    NoMass(r, ONE);
    if Mass(r) > 0.0 {
      ScaleExpect(r, Mass(r), ONE);
      assert forall i :: 0 <= i < |r| ==> d[i].token == r[i].token;
    }
  }

  /** Exactly when a rejected draft can be redrawn: the floor bites on it, and the target
      favours it, or favours nothing at all. */
  lemma RedrawnAgain(p: Dist, q: Dist, x: Token)
    requires Law(p) && Law(q) && Prob(q, x) > 0.0 && Accept(p, q, x) < 1.0
    ensures Has(Redraw(p, q), x) <==>
              && !Clear(Prob(p, x), Prob(q, x))
              && (Prob(p, x) > Prob(q, x) || Mass(Residual(p, q)) == 0.0)
  {
    var pr, qr := Prob(p, x), Prob(q, x);
    RejectedIsGone(p, q, x, Accept(p, q, x));
    RedrawHas(p, q, x);
    if !Clear(pr, qr) && Mass(Residual(p, q)) == 0.0 {
      ProbNonneg(p, x);
      var i := ProbIsAt(p, x);
      assert p[i].token == x;
    }
  }

  /** What a window with a rejection emits, whatever id is drawn: `emitted_tokens` takes a
      draw of the rejected draft for one more kept draft, and then the padding after it. */
  lemma EmitsDrawn(drafted: seq<Token>, m: nat, id: Token)
    requires m < |drafted| && id != PAD && PAD !in drafted
    ensures var samples := drafted[..m] + [id] + Pad(|drafted| - m);
            var matched := Mtp.Matched(drafted, samples);
            && matched == (if id == drafted[m] then m + 1 else m)
            && samples[..matched + 1] == drafted[..m] + (if id == drafted[m] then [id, PAD] else [id])
  {
    if id == drafted[m] {
      var rest := Pad(|drafted| - m - 1);
      EmitsNext(drafted, m + 1, PAD, rest);
      PadCons(|drafted| - m);
      Joined(drafted[..m], id, rest);
      TakeOne(drafted, m);
    } else {
      EmitsNext(drafted, m, id, Pad(|drafted| - m));
    }
  }

  lemma TakeOne(s: seq<Token>, m: nat)
    requires m < |s|
    ensures s[..m + 1] == s[..m] + [s[m]]
  {
  }

  lemma PadCons(n: nat)
    requires n > 0
    ensures Pad(n) == [PAD] + Pad(n - 1)
  {
  }

  lemma Joined(a: seq<Token>, id: Token, rest: seq<Token>)
    ensures (a + [id]) + [PAD] + rest == a + [id] + ([PAD] + rest) && (a + [id]) + [PAD] == a + [id, PAD]
  {
  }

  /** Kept drafts and the first sample that differs. */
  lemma EmitsNext(drafted: seq<Token>, n: nat, id: Token, rest: seq<Token>)
    requires n <= |drafted| <= n + |rest| && (n < |drafted| ==> id != drafted[n])
    ensures var samples := drafted[..n] + [id] + rest;
            Mtp.Matched(drafted, samples) == n && samples[..n + 1] == drafted[..n] + [id]
  {
    var samples := drafted[..n] + [id] + rest;
    assert samples[..n] == drafted[..n];
    Mtp.MatchedIsUnique(drafted, samples, n);
  }

  /** The ids that a window emits after a rejection: the kept drafts and one draw, and with
      them padding exactly when the draw is the rejected draft, which it never is where the
      floor does not bite on it. */
  lemma WindowEmits(p: Dist, q: Dist, drafted: seq<Token>, m: nat, u: real, drawn: Dist, at: nat)
    requires m < |drafted| && Law(p) && Law(q) && drawn == Redraw(p, q) && at < |drawn|
    requires Accept(p, q, drafted[m]) <= u < 1.0 && Prob(q, drafted[m]) > 0.0
    requires PAD !in drafted && forall i :: 0 <= i < |p| ==> p[i].token >= 0
    ensures var samples := drafted[..m] + [drawn[at].token] + Pad(|drafted| - m);
            var emitted := samples[..Mtp.Matched(drafted, samples) + 1];
            && drawn[at].token >= 0
            && (PAD in emitted <==> drawn[at].token == drafted[m])
            && (PAD !in emitted ==> emitted == drafted[..m] + [drawn[at].token])
    ensures Clear(Prob(p, drafted[m]), Prob(q, drafted[m])) ==> drawn[at].token != drafted[m]
  {
    var id := drawn[at].token;
    assert Has(drawn, id);
    RedrawHas(p, q, id);
    ResidualIs(p, q);
    RejectedIsGone(p, q, drafted[m], u);
    EmitsDrawn(drafted, m, id);
    assert PAD !in drafted[..m];
  }

  /** A window that keeps every draft emits them and the bonus. */
  lemma FullWindowEmits(drafted: seq<Token>, bonus: Token)
    ensures var samples := drafted + [bonus] + Pad(0);
            Mtp.Matched(drafted, samples) == |drafted| && samples == drafted + [bonus]
  {
    var samples := drafted + [bonus] + Pad(0);
    assert samples[..|drafted|] == drafted[..|drafted|];
    Mtp.MatchedIsUnique(drafted, samples, |drafted|);
  }

  function Two(a: real, b: real): Dist {
    [Weighted(1, a), Weighted(2, b)]
  }

  lemma TwoIs(a: real, b: real, g: Token -> real)
    ensures Expect(Two(a, b), g) == Times(a, g(1)) + Times(b, g(2)) && Mass(Two(a, b)) == a + b
    ensures Prob(Two(a, b), 1) == a && Prob(Two(a, b), 2) == b
  {
    var d := Two(a, b);
    assert d[1..] == [Weighted(2, b)] && d[1..][1..] == [];
    assert Expect(d[1..], g) == Times(b, g(2)) + Expect([], g);
    assert Mass(d[1..]) == b + Mass([]);
    assert Prob(d[1..], 2) == b;
  }

  lemma TwoLaw(a: real)
    requires 0.0 <= a <= 1.0
    ensures Law(Two(a, 1.0 - a))
  {
    TwoIs(a, 1.0 - a, ONE);
  }

  /** When q favours id 1, the redraw is id 2. */
  lemma TwoRedraw(a: real, b: real, c: real, d: real, g: Token -> real)
    requires a < c && b > d && g(2) == 0.0
    ensures Expect(Redraw(Two(a, b), Two(c, d)), g) == 0.0
  {
    TwoIs(a, b, g);
    TwoIs(c, d, g);
    var p, q := Two(a, b), Two(c, d);
    assert p[1..] == [Weighted(2, b)] && p[1..][1..] == [];
    assert Residual(p[1..], q) == [Weighted(2, b - d)] + Residual([], q);
    var r := Residual(p, q);
    assert r == [Weighted(2, b - d)] && r[1..] == [];
    assert Mass(r) == b - d + Mass([]);
    var s := Scale(r, Mass(r));
    assert s == [Weighted(2, r[0].prob / Mass(r))] + Scale([], Mass(r));
    assert s[1..] == [] && Expect(s, g) == Times(s[0].prob, g(2)) + Expect([], g);
  }

  const LOW_P: Dist := Two(FLOOR / 2.0, 1.0 - FLOOR / 2.0)
  const LOW_Q: Dist := Two(FLOOR * 0.75, 1.0 - FLOOR * 0.75)

  lemma LowRows()
    ensures Law(LOW_P) && Law(LOW_Q) && !Clean(LOW_P, LOW_Q)
  {
    TwoLaw(FLOOR / 2.0);
    TwoLaw(FLOOR * 0.75);
    TwoIs(FLOOR / 2.0, 1.0 - FLOOR / 2.0, ONE);
    TwoIs(FLOOR * 0.75, 1.0 - FLOOR * 0.75, ONE);
    assert !Clear(Prob(LOW_P, 1), Prob(LOW_Q, 1));
  }

  /** Below the floor the law does fail: id 1, with target mass FLOOR / 2 and draft mass
      3/4 FLOOR, comes out with mass 3/8 FLOOR. */
  lemma FloorBreaksLaw(g: Token -> real)
    requires g(1) == 1.0 && g(2) == 0.0
    ensures Law(LOW_P) && Law(LOW_Q) && !Clean(LOW_P, LOW_Q)
    ensures Expect(LOW_P, g) == FLOOR / 2.0
    ensures Expect(LOW_Q, Settled(LOW_P, LOW_Q, g, Expect(Redraw(LOW_P, LOW_Q), g))) == FLOOR * 0.375
  {
    LowRows();
    TwoIs(FLOOR / 2.0, 1.0 - FLOOR / 2.0, g);
    TwoRedraw(FLOOR / 2.0, 1.0 - FLOOR / 2.0, FLOOR * 0.75, 1.0 - FLOOR * 0.75, g);
    var settled := Settled(LOW_P, LOW_Q, g, 0.0);
    LowSettled(g, settled);
    TwoIs(FLOOR * 0.75, 1.0 - FLOOR * 0.75, settled);
  }

  lemma LowSettled(g: Token -> real, settled: Token -> real)
    requires g(1) == 1.0 && g(2) == 0.0 && settled == Settled(LOW_P, LOW_Q, g, 0.0)
    ensures settled(1) == 0.5 && settled(2) == 0.0
  {
    TwoIs(FLOOR / 2.0, 1.0 - FLOOR / 2.0, g);
    TwoIs(FLOOR * 0.75, 1.0 - FLOOR * 0.75, g);
    Keeps();
  }

  lemma Keeps()
    ensures Keep(FLOOR / 2.0, FLOOR * 0.75) == 0.5
    ensures Keep(1.0 - FLOOR / 2.0, 1.0 - FLOOR * 0.75) == 1.0
  {
    Ratio(1.0 - FLOOR / 2.0, 1.0 - FLOOR * 0.75);
  }
}
