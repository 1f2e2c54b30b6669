/** Acceptance of sampled drafts, and the law of what a window keeps. */
module Speculate {
  import opened Target
  import opened Sampling

  /** The floor under the draft probability in the ratio test. */
  const FLOOR: real := 1.0 / 1_000_000_000_000_000_000_000_000_000_000.0

  /** The probability of keeping a draft with target mass `pr` and draft mass `qr`. */
  function Keep(pr: real, qr: real): real {
    Min(1.0, pr / (if qr > FLOOR then qr else FLOOR))
  }

  function Accept(p: Dist, q: Dist, t: Token): real {
    Keep(Prob(p, t), Prob(q, t))
  }

  /** The floor does not bite. */
  predicate Clear(pr: real, qr: real) {
    qr == 0.0 || qr >= FLOOR || pr >= FLOOR || pr == 0.0
  }

  ghost predicate Clean(p: Dist, q: Dist) {
    forall t {:trigger Prob(q, t)} :: Clear(Prob(p, t), Prob(q, t))
  }

  lemma Ratio(a: real, b: real)
    requires a >= 0.0 && b > 0.0
    ensures (a / b) * b == a && a / b >= 0.0 && (a / b < 1.0 <==> a < b)
  {
    if a / b >= 1.0 {
      Grows(1.0, a / b, b);
    } else {
      Shrinks(a / b, b);
    }
  }

  lemma Grows(x: real, y: real, c: real)
    requires c >= 0.0 && x <= y
    ensures x * c <= y * c
  {
  }

  lemma Shrinks(r: real, x: real)
    requires r < 1.0 && x > 0.0
    ensures r * x < x
  {
  }

  lemma Loses(pr: real, qr: real, floor: real)
    requires 0.0 < pr < floor && 0.0 < qr < floor
    ensures Times(pr / floor, qr) < pr && Times(pr / floor, qr) < qr
  {
    Ratio(pr, floor);
    Shrinks(pr / floor, qr);
    Widens(pr / floor, qr, floor);
  }

  lemma Widens(r: real, x: real, y: real)
    requires r > 0.0 && x < y
    ensures r * x < r * y
  {
  }

  /** A draft is kept with exactly the shared mass, if and only if the floor does not bite. */
  lemma KeptMass(pr: real, qr: real)
    requires pr >= 0.0 && qr >= 0.0
    ensures Times(Keep(pr, qr), qr) == Min(pr, qr) <==> Clear(pr, qr)
  {
    if qr > FLOOR {
      Ratio(pr, qr);
    } else {
      Ratio(pr, FLOOR);
      if 0.0 < qr < FLOOR && 0.0 < pr < FLOOR {
        Loses(pr, qr, FLOOR);
      }
    }
  }

  function Scale(d: Dist, total: real): Dist
    requires total != 0.0
  {
    if d == [] then [] else [Weighted(d[0].token, d[0].prob / total)] + Scale(d[1..], total)
  }

  /** The distribution of the redraw after a rejection; the target itself when p = q. */
  function Redraw(p: Dist, q: Dist): Dist {
    var r := Residual(p, q);
    if Mass(r) <= 0.0 then p else Scale(r, Mass(r))
  }

  lemma {:induction false} ScaleExpect(d: Dist, total: real, g: Token -> real)
    requires total != 0.0
    ensures Times(total, Expect(Scale(d, total), g)) == Expect(d, g)
    ensures |Scale(d, total)| == |d| && forall i :: 0 <= i < |d| ==>
              Scale(d, total)[i] == Weighted(d[i].token, d[i].prob / total)
    decreases |d|
  {
    if d != [] {
      ScaleExpect(d[1..], total, g);
      ScaleStep(d[0].prob, total, g(d[0].token), Expect(Scale(d[1..], total), g));
    }
  }

  lemma ScaleStep(w: real, total: real, v: real, sum: real)
    requires total != 0.0
    ensures Times(total, Times(w / total, v) + sum) == Times(w, v) + Times(total, sum)
  {
    assert total * (w / total) == w;
    assert total * ((w / total) * v) == (total * (w / total)) * v;
  }

  /** One more draft of weight `w` and value `hx`, of which `m` is kept. */
  lemma SettleStep(w: real, hx: real, a: real, v: real, c: real, m: real, rest: real, left: real)
    requires Times(a, w) == m && hx == Settle(a, v, c) && left == (w - m) + rest
    ensures Times(w, hx) + Times(c, rest) == Times(m, v) + Times(c, left)
  {
    assert w * hx == w * (a * v) + w * ((1.0 - a) * c);
    assert w * (a * v) == (a * w) * v;
    assert w * ((1.0 - a) * c) == c * (w - a * w);
    assert c * (w - m) + c * rest == c * left;
  }

  /** A draft kept with probability `a` is worth `v`; a redraw is worth `c`. */
  function Settle(a: real, v: real, c: real): real {
    Times(a, v) + Times(1.0 - a, c)
  }

  /** The value of a draft from `rest`: `g` when it is kept, `c` when it is redrawn. */
  lemma {:induction false} SettleSum(
    rest: Dist, p: Dist, keep: Token -> real, g: Token -> real, h: Token -> real, c: real, left: real)
    requires forall i :: 0 <= i < |rest| ==>
              Times(keep(rest[i].token), rest[i].prob) == Min(rest[i].prob, Prob(p, rest[i].token))
    requires forall x :: h(x) == Settle(keep(x), g(x), c)
    requires left == Mass(rest) - Overlap(rest, p, ONE)
    ensures Expect(rest, h) == Overlap(rest, p, g) + Times(c, left)
    decreases |rest|
  {
    if rest == [] {
      assert Times(c, 0.0) == 0.0;
    } else {
      forall i | 0 <= i < |rest[1..]|
        ensures Times(keep(rest[1..][i].token), rest[1..][i].prob)
                  == Min(rest[1..][i].prob, Prob(p, rest[1..][i].token))
      {
        assert rest[1..][i] == rest[i + 1];
      }
      var w, x, tail := rest[0].prob, rest[0].token, rest[1..];
      var m := Min(w, Prob(p, x));
      var one := Mass(tail) - Overlap(tail, p, ONE);
      SettleSum(tail, p, keep, g, h, c, one);
      SettleStep(w, h(x), keep(x), g(x), c, m, one, left);
    }
  }

  /** Keep a draft and take its value, or redraw. */
  function Settled(p: Dist, q: Dist, g: Token -> real, c: real): Token -> real {
    x => Settle(Accept(p, q, x), g(x), c)
  }

  /** One draft and its redraw have the target's law: for every value `g`. */
  lemma AcceptOrRedraw(p: Dist, q: Dist, g: Token -> real)
    requires Law(p) && Law(q) && Clean(p, q)
    ensures Expect(q, Settled(p, q, g, Expect(Redraw(p, q), g))) == Expect(p, g)
  {
    var c, left := Expect(Redraw(p, q), g), 1.0 - Overlap(q, p, ONE);
    forall i | 0 <= i < |q|
      ensures Times(Accept(p, q, q[i].token), q[i].prob) == Min(q[i].prob, Prob(p, q[i].token))
    {
      ProbAt(q, i);
      ProbNonneg(p, q[i].token);
      KeptMass(Prob(p, q[i].token), q[i].prob);
      assert Clear(Prob(p, q[i].token), Prob(q, q[i].token));
    }
    SettleSum(q, p, x => Accept(p, q, x), g, Settled(p, q, g, c), c, left);
    OverlapSymmetric(p, q, g);
    OverlapSymmetric(p, q, ONE);
    ResidualExpect(p, q, g);
    RejectedMass(p, q);
    RedrawExpect(p, q, g, left);
  }

  /** The redraw, times the mass it stands for, is the residual. */
  lemma RedrawExpect(p: Dist, q: Dist, g: Token -> real, left: real)
    requires Weights(p) && left == Mass(Residual(p, q))
    ensures Times(Expect(Redraw(p, q), g), left) == Expect(Residual(p, q), g)
  {
    var r, c := Residual(p, q), Expect(Redraw(p, q), g);
    ResidualIs(p, q);
    NoMass(r, g);
    if left > 0.0 {
      ScaleExpect(r, left, g);
      assert Times(left, c) == Times(c, left);
    } else {
      assert Times(c, 0.0) == 0.0;
    }
  }

  /** The mass left over by the overlap is the residual's. */
  lemma RejectedMass(p: Dist, q: Dist)
    requires Mass(p) == 1.0
    ensures Mass(Residual(p, q)) == 1.0 - Overlap(p, q, ONE)
  {
    ResidualExpect(p, q, ONE);
    MassIsExpect(p);
    MassIsExpect(Residual(p, q));
  }

  lemma {:induction false} ProbNonneg(d: Dist, t: Token)
    requires Weights(d)
    ensures Prob(d, t) >= 0.0
    decreases |d|
  {
    if d != [] {
      ProbNonneg(d[1..], t);
    }
  }
}
