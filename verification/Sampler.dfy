/** The host sampler: cumulative draws, the nucleus, and the speculative window. */
module Sampler {
  import opened Target
  import opened Sampling
  import opened Speculate

  /** The sum of the first `n` weights. */
  function Cum(w: seq<real>, n: nat): real
    requires n <= |w|
  {
    if n == 0 then 0.0 else Cum(w, n - 1) + w[n - 1]
  }

  function Sum(w: seq<real>): real {
    Cum(w, |w|)
  }

  /** Position `i` is the one whose interval (Cum(i), Cum(i + 1)] holds `x`: each
      position owns an interval as long as its weight.  Only the first is closed below. */
  predicate Hits(w: seq<real>, x: real, i: nat) {
    i < |w| && x <= Cum(w, i + 1) && (i > 0 ==> Cum(w, i) < x)
  }

  predicate Nonneg(w: seq<real>) {
    forall i :: 0 <= i < |w| ==> w[i] >= 0.0
  }

  lemma {:induction false} CumMonotone(w: seq<real>, m: nat, n: nat)
    requires Nonneg(w) && m <= n <= |w|
    ensures Cum(w, m) <= Cum(w, n)
    decreases n - m
  {
    if m < n {
      CumMonotone(w, m, n - 1);
    }
  }

  /** The intervals are disjoint, cover (0, Sum], and an id of weight 0 owns nothing. */
  lemma HitsOnce(w: seq<real>, x: real, i: nat, j: nat)
    requires Nonneg(w) && Hits(w, x, i)
    ensures Hits(w, x, j) ==> i == j
    ensures x > 0.0 ==> w[i] > 0.0
  {
    if j < i && Hits(w, x, j) {
      CumMonotone(w, j + 1, i);
    } else if i < j && Hits(w, x, j) {
      CumMonotone(w, i + 1, j);
    }
    assert Cum(w, i + 1) == Cum(w, i) + w[i];
  }

  /** One draw over the first `keep` weights, `u` of the way through their sum. */
  method Draw(weights: seq<real>, keep: nat, u: real) returns (position: nat)
    requires 0 < keep <= |weights| && Nonneg(weights) && 0.0 <= u < 1.0
    ensures Hits(weights[..keep], Times(u, Sum(weights[..keep])), position)
  {
    var kept := weights[..keep];
    var draw := Times(u, Sum(kept));
    CumMonotone(kept, 0, keep);
    Inside(u, Sum(kept));
    var cursor := 0.0;
    position := 0;
    while position < keep
      invariant position <= keep && cursor == Cum(kept, position)
      invariant position > 0 ==> cursor < draw
    {
      cursor := cursor + kept[position];
      if draw <= cursor {
        return;
      }
      position := position + 1;
    }
    assert false;
  }

  lemma Inside(u: real, sum: real)
    requires 0.0 <= u < 1.0 && sum >= 0.0
    ensures 0.0 <= Times(u, sum) <= sum
  {
    Grows(u, 1.0, sum);
    Grows(0.0, u, sum);
  }

  function Probs(d: Dist): seq<real> {
    seq(|d|, i requires 0 <= i < |d| => d[i].prob)
  }

  lemma {:induction false} MassIsSum(d: Dist, n: nat)
    requires n <= |d|
    ensures Mass(d) == Cum(Probs(d), n) + Mass(d[n..])
    decreases n
  {
    if n == 0 {
      assert d[0..] == d;
    } else {
      MassIsSum(d, n - 1);
      assert d[n - 1..][0] == d[n - 1] && d[n - 1..][1..] == d[n..];
    }
  }

  /** A draw from a table, in its own order. */
  method DrawFrom(d: Dist, u: real) returns (token: Token, at: nat)
    requires Law(d) && 0.0 <= u < 1.0
    ensures Hits(Probs(d), u, at) && token == d[at].token
  {
    var cursor, i := 0.0, 0;
    token, at := 0, 0;
    ghost var w := Probs(d);
    MassIsSum(d, |d|);
    while i < |d|
      invariant i <= |d| && cursor == Cum(w, i)
      invariant i > 0 ==> cursor < u
    {
      cursor := cursor + d[i].prob;
      if u <= cursor {
        return d[i].token, i;
      }
      i := i + 1;
    }
    // The whole mass is 1, so a draw below 1 has landed.
    assert false;
  }

  /** How many of the first `n` ids have cumulative mass at most `topP`. */
  function Under(w: seq<real>, topP: real, n: nat): (r: nat)
    requires n <= |w| && Sum(w) > 0.0
    ensures r <= n
  {
    if n == 0 then 0 else Under(w, topP, n - 1) + (if Cum(w, n) / Sum(w) <= topP then 1 else 0)
  }

  /** Kept count: the crossing id is dropped, the first id always stays. */
  function Nucleus(w: seq<real>, topP: real): nat
    requires Sum(w) > 0.0
  {
    var n := Under(w, topP, |w|);
    if n < 1 then 1 else n
  }

  lemma {:induction false} UnderIsPrefix(w: seq<real>, topP: real, n: nat, i: nat)
    requires Nonneg(w) && Sum(w) > 0.0 && i < n <= |w|
    ensures i < Under(w, topP, n) <==> Cum(w, i + 1) / Sum(w) <= topP
    decreases n
  {
    if n > 1 {
      UnderIsPrefix(w, topP, n - 1, n - 2);
      CumMonotone(w, n - 1, n);
      Divides(Cum(w, n - 1), Cum(w, n), Sum(w));
    }
    if i < n - 1 {
      UnderIsPrefix(w, topP, n - 1, i);
      CumMonotone(w, i + 1, n);
      Divides(Cum(w, i + 1), Cum(w, n), Sum(w));
    }
  }

  lemma Divides(a: real, b: real, s: real)
    requires a <= b && s > 0.0
    ensures a / s <= b / s
  {
  }

  /** The verifier's count and the proposer's mask keep the same ids. */
  lemma NucleusIsMask(w: seq<real>, topP: real, i: nat)
    requires Nonneg(w) && Sum(w) > 0.0 && i < |w|
    ensures i < Nucleus(w, topP) <==> i == 0 || Cum(w, i + 1) / Sum(w) <= topP
  {
    UnderIsPrefix(w, topP, |w|, i);
  }

  function Zipped(ids: seq<Token>, w: seq<real>): Dist
    requires |ids| == |w|
  {
    seq(|ids|, i requires 0 <= i < |ids| => Weighted(ids[i], w[i]))
  }

  predicate Row(ids: seq<Token>, w: seq<real>) {
    && 0 < |w| == |ids| && (forall i :: 0 <= i < |w| ==> w[i] > 0.0)
    && (forall i, j :: 0 <= i < j < |ids| ==> ids[i] != ids[j])
  }

  /** The served distribution of one row: the top ids cut to the nucleus, renormalized. */
  function TargetRow(ids: seq<Token>, w: seq<real>, topP: real): Dist
    requires Row(ids, w)
  {
    SumPositive(w, |w|);
    var keep := Kept(w, topP);
    Normalized(Zipped(ids[..keep], w[..keep]))
  }

  function Kept(w: seq<real>, topP: real): (n: nat)
    requires Sum(w) > 0.0
    ensures n <= |w|
  {
    var n := Nucleus(w, topP);
    if n < |w| then n else |w|
  }

  /** The distribution the proposer draws from: the same nucleus, as a mask with zeros. */
  function DraftRow(ids: seq<Token>, w: seq<real>, topP: real): Dist
    requires Row(ids, w)
  {
    SumPositive(w, |w|);
    Normalized(Zipped(ids, Masked(w, topP)))
  }

  function Masked(w: seq<real>, topP: real): (m: seq<real>)
    requires Sum(w) > 0.0
    ensures |m| == |w|
  {
    seq(|w|, i requires 0 <= i < |w| => if i == 0 || Cum(w, i + 1) / Sum(w) <= topP then w[i] else 0.0)
  }

  function Normalized(d: Dist): Dist {
    if Mass(d) == 0.0 then d else Scale(d, Mass(d))
  }

  lemma {:induction false} SumPositive(w: seq<real>, n: nat)
    requires n <= |w| && forall i :: 0 <= i < n ==> w[i] > 0.0
    ensures n > 0 ==> Cum(w, n) > 0.0
    decreases n
  {
    if n > 1 {
      SumPositive(w, n - 1);
    }
  }

  lemma {:induction false} MassPositive(d: Dist)
    requires forall i :: 0 <= i < |d| ==> d[i].prob >= 0.0
    ensures Mass(d) >= 0.0 && forall i :: 0 <= i < |d| ==> d[i].prob <= Mass(d)
    decreases |d|
  {
    if d != [] {
      MassPositive(d[1..]);
      forall i | 0 <= i < |d|
        ensures d[i].prob <= Mass(d)
      {
        if i > 0 {
          assert d[i] == d[1..][i - 1];
        }
      }
    }
  }

  /** Nonnegative weights, not all zero, normalize to a law. */
  lemma NormalizedIsLaw(d: Dist)
    requires Weights(d) && exists i :: 0 <= i < |d| && d[i].prob > 0.0
    ensures Law(Normalized(d))
  {
    MassPositive(d);
    var total := Mass(d);
    ScaleExpect(d, total, ONE);
    MassIsExpect(d);
    MassIsExpect(Scale(d, total));
    assert Times(total, Mass(Scale(d, total))) == total;
    OneLeft(total, Mass(Scale(d, total)));
    forall i | 0 <= i < |d|
      ensures Scale(d, total)[i].prob >= 0.0
    {
      Ratio(d[i].prob, total);
    }
  }

  lemma OneLeft(a: real, b: real)
    requires a > 0.0 && Times(a, b) == a
    ensures b == 1.0
  {
    assert a * (b - 1.0) == 0.0;
  }

  /** Every served row is a law on distinct ids. */
  lemma TargetRowIsLaw(ids: seq<Token>, w: seq<real>, topP: real)
    requires Row(ids, w)
    ensures Law(TargetRow(ids, w, topP)) && TargetRow(ids, w, topP) != []
  {
    SumPositive(w, |w|);
    var keep := Kept(w, topP);
    var d := Zipped(ids[..keep], w[..keep]);
    assert d[0].prob > 0.0;
    NormalizedIsLaw(d);
  }

  /** Ids of weight 0 after a table change neither its mass nor what it says of any id. */
  lemma {:induction false} PadZeros(d: Dist, zeros: Dist, t: Token)
    requires forall i :: 0 <= i < |zeros| ==> zeros[i].prob == 0.0
    ensures Prob(d + zeros, t) == Prob(d, t) && Mass(d + zeros) == Mass(d)
    decreases |d| + |zeros|
  {
    if d != [] {
      assert (d + zeros)[1..] == d[1..] + zeros;
      PadZeros(d[1..], zeros, t);
    } else if zeros != [] {
      assert d + zeros == zeros && [] + zeros[1..] == zeros[1..];
      PadZeros([], zeros[1..], t);
    }
  }

  lemma {:induction false} ScaleProb(d: Dist, total: real, t: Token)
    requires total != 0.0
    ensures Prob(Scale(d, total), t) == Prob(d, t) / total
    decreases |d|
  {
    if d != [] {
      ScaleProb(d[1..], total, t);
    }
  }

  /** Proposer and verifier serve one transform: the two rows give every id the same mass. */
  lemma RowsServeAlike(ids: seq<Token>, w: seq<real>, topP: real, t: Token)
    requires Row(ids, w)
    ensures Prob(DraftRow(ids, w, topP), t) == Prob(TargetRow(ids, w, topP), t)
  {
    SumPositive(w, |w|);
    var keep := Kept(w, topP);
    var full, kept := Zipped(ids, Masked(w, topP)), Zipped(ids[..keep], w[..keep]);
    var zeros := MaskedIsKept(ids, w, topP);
    PadZeros(kept, zeros, t);
    if Mass(kept) != 0.0 {
      ScaleProb(full, Mass(full), t);
      ScaleProb(kept, Mass(kept), t);
    }
  }

  /** Every weight past the kept ones is 0. */
  lemma MaskedIsKept(ids: seq<Token>, w: seq<real>, topP: real) returns (zeros: Dist)
    requires Row(ids, w) && Sum(w) > 0.0
    ensures Kept(w, topP) <= |w|
    ensures Zipped(ids, Masked(w, topP)) == Zipped(ids[..Kept(w, topP)], w[..Kept(w, topP)]) + zeros
    ensures forall i :: 0 <= i < |zeros| ==> zeros[i].prob == 0.0
  {
    var keep, full := Kept(w, topP), Zipped(ids, Masked(w, topP));
    zeros := full[keep..];
    forall i | 0 <= i < |w|
      ensures full[i] == Weighted(ids[i], if i < keep then w[i] else 0.0)
    {
      NucleusIsMask(w, topP, i);
    }
  }

  // --- What is served ---

  /** The weight of the first `n` ids that the nucleus keeps: the first one, and those whose
      cumulative share is at most `topP`. */
  function KeptWeight(w: seq<real>, topP: real, n: nat): real
    requires n <= |w| && Sum(w) > 0.0
  {
    if n == 0 then 0.0
    else KeptWeight(w, topP, n - 1) + (if n == 1 || Cum(w, n) / Sum(w) <= topP then w[n - 1] else 0.0)
  }

  lemma {:induction false} MaskedWeighs(w: seq<real>, topP: real, n: nat)
    requires n <= |w| && Sum(w) > 0.0
    ensures Cum(Masked(w, topP), n) == KeptWeight(w, topP, n)
    decreases n
  {
    if n > 0 {
      MaskedWeighs(w, topP, n - 1);
    }
  }

  lemma MaskedMass(ids: seq<Token>, w: seq<real>, topP: real)
    requires Row(ids, w) && Sum(w) > 0.0
    ensures Mass(Zipped(ids, Masked(w, topP))) == KeptWeight(w, topP, |w|) > 0.0
  {
    var d := Zipped(ids, Masked(w, topP));
    MassIsSum(d, |d|);
    assert Probs(d) == Masked(w, topP);
    MaskedWeighs(w, topP, |w|);
    MassPositive(d);
    assert d[0].prob == w[0];
  }

  /** What the proposer's row gives each id: its weight's share of what the nucleus keeps, or
      nothing. */
  lemma DraftRowServes(ids: seq<Token>, w: seq<real>, topP: real, i: nat)
    requires Row(ids, w) && i < |ids|
    ensures Sum(w) > 0.0 && KeptWeight(w, topP, |w|) > 0.0
    ensures Prob(DraftRow(ids, w, topP), ids[i])
         == (if i == 0 || Cum(w, i + 1) / Sum(w) <= topP then w[i] / KeptWeight(w, topP, |w|) else 0.0)
  {
    SumPositive(w, |w|);
    MaskedMass(ids, w, topP);
    var d := Zipped(ids, Masked(w, topP));
    ScaleProb(d, Mass(d), ids[i]);
    ProbAt(d, i);
    assert d[i].token == ids[i];
  }

  /** And to any other id nothing. */
  lemma DraftRowServesOnly(ids: seq<Token>, w: seq<real>, topP: real, t: Token)
    requires Row(ids, w) && t !in ids
    ensures Prob(DraftRow(ids, w, topP), t) == 0.0
  {
    SumPositive(w, |w|);
    MaskedMass(ids, w, topP);
    var d := Zipped(ids, Masked(w, topP));
    ScaleProb(d, Mass(d), t);
    assert forall k :: 0 <= k < |d| ==> d[k].token == ids[k];
    ProbAbsent(d, t);
  }

  /** So does the verifier's row. */
  lemma TargetRowServes(ids: seq<Token>, w: seq<real>, topP: real, i: nat)
    requires Row(ids, w) && i < |ids|
    ensures Sum(w) > 0.0 && KeptWeight(w, topP, |w|) > 0.0
    ensures Prob(TargetRow(ids, w, topP), ids[i])
         == (if i == 0 || Cum(w, i + 1) / Sum(w) <= topP then w[i] / KeptWeight(w, topP, |w|) else 0.0)
  {
    DraftRowServes(ids, w, topP, i);
    RowsServeAlike(ids, w, topP, ids[i]);
  }

  lemma TargetRowServesOnly(ids: seq<Token>, w: seq<real>, topP: real, t: Token)
    requires Row(ids, w) && t !in ids
    ensures Prob(TargetRow(ids, w, topP), t) == 0.0
  {
    DraftRowServesOnly(ids, w, topP, t);
    RowsServeAlike(ids, w, topP, t);
  }

  const PAD: Token := -1

  function Pad(n: nat): seq<Token> {
    seq(n, _ => PAD)
  }

  /** How far the drafts are kept, one uniform per draft. */
  ghost predicate KeptTo(targets: seq<Dist>, drafted: seq<Token>, proposals: seq<Dist>, us: seq<real>, m: nat)
    requires |drafted| == |proposals| <= |targets| && |us| > |drafted|
  {
    && m <= |drafted|
    && (forall i :: 0 <= i < m ==> us[i] < Accept(targets[i], proposals[i], drafted[i]))
    && (m < |drafted| ==> us[m] >= Accept(targets[m], proposals[m], drafted[m]))
  }

  /** The table of a window's last draw, after `m` kept drafts. */
  function Last(targets: seq<Dist>, drafted: seq<Token>, proposals: seq<Dist>, m: nat): Dist
    requires m <= |drafted| == |proposals| < |targets|
  {
    if m < |drafted| then Redraw(targets[m], proposals[m]) else targets[m]
  }

  /** The samples of a window: the kept drafts, one draw, and padding. */
  method SpeculativeWindow(targets: seq<Dist>, drafted: seq<Token>, proposals: seq<Dist>, us: seq<real>)
    returns (samples: seq<Token>, m: nat, at: nat)
    requires |drafted| == |proposals| && |targets| == |drafted| + 1 && |us| == |drafted| + 2
    requires forall i :: 0 <= i < |targets| ==> Law(targets[i])
    requires forall i :: 0 <= i < |us| ==> 0.0 <= us[i] < 1.0
    ensures KeptTo(targets, drafted, proposals, us, m)
    ensures var drawn := Last(targets, drafted, proposals, m);
            && Law(drawn) && Hits(Probs(drawn), us[if m < |drafted| then m + 1 else m], at)
            && samples == drafted[..m] + [drawn[at].token] + Pad(|drafted| - m)
  {
    samples := [];
    for index := 0 to |drafted|
      invariant samples == drafted[..index]
      invariant forall i :: 0 <= i < index ==> us[i] < Accept(targets[i], proposals[i], drafted[i])
    {
      var token, p, q := drafted[index], targets[index], proposals[index];
      if us[index] < Accept(p, q, token) {
        samples := samples + [token];
      } else {
        RedrawIsLaw(p, q);
        m := index;
        var id;
        id, at := DrawFrom(Redraw(p, q), us[index + 1]);
        samples := samples + [id] + Pad(|drafted| - index);
        return;
      }
    }
    m := |drafted|;
    var id;
    id, at := DrawFrom(targets[|drafted|], us[|drafted|]);
    samples := samples + [id];
  }

  lemma RedrawIsLaw(p: Dist, q: Dist)
    requires Law(p)
    ensures Law(Redraw(p, q))
  {
    ResidualIs(p, q);
    var r := Residual(p, q);
    MassPositive(r);
    if Mass(r) > 0.0 {
      assert r != [] && r[0].prob > 0.0;
      NormalizedIsLaw(r);
    }
  }
}
