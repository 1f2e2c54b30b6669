/** Attention of one query row as a blocked, split and merged softmax.

    Arithmetic is exact.  `e` stands for the exponential: positive, and turning sums
    into products.  One value coordinate stands for all; the statistics are shared. */
module Softmax {
  import opened Sampling

  /** Names a pair at which `e` splits. */
  predicate Both(x: real, y: real) { true }

  ghost predicate Exponential(e: real -> real) {
    && (forall x :: e(x) > 0.0)
    && (forall x, y {:trigger Both(x, y)} :: Both(x, y) ==> e(x + y) == Times(e(x), e(y)))
  }

  /** The sum over keys [a, b) of e(score - m) times the value. */
  function Soft(e: real -> real, s: seq<real>, v: seq<real>, m: real, a: nat, b: nat): real
    requires b <= |s| && b <= |v|
  {
    if b <= a then 0.0 else Soft(e, s, v, m, a, b - 1) + Times(e(s[b - 1] - m), v[b - 1])
  }

  function Ones(n: nat): seq<real> {
    seq(n, _ => 1.0)
  }

  /** Softmax attention over keys [a, b). */
  function Attention(e: real -> real, s: seq<real>, v: seq<real>, a: nat, b: nat): real
    requires b <= |s| == |v|
  {
    var mass := Soft(e, s, Ones(|s|), 0.0, a, b);
    if mass == 0.0 then 0.0 else Soft(e, s, v, 0.0, a, b) / mass
  }

  /** The exponentials of keys [a, b), and the mean of the values by given weights. */
  function Total(e: real -> real, s: seq<real>, a: nat, b: nat): real
    requires b <= |s|
  {
    if b <= a then 0.0 else Total(e, s, a, b - 1) + e(s[b - 1])
  }

  function Mix(w: seq<real>, v: seq<real>, a: nat, b: nat): real
    requires b <= |w| && b <= |v|
  {
    if b <= a then 0.0 else Mix(w, v, a, b - 1) + Times(w[b - 1], v[b - 1])
  }

  /** What attention is: each value counts by its key's share of the exponentials. */
  lemma AttentionIsMix(e: real -> real, s: seq<real>, v: seq<real>, a: nat, b: nat, w: seq<real>)
    requires Exponential(e) && a < b <= |s| == |v| == |w|
    requires forall i :: a <= i < b ==> w[i] == Share(e, s, a, b, i)
    ensures Attention(e, s, v, a, b) == Mix(w, v, a, b)
  {
    SoftPositive(e, s, 0.0, a, b);
    TotalIs(e, s, a, b);
    MixIs(e, s, v, a, b, w, b);
  }

  function Share(e: real -> real, s: seq<real>, a: nat, b: nat, i: nat): real
    requires i < |s| && b <= |s|
  {
    if Total(e, s, a, b) == 0.0 then 0.0 else e(s[i]) / Total(e, s, a, b)
  }

  lemma {:induction false} TotalIs(e: real -> real, s: seq<real>, a: nat, b: nat)
    requires b <= |s|
    ensures Total(e, s, a, b) == Soft(e, s, Ones(|s|), 0.0, a, b)
    decreases b
  {
    if b > a {
      TotalIs(e, s, a, b - 1);
      assert s[b - 1] - 0.0 == s[b - 1];
      assert Times(e(s[b - 1]), 1.0) == e(s[b - 1]);
    }
  }

  lemma {:induction false} MixIs(e: real -> real, s: seq<real>, v: seq<real>, a: nat, b: nat, w: seq<real>, n: nat)
    requires a <= n <= b <= |s| == |v| == |w| && Total(e, s, a, b) > 0.0
    requires forall i :: a <= i < b ==> w[i] == Share(e, s, a, b, i)
    ensures Mix(w, v, a, n) == Soft(e, s, v, 0.0, a, n) / Total(e, s, a, b)
    decreases n
  {
    if n > a {
      MixIs(e, s, v, a, b, w, n - 1);
      assert s[n - 1] - 0.0 == s[n - 1];
      OneMore(Soft(e, s, v, 0.0, a, n - 1), e(s[n - 1]), v[n - 1], Total(e, s, a, b));
    }
  }

  lemma OneMore(sum: real, x: real, v: real, total: real)
    requires total > 0.0
    ensures sum / total + Times(x / total, v) == (sum + Times(x, v)) / total
  {
    assert (x / total) * v == (x * v) / total;
  }

  /** Moving the reference point rescales every sum by one factor. */
  lemma {:induction false} Rescale(e: real -> real, s: seq<real>, v: seq<real>, m: real, top: real, a: nat, b: nat)
    requires Exponential(e) && b <= |s| && b <= |v|
    ensures Times(Soft(e, s, v, m, a, b), e(m - top)) == Soft(e, s, v, top, a, b)
    decreases b
  {
    if b > a {
      Rescale(e, s, v, m, top, a, b - 1);
      var x := s[b - 1];
      assert Both(x - m, m - top) && (x - m) + (m - top) == x - top;
      Spread(Soft(e, s, v, m, a, b - 1), e(x - m), v[b - 1], e(m - top));
    }
  }

  lemma Spread(sum: real, w: real, x: real, f: real)
    ensures Times(sum + Times(w, x), f) == Times(sum, f) + Times(Times(w, f), x)
  {
  }

  lemma {:induction false} SoftSplit(e: real -> real, s: seq<real>, v: seq<real>, m: real, a: nat, b: nat, c: nat)
    requires a <= b <= c <= |s| && c <= |v|
    ensures Soft(e, s, v, m, a, c) == Soft(e, s, v, m, a, b) + Soft(e, s, v, m, b, c)
    decreases c
  {
    if c > b {
      SoftSplit(e, s, v, m, a, b, c - 1);
    }
  }

  lemma {:induction false} SoftPositive(e: real -> real, s: seq<real>, m: real, a: nat, b: nat)
    requires Exponential(e) && b <= |s|
    ensures a < b ==> Soft(e, s, Ones(|s|), m, a, b) > 0.0
    decreases b
  {
    if b > a {
      SoftPositive(e, s, m, a, b - 1);
      assert Times(e(s[b - 1] - m), 1.0) == e(s[b - 1] - m);
    }
  }

  /** A running maximum, minus infinity before the first key. */
  datatype Ext = NegInf | Fin(r: real)

  function Higher(a: Ext, b: Ext): Ext {
    if a.NegInf? then b else if b.NegInf? || b.r <= a.r then a else b
  }

  function Peak(s: seq<real>, a: nat, b: nat): (p: Ext)
    requires b <= |s|
    ensures p.NegInf? <==> b <= a
  {
    if b <= a then NegInf else Higher(Peak(s, a, b - 1), Fin(s[b - 1]))
  }

  lemma {:induction false} PeakSplit(s: seq<real>, a: nat, b: nat, c: nat)
    requires a <= b <= c <= |s|
    ensures Peak(s, a, c) == Higher(Peak(s, a, b), Peak(s, b, c))
    decreases c
  {
    if c > b {
      PeakSplit(s, a, b, c - 1);
    }
  }

  /** No exponent of a slice is positive. */
  lemma {:induction false} PeakIsMax(s: seq<real>, a: nat, b: nat, i: nat)
    requires a <= i < b <= |s|
    ensures s[i] <= Peak(s, a, b).r
    decreases b
  {
    if i < b - 1 {
      PeakIsMax(s, a, b - 1, i);
    }
  }

  function Base(m: Ext): real {
    if m.NegInf? then 0.0 else m.r
  }

  /** The factor from an old running maximum to a new one; 0 from minus infinity. */
  function Rise(e: real -> real, m: Ext, to: real): real {
    if m.NegInf? then 0.0 else e(m.r - to)
  }

  const BLOCK := 64

  /** One slice: a running maximum, mass and accumulator, rescaled block by block. */
  method Partial(e: real -> real, s: seq<real>, v: seq<real>, start: nat, end: nat) returns (m: Ext, l: real, acc: real)
    requires Exponential(e) && end <= |s| == |v|
    ensures m == Peak(s, start, end)
    ensures l == Soft(e, s, Ones(|s|), Base(m), start, end)
    ensures acc == Soft(e, s, v, Base(m), start, end)
  {
    m, l, acc := NegInf, 0.0, 0.0;
    var n := start;
    while n < end
      invariant start <= n
      invariant var done := if n < end then n else end;
                && m == Peak(s, start, done)
                && l == Soft(e, s, Ones(|s|), Base(m), start, done)
                && acc == Soft(e, s, v, Base(m), start, done)
    {
      var stop := if n + BLOCK < end then n + BLOCK else end;
      var up := Higher(m, Peak(s, n, stop));
      var alpha := Rise(e, m, up.r);
      Advance(e, s, Ones(|s|), m, up.r, start, n, stop);
      Advance(e, s, v, m, up.r, start, n, stop);
      PeakSplit(s, start, n, stop);
      l := Times(l, alpha) + Soft(e, s, Ones(|s|), up.r, n, stop);
      acc := Times(acc, alpha) + Soft(e, s, v, up.r, n, stop);
      m := up;
      n := n + BLOCK;
    }
  }

  lemma Advance(e: real -> real, s: seq<real>, v: seq<real>, m: Ext, up: real, start: nat, n: nat, stop: nat)
    requires Exponential(e) && start <= n <= stop <= |s| == |v| && m == Peak(s, start, n)
    ensures Times(Soft(e, s, v, Base(m), start, n), Rise(e, m, up)) + Soft(e, s, v, up, n, stop)
              == Soft(e, s, v, up, start, stop)
  {
    SoftSplit(e, s, v, up, start, n, stop);
    if m.Fin? {
      Rescale(e, s, v, m.r, up, start, n);
    }
  }

  function Cdiv(a: nat, b: nat): nat
    requires b > 0
  {
    (a + b - 1) / b
  }

  const SPLITS := 32

  function Chunk(length: nat): nat {
    Cdiv(Cdiv(length, SPLITS), BLOCK) * BLOCK
  }

  function Start(length: nat, split: nat): nat {
    split * Chunk(length)
  }

  function End(length: nat, split: nat): nat {
    var end := Start(length, split) + Chunk(length);
    if end < length then end else length
  }

  /** Where slice `split` begins among the keys; slice 32 would begin at the length. */
  function Edge(length: nat, split: nat): nat {
    if Start(length, split) < length then Start(length, split) else length
  }

  /** Each slice ends where the next begins; one that starts past the length is empty. */
  lemma SliceEdges(length: nat, split: nat)
    ensures End(length, split) == Edge(length, split + 1) && Edge(length, split) <= Edge(length, split + 1) <= length
    ensures Start(length, split) < length ==> Start(length, split) == Edge(length, split)
    ensures Start(length, split) >= length ==> End(length, split) == Edge(length, split) == length
  {
    assert Start(length, split + 1) == Start(length, split) + Chunk(length);
  }

  /** The slices start at 0 and reach the length. */
  lemma SlicesCover(length: nat)
    ensures Edge(length, 0) == 0 && Edge(length, SPLITS) == length
  {
    assert Cdiv(length, SPLITS) * SPLITS >= length;
    assert Chunk(length) >= Cdiv(length, SPLITS);
  }

  function Top(ms: seq<Ext>): Ext {
    if ms == [] then NegInf else Higher(Top(ms[..|ms| - 1]), ms[|ms| - 1])
  }

  /** The weighted sum over slices. */
  function Gather(e: real -> real, ms: seq<Ext>, xs: seq<real>, top: real, n: nat): real
    requires n <= |ms| == |xs|
  {
    if n == 0 then 0.0 else Gather(e, ms, xs, top, n - 1) + Times(xs[n - 1], Rise(e, ms[n - 1], top))
  }

  ghost predicate SliceOf(e: real -> real, s: seq<real>, v: seq<real>, length: nat, m: Ext, x: real, j: nat)
    requires length <= |s| == |v|
  {
    var a, b := Edge(length, j), Edge(length, j + 1);
    m == Peak(s, a, b) && x == Soft(e, s, v, Base(m), a, b)
  }

  /** A slice moved to the common reference point; an empty one weighs nothing. */
  lemma SliceRises(e: real -> real, s: seq<real>, v: seq<real>, m: Ext, x: real, top: real, a: nat, b: nat)
    requires Exponential(e) && a <= b <= |s| && b <= |v| && m == Peak(s, a, b) && x == Soft(e, s, v, Base(m), a, b)
    ensures Times(x, Rise(e, m, top)) == Soft(e, s, v, top, a, b)
  {
    if m.Fin? {
      Rescale(e, s, v, m.r, top, a, b);
    }
  }

  /** Gathering slices, empty ones included, is one sum over the keys they cover. */
  lemma {:induction false} GatherIsSoft(
    e: real -> real, s: seq<real>, v: seq<real>, length: nat, ms: seq<Ext>, xs: seq<real>, top: real, n: nat)
    requires Exponential(e) && length <= |s| == |v| && n <= |ms| == |xs| <= SPLITS
    requires forall j :: 0 <= j < n ==> SliceOf(e, s, v, length, ms[j], xs[j], j)
    ensures Gather(e, ms, xs, top, n) == Soft(e, s, v, top, 0, Edge(length, n))
    decreases n
  {
    if n == 0 {
      SlicesCover(length);
    } else {
      var a, b, m, x := Edge(length, n - 1), Edge(length, n), ms[n - 1], xs[n - 1];
      SliceEdges(length, n - 1);
      GatherIsSoft(e, s, v, length, ms, xs, top, n - 1);
      assert Soft(e, s, v, top, 0, b) == Soft(e, s, v, top, 0, a) + Soft(e, s, v, top, a, b) by {
        SoftSplit(e, s, v, top, 0, a, b);
      }
      assert Times(x, Rise(e, m, top)) == Soft(e, s, v, top, a, b) by {
        assert SliceOf(e, s, v, length, m, x, n - 1);
        SliceRises(e, s, v, m, x, top, a, b);
      }
    }
  }

  /** A quotient of sums does not depend on the reference point. */
  lemma QuotientIsAttention(e: real -> real, s: seq<real>, v: seq<real>, m: real, a: nat, b: nat)
    requires Exponential(e) && a < b <= |s| == |v|
    ensures var mass := Soft(e, s, Ones(|s|), m, a, b);
            mass > 0.0 && Soft(e, s, v, m, a, b) / mass == Attention(e, s, v, a, b)
  {
    SoftPositive(e, s, m, a, b);
    SoftPositive(e, s, 0.0, a, b);
    Rescale(e, s, v, m, 0.0, a, b);
    Rescale(e, s, Ones(|s|), m, 0.0, a, b);
    Cancel(Soft(e, s, v, m, a, b), Soft(e, s, Ones(|s|), m, a, b), e(m - 0.0));
  }

  lemma Cancel(n: real, d: real, f: real)
    requires d > 0.0 && f > 0.0
    ensures Times(d, f) > 0.0 && Times(n, f) / Times(d, f) == n / d
  {
    var q := n / d;
    assert q * d == n;
    assert q * (d * f) == n * f;
  }

  /** The reusable workspace of one query row. */
  class DecodeAttention {
    const part: array<real>
    const peak: array<Ext>
    const mass: array<real>

    ghost predicate Valid()
      reads this
    {
      part.Length == SPLITS && peak.Length == SPLITS && mass.Length == SPLITS && part != mass
    }

    constructor ()
      ensures Valid() && fresh(part) && fresh(peak) && fresh(mass)
    {
      part := new real[SPLITS];
      peak := new Ext[SPLITS];
      mass := new real[SPLITS];
    }

    /** Every slice stores its statistics. */
    method Slice(e: real -> real, s: seq<real>, v: seq<real>, length: nat)
      requires Valid() && Exponential(e) && length <= |s| == |v|
      modifies part, peak, mass
      ensures forall j :: 0 <= j < SPLITS ==> SliceOf(e, s, v, length, peak[..][j], part[..][j], j)
      ensures forall j :: 0 <= j < SPLITS ==> SliceOf(e, s, Ones(|s|), length, peak[..][j], mass[..][j], j)
    {
      for split := 0 to SPLITS
        invariant forall j :: 0 <= j < split ==> SliceOf(e, s, v, length, peak[j], part[j], j)
        invariant forall j :: 0 <= j < split ==> SliceOf(e, s, Ones(|s|), length, peak[j], mass[j], j)
      {
        peak[split], mass[split], part[split] := PartialOf(e, s, v, length, split);
      }
    }

    /** Attend one row over the first `length` keys. */
    method Attend(e: real -> real, s: seq<real>, v: seq<real>, length: nat) returns (out: real)
      requires Valid() && Exponential(e) && 1 <= length <= |s| == |v|
      modifies part, peak, mass
      ensures out == Attention(e, s, v, 0, length)
    {
      Slice(e, s, v, length);
      var ms, ls, xs := peak[..], mass[..], part[..];
      var top := Base(Top(ms));
      GatherIsSoft(e, s, v, length, ms, xs, top, SPLITS);
      GatherIsSoft(e, s, Ones(|s|), length, ms, ls, top, SPLITS);
      SlicesCover(length);
      QuotientIsAttention(e, s, v, top, 0, length);
      out := Gather(e, ms, xs, top, SPLITS) / Gather(e, ms, ls, top, SPLITS);
    }
  }

  /** The program of one slice. */
  method PartialOf(
      e: real -> real, s: seq<real>, v: seq<real>, length: nat, split: nat)
      returns (m: Ext, l: real, acc: real)
    requires Exponential(e) && length <= |s| == |v| && split < SPLITS
    ensures SliceOf(e, s, v, length, m, acc, split) && SliceOf(e, s, Ones(|s|), length, m, l, split)
  {
    SliceEdges(length, split);
    m, l, acc := Partial(e, s, v, Start(length, split), End(length, split));
  }

  /** The keys [0, past) and the causal part [past, past + i + 1) of the chunk, merged by
      log-sum-exp: row `i` sees the whole past and itself. */
  lemma MergeBottomRight(
      e: real -> real, s: seq<real>, v: seq<real>, past: nat, i: nat, left: real, right: real, total: real)
    requires Exponential(e) && 0 < past && past + i < |s| == |v|
    requires e(left) == Soft(e, s, Ones(|s|), 0.0, 0, past)
    requires e(right) == Soft(e, s, Ones(|s|), 0.0, past, past + i + 1)
    requires e(total) == e(left) + e(right)
    ensures Times(Attention(e, s, v, 0, past), e(left - total))
              + Times(Attention(e, s, v, past, past + i + 1), e(right - total))
         == Attention(e, s, v, 0, past + i + 1)
  {
    var end := past + i + 1;
    SoftSplit(e, s, v, 0.0, 0, past, end);
    SoftSplit(e, s, Ones(|s|), 0.0, 0, past, end);
    assert Both(left - total, total) && Both(right - total, total);
    assert (left - total) + total == left && (right - total) + total == right;
    Part(Soft(e, s, v, 0.0, 0, past), e(left), e(left - total), e(total));
    Part(Soft(e, s, v, 0.0, past, end), e(right), e(right - total), e(total));
    Together(Soft(e, s, v, 0.0, 0, past), Soft(e, s, v, 0.0, past, end), e(total));
  }

  lemma Part(n: real, d: real, f: real, total: real)
    requires d > 0.0 && total > 0.0 && d == Times(f, total)
    ensures Times(n / d, f) == n / total
  {
    var q := n / d;
    assert q * d == n;
    assert q * f * total == n;
  }

  lemma Together(a: real, b: real, total: real)
    requires total > 0.0
    ensures a / total + b / total == (a + b) / total
  {
  }

  ghost predicate Inverse(e: real -> real, log: real -> real) {
    forall x :: x > 0.0 ==> e(log(x)) == x
  }

  /** The output of row `i` of a chunk of `rows` over `keys` cached keys: a square causal
      mask, one row over everything, or the merge of the past with the causal chunk. */
  function DraftAttend(
      e: real -> real, log: real -> real, s: seq<real>, v: seq<real>, rows: nat, keys: nat, i: nat): real
    requires i < rows <= keys == |s| == |v|
  {
    if rows == keys then Attention(e, s, v, 0, i + 1)
    else if rows == 1 then Attention(e, s, v, 0, keys)
    else
      var past := keys - rows;
      var left := log(Soft(e, s, Ones(|s|), 0.0, 0, past));
      var right := log(Soft(e, s, Ones(|s|), 0.0, past, past + i + 1));
      var total := log(e(left) + e(right));
      Times(Attention(e, s, v, 0, past), e(left - total))
          + Times(Attention(e, s, v, past, past + i + 1), e(right - total))
  }

  /** Every branch is bottom-right causal attention: the last row sees every key, and
      each earlier row one fewer. */
  lemma DraftAttendIsCausal(
      e: real -> real, log: real -> real, s: seq<real>, v: seq<real>, rows: nat, keys: nat, i: nat)
    requires Exponential(e) && Inverse(e, log) && i < rows <= keys == |s| == |v|
    ensures DraftAttend(e, log, s, v, rows, keys, i) == Attention(e, s, v, 0, keys - (rows - 1 - i))
  {
    if rows != keys && rows != 1 {
      MergedIsCausal(e, log, s, v, rows, keys, i, keys - rows);
    }
  }

  lemma MergedIsCausal(
      e: real -> real, log: real -> real, s: seq<real>, v: seq<real>, rows: nat, keys: nat, i: nat, past: nat)
    requires Exponential(e) && Inverse(e, log) && i < rows < keys == |s| == |v| && rows != 1 && past == keys - rows
    ensures DraftAttend(e, log, s, v, rows, keys, i) == Attention(e, s, v, 0, past + i + 1)
  {
    var left := LogOf(e, log, s, 0, past);
    var right := LogOf(e, log, s, past, past + i + 1);
    var total := log(e(left) + e(right));
    assert e(left) > 0.0 && e(right) > 0.0;
    MergeBottomRight(e, s, v, past, i, left, right, total);
  }

  /** The log-sum-exp of a slice. */
  lemma LogOf(e: real -> real, log: real -> real, s: seq<real>, a: nat, b: nat) returns (lse: real)
    requires Exponential(e) && Inverse(e, log) && a < b <= |s|
    ensures lse == log(Soft(e, s, Ones(|s|), 0.0, a, b)) && e(lse) == Soft(e, s, Ones(|s|), 0.0, a, b)
  {
    SoftPositive(e, s, 0.0, a, b);
    lse := log(Soft(e, s, Ones(|s|), 0.0, a, b));
  }
}
