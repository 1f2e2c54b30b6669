/** The law of the ids a sampled window keeps is the target's own. */
module WindowLaw {
  import opened Target
  import opened Sampling
  import opened Speculate
  import Sampler

  /** A distribution for the next id after every text. */
  type Model = seq<Token> -> Dist

  /** When a turn over a prompt of `base` ids is over: at `n` ids, or after a stop id. */
  datatype Rule = Rule(n: nat, base: nat, stops: set<Token>)

  predicate Over(rule: Rule, text: seq<Token>) {
    |text| >= rule.n || exists i :: rule.base <= i < |text| && text[i] in rule.stops
  }

  /** The text without what came after the turn was over: the budget and stop trims. */
  function Ended(rule: Rule, text: seq<Token>): seq<Token> {
    if text != [] && Over(rule, text[..|text| - 1]) then Ended(rule, text[..|text| - 1]) else text
  }

  /** Autoregressive sampling from `p` until the turn is over: the expected `f` of the text. */
  ghost function Sampled(p: Model, rule: Rule, text: seq<Token>, f: seq<Token> -> real): real
    decreases Left(rule.n, text), 1
  {
    if Over(rule, text) then f(Ended(rule, text)) else Expect(p(text), Onward(p, rule, text, f))
  }

  ghost function Onward(p: Model, rule: Rule, text: seq<Token>, f: seq<Token> -> real): Token -> real
    requires !Over(rule, text)
    decreases Left(rule.n, text), 0
  {
    t => Sampled(p, rule, text + [t], f)
  }

  function Left(n: nat, text: seq<Token>): nat {
    if |text| >= n then 0 else n - |text|
  }

  /** `f` of the whole text after one more id. */
  function With(f: seq<Token> -> real, text: seq<Token>): Token -> real {
    t => f(text + [t])
  }

  /** Verify the drafts in order: keep each, or redraw there and stop; after the last,
      draw a bonus id.  The expected `f` of the text that results. */
  ghost function Verified(p: Model, q: Model, text: seq<Token>, drafted: seq<Token>, f: seq<Token> -> real): real
    decreases |drafted|
  {
    if drafted == [] then Expect(p(text), With(f, text))
    else
      var x := drafted[0];
      Settle(Accept(p(text), q(text), x),
             Verified(p, q, text + [x], drafted[1..], f),
             Expect(Redraw(p(text), q(text)), With(f, text)))
  }

  ghost function Verify(p: Model, q: Model, text: seq<Token>, f: seq<Token> -> real): seq<Token> -> real {
    drafted => Verified(p, q, text, drafted, f)
  }

  /** Roll `k` more drafts from `q`, each after the ones before it. */
  ghost function Drawn(q: Model, text: seq<Token>, drafted: seq<Token>, k: nat, f: seq<Token> -> real): real
    decreases k, 1
  {
    if k == 0 then f(drafted) else Expect(q(text + drafted), Draw(q, text, drafted, k, f))
  }

  ghost function Draw(q: Model, text: seq<Token>, drafted: seq<Token>, k: nat, f: seq<Token> -> real): Token -> real
    requires k > 0
    decreases k, 0
  {
    x => Drawn(q, text, drafted + [x], k - 1, f)
  }

  /** A whole window: all drafts are rolled first, then verified. */
  ghost function Window(p: Model, q: Model, text: seq<Token>, k: nat, f: seq<Token> -> real): real {
    Drawn(q, text, [], k, Verify(p, q, text, f))
  }

  ghost predicate Lawful(p: Model, q: Model) {
    forall text :: Law(p(text)) && Law(q(text)) && Clean(p(text), q(text))
  }

  lemma {:induction false} ExpectSame(d: Dist, g: Token -> real, h: Token -> real)
    requires forall x :: g(x) == h(x)
    ensures Expect(d, g) == Expect(d, h)
    decreases |d|
  {
    if d != [] {
      ExpectSame(d[1..], g, h);
    }
  }

  /** Drafts after a first draft `x` are drafts of the longer text. */
  lemma {:induction false} DrawnAfter(
    q: Model, text: seq<Token>, x: Token, drafted: seq<Token>, k: nat, f: seq<Token> -> real, h: seq<Token> -> real,
    a: real, b: real)
    requires forall s :: Law(q(s))
    requires forall d :: f([x] + d) == Times(a, h(d)) + b
    ensures Drawn(q, text, [x] + drafted, k, f) == Times(a, Drawn(q, text + [x], drafted, k, h)) + b
    decreases k
  {
    if k > 0 {
      var d := q(text + [x] + drafted);
      assert text + ([x] + drafted) == text + [x] + drafted;
      var long, short := Draw(q, text, [x] + drafted, k, f), Draw(q, text + [x], drafted, k, h);
      forall y
        ensures long(y) == Times(a, short(y)) + b
      {
        assert [x] + drafted + [y] == [x] + (drafted + [y]);
        DrawnAfter(q, text, x, drafted + [y], k - 1, f, h, a, b);
      }
      ExpectAffine(d, long, short, a, b);
      assert Law(q(text + [x] + drafted));
      assert Times(b, 1.0) == b;
    }
  }

  lemma VerifyCons(p: Model, q: Model, text: seq<Token>, x: Token, d: seq<Token>, f: seq<Token> -> real)
    ensures Verify(p, q, text, f)([x] + d)
         == Times(Accept(p(text), q(text), x), Verify(p, q, text + [x], f)(d))
            + Times(1.0 - Accept(p(text), q(text), x), Expect(Redraw(p(text), q(text)), With(f, text)))
  {
    assert ([x] + d)[1..] == d;
  }

  /** A first draft settles on its own: it is kept and the window goes on, or redrawn. */
  lemma FirstSettles(
      p: Model, q: Model, text: seq<Token>, x: Token, k: nat, f: seq<Token> -> real, g: Token -> real, c: real)
    requires k > 0 && forall s :: Law(q(s))
    requires g(x) == Window(p, q, text + [x], k - 1, f) && c == Expect(Redraw(p(text), q(text)), With(f, text))
    ensures Draw(q, text, [], k, Verify(p, q, text, f))(x) == Settled(p(text), q(text), g, c)(x)
  {
    var a := Accept(p(text), q(text), x);
    var b := Times(1.0 - a, c);
    var verify, h := Verify(p, q, text, f), Verify(p, q, text + [x], f);
    forall d
      ensures verify([x] + d) == Times(a, h(d)) + b
    {
      VerifyCons(p, q, text, x, d, f);
    }
    DrawnAfter(q, text, x, [], k - 1, verify, h, a, b);
    assert [x] + [] == [x] == [] + [x];
  }

  lemma WindowUnfold(p: Model, q: Model, text: seq<Token>, k: nat, f: seq<Token> -> real, g: Token -> real)
    requires k > 0 && forall s :: Law(q(s))
    requires forall x :: g(x) == Window(p, q, text + [x], k - 1, f)
    ensures Window(p, q, text, k, f)
         == Expect(q(text), Settled(p(text), q(text), g, Expect(Redraw(p(text), q(text)), With(f, text))))
  {
    var c := Expect(Redraw(p(text), q(text)), With(f, text));
    var first := Draw(q, text, [], k, Verify(p, q, text, f));
    var settled := Settled(p(text), q(text), g, c);
    forall x
      ensures first(x) == settled(x)
    {
      FirstSettles(p, q, text, x, k, f, g, c);
    }
    ExpectSame(q(text), first, settled);
    assert text + [] == text;
  }

  /** What is over stays over, and later ids are trimmed away. */
  lemma {:induction false} OverStays(rule: Rule, text: seq<Token>, more: seq<Token>)
    requires Over(rule, text)
    ensures Over(rule, text + more) && Ended(rule, text + more) == Ended(rule, text)
    decreases |more|
  {
    var all := text + more;
    if more == [] {
      assert all == text;
    } else {
      assert all[..|all| - 1] == text + more[..|more| - 1];
      OverStays(rule, text, more[..|more| - 1]);
      if |all| < rule.n {
        var i :| rule.base <= i < |text| && text[i] in rule.stops;
        assert all[i] in rule.stops;
      }
    }
  }

  /** `s` goes on from `text`. */
  predicate Extends(text: seq<Token>, s: seq<Token>) {
    |s| > |text| && text <= s
  }

  ghost predicate Alike(text: seq<Token>, f: seq<Token> -> real, g: seq<Token> -> real) {
    forall s :: Extends(text, s) ==> f(s) == g(s)
  }

  lemma AlikeWith(text: seq<Token>, f: seq<Token> -> real, g: seq<Token> -> real)
    requires Alike(text, f, g)
    ensures forall x :: With(f, text)(x) == With(g, text)(x)
    ensures forall x :: Alike(text + [x], f, g)
  {
    forall x
      ensures f(text + [x]) == g(text + [x])
    {
      assert Extends(text, text + [x]);
    }
    forall x, s | Extends(text + [x], s)
      ensures f(s) == g(s)
    {
      assert text + [x] <= s && text <= text + [x];
      assert Extends(text, s);
    }
  }

  /** A window only asks for texts that go on from its own. */
  lemma {:induction false} VerifiedSame(
      p: Model, q: Model, text: seq<Token>, drafted: seq<Token>, f: seq<Token> -> real, g: seq<Token> -> real)
    requires Alike(text, f, g)
    ensures Verified(p, q, text, drafted, f) == Verified(p, q, text, drafted, g)
    decreases |drafted|
  {
    AlikeWith(text, f, g);
    if drafted == [] {
      ExpectSame(p(text), With(f, text), With(g, text));
    } else {
      ExpectSame(Redraw(p(text), q(text)), With(f, text), With(g, text));
      VerifiedSame(p, q, text + [drafted[0]], drafted[1..], f, g);
    }
  }

  lemma {:induction false} DrawnSame(
      q: Model, text: seq<Token>, drafted: seq<Token>, k: nat, f: seq<Token> -> real, g: seq<Token> -> real)
    requires forall d :: f(d) == g(d)
    ensures Drawn(q, text, drafted, k, f) == Drawn(q, text, drafted, k, g)
    decreases k
  {
    if k > 0 {
      forall x
        ensures Draw(q, text, drafted, k, f)(x) == Draw(q, text, drafted, k, g)(x)
      {
        DrawnSame(q, text, drafted + [x], k - 1, f, g);
      }
      ExpectSame(q(text + drafted), Draw(q, text, drafted, k, f), Draw(q, text, drafted, k, g));
    }
  }

  lemma WindowSame(p: Model, q: Model, text: seq<Token>, k: nat, f: seq<Token> -> real, g: seq<Token> -> real)
    requires Alike(text, f, g)
    ensures Window(p, q, text, k, f) == Window(p, q, text, k, g)
  {
    forall d
      ensures Verify(p, q, text, f)(d) == Verify(p, q, text, g)(d)
    {
      VerifiedSame(p, q, text, d, f, g);
    }
    DrawnSame(q, text, [], k, Verify(p, q, text, f), Verify(p, q, text, g));
  }

  /** The expectation of a constant. */
  lemma ExpectConst(d: Dist, g: Token -> real, v: real)
    requires Law(d) && forall x :: g(x) == v
    ensures Expect(d, g) == v
  {
    ExpectAffine(d, g, ONE, 0.0, v);
    assert Times(v, 1.0) == v;
  }

  lemma RedrawLaw(p: Dist, q: Dist)
    requires Law(p)
    ensures Law(Redraw(p, q))
  {
    Sampler.RedrawIsLaw(p, q);
  }

  /** A window over a text that is over changes nothing. */
  lemma {:induction false} VerifiedConst(
      p: Model, q: Model, text: seq<Token>, drafted: seq<Token>, f: seq<Token> -> real, v: real)
    requires Lawful(p, q) && Alike(text, f, s => v)
    ensures Verified(p, q, text, drafted, f) == v
    decreases |drafted|
  {
    assert Lawful(p, q) ==> Law(p(text)) && Law(q(text));
    AlikeWith(text, f, s => v);
    if drafted == [] {
      ExpectConst(p(text), With(f, text), v);
    } else {
      RedrawLaw(p(text), q(text));
      ExpectConst(Redraw(p(text), q(text)), With(f, text), v);
      VerifiedConst(p, q, text + [drafted[0]], drafted[1..], f, v);
      SettleBoth(Accept(p(text), q(text), drafted[0]), v);
    }
  }

  lemma SettleBoth(a: real, v: real)
    ensures Settle(a, v, v) == v
  {
  }

  lemma {:induction false} DrawnConst(
      q: Model, text: seq<Token>, drafted: seq<Token>, k: nat, f: seq<Token> -> real, v: real)
    requires (forall s :: Law(q(s))) && forall d :: f(d) == v
    ensures Drawn(q, text, drafted, k, f) == v
    decreases k
  {
    if k > 0 {
      forall x
        ensures Draw(q, text, drafted, k, f)(x) == v
      {
        DrawnConst(q, text, drafted + [x], k - 1, f, v);
      }
      assert Law(q(text + drafted));
      ExpectConst(q(text + drafted), Draw(q, text, drafted, k, f), v);
    }
  }

  lemma WindowConst(p: Model, q: Model, text: seq<Token>, k: nat, f: seq<Token> -> real, v: real)
    requires Lawful(p, q) && Alike(text, f, s => v)
    ensures Window(p, q, text, k, f) == v
  {
    forall d
      ensures Verify(p, q, text, f)(d) == v
    {
      VerifiedConst(p, q, text, d, f, v);
    }
    DrawnConst(q, text, [], k, Verify(p, q, text, f), v);
  }

  ghost function Finish(p: Model, rule: Rule, f: seq<Token> -> real): seq<Token> -> real {
    s => Sampled(p, rule, s, f)
  }

  /** The window keeps the target's law: emitting its ids and then sampling on from `p`,
      trimmed where the turn is over, is sampling from `p` all along, for every value of
      the final text, also when the window overruns the budget or a stop id. */
  lemma {:induction false} WindowKeepsLaw(
      p: Model, q: Model, rule: Rule, text: seq<Token>, k: nat, f: seq<Token> -> real)
    requires Lawful(p, q)
    ensures Window(p, q, text, k, Finish(p, rule, f)) == Sampled(p, rule, text, f)
    decreases k
  {
    var end := Finish(p, rule, f);
    if Over(rule, text) {
      forall s | Extends(text, s)
        ensures end(s) == Sampled(p, rule, text, f)
      {
        assert s == text + s[|text|..];
        OverStays(rule, text, s[|text|..]);
      }
      WindowConst(p, q, text, k, end, Sampled(p, rule, text, f));
    } else {
      OpenWindow(p, q, rule, text, k, f);
    }
  }

  lemma {:induction false} OpenWindow(p: Model, q: Model, rule: Rule, text: seq<Token>, k: nat, f: seq<Token> -> real)
    requires Lawful(p, q) && !Over(rule, text)
    ensures Window(p, q, text, k, Finish(p, rule, f)) == Sampled(p, rule, text, f)
    decreases k, 0
  {
    var end, on := Finish(p, rule, f), Onward(p, rule, text, f);
    assert Lawful(p, q) ==> Law(p(text)) && Law(q(text)) && Clean(p(text), q(text));
    ExpectSame(p(text), With(end, text), on);
    if k > 0 {
      ExpectSame(Redraw(p(text), q(text)), With(end, text), on);
      forall x
        ensures on(x) == Window(p, q, text + [x], k - 1, end)
      {
        WindowKeepsLaw(p, q, rule, text + [x], k - 1, f);
      }
      WindowUnfold(p, q, text, k, end, on);
      AcceptOrRedraw(p(text), q(text), on);
    }
  }

  /** A whole sampled turn: windows of `k` drafts until it is over.  What proposes may
      change from window to window: the block, or a copy of earlier ids. */
  ghost function SampledTurn(
      p: Model, qs: seq<Token> -> Model, rule: Rule, text: seq<Token>, k: nat, f: seq<Token> -> real): real
    decreases Left(rule.n, text), 1
  {
    if Over(rule, text) then f(Ended(rule, text)) else Window(p, qs(text), text, k, Rest(p, qs, rule, text, k, f))
  }

  ghost function Rest(
      p: Model, qs: seq<Token> -> Model, rule: Rule, text: seq<Token>, k: nat,
      f: seq<Token> -> real): seq<Token> -> real
    requires !Over(rule, text)
    decreases Left(rule.n, text), 0
  {
    s => if |s| > |text| then SampledTurn(p, qs, rule, s, k, f) else 0.0
  }

  /** The whole sampled turn, its trims included, has the law of sampling from `p`. */
  lemma {:induction false} TurnKeepsLaw(
      p: Model, qs: seq<Token> -> Model, rule: Rule, text: seq<Token>, k: nat, f: seq<Token> -> real)
    requires forall s :: Lawful(p, qs(s))
    ensures SampledTurn(p, qs, rule, text, k, f) == Sampled(p, rule, text, f)
    decreases Left(rule.n, text)
  {
    if !Over(rule, text) {
      forall s | Extends(text, s)
        ensures Rest(p, qs, rule, text, k, f)(s) == Finish(p, rule, f)(s)
      {
        TurnKeepsLaw(p, qs, rule, s, k, f);
      }
      WindowSame(p, qs(text), text, k, Rest(p, qs, rule, text, k, f), Finish(p, rule, f));
      assert Lawful(p, qs(text));
      WindowKeepsLaw(p, qs(text), rule, text, k, f);
    }
  }
}
