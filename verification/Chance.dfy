/** A sampled turn on the resident caches, and the law of its answer.

    The tables a window uses are made of the rows that the caches give it.  While the caches
    hold the text, whatever was drawn before, the answer is sampled from the exact text. */
module Chance {
  import opened Options
  import opened Target
  import opened Sampling
  import opened Speculate
  import opened Draft
  import opened Decode
  import opened SuffixIndex
  import opened Caches
  import opened Redrawn
  import Sampler
  import WindowLaw
  import Mtp

  /** The served transforms of a target row and of a draft row; and whether drafts are drawn
      and put to the ratio test, or rolled as ever and matched against one draw per row. */
  datatype Heads = Heads(target: Row -> Dist, draft: Row -> Dist, ratio: bool)

  /** What a turn draws with: the tables, the network, the copied drafts, `k` drafts a window,
      and when it is over. */
  datatype Game = Game(h: Heads, net: Net, index: Option<Index>, k: nat, rule: WindowLaw.Rule)

  // --- Drafts ---

  /** The draft block's output after the held id and some drafts. */
  function BlockRow(net: Net, rows: seq<Paired>, token: Token, hidden: Row, drafted: seq<Token>): Row
    decreases |drafted|
  {
    var seen := rows + [Paired(token, hidden)];
    var out := net.draftRow(seen);
    if drafted == [] then out else BlockRow(net, seen, drafted[0], out, drafted[1..])
  }

  /** A roll reads these rows. */
  lemma {:induction false} RollReads(net: Net, rows: seq<Paired>, token: Token, hidden: Row, steps: nat, i: nat)
    requires i < steps
    ensures var ids := RollSpec(net, rows, token, hidden, steps).ids;
            ids[i] == net.draftId(BlockRow(net, rows, token, hidden, ids[..i]))
    decreases i
  {
    RollUnfold(net, rows, token, hidden, steps);
    if i > 0 {
      var ids := RollSpec(net, rows, token, hidden, steps).ids;
      var seen := rows + [Paired(token, hidden)];
      var out := net.draftRow(seen);
      RollReads(net, seen, ids[0], out, steps - 1, i - 1);
      assert ids[..i] == [ids[0]] + ids[1..][..i - 1];
    }
  }

  /** A copied draft is certain. */
  function Sure(t: Token): Dist {
    [Weighted(t, 1.0)]
  }

  /** The table that draft number `|drafted|` of a window comes from. */
  function Offer(
      g: Game, rows: seq<Paired>, carry: Row, text: seq<Token>, held: Token, drafted: seq<Token>): Dist {
    var copied := CopyOf(g.index, text, held, g.k);
    if copied.Some? then Sure(if |drafted| < g.k then copied.value[|drafted|] else 0)
    else g.h.draft(BlockRow(g.net, rows, held, carry, drafted))
  }

  /** Draw the drafts of a window, each after the ones before; `f` is a value of the drafts. */
  ghost function Rolled(
      g: Game, c: Core, text: seq<Token>, held: Token, drafted: seq<Token>, n: nat, f: seq<Token> -> real): real
    requires c.carry.Some?
    decreases n, 1
  {
    if n == 0 then f(drafted)
    else Expect(Offer(g, c.rows, c.carry.value, text, held, drafted), Roll(g, c, text, held, drafted, n, f))
  }

  ghost function Roll(
      g: Game, c: Core, text: seq<Token>, held: Token, drafted: seq<Token>, n: nat, f: seq<Token> -> real)
      : Token -> real
    requires c.carry.Some? && n > 0
    decreases n, 0
  {
    x => Rolled(g, c, text, held, drafted + [x], n - 1, f)
  }

  // --- Verification ---

  /** What a window emits when it has kept `n` drafts and then drawn `id`. */
  function Emits(drafted: seq<Token>, n: nat, id: Token): seq<Token>
    requires n <= |drafted|
  {
    var samples := drafted[..n] + [id] + Sampler.Pad(|drafted| - n);
    samples[..Mtp.Matched(drafted, samples) + 1]
  }

  function Emitted(drafted: seq<Token>, n: nat, f: seq<Token> -> real): Token -> real
    requires n <= |drafted|
  {
    id => f(Emits(drafted, n, id))
  }

  /** The table of row `n` of a window. */
  function Table(g: Game, c: Core, held: Token, drafted: seq<Token>, n: nat): Dist
    requires n <= |drafted|
  {
    g.h.target(Caches.Verify(g.net, c, held, drafted)[n])
  }

  /** Put the drafts to the ratio test from number `n` on; `f` is a value of what is emitted. */
  ghost function Tested(
      g: Game, c: Core, text: seq<Token>, held: Token, drafted: seq<Token>, n: nat, f: seq<Token> -> real): real
    requires c.carry.Some? && n <= |drafted|
    decreases |drafted| - n
  {
    var p := Table(g, c, held, drafted, n);
    if n == |drafted| then Expect(p, Emitted(drafted, n, f))
    else
      var q := Offer(g, c.rows, c.carry.value, text, held, drafted[..n]);
      Settle(Accept(p, q, drafted[n]),
             Tested(g, c, text, held, drafted, n + 1, f),
             Expect(Redraw(p, q), Emitted(drafted, n, f)))
  }

  /** Or draw each row and keep the drafts that were drawn too; the draws after the first
      other one are not looked at. */
  ghost function Drawn(
      g: Game, c: Core, held: Token, drafted: seq<Token>, n: nat, f: seq<Token> -> real): real
    requires n <= |drafted|
    decreases |drafted| - n, 1
  {
    Expect(Table(g, c, held, drafted, n), DrawnOn(g, c, held, drafted, n, f))
  }

  ghost function DrawnOn(
      g: Game, c: Core, held: Token, drafted: seq<Token>, n: nat, f: seq<Token> -> real): Token -> real
    requires n <= |drafted|
    decreases |drafted| - n, 0
  {
    id => if n < |drafted| && id == drafted[n] then Drawn(g, c, held, drafted, n + 1, f)
          else f(drafted[..n] + [id])
  }

  // --- The turn ---

  /** The turn after a window, by what the window emits: that is trimmed, and both caches are
      cut back to what is kept; `on` is a value of the caches and the text from there. */
  ghost function Goes(g: Game, c: Core, spoken: seq<Token>, drafted: seq<Token>, on: (Core, seq<Token>) -> real)
      : seq<Token> -> real
    requires spoken != [] && c.carry.Some? && |spoken| < g.rule.n
  {
    emitted => GoesOn(g, c, spoken, drafted, Cut(g.rule, spoken, emitted), on)
  }

  /** What a turn keeps of what a window emits: the budget trim and the stop trim. */
  function Cut(rule: WindowLaw.Rule, spoken: seq<Token>, emitted: seq<Token>): seq<Token> {
    if |spoken| < rule.n then Trim(emitted, rule.n - |spoken|, rule.stops).tokens else []
  }

  ghost function GoesOn(
      g: Game, c: Core, spoken: seq<Token>, drafted: seq<Token>, kept: seq<Token>, on: (Core, seq<Token>) -> real): real
    requires spoken != [] && c.carry.Some?
  {
    if 1 <= |kept| <= |drafted| + 1 then on(Windowed(g.net, c, Last(spoken), drafted, |kept|), spoken + kept) else 0.0
  }

  /** What a window is worth, by its drafts. */
  ghost function Tries(g: Game, c: Core, spoken: seq<Token>, on: (Core, seq<Token>) -> real): seq<Token> -> real
    requires spoken != [] && c.carry.Some? && |spoken| < g.rule.n
  {
    drafted =>
      if g.h.ratio then Tested(g, c, Init(spoken), Last(spoken), drafted, 0, Goes(g, c, spoken, drafted, on))
      else Drawn(g, c, Last(spoken), drafted, 0, Goes(g, c, spoken, drafted, on))
  }

  /** One window on the caches `c`, which should hold all of `spoken` but its last id. */
  ghost function Windows(g: Game, c: Core, spoken: seq<Token>, on: (Core, seq<Token>) -> real): real
    requires spoken != [] && c.carry.Some? && |spoken| < g.rule.n
  {
    var tries := Tries(g, c, spoken, on);
    if g.h.ratio then Rolled(g, c, Init(spoken), Last(spoken), [], g.k, tries)
    else tries(Drafted(g.net, g.index, c, Init(spoken), Last(spoken), g.k))
  }

  /** A whole turn.  `f` is a value of the caches and the text that it ends with. */
  ghost function Played(g: Game, c: Core, spoken: seq<Token>, f: (Core, seq<Token>) -> real): real
    requires spoken != [] && c.carry.Some?
    decreases WindowLaw.Left(g.rule.n, spoken), 1
  {
    if WindowLaw.Over(g.rule, spoken) then f(c, spoken) else Windows(g, c, spoken, Plays(g, spoken, f))
  }

  ghost function Plays(g: Game, spoken: seq<Token>, f: (Core, seq<Token>) -> real): (Core, seq<Token>) -> real
    requires !WindowLaw.Over(g.rule, spoken)
    decreases WindowLaw.Left(g.rule.n, spoken), 0
  {
    (c: Core, longer: seq<Token>) => if |longer| > |spoken| && c.carry.Some? then Played(g, c, longer, f) else 0.0
  }

  // --- The same tables, as functions of the text ---

  /** The target's law after each text. */
  function Own(g: Game): WindowLaw.Model {
    (text: seq<Token>) => if text == [] then Sure(0) else g.h.target(RowOf(g.net, text))
  }

  /** What proposes the window that begins after `spoken`. */
  function Proposes(g: Game, spoken: seq<Token>): WindowLaw.Model {
    (text: seq<Token>) =>
      if |spoken| < 2 then Sure(0)
      else Offer(g, Pairs(g.net, Init(spoken)), RowOf(g.net, Init(spoken)), Init(spoken), Last(spoken),
                 if |text| < |spoken| then [] else text[|spoken|..])
  }

  /** The tables are laws, and the floor of the ratio test bites nowhere. */
  ghost predicate Fair(g: Game) {
    && (forall row :: Law(g.h.target(row)) && Law(g.h.draft(row)))
    && (g.h.ratio ==> forall spoken :: WindowLaw.Lawful(Own(g), Proposes(g, spoken)))
  }

  // --- While the caches hold the text ---

  /** Values that agree wherever a table has mass have one expectation. */
  lemma {:induction false} ExpectWhere(d: Dist, a: Token -> real, b: Token -> real)
    requires forall i :: 0 <= i < |d| && d[i].prob != 0.0 ==> a(d[i].token) == b(d[i].token)
    ensures Expect(d, a) == Expect(d, b)
    decreases |d|
  {
    if d != [] {
      var rest := d[1..];
      forall i | 0 <= i < |rest| && rest[i].prob != 0.0
        ensures a(rest[i].token) == b(rest[i].token)
      {
        assert rest[i] == d[i + 1];
      }
      ExpectWhere(rest, a, b);
      if d[0].prob == 0.0 {
        assert Times(0.0, a(d[0].token)) == 0.0 && Times(0.0, b(d[0].token)) == 0.0;
      }
    }
  }

  /** Each row of a window is the target's on the exact text. */
  lemma TableIsOwn(g: Game, c: Core, text: seq<Token>, held: Token, drafted: seq<Token>, n: nat)
    requires Coupled(g.net, c, text) && n <= |drafted|
    ensures Table(g, c, held, drafted, n) == Own(g)(text + [held] + drafted[..n])
  {
    var window := [held] + drafted;
    RowsAreOf(g.net, text, window);
    assert RowAt(g.net, text, window, Caches.Verify(g.net, c, held, drafted), n);
    assert window[..n + 1] == [held] + drafted[..n];
    assert text + window[..n + 1] == text + [held] + drafted[..n];
  }

  /** Each draft's table is a function of the text. */
  lemma OfferIsOwn(g: Game, c: Core, text: seq<Token>, held: Token, drafted: seq<Token>)
    requires Coupled(g.net, c, text) && text != []
    ensures c.carry.Some?
    ensures Offer(g, c.rows, c.carry.value, text, held, drafted)
         == Proposes(g, text + [held])(text + [held] + drafted)
  {
    var spoken := text + [held];
    assert Init(spoken) == text && Last(spoken) == held && (spoken + drafted)[|spoken|..] == drafted;
    PairsUnique(g.net, text, c.rows);
  }

  /** The drafts of a window on these caches come from `q`. */
  ghost predicate Offers(g: Game, c: Core, text: seq<Token>, held: Token, q: WindowLaw.Model) {
    c.carry.Some? && forall drafted :: OffersAt(g, c, text, held, q, drafted)
  }

  ghost predicate OffersAt(
      g: Game, c: Core, text: seq<Token>, held: Token, q: WindowLaw.Model, drafted: seq<Token>)
    requires c.carry.Some?
  {
    Offer(g, c.rows, c.carry.value, text, held, drafted) == q(text + [held] + drafted)
  }

  lemma OffersOwn(g: Game, c: Core, text: seq<Token>, held: Token)
    requires Coupled(g.net, c, text) && text != []
    ensures Offers(g, c, text, held, Proposes(g, text + [held]))
  {
    forall drafted
      ensures OffersAt(g, c, text, held, Proposes(g, text + [held]), drafted)
    {
      OfferIsOwn(g, c, text, held, drafted);
    }
  }

  /** Every draft has mass where it was drawn. */
  ghost predicate Likely(q: WindowLaw.Model, spoken: seq<Token>, drafted: seq<Token>) {
    forall i :: 0 <= i < |drafted| ==> LikelyAt(q, spoken, drafted, i)
  }

  ghost predicate LikelyAt(q: WindowLaw.Model, spoken: seq<Token>, drafted: seq<Token>, i: nat)
    requires i < |drafted|
  {
    Prob(q(spoken + drafted[..i]), drafted[i]) > 0.0
  }

  lemma LikelySnoc(q: WindowLaw.Model, spoken: seq<Token>, drafted: seq<Token>, x: Token)
    requires Likely(q, spoken, drafted) && Prob(q(spoken + drafted), x) > 0.0
    ensures Likely(q, spoken, drafted + [x])
  {
    var all := drafted + [x];
    forall i | 0 <= i < |all|
      ensures LikelyAt(q, spoken, all, i)
    {
      if i < |drafted| {
        assert LikelyAt(q, spoken, drafted, i);
        assert all[..i] == drafted[..i];
      } else {
        assert all[..i] == drafted;
      }
    }
  }

  /** Two values agree on every window that can be drawn. */
  ghost predicate Same(
      q: WindowLaw.Model, spoken: seq<Token>, k: nat, a: seq<Token> -> real, b: seq<Token> -> real) {
    forall d :: |d| == k && Likely(q, spoken, d) ==> a(d) == b(d)
  }

  /** The drafts are drawn as the text says. */
  lemma {:induction false} RolledIs(
      g: Game, c: Core, text: seq<Token>, held: Token, drafted: seq<Token>, n: nat, q: WindowLaw.Model,
      a: seq<Token> -> real, b: seq<Token> -> real)
    requires Offers(g, c, text, held, q) && forall t :: Law(q(t))
    requires Likely(q, text + [held], drafted) && Same(q, text + [held], |drafted| + n, a, b)
    ensures Rolled(g, c, text, held, drafted, n, a) == WindowLaw.Drawn(q, text + [held], drafted, n, b)
    decreases n
  {
    if n > 0 {
      var spoken := text + [held];
      var d := q(spoken + drafted);
      assert OffersAt(g, c, text, held, q, drafted) && Law(d);
      var left, right := Roll(g, c, text, held, drafted, n, a), WindowLaw.Draw(q, spoken, drafted, n, b);
      forall i | 0 <= i < |d| && d[i].prob != 0.0
        ensures left(d[i].token) == right(d[i].token)
      {
        var x := d[i].token;
        ProbAt(d, i);
        LikelySnoc(q, spoken, drafted, x);
        RolledIs(g, c, text, held, drafted + [x], n - 1, q, a, b);
      }
      ExpectWhere(d, left, right);
    }
  }

  lemma SureExpect(t: Token, a: Token -> real)
    ensures Expect(Sure(t), a) == a(t)
  {
    assert Sure(t)[1..] == [] && Expect([], a) == 0.0;
    assert Times(1.0, a(t)) == a(t);
  }

  /** A copied window is certain. */
  lemma {:induction false} CopyIsCertain(
      g: Game, c: Core, text: seq<Token>, held: Token, n: nat, f: seq<Token> -> real)
    requires c.carry.Some? && n <= g.k && CopyOf(g.index, text, held, g.k).Some?
    ensures var copied := CopyOf(g.index, text, held, g.k).value;
            Rolled(g, c, text, held, copied[..g.k - n], n, f) == f(copied)
    decreases n
  {
    var copied := CopyOf(g.index, text, held, g.k).value;
    if n > 0 {
      var i := g.k - n;
      CopyIsCertain(g, c, text, held, n - 1, f);
      assert copied[..i] + [copied[i]] == copied[..i + 1];
      var next := Roll(g, c, text, held, copied[..i], n, f);
      SureExpect(copied[i], next);
      assert Offer(g, c.rows, c.carry.value, text, held, copied[..i]) == Sure(copied[i]);
      assert next(copied[i]) == Rolled(g, c, text, held, copied[..i + 1], n - 1, f);
    } else {
      assert copied[..g.k] == copied;
    }
  }

  /** What is emitted is worth what the longer text is worth. */
  ghost predicate Worth(spoken: seq<Token>, drafted: seq<Token>, on: seq<Token> -> real, f: seq<Token> -> real) {
    forall kept :: Follows(drafted, kept) ==> on(kept) == f(spoken + kept)
  }

  /** Some of the drafts, and one more id. */
  predicate Follows(drafted: seq<Token>, kept: seq<Token>) {
    1 <= |kept| <= |drafted| + 1 && Init(kept) == drafted[..|kept| - 1]
  }

  lemma WorthAt(
      spoken: seq<Token>, drafted: seq<Token>, on: seq<Token> -> real, f: seq<Token> -> real, n: nat, id: Token)
    requires Worth(spoken, drafted, on, f) && n <= |drafted|
    ensures on(drafted[..n] + [id]) == f(spoken + drafted[..n] + [id])
    ensures n == |drafted| || id != drafted[n] ==> Emitted(drafted, n, on)(id) == f(spoken + drafted[..n] + [id])
  {
    var kept := drafted[..n] + [id];
    assert Init(kept) == drafted[..n] && Follows(drafted, kept);
    assert spoken + kept == spoken + drafted[..n] + [id];
    if n == |drafted| || id != drafted[n] {
      EmitsNext(drafted, n, id, Sampler.Pad(|drafted| - n));
      assert Emits(drafted, n, id) == kept;
    }
  }

  /** A redraw is emitted as it is: it is never the rejected draft. */
  lemma RedrawnWorth(
      p: Dist, q: Dist, spoken: seq<Token>, drafted: seq<Token>, on: seq<Token> -> real, f: seq<Token> -> real, n: nat)
    requires Law(p) && Law(q) && Clean(p, q) && n < |drafted| && Prob(q, drafted[n]) > 0.0
    requires Worth(spoken, drafted, on, f) && Accept(p, q, drafted[n]) < 1.0
    ensures Expect(Redraw(p, q), Emitted(drafted, n, on))
         == Expect(Redraw(p, q), WindowLaw.With(f, spoken + drafted[..n]))
  {
    var r := Redraw(p, q);
    RedrawnAgain(p, q, drafted[n]);
    forall i | 0 <= i < |r|
      ensures Emitted(drafted, n, on)(r[i].token) == WindowLaw.With(f, spoken + drafted[..n])(r[i].token)
    {
      assert Has(r, r[i].token);
      WorthAt(spoken, drafted, on, f, n, r[i].token);
    }
    ExpectWhere(r, Emitted(drafted, n, on), WindowLaw.With(f, spoken + drafted[..n]));
  }

  /** The rows of a window on these caches are `p`'s. */
  ghost predicate Tables(g: Game, c: Core, text: seq<Token>, held: Token, drafted: seq<Token>, p: WindowLaw.Model) {
    forall n :: 0 <= n <= |drafted| ==> TablesAt(g, c, text, held, drafted, p, n)
  }

  ghost predicate TablesAt(
      g: Game, c: Core, text: seq<Token>, held: Token, drafted: seq<Token>, p: WindowLaw.Model, n: nat)
    requires n <= |drafted|
  {
    Table(g, c, held, drafted, n) == p(text + [held] + drafted[..n])
  }

  lemma TablesOwn(g: Game, c: Core, text: seq<Token>, held: Token, drafted: seq<Token>)
    requires Coupled(g.net, c, text)
    ensures Tables(g, c, text, held, drafted, Own(g))
  {
    forall n | 0 <= n <= |drafted|
      ensures TablesAt(g, c, text, held, drafted, Own(g), n)
    {
      TableIsOwn(g, c, text, held, drafted, n);
    }
  }

  /** The drafts are put to the test as the text says. */
  lemma {:induction false} TestedIs(
      g: Game, c: Core, text: seq<Token>, held: Token, drafted: seq<Token>, n: nat, p: WindowLaw.Model,
      q: WindowLaw.Model, on: seq<Token> -> real, f: seq<Token> -> real)
    requires Offers(g, c, text, held, q) && Tables(g, c, text, held, drafted, p) && WindowLaw.Lawful(p, q)
    requires Likely(q, text + [held], drafted) && Worth(text + [held], drafted, on, f) && n <= |drafted|
    ensures Tested(g, c, text, held, drafted, n, on)
         == WindowLaw.Verified(p, q, text + [held] + drafted[..n], drafted[n..], f)
    decreases |drafted| - n
  {
    var spoken := text + [held];
    var at := spoken + drafted[..n];
    assert TablesAt(g, c, text, held, drafted, p, n);
    if n == |drafted| {
      BonusWorth(p(at), spoken, drafted, on, f);
    } else {
      assert OffersAt(g, c, text, held, q, drafted[..n]) && LikelyAt(q, spoken, drafted, n);
      assert Law(p(at)) && Law(q(at)) && Clean(p(at), q(at));
      assert drafted[..n] + [drafted[n]] == drafted[..n + 1] && at + [drafted[n]] == spoken + drafted[..n + 1];
      TestedIs(g, c, text, held, drafted, n + 1, p, q, on, f);
      if Accept(p(at), q(at), drafted[n]) < 1.0 {
        RedrawnWorth(p(at), q(at), spoken, drafted, on, f, n);
      }
    }
  }

  lemma BonusWorth(p: Dist, spoken: seq<Token>, drafted: seq<Token>, on: seq<Token> -> real, f: seq<Token> -> real)
    requires Worth(spoken, drafted, on, f)
    ensures Expect(p, Emitted(drafted, |drafted|, on)) == Expect(p, WindowLaw.With(f, spoken + drafted[..|drafted|]))
  {
    forall i | 0 <= i < |p|
      ensures Emitted(drafted, |drafted|, on)(p[i].token)
           == WindowLaw.With(f, spoken + drafted[..|drafted|])(p[i].token)
    {
      WorthAt(spoken, drafted, on, f, |drafted|, p[i].token);
    }
    ExpectWhere(p, Emitted(drafted, |drafted|, on), WindowLaw.With(f, spoken + drafted[..|drafted|]));
  }

  /** One more id is worth what the texts after it are: also when the turn is over. */
  lemma SampledNext(p: WindowLaw.Model, rule: WindowLaw.Rule, text: seq<Token>, f: seq<Token> -> real, a: Token -> real)
    requires Law(p(text)) && forall x :: a(x) == WindowLaw.Sampled(p, rule, text + [x], f)
    ensures Expect(p(text), a) == WindowLaw.Sampled(p, rule, text, f)
  {
    if WindowLaw.Over(rule, text) {
      forall x
        ensures a(x) == f(WindowLaw.Ended(rule, text))
      {
        WindowLaw.OverStays(rule, text, [x]);
      }
      WindowLaw.ExpectConst(p(text), a, f(WindowLaw.Ended(rule, text)));
    } else {
      WindowLaw.ExpectSame(p(text), a, WindowLaw.Onward(p, rule, text, f));
    }
  }

  /** One draw per row, and the drafts that were drawn too: that is sampling as well. */
  lemma {:induction false} DrawnIs(
      g: Game, c: Core, text: seq<Token>, held: Token, drafted: seq<Token>, n: nat, p: WindowLaw.Model,
      on: seq<Token> -> real, f: seq<Token> -> real)
    requires Tables(g, c, text, held, drafted, p) && (forall t :: Law(p(t))) && n <= |drafted|
    requires Worth(text + [held], drafted, on, WindowLaw.Finish(p, g.rule, f))
    ensures Drawn(g, c, held, drafted, n, on) == WindowLaw.Sampled(p, g.rule, text + [held] + drafted[..n], f)
    decreases |drafted| - n
  {
    var spoken := text + [held];
    var at := spoken + drafted[..n];
    assert TablesAt(g, c, text, held, drafted, p, n) && Law(p(at));
    var next := DrawnOn(g, c, held, drafted, n, on);
    forall x
      ensures next(x) == WindowLaw.Sampled(p, g.rule, at + [x], f)
    {
      if n < |drafted| && x == drafted[n] {
        DrawnIs(g, c, text, held, drafted, n + 1, p, on, f);
        assert drafted[..n] + [x] == drafted[..n + 1] && at + [x] == spoken + drafted[..n + 1];
      } else {
        WorthAt(spoken, drafted, on, WindowLaw.Finish(p, g.rule, f), n, x);
      }
    }
    SampledNext(p, g.rule, at, f, next);
  }

  // --- Trimming ---

  /** Nothing of the text lies after the end of its turn. */
  predicate Whole(rule: WindowLaw.Rule, spoken: seq<Token>) {
    rule.base <= |spoken| && WindowLaw.Ended(rule, spoken) == spoken
  }

  /** The trimmed window is all of it, or ends the turn; and it goes no further. */
  lemma TrimEnds(rule: WindowLaw.Rule, spoken: seq<Token>, emitted: seq<Token>)
    requires !WindowLaw.Over(rule, spoken) && rule.base <= |spoken| && emitted != []
    ensures var kept := Cut(rule, spoken, emitted);
            && 1 <= |kept| <= |emitted| && kept == emitted[..|kept|] && Whole(rule, spoken + kept)
            && (kept == emitted || WindowLaw.Over(rule, spoken + kept))
  {
    var room := rule.n - |spoken|;
    var most := if |emitted| > room then emitted[..room] else emitted;
    var kept := StopCut(most, rule.stops);
    StopCutIsFirst(most, rule.stops);
    assert most[..|kept.tokens|] == emitted[..|kept.tokens|];
    EndsThere(rule, spoken, kept.tokens);
  }

  /** A text whose only stop id is its last goes no further than its turn. */
  lemma EndsThere(rule: WindowLaw.Rule, spoken: seq<Token>, kept: seq<Token>)
    requires !WindowLaw.Over(rule, spoken) && rule.base <= |spoken| && kept != [] && |spoken| + |kept| <= rule.n
    requires forall i :: 0 <= i < |kept| - 1 ==> kept[i] !in rule.stops
    ensures Whole(rule, spoken + kept)
    ensures Last(kept) in rule.stops || |spoken| + |kept| == rule.n ==> WindowLaw.Over(rule, spoken + kept)
  {
    var all := spoken + kept;
    assert all[..|all| - 1] == spoken + Init(kept);
    NotYetOver(rule, spoken, Init(kept));
    assert all[|all| - 1] == Last(kept);
  }

  lemma NotYetOver(rule: WindowLaw.Rule, spoken: seq<Token>, more: seq<Token>)
    requires !WindowLaw.Over(rule, spoken) && |spoken| + |more| < rule.n
    requires forall i :: 0 <= i < |more| ==> more[i] !in rule.stops
    ensures !WindowLaw.Over(rule, spoken + more)
  {
  }

  lemma TrimIsWorth(
      p: WindowLaw.Model, rule: WindowLaw.Rule, spoken: seq<Token>, emitted: seq<Token>, f: seq<Token> -> real)
    requires !WindowLaw.Over(rule, spoken) && rule.base <= |spoken| && emitted != []
    ensures var kept := Cut(rule, spoken, emitted);
            WindowLaw.Sampled(p, rule, spoken + kept, f) == WindowLaw.Sampled(p, rule, spoken + emitted, f)
  {
    TrimEnds(rule, spoken, emitted);
    var kept := Cut(rule, spoken, emitted);
    if kept != emitted {
      var rest := emitted[|kept|..];
      WindowLaw.OverStays(rule, spoken + kept, rest);
      assert kept + rest == emitted && spoken + kept + rest == spoken + emitted;
    }
  }

  // --- The whole turn ---

  /** A value of the caches and the text is one of the text, while the caches hold it. */
  ghost predicate Reads(net: Net, f: (Core, seq<Token>) -> real, v: seq<Token> -> real) {
    forall c, spoken :: |spoken| >= 2 && Coupled(net, c, Init(spoken)) ==> f(c, spoken) == v(spoken)
  }

  /** What follows a window on `spoken` is worth what it should be, while the caches hold it. */
  ghost predicate Leads(g: Game, spoken: seq<Token>, on: (Core, seq<Token>) -> real, v: seq<Token> -> real) {
    forall c, longer :: LeadsAt(g, spoken, on, v, c, longer)
  }

  ghost predicate LeadsAt(
      g: Game, spoken: seq<Token>, on: (Core, seq<Token>) -> real, v: seq<Token> -> real, c: Core, longer: seq<Token>)
  {
    |longer| > |spoken| && |longer| >= 2 && Coupled(g.net, c, Init(longer)) && Whole(g.rule, longer) ==>
      on(c, longer) == v(longer)
  }

  /** Trimming a window does not change what it is worth. */
  ghost predicate Trims(g: Game, spoken: seq<Token>, v: seq<Token> -> real) {
    forall emitted | emitted != [] :: TrimsAt(g, spoken, v, emitted)
  }

  ghost predicate TrimsAt(g: Game, spoken: seq<Token>, v: seq<Token> -> real, emitted: seq<Token>) {
    |spoken| < g.rule.n ==>
      v(spoken + Cut(g.rule, spoken, emitted)) == v(spoken + emitted)
  }

  lemma TrimsFinish(g: Game, spoken: seq<Token>, p: WindowLaw.Model, v: seq<Token> -> real)
    requires !WindowLaw.Over(g.rule, spoken) && g.rule.base <= |spoken|
    ensures Trims(g, spoken, WindowLaw.Finish(p, g.rule, v))
  {
    forall emitted | emitted != []
      ensures TrimsAt(g, spoken, WindowLaw.Finish(p, g.rule, v), emitted)
    {
      TrimIsWorth(p, g.rule, spoken, emitted, v);
    }
  }

  /** Then what it emits is worth that, trims included. */
  lemma GoesIsWorth(
      g: Game, c: Core, spoken: seq<Token>, drafted: seq<Token>, on: (Core, seq<Token>) -> real, v: seq<Token> -> real)
    requires |spoken| >= 2 && Coupled(g.net, c, Init(spoken)) && c.carry.Some? && g.rule.base <= |spoken|
    requires !WindowLaw.Over(g.rule, spoken) && Leads(g, spoken, on, v) && Trims(g, spoken, v)
    ensures Worth(spoken, drafted, Goes(g, c, spoken, drafted, on), v)
  {
    forall emitted | Follows(drafted, emitted)
      ensures Goes(g, c, spoken, drafted, on)(emitted) == v(spoken + emitted)
    {
      GoesWell(g, c, spoken, drafted, emitted, on, v);
    }
  }

  lemma GoesWell(
      g: Game, c: Core, spoken: seq<Token>, drafted: seq<Token>, emitted: seq<Token>,
      on: (Core, seq<Token>) -> real, v: seq<Token> -> real)
    requires |spoken| >= 2 && Coupled(g.net, c, Init(spoken)) && c.carry.Some? && g.rule.base <= |spoken|
    requires !WindowLaw.Over(g.rule, spoken) && Leads(g, spoken, on, v) && Trims(g, spoken, v)
    requires Follows(drafted, emitted)
    ensures Goes(g, c, spoken, drafted, on)(emitted) == v(spoken + emitted)
  {
    var kept, w := KeptOf(g, c, spoken, drafted, emitted, on);
    LeadsTo(g, spoken, on, v, w, spoken + kept);
    TrimsTo(g, spoken, v, emitted, kept);
  }

  lemma TrimsTo(g: Game, spoken: seq<Token>, v: seq<Token> -> real, emitted: seq<Token>, kept: seq<Token>)
    requires Trims(g, spoken, v) && emitted != [] && |spoken| < g.rule.n
    requires kept == Cut(g.rule, spoken, emitted)
    ensures v(spoken + kept) == v(spoken + emitted)
  {
    assert TrimsAt(g, spoken, v, emitted);
  }

  lemma LeadsTo(
      g: Game, spoken: seq<Token>, on: (Core, seq<Token>) -> real, v: seq<Token> -> real, w: Core, longer: seq<Token>)
    requires Leads(g, spoken, on, v) && |longer| > |spoken| && Coupled(g.net, w, Init(longer)) && Whole(g.rule, longer)
    requires |longer| >= 2
    ensures on(w, longer) == v(longer)
  {
    assert LeadsAt(g, spoken, on, v, w, longer);
  }

  lemma GoesTo(
      g: Game, c: Core, spoken: seq<Token>, drafted: seq<Token>, emitted: seq<Token>, kept: seq<Token>, w: Core,
      on: (Core, seq<Token>) -> real)
    requires spoken != [] && c.carry.Some? && |spoken| < g.rule.n && 1 <= |kept| <= |drafted| + 1
    requires kept == Cut(g.rule, spoken, emitted)
    requires w == Windowed(g.net, c, Last(spoken), drafted, |kept|)
    ensures Goes(g, c, spoken, drafted, on)(emitted) == on(w, spoken + kept)
  {
  }

  lemma KeptOf(
      g: Game, c: Core, spoken: seq<Token>, drafted: seq<Token>, emitted: seq<Token>,
      on: (Core, seq<Token>) -> real)
    returns (kept: seq<Token>, w: Core)
    requires |spoken| >= 2 && Coupled(g.net, c, Init(spoken)) && c.carry.Some? && g.rule.base <= |spoken|
    requires !WindowLaw.Over(g.rule, spoken) && Follows(drafted, emitted)
    ensures kept == Cut(g.rule, spoken, emitted)
    ensures Goes(g, c, spoken, drafted, on)(emitted) == on(w, spoken + kept) && Coupled(g.net, w, Init(spoken + kept))
    ensures Whole(g.rule, spoken + kept) && |spoken + kept| > |spoken|
  {
    kept := Cut(g.rule, spoken, emitted);
    TrimEnds(g.rule, spoken, emitted);
    assert Init(kept) == Init(emitted)[..|kept| - 1];
    w := Windowed(g.net, c, Last(spoken), drafted, |kept|);
    KeptCoupled(g, c, spoken, drafted, kept);
    GoesTo(g, c, spoken, drafted, emitted, kept, w, on);
  }

  lemma KeptCoupled(g: Game, c: Core, spoken: seq<Token>, drafted: seq<Token>, kept: seq<Token>)
    requires |spoken| >= 2 && Coupled(g.net, c, Init(spoken)) && Follows(drafted, kept)
    ensures c.carry.Some?
    ensures Coupled(g.net, Windowed(g.net, c, Last(spoken), drafted, |kept|), Init(spoken + kept))
  {
    var text, held := Init(spoken), Last(spoken);
    assert text + [held] == spoken;
    WindowedCoupled(g.net, c, text, held, drafted, kept);
    CachedIsInit(text, held, kept);
  }

  lemma Rejoins(spoken: seq<Token>)
    requires spoken != []
    ensures Init(spoken) + [Last(spoken)] == spoken && spoken + [] == spoken
  {
  }

  /** One window with the ratio test, on caches that hold the text. */
  lemma RatioWindow(
      g: Game, c: Core, spoken: seq<Token>, on: (Core, seq<Token>) -> real, p: WindowLaw.Model, q: WindowLaw.Model,
      v: seq<Token> -> real)
    requires |spoken| >= 2 && Coupled(g.net, c, Init(spoken)) && c.carry.Some? && g.rule.base <= |spoken|
    requires !WindowLaw.Over(g.rule, spoken) && Leads(g, spoken, on, v) && Trims(g, spoken, v)
    requires g.h.ratio && p == Own(g) && q == Proposes(g, spoken) && WindowLaw.Lawful(p, q)
    ensures Windows(g, c, spoken, on) == WindowLaw.Window(p, q, spoken, g.k, v)
  {
    Rejoins(spoken);
    OffersOwn(g, c, Init(spoken), Last(spoken));
    forall d | |d| == g.k && Likely(q, spoken, d)
      ensures Tries(g, c, spoken, on)(d) == WindowLaw.Verify(p, q, spoken, v)(d)
    {
      RatioTries(g, c, spoken, d, on, p, q, v);
    }
    RatioRolls(g, c, spoken, on, p, q, v);
  }

  lemma RatioRolls(
      g: Game, c: Core, spoken: seq<Token>, on: (Core, seq<Token>) -> real, p: WindowLaw.Model, q: WindowLaw.Model,
      v: seq<Token> -> real)
    requires spoken != [] && c.carry.Some? && |spoken| < g.rule.n && g.h.ratio && WindowLaw.Lawful(p, q)
    requires Offers(g, c, Init(spoken), Last(spoken), q)
    requires Same(q, spoken, g.k, Tries(g, c, spoken, on), WindowLaw.Verify(p, q, spoken, v))
    ensures Windows(g, c, spoken, on) == WindowLaw.Window(p, q, spoken, g.k, v)
  {
    Rejoins(spoken);
    RolledIs(g, c, Init(spoken), Last(spoken), [], g.k, q, Tries(g, c, spoken, on), WindowLaw.Verify(p, q, spoken, v));
  }

  lemma RatioTries(
      g: Game, c: Core, spoken: seq<Token>, drafted: seq<Token>, on: (Core, seq<Token>) -> real,
      p: WindowLaw.Model, q: WindowLaw.Model, v: seq<Token> -> real)
    requires |spoken| >= 2 && Coupled(g.net, c, Init(spoken)) && c.carry.Some? && g.rule.base <= |spoken|
    requires !WindowLaw.Over(g.rule, spoken) && Leads(g, spoken, on, v) && Trims(g, spoken, v)
    requires g.h.ratio && p == Own(g) && Offers(g, c, Init(spoken), Last(spoken), q) && WindowLaw.Lawful(p, q)
    requires Likely(q, spoken, drafted)
    ensures Tries(g, c, spoken, on)(drafted) == WindowLaw.Verified(p, q, spoken, drafted, v)
  {
    Rejoins(spoken);
    TablesOwn(g, c, Init(spoken), Last(spoken), drafted);
    GoesIsWorth(g, c, spoken, drafted, on, v);
    TestedIs(g, c, Init(spoken), Last(spoken), drafted, 0, p, q, Goes(g, c, spoken, drafted, on), v);
    assert drafted[..0] == [] && drafted[0..] == drafted;
  }

  /** And one without. */
  lemma MatchWindow(
      g: Game, c: Core, spoken: seq<Token>, on: (Core, seq<Token>) -> real, p: WindowLaw.Model,
      v: seq<Token> -> real, end: seq<Token> -> real)
    requires |spoken| >= 2 && Coupled(g.net, c, Init(spoken)) && c.carry.Some? && g.rule.base <= |spoken|
    requires !WindowLaw.Over(g.rule, spoken) && Leads(g, spoken, on, end) && Trims(g, spoken, end)
    requires !g.h.ratio && p == Own(g) && (forall text :: Law(p(text))) && end == WindowLaw.Finish(p, g.rule, v)
    ensures Windows(g, c, spoken, on) == WindowLaw.Sampled(p, g.rule, spoken, v)
  {
    var text, held := Init(spoken), Last(spoken);
    var d := Drafted(g.net, g.index, c, text, held, g.k);
    Rejoins(spoken);
    TablesOwn(g, c, text, held, d);
    GoesIsWorth(g, c, spoken, d, on, end);
    DrawnIs(g, c, text, held, d, 0, p, Goes(g, c, spoken, d, on), v);
    assert d[..0] == [];
  }

  lemma OwnIsLaw(g: Game)
    requires Fair(g)
    ensures forall text :: Law(Own(g)(text))
  {
    assert Sure(0)[1..] == [] && Mass([]) == 0.0;
    forall text
      ensures Law(Own(g)(text))
    {
      if text != [] {
        assert Law(g.h.target(RowOf(g.net, text))) && Law(g.h.draft(RowOf(g.net, text)));
      }
    }
  }

  /** One window, in either manner. */
  lemma WindowIsSampled(
      g: Game, c: Core, spoken: seq<Token>, on: (Core, seq<Token>) -> real, v: seq<Token> -> real)
    requires |spoken| >= 2 && Coupled(g.net, c, Init(spoken)) && c.carry.Some? && g.rule.base <= |spoken|
    requires !WindowLaw.Over(g.rule, spoken) && Leads(g, spoken, on, WindowLaw.Finish(Own(g), g.rule, v)) && Fair(g)
    ensures Windows(g, c, spoken, on) == WindowLaw.Sampled(Own(g), g.rule, spoken, v)
  {
    var p, q, end := Own(g), Proposes(g, spoken), WindowLaw.Finish(Own(g), g.rule, v);
    TrimsFinish(g, spoken, p, v);
    if g.h.ratio {
      assert WindowLaw.Lawful(p, q);
      RatioWindow(g, c, spoken, on, p, q, end);
      WindowLaw.WindowKeepsLaw(p, q, g.rule, spoken, g.k, v);
    } else {
      OwnIsLaw(g);
      MatchWindow(g, c, spoken, on, p, v, end);
    }
  }

  /** A sampled turn on caches that hold the text samples from the exact text, whatever drafts
      it is offered, in either manner of verification; and they hold the text at its end. */
  lemma {:induction false} PlayedIsSampled(
      g: Game, c: Core, spoken: seq<Token>, f: (Core, seq<Token>) -> real, v: seq<Token> -> real)
    requires |spoken| >= 2 && Coupled(g.net, c, Init(spoken)) && Fair(g) && Whole(g.rule, spoken) && Reads(g.net, f, v)
    ensures c.carry.Some? && Played(g, c, spoken, f) == WindowLaw.Sampled(Own(g), g.rule, spoken, v)
    decreases WindowLaw.Left(g.rule.n, spoken)
  {
    if !WindowLaw.Over(g.rule, spoken) {
      var plays, end := Plays(g, spoken, f), WindowLaw.Finish(Own(g), g.rule, v);
      forall c', longer
        ensures LeadsAt(g, spoken, plays, end, c', longer)
      {
        if |longer| > |spoken| && Coupled(g.net, c', Init(longer)) && Whole(g.rule, longer) {
          PlayedIsSampled(g, c', longer, f, v);
        }
      }
      WindowIsSampled(g, c, spoken, plays, v);
    }
  }
}
