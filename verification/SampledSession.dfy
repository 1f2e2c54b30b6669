/** A sampled turn of a resident session: its answer has the law of a cold session's. */
module SampledSession {
  import opened Options
  import opened Target
  import opened Decode
  import opened Caches
  import opened Account
  import opened Driven
  import opened Resident
  import opened Generation
  import opened Answers
  import opened Chance
  import Sampling
  import WindowLaw

  /** What a call draws with: its own drafts, budget and stop ids. */
  function GameOf(h: Heads, j: Job): Game {
    Game(h, j.net, j.index, j.p.k, WindowLaw.Rule(|j.prompt| + j.p.maxNew, |j.prompt|, j.p.stops))
  }

  /** The caches that the windows of a call begin with. */
  ghost predicate Begins(j: Job, before: State, c: Core)
    requires Proper(j.net, before)
  {
    var open := OpenOf(j, before).v;
    open.side.Side? && exists top :: c == Filled(j, CoreAt(open, top))
  }

  /** An honest session whose prefill carries begins with caches that hold the prompt. */
  lemma BeginsCoupled(j: Job, before: State, c: Core)
    requires Proper(j.net, before) && 0 !in before.tale && Honest(j.net, before) && Holds(j.prompt, before.v)
    requires Resumes(j, before) && Begins(j, before, c)
    ensures Coupled(j.net, c, Init(j.prompt))
  {
    var open := OpenOf(j, before);
    var top :| c == Filled(j, CoreAt(open.v, top));
    OpenedIs(j.net, before, j.prompt);
    OpenedAtEnd(j.net, before, j.prompt);
    OpenIsRooted(j, open, CoreAt(open.v, top));
    FilledCoupled(j, CoreAt(open.v, top));
  }

  lemma OpenIsRooted(j: Job, open: State, c: Core)
    requires Ready(j.net, open, j.prompt) && Honest(j.net, open) && c == CoreAt(open.v, c.top)
    ensures Rooted(j, c) && |c.rows| == |open.v.tape|
  {
    assert open.v.tape[..open.v.committed] == open.v.tape;
  }

  /** So its sampled answer has the law of sampling from the exact text, whatever it held,
      in either manner of verification: for every value of the caches and the text that the
      turn ends with. */
  lemma ResidentSamples(
      h: Heads, j: Job, before: State, c: Core, f: (Core, seq<Token>) -> real, v: seq<Token> -> real)
    requires Proper(j.net, before) && 0 !in before.tale && Honest(j.net, before) && Holds(j.prompt, before.v)
    requires Resumes(j, before) && Begins(j, before, c) && j.p.maxNew >= 1
    requires Fair(GameOf(h, j)) && Reads(j.net, f, v)
    ensures c.carry.Some?
    ensures Played(GameOf(h, j), c, j.prompt, f)
         == WindowLaw.Sampled(Own(GameOf(h, j)), GameOf(h, j).rule, j.prompt, v)
  {
    BeginsCoupled(j, before, c);
    PromptIsWhole(GameOf(h, j).rule, j.prompt);
    PlayedIsSampled(GameOf(h, j), c, j.prompt, f, v);
  }

  lemma PromptIsWhole(rule: WindowLaw.Rule, prompt: seq<Token>)
    requires rule.base == |prompt| < rule.n
    ensures Whole(rule, prompt)
  {
  }

  /** Two sessions, whatever they hold, answer with one law. */
  lemma SampledAlike(
      h: Heads, j: Job, a: State, b: State, c: Core, d: Core, f: (Core, seq<Token>) -> real, v: seq<Token> -> real)
    requires Proper(j.net, a) && 0 !in a.tale && Honest(j.net, a) && Holds(j.prompt, a.v)
    requires Proper(j.net, b) && 0 !in b.tale && Honest(j.net, b) && Holds(j.prompt, b.v)
    requires Resumes(j, a) && Begins(j, a, c) && Resumes(j, b) && Begins(j, b, d) && j.p.maxNew >= 1
    requires Fair(GameOf(h, j)) && Reads(j.net, f, v)
    ensures c.carry.Some? && d.carry.Some?
    ensures Played(GameOf(h, j), c, j.prompt, f) == Played(GameOf(h, j), d, j.prompt, f)
  {
    ResidentSamples(h, j, a, c, f, v);
    ResidentSamples(h, j, b, d, f, v);
  }

  // --- What the turn leaves ---

  ghost function Held(net: Net): (Core, seq<Token>) -> real {
    (c: Core, spoken: seq<Token>) => if |spoken| >= 2 && Coupled(net, c, Init(spoken)) then 1.0 else 0.0
  }

  lemma {:induction false} SampledConst(p: WindowLaw.Model, rule: WindowLaw.Rule, text: seq<Token>, x: real)
    requires forall t :: Sampling.Law(p(t))
    ensures WindowLaw.Sampled(p, rule, text, (s: seq<Token>) => x) == x
    decreases WindowLaw.Left(rule.n, text)
  {
    if !WindowLaw.Over(rule, text) {
      var one := (s: seq<Token>) => x;
      forall t
        ensures WindowLaw.Onward(p, rule, text, one)(t) == x
      {
        SampledConst(p, rule, text + [t], x);
      }
      assert Sampling.Law(p(text));
      WindowLaw.ExpectConst(p(text), WindowLaw.Onward(p, rule, text, one), x);
    }
  }

  /** Both caches hold the text that a sampled turn ends with, with probability one. */
  lemma SampledHolds(h: Heads, j: Job, before: State, c: Core)
    requires Proper(j.net, before) && 0 !in before.tale && Honest(j.net, before) && Holds(j.prompt, before.v)
    requires Resumes(j, before) && Begins(j, before, c) && j.p.maxNew >= 1 && Fair(GameOf(h, j))
    ensures c.carry.Some? && Played(GameOf(h, j), c, j.prompt, Held(j.net)) == 1.0
  {
    OwnIsLaw(GameOf(h, j));
    SampledConst(Own(GameOf(h, j)), GameOf(h, j).rule, j.prompt, 1.0);
    ResidentSamples(h, j, before, c, Held(j.net), (s: seq<Token>) => 1.0);
  }
}
