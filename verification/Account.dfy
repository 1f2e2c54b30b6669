/** A turn as a trace of windows: its exact accounting, and what its tokens mean. */
module Account {
  import opened Target
  import opened Decode

  /** What a run of windows adds up to.  `lost` counts drops that inject nothing. */
  datatype Tally = Tally(windows: nat, injected: nat, dropped: nat, lost: nat)

  const NO_WINDOWS := Tally(0, 0, 0, 0)

  function Count(t: Tally, d: Directive): Tally {
    match d
    case Nothing => t.(windows := t.windows + 1)
    case Close(drop, inject, _) =>
      Tally(t.windows + 1, t.injected + |inject|, t.dropped + (if drop then 1 else 0),
            t.lost + (if drop && inject == [] then 1 else 0))
  }

  /** How many ids the callback injects after window `w` over `produced`. */
  function InjectLen(l: Listener, w: nat, produced: seq<Token>): nat {
    match Ask(l, w, produced) case Nothing => 0 case Close(_, inject, _) => |inject|
  }

  ghost predicate InjectsAtMost(l: Listener, most: nat) {
    forall w, produced :: InjectLen(l, w, produced) <= most
  }

  function TopAfter(top: nat, cacheLen: nat, k: nat, cacheLen': nat): nat {
    var window := if top < cacheLen + k + 1 then cacheLen + k + 1 else top;
    if window < cacheLen' then cacheLen' else window
  }

  /** `top` is the highest position any forward has written. */
  ghost predicate Bounded(p: Plan, prompt: nat, produced: nat, lost: nat, top: int) {
    forall most: nat :: InjectsAtMost(p.listen, most) ==>
      produced <= p.maxNew + most && top <= prompt + p.maxNew - 1 + lost + Max(p.k, most)
  }

  /** Lengths and counters after the windows of `t`: the cursor equation
      (the text is prompt and tokens, but for lost drops) and conservation. */
  ghost predicate Balanced(p: Plan, prompt: seq<Token>, s: Speech, t: Tally, accepted: int, rejected: int, top: nat) {
    && |s.spoken| == |prompt| + |s.produced| + t.lost
    && (t.lost == 0 ==> s.spoken == prompt + s.produced)
    && |s.produced| + t.dropped == accepted + t.windows + t.injected
    && accepted + rejected == p.k * t.windows
    && (Silent(p.listen) ==> t.windows <= |s.produced| && t.injected == t.dropped == t.lost == 0)
    && Bounded(p, |prompt|, |s.produced|, t.lost, top)
  }

  /** One window over `kept`, answered by `d`. */
  function After(s: Speech, kept: seq<Token>, d: Directive): (r: Speech)
    requires s.spoken != [] && kept != []
    ensures r.spoken != []
  {
    Inject(d, Said(s, kept))
  }

  /** What the callback answers once `kept` is said. */
  function Answer(p: Plan, s: Speech, w: nat, kept: seq<Token>): Directive {
    Ask(p.listen, w, Said(s, kept).produced)
  }

  lemma BalancedStep(
    p: Plan, prompt: seq<Token>, s: Speech, t: Tally, accepted: int, rejected: int, top: nat, w: nat,
    kept: seq<Token>, d: Directive)
    requires Balanced(p, prompt, s, t, accepted, rejected, top) && prompt != [] && s.spoken != []
    requires 1 <= |kept| <= p.maxNew - |s.produced| && |kept| <= p.k + 1
    requires d == Nothing || d == Answer(p, s, w, kept)
    ensures var next := After(s, kept, d);
            Balanced(p, prompt, next, Count(t, d), accepted + |kept| - 1, rejected + p.k - (|kept| - 1),
                     TopAfter(top, |s.spoken| - 1, p.k, |next.spoken| - 1))
  {
    var next, t' := After(s, kept, d), Count(t, d);
    assert p.k * t'.windows == p.k * t.windows + p.k;
    forall most: nat | InjectsAtMost(p.listen, most)
      ensures |next.produced| <= p.maxNew + most
    {
      assert InjectLen(p.listen, w, Said(s, kept).produced) <= most;
    }
  }

  /** What has been said is what the target says: every id that was not injected is
      its own choice, the turn so far is a prefix of the specified one, and without
      a callback, or with one that never answers, it is plain greedy decoding. */
  ghost predicate Means(o: Oracle, p: Plan, prompt: seq<Token>, s: Speech, w: nat, own: seq<bool>, over: bool,
      exact: bool) {
    && Spoke(o.next, prompt, s.spoken, own)
    && (exact ==> Turn(o, p, Speech(prompt, []), 0) == if over then s else Turn(o, p, s, w))
    && (Silent(p.listen) ==> Plain(o, p, prompt, s, own, over))
  }

  ghost predicate Plain(o: Oracle, p: Plan, prompt: seq<Token>, s: Speech, own: seq<bool>, over: bool) {
    && s.spoken == prompt + s.produced && |s.produced| <= p.maxNew && own == Flags(|own|, true)
    && Greedy(o.next, prompt, p.maxNew, p.stops)
       == if over then s.produced else s.produced + Greedy(o.next, s.spoken, p.maxNew - |s.produced|, p.stops)
  }

  lemma MeansStart(o: Oracle, p: Plan, prompt: seq<Token>)
    requires prompt != []
    ensures Means(o, p, prompt, Speech(prompt, []), 0, [], false, true)
  {
    assert prompt + [] == prompt;
  }

  lemma PlainStep(o: Oracle, p: Plan, prompt: seq<Token>, s: Speech, own: seq<bool>, drafted: seq<Token>)
    requires s.spoken != [] && |s.produced| < p.maxNew && Plain(o, p, prompt, s, own, false)
    ensures var kept := WindowSpec(o.next, s.spoken, drafted, p.maxNew - |s.produced|, p.stops);
            Plain(o, p, prompt, Said(s, kept.tokens), own + Flags(|kept.tokens|, true), kept.stopped)
  {
    var room := p.maxNew - |s.produced|;
    var kept := WindowSpec(o.next, s.spoken, drafted, room, p.stops);
    WindowIsOwn(o.next, s.spoken, drafted, room, p.stops);
    WindowStops(o.next, s.spoken, drafted, room, p.stops);
    OwnIsGreedy(o.next, s.spoken, kept.tokens, room, p.stops);
    Associate(s.produced, kept.tokens, Greedy(o.next, s.spoken + kept.tokens, room - |kept.tokens|, p.stops));
    assert prompt + s.produced + kept.tokens == prompt + (s.produced + kept.tokens);
  }

  lemma TurnUnfold(o: Oracle, p: Plan, s: Speech, w: nat, kept: Kept)
    requires s.spoken != [] && |s.produced| < p.maxNew
    requires kept == WindowSpec(o.next, s.spoken, o.draft(s.spoken), p.maxNew - |s.produced|, p.stops)
    ensures var d := Answer(p, s, w, kept.tokens);
            var next := After(s, kept.tokens, d);
            Turn(o, p, s, w) == if Ends(d, kept.stopped) then next else Turn(o, p, next, w + 1)
  {
  }

  lemma MeansStep(
      o: Oracle, p: Plan, prompt: seq<Token>, s: Speech, w: nat, own: seq<bool>, exact: bool, drafted: seq<Token>,
      kept: Kept)
    requires s.spoken != [] && |s.produced| < p.maxNew && Means(o, p, prompt, s, w, own, false, exact)
    requires exact ==> drafted == o.draft(s.spoken)
    requires kept == WindowSpec(o.next, s.spoken, drafted, p.maxNew - |s.produced|, p.stops)
    ensures var d := Answer(p, s, w, kept.tokens);
            Means(o, p, prompt, After(s, kept.tokens, d), w + 1, InjectFlags(d, own + Flags(|kept.tokens|, true)),
                  Ends(d, kept.stopped), exact)
  {
    var said, d := Said(s, kept.tokens), Answer(p, s, w, kept.tokens);
    var own' := own + Flags(|kept.tokens|, true);
    WindowIsOwn(o.next, s.spoken, drafted, p.maxNew - |s.produced|, p.stops);
    SpokeKept(o.next, prompt, s.spoken, own, kept.tokens);
    SpokeInject(o.next, prompt, said, own', d);
    if exact {
      TurnUnfold(o, p, s, w, kept);
    }
    if Silent(p.listen) {
      PlainStep(o, p, prompt, s, own, drafted);
    }
  }

  /** One pass of the loop: what was drafted, what was kept, what the callback answered. */
  datatype Window = Window(drafted: seq<Token>, kept: Kept, d: Directive)

  /** Where a run stands: the text, the tally, the draft counters, which ids are own,
      the window number, whether it is over, and the highest position written. */
  datatype Spot = Spot(s: Speech, t: Tally, accepted: nat, rejected: int, own: seq<bool>, w: nat, over: bool, top: nat)

  function SpotAfter(p: Plan, g: Spot, x: Window): Spot
    requires g.s.spoken != [] && x.kept.tokens != []
  {
    var next := After(g.s, x.kept.tokens, x.d);
    var n := |x.kept.tokens|;
    Spot(next, Count(g.t, x.d), g.accepted + n - 1, g.rejected + p.k - (n - 1),
         InjectFlags(x.d, g.own + Flags(n, true)),
         g.w + 1, Ends(x.d, x.kept.stopped), TopAfter(g.top, |g.s.spoken| - 1, p.k, |next.spoken| - 1))
  }

  /** A trace the loop can make, whatever the caches held. */
  ghost predicate Possible(p: Plan, prompt: seq<Token>, trace: seq<Window>)
    decreases |trace|, 0
  {
    prompt != [] && (trace == [] ||
      (Possible(p, prompt, trace[..|trace| - 1]) &&
       var g := SpotOf(p, prompt, trace[..|trace| - 1]);
       Fitting(p, g.s, g.w, trace[|trace| - 1])))
  }

  /** The window fits the room left, and its directive is the callback's, or none. */
  ghost predicate Fitting(p: Plan, s: Speech, w: nat, x: Window) {
    && 1 <= |x.kept.tokens| <= p.maxNew - |s.produced| && |x.kept.tokens| <= p.k + 1
    && (x.d == Nothing || x.d == Answer(p, s, w, x.kept.tokens))
  }

  ghost function SpotOf(p: Plan, prompt: seq<Token>, trace: seq<Window>): (g: Spot)
    requires Possible(p, prompt, trace)
    ensures g.s.spoken != [] && g.w == |trace| && g.top >= |prompt| - 1
    decreases |trace|, 1
  {
    if trace == [] then Spot(Speech(prompt, []), NO_WINDOWS, 0, 0, [], 0, false, |prompt| - 1)
    else SpotAfter(p, SpotOf(p, prompt, trace[..|trace| - 1]), trace[|trace| - 1])
  }

  lemma SpotSnoc(p: Plan, prompt: seq<Token>, trace: seq<Window>, x: Window)
    requires Possible(p, prompt, trace) && Fitting(p, SpotOf(p, prompt, trace).s, |trace|, x)
    ensures Possible(p, prompt, trace + [x])
    ensures SpotOf(p, prompt, trace + [x]) == SpotAfter(p, SpotOf(p, prompt, trace), x)
  {
    assert (trace + [x])[..|trace|] == trace;
  }

  /** A trace of windows that were scored on the exact text; with `exact`, the
      drafts are the block's own. */
  ghost predicate Scored(o: Oracle, p: Plan, prompt: seq<Token>, trace: seq<Window>, exact: bool)
    requires Possible(p, prompt, trace)
    decreases |trace|
  {
    trace == [] ||
      (Scored(o, p, prompt, trace[..|trace| - 1], exact) &&
       ScoredOn(o, p, SpotOf(p, prompt, trace[..|trace| - 1]), trace[|trace| - 1], exact))
  }

  ghost predicate ScoredOn(o: Oracle, p: Plan, g: Spot, x: Window, exact: bool) {
    !g.over && ScoredWith(o, p, g.s, g.w, x, exact)
  }

  ghost predicate ScoredWith(o: Oracle, p: Plan, s: Speech, w: nat, x: Window, exact: bool) {
    && |s.produced| < p.maxNew
    && ScoredKept(o, s.spoken, x.drafted, p.maxNew - |s.produced|, p.stops, x.kept, exact)
    && x.d == Answer(p, s, w, x.kept.tokens)
  }

  ghost predicate ScoredKept(
    o: Oracle, spoken: seq<Token>, drafted: seq<Token>, room: nat, stops: set<Token>, kept: Kept, exact: bool)
    requires room > 0
  {
    (exact ==> drafted == o.draft(spoken)) && kept == WindowSpec(o.next, spoken, drafted, room, stops)
  }

  /** Every run balances: the cursor equation, conservation, and the bounds. */
  lemma {:induction false} TraceBalances(p: Plan, prompt: seq<Token>, trace: seq<Window>)
    requires Possible(p, prompt, trace) && p.maxNew >= 1
    ensures var g := SpotOf(p, prompt, trace);
            Balanced(p, prompt, g.s, g.t, g.accepted, g.rejected, g.top)
    decreases |trace|
  {
    if trace != [] {
      var before, x := trace[..|trace| - 1], trace[|trace| - 1];
      TraceBalances(p, prompt, before);
      var g := SpotOf(p, prompt, before);
      BalancedStep(p, prompt, g.s, g.t, g.accepted, g.rejected, g.top, g.w, x.kept.tokens, x.d);
    } else {
      assert prompt + [] == prompt;
    }
  }

  /** Every run whose windows were scored on the exact text means what it should:
      speculation refines the target's own decoding, for any drafter. */
  lemma {:induction false} TraceMeans(o: Oracle, p: Plan, prompt: seq<Token>, trace: seq<Window>, exact: bool)
    requires Possible(p, prompt, trace) && Scored(o, p, prompt, trace, exact)
    ensures var g := SpotOf(p, prompt, trace);
            Means(o, p, prompt, g.s, g.w, g.own, g.over, exact)
    decreases |trace|
  {
    if trace == [] {
      MeansStart(o, p, prompt);
    } else {
      var before, x := trace[..|trace| - 1], trace[|trace| - 1];
      TraceMeans(o, p, prompt, before, exact);
      var g := SpotOf(p, prompt, before);
      MeansStep(o, p, prompt, g.s, g.w, g.own, exact, x.drafted, x.kept);
    }
  }

  /** A finished run returns exactly the specified turn: the same for any caches
      that held the prompt, whatever they held before. */
  lemma RunIsTurn(o: Oracle, p: Plan, prompt: seq<Token>, trace: seq<Window>)
    requires Possible(p, prompt, trace) && Scored(o, p, prompt, trace, true)
    requires SpotOf(p, prompt, trace).over || |SpotOf(p, prompt, trace).s.produced| >= p.maxNew
    ensures SpotOf(p, prompt, trace).s == Turn(o, p, Speech(prompt, []), 0)
  {
    TraceMeans(o, p, prompt, trace, true);
  }

  /** Without a callback, or with a silent one, and for any drafter, a finished run is the greedy chain cut at
      the first stop id or at `maxNew`. */
  lemma RunIsGreedy(o: Oracle, p: Plan, prompt: seq<Token>, trace: seq<Window>, exact: bool)
    requires Possible(p, prompt, trace) && Scored(o, p, prompt, trace, exact) && Silent(p.listen)
    requires SpotOf(p, prompt, trace).over || |SpotOf(p, prompt, trace).s.produced| >= p.maxNew
    ensures SpotOf(p, prompt, trace).s.produced == Greedy(o.next, prompt, p.maxNew, p.stops)
  {
    TraceMeans(o, p, prompt, trace, exact);
    var s := SpotOf(p, prompt, trace).s;
    if !SpotOf(p, prompt, trace).over {
      assert Greedy(o.next, s.spoken, p.maxNew - |s.produced|, p.stops) == [];
    }
  }

  /** Resident equals cold: two finished runs over one prompt answer alike, whatever
      the caches of either held before, wherever each one's prefix came from. */
  lemma RunsAgree(o: Oracle, p: Plan, prompt: seq<Token>, a: seq<Window>, b: seq<Window>)
    requires Possible(p, prompt, a) && Scored(o, p, prompt, a, true)
    requires Possible(p, prompt, b) && Scored(o, p, prompt, b, true)
    requires SpotOf(p, prompt, a).over || |SpotOf(p, prompt, a).s.produced| >= p.maxNew
    requires SpotOf(p, prompt, b).over || |SpotOf(p, prompt, b).s.produced| >= p.maxNew
    ensures SpotOf(p, prompt, a).s == SpotOf(p, prompt, b).s
  {
    RunIsTurn(o, p, prompt, a);
    RunIsTurn(o, p, prompt, b);
  }

  /** The callback never takes a token out without putting one in. */
  ghost predicate NeverLoses(l: Listener) {
    forall w, produced :: var d := Ask(l, w, produced); d.Close? && d.dropLast ==> d.inject != []
  }

  /** With such a callback no cache can be found diverged, every window leaves one id or
      more, and the turn ends within `maxNew` windows. */
  lemma {:induction false} NeverDiverges(p: Plan, prompt: seq<Token>, trace: seq<Window>)
    requires Possible(p, prompt, trace) && NeverLoses(p.listen)
    ensures var g := SpotOf(p, prompt, trace);
            && g.t.lost == 0 && g.t.dropped <= g.t.injected && g.t.windows == |trace|
            && |trace| <= |g.s.produced| && |trace| <= p.maxNew
    decreases |trace|
  {
    if trace != [] {
      var before, x := trace[..|trace| - 1], trace[|trace| - 1];
      NeverDiverges(p, prompt, before);
      var g := SpotOf(p, prompt, before);
      assert x.d == Nothing || x.d == Ask(p.listen, g.w, Said(g.s, x.kept.tokens).produced);
    }
  }

  /** Some directive took the last token out and put none in. */
  ghost predicate DropsEmpty(trace: seq<Window>) {
    exists i :: 0 <= i < |trace| && EmptyDrop(trace[i].d)
  }

  predicate EmptyDrop(d: Directive) {
    d.Close? && d.dropLast && d.inject == []
  }

  /** What is lost is counted by the empty drops, and by nothing else. */
  lemma {:induction false} LostIs(p: Plan, prompt: seq<Token>, trace: seq<Window>)
    requires Possible(p, prompt, trace)
    ensures SpotOf(p, prompt, trace).t.lost > 0 <==> DropsEmpty(trace)
    decreases |trace|
  {
    if trace != [] {
      var before, x := trace[..|trace| - 1], trace[|trace| - 1];
      LostIs(p, prompt, before);
      if DropsEmpty(before) {
        var i :| 0 <= i < |before| && EmptyDrop(before[i].d);
        assert EmptyDrop(trace[i].d);
      }
      if DropsEmpty(trace) && !EmptyDrop(x.d) {
        var i :| 0 <= i < |trace| && EmptyDrop(trace[i].d);
        assert EmptyDrop(before[i].d);
      }
    }
  }

  /** Why a turn stops after a window: the callback says so, or the last id is a stop id and
      nothing was injected after it. */
  ghost predicate Halts(stops: set<Token>, x: Window) {
    || (x.d.Close? && x.d.halt)
    || (x.kept.tokens != [] && Last(x.kept.tokens) in stops && (x.d.Nothing? || x.d.inject == []))
  }

  /** A trace that ended a turn. */
  ghost predicate Finished(p: Plan, ids: seq<Token>, trace: seq<Window>) {
    Possible(p, ids, trace) && (SpotOf(p, ids, trace).over || |SpotOf(p, ids, trace).s.produced| >= p.maxNew)
  }

  /** The cursor is the text less its held id: it equals prompt plus answer less one
      exactly when no drop was lost. */
  lemma DoneIs(p: Plan, ids: seq<Token>, trace: seq<Window>)
    requires Possible(p, ids, trace) && p.maxNew >= 1
    ensures var g := SpotOf(p, ids, trace);
            && |g.s.spoken| == |ids| + |g.s.produced| + g.t.lost
            && (g.t.lost == 0 ==>
                  var text := (ids + g.s.produced)[..|g.s.spoken| - 1];
                  text == Init(g.s.spoken) == Init(ids + g.s.produced)
                  && |ids| - 1 <= |text| && text[..|ids| - 1] == ids[..|ids| - 1])
  {
    TraceBalances(p, ids, trace);
  }
}
