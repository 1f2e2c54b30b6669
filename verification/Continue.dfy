/** The window loop of one turn, with its callback, stop ids and cancellation. */
module Continue {
  import opened Options
  import opened Target
  import opened Runner
  import opened Decode
  import opened Cycle
  import opened Marks
  import opened SuffixIndex
  import opened Caches
  import opened Turns
  import opened Account
  import opened Driven
  import Schedule
  import Mtp

  /** The suffix index, when copied drafts are on, follows the ids in the cache. */
  ghost predicate Follows(suffix: SuffixIndex?, text: seq<Token>)
    reads suffix
  {
    suffix != null ==> suffix.Valid() && suffix.tokens == text
  }

  /** What the drafts of a turn are copied through. */
  ghost function Through(suffix: SuffixIndex?): Option<Index> {
    if suffix == null || !(1 <= suffix.n <= suffix.first) then None else Some(Grams(suffix.n, suffix.first))
  }

  /** Propose by suffix or by the block, run the window, and index what entered the cache. */
  method WindowStep(
    runner: Runner, cycle: DraftCycle, suffix: SuffixIndex?, held: Token, room: nat, k: nat, stops: set<Token>,
    ghost c: Core, ghost text: seq<Token>)
    returns (w: Kept, drafted: seq<Token>)
    requires Joined(runner, cycle) && Of(runner, cycle) == c && c.carry.Some? && Follows(suffix, text)
    requires room > 0 && 1 <= k <= Mtp.MOST_DRAFTS
    modifies runner, runner.gdn, runner.gdn.stash, cycle, cycle.draft, suffix
    ensures Joined(runner, cycle) && cycle.Kept(old(cycle.draft)) && |drafted| == k
    ensures drafted == Drafted(runner.net, Through(suffix), c, text, held, k)
    ensures w == Chosen(runner.net, c, held, drafted, room, stops)
    ensures Of(runner, cycle) == Windowed(runner.net, c, held, drafted, |w.tokens|)
    ensures Follows(suffix, Cached(text, held, w.tokens))
  {
    var copied: Option<seq<Token>> := None;
    if suffix != null {
      copied := suffix.Propose(held, k);
    }
    w, drafted := RunWindow(runner, cycle, held, room, k, stops, copied, c);
    if suffix != null {
      suffix.Extend([held] + Init(w.tokens));
    }
  }

  /** Apply a directive and index what entered the cache. */
  method InjectStep(
    runner: Runner, cycle: DraftCycle, suffix: SuffixIndex?, held: Token, produced: seq<Token>, d: Directive,
    ghost c: Core, ghost text: seq<Token>)
    returns (held': Token, produced': seq<Token>)
    requires Joined(runner, cycle) && Of(runner, cycle) == c && Follows(suffix, text) && produced != []
    modifies runner, runner.gdn, runner.gdn.stash, cycle, cycle.draft, suffix
    ensures Joined(runner, cycle) && cycle.Kept(old(cycle.draft))
    ensures Of(runner, cycle) == Injected(runner.net, c, d, held)
    ensures var next := Inject(d, Speech(text + [held], produced));
            (held', produced') == (Last(next.spoken), next.produced) && Follows(suffix, Init(next.spoken))
  {
    if d.Nothing? {
      assert Init(text + [held]) == text;
      return held, produced;
    }
    ghost var next := Inject(d, Speech(text + [held], produced));
    var r := ApplyInject(runner, cycle, held, produced, d, c);
    assert r == Applied(Last(next.spoken), next.produced);
    held', produced' := r.held, r.produced;
    if suffix != null {
      suffix.Extend(InjectBody(d, held));
    }
    InjectText(text, held, produced, d);
  }

  /** The window and the callback's answer.  A set cancel flag (`stop`) leaves before any
      directive is applied. */
  method AnswerStep(
    runner: Runner, cycle: DraftCycle, suffix: SuffixIndex?, p: Plan, held: Token, produced: seq<Token>, room: nat,
    w: nat, stop: bool,
    ghost c: Core, ghost text: seq<Token>)
    returns (x: Window)
    requires Joined(runner, cycle) && Of(runner, cycle) == c && c.carry.Some? && Follows(suffix, text)
    requires room == p.maxNew - |produced| > 0 && 1 <= p.k <= Mtp.MOST_DRAFTS
    modifies runner, runner.gdn, runner.gdn.stash, cycle, cycle.draft, suffix
    ensures Joined(runner, cycle) && cycle.Kept(old(cycle.draft)) && |x.drafted| == p.k
    ensures x.drafted == Drafted(runner.net, Through(suffix), c, text, held, p.k)
    ensures x.kept == Chosen(runner.net, c, held, x.drafted, room, p.stops)
    ensures x.d == if stop then Nothing else Ask(p.listen, w, produced + x.kept.tokens)
    ensures Of(runner, cycle) == Windowed(runner.net, c, held, x.drafted, |x.kept.tokens|)
    ensures Follows(suffix, Cached(text, held, x.kept.tokens))
  {
    var kept, drafted := WindowStep(runner, cycle, suffix, held, room, p.k, p.stops, c, text);
    x := Window(drafted, kept, if stop then Nothing else Ask(p.listen, w, produced + kept.tokens));
  }

  /** A window and what its directive asks for. */
  method TurnStep(
    runner: Runner, cycle: DraftCycle, suffix: SuffixIndex?, p: Plan, held: Token, produced: seq<Token>, room: nat,
    w: nat, stop: bool,
    ghost c: Core, ghost s: Speech)
    returns (held': Token, produced': seq<Token>, x: Window)
    requires Joined(runner, cycle) && Of(runner, cycle) == c && c.carry.Some?
    requires s.spoken != [] && held == Last(s.spoken) && produced == s.produced && Follows(suffix, Init(s.spoken))
    requires room == p.maxNew - |produced| > 0 && 1 <= p.k <= Mtp.MOST_DRAFTS
    modifies runner, runner.gdn, runner.gdn.stash, cycle, cycle.draft, suffix
    ensures Joined(runner, cycle) && cycle.Kept(old(cycle.draft)) && |x.drafted| == p.k
    ensures x.drafted == Drafted(runner.net, Through(suffix), c, Init(s.spoken), held, p.k)
    ensures x.kept == Chosen(runner.net, c, held, x.drafted, room, p.stops)
    ensures x.d == if stop then Nothing else Answer(p, s, w, x.kept.tokens)
    ensures Of(runner, cycle) == Onward(runner.net, c, held, x)
    ensures var next := After(s, x.kept.tokens, x.d);
            (held', produced') == (Last(next.spoken), next.produced) && Follows(suffix, Init(next.spoken))
  {
    ghost var text := Init(s.spoken);
    x := AnswerStep(runner, cycle, suffix, p, held, produced, room, w, stop, c, text);
    var kept := x.kept.tokens;
    ghost var said, after := Cached(text, held, kept), Windowed(runner.net, c, held, x.drafted, |kept|);
    CachedSaid(s, kept);
    held', produced' := InjectStep(runner, cycle, suffix, Last(kept), produced + kept, x.d, after, said);
  }

  lemma CachedSaid(s: Speech, kept: seq<Token>)
    requires s.spoken != [] && kept != []
    ensures Speech(Cached(Init(s.spoken), Last(s.spoken), kept) + [Last(kept)], s.produced + kept) == Said(s, kept)
  {
    assert Init(s.spoken) + [Last(s.spoken)] == s.spoken;
  }

  lemma MadeIs(
    net: Net, p: Plan, g: Spot, c: Core, x: Window, index: Option<Index>, held: Token, produced: seq<Token>, room: nat)
    requires g.s.spoken != [] && !g.over && c.carry.Some? && |x.drafted| == p.k
    requires held == Last(g.s.spoken) && produced == g.s.produced && room == p.maxNew - |produced| > 0
    requires x.drafted == Drafted(net, index, c, Init(g.s.spoken), held, p.k)
    requires x.kept == Chosen(net, c, held, x.drafted, room, p.stops)
    ensures Made(net, p, g, c, x, index)
  {
  }

  /** The same, from a spot of the turn. */
  method SpotStep(
    runner: Runner, cycle: DraftCycle, suffix: SuffixIndex?, p: Plan, held: Token, produced: seq<Token>, w: nat,
    stop: bool,
    ghost c: Core, ghost g: Spot)
    returns (held': Token, produced': seq<Token>, x: Window)
    requires Joined(runner, cycle) && Of(runner, cycle) == c && c.carry.Some?
    requires g.s.spoken != [] && held == Last(g.s.spoken) && produced == g.s.produced
    requires Follows(suffix, Init(g.s.spoken))
    requires w == g.w && !g.over && |produced| < p.maxNew && 1 <= p.k <= Mtp.MOST_DRAFTS
    modifies runner, runner.gdn, runner.gdn.stash, cycle, cycle.draft, suffix
    ensures Joined(runner, cycle) && cycle.Kept(old(cycle.draft)) && Of(runner, cycle) == Onward(runner.net, c, held, x)
    ensures Made(runner.net, p, g, c, x, Through(suffix))
    ensures x.d == if stop then Nothing else Answer(p, g.s, w, x.kept.tokens)
    ensures var next := After(g.s, x.kept.tokens, x.d);
            (held', produced') == (Last(next.spoken), next.produced) && Follows(suffix, Init(next.spoken))
  {
    var room := p.maxNew - |produced|;
    held', produced', x := TurnStep(runner, cycle, suffix, p, held, produced, room, w, stop, c, g.s);
    MadeIs(runner.net, p, g, c, x, Through(suffix), held, produced, room);
  }

  /** The caches, the index and the loop's variables stand at a spot of the turn. */
  ghost predicate Posed(
    runner: Runner, cycle: DraftCycle, suffix: SuffixIndex?, g: Spot, c: Core,
    cacheLen: nat, held: Token, produced: seq<Token>)
    reads runner, runner.gdn, cycle, cycle.draft, suffix
  {
    && g.s.spoken != [] && held == Last(g.s.spoken) && produced == g.s.produced && cacheLen == |g.s.spoken| - 1
    && Joined(runner, cycle) && Of(runner, cycle) == c && c.carry.Some? && |c.rows| == cacheLen
    && Follows(suffix, Init(g.s.spoken))
  }

  /** What is left of a turn: windows that may be answered, or ids to produce. */
  function Rank(p: Plan, g: Spot): nat {
    Max0(p.listen.horizon - g.w) + Max0(p.maxNew - |g.s.produced|)
  }

  /** One pass of the loop, from one spot to the next. */
  method Pass(
    runner: Runner, cycle: DraftCycle, suffix: SuffixIndex?, p: Plan, cacheLen: nat, held: Token,
    produced: seq<Token>, w: nat,
    stop: bool, ghost g: Spot, ghost c: Core)
    returns (cacheLen': nat, held': Token, produced': seq<Token>, x: Window)
    requires Posed(runner, cycle, suffix, g, c, cacheLen, held, produced) && w == g.w && !g.over
    requires |produced| < p.maxNew && 1 <= p.k <= Mtp.MOST_DRAFTS
    modifies runner, runner.gdn, runner.gdn.stash, cycle, cycle.draft, suffix
    ensures cycle.Kept(old(cycle.draft))
    ensures Made(runner.net, p, g, c, x, Through(suffix))
    ensures x.d == if stop then Nothing else Answer(p, g.s, g.w, x.kept.tokens)
    ensures Posed(runner, cycle, suffix, SpotAfter(p, g, x), Onward(runner.net, c, held, x), cacheLen', held',
              produced')
    ensures Rank(p, SpotAfter(p, g, x)) < Rank(p, g)
  {
    held', produced', x := SpotStep(runner, cycle, suffix, p, held, produced, w, stop, c, g);
    cacheLen' := cacheLen + |x.kept.tokens| + BodyLen(x.d);
    OnwardSize(runner.net, p, g, c, x, cacheLen, stop);
  }

  lemma OnwardSize(net: Net, p: Plan, g: Spot, c: Core, x: Window, cacheLen: nat, stop: bool)
    requires g.s.spoken != [] && c.carry.Some? && |c.m.kv| == |c.rows| == cacheLen == |g.s.spoken| - 1
    requires 1 <= |x.kept.tokens| <= |x.drafted| + 1
    requires x.d == if stop then Nothing else Answer(p, g.s, g.w, x.kept.tokens)
    ensures |g.s.produced| < p.maxNew ==> Rank(p, SpotAfter(p, g, x)) < Rank(p, g)
    ensures var r, next, n := Onward(net, c, Last(g.s.spoken), x), SpotAfter(p, g, x),
              cacheLen + |x.kept.tokens| + BodyLen(x.d);
            r.carry.Some? && |r.rows| == n == |next.s.spoken| - 1
  {
  }

  /** A trace, the spot it leads to, and the caches there. */
  ghost predicate Traced(j: Job, c: Core, trace: seq<Window>, g: Spot, at: Core) {
    && Possible(j.p, j.prompt, trace) && Real(j.net, j.p, j.prompt, c, trace, j.index)
    && g == SpotOf(j.p, j.prompt, trace) && at == CoreOf(j.net, j.p, j.prompt, c, trace)
  }

  /** One more window of the trace. */
  lemma TracedSnoc(j: Job, c: Core, trace: seq<Window>, g: Spot, at: Core, x: Window, stop: bool)
    requires Traced(j, c, trace, g, at)
    requires Made(j.net, j.p, g, at, x, j.index)
    requires x.d == if stop then Nothing else Answer(j.p, g.s, g.w, x.kept.tokens)
    ensures Traced(j, c, trace + [x], SpotAfter(j.p, g, x), Onward(j.net, at, Last(g.s.spoken), x))
    ensures Heard(j.p, j.prompt, trace) && !stop ==> Heard(j.p, j.prompt, trace + [x])
  {
    RealSnoc(j.net, j.p, j.prompt, c, trace, x, j.index);
  }

  /** What the looks at the cancel flag have made of the trace: none saw a cancel before
      window `n`, or the last one did. */
  ghost predicate Looked(j: Job, trace: seq<Window>, n: nat, stop: bool)
    requires Possible(j.p, j.prompt, trace)
  {
    |trace| == n && if stop then Interrupted(j, trace) else Heard(j.p, j.prompt, trace) && Unset(j.cancel, 2 * n)
  }

  lemma LookedSnoc(j: Job, trace: seq<Window>, n: nat, x: Window, stop: bool, longer: seq<Window>)
    requires Possible(j.p, j.prompt, trace) && Looked(j, trace, n, false) && !j.cancel(2 * n)
    requires longer == trace + [x] && Possible(j.p, j.prompt, longer) && stop == j.cancel(2 * n + 1)
    requires if stop then x.d == Nothing else Heard(j.p, j.prompt, longer)
    ensures Looked(j, longer, n + 1, stop)
  {
    assert Init(longer) == trace && Last(longer) == x;
    UnsetNext(j.cancel, 2 * n);
    if stop {
      assert StoppedInside(j, longer, n);
    } else {
      UnsetNext(j.cancel, 2 * n + 1);
    }
  }

  lemma UnsetNext(cancel: nat -> bool, n: nat)
    requires Unset(cancel, n) && !cancel(n)
    ensures Unset(cancel, n + 1)
  {
  }

  lemma LookedLast(j: Job, trace: seq<Window>, n: nat)
    requires Possible(j.p, j.prompt, trace) && Looked(j, trace, n, false)
    ensures if j.cancel(2 * n) then Looked(j, trace, n, true) else Unset(j.cancel, 2 * |trace| + 1)
  {
  }

  /** One pass, as a window of the trace. */
  method Round(
    runner: Runner, cycle: DraftCycle, suffix: SuffixIndex?, p: Plan, cacheLen: nat, held: Token,
    produced: seq<Token>, w: nat,
    stop: bool, ghost j: Job, ghost c: Core, ghost trace: seq<Window>, ghost g: Spot, ghost at: Core)
    returns (cacheLen': nat, held': Token, produced': seq<Token>, over: bool, ghost trace': seq<Window>,
      ghost g': Spot, ghost at': Core)
    requires Posed(runner, cycle, suffix, g, at, cacheLen, held, produced) && Traced(j, c, trace, g, at)
    requires w == g.w && !g.over && |produced| < p.maxNew && 1 <= p.k <= Mtp.MOST_DRAFTS
    requires j.p == p && j.net == runner.net && j.index == Through(suffix)
    requires Looked(j, trace, w, false) && !j.cancel(2 * w) && stop == j.cancel(2 * w + 1)
    modifies runner, runner.gdn, runner.gdn.stash, cycle, cycle.draft, suffix
    ensures cycle.Kept(old(cycle.draft))
    ensures Posed(runner, cycle, suffix, g', at', cacheLen', held', produced') && Traced(j, c, trace', g', at')
    ensures g'.w == w + 1 && over == g'.over && Rank(p, g') < Rank(p, g)
    ensures Looked(j, trace', w + 1, stop)
  {
    var x;
    cacheLen', held', produced', x := Pass(runner, cycle, suffix, p, cacheLen, held, produced, w, stop, g, at);
    over := Ends(x.d, x.kept.stopped);
    TracedSnoc(j, c, trace, g, at, x, stop);
    LookedSnoc(j, trace, w, x, stop, trace + [x]);
    trace', g', at' := trace + [x], SpotAfter(p, g, x), Onward(runner.net, at, held, x);
  }

  /** The windows of a turn whose prompt is in the caches but for its last id. */
  method WindowLoop(
    runner: Runner, cycle: DraftCycle, suffix: SuffixIndex?, p: Plan, start: nat, first: Token, cancel: nat -> bool,
    ghost j: Job, ghost c: Core)
    returns (cacheLen: nat, held: Token, produced: seq<Token>, cancelled: bool, ghost trace: seq<Window>,
      ghost g: Spot, ghost at: Core)
    requires j.prompt != [] && Posed(runner, cycle, suffix, SpotOf(j.p, j.prompt, []), c, start, first, [])
    requires j.p == p && j.net == runner.net && j.index == Through(suffix) && 1 <= p.k <= Mtp.MOST_DRAFTS
    requires j.cancel == cancel
    modifies runner, runner.gdn, runner.gdn.stash, cycle, cycle.draft, suffix
    ensures cycle.Kept(old(cycle.draft))
    ensures Posed(runner, cycle, suffix, g, at, cacheLen, held, produced) && Traced(j, c, trace, g, at)
    ensures cancelled ==> Interrupted(j, trace)
    ensures !cancelled ==> (|produced| >= p.maxNew || g.over) && Heard(p, j.prompt, trace)
    ensures !cancelled ==> Unset(j.cancel, 2 * |trace| + 1)
  {
    cacheLen, held, produced, trace := start, first, [], [];
    g, at := SpotOf(p, j.prompt, []), c;
    var over, w := false, 0;
    cancelled := false;
    while |produced| < p.maxNew && !cancelled && !over && !cancel(2 * w)
      invariant Posed(runner, cycle, suffix, g, at, cacheLen, held, produced) && Traced(j, c, trace, g, at)
      invariant cycle.Kept(old(cycle.draft))
      invariant Looked(j, trace, w, cancelled) && w == g.w && over == g.over
      decreases Rank(p, g)
    {
      cancelled := cancel(2 * w + 1);
      cacheLen, held, produced, over, trace, g, at := Round(
        runner, cycle, suffix, p, cacheLen, held, produced, w, cancelled, j, c, trace, g, at);
      w := w + 1;
    }
    if !cancelled {
      LookedLast(j, trace, w);
      cancelled := cancel(2 * w);
    }
  }

  /** The windows, and how they ended. */
  method RunWindows(
    runner: Runner, cycle: DraftCycle, suffix: SuffixIndex?, p: Plan, start: nat, first: Token, cancel: nat -> bool,
    ghost j: Job, ghost table: MarkTable, ghost c: Core, ghost told: map<nat, Saved>)
    returns (r: Ended, ghost trace: seq<Window>, ghost now: Core)
    requires j.prompt != [] && Posed(runner, cycle, suffix, SpotOf(j.p, j.prompt, []), c, start, first, [])
    requires table.Valid() && table.Tale() == told
    requires j.p == p && j.net == runner.net && j.index == Through(suffix) && j.cancel == cancel && p.maxNew >= 1
    requires 1 <= p.k <= Mtp.MOST_DRAFTS
    modifies runner, runner.gdn, runner.gdn.stash, cycle, cycle.draft, suffix
    ensures cycle.Kept(old(cycle.draft)) && Stands(runner, cycle, table, now, told)
    ensures Ran(j, c, r, trace, now)
  {
    ghost var g;
    var cacheLen, held, produced, cancelled;
    cacheLen, held, produced, cancelled, trace, g, now :=
        WindowLoop(runner, cycle, suffix, p, start, first, cancel, j, c);
    r := if cancelled then Cancelled(produced) else Done(produced, cacheLen);
    RanIs(j, c, r, trace, g, now);
    assert table.Valid() && table.Tale() == told;
  }

  lemma RanIs(j: Job, c: Core, r: Ended, trace: seq<Window>, g: Spot, at: Core)
    requires Traced(j, c, trace, g, at) && !r.Failed?
    requires r.Cancelled? ==> r.tokens == g.s.produced && Interrupted(j, trace)
    requires r.Done? ==> (|g.s.produced| >= j.p.maxNew || g.over) && Heard(j.p, j.prompt, trace)
    requires r.Done? ==> r == Done(g.s.produced, |g.s.spoken| - 1) && Unset(j.cancel, 2 * |trace| + 1)
    ensures Ran(j, c, r, trace, at)
  {
  }

  /** The index of the prompt, when copied drafts are on. */
  method IndexFor(device: bool, prompt: seq<Token>, ngram: Option<(nat, nat)>) returns (suffix: SuffixIndex?)
    requires prompt != [] && (ngram.Some? ==> ngram.value.0 >= 1)
    ensures Follows(suffix, Init(prompt)) && (suffix != null ==> fresh(suffix))
    ensures Through(suffix) == IndexOf(device, prompt, ngram)
  {
    suffix := null;
    if ngram.Some? && device {
      suffix := new SuffixIndex(Init(prompt), ngram.value.0, ngram.value.1);
    }
  }

  /** The windows that follow a prefill. */
  method AfterPrefill(
    runner: Runner, cycle: DraftCycle, prompt: seq<Token>, held: Token, p: Plan, cancel: nat -> bool,
    ngram: Option<(nat, nat)>,
    ghost j: Job, ghost table: MarkTable, ghost c: Core, ghost told: map<nat, Saved>)
    returns (r: Ended, ghost trace: seq<Window>, ghost now: Core)
    requires Stands(runner, cycle, table, c, told) && c.carry.Some? && |c.rows| == |prompt| - 1
    requires prompt != [] && held == Last(prompt) && j.p == p && j.net == runner.net && j.prompt == prompt
    requires j.index == IndexOf(runner.device, prompt, ngram) && j.cancel == cancel && p.maxNew >= 1
    requires 1 <= p.k <= Mtp.MOST_DRAFTS && (ngram.Some? ==> ngram.value.0 >= 1)
    modifies runner, runner.gdn, runner.gdn.stash, cycle, cycle.draft
    ensures cycle.Kept(old(cycle.draft)) && Stands(runner, cycle, table, now, told)
    ensures Ran(j, c, r, trace, now)
  {
    var suffix := IndexFor(runner.device, prompt, ngram);
    r, trace, now := RunWindows(runner, cycle, suffix, p, cycle.Position(), held, cancel, j, table, c, told);
  }

  /** What the drafts of a turn over `prompt` are copied through, as the call asks: a function
      of the prompt and the settings, wherever the prompt's prefix came from. */
  function IndexOf(device: bool, prompt: seq<Token>, ngram: Option<(nat, nat)>): Option<Index> {
    if ngram.None? || !device || ngram.value.0 < 1 || prompt == [] then None
    else Some(IndexOver(|prompt| - 1, ngram.value.0, ngram.value.1))
  }

  /** The job that a call sets. */
  ghost function JobOf(runner: Runner, table: MarkTable, prompt: seq<Token>, p: Plan, cancel: nat -> bool,
      cuts: seq<nat>, ngram: Option<(nat, nat)>): Job {
    Job(runner.net, p, prompt, cuts, table.limit, runner.device, IndexOf(runner.device, prompt, ngram),
        cancel)
  }

  /** A whole turn: prefill, then windows until the budget, a stop or a cancel. */
  method ContinueDrafted(
    runner: Runner, cycle: DraftCycle, prompt: seq<Token>, p: Plan, cancel: nat -> bool, table: MarkTable,
    cuts: seq<nat>,
    ngram: Option<(nat, nat)>, ghost j: Job, ghost c: Core, ghost tale: map<nat, Saved>)
    returns (r: Ended, ghost trace: seq<Window>, ghost told: map<nat, Saved>, ghost now: Core)
    requires Stands(runner, cycle, table, c, tale) && |c.rows| <= |prompt| && (|c.rows| > 0 ==> c.carry.Some?)
    requires j == JobOf(runner, table, prompt, p, cancel, cuts, ngram)
    requires 1 <= p.k <= Mtp.MOST_DRAFTS && p.maxNew >= 1 && (ngram.Some? ==> ngram.value.0 >= 1)
    modifies runner, runner.gdn, runner.gdn.stash, cycle, cycle.draft, table
    ensures Stands(runner, cycle, table, now, told)
    ensures cycle.Kept(old(cycle.draft))
    ensures Drove(j, c, tale, r, trace, told, now)
  {
    trace := [];
    var prefilled;
    prefilled, now, told := PrefillHeld(runner, cycle, prompt, table, cuts, c, tale);
    AlongIs(j, c, tale, told, now);
    if prefilled.NoHeld? {
      r := Failed(NeedsHeld);
    } else {
      ghost var filled := now;
      r, trace, now := AfterPrefill(runner, cycle, prompt, prefilled.held, p, cancel, ngram, j, table, filled, told);
    }
  }

  /** What the prefill left. */
  lemma AlongIs(j: Job, c: Core, tale: map<nat, Saved>, told: map<nat, Saved>, now: Core)
    requires |c.m.kv| == |c.rows| && (|c.rows| > 0 ==> c.carry.Some?)
    requires var spans := Schedule.SpansOf(|c.rows|, |j.prompt|, j.cuts);
             Along(j.net, c, j.prompt, spans, |spans|, j.limit, j.device, tale, told, now)
    ensures now == Filled(j, c) && MarkedAlong(j.net, c, j.prompt, Suffix(j, |c.rows|), j.limit, j.device, tale, told)
    ensures Refuses(j, |c.rows|) ==> now == c
    ensures !Refuses(j, |c.rows|) ==> |now.rows| == |j.prompt| - 1 && now.carry.Some?
  {
    var spans := Suffix(j, |c.rows|);
    assert spans[..|spans|] == spans;
    if !Refuses(j, |c.rows|) {
      FilledSize(j, c);
    }
  }
}
