/** What the two caches hold along the windows of a turn, whatever they held before it. */
module Driven {
  import opened Options
  import opened Target
  import opened Runner
  import opened Draft
  import opened Decode
  import opened Marks
  import opened Restart
  import opened Schedule
  import opened SuffixIndex
  import opened Caches
  import opened Account
  import GdnWindow

  /** The caches after one window and its directive. */
  function Onward(net: Net, c: Core, held: Token, x: Window): Core {
    if c.carry.None? || !(1 <= |x.kept.tokens| <= |x.drafted| + 1) then c
    else Injected(net, Windowed(net, c, held, x.drafted, |x.kept.tokens|), x.d, Last(x.kept.tokens))
  }

  /** The caches after a trace, from what they were before its first window. */
  ghost function CoreOf(net: Net, p: Plan, prompt: seq<Token>, c: Core, trace: seq<Window>): Core
    requires Possible(p, prompt, trace)
    decreases |trace|
  {
    if trace == [] then c
    else
      var before := trace[..|trace| - 1];
      Onward(net, CoreOf(net, p, prompt, c, before), Last(SpotOf(p, prompt, before).s.spoken), trace[|trace| - 1])
  }

  /** The window that the caches `c` make: its drafts, copied or rolled, scored by their rows. */
  ghost predicate Made(net: Net, p: Plan, g: Spot, c: Core, x: Window, index: Option<Index>)
    requires g.s.spoken != []
  {
    && !g.over && |g.s.produced| < p.maxNew && c.carry.Some? && |x.drafted| == p.k
    && x.kept == Chosen(net, c, Last(g.s.spoken), x.drafted, p.maxNew - |g.s.produced|, p.stops)
    && x.drafted == Drafted(net, index, c, Init(g.s.spoken), Last(g.s.spoken), p.k)
  }

  /** The trace that caches which began as `c` really make. */
  ghost predicate Real(net: Net, p: Plan, prompt: seq<Token>, c: Core, trace: seq<Window>, index: Option<Index>)
    requires Possible(p, prompt, trace)
    decreases |trace|
  {
    trace == [] ||
      (var before := trace[..|trace| - 1];
       Real(net, p, prompt, c, before, index)
       && Made(net, p, SpotOf(p, prompt, before), CoreOf(net, p, prompt, c, before), trace[|trace| - 1], index))
  }

  /** The callback was asked after every window. */
  ghost predicate Heard(p: Plan, prompt: seq<Token>, trace: seq<Window>)
    requires Possible(p, prompt, trace)
    decreases |trace|
  {
    trace == [] ||
      (var before, x := trace[..|trace| - 1], trace[|trace| - 1];
       var g := SpotOf(p, prompt, before);
       Heard(p, prompt, before) && x.d == Answer(p, g.s, g.w, x.kept.tokens))
  }

  /** The callback is given what the turn has produced so far, the window's own ids included, and
      the directive is what it answers; it is not asked after its horizon. */
  lemma {:induction false} HeardAnswers(p: Plan, prompt: seq<Token>, trace: seq<Window>, i: nat)
    requires Possible(p, prompt, trace) && Heard(p, prompt, trace) && i < |trace|
    ensures Possible(p, prompt, trace[..i])
    ensures trace[i].d == if i < p.listen.horizon
                          then p.listen.answer(i, SpotOf(p, prompt, trace[..i]).s.produced + trace[i].kept.tokens)
                          else Nothing
    decreases |trace|
  {
    if i < |trace| - 1 {
      HeardAnswers(p, prompt, trace[..|trace| - 1], i);
      assert trace[..|trace| - 1][..i] == trace[..i];
    }
  }

  /** No injection takes the chunk kernel before the layer is ready. */
  predicate Gentle(ready: bool, trace: seq<Window>) {
    ready || forall i :: 0 <= i < |trace| ==> BodyLen(trace[i].d) < GdnWindow.CHUNK_KERNEL
  }

  lemma RealSnoc(net: Net, p: Plan, prompt: seq<Token>, c: Core, trace: seq<Window>, x: Window, index: Option<Index>)
    requires Possible(p, prompt, trace) && Real(net, p, prompt, c, trace, index)
    requires Made(net, p, SpotOf(p, prompt, trace), CoreOf(net, p, prompt, c, trace), x, index)
    requires x.d == Nothing || x.d == Answer(p, SpotOf(p, prompt, trace).s, |trace|, x.kept.tokens)
    ensures Possible(p, prompt, trace + [x]) && Real(net, p, prompt, c, trace + [x], index)
    ensures SpotOf(p, prompt, trace + [x]) == SpotAfter(p, SpotOf(p, prompt, trace), x)
    ensures CoreOf(net, p, prompt, c, trace + [x])
         == Onward(net, CoreOf(net, p, prompt, c, trace), Last(SpotOf(p, prompt, trace).s.spoken), x)
    ensures Heard(p, prompt, trace + [x])
       <==> Heard(p, prompt, trace) && x.d == Answer(p, SpotOf(p, prompt, trace).s, |trace|, x.kept.tokens)
  {
    SpotSnoc(p, prompt, trace, x);
    assert (trace + [x])[..|trace|] == trace;
  }

  /** One window on caches that hold the text is scored on that text. */
  lemma WindowScored(net: Net, o: Oracle, p: Plan, g: Spot, c: Core, x: Window, index: Option<Index>)
    requires Serves(o, net, index, p.k) && |g.s.spoken| >= 2 && Coupled(net, c, Init(g.s.spoken))
    requires Made(net, p, g, c, x, index)
    ensures ScoredKept(o, g.s.spoken, x.drafted, p.maxNew - |g.s.produced|, p.stops, x.kept, true)
    ensures Init(x.kept.tokens) == x.drafted[..|x.kept.tokens| - 1]
  {
    var text, held := Init(g.s.spoken), Last(g.s.spoken);
    assert text + [held] == g.s.spoken;
    ChosenIsSpec(net, o, index, c, text, held, x.drafted, p.maxNew - |g.s.produced|, p.stops, p.k);
    DraftedIsSpec(net, o, index, p.k, c, text, held);
  }

  /** After it, and after its directive, they hold the longer text. */
  lemma OnwardCoupled(net: Net, s: Speech, c: Core, x: Window)
    requires |s.spoken| >= 2 && Coupled(net, c, Init(s.spoken)) && (c.ready || BodyLen(x.d) < GdnWindow.CHUNK_KERNEL)
    requires 1 <= |x.kept.tokens| <= |x.drafted| + 1 && Init(x.kept.tokens) == x.drafted[..|x.kept.tokens| - 1]
    ensures Coupled(net, Onward(net, c, Last(s.spoken), x), Init(After(s, x.kept.tokens, x.d).spoken))
  {
    var text, held := Init(s.spoken), Last(s.spoken);
    assert text + [held] == s.spoken;
    WindowedCoupled(net, c, text, held, x.drafted, x.kept.tokens);
    CachedIsInit(text, held, x.kept.tokens);
    InjectedCoupled(net, Windowed(net, c, held, x.drafted, |x.kept.tokens|), Said(s, x.kept.tokens), x.d);
  }

  lemma OnwardScored(net: Net, o: Oracle, p: Plan, g: Spot, c: Core, x: Window, index: Option<Index>)
    requires Serves(o, net, index, p.k) && |g.s.spoken| >= 2 && Coupled(net, c, Init(g.s.spoken))
    requires Made(net, p, g, c, x, index)
    requires x.d == Answer(p, g.s, g.w, x.kept.tokens) && (c.ready || BodyLen(x.d) < GdnWindow.CHUNK_KERNEL)
    ensures ScoredOn(o, p, g, x, true)
    ensures Coupled(net, Onward(net, c, Last(g.s.spoken), x), Init(After(g.s, x.kept.tokens, x.d).spoken))
  {
    WindowScored(net, o, p, g, c, x, index);
    OnwardCoupled(net, g.s, c, x);
  }

  lemma OnwardReady(net: Net, c: Core, held: Token, x: Window)
    requires x.kept.tokens != []
    ensures c.ready ==> Onward(net, c, held, x).ready
    ensures c.carry.Some? ==> Onward(net, c, held, x).carry.Some?
  {
  }

  lemma {:induction false} CoreReady(net: Net, p: Plan, prompt: seq<Token>, c: Core, trace: seq<Window>)
    requires Possible(p, prompt, trace)
    ensures c.ready ==> CoreOf(net, p, prompt, c, trace).ready
    ensures c.carry.Some? ==> CoreOf(net, p, prompt, c, trace).carry.Some?
    decreases |trace|
  {
    if trace != [] {
      var before := trace[..|trace| - 1];
      CoreReady(net, p, prompt, c, before);
      OnwardReady(net, CoreOf(net, p, prompt, c, before), Last(SpotOf(p, prompt, before).s.spoken), trace[|trace| - 1]);
    }
  }

  /** When the caches held the prompt and no injection restarts over it, every window is
      scored on the exact text, and the caches hold all of it but the held id. */
  lemma {:induction false} RealScored(
      net: Net, o: Oracle, p: Plan, prompt: seq<Token>, c: Core, trace: seq<Window>, index: Option<Index>)
    requires |prompt| >= 2 && Coupled(net, c, Init(prompt)) && Serves(o, net, index, p.k)
    requires Possible(p, prompt, trace) && Real(net, p, prompt, c, trace, index) && Heard(p, prompt, trace)
    requires Gentle(c.ready, trace)
    ensures Scored(o, p, prompt, trace, true)
    ensures var g := SpotOf(p, prompt, trace);
            |g.s.spoken| >= 2 && Coupled(net, CoreOf(net, p, prompt, c, trace), Init(g.s.spoken))
    decreases |trace|
  {
    if trace != [] {
      var before, x := trace[..|trace| - 1], trace[|trace| - 1];
      GentleInit(c.ready, trace);
      RealScored(net, o, p, prompt, c, before, index);
      CoreReady(net, p, prompt, c, before);
      var g, b := SpotOf(p, prompt, before), CoreOf(net, p, prompt, c, before);
      OnwardScored(net, o, p, g, b, x, index);
    }
  }

  /** A window that was chosen stops at a stop id, and only there. */
  lemma ChosenStops(net: Net, c: Core, held: Token, drafted: seq<Token>, room: nat, stops: set<Token>)
    requires room > 0
    ensures var w := Chosen(net, c, held, drafted, room, stops); w.stopped <==> Last(w.tokens) in stops
  {
    PickIs(Argmaxes(net, Verify(net, c, held, drafted)), drafted, room, stops);
  }

  /** When a turn stops: after the window that is the first to halt it, with room left before
      each; a stop id whose close was injected does not. */
  lemma {:induction false} RealStops(
      net: Net, p: Plan, prompt: seq<Token>, c: Core, trace: seq<Window>, index: Option<Index>)
    requires Possible(p, prompt, trace) && Real(net, p, prompt, c, trace, index)
    ensures SpotOf(p, prompt, trace).over <==> trace != [] && Halts(p.stops, Last(trace))
    ensures forall i :: 0 <= i < |trace| - 1 ==> !Halts(p.stops, trace[i])
    decreases |trace|
  {
    if trace != [] {
      var before := trace[..|trace| - 1];
      StopsStep(net, p, prompt, c, trace, index);
      RealStops(net, p, prompt, c, before, index);
      HaltsBefore(p.stops, trace, before);
    }
  }

  lemma HaltsBefore(stops: set<Token>, trace: seq<Window>, before: seq<Window>)
    requires trace != [] && before == trace[..|trace| - 1] && !(before != [] && Halts(stops, Last(before)))
    requires forall i :: 0 <= i < |before| - 1 ==> !Halts(stops, before[i])
    ensures forall i :: 0 <= i < |trace| - 1 ==> !Halts(stops, trace[i])
  {
    forall i | 0 <= i < |trace| - 1
      ensures !Halts(stops, trace[i])
    {
      assert trace[i] == before[i];
    }
  }

  lemma StopsStep(
      net: Net, p: Plan, prompt: seq<Token>, c: Core, trace: seq<Window>, index: Option<Index>)
    requires Possible(p, prompt, trace) && Real(net, p, prompt, c, trace, index) && trace != []
    ensures var before := trace[..|trace| - 1];
            Possible(p, prompt, before) && Real(net, p, prompt, c, before, index) && !SpotOf(p, prompt, before).over
    ensures SpotOf(p, prompt, trace).over <==> Halts(p.stops, Last(trace))
  {
    var before, x := trace[..|trace| - 1], trace[|trace| - 1];
    MadeStops(net, p, SpotOf(p, prompt, before), CoreOf(net, p, prompt, c, before), x, index);
  }

  /** There was room left before each window. */
  lemma {:induction false} RealRoom(
      net: Net, p: Plan, prompt: seq<Token>, c: Core, trace: seq<Window>, index: Option<Index>, i: nat)
    requires Possible(p, prompt, trace) && Real(net, p, prompt, c, trace, index) && i < |trace|
    ensures RoomBefore(p, prompt, trace, i)
    decreases |trace|
  {
    var before := trace[..|trace| - 1];
    assert before[..i] == trace[..i];
    if i < |trace| - 1 {
      LessReal(net, p, prompt, c, trace, before, index);
      RealRoom(net, p, prompt, c, before, index, i);
    } else {
      assert trace[..i] == before;
    }
  }

  lemma LessReal(
      net: Net, p: Plan, prompt: seq<Token>, c: Core, trace: seq<Window>, before: seq<Window>, index: Option<Index>)
    requires Possible(p, prompt, trace) && Real(net, p, prompt, c, trace, index)
    requires trace != [] && before == trace[..|trace| - 1]
    ensures Possible(p, prompt, before) && Real(net, p, prompt, c, before, index)
  {
  }

  ghost predicate RoomBefore(p: Plan, prompt: seq<Token>, trace: seq<Window>, i: nat)
    requires i < |trace|
  {
    Possible(p, prompt, trace[..i]) && |SpotOf(p, prompt, trace[..i]).s.produced| < p.maxNew
  }

  lemma MadeStops(net: Net, p: Plan, g: Spot, c: Core, x: Window, index: Option<Index>)
    requires g.s.spoken != [] && Made(net, p, g, c, x, index)
    ensures !g.over && (SpotAfter(p, g, x).over <==> Halts(p.stops, x))
  {
    ChosenStops(net, c, Last(g.s.spoken), x.drafted, p.maxNew - |g.s.produced|, p.stops);
  }

  lemma OnwardOver(net: Net, c: Core, held: Token, x: Window)
    requires |c.m.kv| == |c.rows| && x.kept.tokens != []
    ensures Over(c, Onward(net, c, held, x))
  {
    OverSelf(c);
    if !(c.carry.None? || !(1 <= |x.kept.tokens| <= |x.drafted| + 1)) {
      var w := Windowed(net, c, held, x.drafted, |x.kept.tokens|);
      WindowedKeeps(net, c, held, x.drafted, |x.kept.tokens|);
      OverSelf(w);
      if !(x.d.Nothing? || InjectBody(x.d, Last(x.kept.tokens)) == []) {
        FedKeeps(net, w, InjectBody(x.d, Last(x.kept.tokens)));
      }
      OverTrans(c, w, Onward(net, c, held, x));
    }
  }

  lemma OverSelf(c: Core)
    requires |c.m.kv| == |c.rows|
    ensures Over(c, c)
  {
    assert c.m.kv[..|c.m.kv|] == c.m.kv && c.rows[..|c.rows|] == c.rows;
  }

  /** Whatever the windows were, what the caches held below their start is still there. */
  lemma {:induction false} CoreOver(net: Net, p: Plan, prompt: seq<Token>, c: Core, trace: seq<Window>)
    requires Possible(p, prompt, trace) && |c.m.kv| == |c.rows|
    ensures Over(c, CoreOf(net, p, prompt, c, trace))
    decreases |trace|
  {
    OverSelf(c);
    if trace != [] {
      var before, x := trace[..|trace| - 1], trace[|trace| - 1];
      CoreOver(net, p, prompt, c, before);
      var b := CoreOf(net, p, prompt, c, before);
      OnwardOver(net, b, Last(SpotOf(p, prompt, before).s.spoken), x);
      OverTrans(c, b, CoreOf(net, p, prompt, c, trace));
    }
  }

  /** The cursor and the counters are the trace's. */
  lemma {:induction false} CoreCounts(
      net: Net, p: Plan, prompt: seq<Token>, c: Core, trace: seq<Window>, index: Option<Index>)
    requires Possible(p, prompt, trace) && Real(net, p, prompt, c, trace, index) && |c.m.kv| == |c.rows| == |prompt| - 1
    ensures var r, g := CoreOf(net, p, prompt, c, trace), SpotOf(p, prompt, trace);
            && |r.m.kv| == |r.rows| == |g.s.spoken| - 1
            && r.accepted == c.accepted + g.accepted && r.rejected == c.rejected + g.rejected
    decreases |trace|
  {
    if trace != [] {
      var before, x := trace[..|trace| - 1], trace[|trace| - 1];
      CoreCounts(net, p, prompt, c, before, index);
      OnwardCounts(net, p, SpotOf(p, prompt, before), CoreOf(net, p, prompt, c, before), x, index);
    }
  }

  lemma OnwardCounts(net: Net, p: Plan, g: Spot, c: Core, x: Window, index: Option<Index>)
    requires g.s.spoken != [] && Made(net, p, g, c, x, index) && |c.m.kv| == |c.rows| == |g.s.spoken| - 1
    ensures var r, next := Onward(net, c, Last(g.s.spoken), x), SpotAfter(p, g, x);
            && |r.m.kv| == |r.rows| == |next.s.spoken| - 1
            && r.accepted == c.accepted + (next.accepted - g.accepted)
               && r.rejected == c.rejected + (next.rejected - g.rejected)
  {
    var held, kept := Last(g.s.spoken), x.kept.tokens;
    var w := Windowed(net, c, held, x.drafted, |kept|);
    assert |w.m.kv| == |w.rows| == |g.s.spoken| - 1 + |kept|;
    if x.d.Close? {
      var said := Said(g.s, kept);
      assert Init(said.spoken) + [Last(kept)] == said.spoken;
      InjectText(Init(said.spoken), Last(kept), said.produced, x.d);
    }
  }

  lemma OnwardDead(net: Net, c: Core, held: Token, x: Window, p: nat)
    requires 1 <= |x.kept.tokens| <= |x.drafted| + 1 && c.carry.Some?
    requires Still(net, p) && p <= |c.m.kv|
    requires Dead(net, c, p) || (!c.ready && BodyLen(x.d) >= GdnWindow.CHUNK_KERNEL)
    ensures Dead(net, Onward(net, c, held, x), p)
  {
    var w := Windowed(net, c, held, x.drafted, |x.kept.tokens|);
    if Dead(net, c, p) {
      WindowedDead(net, c, held, x.drafted, |x.kept.tokens|, p);
    }
    var body := if x.d.Nothing? then [] else InjectBody(x.d, Last(x.kept.tokens));
    assert |body| == BodyLen(x.d);
    if body != [] {
      if Dead(net, c, p) {
        FedDead(net, w, body, p);
      } else {
        StillReads(net, p, Mem(GdnWindow.Start(net, w.m.g, w.ready, |body|), w.m.kv), body);
      }
    }
  }

  lemma GentleInit(ready: bool, trace: seq<Window>)
    requires trace != []
    ensures Gentle(ready, trace)
       <==> Gentle(ready, trace[..|trace| - 1]) && (ready || BodyLen(trace[|trace| - 1].d) < GdnWindow.CHUNK_KERNEL)
  {
    var before := trace[..|trace| - 1];
    assert forall i :: 0 <= i < |before| ==> before[i] == trace[i];
  }

  /** A lost state stays lost, and a long injection into a layer that is not ready loses it. */
  lemma {:induction false} CoreDead(
      net: Net, p: Plan, prompt: seq<Token>, c: Core, trace: seq<Window>, index: Option<Index>, at: nat)
    requires Possible(p, prompt, trace) && Real(net, p, prompt, c, trace, index) && |c.m.kv| == |c.rows|
    requires Still(net, at) && at <= |c.m.kv| && (Dead(net, c, at) || !Gentle(c.ready, trace))
    ensures Dead(net, CoreOf(net, p, prompt, c, trace), at)
    decreases |trace|
  {
    if trace != [] {
      var before, x := trace[..|trace| - 1], trace[|trace| - 1];
      CoreOver(net, p, prompt, c, before);
      GentleInit(c.ready, trace);
      if Dead(net, c, at) || !Gentle(c.ready, before) {
        CoreDead(net, p, prompt, c, before, index, at);
      } else {
        CoreColdReady(net, p, prompt, c, before);
      }
      OnwardDead(net, CoreOf(net, p, prompt, c, before), Last(SpotOf(p, prompt, before).s.spoken), x, at);
    }
  }

  /** A callback that injects less than the chunk kernel's floor never restarts anything. */
  lemma {:induction false} InjectsGently(p: Plan, prompt: seq<Token>, trace: seq<Window>)
    requires Possible(p, prompt, trace) && InjectsAtMost(p.listen, GdnWindow.CHUNK_KERNEL - 1)
    ensures Gentle(false, trace)
    decreases |trace|
  {
    if trace != [] {
      var before, x := trace[..|trace| - 1], trace[|trace| - 1];
      var g := SpotOf(p, prompt, before);
      InjectsGently(p, prompt, before);
      GentleInit(false, trace);
      assert InjectLen(p.listen, g.w, Said(g.s, x.kept.tokens).produced) < GdnWindow.CHUNK_KERNEL;
    }
  }

  lemma SilentInjects(l: Listener, most: nat)
    requires Silent(l)
    ensures InjectsAtMost(l, most)
  {
  }

  /** Short injections never make a layer ready. */
  lemma {:induction false} CoreColdReady(net: Net, p: Plan, prompt: seq<Token>, c: Core, trace: seq<Window>)
    requires Possible(p, prompt, trace) && !c.ready && Gentle(false, trace)
    ensures !CoreOf(net, p, prompt, c, trace).ready
    decreases |trace|
  {
    if trace != [] {
      GentleInit(false, trace);
      CoreColdReady(net, p, prompt, c, trace[..|trace| - 1]);
    }
  }

  datatype Error = NeedsHeld | Diverged | TooLong

  datatype Ended = Done(tokens: seq<Token>, cacheLen: nat) | Cancelled(tokens: seq<Token>) | Failed(error: Error)

  /** What a turn is asked for.  `index` says what drafts are copied through, if any, and
      `cancel` what each look at the cancel flag finds. */
  datatype Job = Job(
    net: Net, p: Plan, prompt: seq<Token>, cuts: seq<nat>, limit: nat, device: bool, index: Option<Index>,
    cancel: nat -> bool)

  /** No cancel is ever seen. */
  ghost predicate Quiet(cancel: nat -> bool) {
    forall i :: !cancel(i)
  }

  /** None is seen in the first `n` looks. */
  ghost predicate Unset(cancel: nat -> bool, n: nat) {
    forall i :: 0 <= i < n ==> !cancel(i)
  }

  /** The cuts of the prefill from position `start` on. */
  function Suffix(j: Job, start: nat): (spans: seq<Span>)
    ensures spans == [] <==> start + 1 >= |j.prompt|
    ensures spans != [] ==> Partition(spans, start, |j.prompt| - 1)
    ensures forall i :: 0 <= i < |spans| ==> spans[i].0 < spans[i].1 <= |j.prompt|
  {
    SpansOf(start, |j.prompt|, j.cuts)
  }

  /** The caches after the prefill. */
  ghost function Filled(j: Job, c: Core): Core {
    FedAll(j.net, c, j.prompt, Suffix(j, |c.rows|))
  }

  /** The prompt has no id to hold. */
  predicate Refuses(j: Job, start: nat) {
    |j.prompt| < 2 || start >= |j.prompt|
  }

  /** The whole of `continue_drafted`: what it returns, which marks it leaves, and what
      the caches hold then. */
  ghost predicate Drove(
    j: Job, c: Core, tale: map<nat, Saved>, r: Ended, trace: seq<Window>, told: map<nat, Saved>, now: Core)
  {
    && MarkedAlong(j.net, c, j.prompt, Suffix(j, |c.rows|), j.limit, j.device, tale, told)
    && if Refuses(j, |c.rows|) then r == Failed(NeedsHeld) && now == c
       else Ran(j, Filled(j, c), r, trace, now)
  }

  /** The windows after the prefill. */
  ghost predicate Ran(j: Job, c: Core, r: Ended, trace: seq<Window>, now: Core) {
    && !r.Failed? && Possible(j.p, j.prompt, trace)
    && Real(j.net, j.p, j.prompt, c, trace, j.index) && now == CoreOf(j.net, j.p, j.prompt, c, trace)
    && (r.Done? ==> Concluded(j, r, trace))
    && (r.Cancelled? ==> Interrupted(j, trace) && r.tokens == SpotOf(j.p, j.prompt, trace).s.produced)
  }

  /** A turn that was not cancelled: no look saw a cancel, its trace is finished, and it
      returns its tokens and cursor. */
  ghost predicate Concluded(j: Job, r: Ended, trace: seq<Window>) {
    && Finished(j.p, j.prompt, trace) && Heard(j.p, j.prompt, trace) && Unset(j.cancel, 2 * |trace| + 1)
    && var g := SpotOf(j.p, j.prompt, trace); r == Done(g.s.produced, |g.s.spoken| - 1)
  }

  /** The first look that sees a cancel ends the turn: one between windows, or at the end,
      after whole windows; the one inside a window after its ids, with its directive not
      applied. */
  ghost predicate Interrupted(j: Job, trace: seq<Window>)
    requires Possible(j.p, j.prompt, trace)
  {
    StoppedBetween(j, trace, |trace|) || (trace != [] && StoppedInside(j, trace, |trace| - 1))
  }

  ghost predicate StoppedBetween(j: Job, trace: seq<Window>, n: nat)
    requires Possible(j.p, j.prompt, trace)
  {
    j.cancel(2 * n) && Unset(j.cancel, 2 * n) && Heard(j.p, j.prompt, trace)
  }

  ghost predicate StoppedInside(j: Job, trace: seq<Window>, n: nat)
    requires Possible(j.p, j.prompt, trace) && trace != []
  {
    && j.cancel(2 * n + 1) && Unset(j.cancel, 2 * n + 1)
    && Heard(j.p, j.prompt, Init(trace)) && Last(trace).d == Nothing
  }

  /** No forward of the turn restarts over a past: its prefill carries, and no injection
      takes the chunk kernel before the layer is ready. */
  ghost predicate Safe(j: Job, c: Core, trace: seq<Window>) {
    Carried(c.ready, Suffix(j, |c.rows|)) && Gentle(Filled(j, c).ready, trace)
  }

  /** Where the turn begins is a prefix of its prompt, in both caches. */
  ghost predicate Rooted(j: Job, c: Core) {
    |c.rows| <= |j.prompt| && Coupled(j.net, c, j.prompt[..|c.rows|])
  }

  lemma FilledCoupled(j: Job, c: Core)
    requires Rooted(j, c) && !Refuses(j, |c.rows|) && Carried(c.ready, Suffix(j, |c.rows|))
    ensures Coupled(j.net, Filled(j, c), Init(j.prompt))
  {
    var spans, stop := Suffix(j, |c.rows|), |j.prompt| - 1;
    if spans == [] {
      assert |c.rows| == stop;
    }
    SpansCoupled(j.net, c, j.prompt, spans, |c.rows|, stop);
  }

  lemma SpansCoupled(net: Net, c: Core, prompt: seq<Token>, spans: seq<Span>, start: nat, stop: nat)
    requires Partition(spans, start, stop) && start <= stop <= |prompt| && Coupled(net, c, prompt[..start])
    requires Carried(c.ready, spans)
    requires forall i :: 0 <= i < |spans| ==> spans[i].0 < spans[i].1 <= |prompt|
    requires stop == |prompt| - 1
    ensures Coupled(net, FedAll(net, c, prompt, spans), Init(prompt))
  {
    FedAllCoupled(net, c, prompt, spans, start, stop);
  }

  /** The marks of a prefill that carries are true, whatever follows it. */
  lemma DroveTells(
      j: Job, c: Core, tale: map<nat, Saved>, r: Ended, trace: seq<Window>, told: map<nat, Saved>, now: Core)
    requires Drove(j, c, tale, r, trace, told, now) && Rooted(j, c) && Carried(c.ready, Suffix(j, |c.rows|))
    ensures NewTell(j.net, j.prompt, tale, told)
    ensures TellsAll(j.net, j.prompt, |c.rows|, tale) && !r.Failed? ==> TellsAll(j.net, j.prompt, |j.prompt| - 1, told)
  {
    var spans := Suffix(j, |c.rows|);
    if spans != [] {
      MarkedAlongGrew(j.net, c, j.prompt, spans, |c.rows|, |j.prompt| - 1, j.limit, j.device, tale, told);
      MarkedAlongTell(j.net, c, j.prompt, spans, |c.rows|, |j.prompt| - 1, j.limit, j.device, tale, told);
      if TellsAll(j.net, j.prompt, |c.rows|, tale) {
        TellsGrown(j.net, j.prompt, |c.rows|, |j.prompt| - 1, tale, told);
      }
    }
  }

  /** A turn that begins on a true prefix and restarts nowhere is scored on the exact text,
      and leaves that text in the caches. */
  lemma DroveScored(
      j: Job, o: Oracle, c: Core, tale: map<nat, Saved>, r: Ended, trace: seq<Window>, told: map<nat, Saved>,
      now: Core)
    requires Drove(j, c, tale, r, trace, told, now) && r.Done? && Rooted(j, c) && Safe(j, c, trace)
    requires Serves(o, j.net, j.index, j.p.k)
    ensures Scored(o, j.p, j.prompt, trace, true)
    ensures var g := SpotOf(j.p, j.prompt, trace); |g.s.spoken| >= 2 && Coupled(j.net, now, Init(g.s.spoken))
  {
    FilledCoupled(j, c);
    RealScored(j.net, o, j.p, j.prompt, Filled(j, c), trace, j.index);
  }

  /** Whatever it returns, what lay below the start is still there. */
  lemma DroveOver(
      j: Job, c: Core, tale: map<nat, Saved>, r: Ended, trace: seq<Window>, told: map<nat, Saved>, now: Core)
    requires Drove(j, c, tale, r, trace, told, now) && |c.m.kv| == |c.rows| <= |j.prompt|
    ensures Over(c, now)
  {
    if Refuses(j, |c.rows|) {
      OverSelf(c);
    } else {
      FedAllOver(j.net, c, j.prompt, Suffix(j, |c.rows|));
      CoreOver(j.net, j.p, j.prompt, Filled(j, c), trace);
      OverTrans(c, Filled(j, c), now);
    }
  }

  lemma FilledSize(j: Job, c: Core)
    requires |c.m.kv| == |c.rows| && !Refuses(j, |c.rows|)
    ensures var r := Filled(j, c);
            && |r.m.kv| == |r.rows| == |j.prompt| - 1 && (r.accepted, r.rejected) == (c.accepted, c.rejected)
            && r.ready == ReadyAfter(c.ready, Suffix(j, |c.rows|)) && (c.carry.Some? || |c.rows| == 0 ==> r.carry.Some?)
  {
    var spans := Suffix(j, |c.rows|);
    FedAllReady(j.net, c, j.prompt, spans);
    if spans != [] {
      FedAllSize(j.net, c, j.prompt, spans, |c.rows|, |j.prompt| - 1);
    }
  }

  /** A finished turn's cursor and counters. */
  lemma DroveCounts(
      j: Job, c: Core, tale: map<nat, Saved>, r: Ended, trace: seq<Window>, told: map<nat, Saved>, now: Core)
    requires Drove(j, c, tale, r, trace, told, now) && r.Done? && |c.m.kv| == |c.rows|
    requires (c.carry.Some? || |c.rows| == 0)
    ensures var g := SpotOf(j.p, j.prompt, trace);
            && |now.m.kv| == |now.rows| == |g.s.spoken| - 1 && now.carry.Some?
            && now.accepted == c.accepted + g.accepted && now.rejected == c.rejected + g.rejected
  {
    FilledSize(j, c);
    CoreCounts(j.net, j.p, j.prompt, Filled(j, c), trace, j.index);
    CoreReady(j.net, j.p, j.prompt, Filled(j, c), trace);
  }

  lemma {:induction false} FedAllTop(net: Net, c: Core, prompt: seq<Token>, spans: seq<Span>, start: nat, stop: nat)
    requires Partition(spans, start, stop) && start <= stop <= |prompt| && |c.m.kv| == |c.rows| == start
    requires forall i :: 0 <= i < |spans| ==> spans[i].0 < spans[i].1 <= |prompt|
    ensures FedAll(net, c, prompt, spans).top <= Max(c.top, stop)
    decreases |spans|
  {
    if spans != [] {
      PartitionInit(spans, start, stop);
      FedAllTop(net, c, prompt, spans[..|spans| - 1], start, spans[|spans| - 1].0);
      FedAllSize(net, c, prompt, spans[..|spans| - 1], start, spans[|spans| - 1].0);
    }
  }

  lemma {:induction false} CoreTop(
      net: Net, p: Plan, prompt: seq<Token>, c: Core, trace: seq<Window>, index: Option<Index>)
    requires Possible(p, prompt, trace) && Real(net, p, prompt, c, trace, index) && |c.m.kv| == |c.rows| == |prompt| - 1
    ensures CoreOf(net, p, prompt, c, trace).top <= Max(c.top, SpotOf(p, prompt, trace).top)
    decreases |trace|
  {
    if trace != [] {
      var before, x := trace[..|trace| - 1], trace[|trace| - 1];
      CoreTop(net, p, prompt, c, before, index);
      CoreCounts(net, p, prompt, c, before, index);
      OnwardTop(net, p, SpotOf(p, prompt, before), CoreOf(net, p, prompt, c, before), x, index);
    }
  }

  lemma OnwardTop(net: Net, p: Plan, g: Spot, c: Core, x: Window, index: Option<Index>)
    requires g.s.spoken != [] && Made(net, p, g, c, x, index) && |c.m.kv| == |c.rows| == |g.s.spoken| - 1
    ensures var n := |SpotAfter(p, g, x).s.spoken| - 1;
            Onward(net, c, Last(g.s.spoken), x).top <= Max(c.top, Max(|g.s.spoken| + p.k, n))
    ensures SpotAfter(p, g, x).top == Max(g.top, Max(|g.s.spoken| + p.k, |SpotAfter(p, g, x).s.spoken| - 1))
  {
    OnwardCounts(net, p, g, c, x, index);
  }

  /** No forward of a turn writes a page above the highest position of its trace, and that
      lies within the prompt, the budget, and one window or injection. */
  lemma DroveWithin(
      j: Job, c: Core, tale: map<nat, Saved>, r: Ended, trace: seq<Window>, told: map<nat, Saved>, now: Core,
      most: nat)
    requires Drove(j, c, tale, r, trace, told, now) && !r.Failed? && |c.m.kv| == |c.rows| && j.p.maxNew >= 1
    requires InjectsAtMost(j.p.listen, most)
    ensures now.top <= Max(c.top, Highest(j, trace, most))
  {
    FilledSize(j, c);
    FilledTop(j, c);
    RanWithin(j, Filled(j, c), r, trace, now, most);
    MaxChain(now.top, Filled(j, c).top, c.top, |j.prompt| - 1, Highest(j, trace, most));
  }

  /** The highest page that a trace can reach. */
  ghost function Highest(j: Job, trace: seq<Window>, most: nat): nat
    requires Possible(j.p, j.prompt, trace) && j.p.maxNew >= 1
  {
    |j.prompt| + j.p.maxNew - 1 + SpotOf(j.p, j.prompt, trace).t.lost + Max(j.p.k, most)
  }

  lemma MaxChain(x: nat, filled: nat, top: nat, low: nat, high: nat)
    requires x <= Max(filled, high) && filled <= Max(top, low) && low <= high
    ensures x <= Max(top, high)
  {
  }

  lemma RanWithin(j: Job, c: Core, r: Ended, trace: seq<Window>, now: Core, most: nat)
    requires Ran(j, c, r, trace, now) && |c.m.kv| == |c.rows| == |j.prompt| - 1 && j.p.maxNew >= 1
    requires InjectsAtMost(j.p.listen, most)
    ensures now.top <= Max(c.top, Highest(j, trace, most))
  {
    CoreTop(j.net, j.p, j.prompt, c, trace, j.index);
    SpotTop(j.p, j.prompt, trace, most);
  }

  lemma FilledTop(j: Job, c: Core)
    requires |c.m.kv| == |c.rows| && !Refuses(j, |c.rows|)
    ensures Filled(j, c).top <= Max(c.top, |j.prompt| - 1)
  {
    var spans := Suffix(j, |c.rows|);
    if spans != [] {
      FedAllTop(j.net, c, j.prompt, spans, |c.rows|, |j.prompt| - 1);
    }
  }

  lemma SpotTop(p: Plan, prompt: seq<Token>, trace: seq<Window>, most: nat)
    requires Possible(p, prompt, trace) && p.maxNew >= 1 && InjectsAtMost(p.listen, most)
    ensures var g := SpotOf(p, prompt, trace);
            |prompt| - 1 <= g.top <= |prompt| + p.maxNew - 1 + g.t.lost + Max(p.k, most)
  {
    TraceBalances(p, prompt, trace);
  }

  /** A warm turn stays warm, and so do the marks it makes. */
  lemma DroveWarm(
      j: Job, c: Core, tale: map<nat, Saved>, r: Ended, trace: seq<Window>, told: map<nat, Saved>, now: Core)
    requires Drove(j, c, tale, r, trace, told, now) && |c.m.kv| == |c.rows| && Warms(c.ready, Suffix(j, |c.rows|))
    ensures Safe(j, c, trace) && NewReady(tale, told) && (!r.Failed? ==> now.ready)
  {
    var spans := Suffix(j, |c.rows|);
    FedAllReady(j.net, c, j.prompt, spans);
    if spans != [] {
      WarmsIsCarried(c.ready, spans, |c.rows|, |j.prompt| - 1);
      MarkedAlongReady(j.net, c, j.prompt, spans, |c.rows|, |j.prompt| - 1, j.limit, j.device, tale, told);
      WarmsSnoc(c.ready, spans);
    }
    if !r.Failed? {
      CoreReady(j.net, j.p, j.prompt, Filled(j, c), trace);
    }
  }

  /** Exactly when a turn that begins on a true prefix keeps it: on the network that latches
      its first id, the state at the end is the text's if and only if no forward restarted. */
  lemma DroveIsExact(
    j: Job, c: Core, tale: map<nat, Saved>, r: Ended, trace: seq<Window>, told: map<nat, Saved>, now: Core,
    base: Net, b: Rec, x0: Inp, x1: Inp)
    requires Tell(base, b, x0, x1) && j.net == Latch(base, b, x0, x1, 1)
    requires Drove(j, c, tale, r, trace, told, now) && r.Done? && Rooted(j, c)
    ensures var text := Init(SpotOf(j.p, j.prompt, trace).s.spoken);
            now.m.g == At(j.net, text).g <==> Safe(j, c, trace)
  {
    var text := Init(SpotOf(j.p, j.prompt, trace).s.spoken);
    CoupledSize(j.net, c, j.prompt[..|c.rows|]);
    FilledSize(j, c);
    if Safe(j, c, trace) {
      OracleOfServes(j.net, j.index, j.p.k);
      DroveScored(j, OracleOf(j.net, j.index, j.p.k), c, tale, r, trace, told, now);
    } else {
      LatchIsStill(base, b, x0, x1, 1);
      if !Carried(c.ready, Suffix(j, |c.rows|)) {
        SuffixDead(j, c, 1);
      }
      CoreDead(j.net, j.p, j.prompt, Filled(j, c), trace, j.index, 1);
      CoreOver(j.net, j.p, j.prompt, Filled(j, c), trace);
      CoreCounts(j.net, j.p, j.prompt, Filled(j, c), trace, j.index);
      LatchReads(base, b, x0, x1, 1, Mem(j.net.zero, []), text);
    }
  }

  /** A prefill that does not carry forgets what lay below its restart. */
  lemma SuffixDead(j: Job, c: Core, p: nat)
    requires |c.m.kv| == |c.rows| && !Carried(c.ready, Suffix(j, |c.rows|)) && p <= 1 && Still(j.net, p)
    ensures Dead(j.net, Filled(j, c), p)
  {
    var spans := Suffix(j, |c.rows|);
    CarriedIs(c.ready, spans, |c.rows|, |j.prompt| - 1);
    RestartsLate(spans, |c.rows|, |j.prompt| - 1);
    FedAllDead(j.net, c, j.prompt, spans, |c.rows|, |j.prompt| - 1, p);
  }
}
