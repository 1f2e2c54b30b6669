/** What a cancel does to a turn: where it ends, and with which ids, by the first look that
    sees it. */
module Cancels {
  import opened Options
  import opened Target
  import opened Decode
  import opened SuffixIndex
  import opened Caches
  import opened Account
  import opened Driven
  import opened Continue
  import opened Resident
  import opened Generation

  /** All the windows of a turn on the caches `c`, had nobody cancelled it. */
  ghost predicate Undisturbed(j: Job, c: Core, whole: seq<Window>) {
    Heeded(j, c, whole) && Finished(j.p, j.prompt, whole)
  }

  /** Windows that the caches really make, each with its directive. */
  ghost predicate Heeded(j: Job, c: Core, trace: seq<Window>) {
    && Possible(j.p, j.prompt, trace) && Real(j.net, j.p, j.prompt, c, trace, j.index)
    && Heard(j.p, j.prompt, trace)
  }

  lemma {:induction false} HeededPrefix(j: Job, c: Core, trace: seq<Window>, n: nat)
    requires Heeded(j, c, trace) && n <= |trace|
    ensures Heeded(j, c, trace[..n])
    decreases |trace|
  {
    if n < |trace| {
      HeededInit(j, c, trace);
      HeededPrefix(j, c, Init(trace), n);
      PrefixOfInit(trace, n);
    } else {
      Whole(trace);
    }
  }

  lemma HeededInit(j: Job, c: Core, trace: seq<Window>)
    requires Heeded(j, c, trace) && trace != []
    ensures Heeded(j, c, Init(trace))
  {
  }

  lemma PrefixOfInit(trace: seq<Window>, n: nat)
    requires n < |trace|
    ensures Init(trace)[..n] == trace[..n]
  {
  }

  /** Window `n` of such a trace. */
  lemma HeededAt(j: Job, c: Core, trace: seq<Window>, n: nat)
    requires Heeded(j, c, trace) && n < |trace|
    ensures Heeded(j, c, trace[..n]) && Heeded(j, c, trace[..n + 1])
    ensures var g := SpotOf(j.p, j.prompt, trace[..n]);
            && Made(j.net, j.p, g, CoreOf(j.net, j.p, j.prompt, c, trace[..n]), trace[n], j.index)
            && trace[n].d == Answer(j.p, g.s, g.w, trace[n].kept.tokens)
  {
    HeededPrefix(j, c, trace, n + 1);
    HeededPrefix(j, c, trace, n);
    assert trace[..n + 1][..n] == trace[..n] && trace[..n + 1][n] == trace[n];
  }

  /** There is one such trace of each length. */
  lemma {:induction false} HeededSame(j: Job, c: Core, a: seq<Window>, b: seq<Window>, n: nat)
    requires Heeded(j, c, a) && Heeded(j, c, b) && n <= |a| && n <= |b|
    ensures a[..n] == b[..n]
    decreases n
  {
    if n > 0 {
      HeededSame(j, c, a, b, n - 1);
      SameNext(j, c, a, b, n - 1);
      SameLonger(a, b, n - 1);
    }
  }

  lemma SameNext(j: Job, c: Core, a: seq<Window>, b: seq<Window>, n: nat)
    requires Heeded(j, c, a) && Heeded(j, c, b) && n < |a| && n < |b| && a[..n] == b[..n]
    ensures a[n] == b[n]
  {
    var before := a[..n];
    Follows(j, c, a, before, n);
    Follows(j, c, b, before, n);
    var g, at := SpotOf(j.p, j.prompt, before), CoreOf(j.net, j.p, j.prompt, c, before);
    MadeSame(j.net, j.p, g, at, a[n], b[n], j.index);
  }

  lemma Follows(j: Job, c: Core, trace: seq<Window>, before: seq<Window>, n: nat)
    requires Heeded(j, c, trace) && n < |trace| && before == trace[..n]
    ensures Heeded(j, c, before)
    ensures var g := SpotOf(j.p, j.prompt, before);
            && Made(j.net, j.p, g, CoreOf(j.net, j.p, j.prompt, c, before), trace[n], j.index)
            && trace[n].d == Answer(j.p, g.s, g.w, trace[n].kept.tokens)
  {
    HeededAt(j, c, trace, n);
  }

  lemma SameLonger(a: seq<Window>, b: seq<Window>, n: nat)
    requires n < |a| && n < |b| && a[..n] == b[..n] && a[n] == b[n]
    ensures a[..n + 1] == b[..n + 1]
  {
    assert a[..n + 1] == a[..n] + [a[n]] && b[..n + 1] == b[..n] + [b[n]];
  }

  /** Nothing follows the end of a turn. */
  lemma NothingFollows(j: Job, c: Core, whole: seq<Window>, trace: seq<Window>)
    requires Undisturbed(j, c, whole) && Heeded(j, c, trace)
    ensures |trace| <= |whole|
  {
    if |trace| > |whole| {
      HeededSame(j, c, whole, trace, |whole|);
      Whole(whole);
      HeededAt(j, c, trace, |whole|);
    }
  }

  lemma Whole(trace: seq<Window>)
    ensures trace[..|trace|] == trace
  {
  }

  /** Any such trace can be carried on to the end of its turn. */
  lemma {:induction false} CarriesOn(j: Job, c: Core, trace: seq<Window>) returns (whole: seq<Window>)
    requires Heeded(j, c, trace) && c.carry.Some? && |c.m.kv| == |c.rows| == |j.prompt| - 1 && j.p.maxNew >= 1
    ensures Undisturbed(j, c, whole)
    decreases Rank(j.p, SpotOf(j.p, j.prompt, trace))
  {
    var g, at := SpotOf(j.p, j.prompt, trace), CoreOf(j.net, j.p, j.prompt, c, trace);
    if g.over || |g.s.produced| >= j.p.maxNew {
      whole := trace;
    } else {
      CoreReady(j.net, j.p, j.prompt, c, trace);
      CoreCounts(j.net, j.p, j.prompt, c, trace, j.index);
      var x := NextWindow(j, g, at);
      OnwardSize(j.net, j.p, g, at, x, |at.rows|, false);
      RealSnoc(j.net, j.p, j.prompt, c, trace, x, j.index);
      whole := CarriesOn(j, c, trace + [x]);
    }
  }

  /** The window that the caches make next. */
  lemma NextWindow(j: Job, g: Spot, at: Core) returns (x: Window)
    requires g.s.spoken != [] && at.carry.Some? && !g.over && |g.s.produced| < j.p.maxNew
    ensures Made(j.net, j.p, g, at, x, j.index) && x.d == Answer(j.p, g.s, g.w, x.kept.tokens)
  {
    var held := Last(g.s.spoken);
    var drafted := Drafted(j.net, j.index, at, Init(g.s.spoken), held, j.p.k);
    var kept := Chosen(j.net, at, held, drafted, j.p.maxNew - |g.s.produced|, j.p.stops);
    x := Window(drafted, kept, Answer(j.p, g.s, g.w, kept.tokens));
  }

  /** What look number `i` leaves of the windows: whole ones, or one more without its directive. */
  function CutAt(whole: seq<Window>, i: nat): seq<Window>
    requires i <= 2 * |whole|
  {
    if i % 2 == 0 then whole[..i / 2] else whole[..i / 2] + [whole[i / 2].(d := Nothing)]
  }

  /** Look number `i` is the first to see a cancel. */
  ghost predicate FirstSet(cancel: nat -> bool, i: nat) {
    cancel(i) && Unset(cancel, i)
  }

  lemma CutEven(whole: seq<Window>, n: nat)
    requires n <= |whole|
    ensures CutAt(whole, 2 * n) == whole[..n]
  {
  }

  lemma CutOdd(whole: seq<Window>, n: nat)
    requires n < |whole|
    ensures CutAt(whole, 2 * n + 1) == whole[..n] + [whole[n].(d := Nothing)]
  {
  }

  lemma CutBetween(j: Job, c: Core, trace: seq<Window>, whole: seq<Window>, n: nat) returns (at: nat)
    requires Undisturbed(j, c, whole) && Possible(j.p, j.prompt, trace) && |trace| == n
    requires Real(j.net, j.p, j.prompt, c, trace, j.index) && StoppedBetween(j, trace, n)
    ensures at <= 2 * |whole| && FirstSet(j.cancel, at) && trace == CutAt(whole, at)
  {
    at := 2 * n;
    NothingFollows(j, c, whole, trace);
    HeededSame(j, c, trace, whole, n);
    Whole(trace);
    CutEven(whole, n);
  }

  lemma CutInside(j: Job, c: Core, trace: seq<Window>, whole: seq<Window>, n: nat) returns (at: nat)
    requires Undisturbed(j, c, whole) && Possible(j.p, j.prompt, trace) && |trace| == n + 1
    requires Real(j.net, j.p, j.prompt, c, trace, j.index) && StoppedInside(j, trace, n)
    ensures at <= 2 * |whole| && FirstSet(j.cancel, at) && trace == CutAt(whole, at)
  {
    InsideIs(j, c, trace, whole, n);
    at := InsideAt(j.cancel, trace, whole, n);
  }

  lemma InsideIs(j: Job, c: Core, trace: seq<Window>, whole: seq<Window>, n: nat)
    requires Undisturbed(j, c, whole) && Possible(j.p, j.prompt, trace) && |trace| == n + 1
    requires Real(j.net, j.p, j.prompt, c, trace, j.index) && StoppedInside(j, trace, n)
    ensures |trace| == n + 1 <= |whole| && trace[..n] == whole[..n] && Last(trace) == whole[n].(d := Nothing)
    ensures FirstSet(j.cancel, 2 * n + 1)
  {
    InitSame(j, c, trace, whole, n);
    LastMade(j, c, trace, trace[..n]);
    NextIs(j, c, trace[..n], Last(trace), whole, n);
  }

  lemma InsideAt(cancel: nat -> bool, trace: seq<Window>, whole: seq<Window>, n: nat) returns (at: nat)
    requires |trace| == n + 1 <= |whole| && trace[..n] == whole[..n] && Last(trace) == whole[n].(d := Nothing)
    requires FirstSet(cancel, 2 * n + 1)
    ensures at <= 2 * |whole| && FirstSet(cancel, at) && trace == CutAt(whole, at)
  {
    at := 2 * n + 1;
    JoinCut(trace, whole, n);
  }

  lemma JoinCut(trace: seq<Window>, whole: seq<Window>, n: nat)
    requires |trace| == n + 1 <= |whole| && trace[..n] == whole[..n] && Last(trace) == whole[n].(d := Nothing)
    ensures trace == CutAt(whole, 2 * n + 1)
  {
    CutOdd(whole, n);
    assert trace == trace[..n] + [Last(trace)];
  }

  lemma InitSame(j: Job, c: Core, trace: seq<Window>, whole: seq<Window>, n: nat)
    requires Undisturbed(j, c, whole) && Possible(j.p, j.prompt, trace) && |trace| == n + 1
    requires Real(j.net, j.p, j.prompt, c, trace, j.index) && Heard(j.p, j.prompt, Init(trace))
    ensures n < |whole| && trace[..n] == whole[..n]
  {
    var before := Init(trace);
    NothingFollows(j, c, whole, before);
    HeededSame(j, c, before, whole, n);
    Whole(before);
    if n == |whole| {
      Whole(whole);
    }
  }

  lemma NextIs(j: Job, c: Core, before: seq<Window>, x: Window, whole: seq<Window>, n: nat)
    requires Heeded(j, c, whole) && n < |whole| && before == whole[..n] && x.d == Nothing
    requires Possible(j.p, j.prompt, before)
    requires Made(j.net, j.p, SpotOf(j.p, j.prompt, before), CoreOf(j.net, j.p, j.prompt, c, before), x, j.index)
    ensures x == whole[n].(d := Nothing)
  {
    Follows(j, c, whole, before, n);
    var g, at := SpotOf(j.p, j.prompt, before), CoreOf(j.net, j.p, j.prompt, c, before);
    MadeSame(j.net, j.p, g, at, x, whole[n], j.index);
  }

  /** Caches make one window. */
  lemma MadeSame(net: Net, p: Plan, g: Spot, c: Core, x: Window, y: Window, index: Option<Index>)
    requires g.s.spoken != [] && Made(net, p, g, c, x, index) && Made(net, p, g, c, y, index)
    ensures x.drafted == y.drafted && x.kept == y.kept
  {
  }

  lemma LastMade(j: Job, c: Core, trace: seq<Window>, before: seq<Window>)
    requires Possible(j.p, j.prompt, trace) && Real(j.net, j.p, j.prompt, c, trace, j.index)
    requires trace != [] && before == trace[..|trace| - 1]
    ensures Possible(j.p, j.prompt, before)
    ensures var g, at := SpotOf(j.p, j.prompt, before), CoreOf(j.net, j.p, j.prompt, c, before);
            Made(j.net, j.p, g, at, Last(trace), j.index)
  {
  }

  /** Where a turn ends, for every cancel: the looks of its own undisturbed windows decide,
      and the first one that sees the cancel leaves just the windows before it. */
  lemma RanExactly(j: Job, c: Core, r: Ended, trace: seq<Window>, now: Core, whole: seq<Window>)
    requires Ran(j, c, r, trace, now) && Undisturbed(j, c, whole)
    ensures r.Done? <==> Unset(j.cancel, 2 * |whole| + 1)
    ensures r.Done? ==> trace == whole
    ensures forall i :: 0 <= i <= 2 * |whole| && FirstSet(j.cancel, i) ==> r.Cancelled? && trace == CutAt(whole, i)
  {
    if r.Done? {
      NothingFollows(j, c, whole, trace);
      NothingFollows(j, c, trace, whole);
      HeededSame(j, c, trace, whole, |trace|);
      Whole(trace);
      Whole(whole);
    } else {
      var at := StoppedAt(j, c, trace, whole);
      forall i | 0 <= i <= 2 * |whole| && FirstSet(j.cancel, i)
        ensures i == at
      {
        OneFirst(j.cancel, i, at);
      }
    }
  }

  lemma OneFirst(cancel: nat -> bool, i: nat, k: nat)
    requires FirstSet(cancel, i) && FirstSet(cancel, k)
    ensures i == k
  {
  }

  lemma StoppedAt(j: Job, c: Core, trace: seq<Window>, whole: seq<Window>) returns (at: nat)
    requires Undisturbed(j, c, whole) && Possible(j.p, j.prompt, trace) && Interrupted(j, trace)
    requires Real(j.net, j.p, j.prompt, c, trace, j.index)
    ensures at <= 2 * |whole| && FirstSet(j.cancel, at) && trace == CutAt(whole, at)
  {
    if StoppedBetween(j, trace, |trace|) {
      at := CutBetween(j, c, trace, whole, |trace|);
    } else {
      at := CutInside(j, c, trace, whole, |trace| - 1);
    }
  }

  /** A call on a prompt with an id to hold: it is aborted exactly when a look of the turn it
      would have been sees a cancel, with the ids of the windows before that look; else it is
      that turn. */
  lemma AbortsExactly(j: Job, before: State, run: Run, r: Outcome, after: State) returns (whole: seq<Window>)
    requires Generated(j, before, run, r, after) && Holds(j.prompt, before.v)
    ensures Undisturbed(j, Filled(j, run.c), whole)
    ensures r.Aborted? <==> !Unset(j.cancel, 2 * |whole| + 1)
    ensures !r.Aborted? ==> run.trace == whole
    ensures forall i :: 0 <= i <= 2 * |whole| && FirstSet(j.cancel, i) ==>
              run.trace == CutAt(whole, i) && Possible(j.p, j.prompt, run.trace)
              && r == Aborted(SpotOf(j.p, j.prompt, run.trace).s.produced)
  {
    MarksGrow(j, before, run, r, after);
    GeneratedCompletes(j, before, run, r, after);
    FilledSize(j, run.c);
    whole := CarriesOn(j, Filled(j, run.c), []);
    RanExactly(j, Filled(j, run.c), run.ended, run.trace, run.now, whole);
  }
}
