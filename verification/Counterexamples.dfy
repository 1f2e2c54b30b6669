/** Runs of a session that go wrong: two that answer from something false, one that leaves a
    state behind, and two that fail where a cold session would answer.

    Each is a sequence of real calls on a new session, for every prompt of a family. */
module Counterexamples {
  import opened Options
  import opened Target
  import opened Runner
  import opened Decode
  import opened Marks
  import opened Restart
  import opened Schedule
  import opened Caches
  import opened Account
  import opened Driven
  import opened Continue
  import opened Resident
  import opened Generation
  import opened Session
  import opened Answers
  import GdnWindow
  import Mtp

  /** One token, no stop ids, and a callback that never speaks. */
  function OneToken(k: nat): Plan {
    Plan(k, 1, {}, Listener((w: nat, produced: seq<Token>) => Nothing, 0))
  }

  function Never(): nat -> bool { i => false }

  function AtOnce(): nat -> bool { i => true }

  /** A prompt below the chunk kernel's floor has no long span. */
  lemma ShortIsSafe(j: Job, run: Run)
    requires |j.prompt| <= GdnWindow.CHUNK_KERNEL && Silent(j.p.listen) && Possible(j.p, j.prompt, run.trace)
    ensures Safe(j, run.c, run.trace) && !HasLong(Suffix(j, |run.c.rows|))
  {
    var spans, start := Suffix(j, |run.c.rows|), |run.c.rows|;
    if spans != [] {
      Inside(spans, start, |j.prompt| - 1);
      CarriedIs(run.c.ready, spans, start, |j.prompt| - 1);
    }
    SilentInjects(j.p.listen, GdnWindow.CHUNK_KERNEL - 1);
    InjectsGently(j.p, j.prompt, run.trace);
  }

  /** A finished silent turn of one token says one token. */
  lemma SaysOne(p: Plan, prompt: seq<Token>, trace: seq<Window>)
    requires Finished(p, prompt, trace) && Silent(p.listen) && p.maxNew == 1
    ensures |SpotOf(p, prompt, trace).s.produced| == 1
  {
    TraceBalances(p, prompt, trace);
    NeverDiverges(p, prompt, trace);
    assert InjectsAtMost(p.listen, 0);
  }

  /** What the resident tape starts with is resumed from where it ends. */
  lemma OpenOnTape(net: Net, st: State, ids: seq<Token>)
    requires Proper(net, st) && st.v.side.Side? && st.v.committed == |st.v.tape|
    requires |st.v.tape| <= |ids| && st.v.tape == ids[..|st.v.tape|]
    ensures Opened(net, st, ids) == st.(source := OnTape)
  {
    assert st.v.tape[..|st.v.tape|] == st.v.tape;
    CommonIs(st.v.tape, ids, |st.v.tape|);
  }

  /** A completed silent turn of one token makes its prompt the tape. */
  lemma CommitsPrompt(j: Job, before: State, run: Run, r: Outcome, after: State)
    requires Generated(j, before, run, r, after) && r.Completed? && Silent(j.p.listen) && j.p.maxNew == 1
    ensures Proper(j.net, after) && after.v.tape == j.prompt && after.v.committed == |j.prompt| && after.v.side.Side?
  {
    AnswerIs(j, before, run, r, after);
    CommittedProper(j, before, run, r, after);
    SaysOne(j.p, j.prompt, run.trace);
  }

  // --- The restart ---

  /** A call that sets out from nothing with a short prompt. */
  ghost predicate FirstCall(j: Job, run: Run, r: Outcome, after: State) {
    && Generated(j, Zeroed(j.net), run, r, after) && Quiet(j.cancel) && j.cuts == []
    && 2 <= |j.prompt| <= GdnWindow.CHUNK_KERNEL && Silent(j.p.listen) && j.p.maxNew == 1
  }

  lemma FirstCompletes(j: Job, run: Run, r: Outcome, after: State)
    requires FirstCall(j, run, r, after)
    ensures r.Completed?
  {
    GeneratedCompletes(j, Zeroed(j.net), run, r, after);
  }

  /** It completes, honestly. */
  lemma FirstIsHonest(j: Job, run: Run, r: Outcome, after: State)
    requires FirstCall(j, run, r, after)
    ensures r.Completed? && Honest(j.net, after) && Clean(after) && Proper(j.net, after)
    ensures after.v.tape == j.prompt && after.v.committed == |j.prompt| && after.v.side.Side?
  {
    ZeroedIsHonest(j.net);
    FirstCompletes(j, run, r, after);
    CommitsPrompt(j, Zeroed(j.net), run, r, after);
    ShortIsSafe(j, run);
    GeneratedIsHonest(j, Zeroed(j.net), run, r, after);
  }

  lemma OpenFresh(net: Net, ids: seq<Token>)
    ensures Opened(net, Zeroed(net), ids) == Zeroed(net).(v := Fresh(net).(side := NoRowsYet))
  {
  }

  /** It leaves the layer as it was: not ready.  And it makes one mark at most. */
  lemma FirstIsCold(j: Job, run: Run, r: Outcome, after: State)
    requires FirstCall(j, run, r, after)
    ensures !after.v.ready && (j.limit > 0 && j.device ==> |after.tale| <= 1)
  {
    FirstCompletes(j, run, r, after);
    OpenFresh(j.net, j.prompt);
    StaysCold(j, OpenOf(j, Zeroed(j.net)), run);
    if j.limit > 0 && j.device {
      OneMark(j, OpenOf(j, Zeroed(j.net)), run);
    }
  }

  lemma StaysCold(j: Job, open: State, run: Run)
    requires Took(j, open, run) && run.ended.Done? && !open.v.ready && Silent(j.p.listen)
    requires |j.prompt| <= GdnWindow.CHUNK_KERNEL
    ensures !run.now.ready
  {
    ShortIsSafe(j, run);
    FedAllReady(j.net, run.c, j.prompt, Suffix(j, |run.c.rows|));
    SilentInjects(j.p.listen, GdnWindow.CHUNK_KERNEL - 1);
    InjectsGently(j.p, j.prompt, run.trace);
    CoreColdReady(j.net, j.p, j.prompt, Filled(j, run.c), run.trace);
  }

  lemma OneMark(j: Job, open: State, run: Run)
    requires Took(j, open, run) && open.tale == map[] && j.limit > 0 && j.device && 2 <= |j.prompt| <= 256
    requires j.cuts == []
    requires open.v.tape == [] && open.v.side == NoRowsYet
    ensures |run.told| <= 1
  {
    OneSpan(0, |j.prompt|);
    MarkedAlongGrew(j.net, run.c, j.prompt, Suffix(j, 0), 0, |j.prompt| - 1, j.limit, j.device, open.tale, run.told);
  }

  /** What a completed silent turn leaves: an honest session whose tape is all committed. */
  ghost predicate AllCommitted(net: Net, st: State, tape: seq<Token>) {
    && Proper(net, st) && Honest(net, st) && st.v.tape == tape && st.v.committed == |tape| && st.v.side.Side?
  }

  /** Ask for one token. */
  method AskForOne(s: Session, k: nat, ids: seq<Token>, cancel: nat -> bool, ghost before: State)
    returns (r: Outcome, ghost j: Job, ghost run: Run, ghost after: State)
    requires s.Valid() && !s.busy && s.State() == before && Proper(s.runner.net, before)
    requires 1 <= k <= Mtp.MOST_DRAFTS && |ids| <= s.context
    modifies s, s.runner, s.runner.gdn, s.runner.gdn.stash, s.cycle, s.Block(), s.spare, s.table
    ensures s.Valid() && !s.busy && s.State() == after && Generated(j, before, run, r, after)
    ensures (j.net, j.p, j.prompt, j.cuts) == (s.runner.net, OneToken(k), ids, [])
    ensures (j.limit, j.device, j.cancel) == (s.table.limit, s.runner.device, cancel)
    ensures s.Keeps()
  {
    j := JobOf(s.runner, s.table, ids, OneToken(k), cancel, [], None);
    r, run := s.Generate(ids, OneToken(k), cancel, [], None);
    after := s.State();
  }

  /** The first call of a run. */
  method First(s: Session, k: nat, a: seq<Token>) returns (ghost st: State)
    requires s.Valid() && !s.busy && s.State() == Zeroed(s.runner.net)
    requires 1 <= k <= Mtp.MOST_DRAFTS && 2 <= |a| <= GdnWindow.CHUNK_KERNEL && |a| <= s.context
    modifies s, s.runner, s.runner.gdn, s.runner.gdn.stash, s.cycle, s.Block(), s.spare, s.table
    ensures s.Valid() && !s.busy && s.State() == st && AllCommitted(s.runner.net, st, a)
    ensures Clean(st) && !st.v.ready && (s.table.limit > 0 && s.runner.device ==> |st.tale| <= 1)
    ensures s.Keeps()
  {
    var r;
    ghost var j, run;
    r, j, run, st := AskForOne(s, k, a, Never(), s.State());
    FirstIsHonest(j, run, r, st);
    FirstIsCold(j, run, r, st);
  }

  /** A longer prompt whose suffix takes the chunk kernel while the layer is not ready: the
      turn completes, and what it commits is not what a cold run of its tape leaves. */
  lemma LongSecond(j: Job, before: State, run: Run, r: Outcome, after: State, w: Signs)
    requires Distinct(w) && j.net == Teller(w)
    requires Generated(j, before, run, r, after) && Quiet(j.cancel) && j.cuts == []
    requires Silent(j.p.listen) && j.p.maxNew == 1
    requires AllCommitted(j.net, before, before.v.tape) && before.v.tape != [] && !before.v.ready
    requires before.v.tape <= j.prompt && |before.v.tape| + GdnWindow.CHUNK_KERNEL < |j.prompt| <= 256
    ensures r.Completed? && !Truth(j.net, after.v)
    ensures |r.tokens| == 1 && r.tokens[0] != Next(j.net, j.prompt)
  {
    GeneratedCompletes(j, before, run, r, after);
    LongSuffix(j, before);
    AnswerIs(j, before, run, r, after);
    SaysOne(j.p, j.prompt, run.trace);
    SecondForgets(j, before, run, r, after, w);
  }

  lemma LongSuffix(j: Job, before: State)
    requires j.cuts == [] && AllCommitted(j.net, before, before.v.tape) && before.v.tape != [] && !before.v.ready
    requires before.v.tape <= j.prompt && |before.v.tape| + GdnWindow.CHUNK_KERNEL < |j.prompt| <= 256
    ensures !Resumes(j, before) && Holds(j.prompt, before.v)
  {
    var n := |before.v.tape|;
    assert j.prompt[..n] == before.v.tape == before.v.tape[..n];
    OpenOnTape(j.net, before, j.prompt);
    OneSpan(n, |j.prompt|);
    var spans := Suffix(j, n);
    assert Long(spans[0]);
    CarriedIs(false, spans, n, |j.prompt| - 1);
  }

  lemma SecondForgets(j: Job, before: State, run: Run, r: Outcome, after: State, w: Signs)
    requires Distinct(w) && j.net == Teller(w)
    requires Generated(j, before, run, r, after) && r.Completed? && Silent(j.p.listen) && Honest(j.net, before)
    requires !Resumes(j, before)
    ensures |j.prompt| >= 2 && r.tokens != [] && r.tokens[0] != Next(j.net, j.prompt) && !Truth(j.net, after.v)
  {
    ForgottenFirst(j, before, run, r, after, w);
    TellerRemembers(w, j.prompt);
    MarksGrow(j, before, run, r, after);
    GeneratedIsExact(j, before, run, r, after, Telling(w), w.b, w.x0, w.x1);
  }

  /** The second call, whose suffix restarts. */
  method Second(s: Session, k: nat, c: seq<Token>, ghost before: State, ghost w: Signs) returns (r: Outcome)
    requires s.Valid() && !s.busy && s.State() == before && AllCommitted(s.runner.net, before, before.v.tape)
    requires Distinct(w) && s.runner.net == Teller(w) && !before.v.ready && before.v.tape != []
    requires before.v.tape <= c && |before.v.tape| + GdnWindow.CHUNK_KERNEL < |c| <= 256 && |c| <= s.context
    requires 1 <= k <= Mtp.MOST_DRAFTS
    modifies s, s.runner, s.runner.gdn, s.runner.gdn.stash, s.cycle, s.Block(), s.spare, s.table
    ensures s.Valid() && r.Completed? && !Truth(s.runner.net, s.Look())
    ensures |r.tokens| == 1 && r.tokens[0] != Next(s.runner.net, c)
  {
    ghost var j, run, after;
    r, j, run, after := AskForOne(s, k, c, Never(), before);
    LongSecond(j, before, run, r, after, w);
  }

  /** The restart, in two calls on a new session: a short prompt, then a longer one that
      extends it.  The second answers from a state that has forgotten the first, and not as
      a session that was asked it first would. */
  method LosesPast(
    runner: Runner, context: nat, capacity: nat, k: nat, a: seq<Token>, c: seq<Token>, ghost w: Signs)
    returns (s: Session, r: Outcome)
    requires runner.Valid() && runner.gdn.g == runner.net.zero && !runner.gdn.ready
    requires Distinct(w) && runner.net == Teller(w)
    requires 2 <= |a| <= GdnWindow.CHUNK_KERNEL && a <= c && |a| + GdnWindow.CHUNK_KERNEL < |c| <= 256 && |c| <= context
    requires 1 <= k <= Mtp.MOST_DRAFTS
    modifies runner, runner.gdn, runner.gdn.stash
    ensures s.Valid() && s.runner == runner && r.Completed? && !Truth(runner.net, s.Look())
    ensures |r.tokens| == 1 && r.tokens[0] != Next(runner.net, c)
  {
    s := new Session(runner, context, capacity, 0);
    ghost var st := First(s, k, a);
    r := Second(s, k, c, st, w);
  }

  // --- A new session ---

  /** What a new session answers when it is asked for one token. */
  method AskFresh(runner: Runner, context: nat, capacity: nat, limit: nat, k: nat, ids: seq<Token>)
    returns (r: Outcome)
    requires runner.Valid() && runner.gdn.g == runner.net.zero && !runner.gdn.ready
    requires 1 <= k <= Mtp.MOST_DRAFTS && 2 <= |ids| <= context
    modifies runner, runner.gdn, runner.gdn.stash
    ensures r.Completed? && r.tokens == [Next(runner.net, ids)]
  {
    var s := new Session(runner, context, capacity, limit);
    ghost var j, run, after;
    r, j, run, after := AskForOne(s, k, ids, Never(), s.State());
    FreshIsGreedy(j, run, r, after);
    OneGreedy(j);
  }

  lemma OneGreedy(j: Job)
    requires j.p.maxNew == 1 && j.prompt != []
    ensures Plainly(j) == [Next(j.net, j.prompt)]
  {
  }

  /** The restart beside a new session: one runner is asked for `a` and then `c`, the other
      for `c` at once, and they answer differently. */
  method RestartDiffers(
    runner: Runner, other: Runner, context: nat, capacity: nat, k: nat, a: seq<Token>, c: seq<Token>,
    ghost w: Signs)
    returns (resident: Outcome, cold: Outcome)
    requires runner.Valid() && runner.gdn.g == runner.net.zero && !runner.gdn.ready
    requires other.Valid() && other.gdn.g == other.net.zero && !other.gdn.ready && other.net == runner.net
    requires {runner, runner.gdn, runner.gdn.stash} !! {other, other.gdn, other.gdn.stash}
    requires Distinct(w) && runner.net == Teller(w)
    requires 2 <= |a| <= GdnWindow.CHUNK_KERNEL && a <= c && |a| + GdnWindow.CHUNK_KERNEL < |c| <= 256 && |c| <= context
    requires 1 <= k <= Mtp.MOST_DRAFTS
    modifies runner, runner.gdn, runner.gdn.stash, other, other.gdn, other.gdn.stash
    ensures resident.Completed? && cold.Completed? && resident.tokens != cold.tokens
  {
    cold := AskFresh(other, context, capacity, 0, k, c);
    var s;
    s, resident := LosesPast(runner, context, capacity, k, a, c, w);
  }

  // --- The stale mark ---

  /** A prompt that extends a committed tape within one short span. */
  ghost predicate Extends(j: Job, before: State) {
    && AllCommitted(j.net, before, before.v.tape) && before.v.tape != [] && before.v.tape <= j.prompt
    && |before.v.tape| + 1 < |j.prompt| <= GdnWindow.CHUNK_KERNEL && j.cuts == [] && Silent(j.p.listen)
       && j.p.maxNew == 1
  }

  lemma OneShortSpan(j: Job, ready: bool, n: nat)
    requires n + 1 < |j.prompt| <= GdnWindow.CHUNK_KERNEL && j.cuts == []
    ensures |Suffix(j, n)| == 1 && Carried(ready, Suffix(j, n))
  {
    OneSpan(n, |j.prompt|);
    ShortCarries(ready, n, |j.prompt| - 1);
  }

  lemma ShortCarries(ready: bool, n: nat, end: nat)
    requires n < end < n + GdnWindow.CHUNK_KERNEL
    ensures Carried(ready, [(n, end)])
  {
    var spans := [(n, end)];
    assert spans[1..] == [] && !Long(spans[0]);
  }

  lemma ExtendsOpen(j: Job, before: State)
    requires Extends(j, before)
    ensures Opened(j.net, before, j.prompt) == before.(source := OnTape)
  {
    assert j.prompt[..|before.v.tape|] == before.v.tape;
    OpenOnTape(j.net, before, j.prompt);
  }

  /** Such a call opens on the tape, and its prefill is one span. */
  lemma ExtendsFrom(j: Job, before: State, run: Run, r: Outcome, after: State)
    requires Generated(j, before, run, r, after) && Extends(j, before)
    ensures OpenOf(j, before) == before.(source := OnTape) && |run.c.rows| == |before.v.tape|
    ensures |Suffix(j, |run.c.rows|)| == 1 && |run.c.rows| + 1 < |j.prompt|
    ensures Rooted(j, run.c) && Carried(run.c.ready, Suffix(j, |run.c.rows|))
  {
    ExtendsOpen(j, before);
    OpenRoots(j, before, run, r, after);
    OneShortSpan(j, run.c.ready, |before.v.tape|);
  }

  /** The tape is `a`, and the mark at the last cut of `x` holds the state of `x`. */
  ghost predicate Plants(net: Net, st: State, a: seq<Token>, x: seq<Token>, q: nat) {
    AllCommitted(net, st, a) && |x| == q + 1 && q in st.tale && st.tale[q].g == At(net, Init(x)).g
  }

  /** Cancelled at once, it leaves its commit as it was. */
  lemma LeftAlone(j: Job, before: State, run: Run, r: Outcome, after: State)
    requires Generated(j, before, run, r, after) && Extends(j, before) && j.cancel(0)
    ensures !r.Completed? && AllCommitted(j.net, after, before.v.tape) && after.tale == run.told
  {
    ExtendsOpen(j, before);
    GeneratedProper(j, before, run, r, after);
    GeneratedReturns(j, before, run, r, after);
    AbandonedIsHonest(j, before, run, r, after);
  }

  /** And a mark above it, with the state of its prompt. */
  lemma LeavesMark(j: Job, before: State, run: Run, r: Outcome, after: State, q: nat)
    requires Generated(j, before, run, r, after) && Extends(j, before) && Clean(before)
    requires j.device && |before.tale| + 1 <= j.limit && |j.prompt| == q + 1
    ensures q in run.told && run.told[q].g == At(j.net, Init(j.prompt)).g
  {
    ExtendsFrom(j, before, run, r, after);
    ToldBy(j, OpenOf(j, before), run, q);
  }

  lemma ToldBy(j: Job, open: State, run: Run, q: nat)
    requires Took(j, open, run) && Rooted(j, run.c) && Carried(run.c.ready, Suffix(j, |run.c.rows|))
    requires |run.c.rows| + 1 < |j.prompt| == q + 1 && |Suffix(j, |run.c.rows|)| == 1
    requires j.device && |open.tale| + 1 <= j.limit && forall p :: p in open.tale ==> p <= |run.c.rows|
    ensures q in run.told && run.told[q].g == At(j.net, Init(j.prompt)).g
  {
    var n, spans := |run.c.rows|, Suffix(j, |run.c.rows|);
    assert NewTell(j.net, j.prompt, open.tale, run.told) by {
      DroveTells(j, run.c, open.tale, run.ended, run.trace, run.told, run.now);
    }
    assert Roomy(open.tale, run.told, spans, j.limit, true) by {
      MarkedAlongGrew(j.net, run.c, j.prompt, spans, n, q, j.limit, j.device, open.tale, run.told);
    }
    MarksCut(j.net, j.prompt, n, q, spans, j.limit, open.tale, run.told);
  }

  lemma MarksCut(
    net: Net, prompt: seq<Token>, n: nat, q: nat, spans: seq<Span>, limit: nat, tale: map<nat, Saved>,
    told: map<nat, Saved>)
    requires n < q && |prompt| == q + 1 && |spans| == 1 && Partition(spans, n, q)
    requires Roomy(tale, told, spans, limit, true) && |tale| + 1 <= limit && NewTell(net, prompt, tale, told)
    requires forall p :: p in tale ==> p <= n
    ensures q in told && told[q].g == At(net, Init(prompt)).g
  {
    assert spans[0].1 == q && !Old(tale, told, q);
  }

  /** Another prompt that reaches the same cut finds it marked, and keeps the entry. */
  lemma KeepsMark(j: Job, before: State, run: Run, r: Outcome, after: State, q: nat, g: Gdn)
    requires Generated(j, before, run, r, after) && Extends(j, before) && Quiet(j.cancel)
    requires |j.prompt| == q + 1 && q in before.tale && before.tale[q].g == g
    ensures r.Completed? && Proper(j.net, after) && Truth(j.net, after.v) && after.v.side.Side?
    ensures after.v.tape == j.prompt && after.v.committed == |j.prompt|
    ensures q in after.tale && after.tale[q].g == g
  {
    GeneratedCompletes(j, before, run, r, after);
    CommitsPrompt(j, before, run, r, after);
    ShortIsSafe(j, run);
    OracleOfServes(j.net, j.index, j.p.k);
    GeneratedIsTrue(j, OracleOf(j.net, j.index, j.p.k), before, run, r, after);
    ExtendsFrom(j, before, run, r, after);
    CutStays(j, run.c, q, before.tale, run.told);
  }

  lemma CutStays(j: Job, c: Core, q: nat, tale: map<nat, Saved>, told: map<nat, Saved>)
    requires |j.prompt| == q + 1 && |Suffix(j, |c.rows|)| == 1 && q in tale
    requires MarkedAlong(j.net, c, j.prompt, Suffix(j, |c.rows|), j.limit, j.device, tale, told)
    ensures told == tale
  {
    var spans := Suffix(j, |c.rows|);
    var t :| MarkedLast(j.net, c, j.prompt, spans, j.limit, j.device, tale, t, told, FedAll(j.net, c, j.prompt, spans));
    assert spans[..|spans| - 1] == [];
    assert MarkedAlong(j.net, c, j.prompt, [], j.limit, j.device, tale, t) && spans[0].1 == q;
  }

  /** A prompt that parts from the tape at the mark goes back to it. */
  lemma ReturnsToMark(net: Net, st: State, q: nat, d: seq<Token>)
    requires Proper(net, st) && st.v.side.Side? && st.v.committed == |st.v.tape| == q + 1 && 0 < q && q in st.tale
    requires |d| == q + 1 && Init(d) == Init(st.v.tape) && Last(d) != Last(st.v.tape)
    ensures Retained(net, st, d, |d| - 1) == Returned(st, q)
  {
    CommonIs(st.v.tape, d, q);
    assert IsLongest(st.tale, q, q);
  }

  /** A rewind for `d` leaves the start of `y` as the tape, with something else resident. */
  ghost predicate Misleads(net: Net, st: State, y: seq<Token>, d: seq<Token>) {
    Proper(net, st) && y != [] && d != []
    && var back := Retained(net, st, d, |d| - 1); back.v.tape == Init(y) && !Truth(net, back.v)
  }

  lemma StaleMisleads(net: Net, st: State, y: seq<Token>, d: seq<Token>, q: nat, g: Gdn)
    requires Proper(net, st) && Truth(net, st.v) && st.v.side.Side? && st.v.tape == y && st.v.committed == |y|
    requires |y| == |d| == q + 1 >= 2 && g != At(net, Init(y)).g && Init(d) == Init(y) && Last(d) != Last(y)
    requires q in st.tale && st.tale[q].g == g
    ensures Misleads(net, st, y, d)
  {
    ReturnsToMark(net, st, q, d);
    CutIsTrue(net, st.v, q, st.tale[q]);
  }

  /** The second call: `x` is abandoned before its first window. */
  method Abandon(s: Session, k: nat, x: seq<Token>, ghost q: nat, ghost before: State) returns (ghost after: State)
    requires s.Valid() && !s.busy && s.State() == before && AllCommitted(s.runner.net, before, before.v.tape)
    requires before.v.tape != [] && before.v.tape <= x && |before.v.tape| + 1 < |x| <= GdnWindow.CHUNK_KERNEL
    requires Clean(before) && s.runner.device && |before.tale| + 1 <= s.table.limit
    requires |x| == q + 1 && 1 <= k <= Mtp.MOST_DRAFTS && |x| <= s.context
    modifies s, s.runner, s.runner.gdn, s.runner.gdn.stash, s.cycle, s.Block(), s.spare, s.table
    ensures s.Valid() && !s.busy && s.State() == after && Plants(s.runner.net, after, before.v.tape, x, q)
    ensures s.Keeps()
  {
    var r;
    ghost var j, run;
    r, j, run, after := AskForOne(s, k, x, AtOnce(), before);
    LeftAlone(j, before, run, r, after);
    LeavesMark(j, before, run, r, after, q);
  }

  /** The third call: `y` completes, and the mark stays. */
  method Keep(
      s: Session, k: nat, y: seq<Token>, ghost q: nat, ghost g: Gdn, ghost before: State)
      returns (r: Outcome, ghost after: State)
    requires s.Valid() && !s.busy && s.State() == before && AllCommitted(s.runner.net, before, before.v.tape)
    requires before.v.tape != [] && before.v.tape <= y && |before.v.tape| + 1 < |y| <= GdnWindow.CHUNK_KERNEL
    requires |y| == q + 1 && q in before.tale && before.tale[q].g == g && 1 <= k <= Mtp.MOST_DRAFTS && |y| <= s.context
    modifies s, s.runner, s.runner.gdn, s.runner.gdn.stash, s.cycle, s.Block(), s.spare, s.table
    ensures s.Valid() && !s.busy && s.State() == after && r.Completed?
    ensures Proper(s.runner.net, after) && Truth(s.runner.net, after.v)
    ensures after.v.tape == y && after.v.committed == |y| && after.v.side.Side? && q in after.tale
    ensures after.tale[q].g == g
    ensures s.Keeps()
  {
    ghost var j, run;
    r, j, run, after := AskForOne(s, k, y, Never(), before);
    KeepsMark(j, before, run, r, after, q, g);
  }

  /** Three calls on a new session: `x`, abandoned, leaves a mark above the commit of `a`, and
      `y` reaches the same cut, where the entry stays. */
  method Mislead(s: Session, k: nat, a: seq<Token>, x: seq<Token>, y: seq<Token>, ghost q: nat)
    returns (ghost st: State)
    requires s.Valid() && !s.busy && s.State() == Zeroed(s.runner.net) && s.runner.device && s.table.limit >= 2
    requires 1 <= k <= Mtp.MOST_DRAFTS && a <= x && a <= y && |y| <= s.context
    requires 2 <= |a| && |a| + 1 < |x| == |y| == q + 1 <= GdnWindow.CHUNK_KERNEL
    modifies s, s.runner, s.runner.gdn, s.runner.gdn.stash, s.cycle, s.Block(), s.spare, s.table
    ensures s.Valid() && !s.busy && s.State() == st && Proper(s.runner.net, st) && Truth(s.runner.net, st.v)
    ensures st.v.tape == y && st.v.committed == |y| && st.v.side.Side?
    ensures q in st.tale && st.tale[q].g == At(s.runner.net, Init(x)).g
    ensures s.Keeps()
  {
    st := First(s, k, a);
    st := Abandon(s, k, x, q, st);
    var r;
    r, st := Keep(s, k, y, q, At(s.runner.net, Init(x)).g, st);
  }

  /** The stale mark, in three calls and a rewind: a prompt that parts from `y` at the mark is
      resumed on the state of `x`. */
  method ResumesStale(
    runner: Runner, context: nat, capacity: nat, limit: nat, k: nat,
    a: seq<Token>, x: seq<Token>, y: seq<Token>, d: seq<Token>)
    returns (s: Session)
    requires runner.Valid() && runner.gdn.g == runner.net.zero && !runner.gdn.ready && runner.device
    requires limit >= 2 && 1 <= k <= Mtp.MOST_DRAFTS && |y| <= context
    requires a <= x && a <= y && 2 <= |a| && |a| + 1 < |x| == |y| == |d| <= GdnWindow.CHUNK_KERNEL
    requires At(runner.net, Init(x)).g != At(runner.net, Init(y)).g
    requires Init(d) == Init(y) && Last(d) != Last(y)
    modifies runner, runner.gdn, runner.gdn.stash
    ensures s.Valid() && s.runner == runner && s.Look().tape == Init(y) && !Truth(runner.net, s.Look())
  {
    s := new Session(runner, context, capacity, limit);
    ghost var q := |x| - 1;
    ghost var st := Mislead(s, k, a, x, y, q);
    StaleMisleads(runner.net, st, y, d, q, At(runner.net, Init(x)).g);
    s.KeepPrefix(d, |d| - 1, st);
  }

  /** A call for that prompt answers from the stale state. */
  lemma StaleAnswers(j: Job, before: State, run: Run, r: Outcome, after: State, q: nat, g: Gdn)
    requires Generated(j, before, run, r, after) && Quiet(j.cancel) && Silent(j.p.listen) && j.p.maxNew == 1
    requires Truth(j.net, before.v) && before.v.side.Side? && before.v.committed == |before.v.tape|
    requires |before.v.tape| == |j.prompt| == q + 1 >= 2
    requires Init(j.prompt) == Init(before.v.tape) && Last(j.prompt) != Last(before.v.tape)
    requires q in before.tale && before.tale[q].g == g
    ensures r.Completed? && |r.tokens| == 1
    ensures r.tokens[0] == j.net.argmax(j.net.row(g, At(j.net, Init(j.prompt)).kv, Last(j.prompt)))
  {
    StaleCompletes(j, before, run, r, after);
    StaleToken(j, before, run, q, g);
  }

  lemma StaleToken(j: Job, before: State, run: Run, q: nat, g: Gdn)
    requires Proper(j.net, before) && Took(j, OpenOf(j, before), run) && run.ended.Done?
    requires Truth(j.net, before.v) && before.v.side.Side? && before.v.committed == |before.v.tape|
    requires |before.v.tape| == |j.prompt| == q + 1 >= 2 && Silent(j.p.listen) && j.p.maxNew == 1
    requires Init(j.prompt) == Init(before.v.tape) && Last(j.prompt) != Last(before.v.tape)
    requires q in before.tale && before.tale[q].g == g && Finished(j.p, j.prompt, run.trace)
    ensures var s := SpotOf(j.p, j.prompt, run.trace).s;
            && s.produced != []
            && s.produced[0] == j.net.argmax(j.net.row(g, At(j.net, Init(j.prompt)).kv, Last(j.prompt)))
  {
    StaleOpens(j, before, run, q, g);
    StaleFirst(j, run, g);
  }

  lemma StaleCompletes(j: Job, before: State, run: Run, r: Outcome, after: State)
    requires Generated(j, before, run, r, after) && Quiet(j.cancel) && Silent(j.p.listen) && j.p.maxNew == 1
    requires Holds(j.prompt, before.v)
    ensures r.Completed? && Answered(j.p, j.prompt, run.trace, r) && |r.tokens| == 1
  {
    GeneratedCompletes(j, before, run, r, after);
    AnswerIs(j, before, run, r, after);
    SaysOne(j.p, j.prompt, run.trace);
  }

  lemma StaleOpens(j: Job, before: State, run: Run, q: nat, g: Gdn)
    requires Proper(j.net, before) && Took(j, OpenOf(j, before), run)
    requires Truth(j.net, before.v) && before.v.side.Side? && before.v.committed == |before.v.tape|
    requires |before.v.tape| == |j.prompt| == q + 1 >= 2
    requires Init(j.prompt) == Init(before.v.tape) && Last(j.prompt) != Last(before.v.tape)
    requires q in before.tale && before.tale[q].g == g
    ensures |run.c.rows| == q && run.c.m == Mem(g, At(j.net, Init(j.prompt)).kv)
  {
    ReturnsToMark(j.net, before, q, j.prompt);
    RowsOfPrefix(j.net, before.v.tape, q);
    assert Init(before.v.tape) == before.v.tape[..q];
  }

  lemma StaleFirst(j: Job, run: Run, g: Gdn)
    requires |j.prompt| >= 2 && |run.c.rows| == |j.prompt| - 1 && j.p.maxNew > 0 && Silent(j.p.listen)
    requires run.c.m == Mem(g, At(j.net, Init(j.prompt)).kv) && Finished(j.p, j.prompt, run.trace)
    requires Real(j.net, j.p, j.prompt, Filled(j, run.c), run.trace, j.index)
    ensures var s := SpotOf(j.p, j.prompt, run.trace).s;
            && s.produced != []
            && s.produced[0] == j.net.argmax(j.net.row(g, At(j.net, Init(j.prompt)).kv, Last(j.prompt)))
  {
    FinishedSome(j.p, j.prompt, run.trace);
    SilentKeepsFirst(j.p.listen);
    FirstStays(j.p, j.prompt, run.trace);
    RealFirst(j.net, j.p, j.prompt, run.c, run.trace, j.index);
    ChosenFirst(j.net, run.c, Last(j.prompt), run.trace[0].drafted, j.p.maxNew, j.p.stops);
  }

  method AskStale(
      s: Session, k: nat, d: seq<Token>, ghost q: nat, ghost g: Gdn, ghost before: State)
      returns (r: Outcome)
    requires s.Valid() && !s.busy && s.State() == before && Proper(s.runner.net, before)
    requires Truth(s.runner.net, before.v)
    requires before.v.side.Side? && before.v.committed == |before.v.tape| == |d| == q + 1 >= 2
    requires Init(d) == Init(before.v.tape) && Last(d) != Last(before.v.tape)
    requires q in before.tale && before.tale[q].g == g && 1 <= k <= Mtp.MOST_DRAFTS && |d| <= s.context
    modifies s, s.runner, s.runner.gdn, s.runner.gdn.stash, s.cycle, s.Block(), s.spare, s.table
    ensures s.Valid() && r.Completed? && |r.tokens| == 1
    ensures var net := s.runner.net; r.tokens[0] == net.argmax(net.row(g, At(net, Init(d)).kv, Last(d)))
  {
    ghost var j, run, after;
    r, j, run, after := AskForOne(s, k, d, Never(), before);
    StaleAnswers(j, before, run, r, after, q, g);
  }

  /** The stale mark, in four calls: the last one answers from the state of `x`, and not as a
      session that was asked it first would, when the network tells the two apart there. */
  method AnswersStale(
    runner: Runner, context: nat, capacity: nat, limit: nat, k: nat,
    a: seq<Token>, x: seq<Token>, y: seq<Token>, d: seq<Token>)
    returns (s: Session, r: Outcome)
    requires runner.Valid() && runner.gdn.g == runner.net.zero && !runner.gdn.ready && runner.device
    requires limit >= 2 && 1 <= k <= Mtp.MOST_DRAFTS && |y| <= context
    requires a <= x && a <= y && 2 <= |a| && |a| + 1 < |x| == |y| == |d| <= GdnWindow.CHUNK_KERNEL
    requires Init(d) == Init(y) && Last(d) != Last(y)
    requires var net := runner.net;
             net.argmax(net.row(At(net, Init(x)).g, At(net, Init(d)).kv, Last(d))) != Next(net, d)
    modifies runner, runner.gdn, runner.gdn.stash
    ensures s.Valid() && s.runner == runner
    ensures r.Completed? && |r.tokens| == 1 && r.tokens[0] != Next(runner.net, d)
  {
    s := new Session(runner, context, capacity, limit);
    ghost var q := |x| - 1;
    ghost var st := Mislead(s, k, a, x, y, q);
    r := AskStale(s, k, d, q, At(runner.net, Init(x)).g, st);
  }

  /** Beside a new session they differ. */
  method StaleDiffers(
    runner: Runner, other: Runner, context: nat, capacity: nat, limit: nat, k: nat,
    a: seq<Token>, x: seq<Token>, y: seq<Token>, d: seq<Token>)
    returns (resident: Outcome, cold: Outcome)
    requires runner.Valid() && runner.gdn.g == runner.net.zero && !runner.gdn.ready && runner.device
    requires other.Valid() && other.gdn.g == other.net.zero && !other.gdn.ready && other.net == runner.net
    requires {runner, runner.gdn, runner.gdn.stash} !! {other, other.gdn, other.gdn.stash}
    requires limit >= 2 && 1 <= k <= Mtp.MOST_DRAFTS && |y| <= context
    requires a <= x && a <= y && 2 <= |a| && |a| + 1 < |x| == |y| == |d| <= GdnWindow.CHUNK_KERNEL
    requires Init(d) == Init(y) && Last(d) != Last(y)
    requires var net := runner.net;
             net.argmax(net.row(At(net, Init(x)).g, At(net, Init(d)).kv, Last(d))) != Next(net, d)
    modifies runner, runner.gdn, runner.gdn.stash, other, other.gdn, other.gdn.stash
    ensures resident.Completed? && cold.Completed? && resident.tokens != cold.tokens
  {
    cold := AskFresh(other, context, capacity, limit, k, d);
    var s;
    s, resident := AnswersStale(runner, context, capacity, limit, k, a, x, y, d);
  }

  // --- The blank copy ---

  /** A new session that has committed the empty tape on a device that never ran. */
  ghost function BlankState(net: Net): State {
    Zeroed(net).(v := Fresh(net).(snapshot := Some(Blank)))
  }

  lemma TurnOfNothing(net: Net, n: nat, r: Outcome, after: State)
    requires Turned(net, Zeroed(net), [], n, r, after)
    ensures n == 0 && r.Completed?
    ensures after.v.snapshot == Some(Blank) ==> after == BlankState(net)
  {
  }

  /** The copy restores nothing: what the cancelled prefill left stays under the empty tape. */
  lemma BlankAborts(j: Job, run: Run, r: Outcome, after: State)
    requires Generated(j, BlankState(j.net), run, r, after) && j.cancel(0) && j.cuts == []
    requires 2 <= |j.prompt| <= GdnWindow.CHUNK_KERNEL
    ensures r == Aborted([]) && after.v.tape == [] && after.v.g == At(j.net, Init(j.prompt)).g
  {
    var before := BlankState(j.net);
    assert OpenOf(j, before) == before.(v := before.v.(side := NoRowsYet));
    OneShortSpan(j, false, 0);
    FilledCoupled(j, run.c);
  }

  /** A turn of nothing, then a cancelled generate: the tape is empty and the state is not. */
  method KeepsState(runner: Runner, context: nat, capacity: nat, limit: nat, k: nat, x: seq<Token>)
    returns (s: Session, r: Outcome)
    requires runner.Valid() && runner.gdn.g == runner.net.zero && !runner.gdn.ready && runner.device && !runner.started
    requires 1 <= k <= Mtp.MOST_DRAFTS && 2 <= |x| <= GdnWindow.CHUNK_KERNEL && |x| <= context
    modifies runner, runner.gdn, runner.gdn.stash
    ensures s.Valid() && s.runner == runner && r == Aborted([])
    ensures s.Look().tape == [] && s.Look().g == At(runner.net, Init(x)).g
  {
    s := new Session(runner, context, capacity, limit);
    ghost var n, j, run, st, after;
    r, n := s.Turn([], Never());
    st := s.State();
    TurnOfNothing(runner.net, n, r, st);
    r, j, run, after := AskForOne(s, k, x, AtOnce(), st);
    BlankAborts(j, run, r, after);
  }

  // --- The repeated prompt ---

  /** What a turn committed has no id left to hold. */
  lemma RepeatFails(j: Job, before: State, run: Run, r: Outcome, after: State)
    requires Generated(j, before, run, r, after) && AllCommitted(j.net, before, j.prompt)
    ensures r == Errored(NeedsHeld)
  {
    assert before.v.tape[..before.v.committed] == j.prompt;
    GeneratedCompletes(j, before, run, r, after);
  }

  /** One prompt asked twice on a new session: answered, then refused. */
  method AsksTwice(runner: Runner, context: nat, capacity: nat, limit: nat, k: nat, a: seq<Token>)
    returns (s: Session, r: Outcome)
    requires runner.Valid() && runner.gdn.g == runner.net.zero && !runner.gdn.ready
    requires 1 <= k <= Mtp.MOST_DRAFTS && 2 <= |a| <= GdnWindow.CHUNK_KERNEL && |a| <= context
    modifies runner, runner.gdn, runner.gdn.stash
    ensures s.Valid() && s.runner == runner && r == Errored(NeedsHeld)
  {
    s := new Session(runner, context, capacity, limit);
    ghost var st := First(s, k, a);
    ghost var j, run, after;
    r, j, run, after := AskForOne(s, k, a, Never(), st);
    RepeatFails(j, st, run, r, after);
  }

  // --- The empty drop ---

  /** A callback that takes the first window's last token out, and stops. */
  function TakeBack(k: nat): Plan {
    Plan(k, 1, {}, Listener((w: nat, produced: seq<Token>) => Close(true, [], true), 1))
  }

  lemma {:induction false} HeardFirst(p: Plan, prompt: seq<Token>, trace: seq<Window>)
    requires Possible(p, prompt, trace) && Heard(p, prompt, trace) && trace != []
    ensures trace[0].d == Ask(p.listen, 0, trace[0].kept.tokens)
    decreases |trace|
  {
    if |trace| > 1 {
      HeardFirst(p, prompt, trace[..|trace| - 1]);
    } else {
      assert trace[..0] == [] && [] + trace[0].kept.tokens == trace[0].kept.tokens;
    }
  }

  lemma TakenBackDiverges(j: Job, before: State, run: Run, r: Outcome, after: State, k: nat)
    requires Generated(j, before, run, r, after) && Quiet(j.cancel) && j.p == TakeBack(k) && Holds(j.prompt, before.v)
    ensures r == Errored(Diverged)
  {
    MarksGrow(j, before, run, r, after);
    GeneratedCompletes(j, before, run, r, after);
    HeardFirst(j.p, j.prompt, run.trace);
    assert EmptyDrop(run.trace[0].d);
    DivergesExactly(j, before, run, r, after);
  }

  /** One call on a new session whose callback takes the answer back: the source's error for
      diverged caches. */
  method TakesItBack(runner: Runner, context: nat, capacity: nat, limit: nat, k: nat, x: seq<Token>)
    returns (s: Session, r: Outcome)
    requires runner.Valid() && runner.gdn.g == runner.net.zero && !runner.gdn.ready
    requires 1 <= k <= Mtp.MOST_DRAFTS && 2 <= |x| <= context
    modifies runner, runner.gdn, runner.gdn.stash
    ensures s.Valid() && s.runner == runner && r == Errored(Diverged)
  {
    s := new Session(runner, context, capacity, limit);
    ghost var st, run := s.State(), NoRun(runner.net);
    r, run := s.Generate(x, TakeBack(k), Never(), [], None);
    TakenBackDiverges(JobOf(runner, s.table, x, TakeBack(k), Never(), [], None), st, run, r, s.State(), k);
  }
}
