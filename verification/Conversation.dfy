/** Any sequence of generate calls on one session. */
module Conversation {
  import opened Options
  import opened Target
  import opened Decode
  import opened Marks
  import opened Restart
  import opened Schedule
  import opened Caches
  import opened Account
  import opened Driven
  import opened Continue
  import opened Resident
  import opened Generation
  import opened Session
  import GdnWindow
  import Mtp

  datatype Request = Request(
    ids: seq<Token>, plan: Plan, cancel: nat -> bool, cuts: seq<nat>, ngram: Option<(nat, nat)>)

  /** The engine's own settings: 1 to 7 drafts, and grams of at least one id. */
  predicate Configured(q: Request) {
    1 <= q.plan.k <= Mtp.MOST_DRAFTS && (q.ngram.Some? ==> q.ngram.value.0 >= 1)
  }

  /** The session lets the request in: it has a budget, and its prompt fits. */
  predicate Served(q: Request, context: nat) {
    q.plan.maxNew >= 1 && |q.ids| <= context
  }

  /** Nothing stops the turn before its end: no cancel is seen, and no empty drop. */
  ghost predicate Uninterrupted(q: Request) {
    Quiet(q.cancel) && NeverLoses(q.plan.listen)
  }

  /** The reference for a request: the target's own choices, and the drafts of a turn over
      its prompt, copied from the text itself when copying is on. */
  function ColdOracle(net: Net, q: Request, device: bool): Oracle {
    OracleOf(net, IndexOf(device, q.ids, q.ngram), q.plan.k)
  }

  /** What a completed answer must be, whatever the session held: the specified turn, and
      the greedy chain when the callback never speaks. */
  ghost predicate AsCold(net: Net, q: Request, device: bool, r: Outcome) {
    r.Completed? ==>
      var o := ColdOracle(net, q, device);
      && q.ids != [] && r.tokens == Decode.Turn(o, q.plan, Speech(q.ids, []), 0).produced
      && (Silent(q.plan.listen) ==> r.tokens == Greedy(o.next, q.ids, q.plan.maxNew, q.plan.stops))
  }

  lemma ScoredIsCold(net: Net, q: Request, device: bool, trace: seq<Window>, r: Outcome)
    requires r.Completed? ==>
               Answered(q.plan, q.ids, trace, r) && Scored(ColdOracle(net, q, device), q.plan, q.ids, trace, true)
    ensures AsCold(net, q, device, r)
  {
    if r.Completed? {
      var o := ColdOracle(net, q, device);
      RunIsTurn(o, q.plan, q.ids, trace);
      if Silent(q.plan.listen) {
        RunIsGreedy(o, q.plan, q.ids, trace, true);
      }
    }
  }

  /** No forward of the call will restart over a past: the prefill of what it opens on
      carries, and the layer is ready after it or no injection takes the chunk kernel. */
  ghost predicate Fit(net: Net, st: State, q: Request)
    requires Proper(net, st)
  {
    var open := Opened(net, st, q.ids);
    var spans := SpansOf(|open.v.tape|, |q.ids|, q.cuts);
    && Carried(open.v.ready, spans)
    && (ReadyAfter(open.v.ready, spans) || InjectsAtMost(q.plan.listen, GdnWindow.CHUNK_KERNEL - 1))
  }

  /** The job of a request. */
  ghost predicate Asks(j: Job, q: Request, device: bool) {
    && j.prompt == q.ids && j.p == q.plan && j.cuts == q.cuts && j.device == device
    && j.index == IndexOf(device, q.ids, q.ngram)
  }

  lemma FitIsSafe(j: Job, q: Request, before: State, run: Run, r: Outcome, after: State)
    requires Generated(j, before, run, r, after) && Asks(j, q, j.device) && Fit(j.net, before, q) && r.Completed?
    ensures Safe(j, run.c, run.trace)
  {
    MarksGrow(j, before, run, r, after);
    FilledSize(j, run.c);
    if !Filled(j, run.c).ready {
      InjectsGently(j.p, j.prompt, run.trace);
    }
  }

  /** One call on an honest session answers as a cold one, whatever marks lie above its commit. */
  lemma CallIsCold(j: Job, q: Request, before: State, run: Run, r: Outcome, after: State)
    requires Generated(j, before, run, r, after) && Honest(j.net, before)
    requires Asks(j, q, j.device) && Fit(j.net, before, q)
    ensures AsCold(j.net, q, j.device, r)
  {
    AnswerIs(j, before, run, r, after);
    if r.Completed? {
      FitIsSafe(j, q, before, run, r, after);
      OracleOfServes(j.net, j.index, j.p.k);
      GeneratedIsTrue(j, ColdOracle(j.net, q, j.device), before, run, r, after);
    }
    ScoredIsCold(j.net, q, j.device, run.trace, r);
  }

  /** And leaves it honest, when those marks agree with the prompt; so do the ones it leaves. */
  lemma CallIsHonest(j: Job, q: Request, before: State, run: Run, r: Outcome, after: State)
    requires Generated(j, before, run, r, after) && Honest(j.net, before) && Agrees(j.net, before, q.ids)
    requires Asks(j, q, j.device) && Fit(j.net, before, q)
    ensures Honest(j.net, after) && Agrees(j.net, after, q.ids) && (r.Completed? ==> Clean(after))
  {
    if r.Completed? {
      FitIsSafe(j, q, before, run, r, after);
      GeneratedIsHonest(j, before, run, r, after);
    } else {
      MarksGrow(j, before, run, r, after);
      AbandonedIsHonest(j, before, run, r, after);
      AbandonedAgrees(j, before, run, r, after);
    }
  }

  /** A call that finds no mark above the commit, and makes none or completes, leaves none. */
  lemma CallIsClean(j: Job, q: Request, before: State, run: Run, r: Outcome, after: State)
    requires Generated(j, before, run, r, after) && Honest(j.net, before) && Agrees(j.net, before, q.ids)
    requires Asks(j, q, j.device) && Fit(j.net, before, q)
    ensures Clean(before) && (j.limit == 0 || !j.device) ==> Clean(after)
    ensures r.Completed? || r == Errored(NeedsHeld) ==> Clean(after)
  {
    GeneratedCompletes(j, before, run, r, after);
    if r.Completed? {
      CallIsHonest(j, q, before, run, r, after);
    } else {
      AbandonedIsHonest(j, before, run, r, after);
      if r == Errored(NeedsHeld) {
        NothingHeld(j.net, before, q.ids);
      }
    }
  }

  /** Marks above the commit cannot agree with a prompt that has no id to hold. */
  lemma NothingHeld(net: Net, st: State, ids: seq<Token>)
    requires Proper(net, st) && Agrees(net, st, ids) && !Holds(ids, st.v)
    ensures Clean(st)
  {
  }

  // --- Requests that fit ---

  /** A prompt longer than the chunk kernel's floor, cut no lower, fits a warm session. */
  lemma AmpleFits(net: Net, st: State, q: Request)
    requires Proper(net, st) && 0 !in st.tale && Warm(st) && Ample(q.ids, q.cuts)
    ensures Fit(net, st, q)
  {
    OpenedIs(net, st, q.ids);
    var open := Opened(net, st, q.ids).v;
    var spans, start := SpansOf(|open.tape|, |q.ids|, q.cuts), |open.tape|;
    if start == 0 {
      FirstIsLong(|q.ids|, q.cuts, GdnWindow.CHUNK_KERNEL);
    }
    if spans != [] {
      WarmsIsCarried(open.ready, spans, start, |q.ids| - 1);
      WarmsSnoc(open.ready, spans);
    }
  }

  /** So does a request that never takes the chunk kernel at all, on any session. */
  predicate Short(q: Request) {
    |q.ids| <= GdnWindow.CHUNK_KERNEL
  }

  ghost predicate Brief(q: Request) {
    Short(q) && InjectsAtMost(q.plan.listen, GdnWindow.CHUNK_KERNEL - 1)
  }

  lemma BriefFits(net: Net, st: State, q: Request)
    requires Proper(net, st) && Brief(q)
    ensures Fit(net, st, q)
  {
    var open := Opened(net, st, q.ids).v;
    var spans := SpansOf(|open.tape|, |q.ids|, q.cuts);
    if spans != [] {
      Inside(spans, |open.tape|, |q.ids| - 1);
      CarriedIs(open.ready, spans, |open.tape|, |q.ids| - 1);
    }
  }

  // --- Refused requests ---

  /** A prompt that does not fit is rolled back like any error. */
  lemma RefusedIsHonest(net: Net, st: State)
    requires Proper(net, st) && Honest(net, st) && 0 !in st.tale
    ensures Undoable(st) && Honest(net, Canceled(net, st)) && (Warm(st) ==> Warm(Canceled(net, st)))
  {
    if st.v.snapshot.None? {
      ZeroedIsHonest(net);
    } else {
      UndoneIsHonest(net, st);
    }
  }

  lemma UndoneIsHonest(net: Net, st: State)
    requires Proper(net, st) && Honest(net, st) && st.v.snapshot.Some?
    ensures Honest(net, st.(v := Undo(st.v, st.mark)))
  {
    var v, n := st.v, st.v.committed;
    ToCommitIsTrue(net, v);
    assert v.tape[..n][..n] == v.tape[..n];
    assert v.side.Side? ==> v.side.rows[..n] == v.side.rows;
    TellsUpTo(net, v.tape, n, UpTo(st.tale, n), n, v.tape[..n]);
    UpToTwice(st.tale, n, n);
  }

  /** The marks afterwards are some of those before, and the commit is no lower. */
  ghost predicate KeepsMarks(before: State, after: State) {
    forall p :: p in after.tale ==>
      Old(before.tale, after.tale, p) && (p > after.v.committed ==> p > before.v.committed)
  }

  lemma KeptAgree(net: Net, before: State, after: State, ids: seq<Token>)
    requires KeepsMarks(before, after)
    ensures Agrees(net, before, ids) ==> Agrees(net, after, ids)
    ensures Clean(before) ==> Clean(after)
  {
  }

  // --- One call ---

  /** What stays the same over a conversation; `prune` says whether each call is followed by
      the pruning that the cancel lacks. */
  datatype Setup = Setup(net: Net, device: bool, limit: nat, context: nat, prune: bool)

  ghost predicate Suits(u: Setup, s: Session)
    reads s, s.runner, s.table
  {
    && (u.net, u.device) == (s.runner.net, s.runner.device)
    && (u.limit, u.context) == (s.table.limit, s.context)
  }

  predicate NoMarks(u: Setup) {
    u.limit == 0 || !u.device
  }

  /** If the session lets the request in, no forward of it restarts over a past. */
  ghost predicate Fits(u: Setup, q: Request, st: State) {
    Proper(u.net, st) && (Served(q, u.context) ==> Fit(u.net, st, q))
  }

  /** It is refused exactly when it has no budget or does not fit; and it completes, exactly
      if it has an id to hold, when nothing stops it. */
  ghost predicate Replied(u: Setup, q: Request, before: State, r: Outcome)
    requires before.v.committed <= |before.v.tape|
  {
    && (r == NoBudget <==> q.plan.maxNew == 0)
    && (r == Errored(TooLong) <==> q.plan.maxNew > 0 && |q.ids| > u.context)
    && (r.Completed? || r == Errored(NeedsHeld) ==> Served(q, u.context))
    && (Served(q, u.context) && Uninterrupted(q) ==>
          (r.Completed? <==> Holds(q.ids, before.v)) && (r.Completed? || r == Errored(NeedsHeld)))
  }

  /** An honest session answers as a cold one, and stays honest if it does not complete, or
      if the marks above its commit agree with the prompt. */
  ghost predicate Truthful(u: Setup, q: Request, before: State, r: Outcome, after: State) {
    Honest(u.net, before) ==>
      && (!r.Completed? ==> Honest(u.net, after))
      && (Fits(u, q, before) ==> AsCold(u.net, q, u.device, r))
      && (Fits(u, q, before) && Agrees(u.net, before, q.ids) ==> Honest(u.net, after) && Agrees(u.net, after, q.ids))
  }

  /** When no mark lies above the commit afterwards. */
  ghost predicate Tidies(u: Setup, q: Request, before: State, after: State) {
    && (u.prune ==> Clean(after))
    && (!Served(q, u.context) ==> KeepsMarks(before, after))
    && (Honest(u.net, before) && Fits(u, q, before) && Agrees(u.net, before, q.ids) ==>
          && (Served(q, u.context) && Uninterrupted(q) ==> Clean(after))
          && (Clean(before) && NoMarks(u) ==> Clean(after)))
  }

  /** One call, from any proper state. */
  ghost predicate Step(u: Setup, q: Request, before: State, r: Outcome, after: State) {
    && Proper(u.net, before) && Proper(u.net, after) && 0 !in before.tale && 0 !in after.tale
    && Replied(u, q, before, r) && Truthful(u, q, before, r, after) && Tidies(u, q, before, after)
    && (Warm(before) && (Served(q, u.context) ==> Ample(q.ids, q.cuts)) ==> Warm(after))
  }

  lemma CallTells(j: Job, q: Request, u: Setup, before: State, run: Run, r: Outcome, after: State)
    requires Generated(j, before, run, r, after) && Served(q, u.context) && Asks(j, q, j.device)
    requires (u.net, u.device) == (j.net, j.device)
    ensures Truthful(u, q, before, r, after)
  {
    if Honest(j.net, before) {
      if !r.Completed? {
        AbandonedIsHonest(j, before, run, r, after);
      }
      if Fit(j.net, before, q) {
        CallIsCold(j, q, before, run, r, after);
        if Agrees(j.net, before, q.ids) {
          CallIsHonest(j, q, before, run, r, after);
        }
      }
    }
  }

  lemma CallTidies(j: Job, q: Request, u: Setup, before: State, run: Run, r: Outcome, after: State)
    requires Generated(j, before, run, r, after) && Served(q, u.context) && Asks(j, q, j.device)
    requires (u.net, u.device, u.limit, u.prune) == (j.net, j.device, j.limit, false)
    requires Uninterrupted(q) ==> r.Completed? || r == Errored(NeedsHeld)
    ensures Tidies(u, q, before, after)
  {
    if Honest(j.net, before) && Fits(u, q, before) && Agrees(j.net, before, q.ids) {
      CallIsClean(j, q, before, run, r, after);
    }
  }

  lemma CallSteps(j: Job, q: Request, u: Setup, before: State, run: Run, r: Outcome, after: State)
    requires Generated(j, before, run, r, after) && Served(q, u.context) && Asks(j, q, j.device)
    requires (u.net, u.device, u.limit, u.prune) == (j.net, j.device, j.limit, false)
    requires Replied(u, q, before, r)
    ensures Step(u, q, before, r, after)
  {
    GeneratedProper(j, before, run, r, after);
    CallTells(j, q, u, before, run, r, after);
    CallTidies(j, q, u, before, run, r, after);
    if Warm(before) && Ample(q.ids, q.cuts) {
      GeneratedWarm(j, before, run, r, after);
    }
  }

  lemma RefusedSteps(q: Request, u: Setup, before: State, r: Outcome, after: State)
    requires Proper(u.net, before) && 0 !in before.tale && !Served(q, u.context) && !u.prune
    requires Replied(u, q, before, r)
    requires after == before || (Undoable(before) && after == Canceled(u.net, before))
    ensures Step(u, q, before, r, after)
  {
    if after != before {
      CanceledProper(u.net, before);
      if Honest(u.net, before) {
        RefusedIsHonest(u.net, before);
      }
    }
    KeptAgree(u.net, before, after, q.ids);
  }

  /** A call that the session serves. */
  method CallServed(s: Session, q: Request, ghost u: Setup, ghost before: State)
    returns (r: Outcome, ghost after: State)
    requires s.Valid() && !s.busy && s.State() == before && Proper(s.runner.net, before) && Configured(q)
    requires Served(q, s.context) && Suits(u, s) && !u.prune
    modifies s, s.runner, s.runner.gdn, s.runner.gdn.stash, s.cycle, s.Block(), s.spare, s.table
    ensures s.Valid() && !s.busy && s.State() == after && Step(u, q, before, r, after)
    ensures s.Keeps()
  {
    ghost var run, j := NoRun(s.runner.net), JobOf(s.runner, s.table, q.ids, q.plan, q.cancel, q.cuts, q.ngram);
    r, run := s.Generate(q.ids, q.plan, q.cancel, q.cuts, q.ngram);
    after := s.State();
    CallSteps(j, q, u, before, run, r, after);
  }

  /** A call that it refuses: no budget, or a prompt that does not fit. */
  method CallRefused(s: Session, q: Request, ghost u: Setup, ghost before: State)
    returns (r: Outcome, ghost after: State)
    requires s.Valid() && !s.busy && s.State() == before && Proper(s.runner.net, before) && Configured(q)
    requires !Served(q, s.context) && Suits(u, s) && !u.prune
    modifies s, s.runner, s.runner.gdn, s.runner.gdn.stash, s.cycle, s.Block(), s.spare, s.table
    ensures s.Valid() && !s.busy && s.State() == after && Step(u, q, before, r, after)
    ensures s.Keeps()
  {
    ghost var run;
    r, run := s.Generate(q.ids, q.plan, q.cancel, q.cuts, q.ngram);
    after := s.State();
    RefusedSteps(q, u, before, r, after);
  }

  /** One call on a session, whatever is asked and whatever it holds. */
  method Call(s: Session, q: Request, ghost u: Setup, ghost before: State) returns (r: Outcome, ghost after: State)
    requires s.Valid() && !s.busy && s.State() == before && Proper(s.runner.net, before) && Configured(q)
    requires Suits(u, s) && !u.prune
    modifies s, s.runner, s.runner.gdn, s.runner.gdn.stash, s.cycle, s.Block(), s.spare, s.table
    ensures s.Valid() && !s.busy && s.State() == after && Step(u, q, before, r, after)
    ensures s.Keeps()
  {
    if Served(q, s.context) {
      r, after := CallServed(s, q, u, before);
    } else {
      r, after := CallRefused(s, q, u, before);
    }
  }

  lemma PrunedSteps(u: Setup, q: Request, before: State, r: Outcome, at: State, after: State)
    requires Step(u, q, before, r, at) && after == at.(tale := UpTo(at.tale, at.v.committed))
    ensures Step(u.(prune := true), q, before, r, after)
  {
    UpToTwice(at.tale, at.v.committed, at.v.committed);
  }

  /** One call of a conversation, and the pruning if there is any. */
  method Exchange(s: Session, q: Request, prune: bool, ghost u: Setup, ghost before: State)
    returns (r: Outcome, ghost after: State)
    requires s.Valid() && !s.busy && s.State() == before && Proper(s.runner.net, before) && Configured(q)
    requires Suits(u, s) && u.prune == prune
    modifies s, s.runner, s.runner.gdn, s.runner.gdn.stash, s.cycle, s.Block(), s.spare, s.table
    ensures s.Valid() && !s.busy && s.State() == after && Step(u, q, before, r, after)
    ensures s.Keeps()
  {
    r, after := Call(s, q, u.(prune := false), before);
    if prune {
      ghost var at := after;
      s.Prune(at);
      after := s.State();
      PrunedSteps(u.(prune := false), q, before, r, at, after);
    }
  }

  // --- Conversations ---

  /** The calls of a conversation, with the states between them. */
  ghost predicate History(u: Setup, requests: seq<Request>, states: seq<State>, answers: seq<Outcome>) {
    && |states| == |answers| + 1 && |answers| <= |requests|
    && forall i :: 0 <= i < |answers| ==> Step(u, requests[i], states[i], answers[i], states[i + 1])
  }

  /** The calls before number `n` that completed were fit, and found only marks that agreed
      with them.  Of a call that did not complete nothing is asked. */
  ghost predicate Sound(u: Setup, requests: seq<Request>, states: seq<State>, answers: seq<Outcome>, n: nat)
    requires n <= |answers| <= |requests| && |answers| < |states|
  {
    forall i :: 0 <= i < n && answers[i].Completed? ==>
      Fits(u, requests[i], states[i]) && Agrees(u.net, states[i], requests[i].ids)
  }

  /** One answer of a conversation: refused exactly when it has no budget or does not fit; as a
      cold session's when it completes; and it completes, or has no id to hold, when nothing
      stops it. */
  ghost predicate ColdAt(u: Setup, q: Request, r: Outcome) {
    && AsCold(u.net, q, u.device, r)
    && (r == NoBudget <==> q.plan.maxNew == 0)
    && (r == Errored(TooLong) <==> q.plan.maxNew > 0 && |q.ids| > u.context)
    && (Served(q, u.context) && Uninterrupted(q) ==> r.Completed? || r == Errored(NeedsHeld))
  }

  lemma {:induction false} HistoryIsHonest(
    u: Setup, requests: seq<Request>, states: seq<State>, answers: seq<Outcome>, n: nat)
    requires History(u, requests, states, answers) && n <= |answers| && Honest(u.net, states[0])
    requires Sound(u, requests, states, answers, n)
    ensures Honest(u.net, states[n])
    decreases n
  {
    if n > 0 {
      HistoryIsHonest(u, requests, states, answers, n - 1);
      HistoryAt(u, requests, states, answers, n - 1);
    }
  }

  /** Any call that is fit where it is asked is answered as by a cold session, when the
      completed ones before it were fit and agreed with the marks they found, however many
      were cancelled or failed in between. */
  lemma HistoryIsCold(u: Setup, requests: seq<Request>, states: seq<State>, answers: seq<Outcome>, n: nat)
    requires History(u, requests, states, answers) && n < |answers| && Honest(u.net, states[0])
    requires Sound(u, requests, states, answers, n) && Fits(u, requests[n], states[n])
    ensures ColdAt(u, requests[n], answers[n])
  {
    HistoryIsHonest(u, requests, states, answers, n);
    HistoryAt(u, requests, states, answers, n);
  }

  /** So is the first call that completes, after any number that were cancelled or failed. */
  lemma ColdAfterCancels(u: Setup, requests: seq<Request>, states: seq<State>, answers: seq<Outcome>, n: nat)
    requires History(u, requests, states, answers) && n < |answers| && Honest(u.net, states[0])
    requires (forall i :: 0 <= i < n ==> !answers[i].Completed?) && Fits(u, requests[n], states[n])
    ensures ColdAt(u, requests[n], answers[n])
  {
    HistoryIsCold(u, requests, states, answers, n);
  }

  ghost predicate ColdWhereFit(u: Setup, requests: seq<Request>, states: seq<State>, answers: seq<Outcome>)
    requires |answers| <= |requests| && |answers| < |states|
  {
    forall n :: 0 <= n < |answers| && Sound(u, requests, states, answers, n) && Fits(u, requests[n], states[n]) ==>
      ColdAt(u, requests[n], answers[n])
  }

  // --- What can be known beforehand ---

  /** A conversation that never restarts a forward over a past: every prompt it serves is
      ample and the session warm, or none of them ever takes the chunk kernel. */
  ghost predicate Covered(u: Setup, st: State, requests: seq<Request>) {
    || (Warm(st) && forall i :: 0 <= i < |requests| && Served(requests[i], u.context) ==>
                      Ample(requests[i].ids, requests[i].cuts))
    || (forall i :: 0 <= i < |requests| && Served(requests[i], u.context) ==> Brief(requests[i]))
  }

  lemma CoveredFits(u: Setup, st: State, requests: seq<Request>, i: nat)
    requires i < |requests| && Covered(u, st, requests) && Proper(u.net, st) && 0 !in st.tale
    ensures Fits(u, requests[i], st)
  {
    if Served(requests[i], u.context) {
      if Brief(requests[i]) {
        BriefFits(u.net, st, requests[i]);
      } else {
        AmpleFits(u.net, st, requests[i]);
      }
    }
  }

  /** The prompt whose marks may lie above the commit before call `n`: the last one that was
      served and could be interrupted. */
  ghost function Leftover(u: Setup, requests: seq<Request>, n: nat): Option<seq<Token>>
    requires n <= |requests|
  {
    if n == 0 || NoMarks(u) || u.prune then None
    else
      var q := requests[n - 1];
      if !Served(q, u.context) then Leftover(u, requests, n - 1)
      else if Uninterrupted(q) then None else Some(q.ids)
  }

  /** After a call that may be interrupted, the next prompt goes on from the same text: it is
      asked again, or more is asked. */
  ghost predicate Consistent(u: Setup, requests: seq<Request>) {
    forall n {:trigger Leftover(u, requests, n)} :: 0 <= n < |requests| && Served(requests[n], u.context) ==>
      var x := Leftover(u, requests, n); x.Some? ==> GoesOn(x.value, requests[n].ids)
  }

  /** What such a conversation keeps before each call. */
  ghost predicate Keeping(u: Setup, requests: seq<Request>, n: nat, st: State)
    requires n <= |requests|
  {
    && Honest(u.net, st) && Covered(u, st, requests)
    && match Leftover(u, requests, n)
       case None => Clean(st)
       case Some(x) => Agrees(u.net, st, x)
  }

  /** A new session begins so. */
  lemma FreshKeeps(u: Setup, requests: seq<Request>)
    requires || (forall i :: 0 <= i < |requests| && Served(requests[i], u.context) ==>
                   Ample(requests[i].ids, requests[i].cuts))
             || (forall i :: 0 <= i < |requests| && Served(requests[i], u.context) ==> Brief(requests[i]))
    ensures Keeping(u, requests, 0, Zeroed(u.net))
  {
    ZeroedIsHonest(u.net);
  }

  /** So the marks it finds agree with the next prompt. */
  lemma KeepingAgrees(u: Setup, requests: seq<Request>, n: nat, st: State)
    requires n < |requests| && Keeping(u, requests, n, st) && Consistent(u, requests) && Served(requests[n], u.context)
    ensures Agrees(u.net, st, requests[n].ids)
  {
    var x := Leftover(u, requests, n);
    if x.Some? {
      AgreesOn(u.net, st, x.value, requests[n].ids);
    }
  }

  lemma KeepingStep(u: Setup, requests: seq<Request>, n: nat, before: State, r: Outcome, after: State)
    requires n < |requests| && Keeping(u, requests, n, before) && Consistent(u, requests)
    requires Step(u, requests[n], before, r, after)
    ensures Keeping(u, requests, n + 1, after) && ColdAt(u, requests[n], r)
  {
    CoveredFits(u, before, requests, n);
    if Served(requests[n], u.context) {
      KeepingAgrees(u, requests, n, before);
    } else {
      assert !r.Completed?;
      var x := Leftover(u, requests, n);
      KeptAgree(u.net, before, after, if x.Some? then x.value else []);
    }
  }

  ghost predicate AllCold(u: Setup, requests: seq<Request>, answers: seq<Outcome>) {
    |answers| <= |requests| && forall i :: 0 <= i < |answers| ==> ColdAt(u, requests[i], answers[i])
  }

  /** A covered and consistent conversation is answered as by cold sessions throughout. */
  lemma {:induction false} CoveredIsCold(
    u: Setup, requests: seq<Request>, states: seq<State>, answers: seq<Outcome>, n: nat)
    requires History(u, requests, states, answers) && n <= |answers| && Consistent(u, requests)
    requires Keeping(u, requests, 0, states[0])
    ensures Keeping(u, requests, n, states[n]) && AllCold(u, requests, answers[..n])
    decreases n
  {
    if n > 0 {
      CoveredIsCold(u, requests, states, answers, n - 1);
      HistoryAt(u, requests, states, answers, n - 1);
      KeepingStep(u, requests, n - 1, states[n - 1], answers[n - 1], states[n]);
      AllColdNext(u, requests, answers, n);
    }
  }

  lemma HistoryAt(u: Setup, requests: seq<Request>, states: seq<State>, answers: seq<Outcome>, i: nat)
    requires History(u, requests, states, answers) && i < |answers|
    ensures Step(u, requests[i], states[i], answers[i], states[i + 1])
  {
  }

  lemma AllColdNext(u: Setup, requests: seq<Request>, answers: seq<Outcome>, n: nat)
    requires 0 < n <= |answers| <= |requests| && AllCold(u, requests, answers[..n - 1])
    requires ColdAt(u, requests[n - 1], answers[n - 1])
    ensures AllCold(u, requests, answers[..n])
  {
    assert forall i :: 0 <= i < n - 1 ==> answers[..n][i] == answers[..n - 1][i];
  }

  /** Any sequence of calls on one session, from any state it can be in.  A call is answered
      as by a cold session if it is fit where it is asked, and the completed calls before it
      were, and agreed with the marks they found.  Of a covered and consistent conversation
      that can be known beforehand. */
  method Converse(s: Session, requests: seq<Request>, prune: bool, ghost u: Setup)
    returns (answers: seq<Outcome>, ghost states: seq<State>)
    requires s.Valid() && !s.busy && Proper(s.runner.net, s.State()) && Suits(u, s) && u.prune == prune
    requires forall i :: 0 <= i < |requests| ==> Configured(requests[i])
    modifies s, s.runner, s.runner.gdn, s.runner.gdn.stash, s.cycle, s.Block(), s.spare, s.table
    ensures s.Valid() && !s.busy && History(u, requests, states, answers) && |answers| == |requests|
    ensures states[0] == old(s.State()) && states[|requests|] == s.State()
    ensures Honest(u.net, old(s.State())) ==> ColdWhereFit(u, requests, states, answers)
    ensures Keeping(u, requests, 0, old(s.State())) && Consistent(u, requests) ==>
              AllCold(u, requests, answers) && Keeping(u, requests, |requests|, s.State())
  {
    answers, states := [], [s.State()];
    for n := 0 to |requests|
      invariant s.Valid() && !s.busy && s.Keeps() && Suits(u, s)
      invariant |answers| == n && History(u, requests, states, answers)
      invariant states[0] == old(s.State()) && states[n] == s.State() && Proper(u.net, states[n])
    {
      var r;
      ghost var after;
      r, after := Exchange(s, requests[n], prune, u, states[n]);
      HistorySnoc(u, requests, states, answers, r, after);
      answers, states := answers + [r], states + [after];
    }
    Concludes(u, requests, states, answers);
  }

  lemma HistorySnoc(
    u: Setup, requests: seq<Request>, states: seq<State>, answers: seq<Outcome>, r: Outcome, after: State)
    requires History(u, requests, states, answers) && |answers| < |requests|
    requires Step(u, requests[|answers|], states[|answers|], r, after)
    ensures History(u, requests, states + [after], answers + [r])
  {
  }

  lemma Concludes(u: Setup, requests: seq<Request>, states: seq<State>, answers: seq<Outcome>)
    requires History(u, requests, states, answers) && |answers| == |requests|
    ensures Honest(u.net, states[0]) ==> ColdWhereFit(u, requests, states, answers)
    ensures Keeping(u, requests, 0, states[0]) && Consistent(u, requests) ==>
              AllCold(u, requests, answers) && Keeping(u, requests, |requests|, states[|requests|])
  {
    if Honest(u.net, states[0]) {
      forall n | 0 <= n < |answers| && Sound(u, requests, states, answers, n) && Fits(u, requests[n], states[n])
        ensures ColdAt(u, requests[n], answers[n])
      {
        HistoryIsCold(u, requests, states, answers, n);
      }
    }
    if Keeping(u, requests, 0, states[0]) && Consistent(u, requests) {
      CoveredIsCold(u, requests, states, answers, |answers|);
      assert answers[..|answers|] == answers;
    }
  }
}
