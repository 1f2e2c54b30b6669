/** What one generate makes of a session's state, and when it is what a cold session
    would have made. */
module Generation {
  import opened Options
  import opened Target
  import opened Runner
  import opened Draft
  import opened Decode
  import opened Cycle
  import opened Marks
  import opened Restart
  import opened Schedule
  import opened Caches
  import opened Account
  import opened Driven
  import opened Resident
  import GdnWindow

  datatype Outcome =
    | Busy
    | NoBudget
    | Completed(tokens: seq<Token>, accepted: int, rejected: int)
    | Aborted(tokens: seq<Token>)
    | Errored(error: Error)

  /** The turn was admitted and its prompt fits. */
  predicate Admitted(r: Outcome) {
    r.Completed? || r.Aborted? || (r.Errored? && r.error != TooLong)
  }

  /** The forwards of one call: the caches it began with, how it ended, its windows, its
      marks, and the caches it left. */
  datatype Run = Run(c: Core, ended: Ended, trace: seq<Window>, told: map<nat, Saved>, now: Core)

  /** The forwards of a call that makes none. */
  function NoRun(net: Net): Run {
    var c := Core(Mem(net.zero, []), false, [], None, 0, 0, 0);
    Run(c, Failed(NeedsHeld), [], map[], c)
  }

  /** Both caches of a view whose draft side stands at its cursor. */
  function CoreAt(v: View, top: nat): Core
    requires v.side.Side?
  {
    Core(Mem(v.g, v.kv), v.ready, v.side.rows, v.side.carry, v.side.accepted, v.side.rejected, top)
  }

  function SideAt(c: Core): Side {
    Side(c.rows, c.carry, c.accepted, c.rejected)
  }

  // --- The end of a call ---

  /** The tape becomes the prompt and its answer, less the held id, and is committed. */
  function Committed(st: State, text: seq<Token>, run: Run): State {
    var now := run.now;
    State(View(text, |text|, Some(Snap(now.m.g, now.ready)), now.m.g, now.ready, now.m.kv, SideAt(now)),
          MarkOf(SideAt(now)), run.told, st.source)
  }

  /** What is resident when the forwards stop: the tape still waits for the end. */
  function During(st: State, run: Run): State
    requires |st.v.tape| <= |run.now.m.kv|
  {
    var now := run.now;
    State(st.v.(g := now.m.g, ready := now.ready, kv := now.m.kv[..|st.v.tape|], side := SideAt(now)),
          st.mark, run.told, st.source)
  }

  /** Back to the last commit: its state, its rows, and the marked draft side. */
  function Undo(v: View, mark: Option<DraftMark>): View
    requires v.snapshot.Some? && v.committed <= |v.tape| && v.committed <= |v.kv|
    requires v.side.Side? && mark.Some? ==> v.committed <= |v.side.rows|
  {
    ToCommit(v).(side :=
      if v.side.NoBlock? || mark.None? then NoBlock
      else Side(v.side.rows[..v.committed], mark.value.carry, mark.value.accepted, mark.value.rejected))
  }

  /** There is enough to go back to. */
  predicate Undoable(st: State) {
    && st.v.committed <= |st.v.tape| == |st.v.kv|
    && (st.v.committed > 0 ==> st.v.snapshot.Some? && st.v.snapshot.value.Snap?)
    && (st.mark.Some? ==> MarksAt(st.mark.value, st.v.committed))
    && (st.mark.Some? && st.v.side.Side? ==> st.v.committed <= |st.v.side.rows|)
  }

  /** Restore the last commit, or forget everything when there is none. */
  function Canceled(net: Net, st: State): State
    requires Undoable(st)
  {
    if st.v.snapshot.None? then Zeroed(net) else st.(v := Undo(st.v, st.mark))
  }

  lemma CanceledProper(net: Net, st: State)
    requires Undoable(st) && 0 !in st.tale
    ensures Proper(net, Canceled(net, st)) && 0 !in Canceled(net, st).tale
    ensures st.v.snapshot.Some? ==> Canceled(net, st).v.committed == st.v.committed && Canceled(net, st).tale == st.tale
  {
  }

  /** How a call ends: it commits an answer whose cursor adds up, and rolls anything else back. */
  ghost predicate Settles(j: Job, open: State, run: Run, r: Outcome, after: State) {
    var e := run.ended;
    && |open.v.tape| <= |run.now.m.kv| && Undoable(During(open, run))
    && if e.Done? && e.cacheLen == |j.prompt| + |e.tokens| - 1 then
         && r == Completed(e.tokens, run.now.accepted - run.c.accepted, run.now.rejected - run.c.rejected)
         && after == Committed(open, (j.prompt + e.tokens)[..e.cacheLen], run)
       else
         && r == (match e
                  case Done(_, _) => Errored(Diverged)
                  case Cancelled(tokens) => Aborted(tokens)
                  case Failed(error) => Errored(error))
         && after == Canceled(j.net, During(open, run))
  }

  /** The forwards of a call that opened on `open`. */
  ghost predicate Took(j: Job, open: State, run: Run) {
    && open.v.side.Side? && run.c == CoreAt(open.v, run.c.top)
    && Drove(j, run.c, open.tale, run.ended, run.trace, run.told, run.now)
  }

  /** One admitted call: open the session on the longest usable prefix, run the turn from
      there, and settle. */
  ghost predicate Generated(j: Job, before: State, run: Run, r: Outcome, after: State) {
    && Proper(j.net, before) && 0 !in before.tale && j.p.maxNew >= 1
    && var open := Opened(j.net, before, j.prompt);
       Took(j, open, run) && Settles(j, open, run, r, after)
  }

  /** The state a call opens on, and what is known of it. */
  ghost function OpenOf(j: Job, before: State): State
    requires Proper(j.net, before)
  {
    Opened(j.net, before, j.prompt)
  }

  // --- What every call keeps ---

  /** The marks a call leaves: old ones, and cuts of its prompt above the start. */
  lemma MarksGrow(j: Job, before: State, run: Run, r: Outcome, after: State)
    requires Generated(j, before, run, r, after)
    ensures var open := OpenOf(j, before);
            && Ready(j.net, open, j.prompt) && |run.c.m.kv| == |run.c.rows| == |open.v.tape|
            && 0 !in run.told
            && (Refuses(j, |run.c.rows|) ==> run.told == open.tale)
            && (!Refuses(j, |run.c.rows|) ==> Grew(open.tale, run.told, |run.c.rows|, |j.prompt| - 1))
            && (run.c.carry.Some? || |run.c.rows| == 0)
  {
    OpenedIs(j.net, before, j.prompt);
    var open := OpenOf(j, before);
    var spans, n := Suffix(j, |run.c.rows|), |run.c.rows|;
    if spans != [] {
      MarkedAlongGrew(j.net, run.c, j.prompt, spans, n, |j.prompt| - 1, j.limit, j.device, open.tale, run.told);
    }
  }

  /** The answer is the trace's; a turn that diverged lost a drop. */
  lemma AnswerIs(j: Job, before: State, run: Run, r: Outcome, after: State)
    requires Generated(j, before, run, r, after)
    ensures r.Completed? ==> Answered(j.p, j.prompt, run.trace, r) && after.v.tape == Init(j.prompt + r.tokens)
    ensures r.Completed? ==> after.v.tape == Init(SpotOf(j.p, j.prompt, run.trace).s.spoken)
    ensures r == Errored(Diverged) ==> Strayed(j.p, j.prompt, run.trace)
    ensures Admitted(r)
  {
    if run.ended.Done? {
      MarksGrow(j, before, run, r, after);
      SettledAnswer(j, OpenOf(j, before), run, r, after);
    }
  }

  lemma SettledAnswer(j: Job, open: State, run: Run, r: Outcome, after: State)
    requires Ready(j.net, open, j.prompt) && Took(j, open, run) && j.p.maxNew >= 1 && run.ended.Done?
    requires Settles(j, open, run, r, after)
    requires run.c.carry.Some? || |run.c.rows| == 0
    ensures r.Completed? ==> Answered(j.p, j.prompt, run.trace, r) && after.v.tape == Init(j.prompt + r.tokens)
    ensures r.Completed? ==> after.v.tape == Init(SpotOf(j.p, j.prompt, run.trace).s.spoken)
    ensures !r.Completed? ==> r == Errored(Diverged) && Strayed(j.p, j.prompt, run.trace)
  {
    DoneAt(j, open, run);
    DroveCounts(j, run.c, open.tale, run.ended, run.trace, run.told, run.now);
    DoneSettles(j, open, run, r, after, SpotOf(j.p, j.prompt, run.trace));
  }

  lemma DoneAt(j: Job, open: State, run: Run)
    requires Took(j, open, run) && run.ended.Done?
    ensures Finished(j.p, j.prompt, run.trace)
    ensures var g := SpotOf(j.p, j.prompt, run.trace); run.ended == Done(g.s.produced, |g.s.spoken| - 1)
  {
  }

  lemma DoneSettles(j: Job, open: State, run: Run, r: Outcome, after: State, g: Spot)
    requires Finished(j.p, j.prompt, run.trace) && g == SpotOf(j.p, j.prompt, run.trace) && j.p.maxNew >= 1
    requires run.ended == Done(g.s.produced, |g.s.spoken| - 1) && Settles(j, open, run, r, after)
    requires run.now.accepted == run.c.accepted + g.accepted && run.now.rejected == run.c.rejected + g.rejected
    ensures r.Completed? ==> Answered(j.p, j.prompt, run.trace, r) && after.v.tape == Init(j.prompt + r.tokens)
    ensures r.Completed? ==> after.v.tape == Init(g.s.spoken)
    ensures !r.Completed? ==> r == Errored(Diverged) && Strayed(j.p, j.prompt, run.trace)
  {
    CursorAdds(j.p, j.prompt, run.trace, run.ended.tokens, run.ended.cacheLen);
  }

  /** The cursor adds up exactly when no drop was lost, and then it ends the text. */
  lemma CursorAdds(p: Plan, ids: seq<Token>, trace: seq<Window>, tokens: seq<Token>, cacheLen: nat)
    requires Possible(p, ids, trace) && p.maxNew >= 1
    requires var g := SpotOf(p, ids, trace); tokens == g.s.produced && cacheLen == |g.s.spoken| - 1
    ensures cacheLen == |ids| + |tokens| - 1 <==> SpotOf(p, ids, trace).t.lost == 0
    ensures SpotOf(p, ids, trace).t.lost == 0 ==>
              cacheLen <= |ids + tokens| && (ids + tokens)[..cacheLen] == Init(ids + tokens)
              && Init(ids + tokens) == Init(SpotOf(p, ids, trace).s.spoken)
  {
    DoneIs(p, ids, trace);
  }

  /** The answer of a completed turn is its trace's, and no drop was lost. */
  ghost predicate Answered(p: Plan, ids: seq<Token>, trace: seq<Window>, r: Outcome) {
    && Finished(p, ids, trace)
    && var g := SpotOf(p, ids, trace);
    g.t.lost == 0 && r == Completed(g.s.produced, g.accepted, g.rejected)
  }

  /** The turn ended, but an empty drop moved the text past the answer. */
  ghost predicate Strayed(p: Plan, ids: seq<Token>, trace: seq<Window>) {
    Finished(p, ids, trace) && SpotOf(p, ids, trace).t.lost > 0
  }

  lemma CommittedProper(j: Job, before: State, run: Run, r: Outcome, after: State)
    requires Generated(j, before, run, r, after) && r.Completed?
    ensures Proper(j.net, after) && 0 !in after.tale && after.v.committed == |after.v.tape|
    ensures |after.v.tape| >= |j.prompt| - 1 && after.v.side == SideAt(run.now)
  {
    MarksGrow(j, before, run, r, after);
    AnswerIs(j, before, run, r, after);
    DroveCounts(j, run.c, OpenOf(j, before).tale, run.ended, run.trace, run.told, run.now);
    DoneIs(j.p, j.prompt, run.trace);
  }

  /** Every call leaves a proper state. */
  lemma GeneratedProper(j: Job, before: State, run: Run, r: Outcome, after: State)
    requires Generated(j, before, run, r, after)
    ensures Proper(j.net, after) && 0 !in after.tale
  {
    MarksGrow(j, before, run, r, after);
    if r.Completed? {
      CommittedProper(j, before, run, r, after);
    } else {
      CanceledProper(j.net, During(OpenOf(j, before), run));
    }
  }

  // --- Completion ---

  /** The prompt has an id to hold: it has two ids, and is not just what the last turn
      committed with its draft side. */
  predicate Holds(ids: seq<Token>, v: View)
    requires v.committed <= |v.tape|
  {
    |ids| >= 2 && !(v.side.Side? && ids == v.tape[..v.committed])
  }

  /** A look of the run saw a cancel. */
  ghost predicate Saw(j: Job, run: Run) {
    !Unset(j.cancel, 2 * |run.trace| + 1)
  }

  /** A turn that is not cancelled and whose callback never loses a token completes, exactly
      when the prompt has an id to hold; otherwise the source's error says so. */
  lemma GeneratedCompletes(j: Job, before: State, run: Run, r: Outcome, after: State)
    requires Generated(j, before, run, r, after)
    ensures Admitted(r) && (r == Errored(NeedsHeld) <==> !Holds(j.prompt, before.v))
    ensures !Saw(j, run) && NeverLoses(j.p.listen) ==> (r.Completed? <==> Holds(j.prompt, before.v))
    ensures r.Aborted? <==> Holds(j.prompt, before.v) && Saw(j, run)
  {
    MarksGrow(j, before, run, r, after);
    RefusesIs(j, before);
    EndsHow(j, OpenOf(j, before), run, r, after);
    if run.ended.Done? {
      SettledAnswer(j, OpenOf(j, before), run, r, after);
      if NeverLoses(j.p.listen) {
        NeverDiverges(j.p, j.prompt, run.trace);
      }
    }
  }

  lemma RefusesIs(j: Job, before: State)
    requires Proper(j.net, before) && 0 !in before.tale
    ensures Refuses(j, |OpenOf(j, before).v.tape|) <==> !Holds(j.prompt, before.v)
  {
    if |j.prompt| >= 2 {
      OpenedAtEnd(j.net, before, j.prompt);
    }
  }

  /** A turn is refused, cancelled or done, and each shows in its outcome. */
  lemma EndsHow(j: Job, open: State, run: Run, r: Outcome, after: State)
    requires Took(j, open, run) && Settles(j, open, run, r, after)
    ensures Refuses(j, |run.c.rows|) <==> r == Errored(NeedsHeld)
    ensures r.Aborted? <==> !Refuses(j, |run.c.rows|) && Saw(j, run)
    ensures run.ended.Done? <==> !Refuses(j, |run.c.rows|) && !Saw(j, run)
    ensures run.ended.Done? || r.Aborted? || r == Errored(NeedsHeld)
  {
  }

  /** A turn that is not cancelled, and has an id to hold, is found diverged exactly when its
      callback dropped a token and injected none. */
  lemma DivergesExactly(j: Job, before: State, run: Run, r: Outcome, after: State)
    requires Generated(j, before, run, r, after) && !Saw(j, run) && Holds(j.prompt, before.v)
    ensures r == Errored(Diverged) <==> DropsEmpty(run.trace)
    ensures r.Completed? <==> !DropsEmpty(run.trace)
  {
    MarksGrow(j, before, run, r, after);
    GeneratedCompletes(j, before, run, r, after);
    SettledAnswer(j, OpenOf(j, before), run, r, after);
    LostIs(j.p, j.prompt, run.trace);
  }

  /** Why a completed answer ends: the budget is used, or its last window is the first that
      halted it. */
  lemma AnswerEnds(j: Job, before: State, run: Run, r: Outcome, after: State)
    requires Generated(j, before, run, r, after) && r.Completed?
    ensures |r.tokens| >= j.p.maxNew || (run.trace != [] && Halts(j.p.stops, Last(run.trace)))
    ensures forall i :: 0 <= i < |run.trace| - 1 ==> !Halts(j.p.stops, run.trace[i])
    ensures forall i :: 0 <= i < |run.trace| ==> RoomBefore(j.p, j.prompt, run.trace, i)
  {
    AnswerIs(j, before, run, r, after);
    RealStops(j.net, j.p, j.prompt, Filled(j, run.c), run.trace, j.index);
    forall i | 0 <= i < |run.trace|
      ensures RoomBefore(j.p, j.prompt, run.trace, i)
    {
      RealRoom(j.net, j.p, j.prompt, Filled(j, run.c), run.trace, j.index, i);
    }
  }

  // --- Rollback ---

  /** What a turn that did not complete leaves: what it began with. */
  function Stopped(v: View): View {
    if v.committed > 0 then v else v.(side := NoBlock)
  }

  /** Everything below the start is still as the turn found it. */
  ghost predicate Untouched(at: View, v: View) {
    && v.tape == at.tape && v.committed == at.committed == |at.tape| && v.snapshot == at.snapshot && v.kv == at.kv
    && |at.kv| == |at.tape|
    && at.side.Side? && v.side.Side? && |at.side.rows| == at.committed <= |v.side.rows|
    && v.side.rows[..at.committed] == at.side.rows
  }

  /** Rolling an untouched turn back brings back what it began with, exactly unless the
      commit was a blank copy (of a device runner that had never run) and a forward has
      moved the state since. */
  lemma UndoIsStopped(net: Net, at: State, v: View, ids: seq<Token>)
    requires Ready(net, at, ids) && Untouched(at.v, v) && at.v.snapshot.Some?
    ensures Undo(v, at.mark) == Stopped(at.v)
       <==> at.v.snapshot.value.Snap? || (v.g, v.ready) == (at.v.g, at.v.ready)
  {
    assert v.tape[..v.committed] == at.v.tape && v.kv[..v.committed] == at.v.kv;
  }

  lemma DuringUntouched(j: Job, before: State, run: Run, r: Outcome, after: State)
    requires Generated(j, before, run, r, after)
    ensures Untouched(OpenOf(j, before).v, During(OpenOf(j, before), run).v)
  {
    MarksGrow(j, before, run, r, after);
    DroveOver(j, run.c, OpenOf(j, before).tale, run.ended, run.trace, run.told, run.now);
  }

  /** A call that does not complete leaves the view it opened on. */
  lemma GeneratedReturns(j: Job, before: State, run: Run, r: Outcome, after: State)
    requires Generated(j, before, run, r, after) && !r.Completed? && OpenOf(j, before).v.snapshot != Some(Blank)
    ensures after.v == Stopped(OpenOf(j, before).v)
    ensures after.tale == if OpenOf(j, before).v.snapshot.None? then map[] else run.told
  {
    MarksGrow(j, before, run, r, after);
    DuringUntouched(j, before, run, r, after);
    var open := OpenOf(j, before);
    if open.v.snapshot.Some? {
      UndoIsStopped(j.net, open, During(open, run).v, j.prompt);
    }
  }

  // --- Truth ---

  lemma CommittedIsTrue(net: Net, open: State, text: seq<Token>, run: Run)
    requires Coupled(net, run.now, text)
    ensures Truth(net, Committed(open, text, run).v)
  {
    assert text[..|text|] == text;
  }

  /** An honest session answers as a cold one, and what it commits is true, when no forward
      of the turn restarts over its past, whatever marks lie above its commit. */
  lemma GeneratedIsTrue(j: Job, o: Oracle, before: State, run: Run, r: Outcome, after: State)
    requires Generated(j, before, run, r, after) && Honest(j.net, before) && r.Completed?
    requires Safe(j, run.c, run.trace) && Serves(o, j.net, j.index, j.p.k)
    ensures Scored(o, j.p, j.prompt, run.trace, true) && Truth(j.net, after.v)
  {
    OpenRoots(j, before, run, r, after);
    AnswerIs(j, before, run, r, after);
    DroveScored(j, o, run.c, OpenOf(j, before).tale, run.ended, run.trace, run.told, run.now);
    CommittedIsTrue(j.net, OpenOf(j, before), after.v.tape, run);
  }

  /** An honest session opens on a prefix that both caches hold. */
  lemma OpenRoots(j: Job, before: State, run: Run, r: Outcome, after: State)
    requires Generated(j, before, run, r, after) && Honest(j.net, before)
    ensures Honest(j.net, OpenOf(j, before)) && Ready(j.net, OpenOf(j, before), j.prompt) && Rooted(j, run.c)
    ensures Clean(before) ==> Clean(OpenOf(j, before))
  {
    OpenedIs(j.net, before, j.prompt);
    var v := OpenOf(j, before).v;
    assert v.tape[..v.committed] == v.tape;
  }

  /** The marks of a turn that opened with marks that agree with its prompt, and carried
      its past. */
  lemma ToldIsTrue(j: Job, open: State, run: Run)
    requires Ready(j.net, open, j.prompt) && Honest(j.net, open) && Agrees(j.net, open, j.prompt) && Rooted(j, run.c)
    requires Took(j, open, run) && !Refuses(j, |run.c.rows|) && Carried(run.c.ready, Suffix(j, |run.c.rows|))
    requires Grew(open.tale, run.told, |run.c.rows|, |j.prompt| - 1)
    ensures TellsAll(j.net, j.prompt, |j.prompt| - 1, run.told)
  {
    DroveTells(j, run.c, open.tale, run.ended, run.trace, run.told, run.now);
    OpenTells(j.net, open, j.prompt);
    TellsWith(j.net, j.prompt, |j.prompt| - 1, |run.c.rows|, open.tale, run.told);
  }

  /** Marks up to the commit are the tape's, the others the prompt's. */
  lemma OpenTells(net: Net, open: State, ids: seq<Token>)
    requires Ready(net, open, ids) && Honest(net, open) && Agrees(net, open, ids) && |open.v.tape| < |ids|
    ensures TellsAll(net, ids, |ids| - 1, open.tale)
  {
    var n := open.v.committed;
    forall p | p in open.tale
      ensures 0 < p <= |ids| - 1 && Tells(net, ids[..p], open.tale[p])
    {
      if p <= n {
        assert p in UpTo(open.tale, n);
        assert open.v.tape[..p] == ids[..|open.v.tape|][..p] == ids[..p];
      }
    }
  }

  lemma AllUpTo(st: State)
    requires Clean(st)
    ensures UpTo(st.tale, st.v.committed) == st.tale
  {
  }

  /** When no mark lay above the commit but such as agree with the prompt, the marks are
      true as well, and none lies above the new commit. */
  lemma GeneratedIsHonest(j: Job, before: State, run: Run, r: Outcome, after: State)
    requires Generated(j, before, run, r, after) && Honest(j.net, before) && r.Completed?
    requires Agrees(j.net, before, j.prompt)
    requires Safe(j, run.c, run.trace)
    ensures Honest(j.net, after) && Clean(after)
  {
    OracleOfServes(j.net, j.index, j.p.k);
    GeneratedIsTrue(j, OracleOf(j.net, j.index, j.p.k), before, run, r, after);
    OpenRoots(j, before, run, r, after);
    CommittedProper(j, before, run, r, after);
    OpenedAgrees(j.net, before, j.prompt);
    MarksGrow(j, before, run, r, after);
    ToldIsTrue(j, OpenOf(j, before), run);
    AnswerIs(j, before, run, r, after);
    ToldIsKept(j.net, j.p, j.prompt, run.trace, r, run.told, after);
  }

  lemma ToldIsKept(
      net: Net, p: Plan, ids: seq<Token>, trace: seq<Window>, r: Outcome, told: map<nat, Saved>, after: State)
    requires p.maxNew >= 1 && |ids| >= 1 && TellsAll(net, ids, |ids| - 1, told) && after.tale == told
    requires Truth(net, after.v)
    requires r.Completed? && Answered(p, ids, trace, r) && after.v.tape == Init(ids + r.tokens)
    requires |ids| - 1 <= |after.v.tape| == after.v.committed
    ensures Honest(net, after) && Clean(after)
  {
    var n := |ids| - 1;
    assert after.v.tape[..n] == ids[..n];
    TellsPrefix(net, ids, n, told, after.v.tape, after.v.committed);
    AllUpTo(after);
  }

  /** The marks that a call found above its commit, and that now lie within the new one,
      tell the text that is there. */
  ghost predicate LeftoversTell(net: Net, open: State, after: State) {
    forall p :: p in after.tale && Old(open.tale, after.tale, p) && open.v.committed < p <= after.v.committed ==>
      p <= |after.v.tape| && Tells(net, after.v.tape[..p], after.tale[p])
  }

  /** Exactly when a completed call leaves true marks: when the leftover ones it kept tell
      the text that it committed. */
  lemma GeneratedMarksAreExact(j: Job, before: State, run: Run, r: Outcome, after: State)
    requires Generated(j, before, run, r, after) && Honest(j.net, before) && r.Completed?
    requires Safe(j, run.c, run.trace)
    ensures Honest(j.net, after) <==> LeftoversTell(j.net, OpenOf(j, before), after)
  {
    OracleOfServes(j.net, j.index, j.p.k);
    GeneratedIsTrue(j, OracleOf(j.net, j.index, j.p.k), before, run, r, after);
    OpenRoots(j, before, run, r, after);
    CommittedProper(j, before, run, r, after);
    MarksGrow(j, before, run, r, after);
    DroveTells(j, run.c, OpenOf(j, before).tale, run.ended, run.trace, run.told, run.now);
    AnswerIs(j, before, run, r, after);
    KeptMarksTell(j.net, OpenOf(j, before), j.prompt, r.tokens, after);
  }

  lemma KeptMarksTell(net: Net, open: State, ids: seq<Token>, tokens: seq<Token>, after: State)
    requires Ready(net, open, ids) && Honest(net, open) && 1 <= |ids| && |open.v.tape| < |ids|
    requires Grew(open.tale, after.tale, open.v.committed, |ids| - 1) && NewTell(net, ids, open.tale, after.tale)
    requires after.v.tape == Init(ids + tokens) && Truth(net, after.v) && after.v.committed == |after.v.tape|
    requires 0 !in after.tale && |after.v.tape| >= |ids| - 1
    ensures Honest(net, after) <==> LeftoversTell(net, open, after)
  {
    var tape, told := after.v.tape, after.tale;
    forall p | p in told && p <= |tape|
      ensures 0 < p && ((Old(open.tale, told, p) && p > open.v.committed) || Tells(net, tape[..p], told[p]))
    {
      if !(Old(open.tale, told, p) && p > open.v.committed) {
        KeptMarkTells(net, open, ids, told, p);
        TapeStarts(ids, tokens, p);
      }
    }
    assert tape[..|tape|] == tape;
    HonestSplit(net, open, after);
  }

  /** It is enough to ask for the leftover marks when the others tell the text. */
  lemma HonestSplit(net: Net, open: State, after: State)
    requires Truth(net, after.v) && after.v.committed == |after.v.tape| && 0 !in after.tale
    requires forall p :: p in after.tale && p <= |after.v.tape| ==>
               (Old(open.tale, after.tale, p) && p > open.v.committed) || Tells(net, after.v.tape[..p], after.tale[p])
    ensures Honest(net, after) <==> LeftoversTell(net, open, after)
  {
    var tape, told := after.v.tape, after.tale;
    var low := UpTo(told, |tape|);
    assert forall p :: p in told && p <= |tape| ==> p in low && low[p] == told[p];
  }

  /** Every other mark tells the prompt. */
  lemma KeptMarkTells(net: Net, open: State, ids: seq<Token>, told: map<nat, Saved>, p: nat)
    requires Ready(net, open, ids) && Honest(net, open) && |open.v.tape| < |ids|
    requires Grew(open.tale, told, open.v.committed, |ids| - 1) && NewTell(net, ids, open.tale, told)
    requires p in told && 0 !in told && (Old(open.tale, told, p) ==> p <= open.v.committed)
    ensures 0 < p < |ids| && Tells(net, ids[..p], told[p])
  {
    if Old(open.tale, told, p) {
      assert p in UpTo(open.tale, open.v.committed);
      assert open.v.tape[..p] == ids[..|open.v.tape|][..p] == ids[..p];
    }
  }

  lemma TapeStarts(ids: seq<Token>, tokens: seq<Token>, p: nat)
    requires p < |ids|
    ensures Init(ids + tokens)[..p] == ids[..p]
  {
  }

  /** The marks of a call that does not complete agree with its prompt, when those it found
      did and its prefill carries. */
  lemma AbandonedAgrees(j: Job, before: State, run: Run, r: Outcome, after: State)
    requires Generated(j, before, run, r, after) && Honest(j.net, before) && !r.Completed?
    requires Agrees(j.net, before, j.prompt) && Carried(run.c.ready, Suffix(j, |run.c.rows|))
    ensures Agrees(j.net, after, j.prompt)
  {
    OpenRoots(j, before, run, r, after);
    MarksGrow(j, before, run, r, after);
    GeneratedReturns(j, before, run, r, after);
    OpenedAgrees(j.net, before, j.prompt);
    if !Refuses(j, |run.c.rows|) {
      ToldIsTrue(j, OpenOf(j, before), run);
    }
  }

  /** A call that does not complete leaves an honest session honest, whatever its forwards
      restarted: what it wrote and marked lies above the commit. */
  lemma AbandonedIsHonest(j: Job, before: State, run: Run, r: Outcome, after: State)
    requires Generated(j, before, run, r, after) && Honest(j.net, before) && !r.Completed?
    ensures Honest(j.net, after)
    ensures Clean(before) && (run.ended.Failed? || j.limit == 0 || !j.device) ==> Clean(after)
  {
    OpenRoots(j, before, run, r, after);
    MarksGrow(j, before, run, r, after);
    GeneratedReturns(j, before, run, r, after);
    AbandonedParts(j, OpenOf(j, before), run, after);
  }

  lemma AbandonedParts(j: Job, open: State, run: Run, after: State)
    requires Honest(j.net, open) && Ready(j.net, open, j.prompt) && Took(j, open, run)
    requires Refuses(j, |run.c.rows|) ==> run.told == open.tale
    requires !Refuses(j, |run.c.rows|) ==> Grew(open.tale, run.told, |run.c.rows|, |j.prompt| - 1)
    requires after.v == Stopped(open.v) && after.tale == if open.v.snapshot.None? then map[] else run.told
    ensures Honest(j.net, after)
    ensures Clean(open) && (run.ended.Failed? || j.limit == 0 || !j.device) ==> Clean(after)
  {
    if j.limit == 0 || !j.device {
      MarkedAlongNone(j.net, run.c, j.prompt, Suffix(j, |run.c.rows|), j.limit, j.device, open.tale, run.told);
    }
    if open.v.snapshot.None? {
      ZeroedIsHonest(j.net);
      assert UpTo(after.tale, after.v.committed) == after.tale;
    } else {
      LowMarksStay(j.net, open, run.told, |j.prompt| - 1, after);
    }
  }

  /** Marks added above the commit leave those up to it alone. */
  lemma LowMarksStay(net: Net, open: State, told: map<nat, Saved>, high: int, after: State)
    requires Honest(net, open) && open.v.committed == |open.v.tape| && open.v.side.Side?
    requires told == open.tale || (high >= 0 && Grew(open.tale, told, open.v.committed, high))
    requires after.v == Stopped(open.v) && after.tale == told
    ensures Honest(net, after)
    ensures Clean(open) && told == open.tale ==> Clean(after)
  {
    var n := open.v.committed;
    forall p | p in told && p <= n
      ensures 0 < p <= n && Tells(net, open.v.tape[..p], told[p])
    {
      assert Old(open.tale, told, p);
      assert p in UpTo(open.tale, n);
    }
  }

  // --- When no forward restarts ---

  /** A prompt that is ready to be served cold or warm: it is longer than the chunk kernel's
      floor, and no extra cut lies below it. */
  predicate Ample(ids: seq<Token>, cuts: seq<nat>) {
    |ids| > GdnWindow.CHUNK_KERNEL && forall c :: c in cuts ==> c >= GdnWindow.CHUNK_KERNEL
  }

  lemma AmpleWarms(j: Job, ready: bool, start: nat)
    requires Ample(j.prompt, j.cuts) && (start > 0 ==> ready)
    ensures Warms(ready, Suffix(j, start))
  {
    if start == 0 {
      FirstIsLong(|j.prompt|, j.cuts, GdnWindow.CHUNK_KERNEL);
    }
  }

  /** Ample prompts never restart a warm session, and leave it warm. */
  lemma GeneratedWarm(j: Job, before: State, run: Run, r: Outcome, after: State)
    requires Generated(j, before, run, r, after) && Warm(before) && Ample(j.prompt, j.cuts)
    ensures Safe(j, run.c, run.trace) && Warm(after)
  {
    MarksGrow(j, before, run, r, after);
    OpenedIs(j.net, before, j.prompt);
    var open := OpenOf(j, before);
    AmpleWarms(j, run.c.ready, |run.c.rows|);
    DroveWarm(j, run.c, open.tale, run.ended, run.trace, run.told, run.now);
    SettlesWarm(j, open, run, r, after);
  }

  lemma SettlesWarm(j: Job, open: State, run: Run, r: Outcome, after: State)
    requires Settles(j, open, run, r, after) && Warm(open) && NewReady(open.tale, run.told)
    requires run.ended.Done? ==> run.now.ready
    ensures Warm(after)
  {
  }

  /** Exactly when a completed turn commits the truth: on the network that latches its first
      id, if and only if no forward of the turn restarted over its past. */
  lemma GeneratedIsExact(j: Job, before: State, run: Run, r: Outcome, after: State, base: Net, b: Rec, x0: Inp, x1: Inp)
    requires Tell(base, b, x0, x1) && j.net == Latch(base, b, x0, x1, 1)
    requires Generated(j, before, run, r, after) && Honest(j.net, before) && r.Completed?
    ensures Truth(j.net, after.v) <==> Safe(j, run.c, run.trace)
  {
    OpenRoots(j, before, run, r, after);
    AnswerIs(j, before, run, r, after);
    DroveIsExact(j, run.c, OpenOf(j, before).tale, run.ended, run.trace, run.told, run.now, base, b, x0, x1);
    if Safe(j, run.c, run.trace) {
      OracleOfServes(j.net, j.index, j.p.k);
      GeneratedIsTrue(j, OracleOf(j.net, j.index, j.p.k), before, run, r, after);
    }
  }

  // --- A turn without the draft side ---

  /** A commit that has no draft side. */
  ghost predicate CommittedAlone(during: State, after: State) {
    && after == during.(v := during.v.(committed := |during.v.tape|, snapshot := after.v.snapshot), mark := None)
    && (after.v.snapshot == Some(Snap(during.v.g, during.v.ready))
        || (during.v.tape == [] && after.v.snapshot == Some(Blank)))
  }

  /** The session after `n` spans of a turn. */
  ghost function WalkedTo(net: Net, from: State, ids: seq<Token>, n: nat): State
    requires |from.v.tape| <= |ids| && n <= |Whole(|from.v.tape|, |ids|)|
  {
    Walked(net, from, ids, Whole(|from.v.tape|, |ids|), Lead(net, from.v), n)
  }

  /** A turn forwards `n` of its spans: all of them and commits, or fewer and rolls back. */
  ghost predicate Turned(net: Net, st: State, ids: seq<Token>, n: nat, r: Outcome, after: State)
    requires Proper(net, st)
  {
    var from := TurnFrom(net, st, ids);
    && |from.v.tape| <= |ids| && n <= |Whole(|from.v.tape|, |ids|)|
    && TurnEnds(net, n == |Whole(|from.v.tape|, |ids|)|, WalkedTo(net, from, ids, n), r, after)
  }

  /** It commits when it is done, and is rolled back when it is not. */
  ghost predicate TurnEnds(net: Net, done: bool, during: State, r: Outcome, after: State) {
    if done then r == Completed([], 0, 0) && CommittedAlone(during, after)
    else r == Aborted([]) && Undoable(during) && after == Canceled(net, during)
  }

  /** Span by span only what lies above the tape moves. */
  lemma WalkedToIs(net: Net, from: State, ids: seq<Token>, n: nat)
    requires Proper(net, from) && |from.v.tape| <= |ids| && from.v.tape == ids[..|from.v.tape|]
    requires n <= |Whole(|from.v.tape|, |ids|)|
    ensures var during, m := WalkedTo(net, from, ids, n), |from.v.tape|;
            && m <= |during.v.tape| == |during.v.kv| <= |ids| && during.v.tape == ids[..|during.v.tape|]
            && during.v.kv[..m] == from.v.kv && (n == |Whole(m, |ids|)| ==> during.v.tape == ids)
            && during == from.(v := from.v.(
                 tape := during.v.tape, g := during.v.g, ready := during.v.ready, kv := during.v.kv))
  {
    var m := |from.v.tape|;
    assert from.v.kv[..m] == from.v.kv && ids[..|ids|] == ids;
    if n > 0 {
      WalkedPart(net, Lead(net, from.v), ids, Whole(m, |ids|), m, n);
    }
  }

  lemma WalkedPart(net: Net, c: Core, ids: seq<Token>, spans: seq<Span>, m: nat, n: nat)
    requires |c.m.kv| == |c.rows| == m && Partition(spans, m, |ids|) && 1 <= n <= |spans|
    requires forall i :: 0 <= i < |spans| ==> spans[i].0 < spans[i].1 <= |ids|
    ensures var end, r := spans[n - 1].1, FedAll(net, c, ids, spans[..n]);
            m <= end <= |ids| && (n == |spans| ==> end == |ids|) && |r.m.kv| == end && r.m.kv[..m] == c.m.kv
  {
    var some, end := spans[..n], spans[n - 1].1;
    assert Partition(some, m, end);
    SpanStartsInside(some, m, end, n - 1);
    FedAllSize(net, c, ids, some, m, end);
    FedAllOver(net, c, ids, some);
  }

  lemma TurnedProper(net: Net, st: State, ids: seq<Token>, n: nat, r: Outcome, after: State)
    requires Proper(net, st) && 0 !in st.tale && Turned(net, st, ids, n, r, after)
    ensures Proper(net, after) && 0 !in after.tale
    ensures r.Completed? ==> after.v.tape == ids && after.v.committed == |ids| && after.v.side.NoBlock?
  {
    TurnFromIs(net, st, ids);
    WalkedToIs(net, TurnFrom(net, st, ids), ids, n);
    if !r.Completed? {
      CanceledProper(net, WalkedTo(net, TurnFrom(net, st, ids), ids, n));
    }
  }

  /** A completed turn commits what is resident: true, if its spans carried what was there
      and the marks above the commit agreed with its prompt. */
  lemma TurnedIsHonest(net: Net, st: State, ids: seq<Token>, n: nat, r: Outcome, after: State)
    requires Proper(net, st) && 0 !in st.tale && Turned(net, st, ids, n, r, after) && Honest(net, st)
    requires Agrees(net, st, ids)
    requires var from := TurnFrom(net, st, ids);
             r.Completed? && Carried(from.v.ready, Whole(|from.v.tape|, |ids|)) && after.v.snapshot != Some(Blank)
    ensures Honest(net, after)
  {
    TurnFromIs(net, st, ids);
    var from := TurnFrom(net, st, ids);
    WalkedToIs(net, from, ids, n);
    WalkedIsHonest(net, from, ids, Whole(|from.v.tape|, |ids|), |ids|);
    TurnFromAgrees(net, st, ids);
    CommittedAloneIsHonest(net, WalkedTo(net, from, ids, n), after);
  }

  /** Exactly when: on the network that latches its first id, if and only if no span restarts. */
  lemma TurnedIsExact(
    net: Net, st: State, ids: seq<Token>, n: nat, r: Outcome, after: State, base: Net, b: Rec, x0: Inp, x1: Inp)
    requires Tell(base, b, x0, x1) && net == Latch(base, b, x0, x1, 1)
    requires Proper(net, st) && 0 !in st.tale && Turned(net, st, ids, n, r, after) && Honest(net, st) && r.Completed?
    requires ids != []
    ensures var from := TurnFrom(net, st, ids);
            |from.v.tape| <= |ids| && (Truth(net, after.v) <==> Carried(from.v.ready, Whole(|from.v.tape|, |ids|)))
  {
    TurnFromIs(net, st, ids);
    var from := TurnFrom(net, st, ids);
    WalkedToIs(net, from, ids, n);
    WalkedIsExact(net, from, ids, Whole(|from.v.tape|, |ids|), |ids|, base, b, x0, x1);
    CommittedAloneIsTrue(net, from, ids, WalkedTo(net, from, ids, n), after);
  }

  lemma CommittedAloneIsTrue(net: Net, from: State, ids: seq<Token>, during: State, after: State)
    requires Truth(net, from.v) && from.v.side.NoBlock? && from.v.tape <= ids && during.v.tape == ids != []
    requires CommittedAlone(during, after)
    requires during == from.(v := from.v.(
               tape := during.v.tape, g := during.v.g, ready := during.v.ready, kv := during.v.kv))
    ensures Truth(net, after.v) <==> Truth(net, during.v)
  {
    assert ids[..|ids|] == ids && ids[..from.v.committed] == from.v.tape[..from.v.committed];
  }

  /** A turn that is cancelled leaves the commit it rewound to, without its draft side. */
  lemma TurnedReturns(net: Net, st: State, ids: seq<Token>, n: nat, r: Outcome, after: State)
    requires Proper(net, st) && 0 !in st.tale && Turned(net, st, ids, n, r, after) && Honest(net, st) && !r.Completed?
    ensures Honest(net, after)
    ensures var from := TurnFrom(net, st, ids).v;
            after.v == if from.snapshot.None? then Fresh(net) else ToCommit(from)
  {
    TurnFromIs(net, st, ids);
    var from := TurnFrom(net, st, ids);
    WalkedToIs(net, from, ids, n);
    AbortedIsHonest(net, from, WalkedTo(net, from, ids, n), after);
  }

  lemma CommittedAloneIsHonest(net: Net, during: State, after: State)
    requires Honest(net, during) && Agrees(net, during, during.v.tape)
    requires during.v.side.NoBlock? && CommittedAlone(during, after)
    requires after.v.snapshot != Some(Blank)
    ensures Honest(net, after)
  {
    var tape := during.v.tape;
    assert tape[..|tape|] == tape;
    forall p | p in during.tale
      ensures 0 < p <= |tape| && Tells(net, tape[..p], during.tale[p])
    {
      assert p <= during.v.committed ==> p in UpTo(during.tale, during.v.committed);
    }
  }

  lemma AbortedIsHonest(net: Net, from: State, during: State, after: State)
    requires Honest(net, from) && Proper(net, from) && from.v.side.NoBlock? && Undoable(during)
    requires after == Canceled(net, during)
    requires |from.v.tape| <= |during.v.tape| && during.v.tape[..|from.v.tape|] == from.v.tape
    requires |from.v.tape| <= |during.v.kv| && during.v.kv[..|from.v.tape|] == from.v.kv
    requires during == from.(v := from.v.(
               tape := during.v.tape, g := during.v.g, ready := during.v.ready, kv := during.v.kv))
    ensures Honest(net, after)
    ensures after.v == if from.v.snapshot.None? then Fresh(net) else ToCommit(from.v)
  {
    var n := from.v.committed;
    if from.v.snapshot.None? {
      ZeroedIsHonest(net);
    } else {
      assert during.v.tape[..n] == from.v.tape[..n] && during.v.kv[..n] == from.v.kv[..n];
      ToCommitIsTrue(net, from.v);
      TellsUpTo(net, from.v.tape, n, UpTo(from.tale, n), n, after.v.tape);
      UpToTwice(from.tale, n, n);
    }
  }
}
