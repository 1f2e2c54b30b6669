/** One generation at a time: the worker's shared flags, the service task of each
    request, and the durable rows, as atomic steps that interleave freely.

    `stuck` and `asked` only record history; no step reads them to decide.  `used`
    stands for ids being drawn anew for each request. */
module Supervisor {
  import opened Options
  type Id = int

  datatype Status = InProgress | Ended(code: string, snapshot: bool)

  /** How far a request has come.  `Stuck` could not write its terminal row. */
  datatype Phase = Admitted | Pending | Cleared | Begun | Unbegun | Stored | Stuck | Closed

  datatype State = State(
    up: bool,
    busy: bool,
    pending: Option<Id>,
    cancelled: Option<Id>,
    phases: map<Id, Phase>,
    cancels: set<Id>,
    rows: map<Id, Status>,
    stuck: set<Id>,
    asked: set<Id>,
    used: set<Id>)

  datatype Step =
    | Admit(id: Id)             // the compare-and-swap of `busy` succeeds
    | SetPending(id: Id)
    | ClearCancelled(id: Id)
    | BeginRow(id: Id, ok: bool)
    | ReadCancel(id: Id)        // a cancel finds `id` pending ...
    | MarkCancel(id: Id)        // ... and marks it later
    | FinishRow(id: Id, code: string, snapshot: bool, ok: bool)
    | Release(id: Id)           // the task's own release, or any later one
    | Crash
    | Reopen(id: Id)
    | Serve

  const INIT := State(true, false, None, None, map[], {}, map[], {}, {}, {})

  predicate Live(s: State, id: Id) {
    id in s.phases && s.phases[id] != Closed
  }

  predicate Open(rows: map<Id, Status>, id: Id) {
    id in rows && rows[id] == InProgress
  }

  predicate IsCancelled(s: State, id: Id) {
    s.cancelled == Some(id)
  }

  function To(s: State, id: Id, p: Phase): State {
    s.(phases := s.phases[id := p])
  }

  predicate At(s: State, id: Id, p: Phase) {
    s.up && id in s.phases && s.phases[id] == p
  }

  /** Whether a step can be taken. */
  predicate Enabled(s: State, step: Step) {
    match step
    case Admit(id) => s.up && !s.busy && id !in s.used
    case SetPending(id) => At(s, id, Admitted)
    case ClearCancelled(id) => At(s, id, Pending)
    case BeginRow(id, ok) => At(s, id, Cleared)
    case ReadCancel(id) => s.up && s.pending == Some(id)
    case MarkCancel(id) => s.up && id in s.cancels
    case FinishRow(id, code, snapshot, ok) => At(s, id, Begun) && (ok && code == "completed" ==> snapshot)
    case Release(id) => At(s, id, Unbegun) || At(s, id, Stored) || At(s, id, Stuck) || At(s, id, Closed)
    case Crash => s.up
    case Reopen(id) => !s.up && Open(s.rows, id)
    case Serve => !s.up && forall id :: id in s.rows ==> !Open(s.rows, id)
  }

  function Next(s: State, step: Step): State
    requires Enabled(s, step)
  {
    match step
    case Admit(id) => To(s, id, Admitted).(busy := true, used := s.used + {id})
    case SetPending(id) => To(s, id, Pending).(pending := Some(id))
    case ClearCancelled(id) => To(s, id, Cleared).(cancelled := None)
    case BeginRow(id, ok) => if ok then To(s, id, Begun).(rows := s.rows[id := InProgress]) else To(s, id, Unbegun)
    case ReadCancel(id) => s.(cancels := s.cancels + {id}, asked := s.asked + {id})
    case MarkCancel(id) => s.(cancelled := Some(id), cancels := s.cancels - {id})
    case FinishRow(id, code, snapshot, ok) => Finish(s, id, code, snapshot, ok)
    case Release(id) =>
      if s.pending == Some(id) then To(s, id, Closed).(pending := None, busy := false) else To(s, id, Closed)
    case Crash => State(false, false, None, None, map[], {}, s.rows, s.stuck, s.asked, s.used)
    case Reopen(id) => s.(rows := s.rows[id := Ended("failed", false)])
    case Serve => s.(up := true, stuck := {})
  }

  /** The update applies only to a row in progress; a snapshot is kept only when completed. */
  function Finish(s: State, id: Id, code: string, snapshot: bool, ok: bool): State
    requires id in s.phases
  {
    if !ok then To(s, id, Stuck).(stuck := s.stuck + {id})
    else if Open(s.rows, id) then To(s, id, Stored).(rows := s.rows[id := Ended(code, snapshot && code == "completed")])
    else To(s, id, Stored)
  }

  /** What every reachable state keeps. */
  ghost predicate Inv(s: State) {
    && (s.up || (!s.busy && s.pending.None? && s.cancelled.None? && s.phases == map[] && s.cancels == {}))
    && s.phases.Keys <= s.used && s.rows.Keys <= s.used
    && (forall i, j :: Live(s, i) && Live(s, j) ==> i == j)
    && (s.busy <==> exists id :: Live(s, id))
    && (s.pending.Some? ==> Live(s, s.pending.value) && s.phases[s.pending.value] != Admitted)
    && (forall id :: Live(s, id) && s.phases[id] != Admitted ==> s.pending == Some(id))
    && (forall id :: id in s.phases && s.phases[id] == Begun ==> Open(s.rows, id))
    && (forall id :: id in s.phases && (s.phases[id] == Admitted || s.phases[id] == Pending || s.phases[id] == Cleared)
                     ==> id !in s.rows)
    && (forall id :: Open(s.rows, id) && s.up ==> id in s.stuck || (id in s.phases && s.phases[id] == Begun))
    && (s.cancelled.Some? ==> s.cancelled.value in s.asked) && s.cancels <= s.asked
    && (forall id :: id in s.rows && s.rows[id].Ended? && s.rows[id].code == "completed" ==> s.rows[id].snapshot)
  }

  lemma InitHolds()
    ensures Inv(INIT)
  {
  }

  lemma AdmitKeeps(s: State, id: Id)
    requires Inv(s) && Enabled(s, Admit(id))
    ensures Inv(Next(s, Admit(id)))
  {
    var t := Next(s, Admit(id));
    assert Live(t, id);
    assert forall j :: Live(t, j) <==> j == id || Live(s, j);
  }

  lemma ReleaseKeeps(s: State, id: Id)
    requires Inv(s) && Enabled(s, Release(id))
    ensures Inv(Next(s, Release(id)))
  {
    var t := Next(s, Release(id));
    if s.phases[id] == Closed {
      assert t == s;
    } else {
      assert Live(s, id) && s.pending == Some(id);
      forall j
        ensures !Live(t, j)
      {
        assert Live(t, j) ==> Live(s, j);
      }
    }
  }

  lemma OtherKeeps(s: State, step: Step)
    requires Inv(s) && Enabled(s, step) && !step.Admit? && !step.Release?
    ensures Inv(Next(s, step))
  {
    var t := Next(s, step);
    if !step.Crash? {
      assert !step.Serve? && step.id in s.phases ==> (Live(s, step.id) <==> Live(t, step.id));
      assert forall j :: Live(t, j) <==> Live(s, j);
    }
  }

  /** Every step keeps it. */
  lemma StepKeeps(s: State, step: Step)
    requires Inv(s) && Enabled(s, step)
    ensures Inv(Next(s, step))
  {
    if step.Admit? {
      AdmitKeeps(s, step.id);
    } else if step.Release? {
      ReleaseKeeps(s, step.id);
    } else {
      OtherKeeps(s, step);
    }
  }

  /** The states of an interleaving, from `s` on. */
  ghost predicate Runs(s: State, steps: seq<Step>, t: State)
    decreases |steps|
  {
    if steps == [] then s == t else Enabled(s, steps[0]) && Runs(Next(s, steps[0]), steps[1..], t)
  }

  /** In every interleaving: one live request, `pending` only while busy, and one row in
      progress unless a terminal write failed. */
  lemma {:induction false} RunKeeps(s: State, steps: seq<Step>, t: State)
    requires Inv(s) && Runs(s, steps, t)
    ensures Inv(t)
    ensures t.pending.Some? ==> t.busy
    ensures forall i, j :: Live(t, i) && Live(t, j) ==> i == j
    ensures t.up && t.stuck == {} ==> forall i, j :: Open(t.rows, i) && Open(t.rows, j) ==> i == j
    decreases |steps|
  {
    if steps != [] {
      StepKeeps(s, steps[0]);
      RunKeeps(Next(s, steps[0]), steps[1..], t);
    } else if t.up && t.stuck == {} {
      assert forall i :: Open(t.rows, i) ==> Live(t, i);
    }
  }

  /** So in every state that the supervisor can reach from its start. */
  lemma ReachableKeeps(steps: seq<Step>, t: State)
    requires Runs(INIT, steps, t)
    ensures Inv(t)
    ensures t.pending.Some? ==> t.busy
    ensures forall i, j :: Live(t, i) && Live(t, j) ==> i == j
    ensures t.up && t.stuck == {} ==> forall i, j :: Open(t.rows, i) && Open(t.rows, j) ==> i == j
  {
    InitHolds();
    RunKeeps(INIT, steps, t);
  }

  /** A row that has ended keeps its one terminal status over every later step, crash
      and reopen. */
  lemma {:induction false} EndedOnce(s: State, steps: seq<Step>, t: State, id: Id)
    requires Inv(s) && Runs(s, steps, t) && id in s.rows && s.rows[id].Ended?
    ensures id in t.rows && t.rows[id] == s.rows[id]
    decreases |steps|
  {
    if steps != [] {
      StepKeeps(s, steps[0]);
      EndedOnce(Next(s, steps[0]), steps[1..], t, id);
    }
  }

  /** A release after the task's own changes nothing, whoever runs now. */
  lemma LateRelease(s: State, id: Id)
    requires Inv(s) && Enabled(s, Release(id)) && s.phases[id] == Closed
    ensures Next(s, Release(id)) == s
  {
    assert !Live(s, id);
    assert s.phases[id := Closed] == s.phases;
  }

  /** The last word of a run on whether `id` is cancelled: its own start clears the
      mark, and a cancel of any id writes it. */
  datatype Word = Silent | Clears | Marks(id: Id)

  function LastWord(steps: seq<Step>, id: Id): Word {
    if steps == [] then Silent
    else
      var later := LastWord(steps[1..], id);
      if later != Silent then later
      else match steps[0]
           case ClearCancelled(j) => if j == id then Clears else Silent
           case MarkCancel(j) => Marks(j)
           case _ => Silent
  }

  /** No step brings a generation back: ids are not drawn twice. */
  lemma LiveStep(s: State, step: Step, id: Id)
    requires Enabled(s, step) && id in s.used && Live(Next(s, step), id)
    ensures Live(s, id) && id in Next(s, step).used
  {
  }

  /** A generation that is live at the end of a run, and was there before it, was live
      all along. */
  lemma {:induction false} LiveBefore(s: State, steps: seq<Step>, t: State, id: Id)
    requires Inv(s) && Runs(s, steps, t) && Live(t, id) && id in s.used
    ensures Live(s, id)
    decreases |steps|
  {
    if steps != [] {
      var next := Next(s, steps[0]);
      assert id in next.used;
      StepKeeps(s, steps[0]);
      LiveBefore(next, steps[1..], t, id);
      LiveStep(s, steps[0], id);
    }
  }

  /** What interleavings do to a cancel: at the end of a run, a live generation is marked
      exactly when the last word on it was a cancel of its own, or nobody spoke and it was
      marked before.  A mark is lost when its own start clears it, or when a cancel of
      another generation, however old, is written after it. */
  lemma {:induction false} MarkedAtEnd(s: State, steps: seq<Step>, t: State, id: Id)
    requires Inv(s) && Runs(s, steps, t) && Live(t, id) && id in s.used
    ensures IsCancelled(t, id) <==>
              LastWord(steps, id) == Marks(id) || (LastWord(steps, id) == Silent && IsCancelled(s, id))
    decreases |steps|
  {
    if steps != [] {
      var next := Next(s, steps[0]);
      StepKeeps(s, steps[0]);
      LiveBefore(s, steps, t, id);
      LiveBefore(next, steps[1..], t, id);
      MarkedAtEnd(next, steps[1..], t, id);
      if steps[0].ClearCancelled? {
        assert Live(s, steps[0].id);
      }
    }
  }

  /** A generation that nobody asked to cancel while it was pending is never marked. */
  lemma {:induction false} NeverMarked(s: State, steps: seq<Step>, t: State, id: Id)
    requires Inv(s) && Runs(s, steps, t) && id !in t.asked
    ensures !IsCancelled(t, id)
    decreases |steps|
  {
    RunKeeps(s, steps, t);
  }

  /** Reopening leaves no row in progress. */
  lemma {:induction false} ServeIsClean(s: State, steps: seq<Step>, t: State)
    requires Inv(s) && Runs(s, steps, t) && Enabled(t, Serve)
    ensures forall id :: id in Next(t, Serve).rows ==> Next(t, Serve).rows[id].Ended?
    ensures Inv(Next(t, Serve)) && Next(t, Serve).stuck == {} && !Next(t, Serve).busy
  {
    RunKeeps(s, steps, t);
    StepKeeps(t, Serve);
    assert forall id :: id in t.rows && !t.rows[id].Ended? ==> Open(t.rows, id);
  }

  /** A crash, and what follows it until the next start and beyond: every row that was in
      progress has failed, without a snapshot. */
  lemma {:induction false} CrashFails(s: State, steps: seq<Step>, t: State, id: Id)
    requires Inv(s) && s.up && Open(s.rows, id) && Runs(Next(s, Crash), steps, t) && t.up
    ensures id in t.rows && t.rows[id] == Ended("failed", false)
  {
    StepKeeps(s, Crash);
    DownFails(Next(s, Crash), steps, t, id);
  }

  lemma {:induction false} DownFails(s: State, steps: seq<Step>, t: State, id: Id)
    requires Inv(s) && !s.up && Open(s.rows, id) && Runs(s, steps, t) && t.up
    ensures id in t.rows && t.rows[id] == Ended("failed", false)
    decreases |steps|
  {
    StepKeeps(s, steps[0]);
    var next := Next(s, steps[0]);
    if steps[0] == Reopen(id) {
      EndedOnce(next, steps[1..], t, id);
    } else {
      DownFails(next, steps[1..], t, id);
    }
  }

  ghost function OpenRows(s: State): set<Id> {
    set id | id in s.rows && Open(s.rows, id)
  }

  /** A server that is down can always come back. */
  lemma {:induction false} Recovers(s: State) returns (steps: seq<Step>, t: State)
    requires Inv(s) && !s.up
    ensures Runs(s, steps, t) && t.up
    decreases |OpenRows(s)|
  {
    if exists id :: id in s.rows && Open(s.rows, id) {
      var id :| id in s.rows && Open(s.rows, id);
      var next := Next(s, Reopen(id));
      StepKeeps(s, Reopen(id));
      assert OpenRows(next) == OpenRows(s) - {id} && id in OpenRows(s);
      var rest;
      rest, t := Recovers(next);
      steps := [Reopen(id)] + rest;
      RunCons(s, Reopen(id), rest, t);
    } else {
      t := Next(s, Serve);
      steps := [Serve] + [];
      RunCons(s, Serve, [], t);
    }
  }

  /** How many steps a request still has before it. */
  function Ahead(p: Phase): nat {
    match p
    case Admitted => 5
    case Pending => 4
    case Cleared => 3
    case Begun => 2
    case Closed => 0
    case _ => 1
  }

  /** The next step of a request, when nothing can be written for it. */
  function Onwards(id: Id, p: Phase): Step {
    match p
    case Admitted => SetPending(id)
    case Pending => ClearCancelled(id)
    case Cleared => BeginRow(id, false)
    case Begun => FinishRow(id, "failed", false, false)
    case _ => Release(id)
  }

  /** A request can always be brought to its end, and then the next one is let in. */
  lemma {:induction false} CanEnd(s: State, id: Id) returns (steps: seq<Step>, t: State)
    requires Inv(s) && s.up && Live(s, id)
    ensures Runs(s, steps, t) && t.up && !t.busy && t.used == s.used
    decreases Ahead(s.phases[id])
  {
    var step := Onwards(id, s.phases[id]);
    var next := Next(s, step);
    StepKeeps(s, step);
    if Live(next, id) {
      var rest;
      rest, t := CanEnd(next, id);
      steps := [step] + rest;
      RunCons(s, step, rest, t);
    } else {
      t := next;
      steps := [step] + [];
      RunCons(s, step, [], t);
    }
  }

  /** Every status that a row ends with was written: by a finish of its own request, with that
      code, and a snapshot only when it completed; or it is a failure of a reopening. */
  lemma {:induction false} EndedWasWritten(s: State, steps: seq<Step>, t: State, id: Id) returns (k: nat)
    requires Inv(s) && Runs(s, steps, t) && id in t.rows && t.rows[id].Ended?
    requires !(id in s.rows && s.rows[id].Ended?)
    ensures k < |steps|
    ensures steps[k] == Reopen(id) ==> t.rows[id] == Ended("failed", false)
    ensures steps[k] != Reopen(id) ==>
              && steps[k].FinishRow? && steps[k].id == id && steps[k].ok && steps[k].code == t.rows[id].code
              && (t.rows[id].snapshot <==> steps[k].snapshot && steps[k].code == "completed")
    decreases |steps|
  {
    var next := Next(s, steps[0]);
    StepKeeps(s, steps[0]);
    if id in next.rows && next.rows[id].Ended? {
      EndedOnce(next, steps[1..], t, id);
      k := 0;
    } else {
      var later := EndedWasWritten(next, steps[1..], t, id);
      k := later + 1;
    }
  }

  /** A row was begun by its own request, in a write that went through. */
  lemma {:induction false} RowWasBegun(s: State, steps: seq<Step>, t: State, id: Id)
    requires Inv(s) && Runs(s, steps, t) && id in t.rows && id !in s.rows
    ensures BeginRow(id, true) in steps
    decreases |steps|
  {
    var next := Next(s, steps[0]);
    StepKeeps(s, steps[0]);
    if id !in next.rows {
      RowWasBegun(next, steps[1..], t, id);
    }
  }

  /** A finish that could be written is what the row says ever after. */
  lemma {:induction false} WrittenStays(s: State, id: Id, code: string, snapshot: bool, steps: seq<Step>, t: State)
    requires Inv(s) && Enabled(s, FinishRow(id, code, snapshot, true))
    requires Runs(Next(s, FinishRow(id, code, snapshot, true)), steps, t)
    ensures id in t.rows && t.rows[id] == Ended(code, snapshot && code == "completed")
  {
    StepKeeps(s, FinishRow(id, code, snapshot, true));
    EndedOnce(Next(s, FinishRow(id, code, snapshot, true)), steps, t, id);
  }

  /** Only a request that finished as completed, with its snapshot, can be read as a parent. */
  lemma ParentCompleted(steps: seq<Step>, t: State, id: Id)
    requires Runs(INIT, steps, t) && Parent(t, id)
    ensures FinishRow(id, "completed", true, true) in steps
  {
    InitHolds();
    var k := EndedWasWritten(INIT, steps, t, id);
    assert steps[k] in steps;
  }

  /** A parent that can be read once can be read ever after: it completed, with its snapshot. */
  predicate Parent(s: State, id: Id) {
    id in s.rows && s.rows[id] == Ended("completed", true)
  }

  lemma ParentStays(s: State, steps: seq<Step>, t: State, id: Id)
    requires Inv(s) && Runs(s, steps, t) && Parent(s, id)
    ensures Parent(t, id)
  {
    EndedOnce(s, steps, t, id);
  }

  function Starting(id: Id): seq<Step> {
    [Admit(id), SetPending(id), ClearCancelled(id), BeginRow(id, true)]
  }

  lemma Starts(s: State, id: Id) returns (t: State)
    requires s.up && !s.busy && id !in s.used
    ensures Runs(s, Starting(id), t)
    ensures t == s.(busy := true, pending := Some(id), cancelled := None, phases := s.phases[id := Begun],
                    rows := s.rows[id := InProgress], used := s.used + {id})
  {
    var a := Next(s, Admit(id));
    var b := Next(a, SetPending(id));
    var c := Next(b, ClearCancelled(id));
    t := Next(c, BeginRow(id, true));
    RunCons(c, BeginRow(id, true), [], t);
    RunCons(b, ClearCancelled(id), [BeginRow(id, true)], t);
    RunCons(a, SetPending(id), [ClearCancelled(id), BeginRow(id, true)], t);
    RunCons(s, Admit(id), [SetPending(id), ClearCancelled(id), BeginRow(id, true)], t);
    assert s.phases[id := Admitted][id := Pending][id := Cleared][id := Begun] == s.phases[id := Begun];
  }

  lemma RunCons(s: State, step: Step, rest: seq<Step>, t: State)
    requires Enabled(s, step) && Runs(Next(s, step), rest, t)
    ensures Runs(s, [step] + rest, t)
  {
    assert ([step] + rest)[1..] == rest;
  }

  lemma {:induction false} RunsAppend(s: State, a: seq<Step>, m: State, b: seq<Step>, t: State)
    requires Runs(s, a, m) && Runs(m, b, t)
    ensures Runs(s, a + b, t)
    decreases |a|
  {
    if a == [] {
      assert a + b == b;
    } else {
      RunsAppend(Next(s, a[0]), a[1..], m, b, t);
      assert (a + b)[1..] == a[1..] + b;
    }
  }

  /** The terminal write that fails is what breaks the one row in progress: here is a run
      after which two rows are. */
  lemma StuckRun() returns (t: State)
    ensures Runs(INIT, Starting(1) + ([FinishRow(1, "failed", false, false), Release(1)] + Starting(2)), t)
    ensures t.up && Open(t.rows, 1) && Open(t.rows, 2)
  {
    var a := Starts(INIT, 1);
    var b := Next(a, FinishRow(1, "failed", false, false));
    var c := Next(b, Release(1));
    t := Starts(c, 2);
    RunCons(b, Release(1), Starting(2), t);
    RunCons(a, FinishRow(1, "failed", false, false), [Release(1)] + Starting(2), t);
    assert [FinishRow(1, "failed", false, false)] + ([Release(1)] + Starting(2))
        == [FinishRow(1, "failed", false, false), Release(1)] + Starting(2);
    RunsAppend(INIT, Starting(1), a, [FinishRow(1, "failed", false, false), Release(1)] + Starting(2), t);
  }

  /** The first request is read by a cancel, then ends by itself; the second one runs. */
  function Overtaken(): seq<Step> {
    [ReadCancel(1), FinishRow(1, "completed", true, true), Release(1)] + Starting(2)
  }

  lemma Overtakes() returns (t: State)
    ensures Runs(INIT, Starting(1) + Overtaken(), t)
    ensures t.up && Live(t, 2) && t.pending == Some(2) && 1 in t.cancels
  {
    var finish := FinishRow(1, "completed", true, true);
    var a := Starts(INIT, 1);
    var b := Next(a, ReadCancel(1));
    var c := Next(b, finish);
    var d := Next(c, Release(1));
    t := Starts(d, 2);
    RunCons(c, Release(1), Starting(2), t);
    RunCons(b, finish, [Release(1)] + Starting(2), t);
    RunCons(a, ReadCancel(1), [finish] + ([Release(1)] + Starting(2)), t);
    assert [ReadCancel(1)] + ([finish] + ([Release(1)] + Starting(2))) == Overtaken();
    RunsAppend(INIT, Starting(1), a, Overtaken(), t);
  }

  /** How a client's cancel is lost: it marks the second request, and then the late cancel of
      the first, read before that one ended, takes the mark. */
  lemma LostCancel() returns (marked: State, t: State)
    ensures Runs(INIT, Starting(1) + Overtaken() + [ReadCancel(2), MarkCancel(2)], marked)
    ensures Live(marked, 2) && IsCancelled(marked, 2)
    ensures Runs(marked, [MarkCancel(1)], t) && Live(t, 2) && !IsCancelled(t, 2)
  {
    var a := Overtakes();
    var b := Next(a, ReadCancel(2));
    marked := Next(b, MarkCancel(2));
    t := Next(marked, MarkCancel(1));
    RunCons(b, MarkCancel(2), [], marked);
    RunCons(a, ReadCancel(2), [MarkCancel(2)], marked);
    assert [ReadCancel(2)] + [MarkCancel(2)] == [ReadCancel(2), MarkCancel(2)];
    RunsAppend(INIT, Starting(1) + Overtaken(), a, [ReadCancel(2), MarkCancel(2)], marked);
    RunCons(marked, MarkCancel(1), [], t);
  }
}
