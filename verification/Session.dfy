/** One resident generation: the tape, its last commit, and the way back to it. */
module Session {
  import opened Options
  import opened Target
  import opened Runner
  import opened Draft
  import opened Decode
  import opened Cycle
  import opened Marks
  import opened Caches
  import opened Turns
  import opened Account
  import opened Driven
  import opened Continue
  import opened Resident
  import opened Generation
  import Schedule
  import Mtp

  /** The longest prefix that two texts share. */
  method Shared(tape: seq<Token>, ids: seq<Token>) returns (shared: nat)
    ensures shared == Common(tape, ids)
  {
    shared := 0;
    while shared < |tape| && shared < |ids| && tape[shared] == ids[shared]
      invariant shared <= |tape| && shared <= |ids| && tape[..shared] == ids[..shared]
    {
      shared := shared + 1;
    }
    CommonIs(tape, ids, shared);
  }

  /** A draft mark without the position of the last roll, which nothing reads between turns. */
  function Unprimed(m: Option<DraftMark>): Option<DraftMark> {
    if m.Some? then Some(m.value.(primed := 0)) else None
  }

  class Session {
    const runner: Runner
    const table: MarkTable
    /** The resident context, and the rows the draft block allocates. */
    const context: nat
    const capacity: nat
    var tape: seq<Token>
    var cursor: nat
    var committed: nat
    var snapshot: Option<Snap>
    var busy: bool
    var cycle: DraftCycle?
    var draftMark: Option<DraftMark>
    var spare: MTPDraft?
    var source: Source

    function Block(): MTPDraft?
      reads this, cycle
    {
      if cycle == null then null else cycle.draft
    }

    /** The tape is what the pages below the cursor hold, and the parts belong together. */
    ghost predicate Valid()
      reads this, runner, runner.gdn, cycle, Block(), spare, table
    {
      && runner.Valid() && table.Valid()
      && committed <= cursor == |tape| <= |runner.kv| && (cursor > 0 ==> runner.started)
      && (cycle != null ==> cycle.Valid() && cycle.net == runner.net)
      // A block kept over a wipe is empty, for the next cycle.
      && (spare != null ==> spare.Valid() && spare.net == runner.net && spare.Rows() == [] && spare != Block())
    }

    /** What is resident. */
    ghost function Look(): View
      requires Valid()
      reads this, runner, runner.gdn, cycle, Block(), spare, table
    {
      View(tape, committed, snapshot, runner.gdn.g, runner.gdn.ready, runner.kv[..cursor],
           if cycle == null then NoBlock else Side(cycle.Rows(), cycle.carry, cycle.accepted, cycle.rejected))
    }

    /** Everything a later call can read, as one value. */
    ghost function State(): State
      requires Valid()
      reads this, runner, runner.gdn, cycle, Block(), spare, table
    {
      Resident.State(Look(), Unprimed(draftMark), table.Tale(), source)
    }

    /** The objects it reaches are those it reached before, or new ones. */
    twostate predicate Keeps()
      reads this, cycle
    {
      && (cycle == null || cycle == old(cycle) || fresh(cycle))
      && (Block() == null || Block() == old(Block()) || Block() == old(spare) || fresh(Block()))
      && (spare == null || spare == old(Block()) || spare == old(spare) || fresh(spare))
    }

    /** It kept its cycle, or dropped it. */
    twostate predicate Shrinks()
      reads this, cycle
    {
      && (cycle == null || cycle == old(cycle))
      && (Block() == null || Block() == old(Block()) || fresh(Block()))
      && (spare == null || spare == old(Block()) || spare == old(spare) || fresh(spare))
    }

    /** It kept its draft side, or dropped it. */
    twostate predicate Stays()
      reads this, cycle
    {
      && (cycle != null ==> cycle == old(cycle) && spare == old(spare) && Block() == old(Block()))
      && (spare == null || spare == old(spare) || spare == old(Block()))
    }

    constructor (runner: Runner, context: nat, capacity: nat, limit: nat)
      requires runner.Valid() && runner.gdn.g == runner.net.zero && !runner.gdn.ready
      ensures Valid() && State() == Zeroed(runner.net) && fresh(table)
      ensures this.runner == runner && this.context == context && table.limit == limit
      ensures !busy && cycle == null && spare == null
    {
      this.runner, this.context, this.capacity := runner, context, capacity;
      var t := new MarkTable(limit);
      table := t;
      tape, cursor, committed, snapshot, busy := [], 0, 0, None, false;
      cycle, draftMark, spare, source := null, None, null, Cold;
    }

    /** Zero the runner, or free it; the draft block is kept for the next cycle with its pages. */
    method Release()
      requires Valid()
      modifies this`spare, runner, runner.gdn, runner.gdn.stash, Block()
      ensures runner.Valid() && runner.gdn.g == runner.net.zero && !runner.gdn.ready
      ensures spare == null || (spare == old(spare) && old(Block()) == null) || spare == old(Block())
      ensures var keeps := runner.device && old(runner.started);
              && runner.started == keeps && |runner.kv| == (if keeps then old(|runner.kv|) else 0)
              && spare == if !keeps then null else if old(Block()) != null then old(Block()) else old(spare)
      ensures spare != null ==> spare.Valid() && spare.net == runner.net && spare.Rows() == []
    {
      var draft := Block();
      if runner.device && runner.started {
        runner.Rezero();
        if draft != null {
          draft.Reset();
          spare := draft;
        }
      } else {
        runner.Reset();
        spare := null;
      }
    }

    /** Drop everything that describes the tape. */
    method Forget()
      requires runner.Valid() && table.Valid() && runner.gdn.g == runner.net.zero && !runner.gdn.ready
      requires spare != null ==> spare.Valid() && spare.net == runner.net && spare.Rows() == []
      modifies this, table
      ensures Valid() && State() == Zeroed(runner.net) && (busy, spare) == old((busy, spare)) && cycle == null
    {
      source, snapshot, tape, cursor, committed := Cold, None, [], 0, 0;
      cycle, draftMark := null, None;
      table.Clear();
    }

    /** Back to nothing; pages and block stay allocated where that is possible. */
    method Wipe(ghost net: Net)
      requires Valid() && net == runner.net
      modifies this, runner, runner.gdn, runner.gdn.stash, Block(), table
      ensures Valid() && State() == Zeroed(net)
      ensures busy == old(busy) && cycle == null && Stays()
      // On a device that has run the pages stay, and so does the draft block.
      ensures var keeps := runner.device && old(runner.started);
              && runner.started == keeps && |runner.kv| == (if keeps then old(|runner.kv|) else 0)
              && spare == if !keeps then null else if old(Block()) != null then old(Block()) else old(spare)
    {
      Release();
      Forget();
    }

    /** A cycle without rows, on the spare block if there is one. */
    method NewCycle(ghost st: State)
      requires Valid() && cycle == null && State() == st
      modifies this
      ensures Valid() && State() == st.(v := st.v.(side := NoRowsYet))
      ensures busy == old(busy) && cycle != null && fresh(cycle) && cycle.draft == old(spare) && spare == null
    {
      var block := spare;
      spare := null;
      cycle := new DraftCycle(runner.net, block, capacity);
    }

    /** The longest mark in (0, most] that the draft cache still covers. */
    method PickMark(most: int) returns (at: Option<nat>)
      requires Valid()
      ensures at == Usable(State(), most)
    {
      if cycle == null || cycle.draft == null {
        return None;
      }
      at := table.Best(most);
      if at.Some? && at.value > cycle.draft.position {
        at := None;
      }
    }

    /** Cut the draft rows at `n` and restore what the mark there saved. */
    method CutBack(n: nat, saved: Saved, ghost st: State) returns (side: DraftMark)
      requires Valid() && State() == st && cycle != null && 0 < n <= cycle.Position()
      modifies runner, runner.gdn, runner.gdn.stash, cycle, Block()
      ensures Valid() && Block() == old(Block()) && runner.started == old(runner.started)
      ensures side == DraftMark(n, Some(saved.carry), cycle.accepted, cycle.rejected, side.primed)
      ensures State() == st.(v := st.v.(g := saved.g, ready := saved.ready,
                                        side := st.v.side.(rows := st.v.side.rows[..n], carry := Some(saved.carry))))
    {
      side := cycle.Marking().(position := n, carry := Some(saved.carry));
      var ok := cycle.Rejoin(side);
      runner.Restore(Snap(saved.g, saved.ready));
    }

    /** Cut the tape at `n`. */
    method Shorten(n: nat, why: Source, ghost st: State)
      requires Valid() && State() == st && committed <= n <= cursor
      modifies this`cursor, this`tape, this`source
      ensures Valid() && State() == st.(v := st.v.(tape := st.v.tape[..n], kv := st.v.kv[..n]), source := why)
    {
      cursor, tape, source := n, tape[..n], why;
    }

    /** Call position `n` committed, with the runner as it is. */
    method Anchor(n: nat, side: DraftMark, ghost st: State)
      requires Valid() && State() == st && 0 < n <= cursor
      modifies this`committed, this`snapshot, this`draftMark
      ensures Valid()
      ensures State() == st.(
                v := st.v.(committed := n, snapshot := Some(Snap(st.v.g, st.v.ready))),
                mark := Unprimed(Some(side)))
    {
      committed, snapshot, draftMark := n, Some(runner.Capture()), Some(side);
    }

    /** Stand at position `n` of the tape, with what its mark saved. */
    method StandAt(n: nat, saved: Saved, ghost st: State)
      requires Valid() && State() == st && Proper(runner.net, st) && cycle != null && 0 < n <= cycle.Position()
      modifies this, runner, runner.gdn, runner.gdn.stash, cycle, Block()
      ensures Valid() && (busy, cycle, spare, Block()) == old((busy, cycle, spare, Block()))
      ensures runner.started == old(runner.started)
      ensures var v := Cut(st.v, n, saved); State() == Resident.State(v, MarkOf(v.side), st.tale, AtMark)
    {
      var side := CutBack(n, saved, st);
      Anchor(n, side, State());
      Shorten(n, AtMark, State());
    }

    /** Go back to a mark, and forget the later ones. */
    method RestoreMark(n: nat, ghost st: State)
      requires Valid() && State() == st && Proper(runner.net, st) && n in table.marks && cycle != null
      requires n <= cycle.Position()
      modifies this, runner, runner.gdn, runner.gdn.stash, cycle, Block(), table
      ensures Valid() && busy == old(busy) && Stays() && State() == Returned(st, n)
      ensures runner.started ==> old(runner.started)
    {
      var m := table.marks[n];
      StandAt(n, Saved(table.buffers[m.slot], m.ready, m.carry), st);
      table.DropAbove(n);
    }

    /** Go back to the last commit's state, pages and tape; the draft side stays as it is. */
    method RestoreCommit(why: Source, ghost st: State)
      requires Valid() && State() == st && snapshot.Some?
      modifies this`cursor, this`tape, this`source, runner, runner.gdn, runner.gdn.stash
      ensures runner.started == old(runner.started)
      ensures Valid() && State() == st.(v := ToCommit(st.v), source := why)
    {
      runner.Restore(snapshot.value);
      ghost var s := snapshot.value;
      ghost var v := st.v.(g := if s.Snap? then s.g else st.v.g, ready := if s.Snap? then s.ready else st.v.ready);
      Shorten(committed, why, st.(v := v));
    }

    /** Back to the longest mark, or to nothing. */
    method FallBack(most: int, ghost st: State)
      requires Valid() && State() == st && Proper(runner.net, st)
      modifies this, runner, runner.gdn, runner.gdn.stash, cycle, Block(), table
      ensures Valid() && busy == old(busy) && Stays() && State() == FellBack(runner.net, st, most)
      ensures runner.started ==> old(runner.started)
    {
      var at := PickMark(most);
      if at.Some? {
        RestoreMark(at.value, st);
      } else {
        Wipe(runner.net);
      }
    }

    /** Keep the shared prefix: the tape itself, the last commit, the longest mark, or nothing. */
    method Rewind(shared: nat, most: int, ghost st: State)
      requires Valid() && State() == st && Proper(runner.net, st)
      modifies this, runner, runner.gdn, runner.gdn.stash, cycle, Block(), table
      ensures Valid() && busy == old(busy) && Stays() && State() == Rewound(runner.net, st, shared, most)
      ensures runner.started ==> old(runner.started)
    {
      if shared >= cursor {
        source := if cursor > 0 then OnTape else Cold;
      } else if snapshot.Some? && shared >= committed {
        RestoreCommit(AtCommit, st);
      } else {
        FallBack(most, st);
      }
    }

    /** Bring back the longest usable prefix of `ids`. */
    method KeepPrefix(ids: seq<Token>, limit: int, ghost st: State)
      requires Valid() && State() == st && Proper(runner.net, st)
      modifies this, runner, runner.gdn, runner.gdn.stash, cycle, Block(), table
      ensures Valid() && busy == old(busy) && Stays() && State() == Retained(runner.net, st, ids, limit)
      ensures runner.started ==> old(runner.started)
    {
      var shared := Shared(tape, ids);
      Rewind(shared, if limit < shared then limit else shared, st);
    }

    /** Drop a draft side that stands elsewhere, and a prefix that is left without one. */
    method DropStray(ghost st: State)
      requires Valid() && State() == st && Proper(runner.net, st)
      modifies this, runner, runner.gdn, runner.gdn.stash, Block(), table
      ensures Valid() && busy == old(busy) && Stays() && (cycle == null || cycle.Position() == cursor)
      ensures var dropped := if cycle == null then st.(v := st.v.(side := NoBlock)) else st;
              if cycle == null && st.v.tape != [] then State() == Zeroed(runner.net) else State() == dropped
      ensures cycle == null <==> st.v.side.NoBlock? || |st.v.side.rows| != |st.v.tape|
    {
      if cycle != null && cycle.draft != null && cycle.draft.position != cursor {
        cycle := null;
      }
      if cycle == null && cursor > 0 {
        Wipe(runner.net);
      }
    }

    /** Stand both caches at the cursor: both start over when the draft side cannot. */
    method Align(ghost st: State)
      requires Valid() && State() == st && Proper(runner.net, st)
      modifies this, runner, runner.gdn, runner.gdn.stash, cycle, Block(), table
      ensures Valid() && busy == old(busy) && Keeps() && cycle != null && State() == Aligned(runner.net, st)
    {
      DropStray(st);
      if cycle == null {
        NewCycle(State());
      }
    }

    /** Bring back the longest usable prefix of `ids`, with a draft cycle that stands there. */
    method Open(ids: seq<Token>, ghost st: State)
      requires Valid() && State() == st && Proper(runner.net, st)
      modifies this, runner, runner.gdn, runner.gdn.stash, cycle, Block(), table
      ensures Valid() && busy == old(busy) && Keeps() && cycle != null && State() == Opened(runner.net, st, ids)
    {
      RetainedIs(runner.net, st, ids, |ids| - 1);
      KeepPrefix(ids, |ids| - 1, st);
      Align(State());
    }

    /** The same, and that it is ready for a turn. */
    method OpenReady(ids: seq<Token>, ghost st: State) returns (ghost open: State)
      requires Valid() && State() == st && Proper(runner.net, st) && 0 !in st.tale
      modifies this, runner, runner.gdn, runner.gdn.stash, cycle, Block(), table
      ensures Valid() && cycle != null && State() == open == Opened(runner.net, st, ids) && Ready(runner.net, open, ids)
      ensures Keeps()
    {
      Open(ids, st);
      OpenedIs(runner.net, st, ids);
      open := State();
    }

    /** The draft rows of an open turn go; without a mark to return to, the whole side does. */
    method DropDrafts(ghost st: State)
      requires Valid() && State() == st && Undoable(st)
      modifies this`cycle, cycle, Block()
      ensures Valid() && Shrinks()
      ensures State() == st.(v := st.v.(side :=
                if st.v.side.NoBlock? || st.mark.None? then NoBlock
                else Side(st.v.side.rows[..committed], st.mark.value.carry, st.mark.value.accepted,
                          st.mark.value.rejected)))
    {
      if cycle == null || cycle.draft == null || draftMark.None? {
        cycle := null;
      } else {
        // The cut cannot fail, and it leaves the draft cache at the commit.
        var ok := cycle.Rejoin(draftMark.value);
      }
    }

    /** Restore the last commit, or forget everything when there is none. */
    method Cancel(ghost st: State)
      requires Valid() && State() == st && Undoable(st)
      modifies this, runner, runner.gdn, runner.gdn.stash, cycle, Block(), table
      ensures Valid() && !busy && Shrinks() && State() == Canceled(runner.net, st)
    {
      busy := false;
      if snapshot.None? {
        Wipe(runner.net);
      } else {
        RestoreCommit(source, st);
        DropDrafts(State());
      }
    }

    /** Keep what is resident: the next rewind may come back here. */
    method Commit(ghost st: State)
      requires Valid() && State() == st && (cycle != null ==> cycle.draft != null && cycle.Position() == cursor > 0)
      modifies this`committed, this`snapshot, this`busy, this`draftMark
      ensures Valid() && !busy && snapshot == Some(runner.Capture())
      ensures State() == st.(v := st.v.(committed := |st.v.tape|, snapshot := snapshot),
                             mark := if st.v.side.NoBlock? then None else MarkOf(st.v.side))
    {
      committed, snapshot, busy := cursor, Some(runner.Capture()), false;
      draftMark := if cycle != null && cycle.draft != null then Some(cycle.Marking()) else None;
    }

    /** The turn's forwards over an opened session; its own fields wait for the end. */
    method Drive(
      ids: seq<Token>, p: Plan, cancel: nat -> bool, cuts: seq<nat>, ngram: Option<(nat, nat)>, ghost j: Job,
      ghost st: State)
      returns (ended: Ended, ghost run: Run)
      requires Valid() && cycle != null && State() == st && Ready(runner.net, st, ids)
      requires j == JobOf(runner, table, ids, p, cancel, cuts, ngram)
      requires 1 <= p.k <= Mtp.MOST_DRAFTS && p.maxNew >= 1 && (ngram.Some? ==> ngram.value.0 >= 1)
      modifies runner, runner.gdn, runner.gdn.stash, cycle, cycle.draft, table
      ensures Valid() && cycle.Kept(old(cycle.draft)) && Stands(runner, cycle, table, run.now, run.told)
      ensures Took(j, st, run) && run.ended == ended && |st.v.tape| <= |run.now.m.kv| && State() == During(st, run)
    {
      ghost var c := CoreAt(st.v, |runner.kv|);
      ghost var trace, told, now;
      ended, trace, told, now := ContinueDrafted(runner, cycle, ids, p, cancel, table, cuts, ngram, j, c, st.tale);
      run := Run(c, ended, trace, told, now);
      TookOver(j, st, run);
      DuringIs(st, run);
    }

    /** While a turn runs, only the rows above the tape move. */
    lemma DuringIs(st: State, run: Run)
      requires cycle != null && Stands(runner, cycle, table, run.now, run.told)
      requires committed <= cursor == |tape| <= |run.now.rows| == |run.now.m.kv|
      requires spare != null ==> spare.Valid() && spare.net == runner.net && spare.Rows() == [] && spare != Block()
      requires (tape, committed, snapshot, source) == (st.v.tape, st.v.committed, st.v.snapshot, st.source)
      requires Unprimed(draftMark) == st.mark
      ensures Valid() && State() == During(st, run)
    {
      assert runner.kv[..cycle.Position()][..cursor] == runner.kv[..cursor];
    }

    /** The tape becomes the prompt and its answer, less the held id, and is committed. */
    method Finish(text: seq<Token>, ghost st: State, ghost run: Run)
      requires Valid() && cycle != null && Stands(runner, cycle, table, run.now, run.told)
      requires |st.v.tape| <= |run.now.m.kv| && State() == During(st, run) && |text| == |run.now.rows| > 0
      requires committed <= |text|
      modifies this`tape, this`cursor, this`committed, this`snapshot, this`busy, this`draftMark
      ensures Valid() && !busy && State() == Committed(st, text, run)
    {
      tape, cursor := text, |text|;
      Commit(State());
    }

    /** Commit an answer whose cursor adds up, and roll anything else back. */
    method Settle(
        ids: seq<Token>, ended: Ended, accepted: nat, rejected: nat, ghost j: Job, ghost st: State, ghost run: Run)
      returns (r: Outcome)
      requires Valid() && cycle != null && Stands(runner, cycle, table, run.now, run.told)
      requires |st.v.tape| <= |run.now.m.kv| && State() == During(st, run) && Undoable(During(st, run))
      requires j.prompt == ids && j.net == runner.net && run.ended == ended
      requires (accepted, rejected) == (run.c.accepted, run.c.rejected)
      requires ended.Done? ==> ended.cacheLen == |run.now.rows| > 0 && st.v.committed <= ended.cacheLen
      modifies this, runner, runner.gdn, runner.gdn.stash, cycle, Block(), table
      ensures Valid() && !busy && Shrinks() && Settles(j, st, run, r, State())
    {
      if ended.Done? && ended.cacheLen == |ids| + |ended.tokens| - 1 {
        r := Completed(ended.tokens, cycle.accepted - accepted, cycle.rejected - rejected);
        Finish((ids + ended.tokens)[..ended.cacheLen], st, run);
      } else {
        r := match ended
          case Done(_, _) => Errored(Diverged)
          case Cancelled(tokens) => Aborted(tokens)
          case Failed(error) => Errored(error);
        Cancel(State());
      }
    }

    /** An opened turn, to its commit or its rollback. */
    method RunTurn(
      ids: seq<Token>, p: Plan, cancel: nat -> bool, cuts: seq<nat>, ngram: Option<(nat, nat)>, ghost j: Job,
      ghost before: State, ghost st: State)
      returns (r: Outcome, ghost run: Run, ghost after: State)
      requires Valid() && cycle != null && State() == st && Ready(runner.net, st, ids)
      requires Proper(runner.net, before) && 0 !in before.tale && st == Opened(runner.net, before, ids)
      requires j == JobOf(runner, table, ids, p, cancel, cuts, ngram)
      requires 1 <= p.k <= Mtp.MOST_DRAFTS && p.maxNew >= 1 && (ngram.Some? ==> ngram.value.0 >= 1)
      modifies this, runner, runner.gdn, runner.gdn.stash, cycle, cycle.draft, table
      ensures Valid() && !busy && State() == after && Generated(j, before, run, r, after)
      ensures Shrinks()
    {
      var accepted, rejected := cycle.accepted, cycle.rejected;
      var ended;
      ended, run := Drive(ids, p, cancel, cuts, ngram, j, st);
      EndIs(j, st, run);
      r := Settle(ids, ended, accepted, rejected, j, st, run);
      after := State();
    }

    /** The session is idle and the prompt fits: open it, then run the turn. */
    method Serve(
      ids: seq<Token>, p: Plan, cancel: nat -> bool, cuts: seq<nat>, ngram: Option<(nat, nat)>, ghost j: Job,
      ghost st: State)
      returns (r: Outcome, ghost run: Run, ghost after: State)
      requires Valid() && State() == st && Proper(runner.net, st) && 0 !in st.tale
      requires j == JobOf(runner, table, ids, p, cancel, cuts, ngram)
      requires 1 <= p.k <= Mtp.MOST_DRAFTS && p.maxNew >= 1 && (ngram.Some? ==> ngram.value.0 >= 1)
      modifies this, runner, runner.gdn, runner.gdn.stash, cycle, Block(), spare, table
      ensures Valid() && !busy && State() == after && Generated(j, st, run, r, after)
      ensures Keeps()
    {
      ghost var open := OpenReady(ids, st);
      r, run, after := RunTurn(ids, p, cancel, cuts, ngram, j, st, open);
    }

    /** The same, and when it completes. */
    method Answer(
      ids: seq<Token>, p: Plan, cancel: nat -> bool, cuts: seq<nat>, ngram: Option<(nat, nat)>, ghost j: Job,
      ghost st: State)
      returns (r: Outcome, ghost run: Run, ghost after: State)
      requires busy && Valid() && State() == st && Proper(runner.net, st) && 0 !in st.tale
      requires j == JobOf(runner, table, ids, p, cancel, cuts, ngram)
      requires 1 <= p.k <= Mtp.MOST_DRAFTS && p.maxNew >= 1 && (ngram.Some? ==> ngram.value.0 >= 1)
      modifies this, runner, runner.gdn, runner.gdn.stash, cycle, Block(), spare, table
      ensures Valid() && !busy && State() == after && Generated(j, st, run, r, after)
      ensures Proper(runner.net, after) && Completes(j, st.v, run, r)
      ensures Keeps()
    {
      r, run, after := Serve(ids, p, cancel, cuts, ngram, j, st);
      GeneratedCompletes(j, st, run, r, after);
      GeneratedProper(j, st, run, r, after);
    }

    /** Take the session. */
    method Enter(ghost st: State)
      requires Valid() && State() == st
      modifies this`busy
      ensures Valid() && busy && State() == st
    {
      busy := true;
    }

    /** Leave as from any error: the last commit comes back. */
    method TurnAway(ghost st: State)
      requires busy && Valid() && State() == st && Proper(runner.net, st) && 0 !in st.tale
      modifies this, runner, runner.gdn, runner.gdn.stash, cycle, Block(), table
      ensures Valid() && !busy && Keeps() && Proper(runner.net, State()) && State() == Canceled(runner.net, st)
    {
      CanceledProper(runner.net, st);
      Cancel(st);
    }

    /** An idle session with a budget: a prompt that does not fit leaves as any error does. */
    method Admit(
      ids: seq<Token>, p: Plan, cancel: nat -> bool, cuts: seq<nat>, ngram: Option<(nat, nat)>, ghost j: Job,
      ghost st: State)
      returns (r: Outcome, ghost run: Run)
      requires Valid() && State() == st && Proper(runner.net, st) && 0 !in st.tale
      requires j == JobOf(runner, table, ids, p, cancel, cuts, ngram)
      requires 1 <= p.k <= Mtp.MOST_DRAFTS && p.maxNew >= 1 && (ngram.Some? ==> ngram.value.0 >= 1)
      modifies this, runner, runner.gdn, runner.gdn.stash, cycle, Block(), spare, table
      ensures Valid() && !busy && Keeps() && Proper(runner.net, State())
      ensures if |ids| > context then r == Errored(TooLong) && State() == Canceled(runner.net, st)
              else Generated(j, st, run, r, State()) && Completes(j, st.v, run, r)
    {
      Enter(st);
      if |ids| > context {
        r, run := Errored(TooLong), NoRun(runner.net);
        TurnAway(st);
      } else {
        ghost var after;
        r, run, after := Answer(ids, p, cancel, cuts, ngram, j, st);
      }
    }

    /** Emit the tokens of one turn from the resident cache. */
    method Generate(ids: seq<Token>, p: Plan, cancel: nat -> bool, cuts: seq<nat>, ngram: Option<(nat, nat)>)
      returns (r: Outcome, ghost run: Run)
      requires Valid() && (!busy ==> Proper(runner.net, State()))
      requires 1 <= p.k <= Mtp.MOST_DRAFTS && (ngram.Some? ==> ngram.value.0 >= 1)
      modifies this, runner, runner.gdn, runner.gdn.stash, cycle, Block(), spare, table
      ensures r.Busy? <==> old(busy)
      ensures r.NoBudget? <==> !old(busy) && p.maxNew == 0
      ensures r == Errored(TooLong) <==> !old(busy) && p.maxNew > 0 && |ids| > context
      ensures r.Busy? || r.NoBudget? ==> unchanged(this, runner, runner.gdn, table)
      ensures Valid() && Keeps() && (!r.Busy? ==> !busy && Proper(runner.net, State()))
      ensures r.Busy? || r.NoBudget? ==> State() == old(State())
      ensures r == Errored(TooLong) ==> State() == Canceled(runner.net, old(State()))
      ensures Admitted(r) ==>
                var j := JobOf(runner, table, ids, p, cancel, cuts, ngram);
                Generated(j, old(State()), run, r, State()) && Completes(j, old(Look()), run, r)
    {
      run := NoRun(runner.net);
      if busy {
        r := Busy;
      } else if p.maxNew < 1 {
        r := NoBudget;
      } else {
        r, run := Admit(ids, p, cancel, cuts, ngram, JobOf(runner, table, ids, p, cancel, cuts, ngram), State());
      }
    }

    /** The cancel extended with pruning: forget the marks of an abandoned prompt. */
    method Prune(ghost st: State)
      requires Valid() && State() == st
      modifies table
      ensures Valid() && State() == st.(tale := UpTo(st.tale, st.v.committed))
    {
      table.DropAbove(committed);
    }

    // --- The target alone: prefill and turn without the draft side ---

    /** Forward one span of the prompt; the draft side waits. */
    method Extend(ids: seq<Token>, end: nat, ghost st: State, ghost c: Core)
      requires Valid() && State() == st && Leads(c, st.v) && cursor < end <= |ids| && tape == ids[..cursor]
      modifies this`tape, this`cursor, runner, runner.gdn, runner.gdn.stash
      ensures Valid() && cursor == end && Leads(Fed(runner.net, c, ids[old(cursor)..end]), Look())
      ensures State() == Further(st, ids[..end], Fed(runner.net, c, ids[old(cursor)..end]))
    {
      runner.Forward(ids[cursor..end], cursor);
      cursor, tape := end, ids[..end];
    }

    /** Forward the spans in order, asking before each whether to stop. */
    method ExtendSpans(
        ids: seq<Token>, spans: seq<Schedule.Span>, ghost stop: nat, cancelled: nat -> bool, ghost st: State,
        ghost c: Core)
      returns (n: nat)
      requires Valid() && State() == st && Leads(c, st.v) && cursor <= stop <= |ids| && tape == ids[..cursor]
      requires Schedule.Partition(spans, cursor, stop) && forall i :: 0 <= i < |spans| ==>
                spans[i].0 < spans[i].1 <= |ids|
      modifies this`tape, this`cursor, runner, runner.gdn, runner.gdn.stash
      ensures Valid() && n <= |spans| && FirstStop(cancelled, n, |spans|)
      ensures n == 0 ==> runner.started == old(runner.started)
      ensures State() == Walked(runner.net, st, ids, spans, c, n)
    {
      n := 0;
      ghost var at, now := st, c;
      while n < |spans| && !cancelled(n)
        invariant n <= |spans| && Unset(cancelled, n) && Valid()
        invariant State() == at == Walked(runner.net, st, ids, spans, c, n)
        invariant now == FedAll(runner.net, c, ids, spans[..n]) && Leads(now, at.v)
        invariant n == 0 ==> runner.started == old(runner.started)
        invariant cursor == (if n == 0 then old(cursor) else spans[n - 1].1) && tape == ids[..cursor]
      {
        UnsetNext(cancelled, n);
        now := WalkStep(ids, spans, n, st, c, at, now);
        at, n := State(), n + 1;
      }
    }

    /** Span `n` of them. */
    method WalkStep(
        ids: seq<Token>, spans: seq<Schedule.Span>, n: nat, ghost st: State, ghost c: Core, ghost at: State,
        ghost now: Core)
      returns (ghost next: Core)
      requires Valid() && State() == at && Leads(now, at.v) && cursor <= |ids| && tape == ids[..cursor]
      requires n < |spans| && forall i :: 0 <= i < |spans| ==> spans[i].0 < spans[i].1 <= |ids|
      requires at == Walked(runner.net, st, ids, spans, c, n) && now == FedAll(runner.net, c, ids, spans[..n])
      requires cursor == spans[n].0
      modifies this`tape, this`cursor, runner, runner.gdn, runner.gdn.stash
      ensures Valid() && State() == Walked(runner.net, st, ids, spans, c, n + 1)
      ensures next == FedAll(runner.net, c, ids, spans[..n + 1]) && Leads(next, Look())
      ensures cursor == spans[n].1 && tape == ids[..cursor]
    {
      WalkedSnoc(runner.net, st, ids, spans, c, n);
      Extend(ids, spans[n].1, at, now);
      next := Fed(runner.net, now, ids[spans[n].0..spans[n].1]);
    }

    /** Bring back what is shared and forward the rest of the prompt but its last id. */
    method Prefill(ids: seq<Token>) returns (ok: bool)
      requires Valid() && Proper(runner.net, State()) && 0 !in State().tale
      modifies this, runner, runner.gdn, runner.gdn.stash, cycle, Block(), table
      ensures ok <==> |ids| <= context
      ensures !ok ==> unchanged(this, runner, runner.gdn, table)
      ensures Valid() && busy == old(busy) && Stays() && Proper(runner.net, State())
      ensures ok ==> State() == Prefilled(runner.net, old(State()), ids)
    {
      ok := |ids| <= context;
      if ok {
        PrefilledIs(runner.net, State(), ids);
        Fill(ids, State());
      }
    }

    /** Rewind for the prompt, then fill up. */
    method Fill(ids: seq<Token>, ghost st: State)
      requires Valid() && State() == st && Proper(runner.net, st) && 0 !in st.tale
      modifies this, runner, runner.gdn, runner.gdn.stash, cycle, Block(), table
      ensures Valid() && busy == old(busy) && Stays() && State() == Prefilled(runner.net, st, ids)
    {
      RetainedIs(runner.net, st, ids, |ids|);
      KeepPrefix(ids, |ids|, st);
      FillUp(ids, State());
    }

    /** Drop the draft side and take the session. */
    method Take(ghost st: State)
      requires Valid() && State() == st
      modifies this`cycle, this`busy
      ensures Valid() && busy && cycle == null && State() == st.(v := st.v.(side := NoBlock))
    {
      cycle, busy := null, true;
    }

    /** Forward what is missing of the prompt, or as much of it as no cancel stops. */
    method WalkOn(ids: seq<Token>, cancelled: nat -> bool, ghost st: State) returns (done: bool, ghost n: nat)
      requires Valid() && State() == st && |st.v.tape| <= |ids| && st.v.tape == ids[..|st.v.tape|]
      modifies this`tape, this`cursor, runner, runner.gdn, runner.gdn.stash
      ensures Valid() && n <= |Schedule.Whole(|st.v.tape|, |ids|)| && State() == WalkedTo(runner.net, st, ids, n)
      ensures var all := |Schedule.Whole(|st.v.tape|, |ids|)|; done == (n == all) && FirstStop(cancelled, n, all)
      ensures n == 0 ==> runner.started == old(runner.started)
    {
      var spans := TurnCuts(cursor, |ids|);
      var all := ExtendSpans(ids, spans, |ids|, cancelled, st, Lead(runner.net, st.v));
      done, n := all == |spans|, all;
    }

    /** Commit a tape that has no draft side, or roll it back. */
    method CloseTurn(done: bool, ghost st: State) returns (r: Outcome)
      requires Valid() && cycle == null && State() == st && (!done ==> Undoable(st))
      modifies this, runner, runner.gdn, runner.gdn.stash, Block(), table
      ensures Valid() && !busy && Keeps()
      ensures done ==> snapshot == Some(runner.Capture()) && runner.started == old(runner.started)
      ensures TurnEnds(runner.net, done, st, r, State())
    {
      if done {
        Commit(st);
        r := Completed([], 0, 0);
      } else {
        Cancel(st);
        r := Aborted([]);
      }
    }

    /** Forward a whole prompt without the draft side, and commit. */
    method Turn(ids: seq<Token>, cancelled: nat -> bool) returns (r: Outcome, ghost n: nat)
      requires Valid() && (!busy ==> Proper(runner.net, State()))
      modifies this, runner, runner.gdn, runner.gdn.stash, cycle, Block(), table
      ensures r.Busy? <==> old(busy)
      ensures r.Busy? ==> unchanged(this, runner, runner.gdn, table)
      ensures Valid() && Keeps() && (!r.Busy? ==> !busy && Proper(runner.net, State()))
      ensures !r.Busy? ==> Turned(runner.net, old(State()), ids, n, r, State())
      // What it commits is what the runner can copy: nothing, on a device that never ran.
      ensures r.Completed? ==> snapshot == Some(runner.Capture()) && (n == 0 ==> runner.started ==> old(runner.started))
      ensures !r.Busy? ==> StopsAt(runner.net, old(State()), ids, cancelled, n)
      ensures Quiet(cancelled) && !old(busy) ==> r == Completed([], 0, 0)
    {
      if busy {
        r, n := Busy, 0;
      } else {
        r, n := TakeTurn(ids, cancelled, State());
      }
    }

    /** The turn of an idle session. */
    method TakeTurn(ids: seq<Token>, cancelled: nat -> bool, ghost st: State) returns (r: Outcome, ghost n: nat)
      requires Valid() && State() == st && Proper(runner.net, st) && 0 !in st.tale
      modifies this, runner, runner.gdn, runner.gdn.stash, cycle, Block(), table
      ensures Valid() && !busy && Proper(runner.net, State()) && Turned(runner.net, st, ids, n, r, State())
      ensures StopsAt(runner.net, st, ids, cancelled, n)
      ensures r.Completed? ==> snapshot == Some(runner.Capture()) && (n == 0 ==> runner.started ==> old(runner.started))
      ensures Keeps()
    {
      BeginTurn(ids, st);
      r, n := EndTurn(ids, cancelled, st, State());
    }

    /** Rewind a session without its draft side. */
    method BeginTurn(ids: seq<Token>, ghost st: State)
      requires Valid() && State() == st && Proper(runner.net, st) && 0 !in st.tale
      modifies this, runner, runner.gdn, runner.gdn.stash, cycle, Block(), table
      ensures runner.started ==> old(runner.started)
      ensures Valid() && cycle == null && (spare == null || spare == old(spare))
      ensures State() == TurnFrom(runner.net, st, ids)
    {
      Take(st);
      KeepPrefix(ids, |ids|, State());
      TurnFromIs(runner.net, st, ids);
    }

    /** Forward what is missing, then commit or roll back. */
    method EndTurn(
        ids: seq<Token>, cancelled: nat -> bool, ghost st: State, ghost from: State)
        returns (r: Outcome, ghost n: nat)
      requires Valid() && cycle == null && State() == from && Proper(runner.net, st) && 0 !in st.tale
      requires from == TurnFrom(runner.net, st, ids)
      modifies this, runner, runner.gdn, runner.gdn.stash, Block(), table
      ensures Valid() && !busy && Proper(runner.net, State()) && Turned(runner.net, st, ids, n, r, State())
      ensures StopsAt(runner.net, st, ids, cancelled, n)
      ensures r.Completed? ==> snapshot == Some(runner.Capture()) && (n == 0 ==> runner.started ==> old(runner.started))
      ensures Keeps()
    {
      TurnFromIs(runner.net, st, ids);
      var done;
      done, n := WalkOn(ids, cancelled, from);
      WalkedToIs(runner.net, from, ids, n);
      r := CloseTurn(done, State());
      TurnedProper(runner.net, st, ids, n, r, State());
    }

    /** Forward the page cuts of `ids` above the tape. */
    method FillUp(ids: seq<Token>, ghost st: State)
      requires Valid() && State() == st && |st.v.tape| <= |ids| && st.v.tape == ids[..|st.v.tape|]
      modifies this`tape, this`cursor, runner, runner.gdn, runner.gdn.stash
      ensures Valid() && State() == FilledUp(runner.net, st, ids)
    {
      var bounds := PageCuts(cursor, |ids|);
      ghost var stop := if bounds == [] then cursor else |ids| - 1;
      var n := ExtendSpans(ids, bounds, stop, i => false, st, Lead(runner.net, st.v));
    }
  }

  /** The page cuts of a turn: its last id goes by itself. */
  method TurnCuts(start: nat, length: nat) returns (spans: seq<Schedule.Span>)
    requires start <= length
    ensures spans == Schedule.Whole(start, length)
  {
    spans := PageCuts(start, length);
    if start < length && (spans == [] || spans[|spans| - 1].1 < length) {
      spans := spans + [(length - 1, length)];
    }
  }

  /** The page cuts of a prompt. */
  method PageCuts(start: nat, length: nat) returns (bounds: seq<Schedule.Span>)
    ensures bounds == Schedule.Bounds(start, length)
  {
    bounds := Schedule.SuffixBounds(start, length, 8192, 256);
  }

  /** The first set look stops the spans; without one they all go. */
  ghost predicate FirstStop(cancelled: nat -> bool, n: nat, all: nat) {
    Unset(cancelled, n) && (n < all ==> cancelled(n))
  }

  /** A turn forwards the spans before the first set look. */
  ghost predicate StopsAt(net: Net, st: State, ids: seq<Token>, cancelled: nat -> bool, n: nat)
    requires Proper(net, st)
  {
    var m := |TurnFrom(net, st, ids).v.tape|;
    m <= |ids| && FirstStop(cancelled, n, |Schedule.Whole(m, |ids|)|)
  }

  /** How an admitted call ended: it is aborted exactly when a look saw a cancel, and else
      completes when its callback never loses a token, if its prompt has an id to hold. */
  ghost predicate Completes(j: Job, v: View, run: Run, r: Outcome)
    requires v.committed <= |v.tape|
  {
    && Admitted(r) && (r == Errored(NeedsHeld) <==> !Holds(j.prompt, v))
    && (r.Aborted? <==> Holds(j.prompt, v) && Saw(j, run))
    && (!Saw(j, run) && NeverLoses(j.p.listen) ==> (r.Completed? <==> Holds(j.prompt, v)))
  }

  /** The caches still reach the start. */
  lemma TookOver(j: Job, st: State, run: Run)
    requires Ready(j.net, st, j.prompt) && Took(j, st, run)
    ensures |st.v.tape| <= |run.now.rows| == |run.now.m.kv|
  {
    DroveOver(j, run.c, st.tale, run.ended, run.trace, run.told, run.now);
  }

  /** Where a turn ended, from where it began. */
  lemma EndIs(j: Job, st: State, run: Run)
    requires Ready(j.net, st, j.prompt) && Took(j, st, run) && j.p.maxNew >= 1
    requires |st.v.tape| <= |run.now.m.kv|
    ensures Undoable(During(st, run))
    ensures run.ended.Done? ==> run.ended.cacheLen == |run.now.rows| > 0 && st.v.committed <= run.ended.cacheLen
  {
    DroveOver(j, run.c, st.tale, run.ended, run.trace, run.told, run.now);
    if run.ended.Done? {
      DroveCounts(j, run.c, st.tale, run.ended, run.trace, run.told, run.now);
      DoneIs(j.p, j.prompt, run.trace);
    }
  }
}

