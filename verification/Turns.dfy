/** One drafted turn on the resident target: prefill, verify windows, injections.

    Each method makes of the two caches exactly what its function in `Caches` says. */
module Turns {
  import opened Options
  import opened Target
  import opened Runner
  import opened Draft
  import opened Decode
  import opened Cycle
  import opened Marks
  import opened Schedule
  import opened Caches
  import GdnWindow
  import Mtp

  /** Target and draft side belong together and stand at one cursor. */
  ghost predicate Joined(runner: Runner, cycle: DraftCycle)
    reads runner, runner.gdn, cycle, cycle.draft
  {
    && runner.Valid() && cycle.Valid() && cycle.net == runner.net
    && cycle.Position() <= |runner.kv| && (cycle.Position() > 0 ==> runner.started)
  }

  /** What both caches hold below the cursor. */
  ghost function Of(runner: Runner, cycle: DraftCycle): (c: Core)
    requires Joined(runner, cycle)
    reads runner, runner.gdn, cycle, cycle.draft
    ensures |c.m.kv| == |c.rows| == cycle.Position()
  {
    Core(Mem(runner.gdn.g, runner.kv[..cycle.Position()]), runner.gdn.ready, cycle.Rows(), cycle.carry,
         cycle.accepted, cycle.rejected, |runner.kv|)
  }

  /** The trimmed tokens of a window, from the rows that score it. */
  method Keep(net: Net, verify: seq<Row>, drafted: seq<Token>, room: nat, stops: set<Token>) returns (w: Kept)
    requires 1 <= |drafted| <= Mtp.MOST_DRAFTS && |verify| == |drafted| + 1 && room > 0
    ensures w == Pick(Argmaxes(net, verify), drafted, room, stops)
  {
    var samples := Argmaxes(net, verify);
    var emission := Mtp.EmittedTokens(drafted, samples, Mtp.MOST_DRAFTS);
    // The empty emission the loop guards against cannot occur: one sample is always kept.
    w := Trim(emission.tokens, room, stops);
  }

  /** Leave the first `keep` tokens of the window just forwarded from `m`, by a cut of the
      stash, or by restoring `before` and forwarding them again.  The cut never misses. */
  method CutTo(runner: Runner, before: Snap, cacheLen: nat, window: seq<Token>, keep: nat, ghost m: Mem)
    requires runner.Valid() && runner.started && cacheLen + |window| <= |runner.kv|
    requires 1 <= keep <= |window| && 2 <= |window| <= GdnWindow.STASH && m.kv == runner.kv[..cacheLen]
    requires runner.kv[..cacheLen + |window|] == Read(runner.net, m, window).kv
    requires !runner.device ==> before == Snap(m.g, runner.gdn.ready)
    requires runner.device ==>
               runner.gdn.rewindLen == Some(|window|) && runner.gdn.Open(m.g, Inputs(runner.net, m, window))
    modifies runner, runner.gdn, runner.gdn.stash
    ensures runner.Valid() && runner.started && |runner.kv| == old(|runner.kv|)
    ensures runner.gdn.ready == old(runner.gdn.ready)
    ensures var after := Read(runner.net, m, window[..keep]);
            runner.gdn.g == after.g && runner.kv[..cacheLen + keep] == after.kv
  {
    if runner.device {
      ReadKeepsRows(runner.net, m, window, keep);
      assert runner.kv[..cacheLen + |window|][..cacheLen + keep] == runner.kv[..cacheLen + keep];
      var cut := runner.RewindRecurrent(keep, m, window);
      assert cut == GdnWindow.Cut;
    } else {
      runner.Restore(before);
      runner.Forward(window[..keep], cacheLen);
    }
  }

  /** Score `[held, *drafted]` in one forward and keep the matching prefix. */
  method ScoreAndCut(runner: Runner, cacheLen: nat, held: Token, drafted: seq<Token>, room: nat, stops: set<Token>)
    returns (w: Kept, verify: seq<Row>)
    requires runner.Valid() && cacheLen <= |runner.kv| && room > 0 && 1 <= |drafted| <= Mtp.MOST_DRAFTS
    modifies runner, runner.gdn, runner.gdn.stash
    ensures runner.Valid() && runner.started && runner.gdn.ready == old(runner.gdn.ready)
    ensures |runner.kv| == Max(old(|runner.kv|), cacheLen + |drafted| + 1)
    ensures var m := old(Mem(runner.gdn.g, runner.kv[..cacheLen]));
            && verify == Rows(runner.net, m, [held] + drafted)
            && w == Pick(Argmaxes(runner.net, verify), drafted, room, stops)
            && var after := Read(runner.net, m, ([held] + drafted)[..|w.tokens|]);
               runner.gdn.g == after.g && runner.kv[..cacheLen + |w.tokens|] == after.kv
  {
    var window := [held] + drafted;
    var before := runner.Capture();
    ghost var m := Mem(runner.gdn.g, runner.kv[..cacheLen]);
    ReadKeepsRows(runner.net, m, window, 0);
    assert window[..0] == [];
    runner.Forward(window, cacheLen);
    assert runner.kv[..cacheLen + |window|][..cacheLen] == runner.kv[..cacheLen];
    verify := runner.hidden;
    w := Keep(runner.net, verify, drafted, room, stops);
    CutTo(runner, before, cacheLen, window, |w.tokens|, m);
  }

  /** The draft rows while a window is verified: the held id's is written when it rolled. */
  ghost predicate Drafting(cycle: DraftCycle, rows: seq<Paired>, held: Token, copied: bool)
    requires cycle.Valid() && cycle.carry.Some?
    reads cycle, cycle.draft
  {
    if copied then cycle.Rows() == rows
    else cycle.draft != null && cycle.draft.live && cycle.primed == |rows| && |rows| < cycle.Position()
         && cycle.Rows()[..|rows| + 1] == rows + [Paired(held, cycle.carry.value)]
  }

  /** The drafts of a window: copied from the history, or rolled by the block. */
  method DraftFor(cycle: DraftCycle, held: Token, k: nat, copied: Option<seq<Token>>) returns (drafted: seq<Token>)
    requires cycle.Valid() && cycle.carry.Some? && k > 0
    modifies cycle, cycle.draft
    ensures cycle.Valid() && cycle.Kept(old(cycle.draft)) && cycle.carry == old(cycle.carry)
    ensures cycle.Counts() == old(cycle.Counts())
    ensures Drafting(cycle, old(cycle.Rows()), held, copied.Some?)
    ensures drafted == if copied.Some? then copied.value
              else RollSpec(cycle.net, old(cycle.Rows()), held, cycle.carry.value, k).ids
  {
    if copied.Some? {
      drafted := copied.value;
    } else {
      ghost var rows := cycle.Rows();
      var proposal := cycle.Propose(held, k);
      drafted := proposal.value;
      assert cycle.Rows()[..|rows| + 1] == rows + [Paired(held, cycle.carry.value)];
    }
  }

  /** What a repair makes of the draft side of `c` is that of `after`. */
  ghost predicate Mends(after: Core, c: Core, held: Token, drafted: seq<Token>, matched: nat, verify: seq<Row>) {
    && matched <= |drafted| <= |verify| - 1 && c.carry.Some?
    && after.rows == c.rows + [Paired(held, c.carry.value)] + Zip(drafted[..matched], verify)
    && after.carry == Some(verify[matched])
    && (after.accepted, after.rejected) == (c.accepted + matched, c.rejected + |drafted| - matched)
  }

  /** The target side, cut to what a window kept, is that of `after`. */
  ghost predicate Cuts(runner: Runner, after: Core)
    reads runner, runner.gdn
  {
    && runner.Valid() && runner.started && runner.gdn.ready == after.ready && |after.rows| <= |runner.kv| == after.top
    && runner.gdn.g == after.m.g && runner.kv[..|after.rows|] == after.m.kv
  }

  lemma WindowedMends(net: Net, c: Core, held: Token, drafted: seq<Token>, n: nat, verify: seq<Row>)
    requires 1 <= n <= |drafted| + 1 && c.carry.Some? && verify == Verify(net, c, held, drafted)
    ensures Mends(Windowed(net, c, held, drafted, n), c, held, drafted, n - 1, verify)
  {
  }

  lemma WindowedCuts(runner: Runner, c: Core, held: Token, drafted: seq<Token>, n: nat)
    requires runner.Valid() && runner.started && runner.gdn.ready == c.ready
    requires 1 <= n <= |drafted| + 1 && c.carry.Some? && |c.m.kv| == |c.rows|
    requires var m := Read(runner.net, c.m, ([held] + drafted)[..n]);
             |c.rows| + n <= |runner.kv| && runner.gdn.g == m.g && runner.kv[..|c.rows| + n] == m.kv
    requires |runner.kv| == Max(c.top, |c.rows| + |drafted| + 1)
    ensures Cuts(runner, Windowed(runner.net, c, held, drafted, n))
  {
    assert |Windowed(runner.net, c, held, drafted, n).rows| == |c.rows| + n;
  }

  /** Repair the draft cache to the kept ids: the same rows whichever way they were drafted. */
  method RepairTo(
    cycle: DraftCycle, held: Token, drafted: seq<Token>, matched: nat, verify: seq<Row>, copied: bool,
    ghost c: Core, ghost after: Core)
    requires cycle.Valid() && cycle.carry.Some? && Drafting(cycle, c.rows, held, copied) && |verify| == |drafted| + 1
    requires Mends(after, c, held, drafted, matched, verify)
    requires cycle.carry == c.carry && cycle.Counts() == (c.accepted, c.rejected)
    modifies cycle, cycle.draft
    ensures cycle.Valid() && cycle.Kept(old(cycle.draft))
    ensures cycle.Rows() == after.rows && cycle.carry == after.carry
    ensures cycle.Counts() == (after.accepted, after.rejected)
  {
    if copied {
      cycle.RepairCopied(verify, held, drafted, matched);
    } else {
      cycle.Repair(verify, drafted, matched);
    }
  }

  /** Propose, then score and cut the target; the draft cache still awaits its repair. */
  method DraftAndScore(
    runner: Runner, cycle: DraftCycle, held: Token, room: nat, k: nat, stops: set<Token>,
    copied: Option<seq<Token>>, ghost c: Core)
    returns (w: Kept, verify: seq<Row>, drafted: seq<Token>)
    requires Joined(runner, cycle) && Of(runner, cycle) == c && c.carry.Some? && room > 0
    requires 1 <= k <= Mtp.MOST_DRAFTS && (copied.Some? ==> |copied.value| == k)
    modifies runner, runner.gdn, runner.gdn.stash, cycle, cycle.draft
    ensures cycle.Valid() && cycle.Kept(old(cycle.draft)) && cycle.carry == c.carry
    ensures cycle.Counts() == (c.accepted, c.rejected)
    ensures Drafting(cycle, c.rows, held, copied.Some?) && |drafted| == k
    ensures drafted == if copied.Some? then copied.value else Rolls(runner.net, c, held, k)
    ensures verify == Verify(runner.net, c, held, drafted) && w == Chosen(runner.net, c, held, drafted, room, stops)
    ensures Cuts(runner, Windowed(runner.net, c, held, drafted, |w.tokens|))
  {
    var cacheLen := cycle.Position();
    drafted := DraftFor(cycle, held, k, copied);
    w, verify := ScoreAndCut(runner, cacheLen, held, drafted, room, stops);
    WindowedCuts(runner, c, held, drafted, |w.tokens|);
  }

  /** One window: propose, verify in one forward, cut, and repair the draft cache. */
  method RunWindow(
    runner: Runner, cycle: DraftCycle, held: Token, room: nat, k: nat, stops: set<Token>,
    copied: Option<seq<Token>>, ghost c: Core)
    returns (w: Kept, drafted: seq<Token>)
    requires Joined(runner, cycle) && Of(runner, cycle) == c && c.carry.Some? && room > 0
    requires 1 <= k <= Mtp.MOST_DRAFTS && (copied.Some? ==> |copied.value| == k)
    modifies runner, runner.gdn, runner.gdn.stash, cycle, cycle.draft
    ensures Joined(runner, cycle) && cycle.Kept(old(cycle.draft)) && |drafted| == k
    ensures drafted == if copied.Some? then copied.value else Rolls(runner.net, c, held, k)
    ensures w == Chosen(runner.net, c, held, drafted, room, stops)
    ensures Of(runner, cycle) == Windowed(runner.net, c, held, drafted, |w.tokens|)
  {
    var verify;
    w, verify, drafted := DraftAndScore(runner, cycle, held, room, k, stops, copied, c);
    ghost var after := Windowed(runner.net, c, held, drafted, |w.tokens|);
    WindowedMends(runner.net, c, held, drafted, |w.tokens|, verify);
    RepairTo(cycle, held, drafted, |w.tokens| - 1, verify, copied.Some?, c, after);
    OfIs(runner, cycle, after);
  }

  lemma OfIs(runner: Runner, cycle: DraftCycle, after: Core)
    requires Cuts(runner, after) && cycle.Valid() && cycle.net == runner.net
    requires cycle.Rows() == after.rows && cycle.carry == after.carry
    requires cycle.Counts() == (after.accepted, after.rejected)
    ensures Joined(runner, cycle) && Of(runner, cycle) == after
  {
  }

  /** Forward `ids` at the cursor and absorb their post-norm states. */
  method ForwardAndAbsorb(runner: Runner, cycle: DraftCycle, ids: seq<Token>, ghost c: Core)
    requires Joined(runner, cycle) && Of(runner, cycle) == c && ids != []
    modifies runner, runner.gdn, runner.gdn.stash, cycle, cycle.draft
    ensures Joined(runner, cycle) && cycle.Kept(old(cycle.draft))
    ensures Of(runner, cycle) == Fed(runner.net, c, ids)
  {
    ghost var after := Fed(runner.net, c, ids);
    runner.Forward(ids, cycle.Position());
    assert runner.kv[..|c.rows| + |ids|] == after.m.kv;
    cycle.AbsorbPrefill(ids, runner.hidden);
    assert cycle.Rows() == after.rows;
  }

  datatype Applied = Refused | Applied(held: Token, produced: seq<Token>)

  /** Inject the reasoning close after a window, or in place of its last token. */
  method ApplyInject(
      runner: Runner, cycle: DraftCycle, held: Token, produced: seq<Token>, d: Directive, ghost c: Core)
      returns (r: Applied)
    requires Joined(runner, cycle) && Of(runner, cycle) == c && d.Close?
    modifies runner, runner.gdn, runner.gdn.stash, cycle, cycle.draft
    ensures Joined(runner, cycle) && cycle.Kept(old(cycle.draft))
    ensures r == Refused <==> d.dropLast && produced == []
    ensures r.Applied? && produced != [] ==>
              forall text :: var next := Inject(d, Speech(text + [held], produced));
                  r == Applied(Last(next.spoken), next.produced)
    ensures Of(runner, cycle) == if r.Refused? then c else Injected(runner.net, c, d, held)
  {
    if d.dropLast && produced == [] {
      return Refused;
    }
    var body := InjectBody(d, held);
    var said := if d.dropLast then Init(produced) else produced;
    r := Applied(if d.inject == [] then held else Last(d.inject), said + d.inject);
    if body != [] {
      ForwardAndAbsorb(runner, cycle, body, c);
    }
  }

  /** Save the prefix that is in the caches now. */
  method MarkCut(
      runner: Runner, cycle: DraftCycle, end: nat, table: MarkTable, ghost c: Core, ghost tale: map<nat, Saved>)
    returns (ghost told: map<nat, Saved>)
    requires Stands(runner, cycle, table, c, tale) && end > 0 && c.carry.Some?
    modifies table
    ensures Stands(runner, cycle, table, c, told)
    ensures Marked(tale, table.limit, runner.device, end, Saved(c.m.g, c.ready, c.carry.value), told)
  {
    table.OnSpan(runner, end, cycle.carry.value);
    told := table.Tale();
  }

  /** The two caches and the marks. */
  ghost predicate Stands(runner: Runner, cycle: DraftCycle, table: MarkTable, c: Core, tale: map<nat, Saved>)
    reads runner, runner.gdn, cycle, cycle.draft, table
  {
    Joined(runner, cycle) && table.Valid() && Of(runner, cycle) == c && table.Tale() == tale
  }

  /** The first `i` spans were forwarded and marked. */
  ghost predicate Along(
    net: Net, c: Core, prompt: seq<Token>, spans: seq<Span>, i: nat, limit: nat, device: bool,
    a: map<nat, Saved>, t: map<nat, Saved>, now: Core)
    requires i <= |spans| && forall i :: 0 <= i < |spans| ==> spans[i].0 < spans[i].1 <= |prompt|
  {
    now == FedAll(net, c, prompt, spans[..i]) && MarkedAlong(net, c, prompt, spans[..i], limit, device, a, t)
  }

  /** One cut: forward it, absorb its rows, and mark the prefix it ends. */
  method PrefillSpan(
    runner: Runner, cycle: DraftCycle, prompt: seq<Token>, begin: nat, end: nat, table: MarkTable,
    ghost c: Core, ghost tale: map<nat, Saved>)
    returns (ghost now: Core, ghost told: map<nat, Saved>)
    requires Stands(runner, cycle, table, c, tale) && |c.rows| == begin < end <= |prompt|
    modifies runner, runner.gdn, runner.gdn.stash, cycle, cycle.draft, table
    ensures Stands(runner, cycle, table, now, told) && now == Fed(runner.net, c, prompt[begin..end])
    ensures cycle.Kept(old(cycle.draft))
    ensures |now.rows| == end
    ensures Marked(tale, table.limit, runner.device, end, Saved(now.m.g, now.ready, now.carry.value), told)
  {
    now := Fed(runner.net, c, prompt[begin..end]);
    ForwardAndAbsorb(runner, cycle, prompt[begin..end], c);
    told := MarkCut(runner, cycle, end, table, now, tale);
  }

  /** Span `i`, after the ones before it. */
  method PrefillNext(
    runner: Runner, cycle: DraftCycle, prompt: seq<Token>, spans: seq<Span>, i: nat, table: MarkTable,
    ghost c: Core, ghost tale: map<nat, Saved>, ghost at: Core, ghost before: map<nat, Saved>)
    returns (ghost now: Core, ghost told: map<nat, Saved>)
    requires i < |spans| && forall i :: 0 <= i < |spans| ==> spans[i].0 < spans[i].1 <= |prompt|
    requires Stands(runner, cycle, table, at, before) && |at.rows| == spans[i].0
    requires Along(runner.net, c, prompt, spans, i, table.limit, runner.device, tale, before, at)
    modifies runner, runner.gdn, runner.gdn.stash, cycle, cycle.draft, table
    ensures Stands(runner, cycle, table, now, told) && |now.rows| == spans[i].1
    ensures cycle.Kept(old(cycle.draft))
    ensures Along(runner.net, c, prompt, spans, i + 1, table.limit, runner.device, tale, told, now)
  {
    now, told := PrefillSpan(runner, cycle, prompt, spans[i].0, spans[i].1, table, at, before);
    AlongSnoc(runner.net, c, prompt, spans, i, table.limit, runner.device, tale, before, told, at, now);
  }

  /** Every span in order. */
  method PrefillSpans(
    runner: Runner, cycle: DraftCycle, prompt: seq<Token>, spans: seq<Span>, ghost stop: nat, table: MarkTable,
    ghost c: Core, ghost tale: map<nat, Saved>)
    returns (ghost now: Core, ghost told: map<nat, Saved>)
    requires Stands(runner, cycle, table, c, tale) && stop <= |prompt|
    requires Partition(spans, |c.rows|, stop) && forall i :: 0 <= i < |spans| ==> spans[i].0 < spans[i].1 <= stop
    modifies runner, runner.gdn, runner.gdn.stash, cycle, cycle.draft, table
    ensures Stands(runner, cycle, table, now, told)
    ensures cycle.Kept(old(cycle.draft))
    ensures Along(runner.net, c, prompt, spans, |spans|, table.limit, runner.device, tale, told, now)
  {
    now, told := c, tale;
    for i := 0 to |spans|
      invariant Stands(runner, cycle, table, now, told)
      invariant cycle.Kept(old(cycle.draft))
      invariant |now.rows| == if i == 0 then |c.rows| else spans[i - 1].1
      invariant Along(runner.net, c, prompt, spans, i, table.limit, runner.device, tale, told, now)
    {
      now, told := PrefillNext(runner, cycle, prompt, spans, i, table, c, tale, now, told);
    }
  }

  /** One more cut of the prefill and its mark. */
  lemma AlongSnoc(
    net: Net, c: Core, prompt: seq<Token>, spans: seq<Span>, i: nat, limit: nat, device: bool,
    a: map<nat, Saved>, t: map<nat, Saved>, b: map<nat, Saved>, at: Core, now: Core)
    requires i < |spans| && forall i :: 0 <= i < |spans| ==> spans[i].0 < spans[i].1 <= |prompt|
    requires Along(net, c, prompt, spans, i, limit, device, a, t, at)
    requires now == Fed(net, at, prompt[spans[i].0..spans[i].1])
    requires now.carry.Some? && Marked(t, limit, device, spans[i].1, Saved(now.m.g, now.ready, now.carry.value), b)
    ensures Along(net, c, prompt, spans, i + 1, limit, device, a, b, now)
  {
    var upTo := spans[..i + 1];
    assert upTo[..i] == spans[..i];
    assert MarkedLast(net, c, prompt, upTo, limit, device, a, t, b, now);
  }

  datatype HeldOut = NoHeld | Held(held: Token)

  /** The page cuts, split where a mark should land. */
  method SpansFor(start: nat, length: nat, cuts: seq<nat>) returns (spans: seq<Span>)
    ensures spans == SpansOf(start, length, cuts)
  {
    var bounds := SuffixBounds(start, length, 8192, 256);
    spans := SplitSpans(bounds, cuts);
  }

  /** The prompt but for its last id, cut by cut. */
  method PrefillHeld(
    runner: Runner, cycle: DraftCycle, prompt: seq<Token>, table: MarkTable, cuts: seq<nat>,
    ghost c: Core, ghost tale: map<nat, Saved>)
    returns (r: HeldOut, ghost now: Core, ghost told: map<nat, Saved>)
    requires Stands(runner, cycle, table, c, tale) && |c.rows| <= |prompt|
    modifies runner, runner.gdn, runner.gdn.stash, cycle, cycle.draft, table
    ensures Stands(runner, cycle, table, now, told)
    ensures cycle.Kept(old(cycle.draft))
    ensures r == (if |prompt| >= 2 && |c.rows| < |prompt| then Held(Last(prompt)) else NoHeld)
    ensures var spans := SpansOf(|c.rows|, |prompt|, cuts);
            Along(runner.net, c, prompt, spans, |spans|, table.limit, runner.device, tale, told, now)
  {
    var start := cycle.Position();
    var all := SpansFor(start, |prompt|, cuts);
    if all == [] {
      now, told := c, tale;
      r := if |prompt| >= 2 && start == |prompt| - 1 then Held(prompt[start]) else NoHeld;
    } else {
      now, told := PrefillSpans(runner, cycle, prompt, all, |prompt| - 1, table, c, tale);
      r := Held(Last(prompt));
    }
  }
}
