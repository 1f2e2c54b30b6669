/** The two caches of a turn as one value, and what each step makes of it.

    Only what lies below the cursor is in the value: pages and draft rows above it are
    stale and never read. */
module Caches {
  import opened Options
  import opened Target
  import opened Runner
  import opened Draft
  import opened Decode
  import opened Cycle
  import opened Marks
  import opened Restart
  import opened Schedule
  import opened SuffixIndex
  import GdnWindow

  /** Recurrent state and attention rows, the chunk kernel's flag, the draft side, and how
      far the attention pages have been written. */
  datatype Core = Core(m: Mem, ready: bool, rows: seq<Paired>, carry: Option<Row>, accepted: nat, rejected: nat,
      top: nat)

  /** Both caches hold exactly `text`, as a cold run of it leaves them. */
  ghost predicate Coupled(net: Net, c: Core, text: seq<Token>) {
    && c.m == At(net, text) && PairsOf(net, text, c.rows)
    && c.carry == (if text == [] then None else Some(RowOf(net, text)))
  }

  lemma CoupledSize(net: Net, c: Core, text: seq<Token>)
    requires Coupled(net, c, text)
    ensures |c.m.kv| == |c.rows| == |text|
  {
    AtSize(net, text);
  }

  lemma AtSize(net: Net, text: seq<Token>)
    ensures |At(net, text).kv| == |text|
  {
  }

  /** Forward `ids` and absorb their rows: a prefill cut, or an injection. */
  function Fed(net: Net, c: Core, ids: seq<Token>): Core
    requires ids != []
  {
    var begun := Mem(GdnWindow.Start(net, c.m.g, c.ready, |ids|), c.m.kv);
    var hidden := Rows(net, begun, ids);
    Core(Read(net, begun, ids), c.ready || |ids| >= GdnWindow.CHUNK_KERNEL,
         c.rows + Zip(ids, ShiftRows(c.carry, hidden, net.blank).paired), Some(hidden[|ids| - 1]),
         c.accepted, c.rejected, Max(c.top, |c.m.kv| + |ids|))
  }

  lemma FedCoupled(net: Net, c: Core, text: seq<Token>, ids: seq<Token>)
    requires ids != [] && Coupled(net, c, text) && Carries(c.ready, |text|, |ids|)
    ensures Coupled(net, Fed(net, c, ids), text + ids)
  {
    AtSize(net, text);
    assert |text| == 0 ==> text == [];
    assert GdnWindow.Start(net, c.m.g, c.ready, |ids|) == c.m.g;
    ReadAppend(net, Mem(net.zero, []), text, ids);
    RowsAreOf(net, text, ids);
    AbsorbPairs(net, text, c.rows, ids, c.carry, Rows(net, c.m, ids));
  }

  /** The prompt's spans, one after the other. */
  function FedAll(net: Net, c: Core, prompt: seq<Token>, spans: seq<Span>): (r: Core)
    requires forall i :: 0 <= i < |spans| ==> spans[i].0 < spans[i].1 <= |prompt|
    decreases |spans|
  {
    if spans == [] then c
    else
      var last := spans[|spans| - 1];
      Fed(net, FedAll(net, c, prompt, spans[..|spans| - 1]), prompt[last.0..last.1])
  }

  /** Whether a prefill has made the layer ready. */
  predicate ReadyAfter(ready: bool, spans: seq<Span>) {
    ready || HasLong(spans)
  }

  lemma {:induction false} FedAllReady(net: Net, c: Core, prompt: seq<Token>, spans: seq<Span>)
    requires forall i :: 0 <= i < |spans| ==> spans[i].0 < spans[i].1 <= |prompt|
    ensures var r := FedAll(net, c, prompt, spans);
            && r.ready == ReadyAfter(c.ready, spans) && (r.accepted, r.rejected) == (c.accepted, c.rejected)
            && (if spans == [] then r == c else r.carry.Some?)
    decreases |spans|
  {
    if spans != [] {
      var before, last := spans[..|spans| - 1], spans[|spans| - 1];
      FedAllReady(net, c, prompt, before);
      HasLongSnoc(before, last);
      assert before + [last] == spans;
    }
  }

  lemma HasLongSnoc(spans: seq<Span>, last: Span)
    ensures HasLong(spans + [last]) <==> HasLong(spans) || Long(last)
  {
    var all := spans + [last];
    if HasLong(spans) {
      var i :| 0 <= i < |spans| && Long(spans[i]);
      assert Long(all[i]);
    }
    if Long(last) {
      assert Long(all[|spans|]);
    }
    if HasLong(all) {
      var i :| 0 <= i < |all| && Long(all[i]);
      assert i < |spans| ==> Long(spans[i]);
    }
  }

  /** The spans before the last one carry, and the last one carries what they left. */
  lemma {:induction false} CarriedSnoc(ready: bool, spans: seq<Span>, last: Span)
    ensures Carried(ready, spans + [last])
       <==> Carried(ready, spans) && Carries(ReadyAfter(ready, spans), last.0, Len(last))
    decreases |spans|
  {
    var all := spans + [last];
    if spans == [] {
      assert all == [last] && all[1..] == [];
      assert !HasLong(spans);
    } else {
      assert all[0] == spans[0] && all[1..] == spans[1..] + [last];
      CarriedSnoc(ready || Long(spans[0]), spans[1..], last);
      if HasLong(spans) && !Long(spans[0]) {
        var i :| 0 <= i < |spans| && Long(spans[i]);
        assert Long(spans[1..][i - 1]);
      }
      if HasLong(spans[1..]) {
        var i :| 0 <= i < |spans[1..]| && Long(spans[1..][i]);
        assert Long(spans[i + 1]);
      }
    }
  }

  lemma SpanCoupled(net: Net, c: Core, prompt: seq<Token>, begin: nat, end: nat)
    requires begin < end <= |prompt| && Coupled(net, c, prompt[..begin]) && Carries(c.ready, begin, end - begin)
    ensures Coupled(net, Fed(net, c, prompt[begin..end]), prompt[..end])
  {
    assert prompt[..begin] + prompt[begin..end] == prompt[..end];
    FedCoupled(net, c, prompt[..begin], prompt[begin..end]);
  }

  /** Spans that carry the past leave the caches on the longer text. */
  lemma {:induction false} FedAllCoupled(net: Net, c: Core, prompt: seq<Token>, spans: seq<Span>, start: nat, stop: nat)
    requires Partition(spans, start, stop) && start <= stop <= |prompt| && Coupled(net, c, prompt[..start])
    requires Carried(c.ready, spans)
    requires forall i :: 0 <= i < |spans| ==> spans[i].0 < spans[i].1 <= |prompt|
    ensures Coupled(net, FedAll(net, c, prompt, spans), prompt[..stop])
    decreases |spans|
  {
    if spans != [] {
      var before, last := spans[..|spans| - 1], spans[|spans| - 1];
      assert before + [last] == spans;
      CarriedSnoc(c.ready, before, last);
      PartitionInit(spans, start, stop);
      FedAllCoupled(net, c, prompt, before, start, last.0);
      FedAllReady(net, c, prompt, before);
      SpanCoupled(net, FedAll(net, c, prompt, before), prompt, last.0, last.1);
    }
  }

  lemma PartitionInit(spans: seq<Span>, start: nat, stop: nat)
    requires Partition(spans, start, stop) && spans != []
    ensures var last := spans[|spans| - 1];
            Partition(spans[..|spans| - 1], start, last.0) && start <= last.0 < last.1 == stop
  {
    SpanStartsInside(spans, start, stop, |spans| - 1);
  }

  /** The marks of a prefill, cut by cut. */
  ghost predicate MarkedAlong(
    net: Net, c: Core, prompt: seq<Token>, spans: seq<Span>, limit: nat, device: bool, a: map<nat, Saved>,
    b: map<nat, Saved>)
    requires forall i :: 0 <= i < |spans| ==> spans[i].0 < spans[i].1 <= |prompt|
    decreases |spans|
  {
    if spans == [] then a == b
    else
      var r := FedAll(net, c, prompt, spans);
      r.carry.Some? && exists t :: MarkedLast(net, c, prompt, spans, limit, device, a, t, b, r)
  }

  ghost predicate MarkedLast(
    net: Net, c: Core, prompt: seq<Token>, spans: seq<Span>, limit: nat, device: bool,
    a: map<nat, Saved>, t: map<nat, Saved>, b: map<nat, Saved>, r: Core)
    requires spans != [] && r.carry.Some?
    requires forall i :: 0 <= i < |spans| ==> spans[i].0 < spans[i].1 <= |prompt|
    decreases |spans|, 0
  {
    && MarkedAlong(net, c, prompt, spans[..|spans| - 1], limit, device, a, t)
    && Marked(t, limit, device, spans[|spans| - 1].1, Saved(r.m.g, r.ready, r.carry.value), b)
  }

  /** The last cut's marking, and the ones before it. */
  lemma MarkedSplit(
    net: Net, c: Core, prompt: seq<Token>, spans: seq<Span>, start: nat, stop: nat, limit: nat, device: bool,
    a: map<nat, Saved>, b: map<nat, Saved>)
    returns (t: map<nat, Saved>, saved: Saved)
    requires Partition(spans, start, stop) && stop <= |prompt| && spans != []
    requires forall i :: 0 <= i < |spans| ==> spans[i].0 < spans[i].1 <= |prompt|
    requires MarkedAlong(net, c, prompt, spans, limit, device, a, b)
    ensures var before, last, r := spans[..|spans| - 1], spans[|spans| - 1], FedAll(net, c, prompt, spans);
            && Partition(before, start, last.0) && last.0 < last.1 == stop && before + [last] == spans
            && MarkedAlong(net, c, prompt, before, limit, device, a, t) && Marked(t, limit, device, stop, saved, b)
            && r.carry.Some? && saved == Saved(r.m.g, r.ready, r.carry.value)
  {
    PartitionInit(spans, start, stop);
    var r := FedAll(net, c, prompt, spans);
    t :| MarkedLast(net, c, prompt, spans, limit, device, a, t, b, r);
    saved := Saved(r.m.g, r.ready, r.carry.value);
  }

  /** What the marks of a prefill are: old ones, and cuts of this prompt. */
  lemma {:induction false} MarkedAlongGrew(
    net: Net, c: Core, prompt: seq<Token>, spans: seq<Span>, start: nat, stop: nat, limit: nat, device: bool,
    a: map<nat, Saved>, b: map<nat, Saved>)
    requires Partition(spans, start, stop) && stop <= |prompt|
    requires forall i :: 0 <= i < |spans| ==> spans[i].0 < spans[i].1 <= |prompt|
    requires MarkedAlong(net, c, prompt, spans, limit, device, a, b)
    ensures Grew(a, b, start, stop) && Roomy(a, b, spans, limit, device)
    decreases |spans|
  {
    if spans != [] {
      var t, saved := MarkedSplit(net, c, prompt, spans, start, stop, limit, device, a, b);
      var before, last := spans[..|spans| - 1], spans[|spans| - 1];
      MarkedAlongGrew(net, c, prompt, before, start, last.0, limit, device, a, t);
      MarkedGrew(t, limit, device, last.0, last.1, saved, b);
      GrewTrans(a, t, b, start, last.0, last.1);
      RoomyTrans(a, t, b, before, [(last.0, last.1)], limit, device);
    }
  }

  /** Without room for marks, or a device, none is made. */
  lemma {:induction false} MarkedAlongNone(
    net: Net, c: Core, prompt: seq<Token>, spans: seq<Span>, limit: nat, device: bool, a: map<nat, Saved>,
    b: map<nat, Saved>)
    requires forall i :: 0 <= i < |spans| ==> spans[i].0 < spans[i].1 <= |prompt|
    requires MarkedAlong(net, c, prompt, spans, limit, device, a, b) && (limit == 0 || !device)
    ensures a == b
    decreases |spans|
  {
    if spans != [] {
      var r := FedAll(net, c, prompt, spans);
      var t :| MarkedLast(net, c, prompt, spans, limit, device, a, t, b, r);
      MarkedAlongNone(net, c, prompt, spans[..|spans| - 1], limit, device, a, t);
    }
  }

  /** Marks of a warm layer are warm. */
  lemma {:induction false} MarkedAlongReady(
    net: Net, c: Core, prompt: seq<Token>, spans: seq<Span>, start: nat, stop: nat, limit: nat, device: bool,
    a: map<nat, Saved>, b: map<nat, Saved>)
    requires Partition(spans, start, stop) && stop <= |prompt| && (spans != [] ==> Warms(c.ready, spans))
    requires forall i :: 0 <= i < |spans| ==> spans[i].0 < spans[i].1 <= |prompt|
    requires MarkedAlong(net, c, prompt, spans, limit, device, a, b)
    ensures NewReady(a, b)
    decreases |spans|
  {
    if spans != [] {
      var t, saved := MarkedSplit(net, c, prompt, spans, start, stop, limit, device, a, b);
      var before := spans[..|spans| - 1];
      WarmsSnoc(c.ready, spans);
      FedAllReady(net, c, prompt, spans);
      MarkedAlongReady(net, c, prompt, before, start, spans[|spans| - 1].0, limit, device, a, t);
      MarkedReady(t, limit, device, stop, saved, b);
      ReadyTrans(a, t, b);
    }
  }

  /** Marks of a prefill that carries its past tell their prefixes. */
  lemma {:induction false} MarkedAlongTell(
    net: Net, c: Core, prompt: seq<Token>, spans: seq<Span>, start: nat, stop: nat, limit: nat, device: bool,
    a: map<nat, Saved>, b: map<nat, Saved>)
    requires Partition(spans, start, stop) && start <= stop <= |prompt| && Coupled(net, c, prompt[..start])
    requires Carried(c.ready, spans)
    requires forall i :: 0 <= i < |spans| ==> spans[i].0 < spans[i].1 <= |prompt|
    requires MarkedAlong(net, c, prompt, spans, limit, device, a, b)
    ensures NewTell(net, prompt, a, b)
    decreases |spans|
  {
    if spans != [] {
      var t, saved := MarkedSplit(net, c, prompt, spans, start, stop, limit, device, a, b);
      var before, last := spans[..|spans| - 1], spans[|spans| - 1];
      CarriedSnoc(c.ready, before, last);
      PartitionInit(spans, start, stop);
      MarkedAlongTell(net, c, prompt, before, start, last.0, limit, device, a, t);
      FedAllCoupled(net, c, prompt, spans, start, stop);
      MarkedTells(net, prompt, t, limit, device, stop, saved, b);
      TellTrans(net, prompt, a, t, b);
    }
  }

  lemma WarmsSnoc(ready: bool, spans: seq<Span>)
    requires spans != [] && Warms(ready, spans)
    ensures ReadyAfter(ready, spans) && (|spans| > 1 ==> Warms(ready, spans[..|spans| - 1]))
  {
    if !ready {
      assert Long(spans[0]);
    }
  }

  /** The rows that verify a window. */
  function Verify(net: Net, c: Core, held: Token, drafted: seq<Token>): seq<Row> {
    Rows(net, c.m, [held] + drafted)
  }

  /** The target's choice on each row of a window. */
  function Argmaxes(net: Net, rows: seq<Row>): seq<Token> {
    seq(|rows|, i requires 0 <= i < |rows| => net.argmax(rows[i]))
  }

  /** What a window keeps. */
  function Chosen(net: Net, c: Core, held: Token, drafted: seq<Token>, room: nat, stops: set<Token>): (w: Kept)
    requires room > 0
    ensures 1 <= |w.tokens| <= room && |w.tokens| <= |drafted| + 1
  {
    Pick(Argmaxes(net, Verify(net, c, held, drafted)), drafted, room, stops)
  }

  /** The caches after a window that kept `n` ids: the held id and the kept ones but the
      last have entered. */
  function Windowed(net: Net, c: Core, held: Token, drafted: seq<Token>, n: nat): Core
    requires 1 <= n <= |drafted| + 1 && c.carry.Some?
  {
    var verify := Verify(net, c, held, drafted);
    Core(Read(net, c.m, ([held] + drafted)[..n]), c.ready,
         c.rows + [Paired(held, c.carry.value)] + Zip(drafted[..n - 1], verify), Some(verify[n - 1]),
         c.accepted + n - 1, c.rejected + |drafted| - (n - 1), Max(c.top, |c.m.kv| + |drafted| + 1))
  }

  /** The draft block's own proposals. */
  function Rolls(net: Net, c: Core, held: Token, k: nat): seq<Token>
    requires c.carry.Some?
  {
    RollSpec(net, c.rows, held, c.carry.value, k).ids
  }

  /** The drafts of a window: copied from the text in the caches, or else the block's. */
  function Drafted(net: Net, index: Option<Index>, c: Core, text: seq<Token>, held: Token, k: nat): (r: seq<Token>)
    requires c.carry.Some?
    ensures |r| == k
  {
    var copied := CopyOf(index, text, held, k);
    if copied.Some? then copied.value else Rolls(net, c, held, k)
  }

  lemma SamplesAre(
    net: Net, o: Oracle, index: Option<Index>, text: seq<Token>, held: Token, drafted: seq<Token>, verify: seq<Row>,
    k: nat)
    requires Serves(o, net, index, k) && RowsOf(net, text, [held] + drafted, verify)
    ensures Argmaxes(net, verify) == Samples(o.next, text + [held], drafted)
  {
    var window := [held] + drafted;
    forall i | 0 <= i <= |drafted|
      ensures net.argmax(verify[i]) == o.next(text + [held] + drafted[..i])
    {
      assert RowAt(net, text, window, verify, i);
      assert window[..i + 1] == [held] + drafted[..i];
      assert text + window[..i + 1] == text + [held] + drafted[..i];
      assert Asked(text + [held] + drafted[..i]);
    }
  }

  /** On caches that hold the text, a window keeps what the specification keeps. */
  lemma ChosenIsSpec(
    net: Net, o: Oracle, index: Option<Index>, c: Core, text: seq<Token>, held: Token, drafted: seq<Token>, room: nat,
    stops: set<Token>, k: nat)
    requires room > 0 && Serves(o, net, index, k) && Coupled(net, c, text)
    ensures var w := Chosen(net, c, held, drafted, room, stops);
            w == WindowSpec(o.next, text + [held], drafted, room, stops) && Init(w.tokens) == drafted[..|w.tokens| - 1]
  {
    RowsAreOf(net, text, [held] + drafted);
    SamplesAre(net, o, index, text, held, drafted, Verify(net, c, held, drafted), k);
    WindowIsOwn(o.next, text + [held], drafted, room, stops);
  }

  /** A copy from the text, or a roll over its pairs, is what the oracle drafts. */
  lemma DraftedIsSpec(net: Net, o: Oracle, index: Option<Index>, k: nat, c: Core, text: seq<Token>, held: Token)
    requires Serves(o, net, index, k) && text != [] && Coupled(net, c, text)
    ensures Drafted(net, index, c, text, held, k) == o.draft(text + [held])
  {
    assert Init(text + [held]) == text && Last(text + [held]) == held && Asked(text + [held]);
    PairsUnique(net, text, c.rows);
  }

  /** The text in the caches after a window: the held id enters, the last kept one does not. */
  function Cached(text: seq<Token>, held: Token, kept: seq<Token>): seq<Token>
    requires kept != []
  {
    text + ([held] + Init(kept))
  }

  lemma CachedIsInit(text: seq<Token>, held: Token, kept: seq<Token>)
    requires kept != []
    ensures Cached(text, held, kept) == Init(text + [held] + kept)
    ensures Last(text + [held] + kept) == Last(kept) && Init(text + [held]) == text && Last(text + [held]) == held
  {
  }

  /** After a window both caches hold the kept text. */
  lemma WindowedCoupled(net: Net, c: Core, text: seq<Token>, held: Token, drafted: seq<Token>, kept: seq<Token>)
    requires text != [] && Coupled(net, c, text) && 1 <= |kept| <= |drafted| + 1 && Init(kept) == drafted[..|kept| - 1]
    ensures Coupled(net, Windowed(net, c, held, drafted, |kept|), Cached(text, held, kept))
  {
    var window, n := [held] + drafted, |kept|;
    assert window[..n] == [held] + Init(kept);
    ReadAppend(net, Mem(net.zero, []), text, window[..n]);
    RowsAreOf(net, text, window);
    RepairPairs(net, text, c.rows, held, drafted, Verify(net, c, held, drafted), n - 1);
  }

  /** The ids an injection writes after the text; the last id stays held. */
  function InjectBody(d: Directive, held: Token): seq<Token>
    requires d.Close?
  {
    if d.inject == [] then [] else if d.dropLast then Init(d.inject) else [held] + Init(d.inject)
  }

  lemma InjectText(text: seq<Token>, held: Token, produced: seq<Token>, d: Directive)
    requires d.Close? && produced != []
    ensures var next := Inject(d, Speech(text + [held], produced));
            Init(next.spoken) == text + InjectBody(d, held)
            && Last(next.spoken) == if d.inject == [] then held else Last(d.inject)
  {
  }

  /** The caches after a directive. */
  function Injected(net: Net, c: Core, d: Directive, held: Token): Core {
    if d.Nothing? || InjectBody(d, held) == [] then c else Fed(net, c, InjectBody(d, held))
  }

  /** How many ids a directive writes. */
  function BodyLen(d: Directive): nat {
    if d.Nothing? || d.inject == [] then 0 else if d.dropLast then |d.inject| - 1 else |d.inject|
  }

  lemma InjectedCoupled(net: Net, c: Core, s: Speech, d: Directive)
    requires s.spoken != [] && s.produced != [] && Coupled(net, c, Init(s.spoken))
    requires Carries(c.ready, |s.spoken| - 1, BodyLen(d))
    ensures Coupled(net, Injected(net, c, d, Last(s.spoken)), Init(Inject(d, s).spoken))
  {
    var text, held := Init(s.spoken), Last(s.spoken);
    assert text + [held] == s.spoken;
    if d.Close? {
      InjectText(text, held, s.produced, d);
      var body := InjectBody(d, held);
      assert |body| == BodyLen(d);
      if body == [] {
        assert text + body == text;
      } else {
        FedCoupled(net, c, text, body);
      }
    }
  }

  /** The state of a text was lost: it shows the zero state, and nothing from `p` on moves it. */
  ghost predicate Dead(net: Net, c: Core, p: nat) {
    Still(net, p) && p <= |c.m.kv| && c.m.g.rec == net.zero.rec
  }

  lemma FedDead(net: Net, c: Core, ids: seq<Token>, p: nat)
    requires ids != [] && Dead(net, c, p)
    ensures Dead(net, Fed(net, c, ids), p)
  {
    var begun := Mem(GdnWindow.Start(net, c.m.g, c.ready, |ids|), c.m.kv);
    StillReads(net, p, begun, ids);
  }

  lemma WindowedDead(net: Net, c: Core, held: Token, drafted: seq<Token>, n: nat, p: nat)
    requires 1 <= n <= |drafted| + 1 && c.carry.Some? && Dead(net, c, p)
    ensures Dead(net, Windowed(net, c, held, drafted, n), p)
  {
    StillReads(net, p, c.m, ([held] + drafted)[..n]);
  }

  /** Sizes only depend on the ids fed. */
  lemma {:induction false} FedAllSize(net: Net, c: Core, prompt: seq<Token>, spans: seq<Span>, start: nat, stop: nat)
    requires Partition(spans, start, stop) && start <= stop <= |prompt| && |c.m.kv| == |c.rows| == start
    requires forall i :: 0 <= i < |spans| ==> spans[i].0 < spans[i].1 <= |prompt|
    ensures var r := FedAll(net, c, prompt, spans); |r.m.kv| == |r.rows| == stop
    decreases |spans|
  {
    if spans != [] {
      PartitionInit(spans, start, stop);
      FedAllSize(net, c, prompt, spans[..|spans| - 1], start, spans[|spans| - 1].0);
    }
  }

  /** Feeding never touches what lies below. */
  lemma FedKeeps(net: Net, c: Core, ids: seq<Token>)
    requires ids != [] && |c.m.kv| == |c.rows|
    ensures var r := Fed(net, c, ids); r.m.kv[..|c.m.kv|] == c.m.kv && r.rows[..|c.rows|] == c.rows
  {
    var begun := Mem(GdnWindow.Start(net, c.m.g, c.ready, |ids|), c.m.kv);
    ReadKeepsRows(net, begun, ids, 0);
    assert ids[..0] == [];
  }

  lemma WindowedKeeps(net: Net, c: Core, held: Token, drafted: seq<Token>, n: nat)
    requires 1 <= n <= |drafted| + 1 && c.carry.Some? && |c.m.kv| == |c.rows|
    ensures var r := Windowed(net, c, held, drafted, n); r.m.kv[..|c.m.kv|] == c.m.kv && r.rows[..|c.rows|] == c.rows
  {
    var ids := ([held] + drafted)[..n];
    ReadKeepsRows(net, c.m, ids, 0);
    assert ids[..0] == [];
  }

  /** The later caches still hold what the earlier ones held, row by row. */
  ghost predicate Over(c: Core, r: Core) {
    && |c.m.kv| == |c.rows| <= |r.rows| == |r.m.kv|
    && r.m.kv[..|c.m.kv|] == c.m.kv && r.rows[..|c.rows|] == c.rows
  }

  lemma OverTrans(a: Core, b: Core, c: Core)
    requires Over(a, b) && Over(b, c)
    ensures Over(a, c)
  {
    assert c.m.kv[..|b.m.kv|][..|a.m.kv|] == c.m.kv[..|a.m.kv|];
    assert c.rows[..|b.rows|][..|a.rows|] == c.rows[..|a.rows|];
  }

  lemma {:induction false} FedAllOver(net: Net, c: Core, prompt: seq<Token>, spans: seq<Span>)
    requires |c.m.kv| == |c.rows| && forall i :: 0 <= i < |spans| ==> spans[i].0 < spans[i].1 <= |prompt|
    ensures Over(c, FedAll(net, c, prompt, spans))
    decreases |spans|
  {
    if spans == [] {
      assert c.m.kv[..|c.m.kv|] == c.m.kv && c.rows[..|c.rows|] == c.rows;
    } else {
      var before, last := spans[..|spans| - 1], spans[|spans| - 1];
      var b := FedAll(net, c, prompt, before);
      FedAllOver(net, c, prompt, before);
      FedKeeps(net, b, prompt[last.0..last.1]);
      OverTrans(c, b, FedAll(net, c, prompt, spans));
    }
  }

  /** A prefill that restarts over a past forgets it. */
  lemma {:induction false} FedAllDead(
      net: Net, c: Core, prompt: seq<Token>, spans: seq<Span>, start: nat, stop: nat, p: nat)
    requires Partition(spans, start, stop) && start <= stop <= |prompt| && |c.m.kv| == |c.rows| == start
    requires forall i :: 0 <= i < |spans| ==> spans[i].0 < spans[i].1 <= |prompt|
    requires !c.ready && HasLong(spans) && p <= RestartAt(spans) && Still(net, p)
    ensures Dead(net, FedAll(net, c, prompt, spans), p)
    decreases |spans|
  {
    var before, last := spans[..|spans| - 1], spans[|spans| - 1];
    assert before + [last] == spans;
    HasLongSnoc(before, last);
    PartitionInit(spans, start, stop);
    RestartSnoc(before, last);
    var b, ids := FedAll(net, c, prompt, before), prompt[last.0..last.1];
    FedAllSize(net, c, prompt, before, start, last.0);
    if HasLong(before) {
      FedAllDead(net, c, prompt, before, start, last.0, p);
      FedDead(net, b, ids, p);
    } else {
      FedAllReady(net, c, prompt, before);
      StillReads(net, p, Mem(GdnWindow.Start(net, b.m.g, b.ready, |ids|), b.m.kv), ids);
    }
  }

  lemma {:induction false} RestartSnoc(spans: seq<Span>, last: Span)
    ensures HasLong(spans) ==> RestartAt(spans + [last]) == RestartAt(spans)
    ensures !HasLong(spans) && Long(last) ==> RestartAt(spans + [last]) == last.0
    decreases |spans|
  {
    var all := spans + [last];
    if spans == [] {
      assert all == [last];
    } else {
      assert all[0] == spans[0] && all[1..] == spans[1..] + [last];
      RestartSnoc(spans[1..], last);
      if HasLong(spans) && !Long(spans[0]) {
        var i :| 0 <= i < |spans| && Long(spans[i]);
        assert Long(spans[1..][i - 1]);
      }
      if HasLong(spans[1..]) {
        var i :| 0 <= i < |spans[1..]| && Long(spans[1..][i]);
        assert Long(spans[i + 1]);
      }
    }
  }
}
