/** When forwards keep the recurrent state of the text before them.

    The chunk kernel is handed the recurrent state only once the layer is ready,
    and only a long chunk makes it ready. */
module Restart {
  import opened Target
  import opened Runner
  import opened Schedule
  import GdnWindow

  function Len(span: Span): nat {
    if span.0 < span.1 then span.1 - span.0 else 0
  }

  /** A span that takes the chunk kernel. */
  predicate Long(span: Span) {
    Len(span) >= GdnWindow.CHUNK_KERNEL
  }

  predicate HasLong(spans: seq<Span>) {
    exists i :: 0 <= i < |spans| && Long(spans[i])
  }

  /** Every span in turn keeps the state of the text before it. */
  predicate Carried(ready: bool, spans: seq<Span>)
    decreases |spans|
  {
    spans == [] || (Carries(ready, spans[0].0, Len(spans[0])) && Carried(ready || Long(spans[0]), spans[1..]))
  }

  /** In other words: the layer was ready, or no span is long, or the first span starts
      from nothing and is long. */
  lemma {:induction false} CarriedIs(ready: bool, spans: seq<Span>, start: nat, stop: nat)
    requires Partition(spans, start, stop)
    ensures Carried(ready, spans) <==> ready || !HasLong(spans) || (start == 0 && Long(spans[0]))
    decreases |spans|
  {
    if spans != [] {
      var rest := spans[1..];
      assert Partition(rest, spans[0].1, stop);
      CarriedIs(ready || Long(spans[0]), rest, spans[0].1, stop);
      if HasLong(rest) {
        var i :| 0 <= i < |rest| && Long(rest[i]);
        assert Long(spans[i + 1]);
      }
      if HasLong(spans) && !Long(spans[0]) {
        var i :| 0 <= i < |spans| && Long(spans[i]);
        assert Long(rest[i - 1]);
      }
    }
  }

  /** A warm layer, or a cold prompt whose first span is long. */
  predicate Warms(ready: bool, spans: seq<Span>) {
    ready || (spans != [] && spans[0].0 == 0 && Long(spans[0]))
  }

  lemma WarmsIsCarried(ready: bool, spans: seq<Span>, start: nat, stop: nat)
    requires Partition(spans, start, stop) && Warms(ready, spans)
    ensures Carried(ready, spans)
  {
    CarriedIs(ready, spans, start, stop);
  }

  /** The memory that the spans of `text` really leave, read from `m`. */
  ghost function Walk(net: Net, m: Mem, ready: bool, text: seq<Token>, spans: seq<Span>): Mem
    requires forall i :: 0 <= i < |spans| ==> spans[i].0 <= spans[i].1 <= |text|
    decreases |spans|
  {
    if spans == [] then m
    else
      var ids := text[spans[0].0..spans[0].1];
      Walk(net, Read(net, Mem(GdnWindow.Start(net, m.g, ready, |ids|), m.kv), ids), ready || Long(spans[0]), text,
          spans[1..])
  }

  ghost predicate AlwaysLands(ready: bool, spans: seq<Span>, start: nat, stop: nat)
    requires Partition(spans, start, stop)
  {
    forall net, text :: Lands(net, text, ready, spans, start, stop)
  }

  /** The spans of `text` land where a cold run of it lands. */
  ghost predicate Lands(net: Net, text: seq<Token>, ready: bool, spans: seq<Span>, start: nat, stop: nat)
    requires Partition(spans, start, stop)
  {
    Inside(spans, start, stop);
    |text| == stop ==> Walk(net, At(net, text[..start]), ready, text, spans) == At(net, text)
  }

  lemma Inside(spans: seq<Span>, start: nat, stop: nat)
    requires Partition(spans, start, stop)
    ensures start <= stop && forall i :: 0 <= i < |spans| ==> start <= spans[i].0 <= spans[i].1 <= stop
  {
    forall i | 0 <= i < |spans|
      ensures start <= spans[i].0 <= spans[i].1 <= stop
    {
      SpanStartsInside(spans, start, stop, i);
      SpanEndsInside(spans, start, stop, i);
    }
  }

  lemma {:induction false} CarriedLands(
      net: Net, text: seq<Token>, ready: bool, spans: seq<Span>, start: nat, stop: nat)
    requires Partition(spans, start, stop) && Carried(ready, spans) && |text| == stop
    requires forall i :: 0 <= i < |spans| ==> spans[i].0 <= spans[i].1 <= |text|
    requires start <= stop
    ensures Walk(net, At(net, text[..start]), ready, text, spans) == At(net, text)
    decreases |spans|
  {
    if spans == [] {
      assert text[..start] == text;
    } else {
      var end := spans[0].1;
      assert text[..end] == text[..start] + text[start..end];
      ReadAppend(net, Mem(net.zero, []), text[..start], text[start..end]);
      assert start == 0 ==> text[..start] == [];
      assert Partition(spans[1..], end, stop);
      CarriedLands(net, text, ready || Long(spans[0]), spans[1..], end, stop);
    }
  }

  /** From position `p` on nothing moves the recurrent state. */
  ghost predicate Still(net: Net, p: nat) {
    forall g, kv, t {:trigger net.input(g, kv, t)} :: |kv| >= p ==> net.absorb(g, net.input(g, kv, t)) == g
  }

  lemma {:induction false} StillReads(net: Net, p: nat, m: Mem, ids: seq<Token>)
    requires Still(net, p) && |m.kv| >= p
    ensures Read(net, m, ids).g == m.g
    decreases |ids|
  {
    if ids != [] {
      StillReads(net, p, m, ids[..|ids| - 1]);
    }
  }

  /** A network that latches `b` below position `p`, and keeps its state from there on. */
  ghost function Latch(base: Net, b: Rec, x0: Inp, x1: Inp, p: nat): Net {
    base.(input := (g: Gdn, kv: seq<Kv>, t: Token) => if |kv| < p then x0 else x1,
          absorb := (g: Gdn, x: Inp) => if x == x0 then Gdn(g.conv, b) else g)
  }

  /** Two recurrent states and two inputs to tell apart. */
  ghost predicate Tell(base: Net, b: Rec, x0: Inp, x1: Inp) {
    base.zero.rec != b && x0 != x1
  }

  lemma LatchIsStill(base: Net, b: Rec, x0: Inp, x1: Inp, p: nat)
    requires x0 != x1
    ensures Still(Latch(base, b, x0, x1, p), p)
  {
  }

  /** Once something was read below `p`, a latched text shows `b`. */
  lemma {:induction false} LatchReads(base: Net, b: Rec, x0: Inp, x1: Inp, p: nat, m: Mem, ids: seq<Token>)
    requires x0 != x1 && (m.g.rec == b || (|m.kv| < p && ids != []))
    ensures Read(Latch(base, b, x0, x1, p), m, ids).g.rec == b
    decreases |ids|
  {
    if ids != [] && (m.g.rec == b || |ids| > 1) {
      LatchReads(base, b, x0, x1, p, m, ids[..|ids| - 1]);
    } else if |ids| == 1 {
      assert ids[..0] == [];
    }
  }

  /** Where the first long span starts. */
  function RestartAt(spans: seq<Span>): nat {
    if spans == [] then 0 else if Long(spans[0]) then spans[0].0 else RestartAt(spans[1..])
  }

  /** A walk that restarts at `p` has forgotten what was latched below it. */
  lemma {:induction false} WalkForgets(
    net: Net, m: Mem, text: seq<Token>, spans: seq<Span>, start: nat, stop: nat, p: nat)
    requires Partition(spans, start, stop) && HasLong(spans) && p == RestartAt(spans) && Still(net, p)
    requires |text| == stop && |m.kv| == start <= stop && forall i :: 0 <= i < |spans| ==>
              spans[i].0 <= spans[i].1 <= |text|
    ensures start <= p && Walk(net, m, false, text, spans).g.rec == net.zero.rec
    decreases |spans|
  {
    var ids, rest := text[spans[0].0..spans[0].1], spans[1..];
    var begun := Mem(GdnWindow.Start(net, m.g, false, |ids|), m.kv);
    assert Partition(rest, spans[0].1, stop);
    if Long(spans[0]) {
      StillReads(net, p, begun, ids);
      WalkStays(net, Read(net, begun, ids), text, rest, spans[0].1, stop, p);
    } else {
      var i :| 0 <= i < |spans| && Long(spans[i]);
      assert Long(rest[i - 1]);
      WalkForgets(net, Read(net, begun, ids), text, rest, spans[0].1, stop, p);
    }
  }

  lemma {:induction false} WalkStays(
    net: Net, m: Mem, text: seq<Token>, spans: seq<Span>, start: nat, stop: nat, p: nat)
    requires Partition(spans, start, stop) && Still(net, p) && p <= start && |m.kv| == start
    requires |text| == stop && start <= stop && forall i :: 0 <= i < |spans| ==> spans[i].0 <= spans[i].1 <= |text|
    ensures Walk(net, m, true, text, spans).g == m.g
    decreases |spans|
  {
    if spans != [] {
      var ids := text[spans[0].0..spans[0].1];
      StillReads(net, p, m, ids);
      assert Partition(spans[1..], spans[0].1, stop);
      WalkStays(net, Read(net, m, ids), text, spans[1..], spans[0].1, stop, p);
    }
  }

  /** A prefill keeps every past, whatever the network and the ids, if and only if its
      spans carry it.  The other arguments only say that there are two recurrent states
      and two inputs to tell apart. */
  lemma CarriedIsExact(ready: bool, spans: seq<Span>, start: nat, stop: nat, base: Net, b: Rec, x0: Inp, x1: Inp)
    requires Partition(spans, start, stop) && Tell(base, b, x0, x1)
    ensures Carried(ready, spans) <==> AlwaysLands(ready, spans, start, stop)
  {
    Inside(spans, start, stop);
    if Carried(ready, spans) {
      forall net, text | |text| == stop
        ensures Lands(net, text, ready, spans, start, stop)
      {
        CarriedLands(net, text, ready, spans, start, stop);
      }
    } else {
      CarriedIs(ready, spans, start, stop);
      var p := RestartAt(spans);
      var net := Latch(base, b, x0, x1, p);
      var text: seq<Token> := seq(stop, _ => 0);
      LatchIsStill(base, b, x0, x1, p);
      WalkForgets(net, At(net, text[..start]), text, spans, start, stop, p);
      RestartsLate(spans, start, stop);
      LatchReads(base, b, x0, x1, p, Mem(net.zero, []), text);
      assert !Lands(net, text, ready, spans, start, stop);
    }
  }

  /** A restart that loses something happens after the start of the text. */
  lemma {:induction false} RestartsLate(spans: seq<Span>, start: nat, stop: nat)
    requires Partition(spans, start, stop) && HasLong(spans) && !(start == 0 && Long(spans[0]))
    ensures 0 < RestartAt(spans) && start <= RestartAt(spans) && RestartAt(spans) + GdnWindow.CHUNK_KERNEL <= stop
    decreases |spans|
  {
    Inside(spans, start, stop);
    if !Long(spans[0]) {
      var i :| 0 <= i < |spans| && Long(spans[i]);
      assert Long(spans[1..][i - 1]);
      assert Partition(spans[1..], spans[0].1, stop);
      RestartsLate(spans[1..], spans[0].1, stop);
    }
  }

  /** One forward keeps every past if and only if the layer is ready, there is no past,
      or the chunk is short. */
  lemma CarriesIsExact(ready: bool, past: nat, length: nat, base: Net, b: Rec, x0: Inp, x1: Inp)
    requires Tell(base, b, x0, x1) && length > 0
    ensures Carries(ready, past, length) <==> AlwaysLands(ready, [(past, past + length)], past, past + length)
  {
    CarriedIsExact(ready, [(past, past + length)], past, past + length, base, b, x0, x1);
  }
}
