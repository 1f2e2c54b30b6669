/** What one drafted turn must say, as a function of the text alone.

    Nothing here mentions caches: a window is scored against the target's own
    choices on the exact text, trimmed, and possibly followed by an injection. */
module Decode {
  import opened Target
  import opened Draft
  import opened Options
  import opened SuffixIndex
  import Mtp

  /** The target's greedy choice after a text, and the draft block's proposals for
      a text whose last id is held.  A turn is specified for any such pair. */
  datatype Oracle = Oracle(next: seq<Token> -> Token, draft: seq<Token> -> seq<Token>)

  /** Names a text at which an oracle is compared with the network. */
  predicate Asked(text: seq<Token>) { true }

  /** The oracle is the network's own: its choices, and the `k` drafts of a turn that copies
      through `index`, or lets the block roll. */
  ghost predicate Serves(o: Oracle, net: Net, index: Option<Index>, k: nat) {
    forall text {:trigger Asked(text)} :: Asked(text) ==>
      && (text != [] ==> o.next(text) == Next(net, text))
      && (|text| >= 2 ==> o.draft(text) == Proposed(net, index, text, k))
  }

  function OracleOf(net: Net, index: Option<Index>, k: nat): Oracle {
    Oracle((text: seq<Token>) => if text == [] then 0 else Next(net, text),
           (text: seq<Token>) => if |text| < 2 then [] else Proposed(net, index, text, k))
  }

  lemma OracleOfServes(net: Net, index: Option<Index>, k: nat)
    ensures Serves(OracleOf(net, index, k), net, index, k)
  {
  }

  /** Plain autoregressive decoding, cut at the first stop id or after `n` tokens. */
  function Greedy(next: seq<Token> -> Token, text: seq<Token>, n: nat, stops: set<Token>): seq<Token>
    decreases n
  {
    if n == 0 then []
    else
      var t := next(text);
      if t in stops then [t] else [t] + Greedy(next, text + [t], n - 1, stops)
  }

  /** What `on_accepted` may answer after a window. */
  datatype Directive = Nothing | Close(dropLast: bool, inject: seq<Token>, halt: bool)

  /** An arbitrary callback that stays silent from window `horizon` on. */
  datatype Listener = Listener(answer: (nat, seq<Token>) -> Directive, horizon: nat)

  function Ask(l: Listener, window: nat, produced: seq<Token>): Directive {
    if window < l.horizon then l.answer(window, produced) else Nothing
  }

  /** The callback never asks for anything. */
  ghost predicate Silent(l: Listener) {
    forall w, produced :: Ask(l, w, produced).Nothing?
  }

  datatype Plan = Plan(k: nat, maxNew: nat, stops: set<Token>, listen: Listener)

  function Last<T>(xs: seq<T>): T
    requires xs != []
  {
    xs[|xs| - 1]
  }

  function Init<T>(xs: seq<T>): seq<T>
    requires xs != []
  {
    xs[..|xs| - 1]
  }

  /** The target's choice after the held token and each draft. */
  function Samples(next: seq<Token> -> Token, spoken: seq<Token>, drafted: seq<Token>): seq<Token> {
    seq(|drafted| + 1, i requires 0 <= i <= |drafted| => next(spoken + drafted[..i]))
  }

  datatype Kept = Kept(tokens: seq<Token>, stopped: bool)

  /** Cut after the first stop id. */
  function StopCut(tokens: seq<Token>, stops: set<Token>): (r: Kept)
    ensures |r.tokens| <= |tokens| && (tokens != [] ==> r.tokens != [])
  {
    if tokens == [] then Kept([], false)
    else if tokens[0] in stops then Kept([tokens[0]], true)
    else
      var rest := StopCut(tokens[1..], stops);
      Kept([tokens[0]] + rest.tokens, rest.stopped)
  }

  /** The cut is a prefix; only its last id can stop, and without a stop nothing is cut. */
  lemma {:induction false} StopCutIsFirst(tokens: seq<Token>, stops: set<Token>)
    ensures var r := StopCut(tokens, stops);
            r.tokens == tokens[..|r.tokens|]
            && (r.stopped <==> r.tokens != [] && Last(r.tokens) in stops)
            && (!r.stopped ==> |r.tokens| == |tokens|)
            && forall i :: 0 <= i < |r.tokens| - 1 ==> r.tokens[i] !in stops
    decreases |tokens|
  {
    if tokens != [] && tokens[0] !in stops {
      StopCutIsFirst(tokens[1..], stops);
      assert tokens == [tokens[0]] + tokens[1..];
    }
  }

  function Trim(emitted: seq<Token>, room: nat, stops: set<Token>): Kept {
    StopCut(if |emitted| > room then emitted[..room] else emitted, stops)
  }

  /** What a window keeps: the matching prefix and one sample, then trimmed. */
  function Pick(samples: seq<Token>, drafted: seq<Token>, room: nat, stops: set<Token>): (r: Kept)
    requires |samples| == |drafted| + 1 && room > 0
    ensures 1 <= |r.tokens| <= room && |r.tokens| <= |drafted| + 1
  {
    Trim(samples[..Mtp.Matched(drafted, samples) + 1], room, stops)
  }

  /** What that is, without naming how: the samples up to the first that was not drafted, or
      to the first stop id, or as many as there is room for; not one fewer. */
  lemma PickIs(samples: seq<Token>, drafted: seq<Token>, room: nat, stops: set<Token>)
    requires |samples| == |drafted| + 1 && room > 0
    ensures var r := Pick(samples, drafted, room, stops); var n := |r.tokens|;
            && r.tokens == samples[..n] && samples[..n - 1] == drafted[..n - 1]
            && (forall i :: 0 <= i < n - 1 ==> samples[i] !in stops) && (r.stopped <==> samples[n - 1] in stops)
            && (n == room || samples[n - 1] in stops || n == |samples| || samples[n - 1] != drafted[n - 1])
  {
    var m := Mtp.Matched(drafted, samples);
    Mtp.MatchedIsMismatch(drafted, samples);
    TrimIsPrefix(samples, m + 1, room, stops);
    var emitted := samples[..m + 1];
    var most := if |emitted| > room then emitted[..room] else emitted;
    StopCutIsFirst(most, stops);
    SharedPrefix(samples, drafted, m, |Pick(samples, drafted, room, stops).tokens| - 1);
  }

  function WindowSpec(
      next: seq<Token> -> Token, spoken: seq<Token>, drafted: seq<Token>, room: nat, stops: set<Token>): (r: Kept)
    requires room > 0
    ensures 1 <= |r.tokens| <= room && |r.tokens| <= |drafted| + 1
  {
    Pick(Samples(next, spoken, drafted), drafted, room, stops)
  }

  /** The draft block's proposals for the text `spoken`, whose last id is held. */
  function Drafts(net: Net, spoken: seq<Token>, k: nat): (r: seq<Token>)
    requires |spoken| >= 2
    ensures |r| == k
  {
    RollSpec(net, Pairs(net, Init(spoken)), Last(spoken), RowOf(net, Init(spoken)), k).ids
  }

  /** What followed the last occurrence of the end of the text, when it is copied at all. */
  function CopyOf(index: Option<Index>, text: seq<Token>, held: Token, k: nat): (r: Option<seq<Token>>)
    ensures r.Some? ==> |r.value| == k
  {
    if index.Some? then Copied(text, index.value.n, index.value.first, held, k) else None
  }

  /** The drafts for the text `spoken`: a copy from its own past, or else the block's. */
  function Proposed(net: Net, index: Option<Index>, spoken: seq<Token>, k: nat): (r: seq<Token>)
    requires |spoken| >= 2
    ensures |r| == k
  {
    var copied := CopyOf(index, Init(spoken), Last(spoken), k);
    if copied.Some? then copied.value else Drafts(net, spoken, k)
  }

  /** The text so far, its last id held out of the cache, and the tokens returned. */
  datatype Speech = Speech(spoken: seq<Token>, produced: seq<Token>)

  function Said(s: Speech, tokens: seq<Token>): Speech {
    Speech(s.spoken + tokens, s.produced + tokens)
  }

  /** An injection replaces or follows the held token; an empty one after a drop
      only takes the token out of the answer. */
  function Inject(d: Directive, s: Speech): (r: Speech)
    requires s.produced != [] && s.spoken != []
    ensures |r.spoken| >= |s.spoken|
    ensures d.Nothing? ==> r == s
  {
    match d
    case Nothing => s
    case Close(drop, inject, _) =>
      if drop && inject == [] then Speech(s.spoken, Init(s.produced))
      else if drop then Speech(Init(s.spoken) + inject, Init(s.produced) + inject)
      else Speech(s.spoken + inject, s.produced + inject)
  }

  predicate Ends(d: Directive, stopped: bool) {
    (d.Close? && d.halt) || (stopped && !(d.Close? && d.inject != []))
  }

  function Max(a: nat, b: nat): nat { if a < b then b else a }

  function Max0(a: int): nat { if a < 0 then 0 else a }

  datatype Stepped = Stepped(next: Speech, over: bool)

  /** One window over `drafted`, the callback's answer, and whether the turn ends. */
  function StepWith(o: Oracle, p: Plan, s: Speech, w: nat, drafted: seq<Token>): (r: Stepped)
    requires s.spoken != [] && |s.produced| < p.maxNew
    ensures |r.next.spoken| >= |s.spoken|
    ensures Ask(p.listen, w, SaidWith(o, p, s, drafted).produced).Nothing? ==> |r.next.produced| > |s.produced|
  {
    var kept := WindowSpec(o.next, s.spoken, drafted, p.maxNew - |s.produced|, p.stops);
    var said := Said(s, kept.tokens);
    var d := Ask(p.listen, w, said.produced);
    Stepped(Inject(d, said), Ends(d, kept.stopped))
  }

  function SaidWith(o: Oracle, p: Plan, s: Speech, drafted: seq<Token>): Speech
    requires s.spoken != [] && |s.produced| < p.maxNew
  {
    Said(s, WindowSpec(o.next, s.spoken, drafted, p.maxNew - |s.produced|, p.stops).tokens)
  }

  /** The whole turn from `s`, at window `w`. */
  function Turn(o: Oracle, p: Plan, s: Speech, w: nat): Speech
    requires s.spoken != []
    decreases Max0(p.listen.horizon - w), Max0(p.maxNew - |s.produced|)
  {
    if |s.produced| >= p.maxNew then s
    else
      var step := StepWith(o, p, s, w, o.draft(s.spoken));
      if step.over then step.next else Turn(o, p, step.next, w + 1)
  }

  /** Every kept token is the target's own choice on the exact text before it. */
  ghost predicate OwnFrom(next: seq<Token> -> Token, spoken: seq<Token>, tokens: seq<Token>)
  {
    forall i :: 0 <= i < |tokens| ==> OwnAt(next, spoken, tokens, i)
  }

  ghost predicate OwnAt(next: seq<Token> -> Token, spoken: seq<Token>, tokens: seq<Token>, i: nat)
    requires i < |tokens|
  {
    tokens[i] == next(spoken + tokens[..i])
  }

  lemma WindowIsOwn(next: seq<Token> -> Token, spoken: seq<Token>, drafted: seq<Token>, room: nat, stops: set<Token>)
    requires room > 0
    ensures var kept := WindowSpec(next, spoken, drafted, room, stops);
            OwnFrom(next, spoken, kept.tokens) && Init(kept.tokens) == drafted[..|kept.tokens| - 1]
  {
    var samples := Samples(next, spoken, drafted);
    var m := Mtp.Matched(drafted, samples);
    Mtp.MatchedIsMismatch(drafted, samples);
    TrimIsPrefix(samples, m + 1, room, stops);
    OwnPrefix(next, spoken, drafted, m, |WindowSpec(next, spoken, drafted, room, stops).tokens|);
  }

  lemma OwnPrefix(next: seq<Token> -> Token, spoken: seq<Token>, drafted: seq<Token>, m: nat, n: nat)
    requires m <= |drafted| && 1 <= n <= m + 1
    requires drafted[..m] == Samples(next, spoken, drafted)[..m]
    ensures var tokens := Samples(next, spoken, drafted)[..n];
            OwnFrom(next, spoken, tokens) && Init(tokens) == drafted[..n - 1]
  {
    var samples := Samples(next, spoken, drafted);
    var tokens := samples[..n];
    forall i | 0 <= i < n
      ensures OwnAt(next, spoken, tokens, i)
    {
      SharedPrefix(drafted, samples, m, i);
      assert tokens[..i] == drafted[..i];
    }
    SharedPrefix(drafted, samples, m, n - 1);
    assert Init(tokens) == tokens[..n - 1];
  }

  /** A window stops exactly when its last id does, and no earlier id does. */
  lemma WindowStops(next: seq<Token> -> Token, spoken: seq<Token>, drafted: seq<Token>, room: nat, stops: set<Token>)
    requires room > 0
    ensures var kept := WindowSpec(next, spoken, drafted, room, stops);
            (kept.stopped <==> Last(kept.tokens) in stops)
            && forall i :: 0 <= i < |kept.tokens| - 1 ==> kept.tokens[i] !in stops
  {
    var samples := Samples(next, spoken, drafted);
    var emitted := samples[..Mtp.Matched(drafted, samples) + 1];
    StopCutIsFirst(if |emitted| > room then emitted[..room] else emitted, stops);
  }

  lemma TrimIsPrefix(samples: seq<Token>, m: nat, room: nat, stops: set<Token>)
    requires m <= |samples|
    ensures var r := Trim(samples[..m], room, stops).tokens;
            |r| <= m && r == samples[..|r|]
  {
    var emitted := samples[..m];
    var trimmed := if m > room then emitted[..room] else emitted;
    StopCutIsFirst(trimmed, stops);
    assert trimmed == samples[..|trimmed|];
    SharedPrefix(trimmed, samples, |trimmed|, |StopCut(trimmed, stops).tokens|);
  }

  lemma SharedPrefix(a: seq<Token>, b: seq<Token>, m: nat, i: nat)
    requires i <= m <= |a| && m <= |b| && a[..m] == b[..m]
    ensures a[..i] == b[..i]
  {
    assert a[..i] == a[..m][..i] && b[..i] == b[..m][..i];
  }

  lemma GreedyHead(next: seq<Token> -> Token, spoken: seq<Token>, tokens: seq<Token>, n: nat, stops: set<Token>)
    requires n > 0 && tokens != [] && OwnFrom(next, spoken, tokens)
    ensures Greedy(next, spoken, n, stops) ==
            if tokens[0] in stops then [tokens[0]] else [tokens[0]] + Greedy(next, spoken + [tokens[0]], n - 1, stops)
  {
    assert OwnAt(next, spoken, tokens, 0);
    assert tokens[..0] == [] && spoken + [] == spoken;
  }

  /** A run of own choices is a run of plain greedy decoding. */
  lemma {:induction false} OwnIsGreedy(
      next: seq<Token> -> Token, spoken: seq<Token>, tokens: seq<Token>, n: nat, stops: set<Token>)
    requires 1 <= |tokens| <= n && OwnFrom(next, spoken, tokens)
    requires forall i :: 0 <= i < |tokens| - 1 ==> tokens[i] !in stops
    ensures Last(tokens) in stops ==> Greedy(next, spoken, n, stops) == tokens
    ensures Last(tokens) !in stops ==>
              Greedy(next, spoken, n, stops) == tokens + Greedy(next, spoken + tokens, n - |tokens|, stops)
    decreases |tokens|
  {
    GreedyHead(next, spoken, tokens, n, stops);
    var t, rest := tokens[0], tokens[1..];
    assert tokens == [t] + rest;
    if rest == [] {
      assert tokens == [t];
    } else {
      OwnTail(next, spoken, tokens);
      OwnIsGreedy(next, spoken + [t], rest, n - 1, stops);
      assert (spoken + [t]) + rest == spoken + tokens;
      if Last(tokens) !in stops {
        var more := Greedy(next, spoken + tokens, n - |tokens|, stops);
        Associate([t], rest, more);
      }
    }
  }

  lemma OwnTail(next: seq<Token> -> Token, spoken: seq<Token>, tokens: seq<Token>)
    requires tokens != [] && OwnFrom(next, spoken, tokens)
    ensures OwnFrom(next, spoken + [tokens[0]], tokens[1..])
  {
    var rest, spoken1 := tokens[1..], spoken + [tokens[0]];
    forall i | 0 <= i < |rest|
      ensures OwnAt(next, spoken1, rest, i)
    {
      assert OwnAt(next, spoken, tokens, i + 1);
      assert spoken1 + rest[..i] == spoken + tokens[..i + 1];
    }
  }

  lemma Associate(a: seq<Token>, b: seq<Token>, c: seq<Token>)
    ensures a + (b + c) == (a + b) + c
  {
  }

  /** `own[i]` says that id i after the prompt was not injected: then it is the
      target's choice on exactly the text before it. */
  ghost predicate Spoke(next: seq<Token> -> Token, prompt: seq<Token>, spoken: seq<Token>, own: seq<bool>) {
    && prompt != [] && |spoken| == |prompt| + |own| && prompt <= spoken
    && forall i :: 0 <= i < |own| && own[i] ==> ChosenAt(next, spoken, |prompt| + i)
  }

  ghost predicate ChosenAt(next: seq<Token> -> Token, spoken: seq<Token>, i: nat)
    requires i < |spoken|
  {
    spoken[i] == next(spoken[..i])
  }

  function Flags(n: nat, b: bool): seq<bool> {
    seq(n, _ => b)
  }

  lemma SpokeKept(next: seq<Token> -> Token, prompt: seq<Token>, spoken: seq<Token>, own: seq<bool>, kept: seq<Token>)
    requires Spoke(next, prompt, spoken, own) && OwnFrom(next, spoken, kept)
    ensures Spoke(next, prompt, spoken + kept, own + Flags(|kept|, true))
  {
    var all, flags := spoken + kept, own + Flags(|kept|, true);
    forall i | 0 <= i < |flags| && flags[i]
      ensures ChosenAt(next, all, |prompt| + i)
    {
      if i < |own| {
        assert ChosenAt(next, spoken, |prompt| + i);
        assert all[..|prompt| + i] == spoken[..|prompt| + i];
      } else {
        assert OwnAt(next, spoken, kept, i - |own|);
        assert all[..|prompt| + i] == spoken + kept[..i - |own|];
      }
    }
  }

  /** The flags after a directive: a dropped token goes, injected ids are not own. */
  function InjectFlags(d: Directive, own: seq<bool>): seq<bool>
    requires own != []
  {
    if d.Nothing? || (d.dropLast && d.inject == []) then own
    else (if d.dropLast then Init(own) else own) + Flags(|d.inject|, false)
  }

  lemma SpokeInject(next: seq<Token> -> Token, prompt: seq<Token>, s: Speech, own: seq<bool>, d: Directive)
    requires Spoke(next, prompt, s.spoken, own) && own != [] && s.produced != []
    ensures Spoke(next, prompt, Inject(d, s).spoken, InjectFlags(d, own))
  {
    var spoken, flags := Inject(d, s).spoken, InjectFlags(d, own);
    forall i | 0 <= i < |flags| && flags[i]
      ensures ChosenAt(next, spoken, |prompt| + i)
    {
      assert own[i] && ChosenAt(next, s.spoken, |prompt| + i);
      assert spoken[..|prompt| + i] == s.spoken[..|prompt| + i];
    }
  }
}
