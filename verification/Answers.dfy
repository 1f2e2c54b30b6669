/** Exactly when the answer of a resident turn is the cold one, on a network that tells. */
module Answers {
  import opened Options
  import opened Target
  import opened Draft
  import opened Decode
  import opened Marks
  import opened Restart
  import opened SuffixIndex
  import opened Caches
  import opened Account
  import opened Driven
  import opened Resident
  import opened Generation
  import GdnWindow
  import Mtp

  /** A network, and two recurrent states, two inputs and two rows to tell apart on it. */
  datatype Signs = Signs(base: Net, b: Rec, x0: Inp, x1: Inp, yes: Row, no: Row)

  ghost predicate Distinct(w: Signs) {
    Tell(w.base, w.b, w.x0, w.x1) && w.yes != w.no
  }

  /** The network that latches its first id, and says 1 while it remembers and 0 when it has
      forgotten. */
  ghost function Teller(w: Signs): Net {
    Latch(Telling(w), w.b, w.x0, w.x1, 1)
  }

  ghost function Telling(w: Signs): Net {
    w.base.(row := (g: Gdn, kv: seq<Kv>, t: Token) => if g.rec == w.b then w.yes else w.no,
            argmax := (r: Row) => if r == w.yes then 1 else 0)
  }

  /** The text's own choice is 1. */
  lemma TellerRemembers(w: Signs, text: seq<Token>)
    requires Distinct(w) && |text| >= 2
    ensures Next(Teller(w), text) == 1
  {
    var net := Teller(w);
    LatchReads(Telling(w), w.b, w.x0, w.x1, 1, Mem(net.zero, []), text[..|text| - 1]);
  }

  /** The first id a window keeps is the choice after its held id. */
  lemma ChosenFirst(net: Net, c: Core, held: Token, drafted: seq<Token>, room: nat, stops: set<Token>)
    requires room > 0
    ensures Chosen(net, c, held, drafted, room, stops).tokens[0] == net.argmax(net.row(c.m.g, c.m.kv, held))
  {
    var window := [held] + drafted;
    var verify := Verify(net, c, held, drafted);
    var samples := Argmaxes(net, verify);
    TrimIsPrefix(samples, Mtp.Matched(drafted, samples) + 1, room, stops);
    assert window[..0] == [] && window[0] == held;
    assert verify[0] == net.row(c.m.g, c.m.kv, held) by {
      assert Read(net, c.m, window[..0]) == c.m;
    }
    var w := Chosen(net, c, held, drafted, room, stops);
    assert w == Trim(samples[..Mtp.Matched(drafted, samples) + 1], room, stops);
  }

  lemma {:induction false} RealFirst(
    net: Net, p: Plan, prompt: seq<Token>, c: Core, trace: seq<Window>, index: Option<Index>)
    requires Possible(p, prompt, trace) && Real(net, p, prompt, c, trace, index) && trace != [] && p.maxNew > 0
    ensures trace[0].kept == Chosen(net, c, Last(prompt), trace[0].drafted, p.maxNew, p.stops)
    decreases |trace|
  {
    if |trace| > 1 {
      RealFirst(net, p, prompt, c, trace[..|trace| - 1], index);
    } else {
      assert trace[..0] == [];
    }
  }

  /** The callback never takes an answer of one token back in the first window.  Later drops,
      and drops of a longer window, leave the first token where it is. */
  ghost predicate KeepsFirst(l: Listener) {
    forall t :: !TakesBack(Ask(l, 0, [t]))
  }

  predicate TakesBack(d: Directive) {
    d.Close? && d.dropLast
  }

  lemma InjectFirst(d: Directive, s: Speech)
    requires s.spoken != [] && s.produced != [] && (TakesBack(d) ==> |s.produced| >= 2)
    ensures var next := Inject(d, s); next.produced != [] && next.produced[0] == s.produced[0]
  {
  }

  lemma FirstWindow(p: Plan, prompt: seq<Token>, x: Window)
    requires prompt != [] && Fitting(p, Speech(prompt, []), 0, x) && KeepsFirst(p.listen)
    ensures Said(Speech(prompt, []), x.kept.tokens).produced == x.kept.tokens
    ensures TakesBack(x.d) ==> |x.kept.tokens| >= 2
  {
    assert [] + x.kept.tokens == x.kept.tokens;
    if |x.kept.tokens| == 1 {
      var t := x.kept.tokens[0];
      assert x.kept.tokens == [t];
      assert !TakesBack(Ask(p.listen, 0, [t]));
    }
  }

  /** A turn's first token is its first window's. */
  lemma {:induction false} FirstStays(p: Plan, prompt: seq<Token>, trace: seq<Window>)
    requires Possible(p, prompt, trace) && KeepsFirst(p.listen) && trace != []
    ensures trace[0].kept.tokens != []
    ensures var s := SpotOf(p, prompt, trace).s; s.produced != [] && s.produced[0] == trace[0].kept.tokens[0]
    decreases |trace|
  {
    var before, x := trace[..|trace| - 1], trace[|trace| - 1];
    var s := SpotOf(p, prompt, before).s;
    if |trace| > 1 {
      FirstStays(p, prompt, before);
    } else {
      FirstWindow(p, prompt, x);
    }
    InjectFirst(x.d, Said(s, x.kept.tokens));
  }

  /** So is the specified turn's. */
  lemma {:induction false} TurnKeepsFirst(o: Oracle, p: Plan, s: Speech, w: nat)
    requires s.spoken != [] && s.produced != []
    ensures var r := Turn(o, p, s, w); r.produced != [] && r.produced[0] == s.produced[0]
    decreases Max0(p.listen.horizon - w), Max0(p.maxNew - |s.produced|)
  {
    if |s.produced| < p.maxNew {
      var said := SaidWith(o, p, s, o.draft(s.spoken));
      InjectFirst(Ask(p.listen, w, said.produced), said);
      var step := StepWith(o, p, s, w, o.draft(s.spoken));
      if !step.over {
        TurnKeepsFirst(o, p, step.next, w + 1);
      }
    }
  }

  lemma TurnFirst(o: Oracle, p: Plan, prompt: seq<Token>)
    requires prompt != [] && p.maxNew > 0 && KeepsFirst(p.listen)
    ensures var r := Turn(o, p, Speech(prompt, []), 0); r.produced != [] && r.produced[0] == o.next(prompt)
  {
    var s, drafted := Speech(prompt, []), o.draft(prompt);
    var said := SaidWith(o, p, s, drafted);
    FirstChosen(o, prompt, drafted, p.maxNew, p.stops);
    assert said.produced == WindowSpec(o.next, prompt, drafted, p.maxNew, p.stops).tokens;
    if |said.produced| == 1 {
      assert said.produced == [said.produced[0]];
    }
    InjectFirst(Ask(p.listen, 0, said.produced), said);
    var step := StepWith(o, p, s, 0, drafted);
    if !step.over {
      TurnKeepsFirst(o, p, step.next, 1);
    }
  }

  lemma FirstChosen(o: Oracle, prompt: seq<Token>, drafted: seq<Token>, room: nat, stops: set<Token>)
    requires room > 0
    ensures WindowSpec(o.next, prompt, drafted, room, stops).tokens[0] == o.next(prompt)
  {
    var kept := WindowSpec(o.next, prompt, drafted, room, stops);
    WindowIsOwn(o.next, prompt, drafted, room, stops);
    assert OwnAt(o.next, prompt, kept.tokens, 0);
    assert prompt + kept.tokens[..0] == prompt;
  }

  /** On caches that have forgotten, a turn's first token is 0. */
  lemma ForgetfulFirst(
    j: Job, c: Core, trace: seq<Window>, w: Signs)
    requires Distinct(w) && j.net == Teller(w)
    requires Finished(j.p, j.prompt, trace) && Real(j.net, j.p, j.prompt, c, trace, j.index) && j.p.maxNew > 0
    requires KeepsFirst(j.p.listen) && trace != [] && c.m.g.rec == j.net.zero.rec
    ensures var s := SpotOf(j.p, j.prompt, trace).s; s.produced != [] && s.produced[0] == 0
  {
    FirstStays(j.p, j.prompt, trace);
    RealFirst(j.net, j.p, j.prompt, c, trace, j.index);
    ChosenFirst(j.net, c, Last(j.prompt), trace[0].drafted, j.p.maxNew, j.p.stops);
  }

  /** The plain greedy continuation of a prompt. */
  function Plainly(j: Job): seq<Token> {
    Greedy(OracleOf(j.net, j.index, j.p.k).next, j.prompt, j.p.maxNew, j.p.stops)
  }

  /** Whether the cuts from where the call resumes carry: known before the turn runs. */
  ghost predicate Resumes(j: Job, before: State)
    requires Proper(j.net, before)
  {
    var open := OpenOf(j, before).v;
    Carried(open.ready, Suffix(j, |open.tape|))
  }

  /** The specified answer: no cache is in it. */
  function Spoken(j: Job): seq<Token>
    requires j.prompt != []
  {
    Turn(OracleOf(j.net, j.index, j.p.k), j.p, Speech(j.prompt, []), 0).produced
  }

  /** No injection of the call can restart: each is short, or the layer is ready before. */
  ghost predicate Mild(j: Job, before: State)
    requires Proper(j.net, before)
  {
    var open := OpenOf(j, before).v;
    ReadyAfter(open.ready, Suffix(j, |open.tape|)) || InjectsAtMost(j.p.listen, GdnWindow.CHUNK_KERNEL - 1)
  }

  /** An honest session whose prefill carries answers with the specified turn, on every
      network and for every such callback. */
  lemma AnswerIsTurn(j: Job, before: State, run: Run, r: Outcome, after: State)
    requires Generated(j, before, run, r, after) && Honest(j.net, before) && r.Completed?
    requires Mild(j, before) && Resumes(j, before)
    ensures j.prompt != [] && r.tokens == Spoken(j)
    ensures Silent(j.p.listen) ==> r.tokens == Plainly(j)
  {
    var o := OracleOf(j.net, j.index, j.p.k);
    MarksGrow(j, before, run, r, after);
    ResumesSafely(j, before, run);
    OracleOfServes(j.net, j.index, j.p.k);
    GeneratedIsTrue(j, o, before, run, r, after);
    AnswerIs(j, before, run, r, after);
    RunIsTurn(o, j.p, j.prompt, run.trace);
    if Silent(j.p.listen) {
      RunIsGreedy(o, j.p, j.prompt, run.trace, true);
    }
  }

  lemma ResumesSafely(j: Job, before: State, run: Run)
    requires Proper(j.net, before) && Took(j, OpenOf(j, before), run) && Possible(j.p, j.prompt, run.trace)
    requires |run.c.m.kv| == |run.c.rows| == |OpenOf(j, before).v.tape| && !Refuses(j, |run.c.rows|)
    requires Mild(j, before) && Resumes(j, before)
    ensures Safe(j, run.c, run.trace)
  {
    FilledSize(j, run.c);
    if !Filled(j, run.c).ready {
      InjectsGently(j.p, j.prompt, run.trace);
    }
  }

  /** With a silent callback that is the plain greedy continuation. */
  lemma AnswerIsGreedy(j: Job, before: State, run: Run, r: Outcome, after: State)
    requires Generated(j, before, run, r, after) && Honest(j.net, before) && r.Completed?
    requires Silent(j.p.listen) && Resumes(j, before)
    ensures r.tokens == Plainly(j)
  {
    SilentInjects(j.p.listen, GdnWindow.CHUNK_KERNEL - 1);
    AnswerIsTurn(j, before, run, r, after);
  }

  /** And on a network that tells, only then: whatever the callback says, if it injects
      mildly and does not take the first token back. */
  lemma TurnIsExact(
    j: Job, before: State, run: Run, r: Outcome, after: State, w: Signs)
    requires Distinct(w) && j.net == Teller(w)
    requires Generated(j, before, run, r, after) && Honest(j.net, before) && r.Completed?
    requires KeepsFirst(j.p.listen) && Mild(j, before)
    ensures j.prompt != [] && (r.tokens == Spoken(j) <==> Resumes(j, before))
  {
    if Resumes(j, before) {
      AnswerIsTurn(j, before, run, r, after);
    } else {
      ForgottenFirst(j, before, run, r, after, w);
      TurnFirst(OracleOf(j.net, j.index, j.p.k), j.p, j.prompt);
      TellerRemembers(w, j.prompt);
    }
  }

  /** For a silent callback, the plain greedy continuation. */
  lemma AnswerIsExact(
    j: Job, before: State, run: Run, r: Outcome, after: State, w: Signs)
    requires Distinct(w) && j.net == Teller(w)
    requires Generated(j, before, run, r, after) && Honest(j.net, before) && r.Completed? && Silent(j.p.listen)
    ensures r.tokens == Plainly(j) <==> Resumes(j, before)
  {
    if Resumes(j, before) {
      AnswerIsGreedy(j, before, run, r, after);
    } else {
      ForgottenFirst(j, before, run, r, after, w);
      TellerRemembers(w, j.prompt);
    }
  }

  /** A call whose prefill does not carry has forgotten what it resumed, and says so. */
  lemma ForgottenFirst(
    j: Job, before: State, run: Run, r: Outcome, after: State, w: Signs)
    requires Distinct(w) && j.net == Teller(w)
    requires Generated(j, before, run, r, after) && r.Completed? && !Resumes(j, before)
    requires KeepsFirst(j.p.listen) || Silent(j.p.listen)
    ensures |j.prompt| >= 2 && r.tokens != [] && r.tokens[0] == 0
  {
    MarksGrow(j, before, run, r, after);
    LatchIsStill(Telling(w), w.b, w.x0, w.x1, 1);
    SuffixDead(j, run.c, 1);
    FinishedSome(j.p, j.prompt, run.trace);
    SilentKeepsFirst(j.p.listen);
    ForgetfulFirst(j, Filled(j, run.c), run.trace, w);
  }

  lemma SilentKeepsFirst(l: Listener)
    ensures Silent(l) ==> KeepsFirst(l)
  {
  }

  /** A new session always resumes: it begins at nothing. */
  lemma FreshResumes(j: Job)
    requires j.cuts == []
    ensures Resumes(j, Zeroed(j.net))
  {
    var spans := Suffix(j, 0);
    assert OpenOf(j, Zeroed(j.net)).v.tape == [] && !OpenOf(j, Zeroed(j.net)).v.ready;
    if spans != [] {
      if |j.prompt| > GdnWindow.CHUNK_KERNEL {
        AmpleWarms(j, false, 0);
        WarmsIsCarried(false, spans, 0, |j.prompt| - 1);
      } else {
        Inside(spans, 0, |j.prompt| - 1);
        CarriedIs(false, spans, 0, |j.prompt| - 1);
      }
    }
  }

  /** So its answer is the plain continuation, on every network. */
  lemma FreshIsGreedy(j: Job, run: Run, r: Outcome, after: State)
    requires Generated(j, Zeroed(j.net), run, r, after) && j.cuts == [] && Quiet(j.cancel) && |j.prompt| >= 2
    requires Silent(j.p.listen)
    ensures r.Completed? && r.tokens == Plainly(j)
  {
    ZeroedIsHonest(j.net);
    FreshResumes(j);
    GeneratedCompletes(j, Zeroed(j.net), run, r, after);
    AnswerIsGreedy(j, Zeroed(j.net), run, r, after);
  }

  lemma FinishedSome(p: Plan, prompt: seq<Token>, trace: seq<Window>)
    requires Finished(p, prompt, trace) && p.maxNew > 0
    ensures trace != []
  {
  }
}
