/** The block-structured event stream of one message. */
module AnthropicStream {
  datatype Kind = Thinking | Text | Tool

  /** A block of the final message: what its start carries, and the arguments of a tool. */
  datatype Block = Block(kind: Kind, what: string, arguments: string)

  datatype Event =
    | MessageStart
    | BlockStart(index: nat, kind: Kind, what: string)
    | BlockDelta(index: nat, kind: Kind, text: string)
    | BlockStop(index: nat)
    | MessageDelta
    | MessageStop

  /** Where a reader of the stream stands. */
  datatype Reader = Fresh | Between(next: nat) | Inside(index: nat, kind: Kind) | Closing | Over | Broken

  /** Blocks are numbered 0, 1, 2, ..., at most one is open, a delta lies inside the
      open block of its kind, and `message_stop` comes last and once. */
  function Advance(r: Reader, e: Event): Reader {
    match e
    case MessageStart => if r.Fresh? then Between(0) else Broken
    case BlockStart(i, k, _) => if r == Between(i) then Inside(i, k) else Broken
    case BlockDelta(i, k, _) => if r == Inside(i, k) then r else Broken
    case BlockStop(i) => if r.Inside? && r.index == i then Between(i + 1) else Broken
    case MessageDelta => if r.Between? then Closing else Broken
    case MessageStop => if r.Closing? then Over else Broken
  }

  function Scan(trace: seq<Event>): Reader {
    if trace == [] then Fresh else Advance(Scan(trace[..|trace| - 1]), trace[|trace| - 1])
  }

  function ScanOn(r: Reader, more: seq<Event>): Reader {
    if more == [] then r else Advance(ScanOn(r, more[..|more| - 1]), more[|more| - 1])
  }

  lemma {:induction false} BrokenStays(more: seq<Event>)
    ensures ScanOn(Broken, more) == Broken
    decreases |more|
  {
    if more != [] {
      BrokenStays(more[..|more| - 1]);
    }
  }

  lemma {:induction false} ScanAppend(trace: seq<Event>, more: seq<Event>)
    ensures Scan(trace + more) == ScanOn(Scan(trace), more)
    decreases |more|
  {
    if more == [] {
      assert trace + more == trace;
    } else {
      assert (trace + more)[..|trace + more| - 1] == trace + more[..|more| - 1];
      ScanAppend(trace, more[..|more| - 1]);
    }
  }

  /** A block as a reader has it: what its start carried, and its deltas. */
  datatype Sent = Sent(kind: Kind, what: string, deltas: seq<string>)

  /** A start begins a block, and a delta belongs to the last one. */
  function Put(sent: seq<Sent>, e: Event): seq<Sent> {
    match e
    case BlockStart(_, k, what) => sent + [Sent(k, what, [])]
    case BlockDelta(_, _, text) => if sent == [] then sent else More(sent, text)
    case _ => sent
  }

  function More(sent: seq<Sent>, text: string): seq<Sent>
    requires sent != []
  {
    var last := sent[|sent| - 1];
    sent[..|sent| - 1] + [last.(deltas := last.deltas + [text])]
  }

  lemma MoreLast(sent: seq<Sent>, last: Sent, text: string)
    ensures More(sent + [last], text) == sent + [last.(deltas := last.deltas + [text])]
  {
    assert (sent + [last])[..|sent|] == sent;
  }

  /** A delta in the last block, or in a new one of its kind. */
  function Landed(sent: seq<Sent>, own: bool, reasoning: bool, text: string): seq<Sent> {
    if own && sent != [] then More(sent, text) else sent + [Sent(if reasoning then Thinking else Text, "", [text])]
  }

  /** The blocks of a stream, after those of an earlier part of it. */
  function ReadOn(sent: seq<Sent>, more: seq<Event>): seq<Sent> {
    if more == [] then sent else Put(ReadOn(sent, more[..|more| - 1]), more[|more| - 1])
  }

  function Read(trace: seq<Event>): seq<Sent> {
    ReadOn([], trace)
  }

  lemma {:induction false} ReadAppend(sent: seq<Sent>, a: seq<Event>, b: seq<Event>)
    ensures ReadOn(sent, a + b) == ReadOn(ReadOn(sent, a), b)
    decreases |b|
  {
    if b == [] {
      assert a + b == a;
    } else {
      assert (a + b)[..|a + b| - 1] == a + b[..|b| - 1];
      ReadAppend(sent, a, b[..|b| - 1]);
    }
  }

  /** The texts that were reasoning, or those that were not. */
  function Only(said: seq<bool>, texts: seq<string>, reasoning: bool): seq<string>
    requires |said| == |texts|
  {
    if said == [] then []
    else
      var n := |said| - 1;
      Only(said[..n], texts[..n], reasoning) + (if said[n] == reasoning then [texts[n]] else [])
  }

  /** What deltas that came in order have made: one block of reasoning, and one of text. */
  function Streamed(said: seq<bool>, texts: seq<string>): seq<Sent>
    requires |said| == |texts|
  {
    (if true in said then [Sent(Thinking, "", Only(said, texts, true))] else [])
    + (if false in said then [Sent(Text, "", Only(said, texts, false))] else [])
  }

  lemma {:induction false} OnlyNone(said: seq<bool>, texts: seq<string>, reasoning: bool)
    requires |said| == |texts| && reasoning !in said
    ensures Only(said, texts, reasoning) == []
    decreases |said|
  {
    if said != [] {
      var n := |said| - 1;
      assert said[n] in said && (reasoning in said[..n] ==> reasoning in said);
      OnlyNone(said[..n], texts[..n], reasoning);
    }
  }

  /** One more delta in order goes to its own block, the last one. */
  lemma StreamedSnoc(said: seq<bool>, texts: seq<string>, reasoning: bool, text: string)
    requires |said| == |texts| && !(reasoning && false in said)
    ensures var all := Streamed(said, texts);
            Streamed(said + [reasoning], texts + [text])
            == Landed(all, reasoning in said, reasoning, text)
  {
    var k := if reasoning then Thinking else Text;
    var own, first := Only(said, texts, reasoning), Ahead(said, texts, reasoning);
    StreamedLonger(said, texts, reasoning, text);
    if reasoning in said {
      assert Streamed(said, texts) == first + [Sent(k, "", own)];
      MoreLast(first, Sent(k, "", own), text);
    } else {
      OnlyNone(said, texts, reasoning);
      assert [] + [text] == [text];
      assert Streamed(said, texts) == first;
    }
  }

  /** The block before the one that a delta goes to. */
  function Ahead(said: seq<bool>, texts: seq<string>, reasoning: bool): seq<Sent>
    requires |said| == |texts|
  {
    if !reasoning && true in said then [Sent(Thinking, "", Only(said, texts, true))] else []
  }

  lemma StreamedLonger(said: seq<bool>, texts: seq<string>, reasoning: bool, text: string)
    requires |said| == |texts| && !(reasoning && false in said)
    ensures Streamed(said + [reasoning], texts + [text])
         == Ahead(said, texts, reasoning)
            + [Sent(if reasoning then Thinking else Text, "", Only(said, texts, reasoning) + [text])]
  {
    OnlySnoc(said, texts, reasoning, text, true);
    OnlySnoc(said, texts, reasoning, text, false);
    InSnoc(said, reasoning, true);
    InSnoc(said, reasoning, false);
  }

  lemma InSnoc(said: seq<bool>, reasoning: bool, which: bool)
    ensures which in said + [reasoning] <==> which in said || which == reasoning
  {
  }

  lemma OnlySnoc(said: seq<bool>, texts: seq<string>, reasoning: bool, text: string, which: bool)
    requires |said| == |texts|
    ensures Only(said + [reasoning], texts + [text], which)
         == if reasoning == which then Only(said, texts, which) + [text] else Only(said, texts, which)
  {
    var n := |said|;
    assert (said + [reasoning])[..n] == said && (texts + [text])[..n] == texts;
  }

  // --- The blocks that were not streamed ---

  /** Block `k` of the final message is still to be sent: every tool, the first reasoning if
      none was streamed, and the first text if none was. */
  predicate Due(blocks: seq<Block>, k: nat, said: seq<bool>)
    requires k < |blocks|
  {
    match blocks[k].kind
    case Tool => true
    case Thinking => true !in said && forall i :: 0 <= i < k ==> blocks[i].kind != Thinking
    case Text => false !in said && forall i :: 0 <= i < k ==> blocks[i].kind != Text
  }

  function SentOf(b: Block): Sent {
    Sent(b.kind, b.what, if b.kind == Tool then [b.arguments] else [])
  }

  /** They are sent in order, whole. */
  function Owed(blocks: seq<Block>, said: seq<bool>): seq<Sent> {
    if blocks == [] then []
    else
      var n := |blocks| - 1;
      Owed(blocks[..n], said) + (if Due(blocks, n, said) then [SentOf(blocks[n])] else [])
  }

  /** Some reasoning came after some text. */
  predicate OutOfOrder(said: seq<bool>) {
    exists i, j :: 0 <= i < j < |said| && !said[i] && said[j]
  }

  lemma OutOfOrderSnoc(said: seq<bool>, reasoning: bool)
    ensures OutOfOrder(said + [reasoning]) <==> OutOfOrder(said) || (reasoning && false in said)
  {
    var all := said + [reasoning];
    if OutOfOrder(said) {
      var i, j :| 0 <= i < j < |said| && !said[i] && said[j];
      assert !all[i] && all[j];
    }
    if reasoning && false in said {
      var i :| 0 <= i < |said| && said[i] == false;
      assert !all[i] && all[|said|];
    }
    if OutOfOrder(all) {
      var i, j :| 0 <= i < j < |all| && !all[i] && all[j];
      assert said[i] == false;
    }
  }

  /** Where a reader stands by the flags of the blocks. */
  function Flagged(index: nat, thinking: bool, text: bool): Reader {
    if thinking then Inside(index, Thinking) else if text then Inside(index, Text) else Between(index)
  }

  /** What one delta sends: a block of the other kind is closed first, and its own opened. */
  function DeltaEvents(index: nat, thinking: bool, text: bool, reasoning: bool, what: string): seq<Event> {
    var kind := if reasoning then Thinking else Text;
    var at := if !reasoning && thinking then index + 1 else index;
    var delta := BlockDelta(at, kind, what);
    var sends := if (if reasoning then thinking else text) then [delta] else [BlockStart(at, kind, ""), delta];
    if !reasoning && thinking then [BlockStop(index)] + sends else sends
  }

  /** Where a reader stands after it. */
  function Lies(index: nat, thinking: bool, text: bool, reasoning: bool): Reader {
    if reasoning && text then Broken
    else if reasoning then Inside(index, Thinking)
    else Inside(if thinking then index + 1 else index, Text)
  }

  /** Reasoning after an open text block breaks the stream; anything else lands inside the
      block of its kind. */
  lemma DeltaReads(index: nat, thinking: bool, text: bool, reasoning: bool, what: string)
    ensures ScanOn(Broken, DeltaEvents(index, thinking, text, reasoning, what)) == Broken
    ensures !(thinking && text) ==>
              ScanOn(Flagged(index, thinking, text), DeltaEvents(index, thinking, text, reasoning, what))
              == Lies(index, thinking, text, reasoning)
  {
    var kind := if reasoning then Thinking else Text;
    var at := if !reasoning && thinking then index + 1 else index;
    var delta := BlockDelta(at, kind, what);
    var from := Flagged(index, thinking, text);
    BrokenStays(DeltaEvents(index, thinking, text, reasoning, what));
    StopScans(from, index, [delta]);
    StopScans(from, index, [BlockStart(at, kind, ""), delta]);
    OpenScans(from, at, kind, what);
    OpenScans(Advance(from, BlockStop(index)), at, kind, what);
  }

  lemma StopScans(r: Reader, index: nat, more: seq<Event>)
    ensures ScanOn(r, [BlockStop(index)] + more) == ScanOn(Advance(r, BlockStop(index)), more)
  {
    ScanOnAppend(r, [BlockStop(index)], more);
    ScanFew(r, [BlockStop(index)]);
  }

  lemma {:induction false} ScanOnAppend(r: Reader, a: seq<Event>, b: seq<Event>)
    ensures ScanOn(r, a + b) == ScanOn(ScanOn(r, a), b)
    decreases |b|
  {
    if b == [] {
      assert a + b == a;
    } else {
      assert (a + b)[..|a + b| - 1] == a + b[..|b| - 1];
      ScanOnAppend(r, a, b[..|b| - 1]);
    }
  }

  lemma OpenScans(r: Reader, at: nat, kind: Kind, what: string)
    ensures ScanOn(r, [BlockDelta(at, kind, what)]) == Advance(r, BlockDelta(at, kind, what))
    ensures ScanOn(r, [BlockStart(at, kind, ""), BlockDelta(at, kind, what)])
         == Advance(Advance(r, BlockStart(at, kind, "")), BlockDelta(at, kind, what))
  {
    ScanFew(r, [BlockDelta(at, kind, what)]);
    ScanFew(r, [BlockStart(at, kind, ""), BlockDelta(at, kind, what)]);
  }

  /** A reader of them has one more delta, in a block that is there or in a new one. */
  lemma DeltaPuts(sent: seq<Sent>, index: nat, thinking: bool, text: bool, reasoning: bool, what: string)
    requires (if reasoning then thinking else text) ==> sent != []
    ensures ReadOn(sent, DeltaEvents(index, thinking, text, reasoning, what))
         == Landed(sent, if reasoning then thinking else text, reasoning, what)
  {
    var kind := if reasoning then Thinking else Text;
    var events := DeltaEvents(index, thinking, text, reasoning, what);
    var at := if !reasoning && thinking then index + 1 else index;
    MoreLast(sent, Sent(kind, "", []), what);
    assert [] + [what] == [what];
    StopPuts(sent, index, [BlockDelta(at, kind, what)]);
    StopPuts(sent, index, [BlockStart(at, kind, ""), BlockDelta(at, kind, what)]);
    ReadFew(sent, [BlockDelta(at, kind, what)]);
    ReadFew(sent, [BlockStart(at, kind, ""), BlockDelta(at, kind, what)]);
  }

  lemma StopPuts(sent: seq<Sent>, index: nat, more: seq<Event>)
    ensures ReadOn(sent, [BlockStop(index)] + more) == ReadOn(sent, more)
  {
    ReadAppend(sent, [BlockStop(index)], more);
    ReadFew(sent, [BlockStop(index)]);
  }

  lemma ReadFew(sent: seq<Sent>, events: seq<Event>)
    requires |events| <= 3
    ensures |events| == 1 ==> ReadOn(sent, events) == Put(sent, events[0])
    ensures |events| == 2 ==> ReadOn(sent, events) == Put(Put(sent, events[0]), events[1])
    ensures |events| == 3 ==> ReadOn(sent, events) == Put(Put(Put(sent, events[0]), events[1]), events[2])
  {
    if |events| == 3 {
      assert events[..2][..1] == events[..1];
      assert ReadOn(sent, events[..2]) == Put(ReadOn(sent, events[..1]), events[1]);
    }
    if |events| >= 1 {
      assert ReadOn(sent, events[..1]) == Put(ReadOn(sent, []), events[0]);
    }
  }

  /** Where a reader stands, and what it has, by the flags and by the deltas so far. */
  ghost predicate Stands(
      index: nat, thinking: bool, text: bool, said: seq<bool>, texts: seq<string>, at: Reader, sent: seq<Sent>) {
    && (text <==> false in said) && |texts| == |said| && (thinking && text ==> OutOfOrder(said))
    && at == (if OutOfOrder(said) then Broken else Flagged(index, thinking, text))
    && (!OutOfOrder(said) ==> sent == Streamed(said, texts) && (thinking <==> true in said && !text))
  }

  /** And after one more delta. */
  lemma DeltaStands(
      index: nat, thinking: bool, text: bool, said: seq<bool>, texts: seq<string>, at: Reader, sent: seq<Sent>,
      reasoning: bool, what: string)
    requires Stands(index, thinking, text, said, texts, at, sent)
    ensures var events := DeltaEvents(index, thinking, text, reasoning, what);
            Stands(if !reasoning && thinking then index + 1 else index, reasoning, text || !reasoning,
                   said + [reasoning], texts + [what], ScanOn(at, events), ReadOn(sent, events))
    ensures forall x :: x in said + [reasoning] <==> x in said || x == reasoning
  {
    OutOfOrderSnoc(said, reasoning);
    DeltaReads(index, thinking, text, reasoning, what);
    if !OutOfOrder(said + [reasoning]) {
      StreamedSnoc(said, texts, reasoning, what);
      DeltaPuts(sent, index, thinking, text, reasoning, what);
    }
  }

  class AnthropicStream {
    var index: nat
    var thinkingOpen: bool
    var textOpen: bool
    var emittedThinking: bool
    var emittedText: bool
    /** Every event so far, and for each delta whether it was reasoning, and its text. */
    ghost var trace: seq<Event>
    ghost var said: seq<bool>
    ghost var texts: seq<string>

    ghost predicate Valid()
      reads this
    {
      && (emittedThinking <==> true in said) && (emittedText <==> false in said)
      && Stands(index, thinkingOpen, textOpen, said, texts, Scan(trace), Read(trace))
    }

    constructor ()
      ensures Valid() && trace == [MessageStart] && said == [] && texts == []
    {
      index, thinkingOpen, textOpen, emittedThinking, emittedText := 0, false, false, false, false;
      trace, said, texts := [MessageStart], [], [];
    }

    ghost method Record(events: seq<Event>)
      modifies this`trace
      ensures trace == old(trace) + events && Scan(trace) == ScanOn(Scan(old(trace)), events)
      ensures Read(trace) == ReadOn(Read(old(trace)), events)
    {
      ScanAppend(trace, events);
      ReadAppend([], trace, events);
      trace := trace + events;
    }

    /** One delta, in the block of its kind. */
    method Delta(reasoning: bool, text: string) returns (events: seq<Event>)
      requires Valid()
      modifies this
      ensures Valid() && said == old(said) + [reasoning] && texts == old(texts) + [text]
      ensures trace == old(trace) + events
      ensures events != [] && events[|events| - 1] == BlockDelta(index, if reasoning then Thinking else Text, text)
    {
      DeltaStands(index, thinkingOpen, textOpen, said, texts, Scan(trace), Read(trace), reasoning, text);
      events := Append(reasoning, text);
      Record(events);
      Note(reasoning, text);
    }

    ghost method Note(reasoning: bool, text: string)
      requires Stands(index, thinkingOpen, textOpen, said + [reasoning], texts + [text], Scan(trace), Read(trace))
      requires emittedThinking <==> true in said + [reasoning]
      requires emittedText <==> false in said + [reasoning]
      modifies this`said, this`texts
      ensures Valid() && said == old(said) + [reasoning] && texts == old(texts) + [text]
    {
      said, texts := said + [reasoning], texts + [text];
    }

    method Append(reasoning: bool, text: string) returns (events: seq<Event>)
      modifies this`index, this`thinkingOpen, this`textOpen, this`emittedThinking, this`emittedText
      ensures events == DeltaEvents(old(index), old(thinkingOpen), old(textOpen), reasoning, text)
      ensures index == (if !reasoning && old(thinkingOpen) then old(index) + 1 else old(index))
      ensures thinkingOpen == reasoning && textOpen == (old(textOpen) || !reasoning)
      ensures emittedThinking == (old(emittedThinking) || (reasoning && !old(thinkingOpen)))
      ensures emittedText == (old(emittedText) || (!reasoning && !old(textOpen)))
      ensures events != [] && events[|events| - 1] == BlockDelta(index, if reasoning then Thinking else Text, text)
    {
      events := [];
      if reasoning {
        if !thinkingOpen {
          events := [BlockStart(index, Thinking, "")];
          thinkingOpen, emittedThinking := true, true;
        }
        events := events + [BlockDelta(index, Thinking, text)];
      } else {
        if thinkingOpen {
          events := [BlockStop(index)];
          index, thinkingOpen := index + 1, false;
        }
        ghost var stops := events;
        if !textOpen {
          events := events + [BlockStart(index, Text, "")];
          textOpen, emittedText := true, true;
        }
        events := events + [BlockDelta(index, Text, text)];
        assert events == stops + (if old(textOpen) then [BlockDelta(index, Text, text)]
                                  else [BlockStart(index, Text, ""), BlockDelta(index, Text, text)]);
      }
    }

    /** Close what is open, send the blocks that were not streamed, and end. */
    method Finish(blocks: seq<Block>) returns (events: seq<Event>)
      requires Valid()
      modifies this
      ensures trace == old(trace) + events && said == old(said) && texts == old(texts)
      // The stream is well formed exactly when no reasoning came after text.
      ensures Scan(trace) == if OutOfOrder(said) then Broken else Over
      // A reader has every block of the message once: those that were streamed, then the others.
      ensures Read(trace) == Read(old(trace)) + Owed(blocks, said)
      ensures !OutOfOrder(said) ==> Read(trace) == Streamed(said, texts) + Owed(blocks, said)
      ensures events != [] && events[|events| - 1] == MessageStop && !thinkingOpen && !textOpen
    {
      ghost var from, sent := Scan(trace), Read(trace);
      events := CloseOpen(from, sent);
      events := SendBlocks(blocks, events, from, sent);
      events := One(from, sent, events, MessageDelta);
      events := One(from, sent, events, MessageStop);
      BrokenStays(events);
      Record(events);
    }

    /** The blocks that are due, in order. */
    method SendBlocks(blocks: seq<Block>, before: seq<Event>, ghost from: Reader, ghost sent: seq<Sent>)
      returns (events: seq<Event>)
      requires (emittedThinking <==> true in said) && (emittedText <==> false in said)
      modifies this`index, this`emittedThinking, this`emittedText
      ensures ReadOn(sent, events) == ReadOn(sent, before) + Owed(blocks, said)
      ensures ScanOn(from, before) == Between(old(index)) ==> ScanOn(from, events) == Between(index)
    {
      events := before;
      ghost var base := ReadOn(sent, before);
      for k := 0 to |blocks|
        invariant ScanOn(from, before) == Between(old(index)) ==> ScanOn(from, events) == Between(index)
        invariant ReadOn(sent, events) == OwedOn(base, blocks, said, k)
        invariant Covers(emittedThinking, said, true, blocks, k, Thinking)
        invariant Covers(emittedText, said, false, blocks, k, Text)
      {
        CoversSnoc(emittedThinking, said, true, blocks, k, Thinking);
        CoversSnoc(emittedText, said, false, blocks, k, Text);
        DueIs(emittedThinking, emittedText, said, blocks, k);
        events := Consider(blocks[k], events, from, sent);
      }
      OwedOnIs(base, blocks, said, |blocks|);
      assert blocks[..|blocks|] == blocks;
    }

    /** One block of the final message. */
    method Consider(b: Block, before: seq<Event>, ghost from: Reader, ghost sent: seq<Sent>)
      returns (events: seq<Event>)
      modifies this`index, this`emittedThinking, this`emittedText
      ensures ScanOn(from, before) == Between(old(index)) ==> ScanOn(from, events) == Between(index)
      ensures ReadOn(sent, events)
           == if Wants(old(emittedThinking), old(emittedText), b.kind) then ReadOn(sent, before) + [SentOf(b)]
              else ReadOn(sent, before)
      ensures emittedThinking == (old(emittedThinking) || b.kind == Thinking)
      ensures emittedText == (old(emittedText) || b.kind == Text)
    {
      events := before;
      match b.kind
      case Thinking =>
        if !emittedThinking {
          events := Emit(b, events, from, sent);
        }
      case Text =>
        if !emittedText {
          events := Emit(b, events, from, sent);
        }
      case Tool =>
        events := Emit(b, events, from, sent);
    }

    method CloseOpen(ghost from: Reader, ghost sent: seq<Sent>) returns (events: seq<Event>)
      requires Valid() && from == Scan(trace)
      modifies this`index, this`thinkingOpen, this`textOpen
      ensures !OutOfOrder(said) ==> ScanOn(from, events) == Between(index)
      ensures ReadOn(sent, events) == sent && !thinkingOpen && !textOpen
    {
      events := [];
      if thinkingOpen {
        events := One(from, sent, events, BlockStop(index));
        index, thinkingOpen := index + 1, false;
      }
      if textOpen {
        events := One(from, sent, events, BlockStop(index));
        index, textOpen := index + 1, false;
      }
    }

    /** A whole block that was not streamed. */
    method Emit(b: Block, before: seq<Event>, ghost from: Reader, ghost sent: seq<Sent>) returns (events: seq<Event>)
      modifies this`index, this`emittedThinking, this`emittedText
      ensures index == old(index) + 1
      ensures ScanOn(from, before) == Between(old(index)) ==> ScanOn(from, events) == Between(index)
      ensures ReadOn(sent, events) == ReadOn(sent, before) + [SentOf(b)]
      ensures emittedThinking == (old(emittedThinking) || b.kind == Thinking)
      ensures emittedText == (old(emittedText) || b.kind == Text)
    {
      events := One(from, sent, before, BlockStart(index, b.kind, b.what));
      if b.kind == Tool {
        ghost var all := ReadOn(sent, before);
        MoreLast(all, Sent(Tool, b.what, []), b.arguments);
        assert [] + [b.arguments] == [b.arguments];
        events := One(from, sent, events, BlockDelta(index, b.kind, b.arguments));
        assert ReadOn(sent, events) == all + [SentOf(b)];
      }
      events := One(from, sent, events, BlockStop(index));
      index := index + 1;
      emittedThinking, emittedText := emittedThinking || b.kind == Thinking, emittedText || b.kind == Text;
    }

    method One(ghost from: Reader, ghost sent: seq<Sent>, events: seq<Event>, e: Event) returns (r: seq<Event>)
      ensures r == events + [e] && ScanOn(from, r) == Advance(ScanOn(from, events), e)
      ensures ReadOn(sent, r) == Put(ReadOn(sent, events), e)
    {
      r := events + [e];
      assert r[..|events|] == events;
    }
  }

  predicate Wants(emittedThinking: bool, emittedText: bool, kind: Kind) {
    kind == Tool || (kind == Thinking && !emittedThinking) || (kind == Text && !emittedText)
  }

  /** A flag that is set once a block of that kind was streamed or sent. */
  ghost predicate Covers(flag: bool, said: seq<bool>, which: bool, blocks: seq<Block>, k: nat, kind: Kind)
    requires k <= |blocks|
  {
    flag <==> which in said || exists i :: 0 <= i < k && blocks[i].kind == kind
  }

  lemma CoversSnoc(flag: bool, said: seq<bool>, which: bool, blocks: seq<Block>, k: nat, kind: Kind)
    requires k < |blocks| && Covers(flag, said, which, blocks, k, kind)
    ensures Covers(flag || blocks[k].kind == kind, said, which, blocks, k + 1, kind)
  {
  }

  lemma DueIs(thinking: bool, text: bool, said: seq<bool>, blocks: seq<Block>, k: nat)
    requires k < |blocks| && Covers(thinking, said, true, blocks, k, Thinking)
    requires Covers(text, said, false, blocks, k, Text)
    ensures Due(blocks, k, said) <==> Wants(thinking, text, blocks[k].kind)
  {
  }

  function OwedOn(base: seq<Sent>, blocks: seq<Block>, said: seq<bool>, k: nat): seq<Sent>
    requires k <= |blocks|
  {
    if k == 0 then base
    else if Due(blocks, k - 1, said) then OwedOn(base, blocks, said, k - 1) + [SentOf(blocks[k - 1])]
    else OwedOn(base, blocks, said, k - 1)
  }

  lemma {:induction false} OwedOnIs(base: seq<Sent>, blocks: seq<Block>, said: seq<bool>, k: nat)
    requires k <= |blocks|
    ensures OwedOn(base, blocks, said, k) == base + Owed(blocks[..k], said)
    decreases k
  {
    if k > 0 {
      OwedOnIs(base, blocks, said, k - 1);
      assert blocks[..k][..k - 1] == blocks[..k - 1] && blocks[..k][k - 1] == blocks[k - 1];
      assert forall i :: 0 <= i < k - 1 ==> blocks[..k][i] == blocks[i];
      assert Due(blocks[..k], k - 1, said) == Due(blocks, k - 1, said);
    }
  }

  lemma ScanFew(r: Reader, events: seq<Event>)
    requires |events| <= 3
    ensures |events| == 1 ==> ScanOn(r, events) == Advance(r, events[0])
    ensures |events| == 2 ==> ScanOn(r, events) == Advance(Advance(r, events[0]), events[1])
    ensures |events| == 3 ==> ScanOn(r, events) == Advance(Advance(Advance(r, events[0]), events[1]), events[2])
  {
    if |events| == 3 {
      assert events[..2][..1] == events[..1];
      assert ScanOn(r, events[..2]) == Advance(ScanOn(r, events[..1]), events[1]);
    }
    if |events| >= 1 {
      assert ScanOn(r, events[..1]) == Advance(ScanOn(r, []), events[0]);
    }
  }
}
