/** The numbered event stream of one response. */
module ResponsesStream {
  datatype Kind = Message | Reasoning | Call | Other
  datatype Item = Item(id: string, kind: Kind, text: string)

  datatype Body =
    | Created
    | Added(index: nat, id: string, kind: Kind)
    | PartAdded(index: nat, id: string)
    | Delta(index: nat, id: string, text: string)
    | TextDone(index: nat, id: string, text: string)
    | PartDone(index: nat, id: string)
    | ItemDone(index: nat, id: string)
    | Ended(status: string)

  datatype Event = Event(number: nat, body: Body)

  /** The ids added so far, in order. */
  function Known(trace: seq<Event>): seq<string> {
    if trace == [] then []
    else
      var before, last := Known(trace[..|trace| - 1]), trace[|trace| - 1].body;
      if last.Added? then before + [last.id] else before
  }

  /** An event may follow `known`: an item is added once, at the next index, and every
      other event of an item comes later and carries its index. */
  predicate Fits(known: seq<string>, b: Body) {
    match b
    case Created => true
    case Ended(_) => true
    case Added(index, id, _) => index == |known| && id !in known
    case _ => b.index < |known| && known[b.index] == b.id
  }

  predicate Grammar(trace: seq<Event>) {
    trace != [] ==>
      var n := |trace| - 1;
      Grammar(trace[..n]) && trace[n].number == n && Fits(Known(trace[..n]), trace[n].body)
  }

  /** What the grammar says of any two events. */
  lemma {:induction false} NumbersCount(trace: seq<Event>, i: nat)
    requires Grammar(trace) && i < |trace|
    ensures trace[i].number == i
    ensures Grammar(trace[..i]) && Fits(Known(trace[..i]), trace[i].body)
    decreases |trace|
  {
    if i < |trace| - 1 {
      NumbersCount(trace[..|trace| - 1], i);
      assert trace[..|trace| - 1][..i] == trace[..i];
    }
  }

  lemma {:induction false} KnownGrows(trace: seq<Event>, n: nat)
    requires n <= |trace|
    ensures Known(trace[..n]) <= Known(trace)
    decreases |trace|
  {
    if n == |trace| {
      assert trace[..n] == trace;
    } else {
      KnownGrows(trace[..|trace| - 1], n);
      assert trace[..|trace| - 1][..n] == trace[..n];
    }
  }

  /** An id that is known was added by an earlier event, at its index. */
  lemma {:induction false} KnownWasAdded(trace: seq<Event>, k: nat) returns (j: nat)
    requires Grammar(trace) && k < |Known(trace)|
    ensures j < |trace| && trace[j].body.Added?
    ensures trace[j].body.index == k && trace[j].body.id == Known(trace)[k]
    decreases |trace|
  {
    var n := |trace| - 1;
    if k < |Known(trace[..n])| {
      j := KnownWasAdded(trace[..n], k);
    } else {
      j := n;
    }
  }

  /** An event about an id leaves the id known. */
  lemma KnownAfter(trace: seq<Event>, i: nat, n: nat)
    requires Grammar(trace) && i < n <= |trace| && !trace[i].body.Created? && !trace[i].body.Ended?
    ensures trace[i].body.id in Known(trace[..n])
  {
    NumbersCount(trace, i);
    assert trace[..n][..i + 1] == trace[..i + 1] && trace[..i + 1][..i] == trace[..i];
    KnownGrows(trace[..n], i + 1);
    assert trace[i].body.id in Known(trace[..i + 1]);
  }

  /** Each item is added exactly once, before all its other events. */
  lemma AddedOnceBefore(trace: seq<Event>, i: nat, j: nat)
    requires Grammar(trace) && i < |trace| && j < |trace| && trace[j].body.Added?
    requires !trace[i].body.Created? && !trace[i].body.Ended? && trace[i].body.id == trace[j].body.id
    ensures j <= i && trace[i].body.index == trace[j].body.index
    ensures trace[i].body.Added? ==> i == j
  {
    NumbersCount(trace, i);
    NumbersCount(trace, j);
    KnownDistinct(trace[..i]);
    if i < j {
      KnownAfter(trace, i, j);
    } else if j < i {
      KnownAt(trace, j, i);
      KnownAfter(trace, j, i);
    }
  }

  lemma KnownAt(trace: seq<Event>, j: nat, i: nat)
    requires Grammar(trace) && j < i <= |trace| && trace[j].body.Added?
    ensures trace[j].body.index < |Known(trace[..i])| && Known(trace[..i])[trace[j].body.index] == trace[j].body.id
  {
    NumbersCount(trace, j);
    assert trace[..j + 1][..j] == trace[..j];
    KnownGrows(trace[..i], j + 1);
    assert trace[..i][..j + 1] == trace[..j + 1];
  }

  lemma {:induction false} KnownDistinct(trace: seq<Event>)
    requires Grammar(trace)
    ensures Distinct(Known(trace))
    decreases |trace|
  {
    if trace != [] {
      KnownDistinct(trace[..|trace| - 1]);
    }
  }

  predicate Distinct(ids: seq<string>) {
    forall i, j :: 0 <= i < j < |ids| ==> ids[i] != ids[j]
  }

  /** The position of an id among the streamed items; past the end when it is new. */
  function Key(items: seq<string>, id: string): (k: nat)
    ensures k <= |items|
    ensures k < |items| ==> items[k] == id
    ensures k == |items| <==> id !in items
    ensures Distinct(items) ==> forall i :: 0 <= i < |items| && items[i] == id ==> i == k
  {
    if items == [] then 0
    else if items[0] == id then 0
    else
      assert items == [items[0]] + items[1..];
      1 + Key(items[1..], id)
  }

  /** The index that each item of a final output gets. */
  function Assign(items: seq<string>, ids: seq<string>): (r: seq<nat>)
    ensures |r| == |ids|
    decreases |ids|
  {
    if ids == [] then [] else [Key(items, ids[0])] + Assign(Grown(items, ids[0]), ids[1..])
  }

  function Grown(items: seq<string>, id: string): seq<string> {
    if id in items then items else items + [id]
  }

  function Ids(output: seq<Item>): seq<string> {
    seq(|output|, k requires 0 <= k < |output| => output[k].id)
  }

  function Dones(events: seq<Event>): seq<(nat, string)> {
    if events == [] then []
    else
      var before, last := Dones(events[..|events| - 1]), events[|events| - 1].body;
      if last.ItemDone? then before + [(last.index, last.id)] else before
  }

  // --- The life of one item ---

  /** How far an item has come: what its deltas join to, and the text it was closed with. */
  datatype Stage =
    | Absent
    | Begun(kind: Kind)
    | Running(kind: Kind, said: string)
    | Told(kind: Kind, said: string, text: string)
    | Shut(kind: Kind, said: string, text: string)
    | Done(kind: Kind, said: string, text: string)
    | Astray

  /** Messages and reasoning have a part around their text. */
  predicate Parted(kind: Kind) {
    kind == Message || kind == Reasoning
  }

  /** An item is added, its part is, then come deltas, the whole text, the end of the part, and
      the end of the item, each in its place. */
  function Live(s: Stage, b: Body): Stage {
    match b
    case Added(_, _, kind) => if s.Absent? then (if Parted(kind) then Begun(kind) else Running(kind, "")) else Astray
    case PartAdded(_, _) => if s.Begun? then Running(s.kind, "") else Astray
    case Delta(_, _, text) => if s.Running? && s.kind != Other then Running(s.kind, s.said + text) else Astray
    case TextDone(_, _, text) => if s.Running? && s.kind != Other then Told(s.kind, s.said, text) else Astray
    case PartDone(_, _) => if s.Told? && Parted(s.kind) then Shut(s.kind, s.said, s.text) else Astray
    case ItemDone(_, _) =>
      if s.Shut? then Done(s.kind, s.said, s.text)
      else if s.Told? && s.kind == Call then Done(s.kind, s.said, s.text)
      else if s.Running? && s.kind == Other then Done(s.kind, "", "")
      else Astray
    case _ => s
  }

  predicate About(b: Body, id: string) {
    !b.Created? && !b.Ended? && b.id == id
  }

  function Life(trace: seq<Event>, id: string): Stage {
    if trace == [] then Absent
    else
      Moved(Life(trace[..|trace| - 1], id), trace[|trace| - 1].body, id)
  }

  function Moved(s: Stage, b: Body, id: string): Stage {
    if About(b, id) then Live(s, b) else s
  }

  /** An item can be closed: it is new, or it is running and of its own kind. */
  predicate Closable(s: Stage, item: Item) {
    s.Absent? || (s.Running? && s.kind == item.kind)
  }

  function Telling(said: string, item: Item, delta: bool): Stage {
    if item.kind == Other then Running(Other, said)
    else Told(item.kind, if delta then said + item.text else said, item.text)
  }

  function Finished(s: Stage): Stage {
    match s
    case Told(kind, said, text) => Done(kind, said, text)
    case _ => Done(Other, "", "")
  }

  /** What closing item `k` does to the items before it and after. */
  lemma ClosedNext(start: seq<Event>, a: seq<Event>, b: seq<Event>, output: seq<Item>, k: nat)
    requires k < |output|
    requires forall x :: x != output[k].id ==> Life(b, x) == Life(a, x)
    requires Closable(Life(a, output[k].id), output[k]) ==>
               Life(b, output[k].id) == Closed(Life(a, output[k].id), output[k])
    requires ClosedUpTo(start, a, output, k)
    ensures ClosedUpTo(start, b, output, k + 1)
  {
    var ids := Ids(output);
    assert forall x :: x in ids[..k + 1] <==> x in ids[..k] || x == ids[k];
    if Distinct(ids) {
      assert ids[k] == output[k].id && forall j :: 0 <= j < k ==> ids[j] != ids[k];
      forall i | 0 <= i < k
        ensures ClosedWell(start, b, output[i])
      {
        assert ids[i] != ids[k] && ids[i] == output[i].id;
      }
    }
  }

  /** Of the first `k` items each is closed with its own text, and no other is touched. */
  ghost predicate ClosedUpTo(start: seq<Event>, trace: seq<Event>, output: seq<Item>, k: nat)
    requires k <= |output|
  {
    && (forall x :: x !in Ids(output)[..k] ==> Life(trace, x) == Life(start, x))
    && (Distinct(Ids(output)) ==> forall i :: 0 <= i < k ==> ClosedWell(start, trace, output[i]))
  }

  ghost predicate ClosedWell(start: seq<Event>, trace: seq<Event>, item: Item) {
    Closable(Life(start, item.id), item) ==> Life(trace, item.id) == Closed(Life(start, item.id), item)
  }

  /** How an item ends: with its own text, and with deltas that join to it when it was not
      streamed before; what was streamed stays, and a call sends its arguments once more. */
  function Closed(s: Stage, item: Item): Stage {
    var said := if s.Running? then s.said else "";
    match item.kind
    case Other => Done(Other, "", "")
    case Call => Done(Call, said + item.text, item.text)
    case _ => Done(item.kind, if s.Absent? then item.text else said, item.text)
  }

  class ResponsesStream {
    const id: string
    var sequence: nat
    var items: seq<string>
    /** Every event so far. */
    ghost var trace: seq<Event>

    ghost predicate Valid()
      reads this
    {
      && Grammar(trace) && sequence == |trace| && items == Known(trace) && Distinct(items)
      && forall x :: Life(trace, x).Absent? <==> x !in items
    }

    constructor (id: string)
      ensures Valid() && this.id == id && trace == []
    {
      this.id, sequence, items, trace := id, 0, [], [];
    }

    method Emit(b: Body) returns (e: Event)
      requires Valid() && Fits(items, b) && !b.Added?
      modifies this
      ensures Valid() && trace == old(trace) + [e] && e.body == b && items == old(items)
      ensures forall x :: Life(trace, x) == Moved(Life(old(trace), x), b, x)
    {
      e := Event(sequence, b);
      assert (trace + [e])[..|trace|] == trace;
      trace := trace + [e];
      sequence := sequence + 1;
    }

    method Start() returns (e: Event)
      requires Valid()
      modifies this
      ensures Valid() && trace == old(trace) + [e] && items == old(items)
    {
      e := Emit(Created);
    }

    /** One more event at the end of `events`, which follow `start`. */
    method Push(events: seq<Event>, b: Body, ghost start: seq<Event>) returns (r: seq<Event>)
      requires Valid() && Fits(items, b) && !b.Added? && trace == start + events
      modifies this
      ensures Valid() && items == old(items) && trace == start + r
      ensures |r| == |events| + 1 && r[|events|].body == b
      ensures Dones(r) == Dones(events) + if b.ItemDone? then [(b.index, b.id)] else []
      ensures forall x :: Life(trace, x) == Moved(Life(old(trace), x), b, x)
    {
      var e := Emit(b);
      r := events + [e];
      assert r[..|events|] == events;
      assert start + events + [e] == start + r;
    }

    /** A new item takes the next index. */
    method Open(itemId: string, kind: Kind, before: seq<Event>, ghost start: seq<Event>) returns (events: seq<Event>)
      requires Valid() && trace == start + before && itemId !in items
      modifies this
      ensures Valid() && trace == start + events && Dones(events) == Dones(before) && items == old(items) + [itemId]
      ensures forall x :: Life(trace, x) == Moved(Life(old(trace), x), Added(|old(items)|, itemId, kind), x)
    {
      var e := Event(sequence, Added(|items|, itemId, kind));
      events := before + [e];
      assert events[..|before|] == before && (trace + [e])[..|trace|] == trace;
      assert start + before + [e] == start + events;
      trace, sequence, items := trace + [e], sequence + 1, items + [itemId];
    }

    /** Add an item unless it is known, with its empty part. */
    method Add(
        item: Item, before: seq<Event>, ghost start: seq<Event>)
        returns (index: nat, added: bool, events: seq<Event>)
      requires Valid() && trace == start + before
      modifies this
      ensures Valid() && trace == start + events && Dones(events) == Dones(before)
      ensures index == Key(old(items), item.id) && items == Grown(old(items), item.id)
      ensures added <==> item.id !in old(items)
      ensures index < |items| && items[index] == item.id
      ensures forall x :: x != item.id || !added ==> Life(trace, x) == Life(old(trace), x)
      ensures added ==> Life(old(trace), item.id).Absent? && Life(trace, item.id) == Running(item.kind, "")
    {
      index, events := Key(items, item.id), before;
      added := index == |items|;
      if added {
        events := Open(item.id, item.kind, before, start);
        if item.kind == Message || item.kind == Reasoning {
          events := Push(events, PartAdded(index, item.id), start);
        }
      }
    }

    /** One piece of reasoning or answer text; its item is added first. */
    method Piece(reasoning: bool, text: string) returns (events: seq<Event>)
      requires Valid()
      modifies this
      ensures Valid() && trace == old(trace) + events && events != []
      ensures var last := events[|events| - 1].body;
              last.Delta? && last.text == text && last.id == (if reasoning then "rs_" else "msg_") + id
      ensures var kind, name := if reasoning then Reasoning else Message, (if reasoning then "rs_" else "msg_") + id;
              && (forall x :: x != name ==> Life(trace, x) == Life(old(trace), x))
              && (Life(old(trace), name).Absent? ==> Life(trace, name) == Running(kind, text))
              && (forall said :: Life(old(trace), name) == Running(kind, said) ==>
                    Life(trace, name) == Running(kind, said + text))
    {
      var name := (if reasoning then "rs_" else "msg_") + id;
      var index, _, added := Add(Item(name, if reasoning then Reasoning else Message, ""), [], trace);
      events := Push(added, Delta(index, name, text), old(trace));
    }

    /** The closing events of one item of the final output. */
    method Close(item: Item, before: seq<Event>, ghost start: seq<Event>) returns (index: nat, events: seq<Event>)
      requires Valid() && trace == start + before
      modifies this
      ensures Valid() && trace == start + events
      ensures index == Key(old(items), item.id) && items == Grown(old(items), item.id)
      ensures Dones(events) == Dones(before) + [(index, item.id)]
      ensures forall x :: x != item.id ==> Life(trace, x) == Life(old(trace), x)
      ensures Closable(Life(old(trace), item.id), item) ==>
                Life(trace, item.id) == Closed(Life(old(trace), item.id), item)
    {
      var added;
      index, added, events := Add(item, before, start);
      events := Tell(item, index, item.kind == Call || (added && item.kind != Other), events, start);
      events := Shut(item, index, events, start);
    }

    /** The whole text of an item, after a delta of it when none was streamed. */
    method Tell(item: Item, index: nat, delta: bool, before: seq<Event>, ghost start: seq<Event>)
      returns (events: seq<Event>)
      requires Valid() && trace == start + before && index < |items| && items[index] == item.id
      requires delta ==> item.kind != Other
      modifies this
      ensures Valid() && trace == start + events && items == old(items) && Dones(events) == Dones(before)
      ensures forall x :: x != item.id ==> Life(trace, x) == Life(old(trace), x)
      ensures Life(old(trace), item.id).Running? && Life(old(trace), item.id).kind == item.kind ==>
                Life(trace, item.id) == Telling(Life(old(trace), item.id).said, item, delta)
    {
      events := before;
      if delta {
        events := Push(events, Delta(index, item.id, item.text), start);
      }
      if item.kind != Other {
        events := Push(events, TextDone(index, item.id, item.text), start);
      }
    }

    /** The end of its part, and its own. */
    method Shut(item: Item, index: nat, before: seq<Event>, ghost start: seq<Event>) returns (events: seq<Event>)
      requires Valid() && trace == start + before && index < |items| && items[index] == item.id
      modifies this
      ensures Valid() && trace == start + events && items == old(items)
      ensures Dones(events) == Dones(before) + [(index, item.id)]
      ensures forall x :: x != item.id ==> Life(trace, x) == Life(old(trace), x)
      ensures forall said, delta :: Life(old(trace), item.id) == Telling(said, item, delta) ==>
                Life(trace, item.id) == Finished(Telling(said, item, delta))
    {
      events := before;
      if item.kind == Message || item.kind == Reasoning {
        events := Push(events, PartDone(index, item.id), start);
      }
      events := Push(events, ItemDone(index, item.id), start);
    }

    /** Close every item of the final output, then the response. */
    method Finish(output: seq<Item>, status: string) returns (events: seq<Event>)
      requires Valid()
      modifies this
      ensures Valid() && trace == old(trace) + events
      ensures events != [] && events[|events| - 1].body == Ended(status)
      ensures Dones(events) == Zip(Assign(old(items), Ids(output)), Ids(output))
      // Every item of the output has lived its whole life, and is closed with its own text.
      ensures Distinct(Ids(output)) ==>
                forall k :: 0 <= k < |output| && Closable(Life(old(trace), output[k].id), output[k]) ==>
                  Life(trace, output[k].id) == Closed(Life(old(trace), output[k].id), output[k])
      ensures forall x :: x !in Ids(output) ==> Life(trace, x) == Life(old(trace), x)
    {
      ghost var start := trace;
      events := CloseAll(output);
      assert Ids(output)[..|output|] == Ids(output);
      events := Push(events, Ended(status), start);
    }

    method CloseAll(output: seq<Item>) returns (events: seq<Event>)
      requires Valid()
      modifies this
      ensures Valid() && trace == old(trace) + events
      ensures Dones(events) == Zip(Assign(old(items), Ids(output)), Ids(output))
      ensures ClosedUpTo(old(trace), trace, output, |output|)
    {
      events := [];
      ghost var start, was, ids := trace, items, Ids(output);
      ghost var indices: seq<nat> := [];
      assert ids[0..] == ids;
      for k := 0 to |output|
        invariant Valid() && trace == start + events && |indices| == k
        invariant Assign(was, ids) == indices + Assign(items, ids[k..])
        invariant Dones(events) == Zip(indices, ids[..k])
        invariant ClosedUpTo(start, trace, output, k)
      {
        var index;
        AssignStep(items, ids, k, indices);
        ghost var met := trace;
        index, events := Close(output[k], events, start);
        ClosedNext(start, met, trace, output, k);
        ZipStep(indices, ids, k, index);
        indices := indices + [index];
      }
      assert ids[..|output|] == ids && indices + [] == indices;
    }
  }

  lemma AssignStep(items: seq<string>, ids: seq<string>, k: nat, indices: seq<nat>)
    requires k < |ids|
    ensures indices + Assign(items, ids[k..])
              == (indices + [Key(items, ids[k])]) + Assign(Grown(items, ids[k]), ids[k + 1..])
  {
    assert ids[k..][0] == ids[k] && ids[k..][1..] == ids[k + 1..];
  }

  lemma ZipStep(indices: seq<nat>, ids: seq<string>, k: nat, index: nat)
    requires k < |ids| && |indices| == k
    ensures Zip(indices + [index], ids[..k + 1]) == Zip(indices, ids[..k]) + [(index, ids[k])]
  {
  }

  function Zip(a: seq<nat>, b: seq<string>): seq<(nat, string)>
    requires |a| == |b|
  {
    seq(|a|, k requires 0 <= k < |a| => (a[k], b[k]))
  }
}
