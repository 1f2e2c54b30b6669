/** Saved states of the prefixes where prefills were cut, kept in host memory. */
module Marks {
  import opened Options
  import opened Target
  import opened Runner
  import Schedule

  /** A mark names the pinned buffers that hold its state. */
  datatype Mark = Mark(slot: nat, ready: bool, carry: Row)

  /** What a mark brings back: the recurrent state, its flag, and the carry. */
  datatype Saved = Saved(g: Gdn, ready: bool, carry: Row)

  /** Every mark lies in (0, bound] and holds the state and the carry of its prefix. */
  ghost predicate TellsAll(net: Net, text: seq<Token>, bound: nat, tale: map<nat, Saved>) {
    bound <= |text| && forall p :: p in tale ==> 0 < p <= bound && Tells(net, text[..p], tale[p])
  }

  ghost predicate Tells(net: Net, text: seq<Token>, mark: Saved)
    requires text != []
  {
    mark.g == At(net, text).g && mark.carry == RowOf(net, text)
  }

  function UpTo(tale: map<nat, Saved>, n: nat): map<nat, Saved> {
    map p | p in tale && p <= n :: tale[p]
  }

  lemma TellsUpTo(net: Net, text: seq<Token>, bound: nat, tale: map<nat, Saved>, n: nat, other: seq<Token>)
    requires TellsAll(net, text, bound, tale) && n <= bound && n <= |other| && other[..n] == text[..n]
    ensures TellsAll(net, other, n, UpTo(tale, n))
  {
    forall p | p in tale && p <= n
      ensures other[..p] == text[..p]
    {
      assert other[..n][..p] == other[..p] && text[..n][..p] == text[..p];
    }
  }

  lemma TellsPrefix(net: Net, text: seq<Token>, bound: nat, tale: map<nat, Saved>, other: seq<Token>, wider: nat)
    requires TellsAll(net, text, bound, tale) && bound <= wider <= |other| && other[..bound] == text[..bound]
    ensures TellsAll(net, other, wider, tale)
  {
    TellsUpTo(net, text, bound, tale, bound, other);
    assert UpTo(tale, bound) == tale;
  }

  /** `ordered` lists the keys upwards. */
  ghost predicate Orders(ordered: seq<nat>, keys: set<nat>) {
    Schedule.Ascending(ordered) && forall p :: p in ordered <==> p in keys
  }

  /** The mark to give up: of those between two others, the first with the closest neighbours. */
  ghost predicate IsVictim(keys: set<nat>, v: nat) {
    exists ordered, i :: VictimAt(keys, v, ordered, i)
  }

  ghost predicate VictimAt(keys: set<nat>, v: nat, ordered: seq<nat>, i: nat) {
    && Orders(ordered, keys) && 1 <= i < |ordered| - 1 && ordered[i] == v
    && (forall j :: 1 <= j < |ordered| - 1 ==> Gap(ordered, i) <= Gap(ordered, j))
    && (forall j :: 1 <= j < i ==> Gap(ordered, i) < Gap(ordered, j))
  }

  /** The marks on either side of `v`. */
  ghost predicate Neighbours(keys: set<nat>, v: nat, low: nat, high: nat) {
    && low in keys && v in keys && high in keys && low < v < high
    && forall p :: p in keys ==> p <= low || p == v || p >= high
  }

  /** The victim, over the marks themselves: its neighbours are the closest of any mark that
      has two, and closer than those of any such mark before it. */
  lemma VictimIsClosest(keys: set<nat>, v: nat) returns (low: nat, high: nat)
    requires IsVictim(keys, v)
    ensures Neighbours(keys, v, low, high)
    ensures forall u: nat, a: nat, b: nat :: Neighbours(keys, u, a, b) ==>
              high - low <= b - a && (u < v ==> high - low < b - a)
  {
    var ordered, i :| VictimAt(keys, v, ordered, i);
    low, high := ordered[i - 1], ordered[i + 1];
    NeighboursAt(ordered, keys, i);
    forall u: nat, a: nat, b: nat | Neighbours(keys, u, a, b)
      ensures high - low <= b - a && (u < v ==> high - low < b - a)
    {
      var k := PlaceOf(ordered, keys, u, a, b);
      Upwards(ordered, k, i);
      assert Gap(ordered, k) == b - a && Gap(ordered, i) == high - low;
    }
  }

  lemma NeighboursAt(ordered: seq<nat>, keys: set<nat>, i: nat)
    requires Orders(ordered, keys) && 1 <= i < |ordered| - 1
    ensures Neighbours(keys, ordered[i], ordered[i - 1], ordered[i + 1])
  {
    forall p | p in keys
      ensures p <= ordered[i - 1] || p == ordered[i] || p >= ordered[i + 1]
    {
      assert p in ordered;
      var m :| 0 <= m < |ordered| && ordered[m] == p;
      assert m < i - 1 ==> ordered[m] < ordered[i - 1];
      assert m > i + 1 ==> ordered[i + 1] < ordered[m];
    }
  }

  /** A mark with neighbours stands between them in order. */
  lemma PlaceOf(ordered: seq<nat>, keys: set<nat>, u: nat, a: nat, b: nat) returns (k: nat)
    requires Orders(ordered, keys) && Neighbours(keys, u, a, b)
    ensures 1 <= k < |ordered| - 1 && ordered[k] == u && ordered[k - 1] == a && ordered[k + 1] == b
  {
    assert u in ordered && a in ordered && b in ordered;
    k :| 0 <= k < |ordered| && ordered[k] == u;
    var x :| 0 <= x < |ordered| && ordered[x] == a;
    var y :| 0 <= y < |ordered| && ordered[y] == b;
    Upwards(ordered, x, k);
    Upwards(ordered, k, y);
    assert ordered[k - 1] in keys && ordered[k + 1] in keys;
    Upwards(ordered, k - 1, x);
    Upwards(ordered, y, k + 1);
  }

  lemma Upwards(ordered: seq<nat>, i: nat, k: nat)
    requires Schedule.Ascending(ordered) && i < |ordered| && k < |ordered|
    ensures ordered[i] < ordered[k] <==> i < k
  {
  }

  /** What marking a cut makes of the table: an entry that is there is kept, a new one
      takes free room or the place of the victim, and a table of ends only stays. */
  ghost predicate Marked(
      before: map<nat, Saved>, limit: nat, device: bool, end: nat, saved: Saved, after: map<nat, Saved>) {
    if limit == 0 || end in before || !device then after == before
    else if |before| < limit then after == before[end := saved]
    else if |before| < 3 then after == before
    else exists v: nat :: IsVictim(before.Keys, v) && after == (before - {v})[end := saved]
  }

  /** The longest mark of at most `most`. */
  ghost predicate IsLongest(tale: map<nat, Saved>, most: int, p: nat) {
    p in tale && p <= most && forall q :: q in tale && q <= most ==> q <= p
  }

  ghost function Longest(tale: map<nat, Saved>, most: int): (at: Option<nat>)
    ensures at.Some? ==> IsLongest(tale, most, at.value)
    ensures forall p: nat :: IsLongest(tale, most, p) ==> at == Some(p)
  {
    if exists p: nat :: IsLongest(tale, most, p) then (var p: nat :| IsLongest(tale, most, p); Some(p)) else None
  }

  /** Marks of the cuts in (low, high] were added; no other entry changed. */
  ghost predicate Grew(a: map<nat, Saved>, b: map<nat, Saved>, low: nat, high: nat) {
    low <= high && forall p :: p in b ==> Old(a, b, p) || low < p <= high
  }

  ghost predicate Old(a: map<nat, Saved>, b: map<nat, Saved>, p: nat)
    requires p in b
  {
    p in a && b[p] == a[p]
  }

  /** The added marks tell their prefixes of `text`. */
  ghost predicate NewTell(net: Net, text: seq<Token>, a: map<nat, Saved>, b: map<nat, Saved>) {
    forall p :: p in b ==> Old(a, b, p) || (0 < p <= |text| && Tells(net, text[..p], b[p]))
  }

  ghost predicate NewReady(a: map<nat, Saved>, b: map<nat, Saved>) {
    forall p :: p in b ==> Old(a, b, p) || b[p].ready
  }

  /** While there is room, nothing is evicted and every cut of `ends` is marked. */
  ghost predicate Roomy(a: map<nat, Saved>, b: map<nat, Saved>, ends: seq<Schedule.Span>, limit: nat, device: bool) {
    device && |a| + |ends| <= limit ==>
      && |b| <= |a| + |ends| && a.Keys <= b.Keys
      && forall i :: 0 <= i < |ends| ==> ends[i].1 in b
  }

  lemma GrewTrans(a: map<nat, Saved>, b: map<nat, Saved>, c: map<nat, Saved>, low: nat, mid: nat, high: nat)
    requires Grew(a, b, low, mid) && Grew(b, c, mid, high)
    ensures Grew(a, c, low, high)
  {
  }

  lemma ReadyTrans(a: map<nat, Saved>, b: map<nat, Saved>, c: map<nat, Saved>)
    requires NewReady(a, b) && NewReady(b, c)
    ensures NewReady(a, c)
  {
  }

  lemma TellTrans(net: Net, text: seq<Token>, a: map<nat, Saved>, b: map<nat, Saved>, c: map<nat, Saved>)
    requires NewTell(net, text, a, b) && NewTell(net, text, b, c)
    ensures NewTell(net, text, a, c)
  {
  }

  lemma RoomyTrans(
      a: map<nat, Saved>, b: map<nat, Saved>, c: map<nat, Saved>, ends: seq<Schedule.Span>, more: seq<Schedule.Span>,
      limit: nat, device: bool)
    requires Roomy(a, b, ends, limit, device) && Roomy(b, c, more, limit, device)
    ensures Roomy(a, c, ends + more, limit, device)
  {
  }

  lemma MapSize(m: map<nat, Saved>, p: nat, x: Saved)
    ensures |m[p := x]| <= |m| + 1
  {
    assert m[p := x].Keys == m.Keys + {p};
    assert |m.Keys| == |m| && |m[p := x].Keys| == |m[p := x]|;
  }

  /** Marking one cut, in those terms. */
  lemma MarkedGrew(a: map<nat, Saved>, limit: nat, device: bool, begin: nat, end: nat, x: Saved, b: map<nat, Saved>)
    requires Marked(a, limit, device, end, x, b) && begin < end
    ensures Grew(a, b, begin, end) && Roomy(a, b, [(begin, end)], limit, device)
  {
    MapSize(a, end, x);
  }

  lemma MarkedReady(a: map<nat, Saved>, limit: nat, device: bool, end: nat, x: Saved, b: map<nat, Saved>)
    requires Marked(a, limit, device, end, x, b) && x.ready
    ensures NewReady(a, b)
  {
  }

  lemma MarkedTells(
      net: Net, text: seq<Token>, a: map<nat, Saved>, limit: nat, device: bool, end: nat, x: Saved,
      b: map<nat, Saved>)
    requires Marked(a, limit, device, end, x, b) && 0 < end <= |text| && Tells(net, text[..end], x)
    ensures NewTell(net, text, a, b)
  {
  }

  /** Marks that all told the start of a text still do after true ones were added. */
  lemma TellsGrown(net: Net, text: seq<Token>, low: nat, high: nat, a: map<nat, Saved>, b: map<nat, Saved>)
    requires TellsAll(net, text, low, a) && Grew(a, b, low, high) && NewTell(net, text, a, b) && high <= |text|
    ensures TellsAll(net, text, high, b)
  {
  }

  /** Marks that told a text, and the new ones of its prefill. */
  lemma TellsWith(net: Net, text: seq<Token>, high: nat, low: nat, a: map<nat, Saved>, b: map<nat, Saved>)
    requires TellsAll(net, text, high, a) && NewTell(net, text, a, b) && Grew(a, b, low, high)
    ensures TellsAll(net, text, high, b)
  {
  }

  class MarkTable {
    /** How many marks the host may hold; 0 disables them. */
    const limit: nat
    var marks: map<nat, Mark>
    /** The pinned host buffers: a mark's, or out of use.  An evicted mark's are reused. */
    var buffers: seq<Gdn>

    ghost predicate Valid()
      reads this
    {
      && (forall p :: p in marks ==> p > 0 && marks[p].slot < |buffers|)
      && (forall p, q :: p in marks && q in marks && p != q ==> marks[p].slot != marks[q].slot)
    }

    ghost function Tale(): map<nat, Saved>
      requires Valid()
      reads this
    {
      map p | p in marks :: Saved(buffers[marks[p].slot], marks[p].ready, marks[p].carry)
    }

    constructor (limit: nat)
      ensures Valid() && marks == map[] && this.limit == limit
    {
      this.limit, marks, buffers := limit, map[], [];
    }

    method Ordered() returns (ordered: seq<nat>)
      ensures Schedule.Ascending(ordered)
      ensures forall p :: p in ordered <==> p in marks
    {
      ordered := [];
      var rest := marks.Keys;
      while rest != {}
        invariant rest <= marks.Keys
        invariant Schedule.Ascending(ordered)
        invariant forall p :: p in ordered <==> p in marks.Keys - rest
        decreases |rest|
      {
        var p :| p in rest;
        ordered := Schedule.Insert(p, ordered);
        rest := rest - {p};
      }
    }

    /** Take out the interior mark with the smallest gap, if the table has one. */
    method Evict() returns (slot: Option<nat>, v: nat)
      requires Valid()
      modifies this
      ensures Valid() && buffers == old(buffers) && Tale() == (if slot.None? then old(Tale()) else old(Tale()) - {v})
      ensures slot.None? <==> old(|marks|) < 3
      // Neither end of the table is ever given up.
      ensures slot.Some? ==> v in old(marks) && IsVictim(old(marks).Keys, v)
      ensures slot.Some? ==> slot.value < |buffers| && forall p :: p in marks ==> marks[p].slot != slot.value
    {
      var ordered := Ordered();
      OrderedSize(ordered, marks.Keys);
      assert |marks.Keys| == |marks|;
      if |ordered| < 3 {
        return None, 0;
      }
      var victim := Victim(ordered);
      v := ordered[victim];
      assert VictimAt(marks.Keys, v, ordered, victim);
      assert v in ordered;
      slot := Some(marks[v].slot);
      marks := marks - {v};
    }

    /** New buffers, filled with `g`. */
    method Pin(g: Gdn) returns (slot: nat)
      requires Valid()
      modifies this
      ensures Valid() && marks == old(marks) && Tale() == old(Tale())
      ensures slot < |buffers| && buffers[slot] == g && forall p :: p in marks ==> marks[p].slot != slot
    {
      slot := |buffers|;
      buffers := buffers + [g];
    }

    /** Fill the buffers of an evicted mark. */
    method Refill(slot: nat, g: Gdn)
      requires Valid() && slot < |buffers| && forall p :: p in marks ==> marks[p].slot != slot
      modifies this
      ensures Valid() && marks == old(marks) && Tale() == old(Tale())
      ensures |buffers| == old(|buffers|) && buffers[slot] == g
    {
      buffers := buffers[slot := g];
    }

    /** Buffers no mark uses, filled with `g`: new ones, or an evicted mark's. */
    method Slot(g: Gdn) returns (slot: Option<nat>, v: nat)
      requires Valid()
      modifies this
      ensures Valid()
      ensures slot.None? <==> old(|marks|) >= limit && old(|marks|) < 3
      ensures slot.None? ==> Tale() == old(Tale())
      ensures slot.Some? ==>
                && slot.value < |buffers| && buffers[slot.value] == g
                && forall p :: p in marks ==> marks[p].slot != slot.value
      ensures slot.Some? && old(|marks|) < limit ==> Tale() == old(Tale())
      ensures slot.Some? && old(|marks|) >= limit ==> IsVictim(old(marks).Keys, v) && Tale() == old(Tale()) - {v}
    {
      v := 0;
      if |marks| < limit {
        var n := Pin(g);
        slot := Some(n);
      } else {
        slot, v := Evict();
        if slot.Some? {
          Refill(slot.value, g);
        }
      }
    }

    /** A prefill has reached a cut: save its prefix. */
    method OnSpan(runner: Runner, end: nat, carry: Row)
      requires Valid() && runner.Valid() && end > 0
      modifies this
      ensures Valid()
      ensures Marked(old(Tale()), limit, runner.device, end, Saved(runner.gdn.g, runner.gdn.ready, carry), Tale())
    {
      TaleSize();
      if limit == 0 || end in marks || !runner.device {
        return;
      }
      var slot, v := Slot(runner.gdn.g);
      if slot.Some? {
        Keep(end, slot.value, runner.gdn.ready, carry);
      }
    }

    method Keep(end: nat, slot: nat, ready: bool, carry: Row)
      requires Valid() && end > 0 && slot < |buffers| && forall p :: p in marks ==> marks[p].slot != slot
      modifies this
      ensures Valid() && buffers == old(buffers) && Tale() == old(Tale())[end := Saved(buffers[slot], ready, carry)]
    {
      marks := marks[end := Mark(slot, ready, carry)];
    }

    lemma TaleSize()
      requires Valid()
      ensures |Tale()| == |marks| && Tale().Keys == marks.Keys
    {
      assert Tale().Keys == marks.Keys;
      assert |Tale().Keys| == |Tale()| && |marks.Keys| == |marks|;
    }

    method Clear()
      requires Valid()
      modifies this
      ensures Valid() && Tale() == map[]
    {
      marks := map[];
    }

    /** Forget the marks above `position`. */
    method DropAbove(position: nat)
      requires Valid()
      modifies this
      ensures Valid()
      ensures Tale() == UpTo(old(Tale()), position)
    {
      marks := map p | p in marks && p <= position :: marks[p];
    }

    /** The longest mark in (0, most]. */
    method Best(most: int) returns (best: Option<nat>)
      requires Valid()
      ensures best == Longest(Tale(), most)
    {
      var ordered := Ordered();
      best := None;
      for n := 0 to |ordered|
        invariant best.Some? ==> best.value in ordered && 0 < best.value <= most
        invariant forall i :: 0 <= i < n && ordered[i] <= most ==> best.Some? && ordered[i] <= best.value
      {
        assert ordered[n] in ordered;
        if 0 < ordered[n] <= most {
          best := Some(ordered[n]);
        }
      }
      assert best.Some? ==> IsLongest(Tale(), most, best.value);
      assert best.None? ==> forall p :: p in Tale() ==> p > most;
    }
  }

  /** A list of distinct keys is as long as there are keys. */
  lemma {:induction false} OrderedSize(ordered: seq<nat>, keys: set<nat>)
    requires Orders(ordered, keys)
    ensures |ordered| == |keys|
    decreases |ordered|
  {
    if ordered == [] {
      assert keys == {};
    } else {
      var last, rest := ordered[|ordered| - 1], ordered[..|ordered| - 1];
      assert last in ordered && ordered == rest + [last];
      assert Orders(rest, keys - {last});
      OrderedSize(rest, keys - {last});
      assert |keys| == |keys - {last}| + 1;
    }
  }

  function Gap(ordered: seq<nat>, i: nat): int
    requires 1 <= i < |ordered| - 1
  {
    (ordered[i + 1] as int) - ordered[i - 1]
  }

  /** The mark to give up: of those between two others, the first with the closest neighbours. */
  method Victim(ordered: seq<nat>) returns (v: nat)
    requires |ordered| >= 3
    ensures 1 <= v < |ordered| - 1
    ensures forall i :: 1 <= i < |ordered| - 1 ==> Gap(ordered, v) <= Gap(ordered, i)
    ensures forall i :: 1 <= i < v ==> Gap(ordered, v) < Gap(ordered, i)
  {
    v := 1;
    for n := 2 to |ordered| - 1
      invariant 1 <= v < n
      invariant forall i :: 1 <= i < n ==> Gap(ordered, v) <= Gap(ordered, i)
      invariant forall i :: 1 <= i < v ==> Gap(ordered, v) < Gap(ordered, i)
    {
      if Gap(ordered, n) < Gap(ordered, v) {
        v := n;
      }
    }
  }
}
