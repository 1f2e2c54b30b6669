/** The final output in streamed order, and the index each item is closed under. */
module OrderedOutput {
  import opened ResponsesStream

  /** A stable sort by the position among the streamed ids; new ids go last. */
  function Ordered(items: seq<string>, output: seq<Item>): (r: seq<Item>)
    ensures |r| == |output|
  {
    if output == [] then [] else Insert(items, output[0], Ordered(items, output[1..]))
  }

  function Insert(items: seq<string>, x: Item, xs: seq<Item>): (r: seq<Item>)
    ensures |r| == |xs| + 1
  {
    if xs == [] || Key(items, x.id) <= Key(items, xs[0].id) then [x] + xs else [xs[0]] + Insert(items, x, xs[1..])
  }

  predicate InOrder(items: seq<string>, xs: seq<Item>) {
    forall i, j :: 0 <= i < j < |xs| ==> Key(items, xs[i].id) <= Key(items, xs[j].id)
  }

  lemma {:induction false} InsertKeeps(items: seq<string>, x: Item, xs: seq<Item>)
    ensures multiset(Insert(items, x, xs)) == multiset(xs) + multiset{x}
    ensures forall y :: y in Insert(items, x, xs) <==> y == x || y in xs
    decreases |xs|
  {
    if xs != [] && Key(items, x.id) > Key(items, xs[0].id) {
      InsertKeeps(items, x, xs[1..]);
      assert xs == [xs[0]] + xs[1..];
    }
  }

  lemma {:induction false} InsertIs(items: seq<string>, x: Item, xs: seq<Item>)
    requires InOrder(items, xs)
    ensures InOrder(items, Insert(items, x, xs))
    decreases |xs|
  {
    if xs != [] && Key(items, x.id) > Key(items, xs[0].id) {
      InsertIs(items, x, xs[1..]);
      InsertKeeps(items, x, xs[1..]);
      var rest := Insert(items, x, xs[1..]);
      forall j | 0 <= j < |rest|
        ensures Key(items, xs[0].id) <= Key(items, rest[j].id)
      {
        assert rest[j] in rest;
        if rest[j] != x {
          var i :| 0 <= i < |xs[1..]| && xs[1..][i] == rest[j];
          assert xs[i + 1] == rest[j];
        }
      }
    }
  }

  /** The sort permutes the output into the streamed order. */
  lemma {:induction false} OrderedIs(items: seq<string>, output: seq<Item>)
    ensures InOrder(items, Ordered(items, output)) && multiset(Ordered(items, output)) == multiset(output)
    decreases |output|
  {
    if output != [] {
      OrderedIs(items, output[1..]);
      InsertIs(items, output[0], Ordered(items, output[1..]));
      InsertKeeps(items, output[0], Ordered(items, output[1..]));
      assert output == [output[0]] + output[1..];
    }
  }

  /** The items of one key, in their order. */
  function Alike(items: seq<string>, key: nat, xs: seq<Item>): seq<Item> {
    if xs == [] then []
    else (if Key(items, xs[0].id) == key then [xs[0]] else []) + Alike(items, key, xs[1..])
  }

  lemma {:induction false} InsertStable(items: seq<string>, x: Item, xs: seq<Item>, key: nat)
    requires InOrder(items, xs)
    ensures Alike(items, key, Insert(items, x, xs))
         == (if Key(items, x.id) == key then [x] else []) + Alike(items, key, xs)
    decreases |xs|
  {
    if xs == [] || Key(items, x.id) <= Key(items, xs[0].id) {
      assert ([x] + xs)[1..] == xs;
    } else {
      var rest := Insert(items, x, xs[1..]);
      InsertStable(items, x, xs[1..], key);
      assert ([xs[0]] + rest)[1..] == rest;
      if Key(items, x.id) == key {
        NoneBelow(items, xs, key);
      }
    }
  }

  /** A first item of a smaller key is not of this one. */
  lemma NoneBelow(items: seq<string>, xs: seq<Item>, key: nat)
    requires xs != [] && Key(items, xs[0].id) < key
    ensures Alike(items, key, xs) == Alike(items, key, xs[1..])
  {
  }

  /** The sort is stable: items with one key, the new ones among them, keep their order. */
  lemma {:induction false} OrderedStable(items: seq<string>, output: seq<Item>, key: nat)
    ensures Alike(items, key, Ordered(items, output)) == Alike(items, key, output)
    decreases |output|
  {
    if output != [] {
      OrderedIs(items, output[1..]);
      OrderedStable(items, output[1..], key);
      InsertStable(items, output[0], Ordered(items, output[1..]), key);
    }
  }

  predicate Present(ids: seq<string>, id: string) {
    id in ids
  }

  /** What the output must keep of the streamed ids: an initial part of them, and all of
      them as soon as it holds an id that was never streamed. */
  predicate KeepsStream(items: seq<string>, ids: seq<string>) {
    && (forall p, q :: 0 <= p < q < |items| && Present(ids, items[q]) ==> Present(ids, items[p]))
    && (forall k, p :: 0 <= k < |ids| && ids[k] !in items && 0 <= p < |items| ==> Present(ids, items[p]))
  }

  predicate Aligned(indices: seq<nat>) {
    forall k :: 0 <= k < |indices| ==> indices[k] == k
  }

  predicate Sorted(items: seq<string>, ids: seq<string>) {
    forall i, j :: 0 <= i < j < |ids| ==> Key(items, ids[i]) <= Key(items, ids[j])
  }

  /** In streamed order, a kept initial part stands exactly at its own positions. */
  lemma {:induction false} KeyIsPlace(items: seq<string>, ids: seq<string>, k: nat)
    requires Distinct(items) && Distinct(ids) && Sorted(items, ids) && KeepsStream(items, ids) && k < |ids|
    ensures Key(items, ids[k]) == if k < |items| then k else |items|
    decreases k
  {
    var key := Key(items, ids[k]);
    if k > 0 {
      KeyIsPlace(items, ids, k - 1);
    }
    // Not below its place: that place belongs to an earlier id.
    if key < k && key < |items| {
      KeyIsPlace(items, ids, key);
    }
    // Not above: the streamed id of this place is present, and would come later.
    if k < |items| && key > k {
      assert key < |items| ==> Present(ids, items[key]);
      assert key == |items| ==> ids[k] !in items;
      assert Present(ids, items[k]);
      var j :| 0 <= j < |ids| && ids[j] == items[k];
      if j < k {
        KeyIsPlace(items, ids, j);
      }
    }
  }

  /** Ids at or past the place where the streamed ones end are new, and count on. */
  lemma {:induction false} AssignFrom(items: seq<string>, ids: seq<string>, k: nat)
    requires Distinct(items) && Distinct(ids) && k <= |ids|
    requires forall j :: k <= j < |ids| ==> if j < |items| then ids[j] == items[j] else ids[j] !in items
    requires k < |items| || k == |items|
    ensures forall j :: 0 <= j < |ids| - k ==> Assign(items, ids[k..])[j] == k + j
    decreases |ids| - k
  {
    if k < |ids| {
      var rest := ids[k..];
      assert rest[0] == ids[k] && rest[1..] == ids[k + 1..];
      var grown := Grown(items, ids[k]);
      AssignFrom(grown, ids, k + 1);
      assert Key(items, ids[k]) == k;
      assert Assign(items, rest) == [k] + Assign(grown, ids[k + 1..]);
    }
  }

  /** The k-th item of the ordered output is closed under index k, for every k, exactly
      when the output keeps an initial part of the streamed ids, and all of them if it
      holds a new one. */
  lemma OrderedIsAligned(items: seq<string>, output: seq<Item>)
    requires Distinct(items) && Distinct(Ids(output))
    ensures Aligned(Assign(items, Ids(Ordered(items, output)))) <==> KeepsStream(items, Ids(output))
  {
    var ids := Ids(Ordered(items, output));
    OrderedIs(items, output);
    OrderedIds(items, output);
    SortedIds(items, Ordered(items, output));
    KeepsSame(items, Ids(output), ids);
    SortedAligned(items, ids);
  }

  lemma SortedIds(items: seq<string>, xs: seq<Item>)
    requires InOrder(items, xs)
    ensures Sorted(items, Ids(xs))
  {
  }

  lemma KeepsSame(items: seq<string>, a: seq<string>, b: seq<string>)
    requires forall id :: id in a <==> id in b
    ensures KeepsStream(items, a) <==> KeepsStream(items, b)
  {
    forall id
      ensures Present(a, id) == Present(b, id)
    {
    }
    forall x, y: seq<string> | (x == a && y == b) || (x == b && y == a)
      ensures KeepsStream(items, x) ==> KeepsStream(items, y)
    {
      if KeepsStream(items, x) {
        forall k, p | 0 <= k < |y| && y[k] !in items && 0 <= p < |items|
          ensures Present(y, items[p])
        {
          assert y[k] in x;
        }
      }
    }
  }

  lemma SortedAligned(items: seq<string>, ids: seq<string>)
    requires Distinct(items) && Distinct(ids) && Sorted(items, ids)
    ensures Aligned(Assign(items, ids)) <==> KeepsStream(items, ids)
  {
    if KeepsStream(items, ids) {
      forall k | 0 <= k < |ids|
        ensures if k < |items| then ids[k] == items[k] else ids[k] !in items
      {
        KeyIsPlace(items, ids, k);
      }
      AssignFrom(items, ids, 0);
      assert ids[0..] == ids;
    } else if Aligned(Assign(items, ids)) {
      AlignedKeeps(items, ids);
    }
  }

  lemma AlignedKeeps(items: seq<string>, ids: seq<string>)
    requires Distinct(items) && Sorted(items, ids) && Aligned(Assign(items, ids))
    ensures KeepsStream(items, ids)
  {
    forall p, q | 0 <= p < q < |items| && Present(ids, items[q])
      ensures Present(ids, items[p])
    {
      var k :| 0 <= k < |ids| && ids[k] == items[q];
      KnownUpTo(items, ids, k);
      PlaceKnown(items, ids, k);
      PlaceKnown(items, ids, p);
    }
    forall k, p | 0 <= k < |ids| && ids[k] !in items && 0 <= p < |items|
      ensures Present(ids, items[p])
    {
      var n := FirstNew(items, ids, k);
      AssignKnown(items, ids, n);
      PlaceKnown(items, ids, p);
    }
  }

  /** In streamed order everything up to a streamed id is streamed. */
  lemma KnownUpTo(items: seq<string>, ids: seq<string>, k: nat)
    requires Sorted(items, ids) && k < |ids| && ids[k] in items
    ensures forall j :: 0 <= j <= k ==> ids[j] in items
  {
    forall j | 0 <= j < k
      ensures ids[j] in items
    {
      assert Key(items, ids[j]) <= Key(items, ids[k]);
    }
  }

  lemma {:induction false} FirstNew(items: seq<string>, ids: seq<string>, k: nat) returns (n: nat)
    requires k < |ids| && ids[k] !in items
    ensures n <= k && ids[n] !in items && forall j :: 0 <= j < n ==> ids[j] in items
    decreases k
  {
    n := k;
    if j :| 0 <= j < k && ids[j] !in items {
      n := FirstNew(items, ids, j);
    }
  }

  /** Among streamed ids, aligned indices are the streamed places. */
  lemma PlaceKnown(items: seq<string>, ids: seq<string>, q: nat)
    requires Distinct(items) && Aligned(Assign(items, ids)) && q < |ids| && forall j :: 0 <= j <= q ==> ids[j] in items
    ensures q < |items| && ids[q] == items[q]
  {
    AssignKnown(items, ids, q);
  }

  lemma {:induction false} OrderedIds(items: seq<string>, output: seq<Item>)
    requires Distinct(Ids(output))
    ensures Distinct(Ids(Ordered(items, output)))
    ensures forall id :: id in Ids(Ordered(items, output)) <==> id in Ids(output)
    decreases |output|
  {
    if output != [] {
      var rest := output[1..];
      assert output == [output[0]] + rest;
      DistinctCons(output[0], rest);
      OrderedIds(items, rest);
      InsertIds(items, output[0], Ordered(items, rest));
    }
  }

  lemma {:induction false} InsertIds(items: seq<string>, x: Item, xs: seq<Item>)
    ensures forall id :: id in Ids(Insert(items, x, xs)) <==> id == x.id || id in Ids(xs)
    ensures x.id !in Ids(xs) && Distinct(Ids(xs)) ==> Distinct(Ids(Insert(items, x, xs)))
    decreases |xs|
  {
    DistinctCons(x, xs);
    if xs != [] && Key(items, x.id) > Key(items, xs[0].id) {
      assert xs == [xs[0]] + xs[1..];
      DistinctCons(xs[0], xs[1..]);
      InsertIds(items, x, xs[1..]);
      DistinctCons(xs[0], Insert(items, x, xs[1..]));
    }
  }

  lemma DistinctCons(x: Item, xs: seq<Item>)
    ensures Distinct(Ids([x] + xs)) <==> x.id !in Ids(xs) && Distinct(Ids(xs))
    ensures forall id :: id in Ids([x] + xs) <==> id == x.id || id in Ids(xs)
  {
    assert Ids([x] + xs) == [x.id] + Ids(xs);
    var all, ids := [x.id] + Ids(xs), Ids(xs);
    if Distinct(all) {
      forall i | 0 <= i < |ids|
        ensures ids[i] != x.id
      {
        assert all[0] != all[i + 1] && all[i + 1] == ids[i];
      }
      forall i, j | 0 <= i < j < |ids|
        ensures ids[i] != ids[j]
      {
        assert all[i + 1] == ids[i] && all[j + 1] == ids[j];
      }
    }
  }

  /** The index of the first new id counts every streamed one. */
  lemma {:induction false} AssignKnown(items: seq<string>, ids: seq<string>, k: nat)
    requires k < |ids| && forall j :: 0 <= j < k ==> ids[j] in items
    ensures Assign(items, ids)[k] == Key(items, ids[k])
    decreases k
  {
    if k > 0 {
      assert ids[1..][k - 1] == ids[k];
      forall j | 0 <= j < k - 1
        ensures ids[1..][j] in items
      {
        assert ids[1..][j] == ids[j + 1];
      }
      AssignKnown(items, ids[1..], k - 1);
    }
  }
}
