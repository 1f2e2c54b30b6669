/** Where a prefill is cut: at pages, and at the extra places a caller asks for. */
module Schedule {
  type Span = (nat, nat)

  /** Gap-free, nonempty spans that cover [start, stop) in order. */
  predicate Partition(spans: seq<Span>, start: nat, stop: nat) {
    && (if spans == [] then start == stop else spans[0].0 == start && spans[|spans| - 1].1 == stop)
    && (forall i :: 0 <= i < |spans| ==> spans[i].0 < spans[i].1)
    && (forall i :: 0 < i < |spans| ==> spans[i - 1].1 == spans[i].0)
  }

  lemma PartitionAppend(a: seq<Span>, b: seq<Span>, start: nat, mid: nat, stop: nat)
    requires Partition(a, start, mid) && Partition(b, mid, stop)
    ensures Partition(a + b, start, stop)
  {
    var c := a + b;
    forall i | 0 < i < |c|
      ensures c[i - 1].1 == c[i].0
    {
      if i == |a| {
        assert c[i - 1] == a[|a| - 1];
      }
    }
  }

  lemma {:induction false} SpanStartsInside(spans: seq<Span>, start: nat, stop: nat, i: nat)
    requires Partition(spans, start, stop) && i < |spans|
    ensures start <= spans[i].0
  {
    if i > 0 {
      SpanStartsInside(spans, start, stop, i - 1);
    }
  }

  lemma {:induction false} SpanEndsInside(spans: seq<Span>, start: nat, stop: nat, i: nat)
    requires Partition(spans, start, stop) && i < |spans|
    ensures spans[i].1 <= stop
    decreases |spans| - i
  {
    if i + 1 < |spans| {
      SpanEndsInside(spans, start, stop, i + 1);
    }
  }

  /** The positions where a mark can land. */
  function Ends(spans: seq<Span>): set<nat> {
    if spans == [] then {} else Ends(spans[..|spans| - 1]) + {spans[|spans| - 1].1}
  }

  lemma {:induction false} EndsAppend(a: seq<Span>, b: seq<Span>)
    ensures Ends(a + b) == Ends(a) + Ends(b)
    decreases |b|
  {
    if b == [] {
      assert a + b == a;
    } else {
      assert (a + b)[..|a + b| - 1] == a + b[..|b| - 1];
      EndsAppend(a, b[..|b| - 1]);
    }
  }

  function Min(a: nat, b: nat): nat { if a < b then a else b }

  function Times(k: nat, page: nat): nat { k * page }

  ghost predicate Aligned(n: nat, page: nat) {
    exists k: nat :: n == Times(k, page)
  }

  function PageFloor(n: nat, page: nat): (r: nat)
    requires page > 0
  {
    Times(n / page, page)
  }

  /** The page floor is the last page boundary at or below `n`. */
  lemma FloorIsLast(n: nat, page: nat)
    requires page > 0
    ensures PageFloor(n, page) <= n < PageFloor(n, page) + page
    ensures Aligned(PageFloor(n, page), page)
    ensures forall m: nat :: Aligned(m, page) && m <= n ==> m <= PageFloor(n, page)
  {
    assert n == page * (n / page) + n % page;
    forall k: nat | Times(k, page) <= n
      ensures Times(k, page) <= PageFloor(n, page)
    {
      if k > n / page {
        MulMono(n / page + 1, k, page);
      } else {
        MulMono(k, n / page, page);
      }
    }
  }

  lemma MulMono(a: nat, b: nat, p: nat)
    requires a <= b
    ensures a * p <= b * p
  {
  }

  /** Where the chunk that starts at `pos` ends. */
  function NextCut(pos: nat, seqlen: nat, chunk: nat, page: nat): nat
    requires page > 0
  {
    var end := Min(PageFloor(pos + chunk, page), seqlen);
    if pos < PageFloor(seqlen, page) <= end then PageFloor(seqlen, page) else end
  }

  /** A chunk makes progress, keeps to its size and to the pages, and stops at the
      last page boundary before it takes the final partial page. */
  lemma NextCutLaw(pos: nat, seqlen: nat, chunk: nat, page: nat)
    requires 0 < page <= chunk && pos < seqlen
    ensures var end := NextCut(pos, seqlen, chunk, page);
            && pos < end <= seqlen && end - pos <= chunk
            && (end < seqlen ==> Aligned(end, page))
            && (if pos < PageFloor(seqlen, page) then end <= PageFloor(seqlen, page)
                else (PageFloor(seqlen, page) <= pos
                      && (Aligned(pos, page) ==> pos == PageFloor(seqlen, page) && end == seqlen)))
  {
    FloorIsLast(seqlen, page);
    FloorIsLast(pos + chunk, page);
    if pos == PageFloor(seqlen, page) {
      FloorStep(pos, chunk, page, seqlen);
    }
  }

  /** Where a chunk may end: at the end, or at a page boundary, within its size; and not past
      the last page boundary from before it. */
  ghost predicate MayEnd(pos: nat, seqlen: nat, chunk: nat, page: nat, end: nat)
    requires page > 0
  {
    && pos < end <= seqlen && end - pos <= chunk && (end == seqlen || Aligned(end, page))
    && (pos < PageFloor(seqlen, page) ==> end <= PageFloor(seqlen, page))
  }

  /** It ends as far as it may. */
  lemma NextCutIsFarthest(pos: nat, seqlen: nat, chunk: nat, page: nat, m: nat)
    requires 0 < page <= chunk && pos < seqlen && MayEnd(pos, seqlen, chunk, page, m)
    ensures MayEnd(pos, seqlen, chunk, page, NextCut(pos, seqlen, chunk, page)) || pos > PageFloor(seqlen, page)
    ensures m <= NextCut(pos, seqlen, chunk, page)
  {
    NextCutLaw(pos, seqlen, chunk, page);
    FloorIsLast(seqlen, page);
    FloorIsLast(pos + chunk, page);
  }

  /** From the last page boundary, one chunk reaches the end. */
  lemma FloorStep(pos: nat, chunk: nat, page: nat, seqlen: nat)
    requires 0 < page <= chunk && pos == PageFloor(seqlen, page)
    ensures PageFloor(pos + chunk, page) >= pos + page > seqlen
  {
    FloorIsLast(seqlen, page);
    FloorIsLast(pos + chunk, page);
    var k := seqlen / page;
    assert Times(k + 1, page) == pos + page;
    assert Aligned(pos + page, page);
  }

  /** The cuts from `pos` to the end. */
  function BoundsTo(pos: nat, seqlen: nat, chunk: nat, page: nat): seq<Span>
    requires page > 0
    decreases if pos < seqlen then seqlen - pos else 0
  {
    var end := if pos < seqlen then NextCut(pos, seqlen, chunk, page) else pos;
    if end <= pos then [] else [(pos, end)] + BoundsTo(end, seqlen, chunk, page)
  }

  /** Spans of [start, length - 1) to prefill; the final id stays held. */
  method SuffixBounds(start: nat, length: nat, chunk: nat, page: nat) returns (bounds: seq<Span>)
    requires 0 < page <= chunk
    ensures bounds == if start + 1 < length then BoundsTo(start, length - 1, chunk, page) else []
  {
    bounds := [];
    if start + 1 >= length {
      return;
    }
    var pos, seqlen := start, length - 1;
    ghost var goal, rest := BoundsTo(start, seqlen, chunk, page), BoundsTo(start, seqlen, chunk, page);
    while pos < seqlen
      invariant rest == BoundsTo(pos, seqlen, chunk, page) && bounds + rest == goal && pos <= seqlen
    {
      var end := NextCut(pos, seqlen, chunk, page);
      // `end <= pos` would leave the loop here; with chunk >= page it cannot hold.
      NextCutLaw(pos, seqlen, chunk, page);
      rest := BoundsUnfold(pos, seqlen, chunk, page, rest, bounds);
      bounds := bounds + [(pos, end)];
      pos := end;
    }
  }

  lemma BoundsUnfold(
      pos: nat, seqlen: nat, chunk: nat, page: nat, rest: seq<Span>, bounds: seq<Span>)
      returns (later: seq<Span>)
    requires 0 < page <= chunk && pos < seqlen && rest == BoundsTo(pos, seqlen, chunk, page)
    ensures var end := NextCut(pos, seqlen, chunk, page);
            later == BoundsTo(end, seqlen, chunk, page) && (bounds + [(pos, end)]) + later == bounds + rest
  {
    var end := NextCut(pos, seqlen, chunk, page);
    NextCutLaw(pos, seqlen, chunk, page);
    later := BoundsTo(end, seqlen, chunk, page);
    Regroup(bounds, (pos, end), later);
  }

  lemma Regroup(a: seq<Span>, x: Span, b: seq<Span>)
    ensures (a + [x]) + b == a + ([x] + b)
  {
  }

  /** The cuts partition the range; a span is at most a chunk, every cut but the last lies
      on a page, and the final partial page stands alone, unless the range starts in it. */
  lemma {:induction false} BoundsLaw(pos: nat, seqlen: nat, chunk: nat, page: nat)
    requires 0 < page <= chunk && pos <= seqlen
    ensures var b := BoundsTo(pos, seqlen, chunk, page);
            && Partition(b, pos, seqlen)
            && (forall i :: 0 <= i < |b| ==> b[i].1 - b[i].0 <= chunk)
            && (forall i :: 0 <= i < |b| - 1 ==> Aligned(b[i].1, page))
            && (pos < PageFloor(seqlen, page) < seqlen ==> b != [] && b[|b| - 1] == (PageFloor(seqlen, page), seqlen))
    decreases seqlen - pos
  {
    if pos < seqlen {
      NextCutLaw(pos, seqlen, chunk, page);
      var end := NextCut(pos, seqlen, chunk, page);
      var rest := BoundsTo(end, seqlen, chunk, page);
      BoundsLaw(end, seqlen, chunk, page);
      PartitionAppend([(pos, end)], rest, pos, end, seqlen);
      if end == PageFloor(seqlen, page) < seqlen {
        FloorIsLast(seqlen, page);
        NextCutLaw(end, seqlen, chunk, page);
        assert rest == [(end, seqlen)] + BoundsTo(seqlen, seqlen, chunk, page);
      }
    }
  }

  /** Insert `x` in an ascending list unless it is there. */
  function Insert(x: nat, xs: seq<nat>): (r: seq<nat>)
    requires Ascending(xs)
    ensures Ascending(r)
    ensures forall y :: y in r <==> y == x || y in xs
    ensures r != [] && r[0] == if xs == [] || x < xs[0] then x else xs[0]
    decreases |xs|
  {
    if xs == [] then [x]
    else if x < xs[0] then [x] + xs
    else if x == xs[0] then xs
    else
      assert Ascending(xs[1..]);
      var r := Insert(x, xs[1..]);
      assert xs == [xs[0]] + xs[1..];
      [xs[0]] + r
  }

  predicate Ascending(xs: seq<nat>) {
    forall i, j :: 0 <= i < j < |xs| ==> xs[i] < xs[j]
  }

  /** The distinct cuts strictly inside a span, in order. */
  function Inner(cuts: seq<nat>, begin: nat, end: nat): (r: seq<nat>)
    ensures Ascending(r)
    ensures forall y :: y in r <==> y in cuts && begin < y < end
  {
    if cuts == [] then []
    else
      var rest := Inner(cuts[1..], begin, end);
      assert forall y :: y in cuts <==> y == cuts[0] || y in cuts[1..];
      if begin < cuts[0] < end then Insert(cuts[0], rest) else rest
  }

  /** The cuts of `cuts` strictly inside a span, as a set. */
  function Hits(span: Span, cuts: seq<nat>): set<nat> {
    set c | c in cuts && span.0 < c < span.1
  }

  function AllHits(spans: seq<Span>, cuts: seq<nat>): set<nat> {
    if spans == [] then {} else AllHits(spans[..|spans| - 1], cuts) + Hits(spans[|spans| - 1], cuts)
  }

  /** A span cut at the given places. */
  function Pieces(begin: nat, inner: seq<nat>, end: nat): (r: seq<Span>)
    ensures r != [] && r[0].0 == begin
    decreases |inner|
  {
    if inner == [] then [(begin, end)] else [(begin, inner[0])] + Pieces(inner[0], inner[1..], end)
  }

  lemma PiecesUnfold(
      begin: nat, inner: seq<nat>, m: nat, end: nat, rest: seq<Span>, out: seq<Span>)
      returns (later: seq<Span>)
    requires m < |inner| && rest == Pieces(begin, inner[m..], end)
    ensures later == Pieces(inner[m], inner[m + 1..], end) && (out + [(begin, inner[m])]) + later == out + rest
  {
    assert inner[m..][0] == inner[m] && inner[m..][1..] == inner[m + 1..];
    later := Pieces(inner[m], inner[m + 1..], end);
    Regroup(out, (begin, inner[m]), later);
  }

  function SplitAll(spans: seq<Span>, cuts: seq<nat>): seq<Span> {
    if spans == [] then []
    else SplitAll(spans[..|spans| - 1], cuts)
         + Pieces(spans[|spans| - 1].0, Inner(cuts, spans[|spans| - 1].0, spans[|spans| - 1].1), spans[|spans| - 1].1)
  }

  method SplitOne(span: Span, cuts: seq<nat>) returns (out: seq<Span>)
    ensures out == Pieces(span.0, Inner(cuts, span.0, span.1), span.1)
  {
    out := [];
    var begin := span.0;
    var inner := Inner(cuts, span.0, span.1);
    assert inner[0..] == inner;
    ghost var goal, rest := Pieces(span.0, inner, span.1), Pieces(span.0, inner, span.1);
    for m := 0 to |inner|
      invariant rest == Pieces(begin, inner[m..], span.1) && out + rest == goal
    {
      rest := PiecesUnfold(begin, inner, m, span.1, rest, out);
      out := out + [(begin, inner[m])];
      begin := inner[m];
    }
    out := out + [(begin, span.1)];
  }

  /** Every span cut at the extra places inside it. */
  method SplitSpans(spans: seq<Span>, cuts: seq<nat>) returns (out: seq<Span>)
    ensures out == SplitAll(spans, cuts)
  {
    out := [];
    for n := 0 to |spans|
      invariant out == SplitAll(spans[..n], cuts)
    {
      var pieces := SplitOne(spans[n], cuts);
      assert spans[..n + 1][..n] == spans[..n];
      out := out + pieces;
    }
    assert spans[..|spans|] == spans;
  }

  lemma {:induction false} PiecesEnds(begin: nat, inner: seq<nat>, end: nat)
    ensures forall e :: e in Ends(Pieces(begin, inner, end)) <==> e == end || e in inner
    decreases |inner|
  {
    if inner == [] {
      var one := [(begin, end)];
      assert one[..0] == [] && Ends(one) == Ends(one[..0]) + {end};
    } else {
      var one := [(begin, inner[0])];
      assert one[..0] == [] && Ends(one) == Ends(one[..0]) + {inner[0]};
      PiecesEnds(inner[0], inner[1..], end);
      EndsAppend(one, Pieces(inner[0], inner[1..], end));
      assert inner == [inner[0]] + inner[1..];
    }
  }

  /** The old cuts stay, every interior extra cut is hit, and no other cut appears. */
  lemma {:induction false} SplitEnds(spans: seq<Span>, cuts: seq<nat>)
    ensures Ends(SplitAll(spans, cuts)) == Ends(spans) + AllHits(spans, cuts)
    decreases |spans|
  {
    if spans != [] {
      var last := spans[|spans| - 1];
      var before, pieces := SplitAll(spans[..|spans| - 1], cuts), Pieces(last.0, Inner(cuts, last.0, last.1), last.1);
      SplitEnds(spans[..|spans| - 1], cuts);
      PiecesEnds(last.0, Inner(cuts, last.0, last.1), last.1);
      EndsAppend(before, pieces);
      assert Ends(pieces) == {last.1} + Hits(last, cuts);
    }
  }

  lemma {:induction false} PiecesPartition(begin: nat, inner: seq<nat>, end: nat)
    requires begin < end && Ascending(inner) && forall i :: 0 <= i < |inner| ==> begin < inner[i] < end
    ensures Partition(Pieces(begin, inner, end), begin, end)
    decreases |inner|
  {
    if inner != [] {
      var rest := inner[1..];
      assert forall i :: 0 <= i < |rest| ==> rest[i] == inner[i + 1];
      PiecesPartition(inner[0], rest, end);
      PartitionAppend([(begin, inner[0])], Pieces(inner[0], rest, end), begin, inner[0], end);
    }
  }

  lemma {:induction false} SplitPartition(spans: seq<Span>, cuts: seq<nat>, start: nat, stop: nat)
    requires Partition(spans, start, stop)
    ensures Partition(SplitAll(spans, cuts), start, stop)
    decreases |spans|
  {
    if spans != [] {
      var last := spans[|spans| - 1];
      SplitPartition(spans[..|spans| - 1], cuts, start, last.0);
      var inner := Inner(cuts, last.0, last.1);
      assert forall i :: 0 <= i < |inner| ==> inner[i] in inner;
      PiecesPartition(last.0, inner, last.1);
      PartitionAppend(SplitAll(spans[..|spans| - 1], cuts), Pieces(last.0, Inner(cuts, last.0, last.1), last.1),
          start, last.0, last.1);
    }
  }

  /** The spans of a prefill partition it. */
  lemma SpansPartition(start: nat, length: nat, cuts: seq<nat>)
    requires start + 1 < length
    ensures var spans := SplitAll(BoundsTo(start, length - 1, 8192, 256), cuts);
            && Partition(spans, start, length - 1) && spans != []
            && forall i :: 0 <= i < |spans| ==> spans[i].0 < spans[i].1 < length
  {
    BoundsLaw(start, length - 1, 8192, 256);
    SplitPartition(BoundsTo(start, length - 1, 8192, 256), cuts, start, length - 1);
    var spans := SplitAll(BoundsTo(start, length - 1, 8192, 256), cuts);
    forall i | 0 <= i < |spans|
      ensures spans[i].1 < length
    {
      SpanEndsInside(spans, start, length - 1, i);
    }
  }

  /** The page cuts of a prompt from `start` on; the final id stays held. */
  function Bounds(start: nat, length: nat): (spans: seq<Span>)
    ensures spans == [] <==> start + 1 >= length
    ensures spans != [] ==> Partition(spans, start, length - 1)
    ensures forall i :: 0 <= i < |spans| ==> spans[i].0 < spans[i].1 < length
  {
    if start + 1 < length then
      BoundsInside(start, length);
      BoundsTo(start, length - 1, 8192, 256)
    else []
  }

  lemma BoundsInside(start: nat, length: nat)
    requires start + 1 < length
    ensures var spans := BoundsTo(start, length - 1, 8192, 256);
            && Partition(spans, start, length - 1) && spans != []
            && forall i :: 0 <= i < |spans| ==> spans[i].0 < spans[i].1 < length
  {
    BoundsLaw(start, length - 1, 8192, 256);
    var spans := BoundsTo(start, length - 1, 8192, 256);
    forall i | 0 <= i < |spans|
      ensures spans[i].1 < length
    {
      SpanEndsInside(spans, start, length - 1, i);
    }
  }

  /** The page cuts of a turn that forwards its last id too, by itself. */
  function Whole(start: nat, length: nat): (spans: seq<Span>)
    requires start <= length
    ensures Partition(spans, start, length)
    ensures forall i :: 0 <= i < |spans| ==> spans[i].0 < spans[i].1 <= length
  {
    if start < length then
      PartitionAppend(Bounds(start, length), [(length - 1, length)], start, length - 1, length);
      Bounds(start, length) + [(length - 1, length)]
    else []
  }

  /** The spans of a prefill: the page cuts, split where a mark should land. */
  function SpansOf(start: nat, length: nat, cuts: seq<nat>): (spans: seq<Span>)
    ensures spans == [] <==> start + 1 >= length
    ensures spans != [] ==> Partition(spans, start, length - 1)
    ensures forall i :: 0 <= i < |spans| ==> spans[i].0 < spans[i].1 < length
  {
    if start + 1 < length then
      SpansPartition(start, length, cuts);
      SplitAll(BoundsTo(start, length - 1, 8192, 256), cuts)
    else []
  }

  /** The first span ends at the first page cut, or at an extra cut before it. */
  lemma {:induction false} FirstPiece(spans: seq<Span>, cuts: seq<nat>)
    requires spans != []
    ensures var out := SplitAll(spans, cuts); out != [] && (out[0].1 == spans[0].1 || out[0].1 in cuts)
    decreases |spans|
  {
    if |spans| > 1 {
      FirstPiece(spans[..|spans| - 1], cuts);
    } else {
      assert spans[..0] == [];
      var inner := Inner(cuts, spans[0].0, spans[0].1);
      assert inner != [] ==> inner[0] in inner;
    }
  }

  /** A cold prompt's first span is long, when the prompt and the extra cuts are. */
  lemma FirstIsLong(length: nat, cuts: seq<nat>, floor: nat)
    requires floor <= 256 && floor < length && 1 < length && forall c :: c in cuts ==> c >= floor
    ensures SpansOf(0, length, cuts) != [] && SpansOf(0, length, cuts)[0].1 >= floor
  {
    var stop := length - 1;
    FirstCutLong(stop);
    FirstPiece(BoundsTo(0, stop, 8192, 256), cuts);
  }

  lemma FirstCutLong(stop: nat)
    requires stop > 0
    ensures var bounds := BoundsTo(0, stop, 8192, 256);
            bounds != [] && bounds[0].0 == 0 && (bounds[0].1 == stop || bounds[0].1 >= 256)
  {
    NextCutLaw(0, stop, 8192, 256);
    var end := NextCut(0, stop, 8192, 256);
    if end < stop {
      var k: nat :| end == Times(k, 256);
      MulMono(1, k, 256);
    }
  }

  /** Within the first page a prefill is one span. */
  lemma OneSpan(start: nat, length: nat)
    requires start + 1 < length <= 256
    ensures SpansOf(start, length, []) == [(start, length - 1)]
  {
    var stop := length - 1;
    assert PageFloor(stop, 256) == 0;
    FloorIsLast(start + 8192, 256);
    assert BoundsTo(start, stop, 8192, 256) == [(start, stop)] + BoundsTo(stop, stop, 8192, 256);
    assert BoundsTo(stop, stop, 8192, 256) == [];
    var bounds := [(start, stop)];
    assert bounds[..0] == [] && SplitAll([], []) == [];
    assert SplitAll(bounds, []) == SplitAll(bounds[..0], []) + Pieces(start, Inner([], start, stop), stop);
  }
}
