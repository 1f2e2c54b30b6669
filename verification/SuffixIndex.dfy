/** Drafts copied from the text: a table from each recent gram to where it last ended. */
module SuffixIndex {
  import opened Options
  import opened Target

  /** What an index is made with: the length of its grams, and the first position it holds. */
  datatype Grams = Grams(n: nat, first: nat)

  type Index = g: Grams | 1 <= g.n <= g.first witness Grams(1, 1)

  /** The index of a history of that length, of which it holds the last `span` positions. */
  function IndexOver(length: nat, n: nat, span: nat): Index
    requires 1 <= n
  {
    Grams(n, if length - span > n then length - span else n)
  }

  /** The `n` ids that end just before position `e`. */
  function Gram(tokens: seq<Token>, n: nat, e: nat): seq<Token>
    requires n <= e <= |tokens|
  {
    tokens[e - n..e]
  }

  /** The reference: scan down from `top` for the last position that follows `gram`. */
  function Scan(tokens: seq<Token>, n: nat, first: nat, top: nat, gram: seq<Token>): Option<nat>
    requires n <= first && top <= |tokens|
    decreases top
  {
    if top <= first then None
    else if Gram(tokens, n, top - 1) == gram then Some(top - 1)
    else Scan(tokens, n, first, top - 1, gram)
  }

  /** `after` maps each gram of the positions in [first, top) to its last one. */
  ghost predicate Indexed(tokens: seq<Token>, n: nat, first: nat, top: nat, after: map<seq<Token>, nat>)
    requires n <= first
  {
    && (forall g :: g in after ==>
          first <= after[g] < top && after[g] < |tokens| && Gram(tokens, n, after[g]) == g)
    && (forall e :: first <= e < top && e < |tokens| ==>
          Gram(tokens, n, e) in after && e <= after[Gram(tokens, n, e)])
  }

  /** The table answers as the scan does. */
  lemma {:induction false} IndexAgreesWithScan(
      tokens: seq<Token>, n: nat, first: nat, top: nat, after: map<seq<Token>, nat>, gram: seq<Token>, at: nat)
    requires n <= first && at <= top <= |tokens| && Indexed(tokens, n, first, top, after)
    requires gram in after ==> after[gram] < at
    ensures Scan(tokens, n, first, at, gram) == if gram in after then Some(after[gram]) else None
    decreases at
  {
    if at > first && Gram(tokens, n, at - 1) != gram {
      IndexAgreesWithScan(tokens, n, first, top, after, gram, at - 1);
    }
  }

  lemma GramsKeep(tokens: seq<Token>, more: seq<Token>, n: nat, e: nat)
    requires n <= e <= |tokens|
    ensures Gram(tokens + more, n, e) == Gram(tokens, n, e)
  {
  }

  /** Indexing position `top` makes it the last one of its gram. */
  lemma IndexOne(tokens: seq<Token>, n: nat, first: nat, top: nat, after: map<seq<Token>, nat>)
    requires n <= first <= top < |tokens| && Indexed(tokens, n, first, top, after)
    ensures Indexed(tokens, n, first, top + 1, after[Gram(tokens, n, top) := top])
  {
  }

  /** Appending an id leaves every gram, and so the table, as it was. */
  lemma Grow(tokens: seq<Token>, t: Token, n: nat, first: nat, after: map<seq<Token>, nat>)
    requires n <= first && Indexed(tokens, n, first, |tokens|, after)
    ensures Indexed(tokens + [t], n, first, |tokens|, after)
    ensures n <= |tokens| ==> Gram(tokens + [t], n, |tokens|) == Gram(tokens, n, |tokens|)
  {
    forall e | n <= e <= |tokens|
      ensures Gram(tokens + [t], n, e) == Gram(tokens, n, e)
    {
      GramsKeep(tokens, [t], n, e);
    }
  }

  /** The reference proposal: what followed the last occurrence of history + held. */
  function Copied(tokens: seq<Token>, n: nat, first: nat, held: Token, steps: nat): (r: Option<seq<Token>>)
    requires 1 <= n <= first
  {
    if |tokens| < n - 1 then None
    else
      var found := Scan(tokens, n, first, |tokens|, tokens[|tokens| - (n - 1)..] + [held]);
      if found.Some? && found.value + steps <= |tokens| then Some(tokens[found.value..found.value + steps]) else None
  }

  /** The gram that ends just before `e` is the last `n` ids of the text and the held one. */
  ghost predicate Matches(tokens: seq<Token>, n: nat, held: Token, e: nat) {
    n <= e <= |tokens| && n <= |tokens| + 1 && tokens[e - n..e] == (tokens + [held])[|tokens| + 1 - n..]
  }

  /** Position `e` is the last indexed one that follows such a gram. */
  ghost predicate LastMatch(tokens: seq<Token>, n: nat, first: nat, held: Token, e: nat) {
    && first <= e < |tokens| && Matches(tokens, n, held, e)
    && forall later :: e < later < |tokens| ==> !Matches(tokens, n, held, later)
  }

  /** What is copied: the ids from the last place where the end of the text stood before, if
      there are enough of them; and nothing otherwise. */
  lemma CopiedIs(tokens: seq<Token>, n: nat, first: nat, held: Token, steps: nat)
    requires 1 <= n <= first
    ensures var r := Copied(tokens, n, first, held, steps);
            && (r.Some? ==> exists e: nat :: LastMatch(tokens, n, first, held, e) && e + steps <= |tokens|
                              && r.value == tokens[e..e + steps])
            && (forall e: nat :: LastMatch(tokens, n, first, held, e) && e + steps <= |tokens| ==> r.Some?)
  {
    if |tokens| >= n - 1 {
      var gram := tokens[|tokens| - (n - 1)..] + [held];
      assert gram == (tokens + [held])[|tokens| + 1 - n..];
      ScanIs(tokens, n, first, |tokens|, gram);
      assert forall e: nat :: first <= e < |tokens| ==> (Gram(tokens, n, e) == gram <==> Matches(tokens, n, held, e));
      var found := Scan(tokens, n, first, |tokens|, gram);
      assert found.Some? ==> LastMatch(tokens, n, first, held, found.value);
    }
  }

  lemma {:induction false} ScanIs(tokens: seq<Token>, n: nat, first: nat, top: nat, gram: seq<Token>)
    requires n <= first && top <= |tokens|
    ensures var r := Scan(tokens, n, first, top, gram);
            && (r.Some? ==> first <= r.value < top && Gram(tokens, n, r.value) == gram)
            && forall e :: first <= e < top && (r.None? || e > r.value) ==> Gram(tokens, n, e) != gram
    decreases top
  {
    if top > first && Gram(tokens, n, top - 1) != gram {
      ScanIs(tokens, n, first, top - 1, gram);
    }
  }

  class SuffixIndex {
    const n: nat
    var tokens: seq<Token>
    var after: map<seq<Token>, nat>
    /** The first indexed position. */
    ghost const first: nat

    ghost predicate Valid()
      reads this
    {
      && 1 <= n <= first
      && (|tokens| < first ==> first == n)
      && Indexed(tokens, n, first, |tokens|, after)
    }

    constructor (history: seq<Token>, n: nat, span: nat)
      requires 1 <= n
      ensures Valid() && tokens == history && this.n == n
      ensures Kind() == IndexOver(|history|, n, span)
    {
      this.n := n;
      var start := if |history| - span > n then |history| - span else n;
      tokens, after, first := history, map[], start;
      new;
      var end := start;
      while end < |tokens|
        invariant start <= end && tokens == history
        invariant Indexed(tokens, n, first, end, after)
      {
        IndexOne(tokens, n, first, end, after);
        after := after[Gram(tokens, n, end) := end];
        end := end + 1;
      }
    }

    ghost function Kind(): Index
      requires Valid()
      reads this
    {
      Grams(n, first)
    }

    method Extend(more: seq<Token>)
      requires Valid()
      modifies this
      ensures Valid() && tokens == old(tokens) + more
    {
      for i := 0 to |more|
        invariant Valid() && tokens == old(tokens) + more[..i]
      {
        Append(more[i]);
        assert more[..i + 1] == more[..i] + [more[i]];
      }
      assert more[..|more|] == more;
    }

    method Append(t: Token)
      requires Valid()
      modifies this
      ensures Valid() && tokens == old(tokens) + [t]
    {
      var end := |tokens|;
      Grow(tokens, t, n, first, after);
      if end >= n {
        IndexOne(tokens + [t], n, first, end, after);
        after := after[Gram(tokens, n, end) := end];
      }
      tokens := tokens + [t];
    }

    /** Look the end of the text up, and copy what came after it before. */
    method Propose(held: Token, steps: nat) returns (r: Option<seq<Token>>)
      requires Valid()
      ensures r == Copied(tokens, n, first, held, steps)
      ensures r.Some? ==> |r.value| == steps
    {
      // A shorter tail than the grams is never a key of the table.
      if |tokens| < n - 1 {
        return None;
      }
      var tail := tokens[|tokens| - (n - 1)..] + [held];
      IndexAgreesWithScan(tokens, n, first, |tokens|, after, tail, |tokens|);
      if tail !in after {
        return None;
      }
      var start := after[tail];
      if start + steps > |tokens| {
        return None;
      }
      return Some(tokens[start..start + steps]);
    }
  }
}
