/** The draft block's key/value store and its greedy proposer.

    A stored row is the pair it was computed from: its token, and the row of
    the previous token that was fused with it. */
module Draft {
  import opened Target

  /** The pairs that a text leaves: token i with the target's row i - 1. */
  function Pairs(net: Net, text: seq<Token>): seq<Paired> {
    seq(|text|, i requires 0 <= i < |text| =>
      Paired(text[i], if i == 0 then net.blank else RowOf(net, text[..i])))
  }

  ghost predicate PairAt(net: Net, text: seq<Token>, rows: seq<Paired>, i: nat)
    requires i < |text| && i < |rows|
  {
    rows[i] == Paired(text[i], if i == 0 then net.blank else RowOf(net, text[..i]))
  }

  /** `rows` are the pairs of `text`, row by row. */
  ghost predicate PairsOf(net: Net, text: seq<Token>, rows: seq<Paired>) {
    |rows| == |text| && forall i {:trigger PairAt(net, text, rows, i)} :: 0 <= i < |text| ==> PairAt(net, text, rows, i)
  }

  lemma PairsUnique(net: Net, text: seq<Token>, rows: seq<Paired>)
    requires PairsOf(net, text, rows)
    ensures rows == Pairs(net, text)
  {
    forall i | 0 <= i < |text|
      ensures rows[i] == Pairs(net, text)[i]
    {
      assert PairAt(net, text, rows, i);
    }
  }

  function Zip(ids: seq<Token>, rows: seq<Row>): seq<Paired>
    requires |ids| <= |rows|
  {
    seq(|ids|, i requires 0 <= i < |ids| => Paired(ids[i], rows[i]))
  }

  datatype Rolled = Rolled(ids: seq<Token>, rows: seq<Paired>)

  /** A roll: the first step reads the given row, every other step the output of the one before. */
  function RollSpec(net: Net, rows: seq<Paired>, token: Token, hidden: Row, steps: nat): (r: Rolled)
    ensures |r.ids| == steps && |r.rows| == |rows| + steps
    ensures r.rows[..|rows|] == rows
    ensures steps > 0 ==> r.rows[|rows|] == Paired(token, hidden)
    decreases steps
  {
    if steps == 0 then Rolled([], rows)
    else
      var seen := rows + [Paired(token, hidden)];
      var carry := net.draftRow(seen);
      var id := net.draftId(carry);
      var rest := RollSpec(net, seen, id, carry, steps - 1);
      assert rest.rows[..|seen|][..|rows|] == rest.rows[..|rows|];
      Rolled([id] + rest.ids, rest.rows)
  }

  /** One more row and id, then the rest of the roll from there. */
  lemma RollUnfold(net: Net, rows: seq<Paired>, token: Token, hidden: Row, steps: nat)
    requires steps > 0
    ensures var seen := rows + [Paired(token, hidden)];
            var carry := net.draftRow(seen);
            var rest := RollSpec(net, seen, net.draftId(carry), carry, steps - 1);
            RollSpec(net, rows, token, hidden, steps) == Rolled([net.draftId(carry)] + rest.ids, rest.rows)
  {
  }

  /** A size that holds `need`, reached from `size` by doubling, and no doubling too many. */
  ghost predicate Doubled(size: nat, need: nat, grown: nat) {
    need <= grown && (grown == size || grown < 2 * need) && exists k: nat :: grown == Twice(size, k)
  }

  /** Doubled `k` times. */
  function Twice(size: nat, k: nat): nat { if k == 0 then size else 2 * Twice(size, k - 1) }

  /** The store after room was made: the whole context at once when that is enough and nothing
      was there; else by doubling, from 256 at first. */
  ghost predicate Allotted(size: nat, capacity: nat, need: nat, grown: nat) {
    if size >= need then grown == size
    else if size == 0 && capacity > 0 && need <= capacity then grown == capacity
    else Doubled(if size == 0 then 256 else size, need, grown)
  }

  /** Double until it is enough. */
  method Double(size: nat, need: nat) returns (grown: nat)
    requires size > 0
    ensures Doubled(size, need, grown)
  {
    grown := size;
    ghost var k := 0;
    while grown < need
      invariant 0 < size <= grown == Twice(size, k) && (grown == size || grown < 2 * need)
      decreases need - grown
    {
      grown, k := grown * 2, k + 1;
    }
  }

  class MTPDraft {
    const net: Net
    const capacity: nat
    var store: seq<Paired>
    var position: nat
    /** Whether a write happened since the last reset: `past_k` is set. */
    var live: bool

    ghost predicate Valid()
      reads this
    {
      position <= |store| && (!live ==> position == 0)
    }

    /** The rows below the position; whatever the store holds above it is stale. */
    function Rows(): (r: seq<Paired>)
      requires Valid()
      reads this
      ensures |r| == position
    {
      store[..position]
    }

    constructor (net: Net, capacity: nat)
      ensures Valid() && this.net == net && Rows() == [] && !live
    {
      this.net, this.capacity := net, capacity;
      store, position, live := [], 0, false;
    }

    /** Forget every row; the store keeps its allocation. */
    method Reset()
      requires Valid()
      modifies this
      ensures Valid() && Rows() == [] && !live && store == old(store)
    {
      position, live := 0, false;
    }

    method Truncate(to: nat) returns (ok: bool)
      requires Valid()
      modifies this
      ensures Valid() && live == old(live) && store == old(store)
      ensures ok <==> old(live) && to <= old(position)
      ensures Rows() == if ok then old(Rows())[..to] else old(Rows())
    {
      if !live || to > position {
        return false;
      }
      assert store[..position][..to] == store[..to];
      position := to;
      return true;
    }

    /** Grow when the rows do not fit: once to the whole context, then by doubling,
        keeping only the rows below the position. */
    method Reserve(need: nat, filler: Paired)
      requires Valid() && position <= need && 0 < need
      modifies this
      ensures Valid() && need <= |store| && Allotted(old(|store|), capacity, need, |store|)
      ensures Rows() == old(Rows()) && position == old(position) && live == old(live)
      ensures old(|store|) >= need ==> store == old(store)
    {
      var cap := |store|;
      if cap == 0 && capacity > 0 && need <= capacity {
        cap := capacity;
        store := seq(capacity, _ => filler);
      }
      if cap < need {
        var grown := Double(if cap == 0 then 256 else cap, need);
        store := store[..position] + seq(grown - position, _ => filler);
      }
    }

    method WriteKv(rows: seq<Paired>)
      requires Valid() && rows != []
      modifies this
      ensures Valid() && live
      ensures Rows() == old(Rows()) + rows
      ensures Allotted(old(|store|), capacity, old(position) + |rows|, |store|)
    {
      var end := position + |rows|;
      Reserve(end, rows[0]);
      store := store[..position] + rows + store[end..];
      assert store[..end] == store[..position] + rows;
      position := end;
      live := true;
    }

    /** Chunks of 8192 rows; the result does not depend on the chunking. */
    method Prefill(ids: seq<Token>, hidden: seq<Row>)
      requires Valid() && |ids| <= |hidden|
      modifies this
      ensures Valid()
      ensures live == (old(live) || ids != [])
      ensures Rows() == old(Rows()) + Zip(ids, hidden)
    {
      var all := Zip(ids, hidden);
      var offset := 0;
      while offset < |ids|
        invariant 0 <= offset <= |ids|
        invariant Valid()
        invariant live == (old(live) || offset > 0)
        invariant Rows() == old(Rows()) + all[..offset]
      {
        var end := if offset + 8192 < |ids| then offset + 8192 else |ids|;
        WriteKv(all[offset..end]);
        assert all[..end] == all[..offset] + all[offset..end];
        offset := end;
      }
      assert all[..offset] == all;
    }

    /** `steps` ids, each from the block's own output after the first. */
    method Roll(tokenId: Token, hidden: Row, steps: nat) returns (drafted: seq<Token>)
      requires Valid() && steps > 0
      modifies this
      ensures Valid() && live
      ensures drafted == RollSpec(net, old(Rows()), tokenId, hidden, steps).ids
      ensures Rows() == RollSpec(net, old(Rows()), tokenId, hidden, steps).rows
    {
      drafted := [];
      var token, carry := tokenId, hidden;
      ghost var seen := Rows();
      ghost var goal := RollSpec(net, seen, tokenId, hidden, steps);
      ghost var rest := goal;
      for index := 0 to steps
        invariant Valid()
        invariant index > 0 ==> live
        invariant seen == Rows() && rest == RollSpec(net, seen, token, carry, steps - index)
        invariant goal.ids == drafted + rest.ids && goal.rows == rest.rows
      {
        RollUnfold(net, seen, token, carry, steps - index);
        WriteKv([Paired(token, carry)]);
        seen := seen + [Paired(token, carry)];
        carry := net.draftRow(Rows());
        token := net.draftId(carry);
        drafted := drafted + [token];
        rest := RollSpec(net, seen, token, carry, steps - (index + 1));
      }
      assert rest == Rolled([], seen);
    }
  }

  /** Absorbing a chunk after `text` extends the pairing. */
  lemma PairsExtend(net: Net, text: seq<Token>, rows: seq<Paired>, ids: seq<Token>, paired: seq<Row>)
    requires PairsOf(net, text, rows) && |paired| >= |ids|
    requires forall i :: 0 <= i < |ids| ==>
               paired[i] == if |text| + i == 0 then net.blank else RowOf(net, text + ids[..i])
    ensures PairsOf(net, text + ids, rows + Zip(ids, paired))
  {
    var all, out := text + ids, rows + Zip(ids, paired);
    forall i | 0 <= i < |all|
      ensures PairAt(net, all, out, i)
    {
      if i < |text| {
        assert PairAt(net, text, rows, i);
        assert all[..i] == text[..i];
      } else {
        assert all[..i] == text + ids[..i - |text|];
      }
    }
  }

  lemma PairsPrefix(net: Net, text: seq<Token>, rows: seq<Paired>, n: nat)
    requires PairsOf(net, text, rows) && n <= |text|
    ensures PairsOf(net, text[..n], rows[..n])
  {
    forall i | 0 <= i < n
      ensures PairAt(net, text[..n], rows[..n], i)
    {
      assert PairAt(net, text, rows, i);
      assert text[..n][..i] == text[..i];
    }
  }
}
