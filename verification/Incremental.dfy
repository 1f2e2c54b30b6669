/** Streaming a byte-level decode without republishing what was sent. */
module Incremental {
  import opened Target
  import opened Utf8

  /** The bytes of a run of ids, when each id stands for a fixed piece. */
  function Bytes(piece: Token -> seq<Byte>, ids: seq<Token>): seq<Byte> {
    if ids == [] then [] else piece(ids[0]) + Bytes(piece, ids[1..])
  }

  lemma {:induction false} BytesAppend(piece: Token -> seq<Byte>, a: seq<Token>, b: seq<Token>)
    ensures Bytes(piece, a + b) == Bytes(piece, a) + Bytes(piece, b)
    decreases |a|
  {
    if a == [] {
      assert a + b == b;
    } else {
      assert (a + b)[1..] == a[1..] + b;
      BytesAppend(piece, a[1..], b);
    }
  }

  function DecodeTokens(piece: Token -> seq<Byte>, ids: seq<Token>): Text {
    Decode(Bytes(piece, ids))
  }

  /** Without the holes at the end. */
  function Stable(text: Text): (r: Text)
    ensures r <= text && (r != [] ==> r[|r| - 1] != HOLE)
  {
    if text != [] && text[|text| - 1] == HOLE then Stable(text[..|text| - 1]) else text
  }

  /** The text does not end in a hole. */
  predicate Whole(text: Text) {
    text == [] || text[|text| - 1] != HOLE
  }

  /** A prefix that ends on no hole is part of the stable text. */
  lemma {:induction false} StableKeeps(text: Text, firm: Text)
    requires firm <= text && (firm != [] ==> firm[|firm| - 1] != HOLE)
    ensures firm <= Stable(text)
    decreases |text|
  {
    if text != [] && text[|text| - 1] == HOLE {
      StableKeeps(text[..|text| - 1], firm);
    }
  }

  /** What was stable stays, whatever bytes follow. */
  lemma StableGrows(bs: seq<Byte>, more: seq<Byte>)
    ensures Stable(Decode(bs)) <= Stable(Decode(bs + more)) && Stable(Decode(bs)) <= Decode(bs + more)
  {
    DecodeAppend(bs, more);
    PendingIsHole(bs);
    var text := Decode(bs);
    if Pending(bs) > 0 {
      assert Stable(text) == Stable(Firm(bs));
    }
    assert Stable(text) <= Firm(bs) <= Decode(bs + more);
    StableKeeps(Decode(bs + more), Stable(text));
  }

  /** Where no bytes are pending, the decode of the whole is the two decodes in a row. */
  lemma Joins(piece: Token -> seq<Byte>, a: seq<Token>, b: seq<Token>)
    requires Pending(Bytes(piece, a)) == 0
    ensures DecodeTokens(piece, a + b) == DecodeTokens(piece, a) + DecodeTokens(piece, b)
    ensures Pending(Bytes(piece, a + b)) == Pending(Bytes(piece, b))
  {
    var x, y := Bytes(piece, a), Bytes(piece, b);
    BytesAppend(piece, a, b);
    DecodeAppend(x, y);
    assert Tail(x) == [] && [] + y == y;
    PendingAppend(x, y);
  }

  /** What the ids say in turn. */
  function Texts(say: Token -> Text, ids: seq<Token>): Text {
    if ids == [] then [] else say(ids[0]) + Texts(say, ids[1..])
  }

  ghost predicate Spells(text: Text, bytes: seq<Byte>) {
    (forall i :: 0 <= i < |text| ==> Scalar(text[i])) && bytes == EncodeAll(text)
  }

  /** Where every piece is whole characters, the decode of a run is the text of each in turn. */
  lemma {:induction false} DecodeIs(piece: Token -> seq<Byte>, say: Token -> Text, ids: seq<Token>)
    requires forall t: Token :: Spells(say(t), piece(t))
    ensures DecodeTokens(piece, ids) == Texts(say, ids)
    decreases |ids|
  {
    if ids != [] {
      var t: Token := ids[0];
      var one := [t];
      assert Spells(say(t), piece(t));
      assert one + ids[1..] == ids && one[1..] == [];
      assert Bytes(piece, one) == piece(t);
      RoundTrip(say(t));
      Joins(piece, one, ids[1..]);
      DecodeIs(piece, say, ids[1..]);
    }
  }

  lemma Grows(piece: Token -> seq<Byte>, a: seq<Token>, b: seq<Token>)
    ensures Stable(DecodeTokens(piece, a)) <= Stable(DecodeTokens(piece, a + b)) <= DecodeTokens(piece, a + b)
  {
    BytesAppend(piece, a, b);
    StableGrows(Bytes(piece, a), Bytes(piece, b));
  }

  /** The piece starts at the first change. */
  ghost predicate FromChange(previous: Text, stable: Text, piece: Text) {
    exists n: nat :: Changes(previous, stable, n) && piece == stable[n..]
  }

  /** The two are alike up to `n`, and no further. */
  predicate Changes(previous: Text, stable: Text, n: nat) {
    && n <= |previous| && n <= |stable| && previous[..n] == stable[..n]
    && (n < |previous| && n < |stable| ==> previous[n] != stable[n])
  }

  lemma Extend(a: Text, b: Text, c: Text)
    requires b <= c
    ensures a + b <= a + c
  {
  }

  lemma CutAppend(ids: seq<Token>, more: seq<Token>, n: nat)
    requires n <= |ids|
    ensures (ids + more)[n..] == ids[n..] + more && (ids + more)[..n] == ids[..n]
    ensures ids + more == ids[..n] + (ids[n..] + more)
  {
  }

  lemma Associate(a: Text, b: Text, c: Text, d: Text)
    requires b + c == d
    ensures (a + b) + c == a + d
  {
  }

  /** What is new to the parser. */
  method StreamPiece(previous: Text, text: Text, hold: bool) returns (piece: Text, stable: Text)
    ensures stable == if hold then Stable(text) else text
    ensures previous <= stable ==> previous + piece == stable
    // A rewritten text is sent from its first change on.
    ensures FromChange(previous, stable, piece)
  {
    stable := text;
    if hold {
      while stable != [] && stable[|stable| - 1] == HOLE
        invariant Stable(stable) == Stable(text)
        decreases |stable|
      {
        stable := stable[..|stable| - 1];
      }
    }
    if previous <= stable {
      piece := stable[|previous|..];
      assert Changes(previous, stable, |previous|);
      return;
    }
    var index := 0;
    while index < |previous| && index < |stable| && previous[index] == stable[index]
      invariant index <= |previous| && index <= |stable| && previous[..index] == stable[..index]
    {
      index := index + 1;
    }
    piece := stable[index..];
    assert Changes(previous, stable, index);
  }

  class IncrementalText {
    const piece: Token -> seq<Byte>
    var ids: seq<Token>
    var anchor: nat
    var fed: Text
    /** Everything sent so far. */
    ghost var sent: Text

    const SPAN := 32

    ghost predicate Valid()
      reads this
    {
      && anchor <= |ids|
      && Pending(Bytes(piece, ids[..anchor])) == 0
      && fed == Stable(DecodeTokens(piece, ids[anchor..]))
      && sent == DecodeTokens(piece, ids[..anchor]) + fed
    }

    constructor (piece: Token -> seq<Byte>)
      ensures Valid() && this.piece == piece && ids == [] && sent == []
    {
      this.piece, ids, anchor, fed, sent := piece, [], 0, [], [];
    }

    method Push(more: seq<Token>) returns (out: Text)
      requires Valid()
      modifies this
      ensures Valid() && ids == old(ids) + more && sent == old(sent) + out
      ensures sent <= DecodeTokens(piece, ids)
      // The anchor moves when enough ids lie behind it and their text is complete, and only so.
      ensures anchor == if |ids| - old(anchor) >= SPAN && Whole(DecodeTokens(piece, ids[old(anchor)..])) then |ids|
                        else old(anchor)
      ensures anchor == old(anchor) || Pending(Bytes(piece, ids)) == 0
    {
      var tail;
      out, tail := Feed(more);
      if |ids| - anchor >= SPAN && fed == tail && (tail == [] || tail[|tail| - 1] != HOLE) {
        Anchor();
      }
    }

    /** Decode the tail again and send what is new and stable. */
    method Feed(more: seq<Token>) returns (out: Text, tail: Text)
      requires Valid()
      modifies this
      ensures Valid() && ids == old(ids) + more && sent == old(sent) + out && anchor == old(anchor)
      ensures tail == DecodeTokens(piece, ids[anchor..]) && fed == Stable(tail) && sent <= DecodeTokens(piece, ids)
    {
      ghost var done, was := DecodeTokens(piece, ids[..anchor]), fed;
      Grows(piece, ids[anchor..], more);
      CutAppend(ids, more, anchor);
      Joins(piece, ids[..anchor], ids[anchor..] + more);
      tail := DecodeTokens(piece, (ids + more)[anchor..]);
      var stable;
      out, stable := StreamPiece(fed, tail, true);
      Associate(done, was, out, stable);
      Extend(done, stable, tail);
      ids, fed, sent := ids + more, stable, sent + out;
    }

    /** Every character so far is complete: the next decode starts here. */
    method Anchor()
      requires Valid() && fed == DecodeTokens(piece, ids[anchor..])
      modifies this
      ensures Valid() && anchor == |ids| && ids == old(ids) && sent == old(sent)
      ensures Pending(Bytes(piece, ids)) == 0
    {
      PendingIsHole(Bytes(piece, ids[anchor..]));
      assert ids == ids[..anchor] + ids[anchor..];
      Joins(piece, ids[..anchor], ids[anchor..]);
      anchor, fed := |ids|, [];
      assert ids[anchor..] == [] && ids[..anchor] == ids;
    }

    /** With the flush, everything sent is one decode of all ids, for any split into pushes. */
    method Flush() returns (out: Text)
      requires Valid()
      modifies this
      ensures ids == old(ids) && old(sent) + out == DecodeTokens(piece, ids) == sent
    {
      assert ids == ids[..anchor] + ids[anchor..];
      Joins(piece, ids[..anchor], ids[anchor..]);
      if anchor >= |ids| {
        assert ids[anchor..] == [];
        return [];
      }
      var tail := DecodeTokens(piece, ids[anchor..]);
      ghost var done, was := DecodeTokens(piece, ids[..anchor]), fed;
      out, fed := StreamPiece(fed, tail, false);
      Associate(done, was, out, tail);
      sent := sent + out;
    }
  }

  lemma {:induction false} PendingAppend(a: seq<Byte>, b: seq<Byte>)
    requires Pending(a) == 0
    ensures Pending(a + b) == Pending(b)
    decreases |a|
  {
    if a == [] {
      assert a + b == b;
    } else {
      FirstKeeps(a, b);
      assert (a + b)[First(a).len..] == a[First(a).len..] + b;
      PendingAppend(a[First(a).len..], b);
    }
  }
}
