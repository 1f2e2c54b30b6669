/** A byte-level decoder for UTF-8 (section 3 of RFC 3629) that renders every maximal
    ill-formed piece, an incomplete tail too, as one U+FFFD. */
module Utf8 {
  newtype Byte = x: int | 0 <= x < 256
  /** A code point. */
  type Point = int
  type Text = seq<Point>

  const HOLE: Point := 0xFFFD

  /** How many bytes a lead byte announces; 0 when it cannot lead. */
  function Size(b: Byte): nat {
    if b < 0x80 then 1
    else if 0xC2 <= b <= 0xDF then 2
    else if 0xE0 <= b <= 0xEF then 3
    else if 0xF0 <= b <= 0xF4 then 4
    else 0
  }

  /** Byte `k` may continue the character that `bs` begins: no overlong form, no
      surrogate, nothing above U+10FFFF. */
  predicate Follows(bs: seq<Byte>, k: nat)
    requires 1 <= k < |bs|
  {
    if k > 1 then 0x80 <= bs[k] <= 0xBF
    else if bs[0] == 0xE0 then 0xA0 <= bs[1] <= 0xBF
    else if bs[0] == 0xED then 0x80 <= bs[1] <= 0x9F
    else if bs[0] == 0xF0 then 0x90 <= bs[1] <= 0xBF
    else if bs[0] == 0xF4 then 0x80 <= bs[1] <= 0x8F
    else 0x80 <= bs[1] <= 0xBF
  }

  /** How far the well-formed beginning reaches. */
  function Reach(bs: seq<Byte>, k: nat): (r: nat)
    requires 1 <= k <= |bs|
    ensures k <= r <= |bs|
    decreases |bs| - k
  {
    if k < Size(bs[0]) && k < |bs| && Follows(bs, k) then Reach(bs, k + 1) else k
  }

  function PointOf(bs: seq<Byte>, n: nat): Point
    requires 1 <= n <= |bs|
  {
    if n == 1 then bs[0] as int
    else if n == 2 then (bs[0] as int - 0xC0) * 64 + (bs[1] as int - 0x80)
    else if n == 3 then (bs[0] as int - 0xE0) * 4096 + (bs[1] as int - 0x80) * 64 + (bs[2] as int - 0x80)
    else if n == 4 then
      (bs[0] as int - 0xF0) * 262144 + (bs[1] as int - 0x80) * 4096 + (bs[2] as int - 0x80) * 64 + (bs[3] as int - 0x80)
    else HOLE
  }

  /** The first piece of `bs`; `open` when more bytes could still complete it. */
  datatype Piece = Piece(len: nat, point: Point, open: bool)

  function First(bs: seq<Byte>): (p: Piece)
    requires bs != []
    ensures 1 <= p.len <= |bs|
    ensures p.open ==> p.len == |bs| && p.point == HOLE
  {
    var r := Reach(bs, 1);
    var size := Size(bs[0]);
    if r == size then Piece(r, PointOf(bs, r), false) else Piece(r, HOLE, r < size && r == |bs|)
  }

  function Decode(bs: seq<Byte>): Text {
    if bs == [] then [] else
      var p := First(bs);
      [p.point] + Decode(bs[p.len..])
  }

  /** How many trailing bytes more bytes could still complete. */
  function Pending(bs: seq<Byte>): (n: nat)
    ensures n <= |bs|
  {
    if bs == [] then 0 else
      var p := First(bs);
      if p.open then p.len else Pending(bs[p.len..])
  }

  lemma {:induction false} ReachKeeps(bs: seq<Byte>, more: seq<Byte>, k: nat)
    requires 1 <= k <= |bs|
    ensures var r := Reach(bs, k); (r < |bs| || r >= Size(bs[0])) ==> Reach(bs + more, k) == r
    decreases |bs| - k
  {
    if k < |bs| {
      assert Follows(bs + more, k) == Follows(bs, k);
    }
    if k < Size(bs[0]) && k < |bs| && Follows(bs, k) {
      ReachKeeps(bs, more, k + 1);
    }
  }

  lemma {:induction false} ReachBound(bs: seq<Byte>, k: nat)
    requires 1 <= k <= |bs|
    ensures Reach(bs, k) <= if k > Size(bs[0]) then k else Size(bs[0])
    decreases |bs| - k
  {
    if k < Size(bs[0]) && k < |bs| && Follows(bs, k) {
      ReachBound(bs, k + 1);
    }
  }

  /** A piece that is not open is not changed by what follows. */
  lemma FirstKeeps(bs: seq<Byte>, more: seq<Byte>)
    requires bs != [] && !First(bs).open
    ensures First(bs + more) == First(bs)
  {
    ReachKeeps(bs, more, 1);
    ReachBound(bs, 1);
  }

  lemma DecodeHead(bs: seq<Byte>, more: seq<Byte>)
    requires bs != [] && !First(bs).open
    ensures var p := First(bs);
            Decode(bs + more) == [p.point] + Decode(bs[p.len..] + more)
  {
    FirstKeeps(bs, more);
    assert (bs + more)[First(bs).len..] == bs[First(bs).len..] + more;
  }

  /** The decoded text without the last point, when bytes are pending. */
  function Firm(bs: seq<Byte>): Text {
    if Pending(bs) > 0 && Decode(bs) != [] then Decode(bs)[..|Decode(bs)| - 1] else Decode(bs)
  }

  function Tail(bs: seq<Byte>): seq<Byte> {
    bs[|bs| - Pending(bs)..]
  }

  lemma {:induction false} PendingIsHole(bs: seq<Byte>)
    ensures Pending(bs) > 0 ==> Decode(bs) != [] && Decode(bs)[|Decode(bs)| - 1] == HOLE
    decreases |bs|
  {
    if bs != [] {
      var p := First(bs);
      if p.open {
        assert bs[p.len..] == [];
      } else {
        PendingIsHole(bs[p.len..]);
      }
    }
  }

  lemma FirmHead(bs: seq<Byte>)
    requires bs != [] && !First(bs).open
    ensures var p := First(bs); Firm(bs) == [p.point] + Firm(bs[p.len..]) && Tail(bs) == Tail(bs[p.len..])
  {
    var p := First(bs);
    var rest, n := bs[p.len..], Pending(bs[p.len..]);
    PendingIsHole(rest);
    assert Decode(bs) == [p.point] + Decode(rest) && Pending(bs) == n;
    assert bs[|bs| - n..] == rest[|rest| - n..];
  }

  lemma OpenIs(bs: seq<Byte>)
    requires bs != [] && First(bs).open
    ensures Firm(bs) == [] && Tail(bs) == bs
  {
    assert bs[|bs|..] == [] && Decode([]) == [];
    assert Decode(bs) == [HOLE];
    assert bs[0..] == bs;
  }

  /** Decoding in two parts: only an open tail is decoded again. */
  lemma {:induction false} DecodeAppend(bs: seq<Byte>, more: seq<Byte>)
    ensures Decode(bs + more) == Firm(bs) + Decode(Tail(bs) + more)
    decreases |bs|
  {
    if bs == [] {
      assert bs + more == more;
    } else {
      var p := First(bs);
      if p.open {
        OpenIs(bs);
      } else {
        DecodeHead(bs, more);
        FirmHead(bs);
        DecodeAppend(bs[p.len..], more);
      }
    }
  }

  predicate Scalar(c: Point) {
    0 <= c < 0xD800 || 0xE000 <= c <= 0x10FFFF
  }

  function Encode(c: Point): (bs: seq<Byte>)
    requires Scalar(c)
    ensures 1 <= |bs| <= 4
  {
    if c < 0x80 then [c as Byte]
    else if c < 0x800 then [(0xC0 + c / 64) as Byte, (0x80 + c % 64) as Byte]
    else if c < 0x10000 then [(0xE0 + c / 4096) as Byte, (0x80 + c / 64 % 64) as Byte, (0x80 + c % 64) as Byte]
    else [(0xF0 + c / 262144) as Byte, (0x80 + c / 4096 % 64) as Byte, (0x80 + c / 64 % 64) as Byte,
       (0x80 + c % 64) as Byte]
  }

  function EncodeAll(text: Text): seq<Byte>
    requires forall i :: 0 <= i < |text| ==> Scalar(text[i])
  {
    if text == [] then [] else Encode(text[0]) + EncodeAll(text[1..])
  }

  lemma EncodeFollows(c: Point, more: seq<Byte>, k: nat)
    requires Scalar(c) && 1 <= k < |Encode(c)|
    ensures Follows(Encode(c) + more, k)
  {
  }

  lemma EncodeSize(c: Point)
    requires Scalar(c)
    ensures Size(Encode(c)[0]) == |Encode(c)|
  {
  }

  lemma {:induction false} EncodeReaches(c: Point, more: seq<Byte>, k: nat)
    requires Scalar(c) && 1 <= k <= |Encode(c)|
    ensures Reach(Encode(c) + more, k) == |Encode(c)|
    decreases |Encode(c)| - k
  {
    EncodeSize(c);
    if k < |Encode(c)| {
      EncodeFollows(c, more, k);
      EncodeReaches(c, more, k + 1);
    }
  }

  lemma EncodePoint(c: Point, more: seq<Byte>)
    requires Scalar(c)
    ensures PointOf(Encode(c) + more, |Encode(c)|) == c
  {
    var bs := Encode(c) + more;
    if c >= 0x800 {
      assert c / 64 / 64 == c / 4096;
    }
    if c >= 0x10000 {
      assert c / 4096 / 64 == c / 262144;
    }
  }

  /** Decoding undoes encoding, for every text of scalar values. */
  lemma {:induction false} RoundTrip(text: Text)
    requires forall i :: 0 <= i < |text| ==> Scalar(text[i])
    ensures Decode(EncodeAll(text)) == text && Pending(EncodeAll(text)) == 0
    decreases |text|
  {
    if text != [] {
      var c, rest := text[0], EncodeAll(text[1..]);
      EncodeSize(c);
      EncodeReaches(c, rest, 1);
      EncodePoint(c, rest);
      assert (Encode(c) + rest)[|Encode(c)|..] == rest;
      RoundTrip(text[1..]);
    }
  }

  // --- What an ill-formed piece is ---

  /** The first `k` bytes begin the encoding of `c`. */
  predicate Begins(bs: seq<Byte>, k: nat, c: Point) {
    Scalar(c) && k <= |bs| && k <= |Encode(c)| && bs[..k] == Encode(c)[..k]
  }

  /** The first `k` bytes begin some character. */
  ghost predicate Starts(bs: seq<Byte>, k: nat) {
    exists c :: Begins(bs, k, c)
  }

  /** Well-formed bytes are the encoding of their point. */
  lemma EncodeBack(bs: seq<Byte>)
    requires bs != [] && |bs| == Size(bs[0]) && forall k :: 1 <= k < |bs| ==> Follows(bs, k)
    ensures Scalar(PointOf(bs, |bs|)) && Encode(PointOf(bs, |bs|)) == bs
  {
    if |bs| == 2 {
      EncodeTwo(bs);
    } else if |bs| == 3 {
      EncodeThree(bs);
    } else if |bs| == 4 {
      EncodeFour(bs);
    }
  }

  lemma EncodeTwo(bs: seq<Byte>)
    requires |bs| == 2 == Size(bs[0]) && Follows(bs, 1)
    ensures Scalar(PointOf(bs, 2)) && Encode(PointOf(bs, 2)) == bs
  {
    BackTwo(bs[0] as int, bs[1] as int);
  }

  lemma EncodeThree(bs: seq<Byte>)
    requires |bs| == 3 == Size(bs[0]) && Follows(bs, 1) && Follows(bs, 2)
    ensures Scalar(PointOf(bs, 3)) && Encode(PointOf(bs, 3)) == bs
  {
    BackThree(bs[0] as int, bs[1] as int, bs[2] as int);
  }

  lemma EncodeFour(bs: seq<Byte>)
    requires |bs| == 4 == Size(bs[0]) && Follows(bs, 1) && Follows(bs, 2) && Follows(bs, 3)
    ensures Scalar(PointOf(bs, 4)) && Encode(PointOf(bs, 4)) == bs
  {
    BackFour(bs[0] as int, bs[1] as int, bs[2] as int, bs[3] as int);
  }

  lemma BackTwo(a: int, b: int)
    requires 0xC2 <= a <= 0xDF && 0x80 <= b <= 0xBF
    ensures var c := (a - 0xC0) * 64 + (b - 0x80);
            0x80 <= c < 0x800 && 0xC0 + c / 64 == a && 0x80 + c % 64 == b
  {
  }

  lemma BackThree(a: int, b: int, d: int)
    requires 0xE0 <= a <= 0xEF && 0x80 <= b <= 0xBF && 0x80 <= d <= 0xBF && (a == 0xE0 ==> b >= 0xA0)
    requires a == 0xED ==> b <= 0x9F
    ensures var c := (a - 0xE0) * 4096 + (b - 0x80) * 64 + (d - 0x80);
            && 0x800 <= c < 0x10000 && !(0xD800 <= c < 0xE000)
            && 0xE0 + c / 4096 == a && 0x80 + c / 64 % 64 == b && 0x80 + c % 64 == d
  {
    var c := (a - 0xE0) * 4096 + (b - 0x80) * 64 + (d - 0x80);
    assert c / 64 == (a - 0xE0) * 64 + (b - 0x80);
  }

  lemma BackFour(a: int, b: int, d: int, e: int)
    requires 0xF0 <= a <= 0xF4 && 0x80 <= b <= 0xBF && 0x80 <= d <= 0xBF && 0x80 <= e <= 0xBF
    requires (a == 0xF0 ==> b >= 0x90) && (a == 0xF4 ==> b <= 0x8F)
    ensures var c := (a - 0xF0) * 262144 + (b - 0x80) * 4096 + (d - 0x80) * 64 + (e - 0x80);
            && 0x10000 <= c <= 0x10FFFF && 0xF0 + c / 262144 == a && 0x80 + c / 4096 % 64 == b
            && 0x80 + c / 64 % 64 == d && 0x80 + c % 64 == e
  {
    var c := (a - 0xF0) * 262144 + (b - 0x80) * 4096 + (d - 0x80) * 64 + (e - 0x80);
    assert c / 64 == (a - 0xF0) * 4096 + (b - 0x80) * 64 + (d - 0x80);
    assert c / 4096 == (a - 0xF0) * 64 + (b - 0x80);
  }

  /** The least byte that may come second. */
  function Second(lead: Byte): Byte {
    if lead == 0xE0 then 0xA0 else if lead == 0xF0 then 0x90 else 0x80
  }

  /** Well-formed bytes that are cut short, completed. */
  function Completed(bs: seq<Byte>, k: nat): seq<Byte>
    requires 1 <= k <= |bs| && k <= Size(bs[0])
  {
    seq(Size(bs[0]), i requires 0 <= i < Size(bs[0]) =>
      if i < k then bs[i] else if i == 1 then Second(bs[0]) else 0x80)
  }

  /** So a well-formed beginning begins a character. */
  lemma ReachedStarts(bs: seq<Byte>, k: nat)
    requires 1 <= k <= |bs| && k <= Size(bs[0]) && forall i :: 1 <= i < k ==> Follows(bs, i)
    ensures Starts(bs, k) && (k == Size(bs[0]) ==> Begins(bs, k, PointOf(bs, k)) && |Encode(PointOf(bs, k))| == k)
  {
    var all := Completed(bs, k);
    assert all[0] == bs[0];
    forall i | 1 <= i < |all|
      ensures Follows(all, i)
    {
      if i < k {
        assert Follows(bs, i) && all[i] == bs[i];
      } else {
        assert all[i] == if i == 1 then Second(bs[0]) else 0x80;
      }
    }
    EncodeBack(all);
    assert all[..k] == bs[..k];
    assert Begins(bs, k, PointOf(all, |all|));
    if k == Size(bs[0]) {
      assert all == bs[..k];
    }
  }

  lemma {:induction false} ReachFollows(bs: seq<Byte>, k: nat)
    requires 1 <= k <= |bs| && forall i :: 1 <= i < k ==> Follows(bs, i)
    ensures forall i :: 1 <= i < Reach(bs, k) ==> Follows(bs, i)
    decreases |bs| - k
  {
    if k < Size(bs[0]) && k < |bs| && Follows(bs, k) {
      ReachFollows(bs, k + 1);
    }
  }

  /** No character reaches further into the bytes than the well-formed beginning. */
  lemma {:induction false} BeginsReached(bs: seq<Byte>, c: Point, n: nat, k: nat)
    requires bs != [] && Begins(bs, n, c) && 1 <= k <= n
    ensures n <= Reach(bs, k)
    decreases n - k
  {
    var code := Encode(c);
    assert forall i :: 0 <= i < n ==> bs[i] == bs[..n][i] == code[..n][i] == code[i];
    EncodeSize(c);
    if k < n {
      EncodeFollows(c, [], k);
      assert code + [] == code;
      assert Follows(bs, k) == Follows(code, k);
      BeginsReached(bs, c, n, k + 1);
    }
  }

  /** The first piece is a whole character when the bytes begin with one; else it is the longest
      beginning of a character that they begin with, or one byte if there is none, and one hole
      stands for it.  It is open when it is all there is and begins a character. */
  lemma FirstIsLongest(bs: seq<Byte>)
    requires bs != []
    ensures var p := First(bs);
            && (forall c :: Scalar(c) && Begins(bs, |Encode(c)|, c) ==> p == Piece(|Encode(c)|, c, false))
            && (forall c, k: nat :: Begins(bs, k, c) ==> k <= p.len) && (p.len > 1 ==> Starts(bs, p.len))
            && ((forall c :: Scalar(c) ==> !Begins(bs, |Encode(c)|, c)) ==>
                  p.point == HOLE && (p.open <==> Starts(bs, |bs|)))
  {
    var p, size := First(bs), Size(bs[0]);
    ReachFollows(bs, 1);
    ReachBound(bs, 1);
    if 1 <= size {
      ReachedStarts(bs, p.len);
    }
    forall c, k: nat | Begins(bs, k, c)
      ensures k <= p.len && (k == |Encode(c)| ==> p == Piece(k, c, false))
    {
      LongestAt(bs, c, k);
    }
    if p.len < size && p.len == |bs| {
      assert Starts(bs, |bs|);
    }
    if Starts(bs, |bs|) {
      var c :| Begins(bs, |bs|, c);
      LongestAt(bs, c, |bs|);
      EncodeSize(c);
      assert bs[..|bs|] == bs && bs[0] == Encode(c)[0];
    }
  }

  lemma LongestAt(bs: seq<Byte>, c: Point, k: nat)
    requires bs != [] && Begins(bs, k, c)
    ensures k <= First(bs).len && (k == |Encode(c)| ==> First(bs) == Piece(k, c, false))
  {
    if k > 0 {
      BeginsReached(bs, c, k, 1);
      ReachBound(bs, 1);
      EncodeSize(c);
      assert bs[0] == bs[..k][0] == Encode(c)[..k][0] == Encode(c)[0];
      if k == |Encode(c)| {
        EncodePoint(c, bs[k..]);
        assert Encode(c) + bs[k..] == bs;
      }
    }
  }
}
