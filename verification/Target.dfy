/** The target network as an uninterpreted function of the text before it.

    One forward of a token reads the Gated DeltaNet state and the attention rows
    of the text so far; it leaves a new state, one more attention row, and the
    post-norm row that the output head scores.  Numerics are not modelled: a
    forward of several tokens is the fold of the forwards of each. */
module Target {
  type Token = int

  /** Convolution window and recurrent matrix of every Gated DeltaNet layer. */
  type Conv(!new)
  type Rec(!new)
  /** What a layer feeds the delta rule for one token: mixed qkv, beta and g. */
  type Inp(!new)
  /** Keys and values of one position, over all attention layers. */
  type Kv(!new)
  /** A post-norm row of the target, or the output row of the draft block. */
  type Row(!new)

  datatype Gdn = Gdn(conv: Conv, rec: Rec)

  /** A draft key/value row depends on its own token and the row paired with it. */
  datatype Paired = Paired(token: Token, hidden: Row)

  datatype Net = Net(
    zero: Gdn,
    zeroKv: Kv,
    blank: Row,
    input: (Gdn, seq<Kv>, Token) -> Inp,
    absorb: (Gdn, Inp) -> Gdn,
    kv: (Gdn, seq<Kv>, Token) -> Kv,
    row: (Gdn, seq<Kv>, Token) -> Row,
    argmax: Row -> Token,
    draftRow: seq<Paired> -> Row,
    draftId: Row -> Token)

  /** Everything a forward reads: the recurrent state and the rows below the cursor. */
  datatype Mem = Mem(g: Gdn, kv: seq<Kv>)

  function Step(net: Net, m: Mem, t: Token): Mem {
    Mem(net.absorb(m.g, net.input(m.g, m.kv, t)), m.kv + [net.kv(m.g, m.kv, t)])
  }

  function Read(net: Net, m: Mem, ids: seq<Token>): (r: Mem)
    ensures |r.kv| == |m.kv| + |ids|
  {
    if ids == [] then m else Step(net, Read(net, m, ids[..|ids| - 1]), ids[|ids| - 1])
  }

  function Inputs(net: Net, m: Mem, ids: seq<Token>): seq<Inp> {
    seq(|ids|, i requires 0 <= i < |ids| =>
      var before := Read(net, m, ids[..i]); net.input(before.g, before.kv, ids[i]))
  }

  function Rows(net: Net, m: Mem, ids: seq<Token>): seq<Row> {
    seq(|ids|, i requires 0 <= i < |ids| =>
      var before := Read(net, m, ids[..i]); net.row(before.g, before.kv, ids[i]))
  }

  function Fold(net: Net, g: Gdn, xs: seq<Inp>): Gdn {
    if xs == [] then g else net.absorb(Fold(net, g, xs[..|xs| - 1]), xs[|xs| - 1])
  }

  /** The memory that a cold forward of `text` leaves. */
  function At(net: Net, text: seq<Token>): Mem {
    Read(net, Mem(net.zero, []), text)
  }

  /** The post-norm row of the last token of `text`. */
  function RowOf(net: Net, text: seq<Token>): Row
    requires text != []
  {
    var before := At(net, text[..|text| - 1]);
    net.row(before.g, before.kv, text[|text| - 1])
  }

  /** The target's own greedy choice on exactly `text`. */
  function Next(net: Net, text: seq<Token>): Token
    requires text != []
  {
    net.argmax(RowOf(net, text))
  }

  lemma {:induction false} ReadAppend(net: Net, m: Mem, a: seq<Token>, b: seq<Token>)
    ensures Read(net, m, a + b) == Read(net, Read(net, m, a), b)
    decreases |b|
  {
    if b == [] {
      assert a + b == a;
    } else {
      assert (a + b)[..|a + b| - 1] == a + b[..|b| - 1];
      ReadAppend(net, m, a, b[..|b| - 1]);
    }
  }

  /** Later tokens never touch the rows already written. */
  lemma {:induction false} ReadKeepsRows(net: Net, m: Mem, ids: seq<Token>, n: nat)
    requires n <= |ids|
    ensures Read(net, m, ids).kv[..|m.kv| + n] == Read(net, m, ids[..n]).kv
    decreases |ids|
  {
    if n < |ids| {
      var shorter := ids[..|ids| - 1];
      ReadKeepsRows(net, m, shorter, n);
      assert shorter[..n] == ids[..n];
    } else {
      assert ids[..n] == ids;
    }
  }

  /** The recurrent state after a chunk is the fold of that chunk's own inputs. */
  lemma {:induction false} ReadIsFold(net: Net, m: Mem, ids: seq<Token>, n: nat)
    requires n <= |ids|
    ensures Fold(net, m.g, Inputs(net, m, ids)[..n]) == Read(net, m, ids[..n]).g
    decreases n
  {
    if n > 0 {
      var xs := Inputs(net, m, ids)[..n];
      assert xs[..n - 1] == Inputs(net, m, ids)[..n - 1];
      assert ids[..n][..n - 1] == ids[..n - 1];
      ReadIsFold(net, m, ids, n - 1);
    }
  }

  ghost predicate RowAt(net: Net, text: seq<Token>, ids: seq<Token>, rows: seq<Row>, i: nat)
    requires i < |ids| && i < |rows|
  {
    rows[i] == RowOf(net, text + ids[..i + 1])
  }

  /** `rows` score `ids` after exactly `text`: row i is the row of `text + ids[..i + 1]`. */
  ghost predicate RowsOf(net: Net, text: seq<Token>, ids: seq<Token>, rows: seq<Row>) {
    |rows| == |ids| && forall i {:trigger RowAt(net, text, ids, rows, i)} :: 0 <= i < |ids| ==>
        RowAt(net, text, ids, rows, i)
  }

  lemma RowsAreOf(net: Net, text: seq<Token>, ids: seq<Token>)
    ensures RowsOf(net, text, ids, Rows(net, At(net, text), ids))
  {
    forall i | 0 <= i < |ids|
      ensures RowAt(net, text, ids, Rows(net, At(net, text), ids), i)
    {
      var all := text + ids[..i + 1];
      assert all[..|all| - 1] == text + ids[..i];
      ReadAppend(net, Mem(net.zero, []), text, ids[..i]);
    }
  }
}
