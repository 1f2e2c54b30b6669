/** The draft side of a resident turn: proposals, and the repair after a verify. */
module Cycle {
  import opened Options
  import opened Target
  import opened Draft

  datatype Shifted = NoRows | Shifted(paired: seq<Row>, carry: Row)

  /** Pair each prefill token with the row of the token before it. */
  function ShiftRows(carry: Option<Row>, state: seq<Row>, blank: Row): (r: Shifted)
    ensures r == NoRows <==> state == []
    ensures r.Shifted? ==> |r.paired| == |state| && r.carry == state[|state| - 1]
    ensures r.Shifted? ==> forall i :: 0 <= i < |state| ==>
              r.paired[i] == if i > 0 then state[i - 1] else if carry.Some? then carry.value else blank
  {
    if state == [] then NoRows
    else Shifted([if carry.Some? then carry.value else blank] + state[..|state| - 1], state[|state| - 1])
  }

  /** What the draft side was at the last commit. */
  datatype DraftMark = DraftMark(position: nat, carry: Option<Row>, accepted: nat, rejected: nat, primed: nat)

  class DraftCycle {
    const net: Net
    const capacity: nat
    var draft: MTPDraft?
    /** The target row at cursor - 1. */
    var carry: Option<Row>
    var primed: nat
    var accepted: nat
    var rejected: nat

    ghost predicate Valid()
      reads this, draft
    {
      draft != null ==> draft.Valid() && draft.net == net
    }

    function Position(): nat
      reads this, draft
    {
      if draft == null then 0 else draft.position
    }

    function Counts(): (nat, nat)
      reads this
    {
      (accepted, rejected)
    }

    ghost function Rows(): seq<Paired>
      requires Valid()
      reads this, draft
      ensures |Rows()| == Position()
    {
      if draft == null then [] else draft.Rows()
    }

    /** A draft block is made once and then kept. */
    twostate predicate Kept(was: MTPDraft?)
      reads this
    {
      if was == null then draft == null || fresh(draft) else draft == was
    }

    constructor (net: Net, draft: MTPDraft?, capacity: nat)
      requires draft != null ==> draft.Valid() && draft.net == net && draft.Rows() == []
      ensures Valid() && this.net == net
      ensures this.draft == draft && Rows() == [] && carry == None
      ensures accepted == rejected == primed == 0
    {
      this.net, this.capacity, this.draft := net, capacity, draft;
      carry, primed, accepted, rejected := None, 0, 0, 0;
    }

    method Model()
      requires Valid()
      modifies this, draft
      ensures Valid() && draft != null && Kept(old(draft))
      ensures Rows() == old(Rows()) && carry == old(carry)
      ensures old(draft) != null ==> draft.live == old(draft.live)
      ensures Counts() == old(Counts()) && primed == old(primed)
    {
      if draft == null {
        draft := new MTPDraft(net, capacity);
      }
    }

    /** Absorb the post-norm rows of a prefill cut. */
    method AbsorbPrefill(ids: seq<Token>, hidden: seq<Row>)
      requires Valid() && |ids| == |hidden| && ids != []
      modifies this, draft
      ensures Valid() && draft != null && Kept(old(draft))
      ensures Rows() == old(Rows()) + Zip(ids, ShiftRows(old(carry), hidden, net.blank).paired)
      ensures carry == Some(hidden[|hidden| - 1])
      ensures Counts() == old(Counts()) && primed == old(primed)
    {
      Model();
      var shifted := ShiftRows(carry, hidden, net.blank);
      carry := Some(shifted.carry);
      draft.Prefill(ids, shifted.paired);
    }

    /** Draft ids from the held token, or nothing when there is no target row yet. */
    method Propose(tokenId: Token, steps: nat) returns (drafted: Option<seq<Token>>)
      requires Valid() && steps > 0
      modifies this, draft
      ensures Valid() && draft != null && Kept(old(draft))
      ensures drafted.None? <==> old(carry).None?
      ensures drafted.None? ==> Rows() == old(Rows())
      ensures drafted.Some? ==>
                var roll := RollSpec(net, old(Rows()), tokenId, old(carry).value, steps);
                drafted.value == roll.ids && Rows() == roll.rows && primed == old(Position()) && draft.live
      ensures carry == old(carry)
      ensures Counts() == old(Counts())
    {
      Model();
      if carry.None? {
        return None;
      }
      primed := draft.position;
      var ids := draft.Roll(tokenId, carry.value, steps);
      return Some(ids);
    }

    /** Repair after the block rolled: keep the held id's row, rewrite the accepted ones. */
    method Repair(verify: seq<Row>, drafted: seq<Token>, matched: nat)
      requires Valid() && draft != null && draft.live && primed + 1 <= draft.position
      requires matched < |verify| && matched <= |drafted|
      modifies this, draft
      ensures Valid() && draft != null && Kept(old(draft))
      ensures Rows() == old(Rows()[..primed + 1]) + Zip(drafted[..matched], verify)
      ensures carry == Some(verify[matched])
      ensures Counts() == (old(accepted) + matched, old(rejected) + |drafted| - matched)
    {
      var ok := draft.Truncate(primed + 1);
      if matched > 0 {
        draft.Prefill(drafted[..matched], verify);
      } else {
        assert Zip(drafted[..0], verify) == [];
      }
      carry := Some(verify[matched]);
      accepted := accepted + matched;
      rejected := rejected + |drafted| - matched;
    }

    /** Repair when the drafts were copied: no roll has written the held id's row, so it comes first. */
    method RepairCopied(verify: seq<Row>, held: Token, drafted: seq<Token>, matched: nat)
      requires Valid() && carry.Some? && matched < |verify| && matched <= |drafted|
      modifies this, draft
      ensures Valid() && draft != null && Kept(old(draft))
      ensures Rows() == old(Rows()) + [Paired(held, old(carry).value)] + Zip(drafted[..matched], verify)
      ensures carry == Some(verify[matched])
      ensures Counts() == (old(accepted) + matched, old(rejected) + |drafted| - matched)
    {
      Model();
      var rows := [carry.value] + verify[..matched];
      draft.Prefill([held] + drafted[..matched], rows);
      assert Zip([held] + drafted[..matched], rows) == [Paired(held, carry.value)] + Zip(drafted[..matched], verify);
      carry := Some(verify[matched]);
      accepted := accepted + matched;
      rejected := rejected + |drafted| - matched;
    }

    function Marking(): DraftMark
      reads this, draft
    {
      DraftMark(Position(), carry, accepted, rejected, primed)
    }

    /** Go back to a marked position. */
    method Rejoin(m: DraftMark) returns (ok: bool)
      requires Valid()
      modifies this, draft
      ensures Valid() && draft == old(draft)
      ensures ok <==> draft != null && old(draft.live) && m.position <= old(Position())
      ensures ok ==> Marking() == m && Rows() == old(Rows())[..m.position]
      ensures !ok ==> Marking() == old(Marking())
    {
      if draft == null {
        return false;
      }
      ok := draft.Truncate(m.position);
      if ok {
        carry, accepted, rejected, primed := m.carry, m.accepted, m.rejected, m.primed;
      }
    }
  }

  /** A shifted chunk continues the pairing of `text`. */
  lemma AbsorbPairs(
      net: Net, text: seq<Token>, rows: seq<Paired>, ids: seq<Token>, carry: Option<Row>, hidden: seq<Row>)
    requires ids != [] && carry == (if text == [] then None else Some(RowOf(net, text)))
    requires PairsOf(net, text, rows) && RowsOf(net, text, ids, hidden)
    ensures var shifted := ShiftRows(carry, hidden, net.blank);
            PairsOf(net, text + ids, rows + Zip(ids, shifted.paired)) && shifted.carry == RowOf(net, text + ids)
  {
    var shifted := ShiftRows(carry, hidden, net.blank);
    forall i | 0 <= i < |ids|
      ensures shifted.paired[i] == if |text| + i == 0 then net.blank else RowOf(net, text + ids[..i])
    {
      if i > 0 {
        assert RowAt(net, text, ids, hidden, i - 1);
      } else {
        assert text + ids[..0] == text;
      }
    }
    PairsExtend(net, text, rows, ids, shifted.paired);
    assert RowAt(net, text, ids, hidden, |ids| - 1);
    assert ids[..|ids|] == ids;
  }

  /** Both repairs write the pairs of `held` and the matched drafts: after either,
      the draft cache is the one a prefill of the kept text leaves. */
  lemma RepairPairs(
      net: Net, text: seq<Token>, rows: seq<Paired>, held: Token, drafted: seq<Token>, verify: seq<Row>,
      matched: nat)
    requires text != [] && matched <= |drafted|
    requires PairsOf(net, text, rows) && RowsOf(net, text, [held] + drafted, verify)
    ensures var kept := text + ([held] + drafted[..matched]);
            PairsOf(net, kept, rows + [Paired(held, RowOf(net, text))] + Zip(drafted[..matched], verify))
            && verify[matched] == RowOf(net, kept)
  {
    var window := [held] + drafted;
    var body := [held] + drafted[..matched];
    var paired := [RowOf(net, text)] + verify[..matched];
    forall i | 0 <= i < |body|
      ensures paired[i] == RowOf(net, text + body[..i])
    {
      if i > 0 {
        assert RowAt(net, text, window, verify, i - 1);
        assert window[..i] == body[..i];
      } else {
        assert text + body[..0] == text;
      }
    }
    PairsExtend(net, text, rows, body, paired);
    assert rows + Zip(body, paired) == rows + [Paired(held, RowOf(net, text))] + Zip(drafted[..matched], verify);
    assert RowAt(net, text, window, verify, matched);
    assert window[..matched + 1] == body;
  }
}
