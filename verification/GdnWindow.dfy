/** The resident Gated DeltaNet state and the stash that cuts a short window.

    One object stands for all layers: they are forwarded, stashed, cut and
    restored in lock-step. */
module GdnWindow {
  import opened Options
  import opened Target

  /** A short window is 2..8 tokens; a chunk this long takes the chunk kernel. */
  const STASH := 8
  const CHUNK_KERNEL := 48

  datatype Rewound = Cut | NoWindow | BadKeep(keep: nat, length: nat)

  /** The chunk kernel is given no initial recurrent state. */
  function Restarted(net: Net, g: Gdn): Gdn {
    g.(rec := net.zero.rec)
  }

  /** The state a forward of `length` tokens actually starts from. */
  function Start(net: Net, g: Gdn, ready: bool, length: nat): Gdn {
    if length >= CHUNK_KERNEL && !ready then Restarted(net, g) else g
  }

  class GdnState {
    const net: Net
    var g: Gdn
    var ready: bool
    const stash: array<Inp>
    var base: Gdn
    var rewindLen: Option<nat>

    ghost predicate Valid()
      reads this
    {
      stash.Length == STASH && (rewindLen.Some? ==> 2 <= rewindLen.value <= STASH)
    }

    /** The open window: `base` was absorbed with exactly `xs` to reach `g`. */
    ghost predicate Open(from: Gdn, xs: seq<Inp>)
      reads this, stash
    {
      && Valid()
      && rewindLen == Some(|xs|)
      && base == from
      && stash[..|xs|] == xs
      && g == Fold(net, from, xs)
    }

    constructor (net: Net)
      ensures Valid() && fresh(stash)
      ensures this.net == net && g == net.zero && !ready && rewindLen == None
    {
      this.net := net;
      g, ready, base, rewindLen := net.zero, false, net.zero, None;
      stash := new Inp[STASH](_ => net.input(net.zero, [], 0));
    }

    /** Keep the inputs of a short chunk; the buffers are allocated once and reused. */
    method Remember(xs: seq<Inp>)
      requires Valid() && 2 <= |xs| <= STASH
      modifies this, stash
      ensures Valid() && g == old(g) && ready == old(ready)
      ensures rewindLen == Some(|xs|) && base == g && stash[..|xs|] == xs
    {
      forall i | 0 <= i < |xs| {
        stash[i] := xs[i];
      }
      base := g;
      rewindLen := Some(|xs|);
    }

    /** One forward.  A window of 2..8 tokens can be cut afterwards. */
    method Forward(xs: seq<Inp>)
      requires Valid()
      modifies this, stash
      ensures Valid()
      ensures g == Fold(net, Start(net, old(g), old(ready), |xs|), xs)
      ensures ready == (old(ready) || |xs| >= CHUNK_KERNEL)
      ensures 1 < |xs| <= STASH ==> Open(old(g), xs)
      ensures !(1 < |xs| <= STASH) ==> rewindLen == old(rewindLen)
    {
      if 1 < |xs| <= STASH {
        Remember(xs);
      }
      if |xs| >= CHUNK_KERNEL && !ready {
        g := Fold(net, Restarted(net, g), xs);
        ready := true;
      } else {
        g := Fold(net, g, xs);
      }
    }

    /** Go back inside the stashed chunk: as if only its first `keep` tokens had been read. */
    method Rewind(keep: nat) returns (r: Rewound)
      requires Valid()
      modifies this
      ensures Valid()
      ensures ready == old(ready) && rewindLen == None
      ensures r == NoWindow <==> old(rewindLen) == None
      ensures r == Cut <==> old(rewindLen).Some? && keep <= old(rewindLen).value
      ensures forall from, xs :: old(Open(from, xs)) && keep <= |xs| ==> g == Fold(net, from, xs[..keep])
    {
      if rewindLen == None {
        return NoWindow;
      }
      var length := rewindLen.value;
      rewindLen := None;
      ghost var kept := stash[..length];
      if keep == length {
        assert kept[..keep] == kept;
        return Cut;
      }
      g := base;
      if keep == 0 {
        return Cut;
      }
      if !(1 <= keep < length) {
        return BadKeep(keep, length);
      }
      assert stash[..keep] == kept[..keep];
      g := Fold(net, g, stash[..keep]);
      return Cut;
    }

    /** Restore a snapshot; an open window is dropped. */
    method Put(to: Gdn, warm: bool)
      requires Valid()
      modifies this
      ensures Valid()
      ensures g == to && ready == warm && rewindLen == None
    {
      g, ready, rewindLen := to, warm, None;
    }
  }
}
