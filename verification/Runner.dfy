/** What one session runs its forwards on: pages, recurrent state, and their snapshots. */
module Runner {
  import opened Options
  import opened Target
  import GdnWindow

  /** A committed copy of the recurrent state. Attention pages are append-only.
      A device runner that has not run has no states to copy, and a blank copy
      restores nothing. */
  datatype Snap = Blank | Snap(g: Gdn, ready: bool)

  /** What a forward of `length` tokens keeps of a text of `past` tokens. */
  predicate Carries(ready: bool, past: nat, length: nat) {
    ready || past == 0 || length < GdnWindow.CHUNK_KERNEL
  }

  class Runner {
    const net: Net
    /** The real runner can cut, rezero and mark; the CPU stand-in cannot. */
    const device: bool
    const gdn: GdnWindow.GdnState
    var started: bool
    var kv: seq<Kv>
    var hidden: seq<Row>

    ghost predicate Valid()
      reads this, gdn
    {
      gdn.Valid() && gdn.net == net
    }

    constructor (net: Net, device: bool)
      ensures Valid() && fresh(gdn) && fresh(gdn.stash)
      ensures this.net == net && this.device == device && !started
      ensures gdn.g == net.zero && !gdn.ready && kv == []
    {
      this.net, this.device := net, device;
      var state := new GdnWindow.GdnState(net);
      gdn := state;
      started, kv, hidden := false, [], [];
    }

    /** What a forward of `length` tokens at `cacheLen` reads. */
    ghost function From(cacheLen: nat, length: nat): Mem
      requires cacheLen <= |kv|
      reads this, gdn
    {
      Mem(GdnWindow.Start(net, gdn.g, gdn.ready, length), kv[..cacheLen])
    }

    /** Write `ids` at `cacheLen`; pages above the chunk keep what they had.  A short
        chunk can be cut afterwards. */
    method Forward(ids: seq<Token>, cacheLen: nat)
      requires Valid() && cacheLen <= |kv| && ids != []
      modifies this, gdn, gdn.stash
      ensures Valid() && started && gdn.ready == (old(gdn.ready) || |ids| >= GdnWindow.CHUNK_KERNEL)
      ensures var m := old(From(cacheLen, |ids|));
              && hidden == Rows(net, m, ids) && gdn.g == Read(net, m, ids).g
              && cacheLen + |ids| <= |kv| && kv[..cacheLen + |ids|] == Read(net, m, ids).kv
      ensures |kv| == if old(|kv|) < cacheLen + |ids| then cacheLen + |ids| else old(|kv|)
      ensures 2 <= |ids| <= GdnWindow.STASH ==>
                gdn.rewindLen == Some(|ids|) && gdn.Open(old(gdn.g), Inputs(net, old(From(cacheLen, |ids|)), ids))
    {
      var m := Mem(GdnWindow.Start(net, gdn.g, gdn.ready, |ids|), kv[..cacheLen]);
      var after := Read(net, m, ids);
      ReadIsFold(net, m, ids, |ids|);
      assert Inputs(net, m, ids)[..|ids|] == Inputs(net, m, ids) && ids[..|ids|] == ids;
      gdn.Forward(Inputs(net, m, ids));
      kv := after.kv + (if |kv| > |after.kv| then kv[|after.kv|..] else []);
      hidden := Rows(net, m, ids);
      started := true;
    }

    function Capture(): Snap
      reads this, gdn
    {
      if device && !started then Blank else Snap(gdn.g, gdn.ready)
    }

    method Restore(s: Snap)
      requires Valid()
      modifies this, gdn, gdn.stash
      ensures Valid() && kv == old(kv) && hidden == old(hidden) && started == old(started)
      ensures s.Snap? ==> gdn.g == s.g && gdn.ready == s.ready && gdn.rewindLen == None
      ensures s.Blank? ==> gdn.g == old(gdn.g) && gdn.ready == old(gdn.ready) && gdn.rewindLen == old(gdn.rewindLen)
    {
      if s.Snap? {
        gdn.Put(s.g, s.ready);
      }
    }

    /** Cut the last short chunk, read from `m`, to its first `keep` tokens. */
    method RewindRecurrent(keep: nat, ghost m: Mem, ghost ids: seq<Token>) returns (r: GdnWindow.Rewound)
      requires Valid()
      modifies this, gdn, gdn.stash
      ensures Valid() && kv == old(kv) && hidden == old(hidden) && started == old(started)
      ensures gdn.ready == old(gdn.ready) && gdn.rewindLen == None
      ensures r == GdnWindow.Cut <==> old(gdn.rewindLen).Some? && keep <= old(gdn.rewindLen).value
      ensures old(gdn.Open(m.g, Inputs(net, m, ids))) && keep <= |ids| ==> gdn.g == Read(net, m, ids[..keep]).g
    {
      if keep <= |ids| {
        ReadIsFold(net, m, ids, keep);
      }
      r := gdn.Rewind(keep);
    }

    /** Start over in the memory that is already there. */
    method Rezero()
      requires Valid()
      modifies this, gdn, gdn.stash
      ensures Valid() && gdn.g == net.zero && !gdn.ready && gdn.rewindLen == None && started == old(started)
      ensures kv == seq(|old(kv)|, _ => net.zeroKv) && hidden == []
    {
      gdn.Put(net.zero, false);
      kv := seq(|kv|, _ => net.zeroKv);
      hidden := [];
    }

    /** Free states and pages; the next forward allocates them again. */
    method Reset()
      requires Valid()
      modifies this, gdn, gdn.stash
      ensures Valid() && gdn.g == net.zero && !gdn.ready && gdn.rewindLen == None && !started
      ensures kv == [] && hidden == []
    {
      gdn.Put(net.zero, false);
      kv, hidden, started := [], [], false;
    }
  }
}
