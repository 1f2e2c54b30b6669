/** What is resident, as values: what each call makes of it, and when it is true.

    A state is everything a later turn can read of a session between calls.  The class
    in `Session` refines these functions step by step. */
module Resident {
  import opened Options
  import opened Target
  import opened Runner
  import opened Draft
  import opened Cycle
  import opened Marks
  import opened Caches
  import opened Restart
  import opened Schedule

  /** Where the last generate got its prefix. */
  datatype Source = OnTape | AtCommit | AtMark | Cold

  /** The draft side of a resident text. */
  datatype Side = NoBlock | Side(rows: seq<Paired>, carry: Option<Row>, accepted: nat, rejected: nat)

  /** The tape, the last commit, the recurrent state, the rows below the cursor, and the
      draft side. */
  datatype View = View(tape: seq<Token>, committed: nat, snapshot: Option<Snap>, g: Gdn, ready: bool, kv: seq<Kv>,
      side: Side)

  /** With the draft side's mark at the commit, the prefix marks, and the last source. */
  datatype State = State(v: View, mark: Option<DraftMark>, tale: map<nat, Saved>, source: Source)

  /** The commit lies on the tape and has a copy of its state. */
  ghost predicate Rests(net: Net, st: State) {
    && st.v.committed <= |st.v.tape| == |st.v.kv|
    && (st.v.committed > 0 ==> st.v.snapshot.Some? && st.v.snapshot.value.Snap?)
    && (st.v.committed == |st.v.tape| ==> Settled(net, st.v))
    && (st.mark.Some? ==> MarksAt(st.mark.value, st.v.committed))
  }

  /** What every call leaves: besides, a draft side has rows and stands at the commit. */
  ghost predicate Proper(net: Net, st: State) {
    && Rests(net, st)
    && (st.v.side.Side? ==> st.v.side.rows != [] && |st.v.side.rows| == st.v.committed && st.mark == MarkOf(st.v.side))
  }

  const NoRowsYet := Side([], None, 0, 0)

  predicate MarksAt(m: DraftMark, committed: nat) {
    committed > 0 && m.position == committed && m.carry.Some? && m.primed == 0
  }

  /** What a commit remembers of a draft side that has rows. */
  function MarkOf(side: Side): Option<DraftMark>
    requires side.Side?
  {
    if side.rows == [] then None else Some(DraftMark(|side.rows|, side.carry, side.accepted, side.rejected, 0))
  }

  /** At the commit, the recurrent state is as the snapshot took it. */
  ghost predicate Settled(net: Net, v: View) {
    if v.snapshot.None? then v.g == net.zero && !v.ready
    else v.snapshot.value.Snap? ==> v.snapshot.value == Snap(v.g, v.ready)
  }

  /** What is resident is what a cold run of the tape, and of its commit, leaves. */
  ghost predicate Truth(net: Net, v: View) {
    && v.committed <= |v.tape|
    && v.g == At(net, v.tape).g && v.kv == At(net, v.tape).kv
    && (v.snapshot.Some? ==> v.snapshot.value.Snap? && v.snapshot.value.g == At(net, v.tape[..v.committed]).g)
    && (v.side.Side? ==> SideOf(net, v.tape[..v.committed], v.side))
  }

  ghost predicate SideOf(net: Net, text: seq<Token>, side: Side)
    requires side.Side?
  {
    PairsOf(net, text, side.rows) && side.carry == (if text == [] then None else Some(RowOf(net, text)))
  }

  /** The view is true, and so is every mark that a rewind can restore. */
  ghost predicate Honest(net: Net, st: State) {
    Truth(net, st.v) && TellsAll(net, st.v.tape, st.v.committed, UpTo(st.tale, st.v.committed))
  }

  /** No mark lies above the commit. */
  predicate Clean(st: State) {
    forall p :: p in st.tale ==> p <= st.v.committed
  }

  /** Or those that do are of a prompt that starts as `ids` does: they tell its prefixes. */
  ghost predicate Agrees(net: Net, st: State, ids: seq<Token>) {
    forall p :: p in st.tale && p > st.v.committed ==> p < |ids| && Tells(net, ids[..p], st.tale[p])
  }

  /** The prompt `more` goes on from all but the last id of `ids`. */
  predicate GoesOn(ids: seq<Token>, more: seq<Token>) {
    ids == [] || (|ids| <= |more| && more[..|ids| - 1] == ids[..|ids| - 1])
  }

  /** A prompt that goes on from another agrees with the same marks. */
  lemma AgreesOn(net: Net, st: State, ids: seq<Token>, more: seq<Token>)
    requires Agrees(net, st, ids) && GoesOn(ids, more)
    ensures Agrees(net, st, more)
  {
    forall p | p in st.tale && p > st.v.committed
      ensures p < |ids| <= |more| && more[..p] == ids[..p]
    {
      var n := |ids| - 1;
      assert ids[..n][..p] == ids[..p] && more[..n][..p] == more[..p];
    }
  }

  /** Where states tell texts apart, a mark left by one prompt serves another exactly when
      they start alike. */
  lemma LeftoverIsExact(net: Net, x: seq<Token>, y: seq<Token>, p: nat, mark: Saved)
    requires 0 < p <= |x| && p <= |y| && Tells(net, x[..p], mark)
    requires forall a, b {:trigger At(net, a), At(net, b)} :: At(net, a).g == At(net, b).g ==> a == b
    ensures Tells(net, y[..p], mark) <==> x[..p] == y[..p]
  {
  }

  /** A rewind keeps that. */
  lemma OpenedAgrees(net: Net, st: State, ids: seq<Token>)
    requires Proper(net, st) && 0 !in st.tale && Agrees(net, st, ids)
    ensures Agrees(net, Opened(net, st, ids), ids)
  {
  }

  /** The layer has been made ready by whatever is resident, committed or marked. */
  predicate Warm(st: State) {
    && (st.v.tape != [] ==> st.v.ready)
    && (st.v.committed > 0 ==> st.v.snapshot.Some? && st.v.snapshot.value.Snap? && st.v.snapshot.value.ready)
    && forall p :: p in st.tale ==> st.tale[p].ready
  }

  // --- Rewinding ---

  /** A session that holds nothing. */
  function Fresh(net: Net): View {
    View([], 0, None, net.zero, false, [], NoBlock)
  }

  /** And nothing is marked. */
  function Zeroed(net: Net): State {
    State(Fresh(net), None, map[], Cold)
  }

  /** The target side of a rollback: the committed state, and the rows below it. */
  function ToCommit(v: View): View
    requires v.snapshot.Some? && v.committed <= |v.tape| && v.committed <= |v.kv|
  {
    var s, n := v.snapshot.value, v.committed;
    View(v.tape[..n], n, v.snapshot, if s.Snap? then s.g else v.g, if s.Snap? then s.ready else v.ready,
         v.kv[..n], v.side)
  }

  /** The view from position `n` of the committed tape, with what the mark there saved. */
  function Cut(v: View, n: nat, mark: Saved): View
    requires v.side.Side? && n <= |v.tape| && n <= |v.side.rows| && n <= |v.kv|
  {
    View(v.tape[..n], n, Some(Snap(mark.g, mark.ready)), mark.g, mark.ready, v.kv[..n],
         v.side.(rows := v.side.rows[..n], carry := Some(mark.carry)))
  }

  /** Going back to the mark at `n`, which forgets the later ones. */
  ghost function Returned(st: State, n: nat): State
    requires n in st.tale && st.v.side.Side? && n <= |st.v.tape| && n <= |st.v.side.rows| && n <= |st.v.kv|
  {
    var v := Cut(st.v, n, st.tale[n]);
    State(v, MarkOf(v.side), UpTo(st.tale, n), AtMark)
  }

  /** The mark a rewind to at most `most` would restore: the longest, if the draft rows reach it. */
  ghost function Usable(st: State, most: int): (at: Option<nat>)
    ensures at.Some? ==> st.v.side.Side? && IsLongest(st.tale, most, at.value) && at.value <= |st.v.side.rows|
  {
    var best := Longest(st.tale, most);
    if st.v.side.Side? && best.Some? && best.value <= |st.v.side.rows| then best else None
  }

  /** Keep at most the first `shared` ids: the tape itself, else its commit, else the
      longest mark, else nothing. */
  ghost function Rewound(net: Net, st: State, shared: nat, most: int): State
    requires Proper(net, st)
  {
    if shared >= |st.v.tape| then st.(source := if st.v.tape != [] then OnTape else Cold)
    else if st.v.snapshot.Some? && shared >= st.v.committed then st.(v := ToCommit(st.v), source := AtCommit)
    else FellBack(net, st, most)
  }

  /** The longest mark, else nothing. */
  ghost function FellBack(net: Net, st: State, most: int): State
    requires Proper(net, st)
  {
    var at := Usable(st, most);
    if at.Some? then Returned(st, at.value) else Zeroed(net)
  }

  lemma ReturnedProper(net: Net, st: State, n: nat)
    requires Proper(net, st) && n in st.tale && 0 < n && st.v.side.Side? && n <= |st.v.side.rows|
    ensures Proper(net, Returned(st, n))
  {
  }

  lemma RewoundProper(net: Net, st: State, shared: nat, most: int)
    requires Proper(net, st) && 0 !in st.tale && shared <= |st.v.tape| && most <= shared
    ensures var r := Rewound(net, st, shared, most);
            && Proper(net, r) && |r.v.tape| <= shared && r.v.tape == st.v.tape[..|r.v.tape|]
            && 0 !in r.tale && (Clean(st) ==> Clean(r)) && (Warm(st) ==> Warm(r))
            && (r.source == Cold ==> r.v.tape == [])
            && (r.source == AtMark ==> |r.v.tape| <= most)
  {
    var at := Usable(st, most);
    if at.Some? {
      ReturnedProper(net, st, at.value);
    }
    assert st.v.tape[..|st.v.tape|] == st.v.tape;
  }

  /** A place of the tape that can be brought back. */
  ghost predicate Restorable(st: State, most: int, q: nat) {
    || q == |st.v.tape|
    || (st.v.snapshot.Some? && q == st.v.committed)
    || (q in st.tale && q <= most && st.v.side.Side? && q <= |st.v.side.rows|)
  }

  /** A rewind keeps the longest prefix it can: no place within what is shared lies beyond it. */
  lemma RewoundIsLongest(net: Net, st: State, shared: nat, most: int, q: nat)
    requires Proper(net, st) && 0 !in st.tale && shared <= |st.v.tape| && most <= shared
    requires Restorable(st, most, q) && q <= shared
    ensures q <= |Rewound(net, st, shared, most).v.tape|
  {
    if shared < |st.v.tape| && !(st.v.snapshot.Some? && shared >= st.v.committed) {
      LongestExists(st.tale, most, q);
    }
  }

  lemma {:induction false} LongestExists(tale: map<nat, Saved>, most: int, q: nat)
    requires q in tale && q <= most
    ensures exists p: nat :: q <= p && IsLongest(tale, most, p)
    decreases most - q
  {
    if !IsLongest(tale, most, q) {
      var r: nat :| r in tale && r <= most && r > q;
      LongestExists(tale, most, r);
    }
  }

  /** A restored mark makes a true view exactly when it tells its prefix: a mark left
      by an abandoned prompt, whose entry a later prompt keeps, does not. */
  lemma CutIsTrue(net: Net, v: View, n: nat, mark: Saved)
    requires Truth(net, v) && v.side.Side? && 0 < n <= v.committed && n <= |v.side.rows| && n <= |v.kv|
    ensures Truth(net, Cut(v, n, mark)) <==> Tells(net, v.tape[..n], mark)
  {
    assert v.tape[..v.committed][..n] == v.tape[..n] == v.tape[..n][..n];
    PairsPrefix(net, v.tape[..v.committed], v.side.rows, n);
    RowsOfPrefix(net, v.tape, n);
  }

  /** The rows of a text, cut, are the rows of its prefix. */
  lemma RowsOfPrefix(net: Net, text: seq<Token>, n: nat)
    requires n <= |text|
    ensures |At(net, text).kv| == |text| && At(net, text).kv[..n] == At(net, text[..n]).kv
  {
    ReadKeepsRows(net, Mem(net.zero, []), text, n);
  }

  lemma ToCommitIsTrue(net: Net, v: View)
    requires Truth(net, v) && v.snapshot.Some? && v.committed <= |v.kv|
    ensures Truth(net, ToCommit(v))
  {
    RowsOfPrefix(net, v.tape, v.committed);
    assert v.tape[..v.committed][..v.committed] == v.tape[..v.committed];
  }

  lemma ReturnedIsHonest(net: Net, st: State, n: nat)
    requires Proper(net, st) && Honest(net, st) && n in st.tale && 0 < n && st.v.side.Side? && n <= |st.v.side.rows|
    ensures Honest(net, Returned(st, n))
  {
    var low := UpTo(st.tale, st.v.committed);
    assert n in low && low[n] == st.tale[n];
    CutIsTrue(net, st.v, n, st.tale[n]);
    TellsUpTo(net, st.v.tape, st.v.committed, low, n, st.v.tape[..n]);
    UpToTwice(st.tale, st.v.committed, n);
    UpToTwice(st.tale, n, n);
  }

  lemma UpToTwice(tale: map<nat, Saved>, m: nat, n: nat)
    requires n <= m
    ensures UpTo(UpTo(tale, m), n) == UpTo(tale, n)
  {
  }

  /** Wherever the rewind stops, what is left is again what a cold run would leave. */
  lemma RewoundIsHonest(net: Net, st: State, shared: nat, most: int)
    requires Proper(net, st) && Honest(net, st) && 0 !in st.tale
    ensures Honest(net, Rewound(net, st, shared, most))
  {
    var at := Usable(st, most);
    if shared >= |st.v.tape| {
    } else if st.v.snapshot.Some? && shared >= st.v.committed {
      ToCommitIsTrue(net, st.v);
      TellsUpTo(net, st.v.tape, st.v.committed, UpTo(st.tale, st.v.committed), st.v.committed, ToCommit(st.v).tape);
      UpToTwice(st.tale, st.v.committed, st.v.committed);
    } else if at.Some? {
      ReturnedIsHonest(net, st, at.value);
    } else {
      ZeroedIsHonest(net);
    }
  }

  lemma ZeroedIsHonest(net: Net)
    ensures Proper(net, Zeroed(net)) && Honest(net, Zeroed(net)) && Clean(Zeroed(net)) && Warm(Zeroed(net))
  {
  }

  // --- The shared prefix ---

  /** How many ids two texts share from their start. */
  function Common(a: seq<Token>, b: seq<Token>): (n: nat)
    ensures n <= |a| && n <= |b|
  {
    if a != [] && b != [] && a[0] == b[0] then 1 + Common(a[1..], b[1..]) else 0
  }

  lemma {:induction false} CommonIs(a: seq<Token>, b: seq<Token>, n: nat)
    requires n <= |a| && n <= |b| && a[..n] == b[..n] && (n < |a| && n < |b| ==> a[n] != b[n])
    ensures Common(a, b) == n
    decreases n
  {
    if n > 0 {
      assert a[0] == a[..n][0] == b[..n][0] == b[0];
      assert a[1..][..n - 1] == a[..n][1..] == b[..n][1..] == b[1..][..n - 1];
      CommonIs(a[1..], b[1..], n - 1);
    }
  }

  lemma {:induction false} CommonShares(a: seq<Token>, b: seq<Token>)
    ensures a[..Common(a, b)] == b[..Common(a, b)]
    ensures Common(a, b) < |a| && Common(a, b) < |b| ==> a[Common(a, b)] != b[Common(a, b)]
    decreases |a|
  {
    var n := Common(a, b);
    if n > 0 {
      CommonShares(a[1..], b[1..]);
      assert a[..n] == [a[0]] + a[1..][..n - 1] && b[..n] == [b[0]] + b[1..][..n - 1];
    }
  }

  /** The longest usable prefix of `ids`. */
  ghost function Retained(net: Net, st: State, ids: seq<Token>, limit: int): State
    requires Proper(net, st)
  {
    var shared := Common(st.v.tape, ids);
    Rewound(net, st, shared, if limit < shared then limit else shared)
  }

  lemma RetainedIs(net: Net, st: State, ids: seq<Token>, limit: int)
    requires Proper(net, st) && 0 !in st.tale
    ensures var r := Retained(net, st, ids, limit);
            && Proper(net, r) && |r.v.tape| <= |ids| && r.v.tape == ids[..|r.v.tape|] && 0 !in r.tale
            && (Clean(st) ==> Clean(r)) && (Warm(st) ==> Warm(r)) && (Honest(net, st) ==> Honest(net, r))
            && (r.source == Cold ==> r.v.tape == [])
            && (r.source == AtMark ==> |r.v.tape| <= limit)
  {
    var shared := Common(st.v.tape, ids);
    var most := if limit < shared then limit else shared;
    RewoundProper(net, st, shared, most);
    CommonShares(st.v.tape, ids);
    var to := |Rewound(net, st, shared, most).v.tape|;
    assert st.v.tape[..shared][..to] == st.v.tape[..to] && ids[..shared][..to] == ids[..to];
    if Honest(net, st) {
      RewoundIsHonest(net, st, shared, most);
    }
  }

  // --- Opening a turn ---

  /** A turn needs both caches at one cursor: a draft side that stands elsewhere is
      dropped, and a prefix without one is too. */
  ghost function Aligned(net: Net, st: State): State {
    var side := if st.v.side.Side? && |st.v.side.rows| != |st.v.tape| then NoBlock else st.v.side;
    if side.NoBlock? && st.v.tape != [] then Zeroed(net).(v := Fresh(net).(side := NoRowsYet))
    else if side.NoBlock? then st.(v := st.v.(side := NoRowsYet)) else st
  }

  /** What a call opens on. */
  ghost function Opened(net: Net, st: State, ids: seq<Token>): State
    requires Proper(net, st)
  {
    Aligned(net, Retained(net, st, ids, |ids| - 1))
  }

  /** Both caches stand at the commit, a prefix of the prompt. */
  ghost predicate Ready(net: Net, st: State, ids: seq<Token>) {
    && Rests(net, st) && 0 !in st.tale && st.v.side.Side?
    && st.v.committed == |st.v.tape| <= |ids| && st.v.tape == ids[..|st.v.tape|]
    && |st.v.side.rows| == st.v.committed && st.mark == MarkOf(st.v.side)
    && (st.v.committed == 0 ==> st.v.side == NoRowsYet)
  }

  lemma OpenedIs(net: Net, st: State, ids: seq<Token>)
    requires Proper(net, st) && 0 !in st.tale
    ensures var r := Opened(net, st, ids);
            && Ready(net, r, ids) && (r.source == Cold ==> r.v.tape == [])
            && (Clean(st) ==> Clean(r)) && (Warm(st) ==> Warm(r)) && (Honest(net, st) ==> Honest(net, r))
  {
    RetainedIs(net, st, ids, |ids| - 1);
    AlignedIs(net, Retained(net, st, ids, |ids| - 1), ids);
  }

  lemma AlignedIs(net: Net, st: State, ids: seq<Token>)
    requires Proper(net, st) && 0 !in st.tale && |st.v.tape| <= |ids| && st.v.tape == ids[..|st.v.tape|]
    requires st.source == Cold ==> st.v.tape == []
    ensures var r := Aligned(net, st);
            && Ready(net, r, ids) && (r.source == Cold ==> r.v.tape == [])
            && (Clean(st) ==> Clean(r)) && (Warm(st) ==> Warm(r)) && (Honest(net, st) ==> Honest(net, r))
  {
  }

  /** A turn has no id to hold exactly when its prompt is what the last turn committed,
      draft side and all. */
  lemma OpenedAtEnd(net: Net, st: State, ids: seq<Token>)
    requires Proper(net, st) && 0 !in st.tale && ids != []
    ensures |Opened(net, st, ids).v.tape| >= |ids| <==> st.v.side.Side? && ids == st.v.tape[..st.v.committed]
  {
    RetainedIs(net, st, ids, |ids| - 1);
    var n := st.v.committed;
    if st.v.side.Side? && ids == st.v.tape[..n] {
      assert ids == ids[..n];
      CommonIs(st.v.tape, ids, n);
    }
    var k := Retained(net, st, ids, |ids| - 1);
    if |k.v.tape| >= |ids| {
      assert ids == ids[..|ids|] == k.v.tape;
      CommonShares(st.v.tape, ids);
    }
  }

  // --- The target alone ---

  /** The target side of a view.  The draft side of `c` is of no account. */
  ghost predicate Leads(c: Core, v: View) {
    c.m == Mem(v.g, v.kv) && c.ready == v.ready
  }

  /** The view with a longer tape and the caches of `c`. */
  function Further(st: State, tape: seq<Token>, c: Core): State {
    st.(v := st.v.(tape := tape, g := c.m.g, ready := c.ready, kv := c.m.kv))
  }

  /** The first `n` spans were forwarded. */
  ghost function Walked(net: Net, st: State, ids: seq<Token>, spans: seq<Span>, c: Core, n: nat): State
    requires n <= |spans| && forall i :: 0 <= i < |spans| ==> spans[i].0 < spans[i].1 <= |ids|
  {
    if n == 0 then st else Further(st, ids[..spans[n - 1].1], FedAll(net, c, ids, spans[..n]))
  }

  lemma WalkedSnoc(net: Net, st: State, ids: seq<Token>, spans: seq<Span>, c: Core, n: nat)
    requires n < |spans| && forall i :: 0 <= i < |spans| ==> spans[i].0 < spans[i].1 <= |ids|
    ensures var at, next := Walked(net, st, ids, spans, c, n),
              Fed(net, FedAll(net, c, ids, spans[..n]), ids[spans[n].0..spans[n].1]);
            && next == FedAll(net, c, ids, spans[..n + 1])
            && Walked(net, st, ids, spans, c, n + 1) == Further(at, ids[..spans[n].1], next)
  {
    assert spans[..n + 1][..n] == spans[..n];
  }

  lemma WalkedAll(net: Net, st: State, ids: seq<Token>, spans: seq<Span>, stop: nat, c: Core)
    requires Partition(spans, |st.v.tape|, stop) && stop <= |ids|
    requires forall i :: 0 <= i < |spans| ==> spans[i].0 < spans[i].1 <= |ids|
    ensures Walked(net, st, ids, spans, c, |spans|)
         == if spans == [] then st else Further(st, ids[..stop], FedAll(net, c, ids, spans))
  {
    assert spans[..|spans|] == spans;
  }

  /** A core that leads from `v`, with the draft side a cold run would have. */
  ghost function Lead(net: Net, v: View): Core {
    Core(Mem(v.g, v.kv), v.ready, Pairs(net, v.tape), if v.tape == [] then None else Some(RowOf(net, v.tape)), 0, 0, 0)
  }

  lemma LeadCoupled(net: Net, v: View)
    requires Truth(net, v)
    ensures Coupled(net, Lead(net, v), v.tape) && Leads(Lead(net, v), v)
  {
  }

  lemma WalkedCoupled(net: Net, v: View, ids: seq<Token>, spans: seq<Span>, stop: nat)
    requires Truth(net, v) && |v.tape| <= stop <= |ids| && v.tape == ids[..|v.tape|] && Carried(v.ready, spans)
    requires Partition(spans, |v.tape|, stop) && forall i :: 0 <= i < |spans| ==> spans[i].0 < spans[i].1 <= |ids|
    ensures Coupled(net, FedAll(net, Lead(net, v), ids, spans), ids[..stop])
  {
    LeadCoupled(net, v);
    FedAllCoupled(net, Lead(net, v), ids, spans, |v.tape|, stop);
  }

  /** The tape grows by spans that carry it: what is resident stays true. */
  lemma WalkedIsHonest(net: Net, st: State, ids: seq<Token>, spans: seq<Span>, stop: nat)
    requires Honest(net, st) && |st.v.tape| <= stop <= |ids| && st.v.tape == ids[..|st.v.tape|]
    requires Partition(spans, |st.v.tape|, stop) && forall i :: 0 <= i < |spans| ==> spans[i].0 < spans[i].1 <= |ids|
    requires Carried(st.v.ready, spans)
    ensures Honest(net, Walked(net, st, ids, spans, Lead(net, st.v), |spans|))
  {
    var c := Lead(net, st.v);
    WalkedAll(net, st, ids, spans, stop, c);
    if spans != [] {
      WalkedCoupled(net, st.v, ids, spans, stop);
      FurtherIsHonest(net, st, ids, stop, FedAll(net, c, ids, spans), Walked(net, st, ids, spans, c, |spans|));
    }
  }

  lemma FurtherIsHonest(net: Net, st: State, ids: seq<Token>, stop: nat, c: Core, after: State)
    requires Honest(net, st) && |st.v.tape| <= stop <= |ids| && st.v.tape == ids[..|st.v.tape|]
    requires Coupled(net, c, ids[..stop]) && after == Further(st, ids[..stop], c)
    ensures Honest(net, after)
  {
    var n, tape := st.v.committed, ids[..stop];
    assert tape[..|st.v.tape|] == ids[..|st.v.tape|];
    assert st.v.tape[..n] == tape[..n];
    TellsPrefix(net, st.v.tape, n, UpTo(st.tale, n), tape, n);
  }

  /** Exactly when: on the network that latches its first id, if and only if no span restarts
      over what was there. */
  lemma WalkedIsExact(
    net: Net, st: State, ids: seq<Token>, spans: seq<Span>, stop: nat, base: Net, b: Rec, x0: Inp, x1: Inp)
    requires Tell(base, b, x0, x1) && net == Latch(base, b, x0, x1, 1)
    requires Proper(net, st) && Honest(net, st) && |st.v.tape| <= stop <= |ids| && st.v.tape == ids[..|st.v.tape|]
    requires Partition(spans, |st.v.tape|, stop) && forall i :: 0 <= i < |spans| ==> spans[i].0 < spans[i].1 <= |ids|
    ensures Truth(net, Walked(net, st, ids, spans, Lead(net, st.v), |spans|).v) <==> Carried(st.v.ready, spans)
  {
    if Carried(st.v.ready, spans) {
      WalkedIsHonest(net, st, ids, spans, stop);
    } else {
      var c, start := Lead(net, st.v), |st.v.tape|;
      LeadCoupled(net, st.v);
      CoupledSize(net, c, st.v.tape);
      CarriedIs(c.ready, spans, start, stop);
      RestartsLate(spans, start, stop);
      LatchIsStill(base, b, x0, x1, 1);
      FedAllDead(net, c, ids, spans, start, stop, 1);
      LatchReads(base, b, x0, x1, 1, Mem(net.zero, []), ids[..stop]);
      WalkedAll(net, st, ids, spans, stop, c);
    }
  }

  /** The page cuts of `ids` above the tape, forwarded. */
  ghost function FilledUp(net: Net, st: State, ids: seq<Token>): State {
    var spans := Bounds(|st.v.tape|, |ids|);
    Walked(net, st, ids, spans, Lead(net, st.v), |spans|)
  }

  lemma FilledUpIs(net: Net, st: State, ids: seq<Token>)
    requires Proper(net, st) && |st.v.tape| <= |ids| && st.v.tape == ids[..|st.v.tape|]
    ensures var p := FilledUp(net, st, ids);
            && Proper(net, p) && p.tale == st.tale && p.v.committed == st.v.committed
            && p.v.tape == ids[..if |st.v.tape| + 1 < |ids| then |ids| - 1 else |st.v.tape|]
            && (Honest(net, st) && Carried(st.v.ready, Bounds(|st.v.tape|, |ids|)) ==> Honest(net, p))
  {
    var spans := Bounds(|st.v.tape|, |ids|);
    if spans != [] {
      WalkedAll(net, st, ids, spans, |ids| - 1, Lead(net, st.v));
      LeadSize(net, st.v, ids, spans, |ids| - 1);
      if Honest(net, st) && Carried(st.v.ready, spans) {
        WalkedIsHonest(net, st, ids, spans, |ids| - 1);
      }
    }
  }

  /** A whole prefill: the tape becomes the prompt less its last id; the commit stays. */
  ghost function Prefilled(net: Net, st: State, ids: seq<Token>): State
    requires Proper(net, st)
  {
    FilledUp(net, Retained(net, st, ids, |ids|), ids)
  }

  lemma PrefilledIs(net: Net, st: State, ids: seq<Token>)
    requires Proper(net, st) && 0 !in st.tale
    ensures var r, p := Retained(net, st, ids, |ids|), Prefilled(net, st, ids);
            && Proper(net, p) && 0 !in p.tale && p.v.committed == r.v.committed && (Clean(st) ==> Clean(p))
            && p.v.tape == ids[..if |r.v.tape| + 1 < |ids| then |ids| - 1 else |r.v.tape|]
            && (Honest(net, st) && Carried(r.v.ready, Bounds(|r.v.tape|, |ids|)) ==> Honest(net, p))
  {
    RetainedIs(net, st, ids, |ids|);
    FilledUpIs(net, Retained(net, st, ids, |ids|), ids);
  }

  /** Exactly when: on the network that latches its first id, a prefill leaves the truth if and
      only if its cuts carry what it resumed. */
  lemma PrefilledIsExact(net: Net, st: State, ids: seq<Token>, base: Net, b: Rec, x0: Inp, x1: Inp)
    requires Tell(base, b, x0, x1) && net == Latch(base, b, x0, x1, 1)
    requires Proper(net, st) && 0 !in st.tale && Honest(net, st)
    ensures var r := Retained(net, st, ids, |ids|);
            Truth(net, Prefilled(net, st, ids).v) <==> Carried(r.v.ready, Bounds(|r.v.tape|, |ids|))
  {
    RetainedIs(net, st, ids, |ids|);
    var r := Retained(net, st, ids, |ids|);
    var spans := Bounds(|r.v.tape|, |ids|);
    if spans != [] {
      WalkedIsExact(net, r, ids, spans, |ids| - 1, base, b, x0, x1);
    }
  }

  lemma LeadSize(net: Net, v: View, ids: seq<Token>, spans: seq<Span>, stop: nat)
    requires |v.kv| == |v.tape| <= stop <= |ids| && Partition(spans, |v.tape|, stop)
    requires forall i :: 0 <= i < |spans| ==> spans[i].0 < spans[i].1 <= |ids|
    ensures |FedAll(net, Lead(net, v), ids, spans).m.kv| == stop
  {
    FedAllSize(net, Lead(net, v), ids, spans, |v.tape|, stop);
  }

  /** Where a turn without a draft side begins. */
  ghost function TurnFrom(net: Net, st: State, ids: seq<Token>): State
    requires Proper(net, st)
  {
    Retained(net, st.(v := st.v.(side := NoBlock)), ids, |ids|)
  }

  lemma TurnFromAgrees(net: Net, st: State, ids: seq<Token>)
    requires Proper(net, st) && 0 !in st.tale && Agrees(net, st, ids)
    ensures Agrees(net, TurnFrom(net, st, ids), ids)
  {
  }

  lemma TurnFromIs(net: Net, st: State, ids: seq<Token>)
    requires Proper(net, st) && 0 !in st.tale
    ensures var from := TurnFrom(net, st, ids);
            && Proper(net, from) && |from.v.tape| <= |ids| && from.v.tape == ids[..|from.v.tape|] && 0 !in from.tale
            && from.v.side.NoBlock? && (Honest(net, st) ==> Honest(net, from))
  {
    RetainedIs(net, st.(v := st.v.(side := NoBlock)), ids, |ids|);
  }
}
