/**
 The polling loop of `start_indexer`, and two runs in which the code does less than one would
 hope: the loop staying behind the node, and a call that panics.
 */
module IndexerLoop {
  import opened Wrappers
  import opened Bytes
  import opened Chain
  import opened HeaderLists
  import opened Daemons
  import opened Stores
  import opened SyncProtocol
  import opened SyncCalls
  import opened Indexers

  /** `tip` is the loop's own variable: the last tip a call returned `Ok` for. */
  datatype Loop = Loop(state: State, tip: Hash)

  /** One round: what `getbestblockhash` answered, and whether the download then succeeds. */
  datatype Poll = Poll(best: Option<Hash>, served: bool)

  predicate Calls(l: Loop, p: Poll) {
    p.best.Some? && p.best.value != l.tip && p.served
  }

  function AfterPoll(t: BlockTree, l: Loop, p: Poll): Loop
    requires t.Valid() && l.state.Up? && l.state.phase.Ready()
    requires p.best.Some? ==> p.best.value in t.headers
  {
    if p.best.None? || p.best.value == l.tip then l
    else if !p.served then l.(state := l.state.(phase := Idle))
    else
      var after := Call(t, l.state, p.best.value);
      Loop(after, if after.Up? && after.phase == Returned(p.best.value, CallOk) then p.best.value else l.tip)
  }

  ghost predicate LoopOk(t: BlockTree, l: Loop) {
    Inv(t, l.state) && l.state.Up? && l.state.phase.Ready()
  }

  lemma {:induction false} PollKeeps(t: BlockTree, l: Loop, p: Poll)
    requires LoopOk(t, l) && (p.best.Some? ==> p.best.value in t.headers)
    ensures var after := AfterPoll(t, l, p);
            && (after.state.Up? ==> LoopOk(t, after))
            && (Calls(l, p) && after.state.Up? ==>
                  && after.state.mem.index.headers == Path(t, p.best.value)
                  && after.state.mem.index.tip == p.best.value
                  && after.tip == if Foresee(t, l.state.mem, p.best.value) == Success then p.best.value else l.tip)
            && (!Calls(l, p) ==> after.state.Up? && after.state.mem == l.state.mem && after.tip == l.tip)
  {
    if Calls(l, p) {
      CallReachesTip(t, l.state, p.best.value);
    }
  }

  /** The loop after a series of rounds, as long as no call panics. */
  function AfterPolls(t: BlockTree, l: Loop, ps: seq<Poll>): Option<Loop>
    requires t.Valid() && (forall p <- ps :: p.best.Some? ==> p.best.value in t.headers)
    decreases |ps|
  {
    if ps == [] then Some(l)
    else
      match AfterPolls(t, l, ps[..|ps| - 1])
      case None => None
      case Some(mid) =>
        if mid.state.Down? || !mid.state.phase.Ready() then None else Some(AfterPoll(t, mid, ps[|ps| - 1]))
  }

  /** Whether the last round that made a call got the mismatch error. */
  function Missed(t: BlockTree, l: Loop, ps: seq<Poll>): bool
    requires t.Valid() && (forall p <- ps :: p.best.Some? ==> p.best.value in t.headers)
    requires AfterPolls(t, l, ps).Some?
    decreases |ps|
  {
    if ps == [] then false
    else
      var p, mid := ps[|ps| - 1], AfterPolls(t, l, ps[..|ps| - 1]).value;
      if Calls(mid, p) then Foresee(t, mid.state.mem, p.best.value) != Success
      else Missed(t, l, ps[..|ps| - 1])
  }

  /** The thread itself: its own `tip` and the indexer it drives. */
  class IndexerThread {
    const indexer: Indexer
    var tip: Hash

    constructor (indexer: Indexer, tip: Hash)
      ensures this.indexer == indexer && this.tip == tip
    {
      this.indexer, this.tip := indexer, tip;
    }

    ghost function View(): Loop
      reads this, indexer.store, indexer.store.syncHeaders, indexer.store.db
    {
      Loop(Up(indexer.store.db.disk, indexer.store.Mem(), Idle), tip)
    }

    /**
     One round of the loop; false when the thread has panicked: in a call that crashes, or in the checks
     of a first download whose requests were all answered but whose tip left the active chain meanwhile.
     A call is skipped only when there is nothing to do or its download failed.
     */
    method Round(daemon: Daemon, best: Option<Hash>) returns (alive: bool)
      requires indexer.store.Valid() && daemon.Valid() && (best.Some? ==> best.value in daemon.tree.headers)
      requires indexer.store.blockHash == daemon.tree.blockHash
      requires Inv(daemon.tree, Up(indexer.store.db.disk, indexer.store.Mem(), Idle))
      modifies this, indexer.store, indexer.store.db, indexer.store.syncHeaders, daemon
      ensures indexer.store.Valid() && old(daemon.messageId) <= daemon.messageId
      ensures alive ==> exists served ::
                SameLoop(AfterPoll(daemon.tree, old(View()), Poll(best, served)), View())
                && (served || !RequestsServed(daemon, best, old(View()), old(daemon.messageId)))
      ensures !alive ==> best.Some? && best.value != old(tip) && tip == old(tip)
      ensures !alive ==>
                || AfterPoll(daemon.tree, old(View()), Poll(best, true)).state == Down(indexer.store.db.disk)
                || (old(indexer.store.syncHeaders.headers) == [] && indexer.store.db.disk == old(indexer.store.db.disk)
                    && daemon.NoFailure(old(daemon.messageId), daemon.messageId)
                    && !daemon.Calm(best.value, old(daemon.messageId), daemon.messageId))
      ensures alive ==> Inv(daemon.tree, View().state)
    {
      ghost var before, id := View(), daemon.messageId;
      if best.None? || best.value == tip {
        assert SameLoop(AfterPoll(daemon.tree, before, Poll(best, true)), View());
        return true;
      }
      CallReachesTip(daemon.tree, before.state, best.value);
      var outcome := indexer.SyncHeaders(daemon, best.value);
      match outcome {
        case Synced =>
          tip := best.value;
          assert SameLoop(AfterPoll(daemon.tree, before, Poll(best, true)), View());
          return true;
        case NotEqual =>
          assert SameLoop(AfterPoll(daemon.tree, before, Poll(best, true)), View());
          return true;
        case DownloadFailed =>
          assert SameLoop(AfterPoll(daemon.tree, before, Poll(best, false)), View());
          assert !RequestsServed(daemon, best, before, id);
          return true;
        case _ =>
          return false;
      }
    }
  }

  /** The requests of the round, numbered from after `id`, were all that its download needs. */
  ghost predicate RequestsServed(daemon: Daemon, best: Option<Hash>, before: Loop, id: nat)
    requires daemon.Valid() && before.state.Up?
    reads daemon
  {
    best.None? || daemon.Serves(before.state.mem.index.headers, best.value, id, daemon.messageId)
  }

  /** The same memory, disk and loop tip; the phase only records how the last call ended. */
  predicate SameLoop(a: Loop, b: Loop) {
    a.state.Up? && b.state.Up? && a.state.disk == b.state.disk && a.state.mem == b.state.mem && a.tip == b.tip
  }

  /** Memory agrees with the loop's tip exactly when the last call did not end in the mismatch error. */
  lemma {:induction false} LoopInStep(t: BlockTree, l: Loop, ps: seq<Poll>)
    requires LoopOk(t, l) && l.state.mem.index.tip == l.tip
    requires forall p <- ps :: p.best.Some? ==> p.best.value in t.headers
    requires AfterPolls(t, l, ps).Some? && AfterPolls(t, l, ps).value.state.Up?
    ensures var after := AfterPolls(t, l, ps).value;
            LoopOk(t, after) && (after.state.mem.index.tip == after.tip <==> !Missed(t, l, ps))
    decreases |ps|
  {
    if ps == [] {
    } else {
      LoopInStep(t, l, ps[..|ps| - 1]);
      PollKeeps(t, AfterPolls(t, l, ps[..|ps| - 1]).value, ps[|ps| - 1]);
    }
  }

  /**
   Going back to a block that was synced before always ends in the mismatch error. If the node then
   returns to the loop's own tip, the loop sees nothing to do and memory stays on the other block.
   */
  lemma {:induction false} ReturningGoesStale(t: BlockTree, l: Loop, back: Hash)
    requires LoopOk(t, l) && l.state.mem.index.tip == l.tip && l.tip in t.headers
    requires back in l.state.mem.synced && back != l.tip
    ensures back in t.headers
    ensures var once := AfterPoll(t, l, Poll(Some(back), true));
            && LoopOk(t, once) && once.tip == l.tip
            && once.state.mem.index.headers == Path(t, back) != Path(t, l.tip)
            && AfterPoll(t, once, Poll(Some(l.tip), true)) == once
  {
    assert ParentIn(t, l.state.mem.synced, back);
    SyncedIsMismatch(t, l.state.mem, back);
    CallReachesTip(t, l.state, back);
    PollKeeps(t, l, Poll(Some(back), true));
    PathShape(t, back);
    PathShape(t, l.tip);
  }

  /** A call for a block that is stored but is not the current tip neither succeeds nor panics. */
  lemma {:induction false} SyncedIsMismatch(t: BlockTree, mem: Memory, tip: Hash)
    requires mem.index.OnTree(t) && tip in t.headers && tip in mem.synced && tip != mem.index.tip
    requires Closed(t, mem.synced) && Hashes(mem.index.headers) <= mem.synced
    ensures Foresee(t, mem, tip) == Mismatch
  {
    var m := Missing(t, mem.index, tip);
    var a := ToAdd(mem.synced, m);
    ToAddIsTail(t, mem, tip);
    MissingLinked(t, mem.index, tip);
    if a != [] {
      TailEndsUnknown(mem.synced, m, a);
    }
  }

  lemma {:induction false} TailEndsUnknown(known: set<Hash>, m: seq<HeaderEntry>, a: seq<HeaderEntry>)
    requires IsTail(known, m, a) && a != []
    ensures LastHash(m) !in known
  {
    assert a[|a| - 1] == m[|m| - |a| + (|a| - 1)];
  }

  // ---- runs that panic ---------------------------------------------------------------------------

  /** Block `g` at the root, `a` above it on one side, and `b`, `c`, `d` above it on the other. */
  ghost predicate Forked(t: BlockTree, g: Hash, a: Hash, b: Hash, c: Hash, d: Hash) {
    && t.Valid() && {g, a, b, c, d} <= t.headers.Keys && a != b
    && t.headers[g].prev == NULL && t.headers[a].prev == g
    && t.headers[b].prev == g && t.headers[c].prev == b && t.headers[d].prev == c
  }

  lemma {:induction false} ForkedPaths(t: BlockTree, g: Hash, a: Hash, b: Hash, c: Hash, d: Hash)
    requires Forked(t, g, a, b, c, d)
    ensures Path(t, a) == [t.Entry(g), t.Entry(a)]
    ensures Path(t, c) == [t.Entry(g), t.Entry(b), t.Entry(c)]
    ensures t.heights[g] == 0 && t.heights[a] == 1 && t.heights[b] == 1 && t.heights[c] == 2 && t.heights[d] == 3
  {
    assert t.Parent(g) == NULL && t.Parent(a) == g && t.Parent(b) == g && t.Parent(c) == b && t.Parent(d) == c;
    assert Path(t, g) == [t.Entry(g)];
    assert Path(t, b) == [t.Entry(g), t.Entry(b)];
  }

  /** A call whose missing headers are all unknown succeeds. */
  lemma {:induction false} AllNewSucceeds(t: BlockTree, mem: Memory, tip: Hash)
    requires mem.index.OnTree(t) && tip in t.headers
    requires Closed(t, mem.synced) && Hashes(mem.index.headers) <= mem.synced
    requires var m := Missing(t, mem.index, tip); m != [] && m[0].hash !in mem.synced
    ensures ToAdd(mem.synced, Missing(t, mem.index, tip)) == Missing(t, mem.index, tip)
    ensures Foresee(t, mem, tip) == Success
  {
    ToAddIsTail(t, mem, tip);
    WholeTail(mem.synced, Missing(t, mem.index, tip), ToAdd(mem.synced, Missing(t, mem.index, tip)));
  }

  lemma {:induction false} WholeTail(known: set<Hash>, m: seq<HeaderEntry>, a: seq<HeaderEntry>)
    requires IsTail(known, m, a) && m != [] && m[0].hash !in known
    ensures a == m
  {
    assert |a| == |m|;
    assert forall i :: 0 <= i < |a| ==> a[i] == m[|m| - |a| + i];
  }

  /** What is on the chain after the shorter side has won. */
  lemma {:induction false} OnShortSide(t: BlockTree, ix: HeaderIndex, g: Hash, a: Hash, b: Hash, c: Hash, d: Hash)
    requires Forked(t, g, a, b, c, d) && ix.OnTree(t) && ix.tip == a
    ensures Missing(t, ix, d) == [t.Entry(b), t.Entry(c), t.Entry(d)] && |ix.headers| == 2
  {
    ForkedPaths(t, g, a, b, c, d);
    LookupOnTree(t, ix, g);
    LookupOnTree(t, ix, b);
    LookupOnTree(t, ix, c);
    LookupOnTree(t, ix, d);
    assert ix.headers[0].hash == g;
    assert Missing(t, ix, g) == [];
    assert Missing(t, ix, b) == [] + [t.Entry(b)];
    assert Missing(t, ix, c) == [t.Entry(b)] + [t.Entry(c)];
  }

  lemma {:induction false} FilterThree(synced: set<Hash>, x: HeaderEntry, y: HeaderEntry, z: HeaderEntry)
    requires x.hash in synced && y.hash in synced && z.hash !in synced
    ensures ToAdd(synced, [x, y, z]) == [z]
  {
    var m := [x, y, z];
    assert m[..2] == [x, y] && [x, y][..1] == [x] && [x][..0] == [];
    assert ToAdd(synced, [x]) == [];
    assert ToAdd(synced, [x, y]) == [];
  }

  /** On the shorter side, with the start of the longer one already stored, a call for its end panics. */
  lemma {:induction false} ShortSideCrashes(t: BlockTree, s: State, g: Hash, a: Hash, b: Hash, c: Hash, d: Hash)
    requires Forked(t, g, a, b, c, d) && Inv(t, s) && s.Up? && s.phase.Ready()
    requires s.mem.index.tip == a && b in s.mem.synced && c in s.mem.synced && d !in s.mem.synced
    ensures Call(t, s, d).Down?
  {
    OnShortSide(t, s.mem.index, g, a, b, c, d);
    FilterThree(s.mem.synced, t.Entry(b), t.Entry(c), t.Entry(d));
    ForkedPaths(t, g, a, b, c, d);
    CallReachesTip(t, s, d);
  }

  /**
   The panic is reachable in every tree with such a fork: sync to `c`, let the node move to `a`
   and sync, let it move to `d` and sync.
   */
  lemma {:induction false} PanicIsReachable(t: BlockTree, g: Hash, a: Hash, b: Hash, c: Hash, d: Hash) returns (es: seq<Event>, s: State)
    requires Forked(t, g, a, b, c, d)
    ensures Run(t, Down(EMPTY_DISK), es) == Some(s)
    ensures s.Up? && s.phase == Returned(a, CallOk) && Call(t, s, d).Down?
  {
    var s0 := Up(EMPTY_DISK, Memory(EMPTY, {}), Idle);
    RunSnoc(t, Down(EMPTY_DISK), [], Open);
    var s1;
    es, s1 := SyncFirst(t, s0, [] + [Open], g, a, b, c, d);
    es, s := SyncSecond(t, s1, es, g, a, b, c, d);
    ShortSideCrashes(t, s, g, a, b, c, d);
  }

  /**
   The loop does go stale in every tree with such a fork: sync to `c` as the loop's tip, let the node
   move back to `b` for one round and return to `c`.
   */
  lemma {:induction false} StaleIsReachable(t: BlockTree, g: Hash, a: Hash, b: Hash, c: Hash, d: Hash)
    returns (es: seq<Event>, s: State)
    requires Forked(t, g, a, b, c, d)
    ensures Run(t, Down(EMPTY_DISK), es) == Some(s)
    ensures LoopOk(t, Loop(s, c)) && s.mem.index.tip == c
    ensures var once := AfterPoll(t, Loop(s, c), Poll(Some(b), true));
            && LoopOk(t, once)
            && var twice := AfterPoll(t, once, Poll(Some(c), true));
            twice.tip == c && twice.state.Up? && twice.state.mem.index.headers == Path(t, b) != Path(t, c)
  {
    var s0 := Up(EMPTY_DISK, Memory(EMPTY, {}), Idle);
    RunSnoc(t, Down(EMPTY_DISK), [], Open);
    es, s := SyncFirst(t, s0, [] + [Open], g, a, b, c, d);
    ForkedApart(t, g, a, b, c, d);
    ReturningGoesStale(t, Loop(s, c), b);
  }

  lemma {:induction false} SyncFirst(t: BlockTree, s0: State, es: seq<Event>, g: Hash, a: Hash, b: Hash, c: Hash, d: Hash)
    returns (all: seq<Event>, s: State)
    requires Forked(t, g, a, b, c, d) && s0 == Up(EMPTY_DISK, Memory(EMPTY, {}), Idle)
    requires Run(t, Down(EMPTY_DISK), es) == Some(s0)
    ensures Run(t, Down(EMPTY_DISK), all) == Some(s) && Inv(t, s)
    ensures s.Up? && s.phase.Ready() && s.mem.index.tip == c && s.mem.synced == {g, b, c}
  {
    ForkedPaths(t, g, a, b, c, d);
    NothingIndexed(t, EMPTY, c);
    AllNewSucceeds(t, s0.mem, c);
    CallSucceeds(t, s0, c);
    s := Call(t, s0, c);
    ThreeHashes(t.Entry(g), t.Entry(b), t.Entry(c));
    all := CallIsRun(t, Down(EMPTY_DISK), es, s0, c);
  }

  lemma {:induction false} ThreeHashes(x: HeaderEntry, y: HeaderEntry, z: HeaderEntry)
    ensures Hashes([x, y, z]) == {x.hash, y.hash, z.hash}
  {
    var m := [x, y, z];
    assert m[0] == x && m[1] == y && m[2] == z;
  }

  lemma {:induction false} SyncSecond(t: BlockTree, s1: State, es: seq<Event>, g: Hash, a: Hash, b: Hash, c: Hash, d: Hash)
    returns (all: seq<Event>, s: State)
    requires Forked(t, g, a, b, c, d) && Run(t, Down(EMPTY_DISK), es) == Some(s1) && Inv(t, s1)
    requires s1.Up? && s1.phase.Ready() && s1.mem.index.tip == c && s1.mem.synced == {g, b, c}
    ensures Run(t, Down(EMPTY_DISK), all) == Some(s) && Inv(t, s)
    ensures s.Up? && s.phase == Returned(a, CallOk) && s.mem.index.tip == a && s.mem.synced == {g, a, b, c}
    ensures d !in s.mem.synced
  {
    ShortSideIsNew(t, s1.mem, g, a, b, c, d);
    CallSucceeds(t, s1, a);
    s := Call(t, s1, a);
    ForkedApart(t, g, a, b, c, d);
    all := CallIsRun(t, Down(EMPTY_DISK), es, s1, a);
  }

  /** From the longer side, the shorter one is one new block. */
  lemma {:induction false} ShortSideIsNew(t: BlockTree, mem: Memory, g: Hash, a: Hash, b: Hash, c: Hash, d: Hash)
    requires Forked(t, g, a, b, c, d) && mem.index.OnTree(t) && mem.index.tip == c && mem.synced == {g, b, c}
    requires Closed(t, mem.synced) && Hashes(mem.index.headers) <= mem.synced
    ensures Foresee(t, mem, a) == Success
    ensures Hashes(ToAdd(mem.synced, Missing(t, mem.index, a))) == {a}
  {
    OnLongSide(t, mem.index, g, a, b, c, d);
    AllNewSucceeds(t, mem, a);
    assert [t.Entry(a)][0].hash == a;
  }

  lemma {:induction false} ForkedApart(t: BlockTree, g: Hash, a: Hash, b: Hash, c: Hash, d: Hash)
    requires Forked(t, g, a, b, c, d)
    ensures d !in {g, a, b, c} && b != c
  {
    ForkedPaths(t, g, a, b, c, d);
  }

  lemma {:induction false} OnLongSide(t: BlockTree, ix: HeaderIndex, g: Hash, a: Hash, b: Hash, c: Hash, d: Hash)
    requires Forked(t, g, a, b, c, d) && ix.OnTree(t) && ix.tip == c
    ensures Missing(t, ix, a) == [t.Entry(a)] && a !in {g, b, c}
  {
    ForkedPaths(t, g, a, b, c, d);
    LookupOnTree(t, ix, g);
    LookupOnTree(t, ix, a);
    ThreeHashes(t.Entry(g), t.Entry(b), t.Entry(c));
    assert Missing(t, ix, g) == [];
    assert t.Parent(a) == g;
    assert Missing(t, ix, a) == [] + [t.Entry(a)];
  }

  /** Such trees exist. The demo hash function returns the Merkle root. */
  lemma {:induction false} ForkedTreeExists() returns (t: BlockTree)
    ensures Forked(t, 1, 2, 3, 4, 5)
  {
    t := BlockTree(DemoHash,
                   map[1 := DemoHeader(0, 1), 2 := DemoHeader(1, 2), 3 := DemoHeader(1, 3), 4 := DemoHeader(3, 4), 5 := DemoHeader(4, 5)],
                   map[1 := 0, 2 := 1, 3 := 1, 4 := 2, 5 := 3]);
    assert t.Placed(1) && t.Placed(2) && t.Placed(3) && t.Placed(4) && t.Placed(5);
  }

  function DemoHash(h: Header): Hash {
    h.merkleRoot
  }

  function DemoHeader(prev: Hash, own: Hash): Header {
    Header(1, prev, own, 0, 0, 0)
  }

  lemma {:induction false} InterruptedIsForeseen(t: BlockTree, mem: Memory, tip: Hash)
    requires mem.index == EMPTY && t.Valid() && tip in t.headers && Closed(t, mem.synced)
    requires Path(t, tip)[0].hash in mem.synced && tip !in mem.synced
    ensures Foresee(t, mem, tip) == Crashes
  {
    NothingIndexed(t, EMPTY, tip);
    ToAddIsTail(t, mem, tip);
    TailInside(t, mem.synced, tip, ToAdd(mem.synced, Path(t, tip)));
  }

  lemma {:induction false} TailInside(t: BlockTree, known: set<Hash>, tip: Hash, a: seq<HeaderEntry>)
    requires t.Valid() && tip in t.headers && IsTail(known, Path(t, tip), a)
    requires Path(t, tip)[0].hash in known && tip !in known
    ensures a != [] && a != Path(t, tip) && a[0].height > 0
  {
    var m := Path(t, tip);
    PathShape(t, tip);
    assert m[|m| - 1].hash == tip;
    assert a[0] == m[|m| - |a| + 0];
  }

  /**
   After a crash in the middle of the very first download, with some but not all of the path
   stored and no tip row yet, the next call always panics; the one after opening again does not.
   */
  lemma {:induction false} InterruptedFirstSyncCrashes(t: BlockTree, s: State, tip: Hash)
    requires Inv(t, s) && s.Up? && s.phase.Ready() && tip in t.headers
    requires s.mem.index == EMPTY
    requires Path(t, tip)[0].hash in s.mem.synced && tip !in s.mem.synced
    ensures Call(t, s, tip).Down?
    ensures OpenStep(t.blockHash, Call(t, s, tip)).Up?
    ensures OpenStep(t.blockHash, Call(t, s, tip)).mem.index.headers == Path(t, tip)
  {
    InterruptedIsForeseen(t, s.mem, tip);
    CallReachesTip(t, s, tip);
  }

  const CHUNK_ENTRIES := ROW_CHUNK / 2

  /** A database that holds the first part of the tip's path and no tip row. */
  ghost predicate CutOff(t: BlockTree, d: Disk, tip: Hash)
    requires t.Valid() && tip in t.headers
  {
    CHUNK_ENTRIES < |Path(t, tip)| && d.done == HashesIn(Path(t, tip), 0, CHUNK_ENTRIES) && d.tip.None?
  }

  lemma {:induction false} FirstBatchRows(t: BlockTree, es: seq<HeaderEntry>, rows: seq<Row>, n: nat)
    requires t.Valid() && FromTree(t, es) && n <= |es| && rows == SyncRowsIn(es, 0, |es|)
    ensures |rows| == 2 * |es|
    ensures PutRows(EMPTY_DISK, SortRows(rows[..2 * n])).done == HashesIn(es, 0, n)
    ensures PutRows(EMPTY_DISK, SortRows(rows[..2 * n])).tip.None?
  {
    ChunkRows(es, rows, 0, n);
    ChunkEffect(t, EMPTY_DISK, es, 0, n);
  }

  /** The first batch of a first download of more than one batch. */
  lemma {:induction false} FirstBatch(t: BlockTree, es: seq<HeaderEntry>, s: State)
    requires t.Valid() && FromTree(t, es) && |es| > CHUNK_ENTRIES
    requires s.Up? && s.disk == EMPTY_DISK && s.phase.Writing? && s.phase.pending == SyncRowsIn(es, 0, |es|)
    ensures s.phase.pending != []
    ensures WriteStep(s).disk.done == HashesIn(es, 0, CHUNK_ENTRIES) && WriteStep(s).disk.tip.None?
  {
    FirstBatchRows(t, es, s.phase.pending, CHUNK_ENTRIES);
  }

  lemma {:induction false} CutOffMeets(t: BlockTree, d: Disk, tip: Hash)
    requires t.Valid() && tip in t.headers && CutOff(t, d, tip)
    ensures Path(t, tip)[0].hash in d.done && tip !in d.done
  {
    var p := Path(t, tip);
    PathLinked(t, tip);
    PathShape(t, tip);
    if tip in d.done {
      var i :| 0 <= i < CHUNK_ENTRIES && p[i].hash == tip;
      NoRepeats(t, p, i, |p| - 1);
    }
  }

  /** The first call from an empty database begins by writing the whole path. */
  lemma {:induction false} FirstBegins(t: BlockTree, tip: Hash)
    requires t.Valid() && tip in t.headers
    ensures var s := Up(EMPTY_DISK, Memory(EMPTY, {}), Idle);
            BeginStep(t, s, tip) == s.(phase := Writing(tip, Path(t, tip), SyncRows(Path(t, tip))))
  {
    var s := Up(EMPTY_DISK, Memory(EMPTY, {}), Idle);
    NothingIndexed(t, EMPTY, tip);
    assert Path(t, tip) != [];
    AllNewSucceeds(t, s.mem, tip);
    BeginKeeps(t, s, tip);
  }

  /** The run that is cut off after its first batch, and opened again. */
  function CutOffRun(tip: Hash): seq<Event> {
    [Open, Begin(tip, Served), WriteChunk, Crash, Open]
  }

  lemma {:induction false} RunStep(t: BlockTree, s0: State, es: seq<Event>, s: State, e: Event, next: State)
    requires t.Valid() && Run(t, s0, es) == Some(s) && Step(t, s, e) == Some(next)
    ensures Run(t, s0, es + [e]) == Some(next)
  {
    RunSnoc(t, s0, es, e);
  }

  lemma {:induction false} CutOffRunSteps(t: BlockTree, tip: Hash, s1: State, s2: State, s3: State, s5: State)
    requires t.Valid() && Step(t, Down(EMPTY_DISK), Open) == Some(s1)
    requires Step(t, s1, Begin(tip, Served)) == Some(s2)
    requires Step(t, s2, WriteChunk) == Some(s3) && Step(t, Down(s3.disk), Open) == Some(s5)
    ensures Run(t, Down(EMPTY_DISK), CutOffRun(tip)) == Some(s5)
  {
    var s0 := Down(EMPTY_DISK);
    var es := [] + [Open];
    RunStep(t, s0, [], s0, Open, s1);
    RunStep(t, s0, es, s1, Begin(tip, Served), s2);
    es := es + [Begin(tip, Served)];
    RunStep(t, s0, es, s2, WriteChunk, s3);
    es := es + [WriteChunk];
    LastSteps(t, s0, es, s3, s5);
    assert es + [Crash] + [Open] == CutOffRun(tip);
  }

  lemma {:induction false} LastSteps(t: BlockTree, s0: State, es: seq<Event>, s: State, next: State)
    requires t.Valid() && Run(t, s0, es) == Some(s) && Step(t, Down(s.disk), Open) == Some(next)
    ensures Run(t, s0, es + [Crash] + [Open]) == Some(next)
  {
    RunStep(t, s0, es, s, Crash, Down(s.disk));
    RunStep(t, s0, es + [Crash], Down(s.disk), Open, next);
  }

  /**
   In every tree, for every tip whose path needs more than one batch: a crash right after the first
   batch of the first download leads, on opening, to a state whose next call for that tip panics,
   and opening after that panic gives the tip's path.
   */
  lemma {:induction false} CutOffDownloadCrashes(t: BlockTree, tip: Hash) returns (s: State)
    requires t.Valid() && tip in t.headers && t.Depth(tip) > CHUNK_ENTRIES
    ensures Run(t, Down(EMPTY_DISK), CutOffRun(tip)) == Some(s)
    ensures s.Up? && s.phase.Ready() && s.mem.index == EMPTY
    ensures Call(t, s, tip).Down?
    ensures OpenStep(t.blockHash, Call(t, s, tip)).Up?
    ensures OpenStep(t.blockHash, Call(t, s, tip)).mem.index.headers == Path(t, tip)
  {
    var s1 := Up(EMPTY_DISK, Memory(EMPTY, {}), Idle);
    var s2 := s1.(phase := Writing(tip, Path(t, tip), SyncRows(Path(t, tip))));
    var s3 := WriteStep(s2);
    FirstBegins(t, tip);
    PathLinked(t, tip);
    FirstBatch(t, Path(t, tip), s2);
    s := Up(s3.disk, Memory(EMPTY, s3.disk.done), Idle);
    CutOffRunSteps(t, tip, s1, s2, s3, s);
    CutOffMeets(t, s3.disk, tip);
    InvRun(t, Down(EMPTY_DISK), CutOffRun(tip));
    InterruptedFirstSyncCrashes(t, s, tip);
  }
}
