/**
 `sync_headers` as a state machine over disk and memory. Every disk write is a step of its own
 and a crash, which keeps only the disk, may come between any two steps.
 */
module SyncProtocol {
  import opened Wrappers
  import opened Bytes
  import opened Chain
  import opened HeaderLists
  import opened Daemons
  import opened Stores

  datatype Memory = Memory(index: HeaderIndex, synced: set<Hash>)

  datatype CallResult = CallOk | CallMismatch

  datatype Phase =
    | Idle
    | Returned(target: Hash, result: CallResult)
    | Writing(target: Hash, toAdd: seq<HeaderEntry>, pending: seq<Row>)
    | Applying(target: Hash, toAdd: seq<HeaderEntry>)
    | Reloading(target: Hash)
  {
    predicate Ready() {
      Idle? || Returned?
    }
  }

  datatype State = Down(disk: Disk) | Up(disk: Disk, mem: Memory, phase: Phase)

  /** How the download ends: with the headers, with an error, or in a failed assertion. */
  datatype Reply = Served | Failed | Broke

  datatype Event = Begin(tip: Hash, reply: Reply) | WriteChunk | PutTip | ApplyHeaders | Reload | Crash | Open

  /** `sync_headers_to_add` */
  function ToAdd(synced: set<Hash>, es: seq<HeaderEntry>): (r: seq<HeaderEntry>)
    ensures |r| <= |es|
  {
    if es == [] then []
    else
      var n := |es| - 1;
      ToAdd(synced, es[..n]) + if es[n].hash in synced then [] else [es[n]]
  }

  /** What `open` and `reload_store` build from the disk. */
  function Load(blockHash: Header -> Hash, d: Disk): Outcome<Memory> {
    if d.tip.None? then Ok(Memory(EMPTY, d.done))
    else
      match Rebuild(blockHash, d.rows, d.tip.value)
      case Ok(ix) => Ok(Memory(ix, d.done))
      case Err => Err
      case Panic => Panic
  }

  /** Download, order and filter: a call that gets this far has its rows ready to write. */
  function BeginStep(t: BlockTree, s: State, tip: Hash): State
    requires t.Valid() && s.Up? && tip in t.headers
  {
    match s.mem.index.Order(t.blockHash, HeadersOf(Missing(t, s.mem.index, tip)))
    case Ok(es) =>
      var toAdd := ToAdd(s.mem.synced, es);
      s.(phase := Writing(tip, toAdd, SyncRows(toAdd)))
    case _ => Down(s.disk)
  }

  /** One atomic batch of at most 50000 rows. */
  function WriteStep(s: State): State
    requires s.Up? && s.phase.Writing?
  {
    var n := if |s.phase.pending| < ROW_CHUNK then |s.phase.pending| else ROW_CHUNK;
    Up(PutRows(s.disk, SortRows(s.phase.pending[..n])), s.mem, s.phase.(pending := s.phase.pending[n..]))
  }

  /** The synced set grows in memory and the tip row goes to disk. */
  function PutTipStep(s: State): State
    requires s.Up? && s.phase.Writing?
  {
    Up(s.disk.(tip := Some(s.phase.target)),
       s.mem.(synced := s.mem.synced + Hashes(s.phase.toAdd)),
       Applying(s.phase.target, s.phase.toAdd))
  }

  function ApplyStep(s: State): State
    requires s.Up? && s.phase.Applying?
  {
    var after := s.mem.index.AfterApply(s.phase.toAdd);
    if s.mem.index.Accepts(s.phase.toAdd).Panicked? || after.tip != LastHash(after.headers) then Down(s.disk)
    else
      Up(s.disk, s.mem.(index := after),
         if s.phase.target == after.tip then Returned(s.phase.target, CallOk) else Reloading(s.phase.target))
  }

  function ReloadStep(blockHash: Header -> Hash, s: State): State
    requires s.Up? && s.phase.Reloading?
  {
    match Load(blockHash, s.disk)
    case Ok(mem) => Up(s.disk, mem, Returned(s.phase.target, CallMismatch))
    case _ => Down(s.disk)
  }

  function OpenStep(blockHash: Header -> Hash, s: State): State {
    match Load(blockHash, s.disk)
    case Ok(mem) => Up(s.disk, mem, Idle)
    case _ => Down(s.disk)
  }

  /** One step, or `None` when the event is not possible in the state. */
  function Step(t: BlockTree, s: State, e: Event): Option<State>
    requires t.Valid()
  {
    match e
    case Crash => Some(Down(s.disk))
    case Open => if s.Down? then Some(OpenStep(t.blockHash, s)) else None
    case Begin(tip, reply) =>
      if s.Down? || !s.phase.Ready() || tip !in t.headers then None
      else
        (match reply
         case Failed => Some(s.(phase := Idle))
         case Broke => if s.mem.index.headers == [] then Some(Down(s.disk)) else None
         case Served => Some(BeginStep(t, s, tip)))
    case WriteChunk => if s.Up? && s.phase.Writing? && s.phase.pending != [] then Some(WriteStep(s)) else None
    case PutTip => if s.Up? && s.phase.Writing? && s.phase.pending == [] then Some(PutTipStep(s)) else None
    case ApplyHeaders => if s.Up? && s.phase.Applying? then Some(ApplyStep(s)) else None
    case Reload => if s.Up? && s.phase.Reloading? then Some(ReloadStep(t.blockHash, s)) else None
  }

  function Run(t: BlockTree, s: State, es: seq<Event>): Option<State>
    requires t.Valid()
  {
    if es == [] then Some(s)
    else
      match Run(t, s, es[..|es| - 1])
      case None => None
      case Some(mid) => Step(t, mid, es[|es| - 1])
  }

  // ---- the invariant -----------------------------------------------------------------------------

  predicate ParentIn(t: BlockTree, s: set<Hash>, h: Hash) {
    h in t.headers && (t.headers[h].prev == NULL || t.headers[h].prev in s)
  }

  predicate Closed(t: BlockTree, s: set<Hash>) {
    forall h {:trigger ParentIn(t, s, h)} :: h in s ==> ParentIn(t, s, h)
  }

  predicate RowsFromTree(t: BlockTree, rows: map<Hash, Header>) {
    forall h :: h in rows ==> h in t.headers && t.headers[h] == rows[h]
  }

  /** The two kinds of rows agree, every stored header has its whole path stored, and the tip is stored. */
  predicate DiskOk(t: BlockTree, d: Disk) {
    && d.rows.Keys == d.done
    && RowsFromTree(t, d.rows)
    && Closed(t, d.done)
    && (d.tip.Some? ==> d.tip.value in d.done)
  }

  ghost predicate Inv(t: BlockTree, s: State) {
    && t.Valid()
    && DiskOk(t, s.disk)
    && (s.Up? ==>
        && s.mem.index.OnTree(t)
        && Hashes(s.mem.index.headers) <= s.mem.synced
        && Closed(t, s.mem.synced)
        && PhaseOk(t, s.disk, s.mem, s.phase))
  }

  ghost predicate PhaseOk(t: BlockTree, d: Disk, mem: Memory, p: Phase)
    requires t.Valid()
  {
    match p
    case Idle => mem.synced == d.done
    case Returned(target, _) => mem.synced == d.done && mem.index.tip == target && d.tip == Some(target)
    case Writing(target, toAdd, pending) =>
      && target in t.headers
      && toAdd == ToAdd(mem.synced, Missing(t, mem.index, target))
      && Written(d, mem.synced, toAdd, pending)
    case Applying(target, toAdd) =>
      && target in t.headers
      && mem.synced == d.done && d.tip == Some(target)
      && FromTree(t, toAdd) && Hashes(toAdd) <= d.done
    case Reloading(target) => mem.synced == d.done && d.tip == Some(target)
  }

  /** The pending rows are the last rows, cut between entries, and the disk has the entries before them. */
  predicate Written(d: Disk, synced: set<Hash>, toAdd: seq<HeaderEntry>, pending: seq<Row>) {
    |pending| <= 2 * |toAdd| && WrittenUpTo(d, synced, toAdd, pending, |toAdd| - |pending| / 2)
  }

  predicate WrittenUpTo(d: Disk, synced: set<Hash>, toAdd: seq<HeaderEntry>, pending: seq<Row>, w: nat)
    requires w <= |toAdd|
  {
    && |pending| == 2 * (|toAdd| - w)
    && pending == SyncRowsIn(toAdd, w, |toAdd|)
    && d.done == synced + HashesIn(toAdd, 0, w)
  }

  // ---- closed sets -------------------------------------------------------------------------------

  /** A parent-closed set holds the whole path of each of its hashes. */
  lemma {:induction false} ClosedHoldsPath(t: BlockTree, s: set<Hash>, h: Hash)
    requires t.Valid() && Closed(t, s) && t.Known(h) && (h == NULL || h in s)
    ensures Hashes(Path(t, h)) <= s
    decreases t.Depth(h)
  {
    if h == NULL {
    } else {
      assert ParentIn(t, s, h);
      PathHashes(t, h);
      ClosedHoldsPath(t, s, t.Parent(h));
    }
  }

  /** Filtering a linked piece of the tree by a parent-closed set removes exactly a prefix. */
  lemma {:induction false} FilterDropsPrefix(t: BlockTree, synced: set<Hash>, es: seq<HeaderEntry>)
    requires t.Valid() && Closed(t, synced) && Contiguous(es) && FromTree(t, es)
    ensures IsTail(synced, es, ToAdd(synced, es))
    decreases |es|
  {
    if es == [] {
    } else {
      var n := |es| - 1;
      ContiguousSlice(es, 0, n);
      assert es[..n] == es[0..n];
      FilterDropsPrefix(t, synced, es[..n]);
      if n > 0 && es[n].hash in synced {
        assert LinkedAt(es, n) && ParentIn(t, synced, es[n].hash);
        LinkNamesParent(t, es, n);
      }
      TailGrows(synced, es, ToAdd(synced, es[..n]));
    }
  }

  lemma {:induction false} LinkNamesParent(t: BlockTree, es: seq<HeaderEntry>, n: nat)
    requires t.Valid() && FromTree(t, es) && 0 < n < |es| && LinkedAt(es, n)
    ensures t.headers[es[n].hash].prev == es[n - 1].hash != NULL
  {
  }

  lemma {:induction false} TailGrows(known: set<Hash>, es: seq<HeaderEntry>, rest: seq<HeaderEntry>)
    requires es != [] && IsTail(known, es[..|es| - 1], rest)
    requires |es| > 1 && es[|es| - 1].hash in known ==> es[|es| - 2].hash in known
    ensures IsTail(known, es, rest + if es[|es| - 1].hash in known then [] else [es[|es| - 1]])
  {
    assert rest != [] ==> rest[|rest| - 1] == es[|es| - 2];
  }

  predicate GroundedAt(known: set<Hash>, es: seq<HeaderEntry>, i: nat)
    requires i < |es|
  {
    es[i].header.prev == NULL || es[i].header.prev in known || (i > 0 && es[i].header.prev == es[i - 1].hash)
  }

  /** What is left is still linked, and hangs on what was known before. */
  predicate Grounded(known: set<Hash>, es: seq<HeaderEntry>) {
    forall i :: 0 <= i < |es| ==> GroundedAt(known, es, i)
  }

  lemma {:induction false} ClosedGrows(t: BlockTree, known: set<Hash>, es: seq<HeaderEntry>, n: nat)
    requires Closed(t, known) && FromTree(t, es) && Grounded(known, es) && n <= |es|
    ensures Closed(t, known + HashesIn(es, 0, n))
  {
    var all := known + HashesIn(es, 0, n);
    forall h | h in all ensures ParentIn(t, all, h) {
      if h in known {
        assert ParentIn(t, known, h);
      } else {
        var i :| 0 <= i < n && es[i].hash == h;
        assert GroundedAt(known, es, i);
        assert i > 0 ==> es[i - 1].hash in all;
      }
    }
  }

  /** The headers to add for a tip: a linked tail of the missing ones, grounded in the synced set. */
  lemma {:induction false} ToAddShape(t: BlockTree, mem: Memory, tip: Hash)
    requires mem.index.OnTree(t) && tip in t.headers
    requires Closed(t, mem.synced) && Hashes(mem.index.headers) <= mem.synced
    ensures var m := Missing(t, mem.index, tip);
            var a := ToAdd(mem.synced, m);
            && IsTail(mem.synced, m, a)
            && Contiguous(a) && FromTree(t, a) && Grounded(mem.synced, a)
  {
    var m := Missing(t, mem.index, tip);
    MissingContiguous(t, mem.index, tip);
    FilterDropsPrefix(t, mem.synced, m);
    forall i | 0 <= i < |m| ensures GroundedAt(mem.synced, m, i) {
      MissingParent(t, mem.index, tip, i);
    }
    TailShape(t, mem.synced, m, ToAdd(mem.synced, m));
  }

  lemma {:induction false} ToAddIsTail(t: BlockTree, mem: Memory, tip: Hash)
    requires mem.index.OnTree(t) && tip in t.headers
    requires Closed(t, mem.synced) && Hashes(mem.index.headers) <= mem.synced
    ensures IsTail(mem.synced, Missing(t, mem.index, tip), ToAdd(mem.synced, Missing(t, mem.index, tip)))
  {
    ToAddShape(t, mem, tip);
  }

  /** `a` is the end of `m`, and exactly the headers before it are known. */
  predicate IsTail(known: set<Hash>, m: seq<HeaderEntry>, a: seq<HeaderEntry>) {
    && |a| <= |m|
    && (forall i :: 0 <= i < |m| - |a| ==> m[i].hash in known)
    && (forall i :: 0 <= i < |a| ==> a[i] == m[|m| - |a| + i] && a[i].hash !in known)
  }

  lemma {:induction false} TailShape(t: BlockTree, known: set<Hash>, m: seq<HeaderEntry>, a: seq<HeaderEntry>)
    requires Contiguous(m) && FromTree(t, m) && Grounded(known, m) && IsTail(known, m, a)
    ensures Contiguous(a) && FromTree(t, a) && Grounded(known, a)
  {
    var k := |m| - |a|;
    ContiguousSlice(m, k, |m|);
    assert a == m[k..|m|];
    forall i | 0 <= i < |a| ensures GroundedAt(known, a, i) {
      assert GroundedAt(known, m, k + i);
    }
  }

  lemma {:induction false} MissingParent(t: BlockTree, ix: HeaderIndex, tip: Hash, i: nat)
    requires ix.OnTree(t) && t.Known(tip) && i < |Missing(t, ix, tip)|
    ensures GroundedAt(Hashes(ix.headers), Missing(t, ix, tip), i)
  {
    var m := Missing(t, ix, tip);
    MissingLinked(t, ix, tip);
    if i > 0 {
      assert LinkedAt(m, i);
    }
  }

  // ---- the disk writes ---------------------------------------------------------------------------

  predicate RowOk(t: BlockTree, r: Row) {
    r.HeaderRow? ==> r.hash in t.headers && t.headers[r.hash] == r.header
  }

  lemma {:induction false} PutRowsEffect(t: BlockTree, d: Disk, rs: seq<Row>)
    requires RowsFromTree(t, d.rows) && forall r :: r in rs ==> RowOk(t, r)
    ensures var after := PutRows(d, rs);
            && RowsFromTree(t, after.rows) && after.tip == d.tip
            && (forall h :: h in after.rows <==> h in d.rows || exists r :: r in rs && r.HeaderRow? && r.hash == h)
            && (forall h :: h in after.done <==> h in d.done || exists r :: r in rs && r.DoneRow? && r.hash == h)
    decreases |rs|
  {
    if rs == [] {
    } else {
      var n := |rs| - 1;
      assert forall r :: r in rs <==> r in rs[..n] || r == rs[n];
      PutRowsEffect(t, d, rs[..n]);
    }
  }

  /** On rows from the tree the order of the puts makes no difference, so neither does the sort. */
  lemma {:induction false} SortIsHarmless(t: BlockTree, d: Disk, rs: seq<Row>)
    requires RowsFromTree(t, d.rows) && forall r :: r in rs ==> RowOk(t, r)
    ensures PutRows(d, SortRows(rs)) == PutRows(d, rs)
  {
    PutRowsEffect(t, d, rs);
    PutRowsEffect(t, d, SortRows(rs));
    var a, b := PutRows(d, SortRows(rs)), PutRows(d, rs);
    assert forall h :: h in a.rows <==> h in b.rows;
    assert a.rows == b.rows && a.done == b.done;
  }

  /** `after` is `d` with both kinds of rows added for exactly these hashes. */
  predicate Adds(t: BlockTree, d: Disk, after: Disk, hs: set<Hash>) {
    && RowsFromTree(t, after.rows) && after.tip == d.tip
    && after.rows.Keys == d.rows.Keys + hs
    && after.done == d.done + hs
  }

  /** The rows of some entries, in order, add those entries with both kinds of rows. */
  lemma {:induction false} PutSyncRows(t: BlockTree, d: Disk, es: seq<HeaderEntry>, i: nat, j: nat)
    requires RowsFromTree(t, d.rows) && FromTree(t, es) && i <= j <= |es|
    ensures Adds(t, d, PutRows(d, SyncRowsIn(es, i, j)), HashesIn(es, i, j))
  {
    if i < j {
      PutSyncRows(t, d, es, i, j - 1);
      PutLastEntry(d, es, i, j);
      HashesGrow(es, i, j);
      AddOne(t, d, PutRows(d, SyncRowsIn(es, i, j - 1)), HashesIn(es, i, j - 1), es[j - 1]);
    } else {
      assert HashesIn(es, i, j) == {};
    }
  }

  lemma {:induction false} AddOne(t: BlockTree, d: Disk, mid: Disk, hs: set<Hash>, e: HeaderEntry)
    requires Adds(t, d, mid, hs) && e.hash in t.headers && t.headers[e.hash] == e.header
    ensures Adds(t, d, AddEntry(mid, e), hs + {e.hash})
  {
  }

  lemma {:induction false} HashesGrow(es: seq<HeaderEntry>, i: nat, j: nat)
    requires i < j <= |es|
    ensures HashesIn(es, i, j) == HashesIn(es, i, j - 1) + {es[j - 1].hash}
  {
  }

  function AddEntry(d: Disk, e: HeaderEntry): Disk {
    Disk(d.rows[e.hash := e.header], d.done + {e.hash}, d.tip)
  }

  lemma {:induction false} PutLastEntry(d: Disk, es: seq<HeaderEntry>, i: nat, j: nat)
    requires i < j <= |es|
    ensures PutRows(d, SyncRowsIn(es, i, j)) == AddEntry(PutRows(d, SyncRowsIn(es, i, j - 1)), es[j - 1])
  {
    var rs := SyncRowsIn(es, i, j - 1);
    PutLast(d, rs, RowOfEntry(es, j - 1, 0));
    PutLast(d, rs + [RowOfEntry(es, j - 1, 0)], RowOfEntry(es, j - 1, 1));
  }

  lemma {:induction false} PutLast(d: Disk, rs: seq<Row>, r: Row)
    ensures PutRows(d, rs + [r]) == PutRow(PutRows(d, rs), r)
  {
    assert (rs + [r])[..|rs|] == rs;
  }

  lemma {:induction false} SyncRowsOk(t: BlockTree, es: seq<HeaderEntry>, i: nat, j: nat)
    requires FromTree(t, es) && i <= j <= |es|
    ensures forall r :: r in SyncRowsIn(es, i, j) ==> RowOk(t, r)
  {
    if i == j {
    } else {
      SyncRowsOk(t, es, i, j - 1);
    }
  }

  /** A chunk that starts and ends between entries adds exactly those entries. */
  lemma {:induction false} ChunkEffect(t: BlockTree, d: Disk, es: seq<HeaderEntry>, i: nat, j: nat)
    requires RowsFromTree(t, d.rows) && FromTree(t, es) && i <= j <= |es|
    ensures Adds(t, d, PutRows(d, SortRows(SyncRowsIn(es, i, j))), HashesIn(es, i, j))
  {
    SyncRowsOk(t, es, i, j);
    SortIsHarmless(t, d, SyncRowsIn(es, i, j));
    PutSyncRows(t, d, es, i, j);
  }

  // ---- every step keeps the invariant ------------------------------------------------------------

  /** From a good disk, opening and reloading never panic, and they land on the stored tip's path. */
  lemma {:induction false} LoadOk(t: BlockTree, d: Disk)
    requires t.Valid() && DiskOk(t, d)
    ensures var r := Load(t.blockHash, d);
            && r.Ok? && r.value.index.OnTree(t) && r.value.synced == d.done
            && Hashes(r.value.index.headers) <= d.done
            && r.value.index.tip == if d.tip.Some? then d.tip.value else NULL
  {
    if d.tip.Some? {
      assert ParentIn(t, d.done, d.tip.value);
      ClosedHoldsPath(t, d.done, d.tip.value);
      RebuildIsPath(t, d.rows, d.tip.value);
    }
  }

  lemma {:induction false} BeginKeeps(t: BlockTree, s: State, tip: Hash)
    requires Inv(t, s) && s.Up? && s.phase.Ready() && tip in t.headers
    ensures var a := ToAdd(s.mem.synced, Missing(t, s.mem.index, tip));
            BeginStep(t, s, tip) == s.(phase := Writing(tip, a, SyncRows(a)))
    ensures Inv(t, BeginStep(t, s, tip))
  {
    OrderMissing(t, s.mem.index, tip);
    NothingWritten(s.disk, ToAdd(s.mem.synced, Missing(t, s.mem.index, tip)));
  }

  lemma {:induction false} NothingWritten(d: Disk, toAdd: seq<HeaderEntry>)
    ensures Written(d, d.done, toAdd, SyncRows(toAdd))
  {
    assert HashesIn(toAdd, 0, 0) == {};
  }

  lemma {:induction false} WriteKeeps(t: BlockTree, s: State)
    requires Inv(t, s) && s.Up? && s.phase.Writing?
    ensures Inv(t, WriteStep(s))
  {
    ToAddShape(t, s.mem, s.phase.target);
    ChunkWritten(t, s.disk, s.mem.synced, s.phase.toAdd, s.phase.pending);
  }

  lemma {:induction false} ChunkWritten(t: BlockTree, d: Disk, synced: set<Hash>, toAdd: seq<HeaderEntry>, pending: seq<Row>)
    requires t.Valid() && DiskOk(t, d) && Written(d, synced, toAdd, pending)
    requires Closed(t, synced) && FromTree(t, toAdd) && Grounded(synced, toAdd)
    ensures var n := if |pending| < ROW_CHUNK then |pending| else ROW_CHUNK;
            var after := PutRows(d, SortRows(pending[..n]));
            DiskOk(t, after) && Written(after, synced, toAdd, pending[n..])
  {
    var n := if |pending| < ROW_CHUNK then |pending| else ROW_CHUNK;
    var w, m := |toAdd| - |pending| / 2, n / 2;
    assert n == 2 * m;
    ChunkKeepsDisk(t, d, synced, toAdd, pending, w, m);
    UpToIsWritten(PutRows(d, SortRows(pending[..n])), synced, toAdd, pending[n..], w + m);
  }

  lemma {:induction false} UpToIsWritten(d: Disk, synced: set<Hash>, toAdd: seq<HeaderEntry>, pending: seq<Row>, w: nat)
    requires w <= |toAdd| && WrittenUpTo(d, synced, toAdd, pending, w)
    ensures Written(d, synced, toAdd, pending)
  {
  }

  lemma {:induction false} ChunkKeepsDisk(t: BlockTree, d: Disk, synced: set<Hash>, toAdd: seq<HeaderEntry>, pending: seq<Row>, w: nat, m: nat)
    requires t.Valid() && DiskOk(t, d)
    requires w + m <= |toAdd| && WrittenUpTo(d, synced, toAdd, pending, w)
    requires Closed(t, synced) && FromTree(t, toAdd) && Grounded(synced, toAdd)
    ensures var after := PutRows(d, SortRows(pending[..2 * m]));
            DiskOk(t, after) && WrittenUpTo(after, synced, toAdd, pending[2 * m..], w + m)
  {
    ChunkRows(toAdd, pending, w, m);
    ChunkDisk(t, d, synced, toAdd, w, w + m, pending[..2 * m]);
    UpToNext(PutRows(d, SortRows(pending[..2 * m])), synced, toAdd, pending[2 * m..], w + m);
  }

  lemma {:induction false} UpToNext(d: Disk, synced: set<Hash>, toAdd: seq<HeaderEntry>, pending: seq<Row>, w: nat)
    requires w <= |toAdd| && pending == SyncRowsIn(toAdd, w, |toAdd|) && d.done == synced + HashesIn(toAdd, 0, w)
    ensures WrittenUpTo(d, synced, toAdd, pending, w)
  {
  }

  lemma {:induction false} ChunkRows(es: seq<HeaderEntry>, pending: seq<Row>, w: nat, m: nat)
    requires w + m <= |es| && pending == SyncRowsIn(es, w, |es|)
    ensures pending[..2 * m] == SyncRowsIn(es, w, w + m)
    ensures pending[2 * m..] == SyncRowsIn(es, w + m, |es|)
  {
    SyncRowsSplit(es, w, w + m, |es|);
  }

  lemma {:induction false} ChunkDisk(t: BlockTree, d: Disk, synced: set<Hash>, toAdd: seq<HeaderEntry>, i: nat, j: nat, rows: seq<Row>)
    requires t.Valid() && DiskOk(t, d) && i <= j <= |toAdd| && d.done == synced + HashesIn(toAdd, 0, i)
    requires Closed(t, synced) && FromTree(t, toAdd) && Grounded(synced, toAdd)
    requires rows == SyncRowsIn(toAdd, i, j)
    ensures var after := PutRows(d, SortRows(rows));
            DiskOk(t, after) && after.done == synced + HashesIn(toAdd, 0, j)
  {
    var after := PutRows(d, SortRows(rows));
    ChunkEffect(t, d, toAdd, i, j);
    ClosedGrows(t, synced, toAdd, j);
    assert after.done == synced + HashesIn(toAdd, 0, j);
  }

  /** Once everything is written, the tip itself is stored. */
  lemma {:induction false} TargetStored(t: BlockTree, mem: Memory, tip: Hash)
    requires mem.index.OnTree(t) && tip in t.headers
    requires Closed(t, mem.synced) && Hashes(mem.index.headers) <= mem.synced
    ensures tip in mem.synced + Hashes(ToAdd(mem.synced, Missing(t, mem.index, tip)))
  {
    var m := Missing(t, mem.index, tip);
    var a := ToAdd(mem.synced, m);
    ToAddShape(t, mem, tip);
    MissingLinked(t, mem.index, tip);
    if m == [] {
      LookupOnTree(t, mem.index, tip);
    } else if a != [] {
      assert a[|a| - 1] == m[|m| - 1];
    }
  }

  lemma {:induction false} PutTipKeeps(t: BlockTree, s: State)
    requires Inv(t, s) && s.Up? && s.phase.Writing? && s.phase.pending == []
    ensures Inv(t, PutTipStep(s))
  {
    TargetStored(t, s.mem, s.phase.target);
    ToAddShape(t, s.mem, s.phase.target);
    AllWritten(s.disk, s.mem.synced, s.phase.toAdd);
  }

  lemma {:induction false} AllWritten(d: Disk, synced: set<Hash>, toAdd: seq<HeaderEntry>)
    requires Written(d, synced, toAdd, [])
    ensures d.done == synced + Hashes(toAdd)
  {
  }

  lemma {:induction false} ApplyHashes(ix: HeaderIndex, es: seq<HeaderEntry>, known: set<Hash>)
    requires Hashes(ix.headers) <= known && Hashes(es) <= known
    ensures Hashes(ix.AfterApply(es).headers) <= known
  {
    if ix.Accepts(es).Applied? {
      var f := es[0].height;
      var s := ix.headers[..f] + es;
      forall i | 0 <= i < |s| ensures s[i].hash in known {
        if i < f {
          assert ix.headers[i].hash in Hashes(ix.headers);
        } else {
          assert es[i - f].hash in Hashes(es);
        }
      }
    }
  }

  lemma {:induction false} ApplyStepKeeps(t: BlockTree, s: State)
    requires Inv(t, s) && s.Up? && s.phase.Applying?
    ensures Inv(t, ApplyStep(s))
  {
    ApplyKeeps(t, s.mem.index, s.phase.toAdd);
    ApplyHashes(s.mem.index, s.phase.toAdd, s.mem.synced);
  }

  lemma {:induction false} ReloadKeeps(t: BlockTree, s: State)
    requires Inv(t, s) && s.Up? && s.phase.Reloading?
    ensures var r := ReloadStep(t.blockHash, s);
            Inv(t, r) && r.Up? && r.disk == s.disk && r.phase == Returned(s.phase.target, CallMismatch)
  {
    LoadOk(t, s.disk);
  }

  lemma {:induction false} OpenKeeps(t: BlockTree, s: State)
    requires Inv(t, s)
    ensures Inv(t, OpenStep(t.blockHash, s)) && OpenStep(t.blockHash, s).Up?
  {
    LoadOk(t, s.disk);
  }

  lemma {:induction false} BeginEventKeeps(t: BlockTree, s: State, tip: Hash, reply: Reply)
    requires Inv(t, s) && Step(t, s, Begin(tip, reply)).Some?
    ensures Inv(t, Step(t, s, Begin(tip, reply)).value)
  {
    match reply
    case Failed =>
    case Broke =>
    case Served => BeginKeeps(t, s, tip);
  }

  lemma {:induction false} InvStep(t: BlockTree, s: State, e: Event)
    requires Inv(t, s) && Step(t, s, e).Some?
    ensures Inv(t, Step(t, s, e).value)
  {
    match e
    case Begin(tip, reply) => BeginEventKeeps(t, s, tip, reply);
    case WriteChunk => WriteKeeps(t, s);
    case PutTip => PutTipKeeps(t, s);
    case ApplyHeaders => ApplyStepKeeps(t, s);
    case Reload => ReloadKeeps(t, s);
    case Crash =>
    case Open => OpenKeeps(t, s);
  }

  lemma {:induction false} InvRun(t: BlockTree, s: State, es: seq<Event>)
    requires Inv(t, s)
    ensures Run(t, s, es).Some? ==> Inv(t, Run(t, s, es).value)
    decreases |es|
  {
    if es == [] {
    } else {
      InvRun(t, s, es[..|es| - 1]);
      if Run(t, s, es).Some? {
        InvStep(t, Run(t, s, es[..|es| - 1]).value, es[|es| - 1]);
      }
    }
  }

  /**
   The safety theorem. In every run from an empty disk, with a crash allowed between any two
   steps, the disk is consistent, opening it would succeed, and whenever a call has returned
   the memory is the path of the tip it was called with.
   */
  lemma {:induction false} EveryRunIsSafe(t: BlockTree, es: seq<Event>)
    requires t.Valid() && Run(t, Down(EMPTY_DISK), es).Some?
    ensures var s := Run(t, Down(EMPTY_DISK), es).value;
            && Inv(t, s)
            && s.disk.rows.Keys == s.disk.done
            && (forall h :: h in s.disk.done ==> h in t.headers && Hashes(Path(t, h)) <= s.disk.done)
            && (s.disk.tip.Some? ==> s.disk.tip.value in s.disk.done)
            && Load(t.blockHash, s.disk).Ok?
            && (s.Up? && s.phase.Returned? ==> t.Known(s.phase.target) && s.mem.index.headers == Path(t, s.phase.target))
  {
    InvRun(t, Down(EMPTY_DISK), es);
    var s := Run(t, Down(EMPTY_DISK), es).value;
    LoadOk(t, s.disk);
    forall h | h in s.disk.done ensures h in t.headers && Hashes(Path(t, h)) <= s.disk.done {
      assert ParentIn(t, s.disk.done, h);
      ClosedHoldsPath(t, s.disk.done, h);
    }
  }
}
