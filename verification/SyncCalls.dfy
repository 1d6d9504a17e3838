/** What one whole `sync_headers` call does, when it does not crash, and what a retry does. */
module SyncCalls {
  import opened Wrappers
  import opened Bytes
  import opened Chain
  import opened HeaderLists
  import opened Daemons
  import opened Stores
  import opened SyncProtocol

  /** The one step a call takes next. */
  function Advance(t: BlockTree, s: State): State
    requires t.Valid() && s.Up? && !s.phase.Ready()
  {
    match s.phase
    case Writing(_, _, pending) => if pending == [] then PutTipStep(s) else WriteStep(s)
    case Applying(_, _) => ApplyStep(s)
    case Reloading(_) => ReloadStep(t.blockHash, s)
  }

  lemma {:induction false} AdvanceIsStep(t: BlockTree, s: State)
    requires Inv(t, s) && s.Up? && !s.phase.Ready()
    ensures exists e :: Step(t, s, e) == Some(Advance(t, s))
    ensures Inv(t, Advance(t, s))
  {
    var e := match s.phase
             case Writing(_, _, pending) => if pending == [] then PutTip else WriteChunk
             case Applying(_, _) => ApplyHeaders
             case Reloading(_) => Reload;
    assert Step(t, s, e) == Some(Advance(t, s));
    InvStep(t, s, e);
  }

  function StepsLeft(s: State): nat {
    if s.Down? || s.phase.Ready() then 0
    else
      match s.phase
      case Writing(_, _, pending) => 3 + |pending|
      case Applying(_, _) => 2
      case Reloading(_) => 1
  }

  /** Running a call to its end without a crash. */
  function Finish(t: BlockTree, s: State): State
    requires t.Valid()
    decreases StepsLeft(s)
  {
    if s.Down? || s.phase.Ready() then s else Finish(t, Advance(t, s))
  }

  function Call(t: BlockTree, s: State, tip: Hash): State
    requires t.Valid() && s.Up? && s.phase.Ready() && tip in t.headers
  {
    Finish(t, BeginStep(t, s, tip))
  }

  /** The disk after each of the writes a call has still to make. */
  function DiskWrites(t: BlockTree, s: State): seq<Disk>
    requires t.Valid()
    decreases StepsLeft(s)
  {
    if s.Down? || s.phase.Ready() then []
    else
      var next := Advance(t, s);
      (if s.phase.Writing? then [next.disk] else []) + DiskWrites(t, next)
  }

  /** A crash between any two of them leaves a disk that opens. */
  lemma {:induction false} DiskWritesOk(t: BlockTree, s: State, d: Disk)
    requires Inv(t, s) && d in DiskWrites(t, s)
    ensures DiskOk(t, d)
    decreases StepsLeft(s)
  {
    AdvanceIsStep(t, s);
    var next := Advance(t, s);
    if d in DiskWrites(t, next) {
      DiskWritesOk(t, next, d);
    } else {
      assert d == next.disk;
    }
  }

  lemma {:induction false} NoMoreWrites(t: BlockTree, s: State)
    requires t.Valid() && (s.Up? ==> !s.phase.Writing?)
    ensures DiskWrites(t, s) == []
    decreases StepsLeft(s)
  {
    if s.Up? && !s.phase.Ready() {
      NoMoreWrites(t, Advance(t, s));
    }
  }

  lemma {:induction false} PutRowsKeepTip(d: Disk, rs: seq<Row>)
    ensures PutRows(d, rs).tip == d.tip
  {
    if rs == [] {
    } else {
      PutRowsKeepTip(d, rs[..|rs| - 1]);
    }
  }

  /** The entries whose rows are on disk after write `k`, when `w` are there before: 25000 more each time. */
  function EntriesAfter(w: nat, k: nat, all: nat): nat {
    if w + 25000 * (k + 1) < all then w + 25000 * (k + 1) else all
  }

  /** How far along a call in its writing phase is: the entries that both kinds of rows are on disk for. */
  function EntriesDone(s: State): nat
    requires s.Up? && s.phase.Writing? && |s.phase.pending| <= 2 * |s.phase.toAdd|
  {
    |s.phase.toAdd| - |s.phase.pending| / 2
  }

  /** One batch takes 50000 rows off the pending ones, or the rest, and leaves the tip row alone. */
  lemma {:induction false} BatchTakes(t: BlockTree, s: State)
    requires Inv(t, s) && s.Up? && s.phase.Writing? && s.phase.pending != []
    ensures Advance(t, s).Up? && Advance(t, s).mem == s.mem && Advance(t, s).disk.tip == s.disk.tip
    ensures Advance(t, s).phase == s.phase.(pending := s.phase.pending[BatchRows(s)..])
    ensures Inv(t, Advance(t, s)) && EntriesDone(Advance(t, s)) == EntriesAfter(EntriesDone(s), 0, |s.phase.toAdd|)
  {
    AdvanceIsStep(t, s);
    PutRowsKeepTip(s.disk, SortRows(s.phase.pending[..BatchRows(s)]));
  }

  function BatchRows(s: State): (n: nat)
    requires s.Up? && s.phase.Writing?
    ensures n <= |s.phase.pending|
  {
    if |s.phase.pending| < 50000 then |s.phase.pending| else 50000
  }

  /** The writes that are left: one for every 50000 rows begun, and one for the tip. */
  lemma {:induction false} WritesLeft(t: BlockTree, s: State)
    requires Inv(t, s) && s.Up? && s.phase.Writing?
    ensures |DiskWrites(t, s)| == (|s.phase.pending| + 49999) / 50000 + 1
    decreases StepsLeft(s)
  {
    if s.phase.pending == [] {
      NoMoreWrites(t, Advance(t, s));
    } else {
      BatchTakes(t, s);
      WritesLeft(t, Advance(t, s));
    }
  }

  lemma {:induction false} BatchMarks(t: BlockTree, s: State)
    requires Inv(t, s) && s.Up? && s.phase.Writing? && s.phase.pending != []
    ensures Advance(t, s).disk.done == s.mem.synced + HashesIn(s.phase.toAdd, 0, EntriesAfter(EntriesDone(s), 0, |s.phase.toAdd|))
    ensures DiskWrites(t, s) == [Advance(t, s).disk] + DiskWrites(t, Advance(t, s))
  {
    BatchTakes(t, s);
  }

  lemma {:induction false} TipIsLast(t: BlockTree, s: State)
    requires Inv(t, s) && s.Up? && s.phase.Writing? && s.phase.pending == []
    ensures DiskWrites(t, s) == [s.disk.(tip := Some(s.phase.target))]
    ensures s.disk.done == s.mem.synced + HashesIn(s.phase.toAdd, 0, |s.phase.toAdd|)
  {
    NoMoreWrites(t, Advance(t, s));
  }

  /** Each batch marks the next 25000 headers, in order, and only the last write touches the tip. */
  lemma {:induction false} WriteMarks(t: BlockTree, s: State, k: nat)
    requires Inv(t, s) && s.Up? && s.phase.Writing? && k < |DiskWrites(t, s)|
    ensures
      var d, all := DiskWrites(t, s)[k], |s.phase.toAdd|;
      && d.done == s.mem.synced + HashesIn(s.phase.toAdd, 0, EntriesAfter(EntriesDone(s), k, all))
      && d.tip == if k + 1 < |DiskWrites(t, s)| then s.disk.tip else Some(s.phase.target)
    decreases k
  {
    if s.phase.pending == [] {
      TipIsLast(t, s);
    } else {
      BatchTakes(t, s);
      BatchMarks(t, s);
      WritesLeft(t, Advance(t, s));
      if k > 0 {
        WriteMarks(t, Advance(t, s), k - 1);
      }
    }
  }

  /**
   What a call writes: a batch for every 25000 missing headers begun, each marking the next of them, and
   then the tip.
   */
  lemma {:induction false} CallWrites(t: BlockTree, s: State, tip: Hash, k: nat)
    requires Inv(t, s) && s.Up? && s.phase.Ready() && tip in t.headers
    ensures
      var a, writes := ToAdd(s.mem.synced, Missing(t, s.mem.index, tip)), DiskWrites(t, BeginStep(t, s, tip));
      && |writes| == (|a| + 24999) / 25000 + 1
      && (k < |writes| ==>
            && writes[k].done == s.mem.synced + HashesIn(a, 0, EntriesAfter(0, k, |a|))
            && writes[k].tip == if k + 1 < |writes| then s.disk.tip else Some(tip))
  {
    BeginKeeps(t, s, tip);
    WritesLeft(t, BeginStep(t, s, tip));
    if k < |DiskWrites(t, BeginStep(t, s, tip))| {
      WriteMarks(t, BeginStep(t, s, tip), k);
    }
  }

  /** All the writing of a call: the memory moves by the synced set alone, the disk ends with the tip. */
  lemma {:induction false} WritesFinish(t: BlockTree, s: State) returns (d: Disk)
    requires Inv(t, s) && s.Up? && s.phase.Writing?
    ensures var p := s.phase;
            var after := Up(d, Memory(s.mem.index, s.mem.synced + Hashes(p.toAdd)), Applying(p.target, p.toAdd));
            Finish(t, s) == Finish(t, after) && Inv(t, after)
    decreases StepsLeft(s)
  {
    AdvanceIsStep(t, s);
    var next := Advance(t, s);
    if s.phase.pending == [] {
      d := next.disk;
    } else {
      d := WritesFinish(t, next);
    }
  }

  datatype Verdict = Success | Mismatch | Crashes

  /** Which way a call ends, decided from memory before it starts. */
  function Foresee(t: BlockTree, mem: Memory, tip: Hash): Verdict
    requires t.Valid() && t.Known(tip)
  {
    var m := Missing(t, mem.index, tip);
    var a := ToAdd(mem.synced, m);
    if m == [] then (if tip == mem.index.tip then Success else Mismatch)
    else if a == m then Success
    else if a != [] && a[0].height > |mem.index.headers| then Crashes
    else Mismatch
  }

  /** What `apply` makes of the filtered headers. */
  lemma {:induction false} ApplyVerdict(t: BlockTree, mem: Memory, tip: Hash)
    requires mem.index.OnTree(t) && tip in t.headers
    requires Closed(t, mem.synced) && Hashes(mem.index.headers) <= mem.synced
    ensures var a := ToAdd(mem.synced, Missing(t, mem.index, tip));
            match Foresee(t, mem, tip)
            case Crashes => mem.index.Accepts(a).Panicked?
            case Success => !mem.index.Accepts(a).Panicked? && mem.index.AfterApply(a).tip == tip
            case Mismatch => mem.index.Accepts(a).Ignored? && mem.index.tip != tip
  {
    var ix := mem.index;
    var m := Missing(t, ix, tip);
    var a := ToAdd(mem.synced, m);
    TipOffChain(t, ix, tip);
    if a == m {
      ApplyMissing(t, ix, tip);
    } else if a != [] {
      DroppedPrefix(t, mem, tip);
    }
  }

  lemma {:induction false} TipOffChain(t: BlockTree, ix: HeaderIndex, tip: Hash)
    requires ix.OnTree(t) && tip in t.headers
    ensures Missing(t, ix, tip) != [] ==> ix.tip != tip
  {
    LookupOnTree(t, ix, tip);
    if ix.tip == tip {
      PathShape(t, tip);
      assert ix.headers[|ix.headers| - 1].hash == tip;
    }
  }

  /** After a dropped prefix the rest never links to the current chain. */
  lemma {:induction false} DroppedPrefix(t: BlockTree, mem: Memory, tip: Hash)
    requires mem.index.OnTree(t) && tip in t.headers
    requires Closed(t, mem.synced) && Hashes(mem.index.headers) <= mem.synced
    requires var m := Missing(t, mem.index, tip);
             ToAdd(mem.synced, m) != [] && ToAdd(mem.synced, m) != m
    ensures var a := ToAdd(mem.synced, Missing(t, mem.index, tip));
            mem.index.Accepts(a) == if a[0].height > |mem.index.headers| then Panicked else Ignored
  {
    var m := Missing(t, mem.index, tip);
    ToAddShape(t, mem, tip);
    MissingContiguous(t, mem.index, tip);
    MissingOffChain(t, mem.index, tip);
    TailRejected(mem.index, mem.synced, m, ToAdd(mem.synced, m));
  }

  lemma {:induction false} TailRejected(ix: HeaderIndex, known: set<Hash>, m: seq<HeaderEntry>, a: seq<HeaderEntry>)
    requires Contiguous(m) && Contiguous(a) && a != [] && a != m
    requires IsTail(known, m, a) && OffChain(ix, m)
    ensures ix.Accepts(a) == if a[0].height > |ix.headers| then Panicked else Ignored
  {
    var k := |m| - |a|;
    assert a[0] == m[k + 0];
    assert LinkedAt(m, k);
    if a[0].height <= |ix.headers| {
      assert ix.headers[a[0].height - 1].hash in Hashes(ix.headers);
    }
  }

  /**
   The call theorem. From any reachable state and for any tip of the tree, an uninterrupted call
   ends as foreseen; unless it panics it leaves memory on the tip's path, and if it panics the
   tip is already on disk, so opening again lands on the tip's path too.
   */
  lemma {:induction false} CallReachesTip(t: BlockTree, s: State, tip: Hash)
    requires Inv(t, s) && s.Up? && s.phase.Ready() && tip in t.headers
    ensures var r := Call(t, s, tip);
            && Inv(t, r)
            && (r.Down? <==> Foresee(t, s.mem, tip) == Crashes)
            && (r.Up? ==> r.mem.index.OnTree(t) && r.mem.index.tip == tip && r.mem.index.headers == Path(t, tip))
            && (r.Up? ==> r.phase == Returned(tip, if Foresee(t, s.mem, tip) == Success then CallOk else CallMismatch))
            && r.disk.tip == Some(tip)
            && r.disk.done == s.disk.done + Hashes(ToAdd(s.mem.synced, Missing(t, s.mem.index, tip)))
            && Load(t.blockHash, r.disk).Ok? && Load(t.blockHash, r.disk).value.index.headers == Path(t, tip)
  {
    var s1 := BeginStep(t, s, tip);
    BeginKeeps(t, s, tip);
    ApplyVerdict(t, s.mem, tip);
    var d := WritesFinish(t, s1);
    var a := Up(d, Memory(s.mem.index, s.mem.synced + Hashes(s1.phase.toAdd)), Applying(tip, s1.phase.toAdd));
    AppliedCall(t, a, Foresee(t, s.mem, tip));
  }

  /** A foreseen success, and what it adds to the synced set. */
  lemma {:induction false} CallSucceeds(t: BlockTree, s: State, tip: Hash)
    requires Inv(t, s) && s.Up? && s.phase.Ready() && tip in t.headers && Foresee(t, s.mem, tip) == Success
    ensures var r := Call(t, s, tip);
            && Inv(t, r) && r.Up? && r.phase == Returned(tip, CallOk) && r.mem.index.tip == tip
            && r.mem.synced == s.mem.synced + Hashes(ToAdd(s.mem.synced, Missing(t, s.mem.index, tip)))
  {
    CallReachesTip(t, s, tip);
  }

  lemma {:induction false} AppliedCall(t: BlockTree, s: State, verdict: Verdict)
    requires Inv(t, s) && s.Up? && s.phase.Applying?
    requires match verdict
             case Crashes => s.mem.index.Accepts(s.phase.toAdd).Panicked?
             case Success => !s.mem.index.Accepts(s.phase.toAdd).Panicked? && s.mem.index.AfterApply(s.phase.toAdd).tip == s.phase.target
             case Mismatch => s.mem.index.Accepts(s.phase.toAdd).Ignored? && s.mem.index.tip != s.phase.target
    ensures var r, tip := Finish(t, s), s.phase.target;
            && Inv(t, r)
            && (r.Down? <==> verdict == Crashes)
            && (r.Up? ==> r.mem.index.OnTree(t) && r.mem.index.tip == tip && r.mem.index.headers == Path(t, tip))
            && (r.Up? ==> r.phase == Returned(tip, if verdict == Success then CallOk else CallMismatch))
            && r.disk == s.disk
            && Load(t.blockHash, r.disk).Ok? && Load(t.blockHash, r.disk).value.index.headers == Path(t, tip)
  {
    var s1 := ApplyStep(s);
    ApplyStepKeeps(t, s);
    LoadOk(t, s.disk);
    if verdict == Mismatch {
      ReloadingCall(t, s1);
    } else {
      ApplyKeeps(t, s.mem.index, s.phase.toAdd);
      PathShape(t, s.mem.index.AfterApply(s.phase.toAdd).tip);
    }
  }

  lemma {:induction false} ReloadingCall(t: BlockTree, s: State)
    requires Inv(t, s) && s.Up? && s.phase.Reloading?
    ensures Load(t.blockHash, s.disk).Ok?
    ensures var mem := Load(t.blockHash, s.disk).value;
            && Finish(t, s) == Up(s.disk, mem, Returned(s.phase.target, CallMismatch)) && Inv(t, Finish(t, s))
            && mem.index.OnTree(t) && mem.index.tip == s.phase.target
  {
    LoadOk(t, s.disk);
    ReloadKeeps(t, s);
  }

  /** Retrying the tip a call returned with succeeds and changes neither memory nor disk. */
  lemma {:induction false} RetryIsIdempotent(t: BlockTree, s: State)
    requires Inv(t, s) && s.Up? && s.phase.Returned? && s.phase.target in t.headers
    ensures Call(t, s, s.phase.target) == s.(phase := Returned(s.phase.target, CallOk))
  {
    var tip := s.phase.target;
    var applying := s.(phase := Applying(tip, []));
    RetryBegins(t, s);
    PathShape(t, tip);
    assert ApplyStep(applying) == s.(phase := Returned(tip, CallOk));
    assert Finish(t, applying) == Finish(t, ApplyStep(applying));
  }

  lemma {:induction false} RetryBegins(t: BlockTree, s: State)
    requires Inv(t, s) && s.Up? && s.phase.Returned? && s.phase.target in t.headers
    ensures Finish(t, BeginStep(t, s, s.phase.target)) == Finish(t, s.(phase := Applying(s.phase.target, [])))
  {
    var tip := s.phase.target;
    TipOffChain(t, s.mem.index, tip);
    BeginKeeps(t, s, tip);
    var s1 := BeginStep(t, s, tip);
    assert s1 == s.(phase := Writing(tip, [], []));
    assert s.mem.synced + Hashes([]) == s.mem.synced;
    assert Advance(t, s1) == PutTipStep(s1) == s.(phase := Applying(tip, []));
  }

  /** Opening a stopped program; one that is up goes on as it is. */
  function Restarted(t: BlockTree, s: State): State {
    if s.Down? then OpenStep(t.blockHash, s) else s
  }

  /** A store opened with the tip on disk takes that tip again without a mismatch. */
  lemma {:induction false} OpenedOnTip(t: BlockTree, s: State, tip: Hash)
    requires Inv(t, s) && s.Up? && s.phase.Ready() && tip in t.headers && s.mem.index.tip == tip
    ensures Call(t, s, tip).Up? && Call(t, s, tip).phase == Returned(tip, CallOk)
  {
    TipOffChain(t, s.mem.index, tip);
    CallReachesTip(t, s, tip);
  }

  /**
   Two calls always suffice. From any state of any run, stopped or not: open, call, open again if the
   call panicked, and call again. The second call returns `Ok`, on exactly the tip's path.
   */
  lemma {:induction false} TwoCallsSuffice(t: BlockTree, s: State, tip: Hash)
    requires Inv(t, s) && tip in t.headers
    ensures OpenStep(t.blockHash, s).Up? && OpenStep(t.blockHash, s).phase.Ready()
    ensures var first := Restarted(t, Call(t, OpenStep(t.blockHash, s), tip));
            && first.Up? && first.phase.Ready()
            && var second := Call(t, first, tip);
            second.Up? && second.phase == Returned(tip, CallOk) && second.mem.index.headers == Path(t, tip)
  {
    OpenKeeps(t, s);
    var start := OpenStep(t.blockHash, s);
    CallReachesTip(t, start, tip);
    var called := Call(t, start, tip);
    if called.Down? {
      OpenKeeps(t, called);
      LoadOk(t, called.disk);
    }
    OpenedOnTip(t, Restarted(t, called), tip);
    CallReachesTip(t, Restarted(t, called), tip);
  }

  /** A call is a stretch of a run. */
  lemma {:induction false} FinishIsRun(t: BlockTree, s0: State, es: seq<Event>, s: State) returns (all: seq<Event>)
    requires Inv(t, s) && Run(t, s0, es) == Some(s)
    ensures Run(t, s0, all) == Some(Finish(t, s))
    decreases StepsLeft(s)
  {
    if s.Down? || s.phase.Ready() {
      all := es;
    } else {
      AdvanceIsStep(t, s);
      var e :| Step(t, s, e) == Some(Advance(t, s));
      RunSnoc(t, s0, es, e);
      all := FinishIsRun(t, s0, es + [e], Advance(t, s));
    }
  }

  lemma {:induction false} RunSnoc(t: BlockTree, s0: State, es: seq<Event>, e: Event)
    requires t.Valid()
    ensures Run(t, s0, es + [e]) == match Run(t, s0, es) case None => None case Some(s) => Step(t, s, e)
  {
    assert (es + [e])[..|es|] == es;
  }

  lemma {:induction false} CallIsRun(t: BlockTree, s0: State, es: seq<Event>, s: State, tip: Hash) returns (all: seq<Event>)
    requires Inv(t, s) && s.Up? && s.phase.Ready() && tip in t.headers
    requires Run(t, s0, es) == Some(s)
    ensures Run(t, s0, all) == Some(Call(t, s, tip))
  {
    BeginKeeps(t, s, tip);
    RunSnoc(t, s0, es, Begin(tip, Served));
    all := FinishIsRun(t, s0, es + [Begin(tip, Served)], BeginStep(t, s, tip));
  }
}
