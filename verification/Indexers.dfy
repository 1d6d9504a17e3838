/**
 `Store` and `Indexer` as the objects the program has: a database, the synced set and the header
 list. Their methods are proved to take the steps of the state machine, write by write.
 */
module Indexers {
  import opened Wrappers
  import opened Bytes
  import opened Chain
  import opened HeaderLists
  import opened Daemons
  import opened Stores
  import opened SyncProtocol
  import opened SyncCalls

  class Store {
    const blockHash: Header -> Hash
    const db: DB
    var syncedBlockhashes: set<Hash>
    var syncHeaders: HeaderList

    ghost predicate Valid()
      reads this, db
    {
      db.Valid() && syncHeaders.blockHash == blockHash
    }

    function Mem(): Memory
      reads this, syncHeaders
    {
      Memory(syncHeaders.View(), syncedBlockhashes)
    }

    /** A store over an open database, before `Reload` has filled it. */
    constructor (db: DB, blockHash: Header -> Hash)
      requires db.Valid()
      ensures Valid() && this.db == db && this.blockHash == blockHash && fresh(syncHeaders)
    {
      this.db, this.blockHash := db, blockHash;
      syncedBlockhashes := {};
      syncHeaders := new HeaderList.Empty(blockHash);
    }

    /** `reload_store`, and the loading part of `open`: memory becomes what the disk says, or it panics. */
    method Reload() returns (ok: bool)
      requires Valid()
      modifies this
      ensures Valid() && (syncHeaders == old(syncHeaders) || fresh(syncHeaders))
      ensures ok == Load(blockHash, db.disk).Ok?
      ensures ok ==> Load(blockHash, db.disk) == Ok(Mem())
      ensures !ok ==> syncHeaders == old(syncHeaders) && syncedBlockhashes == old(syncedBlockhashes)
    {
      var hashes := db.LoadBlockhashes();
      var tip := db.GetTip();
      var list: HeaderList;
      if tip.Some? {
        var headersMap := db.LoadSyncBlockheaders();
        var built := HeaderList.New(blockHash, headersMap, tip.value);
        if !built.Ok? {
          return false;
        }
        list := built.value;
      } else {
        list := new HeaderList.Empty(blockHash);
      }
      syncedBlockhashes, syncHeaders := hashes, list;
      return true;
    }

    /** `Store::open` */
    static method Open(db: DB, blockHash: Header -> Hash) returns (r: Outcome<Store>)
      requires db.Valid()
      ensures r.Ok? <==> Load(blockHash, db.disk).Ok?
      ensures r.Ok? ==> fresh(r.value) && r.value.Valid() && r.value.db == db && r.value.blockHash == blockHash
      ensures r.Ok? ==> Load(blockHash, db.disk) == Ok(r.value.Mem())
    {
      var store := new Store(db, blockHash);
      var ok := store.Reload();
      r := if ok then Ok(store) else Panic;
    }
  }

  datatype SyncOutcome = Synced | NotEqual | DownloadFailed | DownloadPanicked | Crashed

  class Indexer {
    const store: Store

    constructor (store: Store)
      ensures this.store == store
    {
      this.store := store;
    }

    /** `add_sync_block_header`: all rows in chunks, then the synced set. */
    method AddSyncBlockHeader(headers: seq<HeaderEntry>, ghost t: BlockTree, ghost target: Hash)
      requires store.Valid() && t.Valid()
      modifies store, store.db
      ensures store.Valid() && store.syncHeaders == old(store.syncHeaders)
      ensures store.syncedBlockhashes == old(store.syncedBlockhashes) + Hashes(headers)
      ensures var start := Up(old(store.db.disk), old(store.Mem()), Writing(target, headers, SyncRows(headers)));
              var end := Up(store.db.disk, old(store.Mem()), Writing(target, headers, []));
              && Finish(t, start) == Finish(t, end)
              && old(store.db.writes) + DiskWrites(t, start) == store.db.writes + DiskWrites(t, end)
    {
      var pending := SyncRows(headers);
      ghost var start := Up(store.db.disk, store.Mem(), Writing(target, headers, pending));
      while pending != []
        modifies store.db
        invariant store.Valid()
        invariant var now := Up(store.db.disk, start.mem, Writing(target, headers, pending));
                  && Finish(t, start) == Finish(t, now)
                  && old(store.db.writes) + DiskWrites(t, start) == store.db.writes + DiskWrites(t, now)
        decreases |pending|
      {
        var n := if |pending| < ROW_CHUNK then |pending| else ROW_CHUNK;
        ghost var now := Up(store.db.disk, start.mem, Writing(target, headers, pending));
        ghost var before := store.db.writes;
        store.db.Write(pending[..n]);
        WriteAdvances(t, now, before);
        pending := pending[n..];
      }
      store.syncedBlockhashes := store.syncedBlockhashes + Hashes(headers);
    }

    /** `sync_headers` */
    method SyncHeaders(daemon: Daemon, tip: Hash) returns (r: SyncOutcome)
      requires store.Valid() && daemon.Valid() && tip in daemon.tree.headers
      requires store.blockHash == daemon.tree.blockHash
      requires Inv(daemon.tree, Up(store.db.disk, store.Mem(), Idle))
      modifies this.store, store.db, store.syncHeaders, daemon
      ensures store.Valid() && (store.syncHeaders == old(store.syncHeaders) || fresh(store.syncHeaders))
      ensures var before := Up(old(store.db.disk), old(store.Mem()), Idle);
              match r
              case DownloadFailed => store.db.disk == before.disk && store.Mem() == before.mem
              case DownloadPanicked => store.db.disk == before.disk && before.mem.index.headers == []
              case Crashed => Call(daemon.tree, before, tip) == Down(store.db.disk)
              case Synced => Call(daemon.tree, before, tip) == Up(store.db.disk, store.Mem(), Returned(tip, CallOk))
              case NotEqual => Call(daemon.tree, before, tip) == Up(store.db.disk, store.Mem(), Returned(tip, CallMismatch))
      ensures old(daemon.messageId) <= daemon.messageId
      ensures daemon.Serves(old(store.syncHeaders.headers), tip, old(daemon.messageId), daemon.messageId) ==>
                !r.DownloadFailed? && !r.DownloadPanicked?
      ensures r.DownloadPanicked? ==> daemon.NoFailure(old(daemon.messageId), daemon.messageId)
      ensures store.db.writes == old(store.db.writes) +
              if r.DownloadFailed? || r.DownloadPanicked? then []
              else DiskWrites(daemon.tree, BeginStep(daemon.tree, Up(old(store.db.disk), old(store.Mem()), Idle), tip))
    {
      BeginKeeps(daemon.tree, Up(store.db.disk, store.Mem(), Idle), tip);
      var toAdd := HeadersToAdd(daemon, tip);
      if !toAdd.Ok? {
        return if toAdd.Err? then DownloadFailed else DownloadPanicked;
      }
      WriteAll(toAdd.value, tip, daemon.tree);
      r := ApplyOrReload(toAdd.value, tip, daemon.tree);
    }

    /** The start of a call: download, order, filter. */
    method HeadersToAdd(daemon: Daemon, tip: Hash) returns (r: Outcome<seq<HeaderEntry>>)
      requires daemon.Valid() && tip in daemon.tree.headers && store.blockHash == daemon.tree.blockHash
      requires store.syncHeaders.View().OnTree(daemon.tree)
      modifies daemon
      ensures old(daemon.messageId) <= daemon.messageId
      ensures r.Ok? ==> r.value == ToAdd(store.syncedBlockhashes, Missing(daemon.tree, store.syncHeaders.View(), tip))
      ensures r.Panic? ==>
                store.syncHeaders.headers == [] && daemon.NoFailure(old(daemon.messageId), daemon.messageId)
      ensures daemon.Serves(store.syncHeaders.headers, tip, old(daemon.messageId), daemon.messageId) ==> r.Ok?
    {
      var indexed := store.syncHeaders.View();
      var newHeaders := daemon.GetNewHeaders(indexed, tip);
      if !newHeaders.Ok? {
        return if newHeaders.Err? then Err else Panic;
      }
      OrderMissing(daemon.tree, indexed, tip);
      var ordered := indexed.Order(store.blockHash, newHeaders.value);
      return Ok(ToAdd(store.syncedBlockhashes, ordered.value));
    }

    /** All the writing of a call: the batches, the synced set, the tip row. */
    method WriteAll(toAdd: seq<HeaderEntry>, tip: Hash, ghost t: BlockTree)
      requires store.Valid() && t.Valid()
      modifies store, store.db
      ensures store.Valid() && store.syncHeaders == old(store.syncHeaders)
      ensures var start := Up(old(store.db.disk), old(store.Mem()), Writing(tip, toAdd, SyncRows(toAdd)));
              && Finish(t, start) == Finish(t, Up(store.db.disk, store.Mem(), Applying(tip, toAdd)))
              && store.db.writes == old(store.db.writes) + DiskWrites(t, start)
    {
      ghost var mem := store.Mem();
      AddSyncBlockHeader(toAdd, t, tip);
      ghost var written := Up(store.db.disk, mem, Writing(tip, toAdd, []));
      ghost var history := store.db.writes;
      store.db.PutTip(tip);
      TipAdvances(t, written, history);
    }

    /** The end of `sync_headers`, once the tip row is on disk. */
    method ApplyOrReload(toAdd: seq<HeaderEntry>, tip: Hash, ghost t: BlockTree) returns (r: SyncOutcome)
      requires store.Valid() && t.Valid() && store.blockHash == t.blockHash
      modifies store, store.syncHeaders
      ensures store.Valid() && (store.syncHeaders == old(store.syncHeaders) || fresh(store.syncHeaders))
      ensures !r.DownloadFailed? && !r.DownloadPanicked?
      ensures Finish(t, Up(store.db.disk, old(store.Mem()), Applying(tip, toAdd))) ==
              match r
              case Synced => Up(store.db.disk, store.Mem(), Returned(tip, CallOk))
              case NotEqual => Up(store.db.disk, store.Mem(), Returned(tip, CallMismatch))
              case _ => Down(store.db.disk)
    {
      ghost var applying := Up(store.db.disk, store.Mem(), Applying(tip, toAdd));
      ApplyAdvances(t, applying);
      var outcome := store.syncHeaders.Apply(toAdd);
      if outcome.Panicked? || !store.syncHeaders.Tip().Ok? {
        return Crashed;
      }
      if tip == store.syncHeaders.Tip().value {
        return Synced;
      }
      var ok := store.Reload();
      return if ok then NotEqual else Crashed;
    }
  }

  lemma {:induction false} WriteAdvances(t: BlockTree, now: State, before: seq<Disk>)
    requires t.Valid() && now.Up? && now.phase.Writing? && now.phase.pending != []
    ensures Finish(t, now) == Finish(t, WriteStep(now))
    ensures before + DiskWrites(t, now) == (before + [WriteStep(now).disk]) + DiskWrites(t, WriteStep(now))
  {
    assert Advance(t, now) == WriteStep(now);
  }

  lemma {:induction false} TipAdvances(t: BlockTree, now: State, before: seq<Disk>)
    requires t.Valid() && now.Up? && now.phase.Writing? && now.phase.pending == []
    ensures Finish(t, now) == Finish(t, PutTipStep(now))
    ensures before + DiskWrites(t, now) == before + [PutTipStep(now).disk]
  {
    var applying := PutTipStep(now);
    assert Advance(t, now) == applying && Advance(t, applying) == ApplyStep(applying);
    assert DiskWrites(t, ApplyStep(applying)) == [];
  }

  lemma {:induction false} ApplyAdvances(t: BlockTree, now: State)
    requires t.Valid() && now.Up? && now.phase.Applying?
    ensures Finish(t, now) == Finish(t, ApplyStep(now))
    ensures Finish(t, now) == if ApplyStep(now).Up? && ApplyStep(now).phase.Reloading?
                              then ReloadStep(t.blockHash, ApplyStep(now)) else ApplyStep(now)
  {
    var next := ApplyStep(now);
    assert Advance(t, now) == next;
    if next.Up? && next.phase.Reloading? {
      assert Advance(t, next) == ReloadStep(t.blockHash, next);
      assert Finish(t, next) == Finish(t, ReloadStep(t.blockHash, next));
    }
  }
}
