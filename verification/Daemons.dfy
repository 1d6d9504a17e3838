/**
 Downloading headers from the node: the walk back to the known chain, and the height-chunked
 download of a whole chain. The node serves one block tree and may fail a request or move to
 another active chain between any two replies.
 */
module Daemons {
  import opened Wrappers
  import opened Bytes
  import opened Chain
  import opened HeaderLists

  /** What the walk of `get_new_headers` collects, oldest first. */
  function Missing(t: BlockTree, ix: HeaderIndex, h: Hash): seq<HeaderEntry>
    requires t.Valid() && t.Known(h)
    decreases t.Depth(h)
  {
    if h == NULL || ix.Lookup(h).Some? then [] else Missing(t, ix, t.Parent(h)) + [t.Entry(h)]
  }

  /** The missing headers are the tail of the tip's path that starts where it leaves the chain. */
  lemma {:induction false} MissingShape(t: BlockTree, ix: HeaderIndex, h: Hash)
    requires ix.OnTree(t) && t.Known(h)
    ensures |Missing(t, ix, h)| <= t.Depth(h)
    ensures var m, p := Missing(t, ix, h), Path(t, h);
            var f := |p| - |m|;
            && f <= |ix.headers|
            && (forall i :: 0 <= i < f ==> p[i] == ix.headers[i])
            && (forall i :: 0 <= i < |m| ==> p[f + i] == m[i] && m[i].hash !in Hashes(ix.headers))
    decreases t.Depth(h)
  {
    if h == NULL {
    } else {
      LookupOnTree(t, ix, h);
      if ix.Lookup(h).Some? {
        OnPath(t, ix.tip, h);
      } else {
        MissingShape(t, ix, t.Parent(h));
      }
    }
  }

  /** Exactly the tip's ancestors that are not on the current chain. */
  lemma {:induction false} MissingIsOffChain(t: BlockTree, ix: HeaderIndex, tip: Hash, e: HeaderEntry)
    requires ix.OnTree(t) && t.Known(tip)
    ensures e in Missing(t, ix, tip) <==> e in Path(t, tip) && e.hash !in Hashes(ix.headers)
  {
    MissingShape(t, ix, tip);
    var m, p := Missing(t, ix, tip), Path(t, tip);
    var f := |p| - |m|;
    if e in p && e.hash !in Hashes(ix.headers) {
      var i :| 0 <= i < |p| && p[i] == e;
      assert i >= f && m[i - f] == p[f + (i - f)];
    }
    if e in m {
      var i :| 0 <= i < |m| && m[i] == e;
      assert p[f + i] == e;
    }
  }

  predicate OffChain(ix: HeaderIndex, es: seq<HeaderEntry>) {
    forall i :: 0 <= i < |es| ==> es[i].hash !in Hashes(ix.headers)
  }

  lemma {:induction false} MissingOffChain(t: BlockTree, ix: HeaderIndex, tip: Hash)
    requires ix.OnTree(t) && t.Known(tip)
    ensures OffChain(ix, Missing(t, ix, tip))
  {
    MissingShape(t, ix, tip);
  }

  lemma {:induction false} MissingContiguous(t: BlockTree, ix: HeaderIndex, tip: Hash)
    requires ix.OnTree(t) && t.Known(tip)
    ensures Contiguous(Missing(t, ix, tip)) && FromTree(t, Missing(t, ix, tip))
  {
    var m, p := Missing(t, ix, tip), Path(t, tip);
    var f := |p| - |m|;
    MissingShape(t, ix, tip);
    PathLinked(t, tip);
    ContiguousSlice(p, f, |p|);
    assert m == p[f..|p|];
  }

  /** The missing headers hang together and hang on the current chain. */
  lemma {:induction false} MissingLinked(t: BlockTree, ix: HeaderIndex, tip: Hash)
    requires ix.OnTree(t) && t.Known(tip)
    ensures var m := Missing(t, ix, tip);
            && Contiguous(m) && FromTree(t, m)
            && (m != [] ==>
                && LastHash(m) == tip
                && m[0].height == t.Depth(tip) - |m| <= |ix.headers|
                && m[0].header.prev == LastHash(ix.headers[..m[0].height])
                && (m[0].header.prev == NULL <==> m[0].height == 0))
  {
    var m, p := Missing(t, ix, tip), Path(t, tip);
    var f := |p| - |m|;
    MissingContiguous(t, ix, tip);
    MissingShape(t, ix, tip);
    PathShape(t, tip);
    if m != [] {
      assert p[f + 0] == m[0] && p[f + (|m| - 1)] == m[|m| - 1];
      PathParent(t, tip, f);
    }
  }

  /** `order` numbers the downloaded headers and never panics on them. */
  lemma {:induction false} OrderMissing(t: BlockTree, ix: HeaderIndex, tip: Hash)
    requires ix.OnTree(t) && t.Known(tip)
    ensures ix.Order(t.blockHash, HeadersOf(Missing(t, ix, tip))) == Ok(Missing(t, ix, tip))
  {
    var m := Missing(t, ix, tip);
    MissingLinked(t, ix, tip);
    if m != [] && m[0].height > 0 {
      var below := ix.headers[m[0].height - 1];
      PathShape(t, ix.tip);
      LookupOnTree(t, ix, below.hash);
      assert ix.Lookup(below.hash) == Some(below);
    }
    OrderAgain(t, ix, m);
  }

  /** With nothing filtered out, `apply` moves the chain to the tip, unless there was nothing to download. */
  lemma {:induction false} ApplyMissing(t: BlockTree, ix: HeaderIndex, tip: Hash)
    requires ix.OnTree(t) && t.Known(tip)
    ensures var m := Missing(t, ix, tip);
            var after := ix.AfterApply(m);
            && !ix.Accepts(m).Panicked?
            && after.OnTree(t)
            && after.tip == (if m == [] then ix.tip else tip)
  {
    MissingLinked(t, ix, tip);
    ApplyKeeps(t, ix, Missing(t, ix, tip));
  }

  /**
   The fast path and the full rebuild agree on headers, tip and every lookup, for extensions,
   forks and reorgs of any length, exactly when the tip is not an earlier block of the chain.
   */
  lemma {:induction false} IncrementalIsRebuild(t: BlockTree, ix: HeaderIndex, tip: Hash, m: map<Hash, Header>)
    requires ix.OnTree(t) && t.Known(tip)
    requires forall k <- m :: k in t.headers && t.headers[k] == m[k]
    requires Hashes(Path(t, tip)) <= m.Keys
    ensures var ordered := ix.Order(t.blockHash, HeadersOf(Missing(t, ix, tip)));
            var rebuilt := Rebuild(t.blockHash, m, tip);
            && ordered.Ok? && rebuilt.Ok?
            && (SameAnswers(ix.AfterApply(ordered.value), rebuilt.value)
                <==> (tip == ix.tip || (tip != NULL && tip !in Hashes(ix.headers))))
  {
    OrderMissing(t, ix, tip);
    RebuildIsPath(t, m, tip);
    ApplyMissing(t, ix, tip);
    if tip != NULL {
      LookupOnTree(t, ix, tip);
    }
    var after, rebuilt := ix.AfterApply(Missing(t, ix, tip)), Rebuild(t.blockHash, m, tip).value;
    if after.tip == tip {
      forall h ensures after.Lookup(h) == rebuilt.Lookup(h) {
        LookupOnTree(t, after, h);
        LookupOnTree(t, rebuilt, h);
      }
    }
  }

  ghost predicate SameAnswers(a: HeaderIndex, b: HeaderIndex) {
    a.headers == b.headers && a.tip == b.tip && forall h :: a.Lookup(h) == b.Lookup(h)
  }

  class Daemon {
    const tree: BlockTree
    /** Whether the request with this id fails. */
    const fails: nat -> bool
    /** The tip of the node's active chain when it answers part `k` of the request with this id. */
    const active: (nat, nat) -> Hash
    var messageId: nat

    ghost predicate Valid() {
      tree.Valid() && forall id, k :: tree.Known(active(id, k))
    }

    constructor (tree: BlockTree, fails: nat -> bool, active: (nat, nat) -> Hash)
      ensures this.tree == tree && this.fails == fails && this.active == active && messageId == 0
    {
      this.tree, this.fails, this.active, messageId := tree, fails, active, 0;
    }

    method GetBlockHeader(h: Hash) returns (r: Option<Header>)
      modifies this
      ensures messageId == old(messageId) + 1
      ensures r == if fails(messageId) || h !in tree.headers then None else Some(tree.headers[h])
    {
      messageId := messageId + 1;
      if fails(messageId) || h !in tree.headers {
        return None;
      }
      return Some(tree.headers[h]);
    }

    /**
     One batched `getblockhash` request; a reorg may fall between any two of its replies. While the
     given tip stays on the active chain, heights up to the tip's are answered from its path.
     */
    method GetBlockHashes(lo: nat, hi: nat, ghost tip: Hash) returns (r: Option<seq<Hash>>)
      requires Valid() && lo <= hi && tip in tree.headers
      modifies this
      ensures messageId == old(messageId) + 1
      ensures r.Some? ==> |r.value| == hi - lo && forall k :: 0 <= k < hi - lo ==> r.value[k] in tree.headers
      ensures Tall(hi, old(messageId), messageId) ==> r.Some?
      ensures hi <= |Path(tree, tip)| && Calm(tip, old(messageId), messageId) ==>
        r.Some? && forall k :: lo <= k < hi ==> r.value[k - lo] == Path(tree, tip)[k].hash
      ensures r.Some? ==> NoFailure(old(messageId), messageId)
    {
      messageId := messageId + 1;
      var id := messageId;
      assert Calm(tip, old(messageId), messageId) ==> AnsweredOn(tip, id);
      assert Tall(hi, old(messageId), messageId) ==> AnswersUpTo(hi, id);
      if fails(id) {
        return None;
      }
      ghost var path := Path(tree, tip);
      ghost var calm := hi <= |path| && AnsweredOn(tip, id);
      var hashes: seq<Hash> := [];
      while |hashes| < hi - lo
        invariant |hashes| <= hi - lo && messageId == id
        invariant forall k :: 0 <= k < |hashes| ==> hashes[k] in tree.headers
        invariant calm ==> forall k :: 0 <= k < |hashes| ==> hashes[k] == path[lo + k].hash
      {
        var hash := HashAt(tree, active(id, |hashes|), lo + |hashes|);
        if calm {
          BelowActive(tree, active(id, |hashes|), tip, lo + |hashes|);
        }
        if hash.None? {
          return None;
        }
        hashes := hashes + [hash.value];
      }
      return Some(hashes);
    }

    /** `getblockheaders`: the hashes at the given heights, then their headers. */
    method GetBlockHeaders(lo: nat, hi: nat, ghost tip: Hash) returns (r: Option<seq<Header>>)
      requires Valid() && lo <= hi && tip in tree.headers
      modifies this
      ensures old(messageId) < messageId && (r.Some? ==> messageId == old(messageId) + 2)
      ensures r.Some? ==> |r.value| == hi - lo && AllKnown(r.value)
      ensures Tall(hi, old(messageId), messageId) ==> r.Some?
      ensures hi <= |Path(tree, tip)| && Calm(tip, old(messageId), messageId) ==>
        r.Some? && AreHeadersFrom(r.value, Path(tree, tip), lo)
      ensures r.Some? ==> NoFailure(old(messageId), messageId)
    {
      var hashes := GetBlockHashes(lo, hi, tip);
      if hashes.None? {
        return None;
      }
      CalmSplit(this, tip, old(messageId), messageId, messageId + 1);
      TallSplit(this, hi, old(messageId), messageId, messageId + 1);
      messageId := messageId + 1;
      if fails(messageId) {
        return None;
      }
      var result: seq<Header> := [];
      while |result| < |hashes.value|
        invariant |result| <= |hashes.value|
        invariant forall k :: 0 <= k < |result| ==> result[k] == tree.headers[hashes.value[k]]
      {
        result := result + [tree.headers[hashes.value[|result|]]];
      }
      forall k | 0 <= k < |result| ensures tree.blockHash(result[k]) == hashes.value[k] {
        var _ := tree.Parent(hashes.value[k]);
      }
      PathShape(tree, tip);
      return Some(result);
    }

    predicate AllKnown(hs: seq<Header>) {
      forall k :: 0 <= k < |hs| ==>
        tree.blockHash(hs[k]) in tree.headers && tree.headers[tree.blockHash(hs[k])] == hs[k]
    }

    /** The chunk loop of `get_all_headers`, 100000 heights at a time. */
    method Download(count: nat, ghost tip: Hash) returns (r: Option<seq<Header>>)
      requires Valid() && tip in tree.headers && count == |Path(tree, tip)|
      modifies this
      ensures old(messageId) <= messageId
      ensures r.Some? ==> AllKnown(r.value) && messageId == old(messageId) + 2 * ChunksOf(count)
      ensures Tall(count, old(messageId), messageId) ==> r.Some?
      ensures Calm(tip, old(messageId), messageId) ==> r == Some(HeadersOf(Path(tree, tip)))
      ensures r.Some? ==> NoFailure(old(messageId), messageId)
    {
      var result: seq<Header> := [];
      ghost var chunks := 0;
      while |result| < count
        invariant |result| <= count && AllKnown(result)
        invariant old(messageId) <= messageId && NoFailure(old(messageId), messageId)
        invariant messageId == old(messageId) + 2 * chunks && AfterChunks(|result|, chunks, count)
        invariant Calm(tip, old(messageId), messageId) ==>
          AreHeadersFrom(result, Path(tree, tip), 0)
      {
        var hi := if |result| + 100_000 < count then |result| + 100_000 else count;
        ghost var before := messageId;
        var headers := GetBlockHeaders(|result|, hi, tip);
        ServedSplit(this, tip, hi, count, old(messageId), before, messageId);
        if headers.None? {
          return None;
        }
        if AreHeadersFrom(result, Path(tree, tip), 0) && AreHeadersFrom(headers.value, Path(tree, tip), |result|) {
          MoreHeaders(result, headers.value, Path(tree, tip));
        }
        result, chunks := result + headers.value, chunks + 1;
      }
      if AreHeadersFrom(result, Path(tree, tip), 0) {
        AllHeaders(result, Path(tree, tip));
      }
      return Some(result);
    }

    /** `get_all_headers`: every height up to the tip's, then the linkage checks. */
    method GetAllHeaders(tip: Hash) returns (r: Outcome<seq<Header>>)
      requires Valid()
      modifies this
      ensures old(messageId) < messageId
      ensures r.Ok? ==> tree.Known(tip) && r.value == HeadersOf(Path(tree, tip))
      ensures tip in tree.headers && Calm(tip, old(messageId), messageId) ==> r.Ok?
      ensures tip in tree.headers && Tall(|Path(tree, tip)|, old(messageId), messageId) ==> !r.Err?
      ensures r.Panic? ==> NoFailure(old(messageId), messageId)
    {
      messageId := messageId + 1;
      if fails(messageId) || tip !in tree.headers {
        assert tip in tree.headers && Tall(|Path(tree, tip)|, old(messageId), messageId) ==> AnswersUpTo(|Path(tree, tip)|, messageId);
        assert tip in tree.headers && Calm(tip, old(messageId), messageId) ==> AnsweredOn(tip, messageId);
        return Err;
      }
      ghost var before := messageId;
      var result := Download(tree.heights[tip] + 1, tip);
      CalmSplit(this, tip, old(messageId), before, messageId);
      TallSplit(this, |Path(tree, tip)|, old(messageId), before, messageId);
      if result.None? {
        return Err;
      }
      if !LinksTo(result.value, tip) {
        PathPassesChecks(tree, tip);
        return Panic;
      }
      LinksToIsPath(tree, result.value, tip);
      return Ok(result.value);
    }

    /** The final checks: each header names its predecessor's hash, and the last one hashes to the tip. */
    predicate LinksTo(hs: seq<Header>, tip: Hash) {
      && (forall i :: 0 <= i < |hs| ==> hs[i].prev == HashBefore(tree.blockHash, hs, i))
      && HashBefore(tree.blockHash, hs, |hs|) == tip
    }

    /** The walk back from the tip to the first known hash. */
    method GetNewHeaders(indexed: HeaderIndex, tip: Hash) returns (r: Outcome<seq<Header>>)
      requires Valid() && indexed.OnTree(tree) && tree.Known(tip)
      modifies this
      ensures old(messageId) <= messageId
      ensures r.Ok? ==> r.value == HeadersOf(Missing(tree, indexed, tip))
      ensures r.Panic? ==> indexed.headers == [] && NoFailure(old(messageId), messageId)
      ensures tip in tree.headers && Serves(indexed.headers, tip, old(messageId), messageId) ==> r.Ok?
      ensures
        tip in tree.headers && indexed.headers == [] && Tall(|Path(tree, tip)|, old(messageId), messageId) ==> !r.Err?
    {
      if indexed.headers == [] {
        r := GetAllHeaders(tip);
        NothingIndexed(tree, indexed, tip);
        return;
      }
      var newHeaders: seq<Header> := [];
      var blockhash := tip;
      assert HeadersOf(Missing(tree, indexed, tip)) + [] == HeadersOf(Missing(tree, indexed, tip));
      while blockhash != NULL
        invariant tree.Known(blockhash) && old(messageId) <= messageId
        invariant HeadersOf(Missing(tree, indexed, tip)) == HeadersOf(Missing(tree, indexed, blockhash)) + Reverse(newHeaders)
        decreases tree.Depth(blockhash)
      {
        if indexed.Lookup(blockhash).Some? {
          break;
        }
        var header := GetBlockHeader(blockhash);
        if header.None? {
          return Err;
        }
        MissingStep(tree, indexed, blockhash, newHeaders);
        blockhash := tree.Parent(blockhash);
        newHeaders := newHeaders + [header.value];
      }
      assert HeadersOf(Missing(tree, indexed, blockhash)) == [];
      assert [] + Reverse(newHeaders) == Reverse(newHeaders);
      return Ok(Reverse(newHeaders));
    }

    /** The requests numbered from after `lo` to `hi` do not fail. */
    ghost predicate NoFailure(lo: nat, hi: nat) {
      forall id :: lo < id <= hi ==> !fails(id)
    }

    /** The request does not fail, and the tip is on the active chain whenever a part of it is answered. */
    ghost predicate AnsweredOn(tip: Hash, id: nat)
      requires Valid()
    {
      !fails(id) && forall k :: tip in Hashes(Path(tree, active(id, k)))
    }

    /** So it is for every request from after `lo` to `hi`; the active chain may grow and move above the tip. */
    ghost predicate Calm(tip: Hash, lo: nat, hi: nat)
      requires Valid()
    {
      forall id :: lo < id <= hi ==> AnsweredOn(tip, id)
    }

    /** The request does not fail, and the active chain has this many blocks whenever a part of it is answered. */
    ghost predicate AnswersUpTo(count: nat, id: nat)
      requires Valid()
    {
      !fails(id) && forall k :: |Path(tree, active(id, k))| >= count
    }

    ghost predicate Tall(count: nat, lo: nat, hi: nat)
      requires Valid()
    {
      forall id :: lo < id <= hi ==> AnswersUpTo(count, id)
    }

    /** What a download needs of its requests: no failure, and from an empty index a tip that stays active. */
    ghost predicate Serves(indexed: seq<HeaderEntry>, tip: Hash, lo: nat, hi: nat)
      requires Valid()
    {
      if indexed == [] then Calm(tip, lo, hi) else NoFailure(lo, hi)
    }
  }

  /** These are the headers of the path's entries from index `lo` on. */
  predicate AreHeadersFrom(hs: seq<Header>, path: seq<HeaderEntry>, lo: nat) {
    lo + |hs| <= |path| && forall k :: 0 <= k < |hs| ==> hs[k] == path[lo + k].header
  }

  lemma {:induction false} MoreHeaders(hs: seq<Header>, more: seq<Header>, path: seq<HeaderEntry>)
    requires AreHeadersFrom(hs, path, 0) && AreHeadersFrom(more, path, |hs|)
    ensures AreHeadersFrom(hs + more, path, 0)
  {
  }

  lemma {:induction false} AllHeaders(hs: seq<Header>, path: seq<HeaderEntry>)
    requires AreHeadersFrom(hs, path, 0) && |hs| == |path|
    ensures hs == HeadersOf(path)
  {
  }

  /** The chunks of 100000 begun in `count` heights. */
  function ChunksOf(count: nat): nat {
    (count + 99999) / 100000
  }

  predicate AfterChunks(length: nat, chunks: nat, count: nat) {
    && length == (if 100000 * chunks < count then 100000 * chunks else count)
    && chunks == ChunksOf(length)
  }

  /** One reply to `getblockhash`: the active chain's block at this height, if there is one. */
  function HashAt(t: BlockTree, best: Hash, height: nat): (r: Option<Hash>)
    requires t.Valid() && t.Known(best)
    ensures r.Some? ==> r.value in t.headers
  {
    PathShape(t, best);
    if height < |Path(t, best)| then Some(Path(t, best)[height].hash) else None
  }

  /** Below the tip, the active chain's block at a height is the tip's ancestor there. */
  lemma {:induction false} BelowActive(t: BlockTree, best: Hash, tip: Hash, k: nat)
    requires t.Valid() && t.Known(best) && tip in t.headers && tip in Hashes(Path(t, best))
    requires k < |Path(t, tip)|
    ensures HashAt(t, best, k) == Some(Path(t, tip)[k].hash)
  {
    OnPath(t, best, tip);
    assert Path(t, best)[..t.Depth(tip)][k] == Path(t, tip)[k];
  }

  lemma {:induction false} CalmSplit(daemon: Daemon, tip: Hash, lo: nat, mid: nat, hi: nat)
    requires daemon.Valid() && lo <= mid <= hi
    ensures daemon.Calm(tip, lo, hi) ==> daemon.Calm(tip, lo, mid) && daemon.Calm(tip, mid, hi)
    ensures daemon.Calm(tip, lo, hi) && mid < hi ==> !daemon.fails(hi)
  {
    assert daemon.Calm(tip, lo, hi) && mid < hi ==> daemon.AnsweredOn(tip, hi);
  }

  lemma {:induction false} TallSplit(daemon: Daemon, count: nat, lo: nat, mid: nat, hi: nat)
    requires daemon.Valid() && lo <= mid <= hi
    ensures daemon.Tall(count, lo, hi) ==> daemon.Tall(count, lo, mid) && daemon.Tall(count, mid, hi)
    ensures daemon.Tall(count, lo, hi) && mid < hi ==> !daemon.fails(hi)
  {
    assert daemon.Tall(count, lo, hi) && mid < hi ==> daemon.AnswersUpTo(count, hi);
  }

  lemma {:induction false} TallBelow(daemon: Daemon, fewer: nat, count: nat, lo: nat, hi: nat)
    requires daemon.Valid() && fewer <= count
    ensures daemon.Tall(count, lo, hi) ==> daemon.Tall(fewer, lo, hi)
  {
    forall id | lo < id <= hi && daemon.AnswersUpTo(count, id) ensures daemon.AnswersUpTo(fewer, id) {
    }
  }

  lemma {:induction false} ServedSplit(daemon: Daemon, tip: Hash, fewer: nat, count: nat, lo: nat, mid: nat, hi: nat)
    requires daemon.Valid() && lo <= mid <= hi && fewer <= count
    ensures daemon.Calm(tip, lo, hi) ==> daemon.Calm(tip, lo, mid) && daemon.Calm(tip, mid, hi)
    ensures daemon.Tall(count, lo, hi) ==> daemon.Tall(fewer, mid, hi)
    ensures daemon.NoFailure(lo, mid) && daemon.NoFailure(mid, hi) ==> daemon.NoFailure(lo, hi)
  {
    CalmSplit(daemon, tip, lo, mid, hi);
    TallSplit(daemon, count, lo, mid, hi);
    TallBelow(daemon, fewer, count, mid, hi);
  }

  function HashBefore(blockHash: Header -> Hash, hs: seq<Header>, i: nat): Hash
    requires i <= |hs|
  {
    if i == 0 then NULL else blockHash(hs[i - 1])
  }

  lemma {:induction false} MissingStep(t: BlockTree, ix: HeaderIndex, h: Hash, chain: seq<Header>)
    requires t.Valid() && h in t.headers && ix.Lookup(h).None?
    ensures HeadersOf(Missing(t, ix, h)) + Reverse(chain)
         == HeadersOf(Missing(t, ix, t.Parent(h))) + Reverse(chain + [t.headers[h]])
  {
    assert HeadersOf(Missing(t, ix, h)) == HeadersOf(Missing(t, ix, t.Parent(h))) + [t.headers[h]];
    assert Reverse(chain + [t.headers[h]]) == [t.headers[h]] + Reverse(chain);
  }

  lemma {:induction false} NothingIndexed(t: BlockTree, ix: HeaderIndex, tip: Hash)
    requires ix.OnTree(t) && t.Known(tip) && ix.headers == []
    ensures Missing(t, ix, tip) == Path(t, tip)
  {
    MissingShape(t, ix, tip);
  }

  /** The tip's path passes the checks. */
  lemma {:induction false} PathPassesChecks(t: BlockTree, tip: Hash)
    requires t.Valid() && t.Known(tip)
    ensures forall i :: 0 <= i < |Path(t, tip)| ==>
      HeadersOf(Path(t, tip))[i].prev == HashBefore(t.blockHash, HeadersOf(Path(t, tip)), i)
    ensures HashBefore(t.blockHash, HeadersOf(Path(t, tip)), |Path(t, tip)|) == tip
  {
    PathLinked(t, tip);
    PathShape(t, tip);
    NumberedAgain(t, Path(t, tip));
    if tip != NULL {
      PathHashed(t, tip, |Path(t, tip)| - 1);
    }
  }

  lemma {:induction false} PathHashed(t: BlockTree, h: Hash, i: nat)
    requires t.Valid() && t.Known(h) && i < |Path(t, h)|
    ensures t.blockHash(Path(t, h)[i].header) == Path(t, h)[i].hash
  {
    PathShape(t, h);
    assert t.Placed(Path(t, h)[i].hash);
  }

  /** Headers of the tree that pass the checks are the tip's path, whatever chain they were read from. */
  lemma {:induction false} LinksToIsPath(t: BlockTree, hs: seq<Header>, tip: Hash)
    requires t.Valid()
    requires forall k :: 0 <= k < |hs| ==> t.blockHash(hs[k]) in t.headers && t.headers[t.blockHash(hs[k])] == hs[k]
    requires forall i :: 0 <= i < |hs| ==> hs[i].prev == HashBefore(t.blockHash, hs, i)
    requires HashBefore(t.blockHash, hs, |hs|) == tip
    ensures t.Known(tip) && hs == HeadersOf(Path(t, tip))
  {
    var es := Numbered(t.blockHash, hs, 0);
    forall i | 1 <= i < |es| ensures LinkedAt(es, i) {
    }
    ChainIsPath(t, es);
    assert HeadersOf(es) == hs;
  }
}
