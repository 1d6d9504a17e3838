/**
 The in-memory header index: the chain as a vector, a hash-to-height map that reorgs never
 clean, and the tip. `HeaderIndex` is its value and `HeaderList` the object the program updates.
 */
module HeaderLists {
  import opened Wrappers
  import opened Bytes
  import opened Chain

  datatype ApplyOutcome = Applied | Ignored | Panicked

  datatype HeaderIndex = HeaderIndex(headers: seq<HeaderEntry>, heights: map<Hash, nat>, tip: Hash)
  {
    /** `header_by_blockhash` */
    function Lookup(h: Hash): Option<HeaderEntry> {
      if h in heights && heights[h] < |headers| && headers[heights[h]].hash == h
      then Some(headers[heights[h]]) else None
    }

    function Order(blockHash: Header -> Hash, hs: seq<Header>): Outcome<seq<HeaderEntry>> {
      if exists i :: 1 <= i < |hs| && hs[i].prev != blockHash(hs[i - 1]) then Panic
      else if hs == [] then Ok([])
      else if hs[0].prev == NULL then Ok(Numbered(blockHash, hs, 0))
      else
        match Lookup(hs[0].prev)
        case None => Panic
        case Some(e) => Ok(Numbered(blockHash, hs, e.height + 1))
    }

    /** Which way `apply` goes: its checks, the index `height - 1`, and the linkage test. */
    function Accepts(es: seq<HeaderEntry>): ApplyOutcome {
      if !Contiguous(es) then Panicked
      else if es == [] then Ignored
      else if es[0].height > |headers| then Panicked
      else if es[0].header.prev != LastHash(headers[..es[0].height]) then Ignored
      else Applied
    }

    function Extended(es: seq<HeaderEntry>): HeaderIndex
      requires es != [] && es[0].height <= |headers|
    {
      HeaderIndex(headers[..es[0].height] + es, AddHeights(heights, es), LastHash(es))
    }

    /** `apply` as a function of the old value. */
    function AfterApply(es: seq<HeaderEntry>): HeaderIndex {
      if Accepts(es).Applied? then Extended(es) else this
    }

    /** Every entry of the chain can be found through the height map; other map entries are free. */
    predicate Indexed() {
      forall i :: 0 <= i < |headers| ==>
        headers[i].hash in heights && heights[headers[i].hash] == i
    }

    /** The chain is the path of the tip. */
    ghost predicate OnTree(t: BlockTree) {
      && t.Valid() && t.Known(tip)
      && headers == Path(t, tip)
      && Indexed()
    }
  }

  const EMPTY := HeaderIndex([], map[], NULL)

  function Numbered(blockHash: Header -> Hash, hs: seq<Header>, base: nat): (es: seq<HeaderEntry>)
    ensures |es| == |hs|
    ensures forall i :: 0 <= i < |hs| ==> es[i] == HeaderEntry(base + i, blockHash(hs[i]), hs[i])
  {
    if hs == [] then []
    else [HeaderEntry(base, blockHash(hs[0]), hs[0])] + Numbered(blockHash, hs[1..], base + 1)
  }

  /** Hashed headers, each naming the one before, on the null hash or on a block that is found. */
  predicate OrderedOn(ix: HeaderIndex, blockHash: Header -> Hash, es: seq<HeaderEntry>) {
    && Contiguous(es)
    && (forall i :: 0 <= i < |es| ==> es[i].hash == blockHash(es[i].header))
    && (es != [] ==>
          var prev := es[0].header.prev;
          if prev == NULL then es[0].height == 0
          else ix.Lookup(prev).Some? && es[0].height == ix.Lookup(prev).value.height + 1)
  }

  /** Ordering gives the headers back as such entries, and panics exactly when there are none. */
  lemma {:induction false} OrderExactly(ix: HeaderIndex, blockHash: Header -> Hash, hs: seq<Header>, es: seq<HeaderEntry>)
    ensures ix.Order(blockHash, hs) == Ok(es) <==> HeadersOf(es) == hs && OrderedOn(ix, blockHash, es)
    ensures !ix.Order(blockHash, hs).Ok? ==> ix.Order(blockHash, hs) == Panic
  {
    if ix.Order(blockHash, hs) == Ok(es) {
      assert HeadersOf(es) == hs;
      forall i | 1 <= i < |es| ensures LinkedAt(es, i) {
        assert hs[i].prev == blockHash(hs[i - 1]);
      }
    }
    if HeadersOf(es) == hs && OrderedOn(ix, blockHash, es) {
      forall i | 1 <= i < |hs| ensures hs[i].prev == blockHash(hs[i - 1]) {
        assert LinkedAt(es, i);
      }
      if es != [] {
        ContiguousIsNumbered(blockHash, es);
      }
    }
  }

  lemma {:induction false} ContiguousIsNumbered(blockHash: Header -> Hash, es: seq<HeaderEntry>)
    requires es != [] && Contiguous(es) && forall i :: 0 <= i < |es| ==> es[i].hash == blockHash(es[i].header)
    ensures Numbered(blockHash, HeadersOf(es), es[0].height) == es
  {
    forall i | 0 <= i < |es| ensures es[i].height == es[0].height + i {
      HeightAt(es, i);
    }
  }

  /** On a rooted chain, `apply` goes ahead exactly when the chain it would leave is one too. */
  lemma {:induction false} AppliedExactly(ix: HeaderIndex, es: seq<HeaderEntry>)
    requires Rooted(ix.headers) && Contiguous(ix.headers)
    ensures ix.Accepts(es).Applied? <==>
      && es != [] && es[0].height <= |ix.headers|
      && Rooted(ix.headers[..es[0].height] + es) && Contiguous(ix.headers[..es[0].height] + es)
    ensures ix.Accepts(es).Panicked? <==> !Contiguous(es) || (es != [] && es[0].height > |ix.headers|)
  {
    if es != [] && es[0].height <= |ix.headers| {
      var cut := ix.headers[..es[0].height];
      if cut != [] {
        HeightAt(ix.headers, |cut| - 1);
      }
      if Contiguous(es) && es[0].header.prev == LastHash(cut) {
        forall i | 1 <= i < |cut + es| ensures LinkedAt(cut + es, i) {
          if i < |cut| {
            assert LinkedAt(ix.headers, i);
          } else if i > |cut| {
            assert LinkedAt(es, i - |cut|);
          }
        }
      }
      if Rooted(cut + es) && Contiguous(cut + es) {
        forall i | 1 <= i < |es| ensures LinkedAt(es, i) {
          assert LinkedAt(cut + es, |cut| + i);
        }
        if cut != [] {
          assert LinkedAt(cut + es, |cut|);
        }
      }
    }
  }

  /** The inserts of the push loop, in order; a later insert of the same hash wins. */
  function AddHeights(m: map<Hash, nat>, es: seq<HeaderEntry>): map<Hash, nat> {
    if es == [] then m
    else AddHeights(m, es[..|es| - 1])[es[|es| - 1].hash := es[|es| - 1].height]
  }

  lemma {:induction false} AddHeightsOne(m: map<Hash, nat>, es: seq<HeaderEntry>, i: nat)
    requires i < |es|
    ensures AddHeights(m, es[..i + 1]) == AddHeights(m, es[..i])[es[i].hash := es[i].height]
  {
    assert es[..i + 1][..i] == es[..i];
  }

  /** The loop of `new`: follow `prev_blockhash`, taking each header out of the map. */
  function Walk(m: map<Hash, Header>, h: Hash): Option<seq<Header>>
    decreases |m|
  {
    if h == NULL then Some([])
    else if h !in m then None
    else
      RemovalShrinks(m, h);
      match Walk(m - {h}, m[h].prev)
      case None => None
      case Some(hs) => Some(hs + [m[h]])
  }

  /** The headers a walk has still to find, in front of those it has pushed. */
  function Walked(toCome: Option<seq<Header>>, pushed: seq<Header>): Option<seq<Header>> {
    match toCome
    case None => None
    case Some(hs) => Some(hs + Reverse(pushed))
  }

  lemma {:induction false} WalkedStart(toCome: Option<seq<Header>>)
    ensures Walked(toCome, []) == toCome
  {
    assert toCome.Some? ==> toCome.value + [] == toCome.value;
  }

  lemma {:induction false} WalkedStep(toCome: Option<seq<Header>>, header: Header, pushed: seq<Header>)
    ensures Walked(match toCome case None => None case Some(hs) => Some(hs + [header]), pushed)
         == Walked(toCome, pushed + [header])
  {
    assert Reverse(pushed + [header]) == [header] + Reverse(pushed);
    assert toCome.Some? ==>
      (toCome.value + [header]) + Reverse(pushed) == toCome.value + ([header] + Reverse(pushed));
  }

  lemma {:induction false} RemovalShrinks<V>(m: map<Hash, V>, h: Hash)
    requires h in m
    ensures |m - {h}| < |m|
  {
    assert (m - {h}).Keys == m.Keys - {h};
    assert |(m - {h}).Keys| == |m - {h}| && |m.Keys| == |m|;
  }

  /** `HeaderList::new`, the full rebuild. */
  function Rebuild(blockHash: Header -> Hash, m: map<Hash, Header>, tip: Hash): Outcome<HeaderIndex> {
    match Walk(m, tip)
    case None => Panic
    case Some(hs) =>
      match EMPTY.Order(blockHash, hs)
      case Err => Err
      case Panic => Panic
      case Ok(es) => if EMPTY.Accepts(es).Panicked? then Panic else Ok(EMPTY.AfterApply(es))
  }

  class HeaderList {
    const blockHash: Header -> Hash
    var headers: seq<HeaderEntry>
    var heights: map<Hash, nat>
    var tip: Hash

    function View(): HeaderIndex
      reads this
    {
      HeaderIndex(headers, heights, tip)
    }

    constructor Empty(blockHash: Header -> Hash)
      ensures View() == EMPTY && this.blockHash == blockHash
    {
      this.blockHash := blockHash;
      headers, heights, tip := [], map[], NULL;
    }

    static method New(blockHash: Header -> Hash, headersMap: map<Hash, Header>, tipHash: Hash)
      returns (r: Outcome<HeaderList>)
      ensures r.Ok? ==> fresh(r.value) && r.value.blockHash == blockHash
      ensures (if r.Ok? then Ok(r.value.View()) else if r.Err? then Err else Panic)
           == Rebuild(blockHash, headersMap, tipHash)
    {
      var rest, blockhash := headersMap, tipHash;
      var headersChain: seq<Header> := [];
      WalkedStart(Walk(headersMap, tipHash));
      while blockhash != NULL
        invariant Walk(headersMap, tipHash) == Walked(Walk(rest, blockhash), headersChain)
        decreases |rest|
      {
        if blockhash !in rest {
          return Panic;
        }
        RemovalShrinks(rest, blockhash);
        var header := rest[blockhash];
        WalkedStep(Walk(rest - {blockhash}, header.prev), header, headersChain);
        rest := rest - {blockhash};
        blockhash := header.prev;
        headersChain := headersChain + [header];
      }
      assert [] + Reverse(headersChain) == Reverse(headersChain);
      var list := new HeaderList.Empty(blockHash);
      match list.View().Order(blockHash, Reverse(headersChain)) {
        case Ok(ordered) =>
          var outcome := list.Apply(ordered);
          r := if outcome.Panicked? then Panic else Ok(list);
        case Err => r := Err;
        case Panic => r := Panic;
      }
    }

    method Apply(newHeaders: seq<HeaderEntry>) returns (outcome: ApplyOutcome)
      modifies this
      ensures outcome == old(View()).Accepts(newHeaders)
      ensures View() == old(View()).AfterApply(newHeaders)
    {
      if !Contiguous(newHeaders) {
        return Panicked;
      }
      if newHeaders == [] {
        return Ignored;
      }
      var height := newHeaders[0].height;
      if height > |headers| {
        return Panicked;
      }
      var expectedPrev := if height > 0 then headers[height - 1].hash else NULL;
      if newHeaders[0].header.prev != expectedPrev {
        return Ignored;
      }
      headers := headers[..height];
      var i := 0;
      while i < |newHeaders|
        invariant 0 <= i <= |newHeaders|
        invariant headers == old(headers)[..height] + newHeaders[..i]
        invariant heights == AddHeights(old(heights), newHeaders[..i])
        invariant i > 0 ==> tip == newHeaders[i - 1].hash
      {
        HeightAt(newHeaders, i);
        assert newHeaders[i].height == |headers|;
        tip := newHeaders[i].hash;
        headers := headers + [newHeaders[i]];
        heights := heights[tip := newHeaders[i].height];
        AddHeightsOne(old(heights), newHeaders, i);
        i := i + 1;
      }
      assert newHeaders[..|newHeaders|] == newHeaders;
      return Applied;
    }

    /** `header_by_blockhash`: on the tree, the chain's entry with this hash. */
    method HeaderByBlockhash(h: Hash) returns (r: Option<HeaderEntry>)
      ensures r == View().Lookup(h)
      ensures forall t: BlockTree, e :: View().OnTree(t) ==> (r == Some(e) <==> e in headers && e.hash == h)
    {
      r := None;
      if h in heights && heights[h] < |headers| && headers[heights[h]].hash == h {
        r := Some(headers[heights[h]]);
      }
      forall t: BlockTree | View().OnTree(t) ensures forall e :: r == Some(e) <==> e in headers && e.hash == h {
        LookupOnTree(t, View(), h);
      }
    }

    /** `tip()` asserts that the stored tip is the hash of the last header. */
    function Tip(): Outcome<Hash>
      reads this
    {
      if tip == LastHash(headers) then Ok(tip) else Panic
    }

    /** `equals` looks at the last entries alone; on one tree that decides about the whole chains. */
    method Equals(other: HeaderList) returns (same: bool)
      ensures same == SameLast(headers, other.headers)
      ensures forall t: BlockTree :: View().OnTree(t) && other.View().OnTree(t) ==>
        (same <==> headers == other.headers)
    {
      same := SameLast(headers, other.headers);
      forall t: BlockTree | View().OnTree(t) && other.View().OnTree(t) ensures same <==> headers == other.headers {
        EqualsIsWholeChain(t, View(), other.View());
      }
    }
  }

  predicate SameLast(a: seq<HeaderEntry>, b: seq<HeaderEntry>) {
    if a == [] || b == [] then a == b else a[|a| - 1] == b[|b| - 1]
  }

  lemma {:induction false} AddHeightsKeeps(m: map<Hash, nat>, es: seq<HeaderEntry>, h: Hash)
    requires forall j :: 0 <= j < |es| ==> es[j].hash != h
    ensures h in AddHeights(m, es) <==> h in m
    ensures h in m ==> AddHeights(m, es)[h] == m[h]
  {
    if es == [] {
    } else {
      var n := |es| - 1;
      AddHeightsKeeps(m, es[..n], h);
    }
  }

  lemma {:induction false} AddHeightsAt(m: map<Hash, nat>, es: seq<HeaderEntry>, i: nat)
    requires i < |es|
    requires forall j :: i < j < |es| ==> es[j].hash != es[i].hash
    ensures es[i].hash in AddHeights(m, es) && AddHeights(m, es)[es[i].hash] == es[i].height
  {
    var n := |es| - 1;
    if i == n {
    } else {
      AddHeightsAt(m, es[..n], i);
    }
  }

  /** Where an accepted `apply` leaves the chain: on the path of the last new header. */
  lemma {:induction false} ApplyIsPath(t: BlockTree, ix: HeaderIndex, es: seq<HeaderEntry>)
    requires ix.OnTree(t) && FromTree(t, es) && ix.Accepts(es).Applied?
    ensures t.Known(LastHash(es)) && ix.headers[..es[0].height] + es == Path(t, LastHash(es))
  {
    var f := es[0].height;
    if f > 0 {
      PathPrefix(t, ix.tip, f - 1);
    }
    PathExtends(t, LastHash(ix.headers[..f]), es);
  }

  lemma {:induction false} ApplyParts(t: BlockTree, ix: HeaderIndex, es: seq<HeaderEntry>)
    requires ix.OnTree(t) && FromTree(t, es) && ix.Accepts(es).Applied?
    ensures t.Known(LastHash(es))
    ensures var f, s := es[0].height, Path(t, LastHash(es));
            && |s| == f + |es|
            && (forall i :: 0 <= i < f ==> s[i] == ix.headers[i])
            && (forall j :: 0 <= j < |es| ==> s[f + j] == es[j])
  {
    ApplyIsPath(t, ix, es);
    Spliced(ix.headers, es[0].height, es, Path(t, LastHash(es)));
  }

  lemma {:induction false} Spliced(before: seq<HeaderEntry>, f: nat, es: seq<HeaderEntry>, after: seq<HeaderEntry>)
    requires f <= |before| && before[..f] + es == after
    ensures |after| == f + |es|
    ensures forall i :: 0 <= i < f ==> after[i] == before[i]
    ensures forall j :: 0 <= j < |es| ==> after[f + j] == es[j]
  {
  }

  /** One accepted `apply` of headers from the tree keeps the index on the tree, stale heights and all. */
  lemma {:induction false} ApplyKeeps(t: BlockTree, ix: HeaderIndex, es: seq<HeaderEntry>)
    requires ix.OnTree(t) && FromTree(t, es)
    ensures ix.AfterApply(es).OnTree(t)
  {
    if ix.Accepts(es).Applied? {
      ApplyIsPath(t, ix, es);
      var s := Path(t, LastHash(es));
      forall i | 0 <= i < |s|
        ensures s[i].hash in AddHeights(ix.heights, es) && AddHeights(ix.heights, es)[s[i].hash] == i
      {
        ApplyIndexes(t, ix, es, i);
      }
    }
  }

  lemma {:induction false} ApplyIndexes(t: BlockTree, ix: HeaderIndex, es: seq<HeaderEntry>, i: nat)
    requires ix.OnTree(t) && FromTree(t, es) && ix.Accepts(es).Applied?
    requires t.Known(LastHash(es)) && i < |Path(t, LastHash(es))|
    ensures var s := Path(t, LastHash(es));
            s[i].hash in AddHeights(ix.heights, es) && AddHeights(ix.heights, es)[s[i].hash] == i
  {
    var f, s := es[0].height, Path(t, LastHash(es));
    ApplyParts(t, ix, es);
    PathShape(t, LastHash(es));
    if i < f {
      AddHeightsKeeps(ix.heights, es, s[i].hash);
    } else {
      assert s[i] == es[i - f];
      AddHeightsAt(ix.heights, es, i - f);
    }
  }

  /** The value after a series of `apply` calls, or a panic in one of them. */
  function ApplyAll(ix: HeaderIndex, batches: seq<seq<HeaderEntry>>): Outcome<HeaderIndex>
    decreases |batches|
  {
    if batches == [] then Ok(ix)
    else if ix.Accepts(batches[0]).Panicked? then Panic
    else ApplyAll(ix.AfterApply(batches[0]), batches[1..])
  }

  lemma {:induction false} ApplyAllKeeps(t: BlockTree, ix: HeaderIndex, batches: seq<seq<HeaderEntry>>)
    requires ix.OnTree(t) && forall es <- batches :: FromTree(t, es)
    ensures ApplyAll(ix, batches).Ok? ==> ApplyAll(ix, batches).value.OnTree(t)
    decreases |batches|
  {
    if batches == [] {
    } else {
      ApplyKeeps(t, ix, batches[0]);
      ApplyAllKeeps(t, ix.AfterApply(batches[0]), batches[1..]);
    }
  }

  /** After any series of `apply` calls a lookup agrees with a linear search of the chain. */
  lemma {:induction false} LookupIsLinearSearch(t: BlockTree, batches: seq<seq<HeaderEntry>>, h: Hash, e: HeaderEntry)
    requires t.Valid() && forall es <- batches :: FromTree(t, es)
    requires ApplyAll(EMPTY, batches).Ok?
    ensures var ix := ApplyAll(EMPTY, batches).value;
            && (ix.Lookup(h) == Some(e) <==> e in ix.headers && e.hash == h)
            && (ix.Lookup(h) == None <==> forall x <- ix.headers :: x.hash != h)
  {
    ApplyAllKeeps(t, EMPTY, batches);
    LookupOnTree(t, ApplyAll(EMPTY, batches).value, h);
  }

  lemma {:induction false} LookupOnTree(t: BlockTree, ix: HeaderIndex, h: Hash)
    requires ix.OnTree(t)
    ensures ix.Lookup(h).Some? <==> h in Hashes(ix.headers)
    ensures forall e :: ix.Lookup(h) == Some(e) <==> e in ix.headers && e.hash == h
    ensures ix.Lookup(h).Some? ==> h in t.headers && ix.Lookup(h).value == t.Entry(h)
  {
    PathShape(t, ix.tip);
    forall e | e in ix.headers && e.hash == h ensures ix.Lookup(h) == Some(e) {
      var i :| 0 <= i < |ix.headers| && ix.headers[i] == e;
      assert ix.heights[ix.headers[i].hash] == i;
    }
  }

  /** Comparing the last entries decides whether the two whole chains are equal. */
  lemma {:induction false} EqualsIsWholeChain(t: BlockTree, a: HeaderIndex, b: HeaderIndex)
    requires a.OnTree(t) && b.OnTree(t)
    ensures SameLast(a.headers, b.headers) <==> a.headers == b.headers
  {
    PathShape(t, a.tip);
    PathShape(t, b.tip);
  }

  /** Walking any part of the tree finds the whole path or misses one of its headers. */
  lemma {:induction false} WalkIsPath(t: BlockTree, m: map<Hash, Header>, h: Hash)
    requires t.Valid() && t.Known(h)
    requires forall k <- m :: k in t.headers && t.headers[k] == m[k]
    ensures Walk(m, h).Some? <==> Hashes(Path(t, h)) <= m.Keys
    ensures Walk(m, h).Some? ==> Walk(m, h).value == HeadersOf(Path(t, h))
    decreases |m|
  {
    if h == NULL {
    } else {
      PathHashes(t, h);
      PathHeaders(t, h);
      if h in m {
        var prev := t.Parent(h);
        RemovalShrinks(m, h);
        WalkIsPath(t, m - {h}, prev);
        assert (m - {h}).Keys == m.Keys - {h};
      }
    }
  }

  lemma {:induction false} PathHeaders(t: BlockTree, h: Hash)
    requires t.Valid() && h in t.headers
    ensures HeadersOf(Path(t, h)) == HeadersOf(Path(t, t.Parent(h))) + [t.headers[h]]
  {
  }

  lemma {:induction false} PathHashes(t: BlockTree, h: Hash)
    requires t.Valid() && h in t.headers
    ensures var q := Hashes(Path(t, t.Parent(h))); h !in q && Hashes(Path(t, h)) == q + {h}
  {
    var p, q := Path(t, h), Path(t, t.Parent(h));
    PathShape(t, h);
    assert p == q + [t.Entry(h)];
    assert forall i :: 0 <= i < |q| ==> p[i] == q[i];
    assert p[|q|].hash == h;
  }

  /** Numbering a chain's own headers from its first height gives the chain back. */
  lemma {:induction false} NumberedAgain(t: BlockTree, es: seq<HeaderEntry>)
    requires t.Valid() && Contiguous(es) && FromTree(t, es)
    ensures es != [] ==> Numbered(t.blockHash, HeadersOf(es), es[0].height) == es
    ensures !(exists i :: 1 <= i < |es| && HeadersOf(es)[i].prev != t.blockHash(HeadersOf(es)[i - 1]))
  {
    forall i | 0 <= i < |es|
      ensures es[i] == HeaderEntry(es[0].height + i, t.blockHash(es[i].header), es[i].header)
      ensures i > 0 ==> es[i].header.prev == t.blockHash(es[i - 1].header)
    {
      HeightAt(es, i);
      assert t.Placed(es[i].hash);
      if i > 0 {
        assert LinkedAt(es, i) && t.Placed(es[i - 1].hash);
      }
    }
  }

  /** A rebuild from part of the tree succeeds exactly when the tip's path is all there, and gives that path. */
  lemma {:induction false} RebuildIsPath(t: BlockTree, m: map<Hash, Header>, tip: Hash)
    requires t.Valid() && t.Known(tip)
    requires forall k <- m :: k in t.headers && t.headers[k] == m[k]
    ensures var r := Rebuild(t.blockHash, m, tip);
            && (r == Panic <==> !(Hashes(Path(t, tip)) <= m.Keys))
            && (r != Panic ==> r.Ok? && r.value.OnTree(t) && r.value.tip == tip)
  {
    WalkIsPath(t, m, tip);
    if Hashes(Path(t, tip)) <= m.Keys {
      RebuildFromPath(t, tip);
    }
  }

  /** Ordering the headers of a linked piece of the tree gives the piece back. */
  lemma {:induction false} OrderAgain(t: BlockTree, ix: HeaderIndex, es: seq<HeaderEntry>)
    requires t.Valid() && Contiguous(es) && FromTree(t, es)
    requires es != [] ==>
      if es[0].header.prev == NULL then es[0].height == 0
      else ix.Lookup(es[0].header.prev).Some? && ix.Lookup(es[0].header.prev).value.height + 1 == es[0].height
    ensures ix.Order(t.blockHash, HeadersOf(es)) == Ok(es)
  {
    NumberedAgain(t, es);
  }

  lemma {:induction false} RebuildFromPath(t: BlockTree, tip: Hash)
    requires t.Valid() && t.Known(tip)
    ensures var p := Path(t, tip);
            && EMPTY.Order(t.blockHash, HeadersOf(p)) == Ok(p)
            && !EMPTY.Accepts(p).Panicked?
            && EMPTY.AfterApply(p).OnTree(t) && EMPTY.AfterApply(p).tip == tip
  {
    PathLinked(t, tip);
    OrderAgain(t, EMPTY, Path(t, tip));
    ApplyPath(t, tip);
  }

  lemma {:induction false} ApplyPath(t: BlockTree, tip: Hash)
    requires t.Valid() && t.Known(tip)
    requires Rooted(Path(t, tip)) && Contiguous(Path(t, tip)) && FromTree(t, Path(t, tip))
    ensures var p := Path(t, tip);
            && !EMPTY.Accepts(p).Panicked?
            && EMPTY.AfterApply(p).OnTree(t) && EMPTY.AfterApply(p).tip == tip
  {
    PathShape(t, tip);
    ApplyKeeps(t, EMPTY, Path(t, tip));
  }
}
