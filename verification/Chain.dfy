/**
 Block headers, the finite block tree a node knows, and the chains that run through it.
 The tree maps each hash to the header with that hash, so no two headers in it collide.
 */
module Chain {
  import opened Bytes

  datatype Header = Header(version: i32, prev: Hash, merkleRoot: Hash, time: u32, bits: u32, nonce: u32)

  datatype HeaderEntry = HeaderEntry(height: nat, hash: Hash, header: Header)

  /** `blockHash` is any hash function for which the tree's own headers do not collide. */
  datatype BlockTree = BlockTree(blockHash: Header -> Hash, headers: map<Hash, Header>, heights: map<Hash, nat>)
  {
    ghost predicate Valid() {
      && heights.Keys == headers.Keys
      && NULL !in headers
      && (forall h {:trigger Placed(h)} :: h in headers ==> Placed(h))
    }

    /** A block is stored under its own hash, one above a parent that is in the tree too. */
    ghost predicate Placed(h: Hash)
      requires heights.Keys == headers.Keys && h in headers
    {
      && blockHash(headers[h]) == h
      && (headers[h].prev == NULL ==> heights[h] == 0)
      && (headers[h].prev != NULL ==>
            headers[h].prev in headers && heights[h] == heights[headers[h].prev] + 1)
    }

    predicate Known(h: Hash) {
      h == NULL || h in headers
    }

    ghost function Depth(h: Hash): nat
      requires Valid() && Known(h)
    {
      if h == NULL then 0 else heights[h] + 1
    }

    function Parent(h: Hash): (p: Hash)
      requires Valid() && h in headers
      ensures Known(p) && Depth(h) == Depth(p) + 1
      ensures blockHash(headers[h]) == h
    {
      assert Placed(h);
      headers[h].prev
    }

    function Entry(h: Hash): HeaderEntry
      requires Valid() && h in headers
    {
      HeaderEntry(heights[h], h, headers[h])
    }
  }

  /** The headers from genesis to `h`, oldest first. */
  function Path(t: BlockTree, h: Hash): (p: seq<HeaderEntry>)
    requires t.Valid() && t.Known(h)
    ensures |p| == t.Depth(h)
    decreases t.Depth(h)
  {
    if h == NULL then [] else Path(t, t.Parent(h)) + [t.Entry(h)]
  }

  predicate LinkedAt(s: seq<HeaderEntry>, i: nat)
    requires 1 <= i < |s|
  {
    s[i - 1].height + 1 == s[i].height && s[i - 1].hash == s[i].header.prev
  }

  /** Neighbours agree in height and linkage: what the checks at the top of `apply` test. */
  predicate Contiguous(s: seq<HeaderEntry>) {
    forall i :: 1 <= i < |s| ==> LinkedAt(s, i)
  }

  predicate Rooted(s: seq<HeaderEntry>) {
    s != [] ==> s[0].height == 0 && s[0].header.prev == NULL
  }

  predicate FromTree(t: BlockTree, s: seq<HeaderEntry>) {
    forall i :: 0 <= i < |s| ==> s[i].hash in t.headers && t.headers[s[i].hash] == s[i].header
  }

  function LastHash(s: seq<HeaderEntry>): Hash {
    if s == [] then NULL else s[|s| - 1].hash
  }

  function HashesIn(s: seq<HeaderEntry>, lo: nat, hi: nat): set<Hash>
    requires lo <= hi <= |s|
  {
    set i | lo <= i < hi :: s[i].hash
  }

  function Hashes(s: seq<HeaderEntry>): set<Hash> {
    HashesIn(s, 0, |s|)
  }

  function HeadersOf(s: seq<HeaderEntry>): seq<Header> {
    seq(|s|, i requires 0 <= i < |s| => s[i].header)
  }

  /** Both header walks push the tip first and reverse at the end. */
  function Reverse<T>(s: seq<T>): (r: seq<T>)
    ensures |r| == |s|
    ensures forall i :: 0 <= i < |s| ==> r[i] == s[|s| - 1 - i]
  {
    if s == [] then [] else Reverse(s[1..]) + [s[0]]
  }

  lemma {:induction false} PathShape(t: BlockTree, h: Hash)
    requires t.Valid() && t.Known(h)
    ensures LastHash(Path(t, h)) == h
    ensures forall i :: 0 <= i < |Path(t, h)| ==>
      Path(t, h)[i].hash in t.headers && Path(t, h)[i] == t.Entry(Path(t, h)[i].hash) && Path(t, h)[i].height == i
    decreases t.Depth(h)
  {
    if h == NULL {
    } else {
      PathShape(t, t.Parent(h));
    }
  }

  lemma {:induction false} PathLinked(t: BlockTree, h: Hash)
    requires t.Valid() && t.Known(h)
    ensures Rooted(Path(t, h)) && Contiguous(Path(t, h)) && FromTree(t, Path(t, h))
    decreases t.Depth(h)
  {
    PathShape(t, h);
    if h == NULL {
    } else {
      var prev := t.Parent(h);
      var p, q := Path(t, h), Path(t, prev);
      PathLinked(t, prev);
      PathShape(t, prev);
      forall i | 1 <= i < |p| ensures LinkedAt(p, i) {
        if i < |q| {
          assert LinkedAt(q, i);
        }
      }
    }
  }

  lemma {:induction false} ContiguousSlice(s: seq<HeaderEntry>, i: nat, j: nat)
    requires Contiguous(s) && i <= j <= |s|
    ensures Contiguous(s[i..j])
  {
    forall k | 1 <= k < j - i ensures LinkedAt(s[i..j], k) {
      assert LinkedAt(s, i + k);
    }
  }

  function Below(base: Hash, s: seq<HeaderEntry>, i: nat): Hash
    requires i <= |s|
  {
    if i == 0 then base else s[i - 1].hash
  }

  lemma {:induction false} PathExtendsAt(t: BlockTree, base: Hash, s: seq<HeaderEntry>, i: nat)
    requires t.Valid() && t.Known(base)
    requires Contiguous(s) && FromTree(t, s)
    requires s != [] ==> s[0].header.prev == base && s[0].height == t.Depth(base)
    requires i <= |s|
    ensures t.Known(Below(base, s, i))
    ensures var p := Path(t, Below(base, s, i));
            && |p| == t.Depth(base) + i
            && (forall k :: 0 <= k < t.Depth(base) ==> p[k] == Path(t, base)[k])
            && (forall k :: 0 <= k < i ==> p[t.Depth(base) + k] == s[k])
  {
    if i == 0 {
    } else {
      PathExtendsAt(t, base, s, i - 1);
      HeightAt(s, i - 1);
      if i > 1 {
        assert LinkedAt(s, i - 1);
      }
      PathStep(t, Below(base, s, i - 1), s[i - 1]);
    }
  }

  /** Linked headers of the tree that start right above `base` extend the path of `base`. */
  lemma {:induction false} PathExtends(t: BlockTree, base: Hash, s: seq<HeaderEntry>)
    requires t.Valid() && t.Known(base)
    requires Contiguous(s) && FromTree(t, s)
    requires s != [] ==> s[0].header.prev == base && s[0].height == t.Depth(base)
    ensures t.Known(Below(base, s, |s|)) && Path(t, Below(base, s, |s|)) == Path(t, base) + s
  {
    PathExtendsAt(t, base, s, |s|);
  }

  lemma {:induction false} PathStep(t: BlockTree, below: Hash, e: HeaderEntry)
    requires t.Valid() && t.Known(below)
    requires e.hash in t.headers && t.headers[e.hash] == e.header && e.header.prev == below
    requires e.height == |Path(t, below)|
    ensures Path(t, e.hash) == Path(t, below) + [e]
  {
    assert t.Parent(e.hash) == below;
  }

  lemma {:induction false} HeightAt(s: seq<HeaderEntry>, i: nat)
    requires Contiguous(s) && i < |s|
    ensures s[i].height == s[0].height + i
  {
    if i == 0 {
    } else {
      HeightAt(s, i - 1);
      assert LinkedAt(s, i);
    }
  }

  /** A null-rooted linked chain is determined by its last hash. */
  lemma {:induction false} ChainIsPath(t: BlockTree, s: seq<HeaderEntry>)
    requires t.Valid()
    requires Rooted(s) && Contiguous(s) && FromTree(t, s)
    ensures t.Known(LastHash(s)) && s == Path(t, LastHash(s))
  {
    PathExtends(t, NULL, s);
    assert Path(t, NULL) + s == s;
  }

  /** A null-rooted linked chain never repeats a hash. */
  lemma {:induction false} NoRepeats(t: BlockTree, s: seq<HeaderEntry>, i: nat, j: nat)
    requires t.Valid()
    requires Rooted(s) && Contiguous(s) && FromTree(t, s)
    requires i < |s| && j < |s| && s[i].hash == s[j].hash
    ensures i == j
  {
    ChainIsPath(t, s);
    PathShape(t, LastHash(s));
  }

  /** The part of a path up to one of its own blocks is that block's path. */
  lemma {:induction false} PathPrefix(t: BlockTree, h: Hash, i: nat)
    requires t.Valid() && t.Known(h)
    requires i < |Path(t, h)|
    ensures Path(t, h)[i].hash in t.headers
    ensures Path(t, h)[..i + 1] == Path(t, Path(t, h)[i].hash)
    decreases t.Depth(h)
  {
    if i < |Path(t, h)| - 1 {
      var prev := t.Parent(h);
      PathPrefix(t, prev, i);
      assert Path(t, h)[..i + 1] == Path(t, prev)[..i + 1];
    } else {
      assert Path(t, h)[..i + 1] == Path(t, h);
    }
  }

  lemma {:induction false} PathParent(t: BlockTree, h: Hash, i: nat)
    requires t.Valid() && t.Known(h) && i < |Path(t, h)|
    ensures Path(t, h)[i].header.prev == LastHash(Path(t, h)[..i])
    ensures i > 0 ==> Path(t, h)[i].header.prev == Path(t, h)[i - 1].hash != NULL
  {
    PathLinked(t, h);
    PathShape(t, h);
    if i > 0 {
      assert LinkedAt(Path(t, h), i);
    }
  }

  /** A hash lies on the path of `h` exactly when its own path is a prefix of it. */
  lemma {:induction false} OnPath(t: BlockTree, h: Hash, x: Hash)
    requires t.Valid() && t.Known(h) && x in Hashes(Path(t, h))
    ensures x in t.headers && t.heights[x] < |Path(t, h)| && Path(t, h)[t.heights[x]] == t.Entry(x)
    ensures Path(t, h)[..t.Depth(x)] == Path(t, x)
  {
    var p := Path(t, h);
    var i :| 0 <= i < |p| && p[i].hash == x;
    PathShape(t, h);
    PathPrefix(t, h, i);
  }
}
