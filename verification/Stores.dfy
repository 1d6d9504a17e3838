/**
 The disk: a key-value database in byte order, the rows the header index keeps in it, and the
 prefix scan that loads them. Sealing is the identity here.
 */
module Stores {
  import opened Wrappers
  import opened Bytes
  import opened Chain
  import opened Codecs

  datatype DBRow = DBRow(key: seq<byte>, value: seq<byte>)

  /** What the rows mean: headers under `b` keys, marks under `D` keys, the tip under `t`. */
  datatype Disk = Disk(rows: map<Hash, Header>, done: set<Hash>, tip: Option<Hash>)

  datatype Row = HeaderRow(hash: Hash, header: Header) | DoneRow(hash: Hash)

  const EMPTY_DISK := Disk(map[], {}, None)

  const ROW_CHUNK := 50000

  function PutRow(d: Disk, r: Row): Disk {
    match r
    case HeaderRow(h, header) => d.(rows := d.rows[h := header])
    case DoneRow(h) => d.(done := d.done + {h})
  }

  function PutRows(d: Disk, rs: seq<Row>): Disk {
    if rs == [] then d else PutRow(PutRows(d, rs[..|rs| - 1]), rs[|rs| - 1])
  }

  /** `add_sync_headers`: a header row and a mark for each entry. */
  function SyncRows(es: seq<HeaderEntry>): seq<Row> {
    SyncRowsIn(es, 0, |es|)
  }

  function SyncRowsIn(es: seq<HeaderEntry>, i: nat, j: nat): (rs: seq<Row>)
    requires i <= j <= |es|
    ensures |rs| == 2 * (j - i)
  {
    if i == j then []
    else SyncRowsIn(es, i, j - 1) + [RowOfEntry(es, j - 1, 0)] + [RowOfEntry(es, j - 1, 1)]
  }

  function RowOfEntry(es: seq<HeaderEntry>, k: nat, parity: nat): Row
    requires k < |es|
  {
    if parity == 0 then HeaderRow(es[k].hash, es[k].header) else DoneRow(es[k].hash)
  }

  /** The rows of a run of entries split where the entries do. */
  lemma {:induction false} SyncRowsSplit(es: seq<HeaderEntry>, i: nat, j: nat, k: nat)
    requires i <= j <= k <= |es|
    ensures SyncRowsIn(es, i, k) == SyncRowsIn(es, i, j) + SyncRowsIn(es, j, k)
  {
    if j == k {
    } else {
      SyncRowsSplit(es, i, j, k - 1);
    }
  }

  // ---- bytes -------------------------------------------------------------------------------

  const VERSION_KEY: seq<byte> := [0x56]
  const TIP_KEY: seq<byte> := [0x74]
  const HEADER_PREFIX: seq<byte> := [0x62]
  const DONE_PREFIX: seq<byte> := [0x44]

  /** `BlockRow::into_row` */
  function IntoDBRow(r: Row): DBRow {
    match r
    case HeaderRow(h, header) => DBRow(HEADER_PREFIX + HashBytes(h), HeaderBytes(header))
    case DoneRow(h) => DBRow(DONE_PREFIX + HashBytes(h), [])
  }

  // ---- the ordered map -----------------------------------------------------------------------

  predicate Sorted(rows: seq<DBRow>) {
    forall i, j :: 0 <= i < j < |rows| ==> Less(rows[i].key, rows[j].key)
  }

  function Get(rows: seq<DBRow>, key: seq<byte>): Option<seq<byte>> {
    if rows == [] then None
    else if rows[0].key == key then Some(rows[0].value)
    else Get(rows[1..], key)
  }

  /** One put into the ordered map: replace the row with this key, or insert it in its place. */
  function Put(rows: seq<DBRow>, r: DBRow): seq<DBRow> {
    if rows == [] || Less(r.key, rows[0].key) then [r] + rows
    else if rows[0].key == r.key then [r] + rows[1..]
    else [rows[0]] + Put(rows[1..], r)
  }

  lemma {:induction false} PutSorted(rows: seq<DBRow>, r: DBRow)
    requires Sorted(rows)
    ensures Sorted(Put(rows, r))
    ensures forall x :: x in Put(rows, r) ==> x == r || x in rows
  {
    if rows == [] {
    } else if Less(r.key, rows[0].key) {
      forall j | 0 <= j < |rows| ensures Less(r.key, rows[j].key) {
        if j > 0 {
          LessTransitive(r.key, rows[0].key, rows[j].key);
        }
      }
    } else if rows[0].key != r.key {
      LessTotal(r.key, rows[0].key);
      PutSorted(rows[1..], r);
      var rest := Put(rows[1..], r);
      forall j | 0 <= j < |rest| ensures Less(rows[0].key, rest[j].key) {
        assert rest[j] in rest;
        if rest[j] != r {
          assert rest[j] in rows[1..];
        }
      }
    }
  }

  lemma {:induction false} PutGet(rows: seq<DBRow>, r: DBRow, key: seq<byte>)
    requires Sorted(rows)
    ensures Get(Put(rows, r), key) == if key == r.key then Some(r.value) else Get(rows, key)
  {
    if rows == [] {
      assert [r][1..] == [];
    } else if Less(r.key, rows[0].key) {
      assert ([r] + rows)[1..] == rows;
    } else if rows[0].key == r.key {
      assert ([r] + rows[1..])[1..] == rows[1..];
    } else {
      PutGet(rows[1..], r, key);
      assert ([rows[0]] + Put(rows[1..], r))[1..] == Put(rows[1..], r);
    }
  }

  lemma {:induction false} GetIsRow(rows: seq<DBRow>, r: DBRow)
    requires Sorted(rows)
    ensures Get(rows, r.key) == Some(r.value) <==> r in rows
  {
    if rows == [] {
    } else {
      GetIsRow(rows[1..], r);
      LessTotal(r.key, r.key);
      assert r in rows <==> r == rows[0] || r in rows[1..];
      assert forall j :: 0 <= j < |rows[1..]| ==> rows[1..][j] == rows[j + 1];
    }
  }

  /** Which database content stands for a disk state. */
  ghost predicate Holds(rows: seq<DBRow>, d: Disk) {
    && (forall i :: 0 <= i < |rows| ==> OurKey(rows[i].key))
    && (forall h :: HoldsAt(rows, d, h))
    && Get(rows, TIP_KEY) == if d.tip.Some? then Some(HashBytes(d.tip.value)) else None
  }

  ghost predicate HoldsAt(rows: seq<DBRow>, d: Disk, h: Hash) {
    && Get(rows, HeaderKey(h)) == (if h in d.rows then Some(HeaderBytes(d.rows[h])) else None)
    && Get(rows, DoneKey(h)) == if h in d.done then Some([]) else None
  }

  /**
   The database by its keys: 'b' and the hash for a header, 'D' and the hash for a mark, 't' for the tip.
   */
  lemma {:induction false} RowsByKey(rows: seq<DBRow>, d: Disk, h: Hash)
    requires Holds(rows, d)
    ensures Get(rows, ['b' as byte] + HashBytes(h)) == if h in d.rows then Some(HeaderBytes(d.rows[h])) else None
    ensures Get(rows, ['D' as byte] + HashBytes(h)) == if h in d.done then Some([]) else None
    ensures Get(rows, ['t' as byte]) == if d.tip.Some? then Some(HashBytes(d.tip.value)) else None
  {
    assert HoldsAt(rows, d, h);
  }

  predicate OurKey(key: seq<byte>) {
    key == VERSION_KEY || key == TIP_KEY || (|key| == 33 && (key[0] == HEADER_PREFIX[0] || key[0] == DONE_PREFIX[0]))
  }

  function HeaderKey(h: Hash): (k: seq<byte>)
    ensures |k| == 33 && k[0] == 0x62 && k[1..] == HashBytes(h)
  {
    HEADER_PREFIX + HashBytes(h)
  }

  function DoneKey(h: Hash): (k: seq<byte>)
    ensures |k| == 33 && k[0] == 0x44 && k[1..] == HashBytes(h)
  {
    DONE_PREFIX + HashBytes(h)
  }

  lemma {:induction false} KeyIsHash(key: seq<byte>, h: Hash)
    requires |key| == 33
    ensures key == [key[0]] + HashBytes(ParseHash(key[1..]))
    ensures HashBytes(h) == key[1..] <==> h == ParseHash(key[1..])
  {
    HashRoundTrip(h, key[1..]);
  }

  lemma {:induction false} PutHolds(rows: seq<DBRow>, d: Disk, r: Row)
    requires Sorted(rows) && Holds(rows, d)
    ensures Sorted(Put(rows, IntoDBRow(r))) && Holds(Put(rows, IntoDBRow(r)), PutRow(d, r))
  {
    var b := IntoDBRow(r);
    PutSorted(rows, b);
    forall i | 0 <= i < |Put(rows, b)| ensures OurKey(Put(rows, b)[i].key) {
      assert Put(rows, b)[i] in Put(rows, b);
    }
    forall h ensures HoldsAt(Put(rows, b), PutRow(d, r), h) {
      PutHoldsAt(rows, d, r, h);
    }
    PutGet(rows, b, TIP_KEY);
  }

  lemma {:induction false} PutHoldsAt(rows: seq<DBRow>, d: Disk, r: Row, h: Hash)
    requires Sorted(rows) && HoldsAt(rows, d, h)
    ensures HoldsAt(Put(rows, IntoDBRow(r)), PutRow(d, r), h)
  {
    SameKey(h, r);
    PutGet(rows, IntoDBRow(r), HeaderKey(h));
    PutGet(rows, IntoDBRow(r), DoneKey(h));
  }

  lemma {:induction false} SameKey(h: Hash, r: Row)
    ensures HeaderKey(h) == IntoDBRow(r).key <==> r.HeaderRow? && h == r.hash
    ensures DoneKey(h) == IntoDBRow(r).key <==> r.DoneRow? && h == r.hash
  {
    KeyIsHash(HeaderKey(h), r.hash);
    KeyIsHash(DoneKey(h), r.hash);
    HashRoundTrip(h, HashBytes(h));
  }

  lemma {:induction false} PutTipHolds(rows: seq<DBRow>, d: Disk, tip: Hash)
    requires Sorted(rows) && Holds(rows, d)
    ensures var after := Put(rows, DBRow(TIP_KEY, HashBytes(tip)));
            Sorted(after) && Holds(after, d.(tip := Some(tip)))
  {
    var b := DBRow(TIP_KEY, HashBytes(tip));
    PutSorted(rows, b);
    forall i | 0 <= i < |Put(rows, b)| ensures OurKey(Put(rows, b)[i].key) {
      assert Put(rows, b)[i] in Put(rows, b);
    }
    forall h ensures HoldsAt(Put(rows, b), d.(tip := Some(tip)), h) {
      assert HoldsAt(rows, d, h);
      PutGet(rows, b, HeaderKey(h));
      PutGet(rows, b, DoneKey(h));
    }
    PutGet(rows, b, TIP_KEY);
  }

  // ---- the prefix scan -------------------------------------------------------------------------

  /** Where `prefix_iterator` starts: the first key not before the prefix. */
  function Seek(rows: seq<DBRow>, prefix: seq<byte>): seq<DBRow> {
    if rows != [] && Less(rows[0].key, prefix) then Seek(rows[1..], prefix) else rows
  }

  function TakeWhile(rows: seq<DBRow>, prefix: seq<byte>): seq<DBRow> {
    if rows == [] || !StartsWith(rows[0].key, prefix) then []
    else [rows[0]] + TakeWhile(rows[1..], prefix)
  }

  function Filtered(rows: seq<DBRow>, prefix: seq<byte>): seq<DBRow> {
    if rows == [] then []
    else (if StartsWith(rows[0].key, prefix) then [rows[0]] else []) + Filtered(rows[1..], prefix)
  }

  /** Stopping at the first key without the prefix loses nothing: the scan is the whole filter. */
  lemma {:induction false} ScanIsFilter(rows: seq<DBRow>, prefix: seq<byte>)
    requires Sorted(rows)
    ensures TakeWhile(Seek(rows, prefix), prefix) == Filtered(rows, prefix)
  {
    if rows == [] {
    } else {
      ScanIsFilter(rows[1..], prefix);
      if StartsWith(rows[0].key, prefix) {
        PrefixNotAfter(rows[0].key, prefix);
        SeekStays(rows[1..], rows[0].key, prefix);
      } else if !Less(rows[0].key, prefix) {
        forall j | 1 <= j < |rows| ensures !StartsWith(rows[j].key, prefix) {
          PrefixEnds(rows[0].key, rows[j].key, prefix);
        }
        NoneFiltered(rows[1..], prefix);
      }
    }
  }

  lemma {:induction false} SeekStays(rows: seq<DBRow>, first: seq<byte>, prefix: seq<byte>)
    requires Sorted(rows) && !Less(first, prefix)
    requires forall j :: 0 <= j < |rows| ==> Less(first, rows[j].key)
    ensures Seek(rows, prefix) == rows
  {
    if rows != [] && Less(rows[0].key, prefix) {
      LessTransitive(first, rows[0].key, prefix);
    }
  }

  lemma {:induction false} NoneFiltered(rows: seq<DBRow>, prefix: seq<byte>)
    requires forall j :: 0 <= j < |rows| ==> !StartsWith(rows[j].key, prefix)
    ensures Filtered(rows, prefix) == []
  {
    if rows == [] {
    } else {
      NoneFiltered(rows[1..], prefix);
    }
  }

  lemma {:induction false} FilteredMember(rows: seq<DBRow>, prefix: seq<byte>, r: DBRow)
    ensures r in Filtered(rows, prefix) <==> r in rows && StartsWith(r.key, prefix)
  {
    if rows == [] {
    } else {
      FilteredMember(rows[1..], prefix, r);
      assert r in rows <==> r == rows[0] || r in rows[1..];
    }
  }

  class ScanIterator {
    const prefix: seq<byte>
    var iter: seq<DBRow>
    var done: bool

    /** The rows this iterator will still yield. */
    function Rest(): seq<DBRow>
      reads this
    {
      if done then [] else TakeWhile(iter, prefix)
    }

    constructor (rows: seq<DBRow>, prefix: seq<byte>)
      ensures Rest() == TakeWhile(rows, prefix)
    {
      this.prefix, iter, done := prefix, rows, false;
    }

    method Next() returns (r: Option<DBRow>)
      modifies this
      ensures r == if old(Rest()) == [] then None else Some(old(Rest())[0])
      ensures Rest() == if old(Rest()) == [] then [] else old(Rest())[1..]
    {
      if done {
        return None;
      }
      if iter == [] {
        return None;
      }
      var row := iter[0];
      iter := iter[1..];
      if !StartsWith(row.key, prefix) {
        done := true;
        return None;
      }
      return Some(row);
    }

    /** Running the iterator to its end. */
    method Drain() returns (rs: seq<DBRow>)
      modifies this
      ensures rs == old(Rest())
    {
      rs := [];
      var row := Next();
      while row.Some?
        invariant old(Rest()) == rs + (if row.Some? then [row.value] + Rest() else [])
        decreases if row.Some? then 1 + |Rest()| else 0
      {
        rs := rs + [row.value];
        row := Next();
      }
    }
  }

  /** `BlockRow::from_row` and the hash inside the key. */
  function RowHash(r: DBRow): Hash
    requires |r.key| == 33
  {
    ParseHash(r.key[1..])
  }

  /** The batch by ascending key. */
  function SortRows(rs: seq<Row>): (sorted: seq<Row>)
    ensures forall r :: r in sorted <==> r in rs
  {
    if rs == [] then []
    else
      assert forall r :: r in rs <==> r == rs[0] || r in rs[1..];
      InsertRow(rs[0], SortRows(rs[1..]))
  }

  function InsertRow(r: Row, rs: seq<Row>): (out: seq<Row>)
    ensures forall x :: x in out <==> x == r || x in rs
  {
    if rs == [] || !Less(IntoDBRow(rs[0]).key, IntoDBRow(r).key) then [r] + rs
    else
      assert forall x :: x in rs <==> x == rs[0] || x in rs[1..];
      [rs[0]] + InsertRow(r, rs[1..])
  }

  class DB {
    var rows: seq<DBRow>
    ghost var disk: Disk
    /** The disk after each atomic write: where a crash may leave it. */
    ghost var writes: seq<Disk>

    ghost predicate Valid()
      reads this
    {
      Sorted(rows) && Holds(rows, disk)
    }

    /** A new database: `verify_compatibility` has written the version row and nothing else. */
    constructor ()
      ensures Valid() && disk == EMPTY_DISK && writes == []
      ensures rows == [DBRow(['V' as byte], [2, 0, 0, 0])]
    {
      rows := [DBRow(VERSION_KEY, [2, 0, 0, 0])];
      disk, writes := EMPTY_DISK, [];
      new;
      assert rows[1..] == [];
      forall h ensures HoldsAt(rows, disk, h) {
        assert HeaderKey(h) != VERSION_KEY && DoneKey(h) != VERSION_KEY;
      }
    }

    /** One atomic batch, sorted by key before it is put. */
    method Write(batch: seq<Row>)
      requires Valid()
      modifies this
      ensures Valid() && disk == PutRows(old(disk), SortRows(batch))
      ensures writes == old(writes) + [disk]
    {
      var sorted := SortRows(batch);
      var i := 0;
      while i < |sorted|
        invariant 0 <= i <= |sorted|
        invariant Valid() && disk == PutRows(old(disk), sorted[..i]) && writes == old(writes)
      {
        PutHolds(rows, disk, sorted[i]);
        rows := Put(rows, IntoDBRow(sorted[i]));
        disk := PutRow(disk, sorted[i]);
        assert sorted[..i + 1][..i] == sorted[..i];
        i := i + 1;
      }
      assert sorted[..|sorted|] == sorted;
      writes := writes + [disk];
    }

    method PutTip(tip: Hash)
      requires Valid()
      modifies this
      ensures Valid() && disk == old(disk).(tip := Some(tip))
      ensures writes == old(writes) + [disk]
    {
      PutTipHolds(rows, disk, tip);
      rows := Put(rows, DBRow(TIP_KEY, HashBytes(tip)));
      disk := disk.(tip := Some(tip));
      writes := writes + [disk];
    }

    method GetTip() returns (tip: Option<Hash>)
      requires Valid()
      ensures tip == disk.tip
    {
      var value := Get(rows, TIP_KEY);
      if value.None? {
        return None;
      }
      HashRoundTrip(disk.tip.value, HashBytes(disk.tip.value));
      return Some(ParseHash(value.value));
    }

    method IterScan(prefix: seq<byte>) returns (it: ScanIterator)
      requires Valid()
      ensures fresh(it) && it.Rest() == Filtered(rows, prefix)
    {
      ScanIsFilter(rows, prefix);
      it := new ScanIterator(Seek(rows, prefix), prefix);
    }

    /** `load_blockhashes`: exactly the hashes marked done. */
    method LoadBlockhashes() returns (hashes: set<Hash>)
      requires Valid()
      ensures hashes == disk.done
    {
      var it := IterScan(DONE_PREFIX);
      var found := it.Drain();
      DoneHashes(rows, disk);
      return RowHashes(found);
    }

    /** `load_sync_blockheaders`: exactly the stored headers, under their hashes. */
    method LoadSyncBlockheaders() returns (headers: map<Hash, Header>)
      requires Valid()
      ensures headers == disk.rows
    {
      var it := IterScan(HEADER_PREFIX);
      var found := it.Drain();
      HeadersLoaded(rows, disk);
      return Merged(map[], found);
    }
  }

  function RowHashes(rs: seq<DBRow>): set<Hash> {
    if rs == [] then {}
    else (if |rs[0].key| == 33 then {RowHash(rs[0])} else {}) + RowHashes(rs[1..])
  }

  /** Collecting rows into a map, later rows over earlier ones. */
  function Merged(m: map<Hash, Header>, rs: seq<DBRow>): map<Hash, Header>
    decreases |rs|
  {
    if rs == [] then m
    else
      Merged(if |rs[0].key| == 33 && |rs[0].value| == 80
             then m[RowHash(rs[0]) := ParseHeader(rs[0].value)] else m, rs[1..])
  }

  lemma {:induction false} RowHashesMember(rs: seq<DBRow>, h: Hash)
    ensures h in RowHashes(rs) <==> exists r :: r in rs && |r.key| == 33 && RowHash(r) == h
  {
    if rs == [] {
    } else {
      RowHashesMember(rs[1..], h);
      assert forall r :: r in rs <==> r == rs[0] || r in rs[1..];
    }
  }

  lemma {:induction false} KeysLong(rows: seq<DBRow>, prefix: seq<byte>)
    requires forall i :: 0 <= i < |rows| ==> OurKey(rows[i].key)
    requires prefix == HEADER_PREFIX || prefix == DONE_PREFIX
    ensures forall i :: 0 <= i < |Filtered(rows, prefix)| ==> |Filtered(rows, prefix)[i].key| == 33
  {
    forall i | 0 <= i < |Filtered(rows, prefix)| ensures |Filtered(rows, prefix)[i].key| == 33 {
      var r := Filtered(rows, prefix)[i];
      FilteredMember(rows, prefix, r);
      assert r.key[0] == prefix[0];
    }
  }

  /** The hashes a scan finds are those whose prefixed key is in the database. */
  lemma {:induction false} ScannedHashes(rows: seq<DBRow>, prefix: seq<byte>, h: Hash)
    requires Sorted(rows) && forall i :: 0 <= i < |rows| ==> OurKey(rows[i].key)
    requires prefix == HEADER_PREFIX || prefix == DONE_PREFIX
    ensures h in RowHashes(Filtered(rows, prefix)) <==> Get(rows, prefix + HashBytes(h)).Some?
  {
    var fs, key := Filtered(rows, prefix), prefix + HashBytes(h);
    RowHashesMember(fs, h);
    HashRoundTrip(h, HashBytes(h));
    assert key[1..] == HashBytes(h);
    if h in RowHashes(fs) {
      var r :| r in fs && |r.key| == 33 && RowHash(r) == h;
      FilteredMember(rows, prefix, r);
      KeyIsHash(r.key, h);
      assert r.key == key;
      GetIsRow(rows, r);
    }
    if Get(rows, key).Some? {
      var r := DBRow(key, Get(rows, key).value);
      GetIsRow(rows, r);
      FilteredMember(rows, prefix, r);
      assert |r.key| == 33 && RowHash(r) == h;
    }
  }

  lemma {:induction false} DoneHashes(rows: seq<DBRow>, d: Disk)
    requires Sorted(rows) && Holds(rows, d)
    ensures RowHashes(Filtered(rows, DONE_PREFIX)) == d.done
  {
    forall h ensures h in RowHashes(Filtered(rows, DONE_PREFIX)) <==> h in d.done {
      assert HoldsAt(rows, d, h);
      ScannedHashes(rows, DONE_PREFIX, h);
      assert DoneKey(h) == DONE_PREFIX + HashBytes(h);
    }
  }

  lemma {:induction false} HeaderRowsOnly(rows: seq<DBRow>, d: Disk)
    requires Sorted(rows) && Holds(rows, d)
    ensures forall r :: r in Filtered(rows, HEADER_PREFIX) ==> IsHeaderRow(r, d)
  {
    KeysLong(rows, HEADER_PREFIX);
    forall r | r in Filtered(rows, HEADER_PREFIX) ensures IsHeaderRow(r, d) {
      FilteredMember(rows, HEADER_PREFIX, r);
      GetIsRow(rows, r);
      KeyIsHash(r.key, 0);
      assert r.key == HeaderKey(RowHash(r)) && HoldsAt(rows, d, RowHash(r));
      HeaderRoundTrip(d.rows[RowHash(r)]);
    }
  }

  predicate IsHeaderRow(r: DBRow, d: Disk) {
    && |r.key| == 33 && |r.value| == 80
    && RowHash(r) in d.rows && ParseHeader(r.value) == d.rows[RowHash(r)]
  }

  lemma {:induction false} MergedAgrees(m: map<Hash, Header>, rs: seq<DBRow>, d: Disk)
    requires forall r :: r in rs ==> IsHeaderRow(r, d)
    requires forall h :: h in m ==> h in d.rows && m[h] == d.rows[h]
    ensures Merged(m, rs).Keys == m.Keys + RowHashes(rs)
    ensures forall h :: h in Merged(m, rs) ==> h in d.rows && Merged(m, rs)[h] == d.rows[h]
    decreases |rs|
  {
    if rs == [] {
    } else {
      assert rs[0] in rs;
      MergedAgrees(m[RowHash(rs[0]) := ParseHeader(rs[0].value)], rs[1..], d);
    }
  }

  lemma {:induction false} HeadersLoaded(rows: seq<DBRow>, d: Disk)
    requires Sorted(rows) && Holds(rows, d)
    ensures Merged(map[], Filtered(rows, HEADER_PREFIX)) == d.rows
  {
    var fs := Filtered(rows, HEADER_PREFIX);
    HeaderRowsOnly(rows, d);
    MergedAgrees(map[], fs, d);
    forall h ensures h in RowHashes(fs) <==> h in d.rows {
      assert HoldsAt(rows, d, h);
      ScannedHashes(rows, HEADER_PREFIX, h);
      assert HeaderKey(h) == HEADER_PREFIX + HashBytes(h);
    }
  }
}
