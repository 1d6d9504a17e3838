/**
 `SimpleCache`: a bounded ordered map whose values sit in shared cells. This module has the
 operations one at a time and what eviction keeps; `CacheInterleavings` has them concurrently.
 */
module SimpleCaches {
  import opened Wrappers
  import opened Sets
  import opened Bytes

  type Key = seq<byte>

  predicate IsSmallest(k: Key, ks: set<Key>) {
    k in ks && forall other :: other in ks && other != k ==> Less(k, other)
  }

  lemma {:induction false} SmallestExists(ks: set<Key>)
    requires ks != {}
    ensures exists k :: IsSmallest(k, ks)
    decreases |ks|
  {
    var k :| k in ks;
    if ks == {k} {
      assert IsSmallest(k, ks);
    } else {
      SmallestExists(ks - {k});
      var rest :| IsSmallest(rest, ks - {k});
      LessTotal(k, rest);
      if Less(k, rest) {
        forall other | other in ks && other != k ensures Less(k, other) {
          if other != rest {
            LessTransitive(k, rest, other);
          }
        }
        assert IsSmallest(k, ks);
      } else {
        assert IsSmallest(rest, ks);
      }
    }
  }

  /** The first key of the ordered map. */
  ghost function Smallest(ks: set<Key>): (k: Key)
    requires ks != {}
    ensures IsSmallest(k, ks)
  {
    SmallestExists(ks);
    var k :| IsSmallest(k, ks);
    k
  }

  lemma {:induction false} SmallestIsUnique(a: Key, b: Key, ks: set<Key>)
    requires IsSmallest(a, ks) && IsSmallest(b, ks)
    ensures a == b
  {
    LessTotal(a, b);
  }

  /** When the map is full its first key makes room. */
  ghost function MakeRoom<V>(m: map<Key, V>, size: nat): map<Key, V> {
    if |m| >= size && m != map[] then m - {Smallest(m.Keys)} else m
  }

  ghost function Inserted<V>(m: map<Key, V>, size: nat, k: Key, v: V): map<Key, V> {
    MakeRoom(m, size)[k := v]
  }

  function Looked<V>(m: map<Key, V>, k: Key): Option<V> {
    if k in m then Some(m[k]) else None
  }

  function Overwritten<V>(m: map<Key, V>, k: Key, v: V): map<Key, V> {
    if k in m then m[k := v] else m
  }

  lemma {:induction false} SameSize<U, V>(a: map<Key, U>, b: map<Key, V>)
    requires a.Keys == b.Keys
    ensures |a| == |b| && (a == map[] <==> b == map[])
  {
    assert |a.Keys| == |a| && |b.Keys| == |b|;
  }

  class Cell<V> {
    var value: V

    constructor (value: V)
      ensures this.value == value
    {
      this.value := value;
    }
  }

  class SimpleCache<V> {
    var cells: map<Key, Cell<V>>
    const size: nat

    /** No two keys share a cell. */
    ghost predicate Valid()
      reads this
    {
      forall a, b :: a in cells && b in cells && cells[a] == cells[b] ==> a == b
    }

    function View(): map<Key, V>
      reads this, cells.Values
    {
      map k | k in cells :: cells[k].value
    }

    constructor (size: nat)
      ensures Valid() && View() == map[] && this.size == size
    {
      this.size, cells := size, map[];
    }

    method Insert(key: Key, value: V)
      requires Valid()
      modifies this
      ensures Valid() && View() == Inserted(old(View()), size, key, value)
    {
      MakeRoomFor();
      PutFresh(key, value);
    }

    method PutFresh(key: Key, value: V)
      requires Valid()
      modifies this
      ensures Valid() && View() == old(View())[key := value]
    {
      var cell := new Cell(value);
      cells := cells[key := cell];
    }

    method MakeRoomFor()
      requires Valid()
      modifies this
      ensures Valid() && View() == MakeRoom(old(View()), size)
    {
      SameSize(cells, View());
      if |cells| >= size && cells != map[] {
        PopFirst();
      }
    }

    /** `pop_first` on the full map. */
    method PopFirst()
      requires Valid() && |cells| >= size && cells != map[]
      modifies this
      ensures Valid() && View() == MakeRoom(old(View()), size)
    {
      ghost var before := View();
      SameSize(cells, before);
      SmallestExists(cells.Keys);
      var oldest :| IsSmallest(oldest, cells.Keys);
      SmallestIsUnique(oldest, Smallest(before.Keys), cells.Keys);
      assert MakeRoom(before, size) == before - {oldest};
      cells := cells - {oldest};
      assert View() == before - {oldest};
    }

    method Get(key: Key) returns (r: Option<V>)
      ensures r == if key in View() then Some(View()[key]) else None
    {
      if key in cells {
        var cell := cells[key];
        return Some(cell.value);
      }
      return None;
    }

    method Write(key: Key, value: V)
      requires Valid()
      modifies cells.Values
      ensures cells == old(cells) && View() == Overwritten(old(View()), key, value)
      ensures View().Keys == old(View()).Keys
      ensures key in View() ==> View()[key] == value
      ensures forall k :: k in View() && k != key ==> View()[k] == old(View())[k]
    {
      if key in cells {
        cells[key].value := value;
      }
    }

    method Remove(key: Key)
      requires Valid()
      modifies this
      ensures Valid() && View() == old(View()) - {key}
    {
      cells := cells - {key};
    }
  }

  // ---- what eviction keeps ------------------------------------------------------------------------

  datatype Entry<V> = Entry(key: Key, value: V)

  /** A run of inserts into an empty cache. */
  ghost function InsertAll<V>(size: nat, ops: seq<Entry<V>>): map<Key, V> {
    if ops == [] then map[]
    else
      var n := |ops| - 1;
      Inserted(InsertAll(size, ops[..n]), size, ops[n].key, ops[n].value)
  }

  function KeysOf<V>(ops: seq<Entry<V>>): set<Key> {
    if ops == [] then {} else KeysOf(ops[..|ops| - 1]) + {ops[|ops| - 1].key}
  }

  function LastValue<V>(ops: seq<Entry<V>>, k: Key): Option<V> {
    if ops == [] then None
    else if ops[|ops| - 1].key == k then Some(ops[|ops| - 1].value)
    else LastValue(ops[..|ops| - 1], k)
  }

  /** `top` holds the `n` largest keys of `all`, or all of them when there are fewer. */
  predicate IsTop(top: set<Key>, n: nat, all: set<Key>) {
    && top <= all
    && |top| == (if |all| < n then |all| else n)
    && forall a, b :: a in top && b in all - top ==> Less(b, a)
  }

  /** The largest keys are determined. */
  lemma {:induction false} TopIsUnique(a: set<Key>, b: set<Key>, n: nat, all: set<Key>)
    requires IsTop(a, n, all) && IsTop(b, n, all)
    ensures a == b
  {
    if a != b {
      if a <= b {
        SubsetSize(a, b);
      } else if b <= a {
        SubsetSize(b, a);
      } else {
        var x :| x in a && x !in b;
        var y :| y in b && y !in a;
        LessTotal(x, y);
      }
    }
  }

  /** One insert on key sets: room is made among the kept keys before the new key arrives. */
  lemma {:induction false} TopStep(top: set<Key>, n: nat, earlier: set<Key>, last: Key, room: set<Key>)
    requires IsTop(top, n, earlier)
    requires room == if |top + {last}| >= n + 1 then top + {last} - {Smallest(top + {last})} else top + {last}
    ensures IsTop(room, n, earlier + {last})
  {
    var c, all := top + {last}, earlier + {last};
    if |c| >= n + 1 {
      var least := Smallest(c);
      SubsetSize(top, c);
      SubsetSize(top, earlier);
      SubsetSize(c, all);
      assert |room| == n && last !in top;
      forall a, b | a in room && b in all - room ensures Less(b, a) {
        if b != least && a == last {
          assert least in top && Less(b, least) && Less(least, a);
          LessTransitive(b, least, a);
        }
      }
    } else {
      SubsetSize(top, earlier);
      SubsetSize(top, c);
      SubsetSize(c, all);
    }
  }

  ghost function Capacity(size: nat): nat {
    if size == 0 then 1 else size
  }

  /**
   After any run of inserts the cache holds exactly the last key and the `size - 1` largest of
   the keys before it. A cache of size 0 behaves like one of size 1.
   */
  lemma {:induction false} EvictionIsExact<V>(size: nat, ops: seq<Entry<V>>) returns (top: set<Key>)
    requires ops != []
    ensures var n := |ops| - 1;
            && IsTop(top, Capacity(size) - 1, KeysOf(ops[..n]))
            && InsertAll(size, ops).Keys == top + {ops[n].key}
  {
    var n := |ops| - 1;
    var before := InsertAll(size, ops[..n]);
    if n == 0 {
      top := {};
    } else {
      var held := EvictionIsExact(size, ops[..n]);
      var last := ops[..n][n - 1].key;
      top := MakeRoom(before, size).Keys;
      assert before.Keys == held + {last};
      RoomKeys(before, size);
      TopStep(held, Capacity(size) - 1, KeysOf(ops[..n][..n - 1]), last, top);
    }
  }

  lemma {:induction false} RoomKeys<V>(m: map<Key, V>, size: nat)
    requires m != map[]
    ensures MakeRoom(m, size).Keys == if |m.Keys| >= size then m.Keys - {Smallest(m.Keys)} else m.Keys
  {
    assert |m.Keys| == |m|;
    assert (m - {Smallest(m.Keys)}).Keys == m.Keys - {Smallest(m.Keys)};
  }

  /** It never holds more than its size, and every value is the last one inserted under its key. */
  lemma {:induction false} InsertedValues<V>(size: nat, ops: seq<Entry<V>>, k: Key)
    ensures |InsertAll(size, ops)| <= Capacity(size)
    ensures k in InsertAll(size, ops) ==> LastValue(ops, k) == Some(InsertAll(size, ops)[k])
  {
    if ops == [] {
    } else {
      var n := |ops| - 1;
      InsertedValues(size, ops[..n], k);
      var before := InsertAll(size, ops[..n]);
      var room := MakeRoom(before, size);
      RoomSize(before, size);
      assert InsertAll(size, ops).Keys == room.Keys + {ops[n].key};
      assert |InsertAll(size, ops).Keys| == |InsertAll(size, ops)| && |room.Keys| == |room|;
    }
  }

  lemma {:induction false} RoomSize<V>(m: map<Key, V>, size: nat)
    requires |m| <= Capacity(size)
    ensures |MakeRoom(m, size)| < Capacity(size)
  {
    assert |m.Keys| == |m|;
    if |m| >= size && m != map[] {
      var least := Smallest(m.Keys);
      assert (m - {least}).Keys == m.Keys - {least};
      assert |(m - {least}).Keys| == |m - {least}|;
    }
  }
}
