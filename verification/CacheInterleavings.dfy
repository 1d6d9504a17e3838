/**
 `SimpleCache` under concurrent calls, one lock action at a time. `get` lets go of the map lock
 before it reads the cell; `write` keeps it. Every run is linearizable.
 */
module CacheInterleavings {
  import opened Wrappers
  import opened SimpleCaches

  type CallId = nat
  type CellId = nat

  datatype Op<V> = Get(key: Key) | Write(key: Key, value: V) | Insert(key: Key, value: V) | Remove(key: Key)

  /** Where a call stands, and so which locks it holds. */
  datatype Stage<V> =
    | Invoked(op: Op<V>)                     // no lock
    | Locked(op: Op<V>)                      // map lock: shared for get and write, exclusive for insert and remove
    | Found(op: Op<V>, cell: CellId)         // get: no lock; write: map lock
    | Holding(op: Op<V>, cell: CellId)       // get: shared cell lock; write: map lock and exclusive cell lock
    | Stored(op: Op<V>, cell: CellId)        // write: as before, the value is in place
    | Done(op: Op<V>, result: Option<V>)     // no lock
  {
    predicate HoldsMapShared() {
      match this
      case Locked(op) => op.Get? || op.Write?
      case Found(op, _) => op.Write?
      case Holding(op, _) => op.Write?
      case Stored(op, _) => op.Write?
      case _ => false
    }

    predicate HoldsMapExclusive() {
      Locked? && (op.Insert? || op.Remove?)
    }

    predicate HoldsCellShared(c: CellId) {
      Holding? && op.Get? && cell == c
    }

    predicate HoldsCellExclusive(c: CellId) {
      (Holding? || Stored?) && op.Write? && cell == c
    }
  }

  datatype State<V> = State(map_: map<Key, CellId>, cells: map<CellId, V>, calls: map<CallId, Stage<V>>)

  datatype Action<V> = Invoke(op: Op<V>) | LockMap | Lookup | LockCell | Access | Release | Mutate

  datatype Label<V> = Label(call: CallId, action: Action<V>)

  /** The map a caller sees. */
  function Abs<V>(s: State<V>): map<Key, V> {
    Read(s.map_, s.cells)
  }

  function Read<V>(m: map<Key, CellId>, cells: map<CellId, V>): map<Key, V> {
    map k | k in m && m[k] in cells :: cells[m[k]]
  }

  /** What an operation does to the abstract map. */
  ghost function Effect<V>(op: Op<V>, size: nat, m: map<Key, V>): map<Key, V> {
    match op
    case Get(_) => m
    case Write(k, v) => Overwritten(m, k, v)
    case Insert(k, v) => Inserted(m, size, k, v)
    case Remove(k) => m - {k}
  }

  /**
   What each operation leaves under any key: only an insert adds a key or, when the map is full, drops the
   smallest one; a write changes the value of a key that is there; a remove drops its key.
   */
  lemma {:induction false} EffectIsExact<V>(op: Op<V>, size: nat, m: map<Key, V>, x: Key)
    ensures var after := Looked(Effect(op, size, m), x);
            match op
            case Get(_) => after == Looked(m, x)
            case Write(k, v) => after == if x == k && k in m then Some(v) else Looked(m, x)
            case Remove(k) => after == if x == k then None else Looked(m, x)
            case Insert(k, v) =>
              after == if x == k then Some(v) else if |m| >= size && IsSmallest(x, m.Keys) then None else Looked(m, x)
  {
    if op.Insert? && |m| >= size && m != map[] && IsSmallest(x, m.Keys) {
      SmallestIsUnique(x, Smallest(m.Keys), m.Keys);
    }
  }

  ghost predicate CanLockMap<V>(s: State<V>, op: Op<V>) {
    && (forall i :: i in s.calls ==> !s.calls[i].HoldsMapExclusive())
    && (op.Insert? || op.Remove? ==> forall i :: i in s.calls ==> !s.calls[i].HoldsMapShared())
  }

  ghost predicate CanLockCell<V>(s: State<V>, op: Op<V>, c: CellId) {
    && (forall i :: i in s.calls ==> !s.calls[i].HoldsCellExclusive(c))
    && (op.Write? ==> forall i :: i in s.calls ==> !s.calls[i].HoldsCellShared(c))
  }

  ghost predicate Step<V>(size: nat, s: State<V>, l: Label<V>, s': State<V>) {
    var i := l.call;
    match l.action
    case Invoke(op) => i !in s.calls && s' == s.(calls := s.calls[i := Invoked(op)])
    case LockMap =>
      && i in s.calls && s.calls[i].Invoked? && CanLockMap(s, s.calls[i].op)
      && s' == s.(calls := s.calls[i := Locked(s.calls[i].op)])
    case Lookup =>
      && i in s.calls && s.calls[i].Locked? && s.calls[i].HoldsMapShared()
      && var op := s.calls[i].op;
         s' == s.(calls := s.calls[i := if op.key in s.map_ then Found(op, s.map_[op.key]) else Done(op, None)])
    case LockCell =>
      && i in s.calls && s.calls[i].Found? && CanLockCell(s, s.calls[i].op, s.calls[i].cell)
      && s' == s.(calls := s.calls[i := Holding(s.calls[i].op, s.calls[i].cell)])
    case Access =>
      && i in s.calls && s.calls[i].Holding? && s.calls[i].cell in s.cells
      && var p := s.calls[i];
         s' == if p.op.Write? then s.(cells := s.cells[p.cell := p.op.value], calls := s.calls[i := Stored(p.op, p.cell)])
               else s.(calls := s.calls[i := Done(p.op, Some(s.cells[p.cell]))])
    case Release => i in s.calls && s.calls[i].Stored? && s' == s.(calls := s.calls[i := Done(s.calls[i].op, None)])
    case Mutate =>
      && i in s.calls && s.calls[i].HoldsMapExclusive()
      && var op := s.calls[i].op;
         var calls := s.calls[i := Done(op, None)];
         if op.Remove? then s' == s.(map_ := s.map_ - {op.key}, calls := calls)
         else
           && s'.calls == calls
           && exists c :: c !in s.cells && NewCell(size, s, op, c, s')
  }

  /** An insert always makes a new cell; a replaced or evicted cell stays with whoever still holds it. */
  ghost predicate NewCell<V>(size: nat, s: State<V>, op: Op<V>, c: CellId, s': State<V>)
    requires op.Insert?
  {
    s'.map_ == MakeRoom(s.map_, size)[op.key := c] && s'.cells == s.cells[c := op.value]
  }

  // ---- the invariant ------------------------------------------------------------------------------

  ghost predicate CallOk<V>(s: State<V>, p: Stage<V>) {
    match p
    case Found(op, c) => LiveOrOwn(s, op, c)
    case Holding(op, c) => LiveOrOwn(s, op, c)
    case Stored(op, c) => op.Write?
    case _ => true
  }

  /** A write's cell is in the map; a get's cell exists and can only be in the map under its key. */
  ghost predicate LiveOrOwn<V>(s: State<V>, op: Op<V>, c: CellId) {
    && c in s.cells
    && (op.Get? || op.Write?)
    && (op.Write? ==> op.key in s.map_ && s.map_[op.key] == c)
    && (forall k :: k in s.map_ && s.map_[k] == c ==> k == op.key)
  }

  ghost predicate Inv<V>(s: State<V>) {
    && (forall k :: k in s.map_ ==> s.map_[k] in s.cells)
    && (forall a, b :: a in s.map_ && b in s.map_ && s.map_[a] == s.map_[b] ==> a == b)
    && (forall i :: i in s.calls ==> CallOk(s, s.calls[i]))
    && (forall i, j :: i in s.calls && j in s.calls && s.calls[i].HoldsMapExclusive() && s.calls[j].HoldsMapShared() ==> false)
  }

  function Init<V>(): State<V> {
    State(map[], map[], map[])
  }

  lemma {:induction false} StepKeepsMap<V>(size: nat, s: State<V>, l: Label<V>, s': State<V>)
    requires Inv(s) && Step(size, s, l, s')
    ensures forall k :: k in s'.map_ ==> s'.map_[k] in s'.cells
    ensures forall a, b :: a in s'.map_ && b in s'.map_ && s'.map_[a] == s'.map_[b] ==> a == b
  {
  }

  lemma {:induction false} StepKeepsLocks<V>(size: nat, s: State<V>, l: Label<V>, s': State<V>)
    requires Inv(s) && Step(size, s, l, s')
    ensures forall i, j :: i in s'.calls && j in s'.calls && s'.calls[i].HoldsMapExclusive() && s'.calls[j].HoldsMapShared() ==> false
  {
  }

  lemma {:induction false} StepKeepsCall<V>(size: nat, s: State<V>, l: Label<V>, s': State<V>, j: CallId)
    requires Inv(s) && Step(size, s, l, s') && j in s'.calls
    ensures CallOk(s', s'.calls[j])
  {
    if j in s.calls {
      assert CallOk(s, s.calls[j]);
    }
  }

  lemma {:induction false} StepKeeps<V>(size: nat, s: State<V>, l: Label<V>, s': State<V>)
    requires Inv(s) && Step(size, s, l, s')
    ensures Inv(s')
  {
    StepKeepsMap(size, s, l, s');
    StepKeepsLocks(size, s, l, s');
    forall j | j in s'.calls ensures CallOk(s', s'.calls[j]) {
      StepKeepsCall(size, s, l, s', j);
    }
  }

  // ---- linearization ------------------------------------------------------------------------------

  /** The steps at which a mutating call takes effect. */
  function EffectOf<V>(s: State<V>, l: Label<V>): Option<Op<V>> {
    if l.call !in s.calls then None
    else
      var p := s.calls[l.call];
      if l.action.Mutate? then Some(p.op)
      else if l.action.Access? && p.op.Write? then Some(p.op)
      else if l.action.Lookup? && p.op.Write? && p.op.key !in s.map_ then Some(p.op)
      else None
  }

  ghost function AfterEffect<V>(size: nat, m: map<Key, V>, effect: Option<Op<V>>): map<Key, V> {
    match effect
    case None => m
    case Some(op) => Effect(op, size, m)
  }

  /** Effect steps do to the abstract map what the operation does in one go; no other step changes it. */
  lemma {:induction false} AbsStep<V>(size: nat, s: State<V>, l: Label<V>, s': State<V>)
    requires Inv(s) && Step(size, s, l, s')
    ensures Abs(s') == AfterEffect(size, Abs(s), EffectOf(s, l))
  {
    if l.action.Mutate? && s.calls[l.call].op.Insert? {
      InsertStep(size, s, l, s');
    } else if l.action.Access? && s.calls[l.call].op.Write? {
      StoreStep(size, s, l, s');
    } else {
      QuietStep(size, s, l, s');
    }
  }

  lemma {:induction false} QuietStep<V>(size: nat, s: State<V>, l: Label<V>, s': State<V>)
    requires Inv(s) && Step(size, s, l, s')
    requires !(l.action.Mutate? && s.calls[l.call].op.Insert?) && !(l.action.Access? && s.calls[l.call].op.Write?)
    ensures Abs(s') == AfterEffect(size, Abs(s), EffectOf(s, l))
  {
    assert Abs(s).Keys == s.map_.Keys && Abs(s').Keys == s'.map_.Keys;
  }

  lemma {:induction false} StoreStep<V>(size: nat, s: State<V>, l: Label<V>, s': State<V>)
    requires Inv(s) && Step(size, s, l, s') && l.action.Access? && s.calls[l.call].op.Write?
    ensures Abs(s') == Effect(s.calls[l.call].op, size, Abs(s))
  {
    var p := s.calls[l.call];
    assert CallOk(s, p);
    assert Abs(s') == Abs(s)[p.op.key := p.op.value];
  }

  lemma {:induction false} InsertStep<V>(size: nat, s: State<V>, l: Label<V>, s': State<V>)
    requires Inv(s) && Step(size, s, l, s') && l.action.Mutate? && s.calls[l.call].op.Insert?
    ensures Abs(s') == Effect(s.calls[l.call].op, size, Abs(s))
  {
    var op := s.calls[l.call].op;
    var c :| c !in s.cells && NewCell(size, s, op, c, s');
    RoomAgrees(size, s);
    ReadInserted(MakeRoom(s.map_, size), s.cells, MakeRoom(Abs(s), size), op.key, op.value, c);
  }

  lemma {:induction false} ReadInserted<V>(room: map<Key, CellId>, cells: map<CellId, V>, values: map<Key, V>, k: Key, v: V, c: CellId)
    requires values.Keys == room.Keys && c !in cells
    requires forall x :: x in room ==> room[x] in cells && values[x] == cells[room[x]]
    ensures Read(room[k := c], cells[c := v]) == values[k := v]
  {
  }

  /** Room is made for the same key whether one looks at cells or at values. */
  lemma {:induction false} RoomAgrees<V>(size: nat, s: State<V>)
    requires Inv(s)
    ensures MakeRoom(Abs(s), size).Keys == MakeRoom(s.map_, size).Keys
    ensures forall k :: k in MakeRoom(s.map_, size) ==>
      MakeRoom(s.map_, size)[k] in s.cells && MakeRoom(Abs(s), size)[k] == s.cells[MakeRoom(s.map_, size)[k]]
  {
    assert Abs(s).Keys == s.map_.Keys;
    assert |Abs(s).Keys| == |Abs(s)| && |s.map_.Keys| == |s.map_|;
  }

  ghost predicate StepAt<V>(size: nat, r: seq<State<V>>, ls: seq<Label<V>>, n: nat)
    requires n < |ls| && |r| == |ls| + 1
  {
    Step(size, r[n], ls[n], r[n + 1])
  }

  ghost predicate IsRun<V>(size: nat, r: seq<State<V>>, ls: seq<Label<V>>) {
    && |r| == |ls| + 1 && r[0] == Init()
    && forall n :: 0 <= n < |ls| ==> StepAt(size, r, ls, n)
  }

  lemma {:induction false} RunKeeps<V>(size: nat, r: seq<State<V>>, ls: seq<Label<V>>, n: nat)
    requires IsRun(size, r, ls) && n < |r|
    ensures Inv(r[n])
  {
    if n == 0 {
    } else {
      RunKeeps(size, r, ls, n - 1);
      assert StepAt(size, r, ls, n - 1);
      StepKeeps(size, r[n - 1], ls[n - 1], r[n]);
    }
  }

  predicate Effective<V>(s: State<V>, i: CallId) {
    i in s.calls && !s.calls[i].op.Get? && (s.calls[i].Stored? || s.calls[i].Done?)
  }

  /** A lock held exclusively is held by nobody else: neither that of the map nor that of any cell. */
  ghost predicate Exclusive<V>(p: Stage<V>, q: Stage<V>, c: CellId) {
    && (p.HoldsMapExclusive() ==> !q.HoldsMapExclusive() && !q.HoldsMapShared())
    && (p.HoldsCellExclusive(c) ==> !q.HoldsCellExclusive(c) && !q.HoldsCellShared(c))
  }

  lemma {:induction false} StepExcludes<V>(size: nat, s: State<V>, l: Label<V>, s': State<V>, i: CallId, j: CallId, c: CellId)
    requires Step(size, s, l, s') && i in s'.calls && j in s'.calls
    requires i in s.calls && j in s.calls ==> Exclusive(s.calls[i], s.calls[j], c) && Exclusive(s.calls[j], s.calls[i], c)
    requires i != j
    ensures Exclusive(s'.calls[i], s'.calls[j], c)
  {
  }

  /** In every run the locks exclude one another. */
  lemma {:induction false} LocksExclude<V>(size: nat, r: seq<State<V>>, ls: seq<Label<V>>, n: nat, i: CallId, j: CallId, c: CellId)
    requires IsRun(size, r, ls) && n < |r| && i != j && i in r[n].calls && j in r[n].calls
    ensures Exclusive(r[n].calls[i], r[n].calls[j], c) && Exclusive(r[n].calls[j], r[n].calls[i], c)
  {
    if n == 0 {
    } else {
      if i in r[n - 1].calls && j in r[n - 1].calls {
        LocksExclude(size, r, ls, n - 1, i, j, c);
      }
      assert StepAt(size, r, ls, n - 1);
      StepExcludes(size, r[n - 1], ls[n - 1], r[n], i, j, c);
      StepExcludes(size, r[n - 1], ls[n - 1], r[n], j, i, c);
    }
  }

  /** A call takes effect in exactly one of its steps. */
  lemma {:induction false} EffectiveStep<V>(size: nat, s: State<V>, l: Label<V>, s': State<V>, i: CallId)
    requires Inv(s) && Step(size, s, l, s')
    ensures Effective(s', i) <==> Effective(s, i) || (l.call == i && EffectOf(s, l).Some?)
    ensures Effective(s, i) ==> s'.calls[i].op == s.calls[i].op && (l.call == i ==> EffectOf(s, l).None?)
    ensures l.call == i && EffectOf(s, l).Some? ==> EffectOf(s, l).value == s'.calls[i].op
  {
    if l.call in s.calls {
      assert CallOk(s, s.calls[l.call]);
    }
  }

  // ---- get ------------------------------------------------------------------------------------------

  predicate InFlight<V>(s: State<V>, i: CallId) {
    i in s.calls && !s.calls[i].Done?
  }

  predicate LiveUnder<V>(s: State<V>, k: Key, c: CellId) {
    k in s.map_ && s.map_[k] == c && c in s.cells
  }

  /** At moment `m`, inside the call, the map held the cell under the key with the value it has at `n`. */
  ghost predicate HeldThen<V>(r: seq<State<V>>, m: nat, n: nat, i: CallId, k: Key, c: CellId)
    requires m < n < |r|
  {
    InFlight(r[m], i) && LiveUnder(r[m], k, c) && c in r[n].cells && r[m].cells[c] == r[n].cells[c]
  }

  /** A cell that is not in the map keeps its value for ever. */
  lemma {:induction false} DeadCellsStay<V>(size: nat, s: State<V>, l: Label<V>, s': State<V>, c: CellId)
    requires Inv(s) && Step(size, s, l, s') && c in s.cells && c !in s.map_.Values
    ensures c in s'.cells && s'.cells[c] == s.cells[c]
  {
    if l.call in s.calls {
      assert CallOk(s, s.calls[l.call]);
    }
  }

  /** A step that takes a cell out of the map leaves its value alone. */
  lemma {:induction false} LeavingCellsStay<V>(size: nat, s: State<V>, l: Label<V>, s': State<V>, k: Key, c: CellId)
    requires Inv(s) && Step(size, s, l, s') && LiveUnder(s, k, c) && !LiveUnder(s', k, c)
    ensures c in s'.cells && s'.cells[c] == s.cells[c]
  {
  }

  /** A get with a dead cell had the same cell one step earlier; the cell was live then or dead already. */
  lemma {:induction false} HeldBefore<V>(size: nat, s: State<V>, l: Label<V>, s': State<V>, i: CallId)
    requires Inv(s) && Step(size, s, l, s')
    requires i in s'.calls && s'.calls[i].op.Get? && (s'.calls[i].Found? || s'.calls[i].Holding?)
    requires !LiveUnder(s', s'.calls[i].op.key, s'.calls[i].cell)
    ensures i in s.calls && (s.calls[i].Found? || s.calls[i].Holding?)
    ensures s.calls[i].op == s'.calls[i].op && s.calls[i].cell == s'.calls[i].cell && s.calls[i].cell in s.cells
    ensures !LiveUnder(s, s.calls[i].op.key, s.calls[i].cell) ==> s.calls[i].cell !in s.map_.Values
  {
    if i in s.calls {
      assert CallOk(s, s.calls[i]);
    }
  }

  /** While a get holds on to a cell, the cell is in the map, or was when it last had this value. */
  lemma {:induction false} GetHolds<V>(size: nat, r: seq<State<V>>, ls: seq<Label<V>>, n: nat, i: CallId)
    requires IsRun(size, r, ls) && n <= |ls|
    requires i in r[n].calls && r[n].calls[i].op.Get? && (r[n].calls[i].Found? || r[n].calls[i].Holding?)
    ensures var k, c := r[n].calls[i].op.key, r[n].calls[i].cell;
            LiveUnder(r[n], k, c) || exists m :: 0 <= m < n && HeldThen(r, m, n, i, k, c)
  {
    if n == 0 {
    } else {
      var k, c := r[n].calls[i].op.key, r[n].calls[i].cell;
      RunKeeps(size, r, ls, n - 1);
      assert StepAt(size, r, ls, n - 1);
      if !LiveUnder(r[n], k, c) {
        HeldBefore(size, r[n - 1], ls[n - 1], r[n], i);
        GetHolds(size, r, ls, n - 1, i);
        if LiveUnder(r[n - 1], k, c) {
          LeavingCellsStay(size, r[n - 1], ls[n - 1], r[n], k, c);
          assert HeldThen(r, n - 1, n, i, k, c);
        } else {
          var m :| 0 <= m < n - 1 && HeldThen(r, m, n - 1, i, k, c);
          DeadCellsStay(size, r[n - 1], ls[n - 1], r[n], c);
          assert HeldThen(r, m, n, i, k, c);
        }
      }
    }
  }

  /** The last step of a get: its key is missing, or it reads the cell it holds. */
  lemma {:induction false} GetReturns<V>(size: nat, s: State<V>, l: Label<V>, s': State<V>, i: CallId)
    requires Inv(s) && Step(size, s, l, s') && InFlight(s, i)
    requires s'.calls[i].Done? && s'.calls[i].op.Get?
    ensures s.calls[i].op == s'.calls[i].op
    ensures if s.calls[i].Holding? then s.calls[i].cell in s.cells && s'.calls[i].result == Some(s.cells[s.calls[i].cell])
            else s'.calls[i].result == Looked(Abs(s), s.calls[i].op.key)
  {
    assert CallOk(s, s.calls[i]);
  }

  /** When the map had the value a get is about to read. */
  ghost function HeldMoment<V>(size: nat, r: seq<State<V>>, ls: seq<Label<V>>, n: nat, i: CallId): (m: nat)
    requires IsRun(size, r, ls) && n <= |ls|
    requires i in r[n].calls && r[n].calls[i].op.Get? && r[n].calls[i].Holding? && r[n].calls[i].cell in r[n].cells
    ensures m <= n && InFlight(r[m], i)
    ensures Looked(Abs(r[m]), r[n].calls[i].op.key) == Some(r[n].cells[r[n].calls[i].cell])
  {
    var k, c := r[n].calls[i].op.key, r[n].calls[i].cell;
    GetHolds(size, r, ls, n, i);
    if LiveUnder(r[n], k, c) then n
    else
      var m :| 0 <= m < n && HeldThen(r, m, n, i, k, c);
      m
  }

  /** The moment of a get that returns in step `n`. */
  lemma {:induction false} ReturnMoment<V>(size: nat, r: seq<State<V>>, ls: seq<Label<V>>, n: nat, i: CallId) returns (m: nat)
    requires IsRun(size, r, ls) && n < |ls|
    requires InFlight(r[n], i) && i in r[n + 1].calls && r[n + 1].calls[i].Done? && r[n + 1].calls[i].op.Get?
    ensures m <= n && InFlight(r[m], i)
    ensures r[n + 1].calls[i].result == Looked(Abs(r[m]), r[n + 1].calls[i].op.key)
  {
    assert StepAt(size, r, ls, n);
    RunKeeps(size, r, ls, n);
    GetReturns(size, r[n], ls[n], r[n + 1], i);
    m := if r[n].calls[i].Holding? then HeldMoment(size, r, ls, n, i) else n;
  }

  /** A call that has returned stays as it is, and had been invoked before. */
  lemma {:induction false} DoneStays<V>(size: nat, r: seq<State<V>>, ls: seq<Label<V>>, n: nat, i: CallId)
    requires IsRun(size, r, ls) && n < |ls|
    ensures i in r[n].calls ==> i in r[n + 1].calls && r[n + 1].calls[i].op == r[n].calls[i].op
    ensures i in r[n].calls && r[n].calls[i].Done? ==> r[n + 1].calls[i] == r[n].calls[i]
    ensures i !in r[n].calls && i in r[n + 1].calls ==> r[n + 1].calls[i].Invoked?
  {
    assert StepAt(size, r, ls, n);
  }

  /**
   A get returns what the abstract map held for its key at some moment between its invocation
   and its return, although it reads the cell without the map lock.
   */
  lemma {:induction false} GetSeesAMoment<V>(size: nat, r: seq<State<V>>, ls: seq<Label<V>>, n: nat, i: CallId) returns (m: nat)
    requires IsRun(size, r, ls) && n <= |ls|
    requires i in r[n].calls && r[n].calls[i].Done? && r[n].calls[i].op.Get?
    ensures m < n && InFlight(r[m], i)
    ensures r[n].calls[i].result == Looked(Abs(r[m]), r[n].calls[i].op.key)
  {
    DoneStays(size, r, ls, n - 1, i);
    if InFlight(r[n - 1], i) {
      m := ReturnMoment(size, r, ls, n - 1, i);
    } else {
      m := GetSeesAMoment(size, r, ls, n - 1, i);
    }
  }

  // ---- progress -------------------------------------------------------------------------------------

  lemma {:induction false} Above(ids: set<CellId>) returns (c: CellId)
    ensures forall i :: i in ids ==> i < c
    decreases |ids|
  {
    if ids == {} {
      c := 0;
    } else {
      var i :| i in ids;
      var below := Above(ids - {i});
      c := if below <= i then i + 1 else below;
      forall j | j in ids ensures j < c {
        assert j != i ==> j in ids - {i};
      }
    }
  }

  /** A call that holds a cell can go on: it waits for nothing. */
  lemma {:induction false} HolderGoesOn<V>(size: nat, s: State<V>, i: CallId) returns (l: Label<V>, s': State<V>)
    requires Inv(s) && i in s.calls && (s.calls[i].Holding? || s.calls[i].Stored?)
    ensures l.call == i && !l.action.Invoke? && Step(size, s, l, s')
  {
    var p := s.calls[i];
    assert CallOk(s, p);
    if p.Stored? {
      l, s' := Label(i, Release), s.(calls := s.calls[i := Done(p.op, None)]);
    } else if p.op.Write? {
      l := Label(i, Access);
      s' := s.(cells := s.cells[p.cell := p.op.value], calls := s.calls[i := Stored(p.op, p.cell)]);
    } else {
      l, s' := Label(i, Access), s.(calls := s.calls[i := Done(p.op, Some(s.cells[p.cell]))]);
    }
  }

  lemma {:induction false} MutatorGoesOn<V>(size: nat, s: State<V>, i: CallId) returns (l: Label<V>, s': State<V>)
    requires i in s.calls && s.calls[i].HoldsMapExclusive()
    ensures l.call == i && !l.action.Invoke? && Step(size, s, l, s')
  {
    var op := s.calls[i].op;
    var calls := s.calls[i := Done(op, None)];
    l := Label(i, Mutate);
    if op.Remove? {
      s' := s.(map_ := s.map_ - {op.key}, calls := calls);
    } else {
      var c := Above(s.cells.Keys);
      s' := State(MakeRoom(s.map_, size)[op.key := c], s.cells[c := op.value], calls);
      assert c !in s.cells && NewCell(size, s, op, c, s');
    }
  }

  lemma {:induction false} CellHolder<V>(s: State<V>, op: Op<V>, c: CellId) returns (j: CallId)
    requires !CanLockCell(s, op, c)
    ensures j in s.calls && (s.calls[j].Holding? || s.calls[j].Stored?)
  {
    if i :| i in s.calls && s.calls[i].HoldsCellExclusive(c) {
      j := i;
    } else {
      j :| j in s.calls && s.calls[j].HoldsCellShared(c);
    }
  }

  /** A call that has the map lock or its cell can go on, or is kept waiting by a call that can. */
  lemma {:induction false} LockedGoesOn<V>(size: nat, s: State<V>, i: CallId) returns (l: Label<V>, s': State<V>)
    requires Inv(s) && InFlight(s, i) && !s.calls[i].Invoked?
    ensures InFlight(s, l.call) && !l.action.Invoke? && Step(size, s, l, s')
  {
    var p := s.calls[i];
    if p.HoldsMapExclusive() {
      l, s' := MutatorGoesOn(size, s, i);
    } else if p.Locked? {
      l := Label(i, Lookup);
      s' := s.(calls := s.calls[i := if p.op.key in s.map_ then Found(p.op, s.map_[p.op.key]) else Done(p.op, None)]);
    } else if p.Found? && CanLockCell(s, p.op, p.cell) {
      l, s' := Label(i, LockCell), s.(calls := s.calls[i := Holding(p.op, p.cell)]);
    } else if p.Found? {
      var j := CellHolder(s, p.op, p.cell);
      l, s' := HolderGoesOn(size, s, j);
    } else {
      l, s' := HolderGoesOn(size, s, i);
    }
  }

  /** The two levels of lock never deadlock: while a call is in flight, some call in flight can take a step. */
  lemma {:induction false} NeverStuck<V>(size: nat, r: seq<State<V>>, ls: seq<Label<V>>, n: nat, i: CallId)
    returns (l: Label<V>, s': State<V>)
    requires IsRun(size, r, ls) && n < |r| && InFlight(r[n], i)
    ensures InFlight(r[n], l.call) && !l.action.Invoke? && Step(size, r[n], l, s')
  {
    var s := r[n];
    RunKeeps(size, r, ls, n);
    if !s.calls[i].Invoked? {
      l, s' := LockedGoesOn(size, s, i);
    } else if CanLockMap(s, s.calls[i].op) {
      l, s' := Label(i, LockMap), s.(calls := s.calls[i := Locked(s.calls[i].op)]);
    } else {
      var j :| j in s.calls && (s.calls[j].HoldsMapExclusive() || s.calls[j].HoldsMapShared());
      l, s' := LockedGoesOn(size, s, j);
    }
  }

  lemma {:induction false} RunGrows<V>(size: nat, r: seq<State<V>>, ls: seq<Label<V>>, l: Label<V>, s': State<V>)
    requires IsRun(size, r, ls) && Step(size, r[|ls|], l, s')
    ensures IsRun(size, r + [s'], ls + [l])
  {
    forall n | 0 <= n < |ls| + 1 ensures StepAt(size, r + [s'], ls + [l], n) {
      if n < |ls| {
        assert StepAt(size, r, ls, n);
      }
    }
  }

  /** A new call that starts when nobody has a lock gets that of the map. */
  lemma {:induction false} Enters<V>(size: nat, r: seq<State<V>>, ls: seq<Label<V>>, i: CallId, op: Op<V>)
    returns (r': seq<State<V>>, ls': seq<Label<V>>)
    requires IsRun(size, r, ls) && i !in r[|ls|].calls
    requires forall j :: j in r[|ls|].calls ==> !r[|ls|].calls[j].HoldsMapExclusive() && !r[|ls|].calls[j].HoldsMapShared()
    ensures IsRun(size, r', ls') && r'[|ls'|] == r[|ls|].(calls := r[|ls|].calls[i := Locked(op)])
  {
    var s := r[|ls|];
    var s' := s.(calls := s.calls[i := Invoked(op)]);
    RunGrows(size, r, ls, Label(i, Invoke(op)), s');
    r', ls' := r + [s'], ls + [Label(i, Invoke(op))];
    var s'' := s'.(calls := s'.calls[i := Locked(op)]);
    RunGrows(size, r', ls', Label(i, LockMap), s'');
    r', ls' := r' + [s''], ls' + [Label(i, LockMap)];
    assert s''.calls == s.calls[i := Locked(op)];
  }

  /** A get has found the cell of an inserted key and waits for it. */
  lemma {:induction false} FoundIsReachable<V>(size: nat, k: Key, v: V) returns (r: seq<State<V>>, ls: seq<Label<V>>)
    ensures IsRun(size, r, ls)
    ensures r[|ls|] == State(map[k := 0], map[0 := v], map[0 := Done(Insert(k, v), None), 1 := Found(Get(k), 0)])
  {
    r, ls := [Init<V>()], [];
    r, ls := Enters(size, r, ls, 0, Insert(k, v));
    var s := State(map[k := 0], map[0 := v], map[0 := Done(Insert(k, v), None)]);
    assert NewCell(size, r[|ls|], Insert(k, v), 0, s);
    RunGrows(size, r, ls, Label(0, Mutate), s);
    r, ls := r + [s], ls + [Label(0, Mutate)];
    r, ls := Enters(size, r, ls, 1, Get(k));
    s := s.(calls := map[0 := Done(Insert(k, v), None), 1 := Found(Get(k), 0)]);
    RunGrows(size, r, ls, Label(1, Lookup), s);
    r, ls := r + [s], ls + [Label(1, Lookup)];
  }

  /**
   Overlapping calls do see this: a get that found its cell returns the value although a remove of the key
   has come and gone, since the get reads without the map lock.
   */
  lemma {:induction false} RemovedValueIsRead<V>(size: nat, k: Key, v: V) returns (r: seq<State<V>>, ls: seq<Label<V>>, n: nat)
    ensures IsRun(size, r, ls) && n < |ls|
    ensures InFlight(r[n], 1) && 2 in r[n].calls && r[n].calls[2] == Done(Remove(k), None) && Abs(r[n]) == map[]
    ensures 1 in r[|ls|].calls && r[|ls|].calls[1] == Done(Get(k), Some(v))
  {
    r, ls := FoundIsReachable(size, k, v);
    r, ls := Enters(size, r, ls, 2, Remove(k));
    var removed := State(map[], map[0 := v], r[|ls|].calls[2 := Done(Remove(k), None)]);
    assert r[|ls|].map_ - {k} == map[];
    RunGrows(size, r, ls, Label(2, Mutate), removed);
    r, ls := r + [removed], ls + [Label(2, Mutate)];
    n := |ls|;
    var holding := removed.(calls := removed.calls[1 := Holding(Get(k), 0)]);
    RunGrows(size, r, ls, Label(1, LockCell), holding);
    r, ls := r + [holding], ls + [Label(1, LockCell)];
    var read := holding.(calls := holding.calls[1 := Done(Get(k), Some(v))]);
    RunGrows(size, r, ls, Label(1, Access), read);
    r, ls := r + [read], ls + [Label(1, Access)];
  }
}
