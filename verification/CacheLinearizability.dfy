/**
 One sequence of all cache calls, gets included: sequential execution in that order gives every call
 the result it returned, and calls that did not overlap keep their order.
 */
module CacheLinearizability {
  import opened Wrappers
  import opened Sets
  import opened SimpleCaches
  import opened CacheInterleavings

  /** A call at its point: twice the moment for a get, between two moments for a mutating step. */
  datatype Placement<V> = Placement(call: CallId, op: Op<V>, result: Option<V>, time: nat)

  predicate ReturnedGet<V>(s: State<V>, i: CallId) {
    i in s.calls && s.calls[i].Done? && s.calls[i].op.Get?
  }

  /** At moment `m`, inside the call, the map had what the get returned. */
  ghost predicate SawAt<V>(r: seq<State<V>>, n: nat, i: CallId, m: nat)
    requires n < |r| && ReturnedGet(r[n], i)
  {
    m < n && InFlight(r[m], i) && r[n].calls[i].result == Looked(Abs(r[m]), r[n].calls[i].op.key)
  }

  lemma {:induction false} SomeMoment<V>(size: nat, r: seq<State<V>>, ls: seq<Label<V>>, i: CallId)
    requires IsRun(size, r, ls) && ReturnedGet(r[|ls|], i)
    ensures exists m :: SawAt(r, |ls|, i, m)
  {
    var m := GetSeesAMoment(size, r, ls, |ls|, i);
    assert SawAt(r, |ls|, i, m);
  }

  ghost function Moment<V>(size: nat, r: seq<State<V>>, ls: seq<Label<V>>, i: CallId): (m: nat)
    requires IsRun(size, r, ls) && ReturnedGet(r[|ls|], i)
    ensures SawAt(r, |ls|, i, m)
  {
    SomeMoment(size, r, ls, i);
    var m :| SawAt(r, |ls|, i, m);
    m
  }

  /** The returned gets whose moment is `m`. */
  ghost function GetsAt<V>(size: nat, r: seq<State<V>>, ls: seq<Label<V>>, m: nat): set<CallId>
    requires IsRun(size, r, ls)
  {
    set i | i in r[|ls|].calls && ReturnedGet(r[|ls|], i) && Moment(size, r, ls, i) == m
  }

  ghost function InSomeOrder(ids: set<CallId>): (s: seq<CallId>)
    ensures forall i :: i in s <==> i in ids
    ensures forall x, y :: 0 <= x < y < |s| ==> s[x] != s[y]
    decreases |ids|
  {
    if ids == {} then []
    else
      var i :| i in ids;
      var rest := InSomeOrder(ids - {i});
      assert forall j :: j in [i] + rest <==> j == i || j in rest;
      [i] + rest
  }

  function GetPlacement<V>(last: State<V>, i: CallId, m: nat): Placement<V>
    requires ReturnedGet(last, i)
  {
    Placement(i, last.calls[i].op, last.calls[i].result, 2 * m)
  }

  function GetPlacements<V>(last: State<V>, ids: seq<CallId>, m: nat): (es: seq<Placement<V>>)
    requires forall x :: 0 <= x < |ids| ==> ReturnedGet(last, ids[x])
    ensures |es| == |ids|
    ensures forall x :: 0 <= x < |ids| ==> es[x] == GetPlacement(last, ids[x], m)
  {
    if ids == [] then []
    else GetPlacements(last, ids[..|ids| - 1], m) + [GetPlacement(last, ids[|ids| - 1], m)]
  }

  ghost function GetsBlock<V>(size: nat, r: seq<State<V>>, ls: seq<Label<V>>, m: nat): seq<Placement<V>>
    requires IsRun(size, r, ls)
  {
    var ids := InSomeOrder(GetsAt(size, r, ls, m));
    assert forall x :: 0 <= x < |ids| ==> ids[x] in ids;
    GetPlacements(r[|ls|], ids, m)
  }

  function EffectBlock<V>(effect: Option<Op<V>>, i: CallId, k: nat): seq<Placement<V>> {
    match effect
    case None => []
    case Some(op) => [Placement(i, op, None, 2 * k + 1)]
  }

  /** The cache after the calls, one after the other, from empty. */
  ghost function Sequential<V>(size: nat, es: seq<Placement<V>>): map<Key, V> {
    if es == [] then map[] else Effect(es[|es| - 1].op, size, Sequential(size, es[..|es| - 1]))
  }

  /** What the last call on a key left there, had there always been room. */
  function LastLeft<V>(es: seq<Placement<V>>, k: Key): Option<V> {
    if es == [] then None
    else
      var before := LastLeft(es[..|es| - 1], k);
      match es[|es| - 1].op
      case Insert(key, v) => if key == k then Some(v) else before
      case Write(key, v) => if key == k && before.Some? then Some(v) else before
      case Remove(key) => if key == k then None else before
      case Get(_) => before
  }

  function InsertedKeys<V>(es: seq<Placement<V>>): set<Key> {
    if es == [] then {}
    else
      var e := es[|es| - 1];
      InsertedKeys(es[..|es| - 1]) + if e.op.Insert? then {e.op.key} else {}
  }

  /** A sequence of calls never leaves anything but the last value under a key, or nothing if it was evicted. */
  lemma {:induction false} NeverStale<V>(size: nat, es: seq<Placement<V>>, k: Key)
    ensures Looked(Sequential(size, es), k).None? || Looked(Sequential(size, es), k) == LastLeft(es, k)
    ensures Sequential(size, es).Keys <= InsertedKeys(es)
  {
    if es == [] {
    } else {
      var n := |es| - 1;
      var before := Sequential(size, es[..n]);
      NeverStale(size, es[..n], k);
      EffectIsExact(es[n].op, size, before, k);
      forall x | x in Sequential(size, es) ensures x in InsertedKeys(es) {
        EffectIsExact(es[n].op, size, before, x);
      }
    }
  }

  /** While fewer keys than the size are inserted, nothing is evicted. */
  lemma {:induction false} RoomForAll<V>(size: nat, es: seq<Placement<V>>, k: Key)
    requires |InsertedKeys(es)| < size
    ensures Looked(Sequential(size, es), k) == LastLeft(es, k)
  {
    if es == [] {
    } else {
      var n := |es| - 1;
      var before := Sequential(size, es[..n]);
      SubsetSize(InsertedKeys(es[..n]), InsertedKeys(es));
      RoomForAll(size, es[..n], k);
      NeverStale(size, es[..n], k);
      SubsetSize(before.Keys, InsertedKeys(es[..n]));
      assert |before.Keys| == |before|;
      EffectIsExact(es[n].op, size, before, k);
    }
  }

  /** The call at `x` gets the result it returned when run in sequence; mutating calls return nothing. */
  ghost predicate RightAt<V>(size: nat, es: seq<Placement<V>>, x: nat)
    requires x < |es|
  {
    es[x].result == if es[x].op.Get? then Looked(Sequential(size, es[..x]), es[x].op.key) else None
  }

  ghost predicate RightResults<V>(size: nat, es: seq<Placement<V>>) {
    forall x :: 0 <= x < |es| ==> RightAt(size, es, x)
  }

  lemma {:induction false} RightOneMore<V>(size: nat, es: seq<Placement<V>>, e: Placement<V>)
    requires RightResults(size, es)
    requires e.result == if e.op.Get? then Looked(Sequential(size, es), e.op.key) else None
    ensures RightResults(size, es + [e])
    ensures Sequential(size, es + [e]) == Effect(e.op, size, Sequential(size, es))
  {
    var all := es + [e];
    assert all[..|es|] == es;
    forall x | 0 <= x < |all| ensures RightAt(size, all, x) {
      if x < |es| {
        assert RightAt(size, es, x) && all[..x] == es[..x];
      }
    }
  }

  /** Gets that all saw the current map change nothing and are right. */
  lemma {:induction false} RightGets<V>(size: nat, es: seq<Placement<V>>, gets: seq<Placement<V>>)
    requires RightResults(size, es)
    requires forall x :: 0 <= x < |gets| ==>
      gets[x].op.Get? && gets[x].result == Looked(Sequential(size, es), gets[x].op.key)
    ensures RightResults(size, es + gets) && Sequential(size, es + gets) == Sequential(size, es)
    decreases |gets|
  {
    if gets == [] {
      assert es + gets == es;
    } else {
      var n := |gets| - 1;
      RightGets(size, es, gets[..n]);
      RightOneMore(size, es + gets[..n], gets[n]);
      assert es + gets == es + gets[..n] + [gets[n]];
    }
  }

  lemma {:induction false} GetsBlockSees<V>(size: nat, r: seq<State<V>>, ls: seq<Label<V>>, m: nat, x: nat)
    requires IsRun(size, r, ls) && m <= |ls| && x < |GetsBlock(size, r, ls, m)|
    ensures var e := GetsBlock(size, r, ls, m)[x];
            && e.op.Get? && e.time == 2 * m && ReturnedGet(r[|ls|], e.call)
            && e.op == r[|ls|].calls[e.call].op && e.result == r[|ls|].calls[e.call].result
            && SawAt(r, |ls|, e.call, m) && e.result == Looked(Abs(r[m]), e.op.key)
  {
    var ids := InSomeOrder(GetsAt(size, r, ls, m));
    assert ids[x] in ids;
  }

  /** Run in sequence, these calls give the map `m` and their own results. */
  ghost predicate Yields<V>(size: nat, es: seq<Placement<V>>, m: map<Key, V>) {
    Sequential(size, es) == m && RightResults(size, es)
  }

  lemma {:induction false} NothingIsRight<V>(size: nat)
    ensures Yields<V>(size, [], Abs(Init()))
  {
  }

  lemma {:induction false} GetsAreRight<V>(size: nat, r: seq<State<V>>, ls: seq<Label<V>>, n: nat, es: seq<Placement<V>>)
    requires IsRun(size, r, ls) && n <= |ls| && Yields(size, es, Abs(r[n]))
    ensures Yields(size, es + GetsBlock(size, r, ls, n), Abs(r[n]))
  {
    var gets := GetsBlock(size, r, ls, n);
    forall x | 0 <= x < |gets| ensures gets[x].op.Get? && gets[x].result == Looked(Abs(r[n]), gets[x].op.key) {
      GetsBlockSees(size, r, ls, n, x);
    }
    RightGets(size, es, gets);
  }

  lemma {:induction false} EffectIsRight<V>(size: nat, r: seq<State<V>>, ls: seq<Label<V>>, k: nat, es: seq<Placement<V>>)
    requires IsRun(size, r, ls) && k < |ls| && Yields(size, es, Abs(r[k]))
    ensures Yields(size, es + EffectBlock(EffectOf(r[k], ls[k]), ls[k].call, k), Abs(r[k + 1]))
  {
    RunKeeps(size, r, ls, k);
    assert StepAt(size, r, ls, k);
    AbsStep(size, r[k], ls[k], r[k + 1]);
    EffectMutates(size, r[k], ls[k], r[k + 1]);
    match EffectOf(r[k], ls[k])
    case None => assert es + [] == es;
    case Some(op) => RightOneMore(size, es, Placement(ls[k].call, op, None, 2 * k + 1));
  }

  lemma {:induction false} EffectMutates<V>(size: nat, s: State<V>, l: Label<V>, s': State<V>)
    requires Inv(s) && Step(size, s, l, s')
    ensures EffectOf(s, l).Some? ==> !EffectOf(s, l).value.Get?
  {
    if l.call in s.calls {
      assert CallOk(s, s.calls[l.call]);
    }
  }

  // ---- where the points lie -------------------------------------------------------------------------

  /** A placed call is a get at its moment, or a mutating call at the step in which it takes effect. */
  ghost predicate Sound<V>(size: nat, r: seq<State<V>>, ls: seq<Label<V>>, e: Placement<V>)
    requires IsRun(size, r, ls)
  {
    if e.op.Get? then
      && ReturnedGet(r[|ls|], e.call) && e.time == 2 * Moment(size, r, ls, e.call)
      && e.op == r[|ls|].calls[e.call].op && e.result == r[|ls|].calls[e.call].result
    else
      && e.time % 2 == 1 && e.time / 2 < |ls| && ls[e.time / 2].call == e.call
      && EffectOf(r[e.time / 2], ls[e.time / 2]) == Some(e.op) && e.result == None
  }

  ghost predicate AllSound<V>(size: nat, r: seq<State<V>>, ls: seq<Label<V>>, es: seq<Placement<V>>, bound: nat)
    requires IsRun(size, r, ls)
  {
    forall x :: 0 <= x < |es| ==> Sound(size, r, ls, es[x]) && es[x].time < bound
  }

  predicate Sorted<V>(es: seq<Placement<V>>) {
    forall x, y :: 0 <= x < y < |es| ==> es[x].time <= es[y].time
  }

  predicate Once<V>(es: seq<Placement<V>>) {
    forall x, y :: 0 <= x < y < |es| ==> es[x].call != es[y].call
  }

  /** A call keeps its operation, and once it has returned it never changes. */
  lemma {:induction false} CallStays<V>(size: nat, r: seq<State<V>>, ls: seq<Label<V>>, n: nat, later: nat, i: CallId)
    requires IsRun(size, r, ls) && n <= later <= |ls| && i in r[n].calls
    ensures i in r[later].calls && r[later].calls[i].op == r[n].calls[i].op
    ensures r[n].calls[i].Done? ==> r[later].calls[i] == r[n].calls[i]
    decreases later
  {
    if n == later {
    } else {
      CallStays(size, r, ls, n, later - 1, i);
      DoneStays(size, r, ls, later - 1, i);
    }
  }

  /** The step of an effect belongs to a call in flight, which has taken effect afterwards and not before. */
  lemma {:induction false} EffectHappens<V>(size: nat, r: seq<State<V>>, ls: seq<Label<V>>, k: nat)
    requires IsRun(size, r, ls) && k < |ls| && EffectOf(r[k], ls[k]).Some?
    ensures InFlight(r[k], ls[k].call) && !Effective(r[k], ls[k].call)
    ensures ls[k].call in r[k + 1].calls && Effective(r[k + 1], ls[k].call)
    ensures r[k + 1].calls[ls[k].call].op == EffectOf(r[k], ls[k]).value == r[k].calls[ls[k].call].op
    ensures !EffectOf(r[k], ls[k]).value.Get?
  {
    RunKeeps(size, r, ls, k);
    assert StepAt(size, r, ls, k);
    EffectiveStep(size, r[k], ls[k], r[k + 1], ls[k].call);
    EffectMutates(size, r[k], ls[k], r[k + 1]);
  }

  lemma {:induction false} EffectiveStays<V>(size: nat, r: seq<State<V>>, ls: seq<Label<V>>, n: nat, later: nat, i: CallId)
    requires IsRun(size, r, ls) && n <= later <= |ls| && Effective(r[n], i)
    ensures Effective(r[later], i)
    decreases later
  {
    if n == later {
    } else {
      EffectiveStays(size, r, ls, n, later - 1, i);
      RunKeeps(size, r, ls, later - 1);
      assert StepAt(size, r, ls, later - 1);
      EffectiveStep(size, r[later - 1], ls[later - 1], r[later], i);
    }
  }

  /** A call takes effect in one step only. */
  lemma {:induction false} OneEffect<V>(size: nat, r: seq<State<V>>, ls: seq<Label<V>>, j: nat, k: nat)
    requires IsRun(size, r, ls) && j < |ls| && k < |ls| && ls[j].call == ls[k].call
    requires EffectOf(r[j], ls[j]).Some? && EffectOf(r[k], ls[k]).Some?
    ensures j == k
  {
    EffectHappens(size, r, ls, j);
    EffectHappens(size, r, ls, k);
    if j < k {
      EffectiveStays(size, r, ls, j + 1, k, ls[j].call);
    } else if k < j {
      EffectiveStays(size, r, ls, k + 1, j, ls[j].call);
    }
  }

  lemma {:induction false} SoundOp<V>(size: nat, r: seq<State<V>>, ls: seq<Label<V>>, e: Placement<V>)
    requires IsRun(size, r, ls) && Sound(size, r, ls, e)
    ensures e.call in r[|ls|].calls && e.op == r[|ls|].calls[e.call].op
  {
    if !e.op.Get? {
      EffectHappens(size, r, ls, e.time / 2);
      CallStays(size, r, ls, e.time / 2 + 1, |ls|, e.call);
    }
  }

  /** A call has one place in time. */
  lemma {:induction false} OneTime<V>(size: nat, r: seq<State<V>>, ls: seq<Label<V>>, d: Placement<V>, e: Placement<V>)
    requires IsRun(size, r, ls) && Sound(size, r, ls, d) && Sound(size, r, ls, e) && d.call == e.call
    ensures d.time == e.time
  {
    SoundOp(size, r, ls, d);
    SoundOp(size, r, ls, e);
    if !d.op.Get? {
      OneEffect(size, r, ls, d.time / 2, e.time / 2);
    }
  }

  /** Placing more calls after all others, at one later time, keeps the order and places no call twice. */
  lemma {:induction false} PlacedLater<V>(size: nat, r: seq<State<V>>, ls: seq<Label<V>>,
                                          es: seq<Placement<V>>, more: seq<Placement<V>>, time: nat)
    requires IsRun(size, r, ls) && AllSound(size, r, ls, es, time) && AllSound(size, r, ls, more, time + 1)
    requires Sorted(es) && Once(es) && Once(more)
    requires forall x :: 0 <= x < |more| ==> more[x].time == time
    ensures AllSound(size, r, ls, es + more, time + 1) && Sorted(es + more) && Once(es + more)
  {
    var all := es + more;
    forall x, y | 0 <= x < y < |all| ensures all[x].call != all[y].call {
      if x < |es| <= y && all[x].call == all[y].call {
        OneTime(size, r, ls, all[x], all[y]);
      }
    }
  }

  lemma {:induction false} GetsBlockShape<V>(size: nat, r: seq<State<V>>, ls: seq<Label<V>>, m: nat)
    requires IsRun(size, r, ls) && m <= |ls|
    ensures AllSound(size, r, ls, GetsBlock(size, r, ls, m), 2 * m + 1) && Once(GetsBlock(size, r, ls, m))
    ensures forall x :: 0 <= x < |GetsBlock(size, r, ls, m)| ==> GetsBlock(size, r, ls, m)[x].time == 2 * m
  {
    var ids := InSomeOrder(GetsAt(size, r, ls, m));
    forall x | 0 <= x < |ids|
      ensures Sound(size, r, ls, GetsBlock(size, r, ls, m)[x]) && GetsBlock(size, r, ls, m)[x].time == 2 * m
    {
      GetsBlockSees(size, r, ls, m, x);
      assert ids[x] in ids;
    }
  }

  // ---- every call is there, in its real-time order --------------------------------------------------

  predicate Has<V>(es: seq<Placement<V>>, i: CallId) {
    exists x :: 0 <= x < |es| && es[x].call == i
  }

  lemma {:induction false} HasAppended<V>(a: seq<Placement<V>>, b: seq<Placement<V>>, i: CallId)
    ensures Has(a + b, i) <==> Has(a, i) || Has(b, i)
  {
    if Has(a, i) {
      var x :| 0 <= x < |a| && a[x].call == i;
      assert (a + b)[x] == a[x];
    }
    if Has(b, i) {
      var x :| 0 <= x < |b| && b[x].call == i;
      assert (a + b)[|a| + x] == b[x];
    }
  }

  /** The calls in effect at moment `n`, and the gets whose moment is before `bound`, are all placed. */
  ghost predicate Complete<V>(size: nat, r: seq<State<V>>, ls: seq<Label<V>>, n: nat, es: seq<Placement<V>>, bound: nat)
    requires IsRun(size, r, ls) && n <= |ls|
  {
    && (forall i :: Effective(r[n], i) ==> Has(es, i))
    && (forall i :: ReturnedGet(r[|ls|], i) && Moment(size, r, ls, i) < bound ==> Has(es, i))
  }

  lemma {:induction false} GetsComplete<V>(size: nat, r: seq<State<V>>, ls: seq<Label<V>>, n: nat, es: seq<Placement<V>>)
    requires IsRun(size, r, ls) && n <= |ls| && Complete(size, r, ls, n, es, n)
    ensures Complete(size, r, ls, n, es + GetsBlock(size, r, ls, n), n + 1)
  {
    var gets := GetsBlock(size, r, ls, n);
    forall i | ReturnedGet(r[|ls|], i) && Moment(size, r, ls, i) < n + 1 ensures Has(es + gets, i) {
      HasAppended(es, gets, i);
      if Moment(size, r, ls, i) == n {
        var ids := InSomeOrder(GetsAt(size, r, ls, n));
        assert i in ids;
        var x :| 0 <= x < |ids| && ids[x] == i;
        assert gets[x].call == i;
      }
    }
    forall i | Effective(r[n], i) ensures Has(es + gets, i) {
      HasAppended(es, gets, i);
    }
  }

  lemma {:induction false} EffectComplete<V>(size: nat, r: seq<State<V>>, ls: seq<Label<V>>, k: nat, es: seq<Placement<V>>)
    requires IsRun(size, r, ls) && k < |ls| && Complete(size, r, ls, k, es, k + 1)
    ensures Complete(size, r, ls, k + 1, es + EffectBlock(EffectOf(r[k], ls[k]), ls[k].call, k), k + 1)
  {
    var effect := EffectBlock(EffectOf(r[k], ls[k]), ls[k].call, k);
    RunKeeps(size, r, ls, k);
    assert StepAt(size, r, ls, k);
    forall i | Effective(r[k + 1], i) ensures Has(es + effect, i) {
      EffectiveStep(size, r[k], ls[k], r[k + 1], i);
      HasAppended(es, effect, i);
      assert !Effective(r[k], i) ==> effect[0].call == i;
    }
    forall i | ReturnedGet(r[|ls|], i) && Moment(size, r, ls, i) < k + 1 ensures Has(es + effect, i) {
      HasAppended(es, effect, i);
    }
  }

  /** Calls placed before `bound`: sound, in time order, none twice. */
  ghost predicate Shaped<V>(size: nat, r: seq<State<V>>, ls: seq<Label<V>>, es: seq<Placement<V>>, bound: nat)
    requires IsRun(size, r, ls)
  {
    AllSound(size, r, ls, es, bound) && Sorted(es) && Once(es)
  }

  lemma {:induction false} EffectShape<V>(size: nat, r: seq<State<V>>, ls: seq<Label<V>>, k: nat, es: seq<Placement<V>>)
    requires IsRun(size, r, ls) && k < |ls| && Shaped(size, r, ls, es, 2 * k + 1)
    ensures Shaped(size, r, ls, es + EffectBlock(EffectOf(r[k], ls[k]), ls[k].call, k), 2 * k + 2)
  {
    if EffectOf(r[k], ls[k]).Some? {
      EffectHappens(size, r, ls, k);
    }
    PlacedLater(size, r, ls, es, EffectBlock(EffectOf(r[k], ls[k]), ls[k].call, k), 2 * k + 1);
  }

  lemma {:induction false} GetsShape<V>(size: nat, r: seq<State<V>>, ls: seq<Label<V>>, n: nat, es: seq<Placement<V>>)
    requires IsRun(size, r, ls) && n <= |ls| && Shaped(size, r, ls, es, 2 * n)
    ensures Shaped(size, r, ls, es + GetsBlock(size, r, ls, n), 2 * n + 1)
  {
    GetsBlockShape(size, r, ls, n);
    PlacedLater(size, r, ls, es, GetsBlock(size, r, ls, n), 2 * n);
  }

  /** Everything before moment `n`, in one sequence: at each moment its gets, then the effect of the next step. */
  lemma {:induction false} Place<V>(size: nat, r: seq<State<V>>, ls: seq<Label<V>>, n: nat) returns (es: seq<Placement<V>>)
    requires IsRun(size, r, ls) && n <= |ls|
    ensures Yields(size, es, Abs(r[n]))
    ensures Shaped(size, r, ls, es, 2 * n)
    ensures Complete(size, r, ls, n, es, n)
  {
    if n == 0 {
      es := [];
      NothingIsRight<V>(size);
    } else {
      var k := n - 1;
      es := Place(size, r, ls, k);
      GetsAreRight(size, r, ls, k, es);
      GetsShape(size, r, ls, k, es);
      GetsComplete(size, r, ls, k, es);
      es := es + GetsBlock(size, r, ls, k);
      EffectIsRight(size, r, ls, k, es);
      EffectShape(size, r, ls, k, es);
      EffectComplete(size, r, ls, k, es);
      es := es + EffectBlock(EffectOf(r[k], ls[k]), ls[k].call, k);
    }
  }

  /** A call's place lies after its invocation and before its return. */
  lemma {:induction false} PlacedInside<V>(size: nat, r: seq<State<V>>, ls: seq<Label<V>>, e: Placement<V>, n: nat)
    requires IsRun(size, r, ls) && Sound(size, r, ls, e) && n <= |ls|
    ensures e.call !in r[n].calls ==> e.time > 2 * n
    ensures e.call in r[n].calls && r[n].calls[e.call].Done? ==> e.time < 2 * n
  {
    var m := e.time / 2;
    if !e.op.Get? {
      EffectHappens(size, r, ls, m);
    }
    assert InFlight(r[m], e.call);
    if m <= n {
      CallStays(size, r, ls, m, n, e.call);
    } else if e.call in r[n].calls {
      CallStays(size, r, ls, n, m, e.call);
    }
  }

  lemma {:induction false} MutatorReturns<V>(size: nat, s: State<V>, l: Label<V>, s': State<V>, i: CallId)
    requires Inv(s) && Step(size, s, l, s') && i in s'.calls && s'.calls[i].Done? && !s'.calls[i].op.Get?
    requires i in s.calls ==> !s.calls[i].Done?
    ensures s'.calls[i].result == None
  {
    if i in s.calls {
      assert CallOk(s, s.calls[i]);
    }
  }

  /** Mutating calls return nothing. */
  lemma {:induction false} MutatorsReturnNone<V>(size: nat, r: seq<State<V>>, ls: seq<Label<V>>, n: nat, i: CallId)
    requires IsRun(size, r, ls) && n <= |ls|
    requires i in r[n].calls && r[n].calls[i].Done? && !r[n].calls[i].op.Get?
    ensures r[n].calls[i].result == None
    decreases n
  {
    if n == 0 {
    } else {
      RunKeeps(size, r, ls, n - 1);
      DoneStays(size, r, ls, n - 1, i);
      if i in r[n - 1].calls && r[n - 1].calls[i].Done? {
        MutatorsReturnNone(size, r, ls, n - 1, i);
      } else {
        assert StepAt(size, r, ls, n - 1);
        MutatorReturns(size, r[n - 1], ls[n - 1], r[n], i);
      }
    }
  }

  /** All returned calls once each, with the operation and the result they had, and no call never made. */
  ghost predicate AllCalls<V>(es: seq<Placement<V>>, last: State<V>) {
    && Once(es)
    && (forall i :: i in last.calls && last.calls[i].Done? ==> Has(es, i))
    && (forall x :: 0 <= x < |es| ==> Belongs(es[x], last))
  }

  predicate Belongs<V(==)>(e: Placement<V>, last: State<V>) {
    && e.call in last.calls && e.op == last.calls[e.call].op
    && (last.calls[e.call].Done? ==> e.result == last.calls[e.call].result)
  }

  /** A call that returned before another was invoked comes first. */
  ghost predicate InRealTime<V>(es: seq<Placement<V>>, r: seq<State<V>>) {
    forall n, x, y :: 0 <= n < |r| && 0 <= x < |es| && 0 <= y < |es| ==> InOrderAt(es, r[n], x, y)
  }

  predicate InOrderAt<V>(es: seq<Placement<V>>, s: State<V>, x: nat, y: nat)
    requires x < |es| && y < |es|
  {
    Returned(s, es[x].call) && es[y].call !in s.calls ==> x < y
  }

  predicate Returned<V>(s: State<V>, i: CallId) {
    i in s.calls && s.calls[i].Done?
  }

  lemma {:induction false} PlacesAll<V>(size: nat, r: seq<State<V>>, ls: seq<Label<V>>, es: seq<Placement<V>>)
    requires IsRun(size, r, ls) && Shaped(size, r, ls, es, 2 * |ls|) && Complete(size, r, ls, |ls|, es, |ls|)
    ensures AllCalls(es, r[|ls|])
  {
    var last := r[|ls|];
    forall i | i in last.calls && last.calls[i].Done? ensures Has(es, i) {
      if last.calls[i].op.Get? {
        assert SawAt(r, |ls|, i, Moment(size, r, ls, i));
      } else {
        assert Effective(last, i);
      }
    }
    forall x | 0 <= x < |es| ensures Belongs(es[x], last) {
      SoundOp(size, r, ls, es[x]);
      if !es[x].op.Get? && last.calls[es[x].call].Done? {
        MutatorsReturnNone(size, r, ls, |ls|, es[x].call);
      }
    }
  }

  lemma {:induction false} PlacesInOrder<V>(size: nat, r: seq<State<V>>, ls: seq<Label<V>>, es: seq<Placement<V>>)
    requires IsRun(size, r, ls) && Shaped(size, r, ls, es, 2 * |ls|)
    ensures InRealTime(es, r)
  {
    forall n, x, y | 0 <= n < |r| && 0 <= x < |es| && 0 <= y < |es| ensures InOrderAt(es, r[n], x, y) {
      PlacedInside(size, r, ls, es[x], n);
      PlacedInside(size, r, ls, es[y], n);
    }
  }

  /**
   Every run of concurrent calls is linearizable: one sequence of all its calls runs, from an empty
   cache and one call after the other, to the same map and the same results, in real-time order.
   */
  lemma {:induction false} Linearizable<V>(size: nat, r: seq<State<V>>, ls: seq<Label<V>>) returns (es: seq<Placement<V>>)
    requires IsRun(size, r, ls)
    ensures AllCalls(es, r[|ls|])
    ensures Yields(size, es, Abs(r[|ls|]))
    ensures InRealTime(es, r)
  {
    es := Place(size, r, ls, |ls|);
    PlacesAll(size, r, ls, es);
    PlacesInOrder(size, r, ls, es);
  }

  /** So is what has happened up to any moment of a run. */
  lemma {:induction false} LinearizableAtEveryMoment<V>(size: nat, r: seq<State<V>>, ls: seq<Label<V>>, n: nat)
    returns (es: seq<Placement<V>>)
    requires IsRun(size, r, ls) && n <= |ls|
    ensures AllCalls(es, r[n])
    ensures Yields(size, es, Abs(r[n]))
    ensures InRealTime(es, r[..n + 1])
  {
    var states, labels := r[..n + 1], ls[..n];
    forall k | 0 <= k < n ensures StepAt(size, states, labels, k) {
      assert StepAt(size, r, ls, k);
    }
    es := Linearizable(size, states, labels);
  }
}
