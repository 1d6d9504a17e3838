/** Intersection by counting: the signature lists every endpoint and the judge agree on. */
module Intersections {
  import opened Wrappers
  import opened Votes

  function Count<S(==)>(s: seq<S>, x: S): nat {
    if s == [] then 0 else Count(s[..|s| - 1], x) + if s[|s| - 1] == x then 1 else 0
  }

  /** `IndexMap`: counts, with the keys in the order they were first seen. */
  datatype IndexMap<S> = IndexMap(keys: seq<S>, counts: map<S, nat>)

  function Bump<S(==)>(m: IndexMap<S>, x: S): IndexMap<S> {
    if x in m.counts then m.(counts := m.counts[x := m.counts[x] + 1])
    else IndexMap(m.keys + [x], m.counts[x := 1])
  }

  function FirstOccurrences<S(==)>(s: seq<S>): seq<S> {
    if s == [] then []
    else
      var n := |s| - 1;
      FirstOccurrences(s[..n]) + if s[n] in s[..n] then [] else [s[n]]
  }

  /** The elements of `s` that are in `keep`, in order. */
  function Kept<S(==)>(s: seq<S>, keep: set<S>): seq<S> {
    if s == [] then []
    else Kept(s[..|s| - 1], keep) + if s[|s| - 1] in keep then [s[|s| - 1]] else []
  }

  ghost predicate Tallies<S(!new)>(m: IndexMap<S>, s: seq<S>) {
    && m.keys == FirstOccurrences(s)
    && (forall x :: x in m.counts <==> x in s)
    && (forall x :: x in m.counts ==> m.counts[x] == Count(s, x))
  }

  lemma {:induction false} CountPositive<S>(s: seq<S>, x: S)
    ensures Count(s, x) > 0 <==> x in s
  {
    if s == [] {
    } else {
      CountPositive(s[..|s| - 1], x);
    }
  }

  lemma {:induction false} BumpTallies<S(!new)>(m: IndexMap<S>, s: seq<S>, x: S)
    requires Tallies(m, s)
    ensures Tallies(Bump(m, x), s + [x])
  {
    assert (s + [x])[..|s|] == s;
    forall y ensures Count(s + [x], y) == Count(s, y) + if y == x then 1 else 0 {
    }
    CountPositive(s, x);
    assert Bump(m, x).keys == FirstOccurrences(s + [x]);
  }

  method TallyOnto<S(==, !new)>(m: IndexMap<S>, ghost s: seq<S>, more: seq<S>) returns (r: IndexMap<S>)
    requires Tallies(m, s)
    ensures Tallies(r, s + more)
  {
    r := m;
    var i := 0;
    assert s + more[..0] == s;
    while i < |more|
      invariant 0 <= i <= |more|
      invariant Tallies(r, s + more[..i])
    {
      BumpTallies(r, s + more[..i], more[i]);
      assert s + more[..i + 1] == s + more[..i] + [more[i]];
      r := Bump(r, more[i]);
      i := i + 1;
    }
    assert more[..i] == more;
  }

  /** How often `x` occurs in all the lists together. */
  ghost function Total<S>(lists: map<Url, seq<S>>, from: set<Url>, x: S): nat
    requires from <= lists.Keys
  {
    if from == {} then 0
    else
      var k :| k in from;
      Count(lists[k], x) + Total(lists, from - {k}, x)
  }

  lemma {:induction false} TotalPick<S>(lists: map<Url, seq<S>>, from: set<Url>, x: S, k: Url)
    requires from <= lists.Keys && k in from
    ensures Total(lists, from, x) == Count(lists[k], x) + Total(lists, from - {k}, x)
    decreases |from|
  {
    var j :| j in from && Total(lists, from, x) == Count(lists[j], x) + Total(lists, from - {j}, x);
    if j != k {
      TotalPick(lists, from - {j}, x, k);
      TotalPick(lists, from - {k}, x, j);
      assert from - {j} - {k} == from - {k} - {j};
    }
  }

  lemma {:induction false} CountAppend<S>(a: seq<S>, b: seq<S>, x: S)
    ensures Count(a + b, x) == Count(a, x) + Count(b, x)
  {
    if b == [] {
      assert a + b == a;
    } else {
      assert (a + b)[..|a + b| - 1] == a + b[..|b| - 1];
      CountAppend(a, b[..|b| - 1], x);
    }
  }

  predicate NoRepeat<S(==)>(s: seq<S>) {
    forall i, j :: 0 <= i < j < |s| ==> s[i] != s[j]
  }

  ghost predicate FullCount<S(!new)>(lists: map<Url, seq<S>>, x: S) {
    Total(lists, lists.Keys, x) == |lists| && Total(lists, lists.Keys, x) > 0
  }

  /** The items with a full count over all lists, once each, in any order. */
  ghost predicate Intersects<S(!new)>(lists: map<Url, seq<S>>, r: seq<S>) {
    NoRepeat(r) && forall x :: x in r <==> FullCount(lists, x)
  }

  /** `deal_get_signatures_for_address_res`: what is counted once per list, whatever the order of the lists. */
  method Intersect<S(==, !new)>(lists: map<Url, seq<S>>) returns (r: seq<S>)
    ensures Intersects(lists, r)
  {
    var seen := IndexMap([], map[]);
    ghost var all: seq<S> := [];
    var pending := lists.Keys;
    assert lists.Keys - pending == {};
    while pending != {}
      invariant pending <= lists.Keys
      invariant Tallies(seen, all)
      invariant forall x :: Count(all, x) == Total(lists, lists.Keys - pending, x)
    {
      var from :| from in pending;
      ghost var done := lists.Keys - pending;
      seen := TallyOnto(seen, all, lists[from]);
      forall x ensures Count(all + lists[from], x) == Total(lists, done + {from}, x) {
        CountAppend(all, lists[from], x);
        TotalPick(lists, done + {from}, x, from);
        assert done + {from} - {from} == done;
      }
      all := all + lists[from];
      assert lists.Keys - (pending - {from}) == done + {from};
      pending := pending - {from};
    }
    assert lists.Keys - pending == lists.Keys;
    var keep := set x | x in seen.counts && seen.counts[x] == |lists|;
    r := Kept(seen.keys, keep);
    KeptByCount(seen, all, |lists|, keep);
  }

  /** Keeping the keys with the right count keeps the items that occur so often, once each. */
  lemma {:induction false} KeptByCount<S(!new)>(seen: IndexMap<S>, all: seq<S>, n: nat, keep: set<S>)
    requires Tallies(seen, all) && keep == set x | x in seen.counts && seen.counts[x] == n
    ensures NoRepeat(Kept(seen.keys, keep))
    ensures forall x :: x in Kept(seen.keys, keep) <==> Count(all, x) == n && Count(all, x) > 0
  {
    FirstOccurrencesOnce(all);
    KeptNoRepeat(seen.keys, keep);
    forall x ensures x in Kept(seen.keys, keep) <==> Count(all, x) == n && Count(all, x) > 0 {
      KeptMember(seen.keys, keep, x);
      CountPositive(all, x);
    }
  }

  lemma {:induction false} KeptMember<S>(s: seq<S>, keep: set<S>, x: S)
    ensures x in Kept(s, keep) <==> x in s && x in keep
  {
    if s == [] {
    } else {
      KeptMember(s[..|s| - 1], keep, x);
    }
  }

  lemma {:induction false} KeptNoRepeat<S>(s: seq<S>, keep: set<S>)
    requires NoRepeat(s)
    ensures NoRepeat(Kept(s, keep))
  {
    if s == [] {
    } else {
      var n := |s| - 1;
      KeptNoRepeat(s[..n], keep);
      KeptMember(s[..n], keep, s[n]);
      assert s[n] !in s[..n];
    }
  }

  lemma {:induction false} FirstOccurrencesOnce<S(!new)>(s: seq<S>)
    ensures NoRepeat(FirstOccurrences(s))
    ensures forall x :: x in FirstOccurrences(s) <==> x in s
  {
    if s == [] {
    } else {
      FirstOccurrencesOnce(s[..|s| - 1]);
      assert s == s[..|s| - 1] + [s[|s| - 1]];
    }
  }

  // ---- Presence in every list ----

  ghost function Holders<S(!new)>(lists: map<Url, seq<S>>, from: set<Url>, x: S): set<Url>
    requires from <= lists.Keys
  {
    set k | k in from && x in lists[k]
  }

  predicate InEvery<S(==)>(lists: map<Url, seq<S>>, x: S) {
    lists != map[] && forall k :: k in lists ==> x in lists[k]
  }

  predicate NoneRepeats<S(==)>(lists: map<Url, seq<S>>) {
    forall k :: k in lists ==> NoRepeat(lists[k])
  }

  lemma {:induction false} CountOnce<S>(s: seq<S>, x: S)
    requires NoRepeat(s)
    ensures Count(s, x) == if x in s then 1 else 0
  {
    if s == [] {
    } else {
      var n := |s| - 1;
      CountOnce(s[..n], x);
      assert s == s[..n] + [s[n]];
      assert s[n] !in s[..n];
    }
  }

  lemma {:induction false} TotalCountsHolders<S(!new)>(lists: map<Url, seq<S>>, from: set<Url>, x: S)
    requires from <= lists.Keys && NoneRepeats(lists)
    ensures Total(lists, from, x) == |Holders(lists, from, x)| <= |from|
    decreases |from|
  {
    if from == {} {
      assert Holders(lists, from, x) == {};
    } else {
      var k :| k in from;
      TotalPick(lists, from, x, k);
      TotalCountsHolders(lists, from - {k}, x);
      CountOnce(lists[k], x);
      var fewer := Holders(lists, from - {k}, x);
      assert Holders(lists, from, x) == if x in lists[k] then fewer + {k} else fewer;
    }
  }

  predicate OncePerList<S(==)>(lists: map<Url, seq<S>>, from: set<Url>, x: S)
    requires from <= lists.Keys
  {
    forall k :: k in from ==> Count(lists[k], x) == 1
  }

  /** An item that is in every list occurs often enough, and exactly often enough when it repeats in none. */
  lemma {:induction false} TotalOfCommon<S(!new)>(lists: map<Url, seq<S>>, from: set<Url>, x: S)
    requires from <= lists.Keys && forall k :: k in from ==> x in lists[k]
    ensures Total(lists, from, x) >= |from|
    ensures Total(lists, from, x) == |from| <==> OncePerList(lists, from, x)
    decreases |from|
  {
    if from == {} {
    } else {
      var k :| k in from;
      TotalPick(lists, from, x, k);
      TotalOfCommon(lists, from - {k}, x);
      CountPositive(lists[k], x);
      assert OncePerList(lists, from, x) <==> OncePerList(lists, from - {k}, x) && Count(lists[k], x) == 1;
    }
  }

  /** An item of every list repeats in none, and no other item repeats its way to a full count. */
  ghost predicate FairItem<S(!new)>(lists: map<Url, seq<S>>, x: S) {
    if InEvery(lists, x) then OncePerList(lists, lists.Keys, x) else !FullCount(lists, x)
  }

  /** A full count means being in every list exactly for fair items. */
  lemma {:induction false} FullCountIsInEvery<S(!new)>(lists: map<Url, seq<S>>, x: S)
    ensures (FullCount(lists, x) <==> InEvery(lists, x)) <==> FairItem(lists, x)
  {
    if InEvery(lists, x) {
      TotalOfCommon(lists, lists.Keys, x);
      assert |lists.Keys| == |lists| && lists.Keys != {};
    }
  }

  /** Without repeats inside a list every item is fair. */
  lemma {:induction false} NoneRepeatsIsFair<S(!new)>(lists: map<Url, seq<S>>, x: S)
    requires NoneRepeats(lists)
    ensures FairItem(lists, x) && (FullCount(lists, x) <==> InEvery(lists, x))
  {
    var holders := Holders(lists, lists.Keys, x);
    TotalCountsHolders(lists, lists.Keys, x);
    FullCountIsInEvery(lists, x);
    assert |lists.Keys| == |lists|;
    if holders == lists.Keys {
      forall k | k in lists ensures x in lists[k] {
        assert k in holders;
      }
    } else {
      assert lists.Keys == holders + (lists.Keys - holders);
      var k :| k in lists.Keys && k !in holders;
      assert x !in lists[k];
    }
  }

  lemma {:induction false} CountThrice(x: int)
    ensures Count([x, x, x], x) == 3
  {
    var thrice := [x, x, x];
    assert thrice[..2] == [x, x] && [x, x][..1] == [x] && [x][..0] == [];
    assert Count([x], x) == 1 && Count([x, x], x) == 2;
  }

  /** One endpoint that repeats an item as often as there are endpoints passes it alone. */
  lemma {:induction false} OneEndpointPassesAlone(a: Url, b: Url, c: Url, x: int)
    requires a != b && b != c && a != c
    ensures var lists := map[a := [x, x, x], b := [], c := []];
            |lists| == 3 && FullCount(lists, x) && !InEvery(lists, x) && !FairItem(lists, x)
  {
    var lists: map<Url, seq<int>> := map[a := [x, x, x], b := [], c := []];
    CountThrice(x);
    assert lists.Keys == {a, b, c} && |lists| == |lists.Keys| == 3;
    TotalPick(lists, {a, b, c}, x, a);
    assert {a, b, c} - {a} == {b, c};
    TotalPick(lists, {b, c}, x, b);
    assert {b, c} - {b} == {c};
    TotalPick(lists, {c}, x, c);
    assert {c} - {c} == {};
    assert x !in lists[b];
  }

  // ---- The judge ----

  /** What counting the judge's list and the agreed list together lets through. */
  function Accepted<S(==)>(judge: seq<S>, agreed: seq<S>): set<S> {
    set x | x in judge && Count(judge, x) == if x in agreed then 1 else 2
  }

  function Elements<S(==)>(s: seq<S>): set<S> {
    set x | x in s
  }

  lemma {:induction false} FirstOccurrencesAppend<S>(a: seq<S>, b: seq<S>)
    requires NoRepeat(b)
    ensures FirstOccurrences(a + b) == FirstOccurrences(a) + Kept(b, Elements(b) - Elements(a))
    decreases |b|
  {
    if b == [] {
      assert a + b == a;
    } else {
      var n := |b| - 1;
      var s := a + b;
      assert s[..|s| - 1] == a + b[..n];
      FirstOccurrencesAppend(a, b[..n]);
      assert b[n] !in b[..n];
      assert b[n] in s[..|s| - 1] <==> b[n] in a;
      KeptSame(b[..n], Elements(b[..n]) - Elements(a), Elements(b) - Elements(a));
    }
  }

  lemma {:induction false} KeptSame<S>(s: seq<S>, keep: set<S>, same: set<S>)
    requires forall x :: x in s ==> (x in keep <==> x in same)
    ensures Kept(s, keep) == Kept(s, same)
  {
    if s == [] {
    } else {
      KeptSame(s[..|s| - 1], keep, same);
    }
  }

  lemma {:induction false} KeptNone<S>(s: seq<S>, keep: set<S>)
    requires forall x :: x in s ==> x !in keep
    ensures Kept(s, keep) == []
  {
    if s == [] {
    } else {
      KeptNone(s[..|s| - 1], keep);
    }
  }

  lemma {:induction false} KeptAppend<S>(a: seq<S>, b: seq<S>, keep: set<S>)
    ensures Kept(a + b, keep) == Kept(a, keep) + Kept(b, keep)
    decreases |b|
  {
    if b == [] {
      assert a + b == a;
    } else {
      assert (a + b)[..|a + b| - 1] == a + b[..|b| - 1];
      KeptAppend(a, b[..|b| - 1], keep);
    }
  }

  /** Counting to two over both lists keeps judge items only, in the judge's order. */
  lemma {:induction false} PairsComeFromJudge<S(!new)>(judge: seq<S>, agreed: seq<S>, keep: set<S>)
    requires NoRepeat(agreed)
    requires forall x :: x in keep <==> x in judge + agreed && Count(judge + agreed, x) == 2
    ensures Kept(FirstOccurrences(judge + agreed), keep)
         == Kept(FirstOccurrences(judge), Accepted(judge, agreed))
  {
    forall x
      ensures x in judge ==> (x in keep <==> x in Accepted(judge, agreed))
      ensures x !in judge ==> x !in keep
    {
      CountAppend(judge, agreed, x);
      CountOnce(agreed, x);
      CountPositive(judge, x);
    }
    var later := Kept(agreed, Elements(agreed) - Elements(judge));
    FirstOccurrencesAppend(judge, agreed);
    KeptAppend(FirstOccurrences(judge), later, keep);
    forall x | x in later ensures x !in keep {
      KeptMember(agreed, Elements(agreed) - Elements(judge), x);
    }
    KeptNone(later, keep);
    FirstOccurrencesOnce(judge);
    KeptSame(FirstOccurrences(judge), keep, Accepted(judge, agreed));
  }

  /**
   * The end of `get_signatures_for_address`: the judge's first signature, then what counting the rest of
   * the judge's list together with the endpoints' answer finds exactly twice.
   */
  method Judged<S(==, !new)>(judge: seq<S>, answer: Outcome<seq<S>>) returns (r: Outcome<seq<S>>)
    requires answer.Ok? ==> NoRepeat(answer.value)
    ensures judge == [] ==> r == Ok([])
    ensures judge != [] && !answer.Ok? ==> r == answer
    ensures judge != [] && answer.Ok? ==>
      r == Ok([judge[0]] + Kept(FirstOccurrences(judge[1..]), Accepted(judge[1..], answer.value)))
  {
    if judge == [] {
      return Ok([]);
    }
    if !answer.Ok? {
      return answer;
    }
    var rest := judge[1..];
    var tally := TallyOnto(IndexMap([], map[]), [], rest);
    assert [] + rest == rest;
    tally := TallyOnto(tally, rest, answer.value);
    var both := set x | x in tally.counts && tally.counts[x] == 2;
    PairsComeFromJudge(rest, answer.value, both);
    r := Ok([judge[0]] + Kept(tally.keys, both));
  }

  /** Every item of the judge's rest that the endpoints agree on occurs once; no other occurs exactly twice. */
  predicate FairJudge<S(==)>(judge: seq<S>, agreed: seq<S>) {
    forall x :: x in judge ==> if x in agreed then Count(judge, x) == 1 else Count(judge, x) != 2
  }

  lemma {:induction false} KeptOfOnce<S>(s: seq<S>, keep: set<S>)
    requires forall x :: x in keep ==> Count(s, x) <= 1
    ensures Kept(FirstOccurrences(s), keep) == Kept(s, keep)
  {
    if s == [] {
    } else {
      var n := |s| - 1;
      forall x | x in keep ensures Count(s[..n], x) <= 1 {
        assert Count(s, x) >= Count(s[..n], x);
      }
      KeptOfOnce(s[..n], keep);
      CountPositive(s[..n], s[n]);
      if s[n] !in s[..n] {
        assert FirstOccurrences(s)[..|FirstOccurrences(s)| - 1] == FirstOccurrences(s[..n]);
      } else {
        assert FirstOccurrences(s) == FirstOccurrences(s[..n]);
        assert Count(s, s[n]) >= 2;
      }
    }
  }

  /** The count to two is the intersection, in the judge's order, exactly for a fair judge list. */
  lemma {:induction false} JudgedIsIntersection<S(!new)>(judge: seq<S>, agreed: seq<S>)
    ensures Kept(FirstOccurrences(judge), Accepted(judge, agreed)) == Kept(judge, Elements(agreed))
       <==> FairJudge(judge, agreed)
  {
    var kept := Kept(FirstOccurrences(judge), Accepted(judge, agreed));
    FirstOccurrencesOnce(judge);
    if kept == Kept(judge, Elements(agreed)) {
      forall x | x in judge ensures if x in agreed then Count(judge, x) == 1 else Count(judge, x) != 2 {
        KeptMember(FirstOccurrences(judge), Accepted(judge, agreed), x);
        KeptMember(judge, Elements(agreed), x);
      }
    }
    if FairJudge(judge, agreed) {
      KeptOfOnce(judge, Accepted(judge, agreed));
      KeptSame(judge, Accepted(judge, agreed), Elements(agreed));
    }
  }

  /** A signature the judge alone repeats is passed on, although no endpoint reported it. */
  lemma {:induction false} RepeatByJudgePasses()
    ensures var judge := [7, 7]; Kept(FirstOccurrences(judge), Accepted(judge, [])) == [7] && !FairJudge(judge, [])
  {
    var judge := [7, 7];
    assert judge[..1] == [7];
    assert Count(judge[..1], 7) == 1;
    assert Count(judge, 7) == 2;
    assert FirstOccurrences(judge) == FirstOccurrences([7]) == [7];
    assert 7 in Accepted(judge, []);
  }

  lemma {:induction false} KeptCount<S>(s: seq<S>, keep: set<S>, x: S)
    ensures Count(Kept(s, keep), x) == if x in keep then Count(s, x) else 0
  {
    if s == [] {
    } else {
      var n := |s| - 1;
      KeptCount(s[..n], keep, x);
      CountAppend(Kept(s[..n], keep), if s[n] in keep then [s[n]] else [], x);
      assert [s[n]][..0] == [];
    }
  }

  function Agreeing<S(==)>(judge: seq<S>, lists: map<Url, seq<S>>): set<S> {
    set x | x in judge && InEvery(lists, x)
  }

  /** What the two counts do to an item of the judge's rest is right for it. */
  ghost predicate FairlyJudged<S(!new)>(judge: seq<S>, lists: map<Url, seq<S>>, x: S) {
    if InEvery(lists, x) then Count(judge, x) == 1 && OncePerList(lists, lists.Keys, x)
    else Count(judge, x) != if FullCount(lists, x) then 1 else 2
  }

  ghost predicate FairRequest<S(!new)>(judge: seq<S>, lists: map<Url, seq<S>>) {
    forall x :: x in judge ==> FairlyJudged(judge, lists, x)
  }

  lemma {:induction false} ItemIsFair<S(!new)>(judge: seq<S>, lists: map<Url, seq<S>>, agreed: seq<S>, x: S)
    requires Intersects(lists, agreed) && x in judge
    ensures FairlyJudged(judge, lists, x) <==>
      if InEvery(lists, x) then x in Accepted(judge, agreed) && Count(judge, x) == 1
      else x !in Accepted(judge, agreed)
  {
    FullCountIsInEvery(lists, x);
  }

  /**
   For all lists, the answer is the intersection of the judge's rest with every endpoint's list, in the
   judge's order, exactly when each item is fairly judged.
   */
  lemma {:induction false} AnswerIsIntersection<S(!new)>(judge: seq<S>, lists: map<Url, seq<S>>, agreed: seq<S>)
    requires Intersects(lists, agreed)
    ensures Kept(FirstOccurrences(judge), Accepted(judge, agreed)) == Kept(judge, Agreeing(judge, lists))
       <==> FairRequest(judge, lists)
  {
    var accepted, wanted := Accepted(judge, agreed), Agreeing(judge, lists);
    var kept := Kept(FirstOccurrences(judge), accepted);
    FirstOccurrencesOnce(judge);
    KeptNoRepeat(FirstOccurrences(judge), accepted);
    if kept == Kept(judge, wanted) {
      forall x | x in judge ensures FairlyJudged(judge, lists, x) {
        ItemIsFair(judge, lists, agreed, x);
        KeptMember(FirstOccurrences(judge), accepted, x);
        KeptMember(judge, wanted, x);
        KeptCount(judge, wanted, x);
        CountOnce(kept, x);
      }
    }
    if FairRequest(judge, lists) {
      forall x | x in judge ensures x in accepted <==> x in wanted
                            ensures x in accepted ==> Count(judge, x) <= 1 {
        assert FairlyJudged(judge, lists, x);
        ItemIsFair(judge, lists, agreed, x);
      }
      KeptOfOnce(judge, accepted);
      KeptSame(judge, accepted, wanted);
    }
  }

  /** So, with a judge that lists the item once, an item only one endpoint reported is answered. */
  lemma {:induction false} OneEndpointIsAnswered(a: Url, b: Url, c: Url, x: int, agreed: seq<int>)
    requires a != b && b != c && a != c
    requires Intersects(map[a := [x, x, x], b := [], c := []], agreed)
    ensures Kept(FirstOccurrences([x]), Accepted([x], agreed)) == [x]
    ensures !FairRequest([x], map[a := [x, x, x], b := [], c := []])
  {
    OneEndpointPassesAlone(a, b, c, x);
    var one := [x];
    assert one[..0] == [];
    assert Count(one, x) == 1;
    assert FirstOccurrences(one) == FirstOccurrences(one[..0]) + [x] == [x];
    assert FullCount(map[a := [x, x, x], b := [], c := []], x);
    assert x in Accepted([x], agreed);
    assert !FairlyJudged([x], map[a := [x, x, x], b := [], c := []], x);
  }

  /** Requests without repeats are fair. */
  lemma {:induction false} NoRepeatIsFair<S(!new)>(judge: seq<S>, lists: map<Url, seq<S>>)
    requires NoRepeat(judge) && NoneRepeats(lists)
    ensures FairRequest(judge, lists)
  {
    forall x | x in judge ensures FairlyJudged(judge, lists, x) {
      CountOnce(judge, x);
      NoneRepeatsIsFair(lists, x);
    }
  }

  /**
   The whole request, once every endpoint has answered: the judge's first signature, followed by exactly
   those of its later ones that are in every endpoint's list, if and only if the request is fair.
   */
  method SignaturesForAddress<S(==, !new)>(judge: seq<S>, lists: map<Url, seq<S>>)
    returns (r: Outcome<seq<S>>)
    ensures judge == [] ==> r == Ok([])
    ensures judge != [] ==> r.Ok? && |r.value| > 0 && r.value[0] == judge[0]
    ensures judge != [] ==>
      (r == Ok(RightAnswer(judge, lists)) <==> FairRequest(judge[1..], lists))
  {
    var agreed := Intersect(lists);
    r := Judged(judge, Ok(agreed));
    if judge != [] {
      AnswerIsIntersection(judge[1..], lists, agreed);
      assert r.value[1..] == Kept(FirstOccurrences(judge[1..]), Accepted(judge[1..], agreed));
      assert RightAnswer(judge, lists)[1..] == Kept(judge[1..], Agreeing(judge[1..], lists));
    }
  }

  /** The judge's first item and those of its later ones that are in every list. */
  function RightAnswer<S(==)>(judge: seq<S>, lists: map<Url, seq<S>>): seq<S>
    requires judge != []
  {
    [judge[0]] + Kept(judge[1..], Agreeing(judge[1..], lists))
  }
}
