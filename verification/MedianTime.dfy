/** Median time past (BIP 113) over the chain's timestamps. */
module MedianTime {
  import opened Wrappers
  import opened Chain

  const MTP_SPAN := 11

  function CountBelow(s: seq<nat>, v: nat): nat {
    if s == [] then 0 else (if s[0] < v then 1 else 0) + CountBelow(s[1..], v)
  }

  function CountUpTo(s: seq<nat>, v: nat): nat {
    CountBelow(s, v + 1)
  }

  /** `v` is the element of rank `k`: it occurs, fewer elements are smaller, and more are not larger. */
  predicate HasRank(s: seq<nat>, k: nat, v: nat) {
    v in s && CountBelow(s, v) <= k < CountUpTo(s, v)
  }

  predicate SortedTimes(s: seq<nat>) {
    forall i, j :: 0 <= i < j < |s| ==> s[i] <= s[j]
  }

  /** Eleven timestamps, or all of them near the start, the one at `height` last. */
  predicate IsWindow(w: seq<nat>, times: seq<nat>, height: nat)
    requires height < |times|
  {
    && |w| == (if height < 11 then height + 1 else 11)
    && forall i :: 0 <= i < |w| ==> w[i] == times[height + 1 - |w| + i]
  }

  /** The last `min(11, height + 1)` timestamps up to `height`. */
  function Window(times: seq<nat>, height: nat): (w: seq<nat>)
    requires height < |times|
    ensures |w| == if height < 11 then height + 1 else 11
  {
    times[(if height < MTP_SPAN - 1 then 0 else height - (MTP_SPAN - 1))..height + 1]
  }

  lemma {:induction false} WindowIsLast(times: seq<nat>, height: nat)
    requires height < |times|
    ensures IsWindow(Window(times, height), times, height)
  {
  }

  function Times(headers: seq<HeaderEntry>): (ts: seq<nat>)
    ensures |ts| == |headers|
    ensures forall i :: 0 <= i < |ts| ==> ts[i] == headers[i].header.time
  {
    if headers == [] then [] else Times(headers[..|headers| - 1]) + [headers[|headers| - 1].header.time]
  }

  function InsertTime(t: nat, s: seq<nat>): seq<nat> {
    if s == [] || t <= s[0] then [t] + s else [s[0]] + InsertTime(t, s[1..])
  }

  /** `sort_unstable` on the local buffer; `SortIsPermutation` is its contract. */
  function SortTimes(s: seq<nat>): (r: seq<nat>)
    ensures |r| == |s|
  {
    if s == [] then []
    else
      InsertLength(s[0], SortTimes(s[1..]));
      InsertTime(s[0], SortTimes(s[1..]))
  }

  lemma {:induction false} InsertLength(t: nat, s: seq<nat>)
    ensures |InsertTime(t, s)| == |s| + 1
  {
    if s != [] && s[0] < t {
      InsertLength(t, s[1..]);
    }
  }

  lemma {:induction false} InsertKeeps(t: nat, s: seq<nat>, v: nat)
    requires SortedTimes(s)
    ensures SortedTimes(InsertTime(t, s))
    ensures forall x :: x in InsertTime(t, s) <==> x == t || x in s
    ensures CountBelow(InsertTime(t, s), v) == CountBelow([t], v) + CountBelow(s, v)
  {
    if s == [] || t <= s[0] {
      assert ([t] + s)[1..] == s;
    } else {
      InsertKeeps(t, s[1..], v);
      var rest := InsertTime(t, s[1..]);
      assert forall x :: x in s <==> x == s[0] || x in s[1..];
      assert ([s[0]] + rest)[1..] == rest;
    }
  }

  /** Counting along the sequence counts its smaller elements. */
  lemma {:induction false} CountIsSize(s: seq<nat>, v: nat)
    ensures CountBelow(s, v) == |set i | 0 <= i < |s| && s[i] < v|
  {
    if s == [] {
    } else {
      var n := |s| - 1;
      CountIsSize(s[..n], v);
      CountSplit(s, n, v);
      var some := set i | 0 <= i < n && s[..n][i] < v;
      assert (set i | 0 <= i < |s| && s[i] < v) == some + if s[n] < v then {n} else {};
      assert s[n..] == [s[n]] && CountBelow([s[n]], v) == if s[n] < v then 1 else 0;
    }
  }

  /** Sorting keeps, for every bound, the number of elements below it. */
  lemma {:induction false} SortIsPermutation(s: seq<nat>, v: nat)
    ensures SortedTimes(SortTimes(s)) && CountBelow(SortTimes(s), v) == CountBelow(s, v)
  {
    if s == [] {
    } else {
      SortIsPermutation(s[1..], v);
      InsertKeeps(s[0], SortTimes(s[1..]), v);
    }
  }

  /** `get_mtp`; `None` where the program panics on an empty list. */
  method GetMtp(headers: seq<HeaderEntry>, height: nat) returns (r: Option<nat>)
    ensures r.None? <==> headers == []
    ensures headers != [] && height >= |headers| ==> r == Some(0)
    ensures height < |headers| ==>
      var w := Window(Times(headers), height);
      IsWindow(w, Times(headers), height) && r.Some? && HasRank(w, |w| / 2, r.value)
  {
    if headers == [] {
      return None;
    }
    if height < |headers| {
      WindowIsLast(Times(headers), height);
    }
    if height == 0 {
      var w := Window(Times(headers), 0);
      assert w == [headers[0].header.time];
      return Some(headers[0].header.time);
    }
    if height > |headers| - 1 {
      return Some(0);
    }
    var timestamps := Collect(headers, height);
    var sorted := SortTimes(timestamps);
    RankOfSorted(timestamps, sorted, |sorted| / 2);
    return Some(sorted[|sorted| / 2]);
  }

  method Collect(headers: seq<HeaderEntry>, height: nat) returns (timestamps: seq<nat>)
    requires height < |headers|
    ensures timestamps == Window(Times(headers), height)
  {
    var i := if height < MTP_SPAN - 1 then 0 else height - (MTP_SPAN - 1);
    ghost var start, times := i, Times(headers);
    timestamps := [];
    while i <= height
      invariant start <= i <= height + 1 && timestamps == times[start..i]
    {
      timestamps := timestamps + [headers[i].header.time];
      i := i + 1;
    }
  }

  lemma {:induction false} CountAppend(a: seq<nat>, b: seq<nat>, v: nat)
    ensures CountBelow(a + b, v) == CountBelow(a, v) + CountBelow(b, v)
  {
    if a == [] {
      assert a + b == b;
    } else {
      CountAppend(a[1..], b, v);
      assert (a + b)[1..] == a[1..] + b;
    }
  }

  lemma {:induction false} CountSplit(s: seq<nat>, k: nat, v: nat)
    requires k <= |s|
    ensures CountBelow(s, v) == CountBelow(s[..k], v) + CountBelow(s[k..], v)
  {
    assert s == s[..k] + s[k..];
    CountAppend(s[..k], s[k..], v);
  }

  lemma {:induction false} CountBounds(s: seq<nat>, v: nat)
    ensures CountBelow(s, v) <= |s|
    ensures (forall i :: 0 <= i < |s| ==> s[i] < v) ==> CountBelow(s, v) == |s|
    ensures (forall i :: 0 <= i < |s| ==> s[i] >= v) ==> CountBelow(s, v) == 0
  {
    if s == [] {
    } else {
      CountBounds(s[1..], v);
    }
  }

  lemma {:induction false} SortedCountBelow(s: seq<nat>, k: nat)
    requires SortedTimes(s) && k < |s|
    ensures CountBelow(s, s[k]) <= k
  {
    CountSplit(s, k, s[k]);
    CountBounds(s[..k], s[k]);
    CountBounds(s[k..], s[k]);
  }

  lemma {:induction false} SortedCountUpTo(s: seq<nat>, k: nat)
    requires SortedTimes(s) && k < |s|
    ensures CountUpTo(s, s[k]) > k
  {
    CountSplit(s, k + 1, s[k] + 1);
    CountBounds(s[..k + 1], s[k] + 1);
  }

  lemma {:induction false} CountOccurs(s: seq<nat>, v: nat)
    ensures CountBelow(s, v) <= CountUpTo(s, v)
    ensures CountBelow(s, v) < CountUpTo(s, v) ==> v in s
  {
    if s == [] {
    } else {
      CountOccurs(s[1..], v);
    }
  }

  /** After sorting, the element at index `k` is the element of rank `k`. */
  lemma {:induction false} RankOfSorted(w: seq<nat>, s: seq<nat>, k: nat)
    requires s == SortTimes(w) && k < |s|
    ensures HasRank(w, k, s[k])
  {
    var v := s[k];
    SortIsPermutation(w, v);
    SortIsPermutation(w, v + 1);
    RankCarriesOver(s, w, k);
  }

  lemma {:induction false} RankCarriesOver(s: seq<nat>, w: seq<nat>, k: nat)
    requires SortedTimes(s) && k < |s|
    requires CountBelow(s, s[k]) == CountBelow(w, s[k]) && CountUpTo(s, s[k]) == CountUpTo(w, s[k])
    ensures HasRank(w, k, s[k])
  {
    SortedCountBelow(s, k);
    SortedCountUpTo(s, k);
    CountOccurs(w, s[k]);
  }

  lemma {:induction false} CountMonotone(s: seq<nat>, u: nat, v: nat)
    requires u <= v
    ensures CountBelow(s, u) <= CountBelow(s, v)
  {
    if s == [] {
    } else {
      CountMonotone(s[1..], u, v);
    }
  }

  /** The rank condition pins the value. */
  lemma {:induction false} RankIsUnique(s: seq<nat>, k: nat, u: nat, v: nat)
    requires HasRank(s, k, u) && HasRank(s, k, v)
    ensures u == v
  {
    if u < v {
      CountMonotone(s, u + 1, v);
    } else if v < u {
      CountMonotone(s, v + 1, u);
    }
  }

  ghost predicate IsMtp(times: seq<nat>, height: nat, v: nat)
    requires height < |times|
  {
    HasRank(Window(times, height), |Window(times, height)| / 2, v)
  }

  lemma {:induction false} WindowSlides(times: seq<nat>, h: nat)
    requires h + 1 < |times|
    ensures var w := Window(times, h);
            Window(times, h + 1) == (if h < 10 then w else w[1..]) + [times[h + 1]]
  {
  }

  /** A block later than its predecessor's median never has a smaller median. */
  lemma {:induction false} MtpStep(times: seq<nat>, h: nat, m: nat, next: nat)
    requires h + 1 < |times| && IsMtp(times, h, m) && IsMtp(times, h + 1, next)
    requires times[h + 1] > m
    ensures m <= next
  {
    var w, w' := Window(times, h), Window(times, h + 1);
    var t := times[h + 1];
    assert CountBelow([t], m) == 0;
    if next < m {
      CountMonotone(w', next + 1, m);
      WindowSlides(times, h);
      CountAppend(if h < 10 then w else w[1..], [t], m);
    }
  }

  /** If every header's time exceeds its predecessor's median, the median never decreases with height. */
  lemma {:induction false} MtpNeverDecreases(times: seq<nat>, mtp: seq<nat>, i: nat, j: nat)
    requires |mtp| == |times| && forall h :: 0 <= h < |times| ==> IsMtp(times, h, mtp[h])
    requires forall h :: 0 <= h < |times| - 1 ==> times[h + 1] > mtp[h]
    requires i <= j < |times|
    ensures mtp[i] <= mtp[j]
  {
    if i == j {
    } else {
      MtpNeverDecreases(times, mtp, i, j - 1);
      MtpStep(times, j - 1, mtp[j - 1], mtp[j]);
    }
  }
}
