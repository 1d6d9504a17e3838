/** Plurality voting among the extra endpoints, and the check against the judge. */
module Votes {
  import opened Wrappers
  import opened Sets

  type Url = string

  datatype Vote<V> = Vote(value: V, from: Url)

  function VotesFor<V(==)>(votes: set<Vote<V>>, v: V): set<Vote<V>> {
    set x | x in votes && x.value == v
  }

  /** `v` was voted for, and every other value has strictly fewer votes. */
  predicate Leads<V(==)>(votes: set<Vote<V>>, v: V) {
    && (exists x :: x in votes && x.value == v)
    && (forall x :: x in votes && x.value != v ==> |VotesFor(votes, x.value)| < |VotesFor(votes, v)|)
  }

  ghost predicate Counted<V(!new)>(counts: map<V, nat>, votes: set<Vote<V>>) {
    && (forall x :: x in votes ==> x.value in counts)
    && (forall v :: v in counts ==> counts[v] == |VotesFor(votes, v)| && exists x :: x in votes && x.value == v)
  }

  lemma {:induction false} VotesForOneMore<V>(votes: set<Vote<V>>, x: Vote<V>, v: V)
    requires x !in votes
    ensures |VotesFor(votes + {x}, v)| == |VotesFor(votes, v)| + if v == x.value then 1 else 0
  {
    var more := VotesFor(votes, v) + if v == x.value then {x} else {};
    assert VotesFor(votes + {x}, v) == more;
    assert x !in VotesFor(votes, v);
  }

  lemma {:induction false} CountOne<V(!new)>(counts: map<V, nat>, votes: set<Vote<V>>, x: Vote<V>)
    requires Counted(counts, votes) && x !in votes
    ensures Counted(counts[x.value := (if x.value in counts then counts[x.value] else 0) + 1], votes + {x})
  {
    var after := counts[x.value := (if x.value in counts then counts[x.value] else 0) + 1];
    assert x.value !in counts ==> VotesFor(votes, x.value) == {};
    forall v | v in after
      ensures after[v] == |VotesFor(votes + {x}, v)| && exists y :: y in votes + {x} && y.value == v
    {
      VotesForOneMore(votes, x, v);
      if v == x.value {
        assert x in votes + {x};
      } else {
        var y :| y in votes && y.value == v;
        assert y in votes + {x};
      }
    }
  }

  /** `counts.values().max().unwrap_or(0)` */
  method MaxCount<V(==)>(counts: map<V, nat>) returns (max: nat)
    ensures forall v :: v in counts ==> counts[v] <= max
    ensures counts != map[] ==> exists v :: v in counts && counts[v] == max
    ensures counts == map[] ==> max == 0
  {
    max := 0;
    var pending := counts.Keys;
    while pending != {}
      invariant pending <= counts.Keys
      invariant forall v :: v in counts && v !in pending ==> counts[v] <= max
      invariant pending == counts.Keys ==> max == 0
      invariant pending != counts.Keys ==> exists v :: v in counts && counts[v] == max
    {
      var v :| v in pending;
      if counts[v] >= max {
        max := counts[v];
      }
      pending := pending - {v};
    }
  }

  /** The right answer for these votes: the leader if there is one, else an error. */
  ghost predicate Pluralities<V(!new)>(votes: set<Vote<V>>, r: Outcome<V>) {
    match r
    case Ok(v) => Leads(votes, v)
    case Err => forall v :: !Leads(votes, v)
    case Panic => false
  }

  /** The counting of `deal_get_slot_res` and its siblings, in whatever order the sets are walked. */
  method Plurality<V(==, !new)>(votes: set<Vote<V>>) returns (r: Outcome<V>)
    ensures Pluralities(votes, r)
  {
    var counts: map<V, nat> := map[];
    var pending := votes;
    while pending != {}
      invariant pending <= votes
      invariant Counted(counts, votes - pending)
    {
      var x :| x in pending;
      CountOne(counts, votes - pending, x);
      assert votes - (pending - {x}) == votes - pending + {x};
      counts := counts[x.value := (if x.value in counts then counts[x.value] else 0) + 1];
      pending := pending - {x};
    }
    assert votes - pending == votes;
    var max := MaxCount(counts);
    var winners := set v | v in counts && counts[v] == max;
    if |winners| > 1 {
      TieHasNoLeader(votes, counts, winners, max);
      return Err;
    }
    if counts == map[] {
      return Err;
    }
    var best :| best in counts && counts[best] == max;
    OnlyWinnerLeads(votes, counts, winners, max, best);
    return Ok(best);
  }

  lemma {:induction false} TieHasNoLeader<V(!new)>(votes: set<Vote<V>>, counts: map<V, nat>, winners: set<V>, max: nat)
    requires Counted(counts, votes) && winners == (set v | v in counts && counts[v] == max)
    requires |winners| > 1 && forall v :: v in counts ==> counts[v] <= max
    ensures forall v :: !Leads(votes, v)
  {
    forall v ensures !Leads(votes, v) {
      var w :| w in winners;
      if w == v {
        assert winners != {v};
        w :| w in winners && w != v;
      }
      var x :| x in votes && x.value == w;
      assert |VotesFor(votes, x.value)| == max;
      if exists y :: y in votes && y.value == v {
        assert counts[v] == |VotesFor(votes, v)|;
      }
    }
  }

  lemma {:induction false} OnlyWinnerLeads<V(!new)>(votes: set<Vote<V>>, counts: map<V, nat>, winners: set<V>, max: nat, best: V)
    requires Counted(counts, votes) && winners == (set v | v in counts && counts[v] == max)
    requires |winners| <= 1 && (forall v :: v in counts ==> counts[v] <= max)
    requires best in counts && counts[best] == max
    ensures Leads(votes, best)
  {
    forall x | x in votes && x.value != best ensures |VotesFor(votes, x.value)| < max {
      if counts[x.value] == max {
        assert {best, x.value} <= winners;
        SubsetSize({best, x.value}, winners);
      }
    }
  }

  /** There is at most one leader, so the answer does not depend on any iteration order. */
  lemma {:induction false} LeaderIsUnique<V>(votes: set<Vote<V>>, v: V, w: V)
    requires Leads(votes, v) && Leads(votes, w)
    ensures v == w
  {
    var x :| x in votes && x.value == v;
    var y :| y in votes && y.value == w;
    assert w != v ==> |VotesFor(votes, y.value)| < |VotesFor(votes, v)|;
    assert w != v ==> |VotesFor(votes, x.value)| < |VotesFor(votes, w)|;
  }

  /** A value with more than half of the votes leads. */
  lemma {:induction false} MajorityLeads<V>(votes: set<Vote<V>>, v: V)
    requires 2 * |VotesFor(votes, v)| > |votes|
    ensures Leads(votes, v)
  {
    assert VotesFor(votes, v) != {};
    var y :| y in VotesFor(votes, v);
    forall x | x in votes && x.value != v ensures |VotesFor(votes, x.value)| < |VotesFor(votes, v)| {
      var both := VotesFor(votes, v) + VotesFor(votes, x.value);
      assert VotesFor(votes, v) !! VotesFor(votes, x.value);
      SubsetSize(both, votes);
    }
  }

  /** The end of `get_transaction` and `get_account_info`. */
  function JudgedEqual<V(==)>(answer: Outcome<V>, judge: V): Outcome<V> {
    if answer.Ok? && answer.value != judge then Err else answer
  }

  /** The end of `get_slot`: the judge's slot, unless it runs ahead of the plurality. */
  function JudgedSlot(answer: Outcome<nat>, judge: nat): Outcome<nat> {
    if answer.Ok? then (if judge <= answer.value then Ok(judge) else Err) else answer
  }

  /** A request is answered only with the leader, and only if the judge says the same; every error stays one. */
  lemma {:induction false} JudgedEqualExactly<V(!new)>(votes: set<Vote<V>>, r: Outcome<V>, judge: V, x: V)
    requires Pluralities(votes, r)
    ensures JudgedEqual(r, judge) == Ok(x) <==> Leads(votes, x) && x == judge
    ensures !JudgedEqual(r, judge).Ok? ==> JudgedEqual(r, judge) == Err
  {
    if r.Ok? && Leads(votes, x) {
      LeaderIsUnique(votes, r.value, x);
    }
  }

  /** A slot is answered only with the judge's, and only if some slot leads that is not behind it. */
  lemma {:induction false} JudgedSlotExactly(votes: set<Vote<nat>>, r: Outcome<nat>, judge: nat, x: nat)
    requires Pluralities(votes, r)
    ensures JudgedSlot(r, judge) == Ok(x) <==> x == judge && exists v :: Leads(votes, v) && judge <= v
    ensures !JudgedSlot(r, judge).Ok? ==> JudgedSlot(r, judge) == Err
  {
    if v :| Leads(votes, v) {
      if r.Ok? {
        LeaderIsUnique(votes, r.value, v);
      }
    }
  }
}
