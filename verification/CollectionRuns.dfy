/**
 * What the machine of `Dispatch` answers over whole runs: what its dispatcher collects for a task is what
 * the workers sent for it, in order, and its answers are those of the collection loop on these messages.
 */
module CollectionRuns {
  import opened Wrappers
  import opened Votes
  import opened Dispatch

  /** For the task being collected: all messages sent for it, and for each one collected whether it came late. */
  datatype Collection<V(==)> = Collection(sent: seq<Message<V>>, late: seq<bool>)
  {
    predicate Valid() {
      |late| <= |sent|
    }

    /** The messages collected so far. */
    function Taken(): seq<Message<V>>
      requires Valid()
    {
      sent[..|late|]
    }
  }

  /** The message an event sends for the open task. */
  function SentBy<V(==)>(s: State<V>, e: Event<V>): seq<Message<V>>
    requires Enabled(s, e)
  {
    match e
    case Reports(u, v) => if Collecting(s, s.workers[u].task.value) then [Message(Some(v), u)] else []
    case GivesUp(u) => if Collecting(s, s.workers[u].task.value) then [Message(None, u)] else []
    case _ => []
  }

  function Recorded<V(==)>(c: Collection<V>, s: State<V>, e: Event<V>): Collection<V>
    requires Enabled(s, e)
  {
    match e
    case Begin => Collection([], [])
    case Collect(late) => Collection(c.sent, c.late + [late])
    case _ => Collection(c.sent + SentBy(s, e), c.late)
  }

  /** The record of the first `k` events of a run. */
  function Collected<V(==)>(urls: set<Url>, run: seq<State<V>>, events: seq<Event<V>>, k: nat): Collection<V>
    requires IsRun(urls, run, events) && k <= |events|
  {
    if k == 0 then Collection([], [])
    else
      assert StepAt(run, events, k - 1);
      Recorded(Collected(urls, run, events, k - 1), run[k - 1], events[k - 1])
  }

  /** The loop keeps going after each of the first `k` messages. */
  predicate GoesThrough<V(==)>(n: nat, messages: seq<Message<V>>, late: seq<bool>, k: nat)
    requires k <= |messages| == |late|
  {
    forall i :: 0 <= i < k ==> GoesOn(n, messages, late, i)
  }

  /** The state of the collection is the one the loop is in after the messages collected so far. */
  predicate InLoop<V(==)>(s: State<V>, c: Collection<V>) {
    s.current.Some? ==>
      && c.Valid()
      && s.channel == c.sent[|c.late|..]
      && s.votes == VotesIn(c.Taken(), |c.late|)
      && GoesThrough(|s.workers|, c.Taken(), c.late, |c.late|)
  }

  /** The collection goes on after message `k`, or it ends with one response for the task, as the loop does. */
  predicate Dealt<V(==)>(n: nat, messages: seq<Message<V>>, late: seq<bool>, k: nat, s: State<V>, after: State<V>)
    requires k < |messages| == |late| && s.current.Some?
  {
    if GoesOn(n, messages, late, k) then
      after.current == s.current && after.log == s.log
    else
      && after.current.None? && |after.log| == |s.log| + 1 && after.log[..|s.log|] == s.log
      && after.log[|s.log|].task == s.current.value
      && EndsWith(n, messages, late, k, after.log[|s.log|].response)
  }

  /** If the collection goes on, the first message has left the channel and its vote is counted. */
  predicate TakesFirst<V(==)>(s: State<V>, after: State<V>, taken: seq<Message<V>>)
    requires s.channel != []
  {
    && after.workers == s.workers
    && (after.current.Some? ==>
          after.channel == s.channel[1..] && after.votes == VotesIn(taken + [s.channel[0]], |taken| + 1))
  }

  lemma {:induction false} VotesInPrefix<V>(a: seq<Message<V>>, b: seq<Message<V>>, k: nat)
    requires k <= |a| && k <= |b| && a[..k] == b[..k]
    ensures VotesIn(a, k) == VotesIn(b, k)
  {
    if k == 0 {
    } else {
      assert a[..k - 1] == a[..k][..k - 1] && b[..k - 1] == b[..k][..k - 1];
      assert a[k - 1] == a[..k][k - 1] && b[k - 1] == b[..k][k - 1];
      VotesInPrefix(a, b, k - 1);
    }
  }

  lemma {:induction false} VotesInMore<V>(taken: seq<Message<V>>, m: Message<V>)
    ensures VotesIn(taken + [m], |taken| + 1) ==
            VotesIn(taken, |taken|) + if m.result.Some? then {Vote(m.result.value, m.from)} else {}
  {
    assert (taken + [m])[..|taken|] == taken[..|taken|];
    VotesInPrefix(taken + [m], taken, |taken|);
  }

  lemma {:induction false} GoesThroughPrefix<V>(n: nat, a: seq<Message<V>>, late: seq<bool>, m: Message<V>, l: bool)
    requires |a| == |late| && GoesThrough(n, a, late, |a|)
    ensures GoesThrough(n, a + [m], late + [l], |a|)
  {
    forall i | 0 <= i < |a| ensures GoesOn(n, a + [m], late + [l], i) {
      assert GoesOn(n, a, late, i);
      assert (a + [m])[..i + 1] == a[..i + 1];
      VotesInPrefix(a + [m], a, i + 1);
    }
  }

  /** The dispatcher's turn is the loop's turn at the message after those taken. */
  lemma {:induction false} TurnIsLoops<V>(n: nat, taken: seq<Message<V>>, late: seq<bool>, m: Message<V>, now: bool)
    requires |taken| == |late|
    ensures Turn(n, VotesIn(taken, |taken|), m, now).1.None? <==> GoesOn(n, taken + [m], late + [now], |taken|)
    ensures
      var (votes, response) := Turn(n, VotesIn(taken, |taken|), m, now);
      && (response.None? ==> votes == VotesIn(taken + [m], |taken| + 1))
      && (response.Some? ==> EndsWith(n, taken + [m], late + [now], |taken|, response.value))
  {
    VotesInMore(taken, m);
  }

  /** One step of collecting is one turn of the loop over the messages collected and the one taken now. */
  lemma {:induction false} CollectDeals<V>(s: State<V>, taken: seq<Message<V>>, late: seq<bool>, now: bool)
    requires Enabled(s, Collect(now)) && |taken| == |late| && s.votes == VotesIn(taken, |taken|)
    ensures Dealt(|s.workers|, taken + [s.channel[0]], late + [now], |taken|, s, Next(s, Collect(now)))
    ensures TakesFirst(s, Next(s, Collect(now)), taken)
  {
    TurnIsLoops(|s.workers|, taken, late, s.channel[0], now);
  }

  lemma {:induction false} TakenNext<V>(s: State<V>, c: Collection<V>)
    requires c.Valid() && s.channel == c.sent[|c.late|..] && s.channel != []
    ensures |c.late| < |c.sent| && c.sent[..|c.late| + 1] == c.Taken() + [s.channel[0]]
    ensures s.channel[1..] == c.sent[|c.late| + 1..]
  {
  }

  lemma {:induction false} TurnStaysInLoop<V>(s: State<V>, after: State<V>, c: Collection<V>, now: bool)
    requires s.current.Some? && InLoop(s, c) && s.channel != []
    requires Dealt(|s.workers|, c.Taken() + [s.channel[0]], c.late + [now], |c.late|, s, after)
    requires TakesFirst(s, after, c.Taken())
    ensures InLoop(after, Collection(c.sent, c.late + [now]))
  {
    TakenNext(s, c);
    GoesThroughPrefix(|s.workers|, c.Taken(), c.late, s.channel[0], now);
  }

  lemma {:induction false} CollectStaysInLoop<V>(s: State<V>, c: Collection<V>, now: bool)
    requires InLoop(s, c) && Enabled(s, Collect(now))
    ensures InLoop(Next(s, Collect(now)), Recorded(c, s, Collect(now)))
  {
    CollectDeals(s, c.Taken(), c.late, now);
    TurnStaysInLoop(s, Next(s, Collect(now)), c, now);
  }

  /** What a worker sends for the open task goes to the end of its channel, and no other event adds or takes. */
  lemma {:induction false} SendPosts<V>(s: State<V>, e: Event<V>)
    requires Enabled(s, e) && !e.Begin? && !e.Collect?
    ensures Next(s, e).channel == s.channel + SentBy(s, e)
    ensures Next(s, e).current == s.current && Next(s, e).votes == s.votes
    ensures Next(s, e).workers.Keys == s.workers.Keys
  {
    SameEndpoints(s, e);
  }

  lemma {:induction false} SplitMore<T>(s: seq<T>, more: seq<T>, k: nat)
    requires k <= |s|
    ensures (s + more)[..k] == s[..k] && (s + more)[k..] == s[k..] + more
  {
  }

  lemma {:induction false} MoreSent<V>(s: State<V>, after: State<V>, c: Collection<V>, more: seq<Message<V>>)
    requires InLoop(s, c) && after.current == s.current && after.workers.Keys == s.workers.Keys
    requires after.channel == s.channel + more && after.votes == s.votes
    ensures InLoop(after, Collection(c.sent + more, c.late))
  {
    if s.current.Some? {
      assert |after.workers| == |after.workers.Keys| == |s.workers|;
      SplitMore(c.sent, more, |c.late|);
    }
  }

  lemma {:induction false} BeginStartsLoop<V>(s: State<V>)
    requires ChannelOk(s) && Enabled(s, Begin)
    ensures InLoop(Next(s, Begin), Collection([], []))
  {
  }

  lemma {:induction false} StaysInLoop<V>(s: State<V>, c: Collection<V>, e: Event<V>)
    requires ChannelOk(s) && InLoop(s, c) && Enabled(s, e)
    ensures InLoop(Next(s, e), Recorded(c, s, e))
  {
    match e
    case Collect(now) => CollectStaysInLoop(s, c, now);
    case Begin => BeginStartsLoop(s);
    case _ =>
      SendPosts(s, e);
      MoreSent(s, Next(s, e), c, SentBy(s, e));
  }

  /** In every run the dispatcher is where the loop is after the messages sent for its task and collected. */
  lemma {:induction false} EveryRunInLoop<V>(urls: set<Url>, run: seq<State<V>>, events: seq<Event<V>>, k: nat)
    requires IsRun(urls, run, events) && k <= |events|
    ensures InLoop(run[k], Collected(urls, run, events, k))
  {
    if k == 0 {
    } else {
      EveryRunInLoop(urls, run, events, k - 1);
      EveryRunKeeps(urls, run, events, k - 1);
      assert StepAt(run, events, k - 1);
      StaysInLoop(run[k - 1], Collected(urls, run, events, k - 1), events[k - 1]);
    }
  }

  /** Event `k` takes one more of the messages sent for the open task, and the loop's next turn follows. */
  ghost predicate DealtAt<V>(urls: set<Url>, run: seq<State<V>>, events: seq<Event<V>>, k: nat)
    requires IsRun(urls, run, events) && k < |events| && events[k].Collect?
  {
    var c := Collected(urls, run, events, k);
    && run[k].current.Some? && |c.late| < |c.sent|
    && GoesThrough(|urls|, c.sent[..|c.late| + 1], c.late + [events[k].late], |c.late|)
    && Dealt(|urls|, c.sent[..|c.late| + 1], c.late + [events[k].late], |c.late|, run[k], run[k + 1])
  }

  /**
   In every run the dispatcher goes on collecting, or answers, exactly as the collection loop does on the
   messages sent for the task so far, in the order they were sent.
   */
  lemma {:induction false} MachineDeals<V>(urls: set<Url>, run: seq<State<V>>, events: seq<Event<V>>, k: nat)
    requires IsRun(urls, run, events) && k < |events| && events[k].Collect?
    ensures DealtAt(urls, run, events, k)
  {
    var c := Collected(urls, run, events, k);
    EveryRunInLoop(urls, run, events, k);
    EveryRunSameEndpoints(urls, run, events, k);
    assert StepAt(run, events, k);
    var s, now := run[k], events[k].late;
    assert |s.workers| == |s.workers.Keys| == |urls|;
    TakenNext(s, c);
    CollectDeals(s, c.Taken(), c.late, now);
    GoesThroughPrefix(|urls|, c.Taken(), c.late, s.channel[0], now);
  }

  /** Answer `a` was given in event `j`: refused before any endpoint heard of the task, or by the loop. */
  ghost predicate GivenAt<V>(urls: set<Url>, run: seq<State<V>>, events: seq<Event<V>>, j: nat, a: Answer<V>)
    requires IsRun(urls, run, events) && j < |events|
  {
    && run[j + 1].log == run[j].log + [a]
    && match events[j]
       case BeginFails => a.response.Refused? && run[j].queue != [] && a.task == run[j].queue[0]
       case Collect(_) => DealtAt(urls, run, events, j)
       case _ => false
  }

  /** Every answer of every run was given in one event, by refusal or by the collection loop. */
  lemma {:induction false} EveryAnswerIsDealt<V>(urls: set<Url>, run: seq<State<V>>, events: seq<Event<V>>, k: nat, t: TaskId)
    returns (j: nat)
    requires IsRun(urls, run, events) && k <= |events| && t < |run[k].log|
    ensures j < k && |run[j].log| == t && GivenAt(urls, run, events, j, run[k].log[t])
  {
    j := k - 1;
    var s, e := run[j], events[j];
    assert StepAt(run, events, j);
    if t < |s.log| {
      assert run[k].log[t] == s.log[t];
      j := EveryAnswerIsDealt(urls, run, events, j, t);
    } else if e.Collect? {
      MachineDeals(urls, run, events, j);
    }
  }

  /** The tasks broadcast in the first `k` events. */
  function Broadcast<V(==)>(urls: set<Url>, run: seq<State<V>>, events: seq<Event<V>>, k: nat): seq<TaskId>
    requires IsRun(urls, run, events) && k <= |events|
  {
    if k == 0 then []
    else
      assert StepAt(run, events, k - 1);
      Broadcast(urls, run, events, k - 1) + if events[k - 1].Begin? then [run[k - 1].queue[0].id] else []
  }

  /** A worker that never falls behind has taken, or has waiting, every task broadcast, in order. */
  lemma {:induction false} NothingLost<V>(urls: set<Url>, run: seq<State<V>>, events: seq<Event<V>>, k: nat, u: Url)
    requires IsRun(urls, run, events) && k <= |events| && u in urls
    requires forall j :: 0 <= j < k ==> events[j] != Lag(u)
    ensures u in run[k].workers
    ensures run[k].workers[u].taken + run[k].workers[u].inbox == Broadcast(urls, run, events, k)
  {
    if k == 0 {
    } else {
      NothingLost(urls, run, events, k - 1, u);
      assert StepAt(run, events, k - 1);
      var w, w' := run[k - 1].workers[u], run[k].workers[u];
      if events[k - 1].Begin? {
        assert w'.taken + w'.inbox == w.taken + w.inbox + [run[k - 1].queue[0].id];
      } else if events[k - 1] == Take(u) {
        assert w'.taken + w'.inbox == w.taken + w.inbox;
      }
    }
  }
}
