/**
 * The quorum protocol of the Solana client: one dispatcher, one worker per extra endpoint, a broadcast
 * inbox per worker and a reply channel per task. Steps of different participants interleave freely.
 */
module Dispatch {
  import opened Wrappers
  import opened Sets
  import opened Votes

  type TaskId = nat

  const ATTEMPTS: nat := 3

  /** What a worker sends back: the endpoint's value, or `None` for "retry limited". */
  datatype Message<V(==)> = Message(result: Option<V>, from: Url)

  /** The five kinds of request, each with its own variant of the response event. */
  datatype Kind = Transaction | Slot | AccountInfo | Signatures | ProgramAccounts

  datatype Task = Task(id: TaskId, kind: Kind)

  /** What the dispatcher answers: the broadcast failed, an endpoint failed, time ran out, or all voted. */
  datatype Response<V(==)> = Refused | Failed | TimedOut | Decided(votes: set<Vote<V>>)

  datatype Answer<V(==)> = Answer(task: Task, response: Response<V>, variant: Kind)

  /** A worker, with the tasks it ever took and the tasks it ever sent a message for. */
  datatype Worker = Worker(inbox: seq<TaskId>, taken: seq<TaskId>, task: Option<TaskId>, failures: nat,
                           sent: seq<TaskId>)

  const IDLE := Worker([], [], None, 0, [])

  /** `kinds` records what was submitted, `answers` what each endpoint reported for each task, `log` every response sent. */
  datatype State<V(==)> = State(
    workers: map<Url, Worker>,
    queue: seq<Task>,
    kinds: seq<Kind>,
    next: TaskId,
    current: Option<Task>,
    channel: seq<Message<V>>,
    votes: set<Vote<V>>,
    answers: map<(Url, TaskId), V>,
    log: seq<Answer<V>>)

  datatype Event<V(==)> =
    | Submit(kind: Kind)
    | Begin
    | BeginFails
    | Lag(url: Url)
    | Take(url: Url)
    | TryFails(url: Url)
    | Reports(url: Url, value: V)
    | GivesUp(url: Url)
    | Collect(late: bool)

  // ---- The collection loop of `deal_get_slot` and its siblings ----

  /** One turn of the loop: the votes so far, and the response if the loop ends here. */
  function Turn<V(==)>(n: nat, votes: set<Vote<V>>, m: Message<V>, late: bool):
    (set<Vote<V>>, Option<Response<V>>)
  {
    if m.result.None? then (votes, Some(Failed))
    else
      var more := votes + {Vote(m.result.value, m.from)};
      (more, if |more| == n then Some(Decided(more)) else if late then Some(TimedOut) else None)
  }

  /** The votes in the first `k` messages. */
  function VotesIn<V(==)>(messages: seq<Message<V>>, k: nat): set<Vote<V>>
    requires k <= |messages|
  {
    if k == 0 then {}
    else
      var m := messages[k - 1];
      VotesIn(messages, k - 1) + if m.result.Some? then {Vote(m.result.value, m.from)} else {}
  }

  /** The loop keeps going after these messages. */
  predicate GoesOn<V(==)>(n: nat, messages: seq<Message<V>>, late: seq<bool>, k: nat)
    requires k < |messages| == |late|
  {
    messages[k].result.Some? && |VotesIn(messages, k + 1)| != n && !late[k]
  }

  /** The loop ends at message `k` with response `r`. */
  predicate EndsWith<V(==)>(n: nat, messages: seq<Message<V>>, late: seq<bool>, k: nat, r: Response<V>)
    requires k < |messages| == |late|
  {
    var votes := VotesIn(messages, k + 1);
    if messages[k].result.None? then r == Failed
    else if |votes| == n then r == Decided(votes)
    else late[k] && r == TimedOut
  }

  /** The loop answers at the first message that fails, completes the votes, or comes too late. */
  method Deal<V(==)>(n: nat, messages: seq<Message<V>>, late: seq<bool>)
    returns (response: Option<Response<V>>, used: nat)
    requires |messages| == |late|
    ensures used <= |messages|
    ensures response.None? ==> used == |messages| && forall k :: 0 <= k < used ==> GoesOn(n, messages, late, k)
    ensures response.Some? ==> 0 < used && forall k :: 0 <= k < used - 1 ==> GoesOn(n, messages, late, k)
    ensures response.Some? ==> EndsWith(n, messages, late, used - 1, response.value)
  {
    response, used := None, 0;
    var votes: set<Vote<V>> := {};
    while used < |messages|
      invariant 0 <= used <= |messages|
      invariant votes == VotesIn(messages, used)
      invariant response.None?
      invariant forall k :: 0 <= k < used ==> GoesOn(n, messages, late, k)
    {
      var turn := Turn(n, votes, messages[used], late[used]);
      votes, response := turn.0, turn.1;
      used := used + 1;
      if response.Some? {
        return;
      }
    }
  }

  function FirstSuccess<V>(replies: seq<Option<V>>): Option<V> {
    if replies == [] then None
    else if replies[0].Some? then replies[0]
    else FirstSuccess(replies[1..])
  }

  lemma {:induction false} FirstSuccessAt<V>(replies: seq<Option<V>>, k: nat)
    requires k <= |replies| && forall i :: 0 <= i < k ==> replies[i].None?
    ensures FirstSuccess(replies) == FirstSuccess(replies[k..])
  {
    if k == 0 {
    } else {
      FirstSuccessAt(replies[1..], k - 1);
      assert replies[1..][k - 1..] == replies[k..];
    }
  }

  /** `client_worker_do_get_slot` and its siblings: three tries, then exactly one message. */
  method DoTask<V>(url: Url, replies: seq<Option<V>>) returns (messages: seq<Message<V>>, tries: nat)
    requires |replies| == 3
    ensures messages == [Message(FirstSuccess(replies), url)]
    ensures 1 <= tries <= 3 && forall i :: 0 <= i < tries - 1 ==> replies[i].None?
    ensures FirstSuccess(replies) == replies[tries - 1]
    ensures FirstSuccess(replies).None? ==> tries == 3
  {
    var success := false;
    messages, tries := [], 0;
    while tries < ATTEMPTS && !success
      invariant 0 <= tries <= ATTEMPTS
      invariant success ==> 0 < tries && replies[tries - 1].Some?
      invariant messages == if success then [Message(replies[tries - 1], url)] else []
      invariant forall i :: 0 <= i < tries - 1 ==> replies[i].None?
      invariant !success ==> forall i :: 0 <= i < tries ==> replies[i].None?
    {
      if replies[tries].Some? {
        messages := messages + [Message(replies[tries], url)];
        success := true;
      }
      tries := tries + 1;
    }
    FirstSuccessAt(replies, tries - 1);
    if !success {
      FirstSuccessAt(replies, tries);
      messages := messages + [Message(None, url)];
    }
  }

  // ---- The state machine ----

  function Start<V(==)>(urls: set<Url>): State<V> {
    State(map u | u in urls :: IDLE, [], [], 0, None, [], {}, map[], [])
  }

  predicate Enabled<V(==)>(s: State<V>, e: Event<V>) {
    match e
    case Submit(_) => true
    case Begin => s.current.None? && s.queue != []
    case BeginFails => s.current.None? && s.queue != []
    case Lag(u) => u in s.workers && s.workers[u].task.None? && s.workers[u].inbox != []
    case Take(u) => u in s.workers && s.workers[u].task.None? && s.workers[u].inbox != []
    case TryFails(u) => u in s.workers && s.workers[u].task.Some? && s.workers[u].failures < ATTEMPTS
    case Reports(u, _) => u in s.workers && s.workers[u].task.Some? && s.workers[u].failures < ATTEMPTS
    case GivesUp(u) => u in s.workers && s.workers[u].task.Some? && s.workers[u].failures == ATTEMPTS
    case Collect(_) => s.current.Some? && s.channel != []
  }

  function Deliver(w: Worker, t: TaskId): Worker {
    w.(inbox := w.inbox + [t])
  }

  /** A receiver that fell behind loses the oldest task it was to take. */
  function Lagged(w: Worker): Worker
    requires w.inbox != []
  {
    w.(inbox := w.inbox[1..])
  }

  function Started(w: Worker): Worker
    requires w.inbox != []
  {
    w.(inbox := w.inbox[1..], taken := w.taken + [w.inbox[0]], task := Some(w.inbox[0]), failures := 0)
  }

  function Tried(w: Worker): Worker {
    w.(failures := w.failures + 1)
  }

  function Done(w: Worker): Worker
    requires w.task.Some?
  {
    w.(task := None, failures := 0, sent := w.sent + [w.task.value])
  }

  predicate Collecting<V(==)>(s: State<V>, t: TaskId) {
    s.current.Some? && s.current.value.id == t
  }

  /** The variant of the event a response goes out in: an endpoint's error on account info leaves as a slot. */
  function VariantSent<V(==)>(kind: Kind, r: Response<V>): Kind {
    if kind.AccountInfo? && r.Failed? then Slot else kind
  }

  function AnswerTo<V(==)>(task: Task, r: Response<V>): Answer<V> {
    Answer(task, r, VariantSent(task.kind, r))
  }

  /** Sending to a task whose receiver is gone fails and the message is lost. */
  function Send<V(==)>(s: State<V>, t: TaskId, m: Message<V>): seq<Message<V>> {
    if Collecting(s, t) then s.channel + [m] else s.channel
  }

  /** The state after worker `m.from` sends its one message for its task. */
  function Sent<V(==)>(s: State<V>, m: Message<V>): State<V>
    requires m.from in s.workers && s.workers[m.from].task.Some?
  {
    var t := s.workers[m.from].task.value;
    s.(workers := s.workers[m.from := Done(s.workers[m.from])],
       answers := if m.result.Some? then s.answers[(m.from, t) := m.result.value] else s.answers,
       channel := Send(s, t, m))
  }

  function WithWorker<V(==)>(s: State<V>, u: Url, w: Worker): State<V> {
    s.(workers := s.workers[u := w])
  }

  function Respond<V(==)>(s: State<V>, r: Response<V>): State<V>
    requires s.current.Some?
  {
    s.(current := None, channel := [], votes := {}, log := s.log + [AnswerTo(s.current.value, r)])
  }

  function Next<V(==)>(s: State<V>, e: Event<V>): State<V>
    requires Enabled(s, e)
  {
    match e
    case Submit(kind) =>
      s.(queue := s.queue + [Task(s.next, kind)], kinds := s.kinds + [kind], next := s.next + 1)
    case Begin =>
      s.(workers := map u | u in s.workers :: Deliver(s.workers[u], s.queue[0].id),
         current := Some(s.queue[0]),
         queue := s.queue[1..])
    case BeginFails => s.(queue := s.queue[1..], log := s.log + [AnswerTo(s.queue[0], Refused)])
    case Lag(u) => WithWorker(s, u, Lagged(s.workers[u]))
    case Take(u) => WithWorker(s, u, Started(s.workers[u]))
    case TryFails(u) => WithWorker(s, u, Tried(s.workers[u]))
    case Reports(u, v) => Sent(s, Message(Some(v), u))
    case GivesUp(u) => Sent(s, Message(None, u))
    case Collect(late) =>
      var turn := Turn(|s.workers|, s.votes, s.channel[0], late);
      if turn.1.Some? then Respond(s, turn.1.value)
      else s.(votes := turn.0, channel := s.channel[1..])
  }

  // ---- The invariant ----

  function Begun<V(==)>(s: State<V>): nat {
    |s.log| + if s.current.Some? then 1 else 0
  }

  /** Responses, the task being collected and the queue together are all tasks, in submission order. */
  predicate InOrder<V(==)>(s: State<V>) {
    && (forall i :: 0 <= i < |s.log| ==> s.log[i].task.id == i)
    && (s.current.Some? ==> s.current.value.id == |s.log|)
    && (forall i :: 0 <= i < |s.queue| ==> s.queue[i].id == Begun(s) + i)
    && s.next == Begun(s) + |s.queue|
  }

  predicate Rising(ts: seq<TaskId>) {
    forall i, j :: 0 <= i < j < |ts| ==> ts[i] < ts[j]
  }

  predicate Below(ts: seq<TaskId>, bound: TaskId) {
    forall i :: 0 <= i < |ts| ==> ts[i] < bound
  }

  /** A worker has sent one message for every task it took, except the one it is working on. */
  predicate WorkerOk(w: Worker, begun: nat) {
    && w.taken == w.sent + (if w.task.Some? then [w.task.value] else [])
    && w.failures <= ATTEMPTS
    && Rising(w.taken + w.inbox)
    && Below(w.taken + w.inbox, begun)
  }

  predicate Reported<V(==)>(s: State<V>, u: Url, t: TaskId, v: V) {
    (u, t) in s.answers && s.answers[(u, t)] == v
  }

  predicate MessageOk<V(==)>(s: State<V>, m: Message<V>) {
    && m.from in s.workers && s.current.Some? && s.current.value.id in s.workers[m.from].sent
    && (m.result.Some? ==> Reported(s, m.from, s.current.value.id, m.result.value))
  }

  predicate VoteOk<V(==)>(s: State<V>, t: TaskId, x: Vote<V>) {
    && x.from in s.workers && t in s.workers[x.from].sent
    && Reported(s, x.from, t, x.value)
  }

  predicate OnePerVoter<V(==)>(votes: set<Vote<V>>) {
    forall x, y :: x in votes && y in votes && x.from == y.from ==> x == y
  }

  predicate OnePerSender<V(==)>(channel: seq<Message<V>>) {
    forall i, j :: 0 <= i < j < |channel| ==> channel[i].from != channel[j].from
  }

  predicate Apart<V(==)>(channel: seq<Message<V>>, votes: set<Vote<V>>) {
    forall i, x :: 0 <= i < |channel| && x in votes ==> channel[i].from != x.from
  }

  predicate ChannelOk<V(==)>(s: State<V>) {
    && (forall i :: 0 <= i < |s.channel| ==> MessageOk(s, s.channel[i]))
    && OnePerSender(s.channel) && OnePerVoter(s.votes) && Apart(s.channel, s.votes)
    && (s.current.None? ==> s.channel == [] && s.votes == {})
    && (s.current.Some? ==> forall x :: x in s.votes ==> VoteOk(s, s.current.value.id, x))
  }

  function Voters<V(==)>(votes: set<Vote<V>>): set<Url> {
    set x | x in votes :: x.from
  }

  /** One vote per endpoint, each being what that endpoint reported for this very task. */
  predicate FullBallot<V(==)>(s: State<V>, t: TaskId, votes: set<Vote<V>>) {
    && Voters(votes) == s.workers.Keys
    && OnePerVoter(votes)
    && (forall x :: x in votes ==> VoteOk(s, t, x))
  }

  predicate LogOk<V(==)>(s: State<V>) {
    forall i :: 0 <= i < |s.log| && s.log[i].response.Decided? ==> FullBallot(s, i, s.log[i].response.votes)
  }

  predicate WorkersOk<V(==)>(s: State<V>) {
    forall u :: u in s.workers ==> WorkerOk(s.workers[u], Begun(s))
  }

  predicate AnswersOk<V(==)>(s: State<V>) {
    forall k :: k in s.answers ==> k.0 in s.workers && k.1 in s.workers[k.0].sent
  }

  /** Every task still has the kind it was submitted with, and was answered in the variant for it. */
  predicate KindsOk<V(==)>(s: State<V>) {
    && |s.kinds| == s.next
    && (forall i :: 0 <= i < |s.queue| ==> KindOk(s, s.queue[i]))
    && (s.current.Some? ==> KindOk(s, s.current.value))
    && (forall i :: 0 <= i < |s.log| ==> KindOk(s, s.log[i].task) && s.log[i] == AnswerTo(s.log[i].task, s.log[i].response))
  }

  predicate KindOk<V(==)>(s: State<V>, task: Task) {
    task.id < |s.kinds| && task.kind == s.kinds[task.id]
  }

  predicate Inv<V(==)>(s: State<V>) {
    InOrder(s) && KindsOk(s) && WorkersOk(s) && AnswersOk(s) && ChannelOk(s) && LogOk(s)
  }

  // ---- Counting ----

  lemma {:induction false} VotersCount<V>(votes: set<Vote<V>>)
    requires OnePerVoter(votes)
    ensures |Voters(votes)| == |votes|
    decreases |votes|
  {
    if votes == {} {
    } else {
      var x :| x in votes;
      VotersCount(votes - {x});
      assert Voters(votes) == Voters(votes - {x}) + {x.from};
    }
  }

  function Senders<V(==)>(channel: seq<Message<V>>): set<Url> {
    set m | m in channel :: m.from
  }

  lemma {:induction false} SendersCount<V>(channel: seq<Message<V>>)
    requires OnePerSender(channel)
    ensures |Senders(channel)| == |channel|
  {
    if channel == [] {
    } else {
      var n := |channel| - 1;
      SendersCount(channel[..n]);
      assert channel == channel[..n] + [channel[n]];
      assert Senders(channel) == Senders(channel[..n]) + {channel[n].from};
    }
  }

  // ---- Every step keeps the invariant ----

  lemma {:induction false} DeliverOk(w: Worker, t: TaskId)
    requires WorkerOk(w, t)
    ensures WorkerOk(Deliver(w, t), t + 1)
  {
    assert w.taken + (w.inbox + [t]) == w.taken + w.inbox + [t];
  }

  lemma {:induction false} LagOk(w: Worker, begun: nat)
    requires WorkerOk(w, begun) && w.inbox != []
    ensures WorkerOk(Lagged(w), begun)
  {
    var all, n := w.taken + w.inbox, |w.taken|;
    var fewer := w.taken + w.inbox[1..];
    assert forall i :: 0 <= i < |fewer| ==> fewer[i] == all[if i < n then i else i + 1];
  }

  lemma {:induction false} TriedOk(w: Worker, begun: nat)
    requires WorkerOk(w, begun) && w.failures < ATTEMPTS
    ensures WorkerOk(Tried(w), begun)
  {
  }

  lemma {:induction false} StartedOk(w: Worker, begun: nat)
    requires WorkerOk(w, begun) && w.inbox != [] && w.task.None?
    ensures WorkerOk(Started(w), begun)
  {
    assert w.taken + [w.inbox[0]] + w.inbox[1..] == w.taken + w.inbox;
  }

  lemma {:induction false} DoneOk(w: Worker, begun: nat)
    requires WorkerOk(w, begun) && w.task.Some?
    ensures WorkerOk(Done(w), begun)
    ensures w.task.value !in w.sent
  {
    var all := w.taken + w.inbox;
    assert all[|w.sent|] == w.task.value;
    assert forall i :: 0 <= i < |w.sent| ==> w.sent[i] == all[i];
  }

  /** The part of a step that earlier decisions rest on: nothing sent or reported is taken back. */
  predicate Grows<V(==)>(s: State<V>, after: State<V>) {
    && after.workers.Keys == s.workers.Keys
    && (forall u, t :: u in s.workers && t in s.workers[u].sent ==> t in after.workers[u].sent)
    && (forall k :: k in s.answers ==> k in after.answers && after.answers[k] == s.answers[k])
  }

  lemma {:induction false} BallotGrows<V>(s: State<V>, after: State<V>, t: TaskId, votes: set<Vote<V>>)
    requires Grows(s, after) && FullBallot(s, t, votes)
    ensures FullBallot(after, t, votes)
  {
    forall x | x in votes ensures VoteOk(after, t, x) {
      assert VoteOk(s, t, x);
    }
  }

  lemma {:induction false} LogGrows<V>(s: State<V>, after: State<V>)
    requires Grows(s, after) && LogOk(s) && after.log == s.log
    ensures LogOk(after)
  {
    forall i | 0 <= i < |s.log| && s.log[i].response.Decided?
      ensures FullBallot(after, i, s.log[i].response.votes)
    {
      BallotGrows(s, after, i, s.log[i].response.votes);
    }
  }

  lemma {:induction false} LogAppends<V>(s: State<V>, after: State<V>, a: Answer<V>)
    requires Grows(s, after) && LogOk(s) && after.log == s.log + [a]
    requires a.response.Decided? ==> FullBallot(after, |s.log|, a.response.votes)
    ensures LogOk(after)
  {
    forall i | 0 <= i < |after.log| && after.log[i].response.Decided?
      ensures FullBallot(after, i, after.log[i].response.votes)
    {
      if i < |s.log| {
        BallotGrows(s, after, i, s.log[i].response.votes);
      }
    }
  }

  /** The open task's messages and votes stay sound when nothing is taken back and none are added. */
  lemma {:induction false} ChannelGrows<V>(s: State<V>, after: State<V>)
    requires Grows(s, after) && ChannelOk(s)
    requires after.channel == s.channel && after.votes == s.votes && after.current == s.current
    ensures ChannelOk(after)
  {
    forall i | 0 <= i < |s.channel| ensures MessageOk(after, s.channel[i]) {
      assert MessageOk(s, s.channel[i]);
    }
    if s.current.Some? {
      forall x | x in s.votes ensures VoteOk(after, s.current.value.id, x) {
        assert VoteOk(s, s.current.value.id, x);
      }
    }
  }

  lemma {:induction false} SubmitKeeps<V>(s: State<V>, kind: Kind)
    requires Inv(s)
    ensures Inv(Next(s, Submit(kind)))
  {
    ChannelGrows(s, Next(s, Submit(kind)));
    LogGrows(s, Next(s, Submit(kind)));
  }

  lemma {:induction false} BeginKeeps<V>(s: State<V>)
    requires Inv(s) && Enabled(s, Begin)
    ensures Inv(Next(s, Begin))
  {
    var after := Next(s, Begin);
    forall u | u in s.workers ensures WorkerOk(after.workers[u], Begun(after)) {
      DeliverOk(s.workers[u], s.queue[0].id);
    }
    assert Grows(s, after);
    LogGrows(s, after);
  }

  lemma {:induction false} BeginFailsKeeps<V>(s: State<V>)
    requires Inv(s) && Enabled(s, BeginFails)
    ensures Inv(Next(s, BeginFails))
  {
    var after := Next(s, BeginFails);
    forall u | u in s.workers ensures WorkerOk(s.workers[u], Begun(after)) {
      assert WorkerOk(s.workers[u], Begun(s));
    }
    LogAppends(s, after, AnswerTo(s.queue[0], Refused));
  }

  /** Changing one worker, without unsending anything, keeps all that is not about that worker. */
  lemma {:induction false} OneWorkerKeeps<V>(s: State<V>, u: Url, w: Worker)
    requires Inv(s) && u in s.workers && WorkerOk(w, Begun(s)) && w.sent == s.workers[u].sent
    ensures Inv(WithWorker(s, u, w))
  {
    var after := WithWorker(s, u, w);
    assert Grows(s, after);
    ChannelGrows(s, after);
    LogGrows(s, after);
  }

  // ---- Sending ----

  lemma {:induction false} NotSentYet<V>(s: State<V>, u: Url)
    requires WorkersOk(s) && AnswersOk(s) && u in s.workers && s.workers[u].task.Some?
    ensures s.workers[u].task.value !in s.workers[u].sent
    ensures (u, s.workers[u].task.value) !in s.answers
  {
    DoneOk(s.workers[u], Begun(s));
  }

  /** Whoever has not sent for the open task has neither a message waiting nor a vote counted. */
  lemma {:induction false} NotHeardYet<V>(s: State<V>, u: Url)
    requires ChannelOk(s) && s.current.Some? && u in s.workers && s.current.value.id !in s.workers[u].sent
    ensures forall i :: 0 <= i < |s.channel| ==> s.channel[i].from != u
    ensures forall x :: x in s.votes ==> x.from != u
  {
    forall i | 0 <= i < |s.channel| ensures s.channel[i].from != u {
      assert MessageOk(s, s.channel[i]);
    }
    forall x | x in s.votes ensures x.from != u {
      assert VoteOk(s, s.current.value.id, x);
    }
  }

  lemma {:induction false} SentGrows<V>(s: State<V>, m: Message<V>)
    requires WorkersOk(s) && AnswersOk(s) && m.from in s.workers && s.workers[m.from].task.Some?
    ensures Grows(s, Sent(s, m)) && WorkersOk(Sent(s, m)) && AnswersOk(Sent(s, m))
  {
    NotSentYet(s, m.from);
    DoneOk(s.workers[m.from], Begun(s));
    assert s.workers[m.from].task.value in Sent(s, m).workers[m.from].sent;
  }

  lemma {:induction false} SentChannel<V>(s: State<V>, m: Message<V>)
    requires Inv(s) && m.from in s.workers && s.workers[m.from].task.Some?
    ensures ChannelOk(Sent(s, m))
  {
    var after := Sent(s, m);
    var quiet := after.(channel := s.channel);
    SentGrows(s, m);
    ChannelGrows(s, quiet);
    if Collecting(s, s.workers[m.from].task.value) {
      NotSentYet(s, m.from);
      NotHeardYet(s, m.from);
      assert MessageOk(after, m);
      forall i | 0 <= i < |after.channel| ensures MessageOk(after, after.channel[i]) {
        if i < |s.channel| {
          assert MessageOk(quiet, s.channel[i]);
        }
      }
      forall x | x in s.votes ensures VoteOk(after, s.current.value.id, x) {
        assert VoteOk(quiet, s.current.value.id, x);
      }
    } else {
      assert after == quiet;
    }
  }

  lemma {:induction false} SendKeeps<V>(s: State<V>, m: Message<V>)
    requires Inv(s) && m.from in s.workers && s.workers[m.from].task.Some?
    ensures Inv(Sent(s, m))
  {
    SentGrows(s, m);
    SentChannel(s, m);
    LogGrows(s, Sent(s, m));
  }

  /** The machine's steps for one task of a worker, try by try. */
  function Tries<V(==)>(s: State<V>, u: Url, replies: seq<Option<V>>): State<V>
    requires u in s.workers && s.workers[u].task.Some? && s.workers[u].failures + |replies| == 3
    decreases |replies|
  {
    if replies == [] then Next(s, GivesUp(u))
    else if replies[0].Some? then Next(s, Reports(u, replies[0].value))
    else Tries(Next(s, TryFails(u)), u, replies[1..])
  }

  /** The tries of a worker amount to sending the one message that `DoTask` sends. */
  lemma {:induction false} TriesSendOnce<V>(s: State<V>, u: Url, replies: seq<Option<V>>)
    requires u in s.workers && s.workers[u].task.Some? && s.workers[u].failures + |replies| == 3
    ensures Tries(s, u, replies) == Sent(s, Message(FirstSuccess(replies), u))
    decreases |replies|
  {
    if replies != [] && replies[0].None? {
      var tried := Next(s, TryFails(u));
      TriesSendOnce(tried, u, replies[1..]);
      var m := Message(FirstSuccess(replies), u);
      assert Done(tried.workers[u]) == Done(s.workers[u]);
      assert Sent(tried, m).workers == Sent(s, m).workers;
    }
  }

  // ---- Collecting ----

  /** As many votes as endpoints, from distinct endpoints: one vote from each. */
  lemma {:induction false} CompleteIsFull<V>(s: State<V>, t: TaskId, votes: set<Vote<V>>)
    requires OnePerVoter(votes) && (forall x :: x in votes ==> VoteOk(s, t, x)) && |votes| == |s.workers|
    ensures FullBallot(s, t, votes)
  {
    VotersCount(votes);
    SubsetSize(Voters(votes), s.workers.Keys);
  }

  /** The first message, counted as a vote, comes from an endpoint that has no vote yet. */
  lemma {:induction false} CountFirst<V>(s: State<V>, x: Vote<V>)
    requires ChannelOk(s) && s.channel != [] && s.channel[0] == Message(Some(x.value), x.from)
    ensures OnePerVoter(s.votes + {x})
    ensures forall y :: y in s.votes + {x} ==> VoteOk(s, s.current.value.id, y)
    ensures ChannelOk(s.(votes := s.votes + {x}, channel := s.channel[1..]))
  {
    var after := s.(votes := s.votes + {x}, channel := s.channel[1..]);
    assert MessageOk(s, s.channel[0]);
    forall i | 0 <= i < |after.channel| ensures MessageOk(after, after.channel[i]) {
      assert MessageOk(s, s.channel[i + 1]);
    }
    forall y | y in after.votes ensures VoteOk(s, s.current.value.id, y) && VoteOk(after, s.current.value.id, y) {
      assert y != x ==> y in s.votes;
    }
  }

  lemma {:induction false} RespondKeeps<V>(s: State<V>, r: Response<V>)
    requires Inv(s) && s.current.Some?
    requires r.Decided? ==> FullBallot(s, s.current.value.id, r.votes)
    ensures Inv(Respond(s, r))
  {
    var after := Respond(s, r);
    assert Grows(s, after);
    if r.Decided? {
      BallotGrows(s, after, s.current.value.id, r.votes);
    }
    LogAppends(s, after, AnswerTo(s.current.value, r));
  }

  lemma {:induction false} VoteKeeps<V>(s: State<V>, x: Vote<V>)
    requires Inv(s) && s.channel != [] && s.channel[0] == Message(Some(x.value), x.from)
    ensures Inv(s.(votes := s.votes + {x}, channel := s.channel[1..]))
  {
    var after := s.(votes := s.votes + {x}, channel := s.channel[1..]);
    CountFirst(s, x);
    LogGrows(s, after);
    assert InOrder(after) && KindsOk(after);
  }

  lemma {:induction false} VoteCompletes<V>(s: State<V>, x: Vote<V>)
    requires ChannelOk(s) && s.channel != [] && s.channel[0] == Message(Some(x.value), x.from)
    requires |s.votes + {x}| == |s.workers|
    ensures FullBallot(s, s.current.value.id, s.votes + {x})
  {
    CountFirst(s, x);
    CompleteIsFull(s, s.current.value.id, s.votes + {x});
  }

  lemma {:induction false} CollectKeeps<V>(s: State<V>, late: bool)
    requires Inv(s) && Enabled(s, Collect(late))
    ensures Inv(Next(s, Collect(late)))
  {
    var m := s.channel[0];
    var response := Turn(|s.workers|, s.votes, m, late).1;
    if response.None? {
      VoteKeeps(s, Vote(m.result.value, m.from));
    } else {
      if response.value.Decided? {
        VoteCompletes(s, Vote(m.result.value, m.from));
      }
      RespondKeeps(s, response.value);
    }
  }

  lemma {:induction false} StepKeeps<V>(s: State<V>, e: Event<V>)
    requires Inv(s) && Enabled(s, e)
    ensures Inv(Next(s, e))
  {
    match e
    case Submit(kind) => SubmitKeeps(s, kind);
    case Begin => BeginKeeps(s);
    case BeginFails => BeginFailsKeeps(s);
    case Lag(u) =>
      LagOk(s.workers[u], Begun(s));
      OneWorkerKeeps(s, u, Lagged(s.workers[u]));
    case Take(u) =>
      StartedOk(s.workers[u], Begun(s));
      OneWorkerKeeps(s, u, Started(s.workers[u]));
    case TryFails(u) =>
      TriedOk(s.workers[u], Begun(s));
      OneWorkerKeeps(s, u, Tried(s.workers[u]));
    case Reports(u, v) => SendKeeps(s, Message(Some(v), u));
    case GivesUp(u) => SendKeeps(s, Message(None, u));
    case Collect(late) => CollectKeeps(s, late);
  }

  lemma {:induction false} HeardFromEndpoints<V>(s: State<V>)
    requires ChannelOk(s)
    ensures Senders(s.channel) + Voters(s.votes) <= s.workers.Keys
    ensures Senders(s.channel) !! Voters(s.votes)
  {
    forall u | u in Senders(s.channel) ensures u in s.workers {
      var i :| 0 <= i < |s.channel| && s.channel[i].from == u;
      assert MessageOk(s, s.channel[i]);
    }
    forall u | u in Voters(s.votes) ensures u in s.workers {
      var x :| x in s.votes && x.from == u;
      assert VoteOk(s, s.current.value.id, x);
    }
  }

  lemma {:induction false} RoomToSend<V>(s: State<V>, u: Url)
    requires ChannelOk(s) && s.current.Some? && u in s.workers && s.current.value.id !in s.workers[u].sent
    ensures |s.channel| + |s.votes| < |s.workers|
  {
    var heard := Senders(s.channel) + Voters(s.votes);
    NotHeardYet(s, u);
    HeardFromEndpoints(s);
    HeardCount(s.channel, s.votes);
    assert u !in heard;
    SubsetSize(heard + {u}, s.workers.Keys);
  }

  lemma {:induction false} HeardCount<V>(channel: seq<Message<V>>, votes: set<Vote<V>>)
    requires OnePerSender(channel) && OnePerVoter(votes) && Senders(channel) !! Voters(votes)
    ensures |Senders(channel) + Voters(votes)| == |channel| + |votes|
  {
    SendersCount(channel);
    VotersCount(votes);
  }

  // ---- Whole runs ----

  predicate StepAt<V(==)>(run: seq<State<V>>, events: seq<Event<V>>, i: nat)
    requires |run| == |events| + 1 && i < |events|
  {
    Enabled(run[i], events[i]) && run[i + 1] == Next(run[i], events[i])
  }

  predicate IsRun<V(==)>(urls: set<Url>, run: seq<State<V>>, events: seq<Event<V>>) {
    && |run| == |events| + 1
    && run[0] == Start(urls)
    && (forall i :: 0 <= i < |events| ==> StepAt(run, events, i))
  }

  lemma {:induction false} StartOk<V>(urls: set<Url>)
    ensures Inv(Start<V>(urls))
  {
  }

  lemma {:induction false} SameEndpoints<V>(s: State<V>, e: Event<V>)
    requires Enabled(s, e)
    ensures Next(s, e).workers.Keys == s.workers.Keys
  {
  }

  lemma {:induction false} EveryRunSameEndpoints<V>(urls: set<Url>, run: seq<State<V>>, events: seq<Event<V>>, i: nat)
    requires IsRun(urls, run, events) && i < |run|
    ensures run[i].workers.Keys == urls
  {
    if i == 0 {
    } else {
      EveryRunSameEndpoints(urls, run, events, i - 1);
      assert StepAt(run, events, i - 1);
      SameEndpoints(run[i - 1], events[i - 1]);
    }
  }

  /** Every state of every run keeps the invariant, for the same set of endpoints. */
  lemma {:induction false} EveryRunKeeps<V>(urls: set<Url>, run: seq<State<V>>, events: seq<Event<V>>, i: nat)
    requires IsRun(urls, run, events) && i < |run|
    ensures Inv(run[i]) && run[i].workers.Keys == urls
  {
    if i == 0 {
      StartOk<V>(urls);
    } else {
      EveryRunKeeps(urls, run, events, i - 1);
      assert StepAt(run, events, i - 1);
      StepKeeps(run[i - 1], events[i - 1]);
    }
    EveryRunSameEndpoints(urls, run, events, i);
  }

  /** At most one response per task, only for submitted tasks, and in the order they were submitted. */
  lemma {:induction false} OneResponsePerTask<V>(urls: set<Url>, run: seq<State<V>>, events: seq<Event<V>>, i: nat, j: nat, k: nat)
    requires IsRun(urls, run, events) && k < |run|
    requires i < |run[k].log| && j < |run[k].log| && run[k].log[i].task.id == run[k].log[j].task.id
    ensures i == j && run[k].log[i].task.id == i < run[k].next
  {
    EveryRunKeeps(urls, run, events, k);
  }

  /**
   In every run, the requester of a task gets the variant it matches on, and not one it holds for
   unreachable, except exactly when the task is for account info and an endpoint failed.
   */
  lemma {:induction false} VariantMatches<V>(urls: set<Url>, run: seq<State<V>>, events: seq<Event<V>>, k: nat, t: TaskId)
    requires IsRun(urls, run, events) && k < |run| && t < |run[k].log|
    ensures t < |run[k].kinds|
    ensures run[k].log[t].variant == run[k].kinds[t]
       <==> !(run[k].kinds[t].AccountInfo? && run[k].log[t].response.Failed?)
  {
    EveryRunKeeps(urls, run, events, k);
    var s := run[k];
    assert KindOk(s, s.log[t].task) && s.log[t] == AnswerTo(s.log[t].task, s.log[t].response);
  }

  /** A worker sends one message for each task it took, in order, unless it is still working on it. */
  lemma {:induction false} OneMessagePerTask<V>(urls: set<Url>, run: seq<State<V>>, events: seq<Event<V>>, k: nat, u: Url)
    requires IsRun(urls, run, events) && k < |run| && u in urls
    ensures u in run[k].workers
    ensures
      var w := run[k].workers[u];
      Rising(w.sent) && w.taken == w.sent + if w.task.Some? then [w.task.value] else []
  {
    EveryRunKeeps(urls, run, events, k);
    var w := run[k].workers[u];
    assert WorkerOk(w, Begun(run[k]));
    assert forall i :: 0 <= i < |w.sent| ==> w.sent[i] == (w.taken + w.inbox)[i];
  }

  /** The channel, made with room for one message per endpoint, has room whenever a worker sends. */
  lemma {:induction false} SendNeverWaits<V>(urls: set<Url>, run: seq<State<V>>, events: seq<Event<V>>, k: nat, u: Url)
    requires IsRun(urls, run, events) && k < |run| && u in run[k].workers
    requires run[k].workers[u].task.Some? && Collecting(run[k], run[k].workers[u].task.value)
    ensures |run[k].channel| + |run[k].votes| < |urls|
  {
    EveryRunKeeps(urls, run, events, k);
    NotSentYet(run[k], u);
    RoomToSend(run[k], u);
  }

  // ---- Quorum safety ----

  predicate OnlyReports<V(==)>(s: State<V>, u: Url, t: TaskId, v: V) {
    (u, t) in s.answers ==> s.answers[(u, t)] == v
  }

  lemma {:induction false} HonestVotes<V>(s: State<V>, t: TaskId, votes: set<Vote<V>>, honest: set<Url>, v: V)
    requires FullBallot(s, t, votes) && honest <= s.workers.Keys
    requires forall u :: u in honest ==> OnlyReports(s, u, t, v)
    ensures |votes| == |s.workers| && |VotesFor(votes, v)| >= |honest|
  {
    VotersCount(votes);
    assert OnePerVoter(VotesFor(votes, v));
    VotersCount(VotesFor(votes, v));
    forall u | u in honest ensures u in Voters(VotesFor(votes, v)) {
      assert u in Voters(votes);
      var x :| x in votes && x.from == u;
      assert VoteOk(s, t, x);
      assert OnlyReports(s, u, t, v);
      assert x in VotesFor(votes, v);
    }
    SubsetSize(honest, Voters(VotesFor(votes, v)));
  }

  /**
   * In every run: if more than half of the endpoints report only `v` for a task, then whenever the votes
   * for it are counted the plurality is `v`, and the judged answer is `v` if the judge says `v`, else none.
   */
  lemma {:induction false} QuorumSafety<V(!new)>(urls: set<Url>, run: seq<State<V>>, events: seq<Event<V>>, k: nat, t: TaskId,
                              honest: set<Url>, v: V, judge: V, r: Outcome<V>)
    requires IsRun(urls, run, events) && k < |run|
    requires t < |run[k].log| && run[k].log[t].response.Decided?
    requires honest <= urls && 2 * |honest| > |urls|
    requires forall u :: u in honest ==> OnlyReports(run[k], u, t, v)
    requires Pluralities(run[k].log[t].response.votes, r)
    ensures r == Ok(v)
    ensures JudgedEqual(r, judge) == if judge == v then Ok(v) else Err
  {
    var s := run[k];
    var votes := s.log[t].response.votes;
    EveryRunKeeps(urls, run, events, k);
    assert FullBallot(s, t, votes);
    HonestVotes(s, t, votes, honest, v);
    MajorityLeads(votes, v);
    if r.Ok? {
      LeaderIsUnique(votes, v, r.value);
    }
  }

  /** The same for `get_slot`: the judge's slot is answered exactly when it does not run ahead of `v`. */
  lemma {:induction false} SlotQuorumSafety(urls: set<Url>, run: seq<State<nat>>, events: seq<Event<nat>>, k: nat, t: TaskId,
                         honest: set<Url>, v: nat, judge: nat, r: Outcome<nat>)
    requires IsRun(urls, run, events) && k < |run|
    requires t < |run[k].log| && run[k].log[t].response.Decided?
    requires honest <= urls && 2 * |honest| > |urls|
    requires forall u :: u in honest ==> OnlyReports(run[k], u, t, v)
    requires Pluralities(run[k].log[t].response.votes, r)
    ensures JudgedSlot(r, judge) == if judge <= v then Ok(judge) else Err
  {
    QuorumSafety(urls, run, events, k, t, honest, v, judge, r);
  }

  /** The votes as `HashMap` from endpoint to value, the form `deal_get_signatures_for_address` keeps. */
  function ByEndpoint<V(==)>(votes: set<Vote<V>>): map<Url, V>
    requires OnePerVoter(votes)
  {
    map x | x in votes :: x.from := x.value
  }

  /** Counted votes are one list from every configured endpoint, each as that endpoint reported it. */
  lemma {:induction false} EveryEndpointCounts<V(!new)>(urls: set<Url>, run: seq<State<V>>, events: seq<Event<V>>, k: nat, t: TaskId)
    requires IsRun(urls, run, events) && k < |run|
    requires t < |run[k].log| && run[k].log[t].response.Decided?
    ensures OnePerVoter(run[k].log[t].response.votes)
    ensures ByEndpoint(run[k].log[t].response.votes).Keys == urls
    ensures forall u :: u in urls ==> Reported(run[k], u, t, ByEndpoint(run[k].log[t].response.votes)[u])
  {
    var s := run[k];
    var votes := s.log[t].response.votes;
    EveryRunKeeps(urls, run, events, k);
    assert FullBallot(s, t, votes);
    forall u | u in urls ensures u in ByEndpoint(votes) && Reported(s, u, t, ByEndpoint(votes)[u]) {
      assert u in Voters(votes);
      var x :| x in votes && x.from == u;
      assert VoteOk(s, t, x);
    }
    forall u | u in ByEndpoint(votes) ensures u in urls {
      var x :| x in votes && x.from == u;
      assert VoteOk(s, t, x);
    }
  }

  lemma {:induction false} RunGrows<V>(urls: set<Url>, run: seq<State<V>>, events: seq<Event<V>>, e: Event<V>)
    requires IsRun(urls, run, events) && Enabled(run[|events|], e)
    ensures IsRun(urls, run + [Next(run[|events|], e)], events + [e])
  {
    var longer, more := run + [Next(run[|events|], e)], events + [e];
    forall i | 0 <= i < |more| ensures StepAt(longer, more, i) {
      if i < |events| {
        assert StepAt(run, events, i);
      }
    }
  }

  /** One endpoint has been handed one task. */
  lemma {:induction false} OneTaken<V>(u: Url, kind: Kind) returns (run: seq<State<V>>, events: seq<Event<V>>, s: State<V>)
    ensures IsRun({u}, run, events) && s == run[|events|]
    ensures s.workers == map[u := Worker([], [0], Some(0), 0, [])] && s.kinds == [kind]
    ensures s.current == Some(Task(0, kind)) && s.channel == [] && s.votes == {} && s.log == []
  {
    s := Start<V>({u});
    run, events := [s], [];
    RunGrows({u}, run, events, Submit(kind));
    s := Next(s, Submit(kind));
    run, events := run + [s], events + [Submit(kind)];
    RunGrows({u}, run, events, Begin);
    s := Next(s, Begin);
    run, events := run + [s], events + [Begin];
    assert [] + [0] == [0] && s.workers == map[u := Worker([0], [], None, 0, [])];
    RunGrows({u}, run, events, Take(u));
    s := Next(s, Take(u));
    run, events := run + [s], events + [Take(u)];
    assert s.workers[u] == Worker([], [0], Some(0), 0, []);
  }

  /** Counted answers do happen: one endpoint, one task, five steps. */
  lemma {:induction false} DecidedIsReachable<V>(u: Url, v: V) returns (run: seq<State<V>>, events: seq<Event<V>>)
    ensures IsRun({u}, run, events)
    ensures run[|run| - 1].log == [AnswerTo(Task(0, Slot), Decided({Vote(v, u)}))]
  {
    var s;
    run, events, s := OneTaken(u, Slot);
    RunGrows({u}, run, events, Reports(u, v));
    s := Next(s, Reports(u, v));
    run, events := run + [s], events + [Reports(u, v)];
    assert s.channel == [Message(Some(v), u)] && s.workers.Keys == {u} && |s.workers| == |s.workers.Keys| == 1;
    assert {} + {Vote(v, u)} == {Vote(v, u)} && |{Vote(v, u)}| == 1;
    RunGrows({u}, run, events, Collect(false));
    s := Next(s, Collect(false));
    run, events := run + [s], events + [Collect(false)];
  }

  /**
   The mismatched variant does happen: one endpoint, one task for account info, three failed tries. The
   requester is answered in the variant for slots.
   */
  lemma {:induction false} MismatchIsReachable<V>(u: Url) returns (run: seq<State<V>>, events: seq<Event<V>>)
    ensures IsRun({u}, run, events)
    ensures run[|run| - 1].log == [Answer(Task(0, AccountInfo), Failed, Slot)]
    ensures run[|run| - 1].kinds == [AccountInfo]
  {
    var s;
    run, events, s := OneTaken(u, AccountInfo);
    var tries := 0;
    while tries < ATTEMPTS
      invariant tries <= ATTEMPTS && IsRun({u}, run, events) && s == run[|events|]
      invariant s.workers == map[u := Worker([], [0], Some(0), tries, [])] && s.kinds == [AccountInfo]
      invariant s.current == Some(Task(0, AccountInfo)) && s.channel == [] && s.votes == {} && s.log == []
    {
      RunGrows({u}, run, events, TryFails(u));
      s := Next(s, TryFails(u));
      run, events := run + [s], events + [TryFails(u)];
      tries := tries + 1;
    }
    RunGrows({u}, run, events, GivesUp(u));
    s := Next(s, GivesUp(u));
    run, events := run + [s], events + [GivesUp(u)];
    RunGrows({u}, run, events, Collect(false));
    s := Next(s, Collect(false));
    run, events := run + [s], events + [Collect(false)];
  }
}
