/** The signature answer over whole runs of the protocol: dispatcher, intersection and judge together. */
module SignatureRuns {
  import opened Votes
  import opened Intersections
  import opened Dispatch

  /** The judge's items that every endpoint reported for the task. */
  function ReportedByAll<S(==)>(answers: map<(Url, TaskId), seq<S>>, urls: set<Url>, t: TaskId, judge: seq<S>): set<S> {
    set x | x in judge && forall u :: u in urls ==> (u, t) in answers && x in answers[(u, t)]
  }

  lemma {:induction false} AgreeingIsReported<S>(answers: map<(Url, TaskId), seq<S>>, urls: set<Url>, t: TaskId,
                                                 judge: seq<S>, lists: map<Url, seq<S>>)
    requires urls != {} && lists.Keys == urls
    requires forall u :: u in urls ==> (u, t) in answers && answers[(u, t)] == lists[u]
    ensures Agreeing(judge, lists) == ReportedByAll(answers, urls, t, judge)
  {
    assert lists != map[];
  }

  /**
   In every run: once the lists for a task are counted, what the judge makes of any intersection of them
   is exactly the judge's later items that every endpoint reported for the task, in the judge's order,
   if and only if the request is fair; and it is fair when no list repeats an item.
   */
  lemma {:induction false} SignaturesOverRuns<S(!new)>(urls: set<Url>, run: seq<State<seq<S>>>, events: seq<Event<seq<S>>>,
                                                      k: nat, t: TaskId, judge: seq<S>, agreed: seq<S>)
    requires urls != {} && IsRun(urls, run, events) && k < |run|
    requires t < |run[k].log| && run[k].log[t].response.Decided?
    requires OnePerVoter(run[k].log[t].response.votes)
    requires Intersects(ByEndpoint(run[k].log[t].response.votes), agreed)
    ensures forall u :: u in urls ==> (u, t) in run[k].answers
    ensures Kept(FirstOccurrences(judge), Accepted(judge, agreed)) == Kept(judge, ReportedByAll(run[k].answers, urls, t, judge))
       <==> FairRequest(judge, ByEndpoint(run[k].log[t].response.votes))
    ensures NoRepeat(judge) && (forall u :: u in urls ==> NoRepeat(run[k].answers[(u, t)])) ==>
      FairRequest(judge, ByEndpoint(run[k].log[t].response.votes))
  {
    var s, lists := run[k], ByEndpoint(run[k].log[t].response.votes);
    EveryRunSameEndpoints(urls, run, events, k);
    EveryEndpointCounts(urls, run, events, k, t);
    AnswerIsIntersection(judge, lists, agreed);
    AgreeingIsReported(s.answers, urls, t, judge, lists);
    if NoRepeat(judge) && (forall u :: u in urls ==> NoRepeat(s.answers[(u, t)])) {
      NoRepeatIsFair(judge, lists);
    }
  }
}
