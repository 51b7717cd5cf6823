/** The cache-warming driver `main` (warm_history.py:77-123): for each picked
    user it posts to `/recommend`, feeds the track ids of each answer back as
    the next request's `online_tracks`, and records which users got online
    history written and which saw `similar_online` recommendations. */
module Warming {
  import opened Wrappers
  import opened Seqs
  import opened Responses
  import opened Picking

  /** The JSON payload of one POST: `online_tracks` is present only when seeds exist. */
  datatype Request = Request(userId: int, onlineTracks: Option<seq<int>>)

  /** What the HTTP call yields: a decoded body, or an error that aborts the run. */
  datatype Reply = Received(body: Response) | Failed(code: int)

  /** The endpoint, whose state (session store, cache) is shaped by every
      request it has received: it answers the last request of the log it is given. */
  type Endpoint = seq<Request> -> Reply

  /** One completed request and the body answering it. */
  datatype Exchange = Exchange(request: Request, response: Response)

  /** The rounds driven for one user and the two flags the loop keeps. */
  datatype UserRun = UserRun(exchanges: seq<Exchange>, wroteOnline: bool, sawSimilar: bool)

  /** A user whose rounds stopped because a request failed. */
  datatype Abort = Abort(completed: seq<Exchange>, pending: Request, code: int)

  /** Why the whole driver stops with an error. */
  datatype WarmError = PickFailed(error: PickError) | NoUserIds | RequestFailed(user: int, abort: Abort)

  /** The content of the `warmed_users` file. */
  datatype Report = Report(picked: seq<int>, warmed: seq<int>, withSimilar: seq<int>)

  /** The number of rounds the loop runs at most: `max(1, rounds)`. */
  function RoundCap(rounds: int): (c: nat)
    ensures c >= 1 && c >= rounds
    ensures c == 1 || c == rounds
  {
    if rounds >= 1 then rounds else 1
  }

  function RequestsOf(ex: seq<Exchange>): (r: seq<Request>)
    ensures |r| == |ex| && forall i :: 0 <= i < |ex| ==> r[i] == ex[i].request
  {
    seq(|ex|, i requires 0 <= i < |ex| => ex[i].request)
  }

  /** The seeds an exchange hands to the next round. */
  function SeedsAfter(e: Exchange, seedTake: int): seq<int> {
    TakeSeeds(e.response, seedTake)
  }

  /** The request protocol of one user: the first request carries no
      `online_tracks`, and each later one carries exactly the non-empty seeds
      of the answer before it. */
  predicate Chained(user: int, seedTake: int, ex: seq<Exchange>) {
    (|ex| > 0 ==> ex[0].request == Request(user, None))
    && forall i :: 0 <= i < |ex| - 1 ==>
         SeedsAfter(ex[i], seedTake) != [] && ex[i + 1].request == Request(user, Some(SeedsAfter(ex[i], seedTake)))
  }

  /** Every response is what the endpoint answered once the request was
      appended to everything sent before it. */
  predicate Answered(endpoint: Endpoint, log: seq<Request>, ex: seq<Exchange>) {
    forall i :: 0 <= i < |ex| ==> endpoint(log + RequestsOf(ex[..i + 1])) == Received(ex[i].response)
  }

  /** Some request of the run carried `online_tracks`. */
  predicate SentOnline(ex: seq<Exchange>) {
    exists i :: 0 <= i < |ex| && ex[i].request.onlineTracks.Some?
  }

  /** Some answer of the run held a `similar_online` item. */
  predicate SawSimilar(ex: seq<Exchange>) {
    exists i :: 0 <= i < |ex| && SourcesHaveSimilar(ex[i].response)
  }

  /** A complete run for one user: between one and `max(1, rounds)` requests,
      stopping early only after an answer without seeds; `wroteOnline` says
      some request carried `online_tracks` and `sawSimilar` that some answer
      held a `similar_online` item. */
  predicate ValidRun(user: int, rounds: int, seedTake: int, endpoint: Endpoint, log: seq<Request>, run: UserRun) {
    var ex := run.exchanges;
    1 <= |ex| <= RoundCap(rounds)
    && Chained(user, seedTake, ex)
    && Answered(endpoint, log, ex)
    && (|ex| < RoundCap(rounds) ==> SeedsAfter(ex[|ex| - 1], seedTake) == [])
    && (run.wroteOnline <==> SentOnline(ex))
    && (run.sawSimilar <==> SawSimilar(ex))
  }

  /** A run cut short by a failed request: the completed rounds follow the
      protocol, and the pending request is the one the protocol sends next. */
  predicate ValidAbort(user: int, rounds: int, seedTake: int, endpoint: Endpoint, log: seq<Request>, a: Abort) {
    var ex := a.completed;
    |ex| < RoundCap(rounds)
    && Chained(user, seedTake, ex)
    && Answered(endpoint, log, ex)
    && (|ex| == 0 ==> a.pending == Request(user, None))
    && (|ex| > 0 ==> SeedsAfter(ex[|ex| - 1], seedTake) != []
                     && a.pending == Request(user, Some(SeedsAfter(ex[|ex| - 1], seedTake))))
    && endpoint(log + RequestsOf(ex) + [a.pending]) == Failed(a.code)
  }

  /** Online history was written for a user exactly when at least two
      requests were sent, i.e. some answer yielded seeds and a round was left. */
  lemma WroteOnlineIffSeveralRequests(user: int, rounds: int, seedTake: int, endpoint: Endpoint, log: seq<Request>, run: UserRun)
    requires ValidRun(user, rounds, seedTake, endpoint, log, run)
    ensures run.wroteOnline <==> |run.exchanges| >= 2
  {
    var ex := run.exchanges;
    if |ex| >= 2 {
      assert ex[1].request.onlineTracks.Some?;
    } else {
      assert !SentOnline(ex) by { assert ex[0].request.onlineTracks.None?; }
    }
  }

  /** Every request after the first carries a non-empty `online_tracks`. */
  lemma LaterRequestsCarrySeeds(user: int, seedTake: int, ex: seq<Exchange>, i: nat)
    requires Chained(user, seedTake, ex) && 0 < i < |ex|
    ensures ex[i].request.userId == user
    ensures ex[i].request.onlineTracks.Some? && ex[i].request.onlineTracks.value != []
  {
    assert ex[(i - 1) + 1].request == Request(user, Some(SeedsAfter(ex[i - 1], seedTake)));
  }

  /** The protocol leaves no freedom: given the endpoint and what it had seen
      before, a user's run is uniquely determined. */
  lemma {:induction false} ValidRunUnique(user: int, rounds: int, seedTake: int, endpoint: Endpoint, log: seq<Request>, r1: UserRun, r2: UserRun)
    requires ValidRun(user, rounds, seedTake, endpoint, log, r1)
    requires ValidRun(user, rounds, seedTake, endpoint, log, r2)
    ensures r1 == r2
  {
    var e1, e2 := r1.exchanges, r2.exchanges;
    var n := if |e1| <= |e2| then |e1| else |e2|;
    SamePrefix(user, seedTake, endpoint, log, e1, e2, n);
    assert e1[n - 1] == e2[n - 1] by { assert e1[..n][n - 1] == e2[..n][n - 1]; }
    assert |e1| == |e2|;
    assert e1 == e1[..n] && e2 == e2[..n];
  }

  /** Two protocol-following runs against the same endpoint agree on their
      first `n` exchanges. */
  lemma {:induction false} SamePrefix(user: int, seedTake: int, endpoint: Endpoint, log: seq<Request>, e1: seq<Exchange>, e2: seq<Exchange>, n: nat)
    requires Chained(user, seedTake, e1) && Answered(endpoint, log, e1)
    requires Chained(user, seedTake, e2) && Answered(endpoint, log, e2)
    requires n <= |e1| && n <= |e2|
    ensures e1[..n] == e2[..n]
  {
    if n > 0 {
      SamePrefix(user, seedTake, endpoint, log, e1, e2, n - 1);
      var k := n - 1;
      if k == 0 {
        assert e1[0].request == e2[0].request;
      } else {
        assert e1[k - 1] == e2[k - 1] by { assert e1[..k][k - 1] == e2[..k][k - 1]; }
        assert e1[(k - 1) + 1].request == e2[(k - 1) + 1].request;
      }
      assert e1[..k + 1] == e1[..k] + [e1[k]];
      assert e2[..k + 1] == e2[..k] + [e2[k]];
      assert RequestsOf(e1[..k + 1]) == RequestsOf(e2[..k + 1]);
      assert Received(e1[k].response) == Received(e2[k].response);
    }
  }

  /** An exchange answered by the endpoint after the earlier ones keeps all
      responses answered. */
  lemma AnsweredSnoc(endpoint: Endpoint, log: seq<Request>, ex: seq<Exchange>, e: Exchange)
    requires Answered(endpoint, log, ex)
    requires endpoint(log + RequestsOf(ex) + [e.request]) == Received(e.response)
    ensures Answered(endpoint, log, ex + [e])
  {
    var ex' := ex + [e];
    assert ex'[..|ex| + 1] == ex';
    assert RequestsOf(ex') == RequestsOf(ex) + [e.request];
    assert log + RequestsOf(ex') == log + RequestsOf(ex) + [e.request];
    forall i | 0 <= i < |ex'|
      ensures endpoint(log + RequestsOf(ex'[..i + 1])) == Received(ex'[i].response)
    {
      if i < |ex| {
        assert ex'[..i + 1] == ex[..i + 1];
      }
    }
  }

  /** The flags of a run grow by what its newest exchange shows. */
  lemma FlagsSnoc(ex: seq<Exchange>, e: Exchange)
    ensures SentOnline(ex + [e]) <==> SentOnline(ex) || e.request.onlineTracks.Some?
    ensures SawSimilar(ex + [e]) <==> SawSimilar(ex) || SourcesHaveSimilar(e.response)
  {
    var ex' := ex + [e];
    assert ex'[|ex|] == e;
    if SentOnline(ex) {
      var i :| 0 <= i < |ex| && ex[i].request.onlineTracks.Some?;
      assert ex'[i] == ex[i];
    }
    if SawSimilar(ex) {
      var i :| 0 <= i < |ex| && SourcesHaveSimilar(ex[i].response);
      assert ex'[i] == ex[i];
    }
  }

  /** Sending the request the protocol prescribes next keeps the run chained. */
  lemma ChainedSnoc(user: int, seedTake: int, ex: seq<Exchange>, e: Exchange)
    requires Chained(user, seedTake, ex)
    requires |ex| == 0 ==> e.request == Request(user, None)
    requires |ex| > 0 ==> SeedsAfter(ex[|ex| - 1], seedTake) != []
                          && e.request == Request(user, Some(SeedsAfter(ex[|ex| - 1], seedTake)))
    ensures Chained(user, seedTake, ex + [e])
  {
  }

  /** The payload of the next request: `online_tracks` is set only when
      there are seeds. */
  function NextRequest(user: int, seeds: seq<int>): (req: Request)
    ensures req.userId == user
    ensures req.onlineTracks.Some? <==> seeds != []
    ensures req.onlineTracks.Some? ==> req.onlineTracks.value == seeds
  {
    if seeds != [] then Request(user, Some(seeds)) else Request(user, None)
  }

  /** What the loop of `WarmUser` knows after the exchanges `ex`: they follow
      the protocol, `seeds` are the seeds of the last answer, and the flags
      summarise the exchanges. */
  predicate Progress(user: int, seedTake: int, endpoint: Endpoint, log: seq<Request>, ex: seq<Exchange>,
                     seeds: seq<int>, wroteOnline: bool, sawSimilar: bool) {
    Chained(user, seedTake, ex)
    && Answered(endpoint, log, ex)
    && (|ex| == 0 ==> seeds == [])
    && (|ex| > 0 ==> seeds == SeedsAfter(ex[|ex| - 1], seedTake))
    && (wroteOnline <==> SentOnline(ex))
    && (sawSimilar <==> SawSimilar(ex))
  }

  /** One round: sending the next request and receiving `recs` keeps `Progress`. */
  lemma ProgressStep(user: int, seedTake: int, endpoint: Endpoint, log: seq<Request>, ex: seq<Exchange>,
                     seeds: seq<int>, wroteOnline: bool, sawSimilar: bool, recs: Response)
    requires Progress(user, seedTake, endpoint, log, ex, seeds, wroteOnline, sawSimilar)
    requires |ex| > 0 ==> seeds != []
    requires endpoint(log + RequestsOf(ex) + [NextRequest(user, seeds)]) == Received(recs)
    ensures Progress(user, seedTake, endpoint, log, ex + [Exchange(NextRequest(user, seeds), recs)],
                     TakeSeeds(recs, seedTake), wroteOnline || seeds != [], sawSimilar || SourcesHaveSimilar(recs))
  {
    var e := Exchange(NextRequest(user, seeds), recs);
    AnsweredSnoc(endpoint, log, ex, e);
    FlagsSnoc(ex, e);
    ChainedSnoc(user, seedTake, ex, e);
  }

  /** The rounds for one user (warm_history.py:87-111): post, remember whether
      a `similar_online` item came back, take the seeds of the answer, and
      stop when there are none or `max(1, rounds)` requests have been sent.
      `log` is everything the endpoint received before this user. */
  method WarmUser(user: int, rounds: int, seedTake: int, endpoint: Endpoint, log: seq<Request>)
    returns (r: Result<UserRun, Abort>)
    ensures r.Success? ==> ValidRun(user, rounds, seedTake, endpoint, log, r.value)
    ensures r.Failure? ==> ValidAbort(user, rounds, seedTake, endpoint, log, r.error)
  {
    var seeds: seq<int> := [];
    var wroteOnline := false;
    var sawSimilar := false;
    var ex: seq<Exchange> := [];
    var round := 0;
    while round < RoundCap(rounds)
      invariant round == |ex| <= RoundCap(rounds)
      invariant Progress(user, seedTake, endpoint, log, ex, seeds, wroteOnline, sawSimilar)
      invariant round > 0 ==> seeds != []
    {
      var request := NextRequest(user, seeds);
      var reply := endpoint(log + RequestsOf(ex) + [request]);
      if reply.Failed? {
        return Failure(Abort(ex, request, reply.code));
      }
      var recs := reply.body;
      ProgressStep(user, seedTake, endpoint, log, ex, seeds, wroteOnline, sawSimilar, recs);
      wroteOnline := wroteOnline || seeds != [];
      sawSimilar := sawSimilar || SourcesHaveSimilar(recs);
      ex := ex + [Exchange(request, recs)];
      seeds := TakeSeeds(recs, seedTake);
      round := round + 1;
      if seeds == [] {
        break;
      }
    }
    return Success(UserRun(ex, wroteOnline, sawSimilar));
  }

  /** Every request the endpoint received during the given runs, in order. */
  function AllRequests(runs: seq<UserRun>): seq<Request> {
    if |runs| == 0 then [] else AllRequests(runs[..|runs| - 1]) + RequestsOf(runs[|runs| - 1].exchanges)
  }

  /** The first `|runs|` users were each driven by a complete run, one after
      the other against the same endpoint. */
  predicate RunsFollowProtocol(users: seq<int>, rounds: int, seedTake: int, endpoint: Endpoint, runs: seq<UserRun>) {
    |runs| <= |users|
    && forall i :: 0 <= i < |runs| ==> ValidRun(users[i], rounds, seedTake, endpoint, AllRequests(runs[..i]), runs[i])
  }

  /** Driving the next user extends the protocol-following runs. */
  lemma RunsSnoc(users: seq<int>, rounds: int, seedTake: int, endpoint: Endpoint, runs: seq<UserRun>, run: UserRun)
    requires RunsFollowProtocol(users, rounds, seedTake, endpoint, runs) && |runs| < |users|
    requires ValidRun(users[|runs|], rounds, seedTake, endpoint, AllRequests(runs), run)
    ensures RunsFollowProtocol(users, rounds, seedTake, endpoint, runs + [run])
    ensures AllRequests(runs + [run]) == AllRequests(runs) + RequestsOf(run.exchanges)
  {
    var runs' := runs + [run];
    assert runs'[..|runs|] == runs;
    forall i | 0 <= i < |runs|
      ensures ValidRun(users[i], rounds, seedTake, endpoint, AllRequests(runs'[..i]), runs'[i])
    {
      assert runs'[..i] == runs[..i];
    }
  }

  /** The first `|runs|` users are sorted into `warmed` and `withSimilar` as
      `main` does: in pick order, a user in `warmed` exactly when its run sent
      at least two requests, in `withSimilar` exactly when some answer to it
      held a `similar_online` item. */
  ghost predicate Classified(users: seq<int>, runs: seq<UserRun>, warmed: seq<int>, withSimilar: seq<int>) {
    |runs| <= |users|
    && IsSubsequence(warmed, users[..|runs|])
    && IsSubsequence(withSimilar, users[..|runs|])
    && (forall u :: u in warmed <==> exists i :: 0 <= i < |runs| && users[i] == u && |runs[i].exchanges| >= 2)
    && (forall u :: u in withSimilar <==> exists i :: 0 <= i < |runs| && users[i] == u && SawSimilar(runs[i].exchanges))
  }

  /** Sorting one more user keeps the classification. */
  lemma ClassifiedSnoc(users: seq<int>, runs: seq<UserRun>, warmed: seq<int>, withSimilar: seq<int>, run: UserRun)
    requires Classified(users, runs, warmed, withSimilar) && |runs| < |users|
    ensures var u := users[|runs|];
      Classified(users, runs + [run],
                 if |run.exchanges| >= 2 then warmed + [u] else warmed,
                 if SawSimilar(run.exchanges) then withSimilar + [u] else withSimilar)
  {
    var n := |runs|;
    var runs' := runs + [run];
    assert users[..n + 1][..n] == users[..n];
    assert forall i :: 0 <= i < n ==> runs'[i] == runs[i];
    assert runs'[n] == run;
  }

  /** `main` (warm_history.py:77-111): picks the users, fails when there are
      none, drives each user's rounds in order, and reports the picked users,
      those that got online history written (`warmed`) and those that saw a
      `similar_online` item. `runs` holds the rounds driven, user by user; a
      failed request stops everything. */
  method Warm(ds: Dataset, usersTake: int, rounds: int, seedTake: int, endpoint: Endpoint)
    returns (r: Result<Report, WarmError>, runs: seq<UserRun>)
    ensures Pick(ds, usersTake).Failure? ==> r == Failure(PickFailed(Pick(ds, usersTake).error)) && runs == []
    ensures Pick(ds, usersTake) == Success([]) ==> r == Failure(NoUserIds) && runs == []
    ensures Pick(ds, usersTake).Success? && Pick(ds, usersTake).value != [] ==>
              var picked := Pick(ds, usersTake).value;
              RunsFollowProtocol(picked, rounds, seedTake, endpoint, runs)
              && (r.Failure? ==>
                    |runs| < |picked| && r.error.RequestFailed? && r.error.user == picked[|runs|]
                    && ValidAbort(picked[|runs|], rounds, seedTake, endpoint, AllRequests(runs), r.error.abort))
              && (r.Success? ==>
                    |runs| == |picked| && r.value.picked == picked
                    && Classified(picked, runs, r.value.warmed, r.value.withSimilar))
  {
    var pick := PickUserIds(ds, usersTake);
    if pick.Failure? {
      return Failure(PickFailed(pick.error)), [];
    }
    var userIds := pick.value;
    if userIds == [] {
      return Failure(NoUserIds), [];
    }
    var warmed: seq<int> := [];
    var withSimilar: seq<int> := [];
    var log: seq<Request> := [];
    runs := [];
    var idx := 0;
    while idx < |userIds|
      invariant idx == |runs| <= |userIds|
      invariant log == AllRequests(runs)
      invariant RunsFollowProtocol(userIds, rounds, seedTake, endpoint, runs)
      invariant Classified(userIds, runs, warmed, withSimilar)
    {
      var user := userIds[idx];
      var outcome := WarmUser(user, rounds, seedTake, endpoint, log);
      if outcome.Failure? {
        return Failure(RequestFailed(user, outcome.error)), runs;
      }
      var run := outcome.value;
      WroteOnlineIffSeveralRequests(user, rounds, seedTake, endpoint, log, run);
      ClassifiedSnoc(userIds, runs, warmed, withSimilar, run);
      if run.wroteOnline {
        warmed := warmed + [user];
      }
      if run.sawSimilar {
        withSimilar := withSimilar + [user];
      }
      RunsSnoc(userIds, rounds, seedTake, endpoint, runs, run);
      log := log + RequestsOf(run.exchanges);
      runs := runs + [run];
      idx := idx + 1;
    }
    return Success(Report(userIds, warmed, withSimilar)), runs;
  }
}
