/** The warm queue (app/station_extract.py): requesters and one worker share
    the dictionary of pending jobs and the queue. Each method is one step
    under the lock, or one `get` of the queue. */
module WarmQueue {
  import opened Bytes

  const QUEUE_MAX := 64

  type Job = (string, Option<string>)
  type Config = string
  type Uploads = map<string, string>

  /** What one call of `queue_warm` asks for. */
  datatype Request = Request(job: Job, config: Config, uploads: Uploads)

  function OfJob(asked: seq<Request>, job: Job): (r: seq<Request>)
    ensures forall x <- r :: x in asked && x.job == job
  {
    if asked == [] then [] else (if asked[0].job == job then [asked[0]] else []) + OfJob(asked[1..], job)
  }

  function Others(asked: seq<Request>, job: Job): seq<Request> {
    if asked == [] then [] else (if asked[0].job == job then [] else [asked[0]]) + Others(asked[1..], job)
  }

  /** The upload hashes of several requests: of two for one provider the later. */
  function Merged(list: seq<Request>): Uploads {
    if list == [] then map[] else Merged(list[..|list| - 1]) + list[|list| - 1].uploads
  }

  /** A run: the job, what it was given, and the requests it answers. */
  datatype Run = Run(job: Job, config: Config, uploads: Uploads, answers: seq<Request>)

  /** The newest configuration, with the merged hashes, of at least one
      request. */
  ghost predicate Faithful(run: Run) {
    && run.answers != [] && (forall x <- run.answers :: x.job == run.job)
    && run.config == run.answers[|run.answers| - 1].config && run.uploads == Merged(run.answers)
  }

  function Answered(runs: seq<Run>): seq<Request> {
    if runs == [] then [] else Answered(runs[..|runs| - 1]) + runs[|runs| - 1].answers
  }

  // ----- lists of requests

  lemma {:induction false} OfJobMore(asked: seq<Request>, x: Request, job: Job)
    ensures OfJob(asked + [x], job) == OfJob(asked, job) + if x.job == job then [x] else []
  {
    if asked == [] {
      assert asked + [x] == [x] && [x][1..] == [];
    } else {
      var more := if x.job == job then [x] else [];
      assert (asked + [x])[1..] == asked[1..] + [x];
      OfJobMore(asked[1..], x, job);
      var first := if asked[0].job == job then [asked[0]] else [];
      assert first + (OfJob(asked[1..], job) + more) == first + OfJob(asked[1..], job) + more;
    }
  }

  lemma {:induction false} TakenAndLeft(asked: seq<Request>, job: Job)
    ensures multiset(asked) == multiset(OfJob(asked, job)) + multiset(Others(asked, job))
  {
    if asked != [] {
      TakenAndLeft(asked[1..], job);
      assert asked == [asked[0]] + asked[1..];
    }
  }

  lemma {:induction false} OthersOf(asked: seq<Request>, job: Job, other: Job)
    ensures OfJob(Others(asked, job), other) == if other == job then [] else OfJob(asked, other)
  {
    if asked != [] {
      OthersOf(asked[1..], job, other);
      var rest := Others(asked[1..], job);
      if asked[0].job != job {
        assert Others(asked, job) == [asked[0]] + rest && ([asked[0]] + rest)[1..] == rest;
      } else {
        assert Others(asked, job) == rest;
      }
    }
  }

  function Count(queue: seq<Job>, job: Job): nat {
    if queue == [] then 0 else (if queue[0] == job then 1 else 0) + Count(queue[1..], job)
  }

  lemma {:induction false} CountMore(queue: seq<Job>, x: Job, job: Job)
    ensures Count(queue + [x], job) == Count(queue, job) + if x == job then 1 else 0
  {
    if queue == [] {
      assert queue + [x] == [x] && [x][1..] == [];
    } else {
      assert (queue + [x])[1..] == queue[1..] + [x];
      CountMore(queue[1..], x, job);
    }
  }

  type Pending = map<Job, (Config, Uploads)>

  /** A pending job has exactly one entry in the queue or in the worker's hand,
      and holds the newest configuration and the merged hashes of the requests
      that wait for it; a job without such requests has no entry. */
  ghost predicate JobHolds(pending: Pending, queue: seq<Job>, hand: Option<Job>, asked: seq<Request>, job: Job) {
    var list := OfJob(asked, job);
    && Count(queue, job) + (if hand == Some(job) then 1 else 0) == (if job in pending then 1 else 0)
    && (job in pending <==> list != [])
    && (job in pending ==> pending[job] == (list[|list| - 1].config, Merged(list)))
  }

  ghost predicate AllHold(pending: Pending, queue: seq<Job>, hand: Option<Job>, asked: seq<Request>) {
    forall job :: JobHolds(pending, queue, hand, asked, job)
  }

  lemma {:induction false} MergedMore(list: seq<Request>, x: Request)
    ensures Merged(list + [x]) == Merged(list) + x.uploads && Merged([x]) == x.uploads
  {
    assert (list + [x])[..|list|] == list && [x][..0] == [];
  }

  /** A request for a job that waits is merged into it. */
  lemma {:induction false} MergeStep(
    pending: Pending, queue: seq<Job>, hand: Option<Job>, asked: seq<Request>, r: Request)
    requires AllHold(pending, queue, hand, asked) && r.job in pending
    ensures AllHold(pending[r.job := (r.config, pending[r.job].1 + r.uploads)], queue, hand, asked + [r])
  {
    hide OfJob, Count, Merged;
    var after, more := pending[r.job := (r.config, pending[r.job].1 + r.uploads)], asked + [r];
    forall job ensures JobHolds(after, queue, hand, more, job) {
      assert JobHolds(pending, queue, hand, asked, job);
      OfJobMore(asked, r, job);
      MergedMore(OfJob(asked, job), r);
      assert OfJob(asked, job) + [] == OfJob(asked, job);
    }
  }

  lemma {:induction false} NewStep(
    pending: Pending, queue: seq<Job>, hand: Option<Job>, asked: seq<Request>, r: Request)
    requires AllHold(pending, queue, hand, asked) && r.job !in pending
    ensures AllHold(pending[r.job := (r.config, r.uploads)], queue + [r.job], hand, asked + [r])
  {
    hide JobHolds;
    var after, longer, more := pending[r.job := (r.config, r.uploads)], queue + [r.job], asked + [r];
    forall job ensures JobHolds(after, longer, hand, more, job) {
      assert JobHolds(pending, queue, hand, asked, job);
      if job == r.job {
        NewJob(pending, queue, hand, asked, r);
      } else {
        OtherJob(pending, queue, hand, asked, r, job);
      }
    }
  }

  lemma {:induction false} NewJob(pending: Pending, queue: seq<Job>, hand: Option<Job>, asked: seq<Request>, r: Request)
    requires JobHolds(pending, queue, hand, asked, r.job) && r.job !in pending
    ensures JobHolds(pending[r.job := (r.config, r.uploads)], queue + [r.job], hand, asked + [r], r.job)
  {
    hide OfJob, Count, Merged;
    OfJobMore(asked, r, r.job);
    CountMore(queue, r.job, r.job);
    MergedMore([], r);
    assert [] + [r] == [r];
  }

  lemma {:induction false} OtherJob(
    pending: Pending, queue: seq<Job>, hand: Option<Job>, asked: seq<Request>, r: Request, job: Job)
    requires JobHolds(pending, queue, hand, asked, job) && job != r.job
    ensures JobHolds(pending[r.job := (r.config, r.uploads)], queue + [r.job], hand, asked + [r], job)
  {
    hide OfJob, Count, Merged;
    OfJobMore(asked, r, job);
    CountMore(queue, r.job, job);
    assert OfJob(asked, job) + [] == OfJob(asked, job);
  }

  lemma {:induction false} GetStep(pending: Pending, queue: seq<Job>, asked: seq<Request>)
    requires AllHold(pending, queue, None, asked) && queue != []
    ensures AllHold(pending, queue[1..], Some(queue[0]), asked)
  {
    hide OfJob, Merged;
    forall job ensures JobHolds(pending, queue[1..], Some(queue[0]), asked, job) {
      assert JobHolds(pending, queue, None, asked, job);
    }
  }

  lemma {:induction false} TakeStep(pending: Pending, queue: seq<Job>, job: Job, asked: seq<Request>)
    requires AllHold(pending, queue, Some(job), asked)
    ensures job in pending && AllHold(pending - {job}, queue, None, Others(asked, job))
  {
    hide OfJob, Count, Merged, Others;
    assert JobHolds(pending, queue, Some(job), asked, job);
    var after, left := pending - {job}, Others(asked, job);
    forall j ensures JobHolds(after, queue, None, left, j) {
      assert JobHolds(pending, queue, Some(job), asked, j);
      OthersOf(asked, job, j);
    }
  }

  /** Every accepted request waits, or is answered by one run. */
  ghost predicate Accounted(accepted: seq<Request>, asked: seq<Request>, runs: seq<Run>) {
    multiset(accepted) == multiset(asked) + multiset(Answered(runs))
  }

  lemma {:induction false} OneMoreAsked(accepted: seq<Request>, asked: seq<Request>, runs: seq<Run>, r: Request)
    requires Accounted(accepted, asked, runs)
    ensures Accounted(accepted + [r], asked + [r], runs)
  {
    hide Answered;
  }

  lemma {:induction false} OneMoreRun(accepted: seq<Request>, asked: seq<Request>, runs: seq<Run>, run: Run)
    requires Accounted(accepted, asked, runs) && run.answers == OfJob(asked, run.job)
    ensures Accounted(accepted, Others(asked, run.job), runs + [run])
  {
    hide OfJob, Others;
    TakenAndLeft(asked, run.job);
    assert (runs + [run])[..|runs|] == runs;
  }

  lemma {:induction false} PendingSize(pending: Pending, job: Job, value: (Config, Uploads))
    ensures |pending[job := value]| == |pending| + if job in pending then 0 else 1
    ensures |pending - {job}| <= |pending|
  {
    assert pending[job := value].Keys == pending.Keys + {job};
    assert (pending - {job}).Keys == pending.Keys - {job};
  }

  lemma {:induction false} SomeRequest(asked: seq<Request>)
    ensures asked != [] ==> exists job :: OfJob(asked, job) != []
  {
    if asked != [] { assert OfJob(asked, asked[0].job) != []; }
  }

  class Warm {
    var pending: Pending
    var queue: seq<Job>
    /** The job the worker has taken from the queue and not yet begun. */
    var hand: Option<Job>
    var running: Option<(Job, Config, Uploads)>
    /** Every request accepted, those still waiting, and the runs so far. */
    ghost var accepted: seq<Request>
    ghost var asked: seq<Request>
    ghost var runs: seq<Run>

    /** Besides what holds of each job: at most 64 wait, and every accepted
        request waits or is answered by one run. */
    ghost predicate Valid()
      reads this
    {
      && |pending| <= QUEUE_MAX && AllHold(pending, queue, hand, asked)
      && (forall run <- runs :: Faithful(run))
      && (running.Some? ==>
        runs != [] && var run := runs[|runs| - 1]; running.value == (run.job, run.config, run.uploads))
      && Accounted(accepted, asked, runs)
    }

    constructor ()
      ensures Valid() && accepted == [] && pending == map[]
    {
      pending, queue, hand, running := map[], [], None, None;
      accepted, asked, runs := [], [], [];
    }

    /** `queue_warm`: queued, merged into the job already waiting, or refused
        when the queue is full. */
    method QueueWarm(request: Request) returns (ok: bool)
      requires Valid()
      modifies this`pending, this`queue, this`accepted, this`asked
      ensures Valid()
      ensures ok <==> request.job in old(pending) || |old(pending)| < 64
      ensures ok ==> accepted == old(accepted) + [request] && asked == old(asked) + [request]
      ensures !ok ==> accepted == old(accepted) && pending == old(pending) && queue == old(queue) && asked == old(asked)
    {
      hide AllHold, Accounted, Faithful;
      var job := request.job;
      OneMoreAsked(accepted, asked, runs, request);
      if job in pending {
        MergeStep(pending, queue, hand, asked, request);
        PendingSize(pending, job, (request.config, pending[job].1 + request.uploads));
        pending := pending[job := (request.config, pending[job].1 + request.uploads)];
      } else if |pending| >= QUEUE_MAX {
        return false;
      } else {
        NewStep(pending, queue, hand, asked, request);
        PendingSize(pending, job, (request.config, request.uploads));
        pending := pending[job := (request.config, request.uploads)];
        queue := queue + [job];
      }
      accepted := accepted + [request];
      asked := asked + [request];
      return true;
    }

    /** The worker's `get`. */
    method Get()
      requires Valid() && hand.None? && running.None? && queue != []
      modifies this`queue, this`hand
      ensures Valid() && hand == Some(old(queue)[0]) && queue == old(queue)[1..]
    {
      hide AllHold;
      GetStep(pending, queue, asked);
      hand := Some(queue[0]);
      queue := queue[1..];
    }

    /** `_run_job`: the job in hand is always pending; the run takes all that
        was asked for it. */
    method Take()
      requires Valid() && hand.Some? && running.None?
      modifies this`pending, this`hand, this`running, this`asked, this`runs
      ensures Valid() && hand.None? && running.Some? && running.value.0 == old(hand).value
      ensures old(hand).value !in pending
      ensures runs ==
        old(runs) + [Run(running.value.0, running.value.1, running.value.2, OfJob(old(asked), old(hand).value))]
    {
      hide AllHold, Accounted, Faithful;
      var job := hand.value;
      TakeStep(pending, queue, job, asked);
      TakenIsFaithful(pending, queue, job, asked);
      running := Some((job, pending[job].0, pending[job].1));
      ghost var run := Run(job, pending[job].0, pending[job].1, OfJob(asked, job));
      PendingSize(pending, job, pending[job]);
      OneMoreRun(accepted, asked, runs, run);
      pending := pending - {job};
      hand := None;
      asked := Others(asked, job);
      runs := runs + [run];
    }

    method Finish()
      requires Valid() && running.Some?
      modifies this`running
      ensures Valid() && running.None?
    {
      running := None;
    }

    /** With nothing in the queue and nothing in hand, no request waits. */
    lemma NothingLost()
      requires Valid() && queue == [] && hand.None?
      ensures pending == map[] && forall x <- accepted :: x in Answered(runs)
    {
      forall job ensures job !in pending && OfJob(asked, job) == [] {
        assert JobHolds(pending, queue, hand, asked, job);
      }
      SomeRequest(asked);
      forall x | x in accepted ensures x in Answered(runs) { assert x in multiset(accepted); }
    }
  }

  lemma {:induction false} TakenIsFaithful(pending: Pending, queue: seq<Job>, job: Job, asked: seq<Request>)
    requires AllHold(pending, queue, Some(job), asked)
    ensures job in pending && Faithful(Run(job, pending[job].0, pending[job].1, OfJob(asked, job)))
  {
    assert JobHolds(pending, queue, Some(job), asked, job);
  }
}
