/**
 Whole runs of the service from start-up: any sequence of arriving requests
 and finishing jobs, applied from the empty queue. The arrival numbers and
 the admitted requests are recomputed from the events alone, so the
 theorems below relate the serializer's behaviour to what callers sent.
 */
module Runs {
  import opened Http
  import opened Admission
  import opened Render
  import opened Serializer

  /** Number of requests among the events. */
  function Requests(events: seq<Event>): nat
    decreases |events|
  {
    if events == [] then 0
    else Requests(events[..|events| - 1]) + (if events[|events| - 1].Request? then 1 else 0)
  }

  /** Arrival numbers of the requests whose `url` was truthy, in arrival order. */
  function AdmittedIds(events: seq<Event>): seq<nat>
    decreases |events|
  {
    if events == [] then []
    else
      var before := events[..|events| - 1];
      var e := events[|events| - 1];
      AdmittedIds(before) + (if e.Request? && !Falsy(e.param) then [Requests(before)] else [])
  }

  /** The job each admitted request should become: its arrival number and its normalised `url`, in arrival order. */
  function AdmittedJobs(events: seq<Event>): seq<Job>
    decreases |events|
  {
    if events == [] then []
    else
      var before := events[..|events| - 1];
      var e := events[|events| - 1];
      AdmittedJobs(before)
        + (if e.Request? && !Falsy(e.param) then [Job(Requests(before), Normalize(e.param.text))] else [])
  }

  /** The queued jobs and the one in flight are exactly the admitted jobs from the last one started onwards. */
  predicate JobsMatch(s: State, jobs: seq<Job>) {
    && |s.started| + |s.queue| == |jobs|
    && s.queue == jobs[|s.started|..]
    && (s.current.Some? ==> |s.started| > 0 && s.current.value == jobs[|s.started| - 1])
  }

  /** Every reachable state satisfies the invariant, and its logs agree with the events. */
  lemma {:induction false} Reachable(events: seq<Event>)
    ensures var s := Run(Init, events);
      && Inv(s)
      && s.nextId == Requests(events)
      && s.accepted == AdmittedIds(events)
    decreases |events|
  {
    if events == [] {
      InitInv();
    } else {
      var before := events[..|events| - 1];
      Reachable(before);
      StepPreservesInv(Run(Init, before), events[|events| - 1]);
    }
  }

  /** The admitted jobs carry exactly the admitted arrival numbers, in the same order. */
  lemma {:induction false} AdmittedJobIds(events: seq<Event>)
    ensures Ids(AdmittedJobs(events)) == AdmittedIds(events)
    decreases |events|
  {
    if events != [] {
      var before := events[..|events| - 1];
      var e := events[|events| - 1];
      AdmittedJobIds(before);
      if e.Request? && !Falsy(e.param) {
        IdsAppend(AdmittedJobs(before), Job(Requests(before), Normalize(e.param.text)));
      }
    }
  }

  /**
   Every job waiting in the queue or in flight is the one its request asked
   for: the request's own arrival number and its `url` normalised, with the
   queue holding exactly the admitted jobs not yet started, in arrival order.
   */
  lemma {:induction false} JobsFollowRequests(events: seq<Event>)
    ensures JobsMatch(Run(Init, events), AdmittedJobs(events))
    decreases |events|
  {
    if events != [] {
      var before := events[..|events| - 1];
      var e := events[|events| - 1];
      var s := Run(Init, before);
      var jobs := AdmittedJobs(before);
      JobsFollowRequests(before);
      Reachable(before);
      match e
      case Request(p) => SubmitKeepsJobs(s, jobs, p);
      case Finish(nav, capture) => CompleteKeepsJobs(s, jobs, nav, capture);
    }
  }

  /** An arriving request appends its own job, if admitted, to the jobs still owed. */
  lemma SubmitKeepsJobs(s: State, jobs: seq<Job>, p: Param)
    requires (s.busy <==> s.current.Some?) && (!s.busy ==> s.queue == [])
    requires JobsMatch(s, jobs)
    ensures JobsMatch(Submit(s, p), jobs + (if Falsy(p) then [] else [Job(s.nextId, Normalize(p.text))]))
  {
    if !Falsy(p) {
      var job := Job(s.nextId, Normalize(p.text));
      assert (jobs + [job])[|s.started|..] == jobs[|s.started|..] + [job];
    } else {
      assert jobs + [] == jobs;
    }
  }

  /** Finishing the job in flight moves the next owed job, if any, into flight. */
  lemma CompleteKeepsJobs(s: State, jobs: seq<Job>, nav: Navigation, capture: Capture)
    requires JobsMatch(s, jobs)
    ensures JobsMatch(Complete(s, nav, capture), jobs)
  {
    if s.busy && s.current.Some? && s.queue != [] {
      assert jobs[|s.started| + 1..] == s.queue[1..];
    }
  }

  /** FIFO: jobs reach the renderer in exactly the order their requests were admitted. */
  lemma ServedInArrivalOrder(events: seq<Event>)
    ensures var s := Run(Init, events);
      |s.started| <= |AdmittedIds(events)| && s.started == AdmittedIds(events)[..|s.started|]
  {
    Reachable(events);
  }

  /** At every point of a run, every job started except possibly the one in flight has been answered. */
  lemma NeverTwoInFlight(events: seq<Event>)
    ensures var s := Run(Init, events);
      forall i :: 0 <= i < |s.started| - 1 ==> CountFor(s.replies, s.started[i]) == 1
  {
    var s := Run(Init, events);
    Reachable(events);
    SingleFlight(s);
    forall i | 0 <= i < |s.started| - 1
      ensures CountFor(s.replies, s.started[i]) == 1
    {
      assert s.accepted[i] == s.started[i];
    }
  }

  /** A request with a falsy `url` gets exactly one response, a 400, and no job. */
  lemma RejectedAnsweredOnce(events: seq<Event>, id: nat)
    requires id < Requests(events) && id !in AdmittedIds(events)
    ensures var s := Run(Init, events);
      && CountFor(s.replies, id) == 1
      && (forall r :: r in s.replies && r.request == id ==> r.response == BadRequest)
      && id !in Ids(s.queue) && id !in s.started
  {
    Reachable(events);
  }

  /** An admitted request is only ever answered with a PDF attachment or a 500 carrying the failure's message. */
  lemma AdmittedAnsweredByJob(events: seq<Event>)
    ensures var s := Run(Init, events);
      forall r :: r in s.replies && r.request in AdmittedIds(events) ==> IsJobResponse(r.response)
  {
    Reachable(events);
  }

  /** Applying events one after another is applying their concatenation. */
  lemma {:induction false} RunAppend(s: State, a: seq<Event>, b: seq<Event>)
    ensures Run(s, a + b) == Run(Run(s, a), b)
    decreases |b|
  {
    if b == [] {
      assert a + b == a;
    } else {
      var b' := b[..|b| - 1];
      assert (a + b)[..|a + b| - 1] == a + b';
      RunAppend(s, a, b');
    }
  }

  predicate AllFinish(events: seq<Event>) {
    forall i :: 0 <= i < |events| ==> events[i].Finish?
  }

  /** Work still owed: the queued jobs plus the one in flight. */
  function Backlog(s: State): nat {
    |s.queue| + (if s.busy then 1 else 0)
  }

  /**
   Once as many jobs have finished as there were queued or in flight,
   whatever their outcomes, the serializer is idle and every admitted request
   has received exactly one response. A job that never finishes is a `Finish`
   event that never comes, and then nothing behind it is answered.
   */
  lemma {:induction false} Drain(s: State, finishes: seq<Event>)
    requires Inv(s) && AllFinish(finishes) && |finishes| >= Backlog(s)
    ensures var t := Run(s, finishes);
      && Inv(t) && !t.busy && t.queue == []
      && t.started == t.accepted == s.accepted
      && forall id :: id in s.accepted ==> CountFor(t.replies, id) == 1
    decreases |finishes|
  {
    if finishes == [] {
      assert Backlog(s) == 0;
    } else {
      var e := finishes[0];
      var rest := finishes[1..];
      var s' := Step(s, e);
      StepPreservesInv(s, e);
      assert finishes == [e] + rest;
      RunAppend(s, [e], rest);
      assert Run(s, [e]) == s' by {
        assert [e][..0] == [];
      }
      if s.busy {
        assert Backlog(s') == Backlog(s) - 1;
      } else {
        assert s' == s;
      }
      assert AllFinish(rest) by {
        forall i | 0 <= i < |rest|
          ensures rest[i].Finish?
        {
          assert rest[i] == finishes[i + 1];
        }
      }
      Drain(s', rest);
    }
  }
}
