/**
 The job queue and its single-flight serializer. The process-wide `queue`
 array and `isProcessing` flag become fields of an immutable state, and each
 turn of the event loop becomes one pure transition: a request arrives, or
 the job in flight finishes. Every transition runs to completion before the
 next begins, as callbacks do on the JavaScript event loop.

 Besides the source's own state the record keeps three history logs, so that
 ordering and delivery can be stated: the ids of admitted requests in arrival
 order, the ids of jobs in the order they were handed to the renderer, and
 every response sent, tagged with the id of the request it answers.
 */
module Serializer {
  import opened Http
  import opened Admission
  import opened Render

  datatype Option<T> = None | Some(value: T)

  /** A queued render request: its arrival number and its normalised URL. */
  datatype Job = Job(id: nat, url: string)

  /** A response and the request it answers. */
  datatype Reply = Reply(request: nat, response: Response)

  datatype State = State(
    queue: seq<Job>,
    busy: bool,              // isProcessing
    current: Option<Job>,    // the job whose render is outstanding
    session: nat,            // generation of the browser session
    nextId: nat,             // arrival number of the next request
    accepted: seq<nat>,      // admitted requests, in arrival order
    started: seq<nat>,       // jobs handed to the renderer, in dispatch order
    replies: seq<Reply>)     // responses sent, in sending order

  /** The state once start-up has finished: the browser is configured and nothing has arrived yet. */
  const Init := State([], false, None, 0, 0, [], [], [])

  /** One turn of the event loop. */
  datatype Event =
    | Request(param: Param)                     // GET /generate-pdf arrives
    | Finish(nav: Navigation, capture: Capture) // the job in flight ends

  /** The arrival numbers of the queued jobs, in queue order. */
  function Ids(q: seq<Job>): seq<nat> {
    seq(|q|, i requires 0 <= i < |q| => q[i].id)
  }

  /** `queue.push(job)`: the job goes to the tail; everything else stays. */
  function Push(s: State, job: Job): (t: State)
    ensures |t.queue| == |s.queue| + 1
    ensures t.queue[..|s.queue|] == s.queue && t.queue[|s.queue|] == job
    ensures t.(queue := s.queue) == s
  {
    s.(queue := s.queue + [job])
  }

  /**
   `processQueue`'s entry: nothing happens while a job is in flight or when
   the queue is empty; otherwise the head leaves the queue and becomes the job
   in flight.
   */
  function Dispatch(s: State): (t: State)
    ensures t == s <==> s.busy || s.queue == []
    ensures !s.busy && s.queue != [] ==>
              && t.busy
              && t.current == Some(s.queue[0])
              && [s.queue[0]] + t.queue == s.queue
              && t.started == s.started + [s.queue[0].id]
              && t.(queue := s.queue, busy := s.busy, current := s.current, started := s.started) == s
  {
    if s.busy || s.queue == [] then s
    else
      s.(queue := s.queue[1..], busy := true, current := Some(s.queue[0]),
         started := s.started + [s.queue[0].id])
  }

  /**
   The `/generate-pdf` handler: a falsy `url` is answered with 400 at once and
   never queued; any other gets a job with the normalised URL at the tail of
   the queue, after which the queue is given a chance to dispatch.
   */
  function Submit(s: State, p: Param): (t: State)
    ensures t.nextId == s.nextId + 1
    ensures t.session == s.session
    ensures Falsy(p) ==>
              && t.queue == s.queue && t.busy == s.busy && t.current == s.current
              && t.accepted == s.accepted && t.started == s.started
              && t.replies == s.replies + [Reply(s.nextId, BadRequest)]
    ensures !Falsy(p) ==> t.replies == s.replies && t.accepted == s.accepted + [s.nextId]
    ensures !Falsy(p) && s.busy ==>
              t.queue == s.queue + [Job(s.nextId, Normalize(p.text))] && t.current == s.current
              && t.busy && t.started == s.started
    ensures !Falsy(p) && !s.busy && s.queue == [] ==>
              t.queue == [] && t.busy && t.current == Some(Job(s.nextId, Normalize(p.text)))
              && t.started == s.started + [s.nextId]
    ensures !Falsy(p) && !s.busy && s.queue != [] ==>
              t.busy && t.current == Some(s.queue[0])
              && t.queue == s.queue[1..] + [Job(s.nextId, Normalize(p.text))]
              && t.started == s.started + [s.queue[0].id]
  {
    match Admit(p)
    case Reject(response) => s.(nextId := s.nextId + 1, replies := s.replies + [Reply(s.nextId, response)])
    case Accept(url) => Dispatch(Enqueued(s, url))
  }

  /** An admitted request, numbered, logged and pushed: the state just before the dispatch attempt. */
  function Enqueued(s: State, url: string): (m: State)
    ensures m.queue == s.queue + [Job(s.nextId, url)]
    ensures m.accepted == s.accepted + [s.nextId] && m.nextId == s.nextId + 1
    ensures m.busy == s.busy && m.current == s.current && m.started == s.started
    ensures m.replies == s.replies && m.session == s.session
  {
    Push(s.(nextId := s.nextId + 1, accepted := s.accepted + [s.nextId]), Job(s.nextId, url))
  }

  /**
   The rest of `processQueue`: the job in flight is rendered (its session
   replaced first if the frame was detached), exactly one response is sent for
   it, the flag is cleared, and the next head, if any, is dispatched.
   */
  function Complete(s: State, nav: Navigation, capture: Capture): (t: State)
    ensures !s.busy || s.current.None? ==> t == s
    ensures s.busy && s.current.Some? ==>
              var r := GeneratePdf(s.session, nav, capture);
              && t.replies == s.replies + [Reply(s.current.value.id, ResponseFor(r.outcome))]
              && t.session == r.session
              && t.nextId == s.nextId && t.accepted == s.accepted
              && (s.queue == [] ==> !t.busy && t.current == None && t.queue == [] && t.started == s.started)
              && (s.queue != [] ==>
                    t.busy && t.current == Some(s.queue[0]) && t.queue == s.queue[1..]
                    && t.started == s.started + [s.queue[0].id])
  {
    if !s.busy || s.current.None? then s
    else
      var r := GeneratePdf(s.session, nav, capture);
      var reply := Reply(s.current.value.id, ResponseFor(r.outcome));
      Dispatch(s.(replies := s.replies + [reply], session := r.session, busy := false, current := None))
  }

  function Step(s: State, e: Event): State {
    match e
    case Request(p) => Submit(s, p)
    case Finish(nav, capture) => Complete(s, nav, capture)
  }

  /** The state after the events, applied in order. */
  function Run(s: State, events: seq<Event>): State
    decreases |events|
  {
    if events == [] then s
    else Step(Run(s, events[..|events| - 1]), events[|events| - 1])
  }

  // ---------------------------------------------------------------------------
  // The invariant

  /** Number of responses sent for request `id`. */
  function CountFor(replies: seq<Reply>, id: nat): nat
    decreases |replies|
  {
    if replies == [] then 0
    else CountFor(replies[..|replies| - 1], id) + (if replies[|replies| - 1].request == id then 1 else 0)
  }

  lemma CountForAppend(replies: seq<Reply>, r: Reply, id: nat)
    ensures CountFor(replies + [r], id) == CountFor(replies, id) + (if r.request == id then 1 else 0)
  {
    assert (replies + [r])[..|replies|] == replies;
  }

  /** Request `id` is queued or in flight. */
  predicate Pending(s: State, id: nat) {
    id in Ids(s.queue) || (s.current.Some? && s.current.value.id == id)
  }

  /** Request `id` has arrived and is no longer pending: it was rejected, or its job finished. */
  predicate Answered(s: State, id: nat) {
    id < s.nextId && !Pending(s, id)
  }

  ghost predicate Increasing(a: seq<nat>) {
    forall i, j :: 0 <= i < j < |a| ==> a[i] < a[j]
  }

  /**
   The ordering half of the invariant:
   - the flag is set exactly when a job is in flight (and there is at most one: single-flight);
   - the serializer is never idle while work is queued;
   - the admitted requests are the started jobs followed by the queued ones (FIFO);
   - the job in flight is the one started last;
   - arrival numbers are increasing and already issued.
   */
  ghost predicate OrderInv(s: State) {
    && (s.busy <==> s.current.Some?)
    && (!s.busy ==> s.queue == [])
    && s.accepted == s.started + Ids(s.queue)
    && (s.busy ==> |s.started| > 0 && s.started[|s.started| - 1] == s.current.value.id)
    && Increasing(s.accepted)
    && (forall k :: 0 <= k < |s.accepted| ==> s.accepted[k] < s.nextId)
  }

  /**
   The delivery half of the invariant:
   - every arrived request that is not pending has exactly one response, every other has none;
   - a request that was admitted is answered with a PDF or a 500, any other with the 400.
   */
  ghost predicate ReplyInv(s: State) {
    && (forall id: nat :: CountFor(s.replies, id) == (if Answered(s, id) then 1 else 0))
    && (forall r :: r in s.replies ==>
          if r.request in s.accepted then IsJobResponse(r.response) else r.response == BadRequest)
  }

  /** What every reachable state satisfies. */
  ghost predicate Inv(s: State) {
    OrderInv(s) && ReplyInv(s)
  }

  lemma InitInv()
    ensures Inv(Init)
  {
  }

  lemma CountForMember(replies: seq<Reply>, r: Reply)
    requires r in replies
    ensures CountFor(replies, r.request) > 0
    decreases |replies|
  {
    var last := replies[|replies| - 1];
    if last != r {
      assert replies == replies[..|replies| - 1] + [last];
      CountForMember(replies[..|replies| - 1], r);
    }
  }

  lemma IdsTail(q: seq<Job>)
    requires q != []
    ensures Ids(q) == [q[0].id] + Ids(q[1..])
  {
  }

  lemma IdsAppend(q: seq<Job>, job: Job)
    ensures Ids(q + [job]) == Ids(q) + [job.id]
  {
  }

  /** Facts about arrival numbers that the invariant implies. */
  lemma InvFacts(s: State)
    requires Inv(s)
    ensures s.nextId !in Ids(s.queue)
    ensures s.busy ==> s.current.value.id !in Ids(s.queue) && s.current.value.id < s.nextId
    ensures forall id: nat :: id >= s.nextId ==> CountFor(s.replies, id) == 0
    ensures forall r :: r in s.replies ==> r.request < s.nextId
  {
    var q := Ids(s.queue);
    assert forall k :: 0 <= k < |q| ==> q[k] == s.accepted[|s.started| + k];
    if s.busy {
      assert s.current.value.id == s.accepted[|s.started| - 1];
    }
    forall r | r in s.replies
      ensures r.request < s.nextId
    {
      CountForMember(s.replies, r);
    }
  }

  /** A dispatch from a state whose in-flight slot is consistent with its flag changes no request's pending status. */
  lemma DispatchPending(m: State, id: nat)
    requires !m.busy ==> m.current == None
    ensures Pending(Dispatch(m), id) == Pending(m, id)
  {
    if !m.busy && m.queue != [] {
      IdsTail(m.queue);
    }
  }

  lemma SubmitRejectKeepsInv(s: State, p: Param)
    requires Inv(s) && Falsy(p)
    ensures Inv(Submit(s, p))
  {
    var t := Submit(s, p);
    var reply := Reply(s.nextId, BadRequest);
    InvFacts(s);
    assert t == s.(nextId := s.nextId + 1, replies := s.replies + [reply]);
    forall id: nat
      ensures CountFor(t.replies, id) == (if Answered(t, id) then 1 else 0)
    {
      CountForAppend(s.replies, reply, id);
      assert Pending(t, id) == Pending(s, id);
    }
  }

  lemma SubmitAcceptKeepsOrder(s: State, url: string)
    requires Inv(s)
    ensures OrderInv(Dispatch(Enqueued(s, url)))
  {
    var m := Enqueued(s, url);
    var n := s.nextId;
    IdsAppend(s.queue, Job(n, url));
    assert m.accepted == m.started + Ids(m.queue);
    assert Increasing(m.accepted);
    if !s.busy {
      DispatchKeepsOrder(m);
    }
  }

  lemma SubmitAcceptKeepsReplies(s: State, url: string)
    requires Inv(s)
    ensures ReplyInv(Dispatch(Enqueued(s, url)))
  {
    var m := Enqueued(s, url);
    var t := Dispatch(m);
    var n := s.nextId;
    InvFacts(s);
    IdsAppend(s.queue, Job(n, url));
    forall id: nat
      ensures CountFor(t.replies, id) == (if Answered(t, id) then 1 else 0)
    {
      DispatchPending(m, id);
      assert Pending(m, id) <==> Pending(s, id) || id == n;
    }
    forall r | r in t.replies
      ensures if r.request in t.accepted then IsJobResponse(r.response) else r.response == BadRequest
    {
      assert r.request < n;
    }
  }

  lemma SubmitPreservesInv(s: State, p: Param)
    requires Inv(s)
    ensures Inv(Submit(s, p))
  {
    if Falsy(p) {
      SubmitRejectKeepsInv(s, p);
    } else {
      SubmitAcceptKeepsOrder(s, Normalize(p.text));
      SubmitAcceptKeepsReplies(s, Normalize(p.text));
    }
  }

  /** After a completion the pending requests are exactly those that were queued. */
  lemma CompletePending(s: State, nav: Navigation, capture: Capture, id: nat)
    requires s.busy && s.current.Some?
    ensures Pending(Complete(s, nav, capture), id) <==> id in Ids(s.queue)
  {
    if s.queue != [] {
      IdsTail(s.queue);
    }
  }

  /** The job in flight, answered: its reply and the state just before the next dispatch. */
  function Answer(s: State, nav: Navigation, capture: Capture): (m: State)
    requires s.busy && s.current.Some?
    ensures Dispatch(m) == Complete(s, nav, capture)
    ensures !m.busy && m.current == None
    ensures m.queue == s.queue && m.started == s.started && m.accepted == s.accepted && m.nextId == s.nextId
    ensures |m.replies| == |s.replies| + 1 && m.replies[..|s.replies|] == s.replies
    ensures m.replies[|s.replies|].request == s.current.value.id
    ensures IsJobResponse(m.replies[|s.replies|].response)
  {
    var r := GeneratePdf(s.session, nav, capture);
    var reply := Reply(s.current.value.id, ResponseFor(r.outcome));
    s.(replies := s.replies + [reply], session := r.session, busy := false, current := None)
  }

  /** Dispatching from an idle state keeps the ordering invariant. */
  lemma DispatchKeepsOrder(m: State)
    requires !m.busy && m.current == None
    requires m.accepted == m.started + Ids(m.queue)
    requires Increasing(m.accepted)
    requires forall k :: 0 <= k < |m.accepted| ==> m.accepted[k] < m.nextId
    ensures OrderInv(Dispatch(m))
  {
    var t := Dispatch(m);
    assert t.accepted == m.accepted && t.nextId == m.nextId;
    if m.queue != [] {
      DispatchHeadOrder(m);
    }
  }

  /** Moving the head job's id from the front of the queued ids to the end of the started ones keeps their concatenation. */
  lemma ShiftHead(started: seq<nat>, q: seq<Job>)
    requires q != []
    ensures (started + [q[0].id]) + Ids(q[1..]) == started + Ids(q)
  {
    IdsTail(q);
    assert (started + [q[0].id]) + Ids(q[1..]) == started + ([q[0].id] + Ids(q[1..]));
  }

  lemma DispatchHeadOrder(m: State)
    requires !m.busy && m.queue != []
    ensures var t := Dispatch(m);
      && t.started + Ids(t.queue) == m.started + Ids(m.queue)
      && t.busy && t.current == Some(m.queue[0])
      && t.started[|t.started| - 1] == m.queue[0].id
  {
    ShiftHead(m.started, m.queue);
  }

  lemma CompleteKeepsOrder(s: State, nav: Navigation, capture: Capture)
    requires Inv(s) && s.busy
    ensures OrderInv(Complete(s, nav, capture))
  {
    DispatchKeepsOrder(Answer(s, nav, capture));
  }

  lemma CompleteKeepsReplies(s: State, nav: Navigation, capture: Capture)
    requires Inv(s) && s.busy
    ensures ReplyInv(Complete(s, nav, capture))
  {
    var t := Complete(s, nav, capture);
    var m := Answer(s, nav, capture);
    var reply := m.replies[|s.replies|];
    assert m.replies == s.replies + [reply];
    InvFacts(s);
    forall id: nat
      ensures CountFor(t.replies, id) == (if Answered(t, id) then 1 else 0)
    {
      CountForAppend(s.replies, reply, id);
      CompletePending(s, nav, capture, id);
    }
    assert s.current.value.id in s.accepted;
    forall x | x in t.replies
      ensures if x.request in t.accepted then IsJobResponse(x.response) else x.response == BadRequest
    {
      if x != reply {
        assert x in s.replies;
      }
    }
  }

  lemma CompletePreservesInv(s: State, nav: Navigation, capture: Capture)
    requires Inv(s)
    ensures Inv(Complete(s, nav, capture))
  {
    if s.busy {
      CompleteKeepsOrder(s, nav, capture);
      CompleteKeepsReplies(s, nav, capture);
    }
  }

  lemma StepPreservesInv(s: State, e: Event)
    requires Inv(s)
    ensures Inv(Step(s, e))
  {
    match e
    case Request(p) => SubmitPreservesInv(s, p);
    case Finish(nav, capture) => CompletePreservesInv(s, nav, capture);
  }

  // ---------------------------------------------------------------------------
  // Properties of single transitions

  /** Only the job in flight can be started-and-unanswered, so no render starts before the previous one is answered. */
  lemma SingleFlight(s: State)
    requires Inv(s)
    ensures forall i :: 0 <= i < |s.started| ==>
              (CountFor(s.replies, s.started[i]) == 0 <==> s.busy && i == |s.started| - 1)
  {
    forall i | 0 <= i < |s.started|
      ensures CountFor(s.replies, s.started[i]) == 0 <==> s.busy && i == |s.started| - 1
    {
      var id := s.started[i];
      assert s.accepted[i] == id;
      assert forall k :: 0 <= k < |s.queue| ==> Ids(s.queue)[k] == s.accepted[|s.started| + k];
      if s.busy && s.current.value.id == id {
        assert s.accepted[|s.started| - 1] == id;
      }
    }
  }

  /** The session is replaced only while a job holds the in-flight slot, and only when its frame was detached. */
  lemma SessionChangesOnlyOnDetach(s: State, e: Event)
    ensures Step(s, e).session != s.session ==>
              s.busy && s.current.Some? && e.Finish? && Detached(e.nav) && Step(s, e).session == s.session + 1
  {
  }

  /**
   A detached frame fails the job in flight with the retry message and
   replaces the session; the next queued job is dispatched at once and, when
   it renders, is answered with its PDF from the new session.
   */
  lemma DetachedThenNext(s: State, nav: Navigation, capture: Capture, pdf: Bytes)
    requires Inv(s) && s.busy && s.queue != [] && Detached(nav)
    ensures var t := Complete(s, nav, capture);
      && t.replies == s.replies + [Reply(s.current.value.id, RenderFailure(RetryMessage))]
      && t.session == s.session + 1
      && t.current == Some(s.queue[0])
      && var u := Complete(t, Settled, Captured(pdf));
         && u.replies == t.replies + [Reply(s.queue[0].id, PdfAttachment(pdf))]
         && u.session == t.session
  {
  }
}
