/**
 One rendering job against the shared browser session: navigate, classify
 what the navigation threw, then either capture the page as a PDF, replace
 the session, or fail. The browser itself is abstract: a navigation result
 and a capture result are inputs, and the session is identified by a
 generation number that grows each time it is relaunched.
 */
module Render {
  import opened Strings
  import opened Http

  /** A thrown JavaScript error: its `name` and its `message`. */
  datatype NavError = NavError(name: string, message: string)

  /** How `page.goto` ended. */
  datatype Navigation = Settled | Threw(error: NavError)

  /** What `page.pdf` produced. */
  datatype Capture = Captured(pdf: Bytes) | CaptureThrew(message: string)

  /** What the job does next, once the navigation has ended. */
  datatype NavAction = Proceed | Relaunch | Rethrow(message: string)

  datatype Outcome = Rendered(pdf: Bytes) | Failed(message: string)

  /** The job's outcome and the session generation it leaves behind. */
  datatype JobResult = JobResult(outcome: Outcome, session: nat)

  const TimeoutName := "TimeoutError"
  const DetachedMarker := "Navigating frame was detached"
  const RetryMessage := "Navigating frame was detached, retry later"

  /** A navigation that outlived its timeout is not an error: the page is captured as it stands. */
  predicate TimedOut(nav: Navigation) {
    nav.Threw? && nav.error.name == TimeoutName
  }

  /** The page's frame was destroyed under the navigation; the timeout test takes precedence. */
  predicate Detached(nav: Navigation) {
    nav.Threw? && !TimedOut(nav) && Includes(nav.error.message, DetachedMarker)
  }

  /** The three-way decision taken on the navigation's result. */
  function Classify(nav: Navigation): (a: NavAction)
    ensures a == Proceed <==> nav.Settled? || TimedOut(nav)
    ensures a == Relaunch <==> Detached(nav)
    ensures a.Rethrow? <==> nav.Threw? && !TimedOut(nav) && !Detached(nav)
    ensures a.Rethrow? ==> a.message == nav.error.message
  {
    match nav
    case Settled => Proceed
    case Threw(e) =>
      if e.name == TimeoutName then Proceed
      else if Includes(e.message, DetachedMarker) then Relaunch
      else Rethrow(e.message)
  }

  /** A timeout whose message also mentions a detached frame is still only a timeout. */
  lemma TimeoutWinsOverDetach(message: string)
    ensures Classify(Threw(NavError(TimeoutName, message))) == Proceed
  {
  }

  /** The marker is found anywhere in the message, not only at its start. */
  lemma DetachedAnywhere(name: string, before: string, after: string)
    requires name != TimeoutName
    ensures Classify(Threw(NavError(name, before + DetachedMarker + after))) == Relaunch
  {
    var m := before + DetachedMarker + after;
    assert m[|before|..|before| + |DetachedMarker|] == DetachedMarker;
    assert OccursAt(m, DetachedMarker, |before|);
    IncludesIffOccurs(m, DetachedMarker);
  }

  /**
   The job's result. A PDF is produced only when navigation settled or timed
   out and the capture succeeded; the session is replaced only on a detached
   frame, and then the job fails with the fixed retry message whatever the
   capture would have produced.
   */
  function GeneratePdf(session: nat, nav: Navigation, capture: Capture): (r: JobResult)
    ensures r.outcome.Rendered? <==> (nav.Settled? || TimedOut(nav)) && capture.Captured?
    ensures r.outcome.Rendered? ==> r.outcome.pdf == capture.pdf
    ensures r.session == session + 1 <==> Detached(nav)
    ensures r.session == session <==> !Detached(nav)
    ensures Detached(nav) ==> r.outcome == Failed(RetryMessage)
    ensures nav.Threw? && !TimedOut(nav) && !Detached(nav) ==> r.outcome == Failed(nav.error.message)
    ensures (nav.Settled? || TimedOut(nav)) && capture.CaptureThrew? ==> r.outcome == Failed(capture.message)
  {
    match Classify(nav)
    case Proceed =>
      (match capture
       case Captured(pdf) => JobResult(Rendered(pdf), session)
       case CaptureThrew(m) => JobResult(Failed(m), session))
    case Relaunch => JobResult(Failed(RetryMessage), session + 1)
    case Rethrow(m) => JobResult(Failed(m), session)
  }

  /** When navigation failed for good, the capture is never taken: its result cannot matter. */
  lemma FailedNavigationIgnoresCapture(session: nat, nav: Navigation, c1: Capture, c2: Capture)
    requires nav.Threw? && !TimedOut(nav)
    ensures GeneratePdf(session, nav, c1) == GeneratePdf(session, nav, c2)
    ensures GeneratePdf(session, nav, c1).outcome.Failed?
  {
  }

  /** The shape of every response to a dispatched job: a PDF attachment, or a 500 with the failure's message. */
  predicate IsJobResponse(r: Response) {
    || (r.body.Attachment? && r == PdfAttachment(r.body.bytes))
    || (r.body.Json? && |r.body.members| == 2 && r == RenderFailure(r.body.members[1].1))
  }

  /** The response the serializer sends for a job's outcome. */
  function ResponseFor(outcome: Outcome): (r: Response)
    ensures IsJobResponse(r)
    ensures r.status == 200 <==> outcome.Rendered?
    ensures r.status == 500 <==> outcome.Failed?
    ensures outcome.Rendered? ==> r.headers == PdfHeaders && r.body == Attachment(outcome.pdf)
    ensures outcome.Failed? ==> r.body == Json([("error", RenderError), ("message", outcome.message)])
  {
    match outcome
    case Rendered(pdf) => PdfAttachment(pdf)
    case Failed(m) => RenderFailure(m)
  }
}
