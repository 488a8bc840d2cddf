/**
  The three route handlers of the local Express server (server.js). The
  submit routes repeat the serverless handlers' guards, e-mail and answers,
  from a different sender address, without the method gate (the routes only
  match POST) and without setting headers themselves.
*/
module ExpressServer {
  import opened Wrappers
  import opened Api
  import SubmitFeedback
  import SubmitVisitor

  const Sender := "CORCON 2025 <noreply@webappindia.in>"

  /** `POST /api/submit-feedback`. */
  function FeedbackRoute(body: FeedbackBody, now: string, send: SendOutcome): (o: Outcome)
    ensures o.response.headers == []
  {
    if RatingRejected(body.rating) then Outcome(Response(400, [], ErrorJson("Invalid rating", None)), None)
    else
      Outcome(SendResponse([], send, "Feedback submitted successfully", "Failed to submit feedback"),
              Some(FeedbackEmail(Sender, body.rating.value, body.comments, now)))
  }

  /** `POST /api/submit-visitor`. */
  function VisitorRoute(body: VisitorBody, now: string, send: SendOutcome): (o: Outcome)
    ensures o.response.headers == []
  {
    if MissingRequired(body) then Outcome(Response(400, [], ErrorJson("Missing required fields", None)), None)
    else
      Outcome(SendResponse([], send, "Form submitted successfully", "Failed to submit form"),
              Some(VisitorEmail(Sender, body, now)))
  }

  /** `GET /api/health` at time `timestamp`. */
  function HealthRoute(timestamp: string): (r: Response)
    ensures r.status == 200 && r.body.HealthJson? && r.body.status == "ok" && r.body.timestamp == timestamp
  {
    Response(200, [], HealthJson("ok", timestamp))
  }

  /** The health answer is `200 ok` at every moment; two answers differ exactly
      when they were taken at different times. */
  lemma HealthAnswers(t: string, u: string)
    ensures HealthRoute(t).status == 200 && HealthRoute(t).headers == []
    ensures HealthRoute(t) == HealthRoute(u) <==> t == u
  {
  }

  /** Two outcomes agree apart from headers and the sender address. */
  predicate SameApartFromHeadersAndSender(a: Outcome, b: Outcome) {
    && a.response.status == b.response.status
    && a.response.body == b.response.body
    && a.email.Some? == b.email.Some?
    && (a.email.Some? ==> a.email.value.(from := b.email.value.from) == b.email.value)
  }

  /** The feedback route answers every body as the serverless handler answers
      a POST of it: the same status, JSON and e-mail text. */
  lemma FeedbackRoutesAgree(body: FeedbackBody, now: string, send: SendOutcome)
    ensures SameApartFromHeadersAndSender(FeedbackRoute(body, now, send), SubmitFeedback.Handler("POST", body, now, send))
    ensures FeedbackRoute(body, now, send).response.status == 400 <==> RatingRejected(body.rating)
  {
  }

  /** The visitor route answers every body as the serverless handler answers a
      POST of it. */
  lemma VisitorRoutesAgree(body: VisitorBody, now: string, send: SendOutcome)
    ensures SameApartFromHeadersAndSender(VisitorRoute(body, now, send), SubmitVisitor.Handler("POST", body, now, send))
    ensures VisitorRoute(body, now, send).response.status == 400 <==> MissingRequired(body)
  {
  }

  /** Success and failure on both routes: 200 when the e-mail service
      answered, 500 when it threw, for every request past the guard. */
  lemma RoutesAnswer(fb: FeedbackBody, vb: VisitorBody, now: string, send: SendOutcome)
    ensures !RatingRejected(fb.rating) ==> (FeedbackRoute(fb, now, send).response.status == 200 <==> send.Delivered?)
    ensures !RatingRejected(fb.rating) ==> (FeedbackRoute(fb, now, send).response.status == 500 <==> send.Threw?)
    ensures !MissingRequired(vb) ==> (VisitorRoute(vb, now, send).response.status == 200 <==> send.Delivered?)
    ensures !MissingRequired(vb) ==> (VisitorRoute(vb, now, send).response.status == 500 <==> send.Threw?)
  {
  }
}
