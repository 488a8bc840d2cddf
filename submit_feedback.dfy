/**
  The serverless feedback endpoint of api/submit-feedback.ts: the CORS
  headers, the method gate, the rating guard, and the notification e-mail
  whose sending the environment answers.
*/
module SubmitFeedback {
  import opened Wrappers
  import opened Api

  const Sender := "CORCON 2025 <noreply@yourdomain.com>"

  /** `handler(req, res)` for a request with method `verb` and body `body`,
      at local time `now`, the e-mail service answering `send`. */
  function Handler(verb: string, body: FeedbackBody, now: string, send: SendOutcome): (o: Outcome)
    ensures o.response.headers == CorsHeaders
  {
    if verb == "OPTIONS" then Outcome(Response(200, CorsHeaders, NoBody), None)
    else if verb != "POST" then Outcome(Response(405, CorsHeaders, ErrorJson("Method not allowed", None)), None)
    else if RatingRejected(body.rating) then Outcome(Response(400, CorsHeaders, ErrorJson("Invalid rating", None)), None)
    else
      Outcome(SendResponse(CorsHeaders, send, "Feedback submitted successfully", "Failed to submit feedback"),
              Some(FeedbackEmail(Sender, body.rating.value, body.comments, now)))
  }

  /** A preflight request is answered 200 with no body and sends nothing. */
  lemma Preflight(body: FeedbackBody, now: string, send: SendOutcome)
    ensures Handler("OPTIONS", body, now, send) == Outcome(Response(200, CorsHeaders, NoBody), None)
  {
  }

  /** Any method other than POST and OPTIONS is refused with 405. */
  lemma MethodNotAllowed(verb: string, body: FeedbackBody, now: string, send: SendOutcome)
    requires verb != "POST" && verb != "OPTIONS"
    ensures Handler(verb, body, now, send).response.status == 405
    ensures Handler(verb, body, now, send).response.body == ErrorJson("Method not allowed", None)
    ensures Handler(verb, body, now, send).email.None?
  {
  }

  /** An e-mail is sent exactly for a POST with a rating of 1..5; any other
      POST is refused with 400 `Invalid rating`. */
  lemma SendsOnlyValidRatings(verb: string, body: FeedbackBody, now: string, send: SendOutcome)
    ensures Handler(verb, body, now, send).email.Some? <==>
      verb == "POST" && body.rating.Some? && 1 <= body.rating.value <= 5
    ensures verb == "POST" && !(body.rating.Some? && 1 <= body.rating.value <= 5) ==>
      Handler(verb, body, now, send).response == Response(400, CorsHeaders, ErrorJson("Invalid rating", None))
  {
    RatingGuardRule(body.rating);
  }

  /** After the send: 200 with `success` when the service answered, 500 with
      the error's details when it threw. */
  lemma SendAnswer(body: FeedbackBody, now: string, send: SendOutcome)
    requires body.rating.Some? && 1 <= body.rating.value <= 5
    ensures var r := Handler("POST", body, now, send).response;
      && (send.Delivered? ==> r.status == 200 && r.body == SuccessJson("Feedback submitted successfully", send.emailId))
      && (send.Threw? ==> r.status == 500 && r.body.ErrorJson? && r.body.error == "Failed to submit feedback")
  {
  }

  /** The e-mail goes to customer care and shows exactly `rating` stars (as
      long as the comments and the timestamp hold none themselves), then the
      comments or the placeholder. */
  lemma FeedbackEmailContent(body: FeedbackBody, now: string, send: SendOutcome)
    requires body.rating.Some? && 1 <= body.rating.value <= 5
    requires body.comments.Some? ==> Star !in body.comments.value
    requires Star !in now
    ensures var e := Handler("POST", body, now, send).email;
      && e.Some? && e.value.to == Recipient && e.value.subject == FeedbackSubject
      && Occurrences(e.value.html, Star) == body.rating.value
  {
    FeedbackEmailStars(Sender, body.rating.value, body.comments, now);
  }
}
