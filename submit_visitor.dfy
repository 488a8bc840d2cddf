/**
  The serverless visitor-request endpoint of api/submit-visitor.ts: the CORS
  headers, the method gate, the required-field guard, and the notification
  e-mail whose sending the environment answers.
*/
module SubmitVisitor {
  import opened Wrappers
  import opened Api

  const Sender := "CORCON 2025 <noreply@yourdomain.com>"

  /** `handler(req, res)` for a request with method `verb` and body `body`,
      at local time `now`, the e-mail service answering `send`. */
  function Handler(verb: string, body: VisitorBody, now: string, send: SendOutcome): (o: Outcome)
    ensures o.response.headers == CorsHeaders
  {
    if verb == "OPTIONS" then Outcome(Response(200, CorsHeaders, NoBody), None)
    else if verb != "POST" then Outcome(Response(405, CorsHeaders, ErrorJson("Method not allowed", None)), None)
    else if MissingRequired(body) then Outcome(Response(400, CorsHeaders, ErrorJson("Missing required fields", None)), None)
    else
      Outcome(SendResponse(CorsHeaders, send, "Form submitted successfully", "Failed to submit form"),
              Some(VisitorEmail(Sender, body, now)))
  }

  /** A preflight request is answered 200 with no body; any other method but
      POST is refused with 405; neither sends anything. */
  lemma MethodGate(verb: string, body: VisitorBody, now: string, send: SendOutcome)
    ensures verb == "OPTIONS" ==> Handler(verb, body, now, send) == Outcome(Response(200, CorsHeaders, NoBody), None)
    ensures verb != "POST" && verb != "OPTIONS" ==>
      Handler(verb, body, now, send) == Outcome(Response(405, CorsHeaders, ErrorJson("Method not allowed", None)), None)
  {
  }

  /** An e-mail is sent exactly for a POST whose name, e-mail, company and
      phone are all present and non-empty; any other POST is refused with 400. */
  lemma SendsOnlyCompleteRequests(verb: string, body: VisitorBody, now: string, send: SendOutcome)
    ensures Handler(verb, body, now, send).email.Some? <==>
      verb == "POST" && Truthy(body.name) && Truthy(body.email) && Truthy(body.company) && Truthy(body.phone)
    ensures verb == "POST" && MissingRequired(body) ==>
      Handler(verb, body, now, send).response == Response(400, CorsHeaders, ErrorJson("Missing required fields", None))
  {
  }

  /** After the send: 200 with `success` when the service answered, 500 with
      the error's details when it threw. */
  lemma SendAnswer(body: VisitorBody, now: string, send: SendOutcome)
    requires !MissingRequired(body)
    ensures var r := Handler("POST", body, now, send).response;
      && (send.Delivered? ==> r.status == 200 && r.body == SuccessJson("Form submitted successfully", send.emailId))
      && (send.Threw? ==> r.status == 500 && r.body.ErrorJson? && r.body.error == "Failed to submit form")
  {
  }

  /** The e-mail's subject names a quote exactly when the context is `quote`,
      and it carries a Designation line exactly when a designation was given. */
  lemma VisitorEmailContent(body: VisitorBody, now: string, send: SendOutcome)
    requires !MissingRequired(body)
    ensures var e := Handler("POST", body, now, send).email;
      && e.Some? && e.value.to == Recipient
      && ("New Quote" <= e.value.subject <==> body.context == Some("quote"))
      && e.value.html == HtmlTemplate(VisitorLines(body, now))
      && (VisitorLines(body, now)[5] != "" <==> Truthy(body.designation))
  {
    VisitorKindRule(body, now);
    DesignationLineRule(body, now);
  }
}
