/**
  What the two serverless functions (api/submit-feedback.ts,
  api/submit-visitor.ts) and the Express server (server.js) share: the shape
  of a request body, of a response and of the notification e-mail, the
  request guards, and the e-mail text. The e-mail service is outside the
  model: its answer is the parameter `send`. The request body is taken to be
  a JSON object whose text fields, when present, are strings and whose rating,
  when present, is an integer.
*/
module Api {
  import opened Wrappers
  import opened Strings

  // ----- requests and responses ------------------------------------------------------

  type Header = (string, string)

  /** The headers every serverless response carries, in the order they are set. */
  const CorsHeaders: seq<Header> := [
    ("Access-Control-Allow-Origin", "*"),
    ("Access-Control-Allow-Methods", "POST, OPTIONS"),
    ("Access-Control-Allow-Headers", "Content-Type")]

  /** The JSON bodies the handlers answer with; `details` and `emailId` are
      left out of the JSON when absent. */
  datatype Body =
    | NoBody
    | ErrorJson(error: string, details: Option<string>)
    | SuccessJson(message: string, emailId: Option<string>)
    | HealthJson(status: string, timestamp: string)

  datatype Response = Response(status: int, headers: seq<Header>, body: Body)

  datatype Email = Email(from: string, to: string, subject: string, html: string)

  /** What the e-mail service did: it answered, with or without an id, or it
      threw, with the error's `message` when the thrown value is an `Error`. */
  datatype SendOutcome = Delivered(emailId: Option<string>) | Threw(message: Option<string>)

  /** A handler's response together with the e-mail it asked to send, if any. */
  datatype Outcome = Outcome(response: Response, email: Option<Email>)

  datatype FeedbackBody = FeedbackBody(rating: Option<int>, comments: Option<string>)

  datatype VisitorBody = VisitorBody(
    name: Option<string>, email: Option<string>, company: Option<string>,
    phone: Option<string>, designation: Option<string>, context: Option<string>)

  /** JavaScript truthiness of an optional string. */
  predicate Truthy(v: Option<string>) {
    v.Some? && v.value != ""
  }

  /** `${v}`: an absent value is written as `undefined`. */
  function Interp(v: Option<string>): (r: string)
    ensures v.Some? ==> r == v.value
    ensures v.None? ==> r == "undefined"
  {
    match v
    case None => "undefined"
    case Some(s) => s
  }

  /** Interpolation loses one distinction only: an absent value prints exactly
      like the text `undefined`. */
  lemma InterpSame(a: Option<string>, b: Option<string>)
    ensures Interp(a) == Interp(b) <==>
      a == b || (a.None? && b == Some("undefined")) || (b.None? && a == Some("undefined"))
  {
  }

  // ----- guards ----------------------------------------------------------------------

  /** `!rating || rating < 1 || rating > 5`. */
  predicate RatingRejected(rating: Option<int>) {
    rating.None? || rating.value == 0 || rating.value < 1 || rating.value > 5
  }

  /** A rating passes exactly when it is present and one of 1..5. */
  lemma RatingGuardRule(rating: Option<int>)
    ensures !RatingRejected(rating) <==> rating.Some? && 1 <= rating.value <= 5
  {
  }

  /** `!name || !email || !company || !phone`. */
  predicate MissingRequired(b: VisitorBody) {
    !Truthy(b.name) || !Truthy(b.email) || !Truthy(b.company) || !Truthy(b.phone)
  }

  /** The visitor guard asks nothing of `designation` or `context`. */
  lemma RequiredFieldsOnly(b: VisitorBody, designation: Option<string>, context: Option<string>)
    ensures MissingRequired(b) == MissingRequired(b.(designation := designation, context := context))
  {
  }

  // ----- the e-mail ------------------------------------------------------------------

  const Recipient := "customercare.apppg@asianpaintsppg.com"
  const FeedbackSubject := "New Feedback Received - CORCON 2025"

  /** `⭐` (U+2B50). */
  const Star := '\U{2B50}'

  /** `c.repeat(n)` for a one-character string. */
  function Repeat(c: char, n: nat): (r: string)
    ensures |r| == n
    ensures forall i | 0 <= i < n :: r[i] == c
  {
    seq(n, _ => c)
  }

  /** The indentation of each line inside the template literal. */
  const Indent := "        "

  /** A template literal whose lines sit between a leading line break and the
      closing indentation, each indented by eight spaces. */
  function HtmlTemplate(lines: seq<string>): string {
    "\n" + Join("\n", Indented(lines)) + "\n      "
  }

  function Indented(lines: seq<string>): (r: seq<string>)
    ensures |r| == |lines|
    ensures forall i | 0 <= i < |lines| :: r[i] == Indent + lines[i]
  {
    if lines == [] then [] else [Indent + lines[0]] + Indented(lines[1..])
  }

  /** The rating line: `rating` stars, then `(rating/5)`. */
  function RatingLine(rating: nat): string {
    "<p><strong>Rating:</strong> " + Repeat(Star, rating) + " (" + NatToString(rating) + "/5)</p>"
  }

  function CommentsLine(comments: Option<string>): string {
    if Truthy(comments) then "<p><strong>Comments:</strong></p><p>" + comments.value + "</p>"
    else "<p><em>No comments provided</em></p>"
  }

  function SubmittedLine(now: string): string {
    "<p><strong>Submitted At:</strong> " + now + "</p>"
  }

  const FeedbackHeading := "<h2>New Feedback Received</h2>"

  function FeedbackLines(rating: nat, comments: Option<string>, now: string): (r: seq<string>)
    ensures |r| == 4
  {
    [FeedbackHeading, RatingLine(rating), CommentsLine(comments), SubmittedLine(now)]
  }

  function FeedbackEmail(from: string, rating: nat, comments: Option<string>, now: string): Email {
    Email(from, Recipient, FeedbackSubject, HtmlTemplate(FeedbackLines(rating, comments, now)))
  }

  /** `context === 'quote' ? 'Quote' : 'Consultation'`. */
  function RequestKind(context: Option<string>): (r: string)
    ensures r == "Quote" <==> context == Some("quote")
    ensures r == "Quote" || r == "Consultation"
  {
    if context == Some("quote") then "Quote" else "Consultation"
  }

  function VisitorSubject(context: Option<string>): string {
    "New " + RequestKind(context) + " Request - CORCON 2025"
  }

  function FieldLine(caption: string, v: Option<string>): string {
    "<p><strong>" + caption + ":</strong> " + Interp(v) + "</p>"
  }

  function DesignationLine(designation: Option<string>): string {
    if Truthy(designation) then FieldLine("Designation", designation) else ""
  }

  function VisitorLines(b: VisitorBody, now: string): (r: seq<string>)
    ensures |r| == 8
  {
    [ "<h2>New " + RequestKind(b.context) + " Request</h2>",
      FieldLine("Name", b.name), FieldLine("Email", b.email),
      FieldLine("Company", b.company), FieldLine("Phone", b.phone),
      DesignationLine(b.designation),
      FieldLine("Request Type", b.context),
      SubmittedLine(now) ]
  }

  function VisitorEmail(from: string, b: VisitorBody, now: string): Email {
    Email(from, Recipient, VisitorSubject(b.context), HtmlTemplate(VisitorLines(b, now)))
  }

  /** The answer once the send was attempted: 200 with the id on success, 500
      with the error's message (or `Unknown error`) when the send threw. */
  function SendResponse(headers: seq<Header>, send: SendOutcome, successMessage: string, failure: string): (r: Response)
    ensures r.headers == headers
    ensures send.Delivered? <==> r.status == 200
    ensures send.Delivered? ==> r.body == SuccessJson(successMessage, send.emailId)
    ensures send.Threw? ==> r.status == 500
    ensures send.Threw? ==> r.body == ErrorJson(failure, Some(if send.message.Some? then send.message.value else "Unknown error"))
  {
    match send
    case Delivered(id) => Response(200, headers, SuccessJson(successMessage, id))
    case Threw(m) => Response(500, headers, ErrorJson(failure, Some(m.GetOr("Unknown error"))))
  }

  // ----- properties of the e-mail text ----------------------------------------------------

  /** The number of times `c` occurs in `s`. */
  function Occurrences(s: string, c: char): nat {
    if s == [] then 0 else (if s[0] == c then 1 else 0) + Occurrences(s[1..], c)
  }

  lemma {:induction false} OccurrencesAbsent(s: string, c: char)
    requires c !in s
    ensures Occurrences(s, c) == 0
  {
    if s != [] {
      OccurrencesAbsent(s[1..], c);
    }
  }

  lemma {:induction false} OccurrencesConcat(a: string, b: string, c: char)
    ensures Occurrences(a + b, c) == Occurrences(a, c) + Occurrences(b, c)
  {
    if a == [] {
      assert a + b == b;
    } else {
      assert (a + b)[0] == a[0];
      assert (a + b)[1..] == a[1..] + b;
      OccurrencesConcat(a[1..], b, c);
    }
  }

  lemma {:induction false} OccurrencesRepeat(c: char, n: nat)
    ensures Occurrences(Repeat(c, n), c) == n
  {
    if n > 0 {
      assert Repeat(c, n)[1..] == Repeat(c, n - 1);
      OccurrencesRepeat(c, n - 1);
    }
  }

  lemma {:induction false} OccurrencesJoin(sep: string, xs: seq<string>, c: char)
    requires c !in sep
    ensures Occurrences(Join(sep, xs), c) == SumOccurrences(xs, c)
  {
    if |xs| > 1 {
      OccurrencesJoin(sep, xs[1..], c);
      OccurrencesConcat(xs[0] + sep, Join(sep, xs[1..]), c);
      OccurrencesConcat(xs[0], sep, c);
      OccurrencesAbsent(sep, c);
    } else if |xs| == 1 {
      assert xs[1..] == [];
    }
  }

  function SumOccurrences(xs: seq<string>, c: char): nat {
    if xs == [] then 0 else Occurrences(xs[0], c) + SumOccurrences(xs[1..], c)
  }

  lemma NoStarInDigits(n: nat)
    ensures Star !in NatToString(n)
  {
  }

  /** The template's own text adds no occurrence of a character other than a
      space or a line break. */
  lemma {:induction false} TemplateOccurrences(lines: seq<string>, c: char)
    requires c != ' ' && c != '\n'
    ensures Occurrences(HtmlTemplate(lines), c) == SumOccurrences(lines, c)
  {
    var open, close := "\n", "\n      ";
    assert c !in open && c !in close;
    OccurrencesAbsent(open, c);
    OccurrencesAbsent(close, c);
    OccurrencesJoin(open, Indented(lines), c);
    OccurrencesConcat(open, Join(open, Indented(lines)), c);
    OccurrencesConcat(open + Join(open, Indented(lines)), close, c);
    IndentedOccurrences(lines, c);
  }

  lemma {:induction false} IndentedOccurrences(lines: seq<string>, c: char)
    requires c != ' '
    ensures SumOccurrences(Indented(lines), c) == SumOccurrences(lines, c)
  {
    if lines != [] {
      assert c !in Indent;
      OccurrencesAbsent(Indent, c);
      OccurrencesConcat(Indent, lines[0], c);
      assert Indented(lines)[1..] == Indented(lines[1..]);
      IndentedOccurrences(lines[1..], c);
    }
  }

  /** Three pieces without `c` around a middle part: only the middle counts. */
  lemma OccurrencesAround(a: string, m: string, b: string, c: char)
    requires c !in a && c !in b
    ensures Occurrences(a + m + b, c) == Occurrences(m, c)
  {
    OccurrencesConcat(a + m, b, c);
    OccurrencesConcat(a, m, c);
    OccurrencesAbsent(a, c);
    OccurrencesAbsent(b, c);
  }

  /** The rating line holds exactly `rating` stars. */
  lemma RatingLineStars(rating: nat)
    ensures Occurrences(RatingLine(rating), Star) == rating
  {
    NoStarInDigits(rating);
    OccurrencesRepeat(Star, rating);
    var a := "<p><strong>Rating:</strong> ";
    var b := " (" + NatToString(rating) + "/5)</p>";
    assert Star !in a && Star !in b;
    assert RatingLine(rating) == a + Repeat(Star, rating) + b;
    OccurrencesAround(a, Repeat(Star, rating), b, Star);
  }

  lemma CommentsLineStars(comments: Option<string>)
    requires comments.Some? ==> Star !in comments.value
    ensures Occurrences(CommentsLine(comments), Star) == 0
  {
    if Truthy(comments) {
      var a := "<p><strong>Comments:</strong></p><p>";
      var b := "</p>";
      assert Star !in a && Star !in b;
      OccurrencesAround(a, comments.value, b, Star);
      OccurrencesAbsent(comments.value, Star);
    } else {
      PlaceholderStars();
    }
  }

  lemma PlaceholderStars()
    ensures Occurrences("<p><em>No comments provided</em></p>", Star) == 0
  {
    var line := "<p><em>No comments provided</em></p>";
    assert Star !in line;
    OccurrencesAbsent(line, Star);
  }

  lemma SubmittedLineStars(now: string)
    requires Star !in now
    ensures Occurrences(SubmittedLine(now), Star) == 0
  {
    var a := "<p><strong>Submitted At:</strong> ";
    var b := "</p>";
    assert Star !in a && Star !in b;
    OccurrencesAround(a, now, b, Star);
    OccurrencesAbsent(now, Star);
  }

  /** When neither the comments nor the timestamp hold a star, the whole
      feedback e-mail holds exactly `rating` of them. */
  lemma FeedbackEmailStars(from: string, rating: nat, comments: Option<string>, now: string)
    requires comments.Some? ==> Star !in comments.value
    requires Star !in now
    ensures Occurrences(FeedbackEmail(from, rating, comments, now).html, Star) == rating
  {
    var lines := FeedbackLines(rating, comments, now);
    TemplateOccurrences(lines, Star);
    RatingLineStars(rating);
    CommentsLineStars(comments);
    SubmittedLineStars(now);
    HeadingStars();
    SumOfFour(FeedbackHeading, RatingLine(rating), CommentsLine(comments), SubmittedLine(now), Star);
  }

  lemma HeadingStars()
    ensures Occurrences(FeedbackHeading, Star) == 0
  {
    assert Star !in FeedbackHeading;
    OccurrencesAbsent(FeedbackHeading, Star);
  }

  lemma SumOfFour(a: string, b: string, d: string, e: string, c: char)
    ensures SumOccurrences([a, b, d, e], c) == Occurrences(a, c) + Occurrences(b, c) + Occurrences(d, c) + Occurrences(e, c)
  {
    assert [a, b, d, e][1..] == [b, d, e];
    assert [b, d, e][1..] == [d, e];
    assert [d, e][1..] == [e];
    assert [e][1..] == [];
    assert SumOccurrences([e], c) == Occurrences(e, c);
    assert SumOccurrences([d, e], c) == Occurrences(d, c) + Occurrences(e, c);
    assert SumOccurrences([b, d, e], c) == Occurrences(b, c) + Occurrences(d, c) + Occurrences(e, c);
  }

  /** The comments appear in the e-mail when given; otherwise the placeholder
      does. */
  lemma FeedbackCommentsShown(from: string, rating: nat, comments: Option<string>, now: string)
    ensures Truthy(comments) ==> FeedbackLines(rating, comments, now)[2] == "<p><strong>Comments:</strong></p><p>" + comments.value + "</p>"
    ensures !Truthy(comments) ==> FeedbackLines(rating, comments, now)[2] == "<p><em>No comments provided</em></p>"
  {
  }

  /** The subject and the heading both name a quote exactly when the context
      is `quote`, and a consultation otherwise. */
  lemma VisitorKindRule(b: VisitorBody, now: string)
    ensures "New Quote" <= VisitorSubject(b.context) <==> b.context == Some("quote")
    ensures "<h2>New Quote" <= VisitorLines(b, now)[0] <==> b.context == Some("quote")
    ensures "New Consultation" <= VisitorSubject(b.context) <==> b.context != Some("quote")
  {
    SubjectKind(b.context);
    HeadingKind(b, now);
  }

  lemma SubjectKind(context: Option<string>)
    ensures "New Quote" <= VisitorSubject(context) <==> context == Some("quote")
    ensures "New Consultation" <= VisitorSubject(context) <==> context != Some("quote")
  {
    var k := RequestKind(context);
    var subject := VisitorSubject(context);
    assert subject[..4 + |k|] == "New " + k;
    if k == "Quote" {
      assert subject[4] == 'Q';
      assert "New Consultation"[4] == 'C';
    } else {
      assert subject[4] == 'C';
      assert "New Quote"[4] == 'Q';
    }
  }

  lemma HeadingKind(b: VisitorBody, now: string)
    ensures "<h2>New Quote" <= VisitorLines(b, now)[0] <==> b.context == Some("quote")
  {
    var k := RequestKind(b.context);
    var heading := VisitorLines(b, now)[0];
    assert heading == "<h2>New " + k + " Request</h2>";
    assert heading[..8 + |k|] == "<h2>New " + k;
    if k != "Quote" {
      assert heading[8] == 'C';
      assert "<h2>New Quote"[8] == 'Q';
    }
  }

  /** The Designation line is written exactly when a designation was given. */
  lemma DesignationLineRule(b: VisitorBody, now: string)
    ensures VisitorLines(b, now)[5] != "" <==> Truthy(b.designation)
  {
  }
}
