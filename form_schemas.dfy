/**
  The declarative zod schemas of src/schemas/forms.ts. A schema is a list of
  checks per field, each with the message it reports; parsing runs every check
  of every field in declaration order and collects the issues of those that
  fail, as zod does. The input is accepted when no issue is reported.

  zod's own e-mail pattern is not part of this model: it is the parameter
  `isEmail`.
*/
module FormSchemas {
  import opened Wrappers
  import opened Strings

  /** One reported problem: the field it is about and its message. */
  datatype Issue = Issue(path: string, message: string)

  /** The custom messages the schemas attach to their checks. */
  datatype Message =
    | NameTooShort | NameTooLong | EmailInvalid | CompanyTooShort | CompanyTooLong
    | PhoneInvalid | PhoneTooLong | DesignationTooLong
    | RatingUnselected | RatingOutOfRange | CommentsTooLong

  function Text(m: Message): string {
    match m
    case NameTooShort => "Name must be at least 2 characters"
    case NameTooLong => "Name is too long"
    case EmailInvalid => "Please enter a valid email address"
    case CompanyTooShort => "Company name must be at least 2 characters"
    case CompanyTooLong => "Company name is too long"
    case PhoneInvalid => "Please enter a valid phone number"
    case PhoneTooLong => "Phone number is too long"
    case DesignationTooLong => "Designation is too long"
    case RatingUnselected => "Please select a rating"
    case RatingOutOfRange => "Rating must be between 1 and 5"
    case CommentsTooLong => "Comments are too long (max 1000 characters)"
  }

  /** The string checks the schemas use. */
  datatype StringCheck =
    | MinLength(min: nat, message: Message)
    | MaxLength(max: nat, message: Message)
    | EmailFormat(message: Message)
    | PhonePattern(message: Message)   // the pattern /^[0-9+\-\s()]+$/

  /** A character of the class `[0-9+\-\s()]`. */
  predicate IsPhoneChar(c: char) {
    IsDigit(c) || c == '+' || c == '-' || IsWhitespace(c) || c == '(' || c == ')'
  }

  /** `/^[0-9+\-\s()]+$/.test(s)`. */
  predicate MatchesPhonePattern(s: string) {
    |s| >= 1 && forall i | 0 <= i < |s| :: IsPhoneChar(s[i])
  }

  predicate Passes(check: StringCheck, s: string, isEmail: string -> bool) {
    match check
    case MinLength(n, _) => |s| >= n
    case MaxLength(n, _) => |s| <= n
    case EmailFormat(_) => isEmail(s)
    case PhonePattern(_) => MatchesPhonePattern(s)
  }

  /** The issues of the failing checks, in the order the checks are listed. */
  function StringIssues(path: string, checks: seq<StringCheck>, s: string, isEmail: string -> bool): (r: seq<Issue>)
    ensures r == [] <==> forall i | 0 <= i < |checks| :: Passes(checks[i], s, isEmail)
    ensures |r| <= |checks|
  {
    if checks == [] then []
    else
      (if Passes(checks[0], s, isEmail) then [] else [Issue(path, Text(checks[0].message))])
      + StringIssues(path, checks[1..], s, isEmail)
  }

  // ----- visitorFormSchema -----------------------------------------------------

  const NameChecks := [MinLength(2, NameTooShort), MaxLength(100, NameTooLong)]
  const EmailChecks := [EmailFormat(EmailInvalid)]
  const CompanyChecks := [MinLength(2, CompanyTooShort), MaxLength(200, CompanyTooLong)]
  const PhoneChecks := [MinLength(10, PhoneInvalid), MaxLength(20, PhoneTooLong), PhonePattern(PhoneInvalid)]
  const DesignationChecks := [MaxLength(100, DesignationTooLong)]
  const ContextValues := ["consultation", "quote"]

  /** An object offered to `visitorFormSchema`; `designation` may be absent. */
  datatype VisitorInput = VisitorInput(
    name: string, email: string, company: string, phone: string,
    designation: Option<string>, context: string)

  /** `.optional().or(z.literal(''))` around a string schema: an absent value
      passes; a present one reports the string schema's issues unless it is
      the empty literal. */
  function OptionalIssues(path: string, checks: seq<StringCheck>, v: Option<string>, isEmail: string -> bool): seq<Issue> {
    match v
    case None => []
    case Some(s) => if s == "" then [] else StringIssues(path, checks, s, isEmail)
  }

  /** `z.enum(['consultation', 'quote'])`. */
  function ContextIssues(context: string): seq<Issue> {
    if context in ContextValues then []
    else [Issue("context", "Invalid enum value. Expected 'consultation' | 'quote', received '" + context + "'")]
  }

  function VisitorIssues(v: VisitorInput, isEmail: string -> bool): seq<Issue> {
    StringIssues("name", NameChecks, v.name, isEmail)
    + StringIssues("email", EmailChecks, v.email, isEmail)
    + StringIssues("company", CompanyChecks, v.company, isEmail)
    + StringIssues("phone", PhoneChecks, v.phone, isEmail)
    + OptionalIssues("designation", DesignationChecks, v.designation, isEmail)
    + ContextIssues(v.context)
  }

  predicate VisitorSchemaAccepts(v: VisitorInput, isEmail: string -> bool) {
    VisitorIssues(v, isEmail) == []
  }

  lemma NameRule(s: string, isEmail: string -> bool)
    ensures StringIssues("name", NameChecks, s, isEmail) == [] <==> 2 <= |s| <= 100
    ensures |s| < 2 ==> StringIssues("name", NameChecks, s, isEmail) == [Issue("name", "Name must be at least 2 characters")]
    ensures |s| > 100 ==> StringIssues("name", NameChecks, s, isEmail) == [Issue("name", "Name is too long")]
  {
  }

  lemma EmailRule(s: string, isEmail: string -> bool)
    ensures StringIssues("email", EmailChecks, s, isEmail) == [] <==> isEmail(s)
  {
    assert Passes(EmailChecks[0], s, isEmail) <==> isEmail(s);
  }

  lemma CompanyRule(s: string, isEmail: string -> bool)
    ensures StringIssues("company", CompanyChecks, s, isEmail) == [] <==> 2 <= |s| <= 200
  {
  }

  lemma PhoneRule(s: string, isEmail: string -> bool)
    ensures StringIssues("phone", PhoneChecks, s, isEmail) == []
      <==> 10 <= |s| <= 20 && forall i | 0 <= i < |s| :: IsPhoneChar(s[i])
  {
    assert Passes(PhoneChecks[0], s, isEmail) <==> |s| >= 10;
    assert Passes(PhoneChecks[1], s, isEmail) <==> |s| <= 20;
    assert Passes(PhoneChecks[2], s, isEmail) <==> MatchesPhonePattern(s);
  }

  lemma DesignationRule(d: Option<string>, isEmail: string -> bool)
    ensures OptionalIssues("designation", DesignationChecks, d, isEmail) == [] <==> d.None? || |d.value| <= 100
  {
  }

  lemma ContextRule(c: string)
    ensures ContextIssues(c) == [] <==> c == "consultation" || c == "quote"
  {
  }

  /** The schema accepts a visitor exactly when every field rule holds. */
  lemma VisitorSchemaRule(v: VisitorInput, isEmail: string -> bool)
    ensures VisitorSchemaAccepts(v, isEmail) <==>
      && 2 <= |v.name| <= 100
      && isEmail(v.email)
      && 2 <= |v.company| <= 200
      && 10 <= |v.phone| <= 20 && (forall i | 0 <= i < |v.phone| :: IsPhoneChar(v.phone[i]))
      && (v.designation.None? || |v.designation.value| <= 100)
      && (v.context == "consultation" || v.context == "quote")
  {
    var n := StringIssues("name", NameChecks, v.name, isEmail);
    var e := StringIssues("email", EmailChecks, v.email, isEmail);
    var c := StringIssues("company", CompanyChecks, v.company, isEmail);
    var p := StringIssues("phone", PhoneChecks, v.phone, isEmail);
    var d := OptionalIssues("designation", DesignationChecks, v.designation, isEmail);
    var x := ContextIssues(v.context);
    assert |VisitorIssues(v, isEmail)| == |n| + |e| + |c| + |p| + |d| + |x|;
    NameRule(v.name, isEmail);
    EmailRule(v.email, isEmail);
    CompanyRule(v.company, isEmail);
    PhoneRule(v.phone, isEmail);
    DesignationRule(v.designation, isEmail);
    ContextRule(v.context);
  }

  // ----- feedbackFormSchema ----------------------------------------------------

  /** An object offered to `feedbackFormSchema`; `rating` is any finite number. */
  datatype FeedbackInput = FeedbackInput(rating: real, comments: Option<string>)

  const CommentsChecks := [MaxLength(1000, CommentsTooLong)]

  predicate IsInteger(x: real) {
    x.Floor as real == x
  }

  /** `z.number().int().min(1).max(5)`: every failing check reports. */
  function RatingIssues(x: real): seq<Issue> {
    (if IsInteger(x) then [] else [Issue("rating", "Expected integer, received float")])
    + (if x >= 1.0 then [] else [Issue("rating", Text(RatingUnselected))])
    + (if x <= 5.0 then [] else [Issue("rating", Text(RatingOutOfRange))])
  }

  function FeedbackIssues(f: FeedbackInput): seq<Issue> {
    RatingIssues(f.rating) + OptionalIssues("comments", CommentsChecks, f.comments, _ => true)
  }

  predicate FeedbackSchemaAccepts(f: FeedbackInput) {
    FeedbackIssues(f) == []
  }

  /** The schema accepts feedback exactly when the rating is one of 1..5 and the
      comments are absent or at most 1000 characters. */
  lemma FeedbackSchemaRule(f: FeedbackInput)
    ensures FeedbackSchemaAccepts(f) <==>
      f.rating in {1.0, 2.0, 3.0, 4.0, 5.0}
      && (f.comments.None? || |f.comments.value| <= 1000)
  {
    if IsInteger(f.rating) && 1.0 <= f.rating <= 5.0 {
      var n := f.rating.Floor;
      assert f.rating == n as real;
      assert 1 <= n <= 5;
      assert n == 1 || n == 2 || n == 3 || n == 4 || n == 5;
    }
  }

  /** A rating of 0, the form's "nothing selected", is refused with the
      "Please select a rating" message alone. */
  lemma UnselectedRatingRefused()
    ensures RatingIssues(0.0) == [Issue("rating", "Please select a rating")]
  {
  }
}
