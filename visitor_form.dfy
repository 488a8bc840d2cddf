/**
  The consultation / quote request dialog of src/components/VisitorForm.tsx:
  five text fields, the dialog's own required-field and e-mail check, and
  submission to the local visitor table together with the dialog's context.
*/
module VisitorFormModel {
  import opened Wrappers
  import opened Strings
  import opened SubmissionStore
  import Csv

  datatype Field = Name | Email | Company | Phone | Designation

  /** The five inputs' current text. */
  datatype FormData = FormData(name: string, email: string, company: string, phone: string, designation: string)
  {
    function Get(f: Field): string {
      match f
      case Name => name
      case Email => email
      case Company => company
      case Phone => phone
      case Designation => designation
    }

    /** The same inputs with field `f` holding `v`. */
    function With(f: Field, v: string): (r: FormData)
      ensures r.Get(f) == v
      ensures forall g | g != f :: r.Get(g) == Get(g)
    {
      match f
      case Name => this.(name := v)
      case Email => this.(email := v)
      case Company => this.(company := v)
      case Phone => this.(phone := v)
      case Designation => this.(designation := v)
    }
  }

  const EmptyForm := FormData("", "", "", "", "")

  /** The error text shown under each field; a field without an entry, or with
      an empty one, shows none. */
  type Errors = map<Field, string>

  // ----- the e-mail pattern ------------------------------------------------------

  /** `s[a..e]` is what `/\S+@\S+\.\S+/` matches: a non-empty run of
      non-whitespace up to the `@` at `p`, another up to the `.` at `d`, and a
      third up to `e`. */
  predicate MatchAt(s: string, a: int, p: int, d: int, e: int) {
    && 0 <= a < p && p + 1 < d && d + 1 < e <= |s|
    && s[p] == '@' && s[d] == '.'
    && NoWhitespace(s[a..p]) && NoWhitespace(s[p + 1..d]) && NoWhitespace(s[d + 1..e])
  }

  /** `/\S+@\S+\.\S+/.test(s)`: the pattern is not anchored, so it only asks
      for such a stretch somewhere in `s`. */
  predicate EmailPatternMatches(s: string) {
    exists a, p, d, e | 0 <= a < p < d < e <= |s| :: MatchAt(s, a, p, d, e)
  }

  /** The smallest stretch around an `@` at `p` and a `.` at `d`. */
  predicate ShapeAt(s: string, p: int, d: int) {
    && 0 < p && p + 1 < d && d + 1 < |s|
    && s[p] == '@' && s[d] == '.'
    && !IsWhitespace(s[p - 1]) && NoWhitespace(s[p + 1..d]) && !IsWhitespace(s[d + 1])
  }

  /** The same test in its smallest form: an `@` with a non-whitespace
      character before it, then a non-empty whitespace-free stretch up to a `.`,
      then a non-whitespace character. */
  predicate EmailShape(s: string) {
    exists p, d | 0 < p < d < |s| :: ShapeAt(s, p, d)
  }

  lemma EmailPatternShape(s: string)
    ensures EmailPatternMatches(s) <==> EmailShape(s)
  {
    if EmailPatternMatches(s) {
      var a, p, d, e :| 0 <= a < p < d < e <= |s| && MatchAt(s, a, p, d, e);
      assert s[a..p][p - 1 - a] == s[p - 1];
      assert s[d + 1..e][0] == s[d + 1];
      assert ShapeAt(s, p, d);
    }
    if EmailShape(s) {
      var p, d :| 0 < p < d < |s| && ShapeAt(s, p, d);
      assert 0 < p && p + 1 < d && d + 1 < |s|;
      assert s[p - 1..p] == [s[p - 1]];
      assert s[d + 1..d + 2] == [s[d + 1]];
      assert MatchAt(s, p - 1, p, d, d + 2);
    }
  }

  /** The pattern finds an address inside surrounding text. */
  lemma EmailPatternUnanchored()
    ensures EmailPatternMatches("write to a@b.c today")
  {
    var s := "write to a@b.c today";
    assert s[9..10] == "a" && s[11..12] == "b" && s[13..14] == "c";
    assert MatchAt(s, 9, 10, 12, 14);
  }

  /** Without a `.` after the `@` the pattern does not match. */
  lemma EmailPatternNeedsDot()
    ensures !EmailPatternMatches("a@b")
  {
  }

  // ----- validate -------------------------------------------------------------------

  /** The error `validate` records for field `g`, if any: the checks run in
      field order, each field gets at most one message, and a blank e-mail is
      reported as missing rather than as invalid. */
  function FieldError(f: FormData, g: Field): Option<string> {
    match g
    case Name => if Blank(f.name) then Some("Name is required") else None
    case Email =>
      if Blank(f.email) then Some("Email is required")
      else if !EmailPatternMatches(f.email) then Some("Invalid email")
      else None
    case Company => if Blank(f.company) then Some("Company is required") else None
    case Phone => if Blank(f.phone) then Some("Phone is required") else None
    case Designation => None
  }

  /** The errors object `validate` builds from per-field results: a key for
      each field that has an error. */
  function ErrorsOf(e: Field -> Option<string>): (r: Errors)
    requires e(Designation).None?
    ensures forall g :: g in r <==> e(g).Some?
    ensures forall g | g in r :: r[g] == e(g).value
  {
    var r := map g | g in {Name, Email, Company, Phone} && e(g).Some? :: e(g).value;
    assert forall g :: e(g).Some? ==> g in r by {
      forall g | e(g).Some? ensures g in r {
        CheckedField(g);
      }
    }
    r
  }

  /** Every field but the designation is checked. */
  lemma CheckedField(g: Field)
    ensures g in {Name, Email, Company, Phone} <==> !g.Designation?
  {
  }

  /** `validate`: the errors of the current inputs, keyed by field. */
  function Validate(f: FormData): (r: Errors)
    ensures forall g :: g in r <==> FieldError(f, g).Some?
    ensures forall g | g in r :: r[g] == FieldError(f, g).value
  {
    ErrorsOf(g => FieldError(f, g))
  }

  /** The designation never gets an error. */
  lemma DesignationNeverChecked(f: FormData)
    ensures Designation !in Validate(f)
  {
  }

  /** The e-mail gets "Email is required" exactly when it is blank, and
      "Invalid email" exactly when it is not blank but the pattern fails. */
  lemma EmailErrorRule(f: FormData)
    ensures Email in Validate(f) && Validate(f)[Email] == "Email is required" <==> Blank(f.email)
    ensures Email in Validate(f) && Validate(f)[Email] == "Invalid email" <==>
      !Blank(f.email) && !EmailPatternMatches(f.email)
  {
    assert FieldError(f, Email).Some? ==> FieldError(f, Email).value in {"Email is required", "Invalid email"};
  }

  /** No errors exactly when name, company and phone are not blank and the
      e-mail is not blank and matches the pattern. */
  lemma ValidateAccepts(f: FormData)
    ensures Validate(f) == map[] <==>
      !Blank(f.name) && !Blank(f.email) && EmailPatternMatches(f.email) && !Blank(f.company) && !Blank(f.phone)
  {
    var r := Validate(f);
    if r == map[] {
      assert Name !in r && Email !in r && Company !in r && Phone !in r;
    } else {
      var g :| g in r;
    }
  }

  // ----- the component ---------------------------------------------------------------

  /** What a submit attempt did. */
  datatype SubmitOutcome = Invalid | Stored(id: int) | NotStored

  class VisitorForm {
    /** Which button opened the dialog. */
    const context: Context
    var formData: FormData
    var errors: Errors
    var submitted: bool

    constructor (context: Context)
      ensures this.context == context
      ensures formData == EmptyForm && errors == map[] && !submitted
    {
      this.context := context;
      formData := EmptyForm;
      errors := map[];
      submitted := false;
    }

    /** `handleChange`: field `f` takes the typed text; an error showing on that
        field is blanked, and no other field or error changes. */
    method HandleChange(f: Field, value: string)
      modifies this
      ensures formData == old(formData).With(f, value)
      ensures errors == if f in old(errors) && old(errors)[f] != "" then old(errors)[f := ""] else old(errors)
      ensures submitted == old(submitted)
    {
      formData := formData.With(f, value);
      if f in errors && errors[f] != "" {
        errors := errors[f := ""];
      }
    }

    /** `handleSubmit`: with any error nothing is stored and the errors become
        exactly the computed ones; otherwise the inputs and the context are
        stored, and on success the thank-you view shows. A failed save keeps
        the inputs. */
    method HandleSubmit(db: Database, now: string, ok: bool) returns (outcome: SubmitOutcome)
      requires db.Valid()
      modifies this, db.visitors
      ensures db.Valid() && unchanged(db.feedback) && formData == old(formData)
      ensures outcome == Invalid <==> old(Validate(formData)) != map[]
      ensures outcome == Invalid ==> errors == old(Validate(formData)) && submitted == old(submitted)
      ensures outcome == Invalid ==> db.visitors.rows == old(db.visitors.rows) && db.visitors.nextId == old(db.visitors.nextId)
      ensures outcome != Invalid ==> errors == old(errors)
      ensures outcome != Invalid ==> (outcome.Stored? <==> ok)
      ensures outcome.Stored? ==> outcome.id == old(db.visitors.nextId) && submitted
      ensures outcome.Stored? ==> db.visitors.rows == old(db.visitors.rows)[old(db.visitors.nextId) :=
        Entry(old(db.visitors.nextId), Submission(old(formData), context), now)]
      ensures outcome == NotStored ==> submitted == old(submitted) && db.visitors.rows == old(db.visitors.rows)
      ensures outcome.Stored? ==> db.visitors.nextId == old(db.visitors.nextId) + 1
      ensures outcome == NotStored ==> db.visitors.nextId == old(db.visitors.nextId)
    {
      var newErrors := Validate(formData);
      if newErrors != map[] {
        errors := newErrors;
        return Invalid;
      }
      var r := db.SaveVisitorSubmission(Submission(formData, context), now, ok);
      if r.Saved? {
        submitted := true;
        outcome := Stored(r.id);
      } else {
        outcome := NotStored;
      }
    }

    /** `handleClose`: every input is emptied, the errors are dropped and the
        thank-you view is hidden. */
    method HandleClose()
      modifies this
      ensures formData == EmptyForm && errors == map[] && !submitted
    {
      formData := EmptyForm;
      errors := map[];
      submitted := false;
    }
  }

  /** `{ ...formData, context }`: the stored record. */
  // The ensures clauses below only expose the body to the proofs; the meaning is stated by `SubmittedFieldsExported`.
  function Submission(f: FormData, context: Context): (r: VisitorData)
    ensures r.name == f.name && r.email == f.email && r.company == f.company
    ensures r.phone == f.phone && r.designation == f.designation && r.context == context
  {
    VisitorData(f.name, f.email, f.company, f.phone, f.designation, context)
  }

  /** What the visitor typed is what the admin export shows: the line written
      for a saved submission reads back as the form's fields, the context, the
      timestamp and the id. */
  lemma SubmittedFieldsExported(f: FormData, context: Context, id: int, now: string)
    ensures var row := VisitorRow(Entry(id, Submission(f, context), now));
      Csv.ParseRecord(Csv.EncodeRow(Csv.Keys(row), row)) ==
        [f.name, f.email, f.company, f.phone, f.designation, ContextText(context), now, IntToString(id)]
  {
    VisitorRowRead(Entry(id, Submission(f, context), now));
  }
}
