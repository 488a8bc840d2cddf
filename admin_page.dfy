/**
  The password-protected admin page of src/pages/AdminPage.tsx: the login
  gate with its persisted flag, loading both submission lists, the delete and
  clear actions, the search filter over visitors, the CSV exports and the star
  row of each feedback card.
*/
module AdminPageModel {
  import opened Wrappers
  import opened Strings
  import opened StarRating
  import opened SubmissionStore
  import Csv

  /** The password compared against (stored in clear text in the source). */
  const AdminPassword := "admin123"

  /** The storage key of the "logged in" flag, and the value that means yes. */
  const AuthKey := "admin_auth"
  const AuthValue := "true"

  /** The browser's `localStorage` for this site. */
  class LocalStorage {
    var items: map<string, string>

    constructor (items: map<string, string>)
      ensures this.items == items
    {
      this.items := items;
    }
  }

  /** The stored flag says the admin is logged in. */
  predicate FlagSet(items: map<string, string>) {
    AuthKey in items && items[AuthKey] == AuthValue
  }

  // ----- the search filter -----------------------------------------------------------

  /** A visitor row is kept when its name, e-mail or company contains the
      search term, both sides lower-cased. */
  predicate MatchesSearch(v: VisitorData, term: string) {
    var t := Lower(term);
    Contains(Lower(v.name), t) || Contains(Lower(v.email), t) || Contains(Lower(v.company), t)
  }

  /** `s` is `t` with some elements left out, the rest in their order. */
  predicate Subsequence<T(==)>(s: seq<T>, t: seq<T>) {
    if s == [] then true
    else if t == [] then false
    else if s[0] == t[0] then Subsequence(s[1..], t[1..])
    else Subsequence(s, t[1..])
  }

  /** `filteredVisitors`. */
  function FilterVisitors(list: seq<Entry<VisitorData>>, term: string): (r: seq<Entry<VisitorData>>)
    ensures Subsequence(r, list)
    ensures forall x :: x in r <==> x in list && MatchesSearch(x.data, term)
    ensures forall x :: multiset(r)[x] == if MatchesSearch(x.data, term) then multiset(list)[x] else 0
  {
    if list == [] then []
    else
      assert list == [list[0]] + list[1..];
      if MatchesSearch(list[0].data, term) then [list[0]] + FilterVisitors(list[1..], term)
      else
        var r := FilterVisitors(list[1..], term);
        SubsequenceDropHead(r, list);
        r
  }

  lemma {:induction false} SubsequenceDropHead<T>(s: seq<T>, t: seq<T>)
    requires t != [] && Subsequence(s, t[1..])
    ensures Subsequence(s, t)
  {
    if s != [] && s[0] == t[0] {
      SubsequenceTail(s, t[1..]);
    }
  }

  lemma {:induction false} SubsequenceTail<T>(s: seq<T>, t: seq<T>)
    requires s != [] && Subsequence(s, t)
    ensures Subsequence(s[1..], t)
  {
    if s[0] == t[0] {
      if s[1..] != [] {
        SubsequenceTail(s[1..], t[1..]);
        SubsequenceDropHead(s[1..], t);
      }
    } else {
      SubsequenceTail(s, t[1..]);
      if s[1..] != [] {
        SubsequenceDropHead(s[1..], t);
      }
    }
  }

  /** An empty search keeps every visitor, in order. */
  lemma {:induction false} EmptySearchKeepsAll(list: seq<Entry<VisitorData>>)
    ensures FilterVisitors(list, "") == list
  {
    if list != [] {
      ContainsEmpty(Lower(list[0].data.name));
      EmptySearchKeepsAll(list[1..]);
    }
  }

  /** The search ignores the case of ASCII letters in the term. */
  lemma SearchIgnoresCase(v: VisitorData, term: string)
    ensures MatchesSearch(v, term) <==> MatchesSearch(v, Lower(term))
  {
    LowerIdempotent(term);
  }

  lemma LowerIdempotent(s: string)
    ensures Lower(Lower(s)) == Lower(s)
  {
  }

  // ----- exports ---------------------------------------------------------------------

  /** `<prefix>${new Date().toISOString().split('T')[0]}.csv`. */
  function ExportFilename(prefix: string, iso: string): (r: string)
    ensures r == prefix + BeforeFirst(iso, 'T') + ".csv"
  {
    prefix + Split(iso, 'T')[0] + ".csv"
  }

  /** For a timestamp `2025-01-31T10:00:00.000Z` the name carries the date part. */
  lemma ExportFilenameDate(prefix: string, date: string, time: string)
    requires 'T' !in date
    ensures ExportFilename(prefix, date + "T" + time) == prefix + date + ".csv"
  {
    SplitAt(date, 'T', time);
    assert date + "T" + time == date + ['T'] + time;
  }

  const VisitorExportPrefix := "visitor-submissions-"
  const FeedbackExportPrefix := "feedback-submissions-"

  /** The CSV rows of the loaded visitors. */
  // The ensures clauses below only expose the body to the proofs; the meaning is stated by `VisitorExportLine`.
  function VisitorRows(list: seq<Entry<VisitorData>>): (r: seq<Csv.Row>)
    ensures |r| == |list|
    ensures forall i | 0 <= i < |list| :: r[i] == VisitorRow(list[i])
  {
    seq(|list|, i requires 0 <= i < |list| => VisitorRow(list[i]))
  }

  /** The CSV rows of the loaded feedback. */
  // The ensures clauses below only expose the body to the proofs; the meaning is stated by `FeedbackExportLine`.
  function FeedbackRows(list: seq<Entry<FeedbackData>>): (r: seq<Csv.Row>)
    ensures |r| == |list|
    ensures forall i | 0 <= i < |list| :: r[i] == FeedbackRow(list[i])
  {
    seq(|list|, i requires 0 <= i < |list| => FeedbackRow(list[i]))
  }

  /** The visitor export: its header line lists the record's keys in order, and
      reading the line written for visitor `i` gives back each of its fields. */
  lemma VisitorExportLine(list: seq<Entry<VisitorData>>, i: int)
    requires 0 <= i < |list|
    ensures Csv.Keys(VisitorRows(list)[0]) == ["name", "email", "company", "phone", "designation", "context", "created_at", "id"]
    ensures var e := list[i];
      Csv.ParseRecord(Csv.RowLines(Csv.Keys(VisitorRows(list)[0]), VisitorRows(list))[i]) ==
        [e.data.name, e.data.email, e.data.company, e.data.phone, e.data.designation,
         ContextText(e.data.context), e.createdAt, IntToString(e.id)]
  {
    VisitorRowKeys(list[0]);
    VisitorRowKeys(list[i]);
    VisitorRowRead(list[i]);
  }

  /** The feedback export: header `rating,comments,created_at,id`, and the line
      for entry `i` reads back as the entry's fields. */
  lemma FeedbackExportLine(list: seq<Entry<FeedbackData>>, i: int)
    requires 0 <= i < |list|
    ensures Csv.Keys(FeedbackRows(list)[0]) == ["rating", "comments", "created_at", "id"]
    ensures var e := list[i];
      Csv.ParseRecord(Csv.RowLines(Csv.Keys(FeedbackRows(list)[0]), FeedbackRows(list))[i]) ==
        [IntToString(e.data.rating), (match e.data.comments case Some(c) => c case None => []),
         e.createdAt, IntToString(e.id)]
  {
    FeedbackRowKeys(list[0]);
    FeedbackRowKeys(list[i]);
    FeedbackRowRead(list[i]);
  }

  // ----- feedback cards --------------------------------------------------------------

  /** How many of a card's five stars are highlighted: the rating, clamped to
      0..5. */
  function CardStarsLit(e: Entry<FeedbackData>): (n: nat)
    ensures 1 <= e.data.rating <= 5 ==> n == e.data.rating
    ensures n == if e.data.rating <= 0 then 0 else if e.data.rating >= 5 then 5 else e.data.rating
  {
    LitCountClamped(e.data.rating, 5);
    LitCount(e.data.rating, 5)
  }

  // ----- the page --------------------------------------------------------------------

  class AdminPage {
    const db: Database
    const storage: LocalStorage
    var isAuthenticated: bool
    var password: string
    var searchTerm: string
    var visitorSubmissions: seq<Entry<VisitorData>>
    var feedbackSubmissions: seq<Entry<FeedbackData>>

    ghost predicate Valid()
      reads this, db, db.visitors, db.feedback
    {
      db.Valid()
    }

    /** The lists hold what `loadData` fetched: each table newest first, or
        nothing for a query that failed. */
    ghost predicate Loaded(visitorsOk: bool, feedbackOk: bool)
      reads this, db, db.visitors, db.feedback
    {
      && (visitorsOk ==> ListsNewestFirst(visitorSubmissions, db.visitors.rows))
      && (!visitorsOk ==> visitorSubmissions == [])
      && (feedbackOk ==> ListsNewestFirst(feedbackSubmissions, db.feedback.rows))
      && (!feedbackOk ==> feedbackSubmissions == [])
    }

    /** Opening the page: logged in, and the lists fetched, exactly when the
        stored flag is `'true'`. */
    constructor Mount(db: Database, storage: LocalStorage, visitorsOk: bool, feedbackOk: bool)
      requires db.Valid()
      ensures Valid() && this.db == db && this.storage == storage
      ensures isAuthenticated == FlagSet(storage.items)
      ensures password == "" && searchTerm == ""
      ensures isAuthenticated ==> Loaded(visitorsOk, feedbackOk)
      ensures !isAuthenticated ==> visitorSubmissions == [] && feedbackSubmissions == []
    {
      this.db := db;
      this.storage := storage;
      isAuthenticated := false;
      password := "";
      searchTerm := "";
      visitorSubmissions := [];
      feedbackSubmissions := [];
      new;
      if FlagSet(storage.items) {
        isAuthenticated := true;
        LoadData(visitorsOk, feedbackOk);
      }
    }

    /** `loadData`: both lists fetched again. */
    method LoadData(visitorsOk: bool, feedbackOk: bool)
      requires Valid()
      modifies this
      ensures Valid() && Loaded(visitorsOk, feedbackOk)
      ensures isAuthenticated == old(isAuthenticated) && password == old(password) && searchTerm == old(searchTerm)
    {
      visitorSubmissions := db.GetAllVisitorSubmissions(visitorsOk);
      feedbackSubmissions := db.GetAllFeedbackSubmissions(feedbackOk);
    }

    method EditPassword(text: string)
      modifies this
      ensures password == text
      ensures isAuthenticated == old(isAuthenticated) && searchTerm == old(searchTerm)
      ensures visitorSubmissions == old(visitorSubmissions) && feedbackSubmissions == old(feedbackSubmissions)
    {
      password := text;
    }

    method EditSearch(text: string)
      modifies this
      ensures searchTerm == text
      ensures isAuthenticated == old(isAuthenticated) && password == old(password)
      ensures visitorSubmissions == old(visitorSubmissions) && feedbackSubmissions == old(feedbackSubmissions)
    {
      searchTerm := text;
    }

    /** `handleLogin`: the right password sets the stored flag, logs in and
        loads the lists; a wrong one empties the password box and changes
        nothing else. */
    method HandleLogin(visitorsOk: bool, feedbackOk: bool)
      requires Valid()
      modifies this, storage
      ensures Valid()
      ensures old(password) == AdminPassword ==>
        && storage.items == old(storage.items)[AuthKey := AuthValue]
        && isAuthenticated && password == old(password) && Loaded(visitorsOk, feedbackOk)
      ensures old(password) != AdminPassword ==>
        && storage.items == old(storage.items) && password == ""
        && isAuthenticated == old(isAuthenticated)
        && visitorSubmissions == old(visitorSubmissions) && feedbackSubmissions == old(feedbackSubmissions)
      ensures searchTerm == old(searchTerm)
    {
      if password == AdminPassword {
        storage.items := storage.items[AuthKey := AuthValue];
        isAuthenticated := true;
        LoadData(visitorsOk, feedbackOk);
      } else {
        password := "";
      }
    }

    /** `handleLogout`: the stored flag is removed and the page is locked. */
    method HandleLogout()
      modifies this, storage
      ensures storage.items == old(storage.items) - {AuthKey} && !FlagSet(storage.items)
      ensures !isAuthenticated && password == old(password) && searchTerm == old(searchTerm)
      ensures visitorSubmissions == old(visitorSubmissions) && feedbackSubmissions == old(feedbackSubmissions)
    {
      storage.items := storage.items - {AuthKey};
      isAuthenticated := false;
    }

    /** `handleDeleteVisitor`: after the confirmation the record is deleted and
        the lists are fetched again; without it nothing happens. */
    method HandleDeleteVisitor(id: int, confirmed: bool, deleteOk: bool, visitorsOk: bool, feedbackOk: bool)
      requires Valid()
      modifies this, db.visitors
      ensures Valid() && unchanged(db.feedback)
      ensures confirmed ==> Loaded(visitorsOk, feedbackOk)
      ensures confirmed ==> db.visitors.rows == (if deleteOk then old(db.visitors.rows) - {id} else old(db.visitors.rows))
      ensures !confirmed ==> unchanged(db.visitors)
      ensures db.visitors.nextId == old(db.visitors.nextId)
      ensures !confirmed ==> visitorSubmissions == old(visitorSubmissions) && feedbackSubmissions == old(feedbackSubmissions)
      ensures isAuthenticated == old(isAuthenticated) && password == old(password) && searchTerm == old(searchTerm)
    {
      if confirmed {
        var _ := db.DeleteVisitorSubmission(id, deleteOk);
        LoadData(visitorsOk, feedbackOk);
      }
    }

    /** `handleDeleteFeedback`. */
    method HandleDeleteFeedback(id: int, confirmed: bool, deleteOk: bool, visitorsOk: bool, feedbackOk: bool)
      requires Valid()
      modifies this, db.feedback
      ensures Valid() && unchanged(db.visitors)
      ensures confirmed ==> Loaded(visitorsOk, feedbackOk)
      ensures confirmed ==> db.feedback.rows == (if deleteOk then old(db.feedback.rows) - {id} else old(db.feedback.rows))
      ensures !confirmed ==> unchanged(db.feedback)
      ensures db.feedback.nextId == old(db.feedback.nextId)
      ensures !confirmed ==> visitorSubmissions == old(visitorSubmissions) && feedbackSubmissions == old(feedbackSubmissions)
      ensures isAuthenticated == old(isAuthenticated) && password == old(password) && searchTerm == old(searchTerm)
    {
      if confirmed {
        var _ := db.DeleteFeedbackSubmission(id, deleteOk);
        LoadData(visitorsOk, feedbackOk);
      }
    }

    /** `handleClearAllVisitors`. */
    method HandleClearAllVisitors(confirmed: bool, clearOk: bool, visitorsOk: bool, feedbackOk: bool)
      requires Valid()
      modifies this, db.visitors
      ensures Valid() && unchanged(db.feedback)
      ensures confirmed ==> Loaded(visitorsOk, feedbackOk)
      ensures confirmed ==> db.visitors.rows == (if clearOk then map[] else old(db.visitors.rows))
      ensures !confirmed ==> unchanged(db.visitors)
      ensures db.visitors.nextId == old(db.visitors.nextId)
      ensures !confirmed ==> visitorSubmissions == old(visitorSubmissions) && feedbackSubmissions == old(feedbackSubmissions)
      ensures isAuthenticated == old(isAuthenticated) && password == old(password) && searchTerm == old(searchTerm)
    {
      if confirmed {
        var _ := db.ClearAllVisitorSubmissions(clearOk);
        LoadData(visitorsOk, feedbackOk);
      }
    }

    /** `handleClearAllFeedback`. */
    method HandleClearAllFeedback(confirmed: bool, clearOk: bool, visitorsOk: bool, feedbackOk: bool)
      requires Valid()
      modifies this, db.feedback
      ensures Valid() && unchanged(db.visitors)
      ensures confirmed ==> Loaded(visitorsOk, feedbackOk)
      ensures confirmed ==> db.feedback.rows == (if clearOk then map[] else old(db.feedback.rows))
      ensures !confirmed ==> unchanged(db.feedback)
      ensures db.feedback.nextId == old(db.feedback.nextId)
      ensures !confirmed ==> visitorSubmissions == old(visitorSubmissions) && feedbackSubmissions == old(feedbackSubmissions)
      ensures isAuthenticated == old(isAuthenticated) && password == old(password) && searchTerm == old(searchTerm)
    {
      if confirmed {
        var _ := db.ClearAllFeedbackSubmissions(clearOk);
        LoadData(visitorsOk, feedbackOk);
      }
    }

    /** The visitor rows on screen. */
    function FilteredVisitors(): (r: seq<Entry<VisitorData>>)
      reads this
      ensures Subsequence(r, visitorSubmissions)
      ensures forall x :: x in r <==> x in visitorSubmissions && MatchesSearch(x.data, searchTerm)
      ensures forall x :: multiset(r)[x] == if MatchesSearch(x.data, searchTerm) then multiset(visitorSubmissions)[x] else 0
    {
      FilterVisitors(visitorSubmissions, searchTerm)
    }

    /** `handleExportVisitors`: every loaded visitor, whatever the search. */
    function ExportVisitors(iso: string): (r: Csv.ExportResult)
      reads this
      ensures r.NothingToExport? <==> visitorSubmissions == []
      ensures r.Download? ==> r.filename == ExportFilename(VisitorExportPrefix, iso)
      ensures r.Download? ==> r.content == Csv.Document(VisitorRows(visitorSubmissions))
    {
      Csv.ExportToCsv(VisitorRows(visitorSubmissions), ExportFilename(VisitorExportPrefix, iso))
    }

    /** `handleExportFeedback`. */
    function ExportFeedback(iso: string): (r: Csv.ExportResult)
      reads this
      ensures r.NothingToExport? <==> feedbackSubmissions == []
      ensures r.Download? ==> r.filename == ExportFilename(FeedbackExportPrefix, iso)
      ensures r.Download? ==> r.content == Csv.Document(FeedbackRows(feedbackSubmissions))
    {
      Csv.ExportToCsv(FeedbackRows(feedbackSubmissions), ExportFilename(FeedbackExportPrefix, iso))
    }
  }
}
