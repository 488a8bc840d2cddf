/**
  The two submission tables of src/lib/db.ts. Each table is an auto-increment
  store (`'++id'`): the key generator starts at 1, hands out the next number on
  every add, and is not reset by delete or clear. The database failing an
  operation is an outcome chosen by the environment (`ok == false`); the clock
  that stamps `created_at` is the parameter `now`.
*/
module SubmissionStore {
  import opened Wrappers
  import opened Strings
  import Csv

  /** The two kinds of visitor request. */
  datatype Context = Consultation | Quote

  function ContextText(c: Context): string {
    match c
    case Consultation => "consultation"
    case Quote => "quote"
  }

  /** A visitor submission without its id and timestamp. */
  datatype VisitorData = VisitorData(
    name: string, email: string, company: string, phone: string,
    designation: string, context: Context)

  /** A feedback submission without its id and timestamp. */
  datatype FeedbackData = FeedbackData(rating: int, comments: Option<string>)

  /** A stored record: the key the generator gave it, the saved fields and the
      creation time. */
  datatype Entry<T> = Entry(id: int, data: T, createdAt: string)

  datatype SaveResult = Saved(id: int) | SaveFailed

  // ----- newest-first order -----------------------------------------------------

  /** `a` comes before `b` in `orderBy('created_at').reverse()`: a later timestamp,
      or the same timestamp and a larger key. */
  predicate Newer<T>(a: Entry<T>, b: Entry<T>) {
    StrLess(b.createdAt, a.createdAt) || (a.createdAt == b.createdAt && b.id < a.id)
  }

  predicate NewestFirst<T>(s: seq<Entry<T>>) {
    forall i, j | 0 <= i < j < |s| :: Newer(s[i], s[j])
  }

  /** `s` lists every record of `rows` exactly once, newest first. */
  ghost predicate ListsNewestFirst<T>(s: seq<Entry<T>>, rows: map<int, Entry<T>>) {
    && NewestFirst(s)
    && (forall i | 0 <= i < |s| :: s[i].id in rows && rows[s[i].id] == s[i])
    && (forall k | k in rows :: rows[k] in s)
  }

  /** The keys of the listed records. */
  function Ids<T>(s: seq<Entry<T>>): set<int> {
    if s == [] then {} else {s[0].id} + Ids(s[1..])
  }

  lemma {:induction false} IdsMembers<T>(s: seq<Entry<T>>)
    ensures forall k :: k in Ids(s) <==> exists i | 0 <= i < |s| :: s[i].id == k
  {
    if s != [] {
      IdsMembers(s[1..]);
      forall k | k in Ids(s[1..]) ensures exists i | 0 <= i < |s| :: s[i].id == k {
        var i :| 0 <= i < |s[1..]| && s[1..][i].id == k;
        assert s[i + 1].id == k;
      }
    }
  }

  lemma {:induction false} IdsCardinality<T>(s: seq<Entry<T>>)
    requires forall i, j | 0 <= i < j < |s| :: s[i].id != s[j].id
    ensures |Ids(s)| == |s|
  {
    if s != [] {
      IdsMembers(s[1..]);
      IdsCardinality(s[1..]);
      assert s[0].id !in Ids(s[1..]);
    }
  }

  /** A newest-first listing of a table holds each record once: no two
      positions hold the same record, and there are as many as the table has
      (every record sitting under its own key, as in a valid table). */
  lemma ListedOnce<T>(s: seq<Entry<T>>, rows: map<int, Entry<T>>)
    requires ListsNewestFirst(s, rows)
    requires forall k | k in rows :: rows[k].id == k
    ensures forall i, j | 0 <= i < j < |s| :: s[i].id != s[j].id
    ensures |s| == |rows|
  {
    forall i, j | 0 <= i < j < |s| ensures s[i].id != s[j].id {
      assert Newer(s[i], s[j]);
      StrLessIrreflexive(s[i].createdAt);
    }
    IdsCardinality(s);
    IdsMembers(s);
    forall k | k in rows ensures k in Ids(s) {
      var i :| 0 <= i < |s| && s[i] == rows[k];
      assert s[i].id == k;
    }
    forall k | k in Ids(s) ensures k in rows {
      var i :| 0 <= i < |s| && s[i].id == k;
    }
    assert Ids(s) == rows.Keys;
  }

  lemma NewerTransitive<T>(a: Entry<T>, b: Entry<T>, c: Entry<T>)
    requires Newer(a, b) && Newer(b, c)
    ensures Newer(a, c)
  {
    if StrLess(b.createdAt, a.createdAt) && StrLess(c.createdAt, b.createdAt) {
      StrLessTransitive(c.createdAt, b.createdAt, a.createdAt);
    }
  }

  lemma NewerTotal<T>(a: Entry<T>, b: Entry<T>)
    requires a.id != b.id
    ensures Newer(a, b) || Newer(b, a)
  {
    StrLessTotal(a.createdAt, b.createdAt);
  }

  /** Puts `e` into a newest-first list at its place. */
  function Insert<T>(e: Entry<T>, s: seq<Entry<T>>): (r: seq<Entry<T>>)
    requires NewestFirst(s)
    requires forall i | 0 <= i < |s| :: s[i].id != e.id
    ensures NewestFirst(r)
    ensures multiset(r) == multiset(s) + multiset{e}
  {
    if s == [] then [e]
    else if Newer(e, s[0]) then
      HeadDominates(e, s);
      PrependNewest(e, s);
      [e] + s
    else
      NewerTotal(e, s[0]);
      var t := Insert(e, s[1..]);
      InsertedBelow(s[0], e, s[1..], t);
      PrependNewest(s[0], t);
      assert s == [s[0]] + s[1..];
      [s[0]] + t
  }

  /** An entry newer than the head of a newest-first list is newer than all of it. */
  lemma HeadDominates<T>(e: Entry<T>, s: seq<Entry<T>>)
    requires NewestFirst(s) && s != [] && Newer(e, s[0])
    ensures forall j | 0 <= j < |s| :: Newer(e, s[j])
  {
    forall j | 0 < j < |s| ensures Newer(e, s[j]) {
      NewerTransitive(e, s[0], s[j]);
    }
  }

  /** A newest-first list stays newest-first under an entry newer than all of it. */
  lemma PrependNewest<T>(x: Entry<T>, t: seq<Entry<T>>)
    requires NewestFirst(t)
    requires forall j | 0 <= j < |t| :: Newer(x, t[j])
    ensures NewestFirst([x] + t)
  {
    var r := [x] + t;
    forall i, j | 0 <= i < j < |r| ensures Newer(r[i], r[j]) {
      assert r[j] == t[j - 1];
      if i > 0 { assert r[i] == t[i - 1]; }
    }
  }

  /** Whatever is newer than every entry of `rest` and than `e` is newer than
      every entry of a permutation of `rest` with `e` added. */
  lemma InsertedBelow<T>(h: Entry<T>, e: Entry<T>, rest: seq<Entry<T>>, t: seq<Entry<T>>)
    requires forall j | 0 <= j < |rest| :: Newer(h, rest[j])
    requires Newer(h, e)
    requires multiset(t) == multiset(rest) + multiset{e}
    ensures forall j | 0 <= j < |t| :: Newer(h, t[j])
  {
    forall j | 0 <= j < |t| ensures Newer(h, t[j]) {
      assert t[j] in multiset(t);
      if t[j] != e {
        assert t[j] in multiset(rest);
        var k :| 0 <= k < |rest| && rest[k] == t[j];
      }
    }
  }

  /** The entries of a list with one entry added: the old ones and the new one. */
  lemma InsertMembers<T>(x: Entry<T>, before: seq<Entry<T>>, after: seq<Entry<T>>)
    requires multiset(after) == multiset(before) + multiset{x}
    ensures x in after
    ensures forall i | 0 <= i < |after| :: after[i] == x || after[i] in before
    ensures forall y | y in before :: y in after
  {
    assert x in multiset(after);
    forall i | 0 <= i < |after| ensures after[i] == x || after[i] in before {
      assert after[i] in multiset(after);
    }
    forall y | y in before ensures y in after {
      assert y in multiset(before);
      assert y in multiset(after);
    }
  }

  /** `s` lists, newest first, exactly the records of `rows` under keys below `key`. */
  ghost predicate CollectedBelow<T>(s: seq<Entry<T>>, rows: map<int, Entry<T>>, key: int) {
    && NewestFirst(s)
    && (forall i | 0 <= i < |s| :: s[i].id in rows && rows[s[i].id] == s[i] && s[i].id < key)
    && (forall k | k in rows && k < key :: rows[k] in s)
  }

  /** Inserting the record under `key`, if there is one, extends the listing to
      the keys below `key + 1`. */
  lemma CollectStep<T>(s: seq<Entry<T>>, rows: map<int, Entry<T>>, key: int)
    requires forall k | k in rows :: rows[k].id == k
    requires CollectedBelow(s, rows, key)
    ensures key in rows ==> forall i | 0 <= i < |s| :: s[i].id != rows[key].id
    ensures key in rows ==> CollectedBelow(Insert(rows[key], s), rows, key + 1)
    ensures key !in rows ==> CollectedBelow(s, rows, key + 1)
  {
    if key in rows {
      var x := rows[key];
      var after := Insert(x, s);
      InsertMembers(x, s, after);
      forall i | 0 <= i < |after| ensures after[i].id in rows && rows[after[i].id] == after[i] && after[i].id < key + 1 {
        if after[i] != x {
          var j :| 0 <= j < |s| && s[j] == after[i];
        }
      }
    }
  }

  // ----- one table --------------------------------------------------------------

  /** One auto-increment table: the stored records by key, and the next key. */
  class Table<T> {
    var rows: map<int, Entry<T>>
    var nextId: int

    /** Every record sits under its own key, and every key was handed out
        already. */
    ghost predicate Valid()
      reads this
    {
      nextId >= 1 && forall k | k in rows :: rows[k].id == k && 1 <= k < nextId
    }

    constructor ()
      ensures Valid() && rows == map[] && nextId == 1
    {
      rows := map[];
      nextId := 1;
    }

    /** `table.add({...data, created_at: now})`: on success one new record under
        a fresh key, all earlier records untouched. */
    method Add(data: T, now: string, ok: bool) returns (r: SaveResult)
      requires Valid()
      modifies this
      ensures Valid()
      ensures ok ==> r == Saved(old(nextId)) && old(nextId) !in old(rows)
      ensures ok ==> rows == old(rows)[old(nextId) := Entry(old(nextId), data, now)]
      ensures ok ==> nextId == old(nextId) + 1
      ensures !ok ==> r == SaveFailed && rows == old(rows) && nextId == old(nextId)
    {
      if ok {
        r := Saved(nextId);
        rows := rows[nextId := Entry(nextId, data, now)];
        nextId := nextId + 1;
      } else {
        r := SaveFailed;
      }
    }

    /** `table.orderBy('created_at').reverse().toArray()`: every record exactly
        once, newest first; `[]` when the query fails. */
    method GetAll(ok: bool) returns (s: seq<Entry<T>>)
      requires Valid()
      ensures !ok ==> s == []
      ensures ok ==> ListsNewestFirst(s, rows)
    {
      s := [];
      if !ok {
        return;
      }
      // Every key lies in 1 .. nextId - 1, so visiting those numbers in turn
      // visits every record once.
      for key := 1 to nextId
        invariant CollectedBelow(s, rows, key)
      {
        CollectStep(s, rows, key);
        if key in rows {
          s := Insert(rows[key], s);
        }
      }
      assert CollectedBelow(s, rows, nextId);
    }

    /** `table.delete(id)`: the record under `id`, if there is one, is gone and
        nothing else changes. */
    method Delete(id: int, ok: bool) returns (success: bool)
      requires Valid()
      modifies this
      ensures Valid() && success == ok && nextId == old(nextId)
      ensures rows == if ok then old(rows) - {id} else old(rows)
    {
      if ok {
        rows := rows - {id};
      }
      success := ok;
    }

    /** `table.clear()`: no records are left; the key generator is not reset. */
    method Clear(ok: bool) returns (success: bool)
      requires Valid()
      modifies this
      ensures Valid() && success == ok && nextId == old(nextId)
      ensures rows == if ok then map[] else old(rows)
    {
      if ok {
        rows := map[];
      }
      success := ok;
    }
  }

  // ----- the database -----------------------------------------------------------

  /** `CorconDB`: the visitor and the feedback table. */
  class Database {
    const visitors: Table<VisitorData>
    const feedback: Table<FeedbackData>

    ghost predicate Valid()
      reads this, visitors, feedback
    {
      visitors as object != feedback as object && visitors.Valid() && feedback.Valid()
    }

    constructor ()
      ensures Valid() && fresh(visitors) && fresh(feedback)
      ensures visitors.rows == map[] && feedback.rows == map[]
    {
      visitors := new Table();
      feedback := new Table();
    }

    /** `saveVisitorSubmission`: adds to the visitor table only. */
    method SaveVisitorSubmission(data: VisitorData, now: string, ok: bool) returns (r: SaveResult)
      requires Valid()
      modifies visitors
      ensures Valid() && unchanged(feedback)
      ensures ok ==> r == Saved(old(visitors.nextId)) && old(visitors.nextId) !in old(visitors.rows)
      ensures ok ==> visitors.rows == old(visitors.rows)[old(visitors.nextId) := Entry(old(visitors.nextId), data, now)]
      ensures ok ==> visitors.nextId == old(visitors.nextId) + 1
      ensures !ok ==> r == SaveFailed && visitors.rows == old(visitors.rows) && visitors.nextId == old(visitors.nextId)
    {
      r := visitors.Add(data, now, ok);
    }

    /** `getAllVisitorSubmissions`. */
    method GetAllVisitorSubmissions(ok: bool) returns (s: seq<Entry<VisitorData>>)
      requires Valid()
      ensures !ok ==> s == []
      ensures ok ==> ListsNewestFirst(s, visitors.rows)
    {
      s := visitors.GetAll(ok);
    }

    /** `deleteVisitorSubmission`: the feedback table is not touched. */
    method DeleteVisitorSubmission(id: int, ok: bool) returns (success: bool)
      requires Valid()
      modifies visitors
      ensures Valid() && unchanged(feedback) && success == ok && visitors.nextId == old(visitors.nextId)
      ensures visitors.rows == if ok then old(visitors.rows) - {id} else old(visitors.rows)
    {
      success := visitors.Delete(id, ok);
    }

    /** `clearAllVisitorSubmissions`: empties the visitor table only. */
    method ClearAllVisitorSubmissions(ok: bool) returns (success: bool)
      requires Valid()
      modifies visitors
      ensures Valid() && unchanged(feedback) && success == ok && visitors.nextId == old(visitors.nextId)
      ensures visitors.rows == if ok then map[] else old(visitors.rows)
    {
      success := visitors.Clear(ok);
    }

    /** `saveFeedbackSubmission`: adds to the feedback table only. */
    method SaveFeedbackSubmission(data: FeedbackData, now: string, ok: bool) returns (r: SaveResult)
      requires Valid()
      modifies feedback
      ensures Valid() && unchanged(visitors)
      ensures ok ==> r == Saved(old(feedback.nextId)) && old(feedback.nextId) !in old(feedback.rows)
      ensures ok ==> feedback.rows == old(feedback.rows)[old(feedback.nextId) := Entry(old(feedback.nextId), data, now)]
      ensures ok ==> feedback.nextId == old(feedback.nextId) + 1
      ensures !ok ==> r == SaveFailed && feedback.rows == old(feedback.rows) && feedback.nextId == old(feedback.nextId)
    {
      r := feedback.Add(data, now, ok);
    }

    /** `getAllFeedbackSubmissions`. */
    method GetAllFeedbackSubmissions(ok: bool) returns (s: seq<Entry<FeedbackData>>)
      requires Valid()
      ensures !ok ==> s == []
      ensures ok ==> ListsNewestFirst(s, feedback.rows)
    {
      s := feedback.GetAll(ok);
    }

    /** `deleteFeedbackSubmission`: the visitor table is not touched. */
    method DeleteFeedbackSubmission(id: int, ok: bool) returns (success: bool)
      requires Valid()
      modifies feedback
      ensures Valid() && unchanged(visitors) && success == ok && feedback.nextId == old(feedback.nextId)
      ensures feedback.rows == if ok then old(feedback.rows) - {id} else old(feedback.rows)
    {
      success := feedback.Delete(id, ok);
    }

    /** `clearAllFeedbackSubmissions`: empties the feedback table only. */
    method ClearAllFeedbackSubmissions(ok: bool) returns (success: bool)
      requires Valid()
      modifies feedback
      ensures Valid() && unchanged(visitors) && success == ok && feedback.nextId == old(feedback.nextId)
      ensures feedback.rows == if ok then map[] else old(feedback.rows)
    {
      success := feedback.Clear(ok);
    }
  }

  // ----- records as CSV rows ---------------------------------------------------------

  /** A stored visitor record as the object IndexedDB hands back: the spread
      fields, then `created_at`, then the key the generator injected. */
  function VisitorRow(e: Entry<VisitorData>): Csv.Row {
    [ ("name", Csv.Str(e.data.name)), ("email", Csv.Str(e.data.email)),
      ("company", Csv.Str(e.data.company)), ("phone", Csv.Str(e.data.phone)),
      ("designation", Csv.Str(e.data.designation)),
      ("context", Csv.Str(ContextText(e.data.context))),
      ("created_at", Csv.Str(e.createdAt)), ("id", Csv.Num(e.id)) ]
  }

  /** The keys of a stored visitor record, in the order the saved object spreads
      them; the export takes its header line from them. */
  lemma VisitorRowKeys(e: Entry<VisitorData>)
    ensures Csv.Keys(VisitorRow(e)) == ["name", "email", "company", "phone", "designation", "context", "created_at", "id"]
    ensures forall i, j | 0 <= i < j < |VisitorRow(e)| :: VisitorRow(e)[i].0 != VisitorRow(e)[j].0
  {
    VisitorKeysDistinct(e);
  }

  lemma VisitorKeysDistinct(e: Entry<VisitorData>)
    ensures forall i, j | 0 <= i < j < |VisitorRow(e)| :: VisitorRow(e)[i].0 != VisitorRow(e)[j].0
  {
  }

  /** A stored feedback record: `comments` is present with value `undefined` when
      the form left it empty. */
  function FeedbackRow(e: Entry<FeedbackData>): Csv.Row {
    [ ("rating", Csv.Num(e.data.rating)),
      ("comments", match e.data.comments case Some(c) => Csv.Str(c) case None => Csv.Undefined),
      ("created_at", Csv.Str(e.createdAt)), ("id", Csv.Num(e.id)) ]
  }

  /** The keys of a stored feedback record, `comments` included even when its
      value is `undefined`. */
  lemma FeedbackRowKeys(e: Entry<FeedbackData>)
    ensures Csv.Keys(FeedbackRow(e)) == ["rating", "comments", "created_at", "id"]
    ensures forall i, j | 0 <= i < j < |FeedbackRow(e)| :: FeedbackRow(e)[i].0 != FeedbackRow(e)[j].0
  {
  }

  /** The line written for a visitor record under its own keys reads back as its
      fields, the context as its word and the id in decimal. */
  lemma VisitorRowRead(e: Entry<VisitorData>)
    ensures Csv.ParseRecord(Csv.EncodeRow(Csv.Keys(VisitorRow(e)), VisitorRow(e))) ==
      [e.data.name, e.data.email, e.data.company, e.data.phone, e.data.designation,
       ContextText(e.data.context), e.createdAt, IntToString(e.id)]
  {
    VisitorKeysDistinct(e);
    Csv.OwnKeysRoundTrip(VisitorRow(e), [e.data.name, e.data.email, e.data.company, e.data.phone,
      e.data.designation, ContextText(e.data.context), e.createdAt, IntToString(e.id)]);
  }

  /** The line written for a feedback record reads back as its rating, its
      comments (empty when there were none), its timestamp and its id. */
  lemma FeedbackRowRead(e: Entry<FeedbackData>)
    ensures Csv.ParseRecord(Csv.EncodeRow(Csv.Keys(FeedbackRow(e)), FeedbackRow(e))) ==
      [IntToString(e.data.rating), (match e.data.comments case Some(c) => c case None => []),
       e.createdAt, IntToString(e.id)]
  {
    FeedbackRowKeys(e);
    Csv.OwnKeysRoundTrip(FeedbackRow(e), [IntToString(e.data.rating),
      (match e.data.comments case Some(c) => c case None => []), e.createdAt, IntToString(e.id)]);
  }
}
