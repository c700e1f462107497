/**
 * The read side of the document repository: the filter-and-order queries
 * over the `documents` table. A query is a conjunction of equality filters
 * followed by a descending order on one timestamp column. Rows with equal
 * timestamps come in descending id order (the later insert first); the
 * database leaves that order unspecified, so this is one admissible choice.
 */
module DocumentQueries {
  import opened Wrappers
  import opened Schema

  /** The `documents` table: id to row. */
  type Table = map<DocId, Document>

  /** Every row is stored under its own id, and every id is below the next fresh id. */
  ghost predicate WellFormed(t: Table, nextId: DocId) {
    forall id :: id in t ==> id < nextId && t[id].id == id
  }

  /** The `.eq(column, value)` filters of a query on `documents`; `None` means no filter on that column. */
  datatype Query = Query(userId: string, templateId: Option<string>, isDraft: Option<bool>)

  predicate Matches(d: Document, q: Query) {
    && d.userId == q.userId
    && (q.templateId.Some? ==> d.templateId == q.templateId.value)
    && (q.isDraft.Some? ==> d.isDraft == q.isDraft.value)
  }

  /** The column of an `.order(column, { ascending: false })`. */
  datatype OrderKey = ByUpdatedAt | ByCreatedAt

  function KeyOf(d: Document, k: OrderKey): Timestamp {
    match k
    case ByUpdatedAt => d.updatedAt
    case ByCreatedAt => d.createdAt
  }

  /** `a` comes before `b`: a later timestamp, or the same timestamp and a larger id. */
  predicate Before(a: Document, b: Document, k: OrderKey) {
    KeyOf(a, k) > KeyOf(b, k) || (KeyOf(a, k) == KeyOf(b, k) && a.id > b.id)
  }

  predicate StrictlySorted(s: seq<Document>, k: OrderKey) {
    forall i, j :: 0 <= i < j < |s| ==> Before(s[i], s[j], k)
  }

  predicate DistinctIds(s: seq<Document>) {
    forall i, j :: 0 <= i < j < |s| ==> s[i].id != s[j].id
  }

  /** The rows with id below `n` that match `q`, in descending id order. */
  function RowsBelow(t: Table, n: nat, q: Query): (r: seq<Document>)
    requires forall id :: id in t ==> t[id].id == id
    ensures forall i :: 0 <= i < |r| ==> r[i].id < n && r[i].id in t && t[r[i].id] == r[i] && Matches(r[i], q)
    ensures forall id :: id in t && id < n && Matches(t[id], q) ==> t[id] in r
    ensures forall i, j :: 0 <= i < j < |r| ==> r[i].id > r[j].id
  {
    if n == 0 then []
    else
      var rest := RowsBelow(t, n - 1, q);
      if n - 1 in t && Matches(t[n - 1], q) then [t[n - 1]] + rest else rest
  }

  /** Places `d` into a strictly sorted sequence. */
  function InsertSorted(d: Document, s: seq<Document>, k: OrderKey): (r: seq<Document>)
    requires StrictlySorted(s, k)
    requires forall i :: 0 <= i < |s| ==> s[i].id != d.id
    ensures StrictlySorted(r, k)
    ensures forall x :: x in r <==> x == d || x in s
  {
    if s == [] || Before(d, s[0], k) then [d] + s
    else
      var rest := InsertSorted(d, s[1..], k);
      assert forall x :: x in rest ==> Before(s[0], x, k) by {
        forall x | x in rest ensures Before(s[0], x, k) {
          if x != d {
            var j :| 0 <= j < |s[1..]| && s[1..][j] == x;
            assert s[j + 1] == x;
          }
        }
      }
      [s[0]] + rest
  }

  /** Insertion sort of rows with distinct ids into descending `k` order. */
  function SortDescending(s: seq<Document>, k: OrderKey): (r: seq<Document>)
    requires DistinctIds(s)
    ensures StrictlySorted(r, k)
    ensures forall x :: x in r <==> x in s
  {
    if s == [] then []
    else
      var rest := SortDescending(s[1..], k);
      assert forall i :: 0 <= i < |rest| ==> rest[i].id != s[0].id by {
        forall i | 0 <= i < |rest| ensures rest[i].id != s[0].id {
          assert rest[i] in s[1..];
        }
      }
      InsertSorted(s[0], rest, k)
  }

  /** `select('*')` with the filters of `q`, `.order(k, { ascending: false })`. */
  function Select(t: Table, n: nat, q: Query, k: OrderKey): (r: seq<Document>)
    requires WellFormed(t, n)
    ensures forall d :: d in r <==> d in t.Values && Matches(d, q)
    ensures forall i :: 0 <= i < |r| ==> r[i].id in t && t[r[i].id] == r[i]
    ensures StrictlySorted(r, k)
  {
    var rows := RowsBelow(t, n, q);
    var r := SortDescending(rows, k);
    assert forall d :: d in t.Values && Matches(d, q) ==> d in r by {
      forall d | d in t.Values && Matches(d, q) ensures d in r {
        var id :| id in t && t[id] == d;
        assert t[id] in rows;
      }
    }
    assert forall i :: 0 <= i < |r| ==> r[i].id in t && t[r[i].id] == r[i] by {
      forall i | 0 <= i < |r| ensures r[i].id in t && t[r[i].id] == r[i] {
        assert r[i] in rows;
      }
    }
    r
  }

  /**
   * `getDraftsByTemplateId`: the user's drafts of one template, most
   * recently updated first; the empty list when the store reports an error.
   */
  function DraftsByTemplateId(t: Table, n: nat, userId: string, templateId: string, fault: bool): (r: seq<Document>)
    requires WellFormed(t, n)
    ensures fault ==> r == []
    ensures !fault ==> forall d :: d in r <==> d in t.Values && d.userId == userId && d.templateId == templateId && d.isDraft
    ensures forall i :: 0 <= i < |r| ==> r[i].id in t && t[r[i].id] == r[i]
    ensures forall i, j :: 0 <= i < j < |r| ==> r[i].updatedAt >= r[j].updatedAt && r[i].id != r[j].id
  {
    if fault then [] else Select(t, n, Query(userId, Some(templateId), Some(true)), ByUpdatedAt)
  }

  /**
   * `getDocumentsByUser`: all of the user's rows, or only the non-drafts
   * when `includeDrafts` is false, most recently created first.
   */
  function DocumentsByUser(t: Table, n: nat, userId: string, includeDrafts: bool, fault: bool): (r: seq<Document>)
    requires WellFormed(t, n)
    ensures fault ==> r == []
    ensures !fault ==> forall d :: d in r <==> d in t.Values && d.userId == userId && (includeDrafts || !d.isDraft)
    ensures forall i :: 0 <= i < |r| ==> r[i].id in t && t[r[i].id] == r[i]
    ensures forall i, j :: 0 <= i < j < |r| ==> r[i].createdAt >= r[j].createdAt && r[i].id != r[j].id
  {
    if fault then []
    else Select(t, n, Query(userId, None, if includeDrafts then None else Some(false)), ByCreatedAt)
  }

  /** `getDraftDocuments`: all of the user's drafts, most recently updated first. */
  function DraftDocuments(t: Table, n: nat, userId: string, fault: bool): (r: seq<Document>)
    requires WellFormed(t, n)
    ensures fault ==> r == []
    ensures !fault ==> forall d :: d in r <==> d in t.Values && d.userId == userId && d.isDraft
    ensures forall i :: 0 <= i < |r| ==> r[i].id in t && t[r[i].id] == r[i]
    ensures forall i, j :: 0 <= i < j < |r| ==> r[i].updatedAt >= r[j].updatedAt && r[i].id != r[j].id
  {
    if fault then [] else Select(t, n, Query(userId, None, Some(true)), ByUpdatedAt)
  }

  /** `getDocument`: the row with that id, or nothing when it is absent or the store reports an error. */
  function GetDocument(t: Table, id: DocId, fault: bool): (r: Option<Document>)
    ensures r.Some? <==> !fault && id in t
    ensures r.Some? ==> r.value == t[id]
  {
    if fault || id !in t then None else Some(t[id])
  }

  /** The head of a draft query is the most recently updated of the user's drafts for that template. */
  lemma FirstDraftIsMostRecent(t: Table, n: nat, userId: string, templateId: string, d: Document)
    requires WellFormed(t, n)
    requires d in t.Values && d.userId == userId && d.templateId == templateId && d.isDraft
    ensures var r := DraftsByTemplateId(t, n, userId, templateId, false);
      r != [] && r[0].updatedAt >= d.updatedAt
  {
    var r := DraftsByTemplateId(t, n, userId, templateId, false);
    assert d in r;
    var i :| 0 <= i < |r| && r[i] == d;
    if i > 0 {
      assert r[0].updatedAt >= r[i].updatedAt;
    }
  }

  /** With drafts included, the documents of a user are exactly the non-drafts plus the drafts. */
  lemma AllDocumentsSplit(t: Table, n: nat, userId: string, d: Document)
    requires WellFormed(t, n)
    ensures d in DocumentsByUser(t, n, userId, true, false)
        <==> d in DocumentsByUser(t, n, userId, false, false) || d in DraftDocuments(t, n, userId, false)
  {
  }
}
