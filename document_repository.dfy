/**
 * The write side of the document repository: a store object holding the
 * `documents` table, the fresh-id supply and the clock. Each method is one
 * repository operation; a `fault` parameter stands for the error that the
 * database may report on a call, which the repository turns into a
 * `None`/`false` result instead of raising it. `elapsed` is the time that
 * passes before the call reads the clock.
 */
module DocumentRepository {
  import opened Wrappers
  import opened Schema
  import opened DocumentQueries
  import opened JsText

  /** The fields `saveDocumentProgress` writes: content and timestamp always, title only when given. */
  function WithProgress(d: Document, content: string, title: Option<string>, now: Timestamp): (r: Document)
    ensures r.content == content && r.updatedAt == now
    ensures r.title == (if Truthy(title) then title.value else d.title)
    ensures r.(content := d.content, updatedAt := d.updatedAt, title := d.title) == d
  {
    d.(content := content, updatedAt := now, title := if Truthy(title) then title.value else d.title)
  }

  /** The fields `finalizeDraftDocument` writes: the draft flag, the timestamp, and the title when given. */
  function Finalized(d: Document, title: Option<string>, now: Timestamp): (r: Document)
    ensures !r.isDraft && r.updatedAt == now
    ensures r.title == (if Truthy(title) then title.value else d.title)
    ensures r.(isDraft := d.isDraft, updatedAt := d.updatedAt, title := d.title) == d
  {
    d.(isDraft := false, updatedAt := now, title := if Truthy(title) then title.value else d.title)
  }

  /** Finalizing an already finalized row again changes only its timestamp. */
  lemma FinalizeIdempotent(d: Document, title: Option<string>, now1: Timestamp, now2: Timestamp)
    ensures Finalized(Finalized(d, title, now1), title, now2) == Finalized(d, title, now2)
  {
  }

  /** The fields the find-or-update path of `createDraftDocument` writes into the existing draft. */
  function RefreshedDraft(d: Document, title: string, content: string, answers: Answers, now: Timestamp): (r: Document)
    ensures r.title == title && r.content == content && r.templateAnswers == answers && r.updatedAt == now
    ensures r.id == d.id && r.userId == d.userId && r.templateId == d.templateId
    ensures r.isDraft == d.isDraft && r.createdAt == d.createdAt
  {
    d.(title := title, content := content, templateAnswers := answers, updatedAt := now)
  }

  /** A `Partial<Document>` given to `updateDocument`; the key column `id` is not part of it. */
  datatype DocumentPatch = DocumentPatch(
    userId: Option<string>,
    title: Option<string>,
    content: Option<string>,
    templateId: Option<string>,
    templateAnswers: Option<Answers>,
    isDraft: Option<bool>,
    createdAt: Option<Timestamp>,
    updatedAt: Option<Timestamp>)

  /** `{ ...updates, updated_at: now }` applied to a row: the supplied fields, and always the fresh timestamp. */
  function Patched(d: Document, p: DocumentPatch, now: Timestamp): (r: Document)
    ensures r.id == d.id && r.updatedAt == now
    ensures r.userId == p.userId.GetOr(d.userId) && r.title == p.title.GetOr(d.title)
    ensures r.content == p.content.GetOr(d.content) && r.templateId == p.templateId.GetOr(d.templateId)
    ensures r.templateAnswers == p.templateAnswers.GetOr(d.templateAnswers)
    ensures r.isDraft == p.isDraft.GetOr(d.isDraft) && r.createdAt == p.createdAt.GetOr(d.createdAt)
  {
    Document(d.id, p.userId.GetOr(d.userId), p.title.GetOr(d.title), p.content.GetOr(d.content),
             p.templateId.GetOr(d.templateId), p.templateAnswers.GetOr(d.templateAnswers),
             p.isDraft.GetOr(d.isDraft), p.createdAt.GetOr(d.createdAt), now)
  }

  /** A row that the draft clean-up of `deleteDocument` removes: `match({ user_id, template_id, is_draft: true })`. */
  predicate IsDraftOf(d: Document, userId: string, templateId: string) {
    d.isDraft && d.userId == userId && d.templateId == templateId
  }

  /** The ids of a user's drafts of one template. */
  ghost function DraftIds(t: Table, userId: string, templateId: string): set<DocId> {
    set id | id in t && IsDraftOf(t[id], userId, templateId)
  }

  /** The store keeps at most one draft for this user and template. */
  ghost predicate AtMostOneDraft(t: Table, userId: string, templateId: string) {
    forall a, b :: a in t && b in t && IsDraftOf(t[a], userId, templateId) && IsDraftOf(t[b], userId, templateId) ==> a == b
  }

  /** The table without the user's drafts of one template. */
  function WithoutDrafts(t: Table, userId: string, templateId: string): (r: Table)
    ensures r.Keys == t.Keys - DraftIds(t, userId, templateId)
    ensures forall id :: id in r ==> r[id] == t[id] && !IsDraftOf(r[id], userId, templateId)
  {
    map id | id in t && !IsDraftOf(t[id], userId, templateId) :: t[id]
  }

  /** The table, the next fresh id and the result after one `createDraftDocument` call. */
  datatype DraftOutcome = DraftOutcome(rows: Table, nextId: DocId, result: Option<Document>)

  /**
   * `createDraftDocument` as a transition of the table: look up the user's
   * drafts of the template (an error reads as "none"); refresh the first,
   * most recently updated, one in place, or insert a new draft under the
   * next id; `writeFault` makes the update or insert fail and change nothing.
   */
  function DraftUpsert(t: Table, n: DocId, userId: string, title: string, content: string, templateId: string,
                       answers: Answers, now: Timestamp, lookupFault: bool, writeFault: bool): (o: DraftOutcome)
    requires WellFormed(t, n)
    ensures WellFormed(o.rows, o.nextId) && n <= o.nextId
    ensures o.result.None? <==> writeFault
    ensures o.result.None? ==> o.rows == t && o.nextId == n
  {
    var existing := DraftsByTemplateId(t, n, userId, templateId, lookupFault);
    if writeFault then DraftOutcome(t, n, None)
    else if existing != [] then
      var d := RefreshedDraft(existing[0], title, content, answers, now);
      DraftOutcome(t[d.id := d], n, Some(d))
    else
      var d := Document(n, userId, title, content, templateId, answers, true, now, now);
      DraftOutcome(t[n := d], n + 1, Some(d))
  }
  /** No row written by the upsert carries a stamp later than the one it was given. */
  lemma DraftUpsertKeepsStamps(t: Table, n: DocId, userId: string, title: string, content: string, templateId: string,
                               answers: Answers, now: Timestamp, lookupFault: bool, writeFault: bool)
    requires WellFormed(t, n)
    requires forall id :: id in t ==> t[id].updatedAt <= now
    ensures var o := DraftUpsert(t, n, userId, title, content, templateId, answers, now, lookupFault, writeFault);
      forall id :: id in o.rows ==> o.rows[id].updatedAt <= now
  {
  }


  /**
   * With a working lookup, a successful call keeps the set of the user's
   * drafts of the template when there is one (nothing is inserted), and
   * makes it the single new id otherwise.
   */
  lemma DraftUpsertDraftSet(t: Table, n: DocId, userId: string, title: string, content: string, templateId: string,
                            answers: Answers, now: Timestamp)
    requires WellFormed(t, n)
    ensures var o := DraftUpsert(t, n, userId, title, content, templateId, answers, now, false, false);
      DraftIds(o.rows, userId, templateId) == if DraftIds(t, userId, templateId) == {} then {n} else DraftIds(t, userId, templateId)
  {
    var existing := DraftsByTemplateId(t, n, userId, templateId, false);
    var o := DraftUpsert(t, n, userId, title, content, templateId, answers, now, false, false);
    if existing != [] {
      assert existing[0] in existing;
      assert existing[0].id in DraftIds(t, userId, templateId);
      assert DraftIds(o.rows, userId, templateId) == DraftIds(t, userId, templateId);
    } else {
      forall id | id in t ensures !IsDraftOf(t[id], userId, templateId) {
        assert t[id] in t.Values;
      }
      assert DraftIds(o.rows, userId, templateId) == {n};
    }
  }

  /** A successful call with a working lookup keeps "at most one draft per (user, template)" for that pair. */
  lemma DraftUpsertKeepsOneDraft(t: Table, n: DocId, userId: string, title: string, content: string, templateId: string,
                                 answers: Answers, now: Timestamp, writeFault: bool)
    requires WellFormed(t, n) && AtMostOneDraft(t, userId, templateId)
    ensures AtMostOneDraft(DraftUpsert(t, n, userId, title, content, templateId, answers, now, false, writeFault).rows, userId, templateId)
  {
    if !writeFault {
      var o := DraftUpsert(t, n, userId, title, content, templateId, answers, now, false, false);
      DraftUpsertDraftSet(t, n, userId, title, content, templateId, answers, now);
      forall a, b | a in o.rows && b in o.rows && IsDraftOf(o.rows[a], userId, templateId) && IsDraftOf(o.rows[b], userId, templateId)
        ensures a == b
      {
        assert a in DraftIds(o.rows, userId, templateId) && b in DraftIds(o.rows, userId, templateId);
      }
    }
  }

  /**
   * When a draft exists, the row that a successful call writes is the most
   * recently updated of those drafts, refreshed with the new title, content
   * and answers; its owner, template, draft flag and creation time stay.
   */
  lemma DraftUpsertRefreshesLatest(t: Table, n: DocId, userId: string, title: string, content: string, templateId: string,
                                   answers: Answers, now: Timestamp)
    requires WellFormed(t, n) && DraftIds(t, userId, templateId) != {}
    ensures var o := DraftUpsert(t, n, userId, title, content, templateId, answers, now, false, false);
      && o.result.Some? && o.nextId == n
      && var d := o.result.value;
      && d.id in DraftIds(t, userId, templateId)
      && (forall id :: id in DraftIds(t, userId, templateId) ==> t[id].updatedAt <= t[d.id].updatedAt)
      && d == RefreshedDraft(t[d.id], title, content, answers, now)
      && o.rows == t[d.id := d]
  {
    var id0 :| id0 in DraftIds(t, userId, templateId);
    FirstDraftIsMostRecent(t, n, userId, templateId, t[id0]);
    var existing := DraftsByTemplateId(t, n, userId, templateId, false);
    assert existing[0] in existing;
    forall id | id in DraftIds(t, userId, templateId) ensures t[id].updatedAt <= existing[0].updatedAt {
      FirstDraftIsMostRecent(t, n, userId, templateId, t[id]);
    }
  }

  /** Rows other than the user's drafts of the template are never changed or removed. */
  lemma DraftUpsertFrame(t: Table, n: DocId, userId: string, title: string, content: string, templateId: string,
                         answers: Answers, now: Timestamp, lookupFault: bool, writeFault: bool, id: DocId)
    requires WellFormed(t, n) && id in t && !IsDraftOf(t[id], userId, templateId)
    ensures var o := DraftUpsert(t, n, userId, title, content, templateId, answers, now, lookupFault, writeFault);
      id in o.rows && o.rows[id] == t[id]
  {
    var existing := DraftsByTemplateId(t, n, userId, templateId, lookupFault);
    if existing != [] {
      assert existing[0] in existing;
    }
  }

  /**
   * The deduplication rests on the lookup: when the lookup fails while a
   * draft exists, a second draft of the same user and template is inserted.
   */
  lemma LookupFaultDuplicatesDraft(t: Table, n: DocId, userId: string, title: string, content: string, templateId: string,
                                   answers: Answers, now: Timestamp)
    requires WellFormed(t, n) && DraftIds(t, userId, templateId) != {}
    ensures var o := DraftUpsert(t, n, userId, title, content, templateId, answers, now, true, false);
      !AtMostOneDraft(o.rows, userId, templateId)
  {
    var o := DraftUpsert(t, n, userId, title, content, templateId, answers, now, true, false);
    var id0 :| id0 in DraftIds(t, userId, templateId);
    assert id0 in o.rows && IsDraftOf(o.rows[id0], userId, templateId);
    assert n in o.rows && IsDraftOf(o.rows[n], userId, templateId);
  }

  class DocumentStore {
    var rows: Table
    var nextId: DocId
    var clock: Timestamp

    ghost predicate Valid()
      reads this
    {
      WellFormed(rows, nextId) && forall id :: id in rows ==> rows[id].updatedAt <= clock
    }

    constructor ()
      ensures Valid() && rows == map[] && nextId == 0 && clock == 0
    {
      rows, nextId, clock := map[], 0, 0;
    }

    /** Inserts a fresh row holding the given fields, stamped `clock` on both timestamps. */
    method InsertRow(userId: string, title: string, content: string, templateId: string, answers: Answers, isDraft: bool, fault: bool)
      returns (r: Option<Document>)
      requires Valid()
      modifies this
      ensures Valid() && clock == old(clock)
      ensures fault ==> r == None && rows == old(rows) && nextId == old(nextId)
      ensures !fault ==> old(nextId) !in old(rows)
      ensures !fault ==> && r == Some(Document(old(nextId), userId, title, content, templateId, answers, isDraft, clock, clock))
                         && rows == old(rows)[old(nextId) := r.value] && nextId == old(nextId) + 1
    {
      if fault {
        return None;
      }
      var d := Document(nextId, userId, title, content, templateId, answers, isDraft, clock, clock);
      rows := rows[nextId := d];
      nextId := nextId + 1;
      r := Some(d);
    }

    /** `createDocument`: always one new finalized row, never a deduplication; `None` on a store error. */
    method CreateDocument(userId: string, title: string, content: string, templateId: string, answers: Answers,
                          elapsed: nat, fault: bool)
      returns (r: Option<Document>)
      requires Valid()
      modifies this
      ensures Valid() && clock == old(clock) + elapsed
      ensures fault ==> r == None && rows == old(rows) && nextId == old(nextId)
      ensures !fault ==> old(nextId) !in old(rows) && |rows| == |old(rows)| + 1
      ensures !fault ==> && r == Some(Document(old(nextId), userId, title, content, templateId, answers, false, clock, clock))
                         && rows == old(rows)[old(nextId) := r.value] && nextId == old(nextId) + 1
    {
      clock := clock + elapsed;
      r := InsertRow(userId, title, content, templateId, answers, false, fault);
    }

    /** `createDraftDocument`: the find-or-update of `DraftUpsert`, reading the clock once. */
    method CreateDraftDocument(userId: string, title: string, content: string, templateId: string, answers: Answers,
                               elapsed: nat, lookupFault: bool, writeFault: bool)
      returns (r: Option<Document>)
      requires Valid()
      modifies this
      ensures Valid() && clock == old(clock) + elapsed
      ensures DraftOutcome(rows, nextId, r)
           == DraftUpsert(old(rows), old(nextId), userId, title, content, templateId, answers, clock, lookupFault, writeFault)
    {
      var existing := DraftsByTemplateId(rows, nextId, userId, templateId, lookupFault);
      ghost var expected := DraftUpsert(rows, nextId, userId, title, content, templateId, answers,
                                        clock + elapsed, lookupFault, writeFault);
      DraftUpsertKeepsStamps(rows, nextId, userId, title, content, templateId, answers,
                             clock + elapsed, lookupFault, writeFault);
      clock := clock + elapsed;
      if existing != [] {
        var target := existing[0];
        if writeFault {
          return None;
        }
        assert target.id in rows && rows[target.id] == target;
        var updated := RefreshedDraft(target, title, content, answers, clock);
        rows := rows[target.id := updated];
        r := Some(updated);
        assert expected == DraftOutcome(rows, nextId, r);
      } else {
        r := InsertRow(userId, title, content, templateId, answers, true, writeFault);
      }
    }

    /**
     * `saveDocumentProgress`: content and timestamp always, title only when
     * a non-empty one is given; the draft flag is untouched. It reports
     * failure only for a store error: an id that matches no row is a
     * successful update of nothing.
     */
    method SaveDocumentProgress(documentId: DocId, content: string, title: Option<string>, elapsed: nat, fault: bool)
      returns (ok: bool)
      requires Valid()
      modifies this
      ensures Valid() && clock == old(clock) + elapsed && nextId == old(nextId)
      ensures ok == !fault
      ensures ok && documentId in old(rows) ==>
        rows == old(rows)[documentId := WithProgress(old(rows)[documentId], content, title, clock)]
      ensures !ok || documentId !in old(rows) ==> rows == old(rows)
    {
      clock := clock + elapsed;
      if fault {
        return false;
      }
      if documentId in rows {
        rows := rows[documentId := WithProgress(rows[documentId], content, title, clock)];
      }
      ok := true;
    }

    /**
     * `finalizeDraftDocument`: clears the draft flag, refreshes the
     * timestamp and replaces the title when a non-empty one is given. It does
     * not check that the row was a draft. `.single()` makes a missing row an
     * error, so that case gives `None` as a store error does.
     */
    method FinalizeDraftDocument(documentId: DocId, title: Option<string>, elapsed: nat, fault: bool)
      returns (r: Option<Document>)
      requires Valid()
      modifies this
      ensures Valid() && clock == old(clock) + elapsed && nextId == old(nextId)
      ensures r.Some? <==> !fault && documentId in old(rows)
      ensures r.Some? ==> && r.value == Finalized(old(rows)[documentId], title, clock)
                          && rows == old(rows)[documentId := r.value]
      ensures r.None? ==> rows == old(rows)
    {
      clock := clock + elapsed;
      if fault || documentId !in rows {
        return None;
      }
      var d := Finalized(rows[documentId], title, clock);
      rows := rows[documentId := d];
      r := Some(d);
    }

    /**
     * `updateDocument`: writes the supplied fields and always overwrites
     * `updated_at` with the clock, even when the patch carries one; a missing
     * row is an error as in `finalizeDraftDocument`.
     */
    method UpdateDocument(id: DocId, patch: DocumentPatch, elapsed: nat, fault: bool)
      returns (r: Option<Document>)
      requires Valid()
      modifies this
      ensures Valid() && clock == old(clock) + elapsed && nextId == old(nextId)
      ensures r.Some? <==> !fault && id in old(rows)
      ensures r.Some? ==> && r.value == Patched(old(rows)[id], patch, clock)
                          && r.value.updatedAt == clock
                          && rows == old(rows)[id := r.value]
      ensures r.None? ==> rows == old(rows)
    {
      clock := clock + elapsed;
      if fault || id !in rows {
        return None;
      }
      var d := Patched(rows[id], patch, clock);
      rows := rows[id := d];
      r := Some(d);
    }

    /**
     * `deleteDocument`: reads the row first (a missing row or a store error
     * ends the call with `false` and deletes nothing); a finalized row first
     * takes with it every draft of the same user and template, and a failure
     * of that step is ignored; then the row itself is deleted, and only an
     * error of this last step makes the result `false`.
     */
    method DeleteDocument(id: DocId, fetchFault: bool, draftsFault: bool, deleteFault: bool)
      returns (ok: bool)
      requires Valid()
      modifies this
      ensures Valid() && clock == old(clock) && nextId == old(nextId)
      ensures fetchFault || id !in old(rows) ==> !ok && rows == old(rows)
      ensures !fetchFault && id in old(rows) ==>
        var d := old(rows)[id];
        var cleaned := if !d.isDraft && !draftsFault then WithoutDrafts(old(rows), d.userId, d.templateId) else old(rows);
        ok == !deleteFault && rows == (if deleteFault then cleaned else cleaned - {id})
      // What a successful delete removes, stated on the keys.
      ensures ok ==> var d := old(rows)[id];
        rows.Keys == old(rows).Keys - {id} - (if !d.isDraft && !draftsFault then DraftIds(old(rows), d.userId, d.templateId) else {})
    {
      if fetchFault || id !in rows {
        return false;
      }
      var d := rows[id];
      if !d.isDraft && !draftsFault {
        rows := WithoutDrafts(rows, d.userId, d.templateId);
      }
      if deleteFault {
        return false;
      }
      rows := rows - {id};
      ok := true;
    }
  }

  /**
   * Two successful draft saves in a row for the same user and template,
   * starting from no draft, leave exactly one draft, holding the second
   * call's title, content and answers.
   */
  lemma DraftTwiceLeavesOne(t: Table, n: DocId, userId: string, templateId: string,
                            title1: string, content1: string, answers1: Answers, now1: Timestamp,
                            title2: string, content2: string, answers2: Answers, now2: Timestamp)
    requires WellFormed(t, n) && DraftIds(t, userId, templateId) == {}
    ensures var o1 := DraftUpsert(t, n, userId, title1, content1, templateId, answers1, now1, false, false);
      var o2 := DraftUpsert(o1.rows, o1.nextId, userId, title2, content2, templateId, answers2, now2, false, false);
      && DraftIds(o2.rows, userId, templateId) == {n}
      && o2.rows[n].title == title2 && o2.rows[n].content == content2 && o2.rows[n].templateAnswers == answers2
  {
    var o1 := DraftUpsert(t, n, userId, title1, content1, templateId, answers1, now1, false, false);
    DraftUpsertDraftSet(t, n, userId, title1, content1, templateId, answers1, now1);
    DraftUpsertDraftSet(o1.rows, o1.nextId, userId, title2, content2, templateId, answers2, now2);
    DraftUpsertRefreshesLatest(o1.rows, o1.nextId, userId, title2, content2, templateId, answers2, now2);
  }
}
