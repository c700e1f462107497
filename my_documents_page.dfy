/**
 * The "My Documents" page: two lists loaded from the repository, the
 * routing rule for opening a card, and the list maintenance after a
 * delete. The active tab, the loading screen and the grid layout are
 * presentation and are not modelled.
 */
module MyDocumentsPage {
  import opened Wrappers
  import opened JsText
  import opened Schema
  import opened DocumentQueries
  import opened DocumentRepository

  /** The `editMode` argument of `handleOpenDocument`. */
  datatype EditMode = Standard | Ai

  const DraftRoutePrefix: string := "/preview?documentId="
  const EditRoutePrefix: string := "/edit/"
  const DocumentRoutePrefix: string := "/document/"

  /** `handleOpenDocument`: where opening a card navigates. */
  function OpenRoute(id: DocId, isDraft: bool, mode: EditMode): string {
    if isDraft then DraftRoutePrefix + NatToString(id)
    else if mode == Ai then EditRoutePrefix + NatToString(id)
    else DocumentRoutePrefix + NatToString(id)
  }

  /**
   * A draft always opens in the preview, whatever the mode; a finalized
   * document opens in the AI editor only in `Ai` mode. The route ends with
   * the document's id written in decimal, so the id can be read back.
   */
  lemma OpenRouteCases(id: DocId, isDraft: bool, mode: EditMode)
    ensures var r := OpenRoute(id, isDraft, mode);
      var prefix := if isDraft then DraftRoutePrefix else if mode == Ai then EditRoutePrefix else DocumentRoutePrefix;
      && |prefix| < |r| && r[..|prefix|] == prefix
      && (forall i :: |prefix| <= i < |r| ==> IsDigit(r[i]))
      && ParseDecimal(r[|prefix|..]) == id
  {
    var r := OpenRoute(id, isDraft, mode);
    var prefix := if isDraft then DraftRoutePrefix else if mode == Ai then EditRoutePrefix else DocumentRoutePrefix;
    assert r == prefix + NatToString(id);
    assert r[|prefix|..] == NatToString(id);
    ParseNatToString(id);
  }

  /** The three destinations never coincide: their first differing characters tell them apart. */
  lemma OpenRouteKinds(id1: DocId, d1: bool, m1: EditMode, id2: DocId, d2: bool, m2: EditMode)
    requires OpenRoute(id1, d1, m1) == OpenRoute(id2, d2, m2)
    ensures id1 == id2 && d1 == d2 && (!d1 ==> m1 == m2)
  {
    var r := OpenRoute(id1, d1, m1);
    OpenRouteCases(id1, d1, m1);
    OpenRouteCases(id2, d2, m2);
    assert DraftRoutePrefix[1] == 'p' && EditRoutePrefix[1] == 'e' && DocumentRoutePrefix[1] == 'd';
  }

  /** `docs.filter(doc => doc.id !== id)`. */
  function WithoutId(docs: seq<Document>, id: DocId): (r: seq<Document>)
    ensures |r| <= |docs|
    ensures forall d :: d in r <==> d in docs && d.id != id
  {
    if docs == [] then []
    else (if docs[0].id == id then [] else [docs[0]]) + WithoutId(docs[1..], id)
  }

  /** Filtering keeps the order: removing an id that is absent changes nothing. */
  lemma {:induction false} WithoutAbsentId(docs: seq<Document>, id: DocId)
    requires forall i :: 0 <= i < |docs| ==> docs[i].id != id
    ensures WithoutId(docs, id) == docs
    decreases |docs|
  {
    if docs != [] {
      WithoutAbsentId(docs[1..], id);
    }
  }

  /** The first 150 characters of the content, followed by an ellipsis. */
  function CardPreview(content: string): (r: string)
    ensures 3 <= |r| <= 153 && r[|r| - 3..] == "..."
    ensures |content| <= 150 ==> r == content + "..."
    ensures |content| > 150 ==> |r| == 153 && r[..150] == content[..150]
  {
    (if |content| <= 150 then content else content[..150]) + "..."
  }

  /** The template label: the template id with hyphens as spaces. */
  function TemplateLabel(templateId: string): (r: string)
    ensures |r| == |templateId| && '-' !in r
    ensures forall i :: 0 <= i < |r| ==> r[i] == (if templateId[i] == '-' then ' ' else templateId[i])
  {
    HyphensToSpaces(templateId)
  }

  const DeleteFailedAlert: string := "Failed to delete document. Please try again."

  class MyDocumentsPage {
    /** The finalized documents, most recently created first. */
    var documents: seq<Document>
    /** The drafts, most recently updated first. */
    var drafts: seq<Document>
    var isLoading: bool
    var alert: Option<string>

    constructor ()
      ensures documents == [] && drafts == [] && isLoading && alert.None?
    {
      documents, drafts, isLoading, alert := [], [], true, None;
    }

    /**
     * The loading effect: for a signed-in user the finalized documents are
     * read with drafts excluded and the drafts are read separately; without a
     * user the page navigates home and reads nothing. A store error inside
     * either read yields an empty list.
     */
    method Load(user: Option<string>, store: DocumentStore, documentsFault: bool, draftsFault: bool)
      returns (redirect: Option<string>)
      requires store.Valid()
      modifies this
      ensures user.None? ==> redirect == Some("/") && documents == old(documents) && drafts == old(drafts)
                             && isLoading == old(isLoading)
      ensures user.Some? ==>
        && redirect.None? && !isLoading
        && documents == DocumentsByUser(store.rows, store.nextId, user.value, false, documentsFault)
        && drafts == DraftDocuments(store.rows, store.nextId, user.value, draftsFault)
      ensures alert == old(alert)
    {
      if user.None? {
        return Some("/");
      }
      isLoading := true;
      documents := DocumentsByUser(store.rows, store.nextId, user.value, false, documentsFault);
      drafts := DraftDocuments(store.rows, store.nextId, user.value, draftsFault);
      isLoading := false;
      redirect := None;
    }

    /**
     * `handleDeleteDocument`: after confirmation the document is deleted
     * from the store; on success its id leaves the list the card was in and
     * the other list is untouched, on failure an alert is raised. Without
     * confirmation nothing happens.
     */
    method HandleDeleteDocument(id: DocId, isDraft: bool, confirmed: bool, store: DocumentStore,
                                fetchFault: bool, draftsFault: bool, deleteFault: bool)
      requires store.Valid()
      modifies this, store
      ensures store.Valid()
      ensures !confirmed ==> documents == old(documents) && drafts == old(drafts) && alert == old(alert)
                             && store.rows == old(store.rows)
      ensures confirmed ==>
        if !fetchFault && !deleteFault && id in old(store.rows) then
          && store.rows.Keys <= old(store.rows.Keys) - {id}
          && alert == old(alert)
          && (isDraft ==> drafts == WithoutId(old(drafts), id) && documents == old(documents))
          && (!isDraft ==> documents == WithoutId(old(documents), id) && drafts == old(drafts))
        else
          documents == old(documents) && drafts == old(drafts) && alert == Some(DeleteFailedAlert)
      ensures isLoading == old(isLoading)
    {
      if !confirmed {
        return;
      }
      var success := store.DeleteDocument(id, fetchFault, draftsFault, deleteFault);
      if success {
        if isDraft {
          drafts := WithoutId(drafts, id);
        } else {
          documents := WithoutId(documents, id);
        }
      } else {
        alert := Some(DeleteFailedAlert);
      }
    }
  }
}
