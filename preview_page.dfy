/**
 * The preview page: shows a generated or stored document, tracks whether
 * its content and title differ from what was last saved, auto-saves
 * drafts, and saves or finalizes on request. The signed-in user is a
 * parameter of each handler (`None` when nobody is signed in), and the
 * repository is the `DocumentStore` the handlers call.
 */
module PreviewPage {
  import opened Wrappers
  import opened JsText
  import opened Schema
  import opened DocumentQueries
  import opened DocumentRepository

  // ---- Decoding the query parameters ----

  /** At position `i` of `s` stand two hexadecimal digits after the character there. */
  predicate HexPairAfter(s: string, i: nat) {
    i + 2 < |s| && IsHexDigit(s[i + 1]) && IsHexDigit(s[i + 2])
  }

  /** Every `%` is the start of a `%XX` escape. */
  predicate PercentsEscaped(s: string) {
    forall i :: 0 <= i < |s| && s[i] == '%' ==> HexPairAfter(s, i)
  }

  /** `.replace(/%(?![0-9A-Fa-f]{2})/g, '%25')`: a `%` not followed by two hex digits becomes `%25`. */
  function EscapeStrayPercents(s: string): string
    decreases |s|
  {
    if s == [] then []
    else (if s[0] == '%' && !HexPairAfter(s, 0) then "%25" else [s[0]]) + EscapeStrayPercents(s[1..])
  }

  /** `.replace(/\+/g, '%20')`. */
  function EscapePluses(s: string): string
    decreases |s|
  {
    if s == [] then []
    else (if s[0] == '+' then "%20" else [s[0]]) + EscapePluses(s[1..])
  }

  /** The fix-up applied before the second decoding attempt. */
  function FixUp(s: string): string {
    EscapePluses(EscapeStrayPercents(s))
  }

  /** Escaped strings stay escaped when joined, since an escape never reaches past its own string. */
  lemma EscapedConcat(a: string, b: string)
    requires PercentsEscaped(a) && PercentsEscaped(b)
    ensures PercentsEscaped(a + b)
  {
    var s := a + b;
    forall i | 0 <= i < |s| && s[i] == '%' ensures HexPairAfter(s, i) {
      if i < |a| {
        assert a[i] == '%' && HexPairAfter(a, i);
        assert s[i + 1] == a[i + 1] && s[i + 2] == a[i + 2];
      } else {
        assert b[i - |a|] == '%' && HexPairAfter(b, i - |a|);
        assert s[i + 1] == b[i - |a| + 1] && s[i + 2] == b[i - |a| + 2];
      }
    }
  }

  /** Dropping a prefix keeps every `%` escaped. */
  lemma EscapedSuffix(s: string, k: nat)
    requires PercentsEscaped(s) && k <= |s|
    ensures PercentsEscaped(s[k..])
  {
    var t := s[k..];
    forall i | 0 <= i < |t| && t[i] == '%' ensures HexPairAfter(t, i) {
      assert s[k + i] == '%' && HexPairAfter(s, k + i);
    }
  }

  /** A character other than `%` passes the first rewrite unchanged. */
  lemma StrayPercentsOther(s: string)
    requires s != [] && s[0] != '%'
    ensures EscapeStrayPercents(s) == [s[0]] + EscapeStrayPercents(s[1..])
  {
  }

  /** A character other than `+` passes the second rewrite unchanged. */
  lemma PlusesOther(s: string)
    requires s != [] && s[0] != '+'
    ensures EscapePluses(s) == [s[0]] + EscapePluses(s[1..])
  {
  }

  /** An escape `%XX` at the front passes the first rewrite whole. */
  lemma StrayPercentsSkipEscape(s: string)
    requires s != [] && s[0] == '%' && HexPairAfter(s, 0)
    ensures EscapeStrayPercents(s) == s[..3] + EscapeStrayPercents(s[3..])
  {
    StrayPercentsOther(s[1..]);
    assert s[1..][1..] == s[2..];
    StrayPercentsOther(s[2..]);
    assert s[2..][1..] == s[3..];
  }

  /** After the first rewrite every `%` starts an escape. */
  lemma {:induction false} StrayPercentsEscaped(s: string)
    ensures PercentsEscaped(EscapeStrayPercents(s))
    decreases |s|
  {
    if s == [] {
    } else if s[0] == '%' && !HexPairAfter(s, 0) {
      StrayPercentsEscaped(s[1..]);
      assert PercentsEscaped("%25") by { assert HexPairAfter("%25", 0); }
      EscapedConcat("%25", EscapeStrayPercents(s[1..]));
    } else if s[0] == '%' {
      StrayPercentsSkipEscape(s);
      StrayPercentsEscaped(s[3..]);
      assert PercentsEscaped(s[..3]) by { assert HexPairAfter(s[..3], 0); }
      EscapedConcat(s[..3], EscapeStrayPercents(s[3..]));
    } else {
      StrayPercentsOther(s);
      StrayPercentsEscaped(s[1..]);
      EscapedConcat([s[0]], EscapeStrayPercents(s[1..]));
    }
  }

  /** The second rewrite leaves no `+`. */
  lemma {:induction false} NoPlusLeft(s: string)
    ensures '+' !in EscapePluses(s)
    decreases |s|
  {
    if s != [] {
      NoPlusLeft(s[1..]);
    }
  }

  /** An escape `%XX` at the front passes the second rewrite whole. */
  lemma PlusesSkipEscape(s: string)
    requires s != [] && s[0] == '%' && HexPairAfter(s, 0)
    ensures EscapePluses(s) == s[..3] + EscapePluses(s[3..])
  {
    assert s[1] != '+' && s[2] != '+';
    PlusesOther(s);
    PlusesOther(s[1..]);
    assert s[1..][1..] == s[2..];
    PlusesOther(s[2..]);
    assert s[2..][1..] == s[3..];
  }

  /** The second rewrite keeps every `%` escaped, since a hex digit is never a `+`. */
  lemma {:induction false} PlusesEscaped(s: string)
    requires PercentsEscaped(s)
    ensures PercentsEscaped(EscapePluses(s))
    decreases |s|
  {
    if s == [] {
    } else if s[0] == '+' {
      EscapedSuffix(s, 1);
      PlusesEscaped(s[1..]);
      assert PercentsEscaped("%20") by { assert HexPairAfter("%20", 0); }
      EscapedConcat("%20", EscapePluses(s[1..]));
    } else if s[0] == '%' {
      assert HexPairAfter(s, 0);
      PlusesSkipEscape(s);
      EscapedSuffix(s, 3);
      PlusesEscaped(s[3..]);
      assert PercentsEscaped(s[..3]) by { assert HexPairAfter(s[..3], 0); }
      EscapedConcat(s[..3], EscapePluses(s[3..]));
    } else {
      PlusesOther(s);
      EscapedSuffix(s, 1);
      PlusesEscaped(s[1..]);
      EscapedConcat([s[0]], EscapePluses(s[1..]));
    }
  }

  /** The first rewrite leaves an escaped string as it is. */
  lemma {:induction false} StrayPercentsKeepEscaped(s: string)
    requires PercentsEscaped(s)
    ensures EscapeStrayPercents(s) == s
    decreases |s|
  {
    if s != [] {
      assert s[0] == '%' ==> HexPairAfter(s, 0);
      EscapedSuffix(s, 1);
      StrayPercentsKeepEscaped(s[1..]);
    }
  }

  /** The second rewrite leaves a string without `+` as it is. */
  lemma {:induction false} PlusesKeepPlain(s: string)
    requires '+' !in s
    ensures EscapePluses(s) == s
    decreases |s|
  {
    if s != [] {
      assert s[0] != '+';
      PlusesKeepPlain(s[1..]);
    }
  }

  /** After the fix-up every `%` is followed by two hex digits and no `+` remains. */
  lemma FixUpIsEscaped(s: string)
    ensures PercentsEscaped(FixUp(s)) && '+' !in FixUp(s)
  {
    StrayPercentsEscaped(s);
    PlusesEscaped(EscapeStrayPercents(s));
    NoPlusLeft(EscapeStrayPercents(s));
  }

  /** The fix-up is idempotent, and leaves a string that it would not change alone. */
  lemma FixUpIdempotent(s: string)
    ensures FixUp(FixUp(s)) == FixUp(s)
    ensures PercentsEscaped(s) && '+' !in s ==> FixUp(s) == s
  {
    FixUpIsEscaped(s);
    StrayPercentsKeepEscaped(FixUp(s));
    assert '+' !in EscapeStrayPercents(FixUp(s));
    PlusesKeepPlain(FixUp(s));
    if PercentsEscaped(s) && '+' !in s {
      StrayPercentsKeepEscaped(s);
      PlusesKeepPlain(s);
    }
  }

  /**
   * `safeDecodeURIComponent` over the built-in `decodeURIComponent`
   * (`decode`, `None` where it throws): the empty string stays empty, a
   * direct decoding is preferred, then the decoding of the fixed-up
   * string, and the input is returned unchanged when both throw.
   */
  function SafeDecodeURIComponent(str: string, decode: string -> Option<string>): (r: string)
    ensures str == "" ==> r == ""
    ensures str != "" && decode(str).Some? ==> r == decode(str).value
    ensures str != "" && decode(str).None? && decode(FixUp(str)).Some? ==> r == decode(FixUp(str)).value
    ensures str != "" && decode(str).None? && decode(FixUp(str)).None? ==> r == str
  {
    if str == "" then ""
    else match decode(str)
      case Some(d) => d
      case None =>
        match decode(FixUp(str))
        case Some(d) => d
        case None => str
  }

  // ---- Labels and defaults ----

  /** The default title: the template id with hyphens turned to spaces, a dash, and the date. */
  function DefaultTitle(templateId: string, date: string): (r: string)
    ensures |r| == |templateId| + 3 + |date|
    ensures r[..|templateId|] == HyphensToSpaces(templateId) && '-' !in r[..|templateId|]
    ensures r[|templateId|..] == " - " + date
  {
    HyphensToSpaces(templateId) + " - " + date
  }

  /** The label of the save button. */
  function SaveButtonLabel(signedIn: bool, isDraft: bool, isSaving: bool): string {
    if isSaving then "Saving..."
    else if signedIn then (if isDraft then "Save & Finalize" else "Save to My Documents")
    else "Save Document"
  }

  /** Outside a save, the label says "Save Document" exactly when nobody is signed in, and offers finalizing exactly for a draft. */
  lemma SaveButtonLabelCases(signedIn: bool, isDraft: bool)
    ensures SaveButtonLabel(signedIn, isDraft, false) == "Save Document" <==> !signedIn
    ensures SaveButtonLabel(signedIn, isDraft, false) == "Save & Finalize" <==> signedIn && isDraft
    ensures SaveButtonLabel(signedIn, isDraft, false) == "Save to My Documents" <==> signedIn && !isDraft
  {
    assert "Save Document"[5] == 'D' && "Save & Finalize"[5] == '&' && "Save to My Documents"[5] == 't';
  }

  /**
   * A successful save leaves under the saved id a finalized row holding the
   * page's content (for a new row) or its title (a non-empty one), and
   * nothing else in the table changes.
   */
  lemma SavedRowIsFinal(rows: Table, nextId: DocId, documentId: Option<DocId>, userId: string, title: string,
                        content: string, templateId: string, answers: Answers, now: Timestamp)
    requires Saves(rows, documentId, false)
    ensures var r := SavedRows(rows, nextId, documentId, userId, title, content, templateId, answers, now, false);
      r.Keys == rows.Keys + {documentId.GetOr(nextId)}
    ensures var r := SavedRows(rows, nextId, documentId, userId, title, content, templateId, answers, now, false);
      var id := documentId.GetOr(nextId);
      && id in r && !r[id].isDraft && r[id].updatedAt == now
      && (title != "" ==> r[id].title == title)
      && (documentId.None? ==> r[id].content == content && r[id].userId == userId && r[id].createdAt == now)
      && (documentId.Some? ==> r[id].content == rows[id].content && r[id].userId == rows[id].userId)
      && (forall k :: k in rows && k != id ==> k in r && r[k] == rows[k])
  {
  }

  const SaveErrorAlert: string := "Error saving document. Please try again."

  /** Whether saving succeeds: no store fault, and the known document, if any, still exists. */
  predicate Saves(rows: Table, documentId: Option<DocId>, fault: bool) {
    !fault && (documentId.None? || documentId.value in rows)
  }

  /**
   * The table after a save: the known document is finalized under the
   * page's title, or a new finalized row is inserted under the next id;
   * a failed save leaves the table as it was.
   */
  function SavedRows(rows: Table, nextId: DocId, documentId: Option<DocId>, userId: string, title: string,
                     content: string, templateId: string, answers: Answers, now: Timestamp, fault: bool): Table
  {
    if !Saves(rows, documentId, fault) then rows
    else match documentId
      case Some(id) => rows[id := Finalized(rows[id], Some(title), now)]
      case None => rows[nextId := Document(nextId, userId, title, content, templateId, answers, false, now, now)]
  }

  class PreviewPage {
    var content: string
    var originalContent: string
    var title: string
    var originalTitle: string
    var contentChanged: bool
    var titleChanged: bool
    var documentId: Option<DocId>
    var isDraft: bool
    var isSaved: bool
    var isEditing: bool
    var showLoginPrompt: bool
    var autoSaveStatus: string
    /** The last alert raised, if any. */
    var alert: Option<string>

    /** Each change flag says whether the field differs from its last saved value. */
    ghost predicate Valid()
      reads this
    {
      contentChanged == (content != originalContent) && titleChanged == (title != originalTitle)
    }

    constructor ()
      ensures Valid() && content == "" && title == "" && documentId.None? && isDraft
      ensures !contentChanged && !titleChanged && !showLoginPrompt && alert.None?
    {
      content, originalContent, title, originalTitle := "", "", "", "";
      contentChanged, titleChanged := false, false;
      documentId, isDraft, isSaved, isEditing := None, true, false, false;
      showLoginPrompt, autoSaveStatus, alert := false, "", None;
    }

    /** `handleContentChange`: the content is replaced and its flag tells whether it now differs from the saved one. */
    method HandleContentChange(newContent: string)
      requires Valid()
      modifies this
      ensures Valid()
      ensures content == newContent && contentChanged == (newContent != originalContent)
      ensures originalContent == old(originalContent) && title == old(title) && titleChanged == old(titleChanged)
      ensures documentId == old(documentId) && isDraft == old(isDraft)
    {
      content := newContent;
      contentChanged := newContent != originalContent;
    }

    /** `handleTitleChange`: the title is replaced and its flag tells whether it now differs from the saved one. */
    method HandleTitleChange(newTitle: string)
      requires Valid()
      modifies this
      ensures Valid()
      ensures title == newTitle && titleChanged == (newTitle != originalTitle)
      ensures originalTitle == old(originalTitle) && content == old(content) && contentChanged == old(contentChanged)
      ensures documentId == old(documentId) && isDraft == old(isDraft)
    {
      title := newTitle;
      titleChanged := newTitle != originalTitle;
    }

    /**
     * `autoSaveDocument`: nothing happens without a user, without a
     * document id, or with nothing changed. Otherwise the progress is saved;
     * on success the saved values become the current ones and both flags
     * clear, and on failure the flags stay set.
     */
    method AutoSave(user: Option<string>, store: DocumentStore, elapsed: nat, fault: bool)
      requires Valid() && store.Valid()
      modifies this, store
      ensures Valid() && store.Valid()
      ensures user.None? || old(documentId).None? || (!old(contentChanged) && !old(titleChanged)) ==>
        unchanged(this) && store.rows == old(store.rows) && store.nextId == old(store.nextId) && store.clock == old(store.clock)
      ensures content == old(content) && title == old(title) && documentId == old(documentId) && isDraft == old(isDraft)
      ensures user.Some? && old(documentId).Some? && (old(contentChanged) || old(titleChanged)) ==>
        && var id := old(documentId).value;
        && (!fault ==> originalContent == content && originalTitle == title && !contentChanged && !titleChanged
                       && autoSaveStatus == "Saved")
        && (fault ==> originalContent == old(originalContent) && originalTitle == old(originalTitle)
                      && contentChanged == old(contentChanged) && titleChanged == old(titleChanged)
                      && autoSaveStatus == "Failed to save")
        && (!fault && id in old(store.rows) ==>
              store.rows == old(store.rows)[id := WithProgress(old(store.rows)[id], content, Some(title), store.clock)])
        && (fault || id !in old(store.rows) ==> store.rows == old(store.rows))
    {
      if user.None? || documentId.None? || (!contentChanged && !titleChanged) {
        return;
      }
      autoSaveStatus := "Saving...";
      var success := store.SaveDocumentProgress(documentId.value, content, Some(title), elapsed, fault);
      if success {
        autoSaveStatus := "Saved";
        originalContent := content;
        originalTitle := title;
        contentChanged := false;
        titleChanged := false;
      } else {
        autoSaveStatus := "Failed to save";
      }
    }

    /** The repository call of `handleSave`: finalize the known document, or create a finalized one. */
    method Persist(userId: string, store: DocumentStore, templateId: string, answers: Answers,
                   elapsed: nat, fault: bool) returns (doc: Option<Document>)
      requires store.Valid()
      modifies store
      ensures store.Valid()
      ensures doc.Some? <==> Saves(old(store.rows), documentId, fault)
      ensures store.rows == SavedRows(old(store.rows), old(store.nextId), documentId, userId, title, content,
                                      templateId, answers, store.clock, fault)
      ensures doc.Some? ==> doc.value.id == documentId.GetOr(old(store.nextId))
    {
      if documentId.Some? {
        doc := store.FinalizeDraftDocument(documentId.value, Some(title), elapsed, fault);
      } else {
        doc := store.CreateDocument(userId, title, content, templateId, answers, elapsed, fault);
      }
    }

    /**
     * `handleSave`: without a user only the login prompt appears. With a
     * document id that document is finalized, otherwise a new finalized
     * document is created. A saved document leaves the page on it, final,
     * with nothing pending; a failure leaves the page as it was apart from
     * the alert.
     */
    method HandleSave(user: Option<string>, store: DocumentStore, templateId: string, answers: Answers,
                      elapsed: nat, fault: bool)
      requires Valid() && store.Valid()
      modifies this, store
      ensures Valid() && store.Valid()
      ensures content == old(content) && title == old(title)
      ensures user.None? ==>
        && showLoginPrompt && store.rows == old(store.rows) && store.nextId == old(store.nextId) && store.clock == old(store.clock)
        && documentId == old(documentId) && isDraft == old(isDraft) && alert == old(alert)
        && originalContent == old(originalContent) && originalTitle == old(originalTitle)
      ensures user.Some? ==>
        store.rows == SavedRows(old(store.rows), old(store.nextId), old(documentId), user.value, title, content,
                                templateId, answers, store.clock, fault)
      ensures user.Some? ==>
        var saved := Saves(old(store.rows), old(documentId), fault);
        && (saved ==> documentId == Some(old(documentId).GetOr(old(store.nextId)))
                      && !isDraft && isSaved && !isEditing && !contentChanged && !titleChanged && alert == old(alert))
        && (!saved ==> documentId == old(documentId) && isDraft == old(isDraft) && alert == Some(SaveErrorAlert)
                       && originalContent == old(originalContent) && originalTitle == old(originalTitle))
    {
      if user.None? {
        showLoginPrompt := true;
        return;
      }
      var doc := Persist(user.value, store, templateId, answers, elapsed, fault);
      if doc.Some? {
        documentId, isDraft, isSaved, isEditing := Some(doc.value.id), false, true, false;
        originalContent, originalTitle, contentChanged, titleChanged := content, title, false, false;
      } else {
        alert := Some(SaveErrorAlert);
      }
    }
  }
}
