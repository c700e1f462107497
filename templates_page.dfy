/**
 * The template browser: a search box and a category tab narrow the
 * catalogue's values, an upload card shows on the "all" tab, and choosing
 * a template opens its questionnaire.
 */
module TemplatesPage {
  import opened JsText
  import opened Templates
  import opened TemplateCategories

  /** The query occurs, ignoring ASCII case, in the template's name or description. */
  predicate MatchesSearch(t: Template, query: string) {
    Includes(AsciiLower(t.name), AsciiLower(query)) || Includes(AsciiLower(t.description), AsciiLower(query))
  }

  predicate MatchesCategory(t: Template, activeCategory: string) {
    activeCategory == "all" || GetTemplateCategory(t.id) == activeCategory
  }

  predicate Shown(t: Template, query: string, activeCategory: string) {
    MatchesSearch(t, query) && MatchesCategory(t, activeCategory)
  }

  /** `a` is `b` with some elements dropped, the rest in their order. */
  ghost predicate SubsequenceOf(a: seq<Template>, b: seq<Template>)
    decreases |b|
  {
    if a == [] then true
    else if b == [] then false
    else (a[0] == b[0] && SubsequenceOf(a[1..], b[1..])) || SubsequenceOf(a, b[1..])
  }

  /** The `filter` over a list of templates. */
  function FilterShown(ts: seq<Template>, query: string, activeCategory: string): (r: seq<Template>)
    ensures SubsequenceOf(r, ts)
    ensures forall t :: t in r <==> t in ts && Shown(t, query, activeCategory)
  {
    if ts == [] then []
    else
      var rest := FilterShown(ts[1..], query, activeCategory);
      if Shown(ts[0], query, activeCategory) then
        assert ([ts[0]] + rest)[1..] == rest;
        [ts[0]] + rest
      else rest
  }

  /** `filteredTemplates`: the catalogue's values that match the search and the tab. */
  function FilteredTemplates(query: string, activeCategory: string): (r: seq<Template>)
    ensures SubsequenceOf(r, TemplatesArray)
    ensures forall t :: t in r <==> t in TemplatesArray && Shown(t, query, activeCategory)
  {
    FilterShown(TemplatesArray, query, activeCategory)
  }

  /** An empty query matches the text of every template. */
  lemma EmptyQueryMatchesAll(t: Template)
    ensures MatchesSearch(t, "")
  {
    EmptyOccursEverywhere(AsciiLower(t.name));
  }

  /** On the "all" tab with an empty query every catalogue entry is listed. */
  lemma AllTabListsCatalogue()
    ensures FilteredTemplates("", "all") == TemplatesArray
  {
    EmptyQueryMatchesAll(TermsOfService);
    EmptyQueryMatchesAll(PrivacyPolicy);
    assert TemplatesArray[1..] == [PrivacyPolicy] && [PrivacyPolicy][1..] == [];
    assert FilterShown([PrivacyPolicy], "", "all") == [PrivacyPolicy];
  }

  /** The privacy policy appears under no tab except "all", whatever the query. */
  lemma PrivacyPolicyOnlyUnderAll(query: string, activeCategory: string)
    requires IsCategoryId(activeCategory) && activeCategory != "all"
    ensures PrivacyPolicy !in FilteredTemplates(query, activeCategory)
  {
    CategoryOfCatalogue();
  }

  /** `showUploadCard`: the upload card only shows on the "all" tab with something listed. */
  predicate ShowUploadCard(query: string, activeCategory: string) {
    activeCategory == "all" && |FilteredTemplates(query, activeCategory)| > 0
  }

  /** With an empty query the "all" tab shows the upload card; no other tab ever does. */
  lemma UploadCardOnAllTab(query: string, activeCategory: string)
    ensures ShowUploadCard("", "all")
    ensures activeCategory != "all" ==> !ShowUploadCard(query, activeCategory)
  {
    AllTabListsCatalogue();
  }

  /** `handleSelectTemplate`: the route of the questionnaire for `templateId`. */
  function SelectTemplateRoute(templateId: string): (r: string)
    ensures StartsWith(r, "/onboarding/") && r[|"/onboarding/"|..] == templateId
  {
    "/onboarding/" + templateId
  }

  /** Different templates go to different routes. */
  lemma SelectTemplateRouteInjective(a: string, b: string)
    requires SelectTemplateRoute(a) == SelectTemplateRoute(b)
    ensures a == b
  {
    assert a == SelectTemplateRoute(a)[|"/onboarding/"|..];
  }
}
