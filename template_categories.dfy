/**
 * The category tabs of the template browser and the per-template category
 * and card style, each a lookup with a default.
 */
module TemplateCategories {
  datatype Category = Category(id: string, name: string)

  const DocumentCategories: seq<Category> := [
    Category("all", "All"),
    Category("business", "Business Documents"),
    Category("legal", "Legal Documents"),
    Category("real-estate", "Real Estate Documents"),
    Category("personal", "Personal Documents"),
    Category("employment", "Employment & HR"),
    Category("technology", "Technology & Startup"),
    Category("creative", "Creative & Media"),
    Category("financial", "Financial Documents"),
    Category("educational", "Educational & Nonprofit"),
    Category("miscellaneous", "Miscellaneous")
  ]

  const TemplateCategoryMap: map<string, string> := map["terms-of-service" := "legal", "privacy-policy" := "privacy"]

  const TemplateStyles: map<string, string> :=
    map["terms-of-service" := "from-primary/30 to-primary/5", "privacy-policy" := "from-secondary/30 to-secondary/5"]

  const DefaultCategory: string := "miscellaneous"
  const DefaultStyle: string := "from-accent/30 to-accent/5"

  /** The value stored under `key`, falling back to `default` when it is absent or empty (the `||` idiom). */
  function LookupOr(m: map<string, string>, key: string, default: string): (r: string)
    ensures key in m && m[key] != "" ==> r == m[key]
    ensures key !in m ==> r == default
  {
    if key in m && m[key] != "" then m[key] else default
  }

  /** `getTemplateCategory`: the mapped category, or "miscellaneous" for an unmapped id. */
  function GetTemplateCategory(templateId: string): (r: string)
    ensures templateId in TemplateCategoryMap ==> r == TemplateCategoryMap[templateId]
    ensures templateId !in TemplateCategoryMap ==> r == DefaultCategory
  {
    LookupOr(TemplateCategoryMap, templateId, DefaultCategory)
  }

  /** `getTemplateStyle`: the per-template gradient, or the accent gradient by default. */
  function GetTemplateStyle(templateId: string): (r: string)
    ensures templateId in TemplateStyles ==> r == TemplateStyles[templateId]
    ensures templateId !in TemplateStyles ==> r == DefaultStyle
  {
    LookupOr(TemplateStyles, templateId, DefaultStyle)
  }

  predicate IsCategoryId(id: string) {
    exists i :: 0 <= i < |DocumentCategories| && DocumentCategories[i].id == id
  }

  /** The tab ids are pairwise distinct and the first tab is "all". */
  lemma CategoryIdsDistinct()
    ensures forall i, j :: 0 <= i < j < |DocumentCategories| ==> DocumentCategories[i].id != DocumentCategories[j].id
    ensures DocumentCategories[0].id == "all"
  {
  }

  /** Terms of service sit under "legal"; the privacy policy maps to "privacy", which no tab carries. */
  lemma CategoryOfCatalogue()
    ensures GetTemplateCategory("terms-of-service") == "legal" && IsCategoryId("legal")
    ensures GetTemplateCategory("privacy-policy") == "privacy" && !IsCategoryId("privacy")
  {
    assert DocumentCategories[2].id == "legal";
  }

  /** Every template's category is the default or one the map assigns. */
  lemma CategoryIsMappedOrDefault(templateId: string)
    ensures GetTemplateCategory(templateId) in TemplateCategoryMap.Values + {DefaultCategory}
  {
  }
}
