/**
 * The document template catalogue: each template is a name, a description
 * and the questionnaire whose answers drive generation.
 */
module Templates {
  import opened Wrappers

  datatype QuestionKind = Text | Textarea | Select | Radio

  datatype Question = Question(
    id: string,
    question: string,
    kind: QuestionKind,
    options: Option<seq<string>>,
    placeholder: Option<string>,
    required: bool)

  datatype Template = Template(id: string, name: string, description: string, questions: seq<Question>)

  const TermsOfService: Template := Template(
    "terms-of-service",
    "Terms of Service",
    "Generate a comprehensive Terms of Service agreement for your website or application",
    [
      Question("companyName", "What is your company's legal name?", Text, None, Some("e.g., Acme Corporation"), true),
      Question("serviceType", "What type of service do you provide?", Select,
               Some(["Web Application", "Mobile App", "SaaS Platform", "E-commerce Store", "Content Platform", "Other"]),
               None, true),
      Question("jurisdiction", "Which country's laws govern this agreement?", Text, None, Some("e.g., United States"), true),
      Question("userDataCollection", "Do you collect user data?", Radio, Some(["Yes", "No"]), None, true),
      Question("additionalTerms", "Are there any additional terms or specific requirements you'd like to include?",
               Textarea, None, Some("Enter any additional terms or requirements..."), false)
    ])

  const PrivacyPolicy: Template := Template(
    "privacy-policy",
    "Privacy Policy",
    "Create a detailed Privacy Policy that complies with global privacy regulations",
    [
      Question("companyName", "What is your company's legal name?", Text, None, Some("e.g., Acme Corporation"), true),
      Question("dataCollectionPurpose", "What is the primary purpose of collecting user data?", Textarea, None,
               Some("Explain why you collect user data..."), true),
      Question("dataTypes", "What types of personal data do you collect?", Select,
               Some(["Contact Information", "Payment Details", "Usage Data", "Device Information", "Location Data",
                     "All of the above"]),
               None, true),
      Question("thirdPartySharing", "Do you share user data with third parties?", Radio, Some(["Yes", "No"]), None, true),
      Question("userRights", "What rights do users have regarding their data?", Textarea, None,
               Some("Describe user rights and how they can exercise them..."), true)
    ])

  /** The catalogue, keyed by template id. */
  const Catalogue: map<string, Template> := map["terms-of-service" := TermsOfService, "privacy-policy" := PrivacyPolicy]

  /** The catalogue's key order, which is the order in which its values are listed. */
  const CatalogueOrder: seq<string> := ["terms-of-service", "privacy-policy"]

  /** The catalogue's values in key order. */
  const TemplatesArray: seq<Template> := [TermsOfService, PrivacyPolicy]

  /** `getTemplate`: the catalogue entry for `id`, or nothing for an unknown id. */
  function GetTemplate(id: string): (r: Option<Template>)
    ensures r.Some? <==> id in Catalogue
    ensures r.Some? ==> r.value == Catalogue[id] && r.value.id == id
  {
    if id in Catalogue then Some(Catalogue[id]) else None
  }

  /** The listed values are exactly the catalogue's values, each once, in key order. */
  lemma TemplatesArrayListsCatalogue()
    ensures |TemplatesArray| == |CatalogueOrder|
    ensures forall i :: 0 <= i < |CatalogueOrder| ==> CatalogueOrder[i] in Catalogue && TemplatesArray[i] == Catalogue[CatalogueOrder[i]]
    ensures forall id :: id in Catalogue <==> id in CatalogueOrder
    ensures CatalogueOrder[0] != CatalogueOrder[1]
  {
  }

  /** Every entry's id field equals its key. */
  lemma IdsMatchKeys()
    ensures forall k :: k in Catalogue ==> Catalogue[k].id == k
  {
  }

  predicate DistinctQuestionIds(t: Template) {
    forall i, j :: 0 <= i < j < |t.questions| ==> t.questions[i].id != t.questions[j].id
  }

  /** Question ids are distinct within each template. */
  lemma QuestionIdsDistinct()
    ensures forall k :: k in Catalogue ==> DistinctQuestionIds(Catalogue[k])
  {
  }

  predicate ChoicesListed(q: Question) {
    (q.kind == Select || q.kind == Radio) ==> q.options.Some? && |q.options.value| > 0
  }

  /** Every select or radio question lists at least one option. */
  lemma ChoiceQuestionsHaveOptions()
    ensures forall k, i :: k in Catalogue && 0 <= i < |Catalogue[k].questions| ==> ChoicesListed(Catalogue[k].questions[i])
  {
  }

  /** `additionalTerms` is the only optional question in the catalogue. */
  lemma OnlyAdditionalTermsOptional()
    ensures forall k, i :: k in Catalogue && 0 <= i < |Catalogue[k].questions| ==>
      (!Catalogue[k].questions[i].required <==> Catalogue[k].questions[i].id == "additionalTerms")
  {
  }
}
