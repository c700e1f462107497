/**
 * The rows of the two database tables, `documents` and `users`, with the
 * field lists of the application's record types. Timestamps are readings of
 * a monotone clock; ids of documents come from a fresh-id supply.
 */
module Schema {
  import opened Wrappers

  type DocId = nat
  type Timestamp = nat

  /** Question id to answer, as captured from the questionnaire. */
  type Answers = map<string, string>

  /** A row of `documents`. */
  datatype Document = Document(
    id: DocId,
    userId: string,
    title: string,
    content: string,
    templateId: string,
    templateAnswers: Answers,
    isDraft: bool,
    createdAt: Timestamp,
    updatedAt: Timestamp)

  /** A row of `users`; the optional columns are NULL when never supplied. */
  datatype UserRow = UserRow(
    id: string,
    email: string,
    name: Option<string>,
    avatarUrl: Option<string>,
    provider: Option<string>,
    createdAt: Timestamp,
    updatedAt: Timestamp)
}
