/** The server action `submitAnswer` (app/actions/answer-actions.ts): a
    session check, then one insert into the answers table built from the
    posted form fields. The insert is an oracle that answers the store's error
    message, or `None` when the row was stored. */
module AnswerActions {
  import opened Common

  const NotLoggedIn := "You must be logged in to answer questions"

  /** The signed-in user, as the session cookie identifies them. */
  datatype Session = Session(userId: string)

  /** The posted form fields (`formData.get` answers `null` for a missing one). */
  datatype AnswerFields = AnswerFields(questionId: Option<string>, content: Option<string>,
                                       mediaUrl: Option<string>, mediaType: Option<string>)

  /** The row sent to the answers table. */
  datatype AnswerInsert = AnswerInsert(questionId: Option<string>, userId: string,
                                       content: Option<string>, mediaUrl: Option<string>,
                                       mediaType: string)

  /** `{ success: true, data }` or `{ success: false, error }`. */
  datatype ActionResult = Succeeded | Failed(error: string)

  /** What the action answers, and the row it asked the store to insert, if any. */
  datatype Submission = Submission(result: ActionResult, inserted: Option<AnswerInsert>)

  /** `value || null`: an empty or missing string becomes `null`. */
  function OrNull(value: Option<string>): (r: Option<string>)
    ensures r.None? <==> value.None? || value == Some("")
    ensures r.Some? ==> r == value
  {
    if value.None? || value.value == "" then None else value
  }

  /** `value || "text"`: an empty or missing media type becomes `"text"`. */
  function OrText(value: Option<string>): (r: string)
    ensures r != ""
    ensures value.Some? && value.value != "" ==> r == value.value
    ensures value.None? || value == Some("") ==> r == "text"
  {
    if value.None? || value.value == "" then "text" else value.value
  }

  /** The row `submitAnswer` inserts: the author is the session's user, never
      a form field, and empty optional fields are normalised. */
  function AnswerRow(session: Session, fields: AnswerFields): (row: AnswerInsert)
    ensures row.userId == session.userId
    ensures row.questionId == fields.questionId
    ensures row.content == OrNull(fields.content) && row.mediaUrl == OrNull(fields.mediaUrl)
    ensures row.mediaType == OrText(fields.mediaType)
  {
    AnswerInsert(fields.questionId, session.userId, OrNull(fields.content),
                 OrNull(fields.mediaUrl), OrText(fields.mediaType))
  }

  /** `submitAnswer(formData)`: without a session it fails with the fixed
      message and inserts nothing; otherwise it inserts the normalised row and
      succeeds exactly when the store reports no error. */
  function SubmitAnswer(session: Option<Session>, fields: AnswerFields,
                        insert: AnswerInsert -> Option<string>): (r: Submission)
    ensures session.None? <==> r.inserted.None?
    ensures session.None? ==> r.result == Failed(NotLoggedIn)
    ensures session.Some? ==> r.inserted == Some(AnswerRow(session.value, fields))
    ensures session.Some? ==>
      match insert(AnswerRow(session.value, fields))
      case None => r.result == Succeeded
      case Some(msg) => r.result == Failed(msg)
  {
    match session
    case None => Submission(Failed(NotLoggedIn), None)
    case Some(s) =>
      var row := AnswerRow(s, fields);
      match insert(row)
      case None => Submission(Succeeded, Some(row))
      case Some(msg) => Submission(Failed(msg), Some(row))
  }
}
