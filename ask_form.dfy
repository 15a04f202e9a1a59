/** The question composer (components/ask-form.tsx): a text of at most 280
    characters, a public / friends-only choice, and a submit that inserts one
    row into the questions table. The insert is an oracle answering the
    store's error message, or `None` when the row was stored. */
module AskComposer {
  import opened Common
  import opened Text

  /** `MAX_LENGTH`, also the textarea's `maxLength`. */
  const MaxLength: nat := 280
  /** `MAX_LENGTH * 0.8`: above this the counter turns red. */
  const WarnLength: nat := 224

  /** The row sent to the questions table. */
  datatype QuestionInsert = QuestionInsert(userId: string, content: string, isPublic: bool)

  /** How one `handleSubmit` call ended. */
  datatype AskOutcome = EmptyQuestion | AskFailed(message: string) | Asked

  /** The `disabled` expression of the submit button: it looks at the raw
      length, not at the trimmed text. */
  predicate PostDisabled(isLoading: bool, content: string) {
    isLoading || |content| == 0 || |content| > MaxLength
  }

  /** The counter's colour test. */
  predicate CounterWarns(content: string) {
    |content| > WarnLength
  }

  /** The guard of `handleSubmit`: `!content.trim()`. */
  predicate BlankQuestion(content: string) {
    Trim(content) == ""
  }

  /** A text made only of white space (at most 280 characters, and at least
      one) enables the button, yet the handler refuses it. */
  lemma BlankTextPassesButton(content: string)
    requires 0 < |content| <= MaxLength
    requires forall i :: 0 <= i < |content| ==> IsSpace(content[i])
    ensures !PostDisabled(false, content) && BlankQuestion(content)
  {
    TrimEmptyIffAllSpace(content);
  }

  /** Conversely, a text the handler accepts is never refused by the button
      for its length alone, as long as the textarea's cap holds. */
  lemma AcceptedTextEnablesButton(content: string)
    requires |content| <= MaxLength && !BlankQuestion(content)
    ensures !PostDisabled(false, content)
  {
  }

  /** The row `handleSubmit` inserts: the form's user, the visibility choice,
      and the text with its surrounding white space removed. */
  function QuestionRow(userId: string, content: string, isPublic: bool): (row: QuestionInsert)
    requires !BlankQuestion(content)
    ensures row.userId == userId && row.isPublic == isPublic
    ensures row.content != "" && !IsSpace(row.content[0]) && !IsSpace(row.content[|row.content| - 1])
  {
    QuestionInsert(userId, Trim(content), isPublic)
  }

  /** The stored text is a slice of what was typed: it starts where the
      leading white space ends, and only white space follows it. */
  lemma QuestionRowIsSlice(userId: string, content: string, isPublic: bool)
    requires !BlankQuestion(content)
    ensures var text := QuestionRow(userId, content, isPublic).content;
            var lo := |content| - |TrimStart(content)|;
            OccursAt(content, text, lo)
            && (forall i :: 0 <= i < lo ==> IsSpace(content[i]))
            && (forall i :: lo + |text| <= i < |content| ==> IsSpace(content[i]))
  {
    TrimIsSlice(content);
  }

  class AskForm {
    const userId: string
    var content: string
    var isPublic: bool
    var isLoading: bool

    ghost predicate Valid()
      reads this
    {
      |content| <= MaxLength
    }

    constructor (userId: string)
      ensures Valid() && this.userId == userId
      ensures content == "" && isPublic && !isLoading
    {
      this.userId := userId;
      content := "";
      isPublic := true;
      isLoading := false;
    }

    /** The textarea's `onChange`; its `maxLength` keeps longer values out. */
    method Edit(value: string)
      requires |value| <= MaxLength
      modifies this`content
      ensures Valid() && content == value
    {
      content := value;
    }

    /** The "Public" radio item. */
    method ChoosePublic()
      requires Valid()
      modifies this`isPublic
      ensures Valid() && isPublic
    {
      isPublic := true;
    }

    /** The "Friends Only" radio item. */
    method ChooseFriends()
      requires Valid()
      modifies this`isPublic
      ensures Valid() && !isPublic
    {
      isPublic := false;
    }

    /** `handleSubmit`: a blank text is refused with no insert; otherwise the
        trimmed text is inserted, and the loading flag is clear at the end
        whatever the store answered. */
    method HandleSubmit(insert: QuestionInsert -> Option<string>) returns (outcome: AskOutcome, sent: Option<QuestionInsert>)
      requires Valid()
      modifies this`isLoading
      ensures Valid()
      ensures BlankQuestion(content) ==> outcome == EmptyQuestion && sent == None && isLoading == old(isLoading)
      ensures !BlankQuestion(content) ==>
                sent == Some(QuestionRow(userId, content, isPublic)) && !isLoading
                && outcome == match insert(sent.value)
                              case None => Asked
                              case Some(msg) => AskFailed(msg)
    {
      if Trim(content) == "" {
        return EmptyQuestion, None;
      }
      isLoading := true;
      var row := QuestionRow(userId, content, isPublic);
      sent := Some(row);
      match insert(row) {
        case None => outcome := Asked;
        case Some(msg) => outcome := AskFailed(msg);
      }
      isLoading := false;
    }
  }
}
