/** The answer composer (components/answer-form.tsx): a tab per media kind,
    a caption, one media file checked on selection, and a submit that uploads
    the file first and then calls the `submitAnswer` action. */
module AnswerComposer {
  import opened Common
  import opened Text
  import opened Storage
  import opened AnswerActions

  /** The largest accepted file: 10 MB. */
  const MaxFileSize: nat := 10 * 1024 * 1024

  datatype Tab = TextTab | ImageTab | VideoTab | AudioTab

  /** Why a selected file was refused (the toast's title). */
  datatype FileError = TooLarge | WrongType(tab: Tab)

  /** How one `handleFileChange` call ended. */
  datatype FileOutcome = NoFile | Rejected(error: FileError) | Accepted

  /** How one `handleSubmit` call ended. */
  datatype SubmitOutcome = MissingMedia | SubmitFailed(message: string) | Posted

  /** A recorded audio chunk. */
  type Blob = seq<bv8>

  /** The MIME prefix a media tab demands of its file. */
  function TabPrefix(tab: Tab): string
    requires tab != TextTab
  {
    match tab
    case ImageTab => "image/"
    case VideoTab => "video/"
    case AudioTab => "audio/"
  }

  /** The media kind each media tab stands for. */
  function TabKind(tab: Tab): MediaType
    requires tab != TextTab
  {
    match tab
    case ImageTab => ImageMedia
    case VideoTab => VideoMedia
    case AudioTab => AudioMedia
  }

  /** The checks of `handleFileChange`, in their order: size first, then, in a
      media tab, the MIME prefix of that tab. The text tab checks size only. */
  function CheckFile(tab: Tab, file: MediaFile): (r: Option<FileError>)
    ensures r == Some(TooLarge) <==> file.size > MaxFileSize
    ensures r.None? <==> file.size <= MaxFileSize && (tab == TextTab || StartsWith(file.mimeType, TabPrefix(tab)))
    ensures r.Some? && r != Some(TooLarge) ==> r == Some(WrongType(tab)) && tab != TextTab
  {
    if file.size > MaxFileSize then Some(TooLarge)
    else if tab == ImageTab && !StartsWith(file.mimeType, "image/") then Some(WrongType(ImageTab))
    else if tab == VideoTab && !StartsWith(file.mimeType, "video/") then Some(WrongType(VideoTab))
    else if tab == AudioTab && !StartsWith(file.mimeType, "audio/") then Some(WrongType(AudioTab))
    else None
  }

  /** A file accepted in a media tab is later classified by the upload as that
      tab's media kind. */
  lemma AcceptedFileKeepsTabKind(tab: Tab, file: MediaFile)
    requires tab != TextTab && CheckFile(tab, file).None?
    ensures ClassifyMime(file.mimeType) == TabKind(tab)
  {
    PrefixesExclusive(file.mimeType);
  }

  /** The guard at the top of `handleSubmit`: a media tab without a file. */
  predicate LacksMedia(tab: Tab, mediaFile: Option<MediaFile>) {
    tab != TextTab && mediaFile.None?
  }

  /** The `disabled` expression of the submit button. */
  predicate SubmitDisabled(isSubmitting: bool, isUploading: bool, tab: Tab,
                           mediaFile: Option<MediaFile>, isRecording: bool) {
    isSubmitting || isUploading || LacksMedia(tab, mediaFile) || isRecording
  }

  /** Whenever the button can be pressed, the missing-media guard passes. */
  lemma EnabledSubmitPassesGuard(isSubmitting: bool, isUploading: bool, tab: Tab,
                                 mediaFile: Option<MediaFile>, isRecording: bool)
    requires !SubmitDisabled(isSubmitting, isUploading, tab, mediaFile, isRecording)
    ensures !LacksMedia(tab, mediaFile)
  {
  }

  /** The form fields `handleSubmit` posts. `questionId` and `content` are
      always set; without an upload the media type is `"text"` and there is no
      URL; with one, the URL and the classification (line 161's ternary on
      `"audio"` leaves every value as it is). */
  function SubmitFields(questionId: string, content: string, upload: Option<Uploaded>): (f: AnswerFields)
    ensures f.questionId == Some(questionId) && f.content == Some(content)
    ensures upload.None? ==> f.mediaUrl == None && f.mediaType == Some("text")
    ensures upload.Some? ==> f.mediaUrl == Some(upload.value.url)
                             && f.mediaType == Some(MediaTypeName(upload.value.mediaType))
  {
    match upload
    case None => AnswerFields(Some(questionId), Some(content), None, Some("text"))
    case Some(u) =>
      var kind := MediaTypeName(u.mediaType);
      AnswerFields(Some(questionId), Some(content), Some(u.url), Some(if kind == "audio" then "audio" else kind))
  }

  /** What one submission does: the upload path used (if any), whether the
      upload threw, the row inserted (if any), and how it ended. */
  datatype SubmitRun = SubmitRun(outcome: SubmitOutcome, uploadedTo: Option<string>,
                                 uploadThrew: bool, inserted: Option<AnswerInsert>)

  /** `handleSubmit` as one step, the storage bucket, the session and the
      answers table being oracles. */
  function RunSubmit(tab: Tab, content: string, mediaFile: Option<MediaFile>,
                     questionId: string, userId: string, uuid: string,
                     store: (string, MediaFile) -> Option<string>, publicUrl: string -> string,
                     session: Option<Session>, insert: AnswerInsert -> Option<string>): (r: SubmitRun)
    // a media tab without a file is refused before any remote call
    ensures r.outcome == MissingMedia <==> LacksMedia(tab, mediaFile)
    ensures LacksMedia(tab, mediaFile) ==> r.uploadedTo == None && r.inserted == None
    // no file, no upload: the row is a text answer
    ensures mediaFile.None? ==> r.uploadedTo == None && !r.uploadThrew
    ensures mediaFile.None? && r.inserted.Some? ==>
              r.inserted.value.mediaType == "text" && r.inserted.value.mediaUrl == None
    // a file is uploaded under the user's folder; an upload error ends the submission
    ensures mediaFile.Some? ==> r.uploadedTo == Some(FilePath(userId, FileName(uuid, mediaFile.value.name)))
    ensures r.uploadThrew <==> mediaFile.Some? && store(r.uploadedTo.value, mediaFile.value).Some?
    ensures r.uploadThrew ==> r.inserted == None && r.outcome.SubmitFailed?
    ensures mediaFile.Some? && r.inserted.Some? ==>
              r.inserted.value.mediaType == MediaTypeName(ClassifyMime(mediaFile.value.mimeType))
              && r.inserted.value.mediaUrl == OrNull(Some(publicUrl(r.uploadedTo.value)))
    // the row, when one is sent, is the session user's answer to this question
    ensures r.inserted.Some? ==> session.Some? && r.inserted.value.userId == session.value.userId
                                 && r.inserted.value.questionId == Some(questionId)
                                 && r.inserted.value.content == OrNull(Some(content))
    ensures r.outcome == Posted <==> r.inserted.Some? && insert(r.inserted.value).None?
  {
    if LacksMedia(tab, mediaFile) then SubmitRun(MissingMedia, None, false, None)
    else
      var upload :=
        if mediaFile.None? then Ok(None)
        else match UploadMedia(mediaFile.value, userId, uuid, store, publicUrl)
             case Ok(u) => Ok(Some(u))
             case Err(msg) => Err(msg);
      var path := if mediaFile.None? then None else Some(FilePath(userId, FileName(uuid, mediaFile.value.name)));
      match upload
      case Err(msg) => SubmitRun(SubmitFailed(msg), path, true, None)
      case Ok(u) =>
        assert mediaFile.Some? ==> u.Some? && path == Some(u.value.path) && u.value.url == publicUrl(u.value.path);
        var sub := SubmitAnswer(session, SubmitFields(questionId, content, u), insert);
        var outcome := match sub.result
                       case Succeeded => Posted
                       case Failed(msg) => SubmitFailed(msg);
        SubmitRun(outcome, path, false, sub.inserted)
  }

  class AnswerForm {
    const questionId: string
    const userId: string
    var activeTab: Tab
    var content: string
    var mediaFile: Option<MediaFile>
    var mediaPreview: Option<string>
    var isUploading: bool
    var isSubmitting: bool
    var isRecording: bool
    var hasRecorder: bool
    var audioChunks: seq<Blob>

    /** The submit button's `disabled` attribute in the current state. */
    predicate SubmitButtonDisabled()
      reads this
    {
      SubmitDisabled(isSubmitting, isUploading, activeTab, mediaFile, isRecording)
    }

    constructor (questionId: string, userId: string)
      ensures this.questionId == questionId && this.userId == userId
      ensures activeTab == TextTab && content == "" && mediaFile == None && mediaPreview == None
      ensures !isUploading && !isSubmitting && !isRecording && !hasRecorder && audioChunks == []
    {
      this.questionId := questionId;
      this.userId := userId;
      activeTab := TextTab;
      content := "";
      mediaFile := None;
      mediaPreview := None;
      isUploading := false;
      isSubmitting := false;
      isRecording := false;
      hasRecorder := false;
      audioChunks := [];
    }

    /** The tabs' `onValueChange`. */
    method SelectTab(tab: Tab)
      modifies this`activeTab
      ensures activeTab == tab
    {
      activeTab := tab;
    }

    /** The caption textarea's `onChange`. */
    method EditContent(value: string)
      modifies this`content
      ensures content == value
    {
      content := value;
    }

    /** `handleFileChange`: `objectUrl` is what `URL.createObjectURL` answers. A
        refused file leaves the selected file and its preview as they were. */
    method HandleFileChange(file: Option<MediaFile>, objectUrl: string) returns (outcome: FileOutcome)
      modifies this`mediaFile, this`mediaPreview
      ensures file.None? ==> outcome == NoFile
      ensures file.Some? && CheckFile(activeTab, file.value).Some? ==>
                outcome == Rejected(CheckFile(activeTab, file.value).value)
      ensures file.Some? && CheckFile(activeTab, file.value).None? ==> outcome == Accepted
      ensures outcome == Accepted ==> mediaFile == file && mediaPreview == Some(objectUrl)
      ensures outcome != Accepted ==> mediaFile == old(mediaFile) && mediaPreview == old(mediaPreview)
    {
      if file.None? {
        return NoFile;
      }
      var f := file.value;
      if f.size > MaxFileSize {
        return Rejected(TooLarge);
      }
      if activeTab == ImageTab && !StartsWith(f.mimeType, "image/") {
        return Rejected(WrongType(ImageTab));
      }
      if activeTab == VideoTab && !StartsWith(f.mimeType, "video/") {
        return Rejected(WrongType(VideoTab));
      }
      if activeTab == AudioTab && !StartsWith(f.mimeType, "audio/") {
        return Rejected(WrongType(AudioTab));
      }
      mediaFile := file;
      mediaPreview := Some(objectUrl);
      outcome := Accepted;
    }

    /** `clearMedia`: drops the file, its preview and the recorded chunks, and
        stops a running recorder. */
    method ClearMedia()
      modifies this`mediaFile, this`mediaPreview, this`audioChunks, this`isRecording
      ensures mediaFile == None && mediaPreview == None && audioChunks == []
      ensures isRecording == (old(isRecording) && !hasRecorder)
    {
      mediaFile := None;
      mediaPreview := None;
      audioChunks := [];
      if hasRecorder && isRecording {
        isRecording := false;
      }
    }

    /** `handleSubmit`. An upload that throws skips `setIsUploading(false)`, so
        `isUploading` stays set and the submit button stays disabled. */
    method HandleSubmit(uuid: string, store: (string, MediaFile) -> Option<string>,
                        publicUrl: string -> string, session: Option<Session>,
                        insert: AnswerInsert -> Option<string>)
      returns (outcome: SubmitOutcome, sent: Option<AnswerInsert>)
      modifies this`isSubmitting, this`isUploading
      ensures var run := RunSubmit(activeTab, content, mediaFile, questionId, userId, uuid,
                                   store, publicUrl, session, insert);
        outcome == run.outcome && sent == run.inserted &&
        (outcome == MissingMedia ==> isSubmitting == old(isSubmitting) && isUploading == old(isUploading)) &&
        (outcome != MissingMedia ==> !isSubmitting) &&
        (run.uploadThrew ==> isUploading && SubmitButtonDisabled()) &&
        (outcome != MissingMedia && !run.uploadThrew ==>
           isUploading == (old(isUploading) && mediaFile.None?))
    {
      if activeTab != TextTab && mediaFile.None? {
        return MissingMedia, None;
      }
      isSubmitting := true;
      var upload: Option<Uploaded> := None;
      if mediaFile.Some? {
        isUploading := true;
        var result := UploadMedia(mediaFile.value, userId, uuid, store, publicUrl);
        if result.Err? {
          outcome, sent := SubmitFailed(result.error), None;
          isSubmitting := false;
          return;
        }
        isUploading := false;
        upload := Some(result.value);
      }
      var submission := SubmitAnswer(session, SubmitFields(questionId, content, upload), insert);
      outcome := if submission.result.Succeeded? then Posted else SubmitFailed(submission.result.error);
      sent := submission.inserted;
      isSubmitting := false;
    }
  }
}
