/** The comment thread of one answer (components/comments-section.tsx): a
    list of comments, newest first, a text box, and two handlers around the
    remote comments table. The insert is an oracle answering the stored row
    (with the id the store gave it) or an error message; the delete is an
    oracle answering an error message, or `None` when it succeeded. */
module Comments {
  import opened Common
  import opened Text

  /** A row of the comments table, as the thread shows it. */
  datatype Comment = Comment(id: string, userId: string, answerId: string, content: string)

  /** The row `handleAddComment` sends. */
  datatype CommentInsert = CommentInsert(answerId: string, userId: string, content: string)

  /** `delete().eq("id", commentId).eq("user_id", userId)`. */
  datatype DeleteRequest = DeleteRequest(commentId: string, userId: string)

  /** The callback of the delete filter: `comment.id !== commentId`. */
  function OtherThan(commentId: string): Comment -> bool {
    (c: Comment) => c.id != commentId
  }

  /** `comments.filter((comment) => comment.id !== commentId)`. */
  function WithoutComment(comments: seq<Comment>, commentId: string): (r: seq<Comment>)
    ensures forall c :: c in r <==> c in comments && c.id != commentId
    ensures forall c :: multiset(r)[c] == if c.id != commentId then multiset(comments)[c] else 0
    ensures IsSubsequence(r, comments)
  {
    Filter(comments, OtherThan(commentId))
  }

  /** No two comments of the list share an id. */
  predicate UniqueIds(comments: seq<Comment>) {
    forall i, j :: 0 <= i < j < |comments| ==> comments[i].id != comments[j].id
  }

  /** Adding a comment with a fresh id and then deleting it gives the list
      back. */
  lemma AddThenDelete(c: Comment, comments: seq<Comment>)
    requires forall i :: 0 <= i < |comments| ==> comments[i].id != c.id
    ensures WithoutComment([c] + comments, c.id) == comments
  {
    assert ([c] + comments)[1..] == comments;
    FilterKeepsAll(comments, OtherThan(c.id));
  }

  /** In a list whose ids are distinct, deleting the id of the comment at
      position `k` removes that one comment and keeps the others in order. */
  lemma {:induction false} DeleteRemovesExactlyOne(comments: seq<Comment>, k: nat)
    requires k < |comments| && UniqueIds(comments)
    ensures WithoutComment(comments, comments[k].id) == comments[..k] + comments[k + 1..]
  {
    var id := comments[k].id;
    var tail := comments[1..];
    WithoutFirst(comments, id);
    if k == 0 {
      DeleteHead(comments);
    } else {
      assert comments[0].id != id;
      assert tail[k - 1] == comments[k];
      UniqueTail(comments);
      DeleteRemovesExactlyOne(tail, k - 1);
      SpliceCons(comments, k);
    }
  }

  /** Removing position `k > 0` commutes with taking off the head. */
  lemma SpliceCons(s: seq<Comment>, k: nat)
    requires 0 < k < |s|
    ensures s[..k] + s[k + 1..] == [s[0]] + (s[1..][..k - 1] + s[1..][k..])
  {
    assert s[..k] == [s[0]] + s[1..][..k - 1];
    assert s[k + 1..] == s[1..][k..];
  }

  /** Deleting the head's id from a list with distinct ids drops the head alone. */
  lemma DeleteHead(comments: seq<Comment>)
    requires comments != [] && UniqueIds(comments)
    ensures WithoutComment(comments[1..], comments[0].id) == comments[1..]
  {
    var tail := comments[1..];
    forall i | 0 <= i < |tail| ensures OtherThan(comments[0].id)(tail[i]) {
      assert tail[i] == comments[i + 1];
    }
    FilterKeepsAll(tail, OtherThan(comments[0].id));
  }

  /** Distinct ids stay distinct in the tail. */
  lemma UniqueTail(comments: seq<Comment>)
    requires comments != [] && UniqueIds(comments)
    ensures UniqueIds(comments[1..])
  {
    var tail := comments[1..];
    forall i, j | 0 <= i < j < |tail| ensures tail[i].id != tail[j].id {
      assert tail[i] == comments[i + 1] && tail[j] == comments[j + 1];
    }
  }

  /** One step of the delete filter: the head stays exactly when its id differs. */
  lemma WithoutFirst(comments: seq<Comment>, id: string)
    requires comments != []
    ensures WithoutComment(comments, id) ==
              if comments[0].id != id then [comments[0]] + WithoutComment(comments[1..], id)
              else WithoutComment(comments[1..], id)
  {
  }

  /** The send button's `disabled`: loading, or nothing left after `trim`. */
  predicate SendDisabled(isLoading: bool, text: string) {
    isLoading || Trim(text) == ""
  }

  /** The send button is disabled exactly while loading or while the text box
      holds only white space. */
  lemma SendDisabledMeans(isLoading: bool, text: string)
    ensures SendDisabled(isLoading, text) <==>
              isLoading || forall i :: 0 <= i < |text| ==> IsSpace(text[i])
  {
    TrimEmptyIffAllSpace(text);
  }

  /** The delete button is rendered only on the viewer's own comments. */
  predicate CanDelete(c: Comment, userId: string) {
    c.userId == userId
  }

  class CommentsSection {
    const answerId: string
    const userId: string
    var comments: seq<Comment>
    var newComment: string
    var isLoading: bool

    constructor (answerId: string, userId: string, initialComments: seq<Comment>)
      ensures this.answerId == answerId && this.userId == userId
      ensures comments == initialComments && newComment == "" && !isLoading
    {
      this.answerId := answerId;
      this.userId := userId;
      comments := initialComments;
      newComment := "";
      isLoading := false;
    }

    /** The text box's `onChange`. */
    method Edit(value: string)
      modifies this`newComment
      ensures newComment == value
    {
      newComment := value;
    }

    /** `handleAddComment`: a blank text sends nothing and changes nothing;
        otherwise the trimmed text is inserted, a stored row is put in front
        of the thread and the text box is cleared, and an error leaves both
        as they were and is answered for the toast. Loading ends either way. */
    method HandleAddComment(insert: CommentInsert -> Result<Comment>)
      returns (sent: Option<CommentInsert>, error: Option<string>)
      modifies this`comments, this`newComment, this`isLoading
      ensures Trim(old(newComment)) == "" ==>
                sent == None && error == None && comments == old(comments)
                && newComment == old(newComment) && isLoading == old(isLoading)
      ensures Trim(old(newComment)) != "" ==>
                sent == Some(CommentInsert(answerId, userId, Trim(old(newComment)))) && !isLoading
      ensures Trim(old(newComment)) != "" ==>
                match insert(sent.value)
                case Ok(c) => comments == [c] + old(comments) && newComment == "" && error == None
                case Err(msg) => comments == old(comments) && newComment == old(newComment)
                                 && error == Some(msg)
    {
      if Trim(newComment) == "" {
        return None, None;
      }
      isLoading := true;
      var row := CommentInsert(answerId, userId, Trim(newComment));
      sent := Some(row);
      match insert(row) {
        case Ok(c) =>
          comments := [c] + comments;
          newComment := "";
          error := None;
        case Err(msg) =>
          error := Some(msg);
      }
      isLoading := false;
    }

    /** `handleDeleteComment`: the request names the comment and the viewer;
        when the store reports no error every comment with that id leaves the
        thread, and an error leaves the thread as it was and is answered for
        the toast. */
    method HandleDeleteComment(commentId: string, delete: DeleteRequest -> Option<string>)
      returns (sent: DeleteRequest, error: Option<string>)
      modifies this`comments
      ensures sent == DeleteRequest(commentId, userId) && error == delete(sent)
      ensures error.None? ==> comments == WithoutComment(old(comments), commentId)
      ensures error.Some? ==> comments == old(comments)
    {
      sent := DeleteRequest(commentId, userId);
      error := delete(sent);
      if error.None? {
        comments := WithoutComment(comments, commentId);
      }
    }
  }
}
