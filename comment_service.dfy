/**
 * The comment service: create a comment under an existing question or
 * answer, look up, edit and delete a comment. Editing and deleting are
 * allowed to the comment's author only.
 */
module CommentService {
  import opened Wrappers
  import opened Exceptions
  import opened PyboModels

  const NotAuthorMessage: string := "You are not the author of this comment"

  /** Inserts a new comment by `user` on `target`, created now. */
  method Insert(db: Board, target: CommentTarget, content: string, user: nat) returns (c: Comment)
    requires db.Valid()
    modifies db
    ensures db.Valid()
    ensures db.nextQuestionId == old(db.nextQuestionId) && db.nextAnswerId == old(db.nextAnswerId)
    ensures c.id !in old(db.comments)
    ensures c == Comment(c.id, target, content, user, db.clock, None)
    ensures db.clock == old(db.clock) + 1
    ensures db.comments == old(db.comments)[c.id := c]
    ensures db.questions == old(db.questions) && db.answers == old(db.answers)
  {
    var now := db.Now();
    c := Comment(db.nextCommentId, target, content, user, now, None);
    db.comments := db.comments[c.id := c];
    db.nextCommentId := db.nextCommentId + 1;
  }

  /** `create_question_comment`: attached to the question, not to an answer. */
  method CreateQuestionComment(db: Board, questionId: nat, content: string, user: nat) returns (r: Result<Comment>)
    requires db.Valid()
    modifies db
    ensures db.Valid()
    ensures db.nextQuestionId == old(db.nextQuestionId) && db.nextAnswerId == old(db.nextAnswerId)
    ensures questionId !in old(db.questions) ==>
      r == Err(NotFoundError("Question", questionId)) && unchanged(db)
    ensures questionId in old(db.questions) ==>
      && r.Ok?
      && r.value.id !in old(db.comments)
      && r.value == Comment(r.value.id, OnQuestion(questionId), content, user, db.clock, None)
      && db.clock == old(db.clock) + 1
      && db.comments == old(db.comments)[r.value.id := r.value]
      && db.questions == old(db.questions) && db.answers == old(db.answers)
  {
    if questionId !in db.questions {
      return Err(NotFoundError("Question", questionId));
    }
    var c := Insert(db, OnQuestion(questionId), content, user);
    r := Ok(c);
  }

  /** `create_answer_comment`: attached to the answer. */
  method CreateAnswerComment(db: Board, answerId: nat, content: string, user: nat) returns (r: Result<Comment>)
    requires db.Valid()
    modifies db
    ensures db.Valid()
    ensures db.nextQuestionId == old(db.nextQuestionId) && db.nextAnswerId == old(db.nextAnswerId)
    ensures answerId !in old(db.answers) ==>
      r == Err(NotFoundError("Answer", answerId)) && unchanged(db)
    ensures answerId in old(db.answers) ==>
      && r.Ok?
      && r.value.id !in old(db.comments)
      && r.value == Comment(r.value.id, OnAnswer(answerId), content, user, db.clock, None)
      && db.clock == old(db.clock) + 1
      && db.comments == old(db.comments)[r.value.id := r.value]
      && db.questions == old(db.questions) && db.answers == old(db.answers)
  {
    if answerId !in db.answers {
      return Err(NotFoundError("Answer", answerId));
    }
    var c := Insert(db, OnAnswer(answerId), content, user);
    r := Ok(c);
  }

  /** `get_comment`: the row with that id, or ResourceNotFound exactly when there is none. */
  function GetComment(db: Board, commentId: nat): (r: Result<Comment>)
    reads db
    ensures r.Ok? <==> commentId in db.comments
    ensures r.Ok? ==> r.value == db.comments[commentId]
    ensures r.Err? ==> r.error == NotFoundError("Comment", commentId)
  {
    if commentId in db.comments then Ok(db.comments[commentId]) else Err(NotFoundError("Comment", commentId))
  }

  /** The row after an edit by its author: content replaced and modification time set, all else kept. */
  function Edited(c: Comment, content: string, now: nat): (r: Comment)
    ensures r.id == c.id && r.target == c.target && r.author == c.author && r.createDate == c.createDate
    ensures r.content == content && r.modifyDate == Some(now)
  {
    c.(content := content, modifyDate := Some(now))
  }

  /** `modify_comment`. */
  method ModifyComment(db: Board, commentId: nat, content: string, user: nat) returns (r: Result<Comment>)
    requires db.Valid()
    modifies db
    ensures db.Valid()
    ensures db.nextQuestionId == old(db.nextQuestionId) && db.nextAnswerId == old(db.nextAnswerId) && db.nextCommentId == old(db.nextCommentId)
    ensures commentId !in old(db.comments) ==>
      r == Err(NotFoundError("Comment", commentId)) && unchanged(db)
    ensures commentId in old(db.comments) && old(db.comments[commentId]).author != user ==>
      r == Err(Forbidden(NotAuthorMessage)) && unchanged(db)
    ensures commentId in old(db.comments) && old(db.comments[commentId]).author == user ==>
      && db.clock == old(db.clock) + 1
      && r == Ok(Edited(old(db.comments[commentId]), content, db.clock))
      && db.comments == old(db.comments)[commentId := r.value]
      && db.questions == old(db.questions) && db.answers == old(db.answers)
  {
    var found := GetComment(db, commentId);
    if found.Err? {
      return Err(found.error);
    }
    if found.value.author != user {
      return Err(Forbidden(NotAuthorMessage));
    }
    var now := db.Now();
    var c := Edited(found.value, content, now);
    db.comments := db.comments[commentId := c];
    r := Ok(c);
  }

  /** `delete_comment`: removes exactly that row, for its author only. */
  method DeleteComment(db: Board, commentId: nat, user: nat) returns (r: Result<()>)
    requires db.Valid()
    modifies db
    ensures db.Valid()
    ensures db.nextQuestionId == old(db.nextQuestionId) && db.nextAnswerId == old(db.nextAnswerId) && db.nextCommentId == old(db.nextCommentId)
    ensures db.clock == old(db.clock)
    ensures commentId !in old(db.comments) ==>
      r == Err(NotFoundError("Comment", commentId)) && unchanged(db)
    ensures commentId in old(db.comments) && old(db.comments[commentId]).author != user ==>
      r == Err(Forbidden(NotAuthorMessage)) && unchanged(db)
    ensures commentId in old(db.comments) && old(db.comments[commentId]).author == user ==>
      && r == Ok(())
      && db.comments == old(db.comments) - {commentId}
      && db.questions == old(db.questions) && db.answers == old(db.answers)
  {
    var found := GetComment(db, commentId);
    if found.Err? {
      return Err(found.error);
    }
    if found.value.author != user {
      return Err(Forbidden(NotAuthorMessage));
    }
    db.comments := db.comments - {commentId};
    r := Ok(());
  }
}
