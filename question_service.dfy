/**
 * The question service: look up, create, edit, delete and vote for a
 * question. Editing and deleting are allowed to the question's author only;
 * anyone else gets PermissionDenied and the table is left as it was. A
 * missing id gives ResourceNotFound.
 */
module QuestionService {
  import opened Wrappers
  import opened Exceptions
  import opened PyboModels

  const NotAuthorMessage: string := "You are not the author of this question"

  /** `get_question`: the row with that id, or ResourceNotFound exactly when there is none. */
  function GetQuestion(db: Board, questionId: nat): (r: Result<Question>)
    reads db
    ensures r.Ok? <==> questionId in db.questions
    ensures r.Ok? ==> r.value == db.questions[questionId]
    ensures r.Err? ==> r.error == NotFoundError("Question", questionId)
  {
    if questionId in db.questions then Ok(db.questions[questionId]) else Err(NotFoundError("Question", questionId))
  }

  /** `create_question`: a new row by `user`, created now, never modified, with no votes. */
  method CreateQuestion(db: Board, subject: string, content: string, user: nat, image: Option<string>)
    returns (q: Question)
    requires db.Valid()
    modifies db
    ensures db.Valid()
    ensures db.nextAnswerId == old(db.nextAnswerId) && db.nextCommentId == old(db.nextCommentId)
    ensures q.id !in old(db.questions) && db.questions == old(db.questions)[q.id := q]
    ensures q == Question(q.id, subject, content, user, db.clock, None, image, {})
    ensures db.clock == old(db.clock) + 1
    ensures db.answers == old(db.answers) && db.comments == old(db.comments)
  {
    var now := db.Now();
    q := Question(db.nextQuestionId, subject, content, user, now, None, image, {});
    db.questions := db.questions[q.id := q];
    db.nextQuestionId := db.nextQuestionId + 1;
  }

  /**
   * The row after an edit by its author: subject and content replaced, the
   * image replaced only when one is given, the modification time set; id,
   * author, creation time and votes kept.
   */
  function Edited(q: Question, subject: string, content: string, image: Option<string>, now: nat): (r: Question)
    ensures r.id == q.id && r.author == q.author && r.createDate == q.createDate && r.voters == q.voters
    ensures r.subject == subject && r.content == content && r.modifyDate == Some(now)
    ensures image.None? ==> r.image == q.image
    ensures image.Some? ==> r.image == image
  {
    q.(subject := subject, content := content, image := if image.Some? then image else q.image, modifyDate := Some(now))
  }

  /** `modify_question`. */
  method ModifyQuestion(db: Board, questionId: nat, subject: string, content: string, user: nat, image: Option<string>)
    returns (r: Result<Question>)
    requires db.Valid()
    modifies db
    ensures db.Valid()
    ensures db.nextQuestionId == old(db.nextQuestionId) && db.nextAnswerId == old(db.nextAnswerId) && db.nextCommentId == old(db.nextCommentId)
    ensures questionId !in old(db.questions) ==>
      r == Err(NotFoundError("Question", questionId)) && unchanged(db)
    ensures questionId in old(db.questions) && old(db.questions[questionId]).author != user ==>
      r == Err(Forbidden(NotAuthorMessage)) && unchanged(db)
    ensures questionId in old(db.questions) && old(db.questions[questionId]).author == user ==>
      && db.clock == old(db.clock) + 1
      && r == Ok(Edited(old(db.questions[questionId]), subject, content, image, db.clock))
      && db.questions == old(db.questions)[questionId := r.value]
      && db.answers == old(db.answers) && db.comments == old(db.comments)
  {
    var found := GetQuestion(db, questionId);
    if found.Err? {
      return Err(found.error);
    }
    var q := found.value;
    if q.author != user {
      return Err(Forbidden(NotAuthorMessage));
    }
    var now := db.Now();
    q := Edited(q, subject, content, image, now);
    db.questions := db.questions[questionId := q];
    r := Ok(q);
  }

  /** `delete_question`: removes exactly that row, for its author only. */
  method DeleteQuestion(db: Board, questionId: nat, user: nat) returns (r: Result<()>)
    requires db.Valid()
    modifies db
    ensures db.Valid()
    ensures db.nextQuestionId == old(db.nextQuestionId) && db.nextAnswerId == old(db.nextAnswerId) && db.nextCommentId == old(db.nextCommentId)
    ensures db.clock == old(db.clock)
    ensures questionId !in old(db.questions) ==>
      r == Err(NotFoundError("Question", questionId)) && unchanged(db)
    ensures questionId in old(db.questions) && old(db.questions[questionId]).author != user ==>
      r == Err(Forbidden(NotAuthorMessage)) && unchanged(db)
    ensures questionId in old(db.questions) && old(db.questions[questionId]).author == user ==>
      && r == Ok(())
      && db.questions == old(db.questions) - {questionId}
      && db.answers == old(db.answers) && db.comments == old(db.comments)
  {
    var found := GetQuestion(db, questionId);
    if found.Err? {
      return Err(found.error);
    }
    if found.value.author != user {
      return Err(Forbidden(NotAuthorMessage));
    }
    db.questions := db.questions - {questionId};
    r := Ok(());
  }

  /** `vote_question`: adds `user` to the voters of an existing question; anyone may vote, the author too. */
  method VoteQuestion(db: Board, questionId: nat, user: nat) returns (r: Result<Question>)
    requires db.Valid()
    modifies db
    ensures db.Valid()
    ensures db.nextQuestionId == old(db.nextQuestionId) && db.nextAnswerId == old(db.nextAnswerId) && db.nextCommentId == old(db.nextCommentId)
    ensures db.clock == old(db.clock)
    ensures questionId !in old(db.questions) ==>
      r == Err(NotFoundError("Question", questionId)) && unchanged(db)
    ensures questionId in old(db.questions) ==>
      && r == Ok(old(db.questions[questionId]).(voters := Voted(old(db.questions[questionId]).voters, user)))
      && db.questions == old(db.questions)[questionId := r.value]
      && db.answers == old(db.answers) && db.comments == old(db.comments)
  {
    var found := GetQuestion(db, questionId);
    if found.Err? {
      return Err(found.error);
    }
    var q := found.value.(voters := Voted(found.value.voters, user));
    db.questions := db.questions[questionId := q];
    r := Ok(q);
  }

  /** Creating a question and then deleting it as its author leaves every table as it was. */
  method CreateThenDelete(db: Board, subject: string, content: string, user: nat, image: Option<string>)
    returns (r: Result<()>)
    requires db.Valid()
    modifies db
    ensures db.Valid() && r == Ok(())
    ensures db.questions == old(db.questions) && db.answers == old(db.answers) && db.comments == old(db.comments)
  {
    var q := CreateQuestion(db, subject, content, user, image);
    r := DeleteQuestion(db, q.id, user);
  }
}
