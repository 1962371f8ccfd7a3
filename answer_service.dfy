/**
 * The answer service: create an answer under an existing question, look
 * up, edit, delete and vote for an answer. Editing and deleting are allowed
 * to the answer's author only.
 */
module AnswerService {
  import opened Wrappers
  import opened Exceptions
  import opened PyboModels

  const NotAuthorMessage: string := "You are not the author of this answer"

  /** `create_answer`: ResourceNotFound and nothing created when the question is missing. */
  method CreateAnswer(db: Board, questionId: nat, content: string, user: nat) returns (r: Result<Answer>)
    requires db.Valid()
    modifies db
    ensures db.Valid()
    ensures db.nextQuestionId == old(db.nextQuestionId) && db.nextCommentId == old(db.nextCommentId)
    ensures questionId !in old(db.questions) ==>
      r == Err(NotFoundError("Question", questionId)) && unchanged(db)
    ensures questionId in old(db.questions) ==>
      && r.Ok?
      && r.value.id !in old(db.answers)
      && r.value == Answer(r.value.id, questionId, content, user, db.clock, None, {})
      && db.clock == old(db.clock) + 1
      && db.answers == old(db.answers)[r.value.id := r.value]
      && db.questions == old(db.questions) && db.comments == old(db.comments)
  {
    if questionId !in db.questions {
      return Err(NotFoundError("Question", questionId));
    }
    var now := db.Now();
    var a := Answer(db.nextAnswerId, questionId, content, user, now, None, {});
    db.answers := db.answers[a.id := a];
    db.nextAnswerId := db.nextAnswerId + 1;
    r := Ok(a);
  }

  /** `get_answer`: the row with that id, or ResourceNotFound exactly when there is none. */
  function GetAnswer(db: Board, answerId: nat): (r: Result<Answer>)
    reads db
    ensures r.Ok? <==> answerId in db.answers
    ensures r.Ok? ==> r.value == db.answers[answerId]
    ensures r.Err? ==> r.error == NotFoundError("Answer", answerId)
  {
    if answerId in db.answers then Ok(db.answers[answerId]) else Err(NotFoundError("Answer", answerId))
  }

  /** The row after an edit by its author: content replaced and modification time set, all else kept. */
  function Edited(a: Answer, content: string, now: nat): (r: Answer)
    ensures r.id == a.id && r.question == a.question && r.author == a.author
    ensures r.createDate == a.createDate && r.voters == a.voters
    ensures r.content == content && r.modifyDate == Some(now)
  {
    a.(content := content, modifyDate := Some(now))
  }

  /** `modify_answer`. */
  method ModifyAnswer(db: Board, answerId: nat, content: string, user: nat) returns (r: Result<Answer>)
    requires db.Valid()
    modifies db
    ensures db.Valid()
    ensures db.nextQuestionId == old(db.nextQuestionId) && db.nextAnswerId == old(db.nextAnswerId) && db.nextCommentId == old(db.nextCommentId)
    ensures answerId !in old(db.answers) ==>
      r == Err(NotFoundError("Answer", answerId)) && unchanged(db)
    ensures answerId in old(db.answers) && old(db.answers[answerId]).author != user ==>
      r == Err(Forbidden(NotAuthorMessage)) && unchanged(db)
    ensures answerId in old(db.answers) && old(db.answers[answerId]).author == user ==>
      && db.clock == old(db.clock) + 1
      && r == Ok(Edited(old(db.answers[answerId]), content, db.clock))
      && db.answers == old(db.answers)[answerId := r.value]
      && db.questions == old(db.questions) && db.comments == old(db.comments)
  {
    var found := GetAnswer(db, answerId);
    if found.Err? {
      return Err(found.error);
    }
    if found.value.author != user {
      return Err(Forbidden(NotAuthorMessage));
    }
    var now := db.Now();
    var a := Edited(found.value, content, now);
    db.answers := db.answers[answerId := a];
    r := Ok(a);
  }

  /** `delete_answer`: removes exactly that row, for its author only. */
  method DeleteAnswer(db: Board, answerId: nat, user: nat) returns (r: Result<()>)
    requires db.Valid()
    modifies db
    ensures db.Valid()
    ensures db.nextQuestionId == old(db.nextQuestionId) && db.nextAnswerId == old(db.nextAnswerId) && db.nextCommentId == old(db.nextCommentId)
    ensures db.clock == old(db.clock)
    ensures answerId !in old(db.answers) ==>
      r == Err(NotFoundError("Answer", answerId)) && unchanged(db)
    ensures answerId in old(db.answers) && old(db.answers[answerId]).author != user ==>
      r == Err(Forbidden(NotAuthorMessage)) && unchanged(db)
    ensures answerId in old(db.answers) && old(db.answers[answerId]).author == user ==>
      && r == Ok(())
      && db.answers == old(db.answers) - {answerId}
      && db.questions == old(db.questions) && db.comments == old(db.comments)
  {
    var found := GetAnswer(db, answerId);
    if found.Err? {
      return Err(found.error);
    }
    if found.value.author != user {
      return Err(Forbidden(NotAuthorMessage));
    }
    db.answers := db.answers - {answerId};
    r := Ok(());
  }

  /** `vote_answer`: adds `user` to the voters of an existing answer. */
  method VoteAnswer(db: Board, answerId: nat, user: nat) returns (r: Result<Answer>)
    requires db.Valid()
    modifies db
    ensures db.Valid()
    ensures db.nextQuestionId == old(db.nextQuestionId) && db.nextAnswerId == old(db.nextAnswerId) && db.nextCommentId == old(db.nextCommentId)
    ensures db.clock == old(db.clock)
    ensures answerId !in old(db.answers) ==>
      r == Err(NotFoundError("Answer", answerId)) && unchanged(db)
    ensures answerId in old(db.answers) ==>
      && r == Ok(old(db.answers[answerId]).(voters := Voted(old(db.answers[answerId]).voters, user)))
      && db.answers == old(db.answers)[answerId := r.value]
      && db.questions == old(db.questions) && db.comments == old(db.comments)
  {
    var found := GetAnswer(db, answerId);
    if found.Err? {
      return Err(found.error);
    }
    var a := found.value.(voters := Voted(found.value.voters, user));
    db.answers := db.answers[answerId := a];
    r := Ok(a);
  }
}
