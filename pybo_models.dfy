/**
 * The board's tables as the services see them: questions, answers and
 * comments, each keyed by id, with the author of every row and the set of
 * users who voted for a question or an answer. Ids are handed out from a
 * counter per table, as an auto-increment primary key does, and `now` is an
 * abstract clock that advances by one on every read.
 */
module PyboModels {
  import opened Wrappers
  import opened Exceptions
  import Text

  datatype Question = Question(
    id: nat, subject: string, content: string, author: nat,
    createDate: nat, modifyDate: Option<nat>, image: Option<string>, voters: set<nat>)

  datatype Answer = Answer(
    id: nat, question: nat, content: string, author: nat,
    createDate: nat, modifyDate: Option<nat>, voters: set<nat>)

  /** A comment hangs under a question or under an answer. */
  datatype CommentTarget = OnQuestion(questionId: nat) | OnAnswer(answerId: nat)

  datatype Comment = Comment(
    id: nat, target: CommentTarget, content: string, author: nat,
    createDate: nat, modifyDate: Option<nat>)

  /** `f"{kind} with ID {id} not found"`, the message of every not-found error the services raise. */
  function NotFoundMessage(kind: string, id: nat): (msg: string)
    ensures msg != ""
  {
    kind + " with ID " + Text.NatToString(id) + " not found"
  }

  /** The ResourceNotFoundException every service raises for a missing row of table `kind`. */
  function NotFoundError(kind: string, id: nat): (e: AppException)
    ensures e.kind == ResourceNotFound && e.statusCode == 404 && Str(e) == NotFoundMessage(kind, id)
  {
    NotFound(NotFoundMessage(kind, id))
  }

  /** The not-found messages of different ids differ, so the message identifies the missing row. */
  lemma NotFoundMessagesDistinct(kind: string, m: nat, n: nat)
    requires m != n
    ensures NotFoundMessage(kind, m) != NotFoundMessage(kind, n)
  {
    var a, b := NotFoundMessage(kind, m), NotFoundMessage(kind, n);
    if a == b {
      var p := kind + " with ID ";
      var sm, sn := Text.NatToString(m), Text.NatToString(n);
      assert a == p + sm + " not found" && b == p + sn + " not found";
      assert |sm| == |sn|;
      assert a[..|p| + |sm|] == p + sm;
      assert b[..|p| + |sn|] == p + sn;
      Text.PrefixedNatInjective(p, m, n);
    }
  }

  /** `voter.add(user)`: a set insertion, with no exclusion of the author. */
  function Voted(voters: set<nat>, user: nat): (r: set<nat>)
    ensures user in r && voters <= r && r - voters <= {user}
  {
    voters + {user}
  }

  /** Voting twice is the same as voting once. */
  lemma VoteIdempotent(voters: set<nat>, user: nat)
    ensures Voted(Voted(voters, user), user) == Voted(voters, user)
  {
  }

  /** Each table maps an id to the row carrying that id, and every id is below the table's counter. */
  ghost predicate KeyedBelow<T>(table: map<nat, T>, idOf: T -> nat, next: nat)
  {
    forall id :: id in table ==> idOf(table[id]) == id && id < next
  }

  class Board {
    var questions: map<nat, Question>
    var answers: map<nat, Answer>
    var comments: map<nat, Comment>
    var nextQuestionId: nat
    var nextAnswerId: nat
    var nextCommentId: nat
    var clock: nat

    ghost predicate Valid()
      reads this
    {
      && KeyedBelow(questions, (q: Question) => q.id, nextQuestionId)
      && KeyedBelow(answers, (a: Answer) => a.id, nextAnswerId)
      && KeyedBelow(comments, (c: Comment) => c.id, nextCommentId)
    }

    constructor ()
      ensures Valid()
      ensures questions == map[] && answers == map[] && comments == map[]
    {
      questions, answers, comments := map[], map[], map[];
      nextQuestionId, nextAnswerId, nextCommentId := 1, 1, 1;
      clock := 0;
    }

    /** `timezone.now()`. */
    method Now() returns (t: nat)
      modifies this`clock
      ensures clock == old(clock) + 1 && t == clock
    {
      clock := clock + 1;
      t := clock;
    }
  }
}
