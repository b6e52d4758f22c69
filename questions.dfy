/**
 * Contestants' questions and QuestionReplyHandler.post's reply rule.
 */
module Questions {
  import opened Wrappers
  import Arguments

  /** The Question fields the admin server reads and writes. */
  datatype Question = Question(
    questionTimestamp: int,
    replyTimestamp: Option<int>,
    subject: string,
    text: string,
    replySubject: string,
    replyText: string)

  /** The query filter `Question.reply_timestamp == None`. */
  predicate Unanswered(q: Question) {
    q.replyTimestamp.None?
  }

  /**
   * QuestionReplyHandler.post on question `q` at time `now`: a quick-answer
   * code found in `quickAnswers` sets the subject from the table and drops
   * the long text; any other code leaves an empty subject and keeps the text.
   */
  function ReplyTo(q: Question, args: map<string, string>, quickAnswers: map<string, string>,
                   now: int): (r: Question)
    ensures !Unanswered(r) && r.replyTimestamp == Some(now)
    ensures var code := Arguments.Lookup(args, "reply_question_quick_answer", "");
            if code in quickAnswers
            then r.replySubject == quickAnswers[code] && r.replyText == ""
            else r.replySubject == "" && r.replyText == Arguments.Lookup(args, "reply_question_text", "")
    ensures r.questionTimestamp == q.questionTimestamp && r.subject == q.subject && r.text == q.text
  {
    var code := Arguments.Lookup(args, "reply_question_quick_answer", "");
    var longText := Arguments.Lookup(args, "reply_question_text", "");
    if code !in quickAnswers then
      q.(replySubject := "", replyText := longText, replyTimestamp := Some(now))
    else
      q.(replySubject := quickAnswers[code], replyText := "", replyTimestamp := Some(now))
  }

  /** A reply never carries both a quick-answer subject and a long text. */
  lemma ReplyIsQuickOrLong(q: Question, args: map<string, string>, quickAnswers: map<string, string>,
                           now: int)
    ensures var r := ReplyTo(q, args, quickAnswers, now);
            r.replySubject == "" || r.replyText == ""
  {
  }
}
