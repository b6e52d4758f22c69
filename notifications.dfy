/**
 * The admin server's notification list (AdminWebServer.notifications and
 * add_notification) and its drain in NotificationsHandler.get.
 */
module Notifications {
  import opened Questions

  /** One pending notification: the tuple (timestamp, subject, text). */
  datatype Notification = Notification(timestamp: int, subject: string, text: string)

  /** The two "type" tags of a polled entry: "new_question" and "notification". */
  datatype EntryKind = NewQuestion | Notice

  function TypeTag(k: EntryKind): string {
    match k
    case NewQuestion => "new_question"
    case Notice => "notification"
  }

  /** One element of the polled list: {"type", "timestamp", "subject", "text"}. */
  datatype Entry = Entry(kind: EntryKind, timestamp: int, subject: string, text: string)

  /** The service object; of its state only the notification list is modelled. */
  class AdminWebServer {
    var notifications: seq<Notification>

    constructor ()
      ensures notifications == []
    {
      notifications := [];
    }

    /** add_notification: one entry at the end, earlier entries untouched. */
    method AddNotification(timestamp: int, subject: string, text: string)
      modifies this
      ensures notifications == old(notifications) + [Notification(timestamp, subject, text)]
    {
      notifications := notifications + [Notification(timestamp, subject, text)];
    }
  }

  // -------------------------------------------------------- the poll's result

  /** The query's filter: unanswered and asked after the client's last poll. */
  predicate IsNew(q: Question, lastNotification: real) {
    Unanswered(q) && q.questionTimestamp as real > lastNotification
  }

  function QuestionEntry(q: Question): Entry {
    Entry(NewQuestion, q.questionTimestamp, q.subject, q.text)
  }

  function NoticeEntry(n: Notification): Entry {
    Entry(Notice, n.timestamp, n.subject, n.text)
  }

  /** The "new_question" entries, in the order the query returns the questions. */
  function NewQuestionEntries(qs: seq<Question>, lastNotification: real): seq<Entry>
  {
    if qs == [] then []
    else
      var q := qs[|qs| - 1];
      NewQuestionEntries(qs[..|qs| - 1], lastNotification) +
      (if IsNew(q, lastNotification) then [QuestionEntry(q)] else [])
  }

  /** The "notification" entries, in append order. */
  function NoticeEntries(ns: seq<Notification>): seq<Entry>
  {
    if ns == [] then [] else NoticeEntries(ns[..|ns| - 1]) + [NoticeEntry(ns[|ns| - 1])]
  }

  /** What a client reads back as notifications: the "notification" entries, untagged. */
  function NoticesOf(es: seq<Entry>): seq<Notification>
  {
    if es == [] then []
    else
      NoticesOf(es[..|es| - 1]) +
      (var e := es[|es| - 1]; if e.kind == Notice then [Notification(e.timestamp, e.subject, e.text)] else [])
  }

  /**
   * NotificationsHandler.get: the new unanswered questions, then every
   * pending notification; afterwards the list is empty. `questions` is the
   * question table as the query sees it, and `lastNotification` the client's
   * "last_notification" argument.
   */
  method GetNotifications(server: AdminWebServer, questions: seq<Question>, lastNotification: real)
    returns (res: seq<Entry>)
    modifies server
    ensures res == NewQuestionEntries(questions, lastNotification) + NoticeEntries(old(server.notifications))
    ensures server.notifications == []
  {
    res := [];
    var i := 0;
    while i < |questions|
      invariant 0 <= i <= |questions|
      invariant res == NewQuestionEntries(questions[..i], lastNotification)
    {
      var question := questions[i];
      assert questions[..i + 1][..i] == questions[..i];
      if IsNew(question, lastNotification) {
        res := res + [QuestionEntry(question)];
      }
      i := i + 1;
    }
    assert questions[..i] == questions;
    ghost var fromQuestions := res;
    var pending := server.notifications;
    var j := 0;
    while j < |pending|
      invariant 0 <= j <= |pending|
      invariant res == fromQuestions + NoticeEntries(pending[..j])
    {
      assert pending[..j + 1][..j] == pending[..j];
      res := res + [NoticeEntry(pending[j])];
      j := j + 1;
    }
    assert pending[..j] == pending;
    server.notifications := [];
  }

  // ------------------------------------------------------------------ lemmas

  lemma {:induction false} NoticesOfAppend(a: seq<Entry>, b: seq<Entry>)
    ensures NoticesOf(a + b) == NoticesOf(a) + NoticesOf(b)
    decreases |b|
  {
    if b != [] {
      assert (a + b)[..|a + b| - 1] == a + b[..|b| - 1];
      NoticesOfAppend(a, b[..|b| - 1]);
    } else {
      assert a + b == a;
    }
  }

  lemma {:induction false} NoQuestionIsANotice(qs: seq<Question>, lastNotification: real)
    ensures NoticesOf(NewQuestionEntries(qs, lastNotification)) == []
  {
    if qs != [] {
      var q := qs[|qs| - 1];
      NoQuestionIsANotice(qs[..|qs| - 1], lastNotification);
      NoticesOfAppend(NewQuestionEntries(qs[..|qs| - 1], lastNotification),
                      if IsNew(q, lastNotification) then [QuestionEntry(q)] else []);
    }
  }

  /** Tagging the notifications and reading them back gives them unchanged. */
  lemma {:induction false} NoticesRoundTrip(ns: seq<Notification>)
    ensures |NoticeEntries(ns)| == |ns|
    ensures NoticesOf(NoticeEntries(ns)) == ns
  {
    if ns != [] {
      var init := ns[..|ns| - 1];
      NoticesRoundTrip(init);
      NoticesOfAppend(NoticeEntries(init), [NoticeEntry(ns[|ns| - 1])]);
      assert init + [ns[|ns| - 1]] == ns;
    }
  }

  /**
   * A poll hands the client every pending notification exactly once and in
   * append order: the "notification" entries of the result are the list.
   */
  lemma PollDeliversPendingInOrder(qs: seq<Question>, lastNotification: real, ns: seq<Notification>)
    ensures NoticesOf(NewQuestionEntries(qs, lastNotification) + NoticeEntries(ns)) == ns
  {
    NoticesOfAppend(NewQuestionEntries(qs, lastNotification), NoticeEntries(ns));
    NoQuestionIsANotice(qs, lastNotification);
    NoticesRoundTrip(ns);
  }

  /** Membership in the "new_question" entries, both directions. */
  lemma {:induction false} NewQuestionEntriesMembers(qs: seq<Question>, lastNotification: real, e: Entry)
    ensures e in NewQuestionEntries(qs, lastNotification) <==>
              exists i | 0 <= i < |qs| :: IsNew(qs[i], lastNotification) && e == QuestionEntry(qs[i])
  {
    if qs != [] {
      var init := qs[..|qs| - 1];
      NewQuestionEntriesMembers(init, lastNotification, e);
      if e in NewQuestionEntries(init, lastNotification) {
        var i :| 0 <= i < |init| && IsNew(init[i], lastNotification) && e == QuestionEntry(init[i]);
        assert qs[i] == init[i];
      }
      if exists i | 0 <= i < |qs| :: IsNew(qs[i], lastNotification) && e == QuestionEntry(qs[i]) {
        var i :| 0 <= i < |qs| && IsNew(qs[i], lastNotification) && e == QuestionEntry(qs[i]);
        if i < |init| {
          assert init[i] == qs[i];
        }
      }
    }
  }

  lemma {:induction false} NewQuestionEntriesAppend(a: seq<Question>, b: seq<Question>, lastNotification: real)
    ensures NewQuestionEntries(a + b, lastNotification) ==
              NewQuestionEntries(a, lastNotification) + NewQuestionEntries(b, lastNotification)
    decreases |b|
  {
    if b == [] {
      assert a + b == a;
    } else {
      assert (a + b)[..|a + b| - 1] == a + b[..|b| - 1];
      NewQuestionEntriesAppend(a, b[..|b| - 1], lastNotification);
    }
  }

  /**
   * Once question i is answered, polls no longer announce it: the entries are
   * those of the other questions, in order.
   */
  lemma RepliedQuestionLeavesPoll(qs: seq<Question>, i: nat, args: map<string, string>,
                                  quickAnswers: map<string, string>, now: int, lastNotification: real)
    requires i < |qs|
    ensures NewQuestionEntries(qs[i := ReplyTo(qs[i], args, quickAnswers, now)], lastNotification) ==
              NewQuestionEntries(qs[..i], lastNotification) + NewQuestionEntries(qs[i + 1..], lastNotification)
  {
    var r := ReplyTo(qs[i], args, quickAnswers, now);
    var updated := qs[i := r];
    assert updated == qs[..i] + [r] + qs[i + 1..];
    NewQuestionEntriesAppend(qs[..i] + [r], qs[i + 1..], lastNotification);
    NewQuestionEntriesAppend(qs[..i], [r], lastNotification);
    assert [r][..0] == [];
  }

  /**
   * Two polls with no add_notification between them: the first returns the
   * pending notifications, the second none.
   */
  method PollTwice(server: AdminWebServer, qs1: seq<Question>, qs2: seq<Question>, last1: real, last2: real)
    returns (first: seq<Entry>, second: seq<Entry>)
    modifies server
    ensures NoticesOf(first) == old(server.notifications)
    ensures NoticesOf(second) == []
    ensures server.notifications == []
  {
    first := GetNotifications(server, qs1, last1);
    PollDeliversPendingInOrder(qs1, last1, old(server.notifications));
    second := GetNotifications(server, qs2, last2);
    PollDeliversPendingInOrder(qs2, last2, []);
  }
}
