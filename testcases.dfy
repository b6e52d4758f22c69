/**
 * AddTestcaseHandler: a testcase is stored as two files, "input" and
 * "output", each handed to the file storage with its own callback; the
 * handler's successful_calls dictionary joins the two results.
 *
 * As the code has it, the join is only `len(successful_calls) >= 2`: there
 * is no flag marking the upload finished, so an error does not stop a later
 * success from creating the testcase, and a repeated report creates another.
 */
module Testcases {
  import opened Notifications

  /** What a storage callback is told: the stored file's digest, or the error. */
  datatype Report =
    | Stored(data: string, plus: string)  // storage_callback(data, plus) with error None
    | Failed(error: string)               // storage_callback(..., error=error)

  /** The Testcase(input, output, num, public, task) handed to the session. */
  datatype Testcase = Testcase(input: string, output: string, num: nat, public: bool)

  /** What one callback does besides updating successful_calls. */
  datatype Effect =
    | Waiting                               // fewer than two successful calls so far
    | Create(testcase: Testcase)            // the session gets a new testcase
    | MissingKey(key: string)               // successful_calls[key] raises KeyError
    | Notify(subject: string, text: string) // add_notification(time, subject, text)

  const InputTag := "input"
  const OutputTag := "output"
  const StorageFailed := "Testcase storage failed"

  /** successful_calls after the callback: a success stores data under plus. */
  function CallsAfter(calls: map<string, string>, report: Report): map<string, string>
  {
    match report
    case Stored(data, plus) => calls[plus := data]
    case Failed(_) => calls
  }

  /** The body of storage_callback, given successful_calls before it runs. */
  function CallbackEffect(calls: map<string, string>, report: Report, public: bool, testcaseCount: nat)
    : (e: Effect)
    ensures e.Notify? <==> report.Failed?
    ensures e.Create? ==> var after := CallsAfter(calls, report);
              && |after| >= 2 && InputTag in after && OutputTag in after
              && e.testcase == Testcase(after[InputTag], after[OutputTag], testcaseCount, public)
    ensures e.Waiting? <==> report.Stored? && |CallsAfter(calls, report)| < 2
    ensures e.MissingKey? ==> var after := CallsAfter(calls, report);
              && |after| >= 2
              && e.key == (if InputTag !in after then InputTag else OutputTag)
              && e.key !in after
    ensures var after := CallsAfter(calls, report);
            report.Stored? && |after| >= 2 && InputTag in after && OutputTag in after ==> e.Create?
  {
    match report
    case Stored(data, plus) =>
      var joined := calls[plus := data];
      if |joined| >= 2 then
        if InputTag !in joined then MissingKey(InputTag)
        else if OutputTag !in joined then MissingKey(OutputTag)
        else Create(Testcase(joined[InputTag], joined[OutputTag], testcaseCount, public))
      else Waiting
    case Failed(error) => Notify(StorageFailed, error)
  }

  function CreatedBy(e: Effect): seq<Testcase> {
    if e.Create? then [e.testcase] else []
  }

  function NotifiedBy(e: Effect, now: int): seq<Notification> {
    if e.Notify? then [Notification(now, e.subject, e.text)] else []
  }

  class AddTestcaseHandler {
    const server: AdminWebServer
    var public: bool
    var successfulCalls: map<string, string>
    /** The testcases this handler has added to the database session. */
    var added: seq<Testcase>

    constructor (server: AdminWebServer)
      ensures this.server == server
      ensures !public && successfulCalls == map[] && added == []
    {
      this.server := server;
      public := false;
      successfulCalls := map[];
      added := [];
    }

    /**
     * post: clears successful_calls and sends both files; a put_file that
     * fails at once (`inputSent` / `outputSent` false) is reported through
     * the callback with "Connection failed.". The later callbacks of the
     * sends that went out are calls of StorageCallback.
     */
    method Post(public: bool, inputSent: bool, outputSent: bool, now: int)
      modifies this, server
      ensures this.public == public && successfulCalls == map[] && added == old(added)
      ensures server.notifications ==
                old(server.notifications) +
                (if inputSent then [] else [Notification(now, StorageFailed, "Connection failed.")]) +
                (if outputSent then [] else [Notification(now, StorageFailed, "Connection failed.")])
    {
      this.public := public;
      successfulCalls := map[];
      if !inputSent {
        var _ := StorageCallback(Failed("Connection failed."), now, 0);
      }
      if !outputSent {
        var _ := StorageCallback(Failed("Connection failed."), now, 0);
      }
    }

    /**
     * storage_callback at time `now`, while the task has `testcaseCount`
     * testcases.
     */
    method StorageCallback(report: Report, now: int, testcaseCount: nat) returns (effect: Effect)
      modifies this, server
      ensures effect == CallbackEffect(old(successfulCalls), report, old(public), testcaseCount)
      ensures successfulCalls == CallsAfter(old(successfulCalls), report)
      ensures public == old(public)
      ensures added == old(added) + CreatedBy(effect)
      ensures server.notifications == old(server.notifications) + NotifiedBy(effect, now)
    {
      match report {
        case Stored(data, plus) =>
          successfulCalls := successfulCalls[plus := data];
          if |successfulCalls| >= 2 {
            if InputTag !in successfulCalls {
              effect := MissingKey(InputTag);
            } else if OutputTag !in successfulCalls {
              effect := MissingKey(OutputTag);
            } else {
              var t := Testcase(successfulCalls[InputTag], successfulCalls[OutputTag], testcaseCount, public);
              added := added + [t];
              effect := Create(t);
            }
          } else {
            effect := Waiting;
          }
        case Failed(error) =>
          server.AddNotification(now, StorageFailed, error);
          effect := Notify(StorageFailed, error);
      }
    }
  }

  // --------------------------------------------------- a run of callbacks

  /**
   * The testcases created while `reports` are delivered in order, to a task
   * that has `testcaseCount` testcases before the first: each creation is
   * numbered len(self.task.testcases), which counts the ones added before it.
   */
  function CreatedDuring(calls: map<string, string>, reports: seq<Report>, public: bool, testcaseCount: nat)
    : (created: seq<Testcase>)
    ensures |created| <= |reports|
    ensures forall k | 0 <= k < |created| :: created[k].public == public
    decreases |reports|
  {
    if reports == [] then []
    else
      var created := CreatedBy(CallbackEffect(calls, reports[0], public, testcaseCount));
      created + CreatedDuring(CallsAfter(calls, reports[0]), reports[1..], public, testcaseCount + |created|)
  }

  /** The testcases a run creates are numbered consecutively from the task's count. */
  lemma {:induction false} CreatedDuringNumbering(calls: map<string, string>, reports: seq<Report>, public: bool,
                                                 testcaseCount: nat)
    ensures forall k | 0 <= k < |CreatedDuring(calls, reports, public, testcaseCount)| ::
              CreatedDuring(calls, reports, public, testcaseCount)[k].num == testcaseCount + k
    decreases |reports|
  {
    if reports != [] {
      var first := CreatedBy(CallbackEffect(calls, reports[0], public, testcaseCount));
      var rest := CreatedDuring(CallsAfter(calls, reports[0]), reports[1..], public, testcaseCount + |first|);
      CreatedDuringNumbering(CallsAfter(calls, reports[0]), reports[1..], public, testcaseCount + |first|);
      assert |first| <= 1 && (|first| == 1 ==> first[0].num == testcaseCount);
      var created := CreatedDuring(calls, reports, public, testcaseCount);
      assert created == first + rest;
      forall k | 0 <= k < |created|
        ensures created[k].num == testcaseCount + k
      {
        if k >= |first| {
          assert created[k] == rest[k - |first|];
        } else {
          assert created[k] == first[0];
        }
      }
    }
  }

  predicate UploadTags(calls: map<string, string>) {
    forall k | k in calls :: k == InputTag || k == OutputTag
  }

  /**
   * With only the two upload tags as keys, "at least two successful calls"
   * means exactly "both the input and the output are stored".
   */
  lemma JoinedIffBothParts(calls: map<string, string>)
    requires UploadTags(calls)
    ensures |calls| >= 2 <==> InputTag in calls && OutputTag in calls
  {
    if InputTag in calls && OutputTag in calls {
      assert calls.Keys == {InputTag, OutputTag};
    }
    if InputTag !in calls {
      OneTagAtMost(calls, OutputTag);
    } else if OutputTag !in calls {
      OneTagAtMost(calls, InputTag);
    }
  }

  lemma OneTagAtMost(calls: map<string, string>, tag: string)
    requires forall k | k in calls :: k == tag
    ensures |calls| <= 1
  {
    if tag in calls {
      assert calls.Keys == {tag};
    } else {
      assert calls.Keys == {};
    }
  }

  /**
   * For the tags post uses, a success creates a testcase exactly when both
   * parts are then stored, from the stored digests, and never hits the
   * KeyError; an error only yields the "Testcase storage failed" notification.
   */
  lemma CallbackOutcomes(calls: map<string, string>, report: Report, public: bool, testcaseCount: nat)
    requires UploadTags(calls)
    requires report.Stored? ==> report.plus == InputTag || report.plus == OutputTag
    ensures var e := CallbackEffect(calls, report, public, testcaseCount);
            var after := CallsAfter(calls, report);
            && UploadTags(after)
            && !e.MissingKey?
            && (e.Create? <==> report.Stored? && InputTag in after && OutputTag in after)
            && (e.Create? ==> e.testcase == Testcase(after[InputTag], after[OutputTag], testcaseCount, public))
            && (report.Failed? ==> after == calls && e == Notify(StorageFailed, report.error))
  {
    var after := CallsAfter(calls, report);
    assert UploadTags(after);
    JoinedIffBothParts(after);
  }

  /** A repeated success for a tag overwrites its digest rather than adding an entry. */
  lemma RepeatedReportOverwrites(calls: map<string, string>, data: string, plus: string)
    requires plus in calls
    ensures var after := CallsAfter(calls, Stored(data, plus));
            |after| == |calls| && after[plus] == data && after.Keys == calls.Keys
  {
    var after := CallsAfter(calls, Stored(data, plus));
    assert after.Keys == calls.Keys;
  }

  /**
   * No partial testcase: while some part has never been stored, however the
   * other reports interleave, nothing is created.
   */
  lemma {:induction false} NothingCreatedWithoutBothParts(calls: map<string, string>, reports: seq<Report>,
                                                          tag: string, public: bool, testcaseCount: nat)
    requires tag == InputTag || tag == OutputTag
    requires tag !in calls
    requires forall i | 0 <= i < |reports| :: !(reports[i].Stored? && reports[i].plus == tag)
    ensures CreatedDuring(calls, reports, public, testcaseCount) == []
    decreases |reports|
  {
    if reports != [] {
      var after := CallsAfter(calls, reports[0]);
      assert tag !in after;
      NothingCreatedWithoutBothParts(after, reports[1..], tag, public, testcaseCount);
    }
  }

  /** Both parts stored, in either order: exactly one testcase, from their digests. */
  lemma BothPartsCreateOne(inputData: string, outputData: string, inputFirst: bool, public: bool,
                           testcaseCount: nat)
    ensures var reports := if inputFirst then [Stored(inputData, InputTag), Stored(outputData, OutputTag)]
                           else [Stored(outputData, OutputTag), Stored(inputData, InputTag)];
            CreatedDuring(map[], reports, public, testcaseCount) ==
              [Testcase(inputData, outputData, testcaseCount, public)]
  {
    var reports := if inputFirst then [Stored(inputData, InputTag), Stored(outputData, OutputTag)]
                   else [Stored(outputData, OutputTag), Stored(inputData, InputTag)];
    var c1 := CallsAfter(map[], reports[0]);
    assert |c1| == 1 by {
      assert c1.Keys == {reports[0].plus};
    }
    var c2 := CallsAfter(c1, reports[1]);
    assert c2 == map[InputTag := inputData, OutputTag := outputData];
    assert |c2| == 2 by {
      assert c2.Keys == {InputTag, OutputTag};
    }
    assert CallbackEffect(c1, reports[1], public, testcaseCount) ==
           Create(Testcase(inputData, outputData, testcaseCount, public));
    assert reports[1..][1..] == [];
    assert CreatedDuring(c1, reports[1..], public, testcaseCount) ==
           [Testcase(inputData, outputData, testcaseCount, public)];
  }

  /**
   * No terminal state: after the output's error, a late success for the
   * output still joins with the stored input and creates the testcase.
   */
  lemma LateSuccessAfterErrorCreates(inputData: string, outputData: string, error: string, public: bool,
                                     testcaseCount: nat)
    ensures CreatedDuring(map[], [Stored(inputData, InputTag), Failed(error), Stored(outputData, OutputTag)],
                          public, testcaseCount) ==
            [Testcase(inputData, outputData, testcaseCount, public)]
  {
    var reports := [Stored(inputData, InputTag), Failed(error), Stored(outputData, OutputTag)];
    var c1 := map[InputTag := inputData];
    assert |c1| == 1 by {
      assert c1.Keys == {InputTag};
    }
    assert CallsAfter(map[], reports[0]) == c1;
    assert CallbackEffect(map[], reports[0], public, testcaseCount) == Waiting;
    var c3 := map[InputTag := inputData, OutputTag := outputData];
    assert |c3| == 2 by {
      assert c3.Keys == {InputTag, OutputTag};
    }
    assert CallsAfter(c1, reports[2]) == c3;
    assert reports[1..][1..] == [reports[2]];
    assert [reports[2]][1..] == [];
    assert CreatedDuring(c1, [reports[2]], public, testcaseCount) ==
           [Testcase(inputData, outputData, testcaseCount, public)];
    assert CreatedDuring(c1, reports[1..], public, testcaseCount) ==
           [Testcase(inputData, outputData, testcaseCount, public)];
  }

  /**
   * No exactly-once guarantee in the callback's bookkeeping: a second report
   * after the join creates a second testcase, numbered after the first.
   */
  lemma RepeatedReportCreatesAgain(inputData: string, outputData: string, outputAgain: string, public: bool,
                                   testcaseCount: nat)
    ensures CreatedDuring(map[], [Stored(inputData, InputTag), Stored(outputData, OutputTag),
                                  Stored(outputAgain, OutputTag)], public, testcaseCount) ==
            [Testcase(inputData, outputData, testcaseCount, public),
             Testcase(inputData, outputAgain, testcaseCount + 1, public)]
  {
    var reports := [Stored(inputData, InputTag), Stored(outputData, OutputTag), Stored(outputAgain, OutputTag)];
    var c1 := map[InputTag := inputData];
    assert |c1| == 1 by {
      assert c1.Keys == {InputTag};
    }
    assert CallsAfter(map[], reports[0]) == c1;
    var c2 := map[InputTag := inputData, OutputTag := outputData];
    assert |c2| == 2 by {
      assert c2.Keys == {InputTag, OutputTag};
    }
    assert CallsAfter(c1, reports[1]) == c2;
    var c3 := map[InputTag := inputData, OutputTag := outputAgain];
    assert |c3| == 2 by {
      assert c3.Keys == {InputTag, OutputTag};
    }
    assert CallsAfter(c2, reports[2]) == c3;
    assert reports[1..][1..] == [reports[2]];
    assert [reports[2]][1..] == [];
    assert CreatedDuring(c2, [reports[2]], public, testcaseCount + 1) ==
           [Testcase(inputData, outputAgain, testcaseCount + 1, public)];
    assert CreatedDuring(c1, reports[1..], public, testcaseCount) ==
           [Testcase(inputData, outputData, testcaseCount, public),
            Testcase(inputData, outputAgain, testcaseCount + 1, public)];
  }
}
