/**
 * The checks AddContestHandler.post and EditContestHandler.post make on a
 * contest form before the contest is created or changed: a non-empty name,
 * six token fields read with get_non_negative_int, two dates, and a start
 * that is not after the stop.
 */
module Contests {
  import opened Wrappers
  import opened Arguments

  /** The defaults get_non_negative_int is given for the six token fields. */
  datatype TokenDefaults = TokenDefaults(
    initial: Option<int>, max: Option<int>, total: Option<int>,
    minInterval: Option<int>, genTime: Option<int>, genNumber: Option<int>)

  datatype Tokens = Tokens(
    initial: Option<nat>, max: Option<nat>, total: Option<nat>,
    minInterval: Option<nat>, genTime: Option<nat>, genNumber: Option<nat>)

  /** The six get_non_negative_int calls of the token fields, in the source's order. */
  function TokenReads(args: map<string, string>, d: TokenDefaults): (results: seq<Result<Option<nat>, ArgError>>)
    ensures |results| == 6
  {
    [GetNonNegativeInt(args, "token_initial", d.initial, false),
     GetNonNegativeInt(args, "token_max", d.max, true),
     GetNonNegativeInt(args, "token_total", d.total, true),
     GetNonNegativeInt(args, "token_min_interval", d.minInterval, true),
     GetNonNegativeInt(args, "token_gen_time", d.genTime, true),
     GetNonNegativeInt(args, "token_gen_number", d.genNumber, true)]
  }

  /** The error of the first failed read, if any. */
  function FirstError<T, E>(results: seq<Result<T, E>>): Option<E>
  {
    if results == [] then None
    else if results[0].Err? then Some(results[0].error)
    else FirstError(results[1..])
  }

  /** FirstError is None exactly when every read succeeded. */
  lemma {:induction false} FirstErrorNone<T, E>(results: seq<Result<T, E>>)
    ensures FirstError(results).None? <==> forall k | 0 <= k < |results| :: results[k].Ok?
  {
    if results != [] {
      FirstErrorNone(results[1..]);
      assert forall k | 1 <= k < |results| :: results[k] == results[1..][k - 1];
    }
  }

  /** A failed read preceded only by successful ones is the first error. */
  lemma {:induction false} FirstErrorAt<T, E>(results: seq<Result<T, E>>, k: nat)
    requires k < |results| && results[k].Err?
    requires forall j | 0 <= j < k :: results[j].Ok?
    ensures FirstError(results) == Some(results[k].error)
  {
    if k > 0 {
      assert forall j | 0 <= j < k - 1 :: results[1..][j] == results[j + 1];
      FirstErrorAt(results[1..], k - 1);
    }
  }

  /**
   * The six token fields read in the source's order (the first ValueError
   * ends the try block). Only token_initial is read with allow_empty=False,
   * so an accepted form always sets it.
   */
  function ReadTokens(args: map<string, string>, d: TokenDefaults): (r: Result<Tokens, ArgError>)
    ensures r.Ok? ==> r.value.initial.Some?
    ensures r.Ok? ==> GetNonNegativeInt(args, "token_initial", d.initial, false) == Ok(r.value.initial)
  {
    var results := TokenReads(args, d);
    TokenChain(results[0], results[1], results[2], results[3], results[4], results[5])
  }

  /** The try block of the token fields, over the six results it meets in turn. */
  function TokenChain(initial: Result<Option<nat>, ArgError>, max: Result<Option<nat>, ArgError>,
                      total: Result<Option<nat>, ArgError>, minInterval: Result<Option<nat>, ArgError>,
                      genTime: Result<Option<nat>, ArgError>, genNumber: Result<Option<nat>, ArgError>)
    : Result<Tokens, ArgError>
  {
    var i :- initial;
    var m :- max;
    var t :- total;
    var mi :- minInterval;
    var gt :- genTime;
    var gn :- genNumber;
    Ok(Tokens(i, m, t, mi, gt, gn))
  }

  lemma TokenChainFirstError(results: seq<Result<Option<nat>, ArgError>>)
    requires |results| == 6
    ensures var r := TokenChain(results[0], results[1], results[2], results[3], results[4], results[5]);
            && (r.Err? <==> FirstError(results).Some?)
            && (r.Err? ==> r.error == FirstError(results).value)
            && (r.Ok? ==> r.value == Tokens(results[0].value, results[1].value, results[2].value,
                                            results[3].value, results[4].value, results[5].value))
  {
    FirstErrorNone(results);
    if results[0].Err? {
      FirstErrorAt(results, 0);
    } else if results[1].Err? {
      FirstErrorAt(results, 1);
    } else if results[2].Err? {
      FirstErrorAt(results, 2);
    } else if results[3].Err? {
      FirstErrorAt(results, 3);
    } else if results[4].Err? {
      FirstErrorAt(results, 4);
    } else if results[5].Err? {
      FirstErrorAt(results, 5);
    }
  }

  /**
   * Token reading fails exactly when one of the six reads fails, with the
   * error of the first one that does; otherwise the tokens are the six
   * values read.
   */
  lemma ReadTokensFirstError(args: map<string, string>, d: TokenDefaults)
    ensures var r := ReadTokens(args, d);
            var results := TokenReads(args, d);
            && (r.Err? <==> FirstError(results).Some?)
            && (r.Err? ==> r.error == FirstError(results).value)
            && (r.Ok? ==> r.value == Tokens(results[0].value, results[1].value, results[2].value,
                                            results[3].value, results[4].value, results[5].value))
  {
    TokenChainFirstError(TokenReads(args, d));
  }

  /** Why a contest form is refused, in the order the checks run. */
  datatype ContestError =
    | NoName                        // "No contest name specified"
    | InvalidTokens(cause: ArgError) // "Invalid token field(s)."
    | InvalidDates                  // "Invalid date(s)."
    | EndsBeforeStart               // "Contest ends before it starts"

  datatype ContestForm = ContestForm(
    name: string, description: Option<string>, tokens: Tokens, start: int, stop: int)

  /**
   * The checks shared by both handlers. `start` and `stop` are the parsed
   * "start" and "end" dates, None when strptime refuses one.
   */
  function CheckContestForm(args: map<string, string>, defaults: TokenDefaults,
                            start: Option<int>, stop: Option<int>): (r: Result<ContestForm, ContestError>)
    ensures r.Ok? <==>
              && Lookup(args, "name", "") != ""
              && ReadTokens(args, defaults).Ok?
              && start.Some? && stop.Some? && start.value <= stop.value
    ensures r.Ok? ==>
              && r.value.name == Lookup(args, "name", "") != ""
              && r.value.description == LookupOption(args, "description")
              && r.value.tokens == ReadTokens(args, defaults).value
              && r.value.tokens.initial.Some?
              && Some(r.value.start) == start && Some(r.value.stop) == stop
              && r.value.start <= r.value.stop
    ensures r == Err(NoName) <==> Lookup(args, "name", "") == ""
    ensures r.Err? && r.error.InvalidTokens? <==>
              Lookup(args, "name", "") != "" && ReadTokens(args, defaults).Err?
    ensures r.Err? && r.error.InvalidTokens? ==> r.error.cause == ReadTokens(args, defaults).error
    ensures r == Err(InvalidDates) <==>
              && Lookup(args, "name", "") != ""
              && ReadTokens(args, defaults).Ok?
              && (start.None? || stop.None?)
    ensures r == Err(EndsBeforeStart) <==>
              && Lookup(args, "name", "") != ""
              && ReadTokens(args, defaults).Ok?
              && start.Some? && stop.Some? && start.value > stop.value
  {
    var name := Lookup(args, "name", "");
    if name == "" then Err(NoName)
    else
      var description := LookupOption(args, "description");
      match ReadTokens(args, defaults)
      case Err(e) => Err(InvalidTokens(e))
      case Ok(tokens) =>
        if start.None? || stop.None? then Err(InvalidDates)
        else if start.value > stop.value then Err(EndsBeforeStart)
        else Ok(ContestForm(name, description, tokens, start.value, stop.value))
  }

  /** AddContestHandler reads token_initial with default 0 and the others with None. */
  const AddContestDefaults := TokenDefaults(Some(0), None, None, None, None, None)

  /** AddContestHandler.post: the contest to create, or the message written back. */
  function AddContest(args: map<string, string>, start: Option<int>, stop: Option<int>)
    : (r: Result<ContestForm, ContestError>)
    ensures r.Ok? <==>
              && Lookup(args, "name", "") != ""
              && ReadTokens(args, AddContestDefaults).Ok?
              && start.Some? && stop.Some? && start.value <= stop.value
    ensures r.Ok? ==> r.value.tokens.initial.Some? && r.value.start <= r.value.stop
  {
    CheckContestForm(args, AddContestDefaults, start, stop)
  }

  /** A new contest given no token_initial starts with 0 tokens. */
  lemma AddContestInitialTokensDefault(args: map<string, string>, start: Option<int>, stop: Option<int>)
    requires "token_initial" !in args
    requires AddContest(args, start, stop).Ok?
    ensures AddContest(args, start, stop).value.tokens.initial == Some(0)
  {
    MissingUsesDefault(args, "token_initial", 0, false);
  }

  // -------------------------------------------------------- EditContestHandler

  /** What EditContestHandler.post ends in. */
  datatype EditOutcome =
    | Updated(form: ContestForm)                      // the contest's fields are replaced
    | Notified(subject: string, cause: ContestError)  // add_notification, then redirect
    | Raised(exception: string)                       // the handler raises

  function Subject(e: ContestError): string {
    match e
    case NoName => "No contest name specified"
    case InvalidTokens(_) => "Invalid token field(s)."
    case InvalidDates => "Invalid date(s)."
    case EndsBeforeStart => "Contest ends before it starts"
  }

  /**
   * EditContestHandler.post as written. Its start > stop branch builds the
   * notification text from `repr(e)`, but `e` is bound only by the except
   * clauses above, and reaching that branch means neither ran: the name is
   * unbound and the handler raises UnboundLocalError instead of notifying.
   */
  function EditContestAsWritten(args: map<string, string>, current: TokenDefaults,
                                start: Option<int>, stop: Option<int>): (r: EditOutcome)
    ensures r.Updated? <==> CheckContestForm(args, current, start, stop).Ok?
    ensures r.Raised? <==> CheckContestForm(args, current, start, stop) == Err(EndsBeforeStart)
  {
    match CheckContestForm(args, current, start, stop)
    case Ok(form) => Updated(form)
    case Err(EndsBeforeStart) => Raised("UnboundLocalError")
    case Err(e) => Notified(Subject(e), e)
  }

  /** EditContestHandler.post as evidently intended: every refusal is a notification. */
  function EditContest(args: map<string, string>, current: TokenDefaults,
                       start: Option<int>, stop: Option<int>): (r: EditOutcome)
    ensures !r.Raised?
  {
    match CheckContestForm(args, current, start, stop)
    case Ok(form) => Updated(form)
    case Err(e) => Notified(Subject(e), e)
  }

  /** As written, the edit raises exactly when its last check, start > stop, fails. */
  lemma EditAsWrittenRaisesOnReversedDates(args: map<string, string>, current: TokenDefaults,
                                           start: Option<int>, stop: Option<int>)
    ensures EditContestAsWritten(args, current, start, stop).Raised? <==>
              && Lookup(args, "name", "") != ""
              && ReadTokens(args, current).Ok?
              && start.Some? && stop.Some? && start.value > stop.value
  {
  }

  /**
   * The input that shows it: a named contest whose token fields all fall
   * back to its current values, ending at time 1 after starting at time 2.
   */
  lemma EditAsWrittenCounterexample()
    ensures EditContestAsWritten(map["name" := "c"], TokenDefaults(Some(0), None, None, None, None, None),
                                 Some(2), Some(1)) == Raised("UnboundLocalError")
  {
    var args := map["name" := "c"];
    MissingUsesDefault(args, "token_initial", 0, false);
    MissingWithoutDefault(args, "token_max", true);
    MissingWithoutDefault(args, "token_total", true);
    MissingWithoutDefault(args, "token_min_interval", true);
    MissingWithoutDefault(args, "token_gen_time", true);
    MissingWithoutDefault(args, "token_gen_number", true);
  }

  /**
   * Corrected, the edit changes the contest exactly when the form passes,
   * and otherwise notifies with the subject of the first failed check; in
   * particular a contest that would end before it starts is refused with
   * "Contest ends before it starts".
   */
  lemma EditContestOutcomes(args: map<string, string>, current: TokenDefaults,
                            start: Option<int>, stop: Option<int>)
    ensures var form := CheckContestForm(args, current, start, stop);
            var r := EditContest(args, current, start, stop);
            && (r.Updated? <==> form.Ok?)
            && (r.Updated? ==> r.form == form.value && r.form.start <= r.form.stop)
            && (r.Notified? ==> form == Err(r.cause) && r.subject == Subject(r.cause))
            && (form == Err(EndsBeforeStart) ==> r == Notified("Contest ends before it starts", EndsBeforeStart))
  {
  }
}
