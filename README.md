# Admin web server of the contest management system, modelled in Dafny

The admin web server is the administrators' front end to CMS. It forwards
some RPCs from the browser to backend services. It signals asynchronous
failures through a list of notifications that the browser polls. It joins
the two file uploads that make up a testcase. It checks the contest, task,
user and question forms it receives.

This project models the decision and state logic of
`cms/cms/server/AdminWebServer.py`. Each module follows one part of the file:

- `Wrappers`: `Option` and `Result`.
- `Arguments`: request arguments as a map, Python's `repr` of an int or None and
  `int()` on a string, and `BaseHandler.get_non_negative_int`.
- `Rpc`: `ServiceCoord` and `AdminWebServer.authorized_rpc`, proved against an
  explicit allow-list table.
- `Questions`: the question record and the reply rule of `QuestionReplyHandler.post`.
- `Notifications`: the class `AdminWebServer` with its `notifications` list and
  `add_notification`. Also `NotificationsHandler.get` as the method
  `GetNotifications`, which builds the reply with two loops and empties the list.
- `Testcases`: the class `AddTestcaseHandler` with its `successful_calls` map
  and `post`/`storage_callback`, plus the testcases it adds to the session.
  A function `CreatedDuring` replays any sequence of callbacks.
- `Contests`: the checks of `AddContestHandler.post` and `EditContestHandler.post`.
- `Tasks`: the task-type parameters of `AddTaskHandler.post`, the "simple"
  submission format, and the `%l` substitution of `SubmissionFileHandler.get`.
- `Users`: the duplicate-username loop of `UserViewHandler.post` and `AddUserHandler.post`.

Inputs from outside the file are parameters:
- database query results (the question table, the task's testcase count, the
  contest's current token values);
- the clock (`now`);
- the parsed dates;
- whether `put_file` accepted a call.

Three behaviours of the code are worth stating up front:

- Upload join: `storage_callback` keeps no expected tag set, no flag
  marking the upload finished and no record of an earlier failure. It
  creates a testcase as soon as `len(successful_calls) >= 2`. In its
  bookkeeping, a late success after an error still joins with the stored
  part (`LateSuccessAfterErrorCreates`). A repeated report after the join
  yields a second testcase, numbered after the first
  (`RepeatedReportCreatesAgain`). The handler itself finishes its request
  at the first redirect, and what it does after that is not modelled (see
  "Left out").
- Authorization: `authorized_rpc` compares whole coordinates for
  EvaluationService and LogService, so only shard 0 of each is admitted.
  For ResourceService it tests the name alone, so every shard is admitted.
- Notification drain: the server handles one request at a time on one
  thread, so the drain is modelled as sequential steps.

## Model

| member | source | states |
|---|---|---|
| `Arguments.GetNonNegativeInt` | cms/cms/server/AdminWebServer.py:113-134 | Returns None exactly when empty values are allowed and the argument (or `repr(default)`) is `""` or `"None"`. Returns a number only if `int()` of the argument gives it. Raises ValueError exactly when the value is not empty-allowed and fails to parse or is negative. The cast error is raised exactly when it fails to parse, and "<name> is negative." exactly when it parses to a negative number; no other error occurs. |
| `Arguments.ParseInt` | cms/cms/server/AdminWebServer.py:127-131 | `int()` on a string: a result only for an optional sign followed by at least one ASCII digit, so an empty string never parses. Its partner is `ParseIntRoundTrip`. |
| `Arguments.Repr` | cms/cms/server/AdminWebServer.py:123 | `repr` of a default that is None or an int: an int's repr reads back through `ParseInt` as the same int, and "None" never parses. |
| `Arguments.ParseIntRoundTrip` | cms/cms/server/AdminWebServer.py:123-128 | `int(repr(n)) == n` for every int n, negative ones included. |
| `Arguments.GivenNatIsRead` | cms/cms/server/AdminWebServer.py:127-134 | An argument spelling n >= 0 in decimal is returned as n, whatever the default and allow_empty. |
| `Arguments.GivenNegativeIsRefused` | cms/cms/server/AdminWebServer.py:132-133 | An argument spelling a negative number raises "<name> is negative.". |
| `Arguments.MissingUsesDefault` | cms/cms/server/AdminWebServer.py:123-134 | A missing argument with int default d gives d when d >= 0, and "<name> is negative." when d < 0. |
| `Arguments.MissingWithoutDefault` | cms/cms/server/AdminWebServer.py:123-131 | A missing argument with default None gives None when empty values are allowed. It raises the cast error on "None" when they are not. |
| `Rpc.AuthorizedRpc` | cms/cms/server/AdminWebServer.py:168-197 | The gate itself: it admits only shard 0 or a ResourceService shard, and only one of the six listed method names. Its all-inputs partner is `AuthorizedExactlyWhenListed`. |
| `Rpc.AuthorizedExactlyWhenListed` | cms/cms/server/AdminWebServer.py:168-197 | authorized_rpc is True exactly for the six allow-list pairs, for any arguments: EvaluationService shard 0 with submissions_status, queue_status or workers_status; LogService shard 0 with last_messages; ResourceService on any shard with get_resources or kill_service. |
| `Rpc.OtherShardsDenied` | cms/cms/server/AdminWebServer.py:178-188 | EvaluationService and LogService are denied on every shard other than 0, for every method. |
| `Rpc.ResourceServiceAnyShard` | cms/cms/server/AdminWebServer.py:190-194 | On every ResourceService shard, exactly get_resources and kill_service are allowed. |
| `Rpc.UnlistedServiceDenied` | cms/cms/server/AdminWebServer.py:196-197 | A service not named in the gate is always denied (fail-closed). |
| `Questions.ReplyTo` | cms/cms/server/AdminWebServer.py:1048-1061 | A quick-answer code found in the table sets the reply subject from the table and clears the reply text. Any other code leaves an empty subject and keeps the long text. The question is then answered at `now`, and its timestamp, subject and text are kept. |
| `Questions.ReplyIsQuickOrLong` | cms/cms/server/AdminWebServer.py:1053-1059 | A reply never carries both a quick-answer subject and a long text. |
| `Notifications.AdminWebServer.constructor` | cms/cms/server/AdminWebServer.py:148-149 | The server starts with no pending notification. |
| `Notifications.AdminWebServer.AddNotification` | cms/cms/server/AdminWebServer.py:199-208 | The list afterwards is the old list plus exactly one entry (timestamp, subject, text) at its end. |
| `Notifications.GetNotifications` | cms/cms/server/AdminWebServer.py:1168-1193 | The reply is the unanswered questions newer than last_notification, in query order, then every pending notification tagged "notification" in append order. The list is then empty. |
| `Notifications.NewQuestionEntriesMembers` | cms/cms/server/AdminWebServer.py:1174-1183 | An entry is among the "new_question" entries if and only if it is the entry of some unanswered question with `question_timestamp > last_notification`. |
| `Notifications.NoticesRoundTrip` | cms/cms/server/AdminWebServer.py:1186-1190 | Tagging the pending notifications and reading the tagged entries back gives the same list, of the same length. |
| `Notifications.PollDeliversPendingInOrder` | cms/cms/server/AdminWebServer.py:1185-1191 | The "notification" entries of a poll's reply are exactly the pending notifications, in append order. The question entries add none. |
| `Notifications.RepliedQuestionLeavesPoll` | cms/cms/server/AdminWebServer.py:1174-1177 | Once question i is replied to, later polls list the entries of the other questions only, in order. |
| `Notifications.PollTwice` | cms/cms/server/AdminWebServer.py:1186-1191 | Two polls with no add_notification between them: the first reply carries every pending notification, the second carries none. |
| `Testcases.AddTestcaseHandler.Post` | cms/cms/server/AdminWebServer.py:484-509 | post clears successful_calls and records `public`. Each put_file that fails at once adds one "Testcase storage failed" / "Connection failed." notification. Nothing is created. |
| `Testcases.AddTestcaseHandler.StorageCallback` | cms/cms/server/AdminWebServer.py:511-528 | A success stores data under plus. When the map then holds two or more entries, the callback adds one testcase from the "input" and "output" digests, or raises KeyError if either is missing. An error adds one "Testcase storage failed" notification with the error text and leaves the map alone. |
| `Testcases.CallbackEffect` | cms/cms/server/AdminWebServer.py:512-528 | One callback: an error always notifies and nothing else does. A success waits while fewer than two calls are stored. Otherwise it creates a testcase from the stored "input" and "output" digests, numbered with the task's testcase count, or, with one of them absent, fails on that key (the "input" key when it is absent, else "output"). With both stored it always creates. |
| `Testcases.CreatedDuring` | cms/cms/server/AdminWebServer.py:512-522 | A run of callbacks creates at most one testcase per report, each with the handler's `public`. |
| `Testcases.CreatedDuringNumbering` | cms/cms/server/AdminWebServer.py:516-522 | The testcases one run creates are numbered consecutively from the task's testcase count, since `len(self.task.testcases)` counts those already added. |
| `Testcases.JoinedIffBothParts` | cms/cms/server/AdminWebServer.py:515-518 | With only "input"/"output" keys, "at least two successful calls" holds exactly when both parts are stored. |
| `Testcases.CallbackOutcomes` | cms/cms/server/AdminWebServer.py:512-528 | For the two upload tags, the KeyError never happens. A success creates a testcase exactly when both parts are then stored, from those digests. An error leaves successful_calls unchanged and only notifies. |
| `Testcases.RepeatedReportOverwrites` | cms/cms/server/AdminWebServer.py:514 | A second success for a stored tag overwrites its digest and leaves the number of entries and the keys unchanged. |
| `Testcases.NothingCreatedWithoutBothParts` | cms/cms/server/AdminWebServer.py:513-523 | No sequence of callbacks creates a testcase while one of the two parts has never been stored, whatever the interleaving. |
| `Testcases.BothPartsCreateOne` | cms/cms/server/AdminWebServer.py:495-523 | Successes for input and output, in either order, create exactly one testcase from their two digests. |
| `Testcases.LateSuccessAfterErrorCreates` | cms/cms/server/AdminWebServer.py:512-528 | In the callback's bookkeeping, input success, then an error, then a late output success still creates the testcase (no terminal state). |
| `Testcases.RepeatedReportCreatesAgain` | cms/cms/server/AdminWebServer.py:513-523 | In the callback's bookkeeping, a third report after the join creates a second testcase, numbered one past the first (no exactly-once guarantee). |
| `Contests.ReadTokens` | cms/cms/server/AdminWebServer.py:265-284 | An accepted form always has an initial token count, the one `get_non_negative_int` gives for token_initial with allow_empty=False. The first-error rule is `ReadTokensFirstError`. |
| `Contests.ReadTokensFirstError` | cms/cms/server/AdminWebServer.py:265-286 | Token reading fails exactly when one of the six `get_non_negative_int` calls fails, with the ValueError of the first failing call in source order. Otherwise the tokens are the six values read. |
| `Contests.CheckContestForm` | cms/cms/server/AdminWebServer.py:256-300 | A form is accepted exactly when it has a non-empty name, valid token fields, two parsed dates and start <= stop. The accepted contest carries those values. Each refusal is the first failed check, in source order. "No contest name specified" comes exactly when the name is empty. "Invalid token field(s)." comes exactly when the name is set and token reading fails, and it carries that ValueError. "Invalid date(s)." comes exactly when the tokens read but a date does not parse. "Contest ends before it starts" comes exactly when every earlier check passed and start > stop. |
| `Contests.AddContest` | cms/cms/server/AdminWebServer.py:256-308 | AddContestHandler.post creates a contest exactly when the name is non-empty, the tokens read with default 0 for token_initial, both dates parse and start <= stop. The created contest always has an initial token count. |
| `Contests.AddContestInitialTokensDefault` | cms/cms/server/AdminWebServer.py:266-269 | A new contest given no token_initial gets 0 initial tokens. |
| `Contests.EditContestAsWritten` | cms/cms/server/AdminWebServer.py:805-873 | The edit updates the contest exactly when the form passes the checks. It raises exactly when start > stop is the failed check. |
| `Contests.EditAsWrittenRaisesOnReversedDates` | cms/cms/server/AdminWebServer.py:855-859 | As written, the edit raises exactly for a named form with valid tokens and parsed dates where start > stop. |
| `Contests.EditAsWrittenCounterexample` | cms/cms/server/AdminWebServer.py:855-857 | The concrete form name "c", default tokens, start 2 and stop 1 makes the edit raise UnboundLocalError. |
| `Contests.EditContest` | cms/cms/server/AdminWebServer.py:805-873 | The corrected edit never raises. |
| `Contests.EditContestOutcomes` | cms/cms/server/AdminWebServer.py:808-873 | The corrected edit updates exactly when the form passes, with start <= stop. Otherwise it notifies with the subject of the first failed check, "Contest ends before it starts" for reversed dates. |
| `Tasks.TaskTypeParameters` | cms/cms/server/AdminWebServer.py:702-733 | The mapping from the form to task_type_parameters: every accepted list is well formed for the chosen type, and every refusal is one of the two notification texts. Its partners are `TaskTypeParametersSound` and `TaskTypeParametersComplete`. |
| `Tasks.TaskTypeParametersSound` | cms/cms/server/AdminWebServer.py:702-733 | An accepted form gives a well-formed list: Batch is [evaluation, "file" or "nofile"] with evaluation diff, comp or grad and "file" iff Batch_use_files was sent, OutputOnly is [evaluation] with evaluation diff or comp, each holding the chosen evaluation. A refused form has an unknown evaluation ("Output evaluation not recognized.") or type ("Task type not recognized."). |
| `Tasks.TaskTypeParametersComplete` | cms/cms/server/AdminWebServer.py:704-727 | Every well-formed parameter list is produced by some form. |
| `Tasks.RealFilename` | cms/cms/server/AdminWebServer.py:1016-1018 | The served name is the stored one when the submission has no language, or when the name holds no "%l". With a language, the part before the first "%l" is kept, that "%l" becomes the language, and the rest of the name is substituted in turn. |
| `Tasks.ReplaceAfterPrefix` | cms/cms/server/AdminWebServer.py:1018 | `str.replace` on a + "%l" + b, with a free of "%l", keeps a, puts the replacement in place of the "%l", and continues on b. |
| `Tasks.ReplaceWithoutOccurrence` | cms/cms/server/AdminWebServer.py:1016-1018 | A file name without "%l" is served unchanged. |
| `Tasks.SimpleFormatServedWithLanguage` | cms/cms/server/AdminWebServer.py:1017-1018 | The simple format "<name>.%l" of line 740, for a name without "%l", is served as "<name>.<language>". |
| `Users.DuplicateUsername` | cms/cms/server/AdminWebServer.py:929-936 | A clash is reported exactly when the requested name is in the contest and is not the user's current name. The same loop with no current user models lines 958-965. |

## Left out

- Tornado handling: rendering, redirects, cookies, localisation, `finish`, the
  `handlers` URL table and `main()`. These are framework plumbing. The
  redirects that follow each callback are not modelled.
- SQLAlchemy sessions, queries, commits and rollbacks. Query results are
  inputs. The testcases a handler adds are recorded in its `added` field.
  A callback numbers its testcase with the task's testcase count, an input
  that `CreatedDuring` increases by each testcase the run has added.
- `FS.put_file`, `ES.new_submission`, `connect_to`, `FileCacher`,
  `get_service_shards`/`get_service_address` and the `rpc_callback`
  decorator: asynchronous RPC and code that is not part of this model.
  put_file's synchronous failure is the `inputSent`/`outputSent` parameter
  of `Post`. The later callbacks are calls of `StorageCallback`. The
  statement, attachment and manager upload handlers are not modelled.
- `time.time()` and the `strptime`/`mktime` date parsing: clock and libc.
  Timestamps are ints given as inputs, and the parsed dates are `Option<int>`.
- `float()` of `last_notification` (it is a `real` input) and the float
  `time_limit` checks of `TaskViewHandler.post`: floating point.
- simplejson loading and dumping of the submission format and of the poll's reply: a foreign serializer.
- The handlers that go on after an "Invalid field" notification without
  returning (lines 624, 639, 710, 725, 733). Only the mapping and its
  validity check are modelled, as `Tasks.TaskTypeParameters`.
  `TaskViewHandler.post`'s copy of the mapping is not modelled.
- `Arguments.GetNonNegativeInt`: tornado's stripping of argument whitespace
  and `int()`'s tolerance of whitespace around the number and between the
  sign and the digits are not modelled: `"+ 5"` reads as 5 and `"- 5"` is
  negative in the source, and both give the cast error here. Nor is
  `repr` of a Python 2 long (a trailing `L`). Arguments are unicode strings,
  and Python 2's `int()` also accepts non-ASCII decimal digits (for example
  Arabic-Indic ones). The model accepts only '0'-'9', so such an argument
  gives the cast error here. The default is None or an int.
  The `argument is None` test is omitted, because `get_argument` with a
  string default never returns None.
- Testcases.CreatedDuring: the run lemmas (`LateSuccessAfterErrorCreates`,
  `RepeatedReportCreatesAgain` and the others over `CreatedDuring`) describe
  `storage_callback`'s bookkeeping only. Each creating or failing callback
  ends in a redirect, which finishes the request, and `BaseHandler.finish`
  closes the SQL session (line 110). What a later callback does on that
  finished handler is not modelled: its session add and commit, and its
  second redirect.
- `Contests.EditContestOutcomes`: a notification carries the failed check,
  not the text of `repr(e)`.
- The remaining field checks of AddTaskHandler (lines 771-789 call
  get_non_negative_int outside any try) and the user, announcement and
  message handlers' other fields: plain persistence of form values.

## Findings

| source | as written | input that shows it | evidently intended | confidence | as-written member | corrected member |
|---|---|---|---|---|---|---|
| cms/cms/server/AdminWebServer.py:855-859 | When start > stop, EditContestHandler.post builds the notification text with `repr(e)`. No except clause has run, so `e` is unbound and the handler raises UnboundLocalError instead of notifying. | name "c", token fields absent with current initial 0, start 2, stop 1 | add the "Contest ends before it starts" notification and redirect | high; not executed | `Contests.EditContestAsWritten` | `Contests.EditContest` |
