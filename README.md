# Homework status notifier — a Dafny model

The notifier polls the Practicum homework-review API, finds when the review
status of the latest homework has changed, and forwards a message to a
Telegram chat. Everything it does happens in one endless loop in `main`:
fetch the statuses from a poll cursor on, validate the reply, turn the first
homework's status into a message through a fixed verdict table, send it, and
move the cursor to the server's `current_date`. Any exception in an iteration
is caught, reported to the chat in a failure message, and leaves the cursor
where it was.

The model has three modules:

- `Python` (`python.dfy`): the pieces of Python the program relies on — None,
  truthiness, `or`, `all`, `str` of a value that may be None, `repr` of a
  string (which is what a `KeyError` prints) and the exceptions that reach the
  loop's handler. `repr` is proved invertible, so different keys give
  different error texts.
- `Homework` (`homework.py`'s pure functions, `homework.dfy`): the verdict
  table, `parse_status`, `check_response`, `check_tokens`, the request
  `get_api_answer` builds and what it makes of the HTTP reply.
- `MainLoop` (`main_loop.dfy`): one iteration of `main`'s loop as a function
  `Step` from the cursor and the iteration's inputs (clock, HTTP reply,
  whether the chat accepted the send) to the request issued, the new cursor and
  the messages sent; `Replay` folds it over a finite sequence of iterations.
  `RunIteration` and `PollLoop` are the imperative loop body and loop of
  `main`, with the `try`/`except` structure and the reassigned cursor, each
  proved to compute exactly `Step` and `Replay`.

Network I/O, the Telegram client, the clock and the environment are inputs:
the HTTP reply is an `HttpReply` (the `requests` call raised, or a reply came
back with a status code and a body that decodes or does not), a send is a
boolean (accepted or rejected), the time is an integer, the three tokens are
`Option<string>`.

Behaviour of the code that the model states:

- The cursor is not monotone: the code replaces it with whatever
  `current_date` the server sends, so it can move backwards or become None
  (`CursorCanMoveBackwards`); a None or 0 cursor makes the next fetch ask from
  the current time.
- An empty homework list still moves the cursor: the code stores
  `current_date` after every reply that passes validation, empty list included
  (`EmptyListScenario`, `StepOnNoHomework`).
- A missing `homeworks` key raises `KeyError('homeworks')`, because the code
  subscripts a dict, and the chat gets `Сбой в работе программы: 'homeworks'`
  (`StepOnMissingKey`).
- The loop is modelled on the corrected API wrapper (see Findings): after a
  network error it reports that error's own text, where the code as written
  reports an `UnboundLocalError` (see "Left out").

## Model

| member | source | states |
|---|---|---|
| `Homework.ParseStatus` | homework.py:70-81 | succeeds exactly for the statuses approved, reviewing and rejected, with the message `Изменился статус проверки работы "<name>". <verdict>` spelled out for each of the three verdict texts (a missing name prints as `None`); any other status, None included, raises `KeyError(status)` even though it was logged first |
| `Homework.VerdictsNotSuffixes` | homework.py:24-28 | no verdict text of the table is a suffix of another |
| `Homework.ParseStatusInjective` | homework.py:24-28 | two status messages are equal only when the homework names print alike and the statuses are equal: a message tells which verdict was given |
| `Homework.UnknownStatusesRaiseDistinctErrors` | homework.py:75-80 | for unknown statuses, the raised errors are equal exactly when the statuses are |
| `Homework.CheckResponse` | homework.py:61-67 | raises `KeyError('homeworks')` exactly when the key is missing; returns the list unchanged exactly when it is non-empty and its first element is not null; returns nothing for a null list, an empty list or a null first element |
| `Homework.CheckTokens` | homework.py:84-88 | true if and only if all three tokens are present and non-empty |
| `Homework.ApiRequest` | homework.py:39-42 | asks from the cursor when it is truthy and from the current time when it is None or 0; the header is `OAuth <token>`, `OAuth None` without a token; the URL is the fixed endpoint |
| `Homework.GetApiAnswer` | homework.py:44-58 | returns a response exactly for a status-200 reply whose body decodes, and that body; any other status raises `HTTPError`; a status-200 body that does not decode raises the decode error, which propagates unchanged like any other exception of the `requests` library (corrected behaviour, see Findings) |
| `Homework.GetApiAnswerAsWritten` | homework.py:54-58 | as written: a reply behaves as in `GetApiAnswer`, but when `requests.get` itself raises, the error that escapes is `UnboundLocalError` for `response` |
| `Homework.TransportFailureMasked` | homework.py:54-58 | as written, two different transport failures raise the same error; the corrected wrapper keeps them apart |
| `Python.AllIffEvery` | homework.py:86-88 | `all(xs)` holds exactly when every element holds |
| `Python.ExceptionText` | homework.py:108-109 | `str(error)` for each exception that reaches the handler: a bare `HTTPError` (homework.py:53) prints as the empty string, a `KeyError` for None prints `None`, a `KeyError` for a string key prints a text at least two characters longer than the key, with the same quote at both ends, and a `requests` exception prints its own text |
| `Python.Repr` | homework.py:80 | `repr` of a string, which a `KeyError` prints: it starts and ends with the same quote, which is a double quote exactly when the string holds a single quote and no double quote, and it is at least two characters longer than the string |
| `Python.UnreprRepr` | homework.py:80 | the `repr` of a string (the text of a `KeyError`) can be read back to the string |
| `Python.ReprInjective` | homework.py:80 | different strings have different reprs |
| `Python.ReprVerbatim` | homework.py:63 | a string without quotes, backslashes or control characters prints as itself between single quotes |
| `Python.KeyErrorTextInjective` | homework.py:80 | the texts of two KeyErrors are equal only when their keys are, None included |
| `MainLoop.TryBlock` | homework.py:99-106 | when the `try` block runs to its end, the reply had status 200 and a body that decodes, and the cursor it stores is that response's `current_date` |
| `MainLoop.TryBlockSucceedsIff` | homework.py:99-106 | the `try` block runs to its end exactly when the reply is a decodable 200 with a `homeworks` key and the first homework the validator lets through, if any, has a known status |
| `MainLoop.Step` | homework.py:98-115 | one iteration issues the request built from the old cursor, sends at most one message, keeps the cursor on any exception and replaces it with the reported `current_date` otherwise; the chat receives the message exactly when the send is accepted |
| `MainLoop.FailureMessageSplits` | homework.py:109 | a failure message is the fixed prefix `Сбой в работе программы: ` followed by exactly `str(error)`, which can be cut back out of it |
| `MainLoop.StepOnErrorStatus` | homework.py:49-53 | a non-200 reply keeps the cursor and sends exactly one message, `Сбой в работе программы: ` (a bare `HTTPError` prints as nothing) |
| `MainLoop.StepOnException` | homework.py:108-112 | any exception in the fetch, validation or formatting keeps the cursor and sends exactly `Сбой в работе программы: <str(error)>` |
| `MainLoop.StepOnFetchFailure` | homework.py:44-58 | a network error, or a status-200 body that does not decode, keeps the cursor and sends exactly `Сбой в работе программы: ` followed by that error's own text (corrected wrapper, see Left out) |
| `MainLoop.MissingKeyText` | homework.py:63 | the missing key prints as `'homeworks'` in the error text |
| `MainLoop.StepOnMissingKey` | homework.py:63 | a reply without `homeworks` keeps the cursor and sends `Сбой в работе программы: 'homeworks'` |
| `MainLoop.StepOnNoHomework` | homework.py:101-106 | a null or empty list, or one starting with null, sends nothing and still moves the cursor to `current_date` |
| `MainLoop.StepOnKnownStatus` | homework.py:102-106 | a first homework with a known status: exactly one message, the status message of element 0, and the cursor moves to `current_date` |
| `MainLoop.StepOnUnknownStatus` | homework.py:75-80 | a first homework with an unknown or missing status: the cursor stays and the message is the failure message for `KeyError(status)` |
| `MainLoop.StepIgnoresDelivery` | homework.py:31-36 | a rejected send is swallowed: it changes neither the request, nor the cursor, nor the messages attempted |
| `MainLoop.StatusAndFailureMessagesDiffer` | homework.py:109 | a status message never equals a failure message |
| `MainLoop.UnknownStatusMessagesDiffer` | homework.py:109 | different unknown statuses, None included, produce different failure messages |
| `MainLoop.CursorCanMoveBackwards` | homework.py:106 | the cursor is replaced, not advanced: a smaller `current_date` moves it back, a missing one makes it None and the next fetch asks from the current time |
| `MainLoop.ApprovedScenario` | homework.py:100-106 | one approved homework `proj1` with `current_date` 1000 at cursor 500: the fetch asks from 500, the message is the approved one for `proj1`, the cursor becomes 1000 |
| `MainLoop.EmptyListScenario` | homework.py:102-106 | an empty list with `current_date` 1000 at cursor 500: nothing is sent and the cursor becomes 1000 |
| `MainLoop.Replay` | homework.py:98-115 | after n iterations, n requests were issued, at most n messages attempted, and no more delivered than attempted |
| `MainLoop.ReplayCursorIsLastReport` | homework.py:100-106 | after several iterations the cursor is the `current_date` of the last iteration whose `try` block ran to its end |
| `MainLoop.ReplayCursorUntilFirstReport` | homework.py:96 | while every iteration has failed, the cursor is still the start time |
| `MainLoop.ReplayExtends` | homework.py:98-115 | running the loop longer only appends requests: those of the first k iterations stay as they were |
| `MainLoop.ReplayNext` | homework.py:98-115 | iteration k issues its request from the cursor the iterations before it left, moves the cursor as that step does, and appends exactly the messages that step attempts and delivers, in order |
| `MainLoop.ReplayMessagesExtend` | homework.py:98-115 | running the loop longer only appends messages: those attempted and delivered by the first k iterations begin those of the longer run |
| `MainLoop.ReplayRequest` | homework.py:100 | the k-th request is built from the cursor the first k iterations left and the k-th clock reading |
| `MainLoop.ReplayIgnoresDelivery` | homework.py:31-36 | over many iterations, send failures change neither the cursor, nor the requests, nor the messages attempted |
| `MainLoop.ReplayAllDelivered` | homework.py:31-36 | when every send is accepted the chat receives every message attempted |
| `MainLoop.RunIteration` | homework.py:99-112 | the imperative loop body (try block, except block, sends) computes exactly `Step` |
| `MainLoop.PollLoop` | homework.py:91-115 | `main`: checks the tokens without acting on the answer, starts the cursor at the start time and runs the loop body once per iteration, computing exactly `Replay` |

## Findings

| source | as written | input that shows it | evidently intended | confidence | as-written member | corrected member |
|---|---|---|---|---|---|---|
| homework.py:54-58 | the `except RequestException` handler evaluates `response.status_code` in a discarded f-string on line 56; when `requests.get` itself raised, `response` was never assigned, so the handler raises `UnboundLocalError` and the re-raise is never reached | `requests.get` raises a connection error (`TransportFailure(t)`): every such failure reports `cannot access local variable 'response' where it is not associated with a value` | the original `requests` exception propagates to `main` and its text reaches the chat | high (not executed) | `Homework.GetApiAnswerAsWritten`, `Homework.TransportFailureMasked` | `Homework.GetApiAnswer` (used by `MainLoop.TryBlock`, see Left out) |

## Left out

- The HTTP call, JSON decoding and the `requests` exception classes are not modelled as such: the reply arrives as an `HttpReply`, and an exception of the library is its text.
- The Telegram client is not modelled: a send is accepted or rejected (a `TelegramError`, logged and swallowed). An exception of another kind from the client is not modelled: raised by the failure send (homework.py:111) it escapes `main`; raised by the status send (homework.py:104) it is caught at homework.py:108, reported in a failure message, and the cursor is kept; nor is the chat id each message goes to, nor `telegram.Bot` rejecting a malformed token at startup.
- `time.time()` is an input (the start time and one clock reading per iteration); `time.sleep` has no effect on the state and is left out; the endless loop is modelled over a finite sequence of iterations.
- Logging calls, the log format and the handler setup are side effects only and are left out; so is the log text of the `requests` handler apart from the exception it raises.
- `load_dotenv` and `os.getenv` are left out: the three tokens are parameters. `main` calls `check_tokens` and ignores the answer, and the model does the same.
- JSON values of unexpected types are not modelled: a name or status that is not a string or null, a `current_date` that is not an integer or null, a `homeworks` value that is not a list or null, entries that are not objects, a body that is not an object. In the source these do not all fail the same way. Some raise an exception: a `TypeError` or `AttributeError`, a `KeyError(0)` for a non-empty object as `homeworks` (homework.py:64 reads its element 0), or a `KeyError` for a status of another type. A falsy `homeworks` value (`0`, `false`, `""`, `{}`) behaves like null: nothing is sent and the cursor still moves. Other values pass through: the f-string prints a name of another type, and a `current_date` of another type becomes the next cursor.
- `MainLoop.TryBlock`: the loop is built on the corrected `Homework.GetApiAnswer`, not on `Homework.GetApiAnswerAsWritten`. When `requests.get` raises, for example with the text `Connection refused`, `Step` sends `Сбой в работе программы: Connection refused`. The program as written sends `Сбой в работе программы: cannot access local variable 'response' where it is not associated with a value` for every such failure (homework.py:45, 56 and 109). Every other reply gives the same outcome in both, because the two wrappers agree on every reply that arrived (`GetApiAnswerAsWritten`'s contract).
- `Python.ExceptionText`: the `UnboundLocalError` text is that of Python 3.11 and later; earlier versions word it differently.
- `Python.Repr`: characters above U+00FF that Python counts as non-printable (which `repr` writes as `\u`/`\U` escapes) are copied unchanged.
