# FintopioBot core, modelled in Dafny

`bot.py` drives the Fintopio HTTP API for a list of stored sessions: each
pass reads the session file, logs every session in, checks in daily, reads
the diamond state, claims farming and, if the user answered "y" at start-up,
fetches the task list and executes the available tasks; then it counts down
an hour and starts again. This project models the deterministic layer under
that I/O:

- `Clock` — `format_time` (milliseconds to `HH:MM:SS`) and the `divmod`
  split and `zfill(2)` rendering of `countdown`. Python's floor `//` and `%`
  equal Dafny's Euclidean `/` and `%` for the positive divisors used, so
  negative inputs (a negative "left" time from the server) are covered too.
- `Sessions` — `str.strip()` (with Python's full whitespace set) and the
  comprehension in `read_sessions`; a missing file is `None`.
- `Http` — the URL constants (requests are identified by endpoint), the fixed `HEADERS`, the header map of
  `api_request` and how `api_request` turns a transport reply into a decoded
  body or `None` (`raise_for_status` rejects 400–599).
- `Json` — decoded JSON values and the Python operations the bot applies to
  them: truthiness, `dict.get`, `x[key]` and `in` (key, element or substring
  membership). An operation Python would reject raises `AttributeError`,
  `KeyError` or `TypeError`, modelled as `Result.Raise`.
- `Responses` — the decision rules of `login`, `check_in`, `check_balance`,
  `get_farming_state`, `execute_task` and `fetch_tasks`.
- `Orchestrator` — one pass of `process_sessions`, as the sequence of
  requests it sends against an arbitrary deterministic server (a function
  from the requests sent so far to the reply to the newest one). Where an
  exception propagates is modelled: one raised by `login` escapes the loop and
  ends the pass; one raised later in a session ends only that session.

Some things the bot might be expected to do are absent from `bot.py`, and
the model follows the code. `process_sessions` in bot.py never calls
`get_farming_state`, `check_balance` or `complete_diamond`: it posts the
farming claim unconditionally and only logs the diamond state. bot.py has no
wake-time aggregation across sessions, no retry pass, no "farming past its
finish time" correction and no start/verify/claim task chain: a task with
status "available" gets a single `execute` request, and "verified" is treated
like any unknown status. The wait between passes is a fixed 3600-second
countdown.

## Model

| member | source | states |
|---|---|---|
| Clock.Split | bot.py:134-139 | hours is ms div 3 600 000; minutes and seconds lie in [0, 60); hours·3600 + minutes·60 + seconds is ms div 1000 |
| Clock.FormatTime | bot.py:134-140 | `format_time` is at least 8 characters and, for a non-negative input, only digits and colons; `FormatTimeRoundTrip` shows its three fields read back as the hours/minutes/seconds split |
| Clock.Pad2 | bot.py:140 | `f"{n:02}"` is at least 2 characters; for n ≥ 0 it is decimal digits that read back as n (so nothing is truncated), 2 characters below 10 and exactly the digits otherwise; a negative n is its sign and digits, unpadded |
| Clock.FormatTimeIgnoresMillis | bot.py:136 | the sub-second remainder never shows: `format_time(ms) == format_time(ms - ms % 1000)` |
| Clock.FormatTimeShape | bot.py:140 | for 0 ≤ ms below 100 hours the text is exactly 8 characters, `DD:DD:DD` |
| Clock.FormatTimeRoundTrip | bot.py:134-140 | splitting the text at `:` and reading the three fields gives back the hours/minutes/seconds split, for every integer input |
| Clock.CountdownSplit | bot.py:263-264 | the two `divmod` steps give minutes and seconds in [0, 60) that recombine to the input |
| Clock.CountdownMatchesFormatTime | bot.py:262-270 | countdown's split of i seconds equals format_time's split of i·1000 ms, and its `zfill(2)` line equals the line built from `format_time(i*1000)` |
| Clock.ZFillIsPad2 | bot.py:265-267 | `str(n).zfill(2)` equals `f"{n:02}"` for every integer |
| Clock.CountdownLine | bot.py:265-270 | the line `countdown` writes with `zfill(2)` fields is the "Waiting for … remaining..." line around the `f"{n:02}"` rendering `format_time` uses |
| Clock.Countdown | bot.py:260-275 | `countdown(t)` takes max(t, 0) one-second steps; step k shows the `divmod` split of t − k seconds (its line is `CountdownLine` of that split) |
| Sessions.LeadingSpaces | bot.py:47 | `strip()` removes a leading run of whitespace: every character before the count is whitespace and the one at the count, if any, is not |
| Sessions.TrailingSpaces | bot.py:47 | `strip()` removes a trailing run of whitespace: every character after the kept part is whitespace and the last kept one, if any, is not |
| Sessions.Strip | bot.py:47 | `line.strip()` is never longer than the line; `StripIsInfix`, `StripBlank` and `StripIdempotent` state what it keeps |
| Sessions.StripNonBlank | bot.py:47 | the comprehension keeps at most one entry per line and never an empty one; `SessionMembership` and `SessionsOfConcat` give its contents and order |
| Sessions.ReadSessions | bot.py:44-52 | a missing file gives no sessions; otherwise at most one session per line, each non-empty and already stripped |
| Sessions.StripIsInfix | bot.py:47 | `strip()` keeps one contiguous piece of the line, drops only whitespace around it, and the piece neither starts nor ends with whitespace |
| Sessions.StripBlank | bot.py:47 | a line strips to "" exactly when it is all whitespace |
| Sessions.StripIdempotent | bot.py:47 | stripping twice is stripping once |
| Sessions.SessionsAreStripped | bot.py:47 | every session read is non-empty and has no leading or trailing whitespace |
| Sessions.SessionsOfConcat | bot.py:47 | the filter works line by line in file order: the sessions of `a + b` are those of `a` followed by those of `b` |
| Sessions.SessionMembership | bot.py:47 | s is a session exactly when s is non-empty and some line strips to s |
| Sessions.SessionsIdempotent | bot.py:44-49 | reading back a list of sessions returns it unchanged |
| Http.RequestHeaders | bot.py:54-57 | the headers gain `authorization` exactly when the token is truthy, with value `"Bearer " + token`; every `HEADERS` entry is kept unchanged and nothing else is added |
| Http.ApiRequest | bot.py:59-67 | a body comes back only from a reply whose status is outside 400–599 and whose body is JSON, and then unchanged; transport failures, error statuses and non-JSON bodies give `None` |
| Responses.Login | bot.py:69-74 | login raises exactly for a truthy non-dictionary response; the token is truthy exactly when the response is a dictionary with a truthy "token", and then it is that value |
| Responses.LoginTokenIffField | bot.py:72 | for a dictionary response login never raises and succeeds exactly when "token" is present and truthy |
| Responses.CheckIn | bot.py:76-83 | success exactly when the response is a dictionary with "dailyReward" and with "claimed" present and falsy (a missing "claimed" counts as claimed); no response exactly when it is falsy; raises exactly for a truthy number or boolean, a list holding "dailyReward" or a string containing it |
| Responses.CheckBalance | bot.py:85-93 | a falsy response gives the "0" default; a truthy non-dictionary raises; a dictionary succeeds exactly when "profile" and "balance" are absent or dictionaries, and then gives the nested username (default "Unknown") and balance (default "0") |
| Responses.FarmingStateOf | bot.py:142-166 | transport failure or a non-JSON 200 body gives the bare `{}`; "error" comes exactly from a status other than 200; on a 200 body: "farmed" exactly for `state == "farmed"`, "farming" exactly for `state == "farming"` with a readable left time, "idling" exactly for a dictionary with any other or missing state; the body is passed through |
| Responses.PlanTask | bot.py:181-198 | `execute_task` reads a task exactly when it is a dictionary with "id"; it executes exactly when "status" is "available", waits exactly when it is "in-progress", and reports the task's id |
| Responses.OnlyAvailableTasksExecute | bot.py:185-198 | an execute request implies status "available"; a "verified" task is never executed |
| Responses.LogTasks | bot.py:204-205 | the logging loop gets through exactly when every task is a dictionary with "id" |
| Responses.FetchTasks | bot.py:200-208 | a falsy response gives no tasks; the tasks returned are all readable and, if any, are the response's "tasks" list; a dictionary whose "tasks" is a list gives exactly that list when it does not raise; for a dictionary response it raises exactly when "tasks" is present and is not a list of readable tasks, an empty dictionary or an empty string; any other response raises exactly when it is a truthy number or boolean, a list holding "tasks" or a string containing it, and otherwise gives no tasks |
| Responses.FetchedTasksArePlannable | bot.py:182-206 | no task `fetch_tasks` returns can make `execute_task` raise |
| Orchestrator.ExecuteTasks | bot.py:244-246 | the task loop only appends requests, all of them execute POSTs carrying the session token |
| Orchestrator.SessionBody | bot.py:224-249 | after login a session only appends requests, each carrying the token and none a login; it ends processed or failed, never aborting the pass |
| Orchestrator.RunSession | bot.py:217-222 | every session starts with its own login request, unauthenticated |
| Orchestrator.RunSessions | bot.py:217-251 | the pass only appends requests and reports at most one outcome per session |
| Orchestrator.SkipIffNoToken | bot.py:220-222 | a session is skipped exactly when login returns a falsy token, and a skipped session, like one whose login raises, sends only its login request |
| Orchestrator.SessionUsesLoginToken | bot.py:220-246 | any request after the login carries the truthy token login returned |
| Orchestrator.TokenArgument | bot.py:55-57 | `if token:` adds the header exactly for a truthy token, which is passed as is when it is a string |
| Orchestrator.SessionSendsBearerToken | bot.py:55-57 | the login request carries only the fixed headers; after a login that returned a string token every request of the session carries `authorization: Bearer <token>` |
| Orchestrator.NoTasksWhenDisabled | bot.py:226-242 | with task execution off, a session past check-in sends exactly check-in, diamond state, farming claim, and ends processed |
| Orchestrator.ExecutesExactlyAvailable | bot.py:244-246 | over readable tasks the loop sends one execute request per "available" task, in list order, and nothing else |
| Orchestrator.TaskSessionRequests | bot.py:242-246 | with task execution on and a readable task list, the session sends check-in, diamond state, farming claim, task list, then exactly the available tasks' execute requests |
| Orchestrator.SessionLogsInOnce | bot.py:217-222 | a session sends exactly one login request |
| Orchestrator.PassLogsInInOrder | bot.py:211-221 | a pass logs in with the sessions in file order, exactly once each, for every session it reaches |
| Orchestrator.PassStopsOnlyAtAbort | bot.py:211-258 | only a raising login stops the pass early: no outcome but the last is an abort, and a pass that stops short ends with one |
| Orchestrator.PassFollowsFile | bot.py:211-258 | `process_sessions` logs in with the file's sessions in order, one each, for every session it reports on; only the last outcome can be an abort, and a pass that stops short of the file's end ends with one |
| Orchestrator.NoSessionsNoRequests | bot.py:213-215 | a missing or blank session file makes a pass that sends nothing |

## Left out

- HTTP traffic (`requests`, `raise_for_status`, `.json()`) is an input: a `Reply` per request, chosen by the server function from the requests sent so far.
- `get_diamond_state`, `complete_diamond` and `claim_farming` only log what the server sent or branch on a bare status code; the model keeps the requests `process_sessions` makes to them and nothing else. `complete_diamond` is never called.
- The "rewards" logging in `process_sessions` (bot.py:232-237) cannot raise, because `get_diamond_state` already evaluated the same lookups inside its own handler; it is not modelled.
- The reply to an execute request only chooses a log line; it is not modelled.
- Console logging and colours, the file open of `read_sessions`, the `input` prompt, `sys.exit` and `KeyboardInterrupt` handling.
- The `asyncio.sleep` between countdown lines and the endless outer loop with its fixed 3600-second wait.
- JSON floating-point numbers: numbers are integers.
- Http.RequestHeaders: takes the token already rendered as text; `Orchestrator.TokenArgument` does Python's `str()` of a decoded token for strings, integers and booleans only.
- Request URLs: a request is identified by its endpoint (and session or task id); the URL strings built from the constants in `Http` are not modelled.
- Orchestrator.TokenArgument: a truthy token that is a list or dictionary has no modelled header, since Python's `str()` of a container is not modelled.
- The value `check_balance` returns: `check_balance` is never called by `process_sessions`, so only the report it reads is modelled.
- Sessions.Strip: its own contract only bounds the length; the full characterisation is the lemma `StripIsInfix`, because as a contract it would be unfolded at every use of `strip`.
- Responses.FetchTasks: an empty dictionary or empty string under "tasks" is returned by the code as is and is modelled as the empty list, which the caller treats the same way (both are falsy).
- The order of a dictionary's keys is not modelled; it only matters when iterating a non-empty dictionary of tasks, which raises on its first key whatever the order.
- Python exceptions other than those raised by the modelled lookups (memory errors, errors inside logging).
