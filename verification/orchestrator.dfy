/** `process_sessions`: one pass over the session file. Each session logs in;
    a session without a token is skipped; otherwise it checks in, reads the
    diamond state, claims farming and, when task execution was chosen at
    start-up, fetches the task list and executes the available tasks.

    The server is an input: a function from the requests sent so far (the
    newest last) to the reply to the newest one, so any deterministic server,
    stateful or not, is covered. The pass is described by the requests it
    sends, in order. */
module Orchestrator {
  import opened Wrappers
  import opened Json
  import opened Http
  import opened Responses
  import Sessions
  import Clock

  /** Where a request goes. */
  datatype Endpoint =
    | Auth(session: string)   // AUTH_URL?<session>
    | DailyCheckIn            // CHECKIN_URL
    | DiamondState            // DIAMOND_STATE_URL
    | ClaimFarming            // CLAIM_FARM_URL
    | TaskList                // TASKS_URL
    | ExecuteTask(taskId: Json)  // TASKS_URL/<id>/execute

  /** One request: method, target and the token it authenticates with
      (`Null` when it carries no authorization header). */
  datatype Call = Call(verb: Method, endpoint: Endpoint, token: Json)

  /** The `token` argument `api_request` receives, as the `Option<string>`
      its header builder reads: `None` for a falsy token, and Python's `str()`
      of a truthy string, integer or boolean. `None` (outer) for a truthy
      list or dictionary, whose `str()` is not modelled. */
  function TokenArgument(token: Json): (arg: Option<Option<string>>)
    ensures arg.Some? ==> (HasToken(arg.value) <==> Truthy(token))
    ensures arg.None? <==> Truthy(token) && (token.Arr? || token.Obj?)
    ensures Truthy(token) && token.Str? ==> arg == Some(Some(token.s))
  {
    if !Truthy(token) then Some(None)
    else
      match token
      case Str(s) => Some(Some(s))
      case Num(n) => Some(Some(Clock.IntToString(n)))
      case Bool(_) => Some(Some("True"))
      case _ => None
  }

  /** The headers a request is sent with. */
  function HeadersOf(c: Call): Option<map<string, string>> {
    match TokenArgument(c.token)
    case Some(arg) => Some(RequestHeaders(arg))
    case None => None
  }

  /** The reply to the newest request, given every request sent so far. */
  type Server = seq<Call> -> Reply

  /** How a session ended. */
  datatype SessionOutcome =
    | Skipped                  // login gave no token: `continue`
    | Processed                // every step ran
    | Failed(error: PyError)   // raised after login, caught per session
    | Aborted(error: PyError)  // raised by login, caught outside the loop: the pass ends

  /** Every request in `calls` is an authenticated one carrying `token`. */
  predicate CarryToken(calls: seq<Call>, token: Json) {
    forall k :: 0 <= k < |calls| ==> calls[k].token == token && !calls[k].endpoint.Auth?
  }

  /** The loop `for task in tasks: execute_task(token, task)`. A task that
      makes `execute_task` raise ends the loop (and the session); the reply to
      an execute request is only logged. */
  function ExecuteTasks(h: seq<Call>, token: Json, tasks: seq<Json>): (r: (seq<Call>, Option<PyError>))
    ensures |h| <= |r.0| && r.0[..|h|] == h
    ensures CarryToken(r.0[|h|..], token)
    ensures forall k :: |h| <= k < |r.0| ==> r.0[k].verb == POST && r.0[k].endpoint.ExecuteTask?
    decreases |tasks|
  {
    if tasks == [] then (h, None)
    else
      match PlanTask(tasks[0])
      case Raise(e) => (h, Some(e))
      case Ok(Execute(id)) => ExecuteTasks(h + [Call(POST, ExecuteTask(id), token)], token, tasks[1..])
      case Ok(_) => ExecuteTasks(h, token, tasks[1..])
  }

  /** The body of the per-session `try` once a token is in hand. `get_diamond_state`
      and `claim_farming` catch everything they raise and their replies only
      feed log lines, so their requests are sent without a decision. */
  function SessionBody(server: Server, h: seq<Call>, token: Json, executeTasks: bool): (r: (seq<Call>, SessionOutcome))
    ensures |h| < |r.0| && r.0[..|h|] == h
    ensures CarryToken(r.0[|h|..], token)
    ensures r.1 == Processed || r.1.Failed?
  {
    var h1 := h + [Call(POST, DailyCheckIn, token)];
    match CheckIn(ApiRequest(server(h1)))
    case Raise(e) => (h1, Failed(e))
    case Ok(_) =>
      var h2 := h1 + [Call(GET, DiamondState, token), Call(POST, ClaimFarming, token)];
      if !executeTasks then (h2, Processed)
      else
        var h3 := h2 + [Call(GET, TaskList, token)];
        match FetchTasks(ApiRequest(server(h3)))
        case Raise(e) => (h3, Failed(e))
        case Ok(tasks) =>
          var (h4, err) := ExecuteTasks(h3, token, tasks);
          assert h3[|h|..] == [Call(POST, DailyCheckIn, token), Call(GET, DiamondState, token),
                               Call(POST, ClaimFarming, token), Call(GET, TaskList, token)];
          CarryTokenExtended(h, h3, h4, token);
          (h4, if err.Some? then Failed(err.value) else Processed)
  }

  /** Extending a history that carries the token since `h` by requests that
      carry it too. */
  lemma CarryTokenExtended(h: seq<Call>, h3: seq<Call>, h4: seq<Call>, token: Json)
    requires |h| <= |h3| <= |h4| && h3[..|h|] == h && h4[..|h3|] == h3
    requires CarryToken(h3[|h|..], token) && CarryToken(h4[|h3|..], token)
    ensures h4[..|h|] == h && CarryToken(h4[|h|..], token)
  {
    assert h4[..|h|] == h3[..|h|];
    forall k | |h| <= k < |h4| ensures h4[k].token == token && !h4[k].endpoint.Auth? {
      if k < |h3| {
        assert h4[k] == h3[k] == h3[|h|..][k - |h|];
      } else {
        assert h4[k] == h4[|h3|..][k - |h3|];
      }
    }
  }

  /** One iteration of the session loop: log in, then run the body unless
      the login produced no token. */
  function RunSession(server: Server, h: seq<Call>, session: string, executeTasks: bool): (r: (seq<Call>, SessionOutcome))
    ensures |h| < |r.0| && r.0[..|h| + 1] == h + [Call(GET, Auth(session), Null)]
  {
    var h1 := h + [Call(GET, Auth(session), Null)];
    match Login(ApiRequest(server(h1)))
    case Raise(e) => (h1, Aborted(e))
    case Ok(token) =>
      if !Truthy(token) then (h1, Skipped)
      else
        var r := SessionBody(server, h1, token, executeTasks);
        assert r.0[..|h1|] == h1;
        r
  }

  /** The session loop, stopping early when a login raises. */
  function RunSessions(server: Server, h: seq<Call>, sessions: seq<string>, executeTasks: bool): (r: (seq<Call>, seq<SessionOutcome>))
    ensures |h| <= |r.0| && r.0[..|h|] == h
    ensures |r.1| <= |sessions|
    decreases |sessions|
  {
    if sessions == [] then (h, [])
    else
      var (h1, outcome) := RunSession(server, h, sessions[0], executeTasks);
      if outcome.Aborted? then (h1, [outcome])
      else
        var (h2, outcomes) := RunSessions(server, h1, sessions[1..], executeTasks);
        assert h2[..|h|] == h1[..|h|];
        (h2, [outcome] + outcomes)
  }

  /** `process_sessions(file, execute_tasks)`: the requests one pass sends,
      and how each session it reached ended. */
  function ProcessSessions(file: Option<seq<string>>, executeTasks: bool, server: Server): (seq<Call>, seq<SessionOutcome>) {
    RunSessions(server, [], Sessions.ReadSessions(file), executeTasks)
  }

  // ---------------------------------------------------------------------
  // Reference definitions

  /** The execute requests a task list calls for, read off the tasks'
      fields: one per task whose status is the string "available", in order. */
  function AvailableExecutions(tasks: seq<Json>, token: Json): seq<Call>
    requires forall k :: 0 <= k < |tasks| ==> WellFormedTask(tasks[k])
  {
    if tasks == [] then []
    else
      assert WellFormedTask(tasks[0]);
      (if HasString(tasks[0], "status", "available")
       then [Call(POST, ExecuteTask(tasks[0].fields["id"]), token)] else [])
      + AvailableExecutions(tasks[1..], token)
  }

  /** The sessions logged in with, in the order of the requests. */
  function Logins(calls: seq<Call>): seq<string> {
    if calls == [] then []
    else (if calls[0].endpoint.Auth? then [calls[0].endpoint.session] else []) + Logins(calls[1..])
  }

  // ---------------------------------------------------------------------
  // Properties of a pass

  /** A session is skipped exactly when login answers without a truthy
      token, and then nothing but the login request is sent; a login that
      raises likewise sends nothing more. */
  lemma SkipIffNoToken(server: Server, h: seq<Call>, session: string, executeTasks: bool)
    ensures var auth := h + [Call(GET, Auth(session), Null)];
      var login := Login(ApiRequest(server(auth)));
      var r := RunSession(server, h, session, executeTasks);
      && (r.1 == Skipped <==> login.Ok? && !Truthy(login.value))
      && (r.1.Aborted? <==> login.Raise?)
      && (r.1 == Skipped || r.1.Aborted? ==> r.0 == auth)
  {
    var auth := h + [Call(GET, Auth(session), Null)];
    var login := Login(ApiRequest(server(auth)));
    if login.Ok? && Truthy(login.value) {
      var b := SessionBody(server, auth, login.value, executeTasks);
      assert b.1 == Processed || b.1.Failed?;
    }
  }

  /** After a successful login every request of the session carries the
      token login returned, and none of them is another login. */
  lemma SessionUsesLoginToken(server: Server, h: seq<Call>, session: string, executeTasks: bool)
    ensures var auth := h + [Call(GET, Auth(session), Null)];
      var login := Login(ApiRequest(server(auth)));
      var r := RunSession(server, h, session, executeTasks);
      |r.0| > |auth| ==> login.Ok? && Truthy(login.value) && CarryToken(r.0[|auth|..], login.value)
  {
  }

  /** The login request goes out without an `authorization` header; once
      login has returned a string token, every further request of the
      session carries `authorization: Bearer <token>`. */
  lemma SessionSendsBearerToken(server: Server, h: seq<Call>, session: string, executeTasks: bool)
    ensures var auth := h + [Call(GET, Auth(session), Null)];
      var login := Login(ApiRequest(server(auth)));
      var r := RunSession(server, h, session, executeTasks);
      && HeadersOf(r.0[|h|]) == Some(Headers)
      && (login.Ok? && login.value.Str? ==>
            forall k :: |auth| <= k < |r.0| ==>
              var hdr := HeadersOf(r.0[k]);
              hdr.Some? && "authorization" in hdr.value && hdr.value["authorization"] == "Bearer " + login.value.s)
  {
    var auth := h + [Call(GET, Auth(session), Null)];
    var r := RunSession(server, h, session, executeTasks);
    assert r.0[|h|] == auth[|h|];
    SessionUsesLoginToken(server, h, session, executeTasks);
    var login := Login(ApiRequest(server(auth)));
    if login.Ok? && login.value.Str? && |r.0| > |auth| {
      forall k | |auth| <= k < |r.0|
        ensures var hdr := HeadersOf(r.0[k]);
          hdr.Some? && "authorization" in hdr.value && hdr.value["authorization"] == "Bearer " + login.value.s
      {
        assert r.0[k] == r.0[|auth|..][k - |auth|];
      }
    }
  }

  /** With task execution off, a session that gets through its check-in
      sends exactly: login, check-in, diamond state, farming claim. */
  lemma NoTasksWhenDisabled(server: Server, h: seq<Call>, token: Json)
    requires CheckIn(ApiRequest(server(h + [Call(POST, DailyCheckIn, token)]))).Ok?
    ensures SessionBody(server, h, token, false) ==
      (h + [Call(POST, DailyCheckIn, token), Call(GET, DiamondState, token), Call(POST, ClaimFarming, token)],
       Processed)
  {
    var h1 := h + [Call(POST, DailyCheckIn, token)];
    assert h1 + [Call(GET, DiamondState, token), Call(POST, ClaimFarming, token)]
      == h + [Call(POST, DailyCheckIn, token), Call(GET, DiamondState, token), Call(POST, ClaimFarming, token)];
  }

  /** Executing a readable task list sends one execute request per
      "available" task, in list order, and nothing else. */
  lemma {:induction false} ExecutesExactlyAvailable(h: seq<Call>, token: Json, tasks: seq<Json>)
    requires forall k :: 0 <= k < |tasks| ==> WellFormedTask(tasks[k])
    ensures ExecuteTasks(h, token, tasks) == (h + AvailableExecutions(tasks, token), None)
    decreases |tasks|
  {
    if tasks != [] {
      var rest := tasks[1..];
      assert WellFormedTask(tasks[0]);
      var id := tasks[0].fields["id"];
      var c := Call(POST, ExecuteTask(id), token);
      if HasString(tasks[0], "status", "available") {
        assert PlanTask(tasks[0]) == Ok(Execute(id));
        ExecutesExactlyAvailable(h + [c], token, rest);
        assert AvailableExecutions(tasks, token) == [c] + AvailableExecutions(rest, token);
        assert h + [c] + AvailableExecutions(rest, token) == h + ([c] + AvailableExecutions(rest, token));
      } else {
        assert PlanTask(tasks[0]).Ok? && !PlanTask(tasks[0]).value.Execute?;
        ExecutesExactlyAvailable(h, token, rest);
        assert AvailableExecutions(tasks, token) == AvailableExecutions(rest, token);
      }
    } else {
      assert h + [] == h;
    }
  }

  /** With task execution on, a session whose check-in and task list are
      readable sends login's follow-ups, then the task-list request, then
      exactly the execute requests of its available tasks, and ends normally. */
  lemma TaskSessionRequests(server: Server, h: seq<Call>, token: Json)
    requires CheckIn(ApiRequest(server(h + [Call(POST, DailyCheckIn, token)]))).Ok?
    ensures var h3 := h + [Call(POST, DailyCheckIn, token), Call(GET, DiamondState, token),
                           Call(POST, ClaimFarming, token), Call(GET, TaskList, token)];
      var fetched := FetchTasks(ApiRequest(server(h3)));
      fetched.Ok? ==>
        SessionBody(server, h, token, true) == (h3 + AvailableExecutions(fetched.value, token), Processed)
  {
    var h1 := h + [Call(POST, DailyCheckIn, token)];
    var h3 := h + [Call(POST, DailyCheckIn, token), Call(GET, DiamondState, token),
                   Call(POST, ClaimFarming, token), Call(GET, TaskList, token)];
    assert h1 + [Call(GET, DiamondState, token), Call(POST, ClaimFarming, token)] + [Call(GET, TaskList, token)] == h3;
    var fetched := FetchTasks(ApiRequest(server(h3)));
    if fetched.Ok? {
      ExecutesExactlyAvailable(h3, token, fetched.value);
    }
  }

  lemma {:induction false} LoginsOfConcat(a: seq<Call>, b: seq<Call>)
    ensures Logins(a + b) == Logins(a) + Logins(b)
  {
    if a == [] {
      assert a + b == b;
    } else {
      assert (a + b)[1..] == a[1..] + b;
      LoginsOfConcat(a[1..], b);
    }
  }

  lemma {:induction false} NoLoginsInBody(calls: seq<Call>, token: Json)
    requires CarryToken(calls, token)
    ensures Logins(calls) == []
  {
    if calls != [] {
      NoLoginsInBody(calls[1..], token);
    }
  }

  /** A session sends exactly one login request, its first. */
  lemma SessionLogsInOnce(server: Server, h: seq<Call>, session: string, executeTasks: bool)
    ensures var r := RunSession(server, h, session, executeTasks);
      Logins(r.0[|h|..]) == [session]
  {
    var r := RunSession(server, h, session, executeTasks);
    var auth := h + [Call(GET, Auth(session), Null)];
    SessionUsesLoginToken(server, h, session, executeTasks);
    assert r.0[|h|..] == [Call(GET, Auth(session), Null)] + r.0[|auth|..];
    LoginsOfConcat([Call(GET, Auth(session), Null)], r.0[|auth|..]);
    if |r.0| > |auth| {
      var login := Login(ApiRequest(server(auth)));
      NoLoginsInBody(r.0[|auth|..], login.value);
    } else {
      assert r.0[|auth|..] == [];
    }
  }

  /** The pass logs in with the sessions in file order, one login each,
      for as many sessions as it reports on. */
  lemma {:induction false} PassLogsInInOrder(server: Server, h: seq<Call>, sessions: seq<string>, executeTasks: bool)
    ensures var r := RunSessions(server, h, sessions, executeTasks);
      Logins(r.0[|h|..]) == sessions[..|r.1|]
    decreases |sessions|
  {
    var r := RunSessions(server, h, sessions, executeTasks);
    if sessions == [] {
      assert r.0[|h|..] == [];
    } else {
      var (h1, outcome) := RunSession(server, h, sessions[0], executeTasks);
      SessionLogsInOnce(server, h, sessions[0], executeTasks);
      if !outcome.Aborted? {
        var (h2, outcomes) := RunSessions(server, h1, sessions[1..], executeTasks);
        PassLogsInInOrder(server, h1, sessions[1..], executeTasks);
        LoginsAfterSession(h, h1, h2, sessions, |outcomes|);
      } else {
        assert sessions[..1] == [sessions[0]];
      }
    }
  }

  /** The pass reaches every session unless a login raised, which ends the
      pass at that session: only the last outcome can be an abort, and a
      pass that stops short ends with one. */
  lemma {:induction false} PassStopsOnlyAtAbort(server: Server, h: seq<Call>, sessions: seq<string>, executeTasks: bool)
    ensures var r := RunSessions(server, h, sessions, executeTasks);
      && (forall k :: 0 <= k < |r.1| - 1 ==> !r.1[k].Aborted?)
      && (|r.1| < |sessions| ==> r.1 != [] && r.1[|r.1| - 1].Aborted?)
    decreases |sessions|
  {
    if sessions != [] {
      var (h1, outcome) := RunSession(server, h, sessions[0], executeTasks);
      if !outcome.Aborted? {
        PassStopsOnlyAtAbort(server, h1, sessions[1..], executeTasks);
      }
    }
  }

  /** The logins of a session followed by those of the rest of the pass. */
  lemma LoginsAfterSession(h: seq<Call>, h1: seq<Call>, h2: seq<Call>, sessions: seq<string>, n: nat)
    requires sessions != [] && n < |sessions|
    requires |h| < |h1| <= |h2| && h2[..|h1|] == h1
    requires Logins(h1[|h|..]) == [sessions[0]]
    requires Logins(h2[|h1|..]) == sessions[1..][..n]
    ensures Logins(h2[|h|..]) == sessions[..1 + n]
  {
    DropOfExtension(h2, h1, |h|);
    LoginsOfConcat(h1[|h|..], h2[|h1|..]);
    assert sessions[..1 + n] == [sessions[0]] + sessions[1..][..n];
  }

  lemma DropOfExtension(longer: seq<Call>, shorter: seq<Call>, i: nat)
    requires i <= |shorter| <= |longer| && longer[..|shorter|] == shorter
    ensures longer[i..] == shorter[i..] + longer[|shorter|..]
  {
    assert longer == shorter + longer[|shorter|..];
    var rhs := shorter[i..] + longer[|shorter|..];
    assert |longer[i..]| == |rhs|;
    forall k | 0 <= k < |rhs| ensures longer[i..][k] == rhs[k] {
      if i + k < |shorter| {
        assert longer[i + k] == shorter[i + k];
      }
    }
  }

  /** A pass logs in with the file's sessions in file order, one login
      each, for every session it reports on; only a raising login stops it
      before the end of the file, and then as its last outcome. */
  lemma PassFollowsFile(file: Option<seq<string>>, executeTasks: bool, server: Server)
    ensures var sessions := Sessions.ReadSessions(file);
      var r := ProcessSessions(file, executeTasks, server);
      && |r.1| <= |sessions|
      && Logins(r.0) == sessions[..|r.1|]
      && (forall k :: 0 <= k < |r.1| - 1 ==> !r.1[k].Aborted?)
      && (|r.1| < |sessions| ==> r.1 != [] && r.1[|r.1| - 1].Aborted?)
  {
    PassFromStart(server, Sessions.ReadSessions(file), executeTasks);
  }

  /** The pass properties for a pass that starts with no requests sent. */
  lemma PassFromStart(server: Server, sessions: seq<string>, executeTasks: bool)
    ensures var r := RunSessions(server, [], sessions, executeTasks);
      && |r.1| <= |sessions|
      && Logins(r.0) == sessions[..|r.1|]
      && (forall k :: 0 <= k < |r.1| - 1 ==> !r.1[k].Aborted?)
      && (|r.1| < |sessions| ==> r.1 != [] && r.1[|r.1| - 1].Aborted?)
  {
    var r := RunSessions(server, [], sessions, executeTasks);
    PassLogsInInOrder(server, [], sessions, executeTasks);
    PassStopsOnlyAtAbort(server, [], sessions, executeTasks);
    assert r.0[0..] == r.0;
  }

  /** A missing or blank session file makes a pass that sends nothing. */
  lemma NoSessionsNoRequests(file: Option<seq<string>>, executeTasks: bool, server: Server)
    requires Sessions.ReadSessions(file) == []
    ensures ProcessSessions(file, executeTasks, server) == ([], [])
  {
  }
}
