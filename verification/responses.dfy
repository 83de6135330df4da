/** The rules by which the bot turns a decoded response into an outcome.
    Each function follows the Python expression it models operation by
    operation (truthiness, `in`, `.get`, subscription), so an exception the
    Python code would raise shows up as `Raise`; each contract then says what
    the rule decides in terms of the response's fields. */
module Responses {
  import opened Wrappers
  import opened Json
  import opened Http

  // ---------------------------------------------------------------------
  // login

  /** `login`: `res.get("token") if res else None`. The token is returned
      as decoded; a falsy token (missing, `null`, empty, ...) means the login
      failed. */
  function Login(res: Json): (r: Result<Json>)
    ensures r.Raise? <==> Truthy(res) && !res.Obj?
    ensures r.Ok? && Truthy(r.value) <==> res.Obj? && "token" in res.fields && Truthy(res.fields["token"])
    ensures r.Ok? && Truthy(r.value) ==> r.value == res.fields["token"]
  {
    if Truthy(res) then Get(res, "token", Null) else Ok(Null)
  }

  // ---------------------------------------------------------------------
  // check_in

  datatype CheckInOutcome =
    | CheckedIn         // "Daily check-in successful."
    | AlreadyCheckedIn  // "Already checked in today."
    | NoCheckIn         // "Check-in already done or error."

  /** `check_in`: `res and "dailyReward" in res and not res.get("claimed", True)`
      decides success; any other truthy response reads as already claimed. */
  function CheckIn(res: Json): (r: Result<CheckInOutcome>)
    ensures r == Ok(CheckedIn) <==>
      res.Obj? && "dailyReward" in res.fields && "claimed" in res.fields && !Truthy(res.fields["claimed"])
    ensures r == Ok(NoCheckIn) <==> !Truthy(res)
    ensures r.Raise? <==>
      (Truthy(res) &&
       (res.Num? || res.Bool? || (res.Arr? && Str("dailyReward") in res.items)
        || (res.Str? && IsInfix("dailyReward", res.s))))
  {
    if !Truthy(res) then Ok(NoCheckIn)
    else
      var hasReward :- Contains(res, "dailyReward");
      if !hasReward then Ok(AlreadyCheckedIn)
      else
        var claimed :- Get(res, "claimed", Bool(true));
        if !Truthy(claimed) then Ok(CheckedIn) else Ok(AlreadyCheckedIn)
  }

  // ---------------------------------------------------------------------
  // check_balance

  /** What `check_balance` reads. It returns the `balance` of an `Account`,
      and the string "0" when no response came back. */
  datatype BalanceReport =
    | Account(username: Json, balance: Json)
    | BalanceUnavailable

  /** `obj.get(outer, {}).get(inner, default)` read on the fields directly:
      the nested value when both levels are present, the default when either
      is missing. Only meaningful when the outer value is an object. */
  function Nested(fields: map<string, Json>, outer: string, inner: string, default: Json): Json {
    if outer in fields && fields[outer].Obj? && inner in fields[outer].fields
    then fields[outer].fields[inner]
    else default
  }

  /** An optional nested object: absent, or present and a dictionary. */
  predicate ObjectOrAbsent(fields: map<string, Json>, key: string) {
    key !in fields || fields[key].Obj?
  }

  /** `check_balance`: username from `profile.telegramUsername` (default
      "Unknown"), balance from `balance.balance` (default "0"). */
  function CheckBalance(res: Json): (r: Result<BalanceReport>)
    ensures !Truthy(res) ==> r == Ok(BalanceUnavailable)
    ensures Truthy(res) && !res.Obj? ==> r == Raise(AttributeError)
    ensures res.Obj? && Truthy(res) ==>
      (r.Ok? <==> ObjectOrAbsent(res.fields, "profile") && ObjectOrAbsent(res.fields, "balance"))
    ensures res.Obj? && r.Ok? && Truthy(res) ==>
      r.value == Account(Nested(res.fields, "profile", "telegramUsername", Str("Unknown")),
                         Nested(res.fields, "balance", "balance", Str("0")))
  {
    if !Truthy(res) then Ok(BalanceUnavailable)
    else
      var profile :- Get(res, "profile", Obj(map[]));
      var username :- Get(profile, "telegramUsername", Str("Unknown"));
      var balances :- Get(res, "balance", Obj(map[]));
      var balance :- Get(balances, "balance", Str("0"));
      Ok(Account(username, balance))
  }

  // ---------------------------------------------------------------------
  // get_farming_state

  datatype FarmingState =
    | Farmed(data: Json)
    | Farming(data: Json)
    | Idling(data: Json)
    | FarmError  // ("error", {}) for a status other than 200
    | NoState    // the bare {} the exception handler returns

  /** `ms // 1000` accepts integers and booleans; anything else raises. */
  function Millis(left: Json): Result<int> {
    match left
    case Num(n) => Ok(n)
    case Bool(b) => Ok(if b then 1 else 0)
    case _ => Raise(TypeError)
  }

  /** The farming-time left field can be read and formatted. */
  predicate LeftTimeReadable(fields: map<string, Json>) {
    ObjectOrAbsent(fields, "timings")
    && ("timings" in fields && "left" in fields["timings"].fields ==>
          (fields["timings"].fields["left"].Num? || fields["timings"].fields["left"].Bool?))
  }

  /** The classification of a 200 body, as the code computes it. An
      exception anywhere in it is caught and turned into `NoState`. */
  function ClassifyBody(data: Json): Result<FarmingState> {
    var state :- Get(data, "state", Str(""));
    var _ :- Get(data, "farmed", Num(0));
    if state == Str("farmed") then Ok(Farmed(data))
    else if state == Str("farming") then
      var timings :- Get(data, "timings", Obj(map[]));
      var left :- Get(timings, "left", Num(0));
      // the formatted time is only logged; what matters is whether
      // `format_time(left)` can compute it at all
      var _ :- Millis(left);
      Ok(Farming(data))
    else Ok(Idling(data))
  }

  /** `get_farming_state`: it reads the status code itself (no
      `raise_for_status`), so only 200 is a success. */
  function FarmingStateOf(reply: Reply): (r: FarmingState)
    ensures reply.Unreachable? ==> r == NoState
    ensures r == FarmError <==> reply.Reply? && reply.status != 200
    ensures reply.Reply? && reply.status == 200 && reply.body.None? ==> r == NoState
    ensures reply.Reply? && reply.status == 200 && reply.body.Some? ==>
      var data := reply.body.value;
      && (r.Farmed? <==> HasString(data, "state", "farmed"))
      && (r.Farming? <==> HasString(data, "state", "farming") && LeftTimeReadable(data.fields))
      && (r.Idling? <==> data.Obj? && !HasString(data, "state", "farmed") && !HasString(data, "state", "farming"))
      && (r.Farmed? || r.Farming? || r.Idling? ==> r.data == data)
  {
    match reply
    case Unreachable => NoState
    case Reply(status, body) =>
      if status != 200 then FarmError
      else if body.None? then NoState
      else
        match ClassifyBody(body.value)
        case Ok(state) => state
        case Raise(_) => NoState
  }

  // ---------------------------------------------------------------------
  // execute_task

  datatype TaskAction =
    | Execute(taskId: Json)            // POST <tasks>/<id>/execute
    | AlreadyInProgress(taskId: Json)  // logged, nothing sent
    | UnknownStatus(taskId: Json)      // logged, nothing sent

  /** A task entry `execute_task` can read: a dictionary with an "id". */
  predicate WellFormedTask(task: Json) {
    task.Obj? && "id" in task.fields
  }

  /** `execute_task`'s decision: `task["id"]`, then `task.get("status")`
      compared with "available" and "in-progress". */
  function PlanTask(task: Json): (r: Result<TaskAction>)
    ensures r.Ok? <==> WellFormedTask(task)
    ensures r.Ok? ==> r.value.taskId == task.fields["id"]
    ensures r.Ok? && r.value.Execute? <==> WellFormedTask(task) && HasString(task, "status", "available")
    ensures r.Ok? && r.value.AlreadyInProgress? <==> WellFormedTask(task) && HasString(task, "status", "in-progress")
  {
    var id :- Index(task, "id");
    match Get(task, "status", Null)
    case Raise(e) => Raise(e)
    case Ok(status) =>
      if status == Str("available") then Ok(Execute(id))
      else if status == Str("in-progress") then Ok(AlreadyInProgress(id))
      else Ok(UnknownStatus(id))
  }

  // ---------------------------------------------------------------------
  // fetch_tasks

  /** The `"tasks"` value can be measured with `len` and walked by the
      logging loop: a list of well-formed tasks, or an empty dictionary or
      string (which iterate over nothing). */
  predicate ReadableTaskList(v: Json) {
    || (v.Arr? && forall k :: 0 <= k < |v.items| ==> WellFormedTask(v.items[k]))
    || v == Obj(map[])
    || v == Str("")
  }

  /** The logging loop's `task['id']` and `task.get('status')` over a list. */
  function LogTasks(items: seq<Json>): (r: Result<()>)
    ensures r.Ok? <==> forall k :: 0 <= k < |items| ==> WellFormedTask(items[k])
  {
    if items == [] then Ok(())
    else
      var _ :- Index(items[0], "id");
      var _ :- Get(items[0], "status", Null);
      LogTasks(items[1..])
  }

  /** `len(res['tasks'])`, then the logging loop; a non-empty dictionary or
      string yields string elements, whose `['id']` raises. */
  function ListTasks(tasks: Json): Result<seq<Json>> {
    match tasks
    case Arr(items) =>
      var _ :- LogTasks(items);
      Ok(items)
    case Obj(fields) => if fields == map[] then Ok([]) else Raise(TypeError)
    case Str(s) => if s == "" then Ok([]) else Raise(TypeError)
    case _ => Raise(TypeError)
  }

  /** `fetch_tasks`: the `"tasks"` list of a truthy response that has one,
      otherwise the empty list. An empty dictionary or string under
      `"tasks"` is returned by the code as is; it is falsy, so the caller
      treats it as the empty list, which is how it is modelled. */
  function FetchTasks(res: Json): (r: Result<seq<Json>>)
    ensures !Truthy(res) ==> r == Ok([])
    ensures r.Ok? ==> forall k :: 0 <= k < |r.value| ==> WellFormedTask(r.value[k])
    ensures r.Ok? && r.value != [] ==> res.Obj? && "tasks" in res.fields && res.fields["tasks"] == Arr(r.value)
    ensures res.Obj? && "tasks" in res.fields && res.fields["tasks"].Arr? && r.Ok? ==>
      r.value == res.fields["tasks"].items
    ensures res.Obj? ==>
      (r.Raise? <==> "tasks" in res.fields && !ReadableTaskList(res.fields["tasks"]))
    ensures !res.Obj? ==>
      (r.Raise? <==>
        (Truthy(res) &&
         (res.Num? || res.Bool? || (res.Arr? && Str("tasks") in res.items)
          || (res.Str? && IsInfix("tasks", res.s)))))
    ensures !res.Obj? && r.Ok? ==> r.value == []
  {
    if !Truthy(res) then Ok([])
    else
      var hasTasks :- Contains(res, "tasks");
      if !hasTasks then Ok([])
      else
        var tasks :- Index(res, "tasks");
        ListTasks(tasks)
  }

  // ---------------------------------------------------------------------
  // Properties across the rules

  /** Only "available" leads to a request: a task reported as "verified" (or
      with any status other than "available") is never executed. */
  lemma OnlyAvailableTasksExecute(task: Json)
    ensures PlanTask(task).Ok? && PlanTask(task).value.Execute? ==> HasString(task, "status", "available")
    ensures HasString(task, "status", "verified") ==> !(PlanTask(task).Ok? && PlanTask(task).value.Execute?)
  {
  }

  /** The logging loop in `fetch_tasks` already reads every task the way
      `execute_task` does, so no task it returns can make `execute_task` raise. */
  lemma FetchedTasksArePlannable(res: Json)
    requires FetchTasks(res).Ok?
    ensures forall k :: 0 <= k < |FetchTasks(res).value| ==> PlanTask(FetchTasks(res).value[k]).Ok?
  {
  }

  /** A login yields a usable token exactly when the response is a dictionary
      with a truthy "token"; an object response never makes `login` raise. */
  lemma LoginTokenIffField(res: Json)
    requires res.Obj?
    ensures Login(res).Ok?
    ensures Truthy(Login(res).value) <==> "token" in res.fields && Truthy(res.fields["token"])
  {
  }
}
