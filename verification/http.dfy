/** The HTTP side of the bot, reduced to what it decides: which URL a call
    goes to, which headers it carries, and how `api_request` turns a
    transport reply into a decoded body or `None`. The transport itself is
    an input: a `Reply` says what the server (or the network) answered. */
module Http {
  import opened Wrappers
  import opened Json

  datatype Method = GET | POST

  /** What a request produced: the transport raised (connection error,
      timeout, ...), or a status code with a body that is JSON (`Some`) or
      not (`None`). */
  datatype Reply = Unreachable | Reply(status: int, body: Option<Json>)

  const Base := "https://fintopio-tg.fintopio.com/api"
  const AuthUrl := Base + "/auth/telegram"
  const CheckInUrl := Base + "/daily-checkins"
  const BalanceUrl := Base + "/fast/init"
  const DiamondStateUrl := Base + "/clicker/diamond/state"
  const DiamondCompleteUrl := Base + "/clicker/diamond/complete"
  const FarmStateUrl := Base + "/farming/state"
  const ClaimFarmUrl := Base + "/farming/claim"
  const TasksUrl := Base + "/hold/tasks"

  /** The fixed browser-like headers every request starts from. */
  const Headers: map<string, string> := map[
    "accept" := "application/json, text/plain, */*",
    "accept-language" := "en-US,en;q=0.9",
    "priority" := "u=1, i",
    "sec-ch-ua" := "\"Chromium\";v=\"128\", \"Not;A=Brand\";v=\"24\", \"Microsoft Edge\";v=\"128\", \"Microsoft Edge WebView2\";v=\"128\"",
    "sec-ch-ua-mobile" := "?0",
    "sec-ch-ua-platform" := "\"Windows\"",
    "sec-fetch-dest" := "empty",
    "sec-fetch-mode" := "cors",
    "sec-fetch-site" := "same-origin",
    "webapp" := "true",
    "Referer" := "https://fintopio-tg.fintopio.com/hold",
    "Referrer-Policy" := "strict-origin-when-cross-origin"
  ]

  /** Python's truth value of the optional token argument: `None` and the
      empty string are false. */
  predicate HasToken(token: Option<string>) {
    token.Some? && token.value != ""
  }

  /** The headers `api_request` sends: a copy of `Headers`, plus
      `authorization: Bearer <token>` exactly when the token is truthy. */
  function RequestHeaders(token: Option<string>): (hdr: map<string, string>)
    ensures "authorization" in hdr <==> HasToken(token)
    ensures HasToken(token) ==> hdr["authorization"] == "Bearer " + token.value
    ensures forall k :: k in Headers ==> k in hdr && hdr[k] == Headers[k]
    ensures forall k :: k in hdr && k != "authorization" ==> k in Headers
  {
    assert "authorization" !in Headers;
    if HasToken(token) then Headers["authorization" := "Bearer " + token.value] else Headers
  }

  /** `api_request`'s result: `raise_for_status` rejects the statuses from 400
      up to (not including) 600, a body that is not JSON makes `.json()`
      raise, and every such failure, like a transport failure, yields `None`
      (here `Null`, which is also what a JSON `null` body decodes to). */
  function ApiRequest(reply: Reply): (res: Json)
    ensures res != Null ==> reply.Reply? && !(400 <= reply.status < 600) && reply.body == Some(res)
    ensures reply.Reply? && !(400 <= reply.status < 600) && reply.body.Some? ==> res == reply.body.value
  {
    match reply
    case Unreachable => Null
    case Reply(status, body) =>
      if 400 <= status < 600 then Null
      else body.GetOr(Null)
  }
}
