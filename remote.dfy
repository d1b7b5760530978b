/** A remote HTTP service seen from the portal: each request is answered by the
    next reply of a script, and every request sent is recorded. The script
    stands for whatever the real service (ELRR, XDS) would answer. */
module Remote {
  import opened Outcomes
  import opened JsonValues

  datatype Verb = GET | POST | PUT | DELETE

  /** A request: verb, URL, query parameters and JSON body (JNull when none). */
  datatype Request = Request(verb: Verb, url: string, params: Dict, body: Json)

  /** What came back: a status code with a JSON body, a status code with a body
      that is not JSON (so `resp.json()` raises), or no answer at all (the
      `requests` call raised: timeout, refused connection). */
  datatype Reply = Reply(status: int, body: Json) | NonJson(status: int) | Unreachable

  function StatusOf(r: Reply): Option<int> {
    match r
    case Reply(s, _) => Some(s)
    case NonJson(s) => Some(s)
    case Unreachable => None
  }

  /** `resp.json()` inside a `try ... except RequestException`: a body that does
      not decode raises `requests.JSONDecodeError`, a `RequestException`, which
      the clients turn into ConnectionError. */
  function DecodedBody(r: Reply): (j: Result<Json>)
    requires !r.Unreachable?
    ensures j.Ok? <==> r.Reply?
    ensures j.Err? ==> j.error == ConnectionError
  {
    if r.Reply? then Ok(r.body) else Err(ConnectionError)
  }

  /** The reply the next request receives. */
  function Next(script: seq<Reply>): Reply {
    if script == [] then Unreachable else script[0]
  }

  /** The script once the next reply is taken. */
  function Rest(script: seq<Reply>): seq<Reply> {
    if script == [] then [] else script[1..]
  }

  class Service {
    /** The replies still to come, in order. */
    var script: seq<Reply>
    /** Every request sent so far, in order. */
    var sent: seq<Request>

    constructor (replies: seq<Reply>)
      ensures script == replies && sent == []
    {
      script := replies;
      sent := [];
    }

    /** Sends one request and takes the next scripted reply; once the script is
        exhausted the service no longer answers. */
    method Exchange(req: Request) returns (reply: Reply)
      modifies this
      ensures sent == old(sent) + [req]
      ensures reply == Next(old(script)) && script == Rest(old(script))
    {
      sent := sent + [req];
      if script == [] {
        reply := Unreachable;
      } else {
        reply := script[0];
        script := script[1..];
      }
    }
  }
}
