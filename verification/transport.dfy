/**
 * The request/response layer under the connector: the requests it issues to the
 * Franka Desk web service and the bounded retry loop `__call`
 * (armer_panda/PandaConnector.py).
 *
 * The HTTP transport itself is not modelled. Its behaviour is an oracle: a
 * sequence of replies, one per transport attempt, in the order the attempts
 * happen. An attempt past the end of the sequence raises, like an unreachable
 * host would.
 */
module Transport {
  import opened Options

  datatype Method = Get | Post | Delete

  /** The JSON document a request carries, if any. */
  datatype Payload =
    | NoPayload
    | LoginPayload(login: string, password: string)
    | RequestedBy(user: string)
    | TokenPayload(token: Option<string>)

  /**
   * One request as it leaves the session: verb (HTTP method), path on the controller,
   * JSON payload, the session's `authorization` cookie and the session's
   * `X-Control-Token` header.
   */
  datatype Request = Request(
    verb: Method,
    path: string,
    payload: Payload,
    cookie: Option<string>,
    controlToken: Option<string>)

  /**
   * A reply body, already decoded. Each endpoint reads only its own fields:
   * `text` (login, system version), `tokenForceTimeout` (safety), `token` and
   * `id` (control-token request) and `activeToken` (control-token query).
   */
  datatype Body = Body(
    text: string,
    tokenForceTimeout: int,
    token: string,
    id: int,
    activeToken: Option<int>)

  /** What one transport attempt yields: an exception, or a status and a body. */
  datatype Reply = Raised | Response(status: int, body: Body)

  predicate Succeeded(r: Reply) {
    r.Response? && r.status == 200
  }

  /** The reply to attempt `i`; attempts past the end of the oracle raise. */
  function At(o: seq<Reply>, i: nat): Reply {
    if i < |o| then o[i] else Raised
  }

  /** The oracle left after `n` attempts. */
  function Drop(o: seq<Reply>, n: nat): (rest: seq<Reply>)
    ensures forall i: nat :: At(rest, i) == At(o, n + i)
  {
    if n <= |o| then o[n..] else []
  }

  /** The result of `__call`: `(True, resp)` or `(False, None)`, with the attempts made. */
  datatype CallResult = Answered(body: Body, used: nat) | GaveUp(used: nat)

  /** How many attempts `while attempts < retries + 1` allows. */
  function Attempts(retries: int): nat {
    if retries < 0 then 0 else retries + 1
  }

  /** Attempts `k` up to `n` (exclusive) of the retry loop. */
  function CallFrom(o: seq<Reply>, k: nat, n: nat): (r: CallResult)
    requires k <= n
    decreases n - k
    ensures k <= r.used <= n
    ensures r.GaveUp? ==> r.used == n && forall i :: k <= i < n ==> !Succeeded(At(o, i))
    ensures r.Answered? ==>
              && k < r.used
              && Succeeded(At(o, r.used - 1))
              && r.body == At(o, r.used - 1).body
              && forall i :: k <= i < r.used - 1 ==> !Succeeded(At(o, i))
  {
    if k == n then GaveUp(n)
    else if Succeeded(At(o, k)) then Answered(At(o, k).body, k + 1)
    else CallFrom(o, k + 1, n)
  }

  /**
   * `__call(..., retries)`: the first 200 reply among the first `retries + 1`
   * attempts is returned at once; non-200 replies and exceptions are both
   * counted as failed attempts; when all attempts fail the call gives up.
   */
  function Call(o: seq<Reply>, retries: int): (r: CallResult)
    ensures r.Answered? <==> exists i :: 0 <= i < Attempts(retries) && Succeeded(At(o, i))
    ensures r.GaveUp? ==> r.used == Attempts(retries)
    ensures r.Answered? ==>
              && 1 <= r.used <= Attempts(retries)
              && Succeeded(At(o, r.used - 1))
              && r.body == At(o, r.used - 1).body
              && forall i :: 0 <= i < r.used - 1 ==> !Succeeded(At(o, i))
  {
    CallFrom(o, 0, Attempts(retries))
  }

  /** The requests one `__call` sends: the same request once per attempt. */
  function Repeat(req: Request, n: nat): (sent: seq<Request>)
    ensures |sent| == n
    ensures forall i :: 0 <= i < n ==> sent[i] == req
  {
    seq(n, _ => req)
  }

  /**
   * The retry loop as written: a counter of failed attempts, bumped on a
   * non-200 status and on an exception alike. `attempts` out is the number of
   * transport attempts actually made.
   */
  method CallLoop(o: seq<Reply>, retries: int) returns (ok: bool, body: Option<Body>, attempts: nat)
    ensures ok <==> exists i :: 0 <= i < Attempts(retries) && Succeeded(At(o, i))
    ensures ok <==> body.Some?
    ensures attempts <= Attempts(retries)
    ensures !ok ==> attempts == Attempts(retries)
    ensures ok ==> 1 <= attempts && Succeeded(At(o, attempts - 1)) && body.value == At(o, attempts - 1).body
    ensures ok ==> forall i :: 0 <= i < attempts - 1 ==> !Succeeded(At(o, i))
    ensures Call(o, retries) == if ok then Answered(body.value, attempts) else GaveUp(attempts)
  {
    var failed: nat := 0;
    while failed < retries + 1
      invariant failed <= Attempts(retries)
      invariant forall i :: 0 <= i < failed ==> !Succeeded(At(o, i))
      invariant CallFrom(o, failed, Attempts(retries)) == Call(o, retries)
      decreases retries + 1 - failed
    {
      var reply := At(o, failed);
      if reply.Response? && reply.status == 200 {
        return true, Some(reply.body), failed + 1;
      }
      failed := failed + 1;
    }
    return false, None, failed;
  }

  /** A transport that never answers 200 gets exactly `retries + 1` attempts and a failure. */
  lemma NeverSucceedingTransport(o: seq<Reply>, retries: nat)
    requires forall i :: 0 <= i < |o| ==> !Succeeded(o[i])
    ensures Call(o, retries) == GaveUp(retries + 1)
  {
    forall i | 0 <= i < Attempts(retries)
      ensures !Succeeded(At(o, i))
    {
    }
  }
}
