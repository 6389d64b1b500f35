/**
 * `PandaConnector` (armer_panda/PandaConnector.py): the Franka Desk session
 * and the single-point-of-control token lifecycle.
 *
 * The connector is an immutable record; every operation maps a connector, the
 * transport oracle (one reply per attempt) and, for the forced token request,
 * a sequence of clock readings, to a `Step`: the new connector, the value the
 * source returns, the requests sent (one per transport attempt, so the number
 * of replies consumed) and the number of clock readings consumed.
 */
module Connector {
  import opened Options
  import opened Transport
  import Version

  /**
   * The connector's attributes. `cookie` is the session's `authorization`
   * cookie and `headerToken` its `X-Control-Token` header; both belong to the
   * `requests.Session`, which `connect` replaces.
   */
  datatype Connector = Connector(
    username: string,
    password: string,
    connected: bool,
    cookie: Option<string>,
    version: Option<string>,
    controlTokenReq: bool,
    controlToken: Option<string>,
    controlTokenId: Option<int>,
    headerToken: Option<string>)

  /** `__init__`: not connected, no version, no token. */
  function Init(username: string, password: string): (r: Connector)
    ensures r.username == username && r.password == password
    ensures !r.connected && r.cookie.None? && r.version.None?
    ensures !r.controlTokenReq && r.controlToken.None? && r.controlTokenId.None? && r.headerToken.None?
  {
    Connector(username, password, false, None, None, false, None, None, None)
  }

  /** What an operation that may meet an unparsable version does: return a flag, or raise. */
  datatype Outcome = Returns(ok: bool) | RaisesInvalidVersion

  datatype Step<T> = Step(conn: Connector, value: T, sent: seq<Request>, ticks: nat)

  /** The `retries` default of `__call`, used by every request but the login. */
  const DefaultRetries := 5

  const LoginPath := "/admin/api/login"
  const LogoutPath := "/admin/api/logout"
  const SystemVersionPath := "/admin/api/system-version"
  const SafetyPath := "/admin/api/safety"
  const TokenRequestPath := "/admin/api/control-token/request"
  const ForcedTokenRequestPath := "/admin/api/control-token/request?force"
  const ControlTokenPath := "/admin/api/control-token"
  const FciPath := "/admin/api/control-token/fci"
  const OpenBrakesPath := "/desk/api/robot/open-brakes"
  const CloseBrakesPath := "/desk/api/robot/close-brakes"
  const HomingPath := "/desk/api/gripper/homing"

  /** A request as the connector's current session sends it. */
  function Req(c: Connector, verb: Method, path: string, payload: Payload): Request {
    Request(verb, path, payload, c.cookie, c.headerToken)
  }

  function LoginRequest(c: Connector): Request {
    Req(c, Post, LoginPath, LoginPayload(c.username, c.password))
  }

  function VersionQuery(c: Connector): Request {
    Req(c, Get, SystemVersionPath, NoPayload)
  }

  function SafetyQuery(c: Connector): Request {
    Req(c, Get, SafetyPath, NoPayload)
  }

  function TokenRequest(c: Connector, force: bool): Request {
    Req(c, Post, if force then ForcedTokenRequestPath else TokenRequestPath, RequestedBy(c.username))
  }

  function ActiveQuery(c: Connector): Request {
    Req(c, Get, ControlTokenPath, NoPayload)
  }

  function ReleaseRequest(c: Connector): Request {
    Req(c, Delete, ControlTokenPath, TokenPayload(c.controlToken))
  }

  /** All of `sent` is `req`. */
  predicate Only(sent: seq<Request>, req: Request) {
    forall i :: 0 <= i < |sent| ==> sent[i] == req
  }

  /** Some attempt among the first `retries + 1` is answered with status 200. */
  predicate Answers(o: seq<Reply>, retries: int) {
    exists i :: 0 <= i < Attempts(retries) && Succeeded(At(o, i))
  }

  // ---------------------------------------------------------------------------
  // Session

  /** `requests.Session()`: a fresh session has no cookie and no control-token header. */
  function NewSession(c: Connector): (r: Connector)
    ensures r.cookie.None? && r.headerToken.None?
    ensures r.(cookie := c.cookie, headerToken := c.headerToken) == c
  {
    c.(cookie := None, headerToken := None)
  }

  /** `login`: on a 200 reply the body becomes the authorization cookie, verbatim. */
  function Login(c: Connector, o: seq<Reply>, retries: int): (r: Step<bool>)
    ensures Only(r.sent, LoginRequest(c)) && r.ticks == 0
    ensures r.value <==> Answers(o, retries)
    ensures !r.value ==> r.conn == c && |r.sent| == Attempts(retries)
    ensures r.value ==>
              && 1 <= |r.sent| <= Attempts(retries)
              && Succeeded(At(o, |r.sent| - 1))
              && r.conn == c.(connected := true, cookie := Some(At(o, |r.sent| - 1).body.text))
  {
    var call := Call(o, retries);
    var sent := Repeat(LoginRequest(c), call.used);
    if call.Answered? then Step(c.(cookie := Some(call.body.text), connected := true), true, sent, 0)
    else Step(c, false, sent, 0)
  }

  /** `logout`: success clears `connected` and nothing else; the cookie stays. */
  function Logout(c: Connector, o: seq<Reply>): (r: Step<bool>)
    ensures Only(r.sent, Req(c, Post, LogoutPath, NoPayload)) && r.ticks == 0
    ensures |r.sent| <= Attempts(DefaultRetries)
    ensures r.value <==> Answers(o, DefaultRetries)
    ensures r.value ==> r.conn == c.(connected := false) && r.conn.cookie == c.cookie
    ensures !r.value ==> r.conn == c
  {
    var call := Call(o, DefaultRetries);
    var sent := Repeat(Req(c, Post, LogoutPath, NoPayload), call.used);
    if call.Answered? then Step(c.(connected := false), true, sent, 0)
    else Step(c, false, sent, 0)
  }

  /**
   * `read_system_version`. The extracted version is stored before it is
   * parsed, so an unparsable version is stored and then raises; a parsed
   * version at or past 4.2.0 sets `controlTokenReq`, which is never reset.
   */
  function ReadSystemVersion(c: Connector, o: seq<Reply>): (r: Step<Outcome>)
    ensures Only(r.sent, VersionQuery(c)) && r.ticks == 0
    ensures |r.sent| <= Attempts(DefaultRetries)
    ensures r.value == Returns(false) <==> !Answers(o, DefaultRetries)
    ensures r.value == Returns(false) ==> r.conn == c
    ensures r.value != Returns(false) ==>
              && |r.sent| >= 1 && Succeeded(At(o, |r.sent| - 1))
              && (r.conn, r.value) == StoreVersion(c, At(o, |r.sent| - 1).body.text)
    ensures c.controlTokenReq ==> r.conn.controlTokenReq
  {
    var call := Call(o, DefaultRetries);
    var sent := Repeat(VersionQuery(c), call.used);
    assert call.GaveUp? <==> !Answers(o, DefaultRetries);
    if call.GaveUp? then Step(c, Returns(false), sent, 0)
    else
      var stored := StoreVersion(c, call.body.text);
      Step(stored.0, stored.1, sent, 0)
  }

  /** The answered branch of `read_system_version`: store the version, then parse and compare it. */
  function StoreVersion(c: Connector, text: string): (r: (Connector, Outcome))
    ensures var v := Version.ExtractVersion(text);
            && r.0 == c.(version := Some(v), controlTokenReq := r.0.controlTokenReq)
            && r.1 != Returns(false)
            && (r.1 == Returns(true) <==> Version.ParseVersion(v).Some?)
            && (r.1 == Returns(true) ==>
                  (r.0.controlTokenReq <==> c.controlTokenReq || Version.NeedsControlToken(Version.ParseVersion(v).value)))
            && (r.1 == RaisesInvalidVersion ==> r.0.controlTokenReq == c.controlTokenReq)
  {
    var v := Version.ExtractVersion(text);
    var stored := c.(version := Some(v));
    match Version.ParseVersion(v)
    case None => (stored, RaisesInvalidVersion)
    case Some(parts) => (stored.(controlTokenReq := c.controlTokenReq || Version.NeedsControlToken(parts)), Returns(true))
  }

  /**
   * `connect`: a fresh session, `login`, then `read_system_version` only if
   * the login succeeded.
   */
  function Connect(c: Connector, o: seq<Reply>, retries: int): (r: Step<Outcome>)
    ensures r.ticks == 0
    ensures r.value == Returns(true) <==>
              && Login(NewSession(c), o, retries).value
              && ReadSystemVersion(Login(NewSession(c), o, retries).conn,
                                   Drop(o, |Login(NewSession(c), o, retries).sent|)).value == Returns(true)
    ensures !Answers(o, retries) ==>
              && r.value == Returns(false)
              && r.conn == NewSession(c)
              && Only(r.sent, LoginRequest(NewSession(c)))
    ensures r.conn.controlToken == c.controlToken && r.conn.controlTokenId == c.controlTokenId
    ensures r.conn.username == c.username && r.conn.password == c.password
    ensures c.controlTokenReq ==> r.conn.controlTokenReq
  {
    var login := Login(NewSession(c), o, retries);
    if !login.value then Step(login.conn, Returns(false), login.sent, 0)
    else
      var read := ReadSystemVersion(login.conn, Drop(o, |login.sent|));
      Step(read.conn, read.value, login.sent + read.sent, 0)
  }

  // ---------------------------------------------------------------------------
  // Control token

  /** The reply is a 200 whose `activeToken` carries this connector's token id. */
  predicate ReportsHeld(c: Connector, reply: Reply) {
    && Succeeded(reply)
    && reply.body.activeToken.Some?
    && c.controlTokenId == Some(reply.body.activeToken.value)
  }

  /**
   * `is_control_token_active`: false when the query fails or nobody holds
   * control, otherwise whether the active token's id is ours. Read-only.
   */
  function IsControlTokenActive(c: Connector, o: seq<Reply>): (r: Step<bool>)
    ensures r.conn == c && r.ticks == 0
    ensures Only(r.sent, ActiveQuery(c))
    ensures 1 <= |r.sent| <= Attempts(DefaultRetries)
    ensures forall i :: 0 <= i < |r.sent| - 1 ==> !Succeeded(At(o, i))
    ensures r.value <==> ReportsHeld(c, At(o, |r.sent| - 1))
    ensures !Answers(o, DefaultRetries) ==> !r.value
    ensures c.controlTokenId.None? ==> !r.value
  {
    var call := Call(o, DefaultRetries);
    var sent := Repeat(ActiveQuery(c), call.used);
    var held := call.Answered? && call.body.activeToken.Some? && c.controlTokenId == Some(call.body.activeToken.value);
    Step(c, held, sent, 0)
  }

  /** `can_control`: always true without single point of control, otherwise the activity check. */
  function CanControl(c: Connector, o: seq<Reply>): (r: Step<bool>)
    ensures !c.controlTokenReq ==> r == Step(c, true, [], 0)
    ensures c.controlTokenReq ==> r == IsControlTokenActive(c, o)
  {
    if c.controlTokenReq && IsControlTokenActive(c, o).value then IsControlTokenActive(c, o)
    else if !c.controlTokenReq then Step(c, true, [], 0)
    else IsControlTokenActive(c, o)
  }

  /** Storing a granted token: value, id and the session's `X-Control-Token` header. */
  function Holding(c: Connector, grant: Body): (h: Connector)
    ensures h.controlToken == h.headerToken == Some(grant.token)
    ensures h.controlTokenId == Some(grant.id)
    ensures h.(controlToken := c.controlToken, controlTokenId := c.controlTokenId, headerToken := c.headerToken) == c
  {
    c.(controlToken := Some(grant.token), controlTokenId := Some(grant.id), headerToken := Some(grant.token))
  }

  /**
   * The non-forced branch of `acquire_control_token`: one token request and,
   * if it is granted, exactly one activity check, with no waiting.
   */
  function StandardAcquire(c: Connector, o: seq<Reply>): (r: Step<bool>)
    ensures r.ticks == 0
    ensures !Answers(o, DefaultRetries) ==>
              && !r.value && r.conn == c
              && |r.sent| == Attempts(DefaultRetries) && Only(r.sent, TokenRequest(c, false))
    ensures Answers(o, DefaultRetries) ==>
              var n := Call(o, DefaultRetries).used;
              var held := Holding(c, Call(o, DefaultRetries).body);
              var check := IsControlTokenActive(held, Drop(o, n));
              && 1 <= n <= |r.sent|
              && r.conn == held
              && Only(r.sent[..n], TokenRequest(c, false))
              && r.sent[n..] == check.sent
              && r.value == check.value
    ensures |r.sent| >= 1 && r.sent[0] == TokenRequest(c, false)
    ensures r.value ==> |r.sent| >= 1 && ReportsHeld(r.conn, At(o, |r.sent| - 1))
  {
    var call := Call(o, DefaultRetries);
    var sent := Repeat(TokenRequest(c, false), call.used);
    if call.GaveUp? then Step(c, false, sent, 0)
    else
      var held := Holding(c, call.body);
      var check := IsControlTokenActive(held, Drop(o, call.used));
      assert (sent + check.sent)[..call.used] == sent;
      if check.value then
        HeldAfterDrop(held, o, call.used, |check.sent|);
        Step(held, check.value, sent + check.sent, 0)
      else
        Step(held, check.value, sent + check.sent, 0)
  }

  /** Every clock reading from index `from` up to `to` (exclusive) is before the deadline. */
  predicate BeforeDeadline(clock: seq<int>, from: int, to: int, deadline: int)
    requires 0 <= from && to <= |clock|
  {
    forall j :: from <= j < to ==> clock[j] < deadline
  }

  lemma EarlierReadingBeforeDeadline(clock: seq<int>, k: nat, to: int, deadline: int)
    requires k < |clock| && clock[k] < deadline && to <= |clock|
    ensures BeforeDeadline(clock, k + 1, to, deadline) ==> BeforeDeadline(clock, k, to, deadline)
  {
  }

  /** The outcome of the forced request's wait loop. */
  datatype Poll = Poll(acquired: bool, sent: seq<Request>, ticks: nat)

  /**
   * `while time.time() < start + timeout: if self.is_control_token_active(): ...`
   * from clock reading `k` on. A clock sequence that ends is read as one past
   * the deadline. `ticks` is the number of clock readings consumed.
   */
  function PollActive(c: Connector, o: seq<Reply>, clock: seq<int>, k: nat, deadline: int): (r: Poll)
    decreases |clock| - k
    ensures r.ticks <= |clock|
    ensures Only(r.sent, ActiveQuery(c))
    ensures k >= |clock| || clock[k] >= deadline ==> !r.acquired && r.sent == []
  {
    if k >= |clock| then Poll(false, [], |clock|)
    else if clock[k] >= deadline then Poll(false, [], k + 1)
    else
      var check := IsControlTokenActive(c, o);
      if check.value then Poll(true, check.sent, k + 1)
      else
        var rest := PollActive(c, Drop(o, |check.sent|), clock, k + 1, deadline);
        Poll(rest.acquired, check.sent + rest.sent, rest.ticks)
  }

  /**
   * The wait ends with control exactly at the first activity query that
   * reports the token held; no earlier reply reported it.
   */
  lemma {:induction false} PollActiveReplies(c: Connector, o: seq<Reply>, clock: seq<int>, k: nat, deadline: int)
    decreases |clock| - k
    ensures var r := PollActive(c, o, clock, k, deadline);
            && (r.acquired ==> |r.sent| >= 1 && ReportsHeld(c, At(o, |r.sent| - 1)))
            && (forall i :: 0 <= i < |r.sent| - 1 ==> !ReportsHeld(c, At(o, i)))
            && (!r.acquired && |r.sent| > 0 ==> !ReportsHeld(c, At(o, |r.sent| - 1)))
  {
    PollActiveHeldLast(c, o, clock, k, deadline);
    PollActiveNotHeld(c, o, clock, k, deadline);
  }

  /** A wait that ends with control ends on a reply reporting our token. */
  lemma {:induction false} PollActiveHeldLast(c: Connector, o: seq<Reply>, clock: seq<int>, k: nat, deadline: int)
    decreases |clock| - k
    ensures var r := PollActive(c, o, clock, k, deadline);
            r.acquired ==> |r.sent| >= 1 && ReportsHeld(c, At(o, |r.sent| - 1))
  {
    var r := PollActive(c, o, clock, k, deadline);
    if k < |clock| && clock[k] < deadline {
      var check := IsControlTokenActive(c, o);
      if !check.value {
        var n := |check.sent|;
        var rest := PollActive(c, Drop(o, n), clock, k + 1, deadline);
        assert r.acquired == rest.acquired && |r.sent| == n + |rest.sent|;
        PollActiveHeldLast(c, Drop(o, n), clock, k + 1, deadline);
        if rest.acquired {
          HeldAfterDrop(c, o, n, |rest.sent|);
        }
      }
    }
  }

  lemma HeldAfterDrop(c: Connector, o: seq<Reply>, n: nat, m: nat)
    requires m >= 1 && ReportsHeld(c, At(Drop(o, n), m - 1))
    ensures ReportsHeld(c, At(o, n + m - 1))
  {
    assert At(Drop(o, n), m - 1) == At(o, n + (m - 1));
  }

  /** A reply sequence that ends on a held report after a prefix of `n` ends on one in the whole oracle. */
  lemma HeldAfterPrefix(c: Connector, o: seq<Reply>, n: nat, sent: seq<Request>, tail: seq<Request>)
    requires n <= |sent| && sent[n..] == tail
    requires |tail| >= 1 && ReportsHeld(c, At(Drop(o, n), |tail| - 1))
    ensures |sent| >= 1 && ReportsHeld(c, At(o, |sent| - 1))
  {
    assert |sent| == n + |tail|;
    HeldAfterDrop(c, o, n, |tail|);
  }

  /** No reply among the first `m` reports our token active. */
  predicate NoneHeld(c: Connector, o: seq<Reply>, m: int) {
    forall i :: 0 <= i < m ==> !ReportsHeld(c, At(o, i))
  }

  /** How many of a wait's queries were answered without our token active: all but the last if it acquired. */
  function NotHeldCount(p: Poll): int {
    if p.acquired then |p.sent| - 1 else |p.sent|
  }

  /** No reply of a wait reports our token active, except the last one of a wait that acquired. */
  lemma {:induction false} PollActiveNotHeld(c: Connector, o: seq<Reply>, clock: seq<int>, k: nat, deadline: int)
    decreases |clock| - k
    ensures var r := PollActive(c, o, clock, k, deadline);
            NoneHeld(c, o, NotHeldCount(r))
  {
    var r := PollActive(c, o, clock, k, deadline);
    if k < |clock| && clock[k] < deadline {
      var check := IsControlTokenActive(c, o);
      if !check.value {
        var n := |check.sent|;
        var rest := PollActive(c, Drop(o, n), clock, k + 1, deadline);
        assert NotHeldCount(r) == n + NotHeldCount(rest);
        PollActiveNotHeld(c, Drop(o, n), clock, k + 1, deadline);
        NoneHeldAfterDrop(c, o, n, NotHeldCount(rest));
      }
    }
  }

  lemma NoneHeldAfterDrop(c: Connector, o: seq<Reply>, n: nat, m: int)
    requires n >= 1 && m >= -1
    requires forall i :: 0 <= i < n - 1 ==> !Succeeded(At(o, i))
    requires !ReportsHeld(c, At(o, n - 1))
    requires NoneHeld(c, Drop(o, n), m)
    ensures NoneHeld(c, o, n + m)
  {
    forall i | n <= i < n + m
      ensures !ReportsHeld(c, At(o, i))
    {
      assert At(Drop(o, n), i - n) == At(o, n + (i - n));
    }
  }

  /** The wait gains control only at a clock reading before the deadline, every earlier one being early too. */
  lemma {:induction false} PollActiveAcquiredInTime(c: Connector, o: seq<Reply>, clock: seq<int>, k: nat, deadline: int)
    decreases |clock| - k
    ensures var r := PollActive(c, o, clock, k, deadline);
            r.acquired ==> k < r.ticks && BeforeDeadline(clock, k, r.ticks, deadline)
  {
    if k < |clock| && clock[k] < deadline {
      var check := IsControlTokenActive(c, o);
      if !check.value {
        var rest := PollActive(c, Drop(o, |check.sent|), clock, k + 1, deadline);
        PollActiveAcquiredInTime(c, Drop(o, |check.sent|), clock, k + 1, deadline);
        if rest.acquired {
          EarlierReadingBeforeDeadline(clock, k, rest.ticks, deadline);
        }
      }
    }
  }

  /**
   * A wait that ends without control stops at the first clock reading past
   * the deadline, or when the clock runs out; every reading before then was
   * early.
   */
  lemma {:induction false} PollActiveTimesOut(c: Connector, o: seq<Reply>, clock: seq<int>, k: nat, deadline: int)
    decreases |clock| - k
    ensures var r := PollActive(c, o, clock, k, deadline);
            !r.acquired ==> GaveUpAt(clock, k, r.ticks, deadline)
  {
    var r := PollActive(c, o, clock, k, deadline);
    if k >= |clock| {
      assert r.ticks == |clock|;
    } else if clock[k] >= deadline {
      assert r.ticks == k + 1;
    } else {
      var check := IsControlTokenActive(c, o);
      if !check.value {
        var rest := PollActive(c, Drop(o, |check.sent|), clock, k + 1, deadline);
        assert r.acquired == rest.acquired && r.ticks == rest.ticks;
        PollActiveTimesOut(c, Drop(o, |check.sent|), clock, k + 1, deadline);
        if !rest.acquired {
          GaveUpEarlier(clock, k, rest.ticks, deadline);
        }
      }
    }
  }

  /**
   * A wait from reading `k` that gave up at `ticks` either read the whole clock before the deadline
   * or stopped on the first reading at or past it.
   */
  predicate GaveUpAt(clock: seq<int>, k: nat, ticks: nat, deadline: int) {
    || (ticks == |clock| && BeforeDeadline(clock, k, |clock|, deadline))
    || (k < ticks <= |clock| && clock[ticks - 1] >= deadline && BeforeDeadline(clock, k, ticks - 1, deadline))
  }

  lemma GaveUpEarlier(clock: seq<int>, k: nat, ticks: nat, deadline: int)
    requires k < |clock| && clock[k] < deadline
    requires GaveUpAt(clock, k + 1, ticks, deadline)
    ensures GaveUpAt(clock, k, ticks, deadline)
  {
    if ticks == |clock| && BeforeDeadline(clock, k + 1, |clock|, deadline) {
      EarlierReadingBeforeDeadline(clock, k, |clock|, deadline);
    } else {
      EarlierReadingBeforeDeadline(clock, k, ticks - 1, deadline);
    }
  }

  /** `start = time.time()`: the first clock reading (0 for a clock that has none). */
  function Start(clock: seq<int>): int {
    if |clock| == 0 then 0 else clock[0]
  }

  /**
   * The forced branch of `acquire_control_token` after the safety query: the
   * forced token request, then polling until the token is reported active or
   * the clock reaches `start + timeout`.
   */
  function ForcedRequestAndWait(c: Connector, o: seq<Reply>, clock: seq<int>, timeout: int): (r: Step<bool>)
    ensures !Answers(o, DefaultRetries) ==>
              && !r.value && r.conn == c && r.ticks == 0
              && |r.sent| == Attempts(DefaultRetries) && Only(r.sent, TokenRequest(c, true))
    ensures Answers(o, DefaultRetries) ==>
              var m := Call(o, DefaultRetries).used;
              var held := Holding(c, Call(o, DefaultRetries).body);
              var poll := PollActive(held, Drop(o, m), clock, 1, Start(clock) + timeout);
              && 1 <= m <= |r.sent|
              && Only(r.sent[..m], TokenRequest(c, true))
              && r.sent[m..] == poll.sent
              && r.conn == held
              && r.value == poll.acquired
              && r.ticks == poll.ticks
  {
    var grant := Call(o, DefaultRetries);
    var sentGrant := Repeat(TokenRequest(c, true), grant.used);
    if grant.GaveUp? then Step(c, false, sentGrant, 0)
    else
      var held := Holding(c, grant.body);
      var poll := PollActive(held, Drop(o, grant.used), clock, 1, Start(clock) + timeout);
      var sent := sentGrant + poll.sent;
      assert sent[..grant.used] == sentGrant;
      assert sent[grant.used..] == poll.sent;
      Step(held, poll.acquired, sent, poll.ticks)
  }

  /**
   * The forced branch of `acquire_control_token`: the safety query for the
   * override timeout; if it fails, nothing else is requested.
   */
  function ForcedAcquire(c: Connector, o: seq<Reply>, clock: seq<int>): (r: Step<bool>)
    ensures !Answers(o, DefaultRetries) ==>
              && !r.value && r.conn == c && r.ticks == 0
              && |r.sent| == Attempts(DefaultRetries) && Only(r.sent, SafetyQuery(c))
    ensures Answers(o, DefaultRetries) ==>
              var n := Call(o, DefaultRetries).used;
              var rest := ForcedRequestAndWait(c, Drop(o, n), clock, Call(o, DefaultRetries).body.tokenForceTimeout);
              && 1 <= n <= |r.sent|
              && Only(r.sent[..n], SafetyQuery(c))
              && r.sent[n..] == rest.sent
              && r.conn == rest.conn && r.value == rest.value && r.ticks == rest.ticks
    ensures |r.sent| >= 1 && r.sent[0] == SafetyQuery(c)
  {
    var safety := Call(o, DefaultRetries);
    var sentSafety := Repeat(SafetyQuery(c), safety.used);
    if safety.GaveUp? then Step(c, false, sentSafety, 0)
    else
      var rest := ForcedRequestAndWait(c, Drop(o, safety.used), clock, safety.body.tokenForceTimeout);
      var sent := sentSafety + rest.sent;
      assert sent[..safety.used] == sentSafety;
      assert sent[safety.used..] == rest.sent;
      Step(rest.conn, rest.value, sent, rest.ticks)
  }

  /**
   * A step that sends `n` requests and then continues as `rest` on the remaining
   * replies ends on a held report whenever `rest` does.
   */
  lemma HeldAfterStep(o: seq<Reply>, n: nat, r: Step<bool>, rest: Step<bool>)
    requires n <= |r.sent| && r.sent[n..] == rest.sent && r.conn == rest.conn && r.value == rest.value
    requires rest.value ==> |rest.sent| >= 1 && ReportsHeld(rest.conn, At(Drop(o, n), |rest.sent| - 1))
    ensures r.value ==> |r.sent| >= 1 && ReportsHeld(r.conn, At(o, |r.sent| - 1))
  {
    if r.value {
      HeldAfterPrefix(r.conn, o, n, r.sent, rest.sent);
    }
  }

  /** A forced request succeeds only on a reply that reports the granted token active. */
  lemma ForcedRequestHeldLast(c: Connector, o: seq<Reply>, clock: seq<int>, timeout: int)
    ensures var r := ForcedRequestAndWait(c, o, clock, timeout);
            r.value ==> |r.sent| >= 1 && ReportsHeld(r.conn, At(o, |r.sent| - 1))
  {
    if Answers(o, DefaultRetries) {
      var m := Call(o, DefaultRetries).used;
      var held := Holding(c, Call(o, DefaultRetries).body);
      var poll := PollActive(held, Drop(o, m), clock, 1, Start(clock) + timeout);
      PollActiveHeldLast(held, Drop(o, m), clock, 1, Start(clock) + timeout);
      HeldAfterStep(o, m, ForcedRequestAndWait(c, o, clock, timeout), Step(held, poll.acquired, poll.sent, poll.ticks));
    }
  }

  /** A forced acquisition succeeds only on a reply that reports the granted token active. */
  lemma ForcedAcquireHeldLast(c: Connector, o: seq<Reply>, clock: seq<int>)
    ensures var r := ForcedAcquire(c, o, clock);
            r.value ==> |r.sent| >= 1 && ReportsHeld(r.conn, At(o, |r.sent| - 1))
  {
    var call := Call(o, DefaultRetries);
    if call.Answered? {
      var n := call.used;
      var timeout := call.body.tokenForceTimeout;
      ForcedRequestHeldLast(c, Drop(o, n), clock, timeout);
      HeldAfterStep(o, n, ForcedAcquire(c, o, clock), ForcedRequestAndWait(c, Drop(o, n), clock, timeout));
    }
  }

  /**
   * `acquire_control_token(force)`: success means the last reply received
   * reported the stored token active; a first request that is never
   * answered changes nothing, and only the forced branch reads the clock.
   */
  function AcquireControlToken(c: Connector, o: seq<Reply>, clock: seq<int>, force: bool): (r: Step<bool>)
    ensures r.value ==> |r.sent| >= 1 && ReportsHeld(r.conn, At(o, |r.sent| - 1))
    ensures |r.sent| >= 1 && r.sent[0] == (if force then SafetyQuery(c) else TokenRequest(c, false))
    ensures !force ==> r.ticks == 0
    ensures !Answers(o, DefaultRetries) ==> !r.value && r.conn == c
  {
    if force then
      ForcedAcquireHeldLast(c, o, clock);
      ForcedAcquire(c, o, clock)
    else
      StandardAcquire(c, o)
  }

  /**
   * `release_control_token` as written: the stored token is sent whether or
   * not it is active, and since line 147 compares instead of assigning, the
   * connector is left exactly as it was.
   */
  function ReleaseControlToken(c: Connector, o: seq<Reply>): (r: Step<bool>)
    ensures r.conn == c && r.ticks == 0
    ensures Only(r.sent, ReleaseRequest(c)) && |r.sent| <= Attempts(DefaultRetries)
    ensures forall i :: 0 <= i < |r.sent| ==> r.sent[i].payload == TokenPayload(c.controlToken)
    ensures r.value <==> Answers(o, DefaultRetries)
  {
    var call := Call(o, DefaultRetries);
    Step(c, call.Answered?, Repeat(ReleaseRequest(c), call.used), 0)
  }

  /** `release_control_token` with line 147 as an assignment: success forgets the token. */
  function ReleaseControlTokenIntended(c: Connector, o: seq<Reply>): (r: Step<bool>)
    ensures Only(r.sent, ReleaseRequest(c)) && |r.sent| <= Attempts(DefaultRetries) && r.ticks == 0
    ensures r.value <==> Answers(o, DefaultRetries)
    ensures r.value ==> r.conn == c.(controlToken := None) && r.conn.controlToken.None?
    ensures !r.value ==> r.conn == c
  {
    var call := Call(o, DefaultRetries);
    var conn := if call.Answered? then c.(controlToken := None) else c;
    Step(conn, call.Answered?, Repeat(ReleaseRequest(c), call.used), 0)
  }

  // ---------------------------------------------------------------------------
  // Passthrough commands

  /** One request, no state change; the result is whether it was answered with 200. */
  function Command(c: Connector, o: seq<Reply>, req: Request): (r: Step<bool>)
    ensures r.conn == c && r.ticks == 0
    ensures Only(r.sent, req) && |r.sent| <= Attempts(DefaultRetries)
    ensures r.value <==> Answers(o, DefaultRetries)
    ensures !r.value ==> |r.sent| == Attempts(DefaultRetries)
  {
    var call := Call(o, DefaultRetries);
    Step(c, call.Answered?, Repeat(req, call.used), 0)
  }

  /** `enable_fci`: carries the stored token in its payload and its header. */
  function EnableFci(c: Connector, o: seq<Reply>): (r: Step<bool>)
    ensures r.conn == c && (r.value <==> Answers(o, DefaultRetries))
    ensures forall i :: 0 <= i < |r.sent| ==>
              r.sent[i].verb == Post && r.sent[i].path == FciPath
              && r.sent[i].payload == TokenPayload(c.controlToken) && r.sent[i].controlToken == c.headerToken
  {
    Command(c, o, Req(c, Post, FciPath, TokenPayload(c.controlToken)))
  }

  /** `disable_fci`: carries the stored token in its payload and its header. */
  function DisableFci(c: Connector, o: seq<Reply>): (r: Step<bool>)
    ensures r.conn == c && (r.value <==> Answers(o, DefaultRetries))
    ensures forall i :: 0 <= i < |r.sent| ==>
              r.sent[i].verb == Delete && r.sent[i].path == FciPath
              && r.sent[i].payload == TokenPayload(c.controlToken) && r.sent[i].controlToken == c.headerToken
  {
    Command(c, o, Req(c, Delete, FciPath, TokenPayload(c.controlToken)))
  }

  /** `open_brakes`: its `retries` argument is ignored, the default is used. */
  function OpenBrakes(c: Connector, o: seq<Reply>, retries: int): (r: Step<bool>)
    ensures r.conn == c && (r.value <==> Answers(o, DefaultRetries))
    ensures Only(r.sent, Req(c, Post, OpenBrakesPath, NoPayload)) && |r.sent| <= Attempts(DefaultRetries)
  {
    Command(c, o, Req(c, Post, OpenBrakesPath, NoPayload))
  }

  function CloseBrakes(c: Connector, o: seq<Reply>): (r: Step<bool>)
    ensures r.conn == c && (r.value <==> Answers(o, DefaultRetries))
    ensures Only(r.sent, Req(c, Post, CloseBrakesPath, NoPayload)) && |r.sent| <= Attempts(DefaultRetries)
  {
    Command(c, o, Req(c, Post, CloseBrakesPath, NoPayload))
  }

  function HomeGripper(c: Connector, o: seq<Reply>): (r: Step<bool>)
    ensures r.conn == c && (r.value <==> Answers(o, DefaultRetries))
    ensures Only(r.sent, Req(c, Post, HomingPath, NoPayload)) && |r.sent| <= Attempts(DefaultRetries)
  {
    Command(c, o, Req(c, Post, HomingPath, NoPayload))
  }
}
