/**
 * Properties of the connector model that relate several operations: the
 * invariant every operation keeps, the forced request's wait, the release
 * quirk, and the end-to-end scenarios around the 4.2.0 threshold.
 */
module ConnectorProperties {
  import opened Options
  import opened Transport
  import opened Connector
  import Version

  /** Every operation a caller can invoke on the connector. */
  datatype Op =
    | ConnectOp(retries: int)
    | LoginOp(retries: int)
    | LogoutOp
    | ReadSystemVersionOp
    | AcquireOp(force: bool)
    | CanControlOp
    | IsActiveOp
    | ReleaseOp
    | EnableFciOp
    | DisableFciOp
    | OpenBrakesOp
    | CloseBrakesOp
    | HomeGripperOp

  function Lift(s: Step<bool>): Step<Outcome> {
    Step(s.conn, Returns(s.value), s.sent, s.ticks)
  }

  function Apply(c: Connector, op: Op, o: seq<Reply>, clock: seq<int>): Step<Outcome> {
    match op
    case ConnectOp(retries) => Connect(c, o, retries)
    case LoginOp(retries) => Lift(Login(c, o, retries))
    case LogoutOp => Lift(Logout(c, o))
    case ReadSystemVersionOp => ReadSystemVersion(c, o)
    case AcquireOp(force) => Lift(AcquireControlToken(c, o, clock, force))
    case CanControlOp => Lift(CanControl(c, o))
    case IsActiveOp => Lift(IsControlTokenActive(c, o))
    case ReleaseOp => Lift(ReleaseControlToken(c, o))
    case EnableFciOp => Lift(EnableFci(c, o))
    case DisableFciOp => Lift(DisableFci(c, o))
    case OpenBrakesOp => Lift(OpenBrakes(c, o, DefaultRetries))
    case CloseBrakesOp => Lift(CloseBrakes(c, o))
    case HomeGripperOp => Lift(HomeGripper(c, o))
  }

  function DropClock(clock: seq<int>, n: nat): seq<int> {
    if n <= |clock| then clock[n..] else []
  }

  /** The connector after a caller runs `ops` in order, each consuming its share of both oracles. */
  function Run(c: Connector, ops: seq<Op>, o: seq<Reply>, clock: seq<int>): Connector
    decreases |ops|
  {
    if |ops| == 0 then c
    else
      var s := Apply(c, ops[0], o, clock);
      Run(s.conn, ops[1..], Drop(o, |s.sent|), DropClock(clock, s.ticks))
  }

  /**
   * The token bookkeeping agrees with itself: a token value is stored exactly
   * when its id is, and the session's `X-Control-Token` header, when set,
   * carries the stored token.
   */
  predicate Consistent(c: Connector) {
    && (c.controlToken.Some? <==> c.controlTokenId.Some?)
    && (c.headerToken.None? || c.headerToken == c.controlToken)
  }

  /** What no operation changes: the credentials, and a token requirement once discovered. */
  predicate Keeps(c: Connector, d: Connector) {
    && d.username == c.username
    && d.password == c.password
    && (c.controlTokenReq ==> d.controlTokenReq)
  }

  lemma InitConsistent(username: string, password: string)
    ensures Consistent(Init(username, password))
    ensures !Init(username, password).controlTokenReq && !Init(username, password).connected
  {
  }

  /** One operation keeps the invariant, the credentials and the token requirement. */
  lemma ApplyKeeps(c: Connector, op: Op, o: seq<Reply>, clock: seq<int>)
    requires Consistent(c)
    ensures Consistent(Apply(c, op, o, clock).conn)
    ensures Keeps(c, Apply(c, op, o, clock).conn)
  {
    match op
    case AcquireOp(force) => AcquireKeeps(c, o, clock, force);
    case ConnectOp(_) => SessionOpKeeps(c, op, o, clock);
    case LoginOp(_) => SessionOpKeeps(c, op, o, clock);
    case LogoutOp => SessionOpKeeps(c, op, o, clock);
    case ReadSystemVersionOp => SessionOpKeeps(c, op, o, clock);
    case _ => assert Apply(c, op, o, clock).conn == c;
  }

  lemma SessionOpKeeps(c: Connector, op: Op, o: seq<Reply>, clock: seq<int>)
    requires Consistent(c)
    requires op.ConnectOp? || op.LoginOp? || op.LogoutOp? || op.ReadSystemVersionOp?
    ensures Consistent(Apply(c, op, o, clock).conn)
    ensures Keeps(c, Apply(c, op, o, clock).conn)
  {
  }

  /** Both kinds of token request store a grant consistently. */
  lemma AcquireKeeps(c: Connector, o: seq<Reply>, clock: seq<int>, force: bool)
    requires Consistent(c)
    ensures Consistent(AcquireControlToken(c, o, clock, force).conn)
    ensures Keeps(c, AcquireControlToken(c, o, clock, force).conn)
  {
    if force && Answers(o, DefaultRetries) {
      var n := Call(o, DefaultRetries).used;
      var _ := ForcedRequestAndWait(c, Drop(o, n), clock, Call(o, DefaultRetries).body.tokenForceTimeout);
    }
  }

  /** Any sequence of operations keeps the invariant, the credentials and the token requirement. */
  lemma {:induction false} RunKeeps(c: Connector, ops: seq<Op>, o: seq<Reply>, clock: seq<int>)
    requires Consistent(c)
    ensures Consistent(Run(c, ops, o, clock))
    ensures Keeps(c, Run(c, ops, o, clock))
    decreases |ops|
  {
    if |ops| > 0 {
      var s := Apply(c, ops[0], o, clock);
      ApplyKeeps(c, ops[0], o, clock);
      RunKeeps(s.conn, ops[1..], Drop(o, |s.sent|), DropClock(clock, s.ticks));
    }
  }

  // ---------------------------------------------------------------------------
  // The forced request's wait

  predicate Monotone(clock: seq<int>) {
    forall i, j :: 0 <= i <= j < |clock| ==> clock[i] <= clock[j]
  }

  /** With a timeout of zero or less and a clock that does not run backwards, no activity check is made. */
  lemma NoPollWithoutTimeout(c: Connector, o: seq<Reply>, clock: seq<int>, timeout: int)
    requires Monotone(clock) && timeout <= 0
    ensures !ForcedRequestAndWait(c, o, clock, timeout).value
    ensures Answers(o, DefaultRetries) ==>
              |ForcedRequestAndWait(c, o, clock, timeout).sent| == Call(o, DefaultRetries).used
  {
    if Answers(o, DefaultRetries) {
      var m := Call(o, DefaultRetries).used;
      var held := Holding(c, Call(o, DefaultRetries).body);
      if |clock| >= 2 {
        assert clock[0] <= clock[1];
      }
      var poll := PollActive(held, Drop(o, m), clock, 1, Start(clock) + timeout);
      assert poll.sent == [];
    }
  }

  /**
   * A service that answers every query, and first reports our token active at
   * query `j`, while the clock is still before the deadline: the wait ends
   * with control, after exactly `j + 1` activity queries.
   */
  lemma {:induction false} PollReachesActivation(c: Connector, o: seq<Reply>, clock: seq<int>, k: nat, deadline: int, j: nat)
    requires forall i :: 0 <= i < |o| ==> Succeeded(o[i])
    requires j < |o| && ReportsHeld(c, o[j])
    requires forall i :: 0 <= i < j ==> !ReportsHeld(c, o[i])
    requires k + j < |clock| && forall t :: k <= t <= k + j ==> clock[t] < deadline
    ensures PollActive(c, o, clock, k, deadline).acquired
    ensures |PollActive(c, o, clock, k, deadline).sent| == j + 1
    decreases j
  {
    assert Succeeded(At(o, 0));
    var check := IsControlTokenActive(c, o);
    assert |check.sent| == 1;
    if j > 0 {
      var rest := Drop(o, 1);
      assert rest == o[1..];
      PollReachesActivation(c, rest, clock, k + 1, deadline, j - 1);
    }
  }

  /** When the service never reports our token active, the forced wait never ends with control. */
  lemma PollNeverAcquiresWhileContested(c: Connector, o: seq<Reply>, clock: seq<int>, k: nat, deadline: int)
    requires forall i :: 0 <= i < |o| ==> !ReportsHeld(c, o[i])
    ensures !PollActive(c, o, clock, k, deadline).acquired
  {
    PollActiveReplies(c, o, clock, k, deadline);
  }

  // ---------------------------------------------------------------------------
  // Release

  /** Line 147 as written: a release the service accepts leaves the token stored. */
  lemma ReleaseLeavesTokenStored(c: Connector, b: Body)
    requires c.controlToken == Some("token")
    ensures ReleaseControlToken(c, [Response(200, b)]).value
    ensures ReleaseControlToken(c, [Response(200, b)]).conn.controlToken == Some("token")
    ensures ReleaseControlTokenIntended(c, [Response(200, b)]).conn.controlToken == None
  {
    assert Succeeded(At([Response(200, b)], 0));
  }

  // ---------------------------------------------------------------------------
  // End-to-end scenarios

  function Text(t: string): Body {
    Body(t, 0, "", 0, None)
  }

  lemma ExtractQuoted(v: string)
    requires |v| > 0 && v[0] != '"' && v[|v| - 1] != '"'
    requires forall i :: 0 <= i < |v| ==> !Version.SeparatorAt(v, i)
    ensures Version.ExtractVersion("\"" + v + "\"") == v
  {
    Version.StripQuotesOfPadded("\"", v, "\"");
    Version.FirstLineOfJoined(v, "");
  }

  /** The two versions the scenarios use, as the server quotes them. */
  lemma QuotedVersion(reply: string, v: string)
    requires v == "3.0.0" || v == "4.2.0"
    requires reply == "\"" + v + "\""
    ensures Version.ExtractVersion(reply) == v
  {
    ExtractQuoted(v);
  }

  /** A connect whose login and version query are both answered at the first attempt. */
  lemma ConnectAnsweredAtOnce(c: Connector, cookie: string, reply: string)
    ensures var s := Connect(c, [Response(200, Text(cookie)), Response(200, Text(reply))], 20);
            var v := Version.ExtractVersion(reply);
            && s.conn.connected && s.conn.cookie == Some(cookie) && s.conn.version == Some(v)
            && (s.value == Returns(true) <==> Version.ParseVersion(v).Some?)
            && (s.value == Returns(true) ==>
                  (s.conn.controlTokenReq <==>
                     c.controlTokenReq || Version.NeedsControlToken(Version.ParseVersion(v).value)))
  {
    var o := [Response(200, Text(cookie)), Response(200, Text(reply))];
    var c0 := NewSession(c);
    assert Succeeded(At(o, 0));
    var login := Login(c0, o, 20);
    assert |login.sent| == 1;
    assert login.conn == c0.(connected := true, cookie := Some(cookie));
    var rest := Drop(o, 1);
    assert rest == [Response(200, Text(reply))];
    assert Succeeded(At(rest, 0));
    var read := ReadSystemVersion(login.conn, rest);
    assert |read.sent| == 1;
  }

  /**
   * Firmware 3.0.0, reported as `"3.0.0"`: connecting succeeds, no control
   * token is required, and `can_control` holds without any request.
   */
  lemma ScenarioBelowThreshold(user: string, password: string, cookie: string, reply: string)
    requires reply == "\"3.0.0\""
    ensures var s := Connect(Init(user, password), [Response(200, Text(cookie)), Response(200, Text(reply))], 20);
            && s.value == Returns(true)
            && s.conn.connected && s.conn.cookie == Some(cookie) && s.conn.version == Some("3.0.0")
            && !s.conn.controlTokenReq
            && CanControl(s.conn, []) == Step(s.conn, true, [], 0)
  {
    QuotedVersion(reply, "3.0.0");
    Version.ThresholdExamples();
    ConnectAnsweredAtOnce(Init(user, password), cookie, reply);
  }

  /** Firmware 4.2.0, the boundary, reported as `"4.2.0"`: a control token is required. */
  lemma ScenarioAtThreshold(user: string, password: string, cookie: string, reply: string)
    requires reply == "\"4.2.0\""
    ensures var s := Connect(Init(user, password), [Response(200, Text(cookie)), Response(200, Text(reply))], 20);
            && s.value == Returns(true)
            && s.conn.controlTokenReq
  {
    QuotedVersion(reply, "4.2.0");
    Version.ThresholdExamples();
    ConnectAnsweredAtOnce(Init(user, password), cookie, reply);
  }

  /** A login that never gets through: twenty-one attempts, no version query, nothing stored. */
  lemma ScenarioUnreachable(c: Connector)
    ensures var s := Connect(c, [], 20);
            && s.value == Returns(false)
            && |s.sent| == 21
            && Only(s.sent, LoginRequest(NewSession(c)))
            && s.conn == NewSession(c)
  {
    assert !Answers([], 20);
  }
}
