/**
 * `PandaHandlerNode` (armer_panda/PandaHandlerNode.py): how each service maps
 * connector results to a success flag and a message, the shutdown sequence,
 * and the automatic startup sequence of `main`.
 *
 * The connector is abstract here. A handler invocation makes each kind of
 * connector call at most once (`HandlersCallEachOnce`), so the connector's
 * behaviour during one invocation is a function from call to result. The
 * calls made are logged in order.
 */
module Handler {

  datatype ConnectorCall =
    | CanControl
    | IsControlTokenActive
    | AcquireControlToken(force: bool)
    | ReleaseControlToken
    | EnableFci
    | DisableFci
    | OpenBrakes
    | CloseBrakes
    | HomeGripper
    | Logout
    | Connect(retries: int)

  /** What the connector returns to each call during one invocation. */
  type ConnectorResults = ConnectorCall -> bool

  /** A `SetBoolResponse` / `TriggerResponse`, with the connector calls made to produce it. */
  datatype ServiceResponse = ServiceResponse(success: bool, message: string, calls: seq<ConnectorCall>)

  // ---------------------------------------------------------------------------
  // Response messages, verbatim

  const AlreadyInControl := "Node already has control authority"
  const AcquireFailed := "Unable to acquire control authority, robot will not respond to commands"
  const Acquired := "Control authority acquired, enable open brakes and enable fci to start control"
  const NoAuthorityToRelease := "Robot does not have control authority"
  const NoTokenRequired := "Robot doesn't require control authority"
  const ReleaseRefused := "Unable to release control authority, override may be required"
  const Released := "Control authority released, robot will not respond to commands"
  const NoAuthorityToEnable := "Node does not have control authority, cannot activate fci"
  const EnableFailed := "Unable to activate FCI"
  const FciActivated := "FCI Activated, ros communications enabled"
  const NoAuthorityToDisable := "Node does not have control authority, cannot disable fci"
  const DisableFailed := "Unable to disable FCI"
  const FciDisabled := "FCI Disabled, ros control prohibited"
  const BrakesOpened := "API Reports Brakes opened. WARNING: APPROACH ROBOT WITH CATION"
  const OpenBrakesFailed := "Unable to open Brakes!"
  const BrakesClosed := "API Reports Brakes closed"
  const CloseBrakesFailed := "Unable to close Brakes!"
  const GripperHomed := "API Reports Gripper homed"
  const HomingFailed := "Unable to home Gripper"

  // ---------------------------------------------------------------------------
  // Services

  /** `handle_acquire_control`: no token request when control is already held. */
  function HandleAcquireControl(ans: ConnectorResults, force: bool): (r: ServiceResponse)
    ensures |r.calls| >= 1 && r.calls[0] == CanControl
    ensures r.success <==> ans(CanControl) || ans(AcquireControlToken(force))
    ensures AcquireControlToken(force) in r.calls <==> !ans(CanControl)
    ensures forall i :: 0 <= i < |r.calls| && r.calls[i].AcquireControlToken? ==> r.calls[i].force == force
    ensures |r.calls| <= 2
    ensures ans(CanControl) ==> r.message == AlreadyInControl
    ensures !ans(CanControl) ==> r.message == (if r.success then Acquired else AcquireFailed)
  {
    if ans(CanControl) then
      ServiceResponse(true, AlreadyInControl, [CanControl])
    else if !ans(AcquireControlToken(force)) then
      ServiceResponse(false, AcquireFailed,
               [CanControl, AcquireControlToken(force)])
    else
      ServiceResponse(true, Acquired,
               [CanControl, AcquireControlToken(force)])
  }

  /**
   * `handle_release_control`: release is attempted only when `can_control`
   * holds and a token is required; it reports failure only when that release
   * fails.
   */
  function HandleReleaseControl(ans: ConnectorResults, tokenReq: bool): (r: ServiceResponse)
    ensures |r.calls| >= 1 && r.calls[0] == CanControl
    ensures ReleaseControlToken in r.calls <==> ans(CanControl) && tokenReq
    ensures !r.success <==> ReleaseControlToken in r.calls && !ans(ReleaseControlToken)
    ensures !ans(CanControl) ==> r.success && r.calls == [CanControl]
    ensures !tokenReq ==> r.success && r.calls == [CanControl]
    ensures !ans(CanControl) ==> r.message == NoAuthorityToRelease
    ensures ans(CanControl) && !tokenReq ==> r.message == NoTokenRequired
    ensures ReleaseControlToken in r.calls ==> r.message == (if r.success then Released else ReleaseRefused)
  {
    if !ans(CanControl) then
      ServiceResponse(true, NoAuthorityToRelease, [CanControl])
    else if !tokenReq then
      ServiceResponse(true, NoTokenRequired, [CanControl])
    else if !ans(ReleaseControlToken) then
      ServiceResponse(false, ReleaseRefused,
               [CanControl, ReleaseControlToken])
    else
      ServiceResponse(true, Released,
               [CanControl, ReleaseControlToken])
  }

  /** `handle_enable_fci`: FCI is enabled only while the token is verified active. */
  function HandleEnableFci(ans: ConnectorResults): (r: ServiceResponse)
    ensures |r.calls| >= 1 && r.calls[0] == IsControlTokenActive
    ensures EnableFci in r.calls <==> ans(IsControlTokenActive)
    ensures r.success <==> ans(IsControlTokenActive) && ans(EnableFci)
    ensures DisableFci !in r.calls
    ensures !ans(IsControlTokenActive) ==> r.message == NoAuthorityToEnable
    ensures EnableFci in r.calls ==> r.message == (if r.success then FciActivated else EnableFailed)
  {
    if !ans(IsControlTokenActive) then
      ServiceResponse(false, NoAuthorityToEnable, [IsControlTokenActive])
    else if !ans(EnableFci) then
      ServiceResponse(false, EnableFailed, [IsControlTokenActive, EnableFci])
    else
      ServiceResponse(true, FciActivated, [IsControlTokenActive, EnableFci])
  }

  /** `handle_disable_fci`: FCI is disabled only while the token is verified active. */
  function HandleDisableFci(ans: ConnectorResults): (r: ServiceResponse)
    ensures |r.calls| >= 1 && r.calls[0] == IsControlTokenActive
    ensures DisableFci in r.calls <==> ans(IsControlTokenActive)
    ensures r.success <==> ans(IsControlTokenActive) && ans(DisableFci)
    ensures EnableFci !in r.calls
    ensures !ans(IsControlTokenActive) ==> r.message == NoAuthorityToDisable
    ensures DisableFci in r.calls ==> r.message == (if r.success then FciDisabled else DisableFailed)
  {
    if !ans(IsControlTokenActive) then
      ServiceResponse(false, NoAuthorityToDisable, [IsControlTokenActive])
    else if !ans(DisableFci) then
      ServiceResponse(false, DisableFailed, [IsControlTokenActive, DisableFci])
    else
      ServiceResponse(true, FciDisabled, [IsControlTokenActive, DisableFci])
  }

  /** `handle_open_brakes`: no authority check, one call. */
  function HandleOpenBrakes(ans: ConnectorResults): (r: ServiceResponse)
    ensures r.calls == [OpenBrakes]
    ensures r.success == ans(OpenBrakes)
    ensures r.message == (if r.success then BrakesOpened else OpenBrakesFailed)
  {
    if ans(OpenBrakes) then
      ServiceResponse(true, BrakesOpened, [OpenBrakes])
    else
      ServiceResponse(false, OpenBrakesFailed, [OpenBrakes])
  }

  /** `handle_close_brakes`: no authority check, one call. */
  function HandleCloseBrakes(ans: ConnectorResults): (r: ServiceResponse)
    ensures r.calls == [CloseBrakes]
    ensures r.success == ans(CloseBrakes)
    ensures r.message == (if r.success then BrakesClosed else CloseBrakesFailed)
  {
    if ans(CloseBrakes) then
      ServiceResponse(true, BrakesClosed, [CloseBrakes])
    else
      ServiceResponse(false, CloseBrakesFailed, [CloseBrakes])
  }

  /** `handle_home_gripper`: no authority check, one call. */
  function HandleHomeGripper(ans: ConnectorResults): (r: ServiceResponse)
    ensures r.calls == [HomeGripper]
    ensures r.success == ans(HomeGripper)
    ensures r.message == (if r.success then GripperHomed else HomingFailed)
  {
    if ans(HomeGripper) then
      ServiceResponse(true, GripperHomed, [HomeGripper])
    else
      ServiceResponse(false, HomingFailed, [HomeGripper])
  }

  /** The seven services `main` registers. */
  datatype Service =
    | AcquireService(data: bool)
    | ReleaseService
    | EnableFciService
    | DisableFciService
    | OpenBrakesService
    | CloseBrakesService
    | HomeGripperService

  function Handle(s: Service, ans: ConnectorResults, tokenReq: bool): ServiceResponse {
    match s
    case AcquireService(data) => HandleAcquireControl(ans, data)
    case ReleaseService => HandleReleaseControl(ans, tokenReq)
    case EnableFciService => HandleEnableFci(ans)
    case DisableFciService => HandleDisableFci(ans)
    case OpenBrakesService => HandleOpenBrakes(ans)
    case CloseBrakesService => HandleCloseBrakes(ans)
    case HomeGripperService => HandleHomeGripper(ans)
  }

  predicate Distinct(calls: seq<ConnectorCall>) {
    forall i, j :: 0 <= i < j < |calls| ==> calls[i] != calls[j]
  }

  /** Enabling or disabling FCI is preceded by an activity check that said yes. */
  predicate FciGuarded(calls: seq<ConnectorCall>, ans: ConnectorResults) {
    forall i :: 0 <= i < |calls| && (calls[i].EnableFci? || calls[i].DisableFci?) ==>
      exists j :: 0 <= j < i && calls[j] == IsControlTokenActive && ans(calls[j])
  }

  /** Releasing the token is preceded by a `can_control` that said yes. */
  predicate ReleaseGuarded(calls: seq<ConnectorCall>, ans: ConnectorResults) {
    forall i :: 0 <= i < |calls| && calls[i].ReleaseControlToken? ==>
      exists j :: 0 <= j < i && calls[j] == CanControl && ans(calls[j])
  }

  /** Which calls a service can make: a first check or command, then at most one more. */
  function Possible(s: Service): (seq<ConnectorCall>, seq<ConnectorCall>) {
    match s
    case AcquireService(data) => ([CanControl], [CanControl, AcquireControlToken(data)])
    case ReleaseService => ([CanControl], [CanControl, ReleaseControlToken])
    case EnableFciService => ([IsControlTokenActive], [IsControlTokenActive, EnableFci])
    case DisableFciService => ([IsControlTokenActive], [IsControlTokenActive, DisableFci])
    case OpenBrakesService => ([OpenBrakes], [OpenBrakes])
    case CloseBrakesService => ([CloseBrakes], [CloseBrakes])
    case HomeGripperService => ([HomeGripper], [HomeGripper])
  }

  /** The messages that accompany a successful response. */
  const SuccessMessages := {AlreadyInControl, Acquired, NoAuthorityToRelease, NoTokenRequired, Released,
                            FciActivated, FciDisabled, BrakesOpened, BrakesClosed, GripperHomed}

  /** A caller can read the outcome from the message alone: no message is used for both outcomes. */
  lemma MessageTellsOutcome(s: Service, ans: ConnectorResults, tokenReq: bool)
    ensures Handle(s, ans, tokenReq).message in SuccessMessages <==> Handle(s, ans, tokenReq).success
  {
    var r := Handle(s, ans, tokenReq);
    if !r.success {
      assert r.message in {AcquireFailed, ReleaseRefused, NoAuthorityToEnable, EnableFailed,
                           NoAuthorityToDisable, DisableFailed, OpenBrakesFailed, CloseBrakesFailed, HomingFailed};
      FailureMessagesDiffer(r.message);
    }
  }

  lemma FailureMessagesDiffer(m: string)
    requires m in {AcquireFailed, ReleaseRefused, NoAuthorityToEnable, EnableFailed,
                   NoAuthorityToDisable, DisableFailed, OpenBrakesFailed, CloseBrakesFailed, HomingFailed}
    ensures m !in SuccessMessages
  {
  }

  lemma HandleCallsArePossible(s: Service, ans: ConnectorResults, tokenReq: bool)
    ensures Handle(s, ans, tokenReq).calls in {Possible(s).0, Possible(s).1}
  {
    match s
    case AcquireService(data) =>
    case ReleaseService =>
    case EnableFciService =>
    case DisableFciService =>
    case OpenBrakesService =>
    case CloseBrakesService =>
    case HomeGripperService =>
  }

  lemma DistinctPair(a: ConnectorCall, b: ConnectorCall)
    requires a != b
    ensures Distinct([a]) && Distinct([a, b])
  {
  }

  /** No service handler makes the same connector call twice. */
  lemma HandlersCallEachOnce(s: Service, ans: ConnectorResults, tokenReq: bool)
    ensures Distinct(Handle(s, ans, tokenReq).calls)
  {
    HandleCallsArePossible(s, ans, tokenReq);
    match s
    case AcquireService(data) => DistinctPair(CanControl, AcquireControlToken(data));
    case ReleaseService => DistinctPair(CanControl, ReleaseControlToken);
    case EnableFciService => DistinctPair(IsControlTokenActive, EnableFci);
    case DisableFciService => DistinctPair(IsControlTokenActive, DisableFci);
    case _ => assert Distinct(Possible(s).0);
  }

  /**
   * No service touches FCI without a positive activity check, and none
   * releases the token without a positive `can_control`.
   */
  lemma ServicesGuardAuthority(s: Service, ans: ConnectorResults, tokenReq: bool)
    ensures FciGuarded(Handle(s, ans, tokenReq).calls, ans)
    ensures ReleaseGuarded(Handle(s, ans, tokenReq).calls, ans)
  {
    var calls := Handle(s, ans, tokenReq).calls;
    HandleCallsArePossible(s, ans, tokenReq);
    match s
    case EnableFciService =>
      if |calls| == 2 {
        assert calls[0] == IsControlTokenActive && ans(calls[0]);
      }
    case DisableFciService =>
      if |calls| == 2 {
        assert calls[0] == IsControlTokenActive && ans(calls[0]);
      }
    case ReleaseService =>
      if |calls| == 2 {
        assert calls[0] == CanControl && ans(calls[0]);
      }
    case _ =>
  }

  // ---------------------------------------------------------------------------
  // Shutdown

  /** A line `rospy` logs. */
  datatype Report = Info(text: string) | Error(text: string)

  datatype Shutdown = Shutdown(calls: seq<ConnectorCall>, reports: seq<Report>)

  const BrakesClosedReport := "Brakes Closed"
  const CloseBrakesFailedReport := "Unable to close brakes"
  const FciDisabledReport := "FCI disabled"
  const DisableFciFailedReport := "Unable to disable FCI"
  const ReleasedReport := "Control Authority Released"
  const ReleaseFailed := "Unable to release control authority, forced override may be required"

  /**
   * `on_shutdown`: close the brakes, disable FCI, release the token if it is
   * active, log out; every step runs whatever the earlier ones returned.
   */
  function OnShutdown(hasConnector: bool, ans: ConnectorResults): (r: Shutdown)
    ensures !hasConnector ==> r.calls == [] && r.reports == []
    ensures hasConnector ==>
              && |r.calls| >= 4
              && r.calls[0] == CloseBrakes && r.calls[1] == DisableFci && r.calls[2] == IsControlTokenActive
              && r.calls[|r.calls| - 1] == Logout
              && |r.calls| == (if ans(IsControlTokenActive) then 5 else 4)
              && |r.reports| == 3
    ensures ReleaseControlToken in r.calls <==> hasConnector && ans(IsControlTokenActive)
    ensures Error(ReleaseFailed) in r.reports <==>
              hasConnector && ans(IsControlTokenActive) && !ans(ReleaseControlToken)
    ensures Error(CloseBrakesFailedReport) in r.reports <==> hasConnector && !ans(CloseBrakes)
    ensures Error(DisableFciFailedReport) in r.reports <==> hasConnector && !ans(DisableFci)
    ensures Distinct(r.calls)
  {
    if !hasConnector then Shutdown([], [])
    else
      var brakes := if ans(CloseBrakes) then Info(BrakesClosedReport) else Error(CloseBrakesFailedReport);
      var fci := if ans(DisableFci) then Info(FciDisabledReport) else Error(DisableFciFailedReport);
      var active := ans(IsControlTokenActive);
      var release := if active && !ans(ReleaseControlToken) then Error(ReleaseFailed)
                     else Info(ReleasedReport);
      var calls := [CloseBrakes, DisableFci, IsControlTokenActive]
                   + (if active then [ReleaseControlToken] else []) + [Logout];
      Shutdown(calls, [brakes, fci, release])
  }

  // ---------------------------------------------------------------------------
  // Startup

  datatype StartupConfig = StartupConfig(
    connectionRetries: int,
    autoAcquireControl: bool,
    forceAutoAcquire: bool,
    autoOpenBrakes: bool,
    autoHomeGripper: bool,
    autoEnableFci: bool)

  /** The parameter defaults `main` reads. */
  const Defaults := StartupConfig(20, false, true, false, false, false)

  /** The calls `main` made and whether it got as far as registering the services. */
  datatype Startup = Startup(calls: seq<ConnectorCall>, servicesRegistered: bool)

  /** How one `connect` call ended: False, True, or the exception an unparsable version raises. */
  datatype ConnectAttempt = ConnectFails | ConnectSucceeds | ConnectRaises

  /**
   * The connects made before the control request, and how the last one ended.
   * `ConnectFails` also stands for a loop the node's shutdown ended.
   */
  datatype ConnectPhase = ConnectPhase(calls: seq<ConnectorCall>, outcome: ConnectAttempt)

  /**
   * The wait-for-connection loop: `connect(retries=0)` until one returns True
   * or raises, or the node shuts down. `results` are the outcomes of
   * successive attempts; the shutdown comes after the last one listed.
   */
  function ConnectLoop(results: seq<ConnectAttempt>): (r: ConnectPhase)
    ensures |r.calls| <= |results|
    ensures forall i :: 0 <= i < |r.calls| ==> r.calls[i] == Connect(0)
    ensures forall i :: 0 <= i < |r.calls| - 1 ==> results[i] == ConnectFails
    ensures r.outcome != ConnectFails ==> |r.calls| >= 1 && results[|r.calls| - 1] == r.outcome
    ensures r.outcome == ConnectFails <==> forall i :: 0 <= i < |results| ==> results[i] == ConnectFails
    ensures r.outcome == ConnectFails ==> |r.calls| == |results|
  {
    if |results| == 0 then ConnectPhase([], ConnectFails)
    else if results[0] != ConnectFails then ConnectPhase([Connect(0)], results[0])
    else
      var rest := ConnectLoop(results[1..]);
      assert forall i :: 1 <= i < |results| ==> results[i] == results[1..][i - 1];
      ConnectPhase([Connect(0)] + rest.calls, rest.outcome)
  }

  /** The connect phase as written: the loop runs only for a negative `connection_retries`. */
  function WrittenConnect(cfg: StartupConfig, results: seq<ConnectAttempt>): (r: ConnectPhase)
    ensures cfg.connectionRetries >= 0 ==> r.calls == [] && r.outcome == ConnectFails
    ensures forall i :: 0 <= i < |r.calls| ==> r.calls[i] == Connect(0)
    ensures cfg.connectionRetries < 0 ==>
              (r.outcome == ConnectFails <==> forall i :: 0 <= i < |results| ==> results[i] == ConnectFails)
  {
    if cfg.connectionRetries < 0 then ConnectLoop(results) else ConnectPhase([], ConnectFails)
  }

  /** The written connect phase ended in an exception, which ends `main`. */
  predicate ConnectRaised(cfg: StartupConfig, results: seq<ConnectAttempt>) {
    WrittenConnect(cfg, results).outcome == ConnectRaises
  }

  /**
   * The automatic control request: a standard request, then a forced one
   * only if the standard one failed and forcing is allowed.
   */
  function AutoAcquire(cfg: StartupConfig, tokenReq: bool, ans: ConnectorResults): (r: (seq<ConnectorCall>, bool))
    ensures AcquireControlToken(false) in r.0 <==> tokenReq && cfg.autoAcquireControl
    ensures AcquireControlToken(true) in r.0 <==>
              tokenReq && cfg.autoAcquireControl && !ans(AcquireControlToken(false)) && cfg.forceAutoAcquire
    ensures r.1 <==>
              || !(tokenReq && cfg.autoAcquireControl)
              || ans(AcquireControlToken(false))
              || (cfg.forceAutoAcquire && ans(AcquireControlToken(true)))
    ensures forall i :: 0 <= i < |r.0| ==> r.0[i].AcquireControlToken?
    ensures |r.0| == 2 ==> r.0 == [AcquireControlToken(false), AcquireControlToken(true)]
    ensures |r.0| <= 2
  {
    if !(tokenReq && cfg.autoAcquireControl) then ([], true)
    else if ans(AcquireControlToken(false)) then ([AcquireControlToken(false)], true)
    else if cfg.forceAutoAcquire then
      ([AcquireControlToken(false), AcquireControlToken(true)], ans(AcquireControlToken(true)))
    else ([AcquireControlToken(false)], false)
  }

  /**
   * One optional startup step: skipped when its flag is off or an earlier
   * step already aborted the startup; otherwise called, and a failure aborts.
   */
  function RunStep(enabled: bool, call: ConnectorCall, ans: ConnectorResults, before: (seq<ConnectorCall>, bool)): (r: (seq<ConnectorCall>, bool))
    ensures before.0 <= r.0 && |r.0| <= |before.0| + 1
    ensures |r.0| > |before.0| <==> before.1 && enabled
    ensures |r.0| > |before.0| ==> r.0[|before.0|] == call
    ensures r.1 <==> before.1 && (enabled ==> ans(call))
  {
    if !before.1 || !enabled then before else (before.0 + [call], ans(call))
  }

  /** Open the brakes, home the gripper, enable FCI: each if its flag is set. */
  function StartupSteps(cfg: StartupConfig, ans: ConnectorResults): (r: (seq<ConnectorCall>, bool))
    ensures r.1 <==>
              && (cfg.autoOpenBrakes ==> ans(OpenBrakes))
              && (cfg.autoHomeGripper ==> ans(HomeGripper))
              && (cfg.autoEnableFci ==> ans(EnableFci))
    ensures OpenBrakes in r.0 ==> cfg.autoOpenBrakes
    ensures HomeGripper in r.0 ==> cfg.autoHomeGripper
    ensures EnableFci in r.0 ==> cfg.autoEnableFci
    ensures r.1 ==>
              && (cfg.autoOpenBrakes ==> OpenBrakes in r.0)
              && (cfg.autoHomeGripper ==> HomeGripper in r.0)
              && (cfg.autoEnableFci ==> EnableFci in r.0)
    ensures forall i :: 0 <= i < |r.0| - 1 ==> ans(r.0[i])
    ensures !r.1 ==> |r.0| >= 1 && !ans(r.0[|r.0| - 1])
  {
    RunStep(cfg.autoEnableFci, EnableFci, ans,
      RunStep(cfg.autoHomeGripper, HomeGripper, ans,
        RunStep(cfg.autoOpenBrakes, OpenBrakes, ans, ([], true))))
  }

  /**
   * `main` from the connection up to registering the services, as written:
   * `connect` is called only when `connection_retries` is negative. The
   * connector requires a control token only when a connect succeeded and the
   * firmware it reported needs one (`firmwareNeedsToken`).
   */
  function StartUp(cfg: StartupConfig, connectResults: seq<ConnectAttempt>, firmwareNeedsToken: bool, ans: ConnectorResults): (r: Startup)
    ensures cfg.connectionRetries >= 0 ==> forall i :: 0 <= i < |r.calls| ==> !r.calls[i].Connect?
    ensures ConnectRaised(cfg, connectResults) ==> !r.servicesRegistered
  {
    var connect := WrittenConnect(cfg, connectResults);
    if connect.outcome == ConnectRaises then Startup(connect.calls, false)
    else
      var tokenReq := connect.outcome == ConnectSucceeds && firmwareNeedsToken;
      var acquire := AutoAcquire(cfg, tokenReq, ans);
      if !acquire.1 then Startup(connect.calls + acquire.0, false)
      else
        var steps := StartupSteps(cfg, ans);
        Startup(connect.calls + acquire.0 + steps.0, steps.1)
  }

  /**
   * `main` as evidently intended: with a non-negative `connection_retries`
   * it connects once with that many retries, and it goes no further without
   * a connection.
   */
  function StartUpIntended(cfg: StartupConfig, connectResults: seq<ConnectAttempt>, firmwareNeedsToken: bool, ans: ConnectorResults): (r: Startup)
    ensures |r.calls| >= 1 ==> r.calls[0].Connect?
    ensures r.servicesRegistered ==> exists i :: 0 <= i < |r.calls| && r.calls[i].Connect? && ConnectSucceeded(cfg, connectResults)
  {
    var connect := IntendedConnect(cfg, connectResults);
    if connect.outcome != ConnectSucceeds then Startup(connect.calls, false)
    else
      var acquire := AutoAcquire(cfg, firmwareNeedsToken, ans);
      if !acquire.1 then Startup(connect.calls + acquire.0, false)
      else
        var steps := StartupSteps(cfg, ans);
        Startup(connect.calls + acquire.0 + steps.0, steps.1)
  }

  /**
   * The intended connect phase: the loop for a negative `connection_retries`,
   * otherwise one `connect` with that many retries, whose outcome is the first
   * listed (none listed reads as a failed connect).
   */
  function IntendedConnect(cfg: StartupConfig, results: seq<ConnectAttempt>): ConnectPhase {
    if cfg.connectionRetries < 0 then ConnectLoop(results)
    else ConnectPhase([Connect(cfg.connectionRetries)], if |results| == 0 then ConnectFails else results[0])
  }

  /** Whether the connect phase of the intended startup ends connected. */
  predicate ConnectSucceeded(cfg: StartupConfig, connectResults: seq<ConnectAttempt>) {
    IntendedConnect(cfg, connectResults).outcome == ConnectSucceeds
  }

  /** The position of each startup call in the sequence `main` is written as. */
  function Rank(call: ConnectorCall): nat {
    match call
    case Connect(_) => 0
    case AcquireControlToken(force) => if force then 2 else 1
    case OpenBrakes => 3
    case HomeGripper => 4
    case EnableFci => 5
    case _ => 6
  }

  predicate Ordered(calls: seq<ConnectorCall>) {
    forall i, j :: 0 <= i < j < |calls| ==> Rank(calls[i]) <= Rank(calls[j])
  }

  predicate IsStep(call: ConnectorCall) {
    call == OpenBrakes || call == HomeGripper || call == EnableFci
  }

  predicate RanksFrom(calls: seq<ConnectorCall>, m: nat) {
    forall i :: 0 <= i < |calls| ==> Rank(calls[i]) >= m
  }

  predicate RanksUpTo(calls: seq<ConnectorCall>, m: nat) {
    forall i :: 0 <= i < |calls| ==> Rank(calls[i]) <= m
  }

  lemma ConcatOrdered(a: seq<ConnectorCall>, b: seq<ConnectorCall>, m: nat)
    requires Ordered(a) && Ordered(b) && RanksUpTo(a, m) && RanksFrom(b, m)
    ensures Ordered(a + b)
  {
    var s := a + b;
    forall i, j | 0 <= i < j < |s|
      ensures Rank(s[i]) <= Rank(s[j])
    {
      if j < |a| {
        assert s[i] == a[i] && s[j] == a[j];
      } else if i >= |a| {
        assert s[i] == b[i - |a|] && s[j] == b[j - |a|];
      } else {
        assert s[i] == a[i] && s[j] == b[j - |a|];
      }
    }
  }

  lemma Single(x: ConnectorCall)
    ensures Ordered([x]) && RanksFrom([x], Rank(x)) && RanksUpTo([x], Rank(x))
  {
  }

  lemma RanksAppend(a: seq<ConnectorCall>, x: ConnectorCall, m: nat)
    requires RanksFrom(a, m) && RanksUpTo(a, Rank(x)) && Rank(x) >= m
    ensures RanksFrom(a + [x], m) && RanksUpTo(a + [x], Rank(x))
  {
    var s := a + [x];
    assert forall i :: 0 <= i < |a| ==> s[i] == a[i];
  }

  /** The optional steps run in their written order and are all step calls. */
  lemma StepsOrdered(cfg: StartupConfig, ans: ConnectorResults)
    ensures Ordered(StartupSteps(cfg, ans).0)
    ensures RanksFrom(StartupSteps(cfg, ans).0, 3)
    ensures RanksUpTo(StartupSteps(cfg, ans).0, 5)
  {
    var a := RunStep(cfg.autoOpenBrakes, OpenBrakes, ans, ([], true));
    assert Rank(OpenBrakes) == 3 && Rank(HomeGripper) == 4 && Rank(EnableFci) == 5;
    Single(OpenBrakes);
    Single(HomeGripper);
    Single(EnableFci);
    if !cfg.autoOpenBrakes {
      assert a.0 == [];
    }
    assert Ordered(a.0) && RanksFrom(a.0, 3) && RanksUpTo(a.0, 3);
    var b := RunStep(cfg.autoHomeGripper, HomeGripper, ans, a);
    if b.0 != a.0 {
      ConcatOrdered(a.0, [HomeGripper], 4);
      RanksAppend(a.0, HomeGripper, 3);
    }
    assert Ordered(b.0) && RanksFrom(b.0, 3) && RanksUpTo(b.0, 4);
    var c := RunStep(cfg.autoEnableFci, EnableFci, ans, b);
    if c.0 != b.0 {
      ConcatOrdered(b.0, [EnableFci], 5);
      RanksAppend(b.0, EnableFci, 3);
    }
  }

  /** The connects and automatic requests made before any optional step. */
  function Front(cfg: StartupConfig, connectResults: seq<ConnectAttempt>, firmwareNeedsToken: bool, ans: ConnectorResults): seq<ConnectorCall> {
    var connect := WrittenConnect(cfg, connectResults);
    connect.calls + AutoAcquire(cfg, WrittenTokenReq(cfg, connectResults, firmwareNeedsToken), ans).0
  }

  /** As written, the connector requires a token only after a connect in the loop returned True. */
  predicate WrittenTokenReq(cfg: StartupConfig, connectResults: seq<ConnectAttempt>, firmwareNeedsToken: bool) {
    WrittenConnect(cfg, connectResults).outcome == ConnectSucceeds && firmwareNeedsToken
  }

  lemma FrontOrdered(cfg: StartupConfig, connectResults: seq<ConnectAttempt>, firmwareNeedsToken: bool, ans: ConnectorResults)
    ensures Ordered(Front(cfg, connectResults, firmwareNeedsToken, ans))
    ensures RanksUpTo(Front(cfg, connectResults, firmwareNeedsToken, ans), 2)
  {
    var connects := WrittenConnect(cfg, connectResults).calls;
    var tokenReq := WrittenTokenReq(cfg, connectResults, firmwareNeedsToken);
    var acquire := AutoAcquire(cfg, tokenReq, ans).0;
    assert Ordered(connects) && RanksUpTo(connects, 0);
    AcquireOrdered(cfg, tokenReq, ans);
    ConcatOrdered(connects, acquire, 0);
    ConcatRanksUpTo(connects, acquire, 2);
    assert Front(cfg, connectResults, firmwareNeedsToken, ans) == connects + acquire;
  }

  lemma AcquireOrdered(cfg: StartupConfig, tokenReq: bool, ans: ConnectorResults)
    ensures Ordered(AutoAcquire(cfg, tokenReq, ans).0)
    ensures RanksUpTo(AutoAcquire(cfg, tokenReq, ans).0, 2)
  {
    var acquire := AutoAcquire(cfg, tokenReq, ans).0;
    assert RanksUpTo(acquire, 2);
    if |acquire| == 2 {
      assert acquire == [AcquireControlToken(false), AcquireControlToken(true)];
    }
  }

  lemma ConcatRanksUpTo(a: seq<ConnectorCall>, b: seq<ConnectorCall>, m: nat)
    requires RanksUpTo(a, m) && RanksUpTo(b, m)
    ensures RanksUpTo(a + b, m)
  {
    var s := a + b;
    forall i | 0 <= i < |s|
      ensures Rank(s[i]) <= m
    {
      if i < |a| {
        assert s[i] == a[i];
      } else {
        assert s[i] == b[i - |a|];
      }
    }
  }

  /** The startup as written is the front, then the steps if the front succeeded. */
  lemma StartUpSplits(cfg: StartupConfig, connectResults: seq<ConnectAttempt>, firmwareNeedsToken: bool, ans: ConnectorResults)
    ensures var r := StartUp(cfg, connectResults, firmwareNeedsToken, ans);
            var front := Front(cfg, connectResults, firmwareNeedsToken, ans);
            var acquired := AutoAcquire(cfg, WrittenTokenReq(cfg, connectResults, firmwareNeedsToken), ans).1;
            && (ConnectRaised(cfg, connectResults) ==>
                  r.calls == front && !r.servicesRegistered && |front| >= 1 && front[|front| - 1] == Connect(0))
            && (!ConnectRaised(cfg, connectResults) && !acquired ==>
                  r.calls == front && !r.servicesRegistered && |front| >= 1 && !ans(front[|front| - 1]))
            && (!ConnectRaised(cfg, connectResults) && acquired ==>
                  r == Startup(front + StartupSteps(cfg, ans).0, StartupSteps(cfg, ans).1))
  {
  }

  /** The startup calls come in the written order: connect, request, forced request, then the steps. */
  lemma StartUpOrdered(cfg: StartupConfig, connectResults: seq<ConnectAttempt>, firmwareNeedsToken: bool, ans: ConnectorResults)
    ensures Ordered(StartUp(cfg, connectResults, firmwareNeedsToken, ans).calls)
  {
    StartUpSplits(cfg, connectResults, firmwareNeedsToken, ans);
    FrontOrdered(cfg, connectResults, firmwareNeedsToken, ans);
    StepsOrdered(cfg, ans);
    ConcatOrdered(Front(cfg, connectResults, firmwareNeedsToken, ans), StartupSteps(cfg, ans).0, 2);
  }

  lemma NoStepsBelowRankThree(calls: seq<ConnectorCall>)
    requires RanksUpTo(calls, 2)
    ensures forall i :: 0 <= i < |calls| ==> !IsStep(calls[i])
    ensures OpenBrakes !in calls && HomeGripper !in calls && EnableFci !in calls
  {
    assert Rank(OpenBrakes) == 3 && Rank(HomeGripper) == 4 && Rank(EnableFci) == 5;
    forall i | 0 <= i < |calls|
      ensures !IsStep(calls[i])
    {
      assert Rank(calls[i]) <= 2;
    }
  }

  /** Each optional step runs only if its flag is set. */
  lemma StartUpStepsGated(cfg: StartupConfig, connectResults: seq<ConnectAttempt>, firmwareNeedsToken: bool, ans: ConnectorResults)
    ensures var r := StartUp(cfg, connectResults, firmwareNeedsToken, ans);
            && (OpenBrakes in r.calls ==> cfg.autoOpenBrakes)
            && (HomeGripper in r.calls ==> cfg.autoHomeGripper)
            && (EnableFci in r.calls ==> cfg.autoEnableFci)
  {
    var front := Front(cfg, connectResults, firmwareNeedsToken, ans);
    StartUpSplits(cfg, connectResults, firmwareNeedsToken, ans);
    FrontOrdered(cfg, connectResults, firmwareNeedsToken, ans);
    NoStepsBelowRankThree(front);
  }

  /**
   * A failed step or a failed automatic request is the last call: every
   * step before the end succeeded, and the startup stops short of the
   * services exactly at a failure.
   */
  lemma StartUpAbortsOnFailure(cfg: StartupConfig, connectResults: seq<ConnectAttempt>, firmwareNeedsToken: bool, ans: ConnectorResults)
    ensures var r := StartUp(cfg, connectResults, firmwareNeedsToken, ans);
            && (forall i :: 0 <= i < |r.calls| - 1 && IsStep(r.calls[i]) ==> ans(r.calls[i]))
            && (!r.servicesRegistered ==>
                  && |r.calls| >= 1
                  && (if ConnectRaised(cfg, connectResults) then r.calls[|r.calls| - 1] == Connect(0)
                      else !ans(r.calls[|r.calls| - 1])))
  {
    var r := StartUp(cfg, connectResults, firmwareNeedsToken, ans);
    var front := Front(cfg, connectResults, firmwareNeedsToken, ans);
    var steps := StartupSteps(cfg, ans);
    StartUpSplits(cfg, connectResults, firmwareNeedsToken, ans);
    FrontHasNoSteps(cfg, connectResults, firmwareNeedsToken, ans);
    if r.calls != front {
      assert r.calls == front + steps.0 && r.servicesRegistered == steps.1;
      StepsAfterFront(front, steps.0, steps.1, ans);
    }
  }

  lemma FrontHasNoSteps(cfg: StartupConfig, connectResults: seq<ConnectAttempt>, firmwareNeedsToken: bool, ans: ConnectorResults)
    ensures var front := Front(cfg, connectResults, firmwareNeedsToken, ans);
            forall i :: 0 <= i < |front| ==> !IsStep(front[i])
  {
    FrontOrdered(cfg, connectResults, firmwareNeedsToken, ans);
    NoStepsBelowRankThree(Front(cfg, connectResults, firmwareNeedsToken, ans));
  }

  /** Appending the optional steps to calls that hold none of them keeps the steps' success facts. */
  lemma StepsAfterFront(front: seq<ConnectorCall>, steps: seq<ConnectorCall>, completed: bool, ans: ConnectorResults)
    requires forall i :: 0 <= i < |front| ==> !IsStep(front[i])
    requires forall i :: 0 <= i < |steps| - 1 ==> ans(steps[i])
    requires !completed ==> |steps| >= 1 && !ans(steps[|steps| - 1])
    ensures var calls := front + steps;
            && (forall i :: 0 <= i < |calls| - 1 && IsStep(calls[i]) ==> ans(calls[i]))
            && (!completed ==> |calls| >= 1 && !ans(calls[|calls| - 1]))
  {
    var calls := front + steps;
    forall i | 0 <= i < |calls| - 1 && IsStep(calls[i])
      ensures ans(calls[i])
    {
      assert calls[i] == steps[i - |front|];
    }
    if !completed {
      assert calls[|calls| - 1] == steps[|steps| - 1];
    }
  }

  /**
   * A connect that raises after `k` refused attempts ends `main` there: the
   * `k + 1` connects are the only calls and no service is registered.
   */
  lemma StartUpStopsOnRaise(cfg: StartupConfig, connectResults: seq<ConnectAttempt>, k: nat, firmwareNeedsToken: bool, ans: ConnectorResults)
    requires cfg.connectionRetries < 0
    requires k < |connectResults| && connectResults[k] == ConnectRaises
    requires forall i :: 0 <= i < k ==> connectResults[i] == ConnectFails
    ensures var r := StartUp(cfg, connectResults, firmwareNeedsToken, ans);
            && !r.servicesRegistered
            && |r.calls| == k + 1
            && forall i :: 0 <= i < |r.calls| ==> r.calls[i] == Connect(0)
  {
    var loop := ConnectLoop(connectResults);
    assert connectResults[k] != ConnectFails;
    assert loop.outcome != ConnectFails;
    assert |loop.calls| - 1 == k;
  }

  /** The services are registered only once every enabled step was called and succeeded. */
  lemma StartUpRegisteredAfterSteps(cfg: StartupConfig, connectResults: seq<ConnectAttempt>, firmwareNeedsToken: bool, ans: ConnectorResults)
    ensures var r := StartUp(cfg, connectResults, firmwareNeedsToken, ans);
            r.servicesRegistered ==>
              && (cfg.autoOpenBrakes ==> OpenBrakes in r.calls && ans(OpenBrakes))
              && (cfg.autoHomeGripper ==> HomeGripper in r.calls && ans(HomeGripper))
              && (cfg.autoEnableFci ==> EnableFci in r.calls && ans(EnableFci))
  {
    StartUpSplits(cfg, connectResults, firmwareNeedsToken, ans);
  }

  /**
   * With the parameter defaults (`connection_retries` 20, nothing automatic)
   * `main` registers its services without ever calling `connect`.
   */
  lemma DefaultStartUpNeverConnects(connectResults: seq<ConnectAttempt>, firmwareNeedsToken: bool, ans: ConnectorResults)
    ensures StartUp(Defaults, connectResults, firmwareNeedsToken, ans).servicesRegistered
    ensures StartUp(Defaults, connectResults, firmwareNeedsToken, ans).calls == []
    ensures StartUpIntended(Defaults, connectResults, firmwareNeedsToken, ans).calls[0] == Connect(20)
  {
  }
}
