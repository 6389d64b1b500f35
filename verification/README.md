# armer_panda handler and connector, modelled in Dafny

This project models the part of `armer_panda` that talks to the Franka Desk
web API of a Panda arm and decides what the arm may do:

- **`PandaConnector`** (`connector.dfy`, `transport.dfy`, `version.dfy`).
  It covers:
  - the private `__call` retry loop;
  - `login`, `logout` and `connect`;
  - `read_system_version` with its 4.2.0 threshold for single point of
    control;
  - the control-token lifecycle: the standard and forced requests, the wait
    for activation, `is_control_token_active`, `can_control` and
    `release_control_token`;
  - the passthrough commands for FCI, the brakes and the gripper.
- **`PandaHandlerNode`** (`handler.dfy`). It covers the seven service
  handlers, `on_shutdown`, and the automatic startup sequence of `main`.
- **`PandaROSRobot.get_state`** (`robot_state.dfy`). It covers:
  - how a `FrankaState` message adds error flags to the reported state;
  - when error recovery is invoked;
  - how the remembered e-stop state is updated.

`connector_properties.dfy` holds the properties that span several connector
operations:

- the bookkeeping invariant every operation keeps;
- the forced request's wait;
- the release quirk;
- end-to-end connect scenarios on both sides of the 4.2.0 threshold.

Everything is a pure function over immutable records. The outside world is
passed in as data:

- **The web server** is a sequence of replies, where a missing reply counts
  as a raised exception. Each operation reports the requests it sent, one
  per attempt, so each attempt uses up one reply.
- **The wall clock** is a sequence of readings.
- **Inside a handler**, the connector is a function from each kind of call
  to its boolean result. This is sound because each handler invocation
  makes each kind of call at most once (`Handler.HandlersCallEachOnce`).
- **At startup**, each `connect` is a listed outcome: it returns False,
  returns True, or raises `InvalidVersion`. A raise ends `main`.

`version.parse` is modelled for numeric dotted versions. Comparison follows
release semantics: segment by segment, with missing segments read as zero,
so 4.2 equals 4.2.0. Any other version string counts as a parse failure,
which raises `InvalidVersion` under `packaging` 22 or later. Error flags are a set of distinct
flags, so `|=` is union, `& F == F` is membership and `== 0` is emptiness.

## Model

| member | source | states |
|---|---|---|
| Transport.CallFrom | armer_panda/PandaConnector.py:171-184 | The retry loop from attempt `k` on. It is answered exactly when some reply from `k` to the last allowed attempt is a 200. It stops at the first 200 and returns that reply's body. If no reply is a 200 it gives up after every allowed attempt. |
| Transport.Call | armer_panda/PandaConnector.py:171-184 | `__call` with `retries` makes `retries + 1` attempts. A negative `retries` makes none. The result is answered iff some reply in that window is a 200, and it uses the first such reply. Every attempt before it failed. When it gives up, it has made every attempt. |
| Transport.CallLoop | armer_panda/PandaConnector.py:171-184 | The `while attempts < retries + 1` loop, written imperatively. Its success flag, body and attempt count agree with `Call`. |
| Transport.NeverSucceedingTransport | armer_panda/PandaConnector.py:175-184 | A server that never answers 200 makes `__call` give up after exactly `retries + 1` attempts. |
| Version.StripQuotes | armer_panda/PandaConnector.py:72 | `strip('"')` returns an infix of its input with no quote at either end. Everything cut away on either side is quotes. |
| Version.StripQuotesOfPadded | armer_panda/PandaConnector.py:72 | Wrapping a quote-free-edged text in runs of quotes and stripping gives the text back. |
| Version.FirstLine | armer_panda/PandaConnector.py:72 | `split('\\n')[0]` returns a prefix that contains no backslash-n separator. It is either the whole text or is followed by a separator. |
| Version.FirstLineOfJoined | armer_panda/PandaConnector.py:72 | A line joined to anything by the separator is cut back to that line. |
| Version.ExtractVersion | armer_panda/PandaConnector.py:72 | The stored version is the first line of the quote-stripped reply text. It is a prefix of that text with no literal backslash-n in it, and it is either the whole text or stops at the first separator. |
| Version.NatToString | armer_panda/PandaConnector.py:73 | The decimal numeral of a number is a numeral whose value is that number. This is the partner used to state the parse round trip. |
| Version.SplitOnDot | armer_panda/PandaConnector.py:73 | The dotted pieces contain no dot and join back to the input. |
| Version.SplitJoin | armer_panda/PandaConnector.py:73 | Splitting dot-free pieces joined with dots gives the pieces back. |
| Version.Numerals | armer_panda/PandaConnector.py:73 | The pieces parse exactly when each is a numeral, and then each value is that numeral's value. |
| Version.ParseVersion | armer_panda/PandaConnector.py:73 | `version.parse` of a numeric dotted version: it succeeds iff every dot-separated piece is a nonempty digit string, and then it gives one segment per piece holding that piece's decimal value. Where it would raise, the result is None. ParseFormat is its round-trip partner. |
| Version.ParseFormat | armer_panda/PandaConnector.py:73 | Parsing the dotted decimal text of any release tuple gives the tuple back. |
| Version.AtLeastZeros | armer_panda/PandaConnector.py:73 | Every release is at least a run of zeros, so missing segments compare as zeros. |
| Version.AtLeast | armer_panda/PandaConnector.py:73 | No contract. It is defined as the release comparison `>=`: the first differing segment decides, and a missing segment reads as 0. Its properties are in the rows for AtLeastZeros, AtLeastTotal and AtLeastTransitive. |
| Version.NeedsControlToken | armer_panda/PandaConnector.py:73-74 | No contract. It is defined as `AtLeast(v, [4, 2, 0])`. Its properties are in the rows for NeedsControlTokenByMajorMinor, NeedsControlTokenUpward and ThresholdExamples. |
| Version.NeedsControlTokenByMajorMinor | armer_panda/PandaConnector.py:73-74 | A version is at or past 4.2.0 iff its major number is above 4, or it is 4 with a minor number of at least 2. |
| Version.AtLeastTotal | armer_panda/PandaConnector.py:73 | Any two releases are comparable. |
| Version.AtLeastTransitive | armer_panda/PandaConnector.py:73 | The release order is transitive. |
| Version.NeedsControlTokenUpward | armer_panda/PandaConnector.py:73-74 | Any release later than one that needs a control token needs one too. |
| Version.ThresholdExamples | armer_panda/PandaConnector.py:73-74 | 4.2.0, 4.2.1, 4.2, 4.3.1 and 5 need a token. 4.1.9 and 3.0.0 do not. |
| Connector.Init | armer_panda/PandaConnector.py:16-36 | The constructor keeps the given credentials. A new connector is not connected and has no cookie, no version, no token requirement, no token, no token id and no header token. InitConsistent states the invariant it starts. |
| Connector.NewSession | armer_panda/PandaConnector.py:42 | A fresh `requests.Session()` has no cookie and no control-token header, and every other field is kept. |
| Connector.Login | armer_panda/PandaConnector.py:51-58 | Sends only the login request with the stored credentials. It succeeds iff the server answers within the retries. On success, the cookie is the answering reply's text verbatim and `connected` is set. On failure, every attempt was made and nothing changed. |
| Connector.Logout | armer_panda/PandaConnector.py:60-65 | Success clears `connected` and nothing else; the cookie stays. Failure changes nothing. |
| Connector.ReadSystemVersion | armer_panda/PandaConnector.py:67-75 | Sends only version queries. If the query is unanswered, it returns false and changes nothing. If it is answered, the result is that of storing the answering reply's text. A discovered token requirement is never reset. |
| Connector.StoreVersion | armer_panda/PandaConnector.py:72-74 | The extracted version is stored before parsing, so an unparsable version is stored and then raises. A parsed version sets the token requirement iff it is at or past 4.2.0. Nothing else changes. |
| Connector.Connect | armer_panda/PandaConnector.py:38-49 | A fresh session, then login, then the version query, which runs only after a successful login. It succeeds iff both succeed. An unanswered login leaves the fresh session and sends only login requests. The token, its id and the credentials survive. |
| Connector.IsControlTokenActive | armer_panda/PandaConnector.py:130-142 | Read-only. True iff the answering reply names an active token whose id is the stored id. An unanswered query or a missing id gives false. |
| Connector.CanControl | armer_panda/PandaConnector.py:123-128 | Without single point of control it holds with no request. With it, it is exactly the activity check. |
| Connector.Holding | armer_panda/PandaConnector.py:117-119 | Storing a grant sets the token, the id and the session header, and nothing else. |
| Connector.StandardAcquire | armer_panda/PandaConnector.py:110-121 | An unanswered request changes nothing and fails. Otherwise it stores the grant and makes exactly one activity check, and the result is that check's result. The first request is the standard token request. Success means the reply to the final activity check reports the new token active. |
| Connector.PollActive | armer_panda/PandaConnector.py:103-108 | The wait loop sends only activity queries. It reads no further clock readings than it has, and sends no query once the deadline is read. |
| Connector.PollActiveReplies | armer_panda/PandaConnector.py:103-108 | The wait ends with control exactly at the first query whose reply reports our token active. No earlier reply reported it. |
| Connector.PollActiveHeldLast | armer_panda/PandaConnector.py:103-107 | A wait that gains control sent at least one query, and the reply to its last query reports our token active. |
| Connector.PollActiveNotHeld | armer_panda/PandaConnector.py:103-108 | No reply of the wait reports our token active, except the last reply of a wait that gained control. |
| Connector.PollActiveAcquiredInTime | armer_panda/PandaConnector.py:104-107 | Control is gained only at a clock reading before the deadline, and every earlier reading was before it too. |
| Connector.PollActiveTimesOut | armer_panda/PandaConnector.py:104-108 | A wait without control stops at the first reading past the deadline, or when the clock runs out. Every earlier reading was before the deadline. |
| Connector.ForcedRequestAndWait | armer_panda/PandaConnector.py:87-108 | The forced request, then the wait until `start + timeout`. An unanswered request fails with nothing stored. An answered one stores the grant before waiting, and the result is the wait's result. |
| Connector.ForcedAcquire | armer_panda/PandaConnector.py:82-108 | The safety query comes first. If it fails, nothing else is sent. Otherwise its `tokenForceTimeout` bounds the forced wait. The first request sent is always the safety query. |
| Connector.AcquireControlToken | armer_panda/PandaConnector.py:77-121 | Success means the last reply received reported the newly stored token id active. The first request is the safety query when forcing and the standard token request otherwise. The standard branch reads no clock. A first request that is never answered returns False and changes nothing. |
| Connector.ForcedRequestHeldLast | armer_panda/PandaConnector.py:90-108 | The forced request and wait succeed only when the last reply reports the new token active. |
| Connector.ForcedAcquireHeldLast | armer_panda/PandaConnector.py:82-108 | A forced acquisition, safety query included, succeeds only when the last reply reports the new token active. |
| Connector.ReleaseControlToken | armer_panda/PandaConnector.py:144-149 | As written: sends the stored token whether or not it is active. Succeeds iff answered. Leaves the connector unchanged. |
| Connector.ReleaseControlTokenIntended | armer_panda/PandaConnector.py:144-149 | As intended: a successful release forgets the token, and a failed one changes nothing. |
| Connector.Command | armer_panda/PandaConnector.py:171-184 | A passthrough sends one request with the default retries. It changes nothing, and succeeds iff answered. |
| Connector.EnableFci | armer_panda/PandaConnector.py:151-153 | A POST to the FCI endpoint carrying the stored token in the payload and the header. It changes nothing. |
| Connector.DisableFci | armer_panda/PandaConnector.py:155-157 | A DELETE to the FCI endpoint carrying the stored token in the payload and the header. It changes nothing. |
| Connector.OpenBrakes | armer_panda/PandaConnector.py:159-161 | Sends only the open-brakes request. Its `retries` argument has no effect. |
| Connector.CloseBrakes | armer_panda/PandaConnector.py:163-165 | Sends only the close-brakes request. Changes nothing. |
| Connector.HomeGripper | armer_panda/PandaConnector.py:167-169 | Sends only the homing request. Changes nothing. |
| ConnectorProperties.InitConsistent | armer_panda/PandaConnector.py:16-36 | A new connector is disconnected, needs no token and satisfies the bookkeeping invariant. |
| ConnectorProperties.ApplyKeeps | armer_panda/PandaConnector.py:38-169 | Every public operation keeps the invariant: a token is stored iff its id is, and the header is unset or carries the token. It also keeps the credentials and never drops a discovered token requirement. |
| ConnectorProperties.RunKeeps | armer_panda/PandaConnector.py:38-169 | The same holds for any sequence of operations. |
| ConnectorProperties.SessionOpKeeps | armer_panda/PandaConnector.py:38-75 | Connect, login, logout and the version read keep the token invariant and the credentials, and never drop a discovered token requirement. |
| ConnectorProperties.AcquireKeeps | armer_panda/PandaConnector.py:82-121 | Both kinds of token request store the token, its id and the header together, so the invariant holds afterwards. |
| ConnectorProperties.NoPollWithoutTimeout | armer_panda/PandaConnector.py:102-108 | With a non-positive timeout and a clock that does not run backwards, the forced request makes no activity query and fails. |
| ConnectorProperties.PollReachesActivation | armer_panda/PandaConnector.py:103-108 | When every reply is a 200: if the server first reports the token active at query `j` before the deadline, the wait acquires control after exactly `j + 1` queries. |
| ConnectorProperties.PollNeverAcquiresWhileContested | armer_panda/PandaConnector.py:103-108 | If the server never reports our token active, the wait never gains control. |
| ConnectorProperties.ReleaseLeavesTokenStored | armer_panda/PandaConnector.py:144-149 | An accepted release leaves the token stored as written, and clears it as intended. |
| ConnectorProperties.ExtractQuoted | armer_panda/PandaConnector.py:72 | A quoted single-line version text extracts to the version itself. |
| ConnectorProperties.ConnectAnsweredAtOnce | armer_panda/PandaConnector.py:38-75 | A connect whose two requests are answered at once stores the cookie and the version. It sets the token requirement according to the threshold. |
| ConnectorProperties.ScenarioBelowThreshold | armer_panda/PandaConnector.py:67-75 | Firmware `"3.0.0"`: connect succeeds, no token is required, and `can_control` holds without a request. |
| ConnectorProperties.ScenarioAtThreshold | armer_panda/PandaConnector.py:67-75 | Firmware `"4.2.0"`: connect succeeds and a token is required. |
| ConnectorProperties.ScenarioUnreachable | armer_panda/PandaConnector.py:38-58 | An unreachable arm with `retries=20` gets 21 login requests and no version query, and nothing is stored. |
| Handler.HandleAcquireControl | armer_panda/PandaHandlerNode.py:51-59 | Asks `can_control` first. Requests a token with the service's `force` flag iff control is not already held. Succeeds iff control was held or the request succeeded. The message says which of the three cases happened. |
| Handler.HandleReleaseControl | armer_panda/PandaHandlerNode.py:61-71 | Releases iff control is held and a token is required. Reports failure only when that release fails. The message names the case: no authority, no token required, release refused, or released. |
| Handler.HandleEnableFci | armer_panda/PandaHandlerNode.py:73-81 | Enables FCI iff the token is active. Succeeds iff both the check and the enable succeed. The message distinguishes no authority, a failed enable and success. |
| Handler.HandleDisableFci | armer_panda/PandaHandlerNode.py:83-91 | Disables FCI iff the token is active. Succeeds iff both the check and the disable succeed. The message distinguishes no authority, a failed disable and success. |
| Handler.HandleOpenBrakes | armer_panda/PandaHandlerNode.py:93-99 | One open-brakes call. Success follows it. The message is the brakes-opened warning on success and "Unable to open Brakes!" otherwise. |
| Handler.HandleCloseBrakes | armer_panda/PandaHandlerNode.py:101-107 | One close-brakes call. Success follows it. The message is "API Reports Brakes closed" on success and "Unable to close Brakes!" otherwise. |
| Handler.HandleHomeGripper | armer_panda/PandaHandlerNode.py:109-114 | One homing call. Success follows it. The message is "API Reports Gripper homed" on success and "Unable to home Gripper" otherwise. |
| Handler.MessageTellsOutcome | armer_panda/PandaHandlerNode.py:51-114 | For every service, the message is one of the success messages iff the response reports success. |
| Handler.HandleCallsArePossible | armer_panda/PandaHandlerNode.py:51-114 | Each service makes its first call, optionally followed by its one guarded call. |
| Handler.HandlersCallEachOnce | armer_panda/PandaHandlerNode.py:51-114 | No service makes the same connector call twice. |
| Handler.ServicesGuardAuthority | armer_panda/PandaHandlerNode.py:61-91 | FCI is touched only after a positive activity check. The token is released only after a positive `can_control`. |
| Handler.OnShutdown | armer_panda/PandaHandlerNode.py:33-49 | Closes the brakes, disables FCI, checks activity, releases iff active, then logs out, and calls nothing else. Every step runs regardless of earlier failures. The error lines appear iff the matching step failed. No call repeats. |
| Handler.ConnectLoop | armer_panda/PandaHandlerNode.py:140-145 | `connect(retries=0)` is repeated until the first attempt that returns True or raises, or until shutdown. Every attempt before the last returned False. The loop ends by shutdown iff every listed attempt returned False. |
| Handler.WrittenConnect | armer_panda/PandaHandlerNode.py:139-147 | As written, a non-negative `connection_retries` makes no connect call and ends as not connected. Every call made is `connect(retries=0)`. With a negative value the phase ends without a connection iff every attempt fails. |
| Handler.AutoAcquire | armer_panda/PandaHandlerNode.py:150-169 | A standard request is made iff a token is required and auto acquire is on. A forced request is made iff the standard one failed and forcing is allowed. It aborts iff all of its requests failed. |
| Handler.StartupSteps | armer_panda/PandaHandlerNode.py:174-193 | Open brakes, home gripper and enable FCI each run only if their flag is set. The first failure is the last call. It completes iff every enabled step succeeds. |
| Handler.StartUp | armer_panda/PandaHandlerNode.py:139-193 | As written, `connect` is never called when `connection_retries` is non-negative. A connect that raises ends `main` without registering the services. |
| Handler.StartUpIntended | armer_panda/PandaHandlerNode.py:139-147 | As intended, the first call is a connect. Services are registered only after a successful connect. |
| Handler.StepsOrdered | armer_panda/PandaHandlerNode.py:174-193 | The optional steps run in the written order. |
| Handler.StartUpOrdered | armer_panda/PandaHandlerNode.py:139-193 | The startup calls follow the written order: connects, the standard request, the forced request, open brakes, home gripper, enable FCI. |
| Handler.StartUpStepsGated | armer_panda/PandaHandlerNode.py:174-193 | No optional step runs with its flag off. |
| Handler.StartUpAbortsOnFailure | armer_panda/PandaHandlerNode.py:140-193 | Every step before the last succeeded. Startup stops short of the services only right after a failed call, or right after a connect that raised. |
| Handler.StartUpStopsOnRaise | armer_panda/PandaHandlerNode.py:140-145 | If the connect loop's attempt `k` raises after `k` refusals, the `k + 1` connects are the only calls and no service is registered. |
| Handler.StartUpRegisteredAfterSteps | armer_panda/PandaHandlerNode.py:174-195 | Services are registered only after every enabled step ran and succeeded. |
| Handler.DefaultStartUpNeverConnects | armer_panda/PandaHandlerNode.py:121-147 | With the default parameters, `main` as written registers its services without any connector call. The intended version connects first with 20 retries. |
| RobotState.ClassifyMotionErrors | armer_panda/robots/PandaROSRobot.py:111-148 | A limit flag is added iff some active error outside mode 2 falls in its list. OTHER is added iff nothing was set before the loop and the first active error is unlisted. Flags are never removed. Mode 2 adds nothing. |
| RobotState.ModeFlags | armer_panda/robots/PandaROSRobot.py:107-109 | LOCKED is added iff the mode is OTHER. ESTOP is added iff the mode is USER_STOPPED. COLLISION is added iff some cartesian collision entry is set. |
| RobotState.GetStateWith | armer_panda/robots/PandaROSRobot.py:100-160 | It never clears a flag of the base state. Without a FrankaState nothing is added. Each flag is set by exactly the condition above. In IDLE mode, recovery runs iff `recover_on_estop` holds and the last e-stop state is 1; in any other mode, iff OTHER is set. The new e-stop state is 1 iff the mode is USER_STOPPED. |
| RobotState.GetState | armer_panda/robots/PandaROSRobot.py:139-145 | As written, an active `tau_j_range_violation` alone never raises TORQUE_LIMIT_VIOLATION. |
| RobotState.GetStateIntended | armer_panda/robots/PandaROSRobot.py:139-145 | As intended, an active `tau_j_range_violation` outside mode 2 raises TORQUE_LIMIT_VIOLATION. |
| RobotState.TauJRangeNotListed | armer_panda/robots/PandaROSRobot.py:139-145 | As written, `tau_j_range_violation` is in none of the three lists. |
| RobotState.TauJRangeListedIntended | armer_panda/robots/PandaROSRobot.py:139-145 | With the names separated, `tau_j_range_violation` is a torque-limit name. |
| RobotState.TauJRangeFallsThrough | armer_panda/robots/PandaROSRobot.py:139-155 | For every reading that sets no flag before the loop (no base flags, no collision, mode not OTHER or USER_STOPPED), in neither IDLE nor mode 2, whose only active motion errors are `tau_j_range_violation`: as written the errors are exactly OTHER and recovery runs. As intended they are exactly TORQUE_LIMIT_VIOLATION and no recovery runs. |
| RobotState.RaisesOnly | armer_panda/robots/PandaROSRobot.py:111-145 | When some motion error is active and every active one falls in the same category, outside mode 2 exactly that category is raised. |
| RobotState.FirstActiveOfOnly | armer_panda/robots/PandaROSRobot.py:111-148 | When some motion error is active and every active one falls in the same category, the first active error is unlisted exactly when that category is. |
| RobotState.RecoverAfterEstopRelease | armer_panda/robots/PandaROSRobot.py:150-158 | A USER_STOPPED reading remembers the e-stop. The next IDLE reading then invokes recovery and forgets it. |
| RobotState.IdleRecoveryIgnoresErrors | armer_panda/robots/PandaROSRobot.py:150-152 | In IDLE mode, recovery depends only on `recover_on_estop` and the remembered e-stop. |
| RobotState.EarlierFlagsSuppressOther | armer_panda/robots/PandaROSRobot.py:147-155 | If any flag is already set, OTHER is never added, and recovery does not run outside IDLE. |

## Left out

- HTTP, TLS verification, urllib3 warnings and the 10-second request timeout. Each reply is an element of a reply sequence.
- JSON decoding. Replies are already-parsed records. A body missing a key, which raises `KeyError` in the source, is not modelled.
- Full PEP 440. Only numeric dotted versions are parsed. Pre-releases, epochs, local versions and the like count as parse failures and raise, where `packaging.version` would accept them.
- Wall-clock time. The clock is a sequence of readings, and a sequence that ends counts as past the deadline.
- The session being `None` before the first `connect`. Requests made then would raise inside the `try` and count as failed attempts. The model starts with a session that has no cookie.
- rospy: node setup, parameter lookup, logging other than the shutdown report lines, `sleep`, service registration beyond a flag, and the five-second retry delay.
- Handler.OnShutdown: models the evidently intended shutdown. As written, `PandaConnector` defines no `calling` attribute, so `self.panda_connector.calling` at PandaHandlerNode.py:31 raises `AttributeError` and none of the modelled shutdown steps run.
- Connector.StoreVersion: assumes `packaging` 22 or later, where `version.parse` raises `InvalidVersion` for a non-PEP 440 string. The source does not pin the release. Before 22 such a string parses to a `LegacyVersion` that sorts below every release, so `read_system_version` would return True and leave `control_token_req` unchanged.
- The handlers' log lines, apart from the response messages.
- `PandaROSRobot`'s constructor, subscribers, action client, `recover_cb`'s body (only whether it is invoked is recorded), `set_cartesian_impedance_cb`, `franka_state_cb` and the superclass `get_state`, whose error flags are an input. The copying of the contact and collision vectors into the state is also left out.
- The numeric values of the `ManipulatorState` flags and `FrankaState` modes. Flags are assumed to be distinct single bits, and the named modes are assumed to differ from the literal mode 2.

## Findings

| source | as written | input that shows it | evidently intended | confidence | as-written member | corrected member |
|---|---|---|---|---|---|---|
| armer_panda/PandaConnector.py:147 | `self.control_token == None` compares and discards the result, so a successful release keeps the token stored | a connector holding token `"token"`, and one 200 reply to the release | assign `None` so the released token is forgotten; the token id and the session's `X-Control-Token` header still stay, as the one-character fix leaves them | high, not executed | ConnectorProperties.ReleaseLeavesTokenStored | Connector.ReleaseControlTokenIntended |
| armer_panda/robots/PandaROSRobot.py:142-144 | three adjacent string literals without commas form one long name, so `tau_j_range_violation` and the two names before it are unlisted | an active `tau_j_range_violation` alone, with no flag set before the loop (base state clear, no collision, mode not OTHER, USER_STOPPED, IDLE or 2): as written OTHER is set and recovery runs | six separate torque-limit names, giving TORQUE_LIMIT_VIOLATION and no recovery | high, not executed | RobotState.TauJRangeFallsThrough | RobotState.GetStateIntended |
| armer_panda/PandaHandlerNode.py:139-147 | `connect` runs only in the `connection_retries < 0` branch, so with the default of 20 the node never logs in yet registers its services | the default parameters | connect once with `connection_retries` retries when it is non-negative, and stop without a connection | medium, not executed | Handler.DefaultStartUpNeverConnects | Handler.StartUpIntended |
