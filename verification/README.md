# Network provisioning: a verified model

This project models the provisioning service that brings a device onto a Wi-Fi or Thread network,
and proves what it promises over whole runs. Every state-changing component is a class whose
methods are proved equal to a specification function; the theorems are about those functions,
quantified over every run, every interleaving of requests, callbacks and timers, and every choice
of the environment (which calls fail, what arrives, which random values are drawn).

| module | what it models |
|---|---|
| `Common`, `Decimal`, `Strtoul` | shared types; decimal printing and reading; `strtoul` for any width of `unsigned long` |
| `Keystream`, `Security1`, `ProvClient` | the primitives as uninterpreted functions, the device and the client end of security scheme 1 |
| `Protocomm`, `DeviceRuns`, `LockStep` | endpoint table, sessions and dispatch; runs of a device; an unbounded two-party conversation |
| `WifiConfig`, `WifiRuns`, `WifiStore`, `WifiTold`, `WifiRefinement` | the Wi-Fi connection machine, its runs, their effect on the credential store, what is answered and told, and the small machine it refines |
| `ThreadConfig`, `ThreadRuns` | the Thread attach protocol with one step per shared write, read or compare-and-swap, and every interleaving of its threads |
| `ThreadControl` | what is reported, staged and left behind by reset, erase and deinit |
| `ThreadMishaps`, `ThreadAttach` | runs in which an attempt is reported wrongly; exactly when an attach ahead of the re-check is sure to be reported |
| `Manager`, `EventLanguage`, `AutoStop` | the lifecycle over the Wi-Fi handler, the language of its event traces, and its teardowns, answers and handler run |
| `CustomEndpoints` | application endpoints and registration at start |
| `Json`, `AppInfo`, `ProtoVer` | a JSON printer and parser; the proto-ver text; what a client learns from its endpoint |
| `HttpText`, `SessionCookie` | header names, request paths and cookies; which cookie values are accepted |
| `SoftAp`, `HttpConversation` | reassembly of requests and sessions over HTTP; a client's whole session through it |
| `ConsoleTransport`, `BleTransport` | the console command; the BLE characteristics |
| `DeviceGate`, `HttpGate`, `ConsoleGate`, `BleGate` | each transport's runs as runs of the device, and the data gate over each |
| `ScanCaches` | the scan result caches and their paging |

The cryptography enters through two facts only: XOR cancels (proved), and Diffie-Hellman is
symmetric (`Keystream.Suite.Symmetric`, a hypothesis of the lemmas that need it; section 6.1 of
RFC 7748).

## What the code does not promise, and exactly when it does

- A proof of possession longer than 63 bytes is cut on the device and not on the client. The two
  session keys agree if and only if the length is at most 63 or the hash does not see the
  difference (`ProvClient.ConfiguredPopKeysAgree`; a pair that disagrees: `ProvClient.LongPopDisagrees`).
- Lock-step between client and device survives a request if and only if every byte the client or
  the device encrypts reaches the other end's cipher (`LockStep.ExchangeInStep`): an unknown
  endpoint, a failed allocation, or a request or response dropped by the transport breaks it.
- A Thread Apply that is not disturbed afterwards, its dataset taken or rejected, ends in exactly
  one outcome if and only if no older outcome was still to come when it became pending or was found
  rejected (`ThreadRuns.OneOutcome`). Three kinds can be: an older timeout has claimed its outcome
  and not reported it, so that the status poll says failed while the node is attached
  (`ThreadMishaps.StaleTimeoutMisreports`); an older callback has, so that success is reported twice
  (`ThreadMishaps.StaleCallbackRepeats`); a rejected dataset leaves an older attempt pending, so
  that the status poll says attached although the last Apply reported a failure
  (`ThreadMishaps.RejectedApplyMisreports`).
- An attach between enabling Thread and storing pending is caught by the role re-check, but the
  re-check may lose its compare-and-swap: no Apply cancels an older attempt's timer before it stores
  pending. With nothing older left to report, an attach that the re-check sees is sure to be
  reported as a success if and only if no older timer is armed or has fired when pending is stored
  (`ThreadAttach.AttachReportedExactly`; a run that reports a failure for an attached node:
  `ThreadMishaps.LateTimeoutMisreports`).
- `network_prov_mgr_set_app_info` accepts the label `prov`, and then the advertised object has two
  members of one name; names are unique if and only if the label differs (`AppInfo.UniqueNames`).
- The comment above `get_cookie_session` says that a malformed value is rejected so that it cannot
  alias a valid session. For every header value, what is accepted is a well-formed session cookie
  (a pair named exactly `session`, digits, then the end or a semicolon) with that id if and only if
  the value is not flawed: the key stands at the start of a pair, a digit follows it, the digits end
  the value or the pair, and the number is in range (`SessionCookie.AcceptsWellFormed`). Values that
  fail: trailing text, a key inside another name, padding, and numbers that saturate or wrap
  (`SessionCookie.TrailingTextAccepted`, `InnerKeyAccepted`, `PaddingAccepted`,
  `HttpText.DigitsNeverAlias`, `HttpText.NegativeAliases`). The other way round, the well-formed
  session cookies behind given cookies are all accepted as their ids if and only if those cookies do
  not contain the text `session=` (`SessionCookie.WellFormedAccepted`); behind `mysession=1` every
  session is read as 1 (`SessionCookie.ShadowedByInnerKey`). The console refuses overflow and
  trailing text but not negative numbers that wrap (`ConsoleTransport.AcceptsAsWritten`,
  `ConsoleTransport.NegativeAliases`).
- Staged Wi-Fi credentials survive a stop and restart of the service. An Apply uses what was set in
  the current service if and only if a Set was accepted or a reset received since it started, or
  nothing was staged when it started (`WifiRuns.AppliesCurrentSet`; a run where it does not:
  `WifiRuns.RestartApplies`).
- An Apply that is answered with an error keeps the credential store if and only if there was no
  interface, or the delete failed, or the SSID had no entry; otherwise the earlier, possibly working
  entry is lost (`WifiStore.FailedApplyStore`; a run that loses one: `WifiStore.FailedApplyLoses`).
- After Success the applied credentials are stored if and only if the manager did not erase the
  store during the attempt (`WifiStore.OutcomeStore`).

## Model

| member | source | states |
|---|---|---|
| Keystream.XformInverse | src/security1.c:202-223 | Encrypting at one end and decrypting at the other recovers the plaintext if and only if the two keystreams agree over the bytes used |
| Keystream.XorInjective | src/security1.c:157-171 | Two masks of one shared secret give the same key only if they are the same mask |
| Keystream.XorTwice | src/security1.c:167-169 | A mask put on twice is off again |
| Keystream.MixInPlace | src/security1.c:167-169 | The in-place loop leaves the XOR of the old buffer and the hash |
| Security1.DevicePop | src/security1.c:77-83 | The device keeps the longest prefix of the proof of possession of at most 63 bytes |
| Security1.Sec1Context.constructor | src/security1.c:61-114 | A new context is in the initial state with its own key pair, the cut proof of possession and no armed keystream |
| Security1.Sec1Context.DeriveSessionKey | src/security1.c:143-200 | On success the keystream is armed at position 0 with the masked shared secret and the device's random IV; which failures leave the old keystream and which disarm it |
| Security1.Command0ArmsSecret | src/security1.c:143-200 | An accepted Command0 arms the keystream at its start with the new IV and a key that gives the agreed Diffie-Hellman secret when the mask is taken off, and is the secret without a proof of possession |
| Security1.SameKeySameSecret | src/security1.c:149-171 | Under one proof of possession, two accepted Command0s arm one key if and only if they agreed on one secret |
| Security1.Command0Fails | src/security1.c:143-200 | Which PSA failures refuse a Command0, and whether the old keystream goes on |
| Security1.Sec1Context.CtrXform | src/security1.c:210-223 | One transform at the current position, which it advances by the bytes transformed; a failing call moves nothing |
| Security1.Sec1Context.Command0 | src/security1.c:262-285 | Accepts a 32-byte key in any state and re-arms the keystream; the state moves only if derivation succeeded, also when the reply cannot be allocated |
| Security1.Sec1Context.Command1 | src/security1.c:287-326 | Accepts only after Command0 and only a value that decrypts to the device's public key; a mismatch stays at that state with the keystream 32 bytes on |
| Security1.Sec1Context.OnMessage | src/security1.c:328-361 | Every message, decodable or not, moves the context as specified and keeps it well formed |
| Security1.Sec1Context.Encrypt | src/security1.c:363-372 | Data is transformed only once the handshake is done |
| Security1.HandshakeKeepsWellFormed | src/security1.c:328-361 | No single message arms a keystream before Command0 or changes key sizes; with the constructor this holds along every run |
| ProvClient.ProvisioningClient.Derive | tests/common/prov_client.c:57-114 | The client's key is masked with the whole proof of possession; a failed set-up leaves no half-armed cipher |
| ProvClient.ClientArmsSecret | tests/common/prov_client.c:57-106 | The client's key gives the secret agreed with the device when the whole mask is taken off |
| ProvClient.DerivationFails | tests/common/prov_client.c:57-114 | Which PSA failures refuse a derivation, and whether a cipher is left |
| ProvClient.ProofChecked | tests/common/prov_client.c:232-249 | The client is satisfied if and only if it is sent 32 bytes that its own keystream decrypts to its own public key |
| ProvClient.ProvisioningClient.Transform | tests/common/prov_client.c:116-127 | The client's transform at its own position |
| ProvClient.ProvisioningClient.Connect | tests/common/prov_client.c:168-250 | The client's handshake against a live device context: both ends' new states and the status, on every error path |
| ProvClient.HandshakeOutcome | src/security1.c:287-326 | With no failing call, from any device state: the device accepts if and only if the keystreams agree on bytes 0..31, the handshake succeeds if and only if they agree on 0..63; both ends then stand at 64, and a refusal leaves the device at 32 |
| ProvClient.SuccessIsMutual | tests/common/prov_client.c:168-250 | Whatever calls fail, a handshake that returns 0 leaves the device done, both ends at offset 64 and the keystreams equal on the bytes used |
| ProvClient.KeysAgree | src/security1.c:143-200 | One session key at both ends if and only if both proofs of possession put the same mask on the secret |
| ProvClient.ConfiguredPopKeysAgree | src/security1.c:81-82 | One configured proof of possession gives one key if and only if it is at most 63 bytes or the hash does not see the cut |
| ProvClient.LongPopDisagrees | src/security1.c:81-82 | A hash and a proof of possession of 64 bytes for which the two ends hold different keys |
| ProvClient.MatchingPopSucceeds | tests/common/prov_client.c:168-250 | Equal proofs of possession of at most 63 bytes, or none: the handshake returns 0, one keystream, offset 64 at both ends |
| Protocomm.Find | src/protocomm.c:56-64 | The first entry of that name, and none only if no entry has it |
| Protocomm.ProtocommInstance.FindEp | src/protocomm.c:56-64 | The lookup loop finds exactly that entry |
| Protocomm.ProtocommInstance.AddEp | src/protocomm.c:66-89 | Appends, or leaves the table alone with the error of the first check that fails |
| Protocomm.AddKeepsFits | src/protocomm.c:66-89 | An addition works if and only if the longer table is one a device may have, and otherwise changes nothing |
| Protocomm.ProtocommInstance.CloseSession | src/protocomm.c:145-154 | The context is gone, the rest unchanged |
| Protocomm.ProtocommInstance.OpenSession | src/protocomm.c:128-143 | The old context is replaced by a fresh one, or by none if initialisation fails |
| Protocomm.ProtocommInstance.OnData | src/protocomm.c:179-234 | Decrypt, handler, encrypt: new context, response and what the handler saw, on every path; an empty body reaches the handler without decryption |
| Protocomm.ProtocommInstance.ReqHandle | src/protocomm.c:236-269 | Dispatch by kind of endpoint, with the errors for unknown endpoints and missing contexts |
| Protocomm.SessionAnswer | src/protocomm.c:256-260 | The session endpoint answers what the open context answers to the message, and moves it as the message does |
| Protocomm.HandlerFails | src/protocomm.c:203-208 | The error of a handler that ran is the answer |
| Protocomm.NothingServed | src/protocomm.c:246-266 | Without an endpoint or a session a request is refused with its error, reaches no handler and changes nothing |
| DeviceRuns.VersionAnswered | src/protocomm.c:156-168 | After any run the version endpoint answers exactly the text the service was started with, whatever session and proof of possession, and changes nothing |
| ProtoVer.ClientLearns | src/network_prov_mgr.c:456-466 | Whatever endpoints were created, whatever was set and after any run, parsing the answer to "proto-ver" gives what the last valid call of set_app_info asked for |
| DeviceRuns.DataGate | src/protocomm.c:236-269 | In every run, a handler sees non-empty plaintext, or a non-empty data response leaves, only if the current context's last accepted Command0 was followed by a verified Command1 |
| DeviceRuns.KeystreamConserved | src/security1.c:202-223 | In every run the device's offset equals 32 per Command1, 32 more if accepted, plus all bytes decrypted and encrypted since the last accepted Command0 |
| DeviceRuns.NoKeystreamReuse | src/security1.c:202-223 | Two transforms under one key use disjoint intervals, in order, each starting where the accounting stands |
| DeviceRuns.StepKeepsInv | src/protocomm.c:128-269 | Every open, close and request keeps the record sound and in step with the context |
| LockStep.ExchangeInStep | src/protocomm.c:179-234 | One exchange keeps the ends in step if and only if every byte encrypted at either end arrives at the other; the handler sees the client's plaintext and the client recovers the response |
| LockStep.ConversationInStep | tests/common/prov_client.c:116-127 | For every sequence of such requests: equal offsets throughout, exact plaintexts both ways, and the offset grows by the bytes exchanged |
| LockStep.SessionRoundTrip | tests/common/prov_client.c:168-250 | From opening the session through the handshake to the end of any such conversation: success, in step, offset 64 plus the bytes exchanged, every plaintext exact |
| WifiConfig.WifiHandler.OnFinalFailure | src/wifi_config_handler.c:130-163 | The reason follows the latest cause, the snapshot's SSID is deleted, the snapshot dropped, one failure reported |
| WifiConfig.WifiHandler.RetryWorkHandler | src/wifi_config_handler.c:170-183 | A retry reconnects from the snapshot, or does nothing after a reset, or ends the attempt if refused |
| WifiConfig.WifiHandler.OnConnectResult | src/wifi_config_handler.c:185-228 | Stale results are ignored; success, retry with a 32-bit attempt count, or final failure |
| WifiConfig.WifiHandler.ConfigInit | src/wifi_config_handler.c:239-253 | A fresh budget and idle state; staged credentials stay |
| WifiConfig.WifiHandler.ConfigDeinit | src/wifi_config_handler.c:255-267 | No snapshot, no retry, no callback |
| WifiConfig.WifiHandler.ConfigReset | src/wifi_config_handler.c:269-290 | Staging, snapshot, retry and counters cleared; the store is left alone |
| WifiConfig.WifiHandler.RemainingAttempts | src/wifi_config_handler.c:292-298 | The difference of budget and count, never below zero |
| WifiConfig.WifiHandler.DoSetConfig | src/wifi_config_handler.c:307-332 | Stages valid credentials; a BSSID of another length than six counts as none; invalid lengths change nothing |
| WifiConfig.WifiHandler.DoApplyConfig | src/wifi_config_handler.c:342-423 | Store, snapshot, budget and first request, with the effect of each failure on store and state |
| WifiConfig.WifiHandler.BeginAttempt | src/wifi_config_handler.c:377-399 | The attempt starts from the staged credentials with a full budget and no retry left over |
| WifiConfig.WifiHandler.RefuseAttempt | src/wifi_config_handler.c:400-421 | A request refused on the spot is reported like a failed attempt and its entry removed |
| WifiConfig.WifiHandler.DoSetAndApply | src/wifi_config_handler.c:425-450 | The programmatic path: stage without BSSID or channel, then apply |
| WifiConfig.WifiHandler.EncodeGetStatus | src/wifi_config_handler.c:482-511 | Which alternative of the status reply is sent, and the number of attempts in it |
| WifiRuns.NextKeepsInv | src/wifi_config_handler.c:82-298 | Every step keeps: Connecting exactly while a snapshot is in flight, requests bounded by attempts, count within budget |
| WifiRuns.AttemptBound | src/wifi_config_handler.c:170-228 | At every point of every run: at most max(1, budget) requests since the last Apply, the count never passes the budget (no wrap), a reported remainder lies in 1..budget-1 |
| WifiRuns.FrozenSnapshot | src/wifi_config_handler.c:96-125 | Every connect request of every run carries exactly the credentials of the Apply before it; every outcome answers an open Apply |
| WifiRuns.StagedIsLastSet | src/wifi_config_handler.c:307-332 | What is staged is what the last accepted Set asked for, unless a reset followed, also across restarts |
| WifiRuns.AppliesLastSet | src/wifi_config_handler.c:342-423 | After any run, an Apply that is taken stores and tries exactly the credentials last set, or does nothing if there are none |
| WifiRuns.AppliesCurrentSet | src/wifi_config_handler.c:239-253 | An Apply tries what was set in the current service if and only if a Set was accepted or a reset received since it started, or nothing was staged then |
| WifiRuns.RestartApplies | src/wifi_config_handler.c:239-253 | A run in which a restarted service applies what the earlier one was given |
| WifiTold.RequestsAnswered | src/wifi_config_handler.c:307-423 | A Set is accepted exactly on its lengths, an Apply exactly when it begins an attempt |
| WifiTold.ConfigureAnswered | src/wifi_config_handler.c:425-450 | The programmatic path succeeds exactly when the lengths are in range and the Apply begins an attempt |
| WifiTold.QuietKeepsStore | src/wifi_config_handler.c:239-332 | Set, reset, start and stop leave the store as it was |
| WifiTold.FailureReason | src/wifi_config_handler.c:130-163 | In every run a failure says "network not found" if and only if the last failed attempt did not find the access point, and the status poll gives the same reason |
| WifiTold.RemainingTold | src/wifi_config_handler.c:292-298 | In every run the attempts said to remain are the budget of the last start less the failed attempts since the last start, reset or taken Apply |
| WifiRuns.RankFalls | src/wifi_config_handler.c:210-225 | Each result lowers the attempts left, and nothing but a new request raises them |
| WifiRuns.OutcomeForced | src/wifi_config_handler.c:185-228 | As many results as attempts left end the attempt, however retries, spurious results, Sets and erasures interleave; exactly one outcome is reported when it is over, none before or after |
| WifiRuns.NeverStalls | src/wifi_config_handler.c:170-228 | When results answer requests, an attempt in flight always has exactly one of an unanswered request and a scheduled retry |
| WifiStore.OutcomeStore | src/wifi_config_handler.c:130-163 | When store operations succeed: at SUCCESS the applied entry is stored exactly if and only if the store was not erased since the Apply; at FAIL that SSID is absent and all else unchanged |
| WifiStore.FailedApplyStore | src/wifi_config_handler.c:365-375 | An Apply answered with an error keeps the store if and only if there was no interface, the delete failed or there was no entry; otherwise exactly that entry is lost, and nothing else changes |
| WifiStore.FailedApplyLoses | src/wifi_config_handler.c:365-375 | A run that loses a stored entry for any SSID, without any event |
| WifiStore.OthersKept | src/wifi_config_handler.c:365-371 | SSIDs never applied keep their entries over every run if and only if they had none or the store is never erased, whether or not store operations succeed |
| WifiRefinement.StepSimulates | src/wifi_config_handler.c:82-298 | Every step is one reaction of the abstract machine (Idle, Trying, Done, Failed), with the same outputs |
| WifiRefinement.RunSimulates | src/wifi_config_handler.c:342-423 | State and output trace of every interleaving are those of the abstract machine |
| WifiRefinement.StatusRefines | src/wifi_config_handler.c:482-511 | In every run from power-up: Connecting if and only if a snapshot is in flight, and the status reply is a function of the abstract job |
| ThreadConfig.ThreadHandler.CompareAndSwap | src/thread_config_handler.c:73-75 | Wins exactly if the outcome was pending, and leaves it not pending |
| ThreadConfig.ThreadHandler.RunApplyFirst | src/thread_config_handler.c:195-224 | Bringing Thread up under the mutex, and the error path, one write at a time |
| ThreadConfig.ThreadHandler.RunApplySecond | src/thread_config_handler.c:226-241 | Pending, the locked role re-check, the claim or the timer, one write at a time |
| ThreadConfig.ThreadHandler.RunCallback | src/thread_config_handler.c:71-80 | The attach callback under the mutex |
| ThreadConfig.ThreadHandler.RunTimeout | src/thread_config_handler.c:86-100 | The timeout handler |
| ThreadConfig.ThreadHandler.RunControl | src/thread_config_handler.c:134-177 | Deinit, reset and erase, one write at a time |
| ThreadConfig.ThreadHandler.Run | src/thread_config_handler.c:71-241 | Any thread takes its next step, as the step relation of the theorems says |
| ThreadRuns.NextKeepsInv | src/thread_config_handler.c:71-241 | Every single step of every thread keeps conservation of events, mutual exclusion, safe cancellation, coverage of pending attempts and sight of attaches |
| ThreadControl.RunTells | src/thread_config_handler.c:71-253 | At every point of every interleaving: state and failure reason are the ones last written, a dataset is staged exactly if one was set and not dropped since, and an Apply begins only then |
| ThreadControl.ControlClears | src/thread_config_handler.c:143-177 | A reset or an erasure that runs to its end by itself, from any state, leaves nothing staged, pending or armed, Thread disabled, and reports Dettached |
| ThreadControl.DeinitUnregisters | src/thread_config_handler.c:134-141 | A deinit by itself leaves the timer off and the callback unregistered, and the rest as it was |
| ThreadRuns.ClaimSafety | src/thread_config_handler.c:71-100 | Under every interleaving, in every prefix of the trace, successes and failures together never exceed credentials received |
| ThreadRuns.EventsConserved | src/thread_config_handler.c:191-241 | At every point each credentials event is reported, claimed, pending, held by its Apply, or was dropped by a later Apply or control command, and the numbers add up |
| ThreadRuns.NothingLost | src/thread_config_handler.c:226-240 | While the callback is registered and no control command is between cancelling the timer and clearing pending, pending implies an armed timer, a timeout about to claim or an Apply before its last step; while it is registered, an attach of an attempt still pending is still to be notified, in the callback or ahead of the re-check (of an attempt claimed meanwhile, see ThreadAttach) |
| ThreadAttach.AttachCaught | src/thread_config_handler.c:224-240 | In every run, an undisturbed Apply whose re-check read attached ends in exactly one outcome, a success, with the state attached, if no older outcome was to come and no older timer was armed or had fired when it became pending |
| ThreadAttach.AttachReportedExactly | src/thread_config_handler.c:224-240 | In every run, when pending is stored with nothing older left to report: whatever follows undisturbed, an attach seen by the re-check is reported as a success, if and only if no older timer is armed or has fired |
| ThreadAttach.OldTimerCanMisreport | src/thread_config_handler.c:86-100 | From every state with pending just stored over an older timer, the construction of a continuation at whose end the node is attached and the failure is reported |
| ThreadRuns.OneOutcome | src/thread_config_handler.c:191-241 | At rest, an undisturbed Apply, its dataset taken or rejected, has one outcome more than the older ones still to come when it began: exactly one if and only if there was none, and then the reported state is that outcome's (which outcome an attached node gets: ThreadAttach) |
| ThreadRuns.ComesToRest | src/thread_config_handler.c:199-240 | Until an undisturbed attempt is at rest some thread can move, and every move lowers a rank |
| ThreadMishaps.StaleTimeoutMisreports | src/thread_config_handler.c:86-100 | A run in which an older timeout's claim is reported into a newer attempt: attached, yet the status says failed |
| ThreadMishaps.StaleCallbackRepeats | src/thread_config_handler.c:71-80 | A run in which an older callback's claim is reported into a newer attempt: two successes |
| ThreadMishaps.LateTimeoutMisreports | src/thread_config_handler.c:224-240 | A run in which an older timer takes the newer attempt: attached since before pending was stored, one outcome, a failure |
| ThreadMishaps.RejectedApplyMisreports | src/thread_config_handler.c:208-224 | A run in which a rejected dataset leaves the older attempt to succeed: a failure, then a success, and the status says attached |
| Manager.ProvisioningManager.Emit | src/network_prov_mgr.c:75-91 | A success schedules the teardown exactly if the service runs and auto-stop is on |
| Manager.ProvisioningManager.EmitFrom | src/network_prov_mgr.c:75-91 | Delivers the handler's new events in order |
| Manager.ProvisioningManager.MgrInit | src/network_prov_mgr.c:93-130 | The flags after init, on each error path |
| Manager.ProvisioningManager.MgrDeinit | src/network_prov_mgr.c:132-146 | Cancels, tears down if started, and reports END before DEINIT |
| Manager.ProvisioningManager.Start | src/network_prov_mgr.c:439-508 | Starts the service, or leaves it stopped with the handler unwound |
| Manager.ProvisioningManager.Teardown | src/network_prov_mgr.c:510-521 | Stops a running service once |
| Manager.ProvisioningManager.Stop | src/network_prov_mgr.c:529-546 | Immediate or deferred teardown |
| Manager.ProvisioningManager.DisableAuto | src/network_prov_mgr.c:548-558 | Opts out and drops a teardown already scheduled |
| Manager.ProvisioningManager.TeardownWork | src/network_prov_mgr.c:523-527 | The scheduled teardown |
| Manager.ProvisioningManager.OnWifi | src/wifi_config_handler.c:255-267 | A request, result or retry reaches the handler only while it is registered, and its events the application |
| Manager.ProvisioningManager.Configure | src/network_prov_mgr.c:595-613 | The programmatic Wi-Fi path |
| Manager.ProvisioningManager.ResetStateMachine | src/network_prov_mgr.c:577-593 | Reset while running, refused otherwise |
| Manager.ProvisioningManager.EraseAll | src/network_prov_mgr.c:161-182 | Erases the store once initialised |
| AutoStop.TeardownTold | src/network_prov_mgr.c:75-91 | In every run a teardown is scheduled exactly when calls and events say so, and a service has the budget given at the last init |
| AutoStop.SuccessSchedules | src/network_prov_mgr.c:80-90 | A success of a service whose application has not opted out since init schedules the teardown |
| AutoStop.TeardownEnds | src/network_prov_mgr.c:510-527 | A scheduled teardown that fires reports END and leaves the service stopped, with nothing scheduled |
| AutoStop.CallsAnswered | src/network_prov_mgr.c:93-146 | Calls are answered with success exactly in the states they are for, told from the events, and have the effect they name |
| AutoStop.AttemptsWithinInit | src/network_prov_mgr.c:397-400 | At every point at most max(1, attempts given at init) requests since the last Apply, and a reported remainder below that number |
| AutoStop.HandlerRunsInside | src/network_prov_mgr.c:439-613 | Every run of the manager is a run of the Wi-Fi handler from power-up, so that what holds of all runs of the handler holds inside it |
| AutoStop.EventsTell | src/network_prov_mgr.c:75-79 | In every run the application is told of each taken Apply, success and failure, once, in order, and as what it is |
| EventLanguage.TraceInLanguage | src/network_prov_mgr.c:75-146 | Every trace is a prefix of a word in (INIT (START (RECV (SUCCESS or FAIL)?)* END)* DEINIT)*, given as its parse, and a whole word when the manager is down |
| EventLanguage.TeardownBelongsToService | src/network_prov_mgr.c:529-558 | A scheduled teardown implies a running service, so none leaks into a later cycle |
| EventLanguage.NextKeepsInv | src/network_prov_mgr.c:439-558 | Every call keeps flags, handler and trace in step |
| EventLanguage.Parses | src/network_prov_mgr.c:75-146 | Every trace the automaton reads has a parse in the grammar that renders to it |
| CustomEndpoints.CustomTable.ResetForInit | src/network_prov_mgr.c:109-110 | Init forgets the previous cycle's endpoints |
| CustomEndpoints.CustomTable.FindCustom | src/network_prov_mgr.c:263-271 | Finds a created name if and only if there is one |
| CustomEndpoints.CustomTable.EndpointCreate | src/network_prov_mgr.c:287-317 | Creates in the next slot, or changes nothing, with the error of the first check that fails |
| CustomEndpoints.CustomTable.RegisterEndpoints | src/network_prov_mgr.c:461-491 | Registration on a new instance never fails and leaves the five built-ins followed by the created names in order |
| CustomEndpoints.StartRegisters | src/network_prov_mgr.c:439-491 | After any sequence of creates within three slots: no registration error, all names distinct, and lookup of each name finds its own entry |
| CustomEndpoints.CreatedExactly | src/network_prov_mgr.c:287-317 | The names created are the first occurrences of the names that may be, in the order of the calls, until the slots are used up |
| CustomEndpoints.CreateAnswers | src/network_prov_mgr.c:287-317 | A call is answered with success exactly when it adds its name |
| CustomEndpoints.CreatesKeepSound | src/network_prov_mgr.c:287-317 | Created names stay distinct, non-empty, short enough, not built-in and within the slots |
| Json.RoundTrip | src/network_prov_mgr.c:184-197 | Every value whose strings need no escape is recovered by the parser from its printed text (section 7 of RFC 8259) |
| Json.ReadBack | src/network_prov_mgr.c:225-227 | The same for a value inside a longer text, with what follows left over |
| Json.ParseWellFormed | src/network_prov_mgr.c:184-197 | What is parsed needs no escapes |
| AppInfo.VersionBuilder.ResetForInit | src/network_prov_mgr.c:109 | Init forgets the previous cycle's section |
| AppInfo.VersionBuilder.JsonTokenOk | src/network_prov_mgr.c:187-197 | True if and only if no character would end or escape a string literal |
| AppInfo.VersionBuilder.Append | src/network_prov_mgr.c:236-243 | Appends at the running offset if and only if the piece and the terminator fit |
| AppInfo.VersionBuilder.AppendCaps | src/network_prov_mgr.c:236-243 | The capability loop succeeds if and only if the whole list fits, and then has appended exactly it |
| AppInfo.VersionBuilder.RenderSection | src/network_prov_mgr.c:225-253 | The whole section, or none if any piece overflows |
| AppInfo.VersionBuilder.SetAppInfo | src/network_prov_mgr.c:199-254 | All argument and state checks in order, then the rendering |
| AppInfo.VersionBuilder.BuildVersionJson | src/network_prov_mgr.c:367-377 | The text is never cut by its buffer |
| AppInfo.VersionFits | src/network_prov_mgr.c:54-55 | Any section that was kept gives a text below 448 bytes |
| AppInfo.SectionHasSize | src/network_prov_mgr.c:225-248 | The rendered section has 23 characters, those of label and version, and for each capability its own, two quotes and a comma but one |
| AppInfo.RenderOutcome | src/network_prov_mgr.c:199-254 | A call that passes validation succeeds if and only if that sum is at most 255; then a parser finds exactly what was asked for in the text, otherwise the built-in section alone |
| AppInfo.ValidationExact | src/network_prov_mgr.c:187-223 | Validation passes if and only if a parser recovers label, version and capabilities from the text |
| AppInfo.AcceptsExactly | src/network_prov_mgr.c:199-254 | A call succeeds if and only if the manager is initialised and stopped, every pointer is there, the label is not empty, the characters fit and a parser would recover them |
| AppInfo.AdvertisesLast | src/network_prov_mgr.c:199-254 | After init and any calls, the parsed text is what the last call that passed validation asked for, if it fits |
| AppInfo.VersionPrints | src/network_prov_mgr.c:367-377 | The text put together from format strings is the printed form of the intended JSON value |
| AppInfo.InfoRoundTrip | src/network_prov_mgr.c:199-254 | A JSON parser recovers every accepted label, version and capability list, and the built-in section |
| AppInfo.InfoInjective | src/network_prov_mgr.c:199-254 | Two accepted sections with one advertised text are one section |
| AppInfo.BareRoundTrip | src/network_prov_mgr.c:367-377 | Without an application section the text parses to the built-in member alone |
| AppInfo.UniqueNames | src/network_prov_mgr.c:203-223 | Member names are unique if and only if the label is not that of the built-in section |
| Strtoul.ScanDigits | src/protocomm_softap.c:126-128 | Digits before a non-digit are read whole, with or without a minus sign |
| Strtoul.SpaceCodes | src/protocomm_softap.c:128 | White space is the blank and the codes 9 to 13 |
| HttpText.StrIeq | src/protocomm_softap.c:80-93 | True if and only if the two strings are equal in lower case |
| HttpText.LowerFolds | src/protocomm_softap.c:83-84 | Two characters are taken for one exactly if they are equal or one letter in two cases |
| HttpText.EpNameFromUrl | src/protocomm_softap.c:173-190 | The buffer holds the whole path component if it fits, the empty string otherwise |
| HttpText.RouteRoundTrip | src/protocomm_softap.c:173-190 | "/name", with or without a query, leads back to the name if and only if it has no question mark and at most 15 characters |
| HttpText.RoutesExactly | src/protocomm_softap.c:168-190 | The paths that lead to an endpoint are exactly its whole name after at most one slash, before the end or a query |
| HttpText.GetCookieSession | src/protocomm_softap.c:102-137 | The id of the first cookie header, if headers were captured and it holds one |
| HttpText.FirstCookieCounts | src/protocomm_softap.c:105-136 | The first header named Cookie decides, whatever stands before and behind it |
| HttpText.CookieFits | src/protocomm_softap.c:58 | Every cookie fits 24 bytes with its terminator |
| HttpText.CookieRoundTrip | src/protocomm_softap.c:293 | Every id printed into a cookie is parsed back to itself, for any width of unsigned long, whatever stands behind its digits and behind any cookies that do not contain the key |
| HttpText.AcceptsAsWritten | src/protocomm_softap.c:126-132 | How the number is read: the id is the integer at the start of the text after the key if and only if it neither saturates nor wraps into the range of an id |
| HttpText.DigitsNeverAlias | src/protocomm_softap.c:123-132 | Digits alone are never taken for another id if and only if unsigned long is wider than 32 bits |
| HttpText.NegativeAliases | src/protocomm_softap.c:123-132 | A negative number that a 64-bit unsigned long wraps onto id 5 |
| SessionCookie.AcceptsWellFormed | src/protocomm_softap.c:95-137 | For every header value: what is accepted is a well-formed session cookie with that id, at the first occurrence of the key, if and only if key, first digit, end of the digits and range are as they should be |
| SessionCookie.WellFormedAccepted | src/protocomm_softap.c:117-134 | Behind any text that a cookie pair may follow: every well-formed session cookie with an id in range is accepted as that id if and only if that text does not contain the key |
| SessionCookie.ShadowedByInnerKey | src/protocomm_softap.c:117-121 | For all ids: behind a cookie whose name ends in the key, a well-formed session cookie is read as the other cookie's number |
| SessionCookie.TrailingTextAccepted | src/protocomm_softap.c:126-132 | A malformed value with text stuck to the digits stands for id 5 |
| SessionCookie.InnerKeyAccepted | src/protocomm_softap.c:117-121 | A malformed value with the key inside another cookie's name stands for id 5 |
| SessionCookie.PaddingAccepted | src/protocomm_softap.c:126-132 | A malformed value with a space and a sign before the digits stands for id 5 |
| SoftAp.HttpTransport.HttpStart | src/protocomm_softap.c:354-369 | No request and no session after a start |
| SoftAp.HttpTransport.StartNewSession | src/protocomm_softap.c:69-75 | A fresh context under a new id |
| SoftAp.HttpTransport.EnsureSession | src/protocomm_softap.c:160-166 | The session continues exactly if the request's cookie is its id |
| SoftAp.HttpTransport.Latch | src/protocomm_softap.c:231-242 | Ownership, and the cookie of the callback that carries headers |
| SoftAp.HttpTransport.CopyIn | src/protocomm_softap.c:252-253 | The chunk follows what is buffered |
| SoftAp.HttpTransport.Finish | src/protocomm_softap.c:259-302 | Dispatch of the buffered body, the reply or error, and the request state emptied |
| SoftAp.HttpTransport.OnCallback | src/protocomm_softap.c:200-303 | Every callback, in every state |
| SoftAp.StepKeepsInv | src/protocomm_softap.c:200-303 | Buffer, owner and cookie always tell the one request in progress |
| SoftAp.Reassembly | src/protocomm_softap.c:200-268 | For every interleaving of callbacks: a final callback dispatches exactly the concatenation of that request's chunks, at most 4096 bytes, on the existing context if and only if its cookie is the current id, else on a fresh one; unless another request is in progress or it is too long |
| SoftAp.SendsWhatIsAnswered | src/protocomm_softap.c:263-302 | In every disciplined run a dispatched final callback sends the bytes of the answer as they are, with the cookie of its session, or a server error exactly if the dispatch failed or they are more than 4096 |
| SoftAp.OneRequest | src/protocomm_softap.c:148-153 | At most one request is in progress, and nothing is buffered between requests |
| SoftAp.EchoResumes | src/protocomm_softap.c:155-166 | A client that sends back the cookie of the last reply runs on the context that gave it |
| SoftAp.ChunkingIrrelevant | src/protocomm_softap.c:244-257 | State and reply depend only on the concatenated body, which is refused if and only if it is over 4096 bytes |
| HttpConversation.HttpIsExchange | src/protocomm_softap.c:259-302 | A request under the session's cookie is the exchange of client and device, with requests and responses over 4096 bytes lost |
| HttpConversation.HttpIsHandshake | tests/common/prov_client.c:168-250 | Whenever the handshake of the two ends returns 0, so does the one posted to the session endpoint, with the same ends and the new session's cookie |
| HttpConversation.HttpSessionRoundTrip | src/protocomm_softap.c:200-303 | A client's whole session over HTTP: the handshake returns 0, and along every conversation that fits the client recovers from each reply exactly what the handler answered, both ends in step |
| HttpGate.IsDeviceRun | src/protocomm_softap.c:259-266 | After any callbacks, disciplined or not, the transport's own device is where a run of session opens and requests leaves it |
| HttpGate.HttpDataGate | src/protocomm_softap.c:155-166 | In every disciplined run, non-empty plaintext reaches a handler, or a non-empty data response leaves, only for a request with the cookie of the session opened last, in which the last accepted Command0 was followed by a verified Command1 |
| ConsoleGate.IsDeviceRun | src/protocomm_console.c:119-130 | After any commands the console's device is where a run of session opens and requests leaves it |
| ConsoleGate.ConsoleDataGate | src/protocomm_console.c:119-130 | After any commands, data moves only for a command with the id of the last one not refused, in a session authenticated since it was opened |
| BleGate.IsDeviceRun | src/protocomm_ble.c:164-278 | After any connections and writes the device is where a run of opens, closes and requests leaves it |
| BleGate.BleDataGate | src/protocomm_ble.c:164-278 | After any connections and writes, data moves only while a connection is up, in a session authenticated since that connection began |
| ConsoleTransport.ConsoleState.StartConsole | src/protocomm_console.c:41-48 | Started without a session |
| ConsoleTransport.ConsoleState.StopConsole | src/protocomm_console.c:50-57 | The context is closed and the transport detached |
| ConsoleTransport.ConsoleState.ParseLine | src/protocomm_console.c:85-117 | The id and body of a command line, or the error of the first check that fails, before any session is touched |
| ConsoleTransport.ConsoleState.PrintAnswer | src/protocomm_console.c:132-152 | The response as hex, or the error |
| ConsoleTransport.ConsoleState.NetProv | src/protocomm_console.c:73-153 | The command: checks in order, session switch, dispatch, output |
| ConsoleTransport.ContextByIdentity | src/protocomm_console.c:119-130 | After any commands, one runs on the existing context if and only if its id is that of the last command not refused; a refused command changes nothing |
| ConsoleTransport.AcceptsAsWritten | src/protocomm_console.c:85-97 | An accepted token names the id that was written unless it is a negative number that wraps into the range of an id |
| ConsoleTransport.NegativeAliases | src/protocomm_console.c:85-97 | A negative number that a 64-bit unsigned long wraps onto id 5 |
| ConsoleTransport.TokenRoundTrip | src/protocomm_console.c:85-97 | Every id is parsed back from its decimal text |
| ConsoleTransport.HexRoundTrip | src/protocomm_console.c:138-148 | Every response is recovered from its printed hex |
| ConsoleTransport.UnhexExactly | src/protocomm_console.c:113-117 | Hex is read digit by digit, of either case, two for each byte, and nothing else is accepted |
| ConsoleTransport.CommandCarries | src/protocomm_console.c:85-130 | A command is dispatched with exactly the id and the body its decimal and hex spell |
| ConsoleTransport.PrintsAnswer | src/protocomm_console.c:132-152 | What is printed gives back the bytes of the answer; nothing is printed exactly if dispatch or allocation failed |
| BleTransport.BleService.BuildService | src/protocomm_ble.c:215-257 | One characteristic per endpoint in table order, nothing cached |
| BleTransport.BleService.OnConnected | src/protocomm_ble.c:259-267 | A fresh context per connection |
| BleTransport.BleService.OnDisconnected | src/protocomm_ble.c:269-278 | No context and no cached response is left |
| BleTransport.BleService.OnWrite | src/protocomm_ble.c:164-207 | Prepared and offset writes touch nothing; others leave the response, or nothing on an error or an oversize response |
| BleTransport.ReadsLastResponse | src/protocomm_ble.c:156-207 | After any run a read returns the response of this connection's most recent processed write to that endpoint, empty if none or if it failed; without a connection there is no context |
| BleTransport.WriteThenRead | src/protocomm_ble.c:156-207 | A processed write is dispatched with its own value; a read then gives the bytes of the answer, or nothing, and the write says which; the other characteristics stay |
| BleTransport.UnprocessedWrite | src/protocomm_ble.c:174-182 | Prepared writes and writes at an offset change nothing; the first are taken, the others refused |
| BleTransport.WriteReachesOwn | src/protocomm_ble.c:215-257 | After any run a write to a characteristic reaches the endpoint at its place in the table |
| BleTransport.LongReadWhole | src/protocomm_ble.c:156-162 | Reads at increasing offsets put the whole response together |
| ScanCaches.ScanCache.OnResult | src/wifi_scan_handler.c:73-89 | Appends, or drops what no longer fits |
| ScanCaches.ScanCache.OnDone | src/thread_scan_handler.c:76-87 | Marks the scan finished and keeps the entries |
| ScanCaches.ScanCache.StartScan | src/wifi_scan_handler.c:129-149 | Empties the cache unless there is no interface; a refused request counts as finished |
| ScanCaches.ScanCache.Result | src/wifi_scan_handler.c:212-237 | The loop copies exactly the requested slice, at most four entries and never past the end |
| ScanCaches.StartAnswers | src/wifi_scan_handler.c:129-149 | A start succeeds exactly if the request was taken; without an interface nothing changes |
| ScanCaches.PagesArePrefix | src/thread_scan_handler.c:218-253 | Over any scans and every interleaving of starts, results and fetches: the cache holds the first results since the last request of a scan and says whether it is over, and what was collected since the start is a prefix of them |
| ScanCaches.PagingComplete | src/wifi_scan_handler.c:212-237 | Whatever was fetched meanwhile, as many further non-empty requests as entries collect exactly the first min(k, max) results of the last scan in order |
| ScanCaches.EmptyPageMeansAll | src/thread_scan_handler.c:89-104 | A page comes back empty if and only if everything cached has been collected |

## Left out

- Security1.Sec1Context.DeriveSessionKey: does not model PSA key handles, so the handle overwritten by a repeated Command0 (src/security1.c:180) and the one nulled by a failed import are not visible; a failing PSA call is taken to consume no keystream.
- HttpConversation.HttpSessionRoundTrip: the session replies are carried by any encoding that decodes back; no other client's request comes in between (one would open a session of its own).
- Keystream.XformInverse: the 128-bit block counter of AES-CTR is not modelled, so its wrap after 2^128 blocks is not visible.
- WifiConfig.WifiHandler.DoApplyConfig: the store refuses an empty SSID (an assumption about wifi_credentials_set_personal); a connect request that finds no interface counts as a request that was refused.
- WifiConfig.WifiHandler.EncodeGetStatus: the contents of the connected alternative (`fill_connected_state`, with its fall-back to the staged SSID) come from the network stack and are not modelled.
- WifiRuns.NextKeepsInv: callbacks are atomic, so a retry handler that is already running while it is cancelled is not modelled.
- ThreadConfig.ThreadHandler.Run: memory is sequentially consistent; OpenThread may notify at any time; one Apply at a time (the programmatic set-and-apply is an Apply of the same thread, two at once are not modelled); no new init after a deinit; the bytes of the dataset are not modelled.
- Manager.ProvisioningManager.Start: the scheme start either works or fails as a whole, without partial effects, and application callbacks do not re-enter the manager.
- SoftAp.Reassembly: assumes that the server starts a request with its first callback, carries headers only there, and calls no further for a request that was answered with an error.
- SoftAp.HttpTransport.Finish: the reply is a value; that the shared response buffer is transmitted after the callback returns is not modelled.
- BleTransport.ReadsLastResponse: one connection at a time; advertising, UUIDs and the attribute array are not modelled.
- ScanCaches.ScanCache.OnResult: an entry is one value; the field-by-field copy, the clipping of SSIDs and the mapping of authentication modes are not modelled, and the Wi-Fi append is one atomic step.
- Protobuf encoding and decoding: requests are decoded messages, and "does not decode" is one of them.
- X25519, SHA-256, AES and the random generator: uninterpreted functions and parameters.
- The security-0 scheme, the prov-ctrl handlers (their reset entry points are steps), and the handler pointers of custom endpoints (`network_prov_mgr_endpoint_register`, `custom_trampoline`): one-line dispatch.
- Access point bring-up, DHCP, the HTTP server, the GATT stack, the shell, settings and logging: environment.
- Real time: a timer or work item is scheduled or not, and may fire whenever it is.
