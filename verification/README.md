# A verified model of go-i2ptunnel

go-i2ptunnel runs I2P tunnels: TCP, UDP, HTTP, SOCKS and IRC clients and servers, with a web console and a
Prometheus exporter. This project models the parts of it whose correctness is hardest to see from one function
and proves what they promise. `dafny verify dfyconfig.toml` checks everything.

| file | models |
|---|---|
| `TcpSystem.dfy`, `TcpTheorems.dfy` | TCPClient as a step system: any number of Start, Stop, SetOptions, LoadConfig and connection goroutines interleave, and the invariants hold over every run |
| `TcpClients.dfy`, `TcpConnection.dfy`, `TcpOptions.dfy` | the TCPClient object, one method per atomic step, each equal to the step of the system; spawnConnection and handleConnection in program order over these steps; the two-phase SetOptions |
| `LifeLock.dfy` | why a critical section counts as one step: SetOptions, LoadConfig and Start one field access at a time under lifeMu |
| `AcceptLoop.dfy`, `ErrorTracking.dfy`, `ErrorCounting.dfy` | the shared accept loop as a function of the outcome trace; the bounded error history over its backing array; RecordError called from many goroutines at once |
| `JumpCache.dfy`, `JumpParse.dfy`, `HostNames.dfy` | the jump service's TTL cache under concurrent lookups; its response parser; host and address strings |
| `DialRouting.dfy` | which address the HTTP client dials |
| `Prometheus.dfy` | label escaping and the text exposition (Prometheus exposition formats, section "Text format details") |
| `CommonOptions.dfy` | printing a configuration to an option map and applying such a map |
| `UdpBackoff.dfy` | the UDP server's dial loop and its jittered backoff |
| `HostMask.dfy` | masking of user@host in IRC messages |
| `WebPaths.dfy`, `WebRedirect.dfy`, `WebRouting.dfy`, `WebForms.dfy` | tunnel IDs and the URL routes that contain them; the way of a redirect through Location, client and request; the group of tunnels behind the console; new-tunnel forms served at the same time, step by step |
| `Text.dfy`, `TextLines.dfy`, `PrefixedMaps.dfy`, `Counting.dfy`, `DoneChannel.dfy`, `Wrappers.dfy` | strings, lines, re-keyed maps, counting, a polled channel |

How the model is built:

- Objects whose methods update fields are classes; every method is proved equal to a function of the old state
  (`View()`, or the recorded history), and the properties are lemmas about that function over all runs.
- A run of a step system is any sequence of steps. A step that its goroutine cannot take now changes nothing.
- net.ParseIP, address lookup, duration parsing, the outcomes of Accept and of dials, the random draw, the jump
  service's response, the clock, and what writing and loading a configuration file yields are parameters,
  constrained by their type or range only.
- A loop that polls its done channel looks at it at numbered moments, and the channel is closed at an arbitrary
  moment or never. Metrics may be attached or not.

Where the code and its documentation disagree, the code is modelled:

- `lib/udp/const/const.go:38` says that the backoff is clamped to [MinBackoff, MaxBackoff]; the jitter is added
  after the clamp, so it can leave the interval on both sides (`UdpBackoff.ClampFails`). The delays from which it
  cannot are given exactly (`UdpBackoff.ClampedExactlyWhen`), and in general the result lies in [37.5 ms, 6.25 s)
  (`UdpBackoff.NextBackoffBounds`).
- An accept error can still be recorded after done is closed, when the close falls between the check and the
  record (`AcceptLoop.RecordsAfterCloseOnlyInTheGap`, with `AcceptLoop.GapExample`).
- A host with a special `$` makes host masking keep the old host (`HostMask.DollarZeroKeepsTheHost`); the exact
  condition is `HostMask.MasksFaithfullyExactlyWhen`.
- The form refuses a name whose ID is taken, but two requests served at the same time can both pass that check
  (`WebForms.OverlapCollides`); the exact condition for distinct IDs is `WebForms.GrownGroup`.
- A bare destination that contains `=` is not always returned whole (`JumpParse.BareDestinationIsCut`); the exact
  condition is `JumpParse.BareDestination`.
- The redirect after a new-tunnel form puts the ID into a URL unescaped, so for some accepted names it does not lead
  to the new tunnel (`WebRedirect.QuestionMarkIsLost`, `WebRedirect.OtherHost`); the exact condition is
  `WebRedirect.RedirectReachesExactlyWhen`. Through ServeHTTP it is not sent at all, because the page header is
  written first and fixes status 200 (`WebRouting.ControllerGroup.ServePostNew`).

## Model

| member | source | states |
|---|---|---|
| TcpSystem.NextKeepsInv | lib/tcp/client/tcp_client.go:113-192 | every step of every goroutine keeps the invariant: exact semaphores, exact counters, flags that agree with each connection's place in the code, and stopOnce fired exactly when the current done channel is closed |
| TcpSystem.Run | lib/tcp/client/tcp_client.go:113-263 | the invariant holds after any sequence of steps |
| TcpSystem.RunNew | lib/tcp/client/new.go:10-29 | the invariant holds after any run from a new tunnel |
| TcpTheorems.EverySemaphoreIsExact | lib/tcp/client/tcp_client.go:149-166 | after any run, each semaphore ever created, replaced or not, holds one element per in-flight connection that acquired from it, never more than its own capacity |
| TcpTheorems.ReleaseNeverBlocks | lib/tcp/client/tcp_client.go:160-166 | the deferred receive never blocks, frees one place of the connection's own semaphore and changes nothing else |
| TcpTheorems.RefusedExactlyWhenFull | lib/tcp/client/tcp_client.go:150-159 | the send is refused if and only if the snapshotted semaphore is full; a refusal changes no semaphore, an admission takes exactly one place |
| TcpTheorems.OnlySendRefuses | lib/tcp/client/tcp_client.go:149-159 | no other step ever makes a connection rejected |
| TcpTheorems.SnapshotIsFinal | lib/tcp/client/tcp_client.go:232-242 | once taken, the semaphore a connection uses is changed by no later step, rebuild included |
| TcpTheorems.RebuildKeepsOldSlots | lib/tcp/client/tcp_client.go:443-454 | SetOptions adds a fresh empty semaphore or removes the limit, and leaves every older semaphore and every connection as it was |
| TcpTheorems.EndedLeavesEmptySemaphores | lib/tcp/client/tcp_client.go:160-166 | when all connections have ended every semaphore ever created is empty |
| TcpTheorems.CountersStayInBounds | lib/metrics/metrics.go:56-74 | 0 <= active <= accepted and 0 <= failed <= accepted at every moment of every run, with each atomic add its own step |
| TcpTheorems.ActiveIsExact | lib/metrics/metrics.go:56-64 | the gauge equals the connections counted active whose first Close has not counted down; accepted equals those counted in; all are zero without metrics |
| TcpTheorems.IdleMeansNoneActive | lib/tcp/client/tcp_client.go:171-192 | the gauge is 0 once every handleConnection has returned, by whichever exit |
| TcpTheorems.CloseCountsOnce | lib/metrics/metrics.go:233-240 | however often and from wherever a connection is closed, the gauge goes down exactly once |
| TcpTheorems.ReturnedWasCountedDown | lib/tcp/client/tcp_client.go:171-192 | in every run a metered connection whose handler has returned has been counted down, by whoever closed it |
| TcpTheorems.DoneClosedAtMostOnce | lib/tcp/client/tcp_client.go:246-263 | in every run no done channel of any generation is closed twice, and stopOnce has fired exactly when the current one is closed |
| TcpTheorems.StopClosesTheCurrentGeneration | lib/tcp/client/tcp_client.go:246-263 | a Stop that fires closes exactly the generation and listener of its critical section; a second one changes nothing |
| TcpTheorems.StartsMakeGenerations | lib/tcp/client/tcp_client.go:113-125 | in every run there is one done channel per Start and one before the first, and the listener that Stop would close is that of the last Start whose listen succeeded |
| TcpTheorems.SupersededStaysAsItWas | lib/tcp/client/tcp_client.go:113-125 | after a Start has superseded a generation no run ever closes that generation's channel |
| TcpTheorems.NobodyIsStuck | lib/tcp/client/tcp_client.go:149-192 | in every reachable state each unfinished connection goroutine has a next step that brings it nearer its end and moves no other |
| TcpTheorems.EveryStateCanDrain | lib/tcp/client/tcp_client.go:149-192 | from every reachable state some run ends all connections, leaving every semaphore empty and the gauge at 0 |
| TcpTheorems.LoadTakesTheFile | lib/tcp/client/tcp_client.go:460-479 | a load of a tunnel that neither runs nor starts takes name, type, interface, port and target from the file, and its I2CP map unless that is empty; otherwise nothing changes |
| TcpTheorems.ApplyTakesTheOptions | lib/tcp/client/tcp_client.go:407-454 | a successful SetOptions changes exactly the settings that its options name, address and dial timeout included |
| TcpTheorems.OthersLeaveTheSettings | lib/tcp/client/tcp_client.go:113-263 | no other step touches configuration, address, timeout or the semaphore in force, and only Start, Stop and the accept loop's reports change the status |
| TcpTheorems.MaxConnsSetsTheLimit | lib/tcp/client/tcp_client.go:371-392 | maxconns=0 is accepted and removes the limit, a positive number makes a fresh semaphore of that capacity |
| TcpClients.TcpClient.StartSection | lib/tcp/client/tcp_client.go:113-125 | the locked part of Start is one step of the system and binds the interface and port of that moment |
| TcpClients.TcpClient.Stop | lib/tcp/client/tcp_client.go:246-263 | Stop is one step of the system |
| TcpClients.TcpClient.SetOptions | lib/tcp/client/tcp_client.go:395-404 | all or nothing: the first error in order leaves every field unchanged, success applies exactly the values present in one step |
| TcpClients.TcpClient.ApplyTCPClientOpts | lib/tcp/client/tcp_client.go:407-454 | the apply phase is one step of the system |
| TcpClients.TcpClient.LoadConfig | lib/tcp/client/tcp_client.go:460-479 | the locked part of LoadConfig is one step, refused exactly while running or starting |
| TcpClients.TcpClient.SnapshotConnSem | lib/tcp/client/tcp_client.go:238-242 | the snapshot is one step |
| TcpClients.TcpClient.AcquireSlot | lib/tcp/client/tcp_client.go:150-159 | the non-blocking send is one step and reports whether it was refused |
| TcpClients.TcpClient.ReleaseSlot | lib/tcp/client/tcp_client.go:160-166 | the receive is one step, and in a reachable state it always completes |
| TcpClients.TcpClient.RecordAccepted | lib/metrics/metrics.go:56-57 | the first atomic add of RecordConnection is one step |
| TcpClients.TcpClient.RecordActive | lib/metrics/metrics.go:58-59 | the second atomic add is another |
| TcpClients.TcpClient.EnterClose | lib/metrics/metrics.go:233-240 | of all Close calls only the first runs the once body |
| TcpClients.TcpClient.RecordDisconnection | lib/metrics/metrics.go:62-64 | the decrement is one step |
| TcpClients.TcpClient.HandleConnection | lib/tcp/client/tcp_client.go:171-192 | the code in program order, over the filter-error, dial-error and forwarding exits with the deferred Close, is exactly that run of steps |
| TcpClients.TcpClient.SpawnConnection | lib/tcp/client/tcp_client.go:149-166 | snapshot, send, handler and deferred receive in program order are a run of steps that leaves every semaphore and the gauge as they were and ends rejected exactly at capacity |
| TcpClients.TcpClient.ServeConnection | lib/tcp/client/tcp_client.go:136-166 | an accepted connection from its dispatch to its end is a run of steps; it touches no other connection |
| TcpConnection.HandleEffect | lib/tcp/client/tcp_client.go:171-192 | on every exit the handler counts one accepted connection, one failed exactly when the dial failed, and leaves gauge and semaphores as before |
| TcpConnection.SpawnEffect | lib/tcp/client/tcp_client.go:149-192 | from every reachable state a connection that nothing interrupts ends rejected if and only if the semaphore in force is full, and otherwise finished with its slot given back |
| TcpClients.SetOptionsAgreesWithSequential | lib/tcp/client/tcp_client.go:395-454 | on success name, interface, port and I2CP equal what the sequential ApplyCommonOptions gives; on error config, address, timeout and semaphore are unchanged |
| TcpOptions.ValidateTcpClientOptions | lib/tcp/client/tcp_client.go:305-392 | fails with the first error in the order name, interface, port, target, maxconns, dialtimeout, and otherwise records exactly the values present |
| TcpOptions.OptsBuilder.ValidateNameIfacePort | lib/tcp/client/tcp_client.go:329-355 | first error of three, and on success the three fields recorded and no other touched |
| TcpOptions.OptsBuilder.ValidateTCPSpecificFields | lib/tcp/client/tcp_client.go:371-392 | maxconns before dialtimeout, negative values refused, absent keys left unset |
| TcpOptions.TwoPhasesAgree | lib/tcp/client/tcp_client.go:305-427 | validating first and applying later leaves the configuration of the sequential apply, and what that rejects is rejected with the same error |
| TcpOptions.AcceptedExactlyWhen | lib/tcp/client/tcp_client.go:305-392 | which option maps are accepted, key by key |
| TcpOptions.FirstErrorNames | lib/tcp/client/tcp_client.go:358-392 | each target, maxconns and dialtimeout error is returned only for an option that has that fault |
| LifeLock.Serializable | lib/tcp/client/tcp_client.go:395-404 | run one field access at a time, any interleaving leaves the state of the completed calls run one after the other |
| LifeLock.EveryBindIsWhole | lib/tcp/client/tcp_client.go:113-125 | every pair a Start ever binds is the whole (interface, port) after some prefix of the completed SetOptions and LoadConfig calls |
| LifeLock.WithoutTheLockPairsMix | lib/tcp/client/tcp_client.go:413-427 | without the lock a Start can bind a pair that was never a configuration |
| LifeLock.CallEffect | lib/tcp/client/tcp_client.go:407-479 | what one whole call does to the configuration and to the bound pairs |
| LifeLock.SectionsAreCode | lib/tcp/client/tcp_client.go:113-125 | each critical section of the step system has on configuration and address the effect of its call's code run field by field |
| LifeLock.RunIsSerial | lib/tcp/client/tcp_client.go:395-479 | in every run of the step system the configuration is that of the calls completed so far, one after the other, so what its Starts bind is whole |
| AcceptLoop.TunnelBase.RunAcceptDispatch | lib/core/base.go:148-160 | verdict, dispatched connections, error history, rate-limit hits and status are those of the outcome trace |
| AcceptLoop.TunnelBase.AcceptAndDispatch | lib/core/base.go:163-171 | one Accept has the effects of one step of the loop function |
| AcceptLoop.TunnelBase.HandleAcceptError | lib/core/base.go:109-120 | rate limits only count a hit, an error seen with done closed only ends the loop, any other is recorded and counted |
| AcceptLoop.TunnelBase.HandleConsecutiveError | lib/core/base.go:134-145 | records the numbered error and is fatal exactly at the limit |
| AcceptLoop.TunnelBase.RecordError | lib/core/base.go:75-80 | for calls that do not overlap, with metrics attached from the start the history holds min(100, error count) entries |
| ErrorCounting.HistoryIsCounted | lib/core/base.go:75-80 | in every interleaving of calls everything recorded is the error count plus the calls between append and count, so the history holds the smaller of 100 and that sum |
| ErrorCounting.EntriesComeFromCalls | lib/core/base.go:75-80 | and every entry is the record of some call's own error |
| AcceptLoop.FatalExactlyWhen | lib/core/base.go:109-160 | the loop ends fatally if and only if some error seen with done open completes a stretch without success that holds maxErrors errors, rate limits neither counting nor resetting |
| AcceptLoop.StreakIsErrorsWithoutSuccess | lib/core/base.go:134-145 | the counter has reached n exactly when some success-free end of the trace holds n errors |
| AcceptLoop.OutcomesAreConserved | lib/core/base.go:148-171 | Accept outcomes = dispatched + rate limits + recorded errors + at most one shutdown error |
| AcceptLoop.EveryOutcomeIsHandled | lib/core/base.go:148-171 | every connection that Accept returned is handed to the handler, once and in order, and every counted error is recorded with its number and text, in order |
| AcceptLoop.MessageIsInjective | lib/core/base.go:136-136 | number and text can be read off a record |
| AcceptLoop.OnlyErrorsEndSoon | lib/core/base.go:134-160 | with errors only, the loop is over within maxErrors Accept calls |
| AcceptLoop.AtMostOneOutcomeAfterClose | lib/core/base.go:148-160 | once done is closed at most one more outcome is handled, and the loop does not keep waiting |
| AcceptLoop.ClosedLoopReturnsNil | lib/core/base.go:113-117 | once done is closed the loop returns nil if and only if no error checked before the close was the last one allowed |
| AcceptLoop.RecordsAfterCloseOnlyInTheGap | lib/core/base.go:113-136 | an error is recorded after the close if and only if no earlier outcome was fatal and the close falls between its check and its record |
| AcceptLoop.GapExample | lib/core/base.go:113-140 | ten errors with the limit of ten: the close falls between the last check and its record, and the error is still recorded and fatal |
| ErrorTracking.ErrorTracker.Record | lib/core/error_tracker.go:23-31 | after the record the slice holds exactly the newest 100 of everything recorded, in order |
| ErrorTracking.ErrorTracker.Last | lib/core/error_tracker.go:34-42 | the newest error ever recorded, or nil when there is none |
| ErrorTracking.ErrorTracker.All | lib/core/error_tracker.go:45-54 | a fresh array with the newest 100 in order, nil exactly when nothing was recorded |
| ErrorTracking.ErrorTracker.RecordAll | lib/core/error_tracker.go:23-54 | over any sequence of records the same holds, and a snapshot taken before them is unaffected |
| ErrorTracking.NewestStep | lib/core/error_tracker.go:26-30 | trimming after every append keeps what trimming once at the end keeps |
| ErrorTracking.NewErrorShowsTheError | lib/core/errors.go:16-31 | the text of the error shows in its record, and different errors of a tunnel have different records |
| JumpCache.NextKeepsInv | lib/http/client/jump.go:151-231 | every step of every lookup, TTL change, clear and tick keeps the invariant: each entry is the last put for its host, every put was an answer, at most 1000 entries |
| JumpCache.ReturnedWasAnswered | lib/http/client/jump.go:151-168 | in every interleaving a returned destination was answered by the service to a query for a hostname that agrees with the caller's up to letter case and port |
| JumpCache.NormaliseIdentifies | lib/http/client/jump.go:152-153 | two hostnames share a cache entry if and only if they agree up to letter case and port; without ports, if and only if they have equal length and agree at every position up to case |
| JumpCache.NormaliseDropsThePort | lib/http/client/jump.go:152-153 | a port makes no difference |
| JumpCache.ReturnedIsUsable | lib/http/client/jump.go:151-168 | it is never empty, and it passes the destination check when the service answered 200 |
| JumpCache.HitIsTheLastPut | lib/http/client/jump.go:192-208 | a cache hit is the last put for its host when the cache was read, and was taken no later than the put's time plus the TTL in force then |
| JumpCache.CacheNeverExceedsItsBound | lib/http/client/jump.go:211-231 | never more than 1000 entries, in any run |
| JumpCache.AnswersCameFromQueries | lib/http/client/jump.go:159-163 | every recorded answer comes from a response to some query for that host |
| JumpCache.LookupIsARun | lib/http/client/jump.go:151-168 | a lookup that nothing interrupts is a run of the step system |
| JumpCache.SuccessIsRemembered | lib/http/client/jump.go:151-208 | until the entry expires, looking the host up again in any letter case and with any port gives the same destination and asks nothing |
| JumpCache.LookupLeaves | lib/http/client/jump.go:151-231 | afterwards its host has the entry answered with, not expired, or none; other hosts keep theirs unless the cache was full |
| JumpCache.JumpService.Lookup | lib/http/client/jump.go:151-168 | the code equals the specification of a lookup |
| JumpCache.JumpService.GetCached | lib/http/client/jump.go:192-208 | hit exactly for an entry not past its expiry; an expired one is removed, nothing else changes |
| JumpCache.JumpService.PutCache | lib/http/client/jump.go:211-231 | nothing for a non-positive TTL, a wipe when full, then the entry |
| JumpCache.JumpService.SetCacheTTL | lib/http/client/jump.go:118-122 | only the TTL changes; entries keep the expiry they were stored with |
| JumpCache.JumpService.ClearCache | lib/http/client/jump.go:172-176 | only the entries go |
| JumpParse.AnswerIsADestination | lib/http/client/jump.go:322-342 | the parser returns "" or a whitespace-free contiguous piece of the body that passes the destination check |
| JumpParse.EmptyExactlyWhen | lib/http/client/jump.go:322-355 | it returns "" if and only if no line is a destination and what follows the first '=' is none |
| JumpParse.WholeBodyCheckIsSubsumed | lib/http/client/jump.go:336-341 | the check of the whole body adds nothing to the scan of its lines |
| JumpParse.TrimKeepsLines | lib/http/client/jump.go:323-323 | trimming the body first neither loses nor adds a destination line |
| JumpParse.NamedDestination | lib/http/client/jump.go:325-334 | for every hostname without '=' and every destination, "hostname=destination" gives the destination |
| JumpParse.BareDestination | lib/http/client/jump.go:325-339 | a bare destination comes back whole if and only if what follows its first '=' is no destination |
| JumpParse.BareDestinationIsCut | lib/http/client/jump.go:325-334 | an '=' followed by 516 or more 'A's is a destination and loses its first character |
| JumpParse.ScanLinesForDestination | lib/http/client/jump.go:345-353 | the loop returns the first destination line, trimmed |
| JumpParse.ScanFinds | lib/http/client/jump.go:345-353 | the scan fails only when no line is a destination, and what it finds is a trimmed line |
| JumpParse.AnswersAreUsable | lib/http/client/jump.go:280-316 | an accepted response never yields "", and a 200 yields a destination found in its body |
| JumpParse.AcceptedExactlyWhen | lib/http/client/jump.go:280-316 | a 200 is accepted if and only if a line of its body, or what follows the first '=', is a destination; other statuses that are no redirect never |
| JumpParse.RedirectAnswersItsHost | lib/http/client/jump.go:292-302 | a redirect answers with the host of its URL, without scheme, port and path, and is refused when that is empty |
| JumpParse.DestinationExactlyWhen | lib/http/client/jump.go:358-375 | a trimmed text is a destination if and only if it has 516 or more allowed characters and ends in four 'A's |
| JumpParse.Base64Alphabet | lib/http/client/jump.go:378-383 | the allowed characters are the base64 digits, '-', '~' and '=' |
| HostNames.SplitJoined | lib/http/client/new.go:115-117 | what JoinHostPort makes of an answer and a port splits back into them if and only if the answer has no brackets |
| HostNames.I2PNames | lib/http/client/outproxy.go:75-81 | an I2P address is a name whose host part ends in ".i2p" in any letter case, and a jump lookup is for those that do not end in ".b32.i2p" |
| DialRouting.HTTPClient.SetOptions | lib/http/client/http_client.go:239-250 | the new state and the error are those of the specification, including what a failing call has already applied |
| DialRouting.HTTPClient.ApplyJumpOption | lib/http/client/http_client.go:275-285 | empty disables the jump service, anything else replaces it by one with an empty cache |
| DialRouting.HTTPClient.ApplyOutproxyAddress | lib/http/client/http_client.go:287-298 | sets the address and enables the outproxy, or clears both |
| DialRouting.HTTPClient.ApplyOutproxyEnabled | lib/http/client/http_client.go:300-305 | only the flag changes |
| DialRouting.HTTPClient.DialContext | lib/http/client/new.go:45-64 | chooses the address of the one routing function |
| DialRouting.HTTPClient.Dial | lib/http/client/new.go:67-84 | chooses the same |
| DialRouting.HTTPClient.ConnectDial | lib/http/client/http_client.go:83-101 | chooses the same |
| DialRouting.HTTPClient.DialOutproxy | lib/http/client/outproxy.go:126-141 | dials the active outproxy's address, with port 80 when it names none, and refuses otherwise |
| DialRouting.HTTPClient.ResolveJump | lib/http/client/new.go:98-119 | the address to dial and the cache after the lookup |
| DialRouting.FailedSetOptionsIsPartial | lib/http/client/http_client.go:239-250 | a failed call leaves jump service and outproxy alone, but a bad outproxy is noticed only after the common options were applied |
| DialRouting.OutproxyStaysI2P | lib/http/client/http_client.go:253-305 | from construction, over any calls of SetOptions, the outproxy address is empty or an I2P address |
| DialRouting.AcceptedExactlyWhen | lib/http/client/http_client.go:239-261 | which option maps SetOptions accepts, whatever the state |
| DialRouting.OptionsInForce | lib/http/client/http_client.go:263-305 | over any calls of SetOptions, outproxy address, switch and jump service URL are those that the accepted options name last |
| DialRouting.JumpIsReplaced | lib/http/client/http_client.go:275-285 | a replaced jump service has the given URL, the default TTL and an empty cache |
| DialRouting.DialAddressIsI2P | lib/http/client/outproxy.go:75-81 | it still is one after ":80" is appended |
| DialRouting.I2PRoute | lib/http/client/new.go:45-119 | an I2P host is never refused: its jump answer is dialled if there is one, otherwise the requested address; a base32 host is dialled as it is without a lookup |
| DialRouting.Base32IsDirect | lib/http/client/new.go:98-110 | a host that ends in ".b32.i2p" in any letter case is dialled as it is, and nothing is looked up |
| DialRouting.RouteHost | lib/http/client/new.go:46-49 | the host that decides the route is the one before the port, or the whole address without a port |
| DialRouting.JumpTargetSplits | lib/http/client/new.go:98-119 | when a jump answer is dialled for an address with a port, the dialled address splits back into the answer and that port if and only if the answer has no brackets, as no I2P destination has |
| DialRouting.ClearnetRoute | lib/http/client/new.go:45-64 | any other host is dialled through the outproxy at the address that the options set last, with ":80" when it has no colon, an I2P address; it is refused if and only if that address is empty or the options switched the outproxy off; it is never dialled or looked up itself |
| Prometheus.EscapeIsEncode | lib/metrics/handler.go:224-229 | the three replacement passes equal the single-pass per-character encoder |
| Prometheus.EscapeHasLeftInverse | lib/metrics/handler.go:224-229 | a reader of escaped values recovers every label value |
| Prometheus.ScanEncoded | lib/metrics/handler.go:224-229 | it stops at the right quote whatever follows |
| Prometheus.LabelsReadBack | lib/metrics/handler.go:213-220 | formatted labels can be parsed back for all names, IDs and types |
| Prometheus.LabelsAreInjective | lib/metrics/handler.go:213-220 | equal label texts come from equal (name, ID, type) |
| Prometheus.WriteMetricFamily | lib/metrics/handler.go:196-210 | succeeds if and only if the writer takes all lines of the family, which are then written; otherwise the output is cut exactly where the writer stops |
| Prometheus.WritePrometheusMetrics | lib/metrics/handler.go:166-193 | the same for the whole exposition: success if and only if the writer takes all of it, otherwise the text up to where it stops |
| Prometheus.WroteBoth | lib/metrics/handler.go:166-210 | successive writes amount to one write of the joined text, up to and including the first that fails |
| Prometheus.ExpositionLines | lib/metrics/handler.go:166-210 | the exposition splits at newlines into exactly 9 * (2 + snapshots) terminated lines, the expected ones, whatever the labels contain |
| Prometheus.EachFamilyReportsItsCounter | lib/metrics/handler.go:120-163 | a scraper that looks up any of the eight counter and gauge names reads for every tunnel its labels and exactly the counter that the name says |
| Prometheus.UptimeIsReported | lib/metrics/handler.go:179-193 | under the ninth name it reads the uptime to the millisecond |
| Prometheus.FamiliesAreDeclared | lib/metrics/handler.go:196-202 | each family starts with its HELP and TYPE lines, seven counters and two gauges |
| CommonOptions.MergeI2CPOptions | lib/core/i2cp.go:17-26 | the loop writes every entry under its prefixed key over the given map |
| CommonOptions.ExtractI2CPOptions | lib/core/i2cp.go:34-45 | the loop returns exactly the non-empty prefixed entries under their bare keys, nil when there is none |
| CommonOptions.BuildCommonOptions | lib/core/options.go:92-100 | the map holds name, type, interface, decimal port and the prefixed I2CP entries |
| CommonOptions.BuiltShows | lib/core/options.go:92-100 | the printed map shows name, type, interface and port, and each I2CP entry under its prefixed key: text as it is, numbers in decimal, flags as words |
| CommonOptions.ConfigCell.ApplyNameOption | lib/core/options.go:126-134 | blank names are refused and leave the configuration as it was |
| CommonOptions.ConfigCell.ApplyInterfaceOption | lib/core/options.go:137-145 | the same for an interface that is neither empty nor an IP |
| CommonOptions.ConfigCell.ApplyPortOption | lib/core/options.go:148-157 | the same for a port that is not a decimal from 1 to 65535 |
| CommonOptions.ConfigCell.MergeI2CPOptionsInto | lib/core/options.go:160-170 | overrides the I2CP map by the non-empty prefixed entries |
| CommonOptions.ConfigCell.ApplyCommonOptions | lib/core/options.go:111-123 | configuration and error are those of the specification |
| CommonOptions.FailedApplyIsPartial | lib/core/options.go:111-157 | a failure has applied exactly the keys before the failing one in the order name, interface, port, and never type, port or I2CP |
| CommonOptions.PrintThenApply | lib/core/options.go:92-169 | printing then applying succeeds and restores name, interface, port and the I2CP map if and only if the name is not blank, the interface valid, the port in range and all I2CP values non-empty strings |
| CommonOptions.ApplyTwice | lib/core/options.go:111-169 | two successful applies equal one apply of the overridden map if and only if no empty value of the second hides an entry of the first |
| CommonOptions.ExtractTwice | lib/core/i2cp.go:34-45 | the same for the I2CP entries alone |
| Text.AtoiItoa | lib/core/options.go:92-157 | printing an integer in decimal and parsing it gives it back exactly when it fits int64 |
| UdpBackoff.NextBackoffBounds | lib/udp/const/const.go:40-51 | from any int64 delay the next one lies in [37.5 ms, 6.25 s) |
| UdpBackoff.ClampFails | lib/udp/const/const.go:36-51 | from 0 the lowest draw gives 37.5 ms and from 5 s the highest gives almost 6.25 s, outside the documented interval |
| UdpBackoff.ClampedExactlyWhen | lib/udp/const/const.go:36-51 | every draw stays in the documented interval if and only if the int64 delay lies between 33.333333 ms and 2 s, itself or after the doubling has wrapped around |
| UdpBackoff.DrawBound | lib/udp/const/const.go:49-49 | the bound of the random draw is always positive |
| UdpBackoff.OneStep | lib/udp/const/const.go:40-51 | below 2.5 s the delay grows by a factor in [1.5, 2.5), from there on it lands in [3.75 s, 6.25 s) |
| UdpBackoff.ReachableBounds | lib/udp/const/const.go:40-51 | every delay reached from the reset value is at least 50 ms and below 6.25 s |
| UdpBackoff.UdpServer.RunForwardLoop | lib/udp/server/udp_server.go:116-129 | verdict, counter, delay and sleeps are those of the dial trace, and its records are added to those of earlier runs |
| UdpBackoff.UdpServer.DialAndForward | lib/udp/server/udp_server.go:132-151 | one dial has the effects of one step of the loop function |
| UdpBackoff.UdpServer.HandleDialError | lib/udp/server/udp_server.go:154-170 | an error seen with done closed changes nothing; otherwise it is recorded, and fatal at the tenth or slept off |
| UdpBackoff.FatalExactlyWhen | lib/udp/server/udp_server.go:116-169 | the loop fails exactly at ten consecutive dial failures the last of which is seen with done open |
| UdpBackoff.EveryFailureIsRecorded | lib/udp/server/udp_server.go:154-165 | every dial failure that the loop takes up is recorded with its number and text, in order, and nothing else |
| UdpBackoff.MessageIsInjective | lib/udp/server/udp_server.go:161-161 | number and text can be read off a record |
| UdpBackoff.StreakIsFailuresAtEnd | lib/udp/server/udp_server.go:154-169 | the counter has reached n exactly when the last n dials failed |
| UdpBackoff.StreakIsChain | lib/udp/server/udp_server.go:132-169 | the sleeps of a streak are a chain of backoffs from the reset value, one per error that was not fatal |
| UdpBackoff.FatalStreakSleeps | lib/udp/server/udp_server.go:116-169 | a fatal streak has slept nine times, in total more than 3.7 s and less than 26.9 s |
| HostMask.MaskedTokens | lib/irc/server/sanitize.go:65-87 | masking leaves all text outside matches unchanged and turns every match into exactly "@" + host followed by whitespace or the end |
| HostMask.MaskIdempotent | lib/irc/server/sanitize.go:65-87 | masking twice equals masking once |
| HostMask.MasksFaithfullyExactlyWhen | lib/irc/server/sanitize.go:65-87 | for every alphabet of letters, masking is faithful on all texts if and only if the host is non-empty, has no whitespace and no '$' that the template language treats specially |
| HostMask.NamesAreSpecial | lib/irc/server/sanitize.go:65-87 | a '$' before a letter, digit or '_' of any alphabet is special, and masking with it is not faithful |
| HostMask.DollarZeroKeepsTheHost | lib/irc/server/sanitize.go:65-87 | with "$0" for a host the old text stays, and each masking adds to it |
| HostMask.TokensUnique | lib/irc/server/sanitize.go:14-14 | the cut of a text into matches of the pattern and other characters is the only one with longest matches that passes over none |
| HostMask.TokensOf | lib/irc/server/sanitize.go:14-14 | that cut exists and makes up the text |
| HostMask.Message.OnJoin | lib/irc/server/sanitize.go:69-74 | the callback masks the prefix and nothing else, and does nothing for an empty host |
| HostMask.Message.OnWhois | lib/irc/server/sanitize.go:80-85 | the same for the trailing text |
| WebPaths.CleanIsCharMap | lib/core/types.go:62-72 | the four passes equal one per-character map |
| WebPaths.CleanConcat | lib/core/types.go:62-72 | Clean distributes over concatenation |
| WebPaths.CleanIdempotent | lib/core/types.go:62-72 | Clean is idempotent |
| WebPaths.CleanFixes | lib/core/types.go:62-72 | an ID has no newline, tab, space or slash, and exactly the texts without them are unchanged |
| WebPaths.PagesRouteBack | webui/controller/from_home.go:20-61 | for every name, "/" + ID + "/control" and "/config" route to that action and give the ID back |
| WebRedirect.RedirectReachesExactlyWhen | webui/controller/i2p_tunnel_group.go:176-176 | for every name and either kind of client, the redirect to "/" + ID + "/control" requests that tunnel's control page if and only if the ID is not empty, no dot segment and free of '%', '?', '#', carriage returns and what the client itself refuses or rewrites |
| WebRedirect.QuestionMarkIsLost | webui/controller/i2p_tunnel_group.go:176-176 | a family of accepted names, "a?b" among them, whose redirect requests the overview instead |
| WebRedirect.OtherHost | webui/controller/i2p_tunnel_group.go:176-176 | an empty ID makes the Location name another host |
| WebRouting.ControllerGroup.ValidateNewTunnelForm | webui/controller/i2p_tunnel_group.go:197-213 | the loop refuses missing fields and exactly the names whose ID is taken |
| WebRouting.AcceptedExactlyWhen | webui/controller/i2p_tunnel_group.go:197-213 | a form is accepted if and only if it has a name and a type and no tunnel has its ID |
| WebRouting.ControllerGroup.CreateAndRegisterController | webui/controller/i2p_tunnel_group.go:180-193 | appends the tunnel and registers its labels unless the ID is registered |
| WebRouting.ControllerGroup.HandlePostNew | webui/controller/i2p_tunnel_group.go:151-177 | for a form that nothing overlaps, group and reply are those of the specification, and the client gets the redirect or status 400 unless something was written before |
| WebRouting.ControllerGroup.ServePostNew | webui/controller/i2p_tunnel_group.go:28-42 | through ServeHTTP the form has the same effect, but whatever its outcome the client gets status 200 and no Location |
| WebRouting.ControllerGroup.RouteTunnelControl | webui/controller/i2p_tunnel_group.go:60-68 | the loop reaches the first tunnel with the requested ID, or none |
| WebRouting.ControllerGroup.RouteTunnelConfig | webui/controller/i2p_tunnel_group.go:71-79 | the same for the configuration page |
| WebRouting.AddedKeepsDistinct | webui/controller/i2p_tunnel_group.go:197-213 | adding a tunnel keeps IDs distinct if and only if its ID is not taken |
| WebRouting.PostedKeeps | webui/controller/i2p_tunnel_group.go:151-193 | an accepted form that nothing overlaps keeps IDs distinct and labels right, and its redirect, followed by a client, leads to the tunnel just made if and only if the ID survives the way |
| WebForms.NextKeepsInv | webui/controller/i2p_tunnel_group.go:151-213 | with any number of forms in flight, an ID that was free at a request's check stays free among the tunnels of that time, and a file holds a name of its own ID, whoever wrote it last |
| WebForms.GrownGroup | webui/controller/i2p_tunnel_group.go:151-213 | in every interleaving of forms, IDs are distinct if and only if no request appends a tunnel whose ID was taken after the request's own check; and while they are, every tunnel reports under its own name, ID and type |
| WebForms.OverlapCollides | webui/controller/i2p_tunnel_group.go:151-213 | two overlapping forms with the same ID are both accepted, the second tunnel's pages reach the first, and it reports under the first one's labels |
| WebForms.SameId | lib/core/types.go:62-72 | "a b" and "a-b" are such names |
| WebForms.RedirectLeadsExactlyWhen | webui/controller/i2p_tunnel_group.go:151-177 | whatever else is in flight, a redirect leads to the tunnel appended for it if and only if the request was not overtaken and the ID survives the way |
| WebForms.PostIsARun | webui/controller/i2p_tunnel_group.go:151-177 | a form that nothing overlaps, with its write and its load succeeding or not, is a run of the steps |
| WebForms.PagesReachTheirTunnel | webui/controller/i2p_tunnel_group.go:60-79 | in a run in which no request was overtaken, each tunnel's control and config pages reach exactly that tunnel |
| WebRouting.TunnelsReportApart | lib/metrics/metrics.go:145-160 | with distinct IDs and right labels no two tunnels share a label set in the exposition |

## Left out

- Sockets, SAM and Garlic sessions, stream and packet forwarding, goproxy, the SOCKS5 server, YAML and file access,
  HTML templates, CSRF checks, signals and command-line flags: input, output or libraries.
- Final status and restart liveness: the code does not keep them. Running is written after lifeMu is released, a
  failed listen leaves Starting, the deferred Stop replaces Failed, and an old Start's deferred Stop can act on a
  new generation; the model has these steps but claims nothing about the resulting status.
- HTTPClient and SOCKS lifecycle and SOCKS admission: Start keeps its mutex while serving, and the SOCKS release
  re-reads its semaphore, so the conservation results are for TCPClient and tunnels that use the same pattern.
- The 64-bit width of the metrics counters, and the byte, filter-block, start and stop records: counters are
  unbounded integers.
- Replacing a tunnel's metrics while it runs: metrics are attached for the whole run or not at all.
- The error records of spawnConnection and handleConnection, and the error history as part of the TCPClient state:
  the history is modelled with the accept loop.
- Case mapping outside ASCII: ToLower maps A to Z. Strings are sequences of characters, so lengths count characters
  where Go counts bytes; in URLs the escapes of characters outside ASCII are undone on arrival and left out.
- Clients that read a Location in other ways than the two modelled, and the rest of a browser's URL parser, such as
  an escaped dot taken for a dot segment (an ID with '%' is lost in any case).
- The limit of 4096 bytes on a jump response, redirects as such, and SetClient: the parser takes the text read.
- Any claim that a redirect answer of the jump service is an I2P name: any host is accepted.
- Concurrent mutation of the Outproxy object during one dial: each dial is one step.
- A nil I2CP map versus an empty one in a configuration: both are the empty map.
- Duration parsing and printing, float formatting, and the values that `%v` prints other than strings, integers and
  booleans. The uptime is a whole number of milliseconds.
- The order of snapshots in the exposition: it follows the given sequence, the registry's own order is arbitrary.
- Appending to the list of tunnels and registering the labels: one step of the form model, though the code does it
  without a lock, so that appends that are lost or torn by a data race are not modelled. HandlePostNew is the form
  that nothing overlaps; the interleavings are in WebForms.
- Configuration files found at start-up: they are not checked for duplicate IDs, so only groups grown by the form
  are claimed to have distinct ones.
- DCC filters, header stripping, single validators, health counts and type dispatch: settled by reading one branch.
